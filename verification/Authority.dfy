/** The authority protocol of coordinator.cpp: every handler body is one step. A connection is known by
    its number, in the order of registration; a connection that was superseded keeps its handler. */
module Authority {
  import opened Words
  import opened Ordering
  import opened Resources
  import opened Records
  import opened Texts
  import opened Engine
  import P = Policies

  datatype Connection = Connection(id: u64, boot: u64, snapshot: Snapshot, alive: bool, accepted: u64)

  datatype Coordination = Coordination(connections: seq<Connection>, agents: map<u64, nat>, epoch: u64)

  const OPENING: Coordination := Coordination([], map[], 1)

  datatype Reply =
    | Registered(epoch: u64) | BootMismatch
    | Accepted(generation: u64) | StaleEpoch | StaleBoot | StaleGeneration | Silent

  /** The entry of an agent. */
  predicate Entered(s: Coordination, id: u64) { id in s.agents && s.agents[id] < |s.connections| }

  predicate Live(s: Coordination, id: u64) { Entered(s, id) && s.connections[s.agents[id]].alive }

  function Boot(s: Coordination, id: u64): u64
    requires Entered(s, id)
  {
    s.connections[s.agents[id]].boot
  }

  /** A new connection takes the entry, unless a live one claims another boot identity. */
  function Register(s: Coordination, id: u64, boot: u64): (Coordination, Reply) {
    if Live(s, id) && Boot(s, id) != boot then (s, BootMismatch)
    else
      (s.(connections := s.connections + [Connection(id, boot, DEFAULT_SNAPSHOT, true, 0)],
        agents := s.agents[id := |s.connections|]),
       Registered(s.epoch))
  }

  function Update(s: Coordination, c: nat, stamp: u64, snapshot: Snapshot): (Coordination, Reply) {
    if c >= |s.connections| then (s, Silent)
    else
      var k := s.connections[c];
      if stamp != s.epoch then (s, StaleEpoch)
      else if snapshot.bootId != k.boot || snapshot.agentId != k.id then (s, StaleBoot)
      else if k.accepted != 0 && snapshot.generation <= k.accepted then (s, StaleGeneration)
      else
        (s.(connections := s.connections[c := k.(snapshot := snapshot, accepted := snapshot.generation)]),
         Accepted(snapshot.generation))
  }

  /** The loss of connection `c` is looked up by the identity of its agent. */
  function Lose(s: Coordination, c: nat): Coordination {
    if c >= |s.connections| || !Live(s, s.connections[c].id) then s
    else
      var n := s.agents[s.connections[c].id];
      s.(connections := s.connections[n := s.connections[n].(alive := false)], epoch := Next(s.epoch))
  }

  datatype Op = OpRegister(id: u64, boot: u64) | OpUpdate(c: nat, stamp: u64, snapshot: Snapshot) | OpLose(c: nat)

  function Apply(s: Coordination, op: Op): Coordination {
    match op
    case OpRegister(id, boot) => Register(s, id, boot).0
    case OpUpdate(c, stamp, snapshot) => Update(s, c, stamp, snapshot).0
    case OpLose(c) => Lose(s, c)
  }

  function Run(s: Coordination, ops: seq<Op>): Coordination
    decreases |ops|
  {
    if ops == [] then s else Run(Apply(s, ops[0]), ops[1..])
  }

  // ---------- What every step keeps ----------

  /** Entries point at connections of their agent; a snapshot is the initial one or carries the
      identity of its connection; and the accepted generation is that of the snapshot. */
  predicate Coherent(s: Coordination) {
    && (forall id | id in s.agents :: s.agents[id] < |s.connections| && s.connections[s.agents[id]].id == id)
    && (forall i :: 0 <= i < |s.connections| ==>
          var k := s.connections[i];
          && k.accepted == k.snapshot.generation
          && (k.snapshot == DEFAULT_SNAPSHOT || (k.snapshot.agentId == k.id && k.snapshot.bootId == k.boot)))
  }

  lemma ApplyCoherent(s: Coordination, op: Op)
    requires Coherent(s)
    ensures Coherent(Apply(s, op))
  {
  }

  lemma {:induction false} RunCoherentFrom(s: Coordination, ops: seq<Op>)
    requires Coherent(s)
    ensures Coherent(Run(s, ops))
    decreases |ops|
  {
    hide Coherent, Apply;
    if ops != [] {
      ApplyCoherent(s, ops[0]);
      RunCoherentFrom(Apply(s, ops[0]), ops[1..]);
    }
  }

  lemma OpeningCoherent()
    ensures Coherent(OPENING)
  {
  }

  /** Every interleaving of registrations, updates and losses, from the opening, leads to a coherent state. */
  lemma RunCoherent(ops: seq<Op>)
    ensures Coherent(Run(OPENING, ops))
  {
    OpeningCoherent();
    RunCoherentFrom(OPENING, ops);
  }

  /** From `s` to `t` no connection disappears or changes its identity, generations do not fall, a dead
      connection stays dead, and the epoch does not fall. */
  predicate Follows(s: Coordination, t: Coordination) {
    && s.epoch <= t.epoch && |s.connections| <= |t.connections| && s.agents.Keys <= t.agents.Keys
    && forall i :: 0 <= i < |s.connections| ==>
         var k, l := s.connections[i], t.connections[i];
         l.id == k.id && l.boot == k.boot && k.accepted <= l.accepted && (l.alive ==> k.alive)
  }

  lemma ApplyFollows(s: Coordination, op: Op)
    ensures Follows(s, Apply(s, op))
  {
  }

  lemma FollowsTransitive(s: Coordination, t: Coordination, u: Coordination)
    requires Follows(s, t) && Follows(t, u)
    ensures Follows(s, u)
  {
  }

  lemma {:induction false} RunFollows(s: Coordination, ops: seq<Op>)
    ensures Follows(s, Run(s, ops))
    decreases |ops|
  {
    hide Follows, Apply;
    if ops == [] {
      FollowsItself(s);
    } else {
      ApplyFollows(s, ops[0]);
      RunFollows(Apply(s, ops[0]), ops[1..]);
      FollowsTransitive(s, Apply(s, ops[0]), Run(s, ops));
    }
  }

  lemma FollowsItself(s: Coordination)
    ensures Follows(s, s)
  {
  }

  // ---------- Fencing ----------

  /** The step turns a live entry dead. */
  predicate Fences(s: Coordination, op: Op) { op.OpLose? && op.c < |s.connections| && Live(s, s.connections[op.c].id) }

  /** A fence raises the epoch, except at the largest epoch; nothing else changes it. */
  lemma FenceRaisesExactly(s: Coordination, op: Op)
    ensures Apply(s, op).epoch > s.epoch <==> Fences(s, op) && s.epoch < U64_MAX
    ensures Apply(s, op).epoch >= s.epoch
  {
  }

  /** Authority handed out before a fence is worthless after it: whatever happened before and whatever
      happens afterwards, no capacity update with a stamp from before the fence is accepted, on any
      connection, unless the epoch had run out of values. */
  lemma NoStaleAuthority(s: Coordination, before: seq<Op>, fence: Op, after: seq<Op>, c: nat, stamp: u64,
    snapshot: Snapshot)
    requires stamp <= s.epoch
    requires Fences(Run(s, before), fence) && Run(s, before).epoch < U64_MAX
    ensures var t := Run(Apply(Run(s, before), fence), after);
            Update(t, c, stamp, snapshot).0 == t && !Update(t, c, stamp, snapshot).1.Accepted?
  {
    hide Run, Apply, Fences, Live;
    RunFollows(s, before);
    FenceRaisesExactly(Run(s, before), fence);
    RunFollows(Apply(Run(s, before), fence), after);
  }

  /** At the largest epoch a fence no longer changes the epoch, and stamps survive it. */
  lemma SaturatedEpochKeepsAuthority(s: Coordination, fence: Op, c: nat, snapshot: Snapshot)
    requires Fences(s, fence) && s.epoch == U64_MAX
    ensures Update(s, c, s.epoch, snapshot).1 == Update(Apply(s, fence), c, s.epoch, snapshot).1
  {
  }

  // ---------- Generations ----------

  /** Once a connection has had a generation other than zero accepted, whatever is accepted on it later
      has a larger one. */
  lemma GenerationsIncrease(s: Coordination, c: nat, first: u64, a: Snapshot, between: seq<Op>, second: u64,
    b: Snapshot)
    requires Update(s, c, first, a).1.Accepted? && a.generation != 0
    requires Update(Run(Update(s, c, first, a).0, between), c, second, b).1.Accepted?
    ensures b.generation > a.generation
  {
    hide Run;
    RunFollows(Update(s, c, first, a).0, between);
  }

  /** The generations that a run has accepted on connection `c`, in order. */
  function AcceptedOn(s: Coordination, ops: seq<Op>, c: nat): seq<u64>
    decreases |ops|
  {
    if ops == [] then []
    else
      (if ops[0].OpUpdate? && ops[0].c == c && Update(s, c, ops[0].stamp, ops[0].snapshot).1.Accepted?
       then [ops[0].snapshot.generation] else [])
      + AcceptedOn(Apply(s, ops[0]), ops[1..], c)
  }

  /** The generation on record for a connection; zero if there is none. */
  function OnRecord(s: Coordination, c: nat): u64 { if c < |s.connections| then s.connections[c].accepted else 0 }

  lemma StepRecords(s: Coordination, op: Op, c: nat)
    ensures OnRecord(Apply(s, op), c) ==
              if op.OpUpdate? && op.c == c && Update(s, c, op.stamp, op.snapshot).1.Accepted?
              then op.snapshot.generation else OnRecord(s, c)
  {
  }

  lemma {:induction false} LastOnRecord(s: Coordination, ops: seq<Op>, c: nat)
    ensures var acc := AcceptedOn(s, ops, c);
            OnRecord(Run(s, ops), c) == if acc == [] then OnRecord(s, c) else acc[|acc| - 1]
    decreases |ops|
  {
    hide Apply, Update, OnRecord;
    if ops != [] {
      StepRecords(s, ops[0], c);
      LastOnRecord(Apply(s, ops[0]), ops[1..], c);
    }
  }

  /** After every run from the opening, an update on a connection, with the current epoch and the connection's
      own identities, is accepted if and only if no generation other than zero was accepted on it before, or
      this one is larger than the last that was. */
  lemma UpdateAcceptedExactly(ops: seq<Op>, c: nat, snapshot: Snapshot)
    requires c < |Run(OPENING, ops).connections|
    requires var k := Run(OPENING, ops).connections[c]; snapshot.agentId == k.id && snapshot.bootId == k.boot
    ensures var s := Run(OPENING, ops); var acc := AcceptedOn(OPENING, ops, c);
            Update(s, c, s.epoch, snapshot).1 == Accepted(snapshot.generation) <==>
              (forall g | g in acc :: g == 0) || snapshot.generation > acc[|acc| - 1]
  {
    hide Run, AcceptedOn;
    LastOnRecord(OPENING, ops, c);
    ZerosOrLast(OPENING, ops, c);
  }

  /** Once a generation other than zero is on record, no zero is accepted any more. */
  lemma {:induction false} NoZeroLater(s: Coordination, ops: seq<Op>, c: nat)
    requires OnRecord(s, c) != 0
    ensures forall g | g in AcceptedOn(s, ops, c) :: g != 0
    decreases |ops|
  {
    hide Apply, OnRecord;
    if ops != [] {
      StepRecords(s, ops[0], c);
      AcceptedIsNotZero(s, ops[0], c);
      NoZeroLater(Apply(s, ops[0]), ops[1..], c);
    }
  }

  lemma AcceptedIsNotZero(s: Coordination, op: Op, c: nat)
    requires OnRecord(s, c) != 0
    ensures op.OpUpdate? && op.c == c && Update(s, c, op.stamp, op.snapshot).1.Accepted? ==> op.snapshot.generation != 0
  {
  }

  lemma ZerosInFront(g: u64, tail: seq<u64>)
    requires (forall x | x in tail :: x == 0) <==> tail == [] || tail[|tail| - 1] == 0
    requires g != 0 ==> forall x | x in tail :: x != 0
    ensures (forall x | x in [g] + tail :: x == 0) <==> ([g] + tail)[|tail|] == 0
  {
    var acc := [g] + tail;
    assert g in acc && forall x :: x in acc <==> x == g || x in tail;
    if tail != [] { assert acc[|tail|] == tail[|tail| - 1] && tail[|tail| - 1] in tail; }
  }

  lemma {:induction false} ZerosOrLast(s: Coordination, ops: seq<Op>, c: nat)
    ensures var acc := AcceptedOn(s, ops, c); (forall g | g in acc :: g == 0) <==> acc == [] || acc[|acc| - 1] == 0
    decreases |ops|
  {
    hide Apply, OnRecord, Update;
    if ops != [] {
      var t := Apply(s, ops[0]);
      ZerosOrLast(t, ops[1..], c);
      StepRecords(s, ops[0], c);
      var tail := AcceptedOn(t, ops[1..], c);
      if OnRecord(t, c) != 0 { NoZeroLater(t, ops[1..], c); }
      if AcceptedOn(s, ops, c) != tail {
        var g := ops[0].snapshot.generation;
        assert AcceptedOn(s, ops, c) == [g] + tail && OnRecord(t, c) == g;
        ZerosInFront(g, tail);
      }
    }
  }

  /** An update is answered by the first check that it fails, and changes nothing then; one that is accepted
      changes the snapshot of its connection to the one sent, and no other connection, entry or epoch. */
  lemma UpdateExactly(s: Coordination, c: nat, stamp: u64, snapshot: Snapshot)
    requires c < |s.connections|
    ensures var t, reply := Update(s, c, stamp, snapshot).0, Update(s, c, stamp, snapshot).1;
            var k := s.connections[c];
            var own := snapshot.agentId == k.id && snapshot.bootId == k.boot;
            && (reply == StaleEpoch <==> stamp != s.epoch)
            && (reply == StaleBoot <==> stamp == s.epoch && !own)
            && (reply == StaleGeneration <==>
                  stamp == s.epoch && own && k.accepted > 0 && snapshot.generation <= k.accepted)
            && (reply == Accepted(snapshot.generation) <==> reply !in {StaleEpoch, StaleBoot, StaleGeneration})
            && (if reply.Accepted? then
                  && |t.connections| == |s.connections| && t.agents == s.agents && t.epoch == s.epoch
                  && (forall i :: 0 <= i < |s.connections| && i != c ==> t.connections[i] == s.connections[i])
                  && t.connections[c].snapshot == snapshot && t.connections[c].accepted == snapshot.generation
                  && t.connections[c].id == k.id && t.connections[c].boot == k.boot && t.connections[c].alive == k.alive
                else t == s)
  {
  }

  /** A registration is refused exactly while the entry of its agent is live under another boot identity;
      otherwise it makes a live connection with nothing accepted and takes over the entry. Connections, other
      entries and the epoch stay as they are. */
  lemma RegisterExactly(s: Coordination, id: u64, boot: u64)
    ensures var t, reply := Register(s, id, boot).0, Register(s, id, boot).1; var n := |s.connections|;
            && (reply == BootMismatch <==>
                  id in s.agents && s.agents[id] < n && s.connections[s.agents[id]].alive &&
                  s.connections[s.agents[id]].boot != boot)
            && (reply == Registered(s.epoch) <==> reply != BootMismatch)
            && (if reply == BootMismatch then t == s
                else
                  && |t.connections| == n + 1 && t.connections[..n] == s.connections && t.epoch == s.epoch
                  && t.connections[n] == Connection(id, boot, DEFAULT_SNAPSHOT, true, 0)
                  && t.agents.Keys == s.agents.Keys + {id} && t.agents[id] == n
                  && forall a | a in s.agents && a != id :: t.agents[a] == s.agents[a])
  {
  }

  /** A loss kills exactly the connection that the entry of the lost one's agent points at, if that is live,
      and advances the epoch; without such a connection nothing happens. */
  lemma LoseExactly(s: Coordination, c: nat)
    requires Coherent(s) && c < |s.connections|
    ensures var t := Lose(s, c); var id := s.connections[c].id;
            && t.agents == s.agents && |t.connections| == |s.connections|
            && (forall i :: 0 <= i < |s.connections| ==>
                  t.connections[i] == if id in s.agents && s.agents[id] == i
                                      then s.connections[i].(alive := false) else s.connections[i])
            && t.epoch == (if id in s.agents && s.connections[s.agents[id]].alive && s.epoch < U64_MAX
                           then s.epoch + 1 else s.epoch)
  {
  }

  // ---------- Boot identities ----------

  predicate FencesAgent(s: Coordination, op: Op, id: u64) { Fences(s, op) && s.connections[op.c].id == id }

  predicate NeverFenced(s: Coordination, ops: seq<Op>, id: u64)
    decreases |ops|
  {
    ops != [] ==> !FencesAgent(s, ops[0], id) && NeverFenced(Apply(s, ops[0]), ops[1..], id)
  }

  lemma StepKeepsBoot(s: Coordination, op: Op, id: u64)
    requires Coherent(s) && Live(s, id) && !FencesAgent(s, op, id)
    ensures Live(Apply(s, op), id) && Boot(Apply(s, op), id) == Boot(s, id)
  {
  }

  /** The boot identity of a live agent changes only after the agent has been fenced. */
  lemma {:induction false} BootChangesOnlyAfterFence(s: Coordination, ops: seq<Op>, id: u64)
    requires Coherent(s) && Live(s, id) && NeverFenced(s, ops, id)
    ensures Live(Run(s, ops), id) && Boot(Run(s, ops), id) == Boot(s, id)
    decreases |ops|
  {
    hide Coherent, Live, Boot, Apply, FencesAgent;
    if ops != [] {
      StepKeepsBoot(s, ops[0], id);
      ApplyCoherent(s, ops[0]);
      BootChangesOnlyAfterFence(Apply(s, ops[0]), ops[1..], id);
    }
  }

  // ---------- The loss of a superseded connection ----------

  /** The loss of a connection fences some other connection exactly if the entry of its agent has gone
      over to another connection, which is live. */
  lemma LossHitsSuccessorExactly(s: Coordination, c: nat)
    requires Coherent(s) && c < |s.connections|
    ensures var t := Lose(s, c);
            (exists n :: 0 <= n < |s.connections| && n != c && s.connections[n].alive && !t.connections[n].alive)
            <==> Live(s, s.connections[c].id) && s.agents[s.connections[c].id] != c
  {
    var id := s.connections[c].id;
    if Live(s, id) && s.agents[id] != c {
      var n := s.agents[id];
      assert s.connections[n].alive && !Lose(s, c).connections[n].alive;
    }
  }

  /** An agent that reconnects under the same boot identity is fenced by the loss of the connection it
      left, and nothing but a new registration brings it back. */
  lemma SupersededLoss(s: Coordination, id: u64, later: seq<Op>)
    requires Coherent(s) && Live(s, id) && s.epoch < U64_MAX
    ensures var former, newest := s.agents[id], |s.connections|;
            var t := Register(s, id, Boot(s, id)).0; var u := Lose(t, former);
            && t.agents[id] == newest && Live(t, id)
            && !Live(u, id) && u.epoch > t.epoch
            && newest < |Run(u, later).connections| && !Run(u, later).connections[newest].alive
  {
    hide Run;
    var t := Register(s, id, Boot(s, id)).0;
    RunFollows(Lose(t, s.agents[id]), later);
  }

  // ---------- Choosing a snapshot ----------

  function Needed(d: Descriptor): set<bytes> {
    (if d.backend != [] then {Ascii("backend=") + d.backend} else {})
    + (if d.dtype != [] then {Ascii("dtype=") + d.dtype} else {})
  }

  /** Headroom: what is neither used nor reserved. */
  function Free(s: Snapshot): u64 { SatSubVec(SatSubVec(s.total, s.used), s.reserved)[ACCELERATOR_MEMORY] }

  /** The agent is live and covers what the request names. */
  predicate Qualifies(s: Coordination, d: Descriptor, id: u64) {
    Live(s, id) && Needed(d) <= s.connections[s.agents[id]].snapshot.capabilities
  }

  function SnapshotOf(s: Coordination, id: u64): Snapshot
    requires Entered(s, id)
  {
    s.connections[s.agents[id]].snapshot
  }

  /** Most free accelerator memory, and the lowest identity among equals. */
  ghost predicate IsChoice(s: Coordination, d: Descriptor, id: u64) {
    && Qualifies(s, d, id)
    && forall j :: Qualifies(s, d, j) ==>
         Free(SnapshotOf(s, j)) < Free(SnapshotOf(s, id)) ||
           (Free(SnapshotOf(s, j)) == Free(SnapshotOf(s, id)) && id <= j)
  }

  /** The choice among the agents seen so far. */
  ghost predicate ChoiceAmong(s: Coordination, d: Descriptor, keys: seq<u64>, best: Option<u64>) {
    if best.None? then forall k | k in keys :: !Qualifies(s, d, k)
    else
      && Qualifies(s, d, best.value) && best.value in keys
      && forall k | k in keys && Qualifies(s, d, k) ::
           Free(SnapshotOf(s, k)) < Free(SnapshotOf(s, best.value)) ||
           (Free(SnapshotOf(s, k)) == Free(SnapshotOf(s, best.value)) && best.value <= k)
  }

  /** The scan visits the agents in ascending order and replaces its choice only by more free memory. */
  lemma ChoiceNext(s: Coordination, d: Descriptor, keys: seq<u64>, i: nat, best: Option<u64>, next: Option<u64>)
    requires i < |keys| && (forall k | k in keys[..i] :: k < keys[i]) && ChoiceAmong(s, d, keys[..i], best)
    requires next == if Qualifies(s, d, keys[i]) &&
             (best.None? || Free(SnapshotOf(s, keys[i])) > Free(SnapshotOf(s, best.value)))
                     then Some(keys[i]) else best
    ensures ChoiceAmong(s, d, keys[..i + 1], next)
  {
    hide Needed, Free;
    assert keys[..i + 1] == keys[..i] + [keys[i]];
  }

  lemma ChoiceMade(s: Coordination, d: Descriptor, keys: seq<u64>, best: Option<u64>)
    requires ChoiceAmong(s, d, keys, best) && forall id | id in s.agents :: id in keys
    ensures best.None? <==> forall id :: !Qualifies(s, d, id)
    ensures best.Some? ==> IsChoice(s, d, best.value)
  {
    hide Needed, Free;
  }

  /** What is free is what is left of the accelerator memory after what is used and what is reserved, or
      nothing. */
  lemma FreeExactly(s: Snapshot)
    ensures var left := s.total[0] as int - s.used[0] - s.reserved[0]; Free(s) == if left > 0 then left else 0
  {
  }

  /** An agent qualifies exactly if its connection is live and its snapshot has a token for the backend and for
      the data type of the request, as far as it names them. */
  lemma QualifiesExactly(s: Coordination, d: Descriptor, id: u64)
    ensures Qualifies(s, d, id) <==>
            && id in s.agents && s.agents[id] < |s.connections| && s.connections[s.agents[id]].alive
            && var tokens := s.connections[s.agents[id]].snapshot.capabilities;
            && (d.backend == [] || Ascii("backend=") + d.backend in tokens)
            && (d.dtype == [] || Ascii("dtype=") + d.dtype in tokens)
  {
    hide Ascii;
  }

  /** The choice is unique. */
  lemma ChoiceUnique(s: Coordination, d: Descriptor, i: u64, j: u64)
    requires IsChoice(s, d, i) && IsChoice(s, d, j)
    ensures i == j
  {
  }

  /** The engine's capability gate asks for more than the choice does: a chosen snapshot passes it
      exactly if the quantization, which only the gate looks at, is covered too. */
  lemma ChosenIsCapableExactly(s: Coordination, d: Descriptor, id: u64)
    requires Qualifies(s, d, id)
    ensures Capable(SnapshotOf(s, id), d) <==>
            d.backend == [] || d.quantization == [] ||
              Ascii("quant=") + d.quantization in SnapshotOf(s, id).capabilities
  {
  }

  // ---------- Evaluating a request ----------

  /** What the engine is shown when no agent qualifies. */
  function Nothing(epoch: u64, now: int): Snapshot {
    DEFAULT_SNAPSHOT.(
      generation := epoch, timestamp := now,
      provenance := [
        UNAVAILABLE, UNAVAILABLE, UNAVAILABLE, UNAVAILABLE, UNAVAILABLE, UNAVAILABLE,
        UNAVAILABLE, UNAVAILABLE, UNAVAILABLE, UNAVAILABLE, UNAVAILABLE, UNAVAILABLE])
  }

  /** A client's request, once a snapshot was chosen or none was found. */
  function Serve(e: Engine, chosen: Option<Snapshot>, epoch: u64, now: int, q: Query): (Engine, Decision) {
    Evaluate(SetSnapshot(e, if chosen.Some? then chosen.value else Nothing(epoch, now)), q)
  }

  /** With a chosen snapshot the request is evaluated on that snapshot, its total being the capacity; without
      one, on an empty snapshot of the current epoch and time in which no dimension is known. */
  lemma ServedExactly(e: Engine, chosen: Option<Snapshot>, epoch: u64, now: int, q: Query)
    ensures exists s: Snapshot ::
      && Serve(e, chosen, epoch, now, q) ==
           Evaluate(e.(snapshot := s, hasSnapshot := true, ledger := e.ledger.(total := s.total)), q)
      && (chosen.Some? ==> chosen.value == s)
      && (chosen.None? ==>
            && s.generation == epoch && s.timestamp == now && s.total == ZERO && s.capabilities == {}
            && forall i :: 0 <= i < 12 ==> s.provenance[i] == 6 && s.pressure[i] == 0)
  {
    hide Evaluate;
    var s := if chosen.Some? then chosen.value else Nothing(epoch, now);
    assert Serve(e, chosen, epoch, now, q) ==
      Evaluate(e.(snapshot := s, hasSnapshot := true, ledger := e.ledger.(total := s.total)), q);
  }

  /** The gate that stops a request when no agent qualifies, at a time of evaluation that need not be the
      time at which the empty snapshot was made. */
  function NothingStop(p: Policy, now: int, q: Query): int {
    if q.d.backend != [] then REJECT_CAPABILITY
    else if q.now - now > p.maxSnapshotAge && !p.acceptStaleSnapshot then REJECT_STALE
    else DEFER_CAPACITY
  }

  lemma NothingStops(e: Engine, p: Policy, epoch: u64, now: int, q: Query)
    ensures Stopped(SetSnapshot(e, Nothing(epoch, now)), p, q) == Some(NothingStop(p, now, q))
  {
    assert Nothing(epoch, now).provenance[0] == UNAVAILABLE;
    assert q.d.backend != [] ==> Ascii("backend=") + q.d.backend in RequiredTokens(q.d);
  }

  /** With no qualifying agent, a request that gets past validation is deferred if and only if it names no
      backend and the clock has not outrun the policy's tolerance since the empty snapshot was made.
      If it names a backend it is rejected for capability, since that gate comes first; otherwise it is
      rejected as stale. */
  lemma NoAgentDefersExactly(e: Engine, epoch: u64, now: int, q: Query)
    requires WellFormed(q.d) && !Duplicate(e.requests, q.d.admissionRequestId) && P.Latest(e.history).Some?
    ensures var p := P.Effective(q.d, P.Latest(e.history).value); var dec := Serve(e, None, epoch, now, q).1;
            && dec.reason == NothingStop(p, now, q) && dec.snapshotGeneration == epoch
            && (dec.outcome == OUTCOME_DEFER <==>
                  q.d.backend == [] && (q.now - now <= p.maxSnapshotAge || p.acceptStaleSnapshot))
            && (dec.outcome != OUTCOME_DEFER ==> dec.outcome == OUTCOME_REJECT)
  {
    hide WellFormed, Duplicate, P.Effective, Stopped, Emit, Transition, Under, Place;
    NothingStops(e, P.Effective(q.d, P.Latest(e.history).value), epoch, now, q);
  }
}
