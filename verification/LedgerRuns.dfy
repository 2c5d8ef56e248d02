/** What every run of the ledger keeps. */
module LedgerRuns {
  import opened Words
  import opened Resources
  import opened Records
  import opened Ledger

  datatype Op =
    | OpReserve(id: u64, owner: u64, demand: Vec, ttl: int, now: int)
    | OpCommit(id: u64, request: u64, generation: u64, now: int)
    | OpRollback(id: u64)
    | OpRelease(id: u64)
    | OpSweep(now: int)
    | OpSetTotal(total: Vec)
    | OpSetMode(mode: byte)
    | OpSetAllowance(allowance: Vec)

  function Apply(l: Ledger, op: Op): Ledger {
    match op
    case OpReserve(id, owner, demand, ttl, now) => Reserve(l, id, owner, demand, ttl, now).0
    case OpCommit(id, request, generation, now) => Commit(l, id, request, generation, now).0
    case OpRollback(id) => Rollback(l, id).0
    case OpRelease(id) => Release(l, id).0
    case OpSweep(now) => Sweep(l, now)
    case OpSetTotal(total) => l.(total := total)
    case OpSetMode(mode) => l.(mode := mode)
    case OpSetAllowance(allowance) => l.(allowance := allowance)
  }

  function Run(l: Ledger, ops: seq<Op>): Ledger
    decreases |ops|
  {
    if ops == [] then l else Run(Apply(l, ops[0]), ops[1..])
  }

  lemma ApplySound(l: Ledger, op: Op)
    requires Sound(l)
    ensures Sound(Apply(l, op))
  {
    match op
    case OpReserve(id, owner, demand, ttl, now) => ReserveSound(l, id, owner, demand, ttl, now);
    case OpCommit(id, request, generation, now) => CommitSound(l, id, request, generation, now);
    case OpRollback(id) => RollbackSound(l, id);
    case OpRelease(id) => ReleaseSound(l, id);
    case OpSweep(now) => SweepSound(l, now);
    case _ =>
  }

  lemma {:induction false} RunSoundFrom(l: Ledger, ops: seq<Op>)
    requires Sound(l)
    ensures Sound(Run(l, ops))
    decreases |ops|
  {
    hide Sound, Apply;
    if ops != [] {
      ApplySound(l, ops[0]);
      RunSoundFrom(Apply(l, ops[0]), ops[1..]);
    }
  }

  /** Whatever is reserved, committed, given back, swept or reconfigured, in any order: the reserved
      vector is the sum over the Reserved entries, the used vector the sum over the Committed ones,
      and the two together never exceed a 64-bit word. */
  lemma RunSound(ops: seq<Op>)
    ensures Sound(Run(EMPTY, ops))
  {
    EmptySound();
    RunSoundFrom(EMPTY, ops);
  }

  /** In a sound ledger the checked arithmetic of commit, rollback, release and expiry never fails. */
  lemma NoArithmeticError(l: Ledger, id: u64, request: u64, generation: u64, now: int)
    requires Sound(l)
    ensures Commit(l, id, request, generation, now).1 !in {ReservationRollbackError, ReservationOverflow}
    ensures Rollback(l, id).1 != ReservationRollbackError
    ensures Release(l, id).1 !in {ReservationRollbackError, DoubleRelease}
    ensures id in l.table && Stale(l.table[id], now) ==>
              id in WithStatus(Expire(l, id).table, Expired) && id in WithStatus(Sweep(l, now).table, Expired)
  {
    hide Sound, Sweep, WithStatus, Close, Sub, Add;
    if id in l.table {
      SoundCovers(l, id);
      if Stale(l.table[id], now) { StaleExpires(l, id, now); }
    }
  }

  lemma StaleExpires(l: Ledger, id: u64, now: int)
    requires Sound(l) && id in l.table && Stale(l.table[id], now)
    ensures id in WithStatus(Expire(l, id).table, Expired) && id in WithStatus(Sweep(l, now).table, Expired)
  {
    hide Sound, Sweep;
    SweepSound(l, now);
    ExpireSound(l, id);
  }

  // ---------- The ceiling ----------

  lemma SweepShrinks(l: Ledger, now: int)
    requires Sound(l)
    ensures FitsIn(Sweep(l, now).reserved, l.reserved)
  {
    hide Held, Sweep;
    SweepSound(l, now);
    var m := Sweep(l, now);
    assert WithStatus(m.table, Reserved) <= WithStatus(l.table, Reserved);
    forall d | 0 <= d < 12 ensures m.reserved[d] <= l.reserved[d] {
      SubsetHeld(m.table, l.table, Reserved, d);
    }
  }

  lemma SubsetHeld(t: Table, u: Table, status: Status, d: nat)
    requires d < 12 && WithStatus(t, status) <= WithStatus(u, status)
    requires forall id | id in WithStatus(t, status) :: t[id].demand == u[id].demand
    ensures Held(t, status, d) <= Held(u, status, d)
  {
    var a, b := WithStatus(t, status), WithStatus(u, status);
    SumSame(a, t, u, d);
    SumUnion(a, b - a, u, d);
    assert a + (b - a) == b;
  }

  lemma ReserveWithin(l: Ledger, id: u64, owner: u64, demand: Vec, ttl: int, now: int)
    requires Within(l)
    ensures Within(Reserve(l, id, owner, demand, ttl, now).0)
  {
    var m := Reserve(l, id, owner, demand, ttl, now).0;
    if Reserve(l, id, owner, demand, ttl, now).1 == Ok {
      forall d | 0 <= d < 12 ensures m.reserved[d] + m.used[d] <= DimCeiling(m, d) {
        assert Add(l.used, m.reserved)[d] <= Ceiling(l)[d];
        assert DimCeiling(m, d) == DimCeiling(l, d);
      }
    }
  }

  /** What a commit, rollback or release of one entry does to the sum of the vectors. */
  lemma EntryShrinks(l: Ledger, id: u64, request: u64, generation: u64, now: int)
    requires Sound(l)
    ensures forall m | m in {Commit(l, id, request, generation, now).0, Rollback(l, id).0, Release(l, id).0} ::
              m.total == l.total && m.allowance == l.allowance && m.mode == l.mode &&
              forall d :: 0 <= d < 12 ==> m.reserved[d] + m.used[d] <= l.reserved[d] + l.used[d]
  {
    if id in l.table { SoundCovers(l, id); }
    hide Sound;
  }

  /** If the step reconfigures the ledger, the ceiling that it sets covers what is held. */
  predicate CeilingCovers(l: Ledger, op: Op) {
    op.OpSetTotal? || op.OpSetMode? || op.OpSetAllowance? ==>
      forall d :: 0 <= d < 12 ==> l.reserved[d] + l.used[d] <= DimCeiling(Apply(l, op), d)
  }

  /** A step keeps held capacity within the ceiling if and only if it is no reconfiguration, or one whose
      new ceiling covers what is held. */
  lemma ApplyWithin(l: Ledger, op: Op)
    requires Sound(l) && Within(l)
    ensures Within(Apply(l, op)) <==> CeilingCovers(l, op)
  {
    hide Sound, DimCeiling, Reserve, Commit, Rollback, Release, Sweep;
    match op
    case OpReserve(id, owner, demand, ttl, now) => ReserveWithin(l, id, owner, demand, ttl, now);
    case OpCommit(id, request, generation, now) => ShrunkWithin(l, id, request, generation, now);
    case OpRollback(id) => ShrunkWithin(l, id, 0, 0, 0);
    case OpRelease(id) => ShrunkWithin(l, id, 0, 0, 0);
    case OpSweep(now) => SweepWithin(l, now);
    case _ =>
  }

  lemma ShrunkWithin(l: Ledger, id: u64, request: u64, generation: u64, now: int)
    requires Sound(l) && Within(l)
    ensures Within(Commit(l, id, request, generation, now).0) && Within(Rollback(l, id).0) && Within(Release(l, id).0)
  {
    hide Sound, Commit, Rollback, Release;
    EntryShrinks(l, id, request, generation, now);
  }

  lemma SweepWithin(l: Ledger, now: int)
    requires Sound(l) && Within(l)
    ensures Within(Sweep(l, now))
  {
    hide Sound, Sweep;
    SweepShrinks(l, now);
    SweepSound(l, now);
  }

  /** Held capacity is within the ceiling after every step. */
  predicate AlwaysWithin(l: Ledger, ops: seq<Op>)
    decreases |ops|
  {
    ops != [] ==> Within(Apply(l, ops[0])) && AlwaysWithin(Apply(l, ops[0]), ops[1..])
  }

  predicate AlwaysCovers(l: Ledger, ops: seq<Op>)
    decreases |ops|
  {
    ops != [] ==> CeilingCovers(l, ops[0]) && AlwaysCovers(Apply(l, ops[0]), ops[1..])
  }

  /** Held capacity stays within the ceiling throughout a run if and only if every reconfiguration in it
      sets a ceiling that covers what is held at that moment. */
  lemma {:induction false} RunWithin(l: Ledger, ops: seq<Op>)
    requires Sound(l) && Within(l)
    ensures AlwaysWithin(l, ops) <==> AlwaysCovers(l, ops)
    decreases |ops|
  {
    hide Sound, Within, Apply, CeilingCovers;
    if ops != [] {
      ApplySound(l, ops[0]);
      ApplyWithin(l, ops[0]);
      if Within(Apply(l, ops[0])) { RunWithin(Apply(l, ops[0]), ops[1..]); }
    }
  }

  predicate CeilingNeverLowered(l: Ledger, ops: seq<Op>)
    decreases |ops|
  {
    ops != [] ==>
      FitsIn(Ceiling(l), Ceiling(Apply(l, ops[0]))) && CeilingNeverLowered(Apply(l, ops[0]), ops[1..])
  }

  lemma RaisedCovers(l: Ledger, op: Op)
    requires Within(l) && FitsIn(Ceiling(l), Ceiling(Apply(l, op)))
    ensures CeilingCovers(l, op)
  {
    hide DimCeiling, Apply;
    assert forall d :: 0 <= d < 12 ==> Ceiling(l)[d] <= Ceiling(Apply(l, op))[d];
  }

  /** In particular, a run that never lowers the ceiling keeps held capacity within it throughout. */
  lemma {:induction false} NeverLoweredWithin(l: Ledger, ops: seq<Op>)
    requires Sound(l) && Within(l) && CeilingNeverLowered(l, ops)
    ensures AlwaysWithin(l, ops) && Within(Run(l, ops))
    decreases |ops|
  {
    hide Sound, Within, Apply, Ceiling, CeilingCovers;
    if ops != [] {
      ApplySound(l, ops[0]);
      RaisedCovers(l, ops[0]);
      ApplyWithin(l, ops[0]);
      NeverLoweredWithin(Apply(l, ops[0]), ops[1..]);
    }
  }

  function Only(n: u64): Vec { [n, 0, 0, 0, 0, 0, 0, 0, 0, 0, 0, 0] }

  const TEN: Ledger := Ledger(Only(10), ZERO, 0, ZERO, ZERO, map[], 1)

  lemma FiveFits()
    ensures Reserve(TEN, 1, 1, Only(5), 10, 0).1 == Ok
  {
    assert DimCeiling(TEN, 0) == 10 && forall i :: 0 < i < 12 ==> DimCeiling(TEN, i) == UNBOUNDED;
    assert Only(5)[0] == 5;
    assert FitsIn(Add(ZERO, Add(ZERO, Only(5))), Ceiling(TEN));
  }

  lemma FiveOfTen()
    ensures Within(Reserve(TEN, 1, 1, Only(5), 10, 0).0)
    ensures !Within(Reserve(TEN, 1, 1, Only(5), 10, 0).0.(total := Only(3)))
  {
    hide FitsIn, AddFits, IsZero;
    FiveFits();
    var m := Reserve(TEN, 1, 1, Only(5), 10, 0).0;
    assert m.reserved == Add(ZERO, Only(5)) && m.used == ZERO && m.reserved[0] == 5;
    assert DimCeiling(m.(total := Only(3)), 0) == 3;
  }

  /** The ceiling can shrink under held capacity: five of ten units are reserved, then the total
      becomes three. */
  lemma CeilingCanShrink(first: Op, second: Op, third: Op)
    requires first == OpSetTotal(Only(10)) && second == OpReserve(1, 1, Only(5), 10, 0) && third == OpSetTotal(Only(3))
    ensures var b := Apply(Apply(EMPTY, first), second); Within(b) && !Within(Apply(b, third))
  {
    hide Within, Reserve, Only;
    FiveOfTen();
    assert Apply(EMPTY, first) == TEN;
  }

  // ---------- A reservation moves forward only ----------

  function Rank(s: Status): nat {
    match s
    case Reserved => 0
    case Committed => 1
    case _ => 2
  }

  ghost predicate Live(s: Status) { Rank(s) < 2 }

  ghost function LiveIds(t: Table): set<u64> { set id | id in t && Live(t[id].status) }

  /** From `l` to `m` no entry is lost or changes its demand, statuses only advance, and what is new
      is provisional. */
  ghost predicate Advances(l: Ledger, m: Ledger) {
    && l.table.Keys <= m.table.Keys
    && (forall id | id in l.table ::
          && m.table[id].demand == l.table[id].demand
          && Rank(l.table[id].status) <= Rank(m.table[id].status)
          && (Live(m.table[id].status) && l.table[id].status != m.table[id].status ==>
            Rank(l.table[id].status) < Rank(m.table[id].status)))
    && (forall id | id in m.table && id !in l.table :: m.table[id].status == Reserved)
  }

  lemma ApplyAdvances(l: Ledger, op: Op)
    requires Sound(l)
    ensures Advances(l, Apply(l, op))
  {
    hide Sound, Sweep, Release, Rollback, Commit, Advances, FitsIn, AddFits;
    match op
    case OpReserve(id, owner, demand, ttl, now) => ReserveAdvances(l, id, owner, demand, ttl, now);
    case OpCommit(id, request, generation, now) => CommitAdvances(l, id, request, generation, now);
    case OpRollback(id) => RollbackAdvances(l, id);
    case OpRelease(id) => ReleaseAdvances(l, id);
    case OpSweep(now) => SweepAdvances(l, now);
    case _ => StaysPut(l, Apply(l, op));
  }

  lemma StaysPut(l: Ledger, m: Ledger)
    requires l.table == m.table
    ensures Advances(l, m)
  {
  }

  lemma ReserveAdvances(l: Ledger, id: u64, owner: u64, demand: Vec, ttl: int, now: int)
    ensures Advances(l, Reserve(l, id, owner, demand, ttl, now).0)
  {
    hide FitsIn, AddFits, IsZero;
  }

  lemma CommitAdvances(l: Ledger, id: u64, request: u64, generation: u64, now: int)
    ensures Advances(l, Commit(l, id, request, generation, now).0)
  {
    hide FitsIn, AddFits;
  }

  lemma RollbackAdvances(l: Ledger, id: u64)
    ensures Advances(l, Rollback(l, id).0)
  {
    hide FitsIn;
  }

  lemma ReleaseAdvances(l: Ledger, id: u64)
    ensures Advances(l, Release(l, id).0)
  {
    hide FitsIn;
  }

  lemma SweepAdvances(l: Ledger, now: int)
    requires Sound(l)
    ensures Advances(l, Sweep(l, now))
  {
    hide Sound, Sweep;
    SweepSound(l, now);
  }

  lemma {:induction false} RunAdvances(l: Ledger, ops: seq<Op>)
    requires Sound(l)
    ensures l.table.Keys <= Run(l, ops).table.Keys
    ensures forall id | id in l.table ::
              Run(l, ops).table[id].demand == l.table[id].demand &&
                Rank(l.table[id].status) <= Rank(Run(l, ops).table[id].status)
    decreases |ops|
  {
    hide Sound, Apply;
    if ops != [] {
      ApplySound(l, ops[0]);
      ApplyAdvances(l, ops[0]);
      RunAdvances(Apply(l, ops[0]), ops[1..]);
    }
  }

  /** The step from `l` to `m` moves `id` into the used vector. */
  ghost predicate EntersUsed(l: Ledger, m: Ledger, id: u64) {
    id in m.table && m.table[id].status == Committed && !(id in l.table && l.table[id].status == Committed)
  }

  /** The step from `l` to `m` gives the demand of `id` back. */
  ghost predicate GivesBack(l: Ledger, m: Ledger, id: u64) {
    id in l.table && Live(l.table[id].status) && id in m.table && !Live(m.table[id].status)
  }

  /** Once a step has moved a reservation into use, or has closed it, no later step does so again, and
      a closed reservation never becomes live again. */
  lemma AtMostOnce(l: Ledger, op: Op, between: seq<Op>, later: Op, id: u64)
    requires Sound(l)
    ensures var m := Apply(l, op); var n := Run(m, between); var o := Apply(n, later);
            && (EntersUsed(l, m, id) ==> !EntersUsed(n, o, id))
            && (GivesBack(l, m, id) ==> !GivesBack(n, o, id) && !EntersUsed(n, o, id) && id !in LiveIds(o.table))
  {
    hide Sound, Apply;
    var m := Apply(l, op);
    var n := Run(m, between);
    ApplySound(l, op);
    RunSoundFrom(m, between);
    RunAdvances(m, between);
    ApplyAdvances(n, later);
  }

  // ---------- Conservation ----------

  ghost function GrantedBy(l: Ledger, m: Ledger, d: nat): nat
    requires d < 12
  {
    Sum(m.table.Keys - l.table.Keys, m.table, d)
  }

  ghost function ReturnedBy(l: Ledger, m: Ledger, d: nat): nat
    requires d < 12
  {
    Sum((set id | id in l.table && GivesBack(l, m, id)), l.table, d)
  }

  ghost function Granted(l: Ledger, ops: seq<Op>, d: nat): nat
    requires d < 12
    decreases |ops|
  {
    if ops == [] then 0 else GrantedBy(l, Apply(l, ops[0]), d) + Granted(Apply(l, ops[0]), ops[1..], d)
  }

  ghost function Returned(l: Ledger, ops: seq<Op>, d: nat): nat
    requires d < 12
    decreases |ops|
  {
    if ops == [] then 0 else ReturnedBy(l, Apply(l, ops[0]), d) + Returned(Apply(l, ops[0]), ops[1..], d)
  }

  lemma LiveHeld(t: Table, d: nat)
    requires d < 12
    ensures Sum(LiveIds(t), t, d) == Held(t, Reserved, d) + Held(t, Committed, d)
  {
    SumUnion(WithStatus(t, Reserved), WithStatus(t, Committed), t, d);
    assert WithStatus(t, Reserved) + WithStatus(t, Committed) == LiveIds(t);
  }

  lemma StepConserves(l: Ledger, m: Ledger, d: nat)
    requires d < 12 && Advances(l, m)
    ensures Sum(LiveIds(l.table), l.table, d) + GrantedBy(l, m, d) ==
            Sum(LiveIds(m.table), m.table, d) + ReturnedBy(l, m, d)
  {
    var back := set id | id in l.table && GivesBack(l, m, id);
    var kept := LiveIds(l.table) - back;
    var added := m.table.Keys - l.table.Keys;
    SumUnion(kept, back, l.table, d);
    assert kept + back == LiveIds(l.table);
    SumUnion(kept, added, m.table, d);
    assert kept + added == LiveIds(m.table);
    SumSame(kept, l.table, m.table, d);
  }

  lemma {:induction false} ConservationFrom(l: Ledger, ops: seq<Op>, d: nat)
    requires d < 12 && Sound(l)
    ensures var r := Run(l, ops);
            Sum(LiveIds(l.table), l.table, d) + Granted(l, ops, d) ==
              Sum(LiveIds(r.table), r.table, d) + Returned(l, ops, d)
    decreases |ops|
  {
    hide Sound, Apply, GrantedBy, ReturnedBy, LiveIds;
    if ops != [] {
      var m := Apply(l, ops[0]);
      ApplySound(l, ops[0]);
      ApplyAdvances(l, ops[0]);
      StepConserves(l, m, d);
      ConservationFrom(m, ops[1..], d);
    }
  }

  /** Over every run from the empty ledger, in every dimension: all demand ever granted is reserved,
      used, or was given back. */
  lemma Conservation(ops: seq<Op>, d: nat)
    requires d < 12
    ensures var r := Run(EMPTY, ops);
            Granted(EMPTY, ops, d) == r.reserved[d] + r.used[d] + Returned(EMPTY, ops, d)
  {
    hide Held, Run, Granted, Returned;
    RunSound(ops);
    EmptySound();
    ConservationFrom(EMPTY, ops, d);
    LiveHeld(EMPTY.table, d);
    LiveHeld(Run(EMPTY, ops).table, d);
  }

  // ---------- Draining ----------

  function Releases(ids: seq<u64>): (ops: seq<Op>)
    ensures |ops| == |ids| && forall i :: 0 <= i < |ids| ==> ops[i] == OpRelease(ids[i])
  {
    seq(|ids|, i requires 0 <= i < |ids| => OpRelease(ids[i]))
  }

  lemma {:induction false} ReleasesClose(l: Ledger, ids: seq<u64>)
    requires Sound(l)
    ensures Run(l, Releases(ids)).table.Keys == l.table.Keys
    ensures forall id | id in l.table && id in ids :: !Live(Run(l, Releases(ids)).table[id].status)
    decreases |ids|
  {
    hide Sound;
    if ids != [] {
      var m := Apply(l, OpRelease(ids[0]));
      ApplySound(l, OpRelease(ids[0]));
      assert Releases(ids)[1..] == Releases(ids[1..]);
      ReleasesClose(m, ids[1..]);
      RunAdvances(m, Releases(ids[1..]));
      if ids[0] in l.table {
        NoArithmeticError(l, ids[0], 0, 0, 0);
        assert !Live(m.table[ids[0]].status);
      }
    }
  }

  /** Releasing every reservation, in any order and however often, leaves both vectors zero. */
  lemma Drain(ops: seq<Op>, ids: seq<u64>)
    requires forall id | id in Run(EMPTY, ops).table :: id in ids
    ensures var r := Run(Run(EMPTY, ops), Releases(ids)); r.reserved == ZERO && r.used == ZERO
  {
    hide Run;
    var l := Run(EMPTY, ops);
    RunSound(ops);
    RunSoundFrom(l, Releases(ids));
    ReleasesClose(l, ids);
    var r := Run(l, Releases(ids));
    assert WithStatus(r.table, Reserved) == {} by {
      forall id | id in r.table ensures r.table[id].status != Reserved { assert !Live(r.table[id].status); }
    }
    assert WithStatus(r.table, Committed) == {} by {
      forall id | id in r.table ensures r.table[id].status != Committed { assert !Live(r.table[id].status); }
    }
    VecEqual(r.reserved, ZERO);
    VecEqual(r.used, ZERO);
  }

  // ---------- Expiry ----------

  /** An earlier sweep makes no difference to a later one. */
  lemma SweepsCommute(l: Ledger, early: int, late: int)
    requires Sound(l) && early <= late
    ensures Sweep(Sweep(l, early), late) == Sweep(l, late)
  {
    hide Sweep, Sound;
    var m := Sweep(l, early);
    SweepSound(l, early);
    SweepSound(l, late);
    SweepSound(m, late);
    assert Swept(Swept(l.table, early), late) == Swept(l.table, late);
    TableDetermines(Sweep(m, late), Sweep(l, late));
  }

  /** A commit that comes too late and a sweep at the same time end where the sweep alone ends. */
  lemma LateCommitIsSwept(l: Ledger, id: u64, request: u64, generation: u64, now: int)
    requires Sound(l) && id in l.table && Stale(l.table[id], now)
    ensures Sweep(Commit(l, id, request, generation, now).0, now) == Sweep(l, now)
  {
    hide Sweep, Sound;
    ExpireSound(l, id);
    var m := Commit(l, id, request, generation, now).0;
    SweepSound(l, now);
    SweepSound(m, now);
    assert Swept(m.table, now) == Swept(l.table, now);
    TableDetermines(Sweep(m, now), Sweep(l, now));
  }

  // ---------- When a reservation is refused ----------

  /** What fits the available capacity is refused only for a taken identity, for asking for nothing,
      or because the ceiling has meanwhile sunk below what is held. */
  lemma ReserveAccepts(l: Ledger, id: u64, owner: u64, demand: Vec, ttl: int, now: int)
    requires Sound(l) && FitsIn(demand, Availability(l))
    ensures Reserve(l, id, owner, demand, ttl, now).1 == Ok <==> id !in l.table && !IsZero(demand) && Within(l)
  {
    hide Held;
    forall d | 0 <= d < 12
      ensures l.reserved[d] + demand[d] <= U64_MAX && l.used[d] + l.reserved[d] + demand[d] <= U64_MAX
      ensures demand[d] > 0 ==> l.used[d] + l.reserved[d] + demand[d] <= DimCeiling(l, d)
    {
      assert demand[d] <= Availability(l)[d];
    }
    var next := Add(l.reserved, demand);
    assert FitsIn(Add(l.used, next), Ceiling(l)) <==> Within(l) by {
      if FitsIn(Add(l.used, next), Ceiling(l)) {
        forall d | 0 <= d < 12 ensures l.reserved[d] + l.used[d] <= DimCeiling(l, d) {
          assert Add(l.used, next)[d] <= Ceiling(l)[d];
        }
      }
    }
  }
}
