/** Exactly when each operation of the reservation ledger succeeds, and the state it leaves, in terms of the
    entries alone; and how long a reservation lives. */
module LedgerExactly {
  import opened Words
  import opened Resources
  import opened Records
  import opened Ledger
  import opened LedgerRuns

  /** What a dimension may hold: a quarter of the address space if the total is zero, else the total and,
      where overcommit is on, the allowance, up to the largest word. */
  lemma CeilingExactly(l: Ledger, i: nat)
    requires i < 12
    ensures var c, t, a := DimCeiling(l, i) as nat, l.total[i] as nat, l.allowance[i] as nat;
            && (t == 0 ==> c == 0x3FFF_FFFF_FFFF_FFFF)
            && (t != 0 && l.mode == 0 ==> c == t)
            && (t != 0 && l.mode != 0 && t + a < 0x1_0000_0000_0000_0000 ==> c == t + a)
            && (t != 0 && l.mode != 0 && t + a >= 0x1_0000_0000_0000_0000 ==> c == 0xFFFF_FFFF_FFFF_FFFF)
  {
  }

  /** Something is asked for in some dimension. */
  ghost predicate AsksFor(demand: Vec) { exists d :: 0 <= d < 12 && demand[d] > 0 }

  /** Held capacity and the demand together stay within a word in every dimension. */
  predicate WordsHold(l: Ledger, demand: Vec) {
    forall d :: 0 <= d < 12 ==> l.reserved[d] as nat + l.used[d] + demand[d] <= U64_MAX
  }

  /** And within the ceiling. */
  predicate CeilingHolds(l: Ledger, demand: Vec) {
    forall d :: 0 <= d < 12 ==> l.reserved[d] as nat + l.used[d] + demand[d] <= DimCeiling(l, d)
  }

  lemma AsksExactly(demand: Vec)
    ensures AsksFor(demand) <==> !IsZero(demand)
  {
  }

  lemma WordsExactly(l: Ledger, demand: Vec)
    ensures WordsHold(l, demand) <==> AddFits(l.reserved, demand) && AddFits(l.used, Add(l.reserved, demand))
  {
    if AddFits(l.reserved, demand) {
      var next := Add(l.reserved, demand);
      if WordsHold(l, demand) {
        forall d | 0 <= d < 12 ensures l.used[d] + next[d] <= U64_MAX {
          assert l.reserved[d] as nat + l.used[d] + demand[d] <= U64_MAX;
        }
      } else {
        var d :| 0 <= d < 12 && l.reserved[d] as nat + l.used[d] + demand[d] > U64_MAX;
        assert l.used[d] + next[d] > U64_MAX;
      }
    } else {
      var d :| 0 <= d < 12 && l.reserved[d] + demand[d] > U64_MAX;
      assert l.reserved[d] as nat + l.used[d] + demand[d] > U64_MAX;
    }
  }

  lemma CeilingFits(l: Ledger, demand: Vec)
    requires AddFits(l.reserved, demand) && AddFits(l.used, Add(l.reserved, demand))
    ensures CeilingHolds(l, demand) <==> FitsIn(Add(l.used, Add(l.reserved, demand)), Ceiling(l))
  {
    hide DimCeiling;
    var sum, c := Add(l.used, Add(l.reserved, demand)), Ceiling(l);
    assert forall d :: 0 <= d < 12 ==>
      sum[d] == l.reserved[d] as nat + l.used[d] + demand[d] && c[d] == DimCeiling(l, d);
  }

  /** What a reservation is when it is made, and what becomes of the ledger. */
  ghost predicate Made(l: Ledger, m: Ledger, id: u64, owner: u64, demand: Vec, ttl: int, now: int) {
    && m.table.Keys == l.table.Keys + {id} && (forall k | k in l.table :: k != id && m.table[k] == l.table[k])
    && (var r := m.table[id];
        && r.id == id && r.owner == owner && r.demand == demand && r.status == Reserved
        && r.createdAt == now && r.expiresAt - now == ttl && r.request.None? && r.generation.None?
        && r.serial == m.serial && (if l.serial == U64_MAX then m.serial == 1 else m.serial == l.serial + 1))
    && (forall d :: 0 <= d < 12 ==> m.reserved[d] == l.reserved[d] as nat + demand[d] && m.used[d] == l.used[d])
    && m.total == l.total && m.allowance == l.allowance && m.mode == l.mode
  }

  /** A reservation is made exactly if its id is new, it asks for something, and it fits under the ceiling on
      top of everything held; each refusal has its own cause and changes nothing. */
  lemma ReserveExactly(l: Ledger, id: u64, owner: u64, demand: Vec, ttl: int, now: int)
    ensures var m, code := Reserve(l, id, owner, demand, ttl, now).0, Reserve(l, id, owner, demand, ttl, now).1;
            && (code == Ok <==> id !in l.table && AsksFor(demand) && CeilingHolds(l, demand))
            && (code == ReservationIdentityCollision <==> id in l.table)
            && (code == InvalidArgument <==> id !in l.table && !AsksFor(demand))
            && (code == ReservationOverflow <==> id !in l.table && AsksFor(demand) && !WordsHold(l, demand))
            && (code == InsufficientCapacity <==>
                  id !in l.table && AsksFor(demand) && WordsHold(l, demand) && !CeilingHolds(l, demand))
            && (if code == Ok then Made(l, m, id, owner, demand, ttl, now) else m == l)
  {
    AsksExactly(demand);
    WordsExactly(l, demand);
    CeilingInWords(l, demand);
    if AddFits(l.reserved, demand) && AddFits(l.used, Add(l.reserved, demand)) { CeilingFits(l, demand); }
    hide AsksFor, IsZero, WordsHold, CeilingHolds, Ceiling, FitsIn, AddFits;
  }

  lemma CeilingInWords(l: Ledger, demand: Vec)
    ensures CeilingHolds(l, demand) ==> WordsHold(l, demand)
  {
    hide DimCeiling;
    forall d | 0 <= d < 12 ensures DimCeiling(l, d) <= U64_MAX { var c: u64 := DimCeiling(l, d); }
  }

  // ---------- One entry ----------

  /** `m` has the configuration and the entries of `l`, except for entry `id`, which keeps everything but its
      status and what it records. */
  ghost predicate OnlyEntry(l: Ledger, m: Ledger, id: u64)
    requires id in l.table
  {
    && m.table.Keys == l.table.Keys && (forall k | k in l.table && k != id :: m.table[k] == l.table[k])
    && m.total == l.total && m.allowance == l.allowance && m.mode == l.mode && m.serial == l.serial
    && m.table[id] == l.table[id].(status := m.table[id].status, request := m.table[id].request,
                                   generation := m.table[id].generation)
  }

  /** The demand is what is missing from a vector; and what has moved from one vector to another. */
  ghost predicate Leaves(demand: Vec, from: Vec, from': Vec) {
    forall d :: 0 <= d < 12 ==> from[d] as nat == from'[d] as nat + demand[d]
  }

  ghost predicate Moves(demand: Vec, from: Vec, from': Vec, to: Vec, to': Vec) {
    Leaves(demand, from, from') && Leaves(demand, to', to)
  }

  /** A commit succeeds exactly on a provisional reservation whose expiry is not past: the demand moves from
      the reserved to the used vector, and the entry records request and generation. A late commit expires
      the entry and gives its demand back. Every other refusal has its own cause and changes nothing. */
  lemma CommitExactly(l: Ledger, id: u64, request: u64, generation: u64, now: int)
    requires Sound(l)
    ensures var m, code := Commit(l, id, request, generation, now).0, Commit(l, id, request, generation, now).1;
            && (code == StaleReservation <==> id !in l.table)
            && (id in l.table ==>
                  var r := l.table[id];
                  && (code == Ok <==> r.status == Reserved && now <= r.expiresAt)
                  && (code == ReservationExpired <==> r.status == Reserved && now > r.expiresAt)
                  && (code == DoubleReservation <==> r.status == Committed)
                  && (code == OperationNotPermitted <==> r.status in {Released, Expired, RolledBack})
                  && (code == Ok ==> OnlyEntry(l, m, id) && m.table[id].status == Committed
                                     && m.table[id].request == Some(request)
                                     && m.table[id].generation == Some(generation)
                                     && Moves(r.demand, l.reserved, m.reserved, l.used, m.used))
                  && (code == ReservationExpired ==>
                        OnlyEntry(l, m, id) && m.table[id] == r.(status := Expired) && m.used == l.used
                        && Leaves(r.demand, l.reserved, m.reserved)))
            && (code != Ok && code != ReservationExpired ==> m == l)
  {
    if id in l.table { SoundCovers(l, id); }
    hide Sound, FitsIn, AddFits;
  }

  /** A rollback succeeds exactly on a reservation that is provisional, or already given back; it gives back
      only what is provisional. */
  lemma RollbackExactly(l: Ledger, id: u64)
    requires Sound(l)
    ensures var m, code := Rollback(l, id).0, Rollback(l, id).1;
            && (code == StaleReservation <==> id !in l.table)
            && (id in l.table ==>
                  var r := l.table[id];
                  && (code == Ok <==> r.status in {Reserved, RolledBack, Released})
                  && (code == OperationNotPermitted <==> r.status in {Committed, Expired})
                  && (if r.status == Reserved then
                        OnlyEntry(l, m, id) && m.table[id] == r.(status := RolledBack) && m.used == l.used
                        && Leaves(r.demand, l.reserved, m.reserved)
                      else m == l))
            && (id !in l.table ==> m == l)
  {
    if id in l.table { SoundCovers(l, id); }
    hide Sound, FitsIn, AddFits;
  }

  /** A release succeeds on every known reservation: it gives back what is provisional or committed, and leaves
      the entry released, unless it was rolled back. */
  lemma ReleaseExactly(l: Ledger, id: u64)
    requires Sound(l)
    ensures var m, code := Release(l, id).0, Release(l, id).1;
            && (code == Ok <==> id in l.table) && (code == StaleReservation <==> id !in l.table)
            && (id in l.table ==>
                  var r := l.table[id];
                  && OnlyEntry(l, m, id)
                  && m.table[id] == r.(status := if r.status == RolledBack then RolledBack else Released)
                  && (if r.status == Reserved then Leaves(r.demand, l.reserved, m.reserved)
                      else m.reserved == l.reserved)
                  && (if r.status == Committed then Leaves(r.demand, l.used, m.used) else m.used == l.used))
            && (id !in l.table ==> m == l)
  {
    if id in l.table { SoundCovers(l, id); }
    hide Sound, FitsIn, AddFits;
  }

  /** A sweep expires the provisional reservations whose expiry is past, and no others, and keeps the sums. */
  lemma SweepExactly(l: Ledger, now: int)
    requires Sound(l)
    ensures var m := Sweep(l, now);
            && Sound(m) && m.table.Keys == l.table.Keys
            && (forall id | id in l.table ::
                  m.table[id] == if l.table[id].status == Reserved && l.table[id].expiresAt < now
                                 then l.table[id].(status := Expired) else l.table[id])
            && m.used == l.used && m.total == l.total && m.allowance == l.allowance && m.mode == l.mode
            && m.serial == l.serial
  {
    hide Sound, Sweep;
    SweepSound(l, now);
  }

  // ---------- The life of a reservation ----------

  /** The run neither commits, rolls back nor releases `id`, and sweeps no later than `until`. */
  predicate LeavesAlone(ops: seq<Op>, id: u64, until: int) {
    forall op | op in ops ::
      match op
      case OpCommit(k, _, _, _) => k != id
      case OpRollback(k) => k != id
      case OpRelease(k) => k != id
      case OpSweep(now) => now <= until
      case _ => true
  }

  lemma StepLeaves(l: Ledger, op: Op, id: u64, until: int)
    requires Sound(l) && id in l.table && l.table[id].expiresAt == until && LeavesAlone([op], id, until)
    ensures id in Apply(l, op).table && Apply(l, op).table[id] == l.table[id]
  {
    assert op in [op];
    hide Sound, Commit, Rollback, Release, Sweep, LeavesAlone;
    match op
    case OpReserve(k, owner, demand, ttl, now) =>
    case OpCommit(k, request, generation, now) => CommitExactly(l, k, request, generation, now);
    case OpRollback(k) => RollbackExactly(l, k);
    case OpRelease(k) => ReleaseExactly(l, k);
    case OpSweep(now) => SweepExactly(l, now);
    case _ =>
  }

  lemma {:induction false} RunLeaves(l: Ledger, ops: seq<Op>, id: u64, until: int)
    requires Sound(l) && id in l.table && l.table[id].expiresAt == until && LeavesAlone(ops, id, until)
    ensures Sound(Run(l, ops)) && id in Run(l, ops).table && Run(l, ops).table[id] == l.table[id]
    decreases |ops|
  {
    hide Sound, Apply;
    if ops != [] {
      assert ops[0] in ops && forall op | op in ops[1..] :: op in ops;
      StepLeaves(l, ops[0], id, until);
      ApplySound(l, ops[0]);
      RunLeaves(Apply(l, ops[0]), ops[1..], id, until);
    }
  }

  /** A reservation made at `now` lives for exactly `ttl`, whatever happens to others in between: a commit at
      `t` succeeds if and only if `t` is no later than `now + ttl`, and a sweep at `t` expires it if and only
      if `t` is later. */
  lemma LifetimeExactly(l: Ledger, id: u64, owner: u64, demand: Vec, ttl: int, now: int, between: seq<Op>,
    request: u64, generation: u64, t: int)
    requires Sound(l) && Reserve(l, id, owner, demand, ttl, now).1 == Ok && LeavesAlone(between, id, now + ttl)
    ensures var m := Run(Reserve(l, id, owner, demand, ttl, now).0, between);
            && (Commit(m, id, request, generation, t).1 == Ok <==> t <= now + ttl)
            && (Commit(m, id, request, generation, t).1 == ReservationExpired <==> t > now + ttl)
            && id in Sweep(m, t).table
            && (Sweep(m, t).table[id].status == Expired <==> t > now + ttl)
            && (Sweep(m, t).table[id].status == Reserved <==> t <= now + ttl)
  {
    hide Sound, Commit, Sweep, Reserve, LeavesAlone, Run;
    ReserveExactly(l, id, owner, demand, ttl, now);
    ReserveSound(l, id, owner, demand, ttl, now);
    var m := Reserve(l, id, owner, demand, ttl, now).0;
    RunLeaves(m, between, id, now + ttl);
    CommitExactly(Run(m, between), id, request, generation, t);
    SweepExactly(Run(m, between), t);
  }
}
