/** The reservation ledger of reservation.hpp as a value: what each operation makes of it. */
module Ledger {
  import opened Words
  import opened Ordering
  import opened Resources
  import opened Records

  /** The ceiling of a dimension whose total is zero, which counts as unconstrained. */
  const UNBOUNDED: u64 := U64_MAX / 4

  const MODE_NONE: byte := 0

  type Table = map<u64, Reservation>

  datatype Ledger = Ledger(
    total: Vec, allowance: Vec, mode: byte, reserved: Vec, used: Vec, table: Table, serial: u64)

  const EMPTY: Ledger := Ledger(ZERO, ZERO, MODE_NONE, ZERO, ZERO, map[], 1)

  datatype Code =
    | Ok
    | ReservationIdentityCollision
    | InvalidArgument
    | ReservationOverflow
    | InsufficientCapacity
    | StaleReservation
    | DoubleReservation
    | OperationNotPermitted
    | ReservationExpired
    | ReservationRollbackError
    | DoubleRelease
    | PersistenceDuplicateId
    | PersistenceInconsistentAccounting

  function DimCeiling(l: Ledger, i: nat): u64
    requires i < 12
  {
    if l.total[i] == 0 then UNBOUNDED
    else SatAdd(l.total[i], if l.mode != MODE_NONE then l.allowance[i] else 0)
  }

  function Ceiling(l: Ledger): (c: Vec)
    ensures forall i :: 0 <= i < 12 ==> c[i] == DimCeiling(l, i)
  {
    seq(12, i requires 0 <= i < 12 => DimCeiling(l, i))
  }

  function Availability(l: Ledger): (a: Vec)
    ensures forall i :: 0 <= i < 12 ==> a[i] == SatSub(DimCeiling(l, i), SatAdd(l.reserved[i], l.used[i]))
  {
    seq(12, i requires 0 <= i < 12 => SatSub(DimCeiling(l, i), SatAdd(l.reserved[i], l.used[i])))
  }

  function Fresh(l: Ledger, id: u64, owner: u64, demand: Vec, ttl: int, now: int): Reservation {
    Reservation(id, owner, demand, now, now + ttl, None, None, Reserved, Bump(l.serial))
  }

  function Reserve(l: Ledger, id: u64, owner: u64, demand: Vec, ttl: int, now: int): (Ledger, Code) {
    if id in l.table then (l, ReservationIdentityCollision)
    else if IsZero(demand) then (l, InvalidArgument)
    else if !AddFits(l.reserved, demand) then (l, ReservationOverflow)
    else
      var next := Add(l.reserved, demand);
      if !AddFits(l.used, next) then (l, ReservationOverflow)
      else if !FitsIn(Add(l.used, next), Ceiling(l)) then (l, InsufficientCapacity)
      else
        var r := Fresh(l, id, owner, demand, ttl, now);
        (l.(reserved := next, serial := r.serial, table := l.table[id := r]), Ok)
  }

  /** Gives the demand of a provisional reservation back and closes it with `status`. */
  function Close(l: Ledger, id: u64, status: Status): Ledger
    requires id in l.table && FitsIn(l.table[id].demand, l.reserved)
  {
    l.(reserved := Sub(l.reserved, l.table[id].demand), table := l.table[id := l.table[id].(status := status)])
  }

  /** An underflow leaves the reservation as it is. */
  function Expire(l: Ledger, id: u64): Ledger
    requires id in l.table
  {
    if FitsIn(l.table[id].demand, l.reserved) then Close(l, id, Expired) else l
  }

  function Commit(l: Ledger, id: u64, request: u64, generation: u64, now: int): (Ledger, Code) {
    if id !in l.table then (l, StaleReservation)
    else
      var r := l.table[id];
      if r.status == Committed then (l, DoubleReservation)
      else if r.status != Reserved then (l, OperationNotPermitted)
      else if now > r.expiresAt then (Expire(l, id), ReservationExpired)
      else if !FitsIn(r.demand, l.reserved) then (l, ReservationRollbackError)
      else if !AddFits(l.used, r.demand) then (l, ReservationOverflow)
      else
        (l.(reserved := Sub(l.reserved, r.demand), used := Add(l.used, r.demand),
            table := l.table[id := r.(status := Committed, request := Some(request), generation := Some(generation))]),
         Ok)
  }

  function Rollback(l: Ledger, id: u64): (Ledger, Code) {
    if id !in l.table then (l, StaleReservation)
    else
      var r := l.table[id];
      if r.status == RolledBack || r.status == Released then (l, Ok)
      else if r.status != Reserved then (l, OperationNotPermitted)
      else if !FitsIn(r.demand, l.reserved) then (l, ReservationRollbackError)
      else (Close(l, id, RolledBack), Ok)
  }

  function Release(l: Ledger, id: u64): (Ledger, Code) {
    if id !in l.table then (l, StaleReservation)
    else
      var r := l.table[id];
      if r.status == Released || r.status == RolledBack then (l, Ok)
      else if r.status == Reserved then
        if !FitsIn(r.demand, l.reserved) then (l, ReservationRollbackError) else (Close(l, id, Released), Ok)
      else if r.status == Committed then
        if !FitsIn(r.demand, l.used) then (l, DoubleRelease)
        else (l.(used := Sub(l.used, r.demand), table := l.table[id := r.(status := Released)]), Ok)
      else (l.(table := l.table[id := r.(status := Released)]), Ok)
  }

  predicate Stale(r: Reservation, now: int) { r.status == Reserved && now > r.expiresAt }

  /** The sweep visits the entries in key order. */
  function Sweep(l: Ledger, now: int): Ledger { SweepKeys(l, SortedWords(l.table.Keys), now) }

  function SweepKeys(l: Ledger, keys: seq<u64>, now: int): (r: Ledger)
    requires forall k | k in keys :: k in l.table
    decreases |keys|
  {
    if keys == [] then l
    else SweepKeys(if Stale(l.table[keys[0]], now) then Expire(l, keys[0]) else l, keys[1..], now)
  }

  // ---------- Sums over the table ----------

  /** The total demand, in dimension `d`, of a set of reservations. */
  ghost function Sum(ids: set<u64>, t: Table, d: nat): nat
    requires ids <= t.Keys && d < 12
    decreases |ids|
  {
    if ids == {} then 0 else
      var id :| id in ids;
      t[id].demand[d] + Sum(ids - {id}, t, d)
  }

  ghost function WithStatus(t: Table, status: Status): set<u64> {
    set id | id in t && t[id].status == status
  }

  ghost function Held(t: Table, status: Status, d: nat): nat
    requires d < 12
  {
    Sum(WithStatus(t, status), t, d)
  }

  /** What one reservation adds to the sum of a status. */
  function Part(r: Reservation, status: Status, d: nat): nat
    requires d < 12
  {
    if r.status == status then r.demand[d] else 0
  }

  lemma {:induction false} SumSplit(ids: set<u64>, t: Table, id: u64, d: nat)
    requires ids <= t.Keys && id in ids && d < 12
    ensures Sum(ids, t, d) == t[id].demand[d] + Sum(ids - {id}, t, d)
    decreases |ids|
  {
    var first :| first in ids && Sum(ids, t, d) == t[first].demand[d] + Sum(ids - {first}, t, d);
    if first != id {
      SumSplit(ids - {first}, t, id, d);
      assert ids - {first} - {id} == ids - {id} - {first};
      SumSplit(ids - {id}, t, first, d);
    }
  }

  lemma {:induction false} SumSame(ids: set<u64>, t: Table, u: Table, d: nat)
    requires ids <= t.Keys && ids <= u.Keys && d < 12
    requires forall id | id in ids :: t[id].demand == u[id].demand
    ensures Sum(ids, t, d) == Sum(ids, u, d)
    decreases |ids|
  {
    if ids != {} {
      var id :| id in ids;
      SumSplit(ids, t, id, d);
      SumSplit(ids, u, id, d);
      SumSame(ids - {id}, t, u, d);
    }
  }

  lemma {:induction false} SumUnion(a: set<u64>, b: set<u64>, t: Table, d: nat)
    requires a <= t.Keys && b <= t.Keys && a !! b && d < 12
    ensures Sum(a + b, t, d) == Sum(a, t, d) + Sum(b, t, d)
    decreases |a|
  {
    if a == {} {
      assert a + b == b;
    } else {
      var id :| id in a;
      SumSplit(a, t, id, d);
      SumSplit(a + b, t, id, d);
      assert a + b - {id} == (a - {id}) + b;
      SumUnion(a - {id}, b, t, d);
    }
  }

  /** What `status` holds after one entry was replaced by one of the same demand. */
  lemma HeldAfterChange(t: Table, id: u64, r: Reservation, status: Status, d: nat)
    requires id in t && r.demand == t[id].demand && d < 12
    ensures Held(t[id := r], status, d) + Part(t[id], status, d) == Held(t, status, d) + Part(r, status, d)
  {
    var u := t[id := r];
    var rest := WithStatus(t, status) - {id};
    assert rest == WithStatus(u, status) - {id};
    SumSame(rest, t, u, d);
    if t[id].status == status {
      SumSplit(WithStatus(t, status), t, id, d);
    } else {
      assert rest == WithStatus(t, status);
    }
    if r.status == status { SumSplit(WithStatus(u, status), u, id, d); } else { assert rest == WithStatus(u, status); }
  }

  lemma HeldAfterInsert(t: Table, id: u64, r: Reservation, status: Status, d: nat)
    requires id !in t && d < 12
    ensures Held(t[id := r], status, d) == Held(t, status, d) + Part(r, status, d)
  {
    var u := t[id := r];
    SumSame(WithStatus(t, status), t, u, d);
    if r.status == status {
      SumSplit(WithStatus(u, status), u, id, d);
      assert WithStatus(u, status) - {id} == WithStatus(t, status);
    } else {
      assert WithStatus(u, status) == WithStatus(t, status);
    }
  }

  lemma HeldCovers(t: Table, id: u64, d: nat)
    requires id in t && d < 12
    ensures t[id].demand[d] <= Held(t, t[id].status, d)
  {
    SumSplit(WithStatus(t, t[id].status), t, id, d);
  }

  // ---------- The invariant ----------

  /** The running vectors are the sums over the table, and together they fit a word. */
  ghost predicate Sound(l: Ledger) {
    && (forall d :: 0 <= d < 12 ==> l.reserved[d] == Held(l.table, Reserved, d))
    && (forall d :: 0 <= d < 12 ==> l.used[d] == Held(l.table, Committed, d))
    && (forall d :: 0 <= d < 12 ==> l.reserved[d] + l.used[d] <= U64_MAX)
    && (forall id | id in l.table :: l.table[id].id == id && !IsZero(l.table[id].demand))
  }

  /** Held capacity is within the current ceiling. */
  predicate Within(l: Ledger) { forall d :: 0 <= d < 12 ==> l.reserved[d] + l.used[d] <= DimCeiling(l, d) }

  lemma SoundCovers(l: Ledger, id: u64)
    requires Sound(l) && id in l.table
    ensures l.table[id].status == Reserved ==> FitsIn(l.table[id].demand, l.reserved)
    ensures l.table[id].status == Reserved ==> AddFits(l.used, l.table[id].demand)
    ensures l.table[id].status == Committed ==> FitsIn(l.table[id].demand, l.used)
  {
    forall d | 0 <= d < 12
      ensures l.table[id].status == Reserved ==> l.table[id].demand[d] <= l.reserved[d]
      ensures l.table[id].status == Committed ==> l.table[id].demand[d] <= l.used[d]
    {
      HeldCovers(l.table, id, d);
    }
  }

  lemma EmptySound()
    ensures Sound(EMPTY) && Within(EMPTY)
  {
    assert WithStatus(EMPTY.table, Reserved) == {} == WithStatus(EMPTY.table, Committed);
  }

  lemma ReserveSound(l: Ledger, id: u64, owner: u64, demand: Vec, ttl: int, now: int)
    requires Sound(l)
    ensures Sound(Reserve(l, id, owner, demand, ttl, now).0)
  {
    hide Held;
    var m := Reserve(l, id, owner, demand, ttl, now);
    if m.1 == Ok {
      forall d | 0 <= d < 12
        ensures m.0.reserved[d] == Held(m.0.table, Reserved, d) && m.0.used[d] == Held(m.0.table, Committed, d)
      {
        HeldAfterInsert(l.table, id, m.0.table[id], Reserved, d);
        HeldAfterInsert(l.table, id, m.0.table[id], Committed, d);
      }
    }
  }

  /** One entry changes status while its demand stays: the vectors that follow keep the ledger sound. */
  lemma ChangeSound(l: Ledger, id: u64, r: Reservation, reserved: Vec, used: Vec)
    requires Sound(l) && id in l.table && r.id == id && r.demand == l.table[id].demand
    requires forall d :: 0 <= d < 12 ==>
               reserved[d] as nat + Part(l.table[id], Reserved, d) == l.reserved[d] as nat + Part(r, Reserved, d) &&
               used[d] as nat + Part(l.table[id], Committed, d) == l.used[d] as nat + Part(r, Committed, d)
    requires r.status == Committed ==> l.table[id].status == Reserved || l.table[id].status == Committed
    requires r.status == Reserved ==> l.table[id].status == Reserved
    ensures Sound(l.(table := l.table[id := r], reserved := reserved, used := used))
  {
    hide Held;
    forall d | 0 <= d < 12
      ensures reserved[d] == Held(l.table[id := r], Reserved, d) && used[d] == Held(l.table[id := r], Committed, d)
    {
      HeldAfterChange(l.table, id, r, Reserved, d);
      HeldAfterChange(l.table, id, r, Committed, d);
    }
  }

  lemma ExpireSound(l: Ledger, id: u64)
    requires Sound(l) && id in l.table && l.table[id].status == Reserved
    ensures FitsIn(l.table[id].demand, l.reserved) && Sound(Expire(l, id)) && Expire(l, id) == Close(l, id, Expired)
  {
    hide Sound;
    CloseSound(l, id, Expired);
  }

  lemma CloseSound(l: Ledger, id: u64, status: Status)
    requires Sound(l) && id in l.table && l.table[id].status == Reserved
    requires status != Reserved && status != Committed
    ensures FitsIn(l.table[id].demand, l.reserved) && Sound(Close(l, id, status))
  {
    SoundCovers(l, id);
    ChangeSound(l, id, l.table[id].(status := status), Sub(l.reserved, l.table[id].demand), l.used);
  }

  lemma CommitSound(l: Ledger, id: u64, request: u64, generation: u64, now: int)
    requires Sound(l)
    ensures Sound(Commit(l, id, request, generation, now).0)
  {
    if id in l.table && l.table[id].status == Reserved {
      var r := l.table[id];
      SoundCovers(l, id);
      if now > r.expiresAt {
        ExpireSound(l, id);
      } else {
        var c := r.(status := Committed, request := Some(request), generation := Some(generation));
        ChangeSound(l, id, c, Sub(l.reserved, r.demand), Add(l.used, r.demand));
      }
    }
  }

  lemma RollbackSound(l: Ledger, id: u64)
    requires Sound(l)
    ensures Sound(Rollback(l, id).0)
  {
    if id in l.table && l.table[id].status == Reserved { CloseSound(l, id, RolledBack); }
  }

  lemma ReleaseSound(l: Ledger, id: u64)
    requires Sound(l)
    ensures Sound(Release(l, id).0)
  {
    if id in l.table {
      var r := l.table[id];
      SoundCovers(l, id);
      if r.status == Reserved {
        CloseSound(l, id, Released);
      } else if r.status == Committed {
        ChangeSound(l, id, r.(status := Released), l.reserved, Sub(l.used, r.demand));
      } else {
        ChangeSound(l, id, r.(status := Released), l.reserved, l.used);
      }
    }
  }

  lemma {:induction false} SweepKeysSound(l: Ledger, keys: seq<u64>, now: int)
    requires Sound(l) && forall k | k in keys :: k in l.table
    ensures Sound(SweepKeys(l, keys, now))
    decreases |keys|
  {
    hide Sound;
    if keys != [] {
      if Stale(l.table[keys[0]], now) { ExpireSound(l, keys[0]); }
      SweepKeysSound(if Stale(l.table[keys[0]], now) then Expire(l, keys[0]) else l, keys[1..], now);
    }
  }

  // ---------- Nothing but the table matters ----------

  /** Two sound ledgers with the same configuration and table are the same ledger. */
  lemma TableDetermines(a: Ledger, b: Ledger)
    requires Sound(a) && Sound(b) && a.table == b.table
    ensures a.reserved == b.reserved && a.used == b.used
  {
    hide Held;
    VecEqual(a.reserved, b.reserved);
    VecEqual(a.used, b.used);
  }

  /** The table after a sweep: the stale entries, and no others, are expired. */
  function Swept(t: Table, now: int): Table {
    map id | id in t :: if Stale(t[id], now) then t[id].(status := Expired) else t[id]
  }

  lemma {:induction false} SweepKeysTable(l: Ledger, keys: seq<u64>, now: int)
    requires Sound(l) && forall k | k in keys :: k in l.table
    ensures SweepKeys(l, keys, now).table
         == map id | id in l.table :: if id in keys && Stale(l.table[id], now) then l.table[id].(status := Expired)
           else l.table[id]
    ensures var r := SweepKeys(l, keys, now);
            r == l.(reserved := r.reserved, table := r.table)
    decreases |keys|
  {
    hide Sound;
    if keys != [] {
      if Stale(l.table[keys[0]], now) { ExpireSound(l, keys[0]); }
      SweepKeysTable(if Stale(l.table[keys[0]], now) then Expire(l, keys[0]) else l, keys[1..], now);
    }
  }

  lemma SweepSound(l: Ledger, now: int)
    requires Sound(l)
    ensures Sound(Sweep(l, now)) && Sweep(l, now).table == Swept(l.table, now)
    ensures var r := Sweep(l, now); r == l.(reserved := r.reserved, table := r.table)
  {
    hide Sound, SweepKeys, Stale;
    var keys := SortedWords(l.table.Keys);
    SweepKeysSound(l, keys, now);
    SweepKeysTable(l, keys, now);
    assert forall id :: id in keys <==> id in l.table;
  }
}
