/** ReservationManager of reservation.hpp as it runs, proved against `Ledger`. */
module ReservationManager {
  import opened Words
  import opened Ordering
  import opened Resources
  import opened Records
  import L = Ledger

  /** What `verify_accounting` is to find out: the running vectors are the sums over the table and
      their sum is within the ceiling. */
  ghost predicate Accounted(l: L.Ledger) {
    forall d :: 0 <= d < 12 ==>
      && l.reserved[d] == L.Held(l.table, Reserved, d)
      && l.used[d] == L.Held(l.table, Committed, d)
      && SatAdd(l.reserved[d], l.used[d]) <= L.DimCeiling(l, d)
  }

  // ---------- A recovered table ----------

  function SeqHeld(rs: seq<Reservation>, status: Status, d: nat): nat
    requires d < 12
  {
    if rs == [] then 0 else L.Part(rs[|rs| - 1], status, d) + SeqHeld(rs[..|rs| - 1], status, d)
  }

  ghost predicate DistinctIds(rs: seq<Reservation>) {
    forall i, j :: 0 <= i < j < |rs| ==> rs[i].id != rs[j].id
  }

  predicate Terminal(s: Status) { s != Reserved && s != Committed }

  /** What `restore` accepts: distinct identities, closed reservations without demand, and vectors
      that are the sums by status. */
  ghost predicate Restorable(rs: seq<Reservation>, reserved: Vec, used: Vec) {
    && DistinctIds(rs)
    && (forall i :: 0 <= i < |rs| && Terminal(rs[i].status) ==> IsZero(rs[i].demand))
    && (forall d :: 0 <= d < 12 ==> reserved[d] == SeqHeld(rs, Reserved, d) && used[d] == SeqHeld(rs, Committed, d))
  }

  function TableOf(rs: seq<Reservation>): L.Table {
    if rs == [] then map[] else TableOf(rs[..|rs| - 1])[rs[|rs| - 1].id := rs[|rs| - 1]]
  }

  /** The rebuilt table holds exactly the given rows. */
  lemma {:induction false} TableOfRows(rs: seq<Reservation>)
    requires DistinctIds(rs)
    ensures forall id :: id in TableOf(rs) <==> exists i :: 0 <= i < |rs| && rs[i].id == id
    ensures forall i :: 0 <= i < |rs| ==> rs[i].id in TableOf(rs) && TableOf(rs)[rs[i].id] == rs[i]
  {
    if rs != [] {
      var n := |rs| - 1;
      TableOfRows(rs[..n]);
      forall id ensures id in TableOf(rs) <==> exists i :: 0 <= i < |rs| && rs[i].id == id {
        if id in TableOf(rs[..n]) {
          var i :| 0 <= i < n && rs[..n][i].id == id;
          assert rs[i].id == id;
        }
        if i :| 0 <= i < n && rs[i].id == id { assert rs[..n][i].id == id; }
        if id == rs[n].id { assert rs[n].id == id; }
      }
      forall i | 0 <= i < |rs| ensures rs[i].id in TableOf(rs) && TableOf(rs)[rs[i].id] == rs[i] {
        if i < n { assert rs[..n][i] == rs[i]; }
      }
    }
  }

  lemma {:induction false} SeqHeldPrefix(rs: seq<Reservation>, n: nat, status: Status, d: nat)
    requires d < 12 && n <= |rs|
    ensures SeqHeld(rs[..n], status, d) <= SeqHeld(rs, status, d)
  {
    if n < |rs| {
      assert rs[..|rs| - 1][..n] == rs[..n];
      SeqHeldPrefix(rs[..|rs| - 1], n, status, d);
    } else {
      assert rs[..n] == rs;
    }
  }

  /** The part of the table whose keys have been visited. */
  ghost function Visited(t: L.Table, keys: seq<u64>, status: Status): set<u64> {
    set id | id in keys && id in t && t[id].status == status
  }

  /** The sum over the visited part. */
  ghost function VisitedSum(t: L.Table, keys: seq<u64>, status: Status, d: nat): nat
    requires d < 12
  {
    L.Sum(Visited(t, keys, status), t, d)
  }

  lemma VisitNext(t: L.Table, keys: seq<u64>, i: nat, status: Status, d: nat)
    requires i < |keys| && keys[i] in t && keys[i] !in keys[..i] && d < 12
    ensures VisitedSum(t, keys[..i + 1], status, d) ==
            VisitedSum(t, keys[..i], status, d) + L.Part(t[keys[i]], status, d)
  {
    var a, b := Visited(t, keys[..i], status), Visited(t, keys[..i + 1], status);
    assert keys[..i + 1] == keys[..i] + [keys[i]];
    if t[keys[i]].status == status {
      L.SumSplit(b, t, keys[i], d);
      assert b - {keys[i]} == a;
    } else {
      assert a == b;
    }
  }

  lemma VisitedPart(t: L.Table, keys: seq<u64>, status: Status, d: nat)
    requires d < 12
    ensures VisitedSum(t, keys, status, d) <= L.Held(t, status, d)
  {
    var a, b := Visited(t, keys, status), L.WithStatus(t, status);
    L.SumUnion(a, b - a, t, d);
    assert a + (b - a) == b;
  }

  class Manager {
    var total: Vec
    var allowance: Vec
    var mode: byte
    var reserved: Vec
    var used: Vec
    var table: L.Table
    var serial: u64

    function State(): L.Ledger
      reads this
    {
      L.Ledger(total, allowance, mode, reserved, used, table, serial)
    }

    constructor ()
      ensures State() == L.EMPTY
    {
      total, allowance, mode, reserved, used, table, serial := ZERO, ZERO, 0, ZERO, ZERO, map[], 1;
    }

    method SetTotal(v: Vec)
      modifies this
      ensures State() == old(State()).(total := v)
    {
      total := v;
    }

    method SetOvercommit(m: byte, v: Vec)
      modifies this
      ensures State() == old(State()).(mode := m, allowance := v)
    {
      mode, allowance := m, v;
    }

    method ComputeCeiling() returns (c: Vec)
      ensures c == L.Ceiling(State())
    {
      c := ZERO;
      for i := 0 to 12
        invariant forall j :: 0 <= j < i ==> c[j] == L.DimCeiling(State(), j)
      {
        c := c[i := L.DimCeiling(State(), i)];
      }
      VecEqual(c, L.Ceiling(State()));
    }

    method ComputeAvailability() returns (a: Vec)
      ensures a == L.Availability(State())
    {
      a := ZERO;
      for i := 0 to 12
        invariant forall j :: 0 <= j < i ==> a[j] == L.Availability(State())[j]
      {
        a := a[i := SatSub(L.DimCeiling(State(), i), SatAdd(reserved[i], used[i]))];
      }
      VecEqual(a, L.Availability(State()));
    }

    method NextGeneration() returns (g: u64)
      modifies `serial
      ensures serial == g == Bump(old(serial))
    {
      serial := if serial == U64_MAX then 1 else serial + 1;
      g := serial;
    }

    method Reserve(id: u64, owner: u64, demand: Vec, ttl: int, now: int) returns (code: L.Code)
      modifies this
      ensures (State(), code) == L.Reserve(old(State()), id, owner, demand, ttl, now)
    {
      if id in table { return L.ReservationIdentityCollision; }
      if IsZero(demand) { return L.InvalidArgument; }
      var fits, next := TryAdd(reserved, demand);
      if !fits { return L.ReservationOverflow; }
      var sumFits, sum := TryAdd(used, next);
      if !sumFits { return L.ReservationOverflow; }
      for d := 0 to 12
        invariant forall j :: 0 <= j < d ==> sum[j] <= L.Ceiling(State())[j]
        invariant unchanged(this)
      {
        if sum[d] > L.DimCeiling(State(), d) {
          assert !FitsIn(sum, L.Ceiling(State()));
          return L.InsufficientCapacity;
        }
      }
      reserved := next;
      var g := NextGeneration();
      table := table[id := Reservation(id, owner, demand, now, now + ttl, None, None, Reserved, g)];
      code := L.Ok;
    }

    method Expire(id: u64)
      requires id in table
      modifies this
      ensures State() == L.Expire(old(State()), id) && table.Keys == old(table.Keys)
    {
      var ok, rest := TrySub(reserved, table[id].demand);
      if ok {
        reserved := rest;
        table := table[id := table[id].(status := Expired)];
      }
    }

    method Commit(id: u64, request: u64, generation: u64, now: int) returns (code: L.Code)
      modifies this
      ensures (State(), code) == L.Commit(old(State()), id, request, generation, now)
    {
      if id !in table { return L.StaleReservation; }
      var r := table[id];
      if r.status == Committed { return L.DoubleReservation; }
      if r.status != Reserved { return L.OperationNotPermitted; }
      if now > r.expiresAt {
        Expire(id);
        return L.ReservationExpired;
      }
      var subtracts, r2 := TrySub(reserved, r.demand);
      if !subtracts { return L.ReservationRollbackError; }
      var adds, u2 := TryAdd(used, r.demand);
      if !adds { return L.ReservationOverflow; }
      reserved, used := r2, u2;
      table := table[id := r.(status := Committed, request := Some(request), generation := Some(generation))];
      code := L.Ok;
    }

    method Rollback(id: u64) returns (code: L.Code)
      modifies this
      ensures (State(), code) == L.Rollback(old(State()), id)
    {
      if id !in table { return L.StaleReservation; }
      var r := table[id];
      if r.status == RolledBack || r.status == Released { return L.Ok; }
      if r.status != Reserved { return L.OperationNotPermitted; }
      var ok, r2 := TrySub(reserved, r.demand);
      if !ok { return L.ReservationRollbackError; }
      reserved := r2;
      table := table[id := r.(status := RolledBack)];
      code := L.Ok;
    }

    method Release(id: u64) returns (code: L.Code)
      modifies this
      ensures (State(), code) == L.Release(old(State()), id)
    {
      if id !in table { return L.StaleReservation; }
      var r := table[id];
      if r.status == Released || r.status == RolledBack { return L.Ok; }
      if r.status == Reserved {
        var ok, r2 := TrySub(reserved, r.demand);
        if !ok { return L.ReservationRollbackError; }
        reserved := r2;
      } else if r.status == Committed {
        var ok, u2 := TrySub(used, r.demand);
        if !ok { return L.DoubleRelease; }
        used := u2;
      }
      table := table[id := r.(status := Released)];
      code := L.Ok;
    }

    method ExpireStale(now: int)
      modifies this
      ensures State() == L.Sweep(old(State()), now)
    {
      hide L.Expire, L.SweepKeys, FitsIn;
      var keys := SortedWords(table.Keys);
      for i := 0 to |keys|
        invariant table.Keys == old(table.Keys)
        invariant L.SweepKeys(State(), keys[i..], now) == L.Sweep(old(State()), now)
      {
        SweepNext(State(), keys, i, now);
        if table[keys[i]].status == Reserved && now > table[keys[i]].expiresAt {
          Expire(keys[i]);
        }
      }
      SweepDone(State(), keys[|keys|..], now);
    }

    lemma SweepNext(l: L.Ledger, keys: seq<u64>, i: nat, now: int)
      requires i < |keys| && forall k | k in keys :: k in l.table
      ensures L.SweepKeys(l, keys[i..], now)
           == L.SweepKeys(if L.Stale(l.table[keys[i]], now) then L.Expire(l, keys[i]) else l, keys[i + 1..], now)
    {
      assert keys[i..][1..] == keys[i + 1..];
    }

    lemma SweepDone(l: L.Ledger, keys: seq<u64>, now: int)
      requires keys == []
      ensures L.SweepKeys(l, keys, now) == l
    {
    }

    /** `sum` is the vector of sums of a status over the visited keys. */
    ghost predicate Sums(sum: Vec, keys: seq<u64>, s: Status)
      reads this
    {
      forall d :: 0 <= d < 12 ==> sum[d] == VisitedSum(table, keys, s, d)
    }

    lemma Grow(sum: Vec, keys: seq<u64>, i: nat, s: Status)
      requires i < |keys| && keys[i] in table && keys[i] !in keys[..i]
      requires Sums(sum, keys[..i], s)
      ensures var r := table[keys[i]];
              if r.status != s then Sums(sum, keys[..i + 1], s)
              else if AddFits(sum, r.demand) then Sums(Add(sum, r.demand), keys[..i + 1], s)
              else s == Reserved || s == Committed ==> !Accounted(State())
    {
      hide VisitedSum, L.Held, L.DimCeiling;
      Visit(keys, i, keys[..i + 1]);
      if table[keys[i]].status == s && !AddFits(sum, table[keys[i]].demand) {
        var d :| 0 <= d < 12 && sum[d] + table[keys[i]].demand[d] > U64_MAX;
        assert VisitedSum(table, keys[..i + 1], s, d) > U64_MAX;
      }
    }

    /** The sums by status over the table, unless one of them overflows a word. */
    method SumTable() returns (fits: bool, rsum: Vec, usum: Vec)
      ensures !fits ==> !Accounted(State())
      ensures fits ==> forall d :: 0 <= d < 12 ==> rsum[d] == L.Held(table, Reserved, d)
      ensures fits ==> forall d :: 0 <= d < 12 ==> usum[d] == L.Held(table, Committed, d)
    {
      hide L.Held, VisitedSum, Accounted, AddFits;
      rsum, usum := ZERO, ZERO;
      var keys := SortedWords(table.Keys);
      VisitNone();
      assert keys[..0] == [];
      for i := 0 to |keys|
        invariant Sums(rsum, keys[..i], Reserved) && Sums(usum, keys[..i], Committed)
      {
        hide Sums;
        var r := table[keys[i]];
        Grow(rsum, keys, i, Reserved);
        Grow(usum, keys, i, Committed);
        if r.status == Reserved {
          var ok, n := TryAdd(rsum, r.demand);
          if !ok { return false, rsum, usum; }
          rsum := n;
        } else if r.status == Committed {
          var ok, n := TryAdd(usum, r.demand);
          if !ok { return false, rsum, usum; }
          usum := n;
        }
      }
      VisitAll(keys);
      assert keys[..|keys|] == keys;
      fits := true;
    }

    method VerifyAccounting() returns (sound: bool)
      ensures sound <==> Accounted(State())
    {
      hide L.Held, L.Ceiling, FitsIn, L.DimCeiling;
      var fits, rsum, usum := SumTable();
      if !fits { return false; }
      if rsum != reserved {
        if forall d :: 0 <= d < 12 ==> rsum[d] == reserved[d] { VecEqual(rsum, reserved); }
        return false;
      }
      if usum != used {
        if forall d :: 0 <= d < 12 ==> usum[d] == used[d] { VecEqual(usum, used); }
        return false;
      }
      var ceiling := ComputeCeiling();
      CeilingTest();
      sound := FitsIn(SatAddVec(rsum, usum), ceiling);
    }

    lemma CeilingTest()
      ensures FitsIn(SatAddVec(reserved, used), L.Ceiling(State())) <==>
              forall d :: 0 <= d < 12 ==> SatAdd(reserved[d], used[d]) <= L.DimCeiling(State(), d)
    {
      hide SatAdd, L.DimCeiling;
      var sum, c := SatAddVec(reserved, used), L.Ceiling(State());
      assert forall d :: 0 <= d < 12 ==> sum[d] == SatAdd(reserved[d], used[d]) && c[d] == L.DimCeiling(State(), d);
    }

    lemma VisitNone()
      ensures forall d, s :: 0 <= d < 12 ==> VisitedSum(table, [], s, d) == 0
    {
      assert forall s :: Visited(table, [], s) == {};
    }

    lemma VisitAll(keys: seq<u64>)
      requires forall id :: id in keys <==> id in table
      ensures forall d, s :: 0 <= d < 12 ==> VisitedSum(table, keys, s, d) == L.Held(table, s, d)
    {
      assert forall s :: Visited(table, keys, s) == L.WithStatus(table, s);
    }

    /** One more entry visited: both sums grow by its part, and neither exceeds the whole. */
    lemma Visit(keys: seq<u64>, i: nat, next: seq<u64>)
      requires i < |keys| && keys[i] in table && keys[i] !in keys[..i] && next == keys[..i + 1]
      ensures forall d, s :: 0 <= d < 12 ==>
        VisitedSum(table, next, s, d) == VisitedSum(table, keys[..i], s, d) + L.Part(table[keys[i]], s, d)
      ensures forall d, s :: 0 <= d < 12 ==> VisitedSum(table, next, s, d) <= L.Held(table, s, d)
    {
      hide L.Held;
      forall d, s | 0 <= d < 12
        ensures VisitedSum(table, next, s, d) == VisitedSum(table, keys[..i], s, d) + L.Part(table[keys[i]], s, d)
        ensures VisitedSum(table, next, s, d) <= L.Held(table, s, d)
      {
        VisitNext(table, keys, i, s, d);
        VisitedPart(table, next, s, d);
      }
    }

    method Restore(rs: seq<Reservation>, newReserved: Vec, newUsed: Vec) returns (code: L.Code)
      modifies this
      ensures code == L.Ok <==> Restorable(rs, newReserved, newUsed)
      ensures State() == if code == L.Ok
              then old(State()).(table := TableOf(rs), reserved := newReserved, used := newUsed)
                         else old(State())
    {
      hide Restorable;
      code := Audit(rs, newReserved, newUsed);
      if code != L.Ok { return; }
      var rebuilt: L.Table := map[];
      for i := 0 to |rs|
        invariant unchanged(this) && rebuilt == TableOf(rs[..i])
      {
        assert rs[..i + 1][..i] == rs[..i];
        rebuilt := rebuilt[rs[i].id := rs[i]];
      }
      assert rs[..|rs|] == rs;
      table, reserved, used := rebuilt, newReserved, newUsed;
    }

    /** The checks that precede the rebuilding. */
    method Audit(rs: seq<Reservation>, newReserved: Vec, newUsed: Vec) returns (code: L.Code)
      ensures code == L.Ok <==> Restorable(rs, newReserved, newUsed)
    {
      hide SeqHeld;
      var rsum, usum := ZERO, ZERO;
      var seen: set<u64> := {};
      SeqHeldNone();
      for i := 0 to |rs|
        invariant forall id :: id in seen <==> exists j :: 0 <= j < i && rs[j].id == id
        invariant DistinctIds(rs[..i])
        invariant forall j :: 0 <= j < i && Terminal(rs[j].status) ==> IsZero(rs[j].demand)
        invariant forall d :: 0 <= d < 12 ==> rsum[d] == SeqHeld(rs[..i], Reserved, d)
        invariant forall d :: 0 <= d < 12 ==> usum[d] == SeqHeld(rs[..i], Committed, d)
      {
        var r := rs[i];
        if r.id in seen { return L.PersistenceDuplicateId; }
        seen := seen + {r.id};
        RestoreVisit(rs, i);
        if r.status == Reserved {
          var ok, n := TryAdd(rsum, r.demand);
          if !ok { return L.PersistenceInconsistentAccounting; }
          rsum := n;
        } else if r.status == Committed {
          var ok, n := TryAdd(usum, r.demand);
          if !ok { return L.PersistenceInconsistentAccounting; }
          usum := n;
        } else if !IsZero(r.demand) {
          return L.PersistenceInconsistentAccounting;
        }
      }
      assert rs[..|rs|] == rs;
      if rsum != newReserved {
        if forall d :: 0 <= d < 12 ==> rsum[d] == newReserved[d] { VecEqual(rsum, newReserved); }
        return L.PersistenceInconsistentAccounting;
      }
      if usum != newUsed {
        if forall d :: 0 <= d < 12 ==> usum[d] == newUsed[d] { VecEqual(usum, newUsed); }
        return L.PersistenceInconsistentAccounting;
      }
      code := L.Ok;
    }

    lemma SeqHeldNone()
      ensures forall d, s :: 0 <= d < 12 ==> SeqHeld([], s, d) == 0
    {
    }

    lemma RestoreVisit(rs: seq<Reservation>, i: nat)
      requires i < |rs|
      ensures forall d, s :: 0 <= d < 12 ==>
                SeqHeld(rs[..i + 1], s, d) == SeqHeld(rs[..i], s, d) + L.Part(rs[i], s, d) &&
                SeqHeld(rs[..i + 1], s, d) <= SeqHeld(rs, s, d)
    {
      forall d, s | 0 <= d < 12
        ensures SeqHeld(rs[..i + 1], s, d) == SeqHeld(rs[..i], s, d) + L.Part(rs[i], s, d)
        ensures SeqHeld(rs[..i + 1], s, d) <= SeqHeld(rs, s, d)
      {
        assert rs[..i + 1][..i] == rs[..i];
        SeqHeldPrefix(rs, i + 1, s, d);
      }
    }
  }
}
