/** What an admission promises: which refusals are left once the gates are passed, what stays free,
    and that more capacity never turns an admission away. */
module Admission {
  import opened Words
  import opened Resources
  import opened Records
  import opened Doubles
  import opened Texts
  import opened Engine
  import opened EngineRuns
  import L = Ledger
  import P = Policies
  import LedgerRuns

  // ---------- The reservation behind the gates ----------

  /** Every gate of `evaluate` is passed under policy `p`. */
  predicate PassesGates(e: Engine, p: Policy, q: Query) {
    && WellFormed(q.d)
    && !Duplicate(e.requests, q.d.admissionRequestId)
    && P.Latest(e.history).Some?
    && p == P.Effective(q.d, P.Latest(e.history).value)
    && Stopped(e, p, q).None?
  }

  lemma HeadroomBelow(p: Policy, available: Vec, demand: Vec)
    requires FitsIn(demand, Headroom(p, available))
    ensures FitsIn(demand, available)
    ensures forall i :: 0 <= i < 12 && demand[i] > 0 ==> demand[i] + Margin(p, available)[i] <= available[i]
  {
    hide MarginOf, Ratio;
    forall i | 0 <= i < 12
      ensures demand[i] <= available[i]
      ensures demand[i] > 0 ==> demand[i] + Margin(p, available)[i] <= available[i]
    {
      assert demand[i] <= Headroom(p, available)[i];
    }
  }

  lemma StoppedFits(e: Engine, p: Policy, q: Query)
    requires Stopped(e, p, q).None?
    ensures FitsIn(q.demand, Headroom(p, L.Availability(Under(e.ledger, p))))
    ensures !MustWait(p, e.requests, q.demand, L.Availability(Under(e.ledger, p)), q.starving)
  {
  }

  lemma AdmitsIsPlaced(e: Engine, p: Policy, q: Query)
    requires PassesGates(e, p, q)
    ensures var r := L.Reserve(Under(e.ledger, p), e.reservationCounter, q.d.tenantId, q.demand,
            p.maxReservationLifetime, q.now);
            (Admits(e, q) <==> r.1 == L.Ok) && (Admits(e, q) ==> Evaluate(e, q).0.ledger == r.0)
  {
    hide WellFormed, Duplicate, P.Effective, Stopped, L.Reserve, Emit, Transition, Under, Risky;
  }

  lemma AdmitsPassed(e: Engine, q: Query)
    requires Admits(e, q)
    ensures P.Latest(e.history).Some? && PassesGates(e, P.Effective(q.d, P.Latest(e.history).value), q)
  {
    hide WellFormed, Duplicate, P.Effective, Stopped, L.Reserve, Emit, Transition, Under, Risky;
    if P.Latest(e.history).Some? { StoppedReason(e, P.Effective(q.d, P.Latest(e.history).value), q); }
  }

  /** Behind the gates, a query is admitted exactly if the next reservation id is free, it asks for
      something, and held capacity is within the ceiling of the policy in force. */
  lemma AdmittedExactly(e: Engine, p: Policy, q: Query)
    requires L.Sound(e.ledger) && PassesGates(e, p, q)
    ensures Admits(e, q) <==>
            e.reservationCounter !in e.ledger.table && !IsZero(q.demand) && L.Within(Under(e.ledger, p))
  {
    hide L.Sound, L.Within, Stopped, L.Reserve, Evaluate, Headroom, PassesGates, L.Availability, Under, Admits;
    UnderSame(e.ledger, p);
    AdmitsIsPlaced(e, p, q);
    PassedGates(e, p, q);
    StoppedFits(e, p, q);
    HeadroomBelow(p, L.Availability(Under(e.ledger, p)), q.demand);
    LedgerRuns.ReserveAccepts(Under(e.ledger, p), e.reservationCounter, q.d.tenantId, q.demand,
      p.maxReservationLifetime, q.now);
  }

  lemma PassedGates(e: Engine, p: Policy, q: Query)
    requires PassesGates(e, p, q)
    ensures Stopped(e, p, q).None?
  {
  }

  lemma UnderSame(l: L.Ledger, p: Policy)
    requires L.Sound(l)
    ensures L.Sound(Under(l, p)) && Under(l, p).table == l.table
    ensures Under(l, p).reserved == l.reserved && Under(l, p).used == l.used && Under(l, p).total == l.total
  {
    UnderSound(l, Under(l, p));
  }

  /** After an admission, every dimension it draws on still has free what the policy in force keeps back of
      what was available: a fraction, rounded down, and the absolute margin. */
  lemma MarginStaysFree(e: Engine, q: Query, p: Policy, i: nat, kept: nat)
    requires L.Sound(e.ledger) && Admits(e, q) && i < 12 && q.demand[i] > 0
    requires p == P.Effective(q.d, P.Latest(e.history).value)
    requires KeptBack(p, i, L.Availability(Under(e.ledger, p))[i], kept)
    ensures L.Availability(Evaluate(e, q).0.ledger)[i] >= kept
  {
    hide *;
    AdmitsPassed(e, q);
    PassedGates(e, p, q);
    StoppedFits(e, p, q);
    AdmitsIsPlaced(e, p, q);
    var l := Under(e.ledger, p);
    HeadroomBelow(p, L.Availability(l), q.demand);
    KeptExactly(p, L.Availability(l), i, kept);
    ReservedShrinksAvailability(l, e.reservationCounter, q.d.tenantId, q.demand, p.maxReservationLifetime, q.now, i);
  }

  /** For every policy that passed validation, and whatever its overrides, the ratio in force is the stored
      double, at least zero and below one. */
  lemma RatioOfValid(d: Descriptor, base: Policy, r: real)
    requires P.ValidPolicy(base)
    ensures RatioIs(P.Effective(d, base), r) <==> Value(P.Effective(d, base).safetyHeadroomRatio) == Fin(r)
    ensures RatioIs(P.Effective(d, base), r) ==> 0.0 <= r < 1.0
  {
    hide P.ValidPolicy, P.Effective, Value;
    P.EffectiveKeeps(d, base);
  }

  lemma ReservedShrinksAvailability(l: L.Ledger, id: u64, owner: u64, demand: Vec, ttl: int, now: int, i: nat)
    requires i < 12 && demand[i] > 0 && L.Reserve(l, id, owner, demand, ttl, now).1 == L.Ok
    ensures L.Availability(L.Reserve(l, id, owner, demand, ttl, now).0)[i] + demand[i] == L.Availability(l)[i]
  {
    var m := L.Reserve(l, id, owner, demand, ttl, now).0;
    assert Add(l.used, m.reserved)[i] <= L.Ceiling(l)[i];
    assert L.DimCeiling(m, i) == L.DimCeiling(l, i);
  }

  /** An outcome that is not an admission leaves the table and both vectors as they were. */
  lemma RefusalKeepsLedger(e: Engine, q: Query)
    ensures !Admits(e, q) ==>
              var l := Evaluate(e, q).0.ledger;
              l.table == e.ledger.table && l.reserved == e.ledger.reserved && l.used == e.ledger.used &&
                l.total == e.ledger.total
    ensures forall id | id in e.requests && id != q.d.admissionRequestId ::
            Evaluate(e, q).0.requests[id] == e.requests[id]
  {
    hide Evaluate, Admits;
    EvaluateEffect(e, q);
    TotalKept(e, q);
  }

  lemma TotalKept(e: Engine, q: Query)
    ensures Evaluate(e, q).0.ledger.total == e.ledger.total
    ensures forall id | id in e.requests && id != q.d.admissionRequestId ::
              id in Evaluate(e, q).0.requests && Evaluate(e, q).0.requests[id] == e.requests[id]
  {
    hide WellFormed, Duplicate, P.Effective, Stopped, Risky, FitsIn, AddFits;
  }

  // ---------- Admission in one piece ----------

  /** The quota leaves room for the request. */
  predicate QuotaAllows(quota: Quota, q: Query) {
    quota.present ==>
      && (quota.tokenBudget == 0 || q.d.inputTokens + q.d.expectedOutputTokens <= quota.tokenBudget)
      && forall i :: 0 <= i < 12 && quota.limits[i] != 0 && q.demand[i] > 0 ==>
           quota.used[i] as nat + quota.reserved[i] + q.demand[i] <= quota.limits[i]
  }

  /** What is known of the capacity is recent and complete enough for the policy. */
  predicate SnapshotAllows(e: Engine, p: Policy, now: int) {
    if e.hasSnapshot then
      && (now - e.snapshot.timestamp <= p.maxSnapshotAge || p.acceptStaleSnapshot)
      && forall i :: 0 <= i < 12 ==> e.snapshot.provenance[i] != UNAVAILABLE
    else !p.requireReservation
  }

  /** The predicted time, the queue and the millisecond of the reservation included, ends before the
      deadline; without a deadline the class must not demand one. */
  predicate TimeAllows(s: Snapshot, q: Query) {
    if q.d.deadline.Some? then
      QueueDelay(s.pressure[ACCELERATOR_MEMORY]) + q.transfer + q.expected + MILLISECOND < q.d.deadline.value
    else q.d.latencyClass != FIXED_DEADLINE
  }

  /** What is held, what is kept back and the demand fit under the ceiling wherever something is asked
      for. */
  ghost predicate CapacityAllows(l: L.Ledger, p: Policy, demand: Vec) {
    forall i: nat, kept: nat | i < 12 && demand[i] > 0 && KeptBack(p, i, L.Availability(l)[i], kept) ::
      l.reserved[i] + l.used[i] + kept + demand[i] <= L.DimCeiling(l, i)
  }

  /** The snapshot has a token for everything the request names, if it names a backend. */
  predicate CapabilityAllows(s: Snapshot, d: Descriptor) {
    d.backend == [] ||
    (&& Ascii("backend=") + d.backend in s.capabilities
     && (d.dtype == [] || Ascii("dtype=") + d.dtype in s.capabilities)
     && (d.quantization == [] || Ascii("quant=") + d.quantization in s.capabilities))
  }

  /** Deferred requests of fewer than 512 expected output tokens. */
  function SmallWaiting(rs: Requests): set<u64> {
    set id | id in rs && rs[id].lifecycle == Deferred && rs[id].descriptor.expectedOutputTokens < 512
  }

  /** No crowd of small requests is waiting that the demand, above three fifths of what is available, would
      have to let pass first. */
  predicate FairnessAllows(p: Policy, rs: Requests, demand: u64, available: u64, starving: bool) {
    var n := |SmallWaiting(rs)|;
    n == 0 || 4 * n + 3 < p.fairnessWindow || starving || available == 0 || 5 * demand <= 3 * available
  }

  /** Everything an admission depends on, in no particular order. */
  ghost predicate Admissible(e: Engine, q: Query) {
    && WellFormed(q.d)
    && (q.d.admissionRequestId in e.requests ==>
          e.requests[q.d.admissionRequestId].lifecycle in {Proposed, Evaluating, Deferred})
    && P.Latest(e.history).Some?
    && var p := P.Effective(q.d, P.Latest(e.history).value);
    var l := Under(e.ledger, p);
    && CapabilityAllows(e.snapshot, q.d)
    && SnapshotAllows(e, p, q.now)
    && QuotaAllows(e.quota, q)
    && TimeAllows(e.snapshot, q)
    && CapacityAllows(l, p, q.demand)
    && FairnessAllows(p, e.requests, q.demand[ACCELERATOR_MEMORY], L.Availability(l)[ACCELERATOR_MEMORY], q.starving)
    && (forall d :: 0 <= d < 12 ==> l.reserved[d] + l.used[d] <= L.DimCeiling(l, d))
    && e.reservationCounter !in e.ledger.table
    && (exists d :: 0 <= d < 12 && q.demand[d] > 0)
  }

  lemma QuotaExactly(quota: Quota, q: Query)
    ensures QuotaAllows(quota, q) <==>
            !(quota.present && TokensOver(quota, q.d)) && !(quota.present && QuotaShort(quota, q.demand))
  {
    var remaining := SatSubVec(quota.limits, SatAddVec(quota.used, quota.reserved));
    assert forall i :: 0 <= i < 12 ==>
      remaining[i] == SatSub(quota.limits[i], SatAdd(quota.used[i], quota.reserved[i]));
  }

  lemma TimeExactly(s: Snapshot, q: Query)
    ensures TimeAllows(s, q) <==> Slo(s, q) != Infeasible && Slo(s, q) != Undecided
  {
  }

  lemma SnapshotExactly(e: Engine, p: Policy, now: int)
    ensures SnapshotAllows(e, p, now) <==>
              !(e.hasSnapshot && TooOld(e.snapshot, p, now)) &&
                !(e.hasSnapshot && UNAVAILABLE in e.snapshot.provenance) &&
              !(!e.hasSnapshot && p.requireReservation)
  {
  }

  /** One dimension: what is held, kept back and asked for is within the ceiling exactly if the demand is
      within the headroom. */
  lemma RoomExactly(l: L.Ledger, p: Policy, i: nat, demand: u64, kept: u64)
    requires L.Within(l) && i < 12 && demand > 0 && Margin(p, L.Availability(l))[i] == kept
    ensures l.reserved[i] + l.used[i] + kept + demand <= L.DimCeiling(l, i) <==>
            demand <= Headroom(p, L.Availability(l))[i]
  {
    hide Margin, L.DimCeiling;
  }

  lemma CapacityExactly(l: L.Ledger, p: Policy, demand: Vec)
    requires L.Within(l)
    ensures CapacityAllows(l, p, demand) <==> FitsIn(demand, Headroom(p, L.Availability(l)))
  {
    var a := L.Availability(l);
    hide L.Within, L.DimCeiling, KeptBack, Margin, Headroom, L.Availability;
    forall i: nat, kept: nat | i < 12 && demand[i] > 0
      ensures KeptBack(p, i, a[i], kept) ==> (l.reserved[i] + l.used[i] + kept + demand[i] <= L.DimCeiling(l, i) <==>
              demand[i] <= Headroom(p, a)[i])
    {
      KeptExactly(p, a, i, kept);
      if KeptBack(p, i, a[i], kept) { RoomExactly(l, p, i, demand[i], kept); }
    }
    forall i: nat | i < 12 ensures KeptBack(p, i, a[i], Margin(p, a)[i]) && 0 <= Headroom(p, a)[i] {
      KeptExactly(p, a, i, Margin(p, a)[i]);
    }
  }

  lemma CapabilityExactly(s: Snapshot, d: Descriptor)
    ensures CapabilityAllows(s, d) <==> Capable(s, d)
  {
  }

  lemma FairnessExactly(p: Policy, rs: Requests, demand: Vec, available: Vec, starving: bool)
    ensures FairnessAllows(p, rs, demand[ACCELERATOR_MEMORY], available[ACCELERATOR_MEMORY], starving)
       <==> !MustWait(p, rs, demand, available, starving)
  {
    assert SmallWaiting(rs) == SmallIds(rs);
  }

  /** The nine gates and the reservation, taken together, admit exactly what is admissible. */
  lemma AdmitsExactly(e: Engine, q: Query)
    requires L.Sound(e.ledger)
    ensures Admits(e, q) <==> Admissible(e, q)
  {
    hide L.Sound, WellFormed, P.Effective, Admits, Capable, CapabilityAllows, SnapshotAllows, QuotaAllows, TimeAllows,
      CapacityAllows, FairnessAllows, MustWait, Slo, TooOld, TokensOver, QuotaShort, Headroom, L.Availability, FitsIn,
      Under;
    if Admits(e, q) { AdmitsPassed(e, q); }
    if P.Latest(e.history).Some? {
      var p := P.Effective(q.d, P.Latest(e.history).value);
      QuotaExactly(e.quota, q);
      TimeExactly(e.snapshot, q);
      SnapshotExactly(e, p, q.now);
      CapabilityExactly(e.snapshot, q.d);
      FairnessExactly(p, e.requests, q.demand, L.Availability(Under(e.ledger, p)), q.starving);
      if L.Within(Under(e.ledger, p)) { CapacityExactly(Under(e.ledger, p), p, q.demand); }
      if PassesGates(e, p, q) { AdmittedExactly(e, p, q); }
    }
  }

  // ---------- More capacity never hurts ----------

  /** More available capacity keeps back more, but never more than it adds: what is left of `a` after the
      fraction, rounded down to `m`, and the absolute margin, which add up to `s`, is no more than what is
      left of `b` after `t`. */
  lemma MarginGrowsSlowly(a: u64, b: u64, ratio: real, absolute: u64, m: nat, s: nat, n: nat, t: nat)
    requires a <= b && 0.0 <= ratio < 1.0
    requires IsPart(m, a, ratio) && IsCapped(s, m, absolute)
    requires IsPart(n, b, ratio) && IsCapped(t, n, absolute)
    ensures m <= n <= m + (b - a) && s <= t
    ensures s <= a ==> t <= b && a - s <= b - t
  {
    var x, y := a as real * ratio, b as real * ratio;
    ScaledReal(a as real, ratio);
    ScaledReal(b as real, ratio);
    ScaledReal((b - a) as real, ratio);
    assert y == x + (b - a) as real * ratio;
  }

  lemma MarginsOrdered(a: u64, b: u64, ratio: real, absolute: u64)
    requires a <= b && 0.0 <= ratio < 1.0
    ensures SatSub(a, MarginOf(a, ratio, absolute)) <= SatSub(b, MarginOf(b, ratio, absolute))
  {
    hide MarginOf;
    var m := PartExists(a, ratio);
    var n := PartExists(b, ratio);
    hide IsPart, IsCapped, SatSub;
    MarginGrowsSlowly(a, b, ratio, absolute, m, MarginOf(a, ratio, absolute), n, MarginOf(b, ratio, absolute));
  }

  lemma HeadroomGrows(p: Policy, a: Vec, b: Vec, demand: Vec)
    requires FitsIn(a, b) && FitsIn(demand, Headroom(p, a))
    ensures FitsIn(demand, Headroom(p, b))
  {
    hide MarginOf, Ratio;
    forall i | 0 <= i < 12 ensures demand[i] <= Headroom(p, b)[i] {
      MarginsOrdered(a[i], b[i], Ratio(p), p.absoluteSafetyMargin[i]);
      assert demand[i] <= Headroom(p, a)[i];
    }
  }

  /** `u` is at least `t` everywhere and constrains the same dimensions. */
  predicate Enlarges(t: Vec, u: Vec) {
    FitsIn(t, u) && forall i :: 0 <= i < 12 ==> (t[i] == 0 <==> u[i] == 0)
  }

  lemma CeilingGrows(l: L.Ledger, total: Vec)
    requires Enlarges(l.total, total)
    ensures FitsIn(L.Ceiling(l), L.Ceiling(l.(total := total)))
    ensures FitsIn(L.Availability(l), L.Availability(l.(total := total)))
  {
    var m := l.(total := total);
    forall i | 0 <= i < 12
      ensures L.Ceiling(l)[i] <= L.Ceiling(m)[i] && L.Availability(l)[i] <= L.Availability(m)[i]
    {
      assert L.DimCeiling(l, i) <= L.DimCeiling(m, i);
    }
  }

  lemma WaitShrinks(p: Policy, rs: Requests, demand: Vec, a: Vec, b: Vec, starving: bool)
    requires FitsIn(a, b) && FitsIn(demand, a) && !MustWait(p, rs, demand, a, starving)
    ensures !MustWait(p, rs, demand, b, starving)
  {
    assert demand[ACCELERATOR_MEMORY] <= a[ACCELERATOR_MEMORY] <= b[ACCELERATOR_MEMORY];
  }

  function Enlarged(e: Engine, total: Vec): Engine { e.(ledger := e.ledger.(total := total)) }

  lemma StillPasses(e: Engine, p: Policy, q: Query, total: Vec)
    requires Enlarges(e.ledger.total, total) && Stopped(e, p, q).None?
    ensures Stopped(Enlarged(e, total), p, q).None?
  {
    hide Headroom, MustWait, Capable, TooOld, TokensOver, QuotaShort, Slo, L.Availability, FitsIn;
    var l := Under(e.ledger, p);
    StoppedFits(e, p, q);
    CeilingGrows(l, total);
    var a, b := L.Availability(l), L.Availability(l.(total := total));
    HeadroomBelow(p, a, q.demand);
    HeadroomGrows(p, a, b, q.demand);
    WaitShrinks(p, e.requests, q.demand, a, b, q.starving);
    assert Under(Enlarged(e, total).ledger, p) == l.(total := total);
  }

  lemma StillReserves(l: L.Ledger, total: Vec, id: u64, owner: u64, demand: Vec, ttl: int, now: int)
    requires Enlarges(l.total, total) && L.Reserve(l, id, owner, demand, ttl, now).1 == L.Ok
    ensures L.Reserve(l.(total := total), id, owner, demand, ttl, now)
         == (L.Reserve(l, id, owner, demand, ttl, now).0.(total := total), L.Ok)
  {
    hide L.Ceiling;
    CeilingGrows(l, total);
    var sum := Add(l.used, Add(l.reserved, demand));
    assert FitsIn(sum, L.Ceiling(l.(total := total))) by {
      forall i | 0 <= i < 12 ensures sum[i] <= L.Ceiling(l.(total := total))[i] {
        assert sum[i] <= L.Ceiling(l)[i];
      }
    }
  }

  /** Whatever is admitted is admitted, with the same decision, when any constrained totals are larger. */
  lemma AdmissionMonotone(e: Engine, q: Query, total: Vec)
    requires Enlarges(e.ledger.total, total) && Admits(e, q)
    ensures Admits(Enlarged(e, total), q) && Evaluate(Enlarged(e, total), q).1 == Evaluate(e, q).1
  {
    hide WellFormed, Duplicate, P.Effective, Stopped, L.Reserve, Emit, Transition, Enlarges, Risky, Admits, Evaluate;
    AdmitsPassed(e, q);
    var p := P.Effective(q.d, P.Latest(e.history).value);
    var f := Enlarged(e, total);
    StillPasses(e, p, q, total);
    AdmitsIsPlaced(e, p, q);
    AdmitsIsPlaced(f, p, q);
    assert Under(f.ledger, p) == Under(e.ledger, p).(total := total);
    StillReserves(Under(e.ledger, p), total, e.reservationCounter, q.d.tenantId, q.demand, p.maxReservationLifetime,
      q.now);
    SameDecision(e, p, q);
    SameDecision(f, p, q);
    SameRisk(e, f, p, q);
  }

  lemma SameDecision(e: Engine, p: Policy, q: Query)
    requires PassesGates(e, p, q) && Admits(e, q)
    ensures Evaluate(e, q).1 == AdmitDecision(e, p, q)
  {
    hide WellFormed, Duplicate, P.Effective, Stopped, L.Reserve, Emit, Transition, Risky, Under;
  }

  lemma SameRisk(e: Engine, f: Engine, p: Policy, q: Query)
    requires f.snapshot == e.snapshot && f.reservationCounter == e.reservationCounter &&
             f.admissionGeneration == e.admissionGeneration
    ensures AdmitDecision(e, p, q) == AdmitDecision(f, p, q)
  {
    hide Slo, Value, Less;
  }
}
