/** The admission engine of src/core/engine.cpp as a value: the gates of an evaluation, the record
    they leave, and the later transitions of a request. */
module Engine {
  import opened Words
  import opened Resources
  import opened Records
  import opened Doubles
  import opened Texts
  import L = Ledger
  import P = Policies

  datatype Lifecycle =
    | Unknown | Proposed | Evaluating | Deferred | Reserved | Admitted | Released | Rejected | Expired | Cancelled

  datatype Request = Request(lifecycle: Lifecycle, descriptor: Descriptor, decision: Option<Decision>)

  type Requests = map<u64, Request>

  datatype Engine = Engine(
    history: P.History, ledger: L.Ledger, snapshot: Snapshot, hasSnapshot: bool, quota: Quota,
    requests: Requests, admissionGeneration: u64, reservationCounter: u64)

  const START: Engine := Engine(P.START, L.EMPTY, DEFAULT_SNAPSHOT, false, DEFAULT_QUOTA, map[], 1, 1)

  /** One call of `evaluate`: the descriptor, what the predictor says of it, the clock, whether the
      fairness controller reports its tenant starving, and the explanation text that results. */
  datatype Query = Query(
    d: Descriptor, demand: Vec, expected: int, transfer: int, confidence: double, now: int, starving: bool, note: bytes)

  datatype Code =
    | Success
    | StaleAdmissionGeneration
    | OperationNotPermitted
    | AdmissionWithoutReservation
    | FromLedger(code: L.Code)

  // ---------- Reasons ----------

  const ADMIT_WITH_RESERVATION: int := 1
  const ADMIT_WITH_RISK: int := 2
  const DEFER_CAPACITY: int := 3
  const DEFER_QUOTA: int := 4
  const DEFER_SLO: int := 5
  const REJECT_INFEASIBLE: int := 7
  const REJECT_POLICY: int := 8
  const REJECT_CAPABILITY: int := 9
  const REJECT_QUOTA: int := 10
  const REJECT_MALFORMED: int := 12
  const REJECT_STALE: int := 14

  const OUTCOME_ADMIT: byte := 0
  const OUTCOME_DEFER: byte := 1
  const OUTCOME_REJECT: byte := 2

  function OutcomeOf(reason: int): byte {
    if 0 <= reason <= 2 then OUTCOME_ADMIT else if 3 <= reason <= 6 then OUTCOME_DEFER else OUTCOME_REJECT
  }

  // ---------- The gates ----------

  const MAX_TOKENS: nat := 0x100_0000_0000

  predicate WellFormed(d: Descriptor) {
    && d.admissionRequestId != 0 && d.requestId != 0 && d.attemptId != 0 && d.tenantId != 0
    && d.modelId != 0 && d.modelRevision != 0 && d.policyGeneration != 0
    && (d.maxOutputTokens != 0 ==> d.expectedOutputTokens <= d.maxOutputTokens)
    && d.inputTokens <= MAX_TOKENS && d.expectedOutputTokens <= MAX_TOKENS && d.maxOutputTokens <= MAX_TOKENS
    && (d.deadline.Some? ==> d.deadline.value > 0)
    && (d.requestedSlo.Some? ==> Less(Fin(0.0), Value(d.requestedSlo.value)))
    && d.priority <= 63
    && d.admissionTtl > 0
  }

  /** A request that is past evaluation cannot be evaluated again; a deferred one can. */
  predicate Duplicate(rs: Requests, id: u64) {
    id in rs && rs[id].lifecycle !in {Proposed, Deferred, Evaluating}
  }

  function RequiredTokens(d: Descriptor): set<bytes> {
    {Ascii("backend=") + d.backend}
    + (if d.dtype != [] then {Ascii("dtype=") + d.dtype} else {})
    + (if d.quantization != [] then {Ascii("quant=") + d.quantization} else {})
  }

  predicate Capable(s: Snapshot, d: Descriptor) { d.backend == [] || RequiredTokens(d) <= s.capabilities }

  predicate TooOld(s: Snapshot, p: Policy, now: int) { now - s.timestamp > p.maxSnapshotAge && !p.acceptStaleSnapshot }

  const UNAVAILABLE: byte := 6

  predicate QuotaShort(q: Quota, demand: Vec) {
    var remaining := SatSubVec(q.limits, SatAddVec(q.used, q.reserved));
    exists i :: 0 <= i < 12 && q.limits[i] != 0 && demand[i] > remaining[i]
  }

  predicate TokensOver(q: Quota, d: Descriptor) {
    q.tokenBudget != 0 && d.inputTokens + d.expectedOutputTokens > q.tokenBudget
  }

  datatype Verdict = Feasible | FeasibleWithRisk | Infeasible | Undecided

  const MILLISECOND: int := 1_000_000
  const BEST_EFFORT: byte := 0
  const FIXED_DEADLINE: byte := 3

  function QueueDelay(pressure: byte): int {
    match pressure
    case 4 => 200 * MILLISECOND
    case 3 => 80 * MILLISECOND
    case 2 => 20 * MILLISECOND
    case 1 => 5 * MILLISECOND
    case _ => 0
  }

  function Slo(s: Snapshot, q: Query): Verdict {
    var total := QueueDelay(s.pressure[ACCELERATOR_MEMORY]) + q.transfer + q.expected + MILLISECOND;
    if q.d.deadline.None? then
      if q.d.latencyClass == BEST_EFFORT then Feasible
      else if q.d.latencyClass == FIXED_DEADLINE then Undecided
      else FeasibleWithRisk
    else
      var budget := q.d.deadline.value;
      var remaining := budget - total;
      if remaining <= 0 then Infeasible
      else if 10 * remaining < budget then FeasibleWithRisk
      else Feasible
  }

  function Scaled(x: real, ratio: real): real { x * ratio }

  lemma ProductNonNegative(x: real, y: real)
    requires 0.0 <= x && 0.0 <= y
    ensures 0.0 <= x * y
  {
  }

  lemma ScaledReal(x: real, ratio: real)
    requires 0.0 <= x && 0.0 <= ratio < 1.0
    ensures 0.0 <= Scaled(x, ratio) <= x
  {
    ProductNonNegative(x, ratio);
    ProductNonNegative(x, 1.0 - ratio);
    assert x * (1.0 - ratio) == x - x * ratio;
  }

  lemma ScaledBetween(n: nat, ratio: real)
    requires 0.0 <= ratio < 1.0
    ensures 0.0 <= Scaled(n as real, ratio) <= n as real
    ensures 0 <= Scaled(n as real, ratio).Floor <= n
  {
    hide Scaled;
    ScaledReal(n as real, ratio);
  }

  /** `n` is the fraction `r` of `available`, rounded down. */
  predicate IsPart(n: int, available: u64, r: real) { n as real <= available as real * r < n as real + 1.0 }

  /** `m` is the sum of `n` and `absolute`, cut off at the largest word. */
  predicate IsCapped(m: nat, n: nat, absolute: u64) { m == if n + absolute <= U64_MAX then n + absolute else U64_MAX }

  /** The part of the available capacity that is kept back: a fraction, rounded down, and an absolute part. */
  function MarginOf(available: u64, ratio: real, absolute: u64): (m: u64)
    requires 0.0 <= ratio < 1.0
    ensures forall n: nat | IsPart(n, available, ratio) :: IsCapped(m, n, absolute)
  {
    ScaledBetween(available, ratio);
    SatAdd(Scaled(available as real, ratio).Floor, absolute)
  }

  /** The real number that the stored ratio of `p` stands for. */
  predicate RatioIs(p: Policy, r: real) {
    if IsFraction(p.safetyHeadroomRatio) then Value(p.safetyHeadroomRatio) == Fin(r) else r == 0.0
  }

  /** A ratio out of range never passes validation; it is read as zero to keep the margin total. */
  function Ratio(p: Policy): (r: real)
    ensures 0.0 <= r < 1.0
    ensures forall x: real :: RatioIs(p, x) <==> x == r
  {
    if IsFraction(p.safetyHeadroomRatio) then Value(p.safetyHeadroomRatio).r else 0.0
  }

  function Margin(p: Policy, available: Vec): (m: Vec)
    ensures forall i :: 0 <= i < 12 ==> m[i] == MarginOf(available[i], Ratio(p), p.absoluteSafetyMargin[i])
  {
    seq(12, i requires 0 <= i < 12 => MarginOf(available[i], Ratio(p), p.absoluteSafetyMargin[i]))
  }

  /** What the policy keeps back of an availability: the fraction that its ratio stands for, rounded down,
      and the absolute margin of the dimension. */
  ghost predicate KeptBack(p: Policy, i: nat, available: u64, kept: nat)
    requires i < 12
  {
    exists r: real, n: nat ::
      RatioIs(p, r) && IsPart(n, available, r) && IsCapped(kept, n, p.absoluteSafetyMargin[i])
  }

  lemma PartOnce(m: int, n: int, available: u64, r: real)
    requires IsPart(m, available, r) && IsPart(n, available, r)
    ensures m == n
  {
  }

  lemma PartExists(available: u64, r: real) returns (m: nat)
    requires 0.0 <= r
    ensures IsPart(m, available, r)
  {
    ProductNonNegative(available as real, r);
    m := (available as real * r).Floor;
  }

  /** The ratio is one number, and rounding it down gives one number. */
  lemma KeptOnce(p: Policy, available: u64, r: real, m: nat, kept: nat, i: nat)
    requires i < 12 && r == Ratio(p) && IsPart(m, available, r)
    ensures KeptBack(p, i, available, kept) <==> IsCapped(kept, m, p.absoluteSafetyMargin[i])
  {
    hide IsCapped, RatioIs, IsPart;
    assert RatioIs(p, r);
    if KeptBack(p, i, available, kept) {
      var x: real, n: nat :|
        RatioIs(p, x) && IsPart(n, available, x) && IsCapped(kept, n, p.absoluteSafetyMargin[i]);
      PartOnce(m, n, available, r);
    }
  }

  lemma KeptExactly(p: Policy, available: Vec, i: nat, kept: nat)
    requires i < 12
    ensures KeptBack(p, i, available[i], kept) <==> Margin(p, available)[i] == kept
  {
    hide Ratio, KeptBack, MarginOf, IsPart;
    var m := PartExists(available[i], Ratio(p));
    KeptOnce(p, available[i], Ratio(p), m, kept, i);
    assert IsCapped(MarginOf(available[i], Ratio(p), p.absoluteSafetyMargin[i]), m, p.absoluteSafetyMargin[i]);
  }

  function Headroom(p: Policy, available: Vec): Vec { SatSubVec(available, Margin(p, available)) }

  predicate WaitsSmall(r: Request) { r.lifecycle == Deferred && r.descriptor.expectedOutputTokens < 512 }

  function SmallIds(rs: Requests): set<u64> { set id | id in rs && WaitsSmall(rs[id]) }

  function PendingSmall(rs: Requests): nat { |SmallIds(rs)| }

  /** Demand is more than sixty percent of what is available. */
  predicate Large(demand: u64, available: u64) { available > 0 && demand > 0 && 10 * demand > 6 * available }

  predicate MustWait(p: Policy, rs: Requests, demand: Vec, available: Vec, starving: bool) {
    && PendingSmall(rs) != 0
    && !starving
    && Large(demand[ACCELERATOR_MEMORY], available[ACCELERATOR_MEMORY])
    && PendingSmall(rs) >= p.fairnessWindow / 4
  }

  /** The ledger under the overcommit terms of a policy. */
  function Under(l: L.Ledger, p: Policy): L.Ledger {
    l.(mode := p.overcommit, allowance := if p.overcommit == L.MODE_NONE then ZERO else p.overcommitAllowance)
  }

  /** The gates between an installed policy and the reservation: the reason that stops the query, or
      none. */
  function Stopped(e: Engine, p: Policy, q: Query): Option<int> {
    if !Capable(e.snapshot, q.d) then Some(REJECT_CAPABILITY)
    else if e.hasSnapshot && TooOld(e.snapshot, p, q.now) then Some(REJECT_STALE)
    else if e.hasSnapshot && UNAVAILABLE in e.snapshot.provenance then Some(DEFER_CAPACITY)
    else if !e.hasSnapshot && p.requireReservation then Some(DEFER_CAPACITY)
    else if e.quota.present && TokensOver(e.quota, q.d) then Some(REJECT_QUOTA)
    else if e.quota.present && QuotaShort(e.quota, q.demand) then Some(DEFER_QUOTA)
    else if Slo(e.snapshot, q) == Infeasible then Some(REJECT_INFEASIBLE)
    else if Slo(e.snapshot, q) == Undecided then Some(DEFER_SLO)
    else
      var available := L.Availability(Under(e.ledger, p));
      if !FitsIn(q.demand, Headroom(p, available)) then Some(DEFER_CAPACITY)
      else if MustWait(p, e.requests, q.demand, available, q.starving) then Some(DEFER_CAPACITY)
      else None
  }

  // ---------- Records ----------

  const FRESH: Request := Request(Proposed, DEFAULT_DESCRIPTOR, None)

  /** `transition_`: creates the record if need be, and moves it if it is where it should be. */
  function Transition(rs: Requests, id: u64, from: Lifecycle, to: Lifecycle, d: Descriptor): Requests {
    var r := if id in rs then rs[id] else Request(from, d, None);
    rs[id := if r.lifecycle == from then r.(lifecycle := to) else r]
  }

  /** The `emit` closure: stores the decision, then tries both transitions. */
  function Emit(rs: Requests, d: Descriptor, to: Lifecycle, dec: Decision): Requests {
    var id := d.admissionRequestId;
    var r := if id in rs then rs[id] else FRESH;
    var stored := rs[id := r.(decision := Some(dec))];
    Transition(Transition(stored, id, Proposed, Evaluating, d), id, Evaluating, to, d)
  }

  function Decide(e: Engine, q: Query, reason: int, demand: Vec): Decision {
    Decision(q.d.admissionRequestId, q.d.requestId, q.d.attemptId, q.d.tenantId, q.d.modelId, q.d.modelRevision,
             OutcomeOf(reason), reason, q.d.policyGeneration, e.snapshot.generation, 0, 0, 0, q.now, None, demand,
               q.note)
  }

  function Closing(reason: int): Lifecycle { if OutcomeOf(reason) == OUTCOME_DEFER then Deferred else Rejected }

  /** Records a decision without reservation. */
  function Refuse(e: Engine, rs: Requests, q: Query, reason: int, demand: Vec): (Engine, Decision) {
    var dec := Decide(e, q, reason, demand);
    (e.(requests := Emit(rs, q.d, Closing(reason), dec)), dec)
  }

  predicate Risky(e: Engine, p: Policy, q: Query) {
    Less(Value(q.confidence), Value(p.minPredictorConfidence)) || Slo(e.snapshot, q) == FeasibleWithRisk
  }

  function AdmitDecision(e: Engine, p: Policy, q: Query): Decision {
    Decide(e, q, if Risky(e, p, q) then ADMIT_WITH_RISK else ADMIT_WITH_RESERVATION, q.demand)
      .(reservationId := Some(e.reservationCounter), admissionGeneration := e.admissionGeneration,
        confidence := q.confidence)
  }

  /** The reservation, once every gate is passed. */
  function Place(e: Engine, p: Policy, rs: Requests, q: Query): (Engine, Decision) {
    var f := e.(ledger := Under(e.ledger, p), reservationCounter := Bump(e.reservationCounter));
    var r := L.Reserve(f.ledger, e.reservationCounter, q.d.tenantId, q.demand, p.maxReservationLifetime, q.now);
    if r.1 != L.Ok then Refuse(f, rs, q, DEFER_CAPACITY, q.demand)
    else
      var dec := AdmitDecision(e, p, q);
      (f.(ledger := r.0, admissionGeneration := Next(e.admissionGeneration),
        requests := Emit(rs, q.d, Lifecycle.Reserved, dec)), dec)
  }

  function Evaluate(e: Engine, q: Query): (Engine, Decision) {
    if !WellFormed(q.d) || Duplicate(e.requests, q.d.admissionRequestId)
      then Refuse(e, e.requests, q, REJECT_MALFORMED, ZERO)
    else
      var rs := Transition(e.requests, q.d.admissionRequestId, Proposed, Evaluating, q.d);
      var base := P.Latest(e.history);
      if base.None? then Refuse(e, rs, q, REJECT_POLICY, ZERO)
      else
        var p := P.Effective(q.d, base.value);
        var stop := Stopped(e, p, q);
        if stop.Some? then Refuse(e.(ledger := Under(e.ledger, p)), rs, q, stop.value, q.demand)
        else Place(e, p, rs, q)
  }

  // ---------- Later transitions ----------

  predicate Names(r: Request, id: u64) { r.decision.Some? && r.decision.value.reservationId == Some(id) }

  function CommitAdmission(e: Engine, id: u64, generation: u64, now: int): (Engine, Code) {
    if id !in e.requests then (e, StaleAdmissionGeneration)
    else
      var r := e.requests[id];
      if r.decision.None? then (e, OperationNotPermitted)
      else if r.decision.value.admissionGeneration != generation then (e, StaleAdmissionGeneration)
      else if r.decision.value.reservationId.None? then (e, AdmissionWithoutReservation)
      else
        var c := L.Commit(e.ledger, r.decision.value.reservationId.value, id, generation, now);
        if c.1 != L.Ok then (e.(ledger := c.0), FromLedger(c.1))
        else (e.(ledger := c.0, requests := e.requests[id := r.(lifecycle := Admitted)]), Success)
  }

  predicate Holds(r: Request, id: u64) {
    Names(r, id) && (r.lifecycle == Admitted || r.lifecycle == Lifecycle.Reserved)
  }

  function Freed(r: Request, id: u64): Request { if Holds(r, id) then r.(lifecycle := Lifecycle.Released) else r }

  function MarkReleased(rs: Requests, id: u64): Requests { map k | k in rs :: Freed(rs[k], id) }

  function ReleaseReservation(e: Engine, id: u64): (Engine, Code) {
    var r := L.Release(e.ledger, id);
    if r.1 != L.Ok then (e.(ledger := r.0), FromLedger(r.1))
    else (e.(ledger := r.0, requests := MarkReleased(e.requests, id)), Success)
  }

  function CancelRequest(e: Engine, id: u64): (Engine, Code) {
    if id !in e.requests then (e, StaleAdmissionGeneration)
    else
      var r := e.requests[id];
      var cancelled := e.requests[id := r.(lifecycle := Cancelled)];
      match r.lifecycle
      case Proposed => (e.(requests := cancelled), Success)
      case Evaluating => (e.(requests := cancelled), Success)
      case Deferred => (e.(requests := cancelled), Success)
      case Reserved =>
        var l := if r.decision.Some? && r.decision.value.reservationId.Some?
                 then L.Rollback(e.ledger, r.decision.value.reservationId.value).0 else e.ledger;
        (e.(ledger := l, requests := cancelled), Success)
      case _ => (e, OperationNotPermitted)
  }

  function InstallPolicy(e: Engine, p: Policy): (Engine, P.Code) {
    var r := P.Install(e.history, p);
    var latest := P.Latest(r.0);
    if r.1 == P.Ok && latest.Some? then (e.(history := r.0, ledger := Under(e.ledger, latest.value)), P.Ok)
    else (e.(history := r.0), r.1)
  }

  function SetSnapshot(e: Engine, s: Snapshot): Engine {
    e.(snapshot := s, hasSnapshot := true, ledger := e.ledger.(total := s.total))
  }
}
