/** What one operation of the engine answers and leaves behind, in terms of the state before it. */
module EngineExactly {
  import opened Words
  import opened Resources
  import opened Records
  import opened Doubles
  import opened Texts
  import opened Engine
  import opened EngineRuns
  import opened Admission
  import L = Ledger
  import P = Policies
  import X = LedgerExactly

  // ---------- What is asked of a request ----------

  /** The double is a number above zero, perhaps infinite. */
  predicate Positive(x: Num) { x == PositiveInfinity || (x.Fin? && x.r > 0.0) }

  predicate Proper(d: Descriptor) {
    && 0 !in {d.admissionRequestId, d.requestId, d.attemptId, d.tenantId, d.modelId, d.modelRevision,
      d.policyGeneration}
    && (d.maxOutputTokens == 0 || d.expectedOutputTokens <= d.maxOutputTokens)
    && d.inputTokens <= 1_099_511_627_776 && d.expectedOutputTokens <= 1_099_511_627_776
    && d.maxOutputTokens <= 1_099_511_627_776
    && (d.deadline.None? || d.deadline.value > 0)
    && (d.requestedSlo.None? || Positive(Value(d.requestedSlo.value)))
    && d.priority < 64 && d.admissionTtl > 0
  }

  lemma ProperExactly(d: Descriptor)
    ensures Proper(d) <==> WellFormed(d)
  {
    hide Value;
  }

  /** The request is known and past evaluation: reserved, admitted or at an end. */
  predicate Past(e: Engine, id: u64) {
    id in e.requests &&
    e.requests[id].lifecycle in {
      Unknown, Lifecycle.Reserved, Admitted, Lifecycle.Released, Rejected, Lifecycle.Expired, Cancelled}
  }

  lemma PastExactly(e: Engine, id: u64)
    ensures Past(e, id) <==> Duplicate(e.requests, id)
  {
    if id in e.requests {
      match e.requests[id].lifecycle
      case Proposed =>
      case Evaluating =>
      case Deferred =>
      case _ =>
    }
  }

  // ---------- Time ----------

  /** The queue that the pressure on accelerator memory foretells, in nanoseconds. */
  lemma QueueTable(pressure: byte)
    ensures QueueDelay(0) == 0 && QueueDelay(1) == 5_000_000 && QueueDelay(2) == 20_000_000
    ensures QueueDelay(3) == 80_000_000 && QueueDelay(4) == 200_000_000 && (pressure > 4 ==> QueueDelay(pressure) == 0)
  {
  }

  /** What is left of the deadline after queue, transfer, execution and a millisecond for the reservation. */
  function Slack(s: Snapshot, q: Query): int
    requires q.d.deadline.Some?
  {
    q.d.deadline.value - (QueueDelay(s.pressure[0]) + q.transfer + q.expected + 1_000_000)
  }

  /** Without a deadline, any class but best effort (0) and fixed deadline (3) is a risk; with one, less than a
      tenth of it left is. */
  predicate TimeAtRisk(s: Snapshot, q: Query) {
    if q.d.deadline.None? then q.d.latencyClass != 0 && q.d.latencyClass != 3
    else 0 < Slack(s, q) && Slack(s, q) * 10 < q.d.deadline.value
  }

  lemma SloExactly(s: Snapshot, q: Query)
    ensures Slo(s, q) == Infeasible <==> q.d.deadline.Some? && Slack(s, q) <= 0
    ensures Slo(s, q) == Undecided <==> q.d.deadline.None? && q.d.latencyClass == 3
    ensures Slo(s, q) == FeasibleWithRisk <==> TimeAtRisk(s, q)
  {
    hide QueueDelay;
  }

  // ---------- The first objection ----------

  predicate TokensAllow(quota: Quota, d: Descriptor) {
    quota.present ==> quota.tokenBudget == 0 || d.inputTokens + d.expectedOutputTokens <= quota.tokenBudget
  }

  predicate ResourcesAllow(quota: Quota, demand: Vec) {
    quota.present ==> forall i :: 0 <= i < 12 && quota.limits[i] != 0 && demand[i] > 0 ==>
      quota.used[i] as nat + quota.reserved[i] + demand[i] <= quota.limits[i]
  }

  lemma QuotaParts(quota: Quota, q: Query)
    ensures TokensAllow(quota, q.d) <==> !(quota.present && TokensOver(quota, q.d))
    ensures ResourcesAllow(quota, q.demand) <==> !(quota.present && QuotaShort(quota, q.demand))
  {
    var remaining := SatSubVec(quota.limits, SatAddVec(quota.used, quota.reserved));
    assert forall i :: 0 <= i < 12 ==>
      remaining[i] == SatSub(quota.limits[i], SatAdd(quota.used[i], quota.reserved[i]));
  }

  /** The reason of the first objection to a request under the policy in force for it; zero if there is none
      before capacity. */
  function FirstObjection(e: Engine, p: Policy, q: Query): int {
    if !CapabilityAllows(e.snapshot, q.d) then 9
    else if e.hasSnapshot && q.now - e.snapshot.timestamp > p.maxSnapshotAge && !p.acceptStaleSnapshot then 14
    else if e.hasSnapshot && 6 in e.snapshot.provenance then 3
    else if !e.hasSnapshot && p.requireReservation then 3
    else if !TokensAllow(e.quota, q.d) then 10
    else if !ResourcesAllow(e.quota, q.demand) then 4
    else if q.d.deadline.Some? && Slack(e.snapshot, q) <= 0 then 7
    else if q.d.deadline.None? && q.d.latencyClass == 3 then 5
    else 0
  }

  lemma FirstObjectionStops(e: Engine, p: Policy, q: Query)
    ensures var s := Stopped(e, p, q); var first := FirstObjection(e, p, q);
            if first == 0 then s.None? || s == Some(3) else s == Some(first)
  {
    hide Slo, QueueDelay, QuotaShort, TokensOver, Capable, CapabilityAllows, TokensAllow, ResourcesAllow, Headroom,
      MustWait, L.Availability, FitsIn, Under;
    CapabilityExactly(e.snapshot, q.d);
    QuotaParts(e.quota, q);
    SloExactly(e.snapshot, q);
  }

  /** The confidence is below what the policy asks for, or the time is at risk. */
  predicate AtRisk(e: Engine, p: Policy, q: Query) {
    Less(Value(q.confidence), Value(p.minPredictorConfidence)) || TimeAtRisk(e.snapshot, q)
  }

  /** The reason of every decision. A request that is improper or past evaluation is malformed (12); without a
      policy every other is refused for policy (8); then the first objection decides, in this order:
      capability (9), staleness (14), unknown capacity (3), token budget (10), quota (4), a deadline that
      cannot be met (7), a class that must have one (5). Of what is left, the admissible is admitted, with
      risk (2) or without (1), and the rest waits for capacity (3). */
  lemma ReasonExactly(e: Engine, q: Query)
    requires L.Sound(e.ledger)
    ensures var reason := Evaluate(e, q).1.reason;
            if !Proper(q.d) || Past(e, q.d.admissionRequestId) then reason == 12
            else if P.Latest(e.history).None? then reason == 8
            else
              var p := P.Effective(q.d, P.Latest(e.history).value);
              if FirstObjection(e, p, q) != 0 then reason == FirstObjection(e, p, q)
              else if !Admissible(e, q) then reason == 3
              else if AtRisk(e, p, q) then reason == 2
              else reason == 1
  {
    hide Proper, Past, WellFormed, Duplicate, P.Effective, FirstObjection, Stopped, Admissible, AtRisk, L.Sound,
      Admits, Evaluate;
    ProperExactly(q.d);
    PastExactly(e, q.d.admissionRequestId);
    AdmitsExactly(e, q);
    EvaluateReason(e, q);
    if P.Latest(e.history).Some? {
      var p := P.Effective(q.d, P.Latest(e.history).value);
      FirstObjectionStops(e, p, q);
      RiskExactly(e, p, q);
    }
  }

  lemma RiskExactly(e: Engine, p: Policy, q: Query)
    ensures AtRisk(e, p, q) <==> Risky(e, p, q)
  {
    hide Slo, TimeAtRisk, Less, Value;
    SloExactly(e.snapshot, q);
  }

  lemma EvaluateReason(e: Engine, q: Query)
    ensures var reason := Evaluate(e, q).1.reason;
            if !WellFormed(q.d) || Duplicate(e.requests, q.d.admissionRequestId) then reason == 12 && !Admits(e, q)
            else if P.Latest(e.history).None? then reason == 8 && !Admits(e, q)
            else
              var p := P.Effective(q.d, P.Latest(e.history).value); var s := Stopped(e, p, q);
              if s.Some? then reason == s.value && !Admits(e, q)
              else if Admits(e, q) then reason == (if Risky(e, p, q) then 2 else 1)
              else reason == 3
  {
    hide WellFormed, Duplicate, P.Effective, Stopped, Transition, Emit, Risky, L.Reserve, Under;
    if P.Latest(e.history).Some? { StoppedReason(e, P.Effective(q.d, P.Latest(e.history).value), q); }
  }

  /** Nothing is known, held or decided at the start, and every counter stands at one. */
  lemma StartExactly()
    ensures START.history.policies == map[] && START.history.latest == 0 && START.history.counter == 1
    ensures START.ledger.table == map[] && START.ledger.mode == 0 && START.ledger.serial == 1
    ensures forall i :: 0 <= i < 12 ==> START.ledger.total[i] == 0 && START.ledger.allowance[i] == 0 &&
                                        START.ledger.reserved[i] == 0 && START.ledger.used[i] == 0
    ensures !START.hasSnapshot && !START.quota.present && START.requests == map[]
    ensures START.admissionGeneration == 1 && START.reservationCounter == 1
  {
  }

  // ---------- The decision ----------

  /** Whose decision it is, when and on what it was taken, and what it grants. */
  lemma DecisionExactly(e: Engine, q: Query)
    ensures var dec := Evaluate(e, q).1;
            && dec.admissionRequestId == q.d.admissionRequestId && dec.requestId == q.d.requestId
            && dec.attemptId == q.d.attemptId && dec.tenantId == q.d.tenantId
            && dec.modelId == q.d.modelId && dec.modelRevision == q.d.modelRevision
            && dec.policyGeneration == q.d.policyGeneration && dec.snapshotGeneration == e.snapshot.generation
            && dec.epoch == 0 && dec.decisionTime == q.now && dec.explanation == q.note
            && dec.outcome == (if dec.reason in {1, 2} then 0 else if dec.reason in {3, 4, 5} then 1 else 2)
            && dec.demand == (if dec.reason in {12, 8} then [0, 0, 0, 0, 0, 0, 0, 0, 0, 0, 0, 0] else q.demand)
            && (if dec.outcome == 0
                then dec.reservationId == Some(e.reservationCounter) && dec.admissionGeneration == e.admissionGeneration
                     && dec.confidence == q.confidence
                else dec.reservationId == None && dec.admissionGeneration == 0 && dec.confidence == 0)
  {
    hide WellFormed, Duplicate, P.Effective, Stopped, Transition, Emit, Risky, L.Reserve, Under;
    if P.Latest(e.history).Some? { StopReasons(e, P.Effective(q.d, P.Latest(e.history).value), q); }
  }

  lemma StopReasons(e: Engine, p: Policy, q: Query)
    ensures var s := Stopped(e, p, q); s.Some? ==> s.value in {3, 4, 5, 7, 9, 10, 14}
  {
  }

  // ---------- The state after an evaluation ----------

  /** The policy in force for a request. */
  function InForce(e: Engine, q: Query): Policy
    requires P.Latest(e.history).Some?
  {
    P.Effective(q.d, P.Latest(e.history).value)
  }

  /** `m` is `l` under the terms of `p`: the allowance counts only where overcommit is on. */
  ghost predicate Bound(l: L.Ledger, m: L.Ledger, p: Policy) {
    && m.mode == p.overcommit
    && (forall i :: 0 <= i < 12 ==> m.allowance[i] == if p.overcommit == 0 then 0 else p.overcommitAllowance[i])
    && m.total == l.total && m.reserved == l.reserved && m.used == l.used && m.table == l.table && m.serial == l.serial
  }

  lemma UnderExactly(l: L.Ledger, p: Policy)
    ensures Bound(l, Under(l, p), p)
  {
  }

  /** What an evaluation leaves alone, and how it advances the counters: a reservation id is used up by
      every request that passes the gates, a generation only by an admission; and a request that gets as far
      as a policy leaves the ledger under the terms of the one in force for it. */
  lemma EvaluateFrame(e: Engine, q: Query)
    ensures var f := Evaluate(e, q).0; var dec := Evaluate(e, q).1;
            && f.history == e.history && f.snapshot == e.snapshot && f.hasSnapshot == e.hasSnapshot
            && f.quota == e.quota
            && f.admissionGeneration == (if dec.outcome == 0 && e.admissionGeneration < U64_MAX
                                         then e.admissionGeneration + 1 else e.admissionGeneration)
            && (dec.outcome == 0 ==>
                  f.reservationCounter == if e.reservationCounter == U64_MAX then 1 else e.reservationCounter + 1)
            && (dec.outcome != 0 && dec.reason != 3 ==> f.reservationCounter == e.reservationCounter)
            && (dec.reason in {12, 8} ==> f.ledger == e.ledger)
            && (dec.reason !in {12, 8} && dec.outcome != 0 ==>
                  P.Latest(e.history).Some? && Bound(e.ledger, f.ledger, InForce(e, q)))
  {
    hide WellFormed, Duplicate, P.Effective, Stopped, Transition, Refuse, Place, Bound, P.Latest;
    var id := q.d.admissionRequestId;
    RefuseFrame(e, e.requests, q, 12, ZERO);
    var rs := Transition(e.requests, id, Proposed, Evaluating, q.d);
    RefuseFrame(e, rs, q, 8, ZERO);
    if P.Latest(e.history).Some? {
      var p := InForce(e, q);
      StopReasons(e, p, q);
      UnderExactly(e.ledger, p);
      if Stopped(e, p, q).Some? {
        RefuseFrame(e.(ledger := Under(e.ledger, p)), rs, q, Stopped(e, p, q).value, q.demand);
      }
      PlaceFrame(e, p, rs, q);
    }
  }

  lemma RefuseFrame(e: Engine, rs: Requests, q: Query, reason: int, demand: Vec)
    ensures var f := Refuse(e, rs, q, reason, demand);
            f.0 == e.(requests := f.0.requests) && f.1.outcome == OutcomeOf(reason) && f.1.reason == reason
  {
    hide Emit;
  }

  lemma PlaceFrame(e: Engine, p: Policy, rs: Requests, q: Query)
    ensures var f := Place(e, p, rs, q).0; var dec := Place(e, p, rs, q).1;
            && f.history == e.history && f.snapshot == e.snapshot && f.hasSnapshot == e.hasSnapshot
            && f.quota == e.quota && dec.reason in {1, 2, 3} && (dec.outcome == 0 <==> dec.reason != 3)
            && f.reservationCounter == (if e.reservationCounter == U64_MAX then 1 else e.reservationCounter + 1)
            && (if dec.reason == 3 then f.admissionGeneration == e.admissionGeneration && f.ledger == Under(e.ledger, p)
                else f.admissionGeneration == if e.admissionGeneration < U64_MAX then e.admissionGeneration + 1
                                              else e.admissionGeneration)
  {
    hide Emit, L.Reserve, Under, Risky;
  }

  /** The reservation that an admission makes: for the tenant, of the demand, from now for the lifetime of the
      policy in force, under its terms. */
  lemma AdmissionReserves(e: Engine, q: Query)
    requires Admits(e, q)
    ensures P.Latest(e.history).Some?
    ensures var p := InForce(e, q); var f := Evaluate(e, q).0;
            exists l: L.Ledger :: Bound(e.ledger, l, p) &&
              X.Made(l, f.ledger, e.reservationCounter, q.d.tenantId, q.demand, p.maxReservationLifetime, q.now)
  {
    hide Admits, P.Effective, L.Reserve, PassesGates, Evaluate, Under, X.Made, Bound;
    AdmitsPassed(e, q);
    var p := InForce(e, q);
    AdmitsIsPlaced(e, p, q);
    UnderExactly(e.ledger, p);
    X.ReserveExactly(Under(e.ledger, p), e.reservationCounter, q.d.tenantId, q.demand, p.maxReservationLifetime, q.now);
  }

  /** The record that an evaluation leaves: the decision; the descriptor of the record there was, or else that
      of the request, except that a new record made for an improper request has the default one; and a
      lifecycle that follows the outcome, unless the record had settled before. */
  lemma RecordExactly(e: Engine, q: Query)
    ensures var id := q.d.admissionRequestId; var f := Evaluate(e, q).0; var dec := Evaluate(e, q).1;
            && f.requests.Keys == e.requests.Keys + {id}
            && (forall k | k in e.requests && k != id :: f.requests[k] == e.requests[k])
            && f.requests[id].decision == Some(dec)
            && f.requests[id].descriptor ==
                 (if id in e.requests then e.requests[id].descriptor
                  else if Proper(q.d) then q.d else DEFAULT_DESCRIPTOR)
            && f.requests[id].lifecycle ==
                 (if id in e.requests && e.requests[id].lifecycle !in {Proposed, Evaluating}
                  then e.requests[id].lifecycle
                  else if dec.outcome == 0 then Lifecycle.Reserved
                  else if dec.outcome == 1 then Deferred else Rejected)
  {
    hide WellFormed, Duplicate, P.Effective, Stopped, Risky, L.Reserve, Under, Proper, Transition, Emit;
    ProperExactly(q.d);
    var id := q.d.admissionRequestId;
    var dec := Evaluate(e, q).1;
    var to := if dec.outcome == 0 then Lifecycle.Reserved else if dec.outcome == 1 then Deferred else Rejected;
    EmitRecord(e.requests, q.d, to, dec);
    EnterRecord(e.requests, q.d, to, dec);
    DecisionExactly(e, q);
    NewIsNoDuplicate(e, id);
  }

  lemma NewIsNoDuplicate(e: Engine, id: u64)
    ensures id !in e.requests ==> !Duplicate(e.requests, id)
  {
  }

  lemma EmitRecord(rs: Requests, d: Descriptor, to: Lifecycle, dec: Decision)
    requires to !in {Proposed, Evaluating}
    ensures var id := d.admissionRequestId; var out := Emit(rs, d, to, dec);
            && out.Keys == rs.Keys + {id} && (forall k | k in rs && k != id :: out[k] == rs[k])
            && out[id] == Request(
              if id in rs && rs[id].lifecycle !in {Proposed, Evaluating} then rs[id].lifecycle else to,
              if id in rs then rs[id].descriptor else DEFAULT_DESCRIPTOR, Some(dec))
  {
  }

  lemma EnterRecord(rs: Requests, d: Descriptor, to: Lifecycle, dec: Decision)
    requires to !in {Proposed, Evaluating}
    ensures var id := d.admissionRequestId;
            var out := Emit(Transition(rs, id, Proposed, Evaluating, d), d, to, dec);
            && out.Keys == rs.Keys + {id} && (forall k | k in rs && k != id :: out[k] == rs[k])
            && out[id] == Request(
              if id in rs && rs[id].lifecycle !in {Proposed, Evaluating} then rs[id].lifecycle else to,
              if id in rs then rs[id].descriptor else d, Some(dec))
  {
    hide Emit;
    EmitRecord(Transition(rs, d.admissionRequestId, Proposed, Evaluating, d), d, to, dec);
  }
}
