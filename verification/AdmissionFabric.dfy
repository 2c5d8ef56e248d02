/** AdmissionFabric of engine.cpp as it runs, proved against `Engine`. */
module AdmissionFabric {
  import opened Words
  import opened Ordering
  import opened Resources
  import opened Records
  import opened Doubles
  import opened Engine
  import E = Engine
  import L = Ledger
  import P = Policies
  import M = ReservationManager

  ghost function SmallAmong(rs: Requests, keys: seq<u64>): set<u64> {
    set id | id in keys && id in rs && WaitsSmall(rs[id])
  }

  lemma SmallNext(rs: Requests, keys: seq<u64>, i: nat)
    requires i < |keys| && keys[i] in rs && keys[i] !in keys[..i]
    ensures |SmallAmong(rs, keys[..i + 1])| == |SmallAmong(rs, keys[..i])| + if WaitsSmall(rs[keys[i]]) then 1 else 0
  {
    hide WaitsSmall;
    assert keys[..i + 1] == keys[..i] + [keys[i]];
    if WaitsSmall(rs[keys[i]]) {
      assert SmallAmong(rs, keys[..i + 1]) == SmallAmong(rs, keys[..i]) + {keys[i]};
    } else {
      assert SmallAmong(rs, keys[..i + 1]) == SmallAmong(rs, keys[..i]);
    }
  }

  lemma SmallAll(rs: Requests, keys: seq<u64>)
    requires forall id :: id in keys <==> id in rs
    ensures |SmallAmong(rs, keys)| == PendingSmall(rs)
  {
    assert SmallAmong(rs, keys) == SmallIds(rs);
  }

  /** Entering evaluation moves no deferred record and creates none. */
  lemma EnterKeepsPending(rs: Requests, d: Descriptor)
    ensures PendingSmall(Transition(rs, d.admissionRequestId, Proposed, Evaluating, d)) == PendingSmall(rs)
  {
    var out := Transition(rs, d.admissionRequestId, Proposed, Evaluating, d);
    assert SmallIds(out) == SmallIds(rs);
  }

  lemma RefusedKeepsLedger(l: L.Ledger, id: u64, owner: u64, demand: Vec, ttl: int, now: int)
    ensures L.Reserve(l, id, owner, demand, ttl, now).1 != L.Ok ==> L.Reserve(l, id, owner, demand, ttl, now).0 == l
  {
  }

  /** `rs` with the requests under the given keys freed. */
  ghost function FreedAmong(rs: Requests, keys: seq<u64>, id: u64): Requests {
    map k | k in rs :: if k in keys then Freed(rs[k], id) else rs[k]
  }

  lemma FreeNext(rs: Requests, keys: seq<u64>, i: nat, id: u64)
    requires i < |keys| && keys[i] in rs && keys[i] !in keys[..i]
    ensures FreedAmong(rs, keys[..i], id)[keys[i]] == rs[keys[i]]
    ensures FreedAmong(rs, keys[..i + 1], id) == FreedAmong(rs, keys[..i], id)[keys[i] := Freed(rs[keys[i]], id)]
  {
    assert keys[..i + 1] == keys[..i] + [keys[i]];
  }

  lemma FreeNone(rs: Requests, id: u64)
    ensures FreedAmong(rs, [], id) == rs
  {
  }

  lemma FreeAll(rs: Requests, keys: seq<u64>, id: u64)
    requires forall k :: k in keys <==> k in rs
    ensures FreedAmong(rs, keys, id) == MarkReleased(rs, id)
  {
  }

  class Fabric {
    const policies: P.PolicyEngine
    const reservations: M.Manager
    var snapshot: Snapshot
    var hasSnapshot: bool
    var quota: Quota
    var requests: Requests
    var admissionGeneration: u64
    var reservationCounter: u64

    function State(): Engine
      reads this, policies, reservations
    {
      Engine(policies.State(), reservations.State(), snapshot, hasSnapshot, quota, requests, admissionGeneration,
             reservationCounter)
    }

    constructor ()
      ensures State() == START
      ensures fresh(policies) && fresh(reservations)
    {
      policies := new P.PolicyEngine();
      reservations := new M.Manager();
      snapshot, hasSnapshot, quota := DEFAULT_SNAPSHOT, false, DEFAULT_QUOTA;
      requests, admissionGeneration, reservationCounter := map[], 1, 1;
    }

    /** Puts the ledger under the overcommit terms of a policy. */
    method Bind(p: Policy)
      modifies reservations
      ensures reservations.State() == Under(old(reservations.State()), p)
    {
      reservations.SetOvercommit(p.overcommit, if p.overcommit == L.MODE_NONE then ZERO else p.overcommitAllowance);
    }

    method InstallPolicy(p: Policy) returns (code: P.Code)
      modifies policies, reservations
      ensures (State(), code) == E.InstallPolicy(old(State()), p)
    {
      hide P.Install, P.ValidPolicy;
      code := policies.InstallPolicy(p);
      if code != P.Ok { return; }
      if policies.latest in policies.policies { Bind(policies.policies[policies.latest]); }
    }

    method SetSnapshot(s: Snapshot)
      modifies `snapshot, `hasSnapshot, reservations
      ensures State() == E.SetSnapshot(old(State()), s)
    {
      snapshot, hasSnapshot := s, true;
      reservations.SetTotal(s.total);
    }

    method SetQuota(q: Quota)
      modifies `quota
      ensures State() == old(State()).(quota := q)
    {
      quota := q;
    }

    method NextAdmissionGeneration() returns (g: u64)
      modifies `admissionGeneration
      ensures g == old(admissionGeneration) && admissionGeneration == Next(g)
    {
      g := admissionGeneration;
      admissionGeneration := if g == U64_MAX then g else g + 1;
    }

    method NextReservationId() returns (id: u64)
      modifies `reservationCounter
      ensures id == old(reservationCounter) && reservationCounter == Bump(id)
    {
      id := reservationCounter;
      if reservationCounter == U64_MAX {
        reservationCounter := 1;
      } else {
        reservationCounter := reservationCounter + 1;
      }
    }

    // ---------- Records ----------

    method Move(id: u64, from: Lifecycle, to: Lifecycle, d: Descriptor) returns (moved: bool)
      modifies `requests
      ensures requests == Transition(old(requests), id, from, to, d)
      ensures moved == (id !in old(requests) || old(requests[id]).lifecycle == from)
    {
      if id !in requests { requests := requests[id := Request(from, d, None)]; }
      moved := requests[id].lifecycle == from;
      if moved { requests := requests[id := requests[id].(lifecycle := to)]; }
    }

    /** Stores a decision, then attempts both transitions and ignores whether they succeed. */
    method Record(d: Descriptor, to: Lifecycle, dec: Decision)
      modifies `requests
      ensures requests == Emit(old(requests), d, to, dec)
    {
      hide Transition;
      var id := d.admissionRequestId;
      if id !in requests { requests := requests[id := FRESH]; }
      requests := requests[id := requests[id].(decision := Some(dec))];
      assert requests == old(requests)[id := requests[id]];
      var entered := Move(id, Proposed, Evaluating, d);
      var closed := Move(id, Evaluating, to, d);
    }

    method BuildDecision(q: Query, reason: int, demand: Vec) returns (dec: Decision)
      ensures dec == Decide(State(), q, reason, demand)
    {
      dec := Decision(
        q.d.admissionRequestId, q.d.requestId, q.d.attemptId, q.d.tenantId, q.d.modelId, q.d.modelRevision,
        OutcomeOf(reason), reason, q.d.policyGeneration, snapshot.generation, 0, 0, 0, q.now, None, demand, q.note);
    }

    method RecordRefusal(q: Query, reason: int, demand: Vec) returns (dec: Decision)
      modifies `requests
      ensures (State(), dec) == Refuse(old(State()), old(requests), q, reason, demand)
    {
      hide Emit;
      dec := BuildDecision(q, reason, demand);
      Record(q.d, Closing(reason), dec);
    }

    // ---------- Gates ----------

    method ClassifyQuota(q: Query) returns (stop: Option<int>)
      ensures stop ==
        if quota.present && TokensOver(quota, q.d) then Some(REJECT_QUOTA)
        else if quota.present && QuotaShort(quota, q.demand) then Some(DEFER_QUOTA)
        else None
    {
      if !quota.present { return None; }
      var remaining := SatSubVec(quota.limits, SatAddVec(quota.used, quota.reserved));
      var i, violated := 0, false;
      while i < 12 && !violated
        invariant i <= 12
        invariant if violated then i < 12 && quota.limits[i] != 0 && q.demand[i] > remaining[i]
                  else forall j :: 0 <= j < i ==> quota.limits[j] == 0 || q.demand[j] <= remaining[j]
        decreases 12 - i, !violated
      {
        if quota.limits[i] != 0 && q.demand[i] > remaining[i] { violated := true; } else { i := i + 1; }
      }
      assert violated == QuotaShort(quota, q.demand);
      if quota.tokenBudget != 0 && q.d.inputTokens + q.d.expectedOutputTokens > quota.tokenBudget {
        return Some(REJECT_QUOTA);
      }
      stop := if violated then Some(DEFER_QUOTA) else None;
    }

    method ComputeHeadroom(p: Policy, available: Vec) returns (h: Vec)
      ensures h == Headroom(p, available)
      ensures forall i: nat, kept: u64 | i < 12 && KeptBack(p, i, available[i], kept) ::
        h[i] == if kept <= available[i] then available[i] - kept else 0
    {
      forall i: nat, kept: u64 | i < 12 && KeptBack(p, i, available[i], kept)
        ensures Headroom(p, available)[i] == if kept <= available[i] then available[i] - kept else 0
      {
        KeptExactly(p, available, i, kept);
      }
      hide MarginOf, Ratio, KeptBack;
      var margin := ZERO;
      for i := 0 to 12
        invariant forall j :: 0 <= j < i ==> margin[j] == MarginOf(available[j], Ratio(p), p.absoluteSafetyMargin[j])
      {
        margin := margin[i := MarginOf(available[i], Ratio(p), p.absoluteSafetyMargin[i])];
      }
      VecEqual(margin, Margin(p, available));
      h := SatSubVec(available, margin);
    }

    method CountPendingSmall() returns (n: nat)
      ensures n == PendingSmall(requests)
    {
      hide PendingSmall;
      var keys := SortedWords(requests.Keys);
      n := 0;
      assert SmallAmong(requests, keys[..0]) == {};
      for i := 0 to |keys|
        invariant n == |SmallAmong(requests, keys[..i])|
      {
        SmallNext(requests, keys, i);
        var r := requests[keys[i]];
        if WaitsSmall(r) { n := n + 1; }
      }
      assert keys[..|keys|] == keys;
      SmallAll(requests, keys);
    }

    method HasUnavailableDimension() returns (found: bool)
      ensures found == (UNAVAILABLE in snapshot.provenance)
    {
      for i := 0 to 12
        invariant forall j :: 0 <= j < i ==> snapshot.provenance[j] != UNAVAILABLE
      {
        if snapshot.provenance[i] == UNAVAILABLE { return true; }
      }
      found := false;
    }

    method CheckCapacity(p: Policy, q: Query) returns (stop: Option<int>)
      ensures var available := L.Availability(reservations.State());
              stop == if !FitsIn(q.demand, Headroom(p, available)) then Some(DEFER_CAPACITY)
                      else if MustWait(p, requests, q.demand, available, q.starving) then Some(DEFER_CAPACITY)
                      else None
    {
      hide Headroom, L.Availability, PendingSmall, FitsIn;
      var available := reservations.ComputeAvailability();
      var headroom := ComputeHeadroom(p, available);
      var fits := FitsIn(q.demand, headroom);
      var pending := CountPendingSmall();
      if !fits { return Some(DEFER_CAPACITY); }
      if pending != 0 && !q.starving && Large(q.demand[ACCELERATOR_MEMORY], available[ACCELERATOR_MEMORY]) &&
         pending >= p.fairnessWindow / 4 {
        return Some(DEFER_CAPACITY);
      }
      stop := None;
    }

    /** The gates between an installed policy and the reservation, with the ledger already bound to `p`. */
    method CheckGates(p: Policy, q: Query) returns (stop: Option<int>)
      requires Under(reservations.State(), p) == reservations.State()
      ensures stop == Stopped(State(), p, q)
    {
      hide Capable, TooOld, TokensOver, QuotaShort, Slo, Headroom, MustWait, L.Availability, FitsIn, Under;
      if !Capable(snapshot, q.d) { return Some(REJECT_CAPABILITY); }
      if hasSnapshot {
        if TooOld(snapshot, p, q.now) { return Some(REJECT_STALE); }
        var unavailable := HasUnavailableDimension();
        if unavailable { return Some(DEFER_CAPACITY); }
      } else if p.requireReservation {
        return Some(DEFER_CAPACITY);
      }
      var quotaStop := ClassifyQuota(q);
      if quotaStop.Some? { return quotaStop; }
      var verdict := Slo(snapshot, q);
      if verdict == Infeasible { return Some(REJECT_INFEASIBLE); }
      if verdict == Undecided { return Some(DEFER_SLO); }
      stop := CheckCapacity(p, q);
    }

    // ---------- Evaluation ----------

    /** The reservation and the record of an admission, with the ledger already bound to `p`. */
    method PlaceReservation(p: Policy, q: Query) returns (dec: Decision)
      requires Under(reservations.State(), p) == reservations.State()
      modifies `requests, `reservationCounter, `admissionGeneration, reservations
      ensures (State(), dec) == Place(old(State()), p, old(requests), q)
    {
      hide L.Reserve, Emit, Under, Slo;
      var id := NextReservationId();
      var code := reservations.Reserve(id, q.d.tenantId, q.demand, p.maxReservationLifetime, q.now);
      RefusedKeepsLedger(old(reservations.State()), id, q.d.tenantId, q.demand, p.maxReservationLifetime, q.now);
      if code != L.Ok {
        dec := RecordRefusal(q, DEFER_CAPACITY, q.demand);
        return;
      }
      var generation := NextAdmissionGeneration();
      var risky := Less(Value(q.confidence), Value(p.minPredictorConfidence)) || Slo(snapshot, q) == FeasibleWithRisk;
      dec := BuildDecision(q, if risky then ADMIT_WITH_RISK else ADMIT_WITH_RESERVATION, q.demand);
      dec := dec.(reservationId := Some(id), admissionGeneration := generation, confidence := q.confidence);
      Record(q.d, Lifecycle.Reserved, dec);
    }

    method Evaluate(q: Query) returns (dec: Decision)
      modifies `requests, `reservationCounter, `admissionGeneration, reservations
      ensures (State(), dec) == E.Evaluate(old(State()), q)
    {
      hide WellFormed, P.Effective, Stopped, Emit, Transition, Under, Place;
      if !WellFormed(q.d) {
        dec := RecordRefusal(q, REJECT_MALFORMED, ZERO);
        return;
      }
      var id := q.d.admissionRequestId;
      if id in requests && requests[id].lifecycle !in {Proposed, Deferred, Evaluating} {
        dec := RecordRefusal(q, REJECT_MALFORMED, ZERO);
        return;
      }
      var entered := Move(id, Proposed, Evaluating, q.d);
      if policies.latest !in policies.policies {
        dec := RecordRefusal(q, REJECT_POLICY, ZERO);
        return;
      }
      var p := P.ComputeEffective(q.d, policies.policies[policies.latest]);
      Bind(p);
      BoundSame(old(State()), State(), p, q);
      var stop := CheckGates(p, q);
      if stop.Some? {
        dec := RecordRefusal(q, stop.value, q.demand);
      } else {
        dec := PlaceReservation(p, q);
      }
    }

    // ---------- Later transitions ----------

    method CommitAdmission(id: u64, generation: u64, now: int) returns (code: Code)
      modifies `requests, reservations
      ensures (State(), code) == E.CommitAdmission(old(State()), id, generation, now)
    {
      hide L.Commit;
      if id !in requests { return StaleAdmissionGeneration; }
      var r := requests[id];
      if r.decision.None? { return OperationNotPermitted; }
      var dec := r.decision.value;
      if dec.admissionGeneration != generation { return StaleAdmissionGeneration; }
      if dec.reservationId.None? { return AdmissionWithoutReservation; }
      var committed := reservations.Commit(dec.reservationId.value, id, generation, now);
      if committed != L.Ok { return FromLedger(committed); }
      requests := requests[id := r.(lifecycle := Admitted)];
      code := Success;
    }

    /** Every active request that names `id` becomes released. */
    method FreeRequests(id: u64)
      modifies `requests
      ensures requests == MarkReleased(old(requests), id)
    {
      hide FreedAmong, MarkReleased, Freed, SortedWords;
      ghost var rs := requests;
      var keys := SortedWords(requests.Keys);
      FreeNone(rs, id);
      assert keys[..0] == [];
      for i := 0 to |keys|
        invariant requests == FreedAmong(rs, keys[..i], id) && requests.Keys == rs.Keys
      {
        FreeNext(rs, keys, i, id);
        requests := requests[keys[i] := Freed(requests[keys[i]], id)];
      }
      assert keys[..|keys|] == keys;
      FreeAll(rs, keys, id);
    }

    method ReleaseReservation(id: u64) returns (code: Code)
      modifies `requests, reservations
      ensures (State(), code) == E.ReleaseReservation(old(State()), id)
    {
      hide L.Release, MarkReleased;
      var released := reservations.Release(id);
      if released != L.Ok { return FromLedger(released); }
      FreeRequests(id);
      code := Success;
    }

    method CancelRequest(id: u64) returns (code: Code)
      modifies `requests, reservations
      ensures (State(), code) == E.CancelRequest(old(State()), id)
    {
      hide L.Rollback;
      if id !in requests { return StaleAdmissionGeneration; }
      var r := requests[id];
      match r.lifecycle
      case Proposed | Evaluating | Deferred =>
        requests := requests[id := r.(lifecycle := Cancelled)];
        code := Success;
      case Reserved =>
        if r.decision.Some? && r.decision.value.reservationId.Some? {
          var ignored := reservations.Rollback(r.decision.value.reservationId.value);
        }
        requests := requests[id := r.(lifecycle := Cancelled)];
        code := Success;
      case _ => code := OperationNotPermitted;
    }
  }

  /** Entering evaluation and binding the ledger to the policy change no gate and no placement. */
  lemma BoundSame(e: Engine, f: Engine, p: Policy, q: Query)
    requires f == e.(requests := Transition(e.requests, q.d.admissionRequestId, Proposed, Evaluating, q.d),
             ledger := Under(e.ledger, p))
    ensures Under(f.ledger, p) == f.ledger && Stopped(f, p, q) == Stopped(e, p, q)
    ensures Place(f, p, f.requests, q) == Place(e, p, f.requests, q)
  {
    hide PendingSmall, Transition, Emit, L.Reserve, Capable, TooOld, Slo, TokensOver, QuotaShort, Headroom,
      L.Availability, FitsIn, Large;
    EnterKeepsPending(e.requests, q.d);
  }
}
