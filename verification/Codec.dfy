/** The record formats of src/core/codec.cpp. For every record: `Put`, `Get`, the bounds `Fit` that the
    decoders and the 64-bit time fields impose, the round trip, and locality. */
module Codec {
  import opened Words
  import opened Ordering
  import opened Resources
  import opened Records
  import opened Grammar
  import opened Fields

  function StatusCode(s: Status): byte {
    match s
    case Reserved => 0
    case Committed => 1
    case Released => 2
    case Expired => 3
    case RolledBack => 4
  }

  function StatusOf(b: byte): (s: Option<Status>)
    ensures s.Some? <==> b <= 4
    ensures s.Some? ==> StatusCode(s.value) == b
  {
    match b
    case 0 => Some(Reserved)
    case 1 => Some(Committed)
    case 2 => Some(Released)
    case 3 => Some(Expired)
    case 4 => Some(RolledBack)
    case _ => None
  }

  function PutOverrides(xs: seq<Override>, k: bytes): bytes { PutList(PutOverride, xs, k) }
  function GetOverrides(s: bytes): Parse<seq<Override>> { GetList(GetOverride, MAX_OVERRIDES, s) }
  predicate FitOverrides(xs: seq<Override>) { |xs| <= MAX_OVERRIDES && forall x | x in xs :: FitOverride(x) }

  lemma OverridesRoundTrip(xs: seq<Override>, k: bytes)
    requires FitOverrides(xs)
    ensures GetOverrides(PutOverrides(xs, k)) == Got(xs, k)
  {
    hide PutOverride, GetOverride, FitOverride, PutList, GetList;
    forall x | x in xs ensures RoundTrips(PutOverride, GetOverride, x) {
      forall k: bytes ensures GetOverride(PutOverride(x, k)) == Got(x, k) { OverrideRoundTrip(x, k); }
    }
    ListRoundTrip(PutOverride, GetOverride, MAX_OVERRIDES, xs, k);
  }

  lemma OverridesMove(s: bytes, t: bytes)
    ensures Moved(GetOverrides(s), GetOverrides(s + t), t)
  {
    hide GetOverride, GetList;
    forall s: bytes, t: bytes | GetOverride(s).Got?
      ensures GetOverride(s + t) == Got(GetOverride(s).value, GetOverride(s).rest + t)
    {
      OverrideMoves(s, t);
    }
    ListMoves(GetOverride, MAX_OVERRIDES, s, t);
  }

  // ---------- Reservation ----------

  function PutReservation(x: Reservation, k: bytes): bytes {
    PutU64(x.id, PutU64(x.owner, PutVec(x.demand, PutI64(x.createdAt, PutI64(x.expiresAt,
      PutOptionU64(x.request, PutOptionU64(x.generation, PutU8(StatusCode(x.status), PutU64(x.serial, k)))))))))
  }

  function GetReservation(s: bytes): Parse<Reservation> {
    var (id, s) :- GetU64(s);
    var (owner, s) :- GetU64(s);
    var (demand, s) :- GetVec(s);
    var (createdAt, s) :- GetI64(s);
    var (expiresAt, s) :- GetI64(s);
    var (request, s) :- GetOptionU64(s);
    var (generation, s) :- GetOptionU64(s);
    var (status, s) :- GetU8(s);
    var (serial, s) :- GetU64(s);
    if StatusOf(status).None? then Fail else
    Got(Reservation(id, owner, demand, createdAt, expiresAt, request, generation, StatusOf(status).value, serial), s)
  }

  predicate FitReservation(x: Reservation) {
    InI64(x.createdAt) && InI64(x.expiresAt)
  }

  lemma ReservationRoundTrip(x: Reservation, k: bytes)
    requires FitReservation(x)
    ensures GetReservation(PutReservation(x, k)) == Got(x, k)
  {
    hide PutU8, GetU8, PutU32, GetU32, PutU64, GetU64, PutI64, GetI64, PutI32, GetI32, PutFlag, GetFlag, PutText,
      GetText, PutVec, GetVec, PutLevels, GetLevels, PutTexts, GetTexts, PutOptionU64, GetOptionU64, PutOptionI64,
      GetOptionI64, PutOptionVec, GetOptionVec, PutOptionU8, GetOptionU8, PutOptionFlag, GetOptionFlag, FitText,
      FitTexts;
    FieldsRoundTrip();
  }

  lemma ReservationMoves(s: bytes, t: bytes)
    ensures Moved(GetReservation(s), GetReservation(s + t), t)
  {
    hide GetU64, GetVec, GetI64, GetOptionU64, GetU8;
    FieldsLocal();
  }

  // ---------- Descriptor ----------

  function PutDescriptorHead(x: Descriptor, k: bytes): bytes {
    PutU8(x.workloadType, PutU64(x.admissionRequestId, PutU64(x.requestId, PutU64(x.attemptId,
      PutU64(x.tenantId, PutU64(x.modelId, PutU64(x.modelRevision, PutOptionU64(x.adapterId,
      PutU64(x.policyGeneration, PutU64(x.inputTokens, PutU64(x.expectedOutputTokens, PutU64(x.maxOutputTokens,
      PutFlag(x.batchable, PutU8(x.priority, PutU8(x.latencyClass, k)))))))))))))))
  }

  function PutDescriptorTail(x: Descriptor, k: bytes): bytes {
    PutOptionI64(x.deadline, PutOptionU64(x.requestedSlo, PutOptionVec(x.expectedDemand, PutU8(x.preemption,
      PutFlag(x.degradationPermitted, PutFlag(x.requiresReservation, PutI64(x.admissionTtl, PutText(x.backend,
      PutText(x.dtype, PutText(x.quantization, PutText(x.workloadClass, PutTexts(x.policyTags, k))))))))))))
  }

  function PutDescriptor(x: Descriptor, k: bytes): bytes { PutDescriptorHead(x, PutDescriptorTail(x, k)) }

  /** The first part of the fields, decoded into a fresh record. */
  function GetDescriptorHead(s: bytes): Parse<Descriptor> {
    var (workloadType, s) :- GetU8(s);
    var (admissionRequestId, s) :- GetU64(s);
    var (requestId, s) :- GetU64(s);
    var (attemptId, s) :- GetU64(s);
    var (tenantId, s) :- GetU64(s);
    var (modelId, s) :- GetU64(s);
    var (modelRevision, s) :- GetU64(s);
    var (adapterId, s) :- GetOptionU64(s);
    var (policyGeneration, s) :- GetU64(s);
    var (inputTokens, s) :- GetU64(s);
    var (expectedOutputTokens, s) :- GetU64(s);
    var (maxOutputTokens, s) :- GetU64(s);
    var (batchable, s) :- GetFlag(s);
    var (priority, s) :- GetU8(s);
    var (latencyClass, s) :- GetU8(s);
    Got(DEFAULT_DESCRIPTOR.(workloadType := workloadType, admissionRequestId := admissionRequestId,
      requestId := requestId, attemptId := attemptId, tenantId := tenantId, modelId := modelId,
      modelRevision := modelRevision, adapterId := adapterId, policyGeneration := policyGeneration,
      inputTokens := inputTokens, expectedOutputTokens := expectedOutputTokens, maxOutputTokens := maxOutputTokens,
      batchable := batchable, priority := priority, latencyClass := latencyClass), s)
  }

  function GetDescriptorTail(x: Descriptor, s: bytes): Parse<Descriptor> {
    var (deadline, s) :- GetOptionI64(s);
    var (requestedSlo, s) :- GetOptionU64(s);
    var (expectedDemand, s) :- GetOptionVec(s);
    var (preemption, s) :- GetU8(s);
    var (degradationPermitted, s) :- GetFlag(s);
    var (requiresReservation, s) :- GetFlag(s);
    var (admissionTtl, s) :- GetI64(s);
    var (backend, s) :- GetText(s);
    var (dtype, s) :- GetText(s);
    var (quantization, s) :- GetText(s);
    var (workloadClass, s) :- GetText(s);
    var (policyTags, s) :- GetTexts(s);
    Got(x.(deadline := deadline, requestedSlo := requestedSlo, expectedDemand := expectedDemand,
      preemption := preemption, degradationPermitted := degradationPermitted,
      requiresReservation := requiresReservation, admissionTtl := admissionTtl, backend := backend,
      dtype := dtype, quantization := quantization, workloadClass := workloadClass, policyTags := policyTags), s)
  }

  function GetDescriptor(s: bytes): Parse<Descriptor> {
    var (x, s) :- GetDescriptorHead(s);
    GetDescriptorTail(x, s)
  }

  predicate FitDescriptor(x: Descriptor) {
    (x.deadline.Some? ==> InI64(x.deadline.value)) && InI64(x.admissionTtl) && FitText(x.backend) &&
    FitText(x.dtype) && FitText(x.quantization) && FitText(x.workloadClass) && FitTexts(x.policyTags)
  }

  lemma DescriptorHeadRoundTrip(x: Descriptor, k: bytes)
    ensures GetDescriptorHead(PutDescriptorHead(x, k)) ==
            Got(DEFAULT_DESCRIPTOR.(
              workloadType := x.workloadType, admissionRequestId := x.admissionRequestId,
              requestId := x.requestId, attemptId := x.attemptId, tenantId := x.tenantId,
              modelId := x.modelId, modelRevision := x.modelRevision, adapterId := x.adapterId,
              policyGeneration := x.policyGeneration, inputTokens := x.inputTokens,
              expectedOutputTokens := x.expectedOutputTokens, maxOutputTokens := x.maxOutputTokens,
              batchable := x.batchable, priority := x.priority, latencyClass := x.latencyClass), k)
  {
    hide PutU8, GetU8, PutU32, GetU32, PutU64, GetU64, PutI64, GetI64, PutI32, GetI32, PutFlag, GetFlag, PutText,
      GetText, PutVec, GetVec, PutLevels, GetLevels, PutTexts, GetTexts, PutOptionU64, GetOptionU64, PutOptionI64,
      GetOptionI64, PutOptionVec, GetOptionVec, PutOptionU8, GetOptionU8, PutOptionFlag, GetOptionFlag, FitText,
      FitTexts;
    FieldsRoundTrip();
  }

  lemma DescriptorTailRoundTrip(y: Descriptor, x: Descriptor, k: bytes)
    requires FitDescriptor(x)
    ensures GetDescriptorTail(y, PutDescriptorTail(x, k)) ==
            Got(y.(
              deadline := x.deadline, requestedSlo := x.requestedSlo,
              expectedDemand := x.expectedDemand, preemption := x.preemption,
              degradationPermitted := x.degradationPermitted,
              requiresReservation := x.requiresReservation, admissionTtl := x.admissionTtl,
              backend := x.backend, dtype := x.dtype, quantization := x.quantization,
              workloadClass := x.workloadClass, policyTags := x.policyTags), k)
  {
    hide PutU8, GetU8, PutU32, GetU32, PutU64, GetU64, PutI64, GetI64, PutI32, GetI32, PutFlag, GetFlag, PutText,
      GetText, PutVec, GetVec, PutLevels, GetLevels, PutTexts, GetTexts, PutOptionU64, GetOptionU64, PutOptionI64,
      GetOptionI64, PutOptionVec, GetOptionVec, PutOptionU8, GetOptionU8, PutOptionFlag, GetOptionFlag, FitText,
      FitTexts;
    FieldsRoundTrip();
  }

  lemma DescriptorRoundTrip(x: Descriptor, k: bytes)
    requires FitDescriptor(x)
    ensures GetDescriptor(PutDescriptor(x, k)) == Got(x, k)
  {
    hide PutDescriptorHead, GetDescriptorHead, PutDescriptorTail, GetDescriptorTail, FitDescriptor;
    DescriptorHeadRoundTrip(x, PutDescriptorTail(x, k));
    var y := GetDescriptorHead(PutDescriptor(x, k)).value;
    DescriptorTailRoundTrip(y, x, k);
  }

  lemma DescriptorHeadMoves(s: bytes, t: bytes)
    ensures Moved(GetDescriptorHead(s), GetDescriptorHead(s + t), t)
  {
    hide GetU8, GetU64, GetOptionU64, GetFlag;
    FieldsLocal();
  }

  lemma DescriptorTailMoves(x: Descriptor, s: bytes, t: bytes)
    ensures Moved(GetDescriptorTail(x, s), GetDescriptorTail(x, s + t), t)
  {
    hide GetOptionI64, GetOptionU64, GetOptionVec, GetU8, GetFlag, GetI64, GetText, GetTexts;
    FieldsLocal();
  }

  lemma DescriptorMoves(s: bytes, t: bytes)
    ensures Moved(GetDescriptor(s), GetDescriptor(s + t), t)
  {
    hide GetDescriptorHead, GetDescriptorTail;
    DescriptorHeadMoves(s, t);
    var x := GetDescriptorHead(s);
    if x.Got? {
      DescriptorTailMoves(x.value, x.rest, t);
    }
  }

  // ---------- Snapshot ----------

  function PutSnapshot(x: Snapshot, k: bytes): bytes {
    PutU64(x.generation, PutI64(x.timestamp, PutU64(x.agentId, PutU64(x.bootId, PutText(x.nodeName,
      PutU32(x.deviceIndex, PutText(x.deviceName, PutVec(x.total, PutVec(x.used, PutVec(x.reserved,
      PutVec(x.reclaimable, PutTexts(SortedTexts(x.capabilities), PutFlag(x.healthy,
      PutTexts(x.modelResidencyHints, PutTexts(x.transferPathHints, PutLevels(x.pressure,
      PutLevels(x.provenance, k)))))))))))))))))
  }

  function GetSnapshot(s: bytes): Parse<Snapshot> {
    var (generation, s) :- GetU64(s);
    var (timestamp, s) :- GetI64(s);
    var (agentId, s) :- GetU64(s);
    var (bootId, s) :- GetU64(s);
    var (nodeName, s) :- GetText(s);
    var (deviceIndex, s) :- GetU32(s);
    var (deviceName, s) :- GetText(s);
    var (total, s) :- GetVec(s);
    var (used, s) :- GetVec(s);
    var (reserved, s) :- GetVec(s);
    var (reclaimable, s) :- GetVec(s);
    var (capabilities, s) :- GetTexts(s);
    var (healthy, s) :- GetFlag(s);
    var (modelResidencyHints, s) :- GetTexts(s);
    var (transferPathHints, s) :- GetTexts(s);
    var (pressure, s) :- GetLevels(s);
    var (provenance, s) :- GetLevels(s);
    Got(Snapshot(generation, timestamp, agentId, bootId, nodeName, deviceIndex, deviceName, total, used, reserved,
      reclaimable, (set token | token in capabilities), healthy, modelResidencyHints, transferPathHints,
      pressure, provenance), s)
  }

  predicate FitSnapshot(x: Snapshot) {
    InI64(x.timestamp) && FitText(x.nodeName) && FitText(x.deviceName) &&
    FitTexts(SortedTexts(x.capabilities)) && FitTexts(x.modelResidencyHints) && FitTexts(x.transferPathHints)
  }

  lemma SnapshotRoundTrip(x: Snapshot, k: bytes)
    requires FitSnapshot(x)
    ensures GetSnapshot(PutSnapshot(x, k)) == Got(x, k)
  {
    hide PutU8, GetU8, PutU32, GetU32, PutU64, GetU64, PutI64, GetI64, PutI32, GetI32, PutFlag, GetFlag, PutText,
      GetText, PutVec, GetVec, PutLevels, GetLevels, PutTexts, GetTexts, PutOptionU64, GetOptionU64, PutOptionI64,
      GetOptionI64, PutOptionVec, GetOptionVec, PutOptionU8, GetOptionU8, PutOptionFlag, GetOptionFlag, FitText,
      FitTexts;
    FieldsRoundTrip();
    assert (set token | token in SortedTexts(x.capabilities)) == x.capabilities;
  }

  lemma SnapshotMoves(s: bytes, t: bytes)
    ensures Moved(GetSnapshot(s), GetSnapshot(s + t), t)
  {
    hide GetU64, GetI64, GetText, GetU32, GetVec, GetTexts, GetFlag, GetLevels;
    FieldsLocal();
  }

  // ---------- Override ----------

  function PutOverride(x: Override, k: bytes): bytes {
    PutText(x.key, PutOptionU64(x.safetyHeadroomRatio, PutOptionU8(x.overcommitMode,
      PutOptionVec(x.overcommitAllowance, PutOptionU64(x.minPredictorConfidence, PutOptionFlag(x.admitSloRisk,
      PutOptionFlag(x.requireReservation, PutOptionU64(x.smallRequestBoost, k))))))))
  }

  function GetOverride(s: bytes): Parse<Override> {
    var (key, s) :- GetText(s);
    var (safetyHeadroomRatio, s) :- GetOptionU64(s);
    var (overcommitMode, s) :- GetOptionU8(s);
    var (overcommitAllowance, s) :- GetOptionVec(s);
    var (minPredictorConfidence, s) :- GetOptionU64(s);
    var (admitSloRisk, s) :- GetOptionFlag(s);
    var (requireReservation, s) :- GetOptionFlag(s);
    var (smallRequestBoost, s) :- GetOptionU64(s);
    Got(Override(key, safetyHeadroomRatio, overcommitMode, overcommitAllowance, minPredictorConfidence, admitSloRisk,
      requireReservation, smallRequestBoost), s)
  }

  predicate FitOverride(x: Override) {
    FitText(x.key)
  }

  lemma OverrideRoundTrip(x: Override, k: bytes)
    requires FitOverride(x)
    ensures GetOverride(PutOverride(x, k)) == Got(x, k)
  {
    hide PutU8, GetU8, PutU32, GetU32, PutU64, GetU64, PutI64, GetI64, PutI32, GetI32, PutFlag, GetFlag, PutText,
      GetText, PutVec, GetVec, PutLevels, GetLevels, PutTexts, GetTexts, PutOptionU64, GetOptionU64, PutOptionI64,
      GetOptionI64, PutOptionVec, GetOptionVec, PutOptionU8, GetOptionU8, PutOptionFlag, GetOptionFlag, FitText,
      FitTexts;
    FieldsRoundTrip();
  }

  lemma OverrideMoves(s: bytes, t: bytes)
    ensures Moved(GetOverride(s), GetOverride(s + t), t)
  {
    hide GetText, GetOptionU64, GetOptionU8, GetOptionVec, GetOptionFlag;
    FieldsLocal();
  }

  // ---------- Policy ----------

  function PutPolicyHead(x: Policy, k: bytes): bytes {
    PutU64(x.generation, PutText(x.name, PutU64(x.safetyHeadroomRatio, PutVec(x.absoluteSafetyMargin,
      PutU8(x.overcommit, PutVec(x.overcommitAllowance, PutU64(x.overcommitConfidenceMin,
      PutU64(x.minPredictorConfidence, PutI64(x.maxSnapshotAge, PutFlag(x.acceptStaleSnapshot, k))))))))))
  }

  function PutPolicyMiddle(x: Policy, k: bytes): bytes {
    PutFlag(x.quotaFailClosed, PutFlag(x.admitSloFeasibleWithRisk, PutFlag(x.requireReservation,
      PutI64(x.maxReservationLifetime, PutI64(x.defaultAdmissionTtl, PutU32(x.maxDeferrals, k))))))
  }

  function PutPolicyTail(x: Policy, k: bytes): bytes {
    PutI64(x.deferMinBackoff, PutI64(x.deferMaxWait, PutU64(x.smallRequestPriorityBoost,
      PutU64(x.largeRequestStarvationBoost, PutU32(x.fairnessWindow, PutOverrides(x.overrides, k))))))
  }

  function PutPolicy(x: Policy, k: bytes): bytes { PutPolicyHead(x, PutPolicyMiddle(x, PutPolicyTail(x, k))) }

  /** The first part of the fields, decoded into a fresh record. */
  function GetPolicyHead(s: bytes): Parse<Policy> {
    var (generation, s) :- GetU64(s);
    var (name, s) :- GetText(s);
    var (safetyHeadroomRatio, s) :- GetU64(s);
    var (absoluteSafetyMargin, s) :- GetVec(s);
    var (overcommit, s) :- GetU8(s);
    var (overcommitAllowance, s) :- GetVec(s);
    var (overcommitConfidenceMin, s) :- GetU64(s);
    var (minPredictorConfidence, s) :- GetU64(s);
    var (maxSnapshotAge, s) :- GetI64(s);
    var (acceptStaleSnapshot, s) :- GetFlag(s);
    Got(DEFAULT_POLICY.(generation := generation, name := name, safetyHeadroomRatio := safetyHeadroomRatio,
      absoluteSafetyMargin := absoluteSafetyMargin, overcommit := overcommit,
      overcommitAllowance := overcommitAllowance, overcommitConfidenceMin := overcommitConfidenceMin,
      minPredictorConfidence := minPredictorConfidence, maxSnapshotAge := maxSnapshotAge,
      acceptStaleSnapshot := acceptStaleSnapshot), s)
  }

  function GetPolicyMiddle(x: Policy, s: bytes): Parse<Policy> {
    var (quotaFailClosed, s) :- GetFlag(s);
    var (admitSloFeasibleWithRisk, s) :- GetFlag(s);
    var (requireReservation, s) :- GetFlag(s);
    var (maxReservationLifetime, s) :- GetI64(s);
    var (defaultAdmissionTtl, s) :- GetI64(s);
    var (maxDeferrals, s) :- GetU32(s);
    Got(x.(quotaFailClosed := quotaFailClosed, admitSloFeasibleWithRisk := admitSloFeasibleWithRisk,
      requireReservation := requireReservation, maxReservationLifetime := maxReservationLifetime,
      defaultAdmissionTtl := defaultAdmissionTtl, maxDeferrals := maxDeferrals), s)
  }

  function GetPolicyTail(x: Policy, s: bytes): Parse<Policy> {
    var (deferMinBackoff, s) :- GetI64(s);
    var (deferMaxWait, s) :- GetI64(s);
    var (smallRequestPriorityBoost, s) :- GetU64(s);
    var (largeRequestStarvationBoost, s) :- GetU64(s);
    var (fairnessWindow, s) :- GetU32(s);
    var (overrides, s) :- GetOverrides(s);
    Got(x.(deferMinBackoff := deferMinBackoff, deferMaxWait := deferMaxWait,
      smallRequestPriorityBoost := smallRequestPriorityBoost,
      largeRequestStarvationBoost := largeRequestStarvationBoost, fairnessWindow := fairnessWindow,
      overrides := overrides), s)
  }

  function GetPolicy(s: bytes): Parse<Policy> {
    var (x, s) :- GetPolicyHead(s);
    var (x, s) :- GetPolicyMiddle(x, s);
    GetPolicyTail(x, s)
  }

  predicate FitPolicy(x: Policy) {
    FitText(x.name) && InI64(x.maxSnapshotAge) && InI64(x.maxReservationLifetime) &&
    InI64(x.defaultAdmissionTtl) && InI64(x.deferMinBackoff) && InI64(x.deferMaxWait) &&
    FitOverrides(x.overrides)
  }

  lemma PolicyHeadRoundTrip(x: Policy, k: bytes)
    requires FitPolicy(x)
    ensures GetPolicyHead(PutPolicyHead(x, k)) ==
            Got(DEFAULT_POLICY.(
              generation := x.generation, name := x.name, safetyHeadroomRatio := x.safetyHeadroomRatio,
              absoluteSafetyMargin := x.absoluteSafetyMargin, overcommit := x.overcommit,
              overcommitAllowance := x.overcommitAllowance,
              overcommitConfidenceMin := x.overcommitConfidenceMin,
              minPredictorConfidence := x.minPredictorConfidence, maxSnapshotAge := x.maxSnapshotAge,
              acceptStaleSnapshot := x.acceptStaleSnapshot), k)
  {
    hide PutU8, GetU8, PutU32, GetU32, PutU64, GetU64, PutI64, GetI64, PutI32, GetI32, PutFlag, GetFlag, PutText,
      GetText, PutVec, GetVec, PutLevels, GetLevels, PutTexts, GetTexts, PutOptionU64, GetOptionU64, PutOptionI64,
      GetOptionI64, PutOptionVec, GetOptionVec, PutOptionU8, GetOptionU8, PutOptionFlag, GetOptionFlag, FitText,
      FitTexts;
    FieldsRoundTrip();
  }

  lemma PolicyMiddleRoundTrip(y: Policy, x: Policy, k: bytes)
    requires FitPolicy(x)
    ensures GetPolicyMiddle(y, PutPolicyMiddle(x, k)) ==
            Got(y.(
              quotaFailClosed := x.quotaFailClosed,
              admitSloFeasibleWithRisk := x.admitSloFeasibleWithRisk,
              requireReservation := x.requireReservation,
              maxReservationLifetime := x.maxReservationLifetime,
              defaultAdmissionTtl := x.defaultAdmissionTtl, maxDeferrals := x.maxDeferrals), k)
  {
    hide PutU8, GetU8, PutU32, GetU32, PutU64, GetU64, PutI64, GetI64, PutI32, GetI32, PutFlag, GetFlag, PutText,
      GetText, PutVec, GetVec, PutLevels, GetLevels, PutTexts, GetTexts, PutOptionU64, GetOptionU64, PutOptionI64,
      GetOptionI64, PutOptionVec, GetOptionVec, PutOptionU8, GetOptionU8, PutOptionFlag, GetOptionFlag, FitText,
      FitTexts;
    FieldsRoundTrip();
  }

  lemma PolicyTailRoundTrip(y: Policy, x: Policy, k: bytes)
    requires FitPolicy(x)
    ensures GetPolicyTail(y, PutPolicyTail(x, k)) ==
            Got(y.(
              deferMinBackoff := x.deferMinBackoff, deferMaxWait := x.deferMaxWait,
              smallRequestPriorityBoost := x.smallRequestPriorityBoost,
              largeRequestStarvationBoost := x.largeRequestStarvationBoost,
              fairnessWindow := x.fairnessWindow, overrides := x.overrides), k)
  {
    hide PutU8, GetU8, PutU32, GetU32, PutU64, GetU64, PutI64, GetI64, PutI32, GetI32, PutFlag, GetFlag, PutText,
      GetText, PutVec, GetVec, PutLevels, GetLevels, PutTexts, GetTexts, PutOptionU64, GetOptionU64, PutOptionI64,
      GetOptionI64, PutOptionVec, GetOptionVec, PutOptionU8, GetOptionU8, PutOptionFlag, GetOptionFlag, FitText,
      FitTexts, PutOverrides, GetOverrides, FitOverrides;
    FieldsRoundTrip();
    OverridesRoundTrip(x.overrides, k);
  }

  lemma PolicyRoundTrip(x: Policy, k: bytes)
    requires FitPolicy(x)
    ensures GetPolicy(PutPolicy(x, k)) == Got(x, k)
  {
    hide PutPolicyHead, GetPolicyHead, PutPolicyMiddle, GetPolicyMiddle, PutPolicyTail, GetPolicyTail, FitPolicy;
    PolicyHeadRoundTrip(x, PutPolicyMiddle(x, PutPolicyTail(x, k)));
    var y := GetPolicyHead(PutPolicy(x, k)).value;
    PolicyMiddleRoundTrip(y, x, PutPolicyTail(x, k));
    var z := GetPolicyMiddle(y, PutPolicyMiddle(x, PutPolicyTail(x, k))).value;
    PolicyTailRoundTrip(z, x, k);
  }

  lemma PolicyHeadMoves(s: bytes, t: bytes)
    ensures Moved(GetPolicyHead(s), GetPolicyHead(s + t), t)
  {
    hide GetU64, GetText, GetVec, GetU8, GetI64, GetFlag;
    FieldsLocal();
  }

  lemma PolicyMiddleMoves(x: Policy, s: bytes, t: bytes)
    ensures Moved(GetPolicyMiddle(x, s), GetPolicyMiddle(x, s + t), t)
  {
    hide GetFlag, GetI64, GetU32;
    FieldsLocal();
  }

  lemma PolicyTailMoves(x: Policy, s: bytes, t: bytes)
    ensures Moved(GetPolicyTail(x, s), GetPolicyTail(x, s + t), t)
  {
    hide GetI64, GetU64, GetU32, GetOverrides;
    FieldsLocal();
    forall s: bytes, t: bytes ensures Moved(GetOverrides(s), GetOverrides(s + t), t) { OverridesMove(s, t); }
  }

  lemma PolicyMoves(s: bytes, t: bytes)
    ensures Moved(GetPolicy(s), GetPolicy(s + t), t)
  {
    hide GetPolicyHead, GetPolicyMiddle, GetPolicyTail;
    PolicyHeadMoves(s, t);
    var x := GetPolicyHead(s);
    if x.Got? {
      PolicyMiddleMoves(x.value, x.rest, t);
      var y := GetPolicyMiddle(x.value, x.rest);
      if y.Got? {
        PolicyTailMoves(y.value, y.rest, t);
      }
    }
  }

  // ---------- Quota ----------

  function PutQuota(x: Quota, k: bytes): bytes {
    PutFlag(x.present, PutU64(x.generation, PutText(x.sourceAuthority, PutI64(x.timestamp, PutFlag(x.stale,
      PutVec(x.limits, PutVec(x.used, PutVec(x.reserved, PutU64(x.tokenBudget, PutU32(x.maxConcurrentRequests,
      PutU32(x.maxSequences, PutI64(x.computeTimeAllowance, k))))))))))))
  }

  function GetQuota(s: bytes): Parse<Quota> {
    var (present, s) :- GetFlag(s);
    var (generation, s) :- GetU64(s);
    var (sourceAuthority, s) :- GetText(s);
    var (timestamp, s) :- GetI64(s);
    var (stale, s) :- GetFlag(s);
    var (limits, s) :- GetVec(s);
    var (used, s) :- GetVec(s);
    var (reserved, s) :- GetVec(s);
    var (tokenBudget, s) :- GetU64(s);
    var (maxConcurrentRequests, s) :- GetU32(s);
    var (maxSequences, s) :- GetU32(s);
    var (computeTimeAllowance, s) :- GetI64(s);
    Got(Quota(present, generation, sourceAuthority, timestamp, stale, limits, used, reserved, tokenBudget,
      maxConcurrentRequests, maxSequences, computeTimeAllowance), s)
  }

  predicate FitQuota(x: Quota) {
    FitText(x.sourceAuthority) && InI64(x.timestamp) && InI64(x.computeTimeAllowance)
  }

  lemma QuotaRoundTrip(x: Quota, k: bytes)
    requires FitQuota(x)
    ensures GetQuota(PutQuota(x, k)) == Got(x, k)
  {
    hide PutU8, GetU8, PutU32, GetU32, PutU64, GetU64, PutI64, GetI64, PutI32, GetI32, PutFlag, GetFlag, PutText,
      GetText, PutVec, GetVec, PutLevels, GetLevels, PutTexts, GetTexts, PutOptionU64, GetOptionU64, PutOptionI64,
      GetOptionI64, PutOptionVec, GetOptionVec, PutOptionU8, GetOptionU8, PutOptionFlag, GetOptionFlag, FitText,
      FitTexts;
    FieldsRoundTrip();
  }

  lemma QuotaMoves(s: bytes, t: bytes)
    ensures Moved(GetQuota(s), GetQuota(s + t), t)
  {
    hide GetFlag, GetU64, GetText, GetI64, GetVec, GetU32;
    FieldsLocal();
  }

  // ---------- Decision ----------

  function PutDecision(x: Decision, k: bytes): bytes {
    PutU64(x.admissionRequestId, PutU64(x.requestId, PutU64(x.attemptId, PutU64(x.tenantId, PutU64(x.modelId,
      PutU64(x.modelRevision, PutU8(x.outcome, PutI32(x.reason, PutU64(x.policyGeneration,
      PutU64(x.snapshotGeneration, PutU64(x.admissionGeneration, PutU64(x.epoch, PutU64(x.confidence,
      PutI64(x.decisionTime, PutOptionU64(x.reservationId, PutVec(x.demand, PutText(x.explanation,
      k)))))))))))))))))
  }

  function GetDecision(s: bytes): Parse<Decision> {
    var (admissionRequestId, s) :- GetU64(s);
    var (requestId, s) :- GetU64(s);
    var (attemptId, s) :- GetU64(s);
    var (tenantId, s) :- GetU64(s);
    var (modelId, s) :- GetU64(s);
    var (modelRevision, s) :- GetU64(s);
    var (outcome, s) :- GetU8(s);
    var (reason, s) :- GetI32(s);
    var (policyGeneration, s) :- GetU64(s);
    var (snapshotGeneration, s) :- GetU64(s);
    var (admissionGeneration, s) :- GetU64(s);
    var (epoch, s) :- GetU64(s);
    var (confidence, s) :- GetU64(s);
    var (decisionTime, s) :- GetI64(s);
    var (reservationId, s) :- GetOptionU64(s);
    var (demand, s) :- GetVec(s);
    var (explanation, s) :- GetText(s);
    Got(Decision(admissionRequestId, requestId, attemptId, tenantId, modelId, modelRevision, outcome, reason,
      policyGeneration, snapshotGeneration, admissionGeneration, epoch, confidence, decisionTime, reservationId,
      demand, explanation), s)
  }

  predicate FitDecision(x: Decision) {
    InI32(x.reason) && InI64(x.decisionTime) && FitText(x.explanation)
  }

  lemma DecisionRoundTrip(x: Decision, k: bytes)
    requires FitDecision(x)
    ensures GetDecision(PutDecision(x, k)) == Got(x, k)
  {
    hide PutU8, GetU8, PutU32, GetU32, PutU64, GetU64, PutI64, GetI64, PutI32, GetI32, PutFlag, GetFlag, PutText,
      GetText, PutVec, GetVec, PutLevels, GetLevels, PutTexts, GetTexts, PutOptionU64, GetOptionU64, PutOptionI64,
      GetOptionI64, PutOptionVec, GetOptionVec, PutOptionU8, GetOptionU8, PutOptionFlag, GetOptionFlag, FitText,
      FitTexts;
    FieldsRoundTrip();
  }

  lemma DecisionMoves(s: bytes, t: bytes)
    ensures Moved(GetDecision(s), GetDecision(s + t), t)
  {
    hide GetU64, GetU8, GetI32, GetI64, GetOptionU64, GetVec, GetText;
    FieldsLocal();
  }

  // ---------- Profile ----------

  function PutProfileHead(x: Profile, k: bytes): bytes {
    PutU64(x.modelId, PutU64(x.revision, PutText(x.backend, PutText(x.dtype, PutText(x.quantization,
      PutU64(x.generation, PutU64(x.fixedBaseMemory, PutU64(x.perTokenKvBytes, PutU64(x.perTokenTensorBytes,
      PutU64(x.perRequestOverhead, PutU64(x.workspaceBytes, PutU64(x.stagingBytes, PutU64(x.pinnedStagingBytes,
      k)))))))))))))
  }

  function PutProfileTail(x: Profile, k: bytes): bytes {
    PutU64(x.safetyMarginRatio, PutU64(x.fragmentationRatio, PutU64(x.prefillTokensPerSec,
      PutU64(x.decodeTokensPerSec, PutU64(x.transferBytesPerSequence, PutU64(x.transferBytesPerSec,
      PutU64(x.hostMemoryBytes, PutU64(x.pinnedHostMemoryBytes, PutU32(x.executionSlotsRequired,
      PutU32(x.sequenceSlotsRequired, k))))))))))
  }

  function PutProfile(x: Profile, k: bytes): bytes { PutProfileHead(x, PutProfileTail(x, k)) }

  /** The first part of the fields, decoded into a fresh record. */
  function GetProfileHead(s: bytes): Parse<Profile> {
    var (modelId, s) :- GetU64(s);
    var (revision, s) :- GetU64(s);
    var (backend, s) :- GetText(s);
    var (dtype, s) :- GetText(s);
    var (quantization, s) :- GetText(s);
    var (generation, s) :- GetU64(s);
    var (fixedBaseMemory, s) :- GetU64(s);
    var (perTokenKvBytes, s) :- GetU64(s);
    var (perTokenTensorBytes, s) :- GetU64(s);
    var (perRequestOverhead, s) :- GetU64(s);
    var (workspaceBytes, s) :- GetU64(s);
    var (stagingBytes, s) :- GetU64(s);
    var (pinnedStagingBytes, s) :- GetU64(s);
    Got(DEFAULT_PROFILE.(modelId := modelId, revision := revision, backend := backend, dtype := dtype,
      quantization := quantization, generation := generation, fixedBaseMemory := fixedBaseMemory,
      perTokenKvBytes := perTokenKvBytes, perTokenTensorBytes := perTokenTensorBytes,
      perRequestOverhead := perRequestOverhead, workspaceBytes := workspaceBytes, stagingBytes := stagingBytes,
      pinnedStagingBytes := pinnedStagingBytes), s)
  }

  function GetProfileTail(x: Profile, s: bytes): Parse<Profile> {
    var (safetyMarginRatio, s) :- GetU64(s);
    var (fragmentationRatio, s) :- GetU64(s);
    var (prefillTokensPerSec, s) :- GetU64(s);
    var (decodeTokensPerSec, s) :- GetU64(s);
    var (transferBytesPerSequence, s) :- GetU64(s);
    var (transferBytesPerSec, s) :- GetU64(s);
    var (hostMemoryBytes, s) :- GetU64(s);
    var (pinnedHostMemoryBytes, s) :- GetU64(s);
    var (executionSlotsRequired, s) :- GetU32(s);
    var (sequenceSlotsRequired, s) :- GetU32(s);
    Got(x.(safetyMarginRatio := safetyMarginRatio, fragmentationRatio := fragmentationRatio,
      prefillTokensPerSec := prefillTokensPerSec, decodeTokensPerSec := decodeTokensPerSec,
      transferBytesPerSequence := transferBytesPerSequence, transferBytesPerSec := transferBytesPerSec,
      hostMemoryBytes := hostMemoryBytes, pinnedHostMemoryBytes := pinnedHostMemoryBytes,
      executionSlotsRequired := executionSlotsRequired, sequenceSlotsRequired := sequenceSlotsRequired), s)
  }

  function GetProfile(s: bytes): Parse<Profile> {
    var (x, s) :- GetProfileHead(s);
    GetProfileTail(x, s)
  }

  predicate FitProfile(x: Profile) {
    FitText(x.backend) && FitText(x.dtype) && FitText(x.quantization)
  }

  lemma ProfileHeadRoundTrip(x: Profile, k: bytes)
    requires FitProfile(x)
    ensures GetProfileHead(PutProfileHead(x, k)) ==
            Got(DEFAULT_PROFILE.(
              modelId := x.modelId, revision := x.revision, backend := x.backend, dtype := x.dtype,
              quantization := x.quantization, generation := x.generation,
              fixedBaseMemory := x.fixedBaseMemory, perTokenKvBytes := x.perTokenKvBytes,
              perTokenTensorBytes := x.perTokenTensorBytes, perRequestOverhead := x.perRequestOverhead,
              workspaceBytes := x.workspaceBytes, stagingBytes := x.stagingBytes,
              pinnedStagingBytes := x.pinnedStagingBytes), k)
  {
    hide PutU8, GetU8, PutU32, GetU32, PutU64, GetU64, PutI64, GetI64, PutI32, GetI32, PutFlag, GetFlag, PutText,
      GetText, PutVec, GetVec, PutLevels, GetLevels, PutTexts, GetTexts, PutOptionU64, GetOptionU64, PutOptionI64,
      GetOptionI64, PutOptionVec, GetOptionVec, PutOptionU8, GetOptionU8, PutOptionFlag, GetOptionFlag, FitText,
      FitTexts;
    FieldsRoundTrip();
  }

  lemma ProfileTailRoundTrip(y: Profile, x: Profile, k: bytes)
    ensures GetProfileTail(y, PutProfileTail(x, k)) ==
            Got(y.(
              safetyMarginRatio := x.safetyMarginRatio, fragmentationRatio := x.fragmentationRatio,
              prefillTokensPerSec := x.prefillTokensPerSec, decodeTokensPerSec := x.decodeTokensPerSec,
              transferBytesPerSequence := x.transferBytesPerSequence,
              transferBytesPerSec := x.transferBytesPerSec, hostMemoryBytes := x.hostMemoryBytes,
              pinnedHostMemoryBytes := x.pinnedHostMemoryBytes,
              executionSlotsRequired := x.executionSlotsRequired,
              sequenceSlotsRequired := x.sequenceSlotsRequired), k)
  {
    hide PutU8, GetU8, PutU32, GetU32, PutU64, GetU64, PutI64, GetI64, PutI32, GetI32, PutFlag, GetFlag, PutText,
      GetText, PutVec, GetVec, PutLevels, GetLevels, PutTexts, GetTexts, PutOptionU64, GetOptionU64, PutOptionI64,
      GetOptionI64, PutOptionVec, GetOptionVec, PutOptionU8, GetOptionU8, PutOptionFlag, GetOptionFlag, FitText,
      FitTexts;
    FieldsRoundTrip();
  }

  lemma ProfileRoundTrip(x: Profile, k: bytes)
    requires FitProfile(x)
    ensures GetProfile(PutProfile(x, k)) == Got(x, k)
  {
    hide PutProfileHead, GetProfileHead, PutProfileTail, GetProfileTail, FitProfile;
    ProfileHeadRoundTrip(x, PutProfileTail(x, k));
    var y := GetProfileHead(PutProfile(x, k)).value;
    ProfileTailRoundTrip(y, x, k);
  }

  lemma ProfileHeadMoves(s: bytes, t: bytes)
    ensures Moved(GetProfileHead(s), GetProfileHead(s + t), t)
  {
    hide GetU64, GetText;
    FieldsLocal();
  }

  lemma ProfileTailMoves(x: Profile, s: bytes, t: bytes)
    ensures Moved(GetProfileTail(x, s), GetProfileTail(x, s + t), t)
  {
    hide GetU64, GetU32;
    FieldsLocal();
  }

  lemma ProfileMoves(s: bytes, t: bytes)
    ensures Moved(GetProfile(s), GetProfile(s + t), t)
  {
    hide GetProfileHead, GetProfileTail;
    ProfileHeadMoves(s, t);
    var x := GetProfileHead(s);
    if x.Got? {
      ProfileTailMoves(x.value, x.rest, t);
    }
  }

  // ---------- Observation ----------

  function PutObservation(x: Observation, k: bytes): bytes {
    PutU64(x.id, PutU64(x.admissionRequestId, PutU64(x.tenantId, PutU64(x.modelId, PutU64(x.modelRevision,
      PutText(x.backend, PutText(x.dtype, PutText(x.quantization, PutU8(x.workloadType, PutU64(x.peakVram,
      PutU64(x.hostMemory, PutU64(x.pinnedMemory, PutU64(x.kvGrowth, PutU64(x.transferBytes,
      PutI64(x.executionDuration, PutU64(x.inputTokens, PutU64(x.outputTokens, PutI64(x.completedAt,
      PutU8(x.kind, k)))))))))))))))))))
  }

  function GetObservation(s: bytes): Parse<Observation> {
    var (id, s) :- GetU64(s);
    var (admissionRequestId, s) :- GetU64(s);
    var (tenantId, s) :- GetU64(s);
    var (modelId, s) :- GetU64(s);
    var (modelRevision, s) :- GetU64(s);
    var (backend, s) :- GetText(s);
    var (dtype, s) :- GetText(s);
    var (quantization, s) :- GetText(s);
    var (workloadType, s) :- GetU8(s);
    var (peakVram, s) :- GetU64(s);
    var (hostMemory, s) :- GetU64(s);
    var (pinnedMemory, s) :- GetU64(s);
    var (kvGrowth, s) :- GetU64(s);
    var (transferBytes, s) :- GetU64(s);
    var (executionDuration, s) :- GetI64(s);
    var (inputTokens, s) :- GetU64(s);
    var (outputTokens, s) :- GetU64(s);
    var (completedAt, s) :- GetI64(s);
    var (kind, s) :- GetU8(s);
    Got(Observation(id, admissionRequestId, tenantId, modelId, modelRevision, backend, dtype, quantization,
      workloadType, peakVram, hostMemory, pinnedMemory, kvGrowth, transferBytes, executionDuration, inputTokens,
      outputTokens, completedAt, kind), s)
  }

  predicate FitObservation(x: Observation) {
    FitText(x.backend) && FitText(x.dtype) && FitText(x.quantization) && InI64(x.executionDuration) &&
    InI64(x.completedAt)
  }

  lemma ObservationRoundTrip(x: Observation, k: bytes)
    requires FitObservation(x)
    ensures GetObservation(PutObservation(x, k)) == Got(x, k)
  {
    hide PutU8, GetU8, PutU32, GetU32, PutU64, GetU64, PutI64, GetI64, PutI32, GetI32, PutFlag, GetFlag, PutText,
      GetText, PutVec, GetVec, PutLevels, GetLevels, PutTexts, GetTexts, PutOptionU64, GetOptionU64, PutOptionI64,
      GetOptionI64, PutOptionVec, GetOptionVec, PutOptionU8, GetOptionU8, PutOptionFlag, GetOptionFlag, FitText,
      FitTexts;
    FieldsRoundTrip();
  }

  lemma ObservationMoves(s: bytes, t: bytes)
    ensures Moved(GetObservation(s), GetObservation(s + t), t)
  {
    hide GetU64, GetText, GetU8, GetI64;
    FieldsLocal();
  }

  // ---------- Strict prefixes ----------

  lemma CutFails<T>(whole: bytes, n: nat, cut: Parse<T>, full: Parse<T>)
    requires n < |whole| && full.Got? && full.rest == []
    requires Moved(cut, full, whole[n..])
    ensures cut.Fail?
  {
  }

  /** No decoder accepts a strict prefix of an encoding, so truncation is always noticed. */
  lemma ReservationTruncated(x: Reservation, n: nat)
    requires FitReservation(x)
    requires n < |PutReservation(x, [])|
    ensures GetReservation(PutReservation(x, [])[..n]).Fail?
  {
    hide PutReservation, GetReservation;
    var whole := PutReservation(x, []);
    ReservationRoundTrip(x, []);
    ReservationMoves(whole[..n], whole[n..]);
    assert whole[..n] + whole[n..] == whole;
    CutFails(whole, n, GetReservation(whole[..n]), GetReservation(whole));
  }

  lemma DescriptorTruncated(x: Descriptor, n: nat)
    requires FitDescriptor(x)
    requires n < |PutDescriptor(x, [])|
    ensures GetDescriptor(PutDescriptor(x, [])[..n]).Fail?
  {
    hide PutDescriptor, GetDescriptor;
    var whole := PutDescriptor(x, []);
    DescriptorRoundTrip(x, []);
    DescriptorMoves(whole[..n], whole[n..]);
    assert whole[..n] + whole[n..] == whole;
    CutFails(whole, n, GetDescriptor(whole[..n]), GetDescriptor(whole));
  }

  lemma SnapshotTruncated(x: Snapshot, n: nat)
    requires FitSnapshot(x)
    requires n < |PutSnapshot(x, [])|
    ensures GetSnapshot(PutSnapshot(x, [])[..n]).Fail?
  {
    hide PutSnapshot, GetSnapshot;
    var whole := PutSnapshot(x, []);
    SnapshotRoundTrip(x, []);
    SnapshotMoves(whole[..n], whole[n..]);
    assert whole[..n] + whole[n..] == whole;
    CutFails(whole, n, GetSnapshot(whole[..n]), GetSnapshot(whole));
  }

  lemma OverrideTruncated(x: Override, n: nat)
    requires FitOverride(x)
    requires n < |PutOverride(x, [])|
    ensures GetOverride(PutOverride(x, [])[..n]).Fail?
  {
    hide PutOverride, GetOverride;
    var whole := PutOverride(x, []);
    OverrideRoundTrip(x, []);
    OverrideMoves(whole[..n], whole[n..]);
    assert whole[..n] + whole[n..] == whole;
    CutFails(whole, n, GetOverride(whole[..n]), GetOverride(whole));
  }

  lemma PolicyTruncated(x: Policy, n: nat)
    requires FitPolicy(x)
    requires n < |PutPolicy(x, [])|
    ensures GetPolicy(PutPolicy(x, [])[..n]).Fail?
  {
    hide PutPolicy, GetPolicy;
    var whole := PutPolicy(x, []);
    PolicyRoundTrip(x, []);
    PolicyMoves(whole[..n], whole[n..]);
    assert whole[..n] + whole[n..] == whole;
    CutFails(whole, n, GetPolicy(whole[..n]), GetPolicy(whole));
  }

  lemma QuotaTruncated(x: Quota, n: nat)
    requires FitQuota(x)
    requires n < |PutQuota(x, [])|
    ensures GetQuota(PutQuota(x, [])[..n]).Fail?
  {
    hide PutQuota, GetQuota;
    var whole := PutQuota(x, []);
    QuotaRoundTrip(x, []);
    QuotaMoves(whole[..n], whole[n..]);
    assert whole[..n] + whole[n..] == whole;
    CutFails(whole, n, GetQuota(whole[..n]), GetQuota(whole));
  }

  lemma DecisionTruncated(x: Decision, n: nat)
    requires FitDecision(x)
    requires n < |PutDecision(x, [])|
    ensures GetDecision(PutDecision(x, [])[..n]).Fail?
  {
    hide PutDecision, GetDecision;
    var whole := PutDecision(x, []);
    DecisionRoundTrip(x, []);
    DecisionMoves(whole[..n], whole[n..]);
    assert whole[..n] + whole[n..] == whole;
    CutFails(whole, n, GetDecision(whole[..n]), GetDecision(whole));
  }

  lemma ProfileTruncated(x: Profile, n: nat)
    requires FitProfile(x)
    requires n < |PutProfile(x, [])|
    ensures GetProfile(PutProfile(x, [])[..n]).Fail?
  {
    hide PutProfile, GetProfile;
    var whole := PutProfile(x, []);
    ProfileRoundTrip(x, []);
    ProfileMoves(whole[..n], whole[n..]);
    assert whole[..n] + whole[n..] == whole;
    CutFails(whole, n, GetProfile(whole[..n]), GetProfile(whole));
  }

  lemma ObservationTruncated(x: Observation, n: nat)
    requires FitObservation(x)
    requires n < |PutObservation(x, [])|
    ensures GetObservation(PutObservation(x, [])[..n]).Fail?
  {
    hide PutObservation, GetObservation;
    var whole := PutObservation(x, []);
    ObservationRoundTrip(x, []);
    ObservationMoves(whole[..n], whole[n..]);
    assert whole[..n] + whole[n..] == whole;
    CutFails(whole, n, GetObservation(whole[..n]), GetObservation(whole));
  }

}
