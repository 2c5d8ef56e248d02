/** The domain records. Durations and time points are integer nanoseconds, a double is its 64 bits,
    and an enumeration whose decoder checks no range is the byte that is stored. */
module Records {
  import opened Words
  import opened Resources

  type double = u64

  datatype Status = Reserved | Committed | Released | Expired | RolledBack

  datatype Reservation = Reservation(
    id: u64, owner: u64, demand: Vec, createdAt: int, expiresAt: int,
    request: Option<u64>, generation: Option<u64>, status: Status, serial: u64)

  datatype Descriptor = Descriptor(
    workloadType: byte, admissionRequestId: u64, requestId: u64, attemptId: u64, tenantId: u64,
    modelId: u64, modelRevision: u64, adapterId: Option<u64>, policyGeneration: u64,
    inputTokens: u64, expectedOutputTokens: u64, maxOutputTokens: u64, batchable: bool,
    priority: byte, latencyClass: byte, deadline: Option<int>, requestedSlo: Option<double>,
    expectedDemand: Option<Vec>, preemption: byte, degradationPermitted: bool,
    requiresReservation: bool, admissionTtl: int, backend: bytes, dtype: bytes,
    quantization: bytes, workloadClass: bytes, policyTags: seq<bytes>)

  type Levels = p: seq<byte> | |p| == 12 witness [0, 0, 0, 0, 0, 0, 0, 0, 0, 0, 0, 0]

  datatype Snapshot = Snapshot(
    generation: u64, timestamp: int, agentId: u64, bootId: u64, nodeName: bytes, deviceIndex: u32,
    deviceName: bytes, total: Vec, used: Vec, reserved: Vec, reclaimable: Vec,
    capabilities: set<bytes>, healthy: bool, modelResidencyHints: seq<bytes>,
    transferPathHints: seq<bytes>, pressure: Levels, provenance: Levels)

  datatype Override = Override(
    key: bytes, safetyHeadroomRatio: Option<double>, overcommitMode: Option<byte>,
    overcommitAllowance: Option<Vec>, minPredictorConfidence: Option<double>,
    admitSloRisk: Option<bool>, requireReservation: Option<bool>, smallRequestBoost: Option<double>)

  datatype Policy = Policy(
    generation: u64, name: bytes, safetyHeadroomRatio: double, absoluteSafetyMargin: Vec,
    overcommit: byte, overcommitAllowance: Vec, overcommitConfidenceMin: double,
    minPredictorConfidence: double, maxSnapshotAge: int, acceptStaleSnapshot: bool,
    quotaFailClosed: bool, admitSloFeasibleWithRisk: bool, requireReservation: bool,
    maxReservationLifetime: int, defaultAdmissionTtl: int, maxDeferrals: u32,
    deferMinBackoff: int, deferMaxWait: int, smallRequestPriorityBoost: double,
    largeRequestStarvationBoost: double, fairnessWindow: u32, overrides: seq<Override>)

  datatype Quota = Quota(
    present: bool, generation: u64, sourceAuthority: bytes, timestamp: int, stale: bool,
    limits: Vec, used: Vec, reserved: Vec, tokenBudget: u64, maxConcurrentRequests: u32,
    maxSequences: u32, computeTimeAllowance: int)

  datatype Decision = Decision(
    admissionRequestId: u64, requestId: u64, attemptId: u64, tenantId: u64, modelId: u64,
    modelRevision: u64, outcome: byte, reason: int, policyGeneration: u64, snapshotGeneration: u64,
    admissionGeneration: u64, epoch: u64, confidence: double, decisionTime: int,
    reservationId: Option<u64>, demand: Vec, explanation: bytes)

  datatype Profile = Profile(
    modelId: u64, revision: u64, backend: bytes, dtype: bytes, quantization: bytes, generation: u64,
    fixedBaseMemory: u64, perTokenKvBytes: u64, perTokenTensorBytes: u64, perRequestOverhead: u64,
    workspaceBytes: u64, stagingBytes: u64, pinnedStagingBytes: u64, safetyMarginRatio: double,
    fragmentationRatio: double, prefillTokensPerSec: double, decodeTokensPerSec: double,
    transferBytesPerSequence: u64, transferBytesPerSec: double, hostMemoryBytes: u64,
    pinnedHostMemoryBytes: u64, executionSlotsRequired: u32, sequenceSlotsRequired: u32)

  datatype Observation = Observation(
    id: u64, admissionRequestId: u64, tenantId: u64, modelId: u64, modelRevision: u64,
    backend: bytes, dtype: bytes, quantization: bytes, workloadType: byte, peakVram: u64,
    hostMemory: u64, pinnedMemory: u64, kvGrowth: u64, transferBytes: u64, executionDuration: int,
    inputTokens: u64, outputTokens: u64, completedAt: int, kind: byte)

  const SECOND: int := 1_000_000_000

  // A default-constructed record of each kind that is decoded in two halves, or never set.

  const DEFAULT_DESCRIPTOR: Descriptor := Descriptor(
    0, 0, 0, 0, 0, 0, 0, None, 0, 0, 0, 0, false, 0, 0, None, None, None, 0, false, true,
    30 * SECOND, [], [], [], [], [])

  const DEFAULT_SNAPSHOT: Snapshot := Snapshot(
    0, 0, 0, 0, [], 0, [], ZERO, ZERO, ZERO, ZERO, {}, true, [], [],
    [0, 0, 0, 0, 0, 0, 0, 0, 0, 0, 0, 0], [0, 0, 0, 0, 0, 0, 0, 0, 0, 0, 0, 0])

  // The doubles are 0.10, 0.85, 0.20, 0.05.
  const DEFAULT_POLICY: Policy := Policy(
    0, [], 0x3FB9_9999_9999_999A, ZERO, 0, ZERO, 0x3FEB_3333_3333_3333, 0x3FC9_9999_9999_999A,
    5 * SECOND, false, true, true, true, 120 * SECOND, 30 * SECOND, 2, SECOND, 60 * SECOND, 0, 0, 256, [])

  const DEFAULT_PROFILE: Profile := Profile(
    0, 0, [], [], [], 0, 0, 0, 0, 0, 0, 0, 0, 0x3FB9_9999_9999_999A, 0x3FA9_9999_9999_999A,
    0, 0, 0, 0, 0, 0, 1, 1)

  const DEFAULT_QUOTA: Quota := Quota(false, 0, [], 0, false, ZERO, ZERO, ZERO, 0, 0, 0, 0)
}
