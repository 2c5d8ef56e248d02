/** The encoders and decoders of src/core/codec.cpp as they run: encoders push fields into a writer,
    decoders advance a reader that keeps going with zeros once it has failed. Each is proved to be
    the format of `Codec`; in particular the sticky flag loses no failure and adds none. */
module Coders {
  import opened Words
  import opened Ordering
  import opened Resources
  import opened Records
  import opened Grammar
  import opened Fields
  import opened Codec
  import opened Wire

  /** A decoder returns a record exactly if the parse `p` succeeds, and then stands behind it. */
  ghost predicate Decoded<T>(r: ByteReader, p: Parse<T>, x: Option<T>)
    requires r.Valid()
    reads r
  {
    if p.Fail? then x.None? else x.Some? && r.Yields(p, x.value)
  }

  /** The same for a field, whose failure is always the reader's. */
  ghost predicate FieldDecoded<T>(r: ByteReader, p: Parse<T>, x: Option<T>)
    requires r.Valid()
    reads r
  {
    Decoded(r, p, x) && (p.Fail? ==> r.failed)
  }

  method EncodeI32(w: ByteWriter, v: int)
    modifies w
    ensures forall k: bytes :: w.buf + k == old(w.buf) + PutI32(v, k)
  {
    hide PutU32;
    w.U32(v % (U32_MAX + 1));
  }

  method DecodeI32(r: ByteReader) returns (v: int)
    requires r.Valid()
    modifies r
    ensures r.Valid() && r.Yields(Lift(old(r.failed), GetI32(old(r.Rest()))), v)
  {
    hide GetU32;
    var u := r.U32();
    v := if u < 0x8000_0000 then u else u - (U32_MAX + 1);
  }

  method EncodeVec(w: ByteWriter, v: Vec)
    modifies w
    ensures forall k: bytes :: w.buf + k == old(w.buf) + PutVec(v, k)
  {
    hide PutU64;
    ghost var start := w.buf;
    for i := 0 to 12
      invariant forall k: bytes :: w.buf + PutEach(PutU64, v[i..], k) == start + PutEach(PutU64, v, k)
    {
      ghost var before := w.buf;
      w.U64(v[i]);
      forall k: bytes ensures w.buf + PutEach(PutU64, v[i + 1..], k) == start + PutEach(PutU64, v, k) {
        assert v[i..][1..] == v[i + 1..];
        assert PutEach(PutU64, v[i..], k) == PutU64(v[i], PutEach(PutU64, v[i + 1..], k));
        assert before + PutEach(PutU64, v[i..], k) == start + PutEach(PutU64, v, k);
      }
    }
    assert v[12..] == [];
    forall k: bytes ensures w.buf + k == start + PutVec(v, k) {
      assert w.buf + PutEach(PutU64, v[12..], k) == start + PutEach(PutU64, v, k);
    }
  }

  method DecodeVec(r: ByteReader) returns (v: Option<Vec>)
    requires r.Valid()
    modifies r
    ensures r.Valid() && FieldDecoded(r, Lift(old(r.failed), GetVec(old(r.Rest()))), v)
  {
    hide GetU64;
    ghost var goal := Lift(r.failed, GetEach(GetU64, 12, r.Rest()));
    var out: seq<u64> := [];
    assert goal.Got? ==> out + goal.value == goal.value;
    for i := 0 to 12
      invariant r.Valid() && |out| == i
      invariant r.failed ==> goal.Fail?
      invariant !r.failed ==> goal == Prefixed(out, GetEach(GetU64, 12 - i, r.Rest()))
    {
      ghost var here := r.Rest();
      var x := r.U64();
      PrefixStep(GetU64, out, 12 - i, here);
      out := out + [x];
    }
    assert out + [] == out;
    v := if r.failed then None else Some(out);
  }

  method EncodeLevels(w: ByteWriter, v: Levels)
    modifies w
    ensures forall k: bytes :: w.buf + k == old(w.buf) + PutLevels(v, k)
  {
    hide PutU8;
    ghost var start := w.buf;
    for i := 0 to 12
      invariant forall k: bytes :: w.buf + PutEach(PutU8, v[i..], k) == start + PutEach(PutU8, v, k)
    {
      ghost var before := w.buf;
      w.U8(v[i]);
      forall k: bytes ensures w.buf + PutEach(PutU8, v[i + 1..], k) == start + PutEach(PutU8, v, k) {
        assert v[i..][1..] == v[i + 1..];
        assert PutEach(PutU8, v[i..], k) == PutU8(v[i], PutEach(PutU8, v[i + 1..], k));
        assert before + PutEach(PutU8, v[i..], k) == start + PutEach(PutU8, v, k);
      }
    }
    assert v[12..] == [];
    forall k: bytes ensures w.buf + k == start + PutLevels(v, k) {
      assert w.buf + PutEach(PutU8, v[12..], k) == start + PutEach(PutU8, v, k);
    }
  }

  method DecodeLevels(r: ByteReader) returns (v: Option<Levels>)
    requires r.Valid()
    modifies r
    ensures r.Valid() && FieldDecoded(r, Lift(old(r.failed), GetLevels(old(r.Rest()))), v)
  {
    hide GetU8;
    ghost var goal := Lift(r.failed, GetEach(GetU8, 12, r.Rest()));
    var out: seq<byte> := [];
    assert goal.Got? ==> out + goal.value == goal.value;
    for i := 0 to 12
      invariant r.Valid() && |out| == i
      invariant r.failed ==> goal.Fail?
      invariant !r.failed ==> goal == Prefixed(out, GetEach(GetU8, 12 - i, r.Rest()))
    {
      ghost var here := r.Rest();
      var x := r.U8();
      PrefixStep(GetU8, out, 12 - i, here);
      out := out + [x];
    }
    assert out + [] == out;
    v := if r.failed then None else Some(out);
  }

  method EncodeOptionU64(w: ByteWriter, o: Option<u64>)
    modifies w
    ensures forall k: bytes :: w.buf + k == old(w.buf) + PutOptionU64(o, k)
  {
    hide PutFlag, PutU64;
    w.Flag(o.Some?);
    if o.Some? { w.U64(o.value); }
  }

  method DecodeOptionU64(r: ByteReader) returns (o: Option<u64>)
    requires r.Valid()
    modifies r
    ensures r.Valid() && r.Yields(Lift(old(r.failed), GetOptionU64(old(r.Rest()))), o)
  {
    hide GetFlag, GetU64;
    o := None;
    var present := r.Flag();
    if present {
      var v := r.U64();
      o := Some(v);
    }
  }

  method EncodeOptionI64(w: ByteWriter, o: Option<int>)
    modifies w
    ensures forall k: bytes :: w.buf + k == old(w.buf) + PutOptionI64(o, k)
  {
    hide PutFlag, PutI64;
    w.Flag(o.Some?);
    if o.Some? { w.I64(o.value); }
  }

  method DecodeOptionI64(r: ByteReader) returns (o: Option<int>)
    requires r.Valid()
    modifies r
    ensures r.Valid() && r.Yields(Lift(old(r.failed), GetOptionI64(old(r.Rest()))), o)
  {
    hide GetFlag, GetI64;
    o := None;
    var present := r.Flag();
    if present {
      var v := r.I64();
      o := Some(v);
    }
  }

  method EncodeOptionU8(w: ByteWriter, o: Option<byte>)
    modifies w
    ensures forall k: bytes :: w.buf + k == old(w.buf) + PutOptionU8(o, k)
  {
    hide PutFlag, PutU8;
    w.Flag(o.Some?);
    if o.Some? { w.U8(o.value); }
  }

  method DecodeOptionU8(r: ByteReader) returns (o: Option<byte>)
    requires r.Valid()
    modifies r
    ensures r.Valid() && r.Yields(Lift(old(r.failed), GetOptionU8(old(r.Rest()))), o)
  {
    hide GetFlag, GetU8;
    o := None;
    var present := r.Flag();
    if present {
      var v := r.U8();
      o := Some(v);
    }
  }

  method EncodeOptionFlag(w: ByteWriter, o: Option<bool>)
    modifies w
    ensures forall k: bytes :: w.buf + k == old(w.buf) + PutOptionFlag(o, k)
  {
    hide PutFlag;
    w.Flag(o.Some?);
    if o.Some? { w.Flag(o.value); }
  }

  method DecodeOptionFlag(r: ByteReader) returns (o: Option<bool>)
    requires r.Valid()
    modifies r
    ensures r.Valid() && r.Yields(Lift(old(r.failed), GetOptionFlag(old(r.Rest()))), o)
  {
    hide GetFlag;
    o := None;
    var present := r.Flag();
    if present {
      var v := r.Flag();
      o := Some(v);
    }
  }

  method EncodeOptionVec(w: ByteWriter, o: Option<Vec>)
    modifies w
    ensures forall k: bytes :: w.buf + k == old(w.buf) + PutOptionVec(o, k)
  {
    hide PutFlag, PutVec;
    w.Flag(o.Some?);
    if o.Some? { EncodeVec(w, o.value); }
  }

  method DecodeOptionVec(r: ByteReader) returns (o: Option<Option<Vec>>)
    requires r.Valid()
    modifies r
    ensures r.Valid() && FieldDecoded(r, Lift(old(r.failed), GetOptionVec(old(r.Rest()))), o)
  {
    hide GetFlag, GetVec;
    var present := r.Flag();
    if !present { return if r.failed then None else Some(None); }
    var v := DecodeVec(r);
    o := if v.None? then None else Some(v);
  }

  // ---------- Reservation ----------

  method EncodeReservation(w: ByteWriter, x: Reservation)
    modifies w
    ensures forall k: bytes :: w.buf + k == old(w.buf) + PutReservation(x, k)
  {
    hide PutU64, PutVec, PutI64, PutOptionU64, PutU8;
    w.U64(x.id);
    w.U64(x.owner);
    EncodeVec(w, x.demand);
    w.I64(x.createdAt);
    w.I64(x.expiresAt);
    EncodeOptionU64(w, x.request);
    EncodeOptionU64(w, x.generation);
    w.U8(StatusCode(x.status));
    w.U64(x.serial);
  }

  method DecodeReservation(r: ByteReader) returns (y: Option<Reservation>)
    requires r.Valid()
    modifies r
    ensures r.Valid() && Decoded(r, Lift(old(r.failed), GetReservation(old(r.Rest()))), y)
  {
    hide GetU64, GetVec, GetI64, GetOptionU64, GetU8;
    var id := r.U64();
    var owner := r.U64();
    var demand := DecodeVec(r);
    if demand.None? { return None; }
    var createdAt := r.I64();
    var expiresAt := r.I64();
    var request := DecodeOptionU64(r);
    var generation := DecodeOptionU64(r);
    var status := r.U8();
    var serial := r.U64();
    if StatusOf(status).None? { return None; }
    if r.failed { return None; }
    y := Some(Reservation(id, owner, demand.value, createdAt, expiresAt, request, generation, StatusOf(status).value,
      serial));
  }

  method EncodeTexts(w: ByteWriter, xs: seq<bytes>)
    modifies w
    ensures forall k: bytes :: w.buf + k == old(w.buf) + PutTexts(xs, k)
  {
    hide PutList;
    w.Texts(xs);
  }

  method DecodeTexts(r: ByteReader) returns (xs: Option<seq<bytes>>)
    requires r.Valid()
    modifies r
    ensures r.Valid() && FieldDecoded(r, Lift(old(r.failed), GetTexts(old(r.Rest()))), xs)
  {
    hide GetList;
    xs := r.Texts();
  }

  // ---------- Descriptor ----------

  method EncodeDescriptorHead(w: ByteWriter, x: Descriptor)
    modifies w
    ensures forall k: bytes :: w.buf + k == old(w.buf) + PutDescriptorHead(x, k)
  {
    hide PutU8, PutU64, PutOptionU64, PutFlag;
    w.U8(x.workloadType);
    w.U64(x.admissionRequestId);
    w.U64(x.requestId);
    w.U64(x.attemptId);
    w.U64(x.tenantId);
    w.U64(x.modelId);
    w.U64(x.modelRevision);
    EncodeOptionU64(w, x.adapterId);
    w.U64(x.policyGeneration);
    w.U64(x.inputTokens);
    w.U64(x.expectedOutputTokens);
    w.U64(x.maxOutputTokens);
    w.Flag(x.batchable);
    w.U8(x.priority);
    w.U8(x.latencyClass);
  }

  method EncodeDescriptorTail(w: ByteWriter, x: Descriptor)
    modifies w
    ensures forall k: bytes :: w.buf + k == old(w.buf) + PutDescriptorTail(x, k)
  {
    hide PutOptionI64, PutOptionU64, PutOptionVec, PutU8, PutFlag, PutI64, PutText, PutTexts;
    EncodeOptionI64(w, x.deadline);
    EncodeOptionU64(w, x.requestedSlo);
    EncodeOptionVec(w, x.expectedDemand);
    w.U8(x.preemption);
    w.Flag(x.degradationPermitted);
    w.Flag(x.requiresReservation);
    w.I64(x.admissionTtl);
    w.Text(x.backend);
    w.Text(x.dtype);
    w.Text(x.quantization);
    w.Text(x.workloadClass);
    EncodeTexts(w, x.policyTags);
  }

  method EncodeDescriptor(w: ByteWriter, x: Descriptor)
    modifies w
    ensures forall k: bytes :: w.buf + k == old(w.buf) + PutDescriptor(x, k)
  {
    hide PutDescriptorHead, PutDescriptorTail;
    EncodeDescriptorHead(w, x);
    EncodeDescriptorTail(w, x);
  }

  method DecodeDescriptorHead(r: ByteReader) returns (y: Option<Descriptor>)
    requires r.Valid()
    modifies r
    ensures r.Valid() && Decoded(r, Lift(old(r.failed), GetDescriptorHead(old(r.Rest()))), y)
  {
    hide GetU8, GetU64, GetOptionU64, GetFlag;
    var workloadType := r.U8();
    var admissionRequestId := r.U64();
    var requestId := r.U64();
    var attemptId := r.U64();
    var tenantId := r.U64();
    var modelId := r.U64();
    var modelRevision := r.U64();
    var adapterId := DecodeOptionU64(r);
    var policyGeneration := r.U64();
    var inputTokens := r.U64();
    var expectedOutputTokens := r.U64();
    var maxOutputTokens := r.U64();
    var batchable := r.Flag();
    var priority := r.U8();
    var latencyClass := r.U8();
    if r.failed { return None; }
    y := Some(DEFAULT_DESCRIPTOR.(workloadType := workloadType, admissionRequestId := admissionRequestId,
      requestId := requestId, attemptId := attemptId, tenantId := tenantId, modelId := modelId,
      modelRevision := modelRevision, adapterId := adapterId, policyGeneration := policyGeneration,
      inputTokens := inputTokens, expectedOutputTokens := expectedOutputTokens, maxOutputTokens := maxOutputTokens,
      batchable := batchable, priority := priority, latencyClass := latencyClass));
  }

  method DecodeDescriptorTail(x: Descriptor, r: ByteReader) returns (y: Option<Descriptor>)
    requires r.Valid()
    modifies r
    ensures r.Valid() && Decoded(r, Lift(old(r.failed), GetDescriptorTail(x, old(r.Rest()))), y)
  {
    hide GetOptionI64, GetOptionU64, GetOptionVec, GetU8, GetFlag, GetI64, GetText, GetTexts;
    var deadline := DecodeOptionI64(r);
    var requestedSlo := DecodeOptionU64(r);
    var expectedDemand := DecodeOptionVec(r);
    if expectedDemand.None? { return None; }
    var preemption := r.U8();
    var degradationPermitted := r.Flag();
    var requiresReservation := r.Flag();
    var admissionTtl := r.I64();
    var backend := r.Text();
    if backend.None? { return None; }
    var dtype := r.Text();
    if dtype.None? { return None; }
    var quantization := r.Text();
    if quantization.None? { return None; }
    var workloadClass := r.Text();
    if workloadClass.None? { return None; }
    var policyTags := DecodeTexts(r);
    if policyTags.None? { return None; }
    if r.failed { return None; }
    y := Some(x.(deadline := deadline, requestedSlo := requestedSlo, expectedDemand := expectedDemand.value,
      preemption := preemption, degradationPermitted := degradationPermitted,
      requiresReservation := requiresReservation, admissionTtl := admissionTtl, backend := backend.value,
      dtype := dtype.value, quantization := quantization.value, workloadClass := workloadClass.value,
      policyTags := policyTags.value));
  }

  method DecodeDescriptor(r: ByteReader) returns (y: Option<Descriptor>)
    requires r.Valid()
    modifies r
    ensures r.Valid() && Decoded(r, Lift(old(r.failed), GetDescriptor(old(r.Rest()))), y)
  {
    hide GetDescriptorHead, GetDescriptorTail;
    y := DecodeDescriptorHead(r);
    if y.None? { return; }
    y := DecodeDescriptorTail(y.value, r);
  }

  // ---------- Snapshot ----------

  method EncodeSnapshot(w: ByteWriter, x: Snapshot)
    modifies w
    ensures forall k: bytes :: w.buf + k == old(w.buf) + PutSnapshot(x, k)
  {
    hide PutU64, PutI64, PutText, PutU32, PutVec, PutTexts, PutFlag, PutLevels;
    w.U64(x.generation);
    w.I64(x.timestamp);
    w.U64(x.agentId);
    w.U64(x.bootId);
    w.Text(x.nodeName);
    w.U32(x.deviceIndex);
    w.Text(x.deviceName);
    EncodeVec(w, x.total);
    EncodeVec(w, x.used);
    EncodeVec(w, x.reserved);
    EncodeVec(w, x.reclaimable);
    EncodeTexts(w, SortedTexts(x.capabilities));
    w.Flag(x.healthy);
    EncodeTexts(w, x.modelResidencyHints);
    EncodeTexts(w, x.transferPathHints);
    EncodeLevels(w, x.pressure);
    EncodeLevels(w, x.provenance);
  }

  method DecodeSnapshot(r: ByteReader) returns (y: Option<Snapshot>)
    requires r.Valid()
    modifies r
    ensures r.Valid() && Decoded(r, Lift(old(r.failed), GetSnapshot(old(r.Rest()))), y)
  {
    hide GetU64, GetI64, GetText, GetU32, GetVec, GetTexts, GetFlag, GetLevels;
    var generation := r.U64();
    var timestamp := r.I64();
    var agentId := r.U64();
    var bootId := r.U64();
    var nodeName := r.Text();
    if nodeName.None? { return None; }
    var deviceIndex := r.U32();
    var deviceName := r.Text();
    if deviceName.None? { return None; }
    var total := DecodeVec(r);
    if total.None? { return None; }
    var used := DecodeVec(r);
    if used.None? { return None; }
    var reserved := DecodeVec(r);
    if reserved.None? { return None; }
    var reclaimable := DecodeVec(r);
    if reclaimable.None? { return None; }
    var capabilities := DecodeTexts(r);
    if capabilities.None? { return None; }
    var healthy := r.Flag();
    var modelResidencyHints := DecodeTexts(r);
    if modelResidencyHints.None? { return None; }
    var transferPathHints := DecodeTexts(r);
    if transferPathHints.None? { return None; }
    var pressure := DecodeLevels(r);
    if pressure.None? { return None; }
    var provenance := DecodeLevels(r);
    if provenance.None? { return None; }
    if r.failed { return None; }
    y := Some(Snapshot(generation, timestamp, agentId, bootId, nodeName.value, deviceIndex, deviceName.value,
      total.value, used.value, reserved.value, reclaimable.value, (set token | token in capabilities.value), healthy,
      modelResidencyHints.value, transferPathHints.value, pressure.value, provenance.value));
  }

  // ---------- Override ----------

  method EncodeOverride(w: ByteWriter, x: Override)
    modifies w
    ensures forall k: bytes :: w.buf + k == old(w.buf) + PutOverride(x, k)
  {
    hide PutText, PutOptionU64, PutOptionU8, PutOptionVec, PutOptionFlag;
    w.Text(x.key);
    EncodeOptionU64(w, x.safetyHeadroomRatio);
    EncodeOptionU8(w, x.overcommitMode);
    EncodeOptionVec(w, x.overcommitAllowance);
    EncodeOptionU64(w, x.minPredictorConfidence);
    EncodeOptionFlag(w, x.admitSloRisk);
    EncodeOptionFlag(w, x.requireReservation);
    EncodeOptionU64(w, x.smallRequestBoost);
  }

  method DecodeOverride(r: ByteReader) returns (y: Option<Override>)
    requires r.Valid()
    modifies r
    ensures r.Valid() && Decoded(r, Lift(old(r.failed), GetOverride(old(r.Rest()))), y)
  {
    hide GetText, GetOptionU64, GetOptionU8, GetOptionVec, GetOptionFlag;
    var key := r.Text();
    if key.None? { return None; }
    var safetyHeadroomRatio := DecodeOptionU64(r);
    var overcommitMode := DecodeOptionU8(r);
    var overcommitAllowance := DecodeOptionVec(r);
    if overcommitAllowance.None? { return None; }
    var minPredictorConfidence := DecodeOptionU64(r);
    var admitSloRisk := DecodeOptionFlag(r);
    var requireReservation := DecodeOptionFlag(r);
    var smallRequestBoost := DecodeOptionU64(r);
    if r.failed { return None; }
    y := Some(Override(key.value, safetyHeadroomRatio, overcommitMode, overcommitAllowance.value,
      minPredictorConfidence, admitSloRisk, requireReservation, smallRequestBoost));
  }

  // ---------- Policy ----------

  method EncodeOverrides(w: ByteWriter, xs: seq<Override>)
    modifies w
    ensures forall k: bytes :: w.buf + k == old(w.buf) + PutOverrides(xs, k)
  {
    hide PutU32, PutOverride;
    ghost var start := w.buf;
    w.U32(|xs| % (U32_MAX + 1));
    for i := 0 to |xs|
      invariant forall k: bytes :: w.buf + PutEach(PutOverride, xs[i..], k) == start + PutList(PutOverride, xs, k)
    {
      ghost var before := w.buf;
      EncodeOverride(w, xs[i]);
      forall k: bytes ensures w.buf + PutEach(PutOverride, xs[i + 1..], k) == start + PutList(PutOverride, xs, k) {
        assert xs[i..][1..] == xs[i + 1..];
        assert PutEach(PutOverride, xs[i..], k) == PutOverride(xs[i], PutEach(PutOverride, xs[i + 1..], k));
        assert before + PutEach(PutOverride, xs[i..], k) == start + PutList(PutOverride, xs, k);
      }
    }
    assert xs[|xs|..] == [];
    forall k: bytes ensures w.buf + k == start + PutOverrides(xs, k) {
      assert w.buf + PutEach(PutOverride, xs[|xs|..], k) == start + PutList(PutOverride, xs, k);
    }
  }

  method DecodeOverrides(r: ByteReader) returns (xs: Option<seq<Override>>)
    requires r.Valid()
    modifies r
    ensures r.Valid() && Decoded(r, Lift(old(r.failed), GetOverrides(old(r.Rest()))), xs)
  {
    hide GetU32, GetOverride;
    var n := r.U32();
    if r.failed || n > MAX_OVERRIDES { return None; }
    ghost var goal := GetEach(GetOverride, n, r.Rest());
    var out: seq<Override> := [];
    assert goal.Got? ==> out + goal.value == goal.value;
    for i := 0 to n
      invariant r.Valid() && !r.failed
      invariant goal == Prefixed(out, GetEach(GetOverride, n - i, r.Rest()))
    {
      ghost var here := r.Rest();
      var x := DecodeOverride(r);
      PrefixStep(GetOverride, out, n - i, here);
      if x.None? { return None; }
      out := out + [x.value];
    }
    assert out + [] == out;
    xs := Some(out);
  }

  method EncodePolicyHead(w: ByteWriter, x: Policy)
    modifies w
    ensures forall k: bytes :: w.buf + k == old(w.buf) + PutPolicyHead(x, k)
  {
    hide PutU64, PutText, PutVec, PutU8, PutI64, PutFlag;
    w.U64(x.generation);
    w.Text(x.name);
    w.U64(x.safetyHeadroomRatio);
    EncodeVec(w, x.absoluteSafetyMargin);
    w.U8(x.overcommit);
    EncodeVec(w, x.overcommitAllowance);
    w.U64(x.overcommitConfidenceMin);
    w.U64(x.minPredictorConfidence);
    w.I64(x.maxSnapshotAge);
    w.Flag(x.acceptStaleSnapshot);
  }

  method EncodePolicyMiddle(w: ByteWriter, x: Policy)
    modifies w
    ensures forall k: bytes :: w.buf + k == old(w.buf) + PutPolicyMiddle(x, k)
  {
    hide PutFlag, PutI64, PutU32;
    w.Flag(x.quotaFailClosed);
    w.Flag(x.admitSloFeasibleWithRisk);
    w.Flag(x.requireReservation);
    w.I64(x.maxReservationLifetime);
    w.I64(x.defaultAdmissionTtl);
    w.U32(x.maxDeferrals);
  }

  method EncodePolicyTail(w: ByteWriter, x: Policy)
    modifies w
    ensures forall k: bytes :: w.buf + k == old(w.buf) + PutPolicyTail(x, k)
  {
    hide PutI64, PutU64, PutU32, PutOverrides;
    w.I64(x.deferMinBackoff);
    w.I64(x.deferMaxWait);
    w.U64(x.smallRequestPriorityBoost);
    w.U64(x.largeRequestStarvationBoost);
    w.U32(x.fairnessWindow);
    EncodeOverrides(w, x.overrides);
  }

  method EncodePolicy(w: ByteWriter, x: Policy)
    modifies w
    ensures forall k: bytes :: w.buf + k == old(w.buf) + PutPolicy(x, k)
  {
    hide PutPolicyHead, PutPolicyMiddle, PutPolicyTail;
    EncodePolicyHead(w, x);
    EncodePolicyMiddle(w, x);
    EncodePolicyTail(w, x);
  }

  method DecodePolicyHead(r: ByteReader) returns (y: Option<Policy>)
    requires r.Valid()
    modifies r
    ensures r.Valid() && Decoded(r, Lift(old(r.failed), GetPolicyHead(old(r.Rest()))), y)
  {
    hide GetU64, GetText, GetVec, GetU8, GetI64, GetFlag;
    var generation := r.U64();
    var name := r.Text();
    if name.None? { return None; }
    var safetyHeadroomRatio := r.U64();
    var absoluteSafetyMargin := DecodeVec(r);
    if absoluteSafetyMargin.None? { return None; }
    var overcommit := r.U8();
    var overcommitAllowance := DecodeVec(r);
    if overcommitAllowance.None? { return None; }
    var overcommitConfidenceMin := r.U64();
    var minPredictorConfidence := r.U64();
    var maxSnapshotAge := r.I64();
    var acceptStaleSnapshot := r.Flag();
    if r.failed { return None; }
    y := Some(DEFAULT_POLICY.(generation := generation, name := name.value, safetyHeadroomRatio := safetyHeadroomRatio,
      absoluteSafetyMargin := absoluteSafetyMargin.value, overcommit := overcommit,
      overcommitAllowance := overcommitAllowance.value, overcommitConfidenceMin := overcommitConfidenceMin,
      minPredictorConfidence := minPredictorConfidence, maxSnapshotAge := maxSnapshotAge,
      acceptStaleSnapshot := acceptStaleSnapshot));
  }

  method DecodePolicyMiddle(x: Policy, r: ByteReader) returns (y: Option<Policy>)
    requires r.Valid()
    modifies r
    ensures r.Valid() && Decoded(r, Lift(old(r.failed), GetPolicyMiddle(x, old(r.Rest()))), y)
  {
    hide GetFlag, GetI64, GetU32;
    var quotaFailClosed := r.Flag();
    var admitSloFeasibleWithRisk := r.Flag();
    var requireReservation := r.Flag();
    var maxReservationLifetime := r.I64();
    var defaultAdmissionTtl := r.I64();
    var maxDeferrals := r.U32();
    if r.failed { return None; }
    y := Some(x.(quotaFailClosed := quotaFailClosed, admitSloFeasibleWithRisk := admitSloFeasibleWithRisk,
      requireReservation := requireReservation, maxReservationLifetime := maxReservationLifetime,
      defaultAdmissionTtl := defaultAdmissionTtl, maxDeferrals := maxDeferrals));
  }

  method DecodePolicyTail(x: Policy, r: ByteReader) returns (y: Option<Policy>)
    requires r.Valid()
    modifies r
    ensures r.Valid() && Decoded(r, Lift(old(r.failed), GetPolicyTail(x, old(r.Rest()))), y)
  {
    hide GetI64, GetU64, GetU32, GetOverrides;
    var deferMinBackoff := r.I64();
    var deferMaxWait := r.I64();
    var smallRequestPriorityBoost := r.U64();
    var largeRequestStarvationBoost := r.U64();
    var fairnessWindow := r.U32();
    var overrides := DecodeOverrides(r);
    if overrides.None? { return None; }
    if r.failed { return None; }
    y := Some(x.(deferMinBackoff := deferMinBackoff, deferMaxWait := deferMaxWait,
      smallRequestPriorityBoost := smallRequestPriorityBoost,
      largeRequestStarvationBoost := largeRequestStarvationBoost, fairnessWindow := fairnessWindow,
      overrides := overrides.value));
  }

  method DecodePolicy(r: ByteReader) returns (y: Option<Policy>)
    requires r.Valid()
    modifies r
    ensures r.Valid() && Decoded(r, Lift(old(r.failed), GetPolicy(old(r.Rest()))), y)
  {
    hide GetPolicyHead, GetPolicyMiddle, GetPolicyTail;
    y := DecodePolicyHead(r);
    if y.None? { return; }
    y := DecodePolicyMiddle(y.value, r);
    if y.None? { return; }
    y := DecodePolicyTail(y.value, r);
  }

  // ---------- Quota ----------

  method EncodeQuota(w: ByteWriter, x: Quota)
    modifies w
    ensures forall k: bytes :: w.buf + k == old(w.buf) + PutQuota(x, k)
  {
    hide PutFlag, PutU64, PutText, PutI64, PutVec, PutU32;
    w.Flag(x.present);
    w.U64(x.generation);
    w.Text(x.sourceAuthority);
    w.I64(x.timestamp);
    w.Flag(x.stale);
    EncodeVec(w, x.limits);
    EncodeVec(w, x.used);
    EncodeVec(w, x.reserved);
    w.U64(x.tokenBudget);
    w.U32(x.maxConcurrentRequests);
    w.U32(x.maxSequences);
    w.I64(x.computeTimeAllowance);
  }

  method DecodeQuota(r: ByteReader) returns (y: Option<Quota>)
    requires r.Valid()
    modifies r
    ensures r.Valid() && Decoded(r, Lift(old(r.failed), GetQuota(old(r.Rest()))), y)
  {
    hide GetFlag, GetU64, GetText, GetI64, GetVec, GetU32;
    var present := r.Flag();
    var generation := r.U64();
    var sourceAuthority := r.Text();
    if sourceAuthority.None? { return None; }
    var timestamp := r.I64();
    var stale := r.Flag();
    var limits := DecodeVec(r);
    if limits.None? { return None; }
    var used := DecodeVec(r);
    if used.None? { return None; }
    var reserved := DecodeVec(r);
    if reserved.None? { return None; }
    var tokenBudget := r.U64();
    var maxConcurrentRequests := r.U32();
    var maxSequences := r.U32();
    var computeTimeAllowance := r.I64();
    if r.failed { return None; }
    y := Some(Quota(present, generation, sourceAuthority.value, timestamp, stale, limits.value, used.value,
      reserved.value, tokenBudget, maxConcurrentRequests, maxSequences, computeTimeAllowance));
  }

  // ---------- Decision ----------

  method EncodeDecision(w: ByteWriter, x: Decision)
    modifies w
    ensures forall k: bytes :: w.buf + k == old(w.buf) + PutDecision(x, k)
  {
    hide PutU64, PutU8, PutI32, PutI64, PutOptionU64, PutVec, PutText;
    w.U64(x.admissionRequestId);
    w.U64(x.requestId);
    w.U64(x.attemptId);
    w.U64(x.tenantId);
    w.U64(x.modelId);
    w.U64(x.modelRevision);
    w.U8(x.outcome);
    EncodeI32(w, x.reason);
    w.U64(x.policyGeneration);
    w.U64(x.snapshotGeneration);
    w.U64(x.admissionGeneration);
    w.U64(x.epoch);
    w.U64(x.confidence);
    w.I64(x.decisionTime);
    EncodeOptionU64(w, x.reservationId);
    EncodeVec(w, x.demand);
    w.Text(x.explanation);
  }

  method DecodeDecision(r: ByteReader) returns (y: Option<Decision>)
    requires r.Valid()
    modifies r
    ensures r.Valid() && Decoded(r, Lift(old(r.failed), GetDecision(old(r.Rest()))), y)
  {
    hide GetU64, GetU8, GetI32, GetI64, GetOptionU64, GetVec, GetText;
    var admissionRequestId := r.U64();
    var requestId := r.U64();
    var attemptId := r.U64();
    var tenantId := r.U64();
    var modelId := r.U64();
    var modelRevision := r.U64();
    var outcome := r.U8();
    var reason := DecodeI32(r);
    var policyGeneration := r.U64();
    var snapshotGeneration := r.U64();
    var admissionGeneration := r.U64();
    var epoch := r.U64();
    var confidence := r.U64();
    var decisionTime := r.I64();
    var reservationId := DecodeOptionU64(r);
    var demand := DecodeVec(r);
    if demand.None? { return None; }
    var explanation := r.Text();
    if explanation.None? { return None; }
    if r.failed { return None; }
    y := Some(Decision(admissionRequestId, requestId, attemptId, tenantId, modelId, modelRevision, outcome, reason,
      policyGeneration, snapshotGeneration, admissionGeneration, epoch, confidence, decisionTime, reservationId,
      demand.value, explanation.value));
  }

  // ---------- Profile ----------

  method EncodeProfileHead(w: ByteWriter, x: Profile)
    modifies w
    ensures forall k: bytes :: w.buf + k == old(w.buf) + PutProfileHead(x, k)
  {
    hide PutU64, PutText;
    w.U64(x.modelId);
    w.U64(x.revision);
    w.Text(x.backend);
    w.Text(x.dtype);
    w.Text(x.quantization);
    w.U64(x.generation);
    w.U64(x.fixedBaseMemory);
    w.U64(x.perTokenKvBytes);
    w.U64(x.perTokenTensorBytes);
    w.U64(x.perRequestOverhead);
    w.U64(x.workspaceBytes);
    w.U64(x.stagingBytes);
    w.U64(x.pinnedStagingBytes);
  }

  method EncodeProfileTail(w: ByteWriter, x: Profile)
    modifies w
    ensures forall k: bytes :: w.buf + k == old(w.buf) + PutProfileTail(x, k)
  {
    hide PutU64, PutU32;
    w.U64(x.safetyMarginRatio);
    w.U64(x.fragmentationRatio);
    w.U64(x.prefillTokensPerSec);
    w.U64(x.decodeTokensPerSec);
    w.U64(x.transferBytesPerSequence);
    w.U64(x.transferBytesPerSec);
    w.U64(x.hostMemoryBytes);
    w.U64(x.pinnedHostMemoryBytes);
    w.U32(x.executionSlotsRequired);
    w.U32(x.sequenceSlotsRequired);
  }

  method EncodeProfile(w: ByteWriter, x: Profile)
    modifies w
    ensures forall k: bytes :: w.buf + k == old(w.buf) + PutProfile(x, k)
  {
    hide PutProfileHead, PutProfileTail;
    EncodeProfileHead(w, x);
    EncodeProfileTail(w, x);
  }

  method DecodeProfileHead(r: ByteReader) returns (y: Option<Profile>)
    requires r.Valid()
    modifies r
    ensures r.Valid() && Decoded(r, Lift(old(r.failed), GetProfileHead(old(r.Rest()))), y)
  {
    hide GetU64, GetText;
    var modelId := r.U64();
    var revision := r.U64();
    var backend := r.Text();
    if backend.None? { return None; }
    var dtype := r.Text();
    if dtype.None? { return None; }
    var quantization := r.Text();
    if quantization.None? { return None; }
    var generation := r.U64();
    var fixedBaseMemory := r.U64();
    var perTokenKvBytes := r.U64();
    var perTokenTensorBytes := r.U64();
    var perRequestOverhead := r.U64();
    var workspaceBytes := r.U64();
    var stagingBytes := r.U64();
    var pinnedStagingBytes := r.U64();
    if r.failed { return None; }
    y := Some(DEFAULT_PROFILE.(modelId := modelId, revision := revision, backend := backend.value, dtype := dtype.value,
      quantization := quantization.value, generation := generation, fixedBaseMemory := fixedBaseMemory,
      perTokenKvBytes := perTokenKvBytes, perTokenTensorBytes := perTokenTensorBytes,
      perRequestOverhead := perRequestOverhead, workspaceBytes := workspaceBytes, stagingBytes := stagingBytes,
      pinnedStagingBytes := pinnedStagingBytes));
  }

  method DecodeProfileTail(x: Profile, r: ByteReader) returns (y: Option<Profile>)
    requires r.Valid()
    modifies r
    ensures r.Valid() && Decoded(r, Lift(old(r.failed), GetProfileTail(x, old(r.Rest()))), y)
  {
    hide GetU64, GetU32;
    var safetyMarginRatio := r.U64();
    var fragmentationRatio := r.U64();
    var prefillTokensPerSec := r.U64();
    var decodeTokensPerSec := r.U64();
    var transferBytesPerSequence := r.U64();
    var transferBytesPerSec := r.U64();
    var hostMemoryBytes := r.U64();
    var pinnedHostMemoryBytes := r.U64();
    var executionSlotsRequired := r.U32();
    var sequenceSlotsRequired := r.U32();
    if r.failed { return None; }
    y := Some(x.(safetyMarginRatio := safetyMarginRatio, fragmentationRatio := fragmentationRatio,
      prefillTokensPerSec := prefillTokensPerSec, decodeTokensPerSec := decodeTokensPerSec,
      transferBytesPerSequence := transferBytesPerSequence, transferBytesPerSec := transferBytesPerSec,
      hostMemoryBytes := hostMemoryBytes, pinnedHostMemoryBytes := pinnedHostMemoryBytes,
      executionSlotsRequired := executionSlotsRequired, sequenceSlotsRequired := sequenceSlotsRequired));
  }

  method DecodeProfile(r: ByteReader) returns (y: Option<Profile>)
    requires r.Valid()
    modifies r
    ensures r.Valid() && Decoded(r, Lift(old(r.failed), GetProfile(old(r.Rest()))), y)
  {
    hide GetProfileHead, GetProfileTail;
    y := DecodeProfileHead(r);
    if y.None? { return; }
    y := DecodeProfileTail(y.value, r);
  }

  // ---------- Observation ----------

  method EncodeObservation(w: ByteWriter, x: Observation)
    modifies w
    ensures forall k: bytes :: w.buf + k == old(w.buf) + PutObservation(x, k)
  {
    hide PutU64, PutText, PutU8, PutI64;
    w.U64(x.id);
    w.U64(x.admissionRequestId);
    w.U64(x.tenantId);
    w.U64(x.modelId);
    w.U64(x.modelRevision);
    w.Text(x.backend);
    w.Text(x.dtype);
    w.Text(x.quantization);
    w.U8(x.workloadType);
    w.U64(x.peakVram);
    w.U64(x.hostMemory);
    w.U64(x.pinnedMemory);
    w.U64(x.kvGrowth);
    w.U64(x.transferBytes);
    w.I64(x.executionDuration);
    w.U64(x.inputTokens);
    w.U64(x.outputTokens);
    w.I64(x.completedAt);
    w.U8(x.kind);
  }

  method DecodeObservation(r: ByteReader) returns (y: Option<Observation>)
    requires r.Valid()
    modifies r
    ensures r.Valid() && Decoded(r, Lift(old(r.failed), GetObservation(old(r.Rest()))), y)
  {
    hide GetU64, GetText, GetU8, GetI64;
    var id := r.U64();
    var admissionRequestId := r.U64();
    var tenantId := r.U64();
    var modelId := r.U64();
    var modelRevision := r.U64();
    var backend := r.Text();
    if backend.None? { return None; }
    var dtype := r.Text();
    if dtype.None? { return None; }
    var quantization := r.Text();
    if quantization.None? { return None; }
    var workloadType := r.U8();
    var peakVram := r.U64();
    var hostMemory := r.U64();
    var pinnedMemory := r.U64();
    var kvGrowth := r.U64();
    var transferBytes := r.U64();
    var executionDuration := r.I64();
    var inputTokens := r.U64();
    var outputTokens := r.U64();
    var completedAt := r.I64();
    var kind := r.U8();
    if r.failed { return None; }
    y := Some(Observation(id, admissionRequestId, tenantId, modelId, modelRevision, backend.value, dtype.value,
      quantization.value, workloadType, peakVram, hostMemory, pinnedMemory, kvGrowth, transferBytes,
      executionDuration, inputTokens, outputTokens, completedAt, kind));
  }

}
