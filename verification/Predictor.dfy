/** WorkloadPredictor of prediction.hpp: what observations teach it, and how far that can move a
    prediction. Rates and ratios are exact reals. */
module Predictor {
  import opened Words
  import opened Ordering
  import opened Resources
  import opened Records
  import opened Doubles
  import opened Profiles

  const MAX_SAMPLES: nat := 4096
  const COMPLETED: byte := 0

  datatype Learned = Learned(
    count: nat, lastDuration: int, lastOutputTokens: u64, lastPeak: u64, lastKv: u64, maxPeak: u64, ema: real)

  const BLANK: Learned := Learned(0, 0, 0, 0, 0, 0, 0.0)

  datatype Predictor = Predictor(profiles: Catalog, learned: map<bytes, Learned>, generation: u64)

  const START: Predictor := Predictor(map[], map[], 1)

  // ---------- Learning ----------

  predicate ValidObservation(o: Observation) {
    && o.id != 0 && o.modelId != 0 && o.backend != []
    && (o.kind == COMPLETED ==>
          && o.executionDuration >= 0
          && o.inputTokens <= 0x100_0000_0000 && o.outputTokens <= 0x100_0000_0000
          && o.peakVram <= 0x1_0000_0000_0000 && o.hostMemory <= 0x1_0000_0000_0000 &&
            o.pinnedMemory <= 0x1_0000_0000_0000)
  }

  function ObservedKey(p: Predictor, o: Observation): bytes {
    ResolveKey(p.profiles, Key(o.modelId, o.modelRevision, o.backend, o.dtype, o.quantization),
      Prefix(o.modelId, o.modelRevision))
  }

  function Clamp(lo: real, x: real, hi: real): real { if x < lo then lo else if x > hi then hi else x }

  /** The observed decode rate over the rate of the profile, kept between a fifth and five. */
  function Sample(profile: Profile, o: Observation): (s: real)
    requires o.executionDuration > 0
    ensures 0.2 <= s <= 5.0
  {
    var observed := o.outputTokens as real / (o.executionDuration as real / 1_000_000_000.0);
    var rate := Value(profile.decodeTokensPerSec);
    Clamp(0.2, if rate.Fin? && rate.r > 0.0 then observed / rate.r else 0.0, 5.0)
  }

  /** The observation teaches a decode rate for `key`. */
  predicate Teaches(p: Predictor, o: Observation, key: bytes) {
    && ValidObservation(o) && o.kind == COMPLETED && o.executionDuration > 0 && o.outputTokens > 0
    && key == ObservedKey(p, o) && key in p.profiles
  }

  function Blend(ema: real, s: real): real { if ema <= 0.0 then s else 0.6 * ema + 0.4 * s }

  function Observe(p: Predictor, o: Observation): Predictor {
    if !ValidObservation(o) then p
    else
      var key := ObservedKey(p, o);
      var before := if key in p.learned then p.learned[key] else BLANK;
      var counted := before.(count := if before.count >= MAX_SAMPLES then MAX_SAMPLES else before.count + 1);
      var st :=
        if o.kind != COMPLETED then counted
        else
          counted.(
            lastDuration := o.executionDuration, lastOutputTokens := o.outputTokens, lastPeak := o.peakVram,
            lastKv := o.kvGrowth, maxPeak := if before.maxPeak < o.peakVram then o.peakVram else before.maxPeak,
            ema := if Teaches(p, o, key) then Blend(before.ema, Sample(p.profiles[key], o)) else before.ema);
      p.(learned := p.learned[key := st])
  }

  /** Registers or replaces a profile, which gets the next generation; a full catalog refuses new keys. */
  function Register(p: Predictor, profile: Profile): (Predictor, bool) {
    var key := KeyOf(profile);
    if key !in p.profiles && |p.profiles| >= MAX_PROFILES then (p, false)
    else
      var g := Bump(p.generation);
      (p.(generation := g, profiles := p.profiles[key := profile.(generation := g)]), true)
  }

  datatype Op = OpObserve(o: Observation) | OpRegister(profile: Profile)

  function Apply(p: Predictor, op: Op): Predictor {
    match op
    case OpObserve(o) => Observe(p, o)
    case OpRegister(profile) => Register(p, profile).0
  }

  function Run(p: Predictor, ops: seq<Op>): Predictor
    decreases |ops|
  {
    if ops == [] then p else Run(Apply(p, ops[0]), ops[1..])
  }

  function Seen(p: Predictor, key: bytes): Learned { if key in p.learned then p.learned[key] else BLANK }

  // ---------- How much evidence ----------

  /** How many observations of a run are valid and resolve, when they arrive, to `key`. */
  function Hits(p: Predictor, ops: seq<Op>, key: bytes): nat
    decreases |ops|
  {
    if ops == [] then 0
    else
      (if ops[0].OpObserve? && ValidObservation(ops[0].o) && ObservedKey(p, ops[0].o) == key then 1 else 0)
      + Hits(Apply(p, ops[0]), ops[1..], key)
  }

  function AtMost(n: nat, most: nat): nat { if n > most then most else n }

  /** In every run the evidence for a key is the number of valid observations of it, up to 4096. */
  lemma {:induction false} EvidenceCounts(p: Predictor, ops: seq<Op>, key: bytes)
    requires Seen(p, key).count <= MAX_SAMPLES
    ensures Seen(Run(p, ops), key).count == AtMost(Seen(p, key).count + Hits(p, ops, key), MAX_SAMPLES)
    decreases |ops|
  {
    hide ValidObservation, ObservedKey, Teaches;
    if ops != [] { EvidenceCounts(Apply(p, ops[0]), ops[1..], key); }
  }

  // ---------- How far the rate can drift ----------

  /** Every sample that the run takes for `key` is between `lo` and `hi`. */
  ghost predicate SamplesWithin(p: Predictor, ops: seq<Op>, key: bytes, lo: real, hi: real)
    decreases |ops|
  {
    ops != [] ==>
      && (ops[0].OpObserve? && Teaches(p, ops[0].o, key) ==> lo <= Sample(p.profiles[key], ops[0].o) <= hi)
      && SamplesWithin(Apply(p, ops[0]), ops[1..], key, lo, hi)
  }

  predicate UnsetOrWithin(ema: real, lo: real, hi: real) { ema == 0.0 || lo <= ema <= hi }

  lemma BlendWithin(ema: real, s: real, lo: real, hi: real)
    requires 0.0 < lo && UnsetOrWithin(ema, lo, hi) && lo <= s <= hi
    ensures UnsetOrWithin(Blend(ema, s), lo, hi)
  {
  }

  lemma ObserveWithin(p: Predictor, o: Observation, key: bytes, lo: real, hi: real)
    requires 0.0 < lo && UnsetOrWithin(Seen(p, key).ema, lo, hi)
    requires Teaches(p, o, key) ==> lo <= Sample(p.profiles[key], o) <= hi
    ensures UnsetOrWithin(Seen(Observe(p, o), key).ema, lo, hi)
  {
    hide ValidObservation, ObservedKey, Sample, Blend;
    if Teaches(p, o, key) { BlendWithin(Seen(p, key).ema, Sample(p.profiles[key], o), lo, hi); }
  }

  /** The moving average never leaves the range of the samples it was made of. */
  lemma {:induction false} AverageWithin(p: Predictor, ops: seq<Op>, key: bytes, lo: real, hi: real)
    requires 0.0 < lo && UnsetOrWithin(Seen(p, key).ema, lo, hi) && SamplesWithin(p, ops, key, lo, hi)
    ensures UnsetOrWithin(Seen(Run(p, ops), key).ema, lo, hi)
    decreases |ops|
  {
    hide Teaches, Sample, Observe, UnsetOrWithin, Register;
    if ops != [] {
      if ops[0].OpObserve? {
        ObserveWithin(p, ops[0].o, key, lo, hi);
      } else {
        RegisterKeepsLearned(p, ops[0].profile);
      }
      AverageWithin(Apply(p, ops[0]), ops[1..], key, lo, hi);
    }
  }

  lemma RegisterKeepsLearned(p: Predictor, profile: Profile)
    ensures Register(p, profile).0.learned == p.learned
  {
  }

  lemma {:induction false} SamplesClamped(p: Predictor, ops: seq<Op>, key: bytes)
    ensures SamplesWithin(p, ops, key, 0.2, 5.0)
    decreases |ops|
  {
    hide ObservedKey, Apply;
    if ops != [] { SamplesClamped(Apply(p, ops[0]), ops[1..], key); }
  }

  function EffectiveRate(p: Predictor, key: bytes, rate: real): real {
    var ema := Seen(p, key).ema;
    if ema <= 0.0 then rate else if rate > 0.0 then rate * ema else ema
  }

  /** After any history of observations and registrations, the rate that a duration is computed from is
      between a fifth of the profile's rate and five times that rate. */
  lemma EffectiveRateBounded(ops: seq<Op>, key: bytes, rate: real)
    requires rate > 0.0
    ensures 0.2 * rate <= EffectiveRate(Run(START, ops), key, rate) <= 5.0 * rate
  {
    hide SamplesWithin, Run;
    SamplesClamped(START, ops, key);
    AverageWithin(START, ops, key, 0.2, 5.0);
    var ema := Seen(Run(START, ops), key).ema;
    if ema > 0.0 { TimesBetween(rate, ema); }
  }

  lemma TimesBetween(rate: real, ema: real)
    requires rate > 0.0 && 0.2 <= ema <= 5.0
    ensures 0.2 * rate <= rate * ema <= 5.0 * rate
  {
    assert rate * (ema - 0.2) >= 0.0 && rate * (5.0 - ema) >= 0.0;
  }

  // ---------- The catalog ----------

  predicate Cataloged(p: Predictor) { WellKeyed(p.profiles) && |p.profiles| <= MAX_PROFILES }

  lemma RegisterKeeps(p: Predictor, profile: Profile)
    requires Cataloged(p)
    ensures Cataloged(Register(p, profile).0)
  {
    hide Key;
  }

  /** Over every run, at most 256 profiles are held, each under its own key. */
  lemma {:induction false} RunCataloged(p: Predictor, ops: seq<Op>)
    requires Cataloged(p)
    ensures Cataloged(Run(p, ops))
    decreases |ops|
  {
    hide Register, Observe, Cataloged;
    if ops != [] {
      if ops[0].OpRegister? { RegisterKeeps(p, ops[0].profile); } else { ObserveKeepsProfiles(p, ops[0].o); }
      RunCataloged(Apply(p, ops[0]), ops[1..]);
    }
  }

  lemma ObserveKeepsProfiles(p: Predictor, o: Observation)
    ensures Observe(p, o).profiles == p.profiles
    ensures Cataloged(p) ==> Cataloged(Observe(p, o))
  {
    hide ValidObservation, ObservedKey, Teaches;
  }

  // ---------- Footprints ----------

  datatype Footprint = Footprint(
    fixed: u64, request: u64, kv: u64, tensor: u64, workspace: u64, staging: u64, pinned: u64,
    safety: u64, fragmentation: u64)

  function Wrap(n: nat): u64 { n % 0x1_0000_0000_0000_0000 }

  /** The sum that `base` means to compute. */
  function TrueBase(f: Footprint): nat { f.fixed + f.request + f.kv + f.tensor + f.workspace + f.staging }

  function Base(f: Footprint): u64 {
    Wrap(Wrap(Wrap(Wrap(Wrap(f.fixed + f.request) + f.kv) + f.tensor) + f.workspace) + f.staging)
  }

  function TruePeak(f: Footprint): nat { TrueBase(f) + f.safety + f.fragmentation }

  function Peak(f: Footprint): u64 { Wrap(Wrap(Base(f) + f.safety) + f.fragmentation) }

  function Sustained(f: Footprint): u64 { Wrap(Wrap(f.fixed + f.tensor) + f.staging) }

  lemma WrapSum(a: nat, b: nat)
    ensures Wrap(Wrap(a) + b) == Wrap(a + b)
  {
  }

  /** The sums are right exactly as long as the true sum fits a word; otherwise they fall short. */
  lemma WrapsExactly(f: Footprint)
    ensures Base(f) == TrueBase(f) <==> TrueBase(f) <= U64_MAX
    ensures Base(f) < TrueBase(f) <==> TrueBase(f) > U64_MAX
    ensures Peak(f) == TruePeak(f) <==> TruePeak(f) <= U64_MAX
    ensures Peak(f) < TruePeak(f) <==> TruePeak(f) > U64_MAX
  {
    hide Wrap;
    var a := f.fixed + f.request;
    WrapSum(a, f.kv);
    WrapSum(a + f.kv, f.tensor);
    WrapSum(a + f.kv + f.tensor, f.workspace);
    WrapSum(a + f.kv + f.tensor + f.workspace, f.staging);
    WrapSum(TrueBase(f), f.safety);
    WrapSum(TrueBase(f) + f.safety, f.fragmentation);
    WrapMeans(TrueBase(f));
    WrapMeans(TruePeak(f));
  }

  lemma WrapMeans(n: nat)
    ensures Wrap(n) == n <==> n <= U64_MAX
    ensures Wrap(n) < n <==> n > U64_MAX
  {
  }

  function MultiplyChecked(a: u64, b: u64): u64 {
    if a != 0 && b > U64_MAX / a then U64_MAX else Product(a, b)
  }

  function Product(a: u64, b: u64): (n: u64)
    requires a == 0 || b <= U64_MAX / a
    ensures n == a * b
  {
    ProductFits(a, b, U64_MAX);
    a * b
  }

  lemma ProductFits(a: nat, b: nat, most: nat)
    requires a == 0 || b <= most / a
    ensures 0 <= a * b <= most
  {
    if a != 0 {
      MulMonotone(a, b, most / a);
      assert a * (most / a) + most % a == most;
    }
  }

  lemma QuotientExceeded(a: nat, b: nat, most: nat)
    requires a != 0 && b > most / a
    ensures a * b > most
  {
    MulMonotone(a, most / a + 1, b);
    assert a * (most / a) + most % a == most;
    assert a * (most / a + 1) == a * (most / a) + a;
  }

  /** The checked product saturates: it is the true product, cut off at the largest word. */
  lemma MultiplySaturates(a: u64, b: u64)
    ensures MultiplyChecked(a, b) == if a * b <= U64_MAX then a * b else U64_MAX
  {
    if a != 0 && b > U64_MAX / a { QuotientExceeded(a, b, U64_MAX); } else { ProductFits(a, b, U64_MAX); }
  }

  /** The thousandths of a ratio, which the cast to a word keeps. */
  predicate Castable(ratio: real) { ratio * 1000.0 < 18446744073709551616.0 }

  function Thousandths(ratio: real): u64
    requires ratio > 0.0 && Castable(ratio)
  {
    (ratio * 1000.0).Floor
  }

  function RatOf(base: u64, ratio: real): u64
    requires Castable(ratio)
  {
    if base == 0 || ratio <= 0.0 then 0
    else if Thousandths(ratio) > U64_MAX / base then U64_MAX
    else Product(base, Thousandths(ratio)) / 1000
  }

  lemma RatOfMeans(base: u64, ratio: real)
    requires Castable(ratio) && ratio > 0.0
    ensures RatOf(base, ratio) ==
              if base * Thousandths(ratio) <= U64_MAX then base * Thousandths(ratio) / 1000 else U64_MAX
  {
    hide Thousandths;
    var n := Thousandths(ratio);
    if base != 0 {
      if n > U64_MAX / base { QuotientExceeded(base, n, U64_MAX); } else { ProductFits(base, n, U64_MAX); }
    }
  }

  // ---------- The learned adjustment ----------

  function Factor(st: Learned, before: u64): (c: real)
    requires before > 0
    ensures 0.8 <= c <= 2.0
  {
    Clamp(0.8, st.lastPeak as real / before as real, 2.0)
  }

  function Rescaled(f: Footprint, c: real): Footprint
    requires 0.8 <= c <= 2.0
  {
    var g := f.(kv := RatOf(f.kv, c), tensor := RatOf(f.tensor, c), staging := RatOf(f.staging, c));
    g.(safety := RatOf(Base(g), 0.1), fragmentation := RatOf(Base(g), 0.05))
  }

  function Adjusted(p: Predictor, key: bytes, f: Footprint): Footprint {
    var st := Seen(p, key);
    if st.count == 0 || st.lastPeak == 0 || Peak(f) == 0 then f
    else Rescaled(f, Factor(st, Peak(f)))
  }

  lemma ThousandthsBetween(c: real)
    requires 0.8 <= c <= 2.0
    ensures Castable(c) && 800 <= Thousandths(c) <= 2000
  {
  }

  /** A rescaled component never falls below four fifths; and it stays within the double exactly if the
      product by thousandths fits a word, or the component is so large that saturation is harmless. */
  lemma RescaledComponent(x: u64, c: real)
    requires 0.8 <= c <= 2.0
    ensures Castable(c) && 800 * x / 1000 <= RatOf(x, c)
    ensures RatOf(x, c) <= 2 * x <==> x * Thousandths(c) <= U64_MAX || x >= 0x8000_0000_0000_0000
  {
    ThousandthsBetween(c);
    hide Thousandths, RatOf;
    var n := Thousandths(c);
    RatOfMeans(x, c);
    MulMonotone(x, 800, n);
    MulMonotone(x, n, 2000);
  }

  lemma PercentOf(base: u64)
    requires 100 * base <= U64_MAX
    ensures RatOf(base, 0.1) == base / 10 && RatOf(base, 0.05) == base / 20
  {
    assert Thousandths(0.1) == 100 && Thousandths(0.05) == 50;
    hide RatOf;
    RatOfMeans(base, 0.1);
    RatOfMeans(base, 0.05);
  }

  /** The guards of the saturating branches: no product by thousandths leaves a word, neither that of a
      variable part nor that of the rescaled base by the ten percent of the margin. */
  predicate Unsaturated(f: Footprint, c: real)
    requires 0.8 <= c <= 2.0
  {
    ThousandthsBetween(c);
    var n := Thousandths(c);
    && f.kv * n <= U64_MAX && f.tensor * n <= U64_MAX && f.staging * n <= U64_MAX
    && 100 * (f.fixed + f.request + f.kv * n / 1000 + f.tensor * n / 1000 + f.workspace + f.staging * n / 1000) <=
      U64_MAX
  }

  lemma UnsaturatedParts(f: Footprint, c: real)
    requires 0.8 <= c <= 2.0 && Unsaturated(f, c)
    ensures Castable(c)
    ensures 800 * f.kv / 1000 <= RatOf(f.kv, c) <= 2 * f.kv
    ensures 800 * f.tensor / 1000 <= RatOf(f.tensor, c) <= 2 * f.tensor
    ensures 800 * f.staging / 1000 <= RatOf(f.staging, c) <= 2 * f.staging
    ensures 100 * (f.fixed + f.request + RatOf(f.kv, c) + RatOf(f.tensor, c) + f.workspace + RatOf(f.staging, c)) <=
            U64_MAX
  {
    ThousandthsBetween(c);
    hide RatOf, Thousandths;
    RescaledComponent(f.kv, c);
    RescaledComponent(f.tensor, c);
    RescaledComponent(f.staging, c);
    RatOfMeans(f.kv, c);
    RatOfMeans(f.tensor, c);
    RatOfMeans(f.staging, c);
  }

  /** What an adjustment without saturation makes of a footprint: the fixed parts stay, each variable part
      moves by a factor between four fifths and two, and the peak, which no sum wraps, is at most 2.3
      times the unadjusted base. */
  predicate Bounded(f: Footprint, g: Footprint) {
    && g.fixed == f.fixed && g.request == f.request && g.workspace == f.workspace && g.pinned == f.pinned
    && 800 * f.kv / 1000 <= g.kv <= 2 * f.kv
    && 800 * f.tensor / 1000 <= g.tensor <= 2 * f.tensor
    && 800 * f.staging / 1000 <= g.staging <= 2 * f.staging
    && Peak(g) == TruePeak(g) && 10 * TruePeak(g) <= 23 * TrueBase(f)
  }

  lemma RescaledBounded(f: Footprint, c: real)
    requires 0.8 <= c <= 2.0 && Unsaturated(f, c)
    ensures Bounded(f, Rescaled(f, c))
  {
    hide RatOf, Base, Peak, Unsaturated;
    UnsaturatedParts(f, c);
    var g := f.(kv := RatOf(f.kv, c), tensor := RatOf(f.tensor, c), staging := RatOf(f.staging, c));
    WrapsExactly(g);
    PercentOf(Base(g));
    var h := Rescaled(f, c);
    assert TrueBase(h) == TrueBase(g) == Base(g);
    WrapsExactly(h);
  }

  /** After every history of observations and registrations, the adjustment for a key leaves a footprint
      alone or, unless one of its products saturates, keeps it within these bounds. */
  lemma AdjustmentBounded(ops: seq<Op>, key: bytes, f: Footprint)
    ensures var st := Seen(Run(START, ops), key); var g := Adjusted(Run(START, ops), key, f);
            if st.count == 0 || st.lastPeak == 0 || Peak(f) == 0 then g == f
            else Unsaturated(f, Factor(st, Peak(f))) ==> Bounded(f, g)
  {
    hide Unsaturated, Bounded, Factor, Rescaled, Run, Peak;
    var st := Seen(Run(START, ops), key);
    if !(st.count == 0 || st.lastPeak == 0 || Peak(f) == 0) {
      var c := Factor(st, Peak(f));
      if Unsaturated(f, c) { RescaledBounded(f, c); }
    }
  }

  // ---------- The prediction ----------

  /** The numbers a descriptor must keep to for its tokens to be added. */
  predicate TokensBounded(d: Descriptor) {
    d.inputTokens <= 0x100_0000_0000 && d.expectedOutputTokens <= 0x100_0000_0000 &&
      d.maxOutputTokens <= 0x100_0000_0000
  }

  function LongestOutput(d: Descriptor): u64 {
    if d.maxOutputTokens != 0 then d.maxOutputTokens else d.expectedOutputTokens
  }

  predicate CastableRatio(b: double) { Value(b).Fin? && Castable(Value(b).r) }

  predicate Sensible(profile: Profile) {
    CastableRatio(profile.safetyMarginRatio) && CastableRatio(profile.fragmentationRatio)
  }

  function WithMargins(f: Footprint, safety: real, fragmentation: real): Footprint
    requires Castable(safety) && Castable(fragmentation)
  {
    f.(safety := RatOf(Base(f), safety), fragmentation := RatOf(Base(f), fragmentation))
  }

  /** The footprint that a profile predicts, before any adjustment. */
  function FromProfile(profile: Profile, d: Descriptor): Footprint
    requires Sensible(profile) && TokensBounded(d)
  {
    WithMargins(
      Footprint(
        profile.fixedBaseMemory, profile.perRequestOverhead,
        MultiplyChecked(profile.perTokenKvBytes, d.inputTokens + d.expectedOutputTokens),
        MultiplyChecked(profile.perTokenTensorBytes, d.inputTokens + LongestOutput(d)),
        profile.workspaceBytes, profile.stagingBytes, profile.pinnedStagingBytes, 0, 0),
      Value(profile.safetyMarginRatio).r, Value(profile.fragmentationRatio).r)
  }

  const MIB: u64 := 1_048_576

  /** The generic footprint when no profile is known. */
  function Generic(d: Descriptor): Footprint
    requires TokensBounded(d)
  {
    var tokens := if d.inputTokens + LongestOutput(d) == 0 then 1 else d.inputTokens + LongestOutput(d);
    var f := Footprint(256 * MIB, 0, MultiplyChecked(8, tokens), MultiplyChecked(8, tokens), 0, 64 * MIB, 0, 0, 0);
    WithMargins(f, 0.15, 0.08)
  }

  /** The profile that a prediction is made from; one without a backend does not count. */
  function Chosen(p: Predictor, d: Descriptor): Option<Profile> {
    var found := ProfileFor(p.profiles, d);
    if found.Some? && found.value.backend != [] then found else None
  }

  predicate Profiled(p: Predictor, d: Descriptor) { Chosen(p, d).Some? }

  /** The tokens can be added, and the ratios of the profile be cast. */
  predicate Predictable(p: Predictor, d: Descriptor) {
    TokensBounded(d) && (Profiled(p, d) ==> Sensible(Chosen(p, d).value))
  }

  function PredictFootprint(p: Predictor, d: Descriptor): Footprint
    requires Predictable(p, d)
  {
    if Profiled(p, d) then
      var key := ResolveKey(p.profiles, KeyFor(d), Prefix(d.modelId, d.modelRevision));
      Adjusted(p, key, FromProfile(Chosen(p, d).value, d))
    else Generic(d)
  }

  /** The demand vector of a footprint, with the slots and the host memory of the profile. */
  function DemandOf(f: Footprint, chosen: Option<Profile>): (v: Vec)
    ensures v[ACCELERATOR_MEMORY] == Peak(f) && v[KV_CAPACITY] == f.kv && v[TENSOR_STATE] == f.tensor
    ensures chosen.None? ==> v[EXECUTION_SLOTS] == 1
  {
    var v := ZERO[ACCELERATOR_MEMORY := Peak(f)][PINNED_HOST_MEMORY := f.pinned]
                 [KV_CAPACITY := f.kv][TENSOR_STATE := f.tensor];
    if chosen.None? then v[HOST_MEMORY := Sustained(f)][EXECUTION_SLOTS := 1][SEQUENCE_SLOTS := 1]
    else
      var profile := chosen.value;
      var host := if Sustained(f) < profile.hostMemoryBytes then profile.hostMemoryBytes else Sustained(f);
      v[HOST_MEMORY := host][PERSISTENT_CACHE := profile.transferBytesPerSequence]
       [EXECUTION_SLOTS := profile.executionSlotsRequired][SEQUENCE_SLOTS := profile.sequenceSlotsRequired]
  }

  /** The demand vector that an evaluation works with. */
  function PredictDemand(p: Predictor, d: Descriptor): Vec
    requires Predictable(p, d)
  {
    DemandOf(PredictFootprint(p, d), Chosen(p, d))
  }

  /** Unless its sums wrap, the accelerator memory that is asked for covers the cache growth, the tensor
      state and what is needed throughout. */
  lemma DemandCoversParts(p: Predictor, d: Descriptor)
    requires Predictable(p, d) && TruePeak(PredictFootprint(p, d)) <= U64_MAX
    ensures var v := PredictDemand(p, d);
            v[ACCELERATOR_MEMORY] >= v[KV_CAPACITY] as nat + v[TENSOR_STATE] &&
            v[ACCELERATOR_MEMORY] >= Sustained(PredictFootprint(p, d))
  {
    hide Predictable, PredictFootprint, Base, Peak, Chosen, DemandOf;
    WrapsExactly(PredictFootprint(p, d));
  }

  /** What the generic estimate is made of, before its margins: 320 MiB and 16 bytes a token. */
  function GenericBase(d: Descriptor): nat
    requires TokensBounded(d)
  {
    320 * MIB + 16 * (if d.inputTokens + LongestOutput(d) == 0 then 1 else d.inputTokens + LongestOutput(d))
  }

  /** On a cold start nothing saturates and nothing wraps: the peak is the base, fifteen and eight
      percent of it, and never nothing. */
  lemma ColdStartDemand(p: Predictor, d: Descriptor)
    requires TokensBounded(d) && !Profiled(p, d)
    ensures var base := GenericBase(d); var v := PredictDemand(p, d);
            v[ACCELERATOR_MEMORY] == base + 150 * base / 1000 + 80 * base / 1000 && !IsZero(v)
  {
    hide MultiplyChecked, RatOf, Base, Peak, Chosen, DemandOf;
    var tokens := if d.inputTokens + LongestOutput(d) == 0 then 1 else d.inputTokens + LongestOutput(d);
    MultiplySaturates(8, tokens);
    var f := PredictFootprint(p, d);
    var bare := f.(safety := 0, fragmentation := 0);
    assert TrueBase(bare) == GenericBase(d);
    WrapsExactly(bare);
    GenericMargins(Base(bare));
    WrapsExactly(f);
    assert PredictDemand(p, d)[EXECUTION_SLOTS] == 1;
  }

  lemma GenericMargins(base: u64)
    requires base <= 0x4000_0000_0000
    ensures RatOf(base, 0.15) == 150 * base / 1000 && RatOf(base, 0.08) == 80 * base / 1000
  {
    assert Thousandths(0.15) == 150 && Thousandths(0.08) == 80;
    hide RatOf;
    RatOfMeans(base, 0.15);
    RatOfMeans(base, 0.08);
  }

  /** `e` asks for at least as many tokens as `d`, and is otherwise served by the same profile. */
  predicate Longer(d: Descriptor, e: Descriptor) {
    && d.inputTokens + d.expectedOutputTokens <= e.inputTokens + e.expectedOutputTokens
    && d.inputTokens + LongestOutput(d) <= e.inputTokens + LongestOutput(e)
  }

  lemma MultiplyMonotone(a: u64, x: u64, y: u64)
    requires x <= y
    ensures MultiplyChecked(a, x) <= MultiplyChecked(a, y)
  {
    hide MultiplyChecked;
    MultiplySaturates(a, x);
    MultiplySaturates(a, y);
    MulMonotone(a, x, y);
  }

  lemma RatOfMonotone(x: u64, y: u64, ratio: real)
    requires Castable(ratio) && x <= y
    ensures RatOf(x, ratio) <= RatOf(y, ratio)
  {
    if ratio > 0.0 {
      RatOfMeans(x, ratio);
      RatOfMeans(y, ratio);
      hide Thousandths, RatOf;
      MulMonotone(Thousandths(ratio), x, y);
      DividedMonotone(x * Thousandths(ratio), y * Thousandths(ratio));
    }
  }

  lemma DividedMonotone(a: nat, b: nat)
    requires a <= b
    ensures a / 1000 <= b / 1000
    ensures b <= U64_MAX ==> b / 1000 <= U64_MAX
  {
  }

  /** A longer request is never predicted to need less, unless the sums of the longer one wrap. */
  lemma LongerNeedsMore(profile: Profile, d: Descriptor, e: Descriptor)
    requires Sensible(profile) && TokensBounded(d) && TokensBounded(e) && Longer(d, e)
    requires TruePeak(FromProfile(profile, e)) <= U64_MAX
    ensures Peak(FromProfile(profile, d)) <= Peak(FromProfile(profile, e))
  {
    hide MultiplyChecked, RatOf, Base, Peak, Castable;
    var f, g := FromProfile(profile, d), FromProfile(profile, e);
    MultiplyMonotone(profile.perTokenKvBytes, d.inputTokens + d.expectedOutputTokens,
      e.inputTokens + e.expectedOutputTokens);
    MultiplyMonotone(profile.perTokenTensorBytes, d.inputTokens + LongestOutput(d), e.inputTokens + LongestOutput(e));
    var bare, bareLonger := f.(safety := 0, fragmentation := 0), g.(safety := 0, fragmentation := 0);
    WrapsExactly(bare);
    WrapsExactly(bareLonger);
    RatOfMonotone(Base(bare), Base(bareLonger), Value(profile.safetyMarginRatio).r);
    RatOfMonotone(Base(bare), Base(bareLonger), Value(profile.fragmentationRatio).r);
    WrapsExactly(f);
    WrapsExactly(g);
  }

  const HALF: u64 := 0x8000_0000_0000_0000

  /** A profile of half the address space a token, and one byte. */
  const WRAPPING: Profile := DEFAULT_PROFILE.(
    modelId := 1, revision := 1, backend := [99], fixedBaseMemory := 1, perTokenKvBytes := HALF,
    safetyMarginRatio := 0, fragmentationRatio := 0)

  lemma ZeroRatio()
    ensures Value(0) == Fin(0.0)
  {
  }

  function Wrapping(tokens: nat): Footprint { Footprint(1, 0, if tokens == 1 then HALF else U64_MAX, 0, 0, 0, 0, 0, 0) }

  lemma WrappedFootprint(profile: Profile, d: Descriptor)
    requires profile == WRAPPING.(generation := profile.generation)
    requires 1 <= d.inputTokens <= 2 && d.expectedOutputTokens == 0 && d.maxOutputTokens == 0
    ensures Sensible(profile) && TokensBounded(d) && FromProfile(profile, d) == Wrapping(d.inputTokens)
  {
    hide MultiplyChecked, RatOf, Value, Base, Castable;
    ZeroRatio();
    MultiplySaturates(HALF, d.inputTokens);
    MultiplySaturates(0, d.inputTokens);
    NoMargin(Base(Wrapping(d.inputTokens)));
  }

  lemma WrappingPeaks()
    ensures Peak(Wrapping(1)) == HALF + 1 && Peak(Wrapping(2)) == 0
  {
    hide Peak;
    WrapsExactly(Wrapping(1));
    WrapsToNothing();
  }

  lemma WrapsToNothing()
    ensures Peak(Footprint(1, 0, U64_MAX, 0, 0, 0, 0, 0, 0)) == 0
  {
  }

  lemma NoMargin(base: u64)
    ensures Castable(0.0) && RatOf(base, 0.0) == 0
  {
  }

  // ---------- As it runs ----------

  class WorkloadPredictor {
    var profiles: Catalog
    var seen: map<bytes, bool>
    var learned: map<bytes, Learned>
    var generation: u64

    /** `seen` marks the registered keys; a refused registration leaves an unset mark behind. */
    ghost predicate Valid()
      reads this
    {
      forall k :: (k in seen && seen[k]) <==> k in profiles
    }

    function State(): Predictor
      reads this
    {
      Predictor(profiles, learned, generation)
    }

    constructor ()
      ensures Valid() && State() == START
    {
      profiles, seen, learned, generation := map[], map[], map[], 1;
    }

    method NextGeneration() returns (g: u64)
      modifies `generation
      ensures generation == g == Bump(old(generation))
    {
      generation := if generation == U64_MAX then 1 else generation + 1;
      g := generation;
    }

    method RegisterProfile(profile: Profile) returns (ok: bool)
      requires Valid()
      modifies this
      ensures Valid() && (State(), ok) == Register(old(State()), profile)
    {
      hide Key;
      var key := KeyOf(profile);
      if key !in seen { seen := seen[key := false]; }
      if !seen[key] {
        if |profiles| >= MAX_PROFILES { return false; }
        seen := seen[key := true];
      }
      profiles := profiles[key := profile];
      var g := NextGeneration();
      profiles := profiles[key := profiles[key].(generation := g)];
      ok := true;
      assert profiles == old(profiles)[key := profile.(generation := g)];
    }

    method ObserveCompletion(o: Observation)
      requires Valid()
      modifies `learned
      ensures Valid() && State() == Observe(old(State()), o)
    {
      hide ValidObservation, ResolveKey, Key, Prefix, Value;
      if !ValidObservation(o) { return; }
      var key := ResolveKey(profiles, Key(o.modelId, o.modelRevision, o.backend, o.dtype, o.quantization),
                            Prefix(o.modelId, o.modelRevision));
      var st := if key in learned then learned[key] else BLANK;
      st := st.(count := if st.count >= MAX_SAMPLES then MAX_SAMPLES else st.count + 1);
      if o.kind != COMPLETED {
        learned := learned[key := st];
        return;
      }
      st := st.(lastDuration := o.executionDuration, lastOutputTokens := o.outputTokens, lastPeak := o.peakVram,
                lastKv := o.kvGrowth, maxPeak := if st.maxPeak < o.peakVram then o.peakVram else st.maxPeak);
      if o.executionDuration > 0 && o.outputTokens > 0 && key in profiles {
        st := st.(ema := Blend(st.ema, Sample(profiles[key], o)));
      }
      learned := learned[key := st];
    }

    /** Rewrites a footprint by what was learned for `key`. */
    method ApplyLearnedAdjustment(key: bytes, f: Footprint) returns (g: Footprint)
      ensures g == Adjusted(State(), key, f)
    {
      hide RatOf, Base, Peak, Clamp;
      g := f;
      if key !in learned { return; }
      var st := learned[key];
      if st.count == 0 || st.lastPeak == 0 { return; }
      var before := Peak(g);
      if before == 0 { return; }
      var c := Factor(st, before);
      ThousandthsBetween(c);
      g := g.(kv := RatOf(g.kv, c));
      g := g.(tensor := RatOf(g.tensor, c));
      g := g.(staging := RatOf(g.staging, c));
      var unmargined := g;
      g := g.(safety := RatOf(Base(g), 0.1));
      assert Base(g) == Base(unmargined) by { BaseIgnoresMargins(g, unmargined); }
      g := g.(fragmentation := RatOf(Base(g), 0.05));
    }
  }

  lemma BaseIgnoresMargins(f: Footprint, g: Footprint)
    requires f == g.(safety := f.safety, fragmentation := f.fragmentation)
    ensures Base(f) == Base(g)
  {
    hide Wrap;
  }
}
