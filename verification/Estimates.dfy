/** What the predictor learns and predicts, in plain arithmetic. */
module Estimates {
  import opened Words
  import opened Resources
  import opened Records
  import opened Doubles
  import opened Texts
  import opened Profiles
  import opened Predictor

  // ---------- Sums and portions ----------

  lemma WrapExactly(n: nat)
    ensures Wrap(n) == n % 0x1_0000_0000_0000_0000
  {
  }

  /** Sums over a footprint are taken modulo two to the 64. */
  lemma SumsExactly(f: Footprint)
    ensures Base(f) == (f.fixed + f.request + f.kv + f.tensor + f.workspace + f.staging) % 0x1_0000_0000_0000_0000
    ensures Peak(f) == (f.fixed + f.request + f.kv + f.tensor + f.workspace + f.staging + f.safety + f.fragmentation)
                       % 0x1_0000_0000_0000_0000
    ensures Sustained(f) == (f.fixed + f.tensor + f.staging) % 0x1_0000_0000_0000_0000
  {
    hide Wrap;
    WrapExactly(TrueBase(f));
    WrapExactly(TruePeak(f));
    WrapExactly(f.fixed + f.tensor + f.staging);
    var a := f.fixed + f.request;
    WrapSum(a, f.kv);
    WrapSum(a + f.kv, f.tensor);
    WrapSum(a + f.kv + f.tensor, f.workspace);
    WrapSum(a + f.kv + f.tensor + f.workspace, f.staging);
    WrapSum(TrueBase(f), f.safety);
    WrapSum(TrueBase(f) + f.safety, f.fragmentation);
    WrapSum(f.fixed + f.tensor, f.staging);
  }

  /** `x` is the portion of `base` that the ratio, cut to thousandths, stands for, rounded down; the largest
      word if the product by thousandths exceeds it. */
  ghost predicate IsPortion(x: nat, base: u64, ratio: real) {
    if base == 0 || ratio <= 0.0 then x == 0
    else
      exists n: nat ::
        && n as real <= 1000.0 * ratio < n as real + 1.0
        && (if base * n <= U64_MAX then 1000 * x <= base * n < 1000 * x + 1000 else x == U64_MAX)
  }

  lemma PortionExactly(base: u64, ratio: real)
    requires Castable(ratio)
    ensures IsPortion(RatOf(base, ratio), base, ratio)
  {
    if base != 0 && ratio > 0.0 {
      RatOfMeans(base, ratio);
      var n := Thousandths(ratio);
      assert n as real <= 1000.0 * ratio < n as real + 1.0;
      hide RatOf, Thousandths;
      Divided(base * n);
    }
  }

  lemma Divided(n: nat)
    ensures 1000 * (n / 1000) <= n < 1000 * (n / 1000) + 1000
  {
  }

  // ---------- The unadjusted footprint ----------

  /** A product, cut off at the largest word. */
  predicate IsProduct(x: nat, a: nat, b: nat) { x == if a * b <= U64_MAX then a * b else U64_MAX }

  /** A margin is a portion of the sum of the parts. */
  ghost predicate HasMargins(f: Footprint, safety: real, fragmentation: real) {
    var base := (f.fixed + f.request + f.kv + f.tensor + f.workspace + f.staging) % 0x1_0000_0000_0000_0000;
    IsPortion(f.safety, base, safety) && IsPortion(f.fragmentation, base, fragmentation)
  }

  lemma MarginsAdded(f: Footprint, safety: real, fragmentation: real)
    requires Castable(safety) && Castable(fragmentation)
    ensures HasMargins(WithMargins(f, safety, fragmentation), safety, fragmentation)
    ensures var g := WithMargins(f, safety, fragmentation);
            g == f.(safety := g.safety, fragmentation := g.fragmentation)
  {
    hide Base, RatOf, IsPortion, Castable;
    SumsExactly(f);
    PortionExactly(Base(f), safety);
    PortionExactly(Base(f), fragmentation);
  }

  /** What a profile predicts: its fixed parts; its bytes a token for the cache, over the input and the
      expected output; its bytes a token for the tensor state, over the input and the longest output, which is
      the maximum if there is one; and its two margins. */
  lemma ProfileFootprint(profile: Profile, d: Descriptor)
    requires Sensible(profile) && TokensBounded(d)
    ensures var f := FromProfile(profile, d);
            var longest := if d.maxOutputTokens > 0 then d.maxOutputTokens else d.expectedOutputTokens;
            && f.fixed == profile.fixedBaseMemory && f.request == profile.perRequestOverhead
            && IsProduct(f.kv, profile.perTokenKvBytes, d.inputTokens + d.expectedOutputTokens)
            && IsProduct(f.tensor, profile.perTokenTensorBytes, d.inputTokens + longest)
            && f.workspace == profile.workspaceBytes && f.staging == profile.stagingBytes
            && f.pinned == profile.pinnedStagingBytes
            && HasMargins(f, Value(profile.safetyMarginRatio).r, Value(profile.fragmentationRatio).r)
  {
    hide MultiplyChecked, Base, RatOf, HasMargins, Castable, Value, WithMargins;
    MultiplySaturates(profile.perTokenKvBytes, d.inputTokens + d.expectedOutputTokens);
    MultiplySaturates(profile.perTokenTensorBytes, d.inputTokens + LongestOutput(d));
    var bare := Footprint(
      profile.fixedBaseMemory, profile.perRequestOverhead,
      MultiplyChecked(profile.perTokenKvBytes, d.inputTokens + d.expectedOutputTokens),
      MultiplyChecked(profile.perTokenTensorBytes, d.inputTokens + LongestOutput(d)),
      profile.workspaceBytes, profile.stagingBytes, profile.pinnedStagingBytes, 0, 0);
    MarginsAdded(bare, Value(profile.safetyMarginRatio).r, Value(profile.fragmentationRatio).r);
  }

  /** Without a profile: 256 MiB, 64 MiB of staging, and eight bytes of cache and eight of tensor state a token,
      at least one token; fifteen and eight percent of that in margins. */
  lemma GenericFootprint(d: Descriptor)
    requires TokensBounded(d)
    ensures var f := Generic(d);
            var longest := if d.maxOutputTokens > 0 then d.maxOutputTokens else d.expectedOutputTokens;
            var tokens := if d.inputTokens + longest > 0 then d.inputTokens + longest else 1;
            var base := 335_544_320 + 16 * tokens;
            && f.fixed == 268_435_456 && f.staging == 67_108_864 && f.kv == 8 * tokens && f.tensor == 8 * tokens
            && f.request == 0 && f.workspace == 0 && f.pinned == 0
            && f.safety == 150 * base / 1000 && f.fragmentation == 80 * base / 1000
  {
    hide MultiplyChecked, RatOf, Base;
    var tokens := if d.inputTokens + LongestOutput(d) == 0 then 1 else d.inputTokens + LongestOutput(d);
    MultiplySaturates(8, tokens);
    var f := Generic(d);
    var bare := f.(safety := 0, fragmentation := 0);
    SumsExactly(bare);
    assert Base(bare) == 335_544_320 + 16 * tokens;
    GenericMargins(Base(bare));
  }

  // ---------- The learned adjustment ----------

  /** `c` is the observed peak over the predicted one, kept between four fifths and two. */
  predicate IsFactor(c: real, observed: u64, predicted: u64) {
    if 10 * observed < 8 * predicted then c == 0.8
    else if observed > 2 * predicted then c == 2.0
    else c * predicted as real == observed as real
  }

  lemma FactorExactly(st: Learned, before: u64)
    requires before > 0
    ensures IsFactor(Factor(st, before), st.lastPeak, before)
  {
    var x := st.lastPeak as real / before as real;
    Compared(x, before as real, st.lastPeak as real);
  }

  lemma Compared(x: real, predicted: real, observed: real)
    requires predicted > 0.0 && x == observed / predicted
    ensures x * predicted == observed
    ensures (x < 0.8 <==> 10.0 * observed < 8.0 * predicted) && (x > 2.0 <==> observed > 2.0 * predicted)
  {
    assert x * predicted == observed;
    if x < 0.8 { Scaled(x, 0.8, predicted); } else { AtMostScaled(0.8, x, predicted); }
    if x > 2.0 { Scaled(2.0, x, predicted); } else { AtMostScaled(x, 2.0, predicted); }
  }

  lemma Scaled(x: real, y: real, z: real)
    requires x < y && z > 0.0
    ensures x * z < y * z
  {
    assert (y - x) * z > 0.0;
  }

  lemma AtMostScaled(x: real, y: real, z: real)
    requires x <= y && z > 0.0
    ensures x * z <= y * z
  {
    if x < y { Scaled(x, y, z); }
  }

  /** What has been learned for a key moves the cache growth, the tensor state and the staging by the factor,
      and the margins become ten and five percent of the new sum; nothing else moves. Nothing moves at all
      before there is evidence, an observed peak and something predicted. */
  lemma AdjustedExactly(p: Predictor, key: bytes, f: Footprint)
    ensures var g := Adjusted(p, key, f);
            if key !in p.learned || p.learned[key].count == 0 || p.learned[key].lastPeak == 0 || Peak(f) == 0
            then g == f
            else exists c: real ::
              && IsFactor(c, p.learned[key].lastPeak, Peak(f))
              && g.fixed == f.fixed && g.request == f.request && g.workspace == f.workspace && g.pinned == f.pinned
              && IsPortion(g.kv, f.kv, c) && IsPortion(g.tensor, f.tensor, c) && IsPortion(g.staging, f.staging, c)
              && HasMargins(g, 0.1, 0.05)
  {
    hide Peak, Factor, RatOf, IsPortion, IsFactor, HasMargins, Base;
    var st := Seen(p, key);
    if st.count != 0 && st.lastPeak != 0 && Peak(f) != 0 {
      var c := Factor(st, Peak(f));
      FactorExactly(st, Peak(f));
      ThousandthsBetween(c);
      PortionExactly(f.kv, c);
      PortionExactly(f.tensor, c);
      PortionExactly(f.staging, c);
      MarginsAdded(f.(kv := RatOf(f.kv, c), tensor := RatOf(f.tensor, c), staging := RatOf(f.staging, c)), 0.1, 0.05);
    }
  }

  // ---------- The demand ----------

  /** The twelve dimensions of a demand: peak, host memory (at least what the profile asks for), pinned memory,
      transfer buffer, execution and sequence slots, cache and tensor state. */
  lemma DemandExactly(f: Footprint, chosen: Option<Profile>)
    ensures var v := DemandOf(f, chosen);
            && v[0] == Peak(f) && v[2] == f.pinned && v[10] == f.kv && v[11] == f.tensor
            && v[4] == 0 && v[5] == 0 && v[6] == 0 && v[9] == 0
            && (chosen.None? ==> v[1] == Sustained(f) && v[3] == 0 && v[7] == 1 && v[8] == 1)
            && (chosen.Some? ==>
                  && v[1] >= Sustained(f) && v[1] >= chosen.value.hostMemoryBytes
                  && v[1] in {Sustained(f), chosen.value.hostMemoryBytes}
                  && v[3] == chosen.value.transferBytesPerSequence
                  && v[7] == chosen.value.executionSlotsRequired && v[8] == chosen.value.sequenceSlotsRequired)
  {
    hide Peak, Sustained;
  }

  /** Where a demand comes from: the profile under the request's own key, else the one of least key of its
      model and revision, if it names a backend, adjusted by what was learned under that key; and otherwise the
      generic estimate. */
  lemma PredictionExactly(p: Predictor, d: Descriptor)
    requires Cataloged(p) && Predictable(p, d)
    ensures var v := PredictDemand(p, d);
            if Registered(p.profiles, d.modelId, d.modelRevision) then
              exists k | k in p.profiles ::
                && (if KeyFor(d) in p.profiles then k == KeyFor(d)
                    else p.profiles[k].modelId == d.modelId && p.profiles[k].revision == d.modelRevision &&
                         forall j | j in p.profiles && p.profiles[j].modelId == d.modelId &&
                                    p.profiles[j].revision == d.modelRevision :: Ordering.LeText(k, j))
                && (if p.profiles[k].backend == [] then v == DemandOf(Generic(d), None)
                    else Sensible(p.profiles[k]) &&
                         v == DemandOf(Adjusted(p, k, FromProfile(p.profiles[k], d)), Some(p.profiles[k])))
            else v == DemandOf(Generic(d), None)
  {
    hide Key, Prefix, FindPrefix, FromProfile, Generic, Adjusted, DemandOf, Sensible, Ordering.LeText;
    ResolutionsAgree(p.profiles, d);
    SearchExactly(p.profiles, d.modelId, d.modelRevision);
    if Registered(p.profiles, d.modelId, d.modelRevision) {
      var k := ResolveKey(p.profiles, KeyFor(d), Prefix(d.modelId, d.modelRevision));
      assert k in p.profiles && ProfileFor(p.profiles, d) == Some(p.profiles[k]);
    }
  }

  // ---------- Keys ----------

  /** The keys and the prefix of model 7, revision 3. */
  lemma KeyKnown(backend: bytes, dtype: bytes, quantization: bytes)
    ensures Key(7, 3, backend, dtype, quantization) ==
            Ascii("model=7;rev=3;be=") + backend + Ascii(";dt=") + dtype + Ascii(";q=") + quantization
    ensures Prefix(7, 3) == Ascii("model=7;rev=3;")
  {
    assert Decimal(7) == [55] && Decimal(3) == [51];
    hide Decimal;
    FrontKnown();
    hide Ascii;
    Joined(Ascii("model="), [55], Ascii(";rev="), [51], Ascii(";"));
    Joined(Ascii("model="), [55], Ascii(";rev="), [51], Ascii(";be="));
    Regrouped(Ascii("model="), [55], Ascii(";rev="), [51], Ascii(";be="), backend, Ascii(";dt="), dtype, Ascii(";q="),
      quantization);
  }

  lemma FrontKnown()
    ensures Ascii("model=") + [55] + Ascii(";rev=") + [51] + Ascii(";") == Ascii("model=7;rev=3;")
    ensures Ascii("model=") + [55] + Ascii(";rev=") + [51] + Ascii(";be=") == Ascii("model=7;rev=3;be=")
  {
    ShortFront();
    LongFront();
  }

  lemma ShortFront()
    ensures Ascii("model=") + [55] + Ascii(";rev=") + [51] + Ascii(";") == Ascii("model=7;rev=3;")
  {
  }

  lemma LongFront()
    ensures Ascii("model=") + [55] + Ascii(";rev=") + [51] + Ascii(";be=") == Ascii("model=7;rev=3;be=")
  {
  }

  lemma Joined(a: bytes, b: bytes, c: bytes, d: bytes, e: bytes)
    ensures a + (b + (c + (d + e))) == a + b + c + d + e
  {
  }

  lemma Regrouped(a: bytes, b: bytes, c: bytes, d: bytes, e: bytes, f: bytes, g: bytes, h: bytes, i: bytes, j: bytes)
    ensures a + (b + (c + (d + (e + f + g + h + i + j)))) == a + b + c + d + e + f + g + h + i + j
  {
    var front := a + b + c + d;
    Joined(a, b, c, d, e + f + g + h + i + j);
    assert front + (e + f + g + h + i + j) == front + (e + f + g + h + i) + j;
    assert front + (e + f + g + h + i) == front + (e + f + g + h) + i;
    assert front + (e + f + g + h) == front + (e + f + g) + h;
    assert front + (e + f + g) == front + (e + f) + g;
    assert front + (e + f) == front + e + f;
  }

  // ---------- Learning ----------

  /** What is asked of an observation: identities and a backend, and of a completed one that no number in it is
      absurd. */
  predicate Plausible(o: Observation) {
    && o.id != 0 && o.modelId != 0 && |o.backend| > 0
    && (o.kind == 0 ==>
          && o.executionDuration >= 0
          && o.inputTokens <= 1_099_511_627_776 && o.outputTokens <= 1_099_511_627_776
          && o.peakVram <= 281_474_976_710_656 && o.hostMemory <= 281_474_976_710_656
          && o.pinnedMemory <= 281_474_976_710_656)
  }

  lemma PlausibleExactly(o: Observation)
    ensures Plausible(o) <==> ValidObservation(o)
  {
  }

  /** `s` is the observed decode rate over the rate of the profile, kept between a fifth and five; a fifth if the
      profile has no rate. */
  predicate IsSample(s: real, profile: Profile, o: Observation) {
    var rate := Value(profile.decodeTokensPerSec);
    var tokens := o.outputTokens as real * 1_000_000_000.0;
    var expected := (if rate.Fin? then rate.r else 0.0) * o.executionDuration as real;
    if !rate.Fin? || rate.r <= 0.0 || tokens < 0.2 * expected then s == 0.2
    else if tokens > 5.0 * expected then s == 5.0
    else s * expected == tokens
  }

  lemma SampleExactly(profile: Profile, o: Observation)
    requires o.executionDuration > 0
    ensures IsSample(Sample(profile, o), profile, o)
  {
    var rate := Value(profile.decodeTokensPerSec);
    hide Value;
    if rate.Fin? && rate.r > 0.0 {
      RateRatio(o.outputTokens as real, o.executionDuration as real, rate.r);
    }
  }

  lemma RateRatio(tokens: real, duration: real, rate: real)
    requires tokens >= 0.0 && duration > 0.0 && rate > 0.0
    ensures var x := tokens / (duration / 1_000_000_000.0) / rate; var expected := rate * duration;
            && x * expected == tokens * 1_000_000_000.0
            && (x < 0.2 <==> tokens * 1_000_000_000.0 < 0.2 * expected)
            && (x > 5.0 <==> tokens * 1_000_000_000.0 > 5.0 * expected)
  {
    var seconds := duration / 1_000_000_000.0;
    var observed := tokens / seconds;
    var x := observed / rate;
    Divides(tokens, seconds);
    Divides(observed, rate);
    RatioProduct(x, rate, seconds, duration, tokens, observed);
    PositiveProduct(rate, duration);
    Between(x, rate * duration, tokens * 1_000_000_000.0);
  }

  lemma Divides(x: real, y: real)
    requires y > 0.0
    ensures x / y * y == x
  {
  }

  lemma Between(x: real, expected: real, product: real)
    requires expected > 0.0 && x * expected == product
    ensures (x < 0.2 <==> product < 0.2 * expected) && (x > 5.0 <==> product > 5.0 * expected)
  {
    if x < 0.2 { Scaled(x, 0.2, expected); } else { AtMostScaled(0.2, x, expected); }
    if x > 5.0 { Scaled(5.0, x, expected); } else { AtMostScaled(x, 5.0, expected); }
  }

  lemma PositiveProduct(x: real, y: real)
    requires x > 0.0 && y > 0.0
    ensures x * y > 0.0
  {
  }

  lemma RatioProduct(x: real, rate: real, seconds: real, duration: real, tokens: real, observed: real)
    requires duration == seconds * 1_000_000_000.0 && observed * seconds == tokens && x * rate == observed
    ensures x * (rate * duration) == tokens * 1_000_000_000.0
  {
    calc {
      x * (rate * duration);
      (x * rate) * duration;
      observed * (seconds * 1_000_000_000.0);
      (observed * seconds) * 1_000_000_000.0;
    }
  }

  /** A plausible observation counts for the key that its model and revision resolve to, up to 4096. A completed
      one also leaves its duration, output, peak and cache growth as the last ones seen, raises the largest
      peak, and, where it shows a rate and the profile is registered, moves the average: to the sample at
      first, and later by two fifths of the way. Any other observation changes nothing; nothing else of the
      predictor ever changes. */
  lemma ObserveExactly(p: Predictor, o: Observation)
    ensures var q := Observe(p, o); var key := ObservedKey(p, o);
            var before := if key in p.learned then p.learned[key] else Learned(0, 0, 0, 0, 0, 0, 0.0);
            && q.profiles == p.profiles && q.generation == p.generation
            && (!Plausible(o) ==> q == p)
            && (Plausible(o) ==>
                  && q.learned.Keys == p.learned.Keys + {key}
                  && (forall k | k in p.learned && k != key :: q.learned[k] == p.learned[k])
                  && var st := q.learned[key];
                  && st.count == (if before.count < 4096 then before.count + 1 else 4096)
                  && (o.kind != 0 ==> st == before.(count := st.count))
                  && (o.kind == 0 ==>
                        && st.lastDuration == o.executionDuration && st.lastOutputTokens == o.outputTokens
                        && st.lastPeak == o.peakVram && st.lastKv == o.kvGrowth
                        && st.maxPeak >= before.maxPeak && st.maxPeak >= o.peakVram
                        && st.maxPeak in {before.maxPeak, o.peakVram}
                        && (if o.executionDuration > 0 && o.outputTokens > 0 && key in p.profiles then
                              exists s: real :: IsSample(s, p.profiles[key], o) &&
                                if before.ema <= 0.0 then st.ema == s
                                  else 5.0 * (st.ema - before.ema) == 2.0 * (s - before.ema)
                            else st.ema == before.ema)))
  {
    hide ValidObservation, Plausible, ObservedKey, IsSample, Sample;
    PlausibleExactly(o);
    var key := ObservedKey(p, o);
    if o.executionDuration > 0 && o.outputTokens > 0 && key in p.profiles {
      SampleExactly(p.profiles[key], o);
    }
  }

  /** An observation counts for its own key if that is registered, else for the least key of its model and
      revision, and for its own key if there is none. */
  lemma ObservedKeyExactly(p: Predictor, o: Observation)
    requires Cataloged(p)
    ensures var own := Key(o.modelId, o.modelRevision, o.backend, o.dtype, o.quantization);
            var k := ObservedKey(p, o);
            if own in p.profiles || !Registered(p.profiles, o.modelId, o.modelRevision) then k == own
            else
              && k in p.profiles && p.profiles[k].modelId == o.modelId && p.profiles[k].revision == o.modelRevision
              && forall j | j in p.profiles && p.profiles[j].modelId == o.modelId &&
                            p.profiles[j].revision == o.modelRevision :: Ordering.LeText(k, j)
  {
    hide Key, Prefix, FindPrefix, Ordering.LeText;
    SearchExactly(p.profiles, o.modelId, o.modelRevision);
  }

  /** Until something was learned, a rate is that of the profile; then it is multiplied by the average, or is
      the average itself if the profile has none. */
  lemma RateExactly(p: Predictor, key: bytes, rate: real)
    ensures var r := EffectiveRate(p, key, rate);
            && (key !in p.learned || p.learned[key].ema <= 0.0 ==> r == rate)
            && (key in p.learned && p.learned[key].ema > 0.0 && rate > 0.0 ==> r / rate == p.learned[key].ema)
            && (key in p.learned && p.learned[key].ema > 0.0 && rate <= 0.0 ==> r == p.learned[key].ema)
  {
    if key in p.learned && rate > 0.0 { Quotient(rate, p.learned[key].ema); }
  }

  lemma Quotient(x: real, y: real)
    requires x > 0.0
    ensures x * y / x == y
  {
  }

  /** A profile is taken unless its key is new and 256 are registered; it then has the next generation, and
      nothing else changes. */
  lemma RegistersExactly(p: Predictor, profile: Profile)
    ensures var q, ok := Register(p, profile).0, Register(p, profile).1;
            var key := Key(profile.modelId, profile.revision, profile.backend, profile.dtype, profile.quantization);
            && (ok <==> key in p.profiles || |p.profiles| < 256)
            && q.learned == p.learned
            && (!ok ==> q == p)
            && (ok ==> q.generation == (if p.generation < U64_MAX then p.generation + 1 else 1)
                       && q.profiles.Keys == p.profiles.Keys + {key}
                       && (forall k | k in p.profiles && k != key :: q.profiles[k] == p.profiles[k])
                       && q.profiles[key] == profile.(generation := q.generation))
  {
    hide Key;
  }
}
