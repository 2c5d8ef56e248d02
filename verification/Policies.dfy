/** PolicyEngine of policy.hpp: validated, numbered, retained policies, and what keeps the history
    of them from being rewritten. */
module Policies {
  import opened Words
  import opened Ordering
  import opened Resources
  import opened Records
  import opened Doubles
  import opened Texts

  const MAX_GENERATIONS: nat := 128
  const MAX_DEFERRALS: nat := 1024

  predicate ValidPolicy(p: Policy) {
    && IsFraction(p.safetyHeadroomRatio)
    && IsConfidence(p.minPredictorConfidence)
    && IsConfidence(p.overcommitConfidenceMin)
    && (p.overcommit == 0 ==> IsZero(p.overcommitAllowance))
    && p.maxSnapshotAge >= 0
    && p.maxReservationLifetime > 0
    && p.defaultAdmissionTtl > 0
    && p.maxDeferrals <= MAX_DEFERRALS
    && forall o | o in p.overrides :: o.safetyHeadroomRatio.Some? ==> IsFraction(o.safetyHeadroomRatio.value)
  }

  type Library = map<u64, Policy>

  datatype History = History(policies: Library, latest: u64, counter: u64)

  const START: History := History(map[], 0, 1)

  datatype Code = Ok | PolicyValidationError | PolicyConflict

  /** The next generation number is consumed even when the history turns out to be full. */
  function Install(h: History, p: Policy): (History, Code) {
    if !ValidPolicy(p) then (h, PolicyValidationError)
    else
      var g, next := h.counter, h.(counter := Bump(h.counter));
      if |h.policies| >= MAX_GENERATIONS && g !in h.policies then (next, PolicyConflict)
      else (next.(policies := h.policies[g := p.(generation := g)], latest := g), Ok)
  }

  function InstallAt(h: History, p: Policy, g: u64): (History, Code) {
    if !ValidPolicy(p) then (h, PolicyValidationError)
    else if g in h.policies then (h, PolicyConflict)
    else (h.(policies := h.policies[g := p.(generation := g)], latest := if g >= h.latest then g else h.latest), Ok)
  }

  function Latest(h: History): Option<Policy> {
    if h.latest in h.policies then Some(h.policies[h.latest]) else None
  }

  // ---------- Exactly when a policy is installed ----------

  /** `b` stands for a real number of at least zero, and below one or, if `closed`, at most one. */
  ghost predicate StandsForFraction(b: double, closed: bool) {
    exists r: real :: Value(b) == Fin(r) && 0.0 <= r && (r < 1.0 || (closed && r == 1.0))
  }

  /** What is asked of a policy. */
  ghost predicate Acceptable(p: Policy) {
    && StandsForFraction(p.safetyHeadroomRatio, false)
    && StandsForFraction(p.minPredictorConfidence, true)
    && StandsForFraction(p.overcommitConfidenceMin, true)
    && (p.overcommit != 0 || p.overcommitAllowance == [0, 0, 0, 0, 0, 0, 0, 0, 0, 0, 0, 0])
    && p.maxSnapshotAge >= 0 && p.maxReservationLifetime > 0 && p.defaultAdmissionTtl > 0 && p.maxDeferrals <= 1024
    && forall i, b | 0 <= i < |p.overrides| && p.overrides[i].safetyHeadroomRatio == Some(b) ::
         StandsForFraction(b, false)
  }

  lemma FractionsStand(b: double)
    ensures StandsForFraction(b, false) <==> IsFraction(b)
    ensures StandsForFraction(b, true) <==> IsConfidence(b)
  {
    hide Value;
  }

  lemma ZeroVector(a: Vec)
    ensures IsZero(a) <==> a == [0, 0, 0, 0, 0, 0, 0, 0, 0, 0, 0, 0]
  {
  }

  lemma OverridesStand(os: seq<Override>)
    ensures (forall i, b | 0 <= i < |os| && os[i].safetyHeadroomRatio == Some(b) :: StandsForFraction(b, false)) <==>
            (forall o | o in os :: o.safetyHeadroomRatio.Some? ==> IsFraction(o.safetyHeadroomRatio.value))
  {
    hide StandsForFraction, IsFraction;
    forall b: double ensures StandsForFraction(b, false) <==> IsFraction(b) { FractionsStand(b); }
  }

  lemma AcceptableExactly(p: Policy)
    ensures Acceptable(p) <==> ValidPolicy(p)
  {
    hide StandsForFraction, IsFraction, IsConfidence, IsZero;
    FractionsStand(p.safetyHeadroomRatio);
    FractionsStand(p.minPredictorConfidence);
    FractionsStand(p.overcommitConfidenceMin);
    ZeroVector(p.overcommitAllowance);
    OverridesStand(p.overrides);
  }

  /** A policy is installed exactly if it is acceptable and there is room for it: its generation is then the
      counter, it is the latest, and nothing else in the history changes. A full history costs a counter
      value, an unacceptable policy nothing. */
  lemma InstallExactly(h: History, p: Policy)
    ensures var k, code := Install(h, p).0, Install(h, p).1; var g := h.counter;
            && (code == Ok <==> Acceptable(p) && (|h.policies| < 128 || g in h.policies))
            && (code == PolicyValidationError <==> !Acceptable(p))
            && (Acceptable(p) ==> k.counter == (if g < 0xFFFF_FFFF_FFFF_FFFF then g + 1 else 1))
            && (code == Ok ==> k.latest == g && k.policies.Keys == h.policies.Keys + {g} &&
                               k.policies == h.policies[g := k.policies[g]] &&
                               k.policies[g] == p.(generation := g))
            && (code != Ok ==> k.policies == h.policies && k.latest == h.latest)
            && (!Acceptable(p) ==> k == h)
  {
    hide Acceptable, ValidPolicy;
    AcceptableExactly(p);
  }

  /** The policy in force is the one of the latest generation, and there is none before the first. */
  lemma LatestExactly(h: History, p: Policy)
    ensures Latest(h) == Some(p) <==> h.latest in h.policies && h.policies[h.latest] == p
    ensures WellFiled(h) ==> (Latest(h) == None <==> h.policies == map[])
  {
    hide ValidPolicy;
  }

  /** Under a generation given from outside a policy is installed exactly if it is acceptable and the
      generation is free, however many there are; the counter stays, and the latest generation is the larger
      of the two. */
  lemma InstallAtExactly(h: History, p: Policy, g: u64)
    ensures var k, code := InstallAt(h, p, g).0, InstallAt(h, p, g).1;
            && (code == Ok <==> Acceptable(p) && g !in h.policies)
            && (code == PolicyValidationError <==> !Acceptable(p))
            && k.counter == h.counter
            && (code == Ok ==> k.policies.Keys == h.policies.Keys + {g} && k.policies == h.policies[g := k.policies[g]]
                               && k.policies[g] == p.(generation := g)
                               && k.latest in {g, h.latest} && k.latest >= g && k.latest >= h.latest)
            && (code != Ok ==> k == h)
  {
    hide Acceptable, ValidPolicy;
    AcceptableExactly(p);
  }

  // ---------- Runs ----------

  datatype Op = OpInstall(p: Policy) | OpInstallAt(p: Policy, g: u64)

  function Apply(h: History, op: Op): (History, Code) {
    match op
    case OpInstall(p) => Install(h, p)
    case OpInstallAt(p, g) => InstallAt(h, p, g)
  }

  function Run(h: History, ops: seq<Op>): History
    decreases |ops|
  {
    if ops == [] then h else Run(Apply(h, ops[0]).0, ops[1..])
  }

  function Installs(ps: seq<Policy>): (ops: seq<Op>)
    ensures |ops| == |ps| && forall i :: 0 <= i < |ps| ==> ops[i] == OpInstall(ps[i])
  {
    seq(|ps|, i requires 0 <= i < |ps| => OpInstall(ps[i]))
  }

  /** Everything `h` retains, `k` retains unchanged. */
  predicate Retains(h: History, k: History) {
    forall g | g in h.policies :: g in k.policies && k.policies[g] == h.policies[g]
  }

  /** Every retained generation is below the one to be used next. */
  predicate BelowCounter(h: History) { forall g | g in h.policies :: g < h.counter }

  /** What every history satisfies, recovered or not: bounded, valid policies, each under its own
      generation, and a latest one if there is any. */
  predicate WellFiled(h: History) {
    && |h.policies| <= MAX_GENERATIONS
    && (forall g | g in h.policies :: h.policies[g].generation == g && ValidPolicy(h.policies[g]))
    && (if h.policies == map[] then h.latest == 0 else h.latest in h.policies)
  }

  lemma InstallFiled(h: History, p: Policy)
    requires WellFiled(h)
    ensures WellFiled(Install(h, p).0)
  {
    if ValidPolicy(p) { Renumbered(p, h.counter); }
    hide ValidPolicy;
  }

  /** The whole invariant of a history that was never given generations from outside. */
  predicate Orderly(h: History) {
    && WellFiled(h)
    && BelowCounter(h)
    && h.latest < h.counter
    && (forall g | g in h.policies :: g <= h.latest)
  }

  lemma StartOrderly()
    ensures Orderly(START)
  {
  }

  lemma InstallKeepsOrder(h: History, p: Policy)
    requires Orderly(h) && h.counter < U64_MAX
    ensures Orderly(Install(h, p).0)
  {
    hide WellFiled, ValidPolicy;
    InstallFiled(h, p);
  }

  /** Below wrap-around one `install` keeps everything already installed, and on success the latest
      generation strictly grows. */
  lemma InstallOrderly(h: History, p: Policy)
    requires Orderly(h) && h.counter < U64_MAX
    ensures var k := Install(h, p).0;
            Orderly(k) && Retains(h, k) && h.counter <= k.counter <= h.counter + 1 &&
            (Install(h, p).1 == Ok ==> k.latest > h.latest && Latest(k) == Some(p.(generation := k.latest)))
  {
    hide ValidPolicy, Orderly;
    InstallKeepsOrder(h, p);
    OrderlyMeans(h);
  }

  lemma Renumbered(p: Policy, g: u64)
    requires ValidPolicy(p)
    ensures ValidPolicy(p.(generation := g))
  {
  }

  /** Over every run of `install` short of wrap-around: the history is immutable, holds at most 128
      generations, and its latest generation never falls. */
  lemma {:induction false} HistoryImmutable(h: History, ps: seq<Policy>)
    requires Orderly(h) && h.counter + |ps| <= U64_MAX
    ensures var k := Run(h, Installs(ps)); Orderly(k) && Retains(h, k) && h.latest <= k.latest
    decreases |ps|
  {
    hide Orderly, Install;
    if ps != [] {
      InstallOrderly(h, ps[0]);
      OrderlyMeans(h);
      var k := Install(h, ps[0]).0;
      assert Installs(ps)[1..] == Installs(ps[1..]);
      HistoryImmutable(k, ps[1..]);
      LatestGrows(h, ps[0]);
    }
  }

  lemma OrderlyMeans(h: History)
    requires Orderly(h)
    ensures BelowCounter(h) && h.latest < h.counter
  {
  }

  lemma LatestGrows(h: History, p: Policy)
    requires Orderly(h) && h.counter < U64_MAX
    ensures h.latest <= Install(h, p).0.latest
  {
    hide ValidPolicy;
  }

  // ---------- Recovery ----------

  /** The plainest valid policy of a name. */
  function Plain(name: bytes): (p: Policy)
    ensures ValidPolicy(p)
  {
    ZeroIsFraction(0);
    DEFAULT_POLICY.(name := name, safetyHeadroomRatio := 0, minPredictorConfidence := 0, overcommitConfidenceMin := 0)
  }

  /** Every generation that the run gives explicitly is below the counter at that step, and no step but
      the last uses up the counter. */
  predicate StepsBelow(h: History, ops: seq<Op>)
    decreases |ops|
  {
    ops != [] ==>
      && (ops[0].OpInstallAt? ==> ops[0].g < h.counter)
      && (ops[0].OpInstall? && |ops| > 1 ==> h.counter < U64_MAX)
      && StepsBelow(Apply(h, ops[0]).0, ops[1..])
  }

  /** A run that mixes both kinds of installation retains everything, if each explicit generation is
      below the counter when it is given. */
  lemma {:induction false} MixedRunRetains(h: History, ops: seq<Op>)
    requires BelowCounter(h) && StepsBelow(h, ops)
    ensures Retains(h, Run(h, ops))
    decreases |ops|
  {
    hide ValidPolicy;
    if ops != [] {
      var k := Apply(h, ops[0]).0;
      assert Retains(h, k);
      if |ops| > 1 {
        MixedRunRetains(k, ops[1..]);
      } else {
        assert ops[1..] == [];
      }
    }
  }

  lemma {:induction false} InstallsBelow(h: History, ps: seq<Policy>)
    requires h.counter + |ps| <= U64_MAX + 1
    ensures StepsBelow(h, Installs(ps))
    decreases |ps|
  {
    hide ValidPolicy;
    if ps != [] {
      assert Installs(ps)[1..] == Installs(ps[1..]);
      if |ps| > 1 {
        InstallsBelow(Install(h, ps[0]).0, ps[1..]);
      } else {
        assert ps[1..] == [];
      }
    }
  }

  lemma {:induction false} Overwritten(h: History, g: u64, p: Policy, ps: seq<Policy>)
    requires g in h.policies && h.counter <= g && ValidPolicy(p)
    requires |ps| == g - h.counter + 1 && forall q | q in ps :: q == p
    ensures var k := Run(h, Installs(ps)); g in k.policies && k.policies[g] == p.(generation := g)
    decreases |ps|
  {
    hide ValidPolicy;
    assert Installs(ps)[1..] == Installs(ps[1..]);
    assert ps[0] in ps;
    var k := Install(h, ps[0]).0;
    assert forall q | q in ps[1..] :: q in ps;
    if h.counter < g {
      assert k.counter == h.counter + 1;
      Overwritten(k, g, p, ps[1..]);
    } else {
      assert ps[1..] == [];
    }
  }

  /** No run of installs that uses each counter value once can rewrite anything, if and only if every
      retained generation, recovered or not, is below the counter. */
  lemma ImmutableExactly(h: History)
    ensures BelowCounter(h) <==>
            forall ps: seq<Policy> | h.counter + |ps| <= U64_MAX + 1 :: Retains(h, Run(h, Installs(ps)))
  {
    hide Run, ValidPolicy, Installs;
    if BelowCounter(h) {
      forall ps: seq<Policy> | h.counter + |ps| <= U64_MAX + 1 ensures Retains(h, Run(h, Installs(ps))) {
        InstallsBelow(h, ps);
        MixedRunRetains(h, Installs(ps));
      }
    } else {
      var g :| g in h.policies && h.counter <= g;
      var p := Plain(h.policies[g].name + [0]);
      var ps := seq(g - h.counter + 1, _ => p);
      Overwritten(h, g, p, ps);
      assert !Retains(h, Run(h, Installs(ps))) by {
        assert |h.policies[g].name| < |p.name|;
      }
    }
  }

  /** The largest of some generations, or zero. */
  function Largest(gs: set<u64>): (g: u64)
    ensures gs == {} ==> g == 0
    ensures gs != {} ==> g in gs
    ensures forall k | k in gs :: k <= g
  {
    var keys := SortedWords(gs);
    assert forall k | k in gs :: k in keys;
    if keys == [] then 0 else keys[|keys| - 1]
  }

  /** What recovery makes of a history: neither the counter nor the latest generation is saved. */
  function Returned(h: History): History { History(h.policies, Largest(h.policies.Keys), 1) }

  lemma ReturnedFiled(h: History)
    requires WellFiled(h)
    ensures WellFiled(Returned(h))
  {
    hide ValidPolicy, Largest;
  }

  /** The policy in force survives a recovery if and only if no larger generation is retained. */
  lemma LatestReturnsExactly(h: History)
    requires WellFiled(h)
    ensures Latest(Returned(h)) == Latest(h) <==> forall g | g in h.policies :: g <= h.latest
  {
    hide ValidPolicy, Largest;
  }

  /** The first installation after a recovery is generation one again. Exactly if a larger generation is
      retained, the latest generation falls, and the next recovery puts the old policy back in force;
      and a retained generation one is lost exactly if it differs. */
  lemma RecoveredGenerationLost(h: History, q: Policy)
    requires WellFiled(h) && ValidPolicy(q) && (|h.policies| < MAX_GENERATIONS || 1 in h.policies)
    ensures var r := Returned(h); var k := Install(r, q).0; var larger := exists g :: g in h.policies && g > 1;
            && Latest(k) == Some(q.(generation := 1)) && k.latest == 1
            && (k.latest < r.latest <==> larger)
            && Latest(Returned(k)) == (if larger then Latest(r) else Latest(k))
            && (Retains(r, k) <==> 1 !in h.policies || h.policies[1] == q.(generation := 1))
  {
    hide ValidPolicy, Largest;
    var r := Returned(h);
    var k := Install(r, q).0;
    assert k.policies == h.policies[1 := q.(generation := 1)];
    var m, n := Largest(h.policies.Keys), Largest(k.policies.Keys);
    assert k.policies.Keys == h.policies.Keys + {1};
    if g :| g in h.policies && g > 1 {
      assert m in k.policies.Keys && n in h.policies.Keys;
    }
  }

  lemma LargestOfTwo()
    ensures Largest({1, 2}) == 2
  {
  }

  /** Two policies, a recovery, a third policy, a recovery: the second policy is in force again. */
  lemma RecoveriesRevert(p: Policy, q: Policy, r: Policy)
    requires ValidPolicy(p) && ValidPolicy(q) && ValidPolicy(r)
    ensures var h := Returned(Install(Install(START, p).0, q).0); var k := Install(h, r).0;
            Latest(k) == Some(r.(generation := 1)) && Latest(Returned(k)) == Some(q.(generation := 2))
  {
    hide ValidPolicy, Largest;
    var a := Install(START, p).0;
    var b := Install(a, q).0;
    assert a.policies == map[1 := p.(generation := 1)];
    assert b.policies.Keys == {1, 2};
    LargestOfTwo();
    var k := Install(Returned(b), r).0;
    assert k.policies.Keys == {1, 2};
  }

  // ---------- The effective policy ----------

  predicate StartsWith(s: bytes, prefix: bytes) { |prefix| <= |s| && s[..|prefix|] == prefix }

  predicate Matches(key: bytes, d: Descriptor) {
    var model, tenant, backend, class_ := Ascii("model="), Ascii("tenant="), Ascii("backend="), Ascii("class=");
    if StartsWith(key, model) then Decimal(d.modelId) == key[|model|..]
    else if StartsWith(key, tenant) then Decimal(d.tenantId) == key[|tenant|..]
    else if StartsWith(key, backend) then d.backend == key[|backend|..]
    else if StartsWith(key, class_) then d.workloadClass == key[|class_|..]
    else false
  }

  function GetOr<T>(o: Option<T>, default: T): T { if o.Some? then o.value else default }

  function Overlay(p: Policy, o: Override): Policy {
    p.(safetyHeadroomRatio := GetOr(o.safetyHeadroomRatio, p.safetyHeadroomRatio),
       overcommit := GetOr(o.overcommitMode, p.overcommit),
       overcommitAllowance := GetOr(o.overcommitAllowance, p.overcommitAllowance),
       minPredictorConfidence := GetOr(o.minPredictorConfidence, p.minPredictorConfidence),
       admitSloFeasibleWithRisk := GetOr(o.admitSloRisk, p.admitSloFeasibleWithRisk),
       requireReservation := GetOr(o.requireReservation, p.requireReservation),
       smallRequestPriorityBoost := GetOr(o.smallRequestBoost, p.smallRequestPriorityBoost))
  }

  /** The overrides that match, applied in order, later ones over earlier ones. */
  function Overlaid(p: Policy, os: seq<Override>, d: Descriptor): Policy
    decreases |os|
  {
    if os == [] then p
    else
      var front := Overlaid(p, os[..|os| - 1], d);
      if Matches(os[|os| - 1].key, d) then Overlay(front, os[|os| - 1]) else front
  }

  function Effective(d: Descriptor, base: Policy): Policy { Overlaid(base, base.overrides, d) }

  lemma {:induction false} OverlaidFraction(p: Policy, os: seq<Override>, d: Descriptor)
    requires IsFraction(p.safetyHeadroomRatio)
    requires forall o | o in os :: o.safetyHeadroomRatio.Some? ==> IsFraction(o.safetyHeadroomRatio.value)
    ensures var q := Overlaid(p, os, d);
            IsFraction(q.safetyHeadroomRatio) && q.maxReservationLifetime == p.maxReservationLifetime &&
            q.absoluteSafetyMargin == p.absoluteSafetyMargin && q.fairnessWindow == p.fairnessWindow
    decreases |os|
  {
    hide IsFraction, Matches;
    if os != [] { OverlaidFraction(p, os[..|os| - 1], d); }
  }

  /** Overrides of a valid policy keep its headroom ratio a fraction and leave its margin, reservation
      lifetime and fairness window alone. */
  lemma EffectiveKeeps(d: Descriptor, base: Policy)
    requires ValidPolicy(base)
    ensures var q := Effective(d, base);
            IsFraction(q.safetyHeadroomRatio) && q.maxReservationLifetime == base.maxReservationLifetime &&
            q.absoluteSafetyMargin == base.absoluteSafetyMargin && q.fairnessWindow == base.fairnessWindow
  {
    hide IsFraction;
    OverlaidFraction(base, base.overrides, d);
  }

  // ---------- Which requests an override applies to ----------

  /** The key names the model, the tenant, the backend or the class of the request. */
  predicate Addresses(key: bytes, d: Descriptor) {
    || key == Ascii("model=") + Decimal(d.modelId)
    || key == Ascii("tenant=") + Decimal(d.tenantId)
    || key == Ascii("backend=") + d.backend
    || key == Ascii("class=") + d.workloadClass
  }

  lemma PrefixSplits(key: bytes, prefix: bytes, rest: bytes)
    ensures StartsWith(key, prefix) && key[|prefix|..] == rest <==> key == prefix + rest
  {
    if StartsWith(key, prefix) { assert key == prefix + key[|prefix|..]; }
    if key == prefix + rest { assert key[..|prefix|] == prefix && key[|prefix|..] == rest; }
  }

  lemma FirstOctet(key: bytes, a: bytes)
    requires a != [] && StartsWith(key, a)
    ensures key != [] && key[0] == a[0]
  {
    assert key[0] == key[..|a|][0];
  }

  lemma PrefixesDiffer(key: bytes, a: bytes, b: bytes)
    requires a != [] && b != [] && a[0] != b[0] && StartsWith(key, a)
    ensures !StartsWith(key, b)
  {
    hide StartsWith;
    FirstOctet(key, a);
    if StartsWith(key, b) { FirstOctet(key, b); }
  }

  lemma KindsDiffer(key: bytes, a: string, b: string)
    requires a in {"model=", "tenant=", "backend=", "class="} && b in {"model=", "tenant=", "backend=", "class="}
    requires a != b && StartsWith(key, Ascii(a))
    ensures !StartsWith(key, Ascii(b))
  {
    hide StartsWith;
    assert 'm' as int % 256 == 109 && 't' as int % 256 == 116 && 'b' as int % 256 == 98 && 'c' as int % 256 == 99;
    PrefixesDiffer(key, Ascii(a), Ascii(b));
  }

  /** An override applies to the requests that its key names, and to no others. */
  lemma MatchesExactly(key: bytes, d: Descriptor)
    ensures Matches(key, d) <==> Addresses(key, d)
  {
    hide Decimal, StartsWith, Ascii;
    PrefixSplits(key, Ascii("model="), Decimal(d.modelId));
    PrefixSplits(key, Ascii("tenant="), Decimal(d.tenantId));
    PrefixSplits(key, Ascii("backend="), d.backend);
    PrefixSplits(key, Ascii("class="), d.workloadClass);
    if StartsWith(key, Ascii("model=")) {
      KindsDiffer(key, "model=", "tenant=");
      KindsDiffer(key, "model=", "backend=");
      KindsDiffer(key, "model=", "class=");
    } else if StartsWith(key, Ascii("tenant=")) {
      KindsDiffer(key, "tenant=", "backend=");
      KindsDiffer(key, "tenant=", "class=");
    } else if StartsWith(key, Ascii("backend=")) {
      KindsDiffer(key, "backend=", "class=");
    }
  }

  lemma SameRest(a: bytes, x: bytes, y: bytes)
    requires a + x == a + y
    ensures x == y
  {
    assert (a + x)[|a|..] == x && (a + y)[|a|..] == y;
  }

  /** What keys of each kind mean. */
  lemma KeyKinds(n: u64, s: bytes, d: Descriptor)
    ensures Matches(Ascii("model=") + Decimal(n), d) <==> d.modelId == n
    ensures Matches(Ascii("tenant=") + Decimal(n), d) <==> d.tenantId == n
    ensures Matches(Ascii("backend=") + s, d) <==> d.backend == s
    ensures Matches(Ascii("class=") + s, d) <==> d.workloadClass == s
  {
    hide Ascii, StartsWith, Decimal, Addresses, Matches;
    KindMatches("model=", Decimal(n), d);
    KindMatches("tenant=", Decimal(n), d);
    KindMatches("backend=", s, d);
    KindMatches("class=", s, d);
    if Decimal(n) == Decimal(d.modelId) { DecimalInjective(n, d.modelId); }
    if Decimal(n) == Decimal(d.tenantId) { DecimalInjective(n, d.tenantId); }
  }

  /** The text that a key of a kind must carry. */
  function Named(kind: string, d: Descriptor): bytes {
    if kind == "model=" then Decimal(d.modelId) else if kind == "tenant=" then Decimal(d.tenantId)
    else if kind == "backend=" then d.backend else d.workloadClass
  }

  lemma KindMatches(kind: string, rest: bytes, d: Descriptor)
    requires kind in {"model=", "tenant=", "backend=", "class="}
    ensures Matches(Ascii(kind) + rest, d) <==> rest == Named(kind, d)
  {
    hide Ascii, StartsWith, Decimal, Matches;
    var key := Ascii(kind) + rest;
    MatchesExactly(key, d);
    PrefixSplits(key, Ascii(kind), rest);
    forall other: string, x: bytes | other in {"model=", "tenant=", "backend=", "class="} && other != kind
      ensures key != Ascii(other) + x
    {
      KindsDiffer(key, kind, other);
      PrefixSplits(key, Ascii(other), x);
    }
    if key == Ascii(kind) + Named(kind, d) { SameRest(Ascii(kind), rest, Named(kind, d)); }
  }

  // ---------- What the overrides make of a policy ----------

  /** `v` is what the last override that addresses the request and speaks of the setting says of it, and
      `base` if there is none. */
  ghost predicate Settles<T>(d: Descriptor, os: seq<Override>, setting: Override -> Option<T>, base: T, v: T) {
    || (v == base && forall o | o in os :: Addresses(o.key, d) ==> setting(o).None?)
    || (exists i :: 0 <= i < |os| && Addresses(os[i].key, d) && setting(os[i]) == Some(v) &&
          forall j | i < j < |os| && Addresses(os[j].key, d) :: setting(os[j]).None?)
  }

  lemma SettlesNone<T>(d: Descriptor, setting: Override -> Option<T>, base: T)
    ensures Settles(d, [], setting, base, base)
  {
  }

  lemma SettlesNext<T>(d: Descriptor, os: seq<Override>, o: Override, setting: Override -> Option<T>, base: T, v: T)
    requires Settles(d, os, setting, base, v)
    ensures Settles(d, os + [o], setting, base,
                    if Addresses(o.key, d) && setting(o).Some? then setting(o).value else v)
  {
    hide Addresses;
    var all := os + [o];
    assert all[|os|] == o;
    assert forall i :: 0 <= i < |os| ==> all[i] == os[i];
    assert forall x | x in all :: x in os || x == o;
  }

  /** The overrides changed these settings of `p`, each as the last of them says, and nothing else. */
  ghost predicate Settled(d: Descriptor, os: seq<Override>, p: Policy, q: Policy) {
    && Settles(d, os, (o: Override) => o.safetyHeadroomRatio, p.safetyHeadroomRatio, q.safetyHeadroomRatio)
    && Settles(d, os, (o: Override) => o.overcommitMode, p.overcommit, q.overcommit)
    && Settles(d, os, (o: Override) => o.overcommitAllowance, p.overcommitAllowance, q.overcommitAllowance)
    && Settles(d, os, (o: Override) => o.minPredictorConfidence, p.minPredictorConfidence, q.minPredictorConfidence)
    && Settles(d, os, (o: Override) => o.admitSloRisk, p.admitSloFeasibleWithRisk, q.admitSloFeasibleWithRisk)
    && Settles(d, os, (o: Override) => o.requireReservation, p.requireReservation, q.requireReservation)
    && Settles(d, os, (o: Override) => o.smallRequestBoost, p.smallRequestPriorityBoost, q.smallRequestPriorityBoost)
    && q == p.(safetyHeadroomRatio := q.safetyHeadroomRatio, overcommit := q.overcommit,
               overcommitAllowance := q.overcommitAllowance, minPredictorConfidence := q.minPredictorConfidence,
               admitSloFeasibleWithRisk := q.admitSloFeasibleWithRisk, requireReservation := q.requireReservation,
               smallRequestPriorityBoost := q.smallRequestPriorityBoost)
  }

  lemma SettledNone(d: Descriptor, p: Policy)
    ensures Settled(d, [], p, p)
  {
    hide Settles;
    SettlesNone(d, (o: Override) => o.safetyHeadroomRatio, p.safetyHeadroomRatio);
    SettlesNone(d, (o: Override) => o.overcommitMode, p.overcommit);
    SettlesNone(d, (o: Override) => o.overcommitAllowance, p.overcommitAllowance);
    SettlesNone(d, (o: Override) => o.minPredictorConfidence, p.minPredictorConfidence);
    SettlesNone(d, (o: Override) => o.admitSloRisk, p.admitSloFeasibleWithRisk);
    SettlesNone(d, (o: Override) => o.requireReservation, p.requireReservation);
    SettlesNone(d, (o: Override) => o.smallRequestBoost, p.smallRequestPriorityBoost);
  }

  lemma SettledNext(d: Descriptor, os: seq<Override>, o: Override, p: Policy, q: Policy)
    requires Settled(d, os, p, q)
    ensures Settled(d, os + [o], p, if Addresses(o.key, d) then Overlay(q, o) else q)
  {
    hide Settles, Addresses;
    SettlesNext(d, os, o, (o: Override) => o.safetyHeadroomRatio, p.safetyHeadroomRatio, q.safetyHeadroomRatio);
    SettlesNext(d, os, o, (o: Override) => o.overcommitMode, p.overcommit, q.overcommit);
    SettlesNext(d, os, o, (o: Override) => o.overcommitAllowance, p.overcommitAllowance, q.overcommitAllowance);
    SettlesNext(d, os, o, (o: Override) => o.minPredictorConfidence, p.minPredictorConfidence,
      q.minPredictorConfidence);
    SettlesNext(d, os, o, (o: Override) => o.admitSloRisk, p.admitSloFeasibleWithRisk, q.admitSloFeasibleWithRisk);
    SettlesNext(d, os, o, (o: Override) => o.requireReservation, p.requireReservation, q.requireReservation);
    SettlesNext(d, os, o, (o: Override) => o.smallRequestBoost, p.smallRequestPriorityBoost,
      q.smallRequestPriorityBoost);
  }

  lemma {:induction false} OverlaidSettles(d: Descriptor, os: seq<Override>, p: Policy)
    ensures Settled(d, os, p, Overlaid(p, os, d))
    decreases |os|
  {
    hide Settled, Matches, Addresses, Overlay;
    if os == [] {
      SettledNone(d, p);
    } else {
      var front, o := os[..|os| - 1], os[|os| - 1];
      OverlaidSettles(d, front, p);
      MatchesExactly(o.key, d);
      SettledNext(d, front, o, p, Overlaid(p, front, d));
      assert front + [o] == os;
    }
  }

  /** Each of the seven settings of the effective policy is what the last override says of it that names
      the request's model, tenant, backend or class and speaks of the setting, and otherwise what the base
      says; nothing else differs from the base. */
  lemma EffectiveSettings(d: Descriptor, base: Policy)
    ensures Settled(d, base.overrides, base, Effective(d, base))
  {
    hide Settled, Matches;
    OverlaidSettles(d, base.overrides, base);
  }

  // ---------- As it runs ----------

  class PolicyEngine {
    var policies: Library
    var latest: u64
    var counter: u64

    function State(): History
      reads this
    {
      History(policies, latest, counter)
    }

    constructor ()
      ensures State() == START
    {
      policies, latest, counter := map[], 0, 1;
    }

    method NextGeneration() returns (v: u64)
      modifies `counter
      ensures v == old(counter) && counter == Bump(v)
    {
      v := counter;
      counter := if counter == U64_MAX then 1 else counter + 1;
    }

    method InstallPolicy(p: Policy) returns (code: Code)
      modifies this
      ensures (State(), code) == Install(old(State()), p)
    {
      hide ValidPolicy;
      if !ValidPolicy(p) { return PolicyValidationError; }
      var g := NextGeneration();
      if |policies| >= MAX_GENERATIONS && g !in policies { return PolicyConflict; }
      policies := policies - {g};
      policies := policies[g := p.(generation := g)];
      latest := g;
      code := Ok;
      assert policies == old(policies)[g := p.(generation := g)];
    }

    method InstallAtGeneration(p: Policy, g: u64) returns (code: Code)
      modifies this
      ensures (State(), code) == InstallAt(old(State()), p, g)
    {
      hide ValidPolicy;
      if !ValidPolicy(p) { return PolicyValidationError; }
      if g in policies { return PolicyConflict; }
      policies := policies[g := p.(generation := g)];
      if g >= latest { latest := g; }
      code := Ok;
    }
  }

  method ComputeEffective(d: Descriptor, base: Policy) returns (p: Policy)
    ensures p == Effective(d, base)
  {
    hide Matches, Overlay;
    p := base;
    for i := 0 to |base.overrides|
      invariant p == Overlaid(base, base.overrides[..i], d)
    {
      var o := base.overrides[i];
      assert base.overrides[..i + 1][..i] == base.overrides[..i];
      if Matches(o.key, d) { p := Overlay(p, o); }
    }
    assert base.overrides[..|base.overrides|] == base.overrides;
  }
}
