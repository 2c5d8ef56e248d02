/** The profile catalog of prediction.hpp: an ordered map of textual keys, searched exactly and then by
    the prefix that a model and its revision share. */
module Profiles {
  import opened Words
  import opened Ordering
  import opened Records
  import opened Texts
  import opened Policies

  const MAX_PROFILES: nat := 256

  type Catalog = map<bytes, Profile>

  function Prefix(model: u64, revision: u64): bytes {
    Ascii("model=") + (Decimal(model) + (Ascii(";rev=") + (Decimal(revision) + Ascii(";"))))
  }

  function Key(model: u64, revision: u64, backend: bytes, dtype: bytes, quantization: bytes): bytes {
    Ascii("model=") + (Decimal(model) + (Ascii(";rev=") + (Decimal(revision) +
      (Ascii(";be=") + backend + Ascii(";dt=") + dtype + Ascii(";q=") + quantization))))
  }

  function KeyOf(p: Profile): bytes { Key(p.modelId, p.revision, p.backend, p.dtype, p.quantization) }
  function KeyFor(d: Descriptor): bytes { Key(d.modelId, d.modelRevision, d.backend, d.dtype, d.quantization) }

  /** Every profile is filed under its own key. */
  predicate WellKeyed(t: Catalog) { forall k | k in t :: k == KeyOf(t[k]) }

  // ---------- What a prefix says ----------

  const SEMICOLON: byte := 59

  /** Two numerals that end at their first semicolon are equal if one text continues the other. */
  lemma NumeralEnds(a: bytes, b: bytes, x: bytes, y: bytes)
    requires SEMICOLON !in a && SEMICOLON !in b && x != [] && y != [] && x[0] == SEMICOLON == y[0]
    ensures StartsWith(a + x, b + y) <==> a == b && StartsWith(x, y)
  {
    assert |a| < |b| ==> b[|a|] in b;
    assert |b| < |a| ==> a[|b|] in a;
    if StartsWith(a + x, b + y) {
      SameAt(a + x, b + y);
      assert (a + x)[|a|] == SEMICOLON == (b + y)[|b|];
      assert a == (a + x)[..|b|] == (b + y)[..|b|] == b;
    }
    if a == b { SameStart(a, x, y); }
  }

  lemma SameAt(s: bytes, p: bytes)
    requires StartsWith(s, p)
    ensures |p| <= |s| && forall i :: 0 <= i < |p| ==> s[i] == p[i]
    ensures forall n :: 0 <= n <= |p| ==> s[..n] == p[..n]
  {
    forall i | 0 <= i < |p| ensures s[i] == p[i] { assert s[..|p|][i] == p[i]; }
  }

  lemma SameStart(a: bytes, x: bytes, y: bytes)
    ensures StartsWith(a + x, a + y) <==> StartsWith(x, y)
  {
    if |y| <= |x| {
      assert (a + x)[..|a + y|] == a + x[..|y|];
      assert (a + x[..|y|])[|a|..] == x[..|y|] && (a + y)[|a|..] == y;
    }
  }

  /** A key begins with the prefix of exactly its own model and revision. */
  lemma PrefixIdentifies(model: u64, revision: u64, backend: bytes, dtype: bytes, quantization: bytes, m: u64, r: u64)
    ensures StartsWith(Key(model, revision, backend, dtype, quantization), Prefix(m, r)) <==>
            model == m && revision == r
  {
    hide Decimal, StartsWith;
    var rest := Ascii(";be=") + backend + Ascii(";dt=") + dtype + Ascii(";q=") + quantization;
    var x, y := Decimal(revision) + rest, Decimal(r) + Ascii(";");
    assert Ascii(";be=")[0] == SEMICOLON && Ascii(";")[0] == SEMICOLON && Ascii(";rev=")[0] == SEMICOLON;
    SameStart(Ascii("model="), Decimal(model) + (Ascii(";rev=") + x), Decimal(m) + (Ascii(";rev=") + y));
    NumeralEnds(Decimal(model), Decimal(m), Ascii(";rev=") + x, Ascii(";rev=") + y);
    SameStart(Ascii(";rev="), x, y);
    NumeralEnds(Decimal(revision), Decimal(r), rest, Ascii(";"));
    assert StartsWith(rest, Ascii(";")) by { OneSemicolon(rest); }
    if Decimal(model) == Decimal(m) { DecimalInjective(model, m); }
    if Decimal(revision) == Decimal(r) { DecimalInjective(revision, r); }
  }

  lemma OneSemicolon(rest: bytes)
    requires rest != [] && rest[0] == SEMICOLON
    ensures StartsWith(rest, Ascii(";"))
  {
    assert rest[..1] == Ascii(";");
  }

  // ---------- The search ----------

  /** std::map::lower_bound: the first key that is not before `p`. */
  function LowerBound(keys: set<bytes>, p: bytes): (o: Option<bytes>)
    ensures o.None? <==> forall k | k in keys :: !LeText(p, k)
    ensures o.Some? ==> o.value in keys && LeText(p, o.value) && forall k | k in keys && LeText(p, k) ::
            LeText(o.value, k)
  {
    var above := SortedTexts(set k | k in keys && LeText(p, k));
    assert forall k :: k in above <==> k in keys && LeText(p, k);
    assert forall k | k in keys :: LeText(k, k) by { TextOrder(); }
    if above == [] then None else Some(above[0])
  }

  /** The lower bound, if it continues `p`. */
  function FindPrefix(keys: set<bytes>, p: bytes): Option<bytes> {
    var l := LowerBound(keys, p);
    if l.Some? && StartsWith(l.value, p) then l else None
  }

  lemma {:induction false} ContinuationAbove(p: bytes, k: bytes)
    requires StartsWith(k, p)
    ensures LeText(p, k)
    decreases |p|
  {
    if p != [] {
      assert k[..|p|][1..] == k[1..][..|p| - 1];
      assert k[..|p|][0] == p[0];
      ContinuationAbove(p[1..], k[1..]);
    }
  }

  /** In the order of texts, the continuations of `p` lie side by side. */
  lemma {:induction false} ContinuationsContiguous(p: bytes, x: bytes, k: bytes)
    requires StartsWith(k, p) && LeText(p, x) && LeText(x, k)
    ensures StartsWith(x, p)
    decreases |p|
  {
    if p != [] {
      assert k[..|p|][0] == p[0] && k[..|p|][1..] == k[1..][..|p| - 1];
      ContinuationsContiguous(p[1..], x[1..], k[1..]);
      assert x == [x[0]] + x[1..] && p == [p[0]] + p[1..];
      SameStart([p[0]], x[1..], p[1..]);
    }
  }

  /** The search finds a key exactly when some key continues `p`, and then the least of them. */
  lemma FindPrefixExactly(keys: set<bytes>, p: bytes)
    ensures FindPrefix(keys, p).Some? <==> exists k :: k in keys && StartsWith(k, p)
    ensures FindPrefix(keys, p).Some? ==>
              var f := FindPrefix(keys, p).value;
              f in keys && StartsWith(f, p) && forall k | k in keys && StartsWith(k, p) :: LeText(f, k)
  {
    hide StartsWith, LeText;
    var l := LowerBound(keys, p);
    forall k | k in keys && StartsWith(k, p) ensures l.Some? && LeText(l.value, k) && StartsWith(l.value, p) {
      ContinuationAbove(p, k);
      ContinuationsContiguous(p, l.value, k);
    }
  }

  function ResolveKey(t: Catalog, candidate: bytes, prefix: bytes): bytes {
    if candidate in t then candidate
    else
      var f := FindPrefix(t.Keys, prefix);
      if f.Some? then f.value else candidate
  }

  function ProfileFor(t: Catalog, d: Descriptor): Option<Profile> {
    if KeyFor(d) in t then Some(t[KeyFor(d)])
    else
      var f := FindPrefix(t.Keys, Prefix(d.modelId, d.modelRevision));
      if f.Some? then Some(t[f.value]) else None
  }

  /** Whether a profile of this model and revision is registered. */
  ghost predicate Registered(t: Catalog, model: u64, revision: u64) {
    exists k :: k in t && t[k].modelId == model && t[k].revision == revision
  }

  /** The prefix search finds an entry exactly when some registered profile has this model and
      revision; it is the one of least key. */
  lemma SearchExactly(t: Catalog, model: u64, revision: u64)
    requires WellKeyed(t)
    ensures var f := FindPrefix(t.Keys, Prefix(model, revision));
            && (f.Some? <==> Registered(t, model, revision))
            && (f.Some? ==> f.value in t && t[f.value].modelId == model && t[f.value].revision == revision &&
                            forall k | k in t && t[k].modelId == model && t[k].revision == revision ::
                              LeText(f.value, k))
  {
    hide FindPrefix, StartsWith, Key, Prefix, LeText;
    FindPrefixExactly(t.Keys, Prefix(model, revision));
    forall k | k in t
      ensures StartsWith(k, Prefix(model, revision)) <==> t[k].modelId == model && t[k].revision == revision
    {
      var p := t[k];
      PrefixIdentifies(p.modelId, p.revision, p.backend, p.dtype, p.quantization, model, revision);
    }
  }

  /** The two resolutions, by key and by profile, always select the same entry; and a profile is found
      exactly when one of the descriptor's model and revision is registered. */
  lemma ResolutionsAgree(t: Catalog, d: Descriptor)
    requires WellKeyed(t)
    ensures var k := ResolveKey(t, KeyFor(d), Prefix(d.modelId, d.modelRevision));
            ProfileFor(t, d) == if k in t then Some(t[k]) else None
    ensures ProfileFor(t, d).Some? <==> Registered(t, d.modelId, d.modelRevision)
    ensures ProfileFor(t, d).Some? ==>
              ProfileFor(t, d).value.modelId == d.modelId && ProfileFor(t, d).value.revision == d.modelRevision
  {
    hide FindPrefix, StartsWith, Key, Prefix, LeText;
    SearchExactly(t, d.modelId, d.modelRevision);
    if KeyFor(d) in t {
      var p := t[KeyFor(d)];
      PrefixIdentifies(d.modelId, d.modelRevision, d.backend, d.dtype, d.quantization, d.modelId, d.modelRevision);
      PrefixIdentifies(p.modelId, p.revision, p.backend, p.dtype, p.quantization, d.modelId, d.modelRevision);
    }
  }
}
