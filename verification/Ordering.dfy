/** The order in which std::map and std::set are traversed: ascending keys. */
module Ordering {
  import opened Words

  ghost predicate TotalOrder<T(!new)>(le: (T, T) -> bool) {
    && (forall a, b :: le(a, b) || le(b, a))
    && (forall a, b :: le(a, b) && le(b, a) ==> a == b)
    && (forall a, b, c :: le(a, b) && le(b, c) ==> le(a, c))
  }

  ghost predicate IsLeast<T(!new)>(s: set<T>, le: (T, T) -> bool, x: T) {
    x in s && forall y :: y in s ==> le(x, y)
  }

  lemma {:induction false} LeastExists<T(!new)>(s: set<T>, le: (T, T) -> bool)
    requires TotalOrder(le) && s != {}
    ensures exists x :: IsLeast(s, le, x)
    decreases |s|
  {
    var e :| e in s;
    if s == {e} {
      assert IsLeast(s, le, e);
    } else {
      LeastExists(s - {e}, le);
      var x :| IsLeast(s - {e}, le, x);
      assert IsLeast(s, le, if le(e, x) then e else x);
    }
  }

  /** The elements of a set, each once, in ascending order. */
  function Sorted<T(!new, ==)>(s: set<T>, le: (T, T) -> bool): (r: seq<T>)
    requires TotalOrder(le)
    ensures |r| == |s|
    ensures forall x :: x in r <==> x in s
    ensures forall i, j :: 0 <= i < j < |r| ==> le(r[i], r[j]) && r[i] != r[j]
    decreases |s|
  {
    if s == {} then [] else
      LeastExists(s, le);
      var x :| x in s && forall y :: y in s ==> le(x, y);
      [x] + Sorted(s - {x}, le)
  }

  function LeWord(a: u64, b: u64): bool { a <= b }

  function SortedWords(s: set<u64>): (r: seq<u64>)
    ensures |r| == |s|
    ensures forall x :: x in r <==> x in s
    ensures forall i, j :: 0 <= i < j < |r| ==> r[i] < r[j]
  {
    Sorted(s, LeWord)
  }

  /** The order of std::string: bytes compared unsigned, a proper prefix first. */
  predicate LeText(a: bytes, b: bytes)
    decreases |a|
  {
    a == [] || (b != [] && (a[0] < b[0] || (a[0] == b[0] && LeText(a[1..], b[1..]))))
  }

  /** `b` continues `a`, or has the larger byte where they first differ. */
  ghost predicate NotAfter(a: bytes, b: bytes) {
    (|a| <= |b| && b[..|a|] == a) || (exists i :: 0 <= i < |a| && i < |b| && a[..i] == b[..i] && a[i] < b[i])
  }

  lemma {:induction false} LeTextExactly(a: bytes, b: bytes)
    ensures LeText(a, b) <==> NotAfter(a, b)
    decreases |a|
  {
    if a != [] && b != [] && a[0] == b[0] {
      LeTextExactly(a[1..], b[1..]);
      NotAfterTails(a, b);
    } else if a != [] && b != [] {
      assert a[..0] == b[..0];
      if NotAfter(a, b) { HeadsOrdered(a, b); }
    }
  }

  lemma HeadsOrdered(a: bytes, b: bytes)
    requires a != [] && b != [] && NotAfter(a, b)
    ensures a[0] <= b[0]
  {
    if |a| <= |b| && b[..|a|] == a {
      assert b[..|a|][0] == b[0];
    } else {
      var i :| 0 <= i < |a| && i < |b| && a[..i] == b[..i] && a[i] < b[i];
      if i > 0 { assert a[..i][0] == b[..i][0]; }
    }
  }

  lemma NotAfterTails(a: bytes, b: bytes)
    requires a != [] && b != [] && a[0] == b[0]
    ensures NotAfter(a, b) <==> NotAfter(a[1..], b[1..])
  {
    var x, y := a[1..], b[1..];
    assert a == [a[0]] + x && b == [a[0]] + y;
    if |a| <= |b| { assert b[..|a|] == [a[0]] + y[..|x|]; }
    forall i | 0 <= i < |x| && i < |y| ensures a[..i + 1] == [a[0]] + x[..i] && b[..i + 1] == [a[0]] + y[..i] {
    }
    if i :| 0 <= i < |a| && i < |b| && a[..i] == b[..i] && a[i] < b[i] {
      assert x[..i - 1] == a[..i][1..] && y[..i - 1] == b[..i][1..];
      assert x[i - 1] < y[i - 1];
    }
    if i :| 0 <= i < |x| && i < |y| && x[..i] == y[..i] && x[i] < y[i] {
      assert a[..i + 1] == b[..i + 1] && a[i + 1] < b[i + 1];
    }
    if |x| <= |y| && y[..|x|] == x { assert b[..|a|] == a; }
    if |a| <= |b| && b[..|a|] == a { assert y[..|x|] == b[..|a|][1..] == x; }
  }

  lemma {:induction false} LeTextTotal(a: bytes, b: bytes)
    ensures LeText(a, b) || LeText(b, a)
    ensures LeText(a, b) && LeText(b, a) ==> a == b
    decreases |a|
  {
    if a != [] && b != [] {
      LeTextTotal(a[1..], b[1..]);
      if a[0] == b[0] { assert a[1..] == b[1..] ==> a == [a[0]] + a[1..] == b; }
    }
  }

  lemma {:induction false} LeTextTransitive(a: bytes, b: bytes, c: bytes)
    requires LeText(a, b) && LeText(b, c)
    ensures LeText(a, c)
    decreases |a|
  {
    if a != [] && a[0] == b[0] == c[0] { LeTextTransitive(a[1..], b[1..], c[1..]); }
  }

  lemma TextOrder()
    ensures TotalOrder(LeText)
  {
    forall a: bytes, b: bytes ensures (LeText(a, b) || LeText(b, a)) && (LeText(a, b) && LeText(b, a) ==> a == b) {
      LeTextTotal(a, b);
    }
    forall a: bytes, b: bytes, c: bytes | LeText(a, b) && LeText(b, c) ensures LeText(a, c) {
      LeTextTransitive(a, b, c);
    }
  }

  function SortedTexts(s: set<bytes>): (r: seq<bytes>)
    ensures |r| == |s|
    ensures forall x :: x in r <==> x in s
    ensures forall i, j :: 0 <= i < j < |r| ==> LeText(r[i], r[j]) && r[i] != r[j]
  {
    TextOrder();
    Sorted(s, LeText)
  }
}
