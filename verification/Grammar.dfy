/** The byte formats of serialize.hpp as values: for each format a printer `PutX`, which puts an
    encoding in front of what follows it, and a parser `GetX`, which takes one off the front.

    Two laws are proved for each format. The round trip: parsing what was printed gives back the
    value and exactly what followed it. Locality (`Local`): a successful parse is not disturbed by
    bytes appended behind it; hence no strict prefix of an encoding can be parsed. */
module Grammar {
  import opened Words

  const MAX_LEN: nat := 64 * 1024 * 1024
  const MAX_COUNT: nat := 0x10_0000

  datatype Parse<+T> = Fail | Got(value: T, rest: bytes) {
    predicate IsFailure() { Fail? }
    function PropagateFailure<U>(): Parse<U>
      requires Fail?
    {
      Fail
    }
    function Extract(): (T, bytes)
      requires Got?
    {
      (value, rest)
    }
  }

  /** A parser that succeeds on `s` gives the same value on `s + t`, and leaves `t` unread. */
  ghost predicate Local<T(!new)>(get: bytes -> Parse<T>) {
    forall s: bytes, t: bytes {:trigger get(s), s + t} ::
      get(s).Got? ==> get(s + t) == Got(get(s).value, get(s).rest + t)
  }

  // ---------- Little-endian words ----------

  function Le(v: nat, n: nat): (r: bytes)
    ensures |r| == n
  {
    if n == 0 then [] else [v % 256] + Le(v / 256, n - 1)
  }

  function FromLe(b: bytes): nat {
    if b == [] then 0 else b[0] + 256 * FromLe(b[1..])
  }

  function Pow256(n: nat): (p: nat)
    ensures p > 0
  {
    if n == 0 then 1 else 256 * Pow256(n - 1)
  }

  lemma {:induction false} FromLeBound(b: bytes)
    ensures FromLe(b) < Pow256(|b|)
    ensures |b| == 4 ==> FromLe(b) <= U32_MAX
    ensures |b| == 8 ==> FromLe(b) <= U64_MAX
  {
    if b != [] { FromLeBound(b[1..]); }
    Sizes();
  }

  lemma Sizes()
    ensures Pow256(4) == U32_MAX + 1 && Pow256(8) == U64_MAX + 1
  {
    assert Pow256(4) == 0x1_0000_0000;
    assert Pow256(6) == 0x1_0000_0000_0000;
  }

  lemma {:induction false} LeRoundTrip(v: nat, n: nat)
    requires v < Pow256(n)
    ensures FromLe(Le(v, n)) == v
  {
    if n > 0 { LeRoundTrip(v / 256, n - 1); }
  }

  function Word32(b: bytes): (v: u32)
    requires |b| == 4
  {
    FromLeBound(b);
    FromLe(b)
  }

  function Word64(b: bytes): (v: u64)
    requires |b| == 8
  {
    FromLeBound(b);
    FromLe(b)
  }

  // ---------- Primitives ----------

  function PutU8(v: byte, k: bytes): bytes { [v] + k }
  function GetU8(s: bytes): Parse<byte> {
    if |s| < 1 then Fail else Got(s[0], s[1..])
  }

  function PutU32(v: u32, k: bytes): bytes { Le(v, 4) + k }
  function GetU32(s: bytes): Parse<u32> {
    if |s| < 4 then Fail else Got(Word32(s[..4]), s[4..])
  }

  function PutU64(v: u64, k: bytes): bytes { Le(v, 8) + k }
  function GetU64(s: bytes): Parse<u64> {
    if |s| < 8 then Fail else Got(Word64(s[..8]), s[8..])
  }

  predicate InI64(v: int) { -0x8000_0000_0000_0000 <= v < 0x8000_0000_0000_0000 }

  /** Two's complement: the cast to an unsigned word keeps the low 64 bits. */
  function PutI64(v: int, k: bytes): bytes { PutU64(v % (U64_MAX + 1), k) }
  function GetI64(s: bytes): Parse<int> {
    var (w, t) :- GetU64(s);
    Got(if w < 0x8000_0000_0000_0000 then w else w - (U64_MAX + 1), t)
  }

  function PutFlag(b: bool, k: bytes): bytes { PutU8(if b then 1 else 0, k) }
  function GetFlag(s: bytes): Parse<bool> {
    var (b, t) :- GetU8(s);
    Got(b != 0, t)
  }

  function PutText(x: bytes, k: bytes): bytes { PutU32(|x| % (U32_MAX + 1), x + k) }
  function GetText(s: bytes): Parse<bytes> {
    var (n, t) :- GetU32(s);
    if n > MAX_LEN || n > |t| then Fail else Got(t[..n], t[n..])
  }

  lemma U32RoundTrip(v: u32, k: bytes)
    ensures GetU32(PutU32(v, k)) == Got(v, k)
  {
    Sizes();
    LeRoundTrip(v, 4);
    assert PutU32(v, k)[..4] == Le(v, 4);
    assert PutU32(v, k)[4..] == k;
  }

  lemma U64RoundTrip(v: u64, k: bytes)
    ensures GetU64(PutU64(v, k)) == Got(v, k)
  {
    Sizes();
    LeRoundTrip(v, 8);
    assert PutU64(v, k)[..8] == Le(v, 8);
    assert PutU64(v, k)[8..] == k;
  }

  lemma TextRoundTrip(x: bytes, k: bytes)
    requires |x| <= MAX_LEN
    ensures GetText(PutText(x, k)) == Got(x, k)
  {
    U32RoundTrip(|x|, x + k);
    assert (x + k)[..|x|] == x;
    assert (x + k)[|x|..] == k;
  }

  lemma I64RoundTrip(v: int, k: bytes)
    requires InI64(v)
    ensures GetI64(PutI64(v, k)) == Got(v, k)
  {
    U64RoundTrip(v % (U64_MAX + 1), k);
  }

  lemma SmallRoundTrip(v: byte, b: bool, k: bytes)
    ensures GetU8(PutU8(v, k)) == Got(v, k)
    ensures GetFlag(PutFlag(b, k)) == Got(b, k)
  {
  }

  lemma WordsRoundTrip()
    ensures forall v: byte, k: bytes :: GetU8(PutU8(v, k)) == Got(v, k)
    ensures forall v: u32, k: bytes :: GetU32(PutU32(v, k)) == Got(v, k)
    ensures forall v: u64, k: bytes :: GetU64(PutU64(v, k)) == Got(v, k)
    ensures forall v: int, k: bytes | InI64(v) :: GetI64(PutI64(v, k)) == Got(v, k)
    ensures forall b: bool, k: bytes :: GetFlag(PutFlag(b, k)) == Got(b, k)
    ensures forall x: bytes, k: bytes | |x| <= MAX_LEN :: GetText(PutText(x, k)) == Got(x, k)
  {
    forall v: byte, b: bool, k: bytes ensures GetU8(PutU8(v, k)) == Got(v, k) && GetFlag(PutFlag(b, k)) == Got(b, k) {
      SmallRoundTrip(v, b, k);
    }
    forall v: u32, k: bytes ensures GetU32(PutU32(v, k)) == Got(v, k) { U32RoundTrip(v, k); }
    forall v: u64, k: bytes ensures GetU64(PutU64(v, k)) == Got(v, k) { U64RoundTrip(v, k); }
    forall v: int, k: bytes | InI64(v) ensures GetI64(PutI64(v, k)) == Got(v, k) { I64RoundTrip(v, k); }
    forall x: bytes, k: bytes | |x| <= MAX_LEN ensures GetText(PutText(x, k)) == Got(x, k) { TextRoundTrip(x, k); }
  }

  lemma WordsLocal()
    ensures Local(GetU8) && Local(GetU32) && Local(GetU64) && Local(GetI64) && Local(GetFlag) && Local(GetText)
  {
    assert Local(GetU8);
    assert Local(GetU32) by {
      forall s: bytes, t: bytes | GetU32(s).Got? ensures GetU32(s + t) == Got(GetU32(s).value, GetU32(s).rest + t) {
        assert (s + t)[..4] == s[..4];
      }
    }
    assert Local(GetU64) by {
      forall s: bytes, t: bytes | GetU64(s).Got? ensures GetU64(s + t) == Got(GetU64(s).value, GetU64(s).rest + t) {
        assert (s + t)[..8] == s[..8];
      }
    }
    assert Local(GetI64);
    assert Local(GetFlag);
    assert Local(GetText) by {
      forall s: bytes, t: bytes | GetText(s).Got? ensures GetText(s + t) == Got(GetText(s).value, GetText(s).rest + t) {
        var u := GetU32(s);
        assert GetU32(s + t) == Got(u.value, u.rest + t);
        assert (u.rest + t)[..u.value] == u.rest[..u.value];
        assert (u.rest + t)[u.value..] == u.rest[u.value..] + t;
      }
    }
  }

  // ---------- Options and lists ----------

  function PutOption<T>(put: (T, bytes) -> bytes, o: Option<T>, k: bytes): bytes {
    PutFlag(o.Some?, if o.Some? then put(o.value, k) else k)
  }
  function GetOption<T>(get: bytes -> Parse<T>, s: bytes): Parse<Option<T>> {
    var (present, t) :- GetFlag(s);
    if present then
      var (v, u) :- get(t);
      Got(Some(v), u)
    else Got(None, t)
  }

  function PutEach<T>(put: (T, bytes) -> bytes, xs: seq<T>, k: bytes): bytes {
    if xs == [] then k else put(xs[0], PutEach(put, xs[1..], k))
  }
  function GetEach<T>(get: bytes -> Parse<T>, n: nat, s: bytes): (p: Parse<seq<T>>)
    ensures p.Got? ==> |p.value| == n
    decreases n, |s|
  {
    if n == 0 then Got([], s)
    else
      var (x, t) :- get(s);
      var (xs, u) :- GetEach(get, n - 1, t);
      Got([x] + xs, u)
  }

  function PutList<T>(put: (T, bytes) -> bytes, xs: seq<T>, k: bytes): bytes {
    PutU32(|xs| % (U32_MAX + 1), PutEach(put, xs, k))
  }
  function GetList<T>(get: bytes -> Parse<T>, most: nat, s: bytes): Parse<seq<T>> {
    var (n, t) :- GetU32(s);
    if n > most then Fail else GetEach(get, n, t)
  }

  ghost predicate RoundTrips<T(!new)>(put: (T, bytes) -> bytes, get: bytes -> Parse<T>, x: T) {
    forall k: bytes :: get(put(x, k)) == Got(x, k)
  }

  lemma OptionRoundTrip<T(!new)>(put: (T, bytes) -> bytes, get: bytes -> Parse<T>, o: Option<T>, k: bytes)
    requires o.Some? ==> RoundTrips(put, get, o.value)
    ensures GetOption(get, PutOption(put, o, k)) == Got(o, k)
  {
    WordsRoundTrip();
  }

  lemma {:induction false} EachRoundTrip<T(!new)>(put: (T, bytes) -> bytes, get: bytes -> Parse<T>, xs: seq<T>,
    k: bytes)
    requires forall x | x in xs :: RoundTrips(put, get, x)
    ensures GetEach(get, |xs|, PutEach(put, xs, k)) == Got(xs, k)
  {
    if xs != [] {
      assert RoundTrips(put, get, xs[0]);
      EachRoundTrip(put, get, xs[1..], k);
      assert [xs[0]] + xs[1..] == xs;
    }
  }

  lemma ListRoundTrip<T(!new)>(put: (T, bytes) -> bytes, get: bytes -> Parse<T>, most: nat, xs: seq<T>, k: bytes)
    requires |xs| <= most <= U32_MAX
    requires forall x | x in xs :: RoundTrips(put, get, x)
    ensures GetList(get, most, PutList(put, xs, k)) == Got(xs, k)
  {
    U32RoundTrip(|xs|, PutEach(put, xs, k));
    EachRoundTrip(put, get, xs, k);
  }

  lemma {:induction false} EachLocal<T(!new)>(get: bytes -> Parse<T>, n: nat, s: bytes, t: bytes)
    requires Local(get)
    requires GetEach(get, n, s).Got?
    ensures GetEach(get, n, s + t) == Got(GetEach(get, n, s).value, GetEach(get, n, s).rest + t)
    decreases n
  {
    if n > 0 {
      var p := get(s);
      assert get(s + t) == Got(p.value, p.rest + t);
      EachLocal(get, n - 1, p.rest, t);
    }
  }

  lemma ListLocal<T(!new)>(get: bytes -> Parse<T>, most: nat)
    requires Local(get)
    ensures Local((s: bytes) => GetList(get, most, s))
    ensures Local((s: bytes) => GetOption(get, s))
  {
    WordsLocal();
    var list, option := (s: bytes) => GetList(get, most, s), (s: bytes) => GetOption(get, s);
    forall s: bytes, t: bytes | list(s).Got? ensures list(s + t) == Got(list(s).value, list(s).rest + t) {
      var u := GetU32(s);
      assert GetU32(s + t) == Got(u.value, u.rest + t);
      EachLocal(get, u.value, u.rest, t);
    }
    forall s: bytes, t: bytes | option(s).Got? ensures option(s + t) == Got(option(s).value, option(s).rest + t) {
      var u := GetFlag(s);
      assert GetFlag(s + t) == Got(u.value, u.rest + t);
      if u.value { assert get(u.rest + t) == Got(get(u.rest).value, get(u.rest).rest + t); }
    }
  }
}
