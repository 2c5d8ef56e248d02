/** The field formats shared by the record codecs of src/core/codec.cpp. */
module Fields {
  import opened Words
  import opened Resources
  import opened Records
  import opened Grammar

  const MAX_OVERRIDES: nat := 0x1_0000

  predicate InI32(v: int) { -0x8000_0000 <= v < 0x8000_0000 }

  function PutI32(v: int, k: bytes): bytes { PutU32(v % (U32_MAX + 1), k) }
  function GetI32(s: bytes): Parse<int> {
    var (w, t) :- GetU32(s);
    Got(if w < 0x8000_0000 then w else w - (U32_MAX + 1), t)
  }

  function PutVec(v: Vec, k: bytes): bytes { PutEach(PutU64, v, k) }
  function GetVec(s: bytes): Parse<Vec> {
    var (v, t) :- GetEach(GetU64, 12, s);
    Got(v, t)
  }

  function PutLevels(v: Levels, k: bytes): bytes { PutEach(PutU8, v, k) }
  function GetLevels(s: bytes): Parse<Levels> {
    var (v, t) :- GetEach(GetU8, 12, s);
    Got(v, t)
  }

  predicate FitText(x: bytes) { |x| <= MAX_LEN }
  predicate FitTexts(xs: seq<bytes>) { |xs| <= MAX_COUNT && forall x | x in xs :: FitText(x) }

  function PutTexts(xs: seq<bytes>, k: bytes): bytes { PutList(PutText, xs, k) }
  function GetTexts(s: bytes): Parse<seq<bytes>> { GetList(GetText, MAX_COUNT, s) }

  function PutOptionU64(o: Option<u64>, k: bytes): bytes { PutOption(PutU64, o, k) }
  function GetOptionU64(s: bytes): Parse<Option<u64>> { GetOption(GetU64, s) }
  function PutOptionI64(o: Option<int>, k: bytes): bytes { PutOption(PutI64, o, k) }
  function GetOptionI64(s: bytes): Parse<Option<int>> { GetOption(GetI64, s) }
  function PutOptionVec(o: Option<Vec>, k: bytes): bytes { PutOption(PutVec, o, k) }
  function GetOptionVec(s: bytes): Parse<Option<Vec>> { GetOption(GetVec, s) }
  function PutOptionU8(o: Option<byte>, k: bytes): bytes { PutOption(PutU8, o, k) }
  function GetOptionU8(s: bytes): Parse<Option<byte>> { GetOption(GetU8, s) }
  function PutOptionFlag(o: Option<bool>, k: bytes): bytes { PutOption(PutFlag, o, k) }
  function GetOptionFlag(s: bytes): Parse<Option<bool>> { GetOption(GetFlag, s) }

  // ---------- Round trips ----------

  lemma I32RoundTrip(v: int, k: bytes)
    requires InI32(v)
    ensures GetI32(PutI32(v, k)) == Got(v, k)
  {
    hide PutU32, GetU32;
    U32RoundTrip(v % (U32_MAX + 1), k);
  }

  lemma VecRoundTrip(v: Vec, k: bytes)
    ensures GetVec(PutVec(v, k)) == Got(v, k)
  {
    hide PutU64, GetU64;
    forall x | x in v ensures RoundTrips(PutU64, GetU64, x) { WordsRoundTrip(); }
    EachRoundTrip(PutU64, GetU64, v, k);
  }

  lemma LevelsRoundTrip(v: Levels, k: bytes)
    ensures GetLevels(PutLevels(v, k)) == Got(v, k)
  {
    hide PutU8, GetU8;
    forall x | x in v ensures RoundTrips(PutU8, GetU8, x) { WordsRoundTrip(); }
    EachRoundTrip(PutU8, GetU8, v, k);
  }

  lemma TextsRoundTrip(xs: seq<bytes>, k: bytes)
    requires FitTexts(xs)
    ensures GetTexts(PutTexts(xs, k)) == Got(xs, k)
  {
    hide PutText, GetText;
    forall x | x in xs ensures RoundTrips(PutText, GetText, x) { WordsRoundTrip(); }
    ListRoundTrip(PutText, GetText, MAX_COUNT, xs, k);
  }

  lemma OptionsRoundTrip(k: bytes)
    ensures forall o: Option<u64> :: GetOptionU64(PutOptionU64(o, k)) == Got(o, k)
    ensures forall o: Option<int> | o.Some? ==> InI64(o.value) :: GetOptionI64(PutOptionI64(o, k)) == Got(o, k)
    ensures forall o: Option<Vec> :: GetOptionVec(PutOptionVec(o, k)) == Got(o, k)
    ensures forall o: Option<byte> :: GetOptionU8(PutOptionU8(o, k)) == Got(o, k)
    ensures forall o: Option<bool> :: GetOptionFlag(PutOptionFlag(o, k)) == Got(o, k)
  {
    hide PutU8, GetU8, PutU64, GetU64, PutI64, GetI64, PutFlag, GetFlag, PutVec, GetVec, PutOption, GetOption;
    WordsRoundTrip();
    forall v: Vec, k: bytes ensures GetVec(PutVec(v, k)) == Got(v, k) { VecRoundTrip(v, k); }
    forall o: Option<u64>
      ensures GetOptionU64(PutOptionU64(o, k)) == Got(o, k)
    {
      OptionRoundTrip(PutU64, GetU64, o, k);
    }
    forall o: Option<int> | o.Some? ==> InI64(o.value) ensures GetOptionI64(PutOptionI64(o, k)) == Got(o, k) {
      OptionRoundTrip(PutI64, GetI64, o, k);
    }
    forall o: Option<Vec>
      ensures GetOptionVec(PutOptionVec(o, k)) == Got(o, k)
    {
      OptionRoundTrip(PutVec, GetVec, o, k);
    }
    forall o: Option<byte> ensures GetOptionU8(PutOptionU8(o, k)) == Got(o, k) { OptionRoundTrip(PutU8, GetU8, o, k); }
    forall o: Option<bool>
      ensures GetOptionFlag(PutOptionFlag(o, k)) == Got(o, k)
    {
      OptionRoundTrip(PutFlag, GetFlag, o, k);
    }
  }

  /** Every field format round-trips, in the form a record's proof rewrites with. */
  lemma FieldsRoundTrip()
    ensures forall v: byte, k: bytes :: GetU8(PutU8(v, k)) == Got(v, k)
    ensures forall v: u32, k: bytes :: GetU32(PutU32(v, k)) == Got(v, k)
    ensures forall v: u64, k: bytes :: GetU64(PutU64(v, k)) == Got(v, k)
    ensures forall v: int, k: bytes | InI64(v) :: GetI64(PutI64(v, k)) == Got(v, k)
    ensures forall v: int, k: bytes | InI32(v) :: GetI32(PutI32(v, k)) == Got(v, k)
    ensures forall b: bool, k: bytes :: GetFlag(PutFlag(b, k)) == Got(b, k)
    ensures forall x: bytes, k: bytes | FitText(x) :: GetText(PutText(x, k)) == Got(x, k)
    ensures forall v: Vec, k: bytes :: GetVec(PutVec(v, k)) == Got(v, k)
    ensures forall v: Levels, k: bytes :: GetLevels(PutLevels(v, k)) == Got(v, k)
    ensures forall xs: seq<bytes>, k: bytes | FitTexts(xs) :: GetTexts(PutTexts(xs, k)) == Got(xs, k)
    ensures forall o: Option<u64>, k: bytes :: GetOptionU64(PutOptionU64(o, k)) == Got(o, k)
    ensures forall o: Option<int>, k: bytes | o.Some? ==> InI64(o.value) ::
            GetOptionI64(PutOptionI64(o, k)) == Got(o, k)
    ensures forall o: Option<Vec>, k: bytes :: GetOptionVec(PutOptionVec(o, k)) == Got(o, k)
    ensures forall o: Option<byte>, k: bytes :: GetOptionU8(PutOptionU8(o, k)) == Got(o, k)
    ensures forall o: Option<bool>, k: bytes :: GetOptionFlag(PutOptionFlag(o, k)) == Got(o, k)
  {
    hide *;
    WordsRoundTrip();
    forall x: bytes, k: bytes | FitText(x) ensures GetText(PutText(x, k)) == Got(x, k) { FitMeans(x); }
    forall v: int, k: bytes | InI32(v) ensures GetI32(PutI32(v, k)) == Got(v, k) { I32RoundTrip(v, k); }
    forall v: Vec, k: bytes ensures GetVec(PutVec(v, k)) == Got(v, k) { VecRoundTrip(v, k); }
    forall v: Levels, k: bytes ensures GetLevels(PutLevels(v, k)) == Got(v, k) { LevelsRoundTrip(v, k); }
    forall xs: seq<bytes>, k: bytes | FitTexts(xs)
      ensures GetTexts(PutTexts(xs, k)) == Got(xs, k)
    {
      TextsRoundTrip(xs, k);
    }
    forall o: Option<u64>, k: bytes ensures GetOptionU64(PutOptionU64(o, k)) == Got(o, k) { OptionsRoundTrip(k); }
    forall o: Option<int>, k: bytes | o.Some? ==> InI64(o.value)
      ensures GetOptionI64(PutOptionI64(o, k)) == Got(o, k)
    {
      OptionsRoundTrip(k);
    }
    forall o: Option<Vec>, k: bytes ensures GetOptionVec(PutOptionVec(o, k)) == Got(o, k) { OptionsRoundTrip(k); }
    forall o: Option<byte>, k: bytes ensures GetOptionU8(PutOptionU8(o, k)) == Got(o, k) { OptionsRoundTrip(k); }
    forall o: Option<bool>, k: bytes ensures GetOptionFlag(PutOptionFlag(o, k)) == Got(o, k) { OptionsRoundTrip(k); }
  }

  lemma FitMeans(x: bytes)
    requires FitText(x)
    ensures |x| <= MAX_LEN
  {
  }

  // ---------- Locality ----------

  /** `q` is what `p` becomes when `t` is appended behind its input. */
  ghost predicate Moved<T>(p: Parse<T>, q: Parse<T>, t: bytes) { p.Got? ==> q == Got(p.value, p.rest + t) }

  lemma TwelveLocal<T(!new)>(get: bytes -> Parse<T>, s: bytes, t: bytes)
    requires Local(get)
    ensures Moved(GetEach(get, 12, s), GetEach(get, 12, s + t), t)
  {
    if GetEach(get, 12, s).Got? { EachLocal(get, 12, s, t); }
  }

  lemma ListMoves<T(!new)>(get: bytes -> Parse<T>, most: nat, s: bytes, t: bytes)
    requires Local(get)
    ensures Moved(GetList(get, most, s), GetList(get, most, s + t), t)
    ensures Moved(GetOption(get, s), GetOption(get, s + t), t)
  {
    ListLocal(get, most);
    var list, option := (s: bytes) => GetList(get, most, s), (s: bytes) => GetOption(get, s);
    assert list(s).Got? ==> list(s + t) == Got(list(s).value, list(s).rest + t);
    assert option(s).Got? ==> option(s + t) == Got(option(s).value, option(s).rest + t);
  }

  lemma PrimitiveMoves(s: bytes, t: bytes)
    ensures Moved(GetU8(s), GetU8(s + t), t) && Moved(GetU32(s), GetU32(s + t), t)
    ensures Moved(GetU64(s), GetU64(s + t), t) && Moved(GetI64(s), GetI64(s + t), t)
    ensures Moved(GetI32(s), GetI32(s + t), t) && Moved(GetFlag(s), GetFlag(s + t), t)
    ensures Moved(GetText(s), GetText(s + t), t) && Moved(GetVec(s), GetVec(s + t), t)
    ensures Moved(GetLevels(s), GetLevels(s + t), t) && Moved(GetTexts(s), GetTexts(s + t), t)
  {
    hide GetU8, GetU32, GetU64, GetI64, GetFlag, GetText, GetEach, GetList;
    WordsLocal();
    TwelveLocal(GetU64, s, t);
    TwelveLocal(GetU8, s, t);
    ListMoves(GetText, MAX_COUNT, s, t);
  }

  lemma VecLocal()
    ensures Local(GetVec)
  {
    hide *;
    forall s: bytes, t: bytes | GetVec(s).Got? ensures GetVec(s + t) == Got(GetVec(s).value, GetVec(s).rest + t) {
      PrimitiveMoves(s, t);
      MovedMeans(GetVec(s), GetVec(s + t), t);
    }
    LocalMeans(GetVec);
  }

  lemma MovedMeans<T>(p: Parse<T>, q: Parse<T>, t: bytes)
    requires Moved(p, q, t)
    ensures p.Got? ==> q == Got(p.value, p.rest + t)
  {
  }

  lemma LocalMeans<T(!new)>(get: bytes -> Parse<T>)
    requires forall s: bytes, t: bytes {:trigger get(s), s + t} | get(s).Got? ::
             get(s + t) == Got(get(s).value, get(s).rest + t)
    ensures Local(get)
  {
  }

  lemma OptionMoves(s: bytes, t: bytes)
    ensures Moved(GetOptionU64(s), GetOptionU64(s + t), t) && Moved(GetOptionI64(s), GetOptionI64(s + t), t)
    ensures Moved(GetOptionVec(s), GetOptionVec(s + t), t) && Moved(GetOptionU8(s), GetOptionU8(s + t), t)
    ensures Moved(GetOptionFlag(s), GetOptionFlag(s + t), t)
  {
    hide GetU8, GetU64, GetI64, GetFlag, GetVec, GetOption, GetList;
    WordsLocal();
    VecLocal();
    ListMoves(GetU64, 0, s, t);
    ListMoves(GetI64, 0, s, t);
    ListMoves(GetVec, 0, s, t);
    ListMoves(GetU8, 0, s, t);
    ListMoves(GetFlag, 0, s, t);
  }

  /** Every field format is local, in the form a record's proof rewrites with. */
  lemma FieldsLocal()
    ensures forall s: bytes, t: bytes {:trigger GetU8(s + t)} :: Moved(GetU8(s), GetU8(s + t), t)
    ensures forall s: bytes, t: bytes {:trigger GetU32(s + t)} :: Moved(GetU32(s), GetU32(s + t), t)
    ensures forall s: bytes, t: bytes {:trigger GetU64(s + t)} :: Moved(GetU64(s), GetU64(s + t), t)
    ensures forall s: bytes, t: bytes {:trigger GetI64(s + t)} :: Moved(GetI64(s), GetI64(s + t), t)
    ensures forall s: bytes, t: bytes {:trigger GetI32(s + t)} :: Moved(GetI32(s), GetI32(s + t), t)
    ensures forall s: bytes, t: bytes {:trigger GetFlag(s + t)} :: Moved(GetFlag(s), GetFlag(s + t), t)
    ensures forall s: bytes, t: bytes {:trigger GetText(s + t)} :: Moved(GetText(s), GetText(s + t), t)
    ensures forall s: bytes, t: bytes {:trigger GetVec(s + t)} :: Moved(GetVec(s), GetVec(s + t), t)
    ensures forall s: bytes, t: bytes {:trigger GetLevels(s + t)} :: Moved(GetLevels(s), GetLevels(s + t), t)
    ensures forall s: bytes, t: bytes {:trigger GetTexts(s + t)} :: Moved(GetTexts(s), GetTexts(s + t), t)
    ensures forall s: bytes, t: bytes {:trigger GetOptionU64(s + t)} :: Moved(GetOptionU64(s), GetOptionU64(s + t), t)
    ensures forall s: bytes, t: bytes {:trigger GetOptionI64(s + t)} :: Moved(GetOptionI64(s), GetOptionI64(s + t), t)
    ensures forall s: bytes, t: bytes {:trigger GetOptionVec(s + t)} :: Moved(GetOptionVec(s), GetOptionVec(s + t), t)
    ensures forall s: bytes, t: bytes {:trigger GetOptionU8(s + t)} :: Moved(GetOptionU8(s), GetOptionU8(s + t), t)
    ensures forall s: bytes, t: bytes {:trigger GetOptionFlag(s + t)} ::
            Moved(GetOptionFlag(s), GetOptionFlag(s + t), t)
  {
    hide *;
    forall s: bytes, t: bytes
      ensures Moved(GetU8(s), GetU8(s + t), t) && Moved(GetU32(s), GetU32(s + t), t)
      ensures Moved(GetU64(s), GetU64(s + t), t) && Moved(GetI64(s), GetI64(s + t), t)
      ensures Moved(GetI32(s), GetI32(s + t), t) && Moved(GetFlag(s), GetFlag(s + t), t)
      ensures Moved(GetText(s), GetText(s + t), t) && Moved(GetVec(s), GetVec(s + t), t)
      ensures Moved(GetLevels(s), GetLevels(s + t), t) && Moved(GetTexts(s), GetTexts(s + t), t)
      ensures Moved(GetOptionU64(s), GetOptionU64(s + t), t) && Moved(GetOptionI64(s), GetOptionI64(s + t), t)
      ensures Moved(GetOptionVec(s), GetOptionVec(s + t), t) && Moved(GetOptionU8(s), GetOptionU8(s + t), t)
      ensures Moved(GetOptionFlag(s), GetOptionFlag(s + t), t)
    {
      PrimitiveMoves(s, t);
      OptionMoves(s, t);
    }
  }
}
