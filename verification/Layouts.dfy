/** Which bytes the formats put where: the fields of every record end to end, in order, and what each kind
    of field is made of. */
module Layouts {
  import opened Words
  import opened Ordering
  import opened Resources
  import opened Records
  import opened Grammar
  import opened Fields
  import opened Codec
  import opened Persistence
  import opened Engine
  import Frame
  import Crc
  import L = Ledger
  import P = Policies
  import Profiles

  // ---------- Numbers ----------

  /** A word is its octets, the low one first. */
  lemma LittleEndian(v: nat)
    ensures Le(v, 4) == [v % 0x100, v / 0x100 % 0x100, v / 0x1_0000 % 0x100, v / 0x100_0000 % 0x100]
    ensures Le(v, 8) == [v % 0x100, v / 0x100 % 0x100, v / 0x1_0000 % 0x100, v / 0x100_0000 % 0x100,
                         v / 0x1_0000_0000 % 0x100, v / 0x100_0000_0000 % 0x100,
                         v / 0x1_0000_0000_0000 % 0x100, v / 0x100_0000_0000_0000 % 0x100]
  {
    FourOctets(v, 4);
    FourOctets(v, 8);
    FourOctets(v / 0x1_0000_0000, 4);
    NoOctets(v / 0x1_0000_0000, 0);
    NoOctets(v / 0x1_0000_0000 / 0x1_0000_0000, 0);
    hide Le;
    HighOctets(v);
  }

  lemma HighOctets(v: nat)
    ensures v / 0x1_0000_0000 / 0x100 == v / 0x100_0000_0000
    ensures v / 0x1_0000_0000 / 0x1_0000 == v / 0x1_0000_0000_0000
    ensures v / 0x1_0000_0000 / 0x100_0000 == v / 0x100_0000_0000_0000
  {
  }

  lemma NoOctets(v: nat, n: nat)
    requires n == 0
    ensures Le(v, n) == []
  {
  }

  lemma FourOctets(v: nat, n: nat)
    requires n >= 4
    ensures Le(v, n) == [v % 0x100, v / 0x100 % 0x100, v / 0x1_0000 % 0x100, v / 0x100_0000 % 0x100]
                        + Le(v / 0x1_0000_0000, n - 4)
  {
    assert Le(v, n) == [v % 0x100] + Le(v / 0x100, n - 1);
    assert Le(v / 0x100, n - 1) == [v / 0x100 % 0x100] + Le(v / 0x100 / 0x100, n - 2);
    assert Le(v / 0x1_0000, n - 2) == [v / 0x1_0000 % 0x100] + Le(v / 0x1_0000 / 0x100, n - 3);
    assert Le(v / 0x100_0000, n - 3) == [v / 0x100_0000 % 0x100] + Le(v / 0x100_0000 / 0x100, n - 4);
  }

  // ---------- Fields ----------

  /** Every number, flag and text is put in front of what follows: a number as its octets, a negative one as its
      two's complement, a flag as one or zero, and a text as its length in four octets and its bytes. */
  lemma NumbersLaid(k: bytes)
    ensures forall v: byte :: PutU8(v, k) == [v] + k
    ensures forall v: u32 :: PutU32(v, k) == Le(v, 4) + k
    ensures forall v: u64 :: PutU64(v, k) == Le(v, 8) + k
    ensures forall v: int | InI64(v) :: PutI64(v, k) == Le(if v >= 0 then v else 0x1_0000_0000_0000_0000 + v, 8) + k
    ensures forall v: int | InI32(v) :: PutI32(v, k) == Le(if v >= 0 then v else 0x1_0000_0000 + v, 4) + k
    ensures PutFlag(true, k) == [1] + k && PutFlag(false, k) == [0] + k
    ensures forall x: bytes | |x| < 0x1_0000_0000 :: PutText(x, k) == Le(|x|, 4) + x + k
  {
    hide Le, PutI64, PutI32, PutText;
    forall v: int | InI64(v)
      ensures PutI64(v, k) == Le(if v >= 0 then v else 0x1_0000_0000_0000_0000 + v, 8) + k
    {
      SignedLaid(v, k);
    }
    forall v: int | InI32(v) ensures PutI32(v, k) == Le(if v >= 0 then v else 0x1_0000_0000 + v, 4) + k {
      ShortSignedLaid(v, k);
    }
    forall x: bytes | |x| < 0x1_0000_0000 ensures PutText(x, k) == Le(|x|, 4) + x + k { TextLaid(x, k); }
  }

  lemma SignedLaid(v: int, k: bytes)
    requires InI64(v)
    ensures PutI64(v, k) == Le(if v >= 0 then v else 0x1_0000_0000_0000_0000 + v, 8) + k
  {
    hide Le;
  }

  lemma ShortSignedLaid(v: int, k: bytes)
    requires InI32(v)
    ensures PutI32(v, k) == Le(if v >= 0 then v else 0x1_0000_0000 + v, 4) + k
  {
    hide Le;
  }

  lemma TextLaid(x: bytes, k: bytes)
    requires |x| < 0x1_0000_0000
    ensures PutText(x, k) == Le(|x|, 4) + x + k
  {
    hide Le;
    SmallWord(|x|);
    Grouped(Le(|x|, 4), x, k);
  }

  lemma SmallWord(n: nat)
    requires n < 0x1_0000_0000
    ensures n % (U32_MAX + 1) == n
  {
  }

  lemma Grouped(a: bytes, b: bytes, c: bytes)
    ensures a + (b + c) == a + b + c
  {
  }

  /** An absent option is a zero; a present one is a one and its value. */
  lemma OptionLaid<T>(put: (T, bytes) -> bytes, v: T, k: bytes)
    ensures PutOption(put, Some(v), k) == [1] + put(v, k) && PutOption(put, None, k) == [0] + k
  {
  }

  /** A list is its length in four octets and its elements, the first in front. */
  lemma ListLaid<T>(put: (T, bytes) -> bytes, x: T, xs: seq<T>, k: bytes)
    requires |xs| < 0x1_0000_0000
    ensures PutList(put, xs, k) == Le(|xs|, 4) + PutEach(put, xs, k)
    ensures PutEach(put, [], k) == k && PutEach(put, [x] + xs, k) == put(x, PutEach(put, xs, k))
  {
    hide Le;
    assert |xs| % (U32_MAX + 1) == |xs|;
    assert ([x] + xs)[1..] == xs;
  }

  /** Every value is put in front of what follows. */
  ghost predicate Prepends<T(!new)>(put: (T, bytes) -> bytes) {
    forall x: T, k: bytes {:trigger put(x, k)} :: put(x, k) == put(x, []) + k
  }

  lemma {:induction false} EachPrepends<T(!new)>(put: (T, bytes) -> bytes, xs: seq<T>, k: bytes)
    requires Prepends(put)
    ensures PutEach(put, xs, k) == PutEach(put, xs, []) + k
  {
    if xs != [] {
      EachPrepends(put, xs[1..], k);
      var x, rest := xs[0], PutEach(put, xs[1..], []);
      assert put(x, rest + k) == put(x, []) + (rest + k);
      assert put(x, rest) == put(x, []) + rest;
      assert put(x, []) + (rest + k) == put(x, []) + rest + k;
    }
  }

  lemma ListPrepends<T(!new)>(put: (T, bytes) -> bytes, xs: seq<T>, k: bytes)
    requires Prepends(put)
    ensures PutList(put, xs, k) == PutList(put, xs, []) + k
  {
    hide Le;
    EachPrepends(put, xs, k);
    var n := Le(|xs| % (U32_MAX + 1), 4);
    assert n + (PutEach(put, xs, []) + k) == n + PutEach(put, xs, []) + k;
  }

  lemma OptionPrepends<T(!new)>(put: (T, bytes) -> bytes, o: Option<T>, k: bytes)
    requires Prepends(put)
    ensures PutOption(put, o, k) == PutOption(put, o, []) + k
  {
    if o.Some? {
      assert put(o.value, k) == put(o.value, []) + k;
      assert [1] + (put(o.value, []) + k) == [1] + put(o.value, []) + k;
    }
  }

  lemma PrimitivesPrepend()
    ensures Prepends(PutU8) && Prepends(PutU32) && Prepends(PutU64) && Prepends(PutI64) && Prepends(PutI32)
    ensures Prepends(PutFlag) && Prepends(PutText)
  {
    hide Le;
    forall x: bytes, k: bytes ensures PutText(x, k) == PutText(x, []) + k {
      var n := Le(|x| % (U32_MAX + 1), 4);
      assert n + (x + k) == n + (x + []) + k;
    }
  }

  lemma PrependsMeans<T(!new)>(put: (T, bytes) -> bytes)
    requires Prepends(put)
    ensures forall x: T, k: bytes {:trigger put(x, k)} :: put(x, k) == put(x, []) + k
  {
  }

  lemma MeansPrepends<T(!new)>(put: (T, bytes) -> bytes)
    requires forall x: T, k: bytes {:trigger put(x, k)} :: put(x, k) == put(x, []) + k
    ensures Prepends(put)
  {
  }

  lemma VectorsPrepend()
    ensures Prepends(PutVec) && Prepends(PutLevels) && Prepends(PutTexts)
  {
    hide *;
    PrimitivesPrepend();
    forall v: Vec, k: bytes ensures PutVec(v, k) == PutVec(v, []) + k { VecPrepends(v, k); }
    forall v: Levels, k: bytes ensures PutLevels(v, k) == PutLevels(v, []) + k { LevelsPrepend(v, k); }
    forall v: seq<bytes>, k: bytes ensures PutTexts(v, k) == PutTexts(v, []) + k { TextsPrepend(v, k); }
    MeansPrepends(PutVec);
    MeansPrepends(PutLevels);
    MeansPrepends(PutTexts);
  }

  lemma VecPrepends(v: Vec, k: bytes)
    ensures PutVec(v, k) == PutVec(v, []) + k
  {
    hide PutEach, Prepends, PutU64;
    PrimitivesPrepend();
    EachPrepends(PutU64, v, k);
  }

  lemma LevelsPrepend(v: Levels, k: bytes)
    ensures PutLevels(v, k) == PutLevels(v, []) + k
  {
    hide PutEach, Prepends, PutU8;
    PrimitivesPrepend();
    EachPrepends(PutU8, v, k);
  }

  lemma TextsPrepend(v: seq<bytes>, k: bytes)
    ensures PutTexts(v, k) == PutTexts(v, []) + k
  {
    hide PutList, Prepends, PutText;
    PrimitivesPrepend();
    ListPrepends(PutText, v, k);
  }

  lemma OptionU64Prepends(v: Option<u64>, k: bytes)
    ensures PutOptionU64(v, k) == PutOptionU64(v, []) + k
  {
    hide PutOption, Prepends, PutU64;
    PrimitivesPrepend();
    VectorsPrepend();
    OptionPrepends(PutU64, v, k);
  }

  lemma OptionI64Prepends(v: Option<int>, k: bytes)
    ensures PutOptionI64(v, k) == PutOptionI64(v, []) + k
  {
    hide PutOption, Prepends, PutI64;
    PrimitivesPrepend();
    VectorsPrepend();
    OptionPrepends(PutI64, v, k);
  }

  lemma OptionVecPrepends(v: Option<Vec>, k: bytes)
    ensures PutOptionVec(v, k) == PutOptionVec(v, []) + k
  {
    hide PutOption, Prepends, PutVec;
    PrimitivesPrepend();
    VectorsPrepend();
    OptionPrepends(PutVec, v, k);
  }

  lemma OptionU8Prepends(v: Option<byte>, k: bytes)
    ensures PutOptionU8(v, k) == PutOptionU8(v, []) + k
  {
    hide PutOption, Prepends, PutU8;
    PrimitivesPrepend();
    VectorsPrepend();
    OptionPrepends(PutU8, v, k);
  }

  lemma OptionFlagPrepends(v: Option<bool>, k: bytes)
    ensures PutOptionFlag(v, k) == PutOptionFlag(v, []) + k
  {
    hide PutOption, Prepends, PutFlag;
    PrimitivesPrepend();
    VectorsPrepend();
    OptionPrepends(PutFlag, v, k);
  }

  /** Every field is put in front of what follows, in the form a record's proof rewrites with. */
  lemma FieldsPrepend()
    ensures forall x: byte, k: bytes {:trigger PutU8(x, k)} :: PutU8(x, k) == PutU8(x, []) + k
    ensures forall x: u32, k: bytes {:trigger PutU32(x, k)} :: PutU32(x, k) == PutU32(x, []) + k
    ensures forall x: u64, k: bytes {:trigger PutU64(x, k)} :: PutU64(x, k) == PutU64(x, []) + k
    ensures forall x: int, k: bytes {:trigger PutI64(x, k)} :: PutI64(x, k) == PutI64(x, []) + k
    ensures forall x: int, k: bytes {:trigger PutI32(x, k)} :: PutI32(x, k) == PutI32(x, []) + k
    ensures forall x: bool, k: bytes {:trigger PutFlag(x, k)} :: PutFlag(x, k) == PutFlag(x, []) + k
    ensures forall x: bytes, k: bytes {:trigger PutText(x, k)} :: PutText(x, k) == PutText(x, []) + k
    ensures forall x: Vec, k: bytes {:trigger PutVec(x, k)} :: PutVec(x, k) == PutVec(x, []) + k
    ensures forall x: Levels, k: bytes {:trigger PutLevels(x, k)} :: PutLevels(x, k) == PutLevels(x, []) + k
    ensures forall x: seq<bytes>, k: bytes {:trigger PutTexts(x, k)} :: PutTexts(x, k) == PutTexts(x, []) + k
    ensures forall x: Option<u64>, k: bytes {:trigger PutOptionU64(x, k)} ::
            PutOptionU64(x, k) == PutOptionU64(x, []) + k
    ensures forall x: Option<int>, k: bytes {:trigger PutOptionI64(x, k)} ::
            PutOptionI64(x, k) == PutOptionI64(x, []) + k
    ensures forall x: Option<Vec>, k: bytes {:trigger PutOptionVec(x, k)} ::
            PutOptionVec(x, k) == PutOptionVec(x, []) + k
    ensures forall x: Option<byte>, k: bytes {:trigger PutOptionU8(x, k)} :: PutOptionU8(x, k) == PutOptionU8(x, []) + k
    ensures forall x: Option<bool>, k: bytes {:trigger PutOptionFlag(x, k)} ::
            PutOptionFlag(x, k) == PutOptionFlag(x, []) + k
  {
    hide *;
    PrimitivesPrepend();
    VectorsPrepend();
    PrependsMeans(PutU8);
    PrependsMeans(PutU32);
    PrependsMeans(PutU64);
    PrependsMeans(PutI64);
    PrependsMeans(PutI32);
    PrependsMeans(PutFlag);
    PrependsMeans(PutText);
    PrependsMeans(PutVec);
    PrependsMeans(PutLevels);
    PrependsMeans(PutTexts);
    forall x: Option<u64>, k: bytes ensures PutOptionU64(x, k) == PutOptionU64(x, []) + k { OptionU64Prepends(x, k); }
    forall x: Option<int>, k: bytes ensures PutOptionI64(x, k) == PutOptionI64(x, []) + k { OptionI64Prepends(x, k); }
    forall x: Option<Vec>, k: bytes ensures PutOptionVec(x, k) == PutOptionVec(x, []) + k { OptionVecPrepends(x, k); }
    forall x: Option<byte>, k: bytes ensures PutOptionU8(x, k) == PutOptionU8(x, []) + k { OptionU8Prepends(x, k); }
    forall x: Option<bool>, k: bytes
      ensures PutOptionFlag(x, k) == PutOptionFlag(x, []) + k
    {
      OptionFlagPrepends(x, k);
    }
  }

  /** A vector is its twelve numbers, eight octets each; levels are an octet each. */
  lemma VectorLaid(v: Vec, i: nat)
    requires i < 12
    ensures |PutVec(v, [])| == 96 && PutVec(v, [])[8 * i..8 * i + 8] == Le(v[i], 8)
  {
    hide Le, PutU64;
    NumbersLaid([]);
    EachSized(v, i);
  }

  lemma {:induction false} EachSized(v: seq<u64>, i: nat)
    requires i < |v|
    ensures var b := PutEach(PutU64, v, []);
            |b| == 8 * |v| && 8 * i + 8 <= |b| && b[8 * i..8 * i + 8] == Le(v[i], 8)
    decreases |v|
  {
    hide Le;
    var rest := PutEach(PutU64, v[1..], []);
    assert PutEach(PutU64, v, []) == Le(v[0], 8) + rest;
    if |v| == 1 {
      assert v[1..] == [] && rest == [];
    } else {
      EachSized(v[1..], if i == 0 then 0 else i - 1);
      if i > 0 {
        assert (Le(v[0], 8) + rest)[8 * i..8 * i + 8] == rest[8 * (i - 1)..8 * (i - 1) + 8];
      }
    }
    if i == 0 { assert (Le(v[0], 8) + rest)[0..8] == Le(v[0], 8); }
  }

  lemma LevelsLaid(v: Levels)
    ensures PutLevels(v, []) == v
  {
    EachOctet(v);
  }

  lemma {:induction false} EachOctet(v: bytes)
    ensures PutEach(PutU8, v, []) == v
  {
    if v != [] {
      EachOctet(v[1..]);
      assert [v[0]] + v[1..] == v;
    }
  }

  /** What is put in front of two texts is put in front of the first, for every field. */
  lemma FieldsCarry()
    ensures forall x: byte, r: bytes, k: bytes {:trigger PutU8(x, r + k)} :: PutU8(x, r + k) == PutU8(x, r) + k
    ensures forall x: u32, r: bytes, k: bytes {:trigger PutU32(x, r + k)} :: PutU32(x, r + k) == PutU32(x, r) + k
    ensures forall x: u64, r: bytes, k: bytes {:trigger PutU64(x, r + k)} :: PutU64(x, r + k) == PutU64(x, r) + k
    ensures forall x: int, r: bytes, k: bytes {:trigger PutI64(x, r + k)} :: PutI64(x, r + k) == PutI64(x, r) + k
    ensures forall x: int, r: bytes, k: bytes {:trigger PutI32(x, r + k)} :: PutI32(x, r + k) == PutI32(x, r) + k
    ensures forall x: bool, r: bytes, k: bytes {:trigger PutFlag(x, r + k)} :: PutFlag(x, r + k) == PutFlag(x, r) + k
    ensures forall x: bytes, r: bytes, k: bytes {:trigger PutText(x, r + k)} :: PutText(x, r + k) == PutText(x, r) + k
    ensures forall x: Vec, r: bytes, k: bytes {:trigger PutVec(x, r + k)} :: PutVec(x, r + k) == PutVec(x, r) + k
    ensures forall x: Levels, r: bytes, k: bytes {:trigger PutLevels(x, r + k)} ::
            PutLevels(x, r + k) == PutLevels(x, r) + k
    ensures forall x: seq<bytes>, r: bytes, k: bytes {:trigger PutTexts(x, r + k)} ::
            PutTexts(x, r + k) == PutTexts(x, r) + k
    ensures forall x: Option<u64>, r: bytes, k: bytes {:trigger PutOptionU64(x, r + k)} ::
            PutOptionU64(x, r + k) == PutOptionU64(x, r) + k
    ensures forall x: Option<int>, r: bytes, k: bytes {:trigger PutOptionI64(x, r + k)} ::
            PutOptionI64(x, r + k) == PutOptionI64(x, r) + k
    ensures forall x: Option<Vec>, r: bytes, k: bytes {:trigger PutOptionVec(x, r + k)} ::
            PutOptionVec(x, r + k) == PutOptionVec(x, r) + k
    ensures forall x: Option<byte>, r: bytes, k: bytes {:trigger PutOptionU8(x, r + k)} ::
            PutOptionU8(x, r + k) == PutOptionU8(x, r) + k
    ensures forall x: Option<bool>, r: bytes, k: bytes {:trigger PutOptionFlag(x, r + k)} ::
            PutOptionFlag(x, r + k) == PutOptionFlag(x, r) + k
  {
    hide *;
    FieldsPrepend();
    forall x: byte, r: bytes, k: bytes
      ensures PutU8(x, r + k) == PutU8(x, r) + k
    {
      Carried(PutU8(x, r + k), PutU8(x, []), PutU8(x, r), r, k);
    }
    forall x: u32, r: bytes, k: bytes
      ensures PutU32(x, r + k) == PutU32(x, r) + k
    {
      Carried(PutU32(x, r + k), PutU32(x, []), PutU32(x, r), r, k);
    }
    forall x: u64, r: bytes, k: bytes
      ensures PutU64(x, r + k) == PutU64(x, r) + k
    {
      Carried(PutU64(x, r + k), PutU64(x, []), PutU64(x, r), r, k);
    }
    forall x: int, r: bytes, k: bytes
      ensures PutI64(x, r + k) == PutI64(x, r) + k
    {
      Carried(PutI64(x, r + k), PutI64(x, []), PutI64(x, r), r, k);
    }
    forall x: int, r: bytes, k: bytes
      ensures PutI32(x, r + k) == PutI32(x, r) + k
    {
      Carried(PutI32(x, r + k), PutI32(x, []), PutI32(x, r), r, k);
    }
    forall x: bool, r: bytes, k: bytes
      ensures PutFlag(x, r + k) == PutFlag(x, r) + k
    {
      Carried(PutFlag(x, r + k), PutFlag(x, []), PutFlag(x, r), r, k);
    }
    forall x: bytes, r: bytes, k: bytes
      ensures PutText(x, r + k) == PutText(x, r) + k
    {
      Carried(PutText(x, r + k), PutText(x, []), PutText(x, r), r, k);
    }
    forall x: Vec, r: bytes, k: bytes
      ensures PutVec(x, r + k) == PutVec(x, r) + k
    {
      Carried(PutVec(x, r + k), PutVec(x, []), PutVec(x, r), r, k);
    }
    forall x: Levels, r: bytes, k: bytes
      ensures PutLevels(x, r + k) == PutLevels(x, r) + k
    {
      Carried(PutLevels(x, r + k), PutLevels(x, []), PutLevels(x, r), r, k);
    }
    forall x: seq<bytes>, r: bytes, k: bytes
      ensures PutTexts(x, r + k) == PutTexts(x, r) + k
    {
      Carried(PutTexts(x, r + k), PutTexts(x, []), PutTexts(x, r), r, k);
    }
    forall x: Option<u64>, r: bytes, k: bytes
      ensures PutOptionU64(x, r + k) == PutOptionU64(x, r) + k
    {
      Carried(PutOptionU64(x, r + k), PutOptionU64(x, []), PutOptionU64(x, r), r, k);
    }
    forall x: Option<int>, r: bytes, k: bytes
      ensures PutOptionI64(x, r + k) == PutOptionI64(x, r) + k
    {
      Carried(PutOptionI64(x, r + k), PutOptionI64(x, []), PutOptionI64(x, r), r, k);
    }
    forall x: Option<Vec>, r: bytes, k: bytes
      ensures PutOptionVec(x, r + k) == PutOptionVec(x, r) + k
    {
      Carried(PutOptionVec(x, r + k), PutOptionVec(x, []), PutOptionVec(x, r), r, k);
    }
    forall x: Option<byte>, r: bytes, k: bytes
      ensures PutOptionU8(x, r + k) == PutOptionU8(x, r) + k
    {
      Carried(PutOptionU8(x, r + k), PutOptionU8(x, []), PutOptionU8(x, r), r, k);
    }
    forall x: Option<bool>, r: bytes, k: bytes
      ensures PutOptionFlag(x, r + k) == PutOptionFlag(x, r) + k
    {
      Carried(PutOptionFlag(x, r + k), PutOptionFlag(x, []), PutOptionFlag(x, r), r, k);
    }
  }

  lemma Carried(all: bytes, alone: bytes, front: bytes, r: bytes, k: bytes)
    requires all == alone + (r + k) && front == alone + r
    ensures all == front + k
  {
  }

  // ---------- Records ----------

  /** A reservation is its fields, end to end and in this order. */
  lemma ReservationLaid(x: Reservation, k: bytes)
    ensures PutReservation(x, k) ==
            PutU64(x.id, []) + (PutU64(x.owner, []) + (PutVec(x.demand, []) + (PutI64(x.createdAt, []) + (
            PutI64(x.expiresAt, []) + (PutOptionU64(x.request, []) + (PutOptionU64(x.generation, []) + (
            PutU8(StatusCode(x.status), []) + (PutU64(x.serial, []) + k))))))))
  {
    hide PutU8, PutU32, PutU64, PutI64, PutI32, PutFlag, PutText, PutVec, PutLevels, PutTexts, PutOptionU64,
      PutOptionI64, PutOptionVec, PutOptionU8, PutOptionFlag, StatusCode;
    FieldsPrepend();
  }

  lemma ReservationPrepends(x: Reservation, r: bytes, k: bytes)
    ensures PutReservation(x, r + k) == PutReservation(x, r) + k
  {
    hide PutU8, PutU32, PutU64, PutI64, PutI32, PutFlag, PutText, PutVec, PutLevels, PutTexts, PutOptionU64,
      PutOptionI64, PutOptionVec, PutOptionU8, PutOptionFlag, StatusCode;
    FieldsCarry();
  }

  lemma DescriptorHeadLaid(x: Descriptor, k: bytes)
    ensures PutDescriptorHead(x, k) ==
            PutU8(x.workloadType, []) + (PutU64(x.admissionRequestId, []) + (PutU64(x.requestId, []) + (
            PutU64(x.attemptId, []) + (PutU64(x.tenantId, []) + (PutU64(x.modelId, []) + (
            PutU64(x.modelRevision, []) + (PutOptionU64(x.adapterId, []) + (PutU64(x.policyGeneration, []) + (
            PutU64(x.inputTokens, []) + (PutU64(x.expectedOutputTokens, []) + (PutU64(x.maxOutputTokens, []) + (
            PutFlag(x.batchable, []) + (PutU8(x.priority, []) + (PutU8(x.latencyClass, []) + k))))))))))))))
  {
    hide PutU8, PutU32, PutU64, PutI64, PutI32, PutFlag, PutText, PutVec, PutLevels, PutTexts, PutOptionU64,
      PutOptionI64, PutOptionVec, PutOptionU8, PutOptionFlag;
    FieldsPrepend();
  }

  lemma DescriptorTailLaid(x: Descriptor, k: bytes)
    ensures PutDescriptorTail(x, k) ==
            PutOptionI64(x.deadline, []) + (PutOptionU64(x.requestedSlo, []) + (
            PutOptionVec(x.expectedDemand, []) + (PutU8(x.preemption, []) + (PutFlag(x.degradationPermitted, []) + (
            PutFlag(x.requiresReservation, []) + (PutI64(x.admissionTtl, []) + (PutText(x.backend, []) + (
            PutText(x.dtype, []) + (PutText(x.quantization, []) + (PutText(x.workloadClass, []) + (
            PutTexts(x.policyTags, []) + k)))))))))))
  {
    hide PutU8, PutU32, PutU64, PutI64, PutI32, PutFlag, PutText, PutVec, PutLevels, PutTexts, PutOptionU64,
      PutOptionI64, PutOptionVec, PutOptionU8, PutOptionFlag;
    FieldsPrepend();
  }

  /** A descriptor is its fields, end to end and in this order. */
  lemma DescriptorLaid(x: Descriptor, k: bytes)
    ensures PutDescriptor(x, k) ==
            PutU8(x.workloadType, []) + (PutU64(x.admissionRequestId, []) + (PutU64(x.requestId, []) + (
            PutU64(x.attemptId, []) + (PutU64(x.tenantId, []) + (PutU64(x.modelId, []) + (
            PutU64(x.modelRevision, []) + (PutOptionU64(x.adapterId, []) + (PutU64(x.policyGeneration, []) + (
            PutU64(x.inputTokens, []) + (PutU64(x.expectedOutputTokens, []) + (PutU64(x.maxOutputTokens, []) + (
            PutFlag(x.batchable, []) + (PutU8(x.priority, []) + (PutU8(x.latencyClass, []) + (
            PutOptionI64(x.deadline, []) + (PutOptionU64(x.requestedSlo, []) + (
            PutOptionVec(x.expectedDemand, []) + (PutU8(x.preemption, []) + (PutFlag(x.degradationPermitted, []) + (
            PutFlag(x.requiresReservation, []) + (PutI64(x.admissionTtl, []) + (PutText(x.backend, []) + (
            PutText(x.dtype, []) + (PutText(x.quantization, []) + (PutText(x.workloadClass, []) + (
            PutTexts(x.policyTags, []) + k))))))))))))))))))))))))))
  {
    hide PutU8, PutU32, PutU64, PutI64, PutI32, PutFlag, PutText, PutVec, PutLevels, PutTexts, PutOptionU64,
      PutOptionI64, PutOptionVec, PutOptionU8, PutOptionFlag, PutDescriptorHead, PutDescriptorTail;
    DescriptorHeadLaid(x, PutDescriptorTail(x, k));
    DescriptorTailLaid(x, k);
  }

  lemma DescriptorHeadPrepends(x: Descriptor, r: bytes, k: bytes)
    ensures PutDescriptorHead(x, r + k) == PutDescriptorHead(x, r) + k
  {
    hide PutU8, PutU32, PutU64, PutI64, PutI32, PutFlag, PutText, PutVec, PutLevels, PutTexts, PutOptionU64,
      PutOptionI64, PutOptionVec, PutOptionU8, PutOptionFlag;
    FieldsCarry();
  }

  lemma DescriptorTailPrepends(x: Descriptor, r: bytes, k: bytes)
    ensures PutDescriptorTail(x, r + k) == PutDescriptorTail(x, r) + k
  {
    hide PutU8, PutU32, PutU64, PutI64, PutI32, PutFlag, PutText, PutVec, PutLevels, PutTexts, PutOptionU64,
      PutOptionI64, PutOptionVec, PutOptionU8, PutOptionFlag;
    FieldsCarry();
  }

  lemma DescriptorPrepends(x: Descriptor, r: bytes, k: bytes)
    ensures PutDescriptor(x, r + k) == PutDescriptor(x, r) + k
  {
    hide PutDescriptorHead, PutDescriptorTail;
    DescriptorHeadPrepends(x, PutDescriptorTail(x, r), k);
    DescriptorTailPrepends(x, r, k);
  }

  /** A snapshot is its fields, end to end and in this order. */
  lemma SnapshotLaid(x: Snapshot, k: bytes)
    ensures PutSnapshot(x, k) ==
            PutU64(x.generation, []) + (PutI64(x.timestamp, []) + (PutU64(x.agentId, []) + (PutU64(x.bootId, []) + (
            PutText(x.nodeName, []) + (PutU32(x.deviceIndex, []) + (PutText(x.deviceName, []) + (
            PutVec(x.total, []) + (PutVec(x.used, []) + (PutVec(x.reserved, []) + (PutVec(x.reclaimable, []) + (
            PutTexts(SortedTexts(x.capabilities), []) + (PutFlag(x.healthy, []) + (
            PutTexts(x.modelResidencyHints, []) + (PutTexts(x.transferPathHints, []) + (
            PutLevels(x.pressure, []) + (PutLevels(x.provenance, []) + k))))))))))))))))
  {
    hide PutU8, PutU32, PutU64, PutI64, PutI32, PutFlag, PutText, PutVec, PutLevels, PutTexts, PutOptionU64,
      PutOptionI64, PutOptionVec, PutOptionU8, PutOptionFlag, SortedTexts;
    FieldsPrepend();
  }

  lemma SnapshotPrepends(x: Snapshot, r: bytes, k: bytes)
    ensures PutSnapshot(x, r + k) == PutSnapshot(x, r) + k
  {
    hide PutU8, PutU32, PutU64, PutI64, PutI32, PutFlag, PutText, PutVec, PutLevels, PutTexts, PutOptionU64,
      PutOptionI64, PutOptionVec, PutOptionU8, PutOptionFlag, SortedTexts;
    FieldsCarry();
  }

  /** A policy override is its fields, end to end and in this order. */
  lemma OverrideLaid(x: Override, k: bytes)
    ensures PutOverride(x, k) ==
            PutText(x.key, []) + (PutOptionU64(x.safetyHeadroomRatio, []) + (PutOptionU8(x.overcommitMode, []) + (
            PutOptionVec(x.overcommitAllowance, []) + (PutOptionU64(x.minPredictorConfidence, []) + (
            PutOptionFlag(x.admitSloRisk, []) + (PutOptionFlag(x.requireReservation, []) + (
            PutOptionU64(x.smallRequestBoost, []) + k)))))))
  {
    hide PutU8, PutU32, PutU64, PutI64, PutI32, PutFlag, PutText, PutVec, PutLevels, PutTexts, PutOptionU64,
      PutOptionI64, PutOptionVec, PutOptionU8, PutOptionFlag;
    FieldsPrepend();
  }

  lemma OverridePrepends(x: Override, r: bytes, k: bytes)
    ensures PutOverride(x, r + k) == PutOverride(x, r) + k
  {
    hide PutU8, PutU32, PutU64, PutI64, PutI32, PutFlag, PutText, PutVec, PutLevels, PutTexts, PutOptionU64,
      PutOptionI64, PutOptionVec, PutOptionU8, PutOptionFlag;
    FieldsCarry();
  }

  /** A quota is its fields, end to end and in this order. */
  lemma QuotaLaid(x: Quota, k: bytes)
    ensures PutQuota(x, k) ==
            PutFlag(x.present, []) + (PutU64(x.generation, []) + (PutText(x.sourceAuthority, []) + (
            PutI64(x.timestamp, []) + (PutFlag(x.stale, []) + (PutVec(x.limits, []) + (PutVec(x.used, []) + (
            PutVec(x.reserved, []) + (PutU64(x.tokenBudget, []) + (PutU32(x.maxConcurrentRequests, []) + (
            PutU32(x.maxSequences, []) + (PutI64(x.computeTimeAllowance, []) + k)))))))))))
  {
    hide PutU8, PutU32, PutU64, PutI64, PutI32, PutFlag, PutText, PutVec, PutLevels, PutTexts, PutOptionU64,
      PutOptionI64, PutOptionVec, PutOptionU8, PutOptionFlag;
    FieldsPrepend();
  }

  lemma QuotaPrepends(x: Quota, r: bytes, k: bytes)
    ensures PutQuota(x, r + k) == PutQuota(x, r) + k
  {
    hide PutU8, PutU32, PutU64, PutI64, PutI32, PutFlag, PutText, PutVec, PutLevels, PutTexts, PutOptionU64,
      PutOptionI64, PutOptionVec, PutOptionU8, PutOptionFlag;
    FieldsCarry();
  }

  /** A decision is its fields, end to end and in this order. */
  lemma DecisionLaid(x: Decision, k: bytes)
    ensures PutDecision(x, k) ==
            PutU64(x.admissionRequestId, []) + (PutU64(x.requestId, []) + (PutU64(x.attemptId, []) + (
            PutU64(x.tenantId, []) + (PutU64(x.modelId, []) + (PutU64(x.modelRevision, []) + (
            PutU8(x.outcome, []) + (PutI32(x.reason, []) + (PutU64(x.policyGeneration, []) + (
            PutU64(x.snapshotGeneration, []) + (PutU64(x.admissionGeneration, []) + (PutU64(x.epoch, []) + (
            PutU64(x.confidence, []) + (PutI64(x.decisionTime, []) + (PutOptionU64(x.reservationId, []) + (
            PutVec(x.demand, []) + (PutText(x.explanation, []) + k))))))))))))))))
  {
    hide PutU8, PutU32, PutU64, PutI64, PutI32, PutFlag, PutText, PutVec, PutLevels, PutTexts, PutOptionU64,
      PutOptionI64, PutOptionVec, PutOptionU8, PutOptionFlag;
    FieldsPrepend();
  }

  lemma DecisionPrepends(x: Decision, r: bytes, k: bytes)
    ensures PutDecision(x, r + k) == PutDecision(x, r) + k
  {
    hide PutU8, PutU32, PutU64, PutI64, PutI32, PutFlag, PutText, PutVec, PutLevels, PutTexts, PutOptionU64,
      PutOptionI64, PutOptionVec, PutOptionU8, PutOptionFlag;
    FieldsCarry();
  }

  lemma ProfileHeadLaid(x: Profile, k: bytes)
    ensures PutProfileHead(x, k) ==
            PutU64(x.modelId, []) + (PutU64(x.revision, []) + (PutText(x.backend, []) + (PutText(x.dtype, []) + (
            PutText(x.quantization, []) + (PutU64(x.generation, []) + (PutU64(x.fixedBaseMemory, []) + (
            PutU64(x.perTokenKvBytes, []) + (PutU64(x.perTokenTensorBytes, []) + (
            PutU64(x.perRequestOverhead, []) + (PutU64(x.workspaceBytes, []) + (PutU64(x.stagingBytes, []) + (
            PutU64(x.pinnedStagingBytes, []) + k))))))))))))
  {
    hide PutU8, PutU32, PutU64, PutI64, PutI32, PutFlag, PutText, PutVec, PutLevels, PutTexts, PutOptionU64,
      PutOptionI64, PutOptionVec, PutOptionU8, PutOptionFlag;
    FieldsPrepend();
  }

  lemma ProfileTailLaid(x: Profile, k: bytes)
    ensures PutProfileTail(x, k) ==
            PutU64(x.safetyMarginRatio, []) + (PutU64(x.fragmentationRatio, []) + (
            PutU64(x.prefillTokensPerSec, []) + (PutU64(x.decodeTokensPerSec, []) + (
            PutU64(x.transferBytesPerSequence, []) + (PutU64(x.transferBytesPerSec, []) + (
            PutU64(x.hostMemoryBytes, []) + (PutU64(x.pinnedHostMemoryBytes, []) + (
            PutU32(x.executionSlotsRequired, []) + (PutU32(x.sequenceSlotsRequired, []) + k)))))))))
  {
    hide PutU8, PutU32, PutU64, PutI64, PutI32, PutFlag, PutText, PutVec, PutLevels, PutTexts, PutOptionU64,
      PutOptionI64, PutOptionVec, PutOptionU8, PutOptionFlag;
    FieldsPrepend();
  }

  /** A profile is its fields, end to end and in this order. */
  lemma ProfileLaid(x: Profile, k: bytes)
    ensures PutProfile(x, k) ==
            PutU64(x.modelId, []) + (PutU64(x.revision, []) + (PutText(x.backend, []) + (PutText(x.dtype, []) + (
            PutText(x.quantization, []) + (PutU64(x.generation, []) + (PutU64(x.fixedBaseMemory, []) + (
            PutU64(x.perTokenKvBytes, []) + (PutU64(x.perTokenTensorBytes, []) + (
            PutU64(x.perRequestOverhead, []) + (PutU64(x.workspaceBytes, []) + (PutU64(x.stagingBytes, []) + (
            PutU64(x.pinnedStagingBytes, []) + (PutU64(x.safetyMarginRatio, []) + (
            PutU64(x.fragmentationRatio, []) + (PutU64(x.prefillTokensPerSec, []) + (
            PutU64(x.decodeTokensPerSec, []) + (PutU64(x.transferBytesPerSequence, []) + (
            PutU64(x.transferBytesPerSec, []) + (PutU64(x.hostMemoryBytes, []) + (
            PutU64(x.pinnedHostMemoryBytes, []) + (PutU32(x.executionSlotsRequired, []) + (
            PutU32(x.sequenceSlotsRequired, []) + k))))))))))))))))))))))
  {
    hide PutU8, PutU32, PutU64, PutI64, PutI32, PutFlag, PutText, PutVec, PutLevels, PutTexts, PutOptionU64,
      PutOptionI64, PutOptionVec, PutOptionU8, PutOptionFlag, PutProfileHead, PutProfileTail;
    ProfileHeadLaid(x, PutProfileTail(x, k));
    ProfileTailLaid(x, k);
  }

  lemma ProfileHeadPrepends(x: Profile, r: bytes, k: bytes)
    ensures PutProfileHead(x, r + k) == PutProfileHead(x, r) + k
  {
    hide PutU8, PutU32, PutU64, PutI64, PutI32, PutFlag, PutText, PutVec, PutLevels, PutTexts, PutOptionU64,
      PutOptionI64, PutOptionVec, PutOptionU8, PutOptionFlag;
    FieldsCarry();
  }

  lemma ProfileTailPrepends(x: Profile, r: bytes, k: bytes)
    ensures PutProfileTail(x, r + k) == PutProfileTail(x, r) + k
  {
    hide PutU8, PutU32, PutU64, PutI64, PutI32, PutFlag, PutText, PutVec, PutLevels, PutTexts, PutOptionU64,
      PutOptionI64, PutOptionVec, PutOptionU8, PutOptionFlag;
    FieldsCarry();
  }

  lemma ProfilePrepends(x: Profile, r: bytes, k: bytes)
    ensures PutProfile(x, r + k) == PutProfile(x, r) + k
  {
    hide PutProfileHead, PutProfileTail;
    ProfileHeadPrepends(x, PutProfileTail(x, r), k);
    ProfileTailPrepends(x, r, k);
  }

  /** A observation is its fields, end to end and in this order. */
  lemma ObservationLaid(x: Observation, k: bytes)
    ensures PutObservation(x, k) ==
            PutU64(x.id, []) + (PutU64(x.admissionRequestId, []) + (PutU64(x.tenantId, []) + (
            PutU64(x.modelId, []) + (PutU64(x.modelRevision, []) + (PutText(x.backend, []) + (
            PutText(x.dtype, []) + (PutText(x.quantization, []) + (PutU8(x.workloadType, []) + (
            PutU64(x.peakVram, []) + (PutU64(x.hostMemory, []) + (PutU64(x.pinnedMemory, []) + (
            PutU64(x.kvGrowth, []) + (PutU64(x.transferBytes, []) + (PutI64(x.executionDuration, []) + (
            PutU64(x.inputTokens, []) + (PutU64(x.outputTokens, []) + (PutI64(x.completedAt, []) + (
            PutU8(x.kind, []) + k))))))))))))))))))
  {
    hide PutU8, PutU32, PutU64, PutI64, PutI32, PutFlag, PutText, PutVec, PutLevels, PutTexts, PutOptionU64,
      PutOptionI64, PutOptionVec, PutOptionU8, PutOptionFlag;
    FieldsPrepend();
  }

  lemma OverridesPrepend(xs: seq<Override>, k: bytes)
    ensures PutOverrides(xs, k) == PutOverrides(xs, []) + k
  {
    hide PutList, PutOverride, Prepends;
    forall x: Override, k: bytes ensures PutOverride(x, k) == PutOverride(x, []) + k {
      OverridePrepends(x, [], k);
      assert [] + k == k;
    }
    MeansPrepends(PutOverride);
    ListPrepends(PutOverride, xs, k);
  }

  lemma OverridesCarry(xs: seq<Override>, r: bytes, k: bytes)
    ensures PutOverrides(xs, r + k) == PutOverrides(xs, r) + k
  {
    hide PutOverrides;
    OverridesPrepend(xs, r + k);
    OverridesPrepend(xs, r);
    Carried(PutOverrides(xs, r + k), PutOverrides(xs, []), PutOverrides(xs, r), r, k);
  }

  lemma PolicyHeadLaid(x: Policy, k: bytes)
    ensures PutPolicyHead(x, k) ==
            PutU64(x.generation, []) + (PutText(x.name, []) + (PutU64(x.safetyHeadroomRatio, []) + (
            PutVec(x.absoluteSafetyMargin, []) + (PutU8(x.overcommit, []) + (PutVec(x.overcommitAllowance, []) + (
            PutU64(x.overcommitConfidenceMin, []) + (PutU64(x.minPredictorConfidence, []) + (
            PutI64(x.maxSnapshotAge, []) + (PutFlag(x.acceptStaleSnapshot, []) + k)))))))))
  {
    hide PutU8, PutU32, PutU64, PutI64, PutI32, PutFlag, PutText, PutVec, PutLevels, PutTexts, PutOptionU64,
      PutOptionI64, PutOptionVec, PutOptionU8, PutOptionFlag, PutOverrides;
    FieldsPrepend();
  }

  lemma PolicyMiddleLaid(x: Policy, k: bytes)
    ensures PutPolicyMiddle(x, k) ==
            PutFlag(x.quotaFailClosed, []) + (PutFlag(x.admitSloFeasibleWithRisk, []) + (
            PutFlag(x.requireReservation, []) + (PutI64(x.maxReservationLifetime, []) + (
            PutI64(x.defaultAdmissionTtl, []) + (PutU32(x.maxDeferrals, []) + k)))))
  {
    hide PutU8, PutU32, PutU64, PutI64, PutI32, PutFlag, PutText, PutVec, PutLevels, PutTexts, PutOptionU64,
      PutOptionI64, PutOptionVec, PutOptionU8, PutOptionFlag, PutOverrides;
    FieldsPrepend();
  }

  lemma PolicyTailLaid(x: Policy, k: bytes)
    ensures PutPolicyTail(x, k) ==
            PutI64(x.deferMinBackoff, []) + (PutI64(x.deferMaxWait, []) + (
            PutU64(x.smallRequestPriorityBoost, []) + (PutU64(x.largeRequestStarvationBoost, []) + (
            PutU32(x.fairnessWindow, []) + (PutOverrides(x.overrides, []) + k)))))
  {
    hide PutU8, PutU32, PutU64, PutI64, PutI32, PutFlag, PutText, PutVec, PutLevels, PutTexts, PutOptionU64,
      PutOptionI64, PutOptionVec, PutOptionU8, PutOptionFlag, PutOverrides;
    FieldsPrepend();
    OverridesPrepend(x.overrides, k);
  }

  /** A policy is its fields, end to end and in this order. */
  lemma PolicyLaid(x: Policy, k: bytes)
    ensures PutPolicy(x, k) ==
            PutU64(x.generation, []) + (PutText(x.name, []) + (PutU64(x.safetyHeadroomRatio, []) + (
            PutVec(x.absoluteSafetyMargin, []) + (PutU8(x.overcommit, []) + (PutVec(x.overcommitAllowance, []) + (
            PutU64(x.overcommitConfidenceMin, []) + (PutU64(x.minPredictorConfidence, []) + (
            PutI64(x.maxSnapshotAge, []) + (PutFlag(x.acceptStaleSnapshot, []) + (PutFlag(x.quotaFailClosed, []) + (
            PutFlag(x.admitSloFeasibleWithRisk, []) + (PutFlag(x.requireReservation, []) + (
            PutI64(x.maxReservationLifetime, []) + (PutI64(x.defaultAdmissionTtl, []) + (
            PutU32(x.maxDeferrals, []) + (PutI64(x.deferMinBackoff, []) + (PutI64(x.deferMaxWait, []) + (
            PutU64(x.smallRequestPriorityBoost, []) + (PutU64(x.largeRequestStarvationBoost, []) + (
            PutU32(x.fairnessWindow, []) + (PutOverrides(x.overrides, []) + k)))))))))))))))))))))
  {
    hide PutU8, PutU32, PutU64, PutI64, PutI32, PutFlag, PutText, PutVec, PutLevels, PutTexts, PutOptionU64,
      PutOptionI64, PutOptionVec, PutOptionU8, PutOptionFlag, PutOverrides, PutPolicyHead, PutPolicyMiddle,
      PutPolicyTail;
    PolicyHeadLaid(x, PutPolicyMiddle(x, PutPolicyTail(x, k)));
    PolicyMiddleLaid(x, PutPolicyTail(x, k));
    PolicyTailLaid(x, k);
  }

  lemma PolicyHeadPrepends(x: Policy, r: bytes, k: bytes)
    ensures PutPolicyHead(x, r + k) == PutPolicyHead(x, r) + k
  {
    hide PutU8, PutU32, PutU64, PutI64, PutI32, PutFlag, PutText, PutVec, PutLevels, PutTexts, PutOptionU64,
      PutOptionI64, PutOptionVec, PutOptionU8, PutOptionFlag, PutOverrides;
    FieldsCarry();
  }

  lemma PolicyMiddlePrepends(x: Policy, r: bytes, k: bytes)
    ensures PutPolicyMiddle(x, r + k) == PutPolicyMiddle(x, r) + k
  {
    hide PutU8, PutU32, PutU64, PutI64, PutI32, PutFlag, PutText, PutVec, PutLevels, PutTexts, PutOptionU64,
      PutOptionI64, PutOptionVec, PutOptionU8, PutOptionFlag, PutOverrides;
    FieldsCarry();
  }

  lemma PolicyTailPrepends(x: Policy, r: bytes, k: bytes)
    ensures PutPolicyTail(x, r + k) == PutPolicyTail(x, r) + k
  {
    hide PutU8, PutU32, PutU64, PutI64, PutI32, PutFlag, PutText, PutVec, PutLevels, PutTexts, PutOptionU64,
      PutOptionI64, PutOptionVec, PutOptionU8, PutOptionFlag, PutOverrides;
    FieldsCarry();
    OverridesCarry(x.overrides, r, k);
  }

  lemma PolicyPrepends(x: Policy, r: bytes, k: bytes)
    ensures PutPolicy(x, r + k) == PutPolicy(x, r) + k
  {
    hide PutPolicyHead, PutPolicyMiddle, PutPolicyTail;
    PolicyHeadPrepends(x, PutPolicyMiddle(x, PutPolicyTail(x, r)), k);
    PolicyMiddlePrepends(x, PutPolicyTail(x, r), k);
    PolicyTailPrepends(x, r, k);
  }

  /** The octets that stand for the status of a reservation and for the lifecycle of a request. */
  lemma CodesLaid()
    ensures StatusCode(Status.Reserved) == 0 && StatusCode(Committed) == 1 && StatusCode(Status.Released) == 2
    ensures StatusCode(Status.Expired) == 3 && StatusCode(RolledBack) == 4
    ensures LifecycleCode(Unknown) == 0 && LifecycleCode(Proposed) == 1 && LifecycleCode(Evaluating) == 2
    ensures LifecycleCode(Deferred) == 3 && LifecycleCode(Lifecycle.Reserved) == 4 && LifecycleCode(Admitted) == 5
    ensures LifecycleCode(Lifecycle.Released) == 6 && LifecycleCode(Rejected) == 7
    ensures LifecycleCode(Lifecycle.Expired) == 8 && LifecycleCode(Cancelled) == 9
  {
  }

  // ---------- The saved state ----------

  /** A saved request is its id, its lifecycle, its descriptor and, if there is one, its decision. */
  lemma EntryLaid(x: Entry, k: bytes)
    ensures PutEntry(x, k) ==
            PutU64(x.id, []) + (PutU8(LifecycleCode(x.request.lifecycle), []) +
            (PutDescriptor(x.request.descriptor, []) + (PutOption(PutDecision, x.request.decision, []) + k)))
  {
    hide PutU64, PutU8, PutDescriptor, PutDecision, PutOption, LifecycleCode, PutDecided;
    FieldsPrepend();
    DecidedPrepends(x.request.decision, [], k);
    assert [] + k == k;
    var decided := PutDecided(x.request.decision, k);
    DescriptorPrepends(x.request.descriptor, [], decided);
    assert [] + decided == decided;
    assert PutDecided(x.request.decision, []) == PutOption(PutDecision, x.request.decision, []) by {
      DecidedIs(x.request.decision);
    }
  }

  lemma DecidedIs(o: Option<Decision>)
    ensures PutDecided(o, []) == PutOption(PutDecision, o, [])
  {
  }

  lemma DecidedPrepends(o: Option<Decision>, r: bytes, k: bytes)
    ensures PutDecided(o, r + k) == PutDecided(o, r) + k
  {
    hide PutOption, PutDecision, Prepends;
    forall x: Decision, k: bytes ensures PutDecision(x, k) == PutDecision(x, []) + k {
      DecisionPrepends(x, [], k);
      assert [] + k == k;
    }
    MeansPrepends(PutDecision);
    OptionPrepends(PutDecision, o, r + k);
    OptionPrepends(PutDecision, o, r);
    Carried(PutDecided(o, r + k), PutDecided(o, []), PutDecided(o, r), r, k);
  }

  lemma SeenPrepends(o: Option<Snapshot>, r: bytes, k: bytes)
    ensures PutSeen(o, r + k) == PutSeen(o, r) + k
  {
    hide PutOption, PutSnapshot, Prepends;
    forall x: Snapshot, k: bytes ensures PutSnapshot(x, k) == PutSnapshot(x, []) + k {
      SnapshotPrepends(x, [], k);
      assert [] + k == k;
    }
    MeansPrepends(PutSnapshot);
    OptionPrepends(PutSnapshot, o, r + k);
    OptionPrepends(PutSnapshot, o, r);
    Carried(PutSeen(o, r + k), PutSeen(o, []), PutSeen(o, r), r, k);
  }

  lemma EntryPrepends(x: Entry, r: bytes, k: bytes)
    ensures PutEntry(x, r + k) == PutEntry(x, r) + k
  {
    hide PutU64, PutU8, PutDescriptor, PutDecided, LifecycleCode;
    FieldsCarry();
    DecidedPrepends(x.request.decision, r, k);
    DescriptorPrepends(x.request.descriptor, PutDecided(x.request.decision, r), k);
  }

  lemma PoliciesPrepend(xs: seq<Policy>, r: bytes, k: bytes)
    ensures PutPolicies(xs, r + k) == PutPolicies(xs, r) + k
  {
    hide PutList, PutPolicy, Prepends;
    forall x: Policy, k: bytes ensures PutPolicy(x, k) == PutPolicy(x, []) + k {
      PolicyPrepends(x, [], k);
      assert [] + k == k;
    }
    MeansPrepends(PutPolicy);
    ListPrepends(PutPolicy, xs, r + k);
    ListPrepends(PutPolicy, xs, r);
    Carried(PutPolicies(xs, r + k), PutPolicies(xs, []), PutPolicies(xs, r), r, k);
  }

  lemma ProfilesPrepend(xs: seq<Profile>, r: bytes, k: bytes)
    ensures PutProfiles(xs, r + k) == PutProfiles(xs, r) + k
  {
    hide PutList, PutProfile, Prepends;
    forall x: Profile, k: bytes ensures PutProfile(x, k) == PutProfile(x, []) + k {
      ProfilePrepends(x, [], k);
      assert [] + k == k;
    }
    MeansPrepends(PutProfile);
    ListPrepends(PutProfile, xs, r + k);
    ListPrepends(PutProfile, xs, r);
    Carried(PutProfiles(xs, r + k), PutProfiles(xs, []), PutProfiles(xs, r), r, k);
  }

  lemma RowsPrepend(xs: seq<Reservation>, r: bytes, k: bytes)
    ensures PutRows(xs, r + k) == PutRows(xs, r) + k
  {
    hide PutList, PutReservation, Prepends;
    forall x: Reservation, k: bytes ensures PutReservation(x, k) == PutReservation(x, []) + k {
      ReservationPrepends(x, [], k);
      assert [] + k == k;
    }
    MeansPrepends(PutReservation);
    ListPrepends(PutReservation, xs, r + k);
    ListPrepends(PutReservation, xs, r);
    Carried(PutRows(xs, r + k), PutRows(xs, []), PutRows(xs, r), r, k);
  }

  lemma EntriesPrepend(xs: seq<Entry>, r: bytes, k: bytes)
    ensures PutEntries(xs, r + k) == PutEntries(xs, r) + k
  {
    hide PutList, PutEntry, Prepends;
    forall x: Entry, k: bytes ensures PutEntry(x, k) == PutEntry(x, []) + k {
      EntryPrepends(x, [], k);
      assert [] + k == k;
    }
    MeansPrepends(PutEntry);
    ListPrepends(PutEntry, xs, r + k);
    ListPrepends(PutEntry, xs, r);
    Carried(PutEntries(xs, r + k), PutEntries(xs, []), PutEntries(xs, r), r, k);
  }

  lemma Alone(all: bytes, front: bytes, r: bytes, k: bytes)
    requires r == [] && all == front + k
    ensures all == front + k && r + k == k
  {
  }

  /** A saved state is, end to end: the policies, the profiles, the reservations, the reserved and the used
      vector, the overcommit mode and allowance, the requests, the quota, the counters of admissions and of
      reservations, and the snapshot if there is one. */
  lemma ImageLaid(x: Image)
    ensures PutImage(x, []) ==
            PutPolicies(x.tables.policies, []) + (PutProfiles(x.tables.profiles, []) + (PutRows(x.tables.rows, []) +
            (PutVec(x.tables.reserved, []) + (PutVec(x.tables.used, []) + (PutU8(x.tables.mode, []) +
            (PutVec(x.tables.allowance, []) + (PutEntries(x.tail.entries, []) + (PutQuota(x.tail.quota, []) +
            (PutU64(x.tail.admissionGeneration, []) + (PutU64(x.tail.reservationCounter, []) +
            PutOption(PutSnapshot, x.tail.snapshot, [])))))))))))
  {
    hide PutPolicies, PutProfiles, PutRows, PutVec, PutU8, PutU64, PutEntries, PutQuota, PutSeen, PutOption;
    FieldsPrepend();
    var t := x.tail;
    var seen := PutSeen(t.snapshot, []);
    SeenIs(t.snapshot);
    var c := PutU64(t.admissionGeneration, PutU64(t.reservationCounter, seen));
    InFront(c);
    QuotaPrepends(t.quota, [], c);
    var d := PutQuota(t.quota, c);
    InFront(d);
    EntriesPrepend(t.entries, [], d);
    var e := PutEntries(t.entries, d);
    assert PutTail(t, []) == e;
    var f := PutVec(x.tables.reserved, PutVec(x.tables.used, PutU8(x.tables.mode, PutVec(x.tables.allowance, e))));
    InFront(f);
    RowsPrepend(x.tables.rows, [], f);
    var g := PutRows(x.tables.rows, f);
    InFront(g);
    ProfilesPrepend(x.tables.profiles, [], g);
    var h := PutProfiles(x.tables.profiles, g);
    InFront(h);
    PoliciesPrepend(x.tables.policies, [], h);
  }

  lemma SeenIs(o: Option<Snapshot>)
    ensures PutSeen(o, []) == PutOption(PutSnapshot, o, [])
  {
  }

  lemma InFront(k: bytes)
    ensures [] + k == k
  {
  }

  /** The counted lists of the saved state are as `ListLaid` says. */
  lemma ListsAre(p: seq<Policy>, q: seq<Profile>, r: seq<Reservation>, e: seq<Entry>, o: seq<Override>, k: bytes)
    ensures PutPolicies(p, k) == PutList(PutPolicy, p, k) && PutProfiles(q, k) == PutList(PutProfile, q, k)
    ensures PutRows(r, k) == PutList(PutReservation, r, k) && PutEntries(e, k) == PutList(PutEntry, e, k)
    ensures PutOverrides(o, k) == PutList(PutOverride, o, k)
  {
  }

  // ---------- What is read ----------

  /** Any octet but zero reads as a set flag. */
  lemma FlagRead(b: byte, k: bytes)
    ensures GetFlag([b] + k) == Got(b > 0, k)
  {
  }

  /** An octet above four is no status, one above nine no lifecycle; such a record is refused. */
  lemma CodesRead(b: byte)
    ensures StatusOf(b).None? <==> b > 4
    ensures LifecycleOf(b).None? <==> b > 9
  {
  }

  // ---------- Bounds ----------

  /** A text of more than 64 MiB, or longer than what follows it, is refused; any other is read. */
  lemma TextBound(n: u32, t: bytes)
    ensures GetText(Le(n, 4) + t) == if n > 67_108_864 || n > |t| then Fail else Got(t[..n], t[n..])
  {
    U32RoundTrip(n, t);
  }

  /** More texts than 2^20, overrides than 2^16, policies than 128, profiles than 256, reservations or requests
      than 2^20 are refused before any is read. */
  lemma CountBounds(n: u32, t: bytes)
    ensures n > 1_048_576 ==> GetTexts(Le(n, 4) + t).Fail? && GetRows(Le(n, 4) + t).Fail? &&
                              GetEntries(Le(n, 4) + t).Fail?
    ensures n > 65_536 ==> GetOverrides(Le(n, 4) + t).Fail?
    ensures n > 128 ==> GetPolicies(Le(n, 4) + t).Fail?
    ensures n > 256 ==> GetProfiles(Le(n, 4) + t).Fail?
  {
    hide GetEach, Le, GetU32;
    U32Read(n, t);
  }

  lemma U32Read(n: u32, t: bytes)
    ensures GetU32(Le(n, 4) + t) == Got(n, t)
  {
    U32RoundTrip(n, t);
  }

  /** What a saved state must keep to: the same bounds, and the range of 64-bit times inside its records. */
  lemma FitExactly(x: Image)
    ensures FitImage(x) <==>
            && |x.tables.policies| <= 128 && (forall p | p in x.tables.policies :: FitPolicy(p))
            && |x.tables.profiles| <= 256 && (forall p | p in x.tables.profiles :: FitProfile(p))
            && |x.tables.rows| <= 1_048_576 && (forall r | r in x.tables.rows :: FitReservation(r))
            && |x.tail.entries| <= 1_048_576 && (forall e | e in x.tail.entries :: FitEntry(e))
            && FitQuota(x.tail.quota) && (x.tail.snapshot.Some? ==> FitSnapshot(x.tail.snapshot.value))
  {
    hide FitPolicy, FitProfile, FitReservation, FitEntry, FitQuota, FitSnapshot;
  }

}
