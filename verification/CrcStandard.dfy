/** What ties the register of `Crc` to the standard it names: the coefficients of its generator and the
    known answer, computed on 32-bit machine words as the source computes it. */
module CrcStandard {
  import opened Words
  import opened Texts
  import opened Crc

  // ---------- The generator and the known answer ----------

  lemma Nibble(v: nat, n: nat)
    requires n >= 4
    ensures Bits(v, n) == [v % 2 == 1, v / 2 % 2 == 1, v / 4 % 2 == 1, v / 8 % 2 == 1] + Bits(v / 16, n - 4)
  {
    assert Bits(v, n) == [v % 2 == 1] + Bits(v / 2, n - 1);
    assert Bits(v / 2, n - 1) == [v / 2 % 2 == 1] + Bits(v / 2 / 2, n - 2);
    assert Bits(v / 4, n - 2) == [v / 4 % 2 == 1] + Bits(v / 4 / 2, n - 3);
    assert Bits(v / 8, n - 3) == [v / 8 % 2 == 1] + Bits(v / 8 / 2, n - 4);
  }

  lemma NibbleAt(w: Word, k: nat, n: nat, v: nat)
    requires k + 4 <= 32 && n == 32 - k && w[k..] == Bits(v, n)
    ensures w[k] == (v % 2 == 1) && w[k + 1] == (v / 2 % 2 == 1)
    ensures w[k + 2] == (v / 4 % 2 == 1) && w[k + 3] == (v / 8 % 2 == 1)
    ensures w[k + 4..] == Bits(v / 16, n - 4)
  {
    Nibble(v, n);
    hide Bits;
    var s := w[k..];
    assert w[k + 4..] == s[4..];
    assert s[0] == w[k] && s[1] == w[k + 1] && s[2] == w[k + 2] && s[3] == w[k + 3];
  }

  lemma PolyLow(w: Word, n: nat)
    requires n == 32 && w == Bits(0xEDB88320, n)
    ensures !w[0] && !w[1] && !w[2] && !w[3] && !w[4] && w[5] && !w[6] && !w[7]
    ensures w[8] && w[9] && !w[10] && !w[11] && !w[12] && !w[13] && !w[14] && w[15]
    ensures w[16..] == Bits(0xEDB8, n - 16)
  {
    hide Bits;
    assert w[0..] == w;
    NibbleAt(w, 0, n, 0xEDB88320);
    NibbleAt(w, 4, n - 4, 0xEDB8832);
    NibbleAt(w, 8, n - 8, 0xEDB883);
    NibbleAt(w, 12, n - 12, 0xEDB88);
  }

  lemma PolyHigh(w: Word, n: nat)
    requires n == 16 && w[16..] == Bits(0xEDB8, n)
    ensures !w[16] && !w[17] && !w[18] && w[19] && w[20] && w[21] && !w[22] && w[23]
    ensures w[24] && !w[25] && w[26] && w[27] && !w[28] && w[29] && w[30] && w[31]
  {
    hide Bits;
    NibbleAt(w, 16, n, 0xEDB8);
    NibbleAt(w, 20, n - 4, 0xEDB);
    NibbleAt(w, 24, n - 8, 0xED);
    NibbleAt(w, 28, n - 12, 0xE);
  }

  /** The generator polynomial of section 3.2.9: the coefficient of x^k is bit 31 - k of the constant. */
  lemma Generator(k: nat)
    requires k < 32
    ensures POLY[31 - k] <==> k in {0, 1, 2, 4, 5, 7, 8, 10, 11, 12, 16, 22, 23, 26}
  {
    hide Bits;
    PolyLow(POLY, 32);
    PolyHigh(POLY, 16);
  }

  /** `w` is the machine word `v`. */
  predicate Reads(w: Word, v: bv32) {
    && w[0] == (v & 0x1 != 0) && w[1] == (v & 0x2 != 0) && w[2] == (v & 0x4 != 0) && w[3] == (v & 0x8 != 0)
    && w[4] == (v & 0x10 != 0) && w[5] == (v & 0x20 != 0) && w[6] == (v & 0x40 != 0) && w[7] == (v & 0x80 != 0)
    && w[8] == (v & 0x100 != 0) && w[9] == (v & 0x200 != 0) && w[10] == (v & 0x400 != 0) && w[11] == (v & 0x800 != 0)
    && w[12] == (v & 0x1000 != 0) && w[13] == (v & 0x2000 != 0) && w[14] == (v & 0x4000 != 0) &&
      w[15] == (v & 0x8000 != 0)
    && w[16] == (v & 0x10000 != 0) && w[17] == (v & 0x20000 != 0) && w[18] == (v & 0x40000 != 0) &&
      w[19] == (v & 0x80000 != 0)
    && w[20] == (v & 0x100000 != 0) && w[21] == (v & 0x200000 != 0) && w[22] == (v & 0x400000 != 0) &&
      w[23] == (v & 0x800000 != 0)
    && w[24] == (v & 0x1000000 != 0) && w[25] == (v & 0x2000000 != 0) && w[26] == (v & 0x4000000 != 0) &&
      w[27] == (v & 0x8000000 != 0)
    && w[28] == (v & 0x10000000 != 0) && w[29] == (v & 0x20000000 != 0) && w[30] == (v & 0x40000000 != 0) &&
      w[31] == (v & 0x80000000 != 0)
  }

  /** One bit into the register, as an operation on machine words. */
  function FeedWord(v: bv32, bit: bool): bv32 {
    if (v & 1 != 0) != bit then (v >> 1) ^ 0xEDB88320 else v >> 1
  }

  lemma FeedWordBits(v: bv32, bit: bool)
    ensures var r, c := FeedWord(v, bit), (v & 1 != 0) != bit;
      && (r & 0x1 != 0) == (v & 0x2 != 0) && (r & 0x2 != 0) == (v & 0x4 != 0)
      && (r & 0x4 != 0) == (v & 0x8 != 0) && (r & 0x8 != 0) == (v & 0x10 != 0)
      && (r & 0x10 != 0) == (v & 0x20 != 0) && (r & 0x20 != 0) == ((v & 0x40 != 0) != c)
      && (r & 0x40 != 0) == (v & 0x80 != 0) && (r & 0x80 != 0) == (v & 0x100 != 0)
      && (r & 0x100 != 0) == ((v & 0x200 != 0) != c) && (r & 0x200 != 0) == ((v & 0x400 != 0) != c)
      && (r & 0x400 != 0) == (v & 0x800 != 0) && (r & 0x800 != 0) == (v & 0x1000 != 0)
      && (r & 0x1000 != 0) == (v & 0x2000 != 0) && (r & 0x2000 != 0) == (v & 0x4000 != 0)
      && (r & 0x4000 != 0) == (v & 0x8000 != 0) && (r & 0x8000 != 0) == ((v & 0x10000 != 0) != c)
      && (r & 0x10000 != 0) == (v & 0x20000 != 0) && (r & 0x20000 != 0) == (v & 0x40000 != 0)
      && (r & 0x40000 != 0) == (v & 0x80000 != 0) && (r & 0x80000 != 0) == ((v & 0x100000 != 0) != c)
      && (r & 0x100000 != 0) == ((v & 0x200000 != 0) != c) && (r & 0x200000 != 0) == ((v & 0x400000 != 0) != c)
      && (r & 0x400000 != 0) == (v & 0x800000 != 0) && (r & 0x800000 != 0) == ((v & 0x1000000 != 0) != c)
      && (r & 0x1000000 != 0) == ((v & 0x2000000 != 0) != c) && (r & 0x2000000 != 0) == (v & 0x4000000 != 0)
      && (r & 0x4000000 != 0) == ((v & 0x8000000 != 0) != c) && (r & 0x8000000 != 0) == ((v & 0x10000000 != 0) != c)
      && (r & 0x10000000 != 0) == (v & 0x20000000 != 0) && (r & 0x20000000 != 0) == ((v & 0x40000000 != 0) != c)
      && (r & 0x40000000 != 0) == ((v & 0x80000000 != 0) != c) && (r & 0x80000000 != 0) == c
  {
  }

  lemma FeedBitBits(w: Word, bit: bool)
    ensures var r, c := FeedBit(w, bit), w[0] != bit;
      && r[0] == w[1] && r[1] == w[2] && r[2] == w[3] && r[3] == w[4]
      && r[4] == w[5] && r[5] == (w[6] != c) && r[6] == w[7] && r[7] == w[8]
      && r[8] == (w[9] != c) && r[9] == (w[10] != c) && r[10] == w[11] && r[11] == w[12]
      && r[12] == w[13] && r[13] == w[14] && r[14] == w[15] && r[15] == (w[16] != c)
      && r[16] == w[17] && r[17] == w[18] && r[18] == w[19] && r[19] == (w[20] != c)
      && r[20] == (w[21] != c) && r[21] == (w[22] != c) && r[22] == w[23] && r[23] == (w[24] != c)
      && r[24] == (w[25] != c) && r[25] == w[26] && r[26] == (w[27] != c) && r[27] == (w[28] != c)
      && r[28] == w[29] && r[29] == (w[30] != c) && r[30] == (w[31] != c) && r[31] == c
  {
    hide Bits;
    PolyLow(POLY, 32);
    PolyHigh(POLY, 16);
    hide ShiftRight, Xor;
  }

  /** The register on bits and the register on machine words go together. */
  lemma FeedReads(w: Word, v: bv32, bit: bool)
    requires Reads(w, v)
    ensures Reads(FeedBit(w, bit), FeedWord(v, bit))
  {
    FeedWordBits(v, bit);
    FeedBitBits(w, bit);
    hide FeedBit, FeedWord;
  }

  function FeedLow(v: bv32, octet: nat, n: nat): bv32
    decreases n
  {
    if n == 0 then v else FeedLow(FeedWord(v, octet % 2 == 1), octet / 2, n - 1)
  }

  lemma {:induction false} LowReads(w: Word, v: bv32, octet: nat, n: nat)
    requires Reads(w, v)
    ensures Reads(FeedBits(w, Bits(octet, n)), FeedLow(v, octet, n))
    decreases n
  {
    hide Reads, FeedWord, FeedBit;
    if n > 0 {
      FeedReads(w, v, octet % 2 == 1);
      var bits := Bits(octet, n);
      assert bits[0] == (octet % 2 == 1) && bits[1..] == Bits(octet / 2, n - 1);
      LowReads(FeedBit(w, octet % 2 == 1), FeedWord(v, octet % 2 == 1), octet / 2, n - 1);
    }
  }

  function Nibbled(v: bv32, o: nat): bv32 {
    FeedWord(FeedWord(FeedWord(FeedWord(v, o % 2 == 1), o / 2 % 2 == 1), o / 4 % 2 == 1), o / 8 % 2 == 1)
  }

  lemma FeedsFour(v: bv32, o: nat, n: nat)
    requires n >= 4
    ensures FeedLow(v, o, n) == FeedLow(Nibbled(v, o), o / 16, n - 4)
  {
    hide FeedWord;
    var a := FeedWord(v, o % 2 == 1);
    var b := FeedWord(a, o / 2 % 2 == 1);
    var c := FeedWord(b, o / 4 % 2 == 1);
    assert FeedLow(v, o, n) == FeedLow(a, o / 2, n - 1);
    assert FeedLow(a, o / 2, n - 1) == FeedLow(b, o / 2 / 2, n - 2);
    assert FeedLow(b, o / 4, n - 2) == FeedLow(c, o / 4 / 2, n - 3);
    assert FeedLow(c, o / 8, n - 3) == FeedLow(FeedWord(c, o / 8 % 2 == 1), o / 8 / 2, n - 4);
  }

  lemma FeedsEight(w: Word, v: bv32, octet: byte, next: bv32)
    requires Reads(w, v) && next == Nibbled(Nibbled(v, octet), octet / 16)
    ensures Reads(FeedBits(w, Bits(octet, 8)), next)
  {
    hide Reads, Nibbled, Bits, FeedBits;
    var n := |Bits(octet, 8)|;
    LowReads(w, v, octet, n);
    FeedsFour(v, octet, n);
    FeedsFour(Nibbled(v, octet), octet / 16, n - 4);
  }

  // ---------- The known answer ----------

  lemma {:induction false} AllOnes(v: nat, n: nat)
    requires v + 1 == Pow2(n)
    ensures forall i :: 0 <= i < n ==> Bits(v, n)[i]
  {
    if n > 0 { AllOnes(v / 2, n - 1); }
  }

  lemma OnesRead()
    ensures Reads(ONES, 0xFFFFFFFF)
  {
    Powers();
    hide Bits, Pow2;
    AllOnes(U32_MAX, |ONES|);
  }

  lemma AnswerLow(w: Word, n: nat)
    requires n == 32 && w == Bits(0xCBF43926, n)
    ensures !w[0] && w[1] && w[2] && !w[3] && !w[4] && w[5] && !w[6] && !w[7]
    ensures w[8] && !w[9] && !w[10] && w[11] && w[12] && w[13] && !w[14] && !w[15]
    ensures w[16..] == Bits(0xCBF4, n - 16)
  {
    hide Bits;
    assert w[0..] == w;
    NibbleAt(w, 0, n, 0xCBF43926);
    NibbleAt(w, 4, n - 4, 0xCBF4392);
    NibbleAt(w, 8, n - 8, 0xCBF439);
    NibbleAt(w, 12, n - 12, 0xCBF43);
  }

  lemma AnswerHigh(w: Word, n: nat)
    requires n == 16 && w[16..] == Bits(0xCBF4, n)
    ensures !w[16] && !w[17] && w[18] && !w[19] && w[20] && w[21] && w[22] && w[23]
    ensures w[24] && w[25] && !w[26] && w[27] && !w[28] && !w[29] && w[30] && w[31]
  {
    hide Bits;
    NibbleAt(w, 16, n, 0xCBF4);
    NibbleAt(w, 20, n - 4, 0xCBF);
    NibbleAt(w, 24, n - 8, 0xCB);
    NibbleAt(w, 28, n - 12, 0xC);
  }

  lemma LastBits(w: Word)
    requires Reads(w, 0x340BC6D9)
    ensures w[0] && !w[1] && !w[2] && w[3] && w[4] && !w[5] && w[6] && w[7]
    ensures !w[8] && w[9] && w[10] && !w[11] && !w[12] && !w[13] && w[14] && w[15]
    ensures w[16] && w[17] && !w[18] && w[19] && !w[20] && !w[21] && !w[22] && !w[23]
    ensures !w[24] && !w[25] && w[26] && !w[27] && w[28] && w[29] && !w[30] && !w[31]
  {
  }

  lemma AnswerOpposed(w: Word, r: Word, n: nat)
    requires n == 32 && Reads(w, 0x340BC6D9) && r == Bits(0xCBF43926, n)
    ensures w[0] != r[0] && w[1] != r[1] && w[2] != r[2] && w[3] != r[3] && w[4] != r[4] && w[5] != r[5] &&
            w[6] != r[6] && w[7] != r[7]
    ensures w[8] != r[8] && w[9] != r[9] && w[10] != r[10] && w[11] != r[11] && w[12] != r[12] && w[13] != r[13] &&
            w[14] != r[14] && w[15] != r[15]
    ensures w[16] != r[16] && w[17] != r[17] && w[18] != r[18] && w[19] != r[19] && w[20] != r[20] && w[21] != r[21] &&
            w[22] != r[22] && w[23] != r[23]
    ensures w[24] != r[24] && w[25] != r[25] && w[26] != r[26] && w[27] != r[27] && w[28] != r[28] && w[29] != r[29] &&
            w[30] != r[30] && w[31] != r[31]
  {
    LastBits(w);
    hide Bits, Reads;
    AnswerLow(r, n);
    AnswerHigh(r, n - 16);
  }

  lemma OctetOpposed(w: Word, r: Word, k: nat)
    requires k + 8 <= 32
    requires w[k] != r[k] && w[k + 1] != r[k + 1] && w[k + 2] != r[k + 2] && w[k + 3] != r[k + 3]
    requires w[k + 4] != r[k + 4] && w[k + 5] != r[k + 5] && w[k + 6] != r[k + 6] && w[k + 7] != r[k + 7]
    ensures forall i :: k <= i < k + 8 ==> w[i] != r[i]
  {
    hide *;
    forall i | k <= i < k + 8 ensures w[i] != r[i] {
      assert i == k || i == k + 1 || i == k + 2 || i == k + 3 || i == k + 4 || i == k + 5 || i == k + 6 || i == k + 7;
    }
  }

  lemma WordOpposed(w: Word, r: Word)
    requires w[0] != r[0] && w[1] != r[1] && w[2] != r[2] && w[3] != r[3] && w[4] != r[4] && w[5] != r[5] &&
             w[6] != r[6] && w[7] != r[7]
    requires w[8] != r[8] && w[9] != r[9] && w[10] != r[10] && w[11] != r[11] && w[12] != r[12] && w[13] != r[13] &&
             w[14] != r[14] && w[15] != r[15]
    requires w[16] != r[16] && w[17] != r[17] && w[18] != r[18] && w[19] != r[19] && w[20] != r[20] && w[21] != r[21] &&
             w[22] != r[22] && w[23] != r[23]
    requires w[24] != r[24] && w[25] != r[25] && w[26] != r[26] && w[27] != r[27] && w[28] != r[28] && w[29] != r[29] &&
             w[30] != r[30] && w[31] != r[31]
    ensures forall i :: 0 <= i < 32 ==> w[i] != r[i]
  {
    hide *;
    OctetOpposed(w, r, 0);
    OctetOpposed(w, r, 8);
    OctetOpposed(w, r, 16);
    OctetOpposed(w, r, 24);
  }

  lemma Complemented(w: Word, r: Word)
    requires forall i :: 0 <= i < 32 ==> w[i] != r[i]
    ensures Xor(w, ONES) == r
  {
    Powers();
    hide Bits, Pow2;
    AllOnes(U32_MAX, |ONES|);
  }

  lemma AnswerRead(w: Word, n: nat)
    requires n == 32 && Reads(w, 0x340BC6D9)
    ensures Xor(w, ONES) == Bits(0xCBF43926, n)
  {
    hide *;
    AnswerOpposed(w, Bits(0xCBF43926, n), n);
    WordOpposed(w, Bits(0xCBF43926, n));
    Complemented(w, Bits(0xCBF43926, n));
  }

  lemma FirstOctets()
    ensures Nibbled(Nibbled(0xFFFFFFFF, 0x31), 0x31 / 16) == 0x7C231048
    ensures Nibbled(Nibbled(0x7C231048, 0x32), 0x32 / 16) == 0xB0ACBB32
    ensures Nibbled(Nibbled(0xB0ACBB32, 0x33), 0x33 / 16) == 0x77B79C2D
  {
  }

  lemma MiddleOctets()
    ensures Nibbled(Nibbled(0x77B79C2D, 0x34), 0x34 / 16) == 0x641C1F5C
    ensures Nibbled(Nibbled(0x641C1F5C, 0x35), 0x35 / 16) == 0x340AC5E3
    ensures Nibbled(Nibbled(0x340AC5E3, 0x36), 0x36 / 16) == 0xF68D2C9E
  {
  }

  lemma LastOctets()
    ensures Nibbled(Nibbled(0xF68D2C9E, 0x37), 0x37 / 16) == 0xAFFC9660
    ensures Nibbled(Nibbled(0xAFFC9660, 0x38), 0x38 / 16) == 0x651F2550
    ensures Nibbled(Nibbled(0x651F2550, 0x39), 0x39 / 16) == 0x340BC6D9
  {
  }

  /** The first octets of a message leave `next` in the register. */
  lemma OctetsRead(w: Word, v: bv32, data: bytes, o: byte, next: bv32, rest: bytes)
    requires Reads(w, v) && data == [o] + rest && next == Nibbled(Nibbled(v, o), o / 16)
    ensures Reads(FeedBits(w, Bits(o, 8)), next)
    ensures FeedBits(w, MessageBits(data)) == FeedBits(FeedBits(w, Bits(o, 8)), MessageBits(rest))
  {
    hide Reads, Nibbled, Bits, FeedBits;
    FeedsEight(w, v, o, next);
    assert data[1..] == rest;
    FeedConcat(w, Bits(o, 8), MessageBits(rest));
  }

  lemma Digits()
    ensures Ascii("123456789") == [0x31, 0x32, 0x33, 0x34, 0x35, 0x36, 0x37, 0x38, 0x39]
  {
  }

  lemma DigitsFed(w: Word)
    requires w == FeedBits(ONES, MessageBits([0x31, 0x32, 0x33, 0x34, 0x35, 0x36, 0x37, 0x38, 0x39]))
    ensures Reads(w, 0x340BC6D9)
  {
    FirstOctets();
    MiddleOctets();
    LastOctets();
    OnesRead();
    hide *;
    OctetsRead(ONES, 0xFFFFFFFF, [0x31, 0x32, 0x33, 0x34, 0x35, 0x36, 0x37, 0x38, 0x39], 0x31, 0x7C231048,
      [0x32, 0x33, 0x34, 0x35, 0x36, 0x37, 0x38, 0x39]);
    var w1 := FeedBits(ONES, Bits(0x31, 8));
    OctetsRead(w1, 0x7C231048, [0x32, 0x33, 0x34, 0x35, 0x36, 0x37, 0x38, 0x39], 0x32, 0xB0ACBB32,
      [0x33, 0x34, 0x35, 0x36, 0x37, 0x38, 0x39]);
    var w2 := FeedBits(w1, Bits(0x32, 8));
    OctetsRead(w2, 0xB0ACBB32, [0x33, 0x34, 0x35, 0x36, 0x37, 0x38, 0x39], 0x33, 0x77B79C2D,
      [0x34, 0x35, 0x36, 0x37, 0x38, 0x39]);
    var w3 := FeedBits(w2, Bits(0x33, 8));
    OctetsRead(w3, 0x77B79C2D, [0x34, 0x35, 0x36, 0x37, 0x38, 0x39], 0x34, 0x641C1F5C, [0x35, 0x36, 0x37, 0x38, 0x39]);
    var w4 := FeedBits(w3, Bits(0x34, 8));
    OctetsRead(w4, 0x641C1F5C, [0x35, 0x36, 0x37, 0x38, 0x39], 0x35, 0x340AC5E3, [0x36, 0x37, 0x38, 0x39]);
    var w5 := FeedBits(w4, Bits(0x35, 8));
    OctetsRead(w5, 0x340AC5E3, [0x36, 0x37, 0x38, 0x39], 0x36, 0xF68D2C9E, [0x37, 0x38, 0x39]);
    var w6 := FeedBits(w5, Bits(0x36, 8));
    OctetsRead(w6, 0xF68D2C9E, [0x37, 0x38, 0x39], 0x37, 0xAFFC9660, [0x38, 0x39]);
    var w7 := FeedBits(w6, Bits(0x37, 8));
    OctetsRead(w7, 0xAFFC9660, [0x38, 0x39], 0x38, 0x651F2550, [0x39]);
    var w8 := FeedBits(w7, Bits(0x38, 8));
    OctetsRead(w8, 0x651F2550, [0x39], 0x39, 0x340BC6D9, []);
    var w9 := FeedBits(w8, Bits(0x39, 8));
    FedNothing(w9);
  }

  lemma FedNothing(w: Word)
    ensures FeedBits(w, MessageBits([])) == w
  {
  }

  /** The check value of CRC-32: the nine digits give 0xCBF43926. */
  lemma KnownAnswer()
    ensures Crc32(Ascii("123456789")) == 0xCBF43926
  {
    var data := Ascii("123456789");
    Digits();
    AnswerNumber(32);
    hide Bits, FeedBits, Number, Ascii, Reads;
    var w := FeedBits(ONES, MessageBits(data));
    DigitsFed(w);
    AnswerRead(w, 32);
  }

  lemma AnswerNumber(n: nat)
    requires n == 32
    ensures Number(Bits(0xCBF43926, n)) == 0xCBF43926
  {
    Powers();
    hide Bits, Number, Pow2;
    NumberOfBits(0xCBF43926, n);
  }
}
