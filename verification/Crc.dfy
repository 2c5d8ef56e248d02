/** The table-driven CRC-32 of src/core/serialize.cpp, proved against the bit-serial register of
    section 3.2.9 of IEEE Std 802.3, and the bursts of errors that register always detects.

    A 32-bit word is its bits, least significant first, so that exclusive-or is pointwise and a
    right shift drops the head of the sequence. */
module Crc {
  import opened Words

  type Word = w: seq<bool> | |w| == 32 witness Bits(0, 32)

  function Zeros(n: nat): (z: seq<bool>)
    ensures |z| == n && forall i :: 0 <= i < n ==> !z[i]
  {
    seq(n, _ => false)
  }

  /** The `n` low bits of `v`, least significant first. */
  function Bits(v: nat, n: nat): (b: seq<bool>)
    ensures |b| == n
  {
    if n == 0 then [] else [v % 2 == 1] + Bits(v / 2, n - 1)
  }

  function Number(b: seq<bool>): nat {
    if b == [] then 0 else (if b[0] then 1 else 0) + 2 * Number(b[1..])
  }

  function WordNumber(w: Word): (n: u32) {
    NumberBound(w);
    Number(w)
  }

  function Pow2(n: nat): (p: nat)
    ensures p > 0
  {
    if n == 0 then 1 else 2 * Pow2(n - 1)
  }

  const POLY: Word := Bits(0xEDB88320, 32)
  const ONES: Word := Bits(U32_MAX, 32)

  function Xor(a: Word, b: Word): (r: Word)
    ensures forall i :: 0 <= i < 32 ==> r[i] == (a[i] != b[i])
  {
    seq(32, i requires 0 <= i < 32 => a[i] != b[i])
  }

  function ShiftRight(c: Word, n: nat): (r: Word)
    requires n <= 32
    ensures forall i :: 0 <= i < 32 ==> r[i] == (i + n < 32 && c[i + n])
  {
    c[n..] + Zeros(n)
  }

  function Padded(bits: seq<bool>): (r: Word)
    requires |bits| <= 32
    ensures forall i :: 0 <= i < 32 ==> r[i] == (i < |bits| && bits[i])
  {
    bits + Zeros(32 - |bits|)
  }

  // ---------- The standard's register ----------

  /** Feeds one message bit to the reflected shift register. */
  function FeedBit(reg: Word, bit: bool): Word {
    var next := ShiftRight(reg, 1);
    if reg[0] != bit then Xor(next, POLY) else next
  }

  function FeedBits(reg: Word, bits: seq<bool>): Word
    decreases |bits|
  {
    if bits == [] then reg else FeedBits(FeedBit(reg, bits[0]), bits[1..])
  }

  /** The bits of a message in transmission order: octets first to last, each low bit first. */
  function MessageBits(data: bytes): (b: seq<bool>)
    ensures |b| == 8 * |data|
  {
    if data == [] then [] else Bits(data[0], 8) + MessageBits(data[1..])
  }

  /** CRC-32: preset the register to ones, feed every message bit, complement. */
  function Ieee(data: bytes): Word {
    Xor(FeedBits(ONES, MessageBits(data)), ONES)
  }

  /** What `crc32` returns: the standard's value, except that nothing at all gives all ones. */
  function Crc32(data: bytes): (crc: u32) {
    if data == [] then U32_MAX else WordNumber(Ieee(data))
  }

  // ---------- Numbers and bits ----------

  lemma {:induction false} NumberBound(b: seq<bool>)
    ensures Number(b) < Pow2(|b|)
    ensures |b| == 32 ==> Number(b) <= U32_MAX
    ensures |b| == 8 ==> Number(b) < 256
  {
    if b != [] { NumberBound(b[1..]); }
    Powers();
  }

  lemma Powers()
    ensures Pow2(8) == 0x100 && Pow2(31) == 0x8000_0000 && Pow2(32) == 0x1_0000_0000
  {
    assert Pow2(8) == 0x100;
    assert Pow2(14) == 0x4000;
    assert Pow2(20) == 0x10_0000;
    assert Pow2(26) == 0x400_0000;
  }

  lemma {:induction false} BitsOfNumber(b: seq<bool>)
    ensures Bits(Number(b), |b|) == b
  {
    if b != [] { BitsOfNumber(b[1..]); }
  }

  lemma {:induction false} NumberOfBits(v: nat, n: nat)
    requires v < Pow2(n)
    ensures Number(Bits(v, n)) == v
  {
    if n > 0 { NumberOfBits(v / 2, n - 1); }
  }

  // ---------- The shifting step is linear and loses nothing ----------

  /** One step of the inner loop that fills the table. */
  function Shift(c: Word): Word {
    if c[0] then Xor(ShiftRight(c, 1), POLY) else ShiftRight(c, 1)
  }

  function Shifts(c: Word, n: nat): Word
    decreases n, |c|
  {
    if n == 0 then c else Shifts(Shift(c), n - 1)
  }

  lemma {:induction false} ShiftsLinear(a: Word, b: Word, n: nat)
    ensures Shifts(Xor(a, b), n) == Xor(Shifts(a, n), Shifts(b, n))
    decreases n
  {
    if n > 0 {
      assert Shift(Xor(a, b)) == Xor(Shift(a), Shift(b));
      ShiftsLinear(Shift(a), Shift(b), n - 1);
    }
  }

  lemma XorInjective(a: Word, b: Word, m: Word)
    requires Xor(a, m) == Xor(b, m)
    ensures a == b
  {
    forall i | 0 <= i < 32 ensures a[i] == b[i] { assert Xor(a, m)[i] == Xor(b, m)[i]; }
  }

  /** The polynomial has its top bit set, so the bit shifted out can be read back: the step is a
      bijection on 32-bit words. */
  lemma ShiftInjective(a: Word, b: Word)
    requires Shift(a) == Shift(b)
    ensures a == b
  {
    ShiftTop(a);
    ShiftTop(b);
    var x, y := ShiftRight(a, 1), ShiftRight(b, 1);
    if a[0] { XorInjective(x, y, POLY); }
    forall i | 0 <= i < 32 ensures a[i] == b[i] {
      if i > 0 { assert x[i - 1] == y[i - 1]; }
    }
  }

  lemma ShiftTop(a: Word)
    ensures Shift(a)[31] == a[0]
  {
    PolyTop();
  }

  lemma PolyTop()
    ensures POLY[31]
  {
    Powers();
    TopBit(0xEDB88320, 32);
  }

  lemma {:induction false} TopBit(v: nat, n: nat)
    requires n > 0 && Pow2(n - 1) <= v < Pow2(n)
    ensures Bits(v, n)[n - 1]
  {
    if n > 1 { TopBit(v / 2, n - 1); }
  }

  lemma {:induction false} ShiftsInjective(a: Word, b: Word, n: nat)
    requires Shifts(a, n) == Shifts(b, n)
    ensures a == b
    decreases n
  {
    if n > 0 {
      ShiftsInjective(Shift(a), Shift(b), n - 1);
      ShiftInjective(a, b);
    }
  }

  // ---------- Up to 32 bits enter the register as one exclusive-or ----------

  lemma {:induction false} FeedIsShift(reg: Word, bits: seq<bool>)
    requires |bits| <= 32
    ensures FeedBits(reg, bits) == Shifts(Xor(reg, Padded(bits)), |bits|)
    decreases |bits|
  {
    if bits == [] {
      assert Xor(reg, Padded(bits)) == reg;
    } else {
      var all := Xor(reg, Padded(bits));
      assert Shift(all) == Xor(FeedBit(reg, bits[0]), Padded(bits[1..]));
      FeedIsShift(FeedBit(reg, bits[0]), bits[1..]);
    }
  }

  lemma {:induction false} FeedConcat(reg: Word, a: seq<bool>, b: seq<bool>)
    ensures FeedBits(reg, a + b) == FeedBits(FeedBits(reg, a), b)
    decreases |a|
  {
    if a == [] {
      assert a + b == b;
    } else {
      assert (a + b)[1..] == a[1..] + b;
      FeedConcat(FeedBit(reg, a[0]), a[1..], b);
    }
  }

  lemma {:induction false} FeedInjective(r: Word, s: Word, bits: seq<bool>)
    requires FeedBits(r, bits) == FeedBits(s, bits)
    ensures r == s
    decreases |bits|
  {
    if bits != [] {
      FeedInjective(FeedBit(r, bits[0]), FeedBit(s, bits[0]), bits[1..]);
      FeedIsShift(r, [bits[0]]);
      FeedIsShift(s, [bits[0]]);
      var x, y := Xor(r, Padded([bits[0]])), Xor(s, Padded([bits[0]]));
      assert Shifts(x, 1) == FeedBit(r, bits[0]) && Shifts(y, 1) == FeedBit(s, bits[0]);
      ShiftsInjective(x, y, 1);
      forall i | 0 <= i < 32 ensures r[i] == s[i] { assert x[i] == y[i]; }
    }
  }

  lemma BurstDecodes(reg: Word, before: seq<bool>, u: seq<bool>, v: seq<bool>, after: seq<bool>)
    requires |u| == |v| <= 32
    requires FeedBits(reg, before + u + after) == FeedBits(reg, before + v + after)
    ensures u == v
  {
    var start := FeedBits(reg, before);
    FeedConcat(reg, before, u);
    FeedConcat(reg, before, v);
    FeedConcat(reg, before + u, after);
    FeedConcat(reg, before + v, after);
    FeedInjective(FeedBits(start, u), FeedBits(start, v), after);
    FeedIsShift(start, u);
    FeedIsShift(start, v);
    var x, y := Xor(start, Padded(u)), Xor(start, Padded(v));
    ShiftsInjective(x, y, |u|);
    forall i | 0 <= i < |u| ensures u[i] == v[i] { assert x[i] == y[i]; }
  }

  /** Two messages that differ only inside one window of at most 32 bits leave the register in
      different states, whatever surrounds the window. */
  lemma BurstDetected(reg: Word, before: seq<bool>, u: seq<bool>, v: seq<bool>, after: seq<bool>)
    requires |u| == |v| <= 32 && u != v
    ensures FeedBits(reg, before + u + after) != FeedBits(reg, before + v + after)
  {
    if FeedBits(reg, before + u + after) == FeedBits(reg, before + v + after) {
      BurstDecodes(reg, before, u, v, after);
    }
  }

  // ---------- Messages ----------

  lemma {:induction false} MessageConcat(a: bytes, b: bytes)
    ensures MessageBits(a + b) == MessageBits(a) + MessageBits(b)
  {
    if a == [] {
      assert a + b == b;
    } else {
      assert (a + b)[1..] == a[1..] + b;
      MessageConcat(a[1..], b);
    }
  }

  lemma {:induction false} MessageInjective(a: bytes, b: bytes)
    requires |a| == |b| && MessageBits(a) == MessageBits(b)
    ensures a == b
  {
    if a != [] {
      var x, y := MessageBits(a), MessageBits(b);
      assert x[..8] == Bits(a[0], 8) && y[..8] == Bits(b[0], 8);
      assert x[8..] == MessageBits(a[1..]) && y[8..] == MessageBits(b[1..]);
      assert Pow2(8) == 256;
      NumberOfBits(a[0], 8);
      NumberOfBits(b[0], 8);
      MessageInjective(a[1..], b[1..]);
    }
  }

  lemma WordNumberInjective(a: Word, b: Word)
    requires WordNumber(a) == WordNumber(b)
    ensures a == b
  {
    BitsOfNumber(a);
    BitsOfNumber(b);
  }

  lemma SameCrcSameWindow(before: bytes, u: bytes, v: bytes, after: bytes)
    requires |u| == |v| <= 4
    requires Crc32(before + u + after) == Crc32(before + v + after)
    ensures u == v
  {
    if u == [] { return; }
    var a, b := before + u + after, before + v + after;
    WordNumberInjective(Ieee(a), Ieee(b));
    XorInjective(FeedBits(ONES, MessageBits(a)), FeedBits(ONES, MessageBits(b)), ONES);
    MessageConcat(before + u, after);
    MessageConcat(before, u);
    MessageConcat(before + v, after);
    MessageConcat(before, v);
    BurstDecodes(ONES, MessageBits(before), MessageBits(u), MessageBits(v), MessageBits(after));
    MessageInjective(u, v);
  }

  /** No change confined to four consecutive bytes of a message goes unnoticed by its CRC. */
  lemma Crc32DetectsBurst(before: bytes, u: bytes, v: bytes, after: bytes)
    requires |u| == |v| <= 4 && u != v
    ensures Crc32(before + u + after) != Crc32(before + v + after)
  {
    if Crc32(before + u + after) == Crc32(before + v + after) {
      SameCrcSameWindow(before, u, v, after);
    }
  }

  /** `crc32` departs from the standard on the empty message and nowhere else. */
  lemma EmptyIsTheOnlyException(data: bytes)
    ensures Bits(Crc32(data), 32) == Ieee(data) <==> data != []
  {
    BitsOfNumber(Ieee(data));
    if data == [] {
      assert Bits(U32_MAX, 32)[0];
      assert Ieee(data)[0] == false;
    }
  }

  // ---------- The table ----------

  /** A byte widened to a word. */
  function OctetWord(b: byte): Word { Padded(Bits(b, 8)) }

  /** The table's entry for a byte: the register after feeding it to an empty register. */
  function Entry(i: byte): Word { FeedBits(Padded([]), Bits(i, 8)) }

  lemma EntryIsShifts(i: byte, n: nat)
    requires n == 8
    ensures Entry(i) == Shifts(OctetWord(i), n)
  {
    FeedIsShift(Padded([]), Bits(i, 8));
    assert Xor(Padded([]), OctetWord(i)) == OctetWord(i);
  }

  /** Looking up the low byte of the register and shifting eight places is eight single steps. */
  lemma TableStep(crc: Word, b: byte)
    ensures var x := Xor(crc, OctetWord(b));
            Number(x[..8]) < 256 &&
            Xor(Entry(Number(x[..8])), ShiftRight(crc, 8)) == FeedBits(crc, Bits(b, 8))
  {
    var x := Xor(crc, OctetWord(b));
    var low, high := Padded(x[..8]), Zeros(8) + x[8..];
    FeedIsShift(crc, Bits(b, 8));
    assert x == Xor(low, high);
    ShiftsLinear(low, high, |Bits(b, 8)|);
    HighBits(high, |Bits(b, 8)|);
    assert ShiftRight(high, 8) == ShiftRight(crc, 8);
    NumberBound(x[..8]);
    BitsOfNumber(x[..8]);
    EntryIsShifts(Number(x[..8]), |Bits(b, 8)|);
  }

  lemma {:induction false} HighBits(c: Word, n: nat)
    requires n <= 32 && forall i :: 0 <= i < n ==> !c[i]
    ensures Shifts(c, n) == ShiftRight(c, n)
    decreases n
  {
    if n == 0 {
      assert ShiftRight(c, 0) == c;
    } else {
      HighBits(Shift(c), n - 1);
      assert ShiftRight(Shift(c), n - 1) == ShiftRight(c, n);
    }
  }

  lemma {:induction false} ShiftsSnoc(c: Word, n: nat)
    ensures Shifts(c, n + 1) == Shift(Shifts(c, n))
    decreases n
  {
    if n > 0 { ShiftsSnoc(Shift(c), n - 1); }
  }

  method FillTable() returns (table: array<Word>)
    ensures fresh(table) && table.Length == 256
    ensures forall i :: 0 <= i < 256 ==> table[i] == Entry(i)
  {
    table := new Word[256];
    for i := 0 to 256
      invariant forall j :: 0 <= j < i ==> table[j] == Entry(j)
    {
      var start := OctetWord(i);
      var c := start;
      for k := 0 to 8
        modifies {}
        invariant c == Shifts(start, k)
      {
        ShiftsSnoc(start, k);
        c := Shift(c);
      }
      EntryIsShifts(i, 8);
      table[i] := c;
    }
  }

  lemma NextByte(data: bytes, i: nat)
    requires i < |data|
    ensures FeedBits(FeedBits(ONES, MessageBits(data[..i])), Bits(data[i], 8)) ==
            FeedBits(ONES, MessageBits(data[..i + 1]))
  {
    var x: bytes := [data[i]];
    assert data[..i + 1] == data[..i] + x;
    assert MessageBits(x) == Bits(data[i], 8) by {
      assert x[1..] == [];
      assert Bits(data[i], 8) + [] == Bits(data[i], 8);
    }
    MessageConcat(data[..i], x);
    FeedConcat(ONES, MessageBits(data[..i]), Bits(data[i], 8));
  }

  /** The table-driven loop computes the bit-serial CRC. */
  method ComputeCrc32(data: bytes) returns (crc: u32)
    ensures crc == Crc32(data)
  {
    if data == [] { return U32_MAX; }
    var table := FillTable();
    var c := ONES;
    for i := 0 to |data|
      modifies {}
      invariant c == FeedBits(ONES, MessageBits(data[..i]))
    {
      TableStep(c, data[i]);
      NextByte(data, i);
      var low := Number(Xor(c, OctetWord(data[i]))[..8]);
      c := Xor(table[low], ShiftRight(c, 8));
    }
    assert data[..|data|] == data;
    crc := WordNumber(Xor(c, ONES));
  }
}
