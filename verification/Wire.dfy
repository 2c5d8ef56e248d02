/** ByteWriter and ByteReader of serialize.hpp: the buffer that grows, and the cursor with its sticky
    failure flag. Each writing method is proved to put the format of `Grammar` behind what was
    written before; each reading method is proved to be the parser of `Grammar`, once lifted to the
    flag. */
module Wire {
  import opened Words
  import opened Grammar

  lemma {:induction false} LeAppend(b: bytes, x: byte)
    ensures FromLe(b + [x]) == FromLe(b) + x * Pow256(|b|)
  {
    if b == [] {
      assert [x][1..] == [];
    } else {
      assert (b + [x])[1..] == b[1..] + [x];
      LeAppend(b[1..], x);
      assert 256 * (x * Pow256(|b| - 1)) == x * (256 * Pow256(|b| - 1));
    }
  }

  /** `v >> 8 * i`. */
  function ShiftedBytes(v: nat, i: nat): nat {
    if i == 0 then v else ShiftedBytes(v, i - 1) / 256
  }

  lemma ShiftStep(v: nat, n: nat, i: nat, before: bytes)
    requires i < n
    ensures before + Le(ShiftedBytes(v, i), n - i)
         == before + [ShiftedBytes(v, i) % 256] + Le(ShiftedBytes(v, i + 1), n - (i + 1))
  {
    var w := ShiftedBytes(v, i);
    assert Le(w, n - i) == [w % 256] + Le(w / 256, n - (i + 1));
  }

  lemma Weigh(v: nat, b: byte, i: nat)
    requires v < Pow256(i)
    ensures v + b * Pow256(i) < Pow256(i + 1)
  {
    BelowProduct(Pow256(i), 256, b, v);
    assert Pow256(i + 1) == Pow256(i) * 256;
  }

  class ByteWriter {
    var buf: bytes

    constructor ()
      ensures buf == []
    {
      buf := [];
    }

    method U8(v: byte)
      modifies this
      ensures forall k: bytes :: buf + k == old(buf) + PutU8(v, k)
    {
      buf := buf + [v];
      assert forall k: bytes :: old(buf) + [v] + k == old(buf) + ([v] + k);
    }

    /** The shifting loop: byte `i` is the low byte of what is left after `i` shifts by eight. */
    method Shifting(v: nat, n: nat)
      modifies this
      ensures buf == old(buf) + Le(v, n)
    {
      for i := 0 to n
        invariant buf + Le(ShiftedBytes(v, i), n - i) == old(buf) + Le(v, n)
      {
        ShiftStep(v, n, i, buf);
        buf := buf + [ShiftedBytes(v, i) % 256];
      }
    }

    method U32(v: u32)
      modifies this
      ensures forall k: bytes :: buf + k == old(buf) + PutU32(v, k)
    {
      Shifting(v, 4);
      assert forall k: bytes :: old(buf) + Le(v, 4) + k == old(buf) + (Le(v, 4) + k);
    }

    method U64(v: u64)
      modifies this
      ensures forall k: bytes :: buf + k == old(buf) + PutU64(v, k)
    {
      Shifting(v, 8);
      assert forall k: bytes :: old(buf) + Le(v, 8) + k == old(buf) + (Le(v, 8) + k);
    }

    method I64(v: int)
      modifies this
      ensures forall k: bytes :: buf + k == old(buf) + PutI64(v, k)
    {
      hide PutU64;
      U64(v % (U64_MAX + 1));
    }

    method Flag(b: bool)
      modifies this
      ensures forall k: bytes :: buf + k == old(buf) + PutFlag(b, k)
    {
      hide PutU8;
      U8(if b then 1 else 0);
    }

    method Raw(x: bytes)
      modifies this
      ensures forall k: bytes :: buf + k == old(buf) + (x + k)
    {
      buf := buf + x;
      assert forall k: bytes :: old(buf) + x + k == old(buf) + (x + k);
    }

    method Text(x: bytes)
      modifies this
      ensures forall k: bytes :: buf + k == old(buf) + PutText(x, k)
    {
      hide PutU32;
      U32(|x| % (U32_MAX + 1));
      Raw(x);
    }

    method Texts(xs: seq<bytes>)
      modifies this
      ensures forall k: bytes :: buf + k == old(buf) + PutList(PutText, xs, k)
    {
      hide PutU32, PutText;
      ghost var start := buf;
      U32(|xs| % (U32_MAX + 1));
      for i := 0 to |xs|
        invariant forall k: bytes :: buf + PutEach(PutText, xs[i..], k) == start + PutList(PutText, xs, k)
      {
        ghost var before := buf;
        Text(xs[i]);
        forall k: bytes ensures buf + PutEach(PutText, xs[i + 1..], k) == start + PutList(PutText, xs, k) {
          assert xs[i..][1..] == xs[i + 1..];
          assert PutEach(PutText, xs[i..], k) == PutText(xs[i], PutEach(PutText, xs[i + 1..], k));
          assert before + PutEach(PutText, xs[i..], k) == start + PutList(PutText, xs, k);
        }
      }
      assert xs[|xs|..] == [];
      forall k: bytes ensures buf + k == start + PutList(PutText, xs, k) {
        assert buf + PutEach(PutText, xs[|xs|..], k) == start + PutList(PutText, xs, k);
      }
    }
  }

  /** What a parse amounts to for a reader that had, or had not, failed before. */
  function Lift<T>(failed: bool, p: Parse<T>): Parse<T> { if failed then Fail else p }

  class ByteReader {
    const data: bytes
    var pos: nat
    var failed: bool

    ghost predicate Valid()
      reads this
    {
      pos <= |data|
    }

    function Rest(): bytes
      requires Valid()
      reads this
    {
      data[pos..]
    }

    /** The reader failed exactly if `p` did; otherwise it yields the value and stands at the rest. */
    ghost predicate Yields<T>(p: Parse<T>, v: T)
      requires Valid()
      reads this
    {
      if p.Fail? then failed else !failed && v == p.value && Rest() == p.rest
    }

    constructor (data: bytes)
      ensures Valid() && Rest() == data && !failed
    {
      this.data, pos, failed := data, 0, false;
    }

    method Need(n: nat)
      requires Valid()
      modifies `failed
      ensures failed == (old(failed) || n > |Rest()|)
    {
      if failed { return; }
      if n > |data| - pos { failed := true; }
    }

    method U8() returns (v: byte)
      requires Valid()
      modifies this
      ensures Valid() && Yields(Lift(old(failed), GetU8(old(Rest()))), v)
      ensures failed ==> v == 0
    {
      Need(1);
      if failed { return 0; }
      v := data[pos];
      pos := pos + 1;
    }

    /** The accumulating loop: byte `i` of the buffer weighs `256^i`. */
    method Accumulate(n: nat) returns (v: nat)
      requires Valid()
      modifies this
      ensures Valid() && v < Pow256(n)
      ensures failed == (old(failed) || |old(Rest())| < n)
      ensures !failed ==> v == FromLe(old(Rest())[..n]) && Rest() == old(Rest())[n..]
    {
      ghost var input := Rest();
      v := 0;
      for i := 0 to n
        invariant Valid() && v < Pow256(i)
        invariant failed == (old(failed) || |input| < i)
        invariant !failed ==> v == FromLe(input[..i]) && Rest() == input[i..]
      {
        ghost var sofar := v;
        var b := U8();
        if !failed {
          LeAppend(input[..i], b);
          assert input[..i + 1] == input[..i] + [b];
        }
        Weigh(v, b, i);
        v := v + b * Pow256(i);
      }
    }

    method U32() returns (v: u32)
      requires Valid()
      modifies this
      ensures Valid() && Yields(Lift(old(failed), GetU32(old(Rest()))), v)
    {
      Sizes();
      v := Accumulate(4);
    }

    method U64() returns (v: u64)
      requires Valid()
      modifies this
      ensures Valid() && Yields(Lift(old(failed), GetU64(old(Rest()))), v)
    {
      Sizes();
      v := Accumulate(8);
    }

    method I64() returns (v: int)
      requires Valid()
      modifies this
      ensures Valid() && Yields(Lift(old(failed), GetI64(old(Rest()))), v)
    {
      hide GetU64;
      var w := U64();
      v := if w < 0x8000_0000_0000_0000 then w else w - (U64_MAX + 1);
    }

    method Flag() returns (b: bool)
      requires Valid()
      modifies this
      ensures Valid() && Yields(Lift(old(failed), GetFlag(old(Rest()))), b)
      ensures failed ==> !b
    {
      hide GetU8;
      var v := U8();
      b := v != 0;
    }

    method Text() returns (x: Option<bytes>)
      requires Valid()
      modifies this
      ensures Valid()
      ensures var p := Lift(old(failed), GetText(old(Rest())));
              if p.Fail? then x.None? && failed else x.Some? && Yields(p, x.value)
    {
      hide GetU32;
      var n := U32();
      if failed || n > MAX_LEN { failed := true; return None; }
      Need(n);
      if failed { return None; }
      ghost var here := Rest();
      x := Some(data[pos..pos + n]);
      pos := pos + n;
      assert here[..n] == x.value && here[n..] == Rest();
    }

    method Texts() returns (xs: Option<seq<bytes>>)
      requires Valid()
      modifies this
      ensures Valid()
      ensures var p := Lift(old(failed), GetList(GetText, MAX_COUNT, old(Rest())));
              if p.Fail? then xs.None? && failed else xs.Some? && Yields(p, xs.value)
    {
      hide GetU32, GetText;
      var n := U32();
      if failed || n > MAX_COUNT { failed := true; return None; }
      ghost var goal := GetEach(GetText, n, Rest());
      var out: seq<bytes> := [];
      assert goal.Got? ==> out + goal.value == goal.value;
      for i := 0 to n
        invariant Valid() && !failed
        invariant goal == Prefixed(out, GetEach(GetText, n - i, Rest()))
      {
        ghost var here := Rest();
        var x := Text();
        PrefixStep(GetText, out, n - i, here);
        if x.None? { return None; }
        out := out + [x.value];
      }
      xs := Some(out);
      assert out + [] == out;
    }
  }

  /** The parse of a list whose first elements are already known. */
  function Prefixed<T>(xs: seq<T>, p: Parse<seq<T>>): Parse<seq<T>> {
    if p.Fail? then Fail else Got(xs + p.value, p.rest)
  }

  lemma PrefixStep<T>(get: bytes -> Parse<T>, xs: seq<T>, n: nat, s: bytes)
    requires n > 0
    ensures get(s).Fail? ==> Prefixed(xs, GetEach(get, n, s)).Fail?
    ensures get(s).Got? ==>
              Prefixed(xs, GetEach(get, n, s)) == Prefixed(xs + [get(s).value], GetEach(get, n - 1, get(s).rest))
  {
    if get(s).Got? && GetEach(get, n - 1, get(s).rest).Got? {
      var tail := GetEach(get, n - 1, get(s).rest).value;
      assert xs + ([get(s).value] + tail) == xs + [get(s).value] + tail;
    }
  }
}
