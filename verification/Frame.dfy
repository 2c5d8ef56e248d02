/** The checksummed frame of serialize.hpp: payload, then magic, version, length and CRC. */
module Frame {
  import opened Words
  import opened Grammar
  import opened Wire
  import Crc

  datatype Outcome = Payload(payload: bytes) | TooSmall | BadMagic | BadVersion | LengthMismatch | ChecksumMismatch

  function Trailer(magic: u32, version: u32, payload: bytes): bytes {
    PutU32(magic, PutU32(version, PutU32(|payload| % (U32_MAX + 1), PutU32(Crc.Crc32(payload), []))))
  }

  function Framed(magic: u32, version: u32, payload: bytes): bytes {
    payload + Trailer(magic, version, payload)
  }

  function ParseFrame(framed: bytes, magic: u32, version: u32): Outcome {
    if |framed| < 16 then TooSmall else
      var payload, t := framed[..|framed| - 16], framed[|framed| - 16..];
      if Word32(t[0..4]) != magic then BadMagic
      else if Word32(t[4..8]) != version then BadVersion
      else if Word32(t[8..12]) != |payload| then LengthMismatch
      else if Crc.Crc32(payload) != Word32(t[12..16]) then ChecksumMismatch
      else Payload(payload)
  }

  // ---------- Exactly the frames are accepted ----------

  lemma {:induction false} LeOfFromLe(b: bytes)
    ensures Le(FromLe(b), |b|) == b
    decreases |b|
  {
    if b != [] {
      LeOfFromLe(b[1..]);
      LowByte(b[0], FromLe(b[1..]));
      assert b == [b[0]] + b[1..];
    }
  }

  lemma LowByte(low: byte, high: nat)
    ensures (low + 256 * high) % 256 == low && (low + 256 * high) / 256 == high
  {
  }

  lemma TrailerShape(magic: u32, version: u32, payload: bytes)
    ensures Trailer(magic, version, payload)
         == Le(magic, 4) + Le(version, 4) + Le(|payload| % (U32_MAX + 1), 4) + Le(Crc.Crc32(payload), 4)
  {
  }

  lemma WordInBytes(t: bytes, v: u32)
    requires |t| == 4
    ensures Word32(t) == v <==> t == Le(v, 4)
  {
    Sizes();
    LeOfFromLe(t);
    LeRoundTrip(v, 4);
  }

  lemma FourWords(t: bytes, a: bytes, b: bytes, c: bytes, d: bytes)
    requires |t| == 16 && |a| == |b| == |c| == |d| == 4
    ensures t == a + b + c + d <==> t[0..4] == a && t[4..8] == b && t[8..12] == c && t[12..16] == d
  {
    assert t == t[0..4] + t[4..8] + t[8..12] + t[12..16];
    var s := a + b + c + d;
    assert s[0..4] == a && s[4..8] == b && s[8..12] == c && s[12..16] == d;
  }

  lemma TrailerWords(t: bytes, magic: u32, version: u32, payload: bytes)
    requires |t| == 16
    ensures t == Trailer(magic, version, payload) <==>
            Word32(t[0..4]) == magic && Word32(t[4..8]) == version &&
            Word32(t[8..12]) == |payload| % (U32_MAX + 1) && Word32(t[12..16]) == Crc.Crc32(payload)
  {
    hide Crc.Crc32, Word32, Trailer, Le;
    var n, crc := |payload| % (U32_MAX + 1), Crc.Crc32(payload);
    TrailerShape(magic, version, payload);
    FourWords(t, Le(magic, 4), Le(version, 4), Le(n, 4), Le(crc, 4));
    WordInBytes(t[0..4], magic);
    WordInBytes(t[4..8], version);
    WordInBytes(t[8..12], n);
    WordInBytes(t[12..16], crc);
  }

  /** A buffer is accepted, with payload `p`, if and only if it is the frame of `p` and the length of
      `p` fits the length field. */
  lemma AcceptsExactlyFrames(framed: bytes, magic: u32, version: u32, p: bytes)
    ensures ParseFrame(framed, magic, version) == Payload(p) <==> framed == Framed(magic, version, p) && |p| <= U32_MAX
  {
    hide Crc.Crc32, Word32, Trailer;
    TrailerShape(magic, version, p);
    Concatenated(framed, p, Trailer(magic, version, p));
    if |framed| == |p| + 16 {
      TrailerWords(framed[|p|..], magic, version, p);
      assert |p| <= U32_MAX ==> |p| % (U32_MAX + 1) == |p|;
    }
  }

  /** A refusal is for the first of its causes: fewer than sixteen bytes; and then, in the sixteen last ones,
      the first word is not the magic, the second not the version, the third not the number of bytes before
      them, or the fourth not their checksum. */
  lemma RefusedExactly(framed: bytes, magic: u32, version: u32)
    ensures var r := ParseFrame(framed, magic, version); var n := |framed| - 16;
            && (r == TooSmall <==> n < 0)
            && (n >= 0 ==>
                  var a, b := framed[n..n + 4] == Le(magic, 4), framed[n + 4..n + 8] == Le(version, 4);
                  var c := framed[n + 8..n + 12] == Le(n, 4) && n <= U32_MAX;
                  var d := framed[n + 12..] == Le(Crc.Crc32(framed[..n]), 4);
                  && (r == BadMagic <==> !a) && (r == BadVersion <==> a && !b)
                  && (r == LengthMismatch <==> a && b && !c) && (r == ChecksumMismatch <==> a && b && c && !d)
                  && (r == Payload(framed[..n]) <==> a && b && c && d))
  {
    hide Crc.Crc32, Word32, Le;
    if |framed| >= 16 {
      var n: nat := |framed| - 16;
      var t := framed[n..];
      assert t[0..4] == framed[n..n + 4] && t[4..8] == framed[n + 4..n + 8];
      assert t[8..12] == framed[n + 8..n + 12] && t[12..16] == framed[n + 12..];
      WordInBytes(t[0..4], magic);
      WordInBytes(t[4..8], version);
      if n <= U32_MAX { WordInBytes(t[8..12], n); }
      WordInBytes(t[12..16], Crc.Crc32(framed[..n]));
    }
  }

  lemma Concatenated(s: bytes, a: bytes, b: bytes)
    ensures s == a + b <==> |s| == |a| + |b| && s[..|a|] == a && s[|a|..] == b
  {
    if |s| == |a| + |b| { assert s == s[..|a|] + s[|a|..]; }
  }

  // ---------- Bursts ----------

  /** `a` and `b` are equally long and agree outside the four bytes from `i` on. */
  predicate DifferInWindow(a: bytes, b: bytes, i: nat) {
    |a| == |b| && forall j :: 0 <= j < |a| && !(i <= j < i + 4) ==> a[j] == b[j]
  }

  lemma SamePayload(magic: u32, version: u32, p: bytes, q: bytes, i: nat)
    requires |p| == |q| && DifferInWindow(Framed(magic, version, p), Framed(magic, version, q), i)
    ensures p == q
  {
    hide Crc.Crc32, Trailer, Framed;
    var f, g := Framed(magic, version, p), Framed(magic, version, q);
    var n := |p|;
    FrameParts(magic, version, p);
    FrameParts(magic, version, q);
    if i < n {
      var hi := if i + 4 <= n then i + 4 else n;
      WindowInside(f, g, p, q, i, hi);
      WordInBytes(f[n + 12..], Crc.Crc32(p));
      WordInBytes(f[n + 12..], Crc.Crc32(q));
      Crc.SameCrcSameWindow(p[..i], p[i..hi], q[i..hi], p[hi..]);
    } else {
      assert f[..n] == g[..n];
    }
  }

  lemma FrameParts(magic: u32, version: u32, p: bytes)
    ensures var f := Framed(magic, version, p);
            |f| == |p| + 16 && f[..|p|] == p && f[|p| + 12..] == Le(Crc.Crc32(p), 4)
  {
    hide Crc.Crc32, Le;
    TrailerShape(magic, version, p);
  }

  lemma WindowInside(f: bytes, g: bytes, p: bytes, q: bytes, i: nat, hi: nat)
    requires DifferInWindow(f, g, i) && |p| == |q| && |f| == |p| + 16 && i < |p|
    requires f[..|p|] == p && g[..|p|] == q && hi == if i + 4 <= |p| then i + 4 else |p|
    ensures p == p[..i] + p[i..hi] + p[hi..] && q == p[..i] + q[i..hi] + p[hi..]
    ensures f[|p| + 12..] == g[|p| + 12..]
  {
    forall j | 0 <= j < |p| && !(i <= j < i + 4) ensures p[j] == q[j] {
      assert f[j] == p[j] && g[j] == q[j];
    }
    assert p[..i] == q[..i] && p[hi..] == q[hi..];
    assert q == q[..i] + q[i..hi] + q[hi..];
  }

  /** Every corruption of a frame that stays inside four consecutive bytes, wherever they lie in the
      payload or the trailer, is rejected. */
  lemma BurstRejected(magic: u32, version: u32, payload: bytes, corrupt: bytes, i: nat)
    requires corrupt != Framed(magic, version, payload)
    requires DifferInWindow(Framed(magic, version, payload), corrupt, i)
    ensures !ParseFrame(corrupt, magic, version).Payload?
  {
    hide Framed;
    var outcome := ParseFrame(corrupt, magic, version);
    if outcome.Payload? {
      AcceptsExactlyFrames(corrupt, magic, version, outcome.payload);
      FrameParts(magic, version, payload);
      FrameParts(magic, version, outcome.payload);
      SamePayload(magic, version, payload, outcome.payload, i);
    }
  }

  // ---------- As it runs ----------

  method BuildFrame(magic: u32, version: u32, payload: bytes) returns (out: bytes)
    ensures out == Framed(magic, version, payload)
  {
    hide PutU32, Crc.Crc32;
    var w := new ByteWriter();
    w.U32(magic);
    w.U32(version);
    w.U32(|payload| % (U32_MAX + 1));
    var crc := Crc.ComputeCrc32(payload);
    w.U32(crc);
    assert w.buf == w.buf + [] == [] + Trailer(magic, version, payload) == Trailer(magic, version, payload);
    out := payload + w.buf;
  }

  method Parse(framed: bytes, magic: u32, version: u32) returns (r: Outcome)
    ensures r == ParseFrame(framed, magic, version)
  {
    hide Word32;
    if |framed| < 16 { return TooSmall; }
    var payload, t := framed[..|framed| - 16], framed[|framed| - 16..];
    var reader := new ByteReader(t);
    var m := reader.U32();
    var v := reader.U32();
    var n := reader.U32();
    var crc := reader.U32();
    assert t[..4] == t[0..4] && t[4..][..4] == t[4..8] && t[4..][4..] == t[8..];
    assert t[8..][..4] == t[8..12] && t[8..][4..] == t[12..] && t[12..][..4] == t[12..16];
    if m != magic { return BadMagic; }
    if v != version { return BadVersion; }
    if n != |payload| { return LengthMismatch; }
    var actual := Crc.ComputeCrc32(payload);
    if actual != crc { return ChecksumMismatch; }
    r := Payload(payload);
  }
}
