/** Machine words, checked arithmetic (checked.hpp) and identities (id.hpp). */
module Words {
  const U64_MAX: nat := 0xFFFF_FFFF_FFFF_FFFF
  const U32_MAX: nat := 0xFFFF_FFFF

  type u64 = n: nat | n <= U64_MAX
  type u32 = n: nat | n <= U32_MAX
  type byte = n: nat | n < 256
  type bytes = seq<byte>

  datatype Option<+T> = None | Some(value: T)

  /** Saturating addition: never wraps. */
  function SatAdd(a: u64, b: u64): (r: u64)
    ensures r == if a + b <= U64_MAX then a + b else U64_MAX
  {
    if b > U64_MAX - a then U64_MAX else a + b
  }

  /** Saturating subtraction: never goes below zero. */
  function SatSub(a: u64, b: u64): (r: u64)
    ensures b <= a ==> r == a - b
    ensures a < b ==> r == 0
  {
    if a >= b then a - b else 0
  }

  /** The successor of an identity; the largest identity is its own successor. */
  function Next(v: u64): (r: u64)
    ensures v < U64_MAX ==> r == v + 1
    ensures v == U64_MAX ==> r == v
  {
    if v == U64_MAX then v else v + 1
  }

  /** The successor of a generation counter, which restarts at one after the largest word. */
  function Bump(v: u64): (r: u64)
    ensures v < U64_MAX ==> r == v + 1
    ensures v == U64_MAX ==> r == 1
  {
    if v == U64_MAX then 1 else v + 1
  }

  lemma MulMonotone(p: nat, a: nat, b: nat)
    requires a <= b
    ensures p * a <= p * b
  {
    var d: nat := b - a;
    assert p * (a + d) == p * a + p * d;
  }

  lemma BelowProduct(p: nat, q: nat, r: nat, s: nat)
    requires r < q && s < p
    ensures p * r + s < p * q
  {
    MulMonotone(p, r + 1, q);
    assert p * (r + 1) == p * r + p;
  }
}
