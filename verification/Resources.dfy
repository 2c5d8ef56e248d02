/** The twelve-dimension resource vector of resource.hpp and its checked arithmetic. */
module Resources {
  import opened Words

  type Vec = v: seq<u64> | |v| == 12 witness [0, 0, 0, 0, 0, 0, 0, 0, 0, 0, 0, 0]

  const ZERO: Vec := [0, 0, 0, 0, 0, 0, 0, 0, 0, 0, 0, 0]

  // The dimensions the engine names.
  const ACCELERATOR_MEMORY: nat := 0
  const HOST_MEMORY: nat := 1
  const PINNED_HOST_MEMORY: nat := 2
  const PERSISTENT_CACHE: nat := 3
  const EXECUTION_SLOTS: nat := 7
  const SEQUENCE_SLOTS: nat := 8
  const KV_CAPACITY: nat := 10
  const TENSOR_STATE: nat := 11

  predicate AddFits(a: Vec, b: Vec) { forall i :: 0 <= i < 12 ==> a[i] + b[i] <= U64_MAX }

  function Add(a: Vec, b: Vec): (r: Vec)
    requires AddFits(a, b)
    ensures forall i :: 0 <= i < 12 ==> r[i] == a[i] + b[i]
  {
    seq(12, i requires 0 <= i < 12 => a[i] + b[i])
  }

  /** Every dimension of `a` is at most that of `limit`. */
  predicate FitsIn(a: Vec, limit: Vec) { forall i :: 0 <= i < 12 ==> a[i] <= limit[i] }

  function Sub(a: Vec, b: Vec): (r: Vec)
    requires FitsIn(b, a)
    ensures forall i :: 0 <= i < 12 ==> r[i] == a[i] - b[i]
  {
    seq(12, i requires 0 <= i < 12 => a[i] - b[i])
  }

  function SatAddVec(a: Vec, b: Vec): (r: Vec)
    ensures forall i :: 0 <= i < 12 ==> r[i] == SatAdd(a[i], b[i])
  {
    seq(12, i requires 0 <= i < 12 => SatAdd(a[i], b[i]))
  }

  function SatSubVec(a: Vec, b: Vec): (r: Vec)
    ensures forall i :: 0 <= i < 12 ==> r[i] == SatSub(a[i], b[i])
  {
    seq(12, i requires 0 <= i < 12 => SatSub(a[i], b[i]))
  }

  predicate IsZero(a: Vec) { forall i :: 0 <= i < 12 ==> a[i] == 0 }

  lemma VecEqual(a: Vec, b: Vec)
    requires forall i :: 0 <= i < 12 ==> a[i] == b[i]
    ensures a == b
  {
  }

  /** The checked sum: `ok` exactly when no dimension overflows, and then every dimension is summed. */
  method TryAdd(a: Vec, b: Vec) returns (ok: bool, out: Vec)
    ensures ok == AddFits(a, b)
    ensures ok ==> out == Add(a, b)
  {
    out := ZERO;
    for i := 0 to 12
      invariant forall j :: 0 <= j < i ==> a[j] + b[j] <= U64_MAX && out[j] == a[j] + b[j]
    {
      if b[i] > U64_MAX - a[i] { return false, out; }
      out := out[i := a[i] + b[i]];
    }
    ok := true;
  }

  /** The checked difference: `ok` exactly when no dimension underflows. */
  method TrySub(a: Vec, b: Vec) returns (ok: bool, out: Vec)
    ensures ok == FitsIn(b, a)
    ensures ok ==> out == Sub(a, b)
  {
    out := ZERO;
    for i := 0 to 12
      invariant forall j :: 0 <= j < i ==> b[j] <= a[j] && out[j] == a[j] - b[j]
    {
      if b[i] > a[i] { return false, out; }
      out := out[i := a[i] - b[i]];
    }
    ok := true;
  }
}
