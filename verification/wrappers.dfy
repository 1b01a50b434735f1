/** Small value types shared by every analyzer: optional values and the
    extended reals that stand in for Python's float('inf') sentinel. */
module Wrappers {

  /** A value that may be absent (Python's None). */
  datatype Option<+T> = None | Some(value: T)

  /** A ratio or score that is either a finite real or the "no losses"
      infinity the source produces with float('inf'). */
  datatype Ext = Finite(value: real) | Unbounded

  /** `x >= c` on the extended reals: infinity is at least every real. */
  predicate AtLeast(x: Ext, c: real) {
    x.Unbounded? || x.value >= c
  }

  /** `a <= b` on the extended reals. */
  predicate ExtLe(a: Ext, b: Ext) {
    b.Unbounded? || (a.Finite? && a.value <= b.value)
  }

  /** `avg` is `total` spread evenly over `count` items; no items give zero. */
  predicate MeanOf(avg: real, total: real, count: nat) {
    if count > 0 then avg * (count as real) == total else avg == 0.0
  }

  /** `q` is `num / den` for a non-zero `den`. */
  predicate QuotientOf(q: real, num: real, den: real) {
    den != 0.0 && q * den == num
  }

  function Max(a: real, b: real): (r: real)
    ensures r >= a && r >= b
    ensures r == a || r == b
  {
    if a >= b then a else b
  }

  function Min(a: real, b: real): (r: real)
    ensures r <= a && r <= b
    ensures r == a || r == b
  {
    if a <= b then a else b
  }

  function MaxNat(a: nat, b: nat): (r: nat)
    ensures r >= a && r >= b
    ensures r == a || r == b
  {
    if a >= b then a else b
  }

  function Abs(x: real): (r: real)
    ensures r >= 0.0
    ensures r == x || r == -x
  {
    if x < 0.0 then -x else x
  }
}
