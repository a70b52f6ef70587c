/** Go's conversions from floats to integers, in real arithmetic. */
module Rounding {

  /** Truncation toward zero. */
  function Truncate(r: real): int {
    if r >= 0.0 then r.Floor else -((-r).Floor)
  }

  /** Cutting off the fraction of `r` gives `t`. */
  predicate CutsTo(r: real, t: int) {
    if r >= 0.0 then t as real <= r < t as real + 1.0 else t as real - 1.0 < r <= t as real
  }

  lemma TruncateCuts(r: real, t: int)
    ensures Truncate(r) == t <==> CutsTo(r, t)
  {
  }

  lemma TruncateIsMonotone(a: real, b: real)
    requires a <= b
    ensures Truncate(a) <= Truncate(b)
  {
  }

  lemma WholeIsTruncated(r: real)
    ensures r == r.Floor as real ==> Truncate(r) == r.Floor
  {
    if r < 0.0 && r == r.Floor as real {
      assert -r == (-r.Floor) as real;
      assert (-r).Floor == -r.Floor;
    }
  }
}
