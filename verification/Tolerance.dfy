/** Comparison of measured numbers up to roundoff. */
module Tolerance {
  function Abs(x: real): real { if x < 0.0 then -x else x }

  function Max(x: real, y: real): real { if x < y then y else x }

  predicate Close(a: real, b: real) {
    Abs(a - b) <= Max(0.000000000001 * Max(Abs(a), Abs(b)), 0.000000000001)
  }

  /** `m` is one or more and no less than either number in size. */
  predicate Bounds(m: real, a: real, b: real) {
    1.0 <= m && a <= m && 0.0 - a <= m && b <= m && 0.0 - b <= m
  }

  /** Close means apart by at most a million-millionth of one or of the larger number, whichever is more. */
  lemma CloseMeans(a: real, b: real)
    ensures Close(a, b) <==>
            forall m :: Bounds(m, a, b) ==> (a - b) * 1_000_000_000_000.0 <= m && (b - a) * 1_000_000_000_000.0 <= m
  {
    var least := Max(1.0, Max(Abs(a), Abs(b)));
    assert Bounds(least, a, b) && forall m :: Bounds(m, a, b) ==> least <= m;
  }
}
