/** Small facts about dividing reals, shared by the loss averages. */
module Quotients {

  /** Dividing by a positive n keeps bounds that hold of w / n times n. */
  lemma QuotientBounds(w: real, n: real, lo: real, hi: real)
    requires n > 0.0 && lo * n <= w <= hi * n
    ensures lo <= w / n <= hi
  {
    assert w / n - lo == (w - lo * n) / n;
    assert hi - w / n == (hi * n - w) / n;
  }

  /** Dividing and multiplying back by a positive n is the identity. */
  lemma QuotientTimes(w: real, n: real)
    requires n > 0.0
    ensures (w / n) * n == w
  {
  }
}
