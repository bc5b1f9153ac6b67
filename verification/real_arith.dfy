/**
 Small facts about products of reals that the power and trajectory bounds rely
 on. The solver does not find these reliably once capacities, derates and rates
 are multiplied in a larger context, so they are stated once here over plain
 reals and instantiated where needed.
 */
module RealArith {

  lemma MulNonneg(a: real, b: real)
    requires a >= 0.0 && b >= 0.0
    ensures a * b >= 0.0
  {
  }

  lemma MulLeft(c: real, x: real, y: real)
    requires c >= 0.0 && x <= y
    ensures c * x <= c * y
  {
  }

  lemma SameFactor(a: real, b: real, p: real)
    requires a == b
    ensures a * p == b * p
  {
  }

  /** A fraction of a non-negative quantity lies between 0 and that quantity. */
  lemma FractionOf(p: real, f: real)
    requires p >= 0.0 && 0.0 <= f <= 1.0
    ensures 0.0 <= p * f <= p
  {
    MulNonneg(p, f);
    MulLeft(p, f, 1.0);
  }

  /** A share between 0 and 1 of a non-negative derated capacity lies between 0 and that capacity. */
  lemma ShareOfCapacity(cap: real, avail: real, share: real)
    requires cap >= 0.0 && avail >= 0.0 && 0.0 <= share <= 1.0
    ensures 0.0 <= cap * avail * share <= cap * avail
  {
    MulNonneg(cap, avail);
    FractionOf(cap * avail, share);
  }

  lemma ScaledAtMost(r: real, x: real)
    requires r >= 0.0 && x <= 1.0
    ensures r * x <= r
  {
    MulLeft(r, x, 1.0);
  }

  lemma ScaledNonpositive(r: real, x: real)
    requires r >= 0.0 && x <= 0.0
    ensures r * x <= 0.0
  {
    MulLeft(r, x, 0.0);
  }

  /** A positive factor preserves and reflects order. */
  lemma ScaledOrder(p: real, x: real, y: real)
    requires p > 0.0
    ensures p * x >= p * y <==> x >= y
  {
    if x >= y {
      MulLeft(p, y, x);
    } else {
      MulLeft(p, x, y);
      assert p * (y - x) > 0.0;
    }
  }

  /** A positive factor keeps the sign of the other. */
  lemma SignOfProduct(x: real, p: real)
    requires p > 0.0
    ensures x * p > 0.0 <==> x > 0.0
    ensures x * p < 0.0 <==> x < 0.0
  {
    ScaledOrder(p, x, 0.0);
    ScaledOrder(p, 0.0, x);
  }

  lemma Regroup(q: real, rate: real, hours: real)
    ensures q * rate * hours * 60.0 == q * (rate * 60.0 * hours)
  {
  }

  lemma RangeFactor(p: real, f: real)
    ensures p - p * f == p * (1.0 - f)
  {
  }

  /** One more term, bounded by its own share, keeps a running bound. */
  lemma AddStep(c: real, term: real, p: real, s: real, x: real)
    requires c <= p * s && term <= p * x
    ensures c + term <= p * (s + x)
  {
    assert p * (s + x) == p * s + p * x;
  }
}
