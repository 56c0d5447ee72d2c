/** `_wilson_interval` over the reals; the square root is handed in as the nonnegative root. */
module Wilson {
  const Z: real := 1.96

  ghost predicate IsRoot(root: real, x: real) {
    root >= 0.0 && root * root == x
  }

  function Rate(successes: nat, total: nat): real
    requires total > 0
  {
    successes as real / total as real
  }

  /** What the square root is taken of. */
  function Radicand(successes: nat, total: nat): real
    requires total > 0
  {
    var rate, n := Rate(successes, total), total as real;
    rate * (1.0 - rate) / n + Z * Z / (4.0 * n * n)
  }

  function Max(a: real, b: real): real {
    if a >= b then a else b
  }

  function Min(a: real, b: real): real {
    if a <= b then a else b
  }

  function Weight(total: nat): real
    requires total > 0
  {
    Z * Z / total as real
  }

  function Denominator(total: nat): real
    requires total > 0
  {
    1.0 + Weight(total)
  }

  function Center(successes: nat, total: nat): real
    requires total > 0
  {
    (Rate(successes, total) + Z * Z / (2.0 * total as real)) / Denominator(total)
  }

  function Margin(total: nat, root: real): real
    requires total > 0
  {
    Z * root / Denominator(total)
  }

  function Interval(successes: nat, total: nat, root: real): (real, real) {
    if total == 0 then (0.0, 1.0)
    else
      var center, margin := Center(successes, total), Margin(total, root);
      (Max(0.0, center - margin), Min(1.0, center + margin))
  }

  // ---------- the interval as the score test, inverted ----------

  lemma Scale(a: real, b: real, c: real)
    requires c > 0.0
    ensures a <= b <==> c * a <= c * b
  {
  }

  /** A product of two numbers is not positive exactly between its roots. */
  lemma Between(q: real, center: real, margin: real)
    requires margin >= 0.0
    ensures (q - center) * (q - center) <= margin * margin <==> center - margin <= q <= center + margin
  {
    var d := q - center;
    if -margin <= d <= margin {
      assert (margin - d) * (margin + d) >= 0.0;
      assert (margin - d) * (margin + d) == margin * margin - d * d;
    } else if d > margin {
      assert d * d > margin * margin by { Grows(margin, d); }
    } else {
      Grows(margin, -d);
      assert (-d) * (-d) == d * d;
    }
  }

  lemma Grows(a: real, b: real)
    requires 0.0 <= a < b
    ensures a * a < b * b
  {
    Positive(b - a, b + a);
    assert (b - a) * (b + a) == b * b - a * a;
  }

  lemma NotNegative(x: real, y: real)
    requires x >= 0.0 && y >= 0.0
    ensures x * y >= 0.0
  {
  }

  lemma Positive(x: real, y: real)
    requires x > 0.0 && y > 0.0
    ensures x * y > 0.0
  {
  }

  /** Completing the square, with `w` for z squared over n and `t` for z times the root. */
  lemma CompleteSquare(p: real, q: real, w: real, t: real, center: real, margin: real)
    requires w > 0.0 && t * t == w * p * (1.0 - p) + w * w / 4.0
    requires (1.0 + w) * center == p + w / 2.0 && (1.0 + w) * margin == t
    ensures (1.0 + w) * ((q - center) * (q - center) - margin * margin) == (p - q) * (p - q) - w * (q * (1.0 - q))
  {
    var d := 1.0 + w;
    calc {
      d * (d * ((q - center) * (q - center) - margin * margin));
      (d * q - d * center) * (d * q - d * center) - (d * margin) * (d * margin);
      (d * q - (p + w / 2.0)) * (d * q - (p + w / 2.0)) - t * t;
      d * q * (d * q) - 2.0 * (d * q) * (p + w / 2.0) + (p + w / 2.0) * (p + w / 2.0) - t * t;
      { SquareOfCenter(p, w, t); }
      d * q * (d * q) - 2.0 * (d * q) * (p + w / 2.0) + d * (p * p);
      d * (d * (q * q) - 2.0 * q * (p + w / 2.0) + p * p);
      { Expand(p, q, w); }
      d * ((p - q) * (p - q) - w * (q * (1.0 - q)));
    }
  }

  lemma SquareOfCenter(p: real, w: real, t: real)
    requires t * t == w * p * (1.0 - p) + w * w / 4.0
    ensures (p + w / 2.0) * (p + w / 2.0) - t * t == (1.0 + w) * (p * p)
  {
  }

  lemma Expand(p: real, q: real, w: real)
    ensures (1.0 + w) * (q * q) - 2.0 * q * (p + w / 2.0) + p * p == (p - q) * (p - q) - w * (q * (1.0 - q))
  {
  }

  lemma RootSquared(successes: nat, total: nat, root: real)
    requires total > 0 && IsRoot(root, Radicand(successes, total))
    ensures var p, w, t := Rate(successes, total), Weight(total), Z * root;
            w > 0.0 && t >= 0.0 && t * t == w * p * (1.0 - p) + w * w / 4.0
  {
    var p, n := Rate(successes, total), total as real;
    calc {
      (Z * root) * (Z * root);
      (Z * Z) * (root * root);
      (Z * Z) * (p * (1.0 - p) / n + Z * Z / (4.0 * n * n));
      { Regroup(p * (1.0 - p), n); }
      (Z * Z / n) * (p * (1.0 - p)) + (Z * Z / n) * (Z * Z / n) / 4.0;
      (Z * Z / n) * p * (1.0 - p) + (Z * Z / n) * (Z * Z / n) / 4.0;
    }
  }

  lemma Regroup(x: real, n: real)
    requires n > 0.0
    ensures (Z * Z) * (x / n + Z * Z / (4.0 * n * n)) == (Z * Z / n) * x + (Z * Z / n) * (Z * Z / n) / 4.0
  {
    var i := 1.0 / n;
    assert x / n == x * i && Z * Z / n == Z * Z * i;
    assert 1.0 / (4.0 * n * n) == i * i / 4.0;
    assert Z * Z / (4.0 * n * n) == Z * Z * (i * i / 4.0);
  }

  predicate FitsAt(p: real, w: real, q: real) {
    (p - q) * (p - q) <= w * (q * (1.0 - q))
  }

  /** A rate `q` fits the observations: the score test does not reject it. */
  predicate Fits(successes: nat, total: nat, q: real)
    requires total > 0
  {
    FitsAt(Rate(successes, total), Weight(total), q)
  }

  /** The interval's center and margin solve the score test's equation. */
  ghost predicate Solves(p: real, w: real, center: real, margin: real) {
    && w > 0.0 && margin >= 0.0
    && (1.0 + w) * center == p + w / 2.0
    && (1.0 + w) * margin * ((1.0 + w) * margin) == w * p * (1.0 - p) + w * w / 4.0
  }

  lemma CenterAndMarginSolve(successes: nat, total: nat, root: real)
    requires 0 < total && IsRoot(root, Radicand(successes, total))
    ensures Solves(Rate(successes, total), Weight(total), Center(successes, total), Margin(total, root))
  {
    RootSquared(successes, total, root);
    HalfOf(total as real);
    assert (1.0 + Weight(total)) * Margin(total, root) == Z * root;
  }

  lemma FitsBetween(p: real, q: real, w: real, center: real, margin: real)
    requires Solves(p, w, center, margin)
    ensures center - margin <= q <= center + margin <==> FitsAt(p, w, q)
  {
    CompleteSquare(p, q, w, (1.0 + w) * margin, center, margin);
    Between(q, center, margin);
    Scale((q - center) * (q - center) - margin * margin, 0.0, 1.0 + w);
  }

  lemma WithinBounds(successes: nat, total: nat, root: real, q: real)
    requires 0 < total && 0.0 <= q <= 1.0
    ensures var (lower, upper) := Interval(successes, total, root);
            var center, margin := Center(successes, total), Margin(total, root);
            lower <= q <= upper <==> center - margin <= q <= center + margin
  {
    hide Center, Margin;
  }

  /** The interval holds exactly the probabilities that fit what was observed. */
  lemma IntervalIsScoreTest(successes: nat, total: nat, root: real, q: real)
    requires 0 < total && IsRoot(root, Radicand(successes, total)) && 0.0 <= q <= 1.0
    ensures var (lower, upper) := Interval(successes, total, root);
            lower <= q <= upper <==> Fits(successes, total, q)
  {
    hide Rate, Weight, Radicand, Center, Margin, Interval, Solves, FitsAt;
    CenterAndMarginSolve(successes, total, root);
    FitsBetween(Rate(successes, total), q, Weight(total), Center(successes, total), Margin(total, root));
    WithinBounds(successes, total, root, q);
  }

  lemma HalfOf(n: real)
    requires n > 0.0
    ensures Z * Z / (2.0 * n) == Z * Z / n / 2.0
  {
  }

  lemma RateInRange(successes: nat, total: nat)
    requires 0 < total && successes <= total
    ensures 0.0 <= Rate(successes, total) <= 1.0
  {
  }

  /** The observed rate fits, so the interval is not empty and holds it. */
  lemma IntervalHoldsRate(successes: nat, total: nat, root: real)
    requires 0 < total && successes <= total && IsRoot(root, Radicand(successes, total))
    ensures var (lower, upper) := Interval(successes, total, root);
            0.0 <= lower <= Rate(successes, total) <= upper <= 1.0
  {
    var p := Rate(successes, total);
    RateInRange(successes, total);
    NotNegative(p, 1.0 - p);
    NotNegative(Weight(total), p * (1.0 - p));
    assert Fits(successes, total, p);
    IntervalIsScoreTest(successes, total, root, p);
  }
}
