/**
  The Wilson score interval in exact reals: n labelled findings of a cell, k of them confirmed, z the width in
  standard deviations.  A square root is a number r with its defining property.
 */
module WilsonScore {
  datatype Interval = Interval(lo: real, hi: real)

  function Max(a: real, b: real): real { if a >= b then a else b }

  function Min(a: real, b: real): real { if a <= b then a else b }

  predicate Counts(k: real, n: real, z: real) { 0.0 <= k <= n && n > 0.0 && z > 0.0 }

  function Radicand(k: real, n: real, z: real): real
    requires n > 0.0
  {
    k * (n - k) / n + z * z / 4.0
  }

  predicate IsRoot(k: real, n: real, z: real, r: real)
    requires n > 0.0
  {
    r >= 0.0 && r * r == Radicand(k, n, z)
  }

  function Denom(n: real, z: real): (d: real)
    requires n > 0.0
    ensures d > 0.0
  {
    Product(z, z);
    n + z * z
  }

  function Center(k: real, n: real, z: real): real
    requires n > 0.0
  {
    (k + z * z / 2.0) / Denom(n, z)
  }

  function Half(n: real, z: real, r: real): real
    requires n > 0.0
  {
    (z / Denom(n, z)) * r
  }

  /** wilson for n > 0. */
  function Wilson(k: real, n: real, z: real, r: real): Interval
    requires n > 0.0
  {
    Interval(Max(0.0, Center(k, n, z) - Half(n, z, r)), Min(1.0, Center(k, n, z) + Half(n, z, r)))
  }

  /** The score test: by how much the squared deviation of k from n*p exceeds z squared variances. */
  function Excess(k: real, n: real, z: real, p: real): real {
    (k - n * p) * (k - n * p) - z * z * (n * (p * (1.0 - p)))
  }

  predicate Plausible(k: real, n: real, z: real, p: real) {
    (k - n * p) * (k - n * p) <= z * z * n * p * (1.0 - p)
  }

  lemma PlausibleIsExcess(k: real, n: real, z: real, p: real)
    ensures Plausible(k, n, z, p) <==> Excess(k, n, z, p) <= 0.0
  {
    assert z * z * n * p * (1.0 - p) == z * z * (n * (p * (1.0 - p)));
  }

  // ---- elementary facts -----------------------------------------------------------------------------

  lemma Product(x: real, y: real)
    requires (x >= 0.0 && y >= 0.0) || x == y
    ensures x * y >= 0.0
  {
  }

  lemma ScaleOrder(d: real, x: real, y: real)
    requires d > 0.0
    ensures x <= y <==> d * x <= d * y
  {
    assert d * (y - x) == d * y - d * x;
  }

  lemma SquareOrder(x: real, y: real)
    requires y >= 0.0
    ensures -y <= x <= y <==> x * x <= y * y
  {
    assert y * y - x * x == (y - x) * (y + x);
    if -y <= x <= y {
      Product(y - x, y + x);
    } else if x > y {
      ScaleOrder(x + y, y - x, 0.0);
    } else {
      ScaleOrder(y - x, y + x, 0.0);
    }
  }

  lemma SignAgrees(n: real, d: real, x: real, y: real, e: real)
    requires n > 0.0 && d > 0.0 && y >= 0.0 && n * (x * x - y * y) == d * e
    ensures -y <= x <= y <==> e <= 0.0
    ensures e >= 0.0 ==> x <= -y || x >= y
  {
    SquareOrder(x, y);
    ScaleOrder(n, x * x - y * y, 0.0);
    ScaleOrder(d, e, 0.0);
    ScaleOrder(n, 0.0, x * x - y * y);
    ScaleOrder(d, 0.0, e);
    if e >= 0.0 {
      SquareOrder(y, if x >= 0.0 then x else -x);
    }
  }

  // ---- the interval is the set of plausible rates ---------------------------------------------------

  /** How far d*p lies from the scaled centre. */
  function Offset(k: real, n: real, z: real, p: real): real
    requires n > 0.0
  {
    Denom(n, z) * p - (k + z * z / 2.0)
  }

  lemma Expand(k: real, n: real, q: real, p: real)
    ensures var a := (n + q) * p - (k + q / 2.0);
            n * (a * a) - q * (k * (n - k) + n * (q / 4.0)) == (n + q) * ((k - n * p) * (k - n * p) - q * (n * (p * (1.0 - p))))
  {
  }

  lemma CompleteSquare(k: real, n: real, z: real, p: real, r: real)
    requires n > 0.0 && IsRoot(k, n, z, r)
    ensures n * (Offset(k, n, z, p) * Offset(k, n, z, p) - (z * r) * (z * r)) == Denom(n, z) * Excess(k, n, z, p)
  {
    var q := z * z;
    var a := Offset(k, n, z, p);
    assert n * Radicand(k, n, z) == k * (n - k) + n * (q / 4.0);
    assert (z * r) * (z * r) == q * (r * r);
    calc {
      n * (a * a - (z * r) * (z * r));
      n * (a * a) - q * (n * Radicand(k, n, z));
      n * (a * a) - q * (k * (n - k) + n * (q / 4.0));
    }
    Expand(k, n, q, p);
  }

  lemma Quotient(d: real, a: real, z: real, r: real, p: real)
    requires d > 0.0
    ensures a / d - (z / d) * r <= p <==> -(z * r) <= d * p - a
    ensures p <= a / d + (z / d) * r <==> d * p - a <= z * r
    ensures p >= a / d + (z / d) * r <==> d * p - a >= z * r
    ensures a / d - (z / d) * r >= p <==> -(z * r) >= d * p - a
  {
    var c, h := a / d, (z / d) * r;
    assert d * c == a;
    assert d * h == z * r by {
      assert d * (z / d) == z;
      assert d * h == (d * (z / d)) * r;
    }
    assert d * (c - h) == d * c - d * h && d * (c + h) == d * c + d * h;
    ScaleOrder(d, c - h, p);
    ScaleOrder(d, p, c + h);
    ScaleOrder(d, p, c - h);
    ScaleOrder(d, c + h, p);
  }

  /** Before clamping: p is between the bounds exactly when it passes the score test, and outside or on them
      when it does not. */
  lemma RawExactly(k: real, n: real, z: real, r: real, p: real)
    requires Counts(k, n, z) && IsRoot(k, n, z, r)
    ensures var c, h := Center(k, n, z), Half(n, z, r);
            (c - h <= p <= c + h <==> Excess(k, n, z, p) <= 0.0) && (Excess(k, n, z, p) >= 0.0 ==> p <= c - h || p >= c + h)
  {
    Scaled(k, n, z, r, p);
    Tested(k, n, z, r, p);
  }

  lemma Scaled(k: real, n: real, z: real, r: real, p: real)
    requires n > 0.0
    ensures var lo, hi, x := Center(k, n, z) - Half(n, z, r), Center(k, n, z) + Half(n, z, r), Offset(k, n, z, p);
            && (lo <= p <==> -(z * r) <= x) && (p <= hi <==> x <= z * r)
            && (p >= hi <==> x >= z * r) && (lo >= p <==> -(z * r) >= x)
  {
    Quotient(Denom(n, z), k + z * z / 2.0, z, r, p);
  }

  lemma Tested(k: real, n: real, z: real, r: real, p: real)
    requires n > 0.0 && z > 0.0 && IsRoot(k, n, z, r)
    ensures var x := Offset(k, n, z, p);
            (-(z * r) <= x <= z * r <==> Excess(k, n, z, p) <= 0.0) && (Excess(k, n, z, p) >= 0.0 ==> x <= -(z * r) || x >= z * r)
  {
    CompleteSquare(k, n, z, p, r);
    Product(z, r);
    SignAgrees(n, Denom(n, z), Offset(k, n, z, p), z * r, Excess(k, n, z, p));
  }

  lemma HalfIsWidth(n: real, z: real, r: real)
    requires n > 0.0 && z > 0.0 && r >= 0.0
    ensures Half(n, z, r) >= 0.0
  {
    assert z / Denom(n, z) >= 0.0;
    Product(z / Denom(n, z), r);
  }

  lemma CenterIsRate(k: real, n: real, z: real)
    requires Counts(k, n, z)
    ensures 0.0 <= Center(k, n, z) <= 1.0
  {
    Product(z, z);
    Pulled(k, n, z * z);
  }

  lemma Pulled(k: real, n: real, q: real)
    requires 0.0 <= k <= n && n > 0.0 && q >= 0.0
    ensures 0.0 <= (k + q / 2.0) / (n + q) <= 1.0
  {
    Rate(k + q / 2.0, n + q);
  }

  /** The clamps change nothing. */
  lemma ClampsAreIdle(k: real, n: real, z: real, r: real)
    requires Counts(k, n, z) && IsRoot(k, n, z, r)
    ensures var c, h := Center(k, n, z), Half(n, z, r);
            Wilson(k, n, z, r) == Interval(c - h, c + h) && 0.0 <= c - h <= c + h <= 1.0
  {
    Ends(k, n, z);
    HalfIsWidth(n, z, r);
    CenterIsRate(k, n, z);
    RawExactly(k, n, z, r, 0.0);
    RawExactly(k, n, z, r, 1.0);
  }

  lemma Ends(k: real, n: real, z: real)
    ensures Excess(k, n, z, 0.0) >= 0.0 && Excess(k, n, z, 1.0) >= 0.0
  {
    Product(k, k);
    Product(k - n, k - n);
  }

  /** Wilson correctness: the interval holds exactly the plausible rates. */
  lemma WilsonExactly(k: real, n: real, z: real, r: real, p: real)
    requires Counts(k, n, z) && IsRoot(k, n, z, r)
    ensures Wilson(k, n, z, r).lo <= p <= Wilson(k, n, z, r).hi <==> Plausible(k, n, z, p)
  {
    PlausibleIsExcess(k, n, z, p);
    RawExactly(k, n, z, r, p);
    ClampsAreIdle(k, n, z, r);
  }

  lemma Rate(k: real, n: real)
    requires 0.0 <= k <= n && n > 0.0
    ensures n * (k / n) == k && 0.0 <= k / n <= 1.0
  {
    ScaleOrder(n, k / n, 1.0);
    ScaleOrder(n, 0.0, k / n);
  }

  lemma NoDeviation(k: real, n: real, z: real, p: real)
    requires n > 0.0 && 0.0 <= p <= 1.0 && n * p == k
    ensures Excess(k, n, z, p) <= 0.0
  {
    Product(p, 1.0 - p);
    Product(n, p * (1.0 - p));
    Product(z, z);
    Product(z * z, n * (p * (1.0 - p)));
  }

  /** The observed rate lies in the interval. */
  lemma ObservedIsInside(k: real, n: real, z: real, r: real)
    requires Counts(k, n, z) && IsRoot(k, n, z, r)
    ensures Wilson(k, n, z, r).lo <= k / n <= Wilson(k, n, z, r).hi
  {
    Rate(k, n);
    NoDeviation(k, n, z, k / n);
    PlausibleIsExcess(k, n, z, k / n);
    WilsonExactly(k, n, z, r, k / n);
  }

  lemma Below(k: real, n: real, p: real)
    requires n > 0.0 && n * p <= k
    ensures p <= k / n
  {
    assert n * (k / n) == k;
    ScaleOrder(n, p, k / n);
  }

  lemma Above(k: real, n: real, p: real)
    requires n > 0.0 && k <= n * p
    ensures k / n <= p
  {
    assert n * (k / n) == k;
    ScaleOrder(n, k / n, p);
  }

  // ---- one more label -------------------------------------------------------------------------------

  /** A rate above k/n that is plausible after one more false positive was plausible before. */
  lemma PlausibleBefore(k: real, n: real, z: real, p: real)
    requires n > 0.0 && 0.0 <= k <= n * p && Excess(k, n + 1.0, z, p) <= 0.0
    ensures Excess(k, n, z, p) <= 0.0
  {
    BeforeScaled(k, n, p, z * z, p * (1.0 - p));
  }

  lemma BeforeScaled(k: real, n: real, p: real, q: real, x: real)
    requires n > 0.0 && 0.0 <= k <= n * p && (k - (n + 1.0) * p) * (k - (n + 1.0) * p) <= q * ((n + 1.0) * x)
    ensures (k - n * p) * (k - n * p) <= q * (n * x)
  {
    Stretch(k, n, p);
    Rescale(n, (k - n * p) * (k - n * p), (k - (n + 1.0) * p) * (k - (n + 1.0) * p), q, x);
  }

  lemma Rescale(n: real, u: real, v: real, q: real, x: real)
    requires n > 0.0 && (n + 1.0) * u <= n * v && v <= q * ((n + 1.0) * x)
    ensures u <= q * (n * x)
  {
    var m := n + 1.0;
    ScaleOrder(n, v, q * (m * x));
    assert n * (q * (m * x)) == m * (q * (n * x));
    ScaleOrder(m, u, q * (n * x));
  }

  lemma Stretch(k: real, n: real, p: real)
    requires n > 0.0 && 0.0 <= k <= n * p
    ensures (n + 1.0) * ((k - n * p) * (k - n * p)) <= n * ((k - (n + 1.0) * p) * (k - (n + 1.0) * p))
  {
    var m, w := n + 1.0, n * p;
    assert n * ((k - m * p) * (k - m * p)) - m * ((k - n * p) * (k - n * p)) == w * w + n * (p * p) - k * k;
    Product(w - k, w + k);
    Product(p, p);
    Product(n, p * p);
    assert (w - k) * (w + k) == w * w - k * k;
  }

  /** A rate below k/(n+1) that was plausible stays so after one more false positive. */
  lemma PlausibleAfter(k: real, n: real, z: real, p: real)
    requires n > 0.0 && (n + 1.0) * p <= k && 0.0 <= p <= 1.0 && Excess(k, n, z, p) <= 0.0
    ensures Excess(k, n + 1.0, z, p) <= 0.0
  {
    var u, v, q, x := (k - n * p) * (k - n * p), (k - (n + 1.0) * p) * (k - (n + 1.0) * p), z * z, p * (1.0 - p);
    assert u <= q * (n * x);
    Shrink(k, n, p);
    Product(p, 1.0 - p);
    Product(z, z);
    Widen(n, u, v, q, x);
  }

  lemma Widen(n: real, u: real, v: real, q: real, x: real)
    requires v <= u <= q * (n * x) && q >= 0.0 && x >= 0.0
    ensures v <= q * ((n + 1.0) * x)
  {
    Product(q, x);
    assert q * ((n + 1.0) * x) == q * (n * x) + q * x;
  }

  lemma Shrink(k: real, n: real, p: real)
    requires 0.0 <= p && (n + 1.0) * p <= k
    ensures (k - (n + 1.0) * p) * (k - (n + 1.0) * p) <= (k - n * p) * (k - n * p)
  {
    var a, b := k - (n + 1.0) * p, k - n * p;
    assert b == a + p;
    Product(a, p);
    Product(b, p);
    assert b * b == a * a + a * p + b * p;
  }

  /** One more false positive lowers both ends. */
  lemma FalseLowers(k: real, n: real, z: real, r: real, t: real)
    requires Counts(k, n, z) && IsRoot(k, n, z, r) && IsRoot(k, n + 1.0, z, t)
    ensures Wilson(k, n + 1.0, z, t).lo <= Wilson(k, n, z, r).lo && Wilson(k, n + 1.0, z, t).hi <= Wilson(k, n, z, r).hi
  {
    HighFalls(k, n, z, r, t);
    LowFalls(k, n, z, r, t);
  }

  lemma HighFalls(k: real, n: real, z: real, r: real, t: real)
    requires Counts(k, n, z) && IsRoot(k, n, z, r) && IsRoot(k, n + 1.0, z, t)
    ensures Wilson(k, n + 1.0, z, t).hi <= Wilson(k, n, z, r).hi
  {
    var p := Wilson(k, n + 1.0, z, t).hi;
    ClampsAreIdle(k, n + 1.0, z, t);
    if k <= n * p {
      WilsonExactly(k, n + 1.0, z, t, p);
      WilsonExactly(k, n, z, r, p);
      PlausibleIsExcess(k, n + 1.0, z, p);
      PlausibleIsExcess(k, n, z, p);
      PlausibleBefore(k, n, z, p);
    } else {
      ObservedIsInside(k, n, z, r);
      Below(k, n, p);
    }
  }

  lemma LowFalls(k: real, n: real, z: real, r: real, t: real)
    requires Counts(k, n, z) && IsRoot(k, n, z, r) && IsRoot(k, n + 1.0, z, t)
    ensures Wilson(k, n + 1.0, z, t).lo <= Wilson(k, n, z, r).lo
  {
    var p := Wilson(k, n, z, r).lo;
    ClampsAreIdle(k, n, z, r);
    if (n + 1.0) * p <= k {
      WilsonExactly(k, n, z, r, p);
      WilsonExactly(k, n + 1.0, z, t, p);
      PlausibleIsExcess(k, n, z, p);
      PlausibleIsExcess(k, n + 1.0, z, p);
      PlausibleAfter(k, n, z, p);
    } else {
      ObservedIsInside(k, n + 1.0, z, t);
      Above(k, n + 1.0, p);
    }
  }

  /** Swapping the two labels mirrors the interval. */
  lemma MirrorFlips(k: real, n: real, z: real, r: real)
    requires Counts(k, n, z) && IsRoot(k, n, z, r)
    ensures IsRoot(n - k, n, z, r)
    ensures Wilson(n - k, n, z, r) == Interval(1.0 - Wilson(k, n, z, r).hi, 1.0 - Wilson(k, n, z, r).lo)
  {
    SameRadicand(k, n, z);
    ClampsAreIdle(k, n, z, r);
    ClampsAreIdle(n - k, n, z, r);
    CentersAddUp(k, n, z);
  }

  lemma SameRadicand(k: real, n: real, z: real)
    requires n > 0.0
    ensures Radicand(n - k, n, z) == Radicand(k, n, z)
  {
    assert (n - k) * (n - (n - k)) == k * (n - k);
  }

  lemma CentersAddUp(k: real, n: real, z: real)
    requires n > 0.0
    ensures Center(n - k, n, z) == 1.0 - Center(k, n, z)
  {
    SharesAddUp(k + z * z / 2.0, n - k + z * z / 2.0, Denom(n, z));
  }

  lemma SharesAddUp(a: real, b: real, d: real)
    requires d > 0.0 && a + b == d
    ensures b / d == 1.0 - a / d
  {
    assert d * (a / d) == a && d * (b / d) == b;
    ScaleOrder(d, a / d + b / d, 1.0);
    ScaleOrder(d, 1.0, a / d + b / d);
  }

  /** One more confirmed finding raises both ends. */
  lemma RealRaises(k: real, n: real, z: real, r: real, t: real)
    requires Counts(k, n, z) && IsRoot(k, n, z, r) && IsRoot(k + 1.0, n + 1.0, z, t)
    ensures Wilson(k, n, z, r).lo <= Wilson(k + 1.0, n + 1.0, z, t).lo && Wilson(k, n, z, r).hi <= Wilson(k + 1.0, n + 1.0, z, t).hi
  {
    MirrorFlips(k, n, z, r);
    MirrorFlips(k + 1.0, n + 1.0, z, t);
    assert n + 1.0 - (k + 1.0) == n - k;
    FalseLowers(n - k, n, z, r, t);
  }
}
