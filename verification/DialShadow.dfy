/**
  The shadow dial's classifier: what the measured precision of a cell would say about a reviewer's rule.
 */
module DialShadow {
  import opened Options
  import opened WilsonScore

  /** k confirmed findings and fp false positives, from so many distinct refs and plays. */
  datatype Cell = Cell(k: nat, fp: nat, refs: nat, plays: nat)

  datatype Params = Params(floor: real, ceiling: real, minN: nat, minRefs: nat, minPlays: nat, minFp: nat, z: real)

  datatype Verdict = Insufficient | WouldSuppress | Hold | WouldTrust

  /** The square root function; its existence is taken from the reals. */
  ghost predicate TakesRoots(root: real -> real) {
    forall x: real :: x >= 0.0 ==> root(x) >= 0.0 && root(x) * root(x) == x
  }

  /** The source's wilson: no interval for an empty cell. */
  function IntervalOf(k: nat, n: nat, z: real, root: real -> real): Option<Interval>
    requires k <= n
  {
    if n == 0 then None
    else Some(Wilson(k as real, n as real, z, root(Radicand(k as real, n as real, z))))
  }

  predicate Thin(c: Cell, p: Params) {
    c.k + c.fp < p.minN || c.refs < p.minRefs || c.plays < p.minPlays
  }

  /** The two gates, each as if it were asked first. */
  predicate Suppresses(c: Cell, p: Params, root: real -> real) {
    var w := IntervalOf(c.k, c.k + c.fp, p.z, root);
    w.Some? && w.value.hi < p.floor && c.fp >= p.minFp
  }

  predicate Trusts(c: Cell, p: Params, root: real -> real) {
    var w := IntervalOf(c.k, c.k + c.fp, p.z, root);
    w.Some? && w.value.lo >= p.ceiling
  }

  function Classify(c: Cell, p: Params, root: real -> real): Verdict {
    if Thin(c, p) then Insufficient
    else if Suppresses(c, p, root) then WouldSuppress
    else if Trusts(c, p, root) then WouldTrust
    else Hold
  }

  lemma RootIsRoot(k: real, n: real, z: real, root: real -> real)
    requires TakesRoots(root) && Counts(k, n, z)
    ensures IsRoot(k, n, z, root(Radicand(k, n, z)))
  {
    Product(k, n - k);
    Quarter(k * (n - k), n, z);
  }

  lemma Quarter(a: real, n: real, z: real)
    requires a >= 0.0 && n > 0.0
    ensures a / n + z * z / 4.0 >= 0.0
  {
    assert n * (a / n) == a;
    ScaleOrder(n, 0.0, a / n);
    Product(z, z);
  }

  predicate PlausibleRate(c: Cell, z: real, x: real) { Plausible(c.k as real, (c.k + c.fp) as real, z, x) }

  /** Every rate the cell leaves plausible lies below (not below) the given one.  An empty cell rules out no rate. */
  ghost predicate SurelyBelow(c: Cell, z: real, rate: real) {
    forall x :: PlausibleRate(c, z, x) ==> x < rate
  }

  ghost predicate SurelyAtLeast(c: Cell, z: real, rate: real) {
    forall x :: PlausibleRate(c, z, x) ==> x >= rate
  }

  lemma EmptyRulesOutNothing(c: Cell, z: real, x: real)
    requires c.k + c.fp == 0
    ensures PlausibleRate(c, z, x)
  {
  }

  lemma GatesAreSure(c: Cell, z: real, rate: real, root: real -> real)
    requires TakesRoots(root) && z > 0.0 && c.k + c.fp > 0
    ensures var w := IntervalOf(c.k, c.k + c.fp, z, root).value;
            (w.hi < rate <==> SurelyBelow(c, z, rate)) && (w.lo >= rate <==> SurelyAtLeast(c, z, rate))
  {
    var k, n := c.k as real, (c.k + c.fp) as real;
    var r := root(Radicand(k, n, z));
    RootIsRoot(k, n, z, root);
    forall x: real
      ensures Wilson(k, n, z, r).lo <= x <= Wilson(k, n, z, r).hi <==> PlausibleRate(c, z, x)
    {
      WilsonExactly(k, n, z, r, x);
    }
    ObservedIsInside(k, n, z, r);
    assert PlausibleRate(c, z, Wilson(k, n, z, r).hi) && PlausibleRate(c, z, Wilson(k, n, z, r).lo);
  }

  /** The verdict by the evidence alone: too little of it; enough, and every plausible rate below the floor over
      enough false positives; or every plausible rate at the ceiling or above; or neither. */
  lemma VerdictExactly(c: Cell, p: Params, root: real -> real)
    requires TakesRoots(root) && p.z > 0.0
    ensures var enough := c.k + c.fp >= p.minN && c.refs >= p.minRefs && c.plays >= p.minPlays;
            var low := SurelyBelow(c, p.z, p.floor) && c.fp >= p.minFp;
            var high := SurelyAtLeast(c, p.z, p.ceiling);
            match Classify(c, p, root)
            case Insufficient => !enough
            case WouldSuppress => enough && low
            case WouldTrust => enough && !low && high
            case Hold => enough && !low && !high
  {
    if c.k + c.fp > 0 {
      GatesAreSure(c, p.z, p.floor, root);
      GatesAreSure(c, p.z, p.ceiling, root);
    } else {
      EmptyRulesOutNothing(c, p.z, p.floor);
      EmptyRulesOutNothing(c, p.z, p.ceiling - 1.0);
    }
  }

  /** The gates exclude each other whenever the floor is not above the ceiling, so their order is immaterial. */
  lemma GatesExclude(c: Cell, p: Params, root: real -> real)
    requires TakesRoots(root) && p.z > 0.0 && p.floor <= p.ceiling
    ensures !(Suppresses(c, p, root) && Trusts(c, p, root))
  {
    if c.k + c.fp > 0 {
      var k, n := c.k as real, (c.k + c.fp) as real;
      RootIsRoot(k, n, p.z, root);
      ClampsAreIdle(k, n, p.z, root(Radicand(k, n, p.z)));
    }
  }

  function Rank(v: Verdict): int {
    match v
    case Insufficient => -1
    case WouldSuppress => 0
    case Hold => 1
    case WouldTrust => 2
  }

  lemma FalseMoves(c: Cell, z: real, root: real -> real)
    requires TakesRoots(root) && z > 0.0 && c.k + c.fp > 0
    ensures var w, v := IntervalOf(c.k, c.k + c.fp, z, root).value, IntervalOf(c.k, c.k + c.fp + 1, z, root).value;
            v.lo <= w.lo && v.hi <= w.hi
  {
    var k, n := c.k as real, (c.k + c.fp) as real;
    assert (c.k + c.fp + 1) as real == n + 1.0;
    RootIsRoot(k, n, z, root);
    RootIsRoot(k, n + 1.0, z, root);
    FalseLowers(k, n, z, root(Radicand(k, n, z)), root(Radicand(k, n + 1.0, z)));
  }

  lemma RealMoves(c: Cell, z: real, root: real -> real)
    requires TakesRoots(root) && z > 0.0 && c.k + c.fp > 0
    ensures var w, v := IntervalOf(c.k, c.k + c.fp, z, root).value, IntervalOf(c.k + 1, c.k + c.fp + 1, z, root).value;
            w.lo <= v.lo && w.hi <= v.hi
  {
    var k, n := c.k as real, (c.k + c.fp) as real;
    assert (c.k + c.fp + 1) as real == n + 1.0 && (c.k + 1) as real == k + 1.0;
    RootIsRoot(k, n, z, root);
    RootIsRoot(k + 1.0, n + 1.0, z, root);
    RealRaises(k, n, z, root(Radicand(k, n, z)), root(Radicand(k + 1.0, n + 1.0, z)));
  }

  /** A label may bring a new ref or play with it. */
  predicate Gains(c: Cell, d: Cell) { d.refs >= c.refs && d.plays >= c.plays }

  /** A false positive never raises a cell: a held cell cannot become trusted by gaining one. */
  lemma FalseNeverRaises(c: Cell, d: Cell, p: Params, root: real -> real)
    requires TakesRoots(root) && p.z > 0.0 && p.minN >= 1 && !Classify(c, p, root).Insufficient?
    requires Gains(c, d) && d.k == c.k && d.fp == c.fp + 1
    ensures 0 <= Rank(Classify(d, p, root)) <= Rank(Classify(c, p, root))
  {
    FalseMoves(c, p.z, root);
    assert d.k + d.fp == c.k + c.fp + 1;
  }

  /** A confirmed finding never lowers a cell: neither a held nor a trusted cell becomes suppressed. */
  lemma RealNeverLowers(c: Cell, d: Cell, p: Params, root: real -> real)
    requires TakesRoots(root) && p.z > 0.0 && p.minN >= 1 && !Classify(c, p, root).Insufficient?
    requires Gains(c, d) && d.fp == c.fp && d.k == c.k + 1
    ensures Rank(Classify(c, p, root)) <= Rank(Classify(d, p, root))
  {
    RealMoves(c, p.z, root);
    assert d.k + d.fp == c.k + c.fp + 1;
  }

  // ---- the knobs do not enforce floor <= ceiling ----------------------------------------------------

  /** A rate that fails the score test lies on the side of the interval on which it lies of k/n. */
  lemma OutsideBelow(k: real, n: real, z: real, r: real, p: real)
    requires Counts(k, n, z) && IsRoot(k, n, z, r) && Excess(k, n, z, p) > 0.0 && n * p <= k
    ensures p < Wilson(k, n, z, r).lo
  {
    Below(k, n, p);
    ObservedIsInside(k, n, z, r);
    PlausibleIsExcess(k, n, z, p);
    WilsonExactly(k, n, z, r, p);
  }

  lemma OutsideAbove(k: real, n: real, z: real, r: real, p: real)
    requires Counts(k, n, z) && IsRoot(k, n, z, r) && Excess(k, n, z, p) > 0.0 && k <= n * p
    ensures Wilson(k, n, z, r).hi < p
  {
    Above(k, n, p);
    ObservedIsInside(k, n, z, r);
    PlausibleIsExcess(k, n, z, p);
    WilsonExactly(k, n, z, r, p);
  }

  /** A deviation of a quarter of the gap fails the test once n is large. */
  lemma FarOff(k: real, n: real, z: real, p: real, g: real)
    requires n > 0.0 && g > 0.0 && 0.0 <= p <= 1.0 && n * (g * g) > 16.0 * (z * z)
    requires k - n * p >= n * g / 4.0 || n * p - k >= n * g / 4.0
    ensures Excess(k, n, z, p) > 0.0
  {
    var q, v := z * z, n * (p * (1.0 - p));
    Product(z, z);
    Variance(p, n, q);
    assert q * v <= q * n;
    Deviates(k - n * p, n, g, q, v);
  }

  lemma Deviates(d: real, n: real, g: real, q: real, v: real)
    requires n > 0.0 && g > 0.0 && n * (g * g) > 16.0 * q && q * v <= q * n
    requires d >= n * g / 4.0 || -d >= n * g / 4.0
    ensures d * d - q * v > 0.0
  {
    Product(n, g);
    SquareAtLeast(if d >= 0.0 then d else -d, n * g / 4.0);
    Spread(n, g, q);
  }

  lemma SquareAtLeast(d: real, e: real)
    requires d >= e >= 0.0
    ensures d * d >= e * e
  {
    Product(d - e, d + e);
    assert (d - e) * (d + e) == d * d - e * e;
  }

  lemma Spread(n: real, g: real, q: real)
    requires n > 0.0 && n * (g * g) > 16.0 * q
    ensures (n * g / 4.0) * (n * g / 4.0) > q * n
  {
    var x := n * (g * g);
    assert (n * g / 4.0) * (n * g / 4.0) == n * x / 16.0;
    ScaleOrder(n, x, 16.0 * q);
  }

  lemma Variance(p: real, n: real, q: real)
    requires 0.0 <= p <= 1.0 && n > 0.0 && q >= 0.0
    ensures q * (n * (p * (1.0 - p))) <= q * n
  {
    var v := p * (1.0 - p);
    Product(p, p);
    assert v == p - p * p;
    Product(n, 1.0 - v);
    Product(q, n * (1.0 - v));
    assert q * (n * (1.0 - v)) == q * n - q * (n * v);
  }

  /** Room in a quotient: any large enough n does. */
  lemma LargeEnough(a: real, b: real, n: real)
    requires b > 0.0 && n >= a / b
    ensures n * b >= a
  {
    assert b * (a / b) == a;
    ScaleOrder(b, a / b, n);
  }

  function AtLeast(x: real): (n: nat)
    requires x >= 0.0
    ensures n as real > x
  {
    x.Floor + 1
  }

  predicate Big(m: real, g: real, z: real) { m > 0.0 && m * g >= 4.0 && m * (g * g) > 16.0 * (z * z) }

  predicate IsShare(k: real, m: real, x: real) { k <= m * x < k + 1.0 }

  /** k of m leaves both low and high implausible, one on each side. */
  predicate Parts(k: real, m: real, z: real, low: real, high: real) {
    m * low <= k <= m * high && Excess(k, m, z, low) > 0.0 && Excess(k, m, z, high) > 0.0
  }

  /** A sample size that is large in all three respects. */
  lemma BigSample(g: real, z: real, rest: real, few: nat) returns (n: nat)
    requires 0.0 < g && 0.0 < rest
    ensures n > 0 && Big(n as real, g, z) && n as real * rest >= few as real
  {
    Product(z, z);
    assert g * g > 0.0 by {
      ScaleOrder(g, g, 0.0);
    }
    var a, b, c := 4.0 / g, (16.0 * (z * z) + 1.0) / (g * g), few as real / rest;
    assert a >= 0.0 && b >= 0.0 && c >= 0.0;
    n := AtLeast(a + b + c);
    LargeEnough(4.0, g, n as real);
    LargeEnough(16.0 * (z * z) + 1.0, g * g, n as real);
    LargeEnough(few as real, rest, n as real);
  }

  /** Between the two thresholds there is room on both sides. */
  lemma Room(m: real, low: real, g: real, k: real)
    requires m > 0.0 && g > 0.0 && m * g >= 4.0 && k <= m * (low + g / 2.0) < k + 1.0
    ensures k - m * low >= m * g / 4.0 && m * (low + g) - k >= m * g / 4.0
    ensures m * low <= k <= m * (low + g)
  {
    assert m * (low + g / 2.0) == m * low + m * g / 2.0 && m * (low + g) == m * low + m * g;
  }

  lemma Rest(m: real, x: real, k: real, few: real)
    requires k <= m * x && m * (1.0 - x) >= few
    ensures m - k >= few
  {
    assert m * (1.0 - x) == m - m * x;
  }

  lemma ClashingCounts(low: real, g: real, z: real, few: nat) returns (k: nat, n: nat)
    requires 0.0 <= low && 0.0 < g && low + g <= 1.0
    ensures n > 0 && k <= n && n - k >= few && Parts(k as real, n as real, z, low, low + g)
  {
    n := BigSample(g, z, 1.0 - (low + g / 2.0), few);
    k := CountsBetween(n, low + g / 2.0, few);
    BothFarOff(k as real, n as real, z, low, g);
  }

  lemma CountsBetween(n: nat, x: real, few: nat) returns (k: nat)
    requires n > 0 && 0.0 <= x <= 1.0 && n as real * (1.0 - x) >= few as real
    ensures k <= n && n - k >= few && IsShare(k as real, n as real, x)
  {
    k := Share(n as real, x);
    Rest(n as real, x, k as real, few as real);
    assert (n - k) as real >= few as real;
  }

  lemma BothFarOff(k: real, m: real, z: real, low: real, g: real)
    requires 0.0 <= low && 0.0 < g && low + g <= 1.0 && Big(m, g, z) && IsShare(k, m, low + g / 2.0)
    ensures Parts(k, m, z, low, low + g)
  {
    Room(m, low, g, k);
    FarOff(k, m, z, low, g);
    FarOff(k, m, z, low + g, g);
  }

  /** A cell that both gates claim, for every floor above the ceiling. */
  lemma ClashingCell(p: Params, root: real -> real) returns (c: Cell)
    requires TakesRoots(root) && p.z > 0.0 && 0.0 <= p.ceiling < p.floor <= 1.0
    ensures Suppresses(c, p, root) && Trusts(c, p, root) && !Thin(c, p)
  {
    var k, n := ClashingCounts(p.ceiling, p.floor - p.ceiling, p.z, p.minFp + p.minN);
    assert p.ceiling + (p.floor - p.ceiling) == p.floor;
    BetweenGates(k as real, n as real, p.z, p.ceiling, p.floor, root);
    c := Cell(k, n - k, p.minRefs, p.minPlays);
    assert c.k + c.fp == n;
  }

  lemma BetweenGates(k: real, n: real, z: real, low: real, high: real, root: real -> real)
    requires TakesRoots(root) && Counts(k, n, z) && Parts(k, n, z, low, high)
    ensures var w := Wilson(k, n, z, root(Radicand(k, n, z))); low < w.lo && w.hi < high
  {
    RootIsRoot(k, n, z, root);
    OutsideBelow(k, n, z, root(Radicand(k, n, z)), low);
    OutsideAbove(k, n, z, root(Radicand(k, n, z)), high);
  }

  /** The largest count of at most the given share. */
  lemma Share(m: real, x: real) returns (k: nat)
    requires m > 0.0 && 0.0 <= x <= 1.0
    ensures k as real <= m * x < k as real + 1.0 && k as real <= m
  {
    Product(m, x);
    Product(m, 1.0 - x);
    k := (m * x).Floor;
  }

  /** The gates exclude each other in every cell that is not thin if and only if the floor is not above the ceiling. */
  lemma GatesExactly(p: Params, root: real -> real)
    requires TakesRoots(root) && p.z > 0.0 && 0.0 <= p.ceiling <= 1.0 && 0.0 <= p.floor <= 1.0
    ensures (forall c :: !Thin(c, p) ==> !(Suppresses(c, p, root) && Trusts(c, p, root))) <==> p.floor <= p.ceiling
  {
    if p.floor <= p.ceiling {
      forall c | !Thin(c, p)
        ensures !(Suppresses(c, p, root) && Trusts(c, p, root))
      {
        GatesExclude(c, p, root);
      }
    } else {
      var c := ClashingCell(p, root);
    }
  }
}
