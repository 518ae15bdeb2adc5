/**
 * File::calc_popularity: an exponential moving average of the access rate in accesses per
 * hour, with a weight that depends on the period and on the age of the file. Reals stand
 * for doubles; rounding is not modelled.
 */
module Popularity {
  const HOUR := 60.0 * 60.0
  const WEEK := 7.0 * (24.0 * HOUR)
  const START_DAMPING := 50000.0
  const DAMPING := 1000000.0
  const MULTIPLIER := 3600.0
  const SLOPE := (DAMPING - START_DAMPING) / WEEK
  const AVG_USAGE := 0.238
  const INITIAL_POPULARITY := MULTIPLIER * AVG_USAGE

  /** The damping before it is divided by the period. */
  function RawDamping(age: real, period: real): real {
    var linear := (age + period / 2.0) * SLOPE + START_DAMPING;
    if linear < DAMPING then linear else DAMPING
  }

  /** The popularity after a pass over a file of the given age in seconds. */
  function Next(y: real, count: nat, period: real, age: real): real
    requires age >= 0.0
  {
    if period <= 0.0 then y
    else
      var frequency := if count != 0 then count as real / period else 0.0;
      DampingPositive(age, period);
      var damping := RawDamping(age, period) / period;
      MULTIPLIER * frequency / damping + (1.0 - 1.0 / damping) * y
  }

  lemma DampingPositive(age: real, period: real)
    requires age >= 0.0 && period > 0.0
    ensures START_DAMPING <= RawDamping(age, period) <= DAMPING
    ensures RawDamping(age, period) / period > 0.0
  {
  }

  /** The weight of the new period against the old popularity. */
  function Weight(period: real, age: real): (w: real)
    requires age >= 0.0 && period > 0.0
    ensures w > 0.0
  {
    DampingPositive(age, period);
    period / RawDamping(age, period)
  }

  function Rate(count: nat, period: real): (r: real)
    requires period > 0.0
    ensures r >= 0.0
  {
    count as real / period
  }

  function Mean(w: real, a: real, b: real): real {
    (1.0 - w) * a + w * b
  }

  /** Accesses per hour over a period. */
  function Hourly(count: nat, period: real): real
    requires period > 0.0
  {
    MULTIPLIER * Rate(count, period)
  }

  /** The unit is accesses per hour, and a new file starts at the average usage in that unit. */
  lemma Units(period: real)
    requires period > 0.0
    ensures Hourly(1, 3600.0) == 1.0 && Hourly(0, period) == 0.0 && INITIAL_POPULARITY == 856.8
    ensures RawDamping(0.0, 0.0) == 50000.0 && RawDamping(604800.0, 0.0) == 1000000.0
  {
    assert SLOPE == 950000.0 / 604800.0;
  }

  /** The result is the mean of old popularity and hourly rate, weighted by Weight. */
  lemma NextIsWeightedMean(y: real, count: nat, period: real, age: real)
    requires age >= 0.0 && period > 0.0
    ensures Next(y, count, period, age) == Mean(Weight(period, age), y, Hourly(count, period))
  {
  }

  /** The longest period for which a file of any age gets a weight of at most one. */
  const LONGEST_PERIOD := START_DAMPING / (1.0 - SLOPE / 2.0)

  lemma LongestPeriod()
    ensures 232973.0 < LONGEST_PERIOD < 232974.0
  {
  }

  lemma WeightAtMostOne(period: real, age: real)
    requires age >= 0.0 && period > 0.0
    ensures Weight(period, age) <= 1.0 <==> period <= RawDamping(age, period)
  {
    DampingPositive(age, period);
    var r, w := RawDamping(age, period), Weight(period, age);
    assert w * r == period;
    if w <= 1.0 {
      assert w * r <= 1.0 * r;
    } else {
      assert w * r > 1.0 * r;
    }
  }

  /** Exactly the periods up to LONGEST_PERIOD average for every age. */
  lemma SafePeriods(period: real)
    requires period > 0.0
    ensures (forall age :: age >= 0.0 ==> Weight(period, age) <= 1.0) <==> period <= LONGEST_PERIOD
  {
    assert SLOPE == 950000.0 / 604800.0;
    LongestPeriod();
    if period <= LONGEST_PERIOD {
      forall age | age >= 0.0 ensures Weight(period, age) <= 1.0 {
        assert age * SLOPE >= 0.0;
        assert period <= RawDamping(age, period);
        WeightAtMostOne(period, age);
      }
    } else {
      assert RawDamping(0.0, period) < period;
      WeightAtMostOne(period, 0.0);
    }
  }

  // ------------------------------------------------------------ one pass

  lemma Product(c: real, d: real)
    requires c >= 0.0 && d >= 0.0
    ensures c * d >= 0.0
  {
  }

  lemma MeanMinus(w: real, a: real, b: real, m: real)
    ensures Mean(w, a, b) - m == (1.0 - w) * (a - m) + w * (b - m)
  {
  }

  lemma MeanWithin(w: real, a: real, b: real, low: real, high: real)
    requires 0.0 <= w <= 1.0 && low <= a <= high && low <= b <= high
    ensures low <= Mean(w, a, b) <= high
  {
    MeanMinus(w, a, b, low);
    MeanMinus(w, a, b, high);
    Product(1.0 - w, a - low);
    Product(w, b - low);
    Product(1.0 - w, high - a);
    Product(w, high - b);
    assert (1.0 - w) * (a - high) == -((1.0 - w) * (high - a));
    assert w * (b - high) == -(w * (high - b));
  }

  lemma MeanMonotone(w: real, a: real, b: real, c: real, d: real)
    requires 0.0 <= w <= 1.0 && a <= c && b <= d
    ensures Mean(w, a, b) <= Mean(w, c, d)
  {
    Product(1.0 - w, c - a);
    Product(w, d - b);
    assert Mean(w, c, d) - Mean(w, a, b) == (1.0 - w) * (c - a) + w * (d - b);
  }

  /**
   * An unused file's popularity decays towards zero without crossing it exactly when the
   * period is no longer than the damping for its age; otherwise it turns negative.
   */
  lemma UnusedDecay(y: real, period: real, age: real)
    requires age >= 0.0 && period > 0.0 && y > 0.0
    ensures Next(y, 0, period, age) < y
    ensures Next(y, 0, period, age) >= 0.0 <==> period <= RawDamping(age, period)
  {
  }

  lemma HourlyMonotone(count: nat, more: nat, period: real)
    requires count <= more && period > 0.0
    ensures Hourly(count, period) <= Hourly(more, period)
  {
  }

  /** More accesses or more prior popularity never give less popularity. */
  lemma NextMonotone(y: real, z: real, count: nat, more: nat, period: real, age: real)
    requires age >= 0.0 && 0.0 < period <= RawDamping(age, period)
    requires y <= z && count <= more
    ensures Next(y, count, period, age) <= Next(z, more, period, age)
  {
    NextIsWeightedMean(y, count, period, age);
    NextIsWeightedMean(z, more, period, age);
    WeightAtMostOne(period, age);
    HourlyMonotone(count, more, period);
    MeanMonotone(Weight(period, age), y, Hourly(count, period), z, Hourly(more, period));
  }

  lemma NextWithin(y: real, count: nat, period: real, age: real, most: real)
    requires age >= 0.0 && 0.0 < period <= LONGEST_PERIOD
    requires 0.0 <= y <= most && Hourly(count, period) <= most
    ensures 0.0 <= Next(y, count, period, age) <= most
  {
    SafePeriods(period);
    NextIsWeightedMean(y, count, period, age);
    MeanWithin(Weight(period, age), y, Hourly(count, period), 0.0, most);
  }

  // ------------------------------------------------------- whole histories

  datatype Pass = Pass(count: nat, period: real, age: real)

  predicate Usable(h: seq<Pass>) {
    forall i :: 0 <= i < |h| ==> 0.0 < h[i].period <= LONGEST_PERIOD && h[i].age >= 0.0
  }

  function After(y: real, h: seq<Pass>): real
    requires Usable(h)
  {
    if h == [] then y
    else
      var last := h[|h| - 1];
      Next(After(y, h[..|h| - 1]), last.count, last.period, last.age)
  }

  /** Over any history popularity stays between 0 and the larger of start and top hourly rate. */
  lemma {:induction false} HistoryBounded(y: real, h: seq<Pass>, most: real)
    requires Usable(h) && 0.0 <= y <= most
    requires forall i :: 0 <= i < |h| ==> Hourly(h[i].count, h[i].period) <= most
    ensures 0.0 <= After(y, h) <= most
  {
    if h != [] {
      var n := |h| - 1;
      HistoryBounded(y, h[..n], most);
      NextWithin(After(y, h[..n]), h[n].count, h[n].period, h[n].age, most);
    }
  }

  /** A file at least as popular and as much used through the same passes stays as popular. */
  lemma {:induction false} HistoryMonotone(y: real, h: seq<Pass>, z: real, g: seq<Pass>)
    requires Usable(h) && Usable(g) && |h| == |g| && y <= z
    requires forall i :: 0 <= i < |h| ==>
      h[i].period == g[i].period && h[i].age == g[i].age && h[i].count <= g[i].count
    ensures After(y, h) <= After(z, g)
  {
    if h != [] {
      var n := |h| - 1;
      HistoryMonotone(y, h[..n], z, g[..n]);
      SafePeriods(h[n].period);
      WeightAtMostOne(h[n].period, h[n].age);
      NextMonotone(After(y, h[..n]), After(z, g[..n]), h[n].count, g[n].count, h[n].period, h[n].age);
    }
  }

  /** One minus the weight: what one pass leaves of the distance to a constant rate. */
  function Keep(p: Pass): real
    requires p.period > 0.0 && p.age >= 0.0
  {
    1.0 - Weight(p.period, p.age)
  }

  /** A distance after every pass has multiplied it by its own factor. */
  function Remains(h: seq<Pass>, distance: real): real
    requires Usable(h)
  {
    if h == [] then distance else Times(Keep(h[|h| - 1]), Remains(h[..|h| - 1], distance))
  }

  function Times(a: real, b: real): real {
    a * b
  }

  lemma NextTowardsRate(y: real, p: Pass)
    requires p.age >= 0.0 && 0.0 < p.period <= LONGEST_PERIOD
    ensures var goal := Hourly(p.count, p.period);
            Next(y, p.count, p.period, p.age) - goal == Times(Keep(p), y - goal)
    ensures 0.0 <= Keep(p) < 1.0
  {
    SafePeriods(p.period);
    NextIsWeightedMean(y, p.count, p.period, p.age);
    MeanMinus(Weight(p.period, p.age), y, Hourly(p.count, p.period), Hourly(p.count, p.period));
  }

  /** At a constant rate every pass shrinks the distance to that rate by its own factor. */
  lemma {:induction false} ConstantRateConverges(y: real, h: seq<Pass>, goal: real)
    requires Usable(h)
    requires forall i :: 0 <= i < |h| ==> Hourly(h[i].count, h[i].period) == goal
    ensures After(y, h) - goal == Remains(h, y - goal)
  {
    if h != [] {
      var n := |h| - 1;
      ConstantRateConverges(y, h[..n], goal);
      NextTowardsRate(After(y, h[..n]), h[n]);
    }
  }

  /** The distance never grows and never changes sign. */
  lemma {:induction false} RemainsWithin(h: seq<Pass>, distance: real)
    requires Usable(h)
    ensures distance >= 0.0 ==> 0.0 <= Remains(h, distance) <= distance
    ensures distance <= 0.0 ==> distance <= Remains(h, distance) <= 0.0
  {
    if h != [] {
      var n := |h| - 1;
      RemainsWithin(h[..n], distance);
      NextTowardsRate(0.0, h[n]);
      TimesWithin(Keep(h[n]), Remains(h[..n], distance));
    }
  }

  lemma TimesWithin(k: real, d: real)
    requires 0.0 <= k <= 1.0
    ensures d >= 0.0 ==> 0.0 <= Times(k, d) <= d
    ensures d <= 0.0 ==> d <= Times(k, d) <= 0.0
  {
  }

  // ---------------------------------------------------- splitting a period

  /**
   * How far the calculation is from not caring about period lengths: at full damping,
   * splitting a period in two changes the result by (p * q / D^2) * (y - hourly rate of
   * the first part), so by nothing exactly when the first part's rate equals y.
   */
  lemma SplitPeriod(y: real, c: nat, d: nat, p: real, q: real, early: real, late: real)
    requires p > 0.0 && q > 0.0 && early >= 0.0 && late >= 0.0
    requires RawDamping(early, p) == RawDamping(late, q) == RawDamping(late, p + q) == DAMPING
    ensures Next(Next(y, c, p, early), d, q, late) - Next(y, c + d, p + q, late)
         == Times(Times(p / DAMPING, q / DAMPING), y - Hourly(c, p))
  {
    var first := Next(y, c, p, early);
    FullDamping(y, c, p, early);
    FullDamping(first, d, q, late);
    FullDamping(y, c + d, p + q, late);
    SplitAlgebra(y, p / DAMPING, q / DAMPING, Hourly(c, p), Hourly(d, q), Hourly(c + d, p + q), first);
  }

  lemma ProductIsZero(u: real, v: real, y: real, x: real)
    requires u > 0.0 && v > 0.0
    ensures Times(Times(u, v), y - x) == 0.0 <==> y == x
  {
  }

  /** Splitting is harmless exactly when the first part is used at the current popularity. */
  lemma SplitHarmless(y: real, c: nat, d: nat, p: real, q: real, early: real, late: real)
    requires p > 0.0 && q > 0.0 && early >= 0.0 && late >= 0.0
    requires RawDamping(early, p) == RawDamping(late, q) == RawDamping(late, p + q) == DAMPING
    ensures Next(Next(y, c, p, early), d, q, late) == Next(y, c + d, p + q, late) <==> y == Hourly(c, p)
  {
    SplitPeriod(y, c, d, p, q, early, late);
    ProductIsZero(p / DAMPING, q / DAMPING, y, Hourly(c, p));
  }

  /** At a constant rate a pass multiplies the distance to it by one minus the weight, for any period. */
  lemma DistanceKept(y: real, p: Pass)
    requires p.age >= 0.0 && p.period > 0.0
    ensures Next(y, p.count, p.period, p.age) - Hourly(p.count, p.period)
         == Times(Keep(p), y - Hourly(p.count, p.period))
  {
    NextIsWeightedMean(y, p.count, p.period, p.age);
    MeanMinus(Weight(p.period, p.age), y, Hourly(p.count, p.period), Hourly(p.count, p.period));
  }

  lemma RatesJoin(c: nat, d: nat, p: real, q: real)
    requires p > 0.0 && q > 0.0 && Hourly(c, p) == Hourly(d, q)
    ensures Hourly(c + d, p + q) == Hourly(c, p)
  {
    var r := Rate(c, p);
    assert r == Rate(d, q) && r * p == c as real && r * q == d as real;
    assert r * (p + q) == (c + d) as real;
  }

  lemma ZeroProduct(d: real, e: real)
    ensures Times(d, e) == 0.0 <==> d == 0.0 || e == 0.0
  {
    if d != 0.0 && e != 0.0 {
      assert d * e / e == d;
    }
  }

  lemma DistancesDiffer(a: real, b: real, once: real, x: real, y: real, k: real, l: real, m: real)
    requires a - x == Times(k, y - x) && b - x == Times(l, a - x) && once - x == Times(m, y - x)
    ensures b - once == Times(Times(k, l) - m, y - x)
    ensures b == once <==> y == x || Times(k, l) == m
  {
    var e := y - x;
    assert l * (k * e) - m * e == (k * l - m) * e;
    ZeroProduct(k * l - m, e);
  }

  /**
   * Splitting at any ages: at a constant rate the parts and the whole differ by the distance to that
   * rate, times the difference of what they keep of it; so they agree exactly when popularity is at
   * the rate already, or both keep the same.
   */
  lemma SplitAtConstantRate(y: real, first: Pass, second: Pass, late: real)
    requires first.period > 0.0 && second.period > 0.0 && first.age >= 0.0 && second.age >= 0.0 && late >= 0.0
    requires Hourly(first.count, first.period) == Hourly(second.count, second.period)
    ensures var x, whole := Hourly(first.count, first.period),
                            Pass(first.count + second.count, first.period + second.period, late);
      var parts := Next(Next(y, first.count, first.period, first.age), second.count, second.period, second.age);
      var once := Next(y, whole.count, whole.period, whole.age);
      && parts - once == Times(Times(Keep(first), Keep(second)) - Keep(whole), y - x)
      && (parts == once <==> y == x || Times(Keep(first), Keep(second)) == Keep(whole))
  {
    var whole := Pass(first.count + second.count, first.period + second.period, late);
    var x := Hourly(first.count, first.period);
    RatesJoin(first.count, second.count, first.period, second.period);
    var middle := Next(y, first.count, first.period, first.age);
    var parts := Next(middle, second.count, second.period, second.age);
    var once := Next(y, whole.count, whole.period, whole.age);
    DistanceKept(y, first);
    DistanceKept(middle, second);
    DistanceKept(y, whole);
    DistancesDiffer(middle, parts, once, x, y, Keep(first), Keep(second), Keep(whole));
  }

  /** Full damping is reached when age plus half the period, as the code adds them, is a week. */
  lemma FullDampingAge(age: real, period: real)
    ensures RawDamping(age, period) == DAMPING <==> age + period / 2.0 >= WEEK
  {
  }

  /** The damping for the age the file had in the middle of the period. */
  function MiddleDamping(age: real, period: real): real {
    var linear := (age - period / 2.0) * SLOPE + START_DAMPING;
    if linear < DAMPING then linear else DAMPING
  }

  /**
   * age is the age at the end of the period, so age + period / 2 lies half a period after it. The
   * damping is never less than for the middle of the period, and agrees with it exactly from the
   * time when that middle is a week old.
   */
  lemma DampingRunsAhead(age: real, period: real)
    requires period > 0.0
    ensures MiddleDamping(age, period) <= RawDamping(age, period)
    ensures MiddleDamping(age, period) == RawDamping(age, period) <==> age - period / 2.0 >= WEEK
  {
    assert SLOPE == 950000.0 / 604800.0;
  }

  lemma FullDamping(y: real, c: nat, p: real, age: real)
    requires p > 0.0 && age >= 0.0 && RawDamping(age, p) == DAMPING
    ensures Next(y, c, p, age) == Mean(p / DAMPING, y, Hourly(c, p))
    ensures Times(p / DAMPING, Hourly(c, p)) == MULTIPLIER * (c as real) / DAMPING
  {
  }

  lemma SplitAlgebra(y: real, u: real, v: real, x: real, z: real, all: real, first: real)
    requires Times(u + v, all) == Times(u, x) + Times(v, z)
    requires first == Mean(u, y, x)
    ensures Mean(v, first, z) - Mean(u + v, y, all) == Times(Times(u, v), y - x)
  {
  }
}
