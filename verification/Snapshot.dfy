/**
 * A snapshot of a distribution: sorted values, mean, variance by Welford's recurrence
 * with an integer accumulator, and interpolated quantiles. Arithmetic is exact.
 */
module Snapshots {

  datatype Result = Value(value: real) | InvalidArgument

  // ---------------------------------------------------------------- sorting

  predicate IsSorted(s: seq<int>) {
    forall i, j :: 0 <= i <= j < |s| ==> s[i] <= s[j]
  }

  function Insert(s: seq<int>, x: int): seq<int> {
    if s == [] || x <= s[0] then [x] + s else [s[0]] + Insert(s[1..], x)
  }

  function Sort(s: seq<int>): seq<int> {
    if s == [] then [] else Insert(Sort(s[..|s| - 1]), s[|s| - 1])
  }

  lemma {:induction false} InsertKeeps(s: seq<int>, x: int)
    requires IsSorted(s)
    ensures IsSorted(Insert(s, x)) && multiset(Insert(s, x)) == multiset(s) + multiset{x}
  {
    if !(s == [] || x <= s[0]) {
      InsertKeeps(s[1..], x);
      assert s == [s[0]] + s[1..];
      var r := Insert(s[1..], x);
      forall i | 0 <= i < |r| ensures s[0] <= r[i] {
        assert r[i] in multiset(r);
      }
    }
  }

  lemma {:induction false} SortKeeps(s: seq<int>)
    ensures IsSorted(Sort(s)) && multiset(Sort(s)) == multiset(s) && |Sort(s)| == |s|
  {
    if s != [] {
      var n := |s| - 1;
      SortKeeps(s[..n]);
      InsertKeeps(Sort(s[..n]), s[n]);
      assert s == s[..n] + [s[n]];
      assert |multiset(Sort(s))| == |multiset(s)|;
    }
  }

  // ---------------------------------------------------------------- products of reals

  /** The product, named so that proofs can leave it folded. */
  function Mul(a: real, b: real): real {
    a * b
  }

  lemma MulSub(a: real, b: real, c: real)
    ensures Mul(b - a, c) == Mul(b, c) - Mul(a, c)
  {
  }

  lemma MulMonotone(a: real, b: real, c: real, d: real)
    requires 0.0 <= a <= b && 0.0 <= c <= d
    ensures 0.0 <= Mul(a, c) <= Mul(b, d)
  {
    assert (b - a) * c >= 0.0 && b * (d - c) >= 0.0;
  }

  lemma MulInts(a: int, b: int)
    ensures Mul(a as real, b as real) == (a * b) as real
  {
  }

  lemma MulAssoc(a: real, b: real, c: real)
    ensures Mul(Mul(a, b), c) == Mul(a, Mul(b, c))
  {
  }

  lemma MulDiv(a: real, b: real)
    requires b != 0.0
    ensures Mul(a / b, b) == a
  {
  }

  lemma MulSign(a: real, b: real)
    requires b > 0.0 && Mul(a, b) >= 0.0
    ensures a >= 0.0
  {
  }

  /** The quotient of two whole numbers as reals, named for the same reason. */
  function Ratio(x: int, n: nat): real
    requires n > 0
  {
    x as real / n as real
  }

  lemma RatioTimes(x: int, n: nat)
    requires n > 0
    ensures Mul(Ratio(x, n), n as real) == x as real && (x >= 0 ==> Ratio(x, n) >= 0.0)
  {
    MulDiv(x as real, n as real);
    if x >= 0 {
      MulSign(Ratio(x, n), n as real);
    }
  }

  // ---------------------------------------------------------------- moments

  function Sum(s: seq<int>): int {
    if s == [] then 0 else Sum(s[..|s| - 1]) + s[|s| - 1]
  }

  function Squares(s: seq<int>): int {
    if s == [] then 0 else Squares(s[..|s| - 1]) + s[|s| - 1] * s[|s| - 1]
  }

  /** The sum of squared deviations from m. */
  function Deviations(s: seq<int>, m: real): real {
    if s == [] then 0.0
    else Deviations(s[..|s| - 1], m) + Mul(s[|s| - 1] as real - m, s[|s| - 1] as real - m)
  }

  /** m is the mean of s (anything, if s is empty). */
  predicate IsMean(s: seq<int>, m: real) {
    Mul(|s| as real, m) == Sum(s) as real
  }

  function Expanded(q: real, sum: real, n: real, m: real): real {
    q - 2.0 * m * sum + n * m * m
  }

  lemma ExpandOne(q: real, sum: real, n: real, m: real, x: real, d: real)
    requires d == Expanded(q, sum, n, m)
    ensures d + Mul(x - m, x - m) == Expanded(q + Mul(x, x), sum + x, n + 1.0, m)
  {
    assert (x - m) * (x - m) == x * x - 2.0 * m * x + m * m;
  }

  lemma {:induction false} DeviationsExpand(s: seq<int>, m: real)
    ensures Deviations(s, m) == Expanded(Squares(s) as real, Sum(s) as real, |s| as real, m)
  {
    if s != [] {
      var n := |s| - 1;
      var x := s[n] as real;
      DeviationsExpand(s[..n], m);
      ExpandOne(Squares(s[..n]) as real, Sum(s[..n]) as real, n as real, m, x, Deviations(s[..n], m));
      MulInts(s[n], s[n]);
      hide Mul;
    }
  }

  /** For the mean itself: M = Q - n * mean * mean. */
  lemma DeviationsOfMean(s: seq<int>, m: real)
    requires IsMean(s, m)
    ensures Deviations(s, m) == Squares(s) as real - Mul(Mul(|s| as real, m), m)
  {
    DeviationsExpand(s, m);
    assert 2.0 * m * Sum(s) as real == 2.0 * Mul(Mul(|s| as real, m), m);
  }

  /** One step of Welford's recurrence, exactly. */
  lemma Welford(n: real, m: real, x: real, m': real)
    requires n >= 1.0 && m' == m + (x - m) / n
    ensures Mul(n, m') == Mul(n - 1.0, m) + x
    ensures Mul(x - m, x - m') == Mul(x, x) + Mul(Mul(n - 1.0, m), m) - Mul(Mul(n, m'), m')
    ensures Mul(x - m, x - m') >= 0.0
  {
    var d := x - m;
    assert n * (d / n) == d;
    assert n * m' == n * m + n * (d / n);
    assert n * m' * m' == ((n - 1.0) * m + x) * m';
    assert m * (n * m') == m * ((n - 1.0) * m + x);
    assert x - m' == d - d / n == d * ((n - 1.0) / n);
    assert d * (d * ((n - 1.0) / n)) == (d * d) * ((n - 1.0) / n);
    MulMonotone(0.0, d * d, 0.0, (n - 1.0) / n);
  }

  lemma MomentStep(s: seq<int>, n: nat, m: real, m': real)
    requires n < |s| && IsMean(s[..n], m) && m' == m + (s[n] as real - m) / (n + 1) as real
    ensures IsMean(s[..n + 1], m')
    ensures Deviations(s[..n + 1], m') == Deviations(s[..n], m) + Mul(s[n] as real - m, s[n] as real - m')
    ensures Mul(s[n] as real - m, s[n] as real - m') >= 0.0
  {
    assert s[..n + 1][..n] == s[..n];
    assert Sum(s[..n + 1]) == Sum(s[..n]) + s[n] && Squares(s[..n + 1]) == Squares(s[..n]) + s[n] * s[n];
    hide Mul, Sum, Squares, Deviations;
    Welford((n + 1) as real, m, s[n] as real, m');
    DeviationsOfMean(s[..n], m);
    DeviationsOfMean(s[..n + 1], m');
    MulInts(s[n], s[n]);
  }

  /** A conversion to int64_t truncates toward zero. */
  function Truncate(x: real): int {
    if x >= 0.0 then x.Floor else -((-x).Floor)
  }

  /** The mean; 0 of no values. */
  function MeanOf(s: seq<int>): (m: real)
    ensures IsMean(s, m)
  {
    if s == [] then 0.0 else Sum(s) as real / |s| as real
  }

  /** The exact sum of squared deviations of the first k values from their own mean. */
  function Exact(s: seq<int>, k: nat): real
    requires k <= |s|
  {
    Deviations(s[..k], MeanOf(s[..k]))
  }

  /**
   * v[k] is what an integer makes of the first k values: it adds what each value adds to the
   * exact sum, and drops the fraction every time.
   */
  ghost predicate Accumulates(s: seq<int>, v: seq<int>, n: nat) {
    && n <= |s| && |v| == n + 1 && v[0] == 0
    && forall k {:trigger v[k]} :: 0 < k <= n ==>
         v[k] as real <= v[k - 1] as real + Exact(s, k) - Exact(s, k - 1) < (v[k] + 1) as real
  }

  /** There is one such list of integers. */
  lemma {:induction false} AccumulatesOnce(s: seq<int>, v: seq<int>, w: seq<int>, n: nat, k: nat)
    requires Accumulates(s, v, n) && Accumulates(s, w, n) && k <= n
    ensures v[k] == w[k]
  {
    hide Exact;
    if k > 0 {
      AccumulatesOnce(s, v, w, n, k - 1);
    }
  }

  /** The recurrence's running mean is the mean. */
  lemma MeanIsOne(s: seq<int>, n: nat, m': real)
    requires n < |s| && m' == MeanOf(s[..n]) + (s[n] as real - MeanOf(s[..n])) / (n + 1) as real
    ensures m' == MeanOf(s[..n + 1])
  {
    MomentStep(s, n, MeanOf(s[..n]), m');
    assert IsMean(s[..n + 1], m') && IsMean(s[..n + 1], MeanOf(s[..n + 1]));
    hide IsMean, MeanOf;
    SameMean(s[..n + 1], m', MeanOf(s[..n + 1]));
  }

  lemma SameMean(s: seq<int>, m: real, m': real)
    requires s != [] && IsMean(s, m) && IsMean(s, m')
    ensures m == m'
  {
    MulSub(m, m', |s| as real);
    assert |s| as real * (m' - m) == 0.0;
  }

  /** What one round of the recurrence adds is what the value adds to the exact sum. */
  lemma ExactStep(s: seq<int>, n: nat, m: real, m': real)
    requires n < |s| && m == MeanOf(s[..n]) && m' == m + (s[n] as real - m) / (n + 1) as real
    ensures m' == MeanOf(s[..n + 1])
    ensures Exact(s, n + 1) == Exact(s, n) + Mul(s[n] as real - m, s[n] as real - m') && Exact(s, n) <= Exact(s, n + 1)
  {
    MeanIsOne(s, n, m');
    MomentStep(s, n, m, m');
  }

  /** It has lost less than one for each value. */
  lemma {:induction false} AccumulatesBelow(s: seq<int>, v: seq<int>, n: nat, k: nat)
    requires Accumulates(s, v, n) && k <= n
    ensures v[k] >= 0 && Exact(s, k) - k as real <= v[k] as real <= Exact(s, k)
    ensures k > 0 ==> Exact(s, k) - k as real < v[k] as real
  {
    if k == 0 {
      assert s[..0] == [];
    } else {
      AccumulatesBelow(s, v, n, k - 1);
      var m := MeanOf(s[..k - 1]);
      ExactStep(s, k - 1, m, m + (s[k - 1] as real - m) / k as real);
    }
  }

  /** It has lost nothing if every value adds a whole number. */
  lemma {:induction false} AccumulatesExactly(s: seq<int>, v: seq<int>, n: nat, k: nat)
    requires Accumulates(s, v, n) && k <= n
    requires forall j {:trigger Exact(s, j)} :: 0 < j <= k ==>
               (Exact(s, j) - Exact(s, j - 1)).Floor as real == Exact(s, j) - Exact(s, j - 1)
    ensures v[k] as real == Exact(s, k)
  {
    if k == 0 {
      assert s[..0] == [];
    } else {
      AccumulatesExactly(s, v, n, k - 1);
      assert v[k - 1] as real + Exact(s, k) - Exact(s, k - 1) == Exact(s, k);
      assert (Exact(s, k) - Exact(s, k - 1)).Floor + v[k - 1] == v[k];
    }
  }

  /** One round of the loop: truncating adds the next integer. */
  lemma AccumulatesNext(s: seq<int>, v: seq<int>, n: nat, m: real, m': real)
    requires Accumulates(s, v, n) && n < |s| && m == MeanOf(s[..n])
    requires m' == m + (s[n] as real - m) / (n + 1) as real
    ensures m' == MeanOf(s[..n + 1])
    ensures Accumulates(s, v + [Truncate(v[n] as real + Mul(s[n] as real - m, s[n] as real - m'))], n + 1)
  {
    hide Mul, Exact, MeanOf, Deviations;
    ExactStep(s, n, m, m');
    AccumulatesBelow(s, v, n, n);
    var inc := Mul(s[n] as real - m, s[n] as real - m');
    var more := v + [Truncate(v[n] as real + inc)];
    forall k {:trigger more[k]} | 0 < k <= n + 1
      ensures more[k] as real <= more[k - 1] as real + Exact(s, k) - Exact(s, k - 1) < (more[k] + 1) as real
    {
      if k <= n {
        assert more[k] == v[k] && more[k - 1] == v[k - 1];
      }
    }
  }

  // ---------------------------------------------------------------- quantiles

  /**
   * The distribution at position x of 1 .. n, linear between order statistics; constant
   * outside. s[0] has position 1.
   */
  function AtPosition(s: seq<int>, x: real): real
    requires s != []
  {
    if x < 1.0 then s[0] as real
    else if x >= |s| as real then s[|s| - 1] as real
    else
      var low := s[(x - 1.0).Floor] as real;
      var high := s[x.Floor] as real;
      low + Mul(x - x.Floor as real, high - low)
  }

  /** valueAt: position q * (n + 1). */
  function ValueAt(s: seq<int>, q: real): (r: Result)
    ensures r.InvalidArgument? <==> q < 0.0 || q > 1.0
    ensures r.Value? && s == [] ==> r.value == 0.0
  {
    if q < 0.0 || q > 1.0 then InvalidArgument
    else if s == [] then Value(0.0)
    else Value(AtPosition(s, Mul(q, (|s| + 1) as real)))
  }

  /** Between two whole positions the distribution rises from one order statistic to the next, with slope their gap. */
  lemma OneCell(s: seq<int>, k: nat, x: real)
    requires IsSorted(s) && 1 <= k < |s| && k as real <= x <= (k + 1) as real
    ensures AtPosition(s, x) == s[k - 1] as real + Mul(x - k as real, (s[k] - s[k - 1]) as real)
  {
    if x == (k + 1) as real {
      assert x.Floor == k + 1;
      assert AtPosition(s, x) == s[k] as real;
    } else {
      assert x.Floor == k && (x - 1.0).Floor == k - 1;
    }
  }

  /** The spread of the whole distribution bounds every gap in it. */
  function Spread(s: seq<int>): int
    requires s != []
  {
    s[|s| - 1] - s[0]
  }

  ghost predicate RisesAtMost(s: seq<int>, x: real, y: real)
    requires s != []
  {
    0.0 <= AtPosition(s, y) - AtPosition(s, x) <= Mul(y - x, Spread(s) as real)
  }

  lemma CellRises(s: seq<int>, k: nat, x: real, y: real)
    requires IsSorted(s) && 1 <= k < |s| && k as real <= x <= y <= (k + 1) as real
    ensures RisesAtMost(s, x, y)
  {
    hide Mul;
    OneCell(s, k, x);
    OneCell(s, k, y);
    var gap := s[k] - s[k - 1];
    assert 0 <= gap <= Spread(s);
    hide AtPosition, IsSorted;
    MulSub(x - k as real, y - k as real, gap as real);
    assert (y - k as real) - (x - k as real) == y - x;
    MulMonotone(y - x, y - x, gap as real, Spread(s) as real);
  }

  lemma RisesThrough(s: seq<int>, x: real, y: real, z: real)
    requires s != [] && RisesAtMost(s, x, y) && RisesAtMost(s, y, z)
    ensures RisesAtMost(s, x, z)
  {
    hide Mul, AtPosition;
    MulSub(y - x, z - x, Spread(s) as real);
    assert (z - x) - (y - x) == z - y;
  }

  lemma {:induction false} InsideRises(s: seq<int>, x: real, y: real)
    requires IsSorted(s) && s != [] && 1.0 <= x <= y <= |s| as real
    ensures RisesAtMost(s, x, y)
    decreases |s| - x.Floor
  {
    hide AtPosition;
    var k := x.Floor;
    if k == |s| || x == y {
      assert x == y;
    } else if y <= (k + 1) as real {
      CellRises(s, k, x, y);
    } else {
      var mid := (k + 1) as real;
      assert mid.Floor == k + 1;
      CellRises(s, k, x, mid);
      InsideRises(s, mid, y);
      RisesThrough(s, x, mid, y);
    }
  }

  /** Clip a position to 1 .. n. */
  function Clip(x: real, n: nat): real
    requires n >= 1
  {
    if x < 1.0 then 1.0 else if x > n as real then n as real else x
  }

  /** The three branches agree where they meet: clipping the position first changes nothing. */
  lemma BranchesMeet(s: seq<int>, x: real)
    requires IsSorted(s) && s != []
    ensures AtPosition(s, x) == AtPosition(s, Clip(x, |s|))
  {
    if x < 1.0 && |s| > 1 {
      OneCell(s, 1, 1.0);
    }
  }

  lemma PositionsRise(s: seq<int>, x: real, y: real)
    requires IsSorted(s) && s != [] && x <= y
    ensures RisesAtMost(s, x, y)
  {
    hide AtPosition, Mul;
    var n := |s|;
    BranchesMeet(s, x);
    BranchesMeet(s, y);
    InsideRises(s, Clip(x, n), Clip(y, n));
    MulMonotone(Clip(y, n) - Clip(x, n), y - x, Spread(s) as real, Spread(s) as real);
  }

  /**
   * valueAt is monotone over all real quantiles, and rises at most (n + 1) times the
   * spread per unit of quantile, so it has no jump where its branches meet.
   */
  lemma QuantileMonotone(s: seq<int>, p: real, q: real)
    requires IsSorted(s) && s != [] && 0.0 <= p <= q <= 1.0
    ensures ValueAt(s, p).Value? && ValueAt(s, q).Value?
    ensures 0.0 <= ValueAt(s, q).value - ValueAt(s, p).value <= Mul(q - p, ((|s| + 1) * Spread(s)) as real)
  {
    hide AtPosition, Mul;
    var n1 := (|s| + 1) as real;
    MulSub(p, q, n1);
    MulMonotone(p, q, n1, n1);
    PositionsRise(s, Mul(p, n1), Mul(q, n1));
    MulInts(|s| + 1, Spread(s));
    MulAssoc(q - p, n1, Spread(s) as real);
  }

  /** ... and lies between the minimum and the maximum, which it reaches at the ends. */
  lemma QuantileBounded(s: seq<int>, q: real)
    requires IsSorted(s) && s != [] && 0.0 <= q <= 1.0
    ensures ValueAt(s, q).Value? && s[0] as real <= ValueAt(s, q).value <= s[|s| - 1] as real
    ensures ValueAt(s, 0.0) == Value(s[0] as real) && ValueAt(s, 1.0) == Value(s[|s| - 1] as real)
  {
    QuantileEnds(s);
    hide ValueAt, Mul;
    QuantileMonotone(s, 0.0, q);
    QuantileMonotone(s, q, 1.0);
  }

  lemma QuantileEnds(s: seq<int>)
    requires s != []
    ensures ValueAt(s, 0.0) == Value(s[0] as real) && ValueAt(s, 1.0) == Value(s[|s| - 1] as real)
  {
    assert Mul(0.0, (|s| + 1) as real) == 0.0 && Mul(1.0, (|s| + 1) as real) == (|s| + 1) as real;
  }

  /** At the quantile of its own position, k / (n + 1), each order statistic is met exactly. */
  lemma QuantileAtOrderStatistic(s: seq<int>, k: nat)
    requires IsSorted(s) && 1 <= k <= |s|
    ensures ValueAt(s, k as real / (|s| + 1) as real) == Value(s[k - 1] as real)
  {
    var q := k as real / (|s| + 1) as real;
    QuantileInRange(k as real, (|s| + 1) as real);
    MulDiv(k as real, (|s| + 1) as real);
    if k < |s| {
      OneCell(s, k, k as real);
      assert Mul(0.0, (s[k] - s[k - 1]) as real) == 0.0;
    }
    hide Mul;
  }

  lemma QuantileInRange(k: real, n: real)
    requires 0.0 <= k <= n && n > 0.0
    ensures 0.0 <= k / n <= 1.0
  {
  }

  // ---------------------------------------------------------------- the class

  class Snapshot {
    const values: seq<int>

    ghost predicate Valid() {
      IsSorted(values)
    }

    /** The values, sorted unless the caller has sorted them. */
    constructor (given: seq<int>, sorted: bool)
      requires sorted ==> IsSorted(given)
      ensures Valid() && multiset(values) == multiset(given) && |values| == |given|
    {
      SortKeeps(given);
      values := if sorted then given else Sort(given);
    }

    /** mean * n is the sum of the values. */
    method Mean() returns (mean: real)
      ensures IsMean(values, mean) && (values == [] ==> mean == 0.0)
    {
      if values == [] {
        return 0.0;
      }
      var sum := 0;
      var i := 0;
      while i < |values|
        invariant 0 <= i <= |values| && sum == Sum(values[..i])
      {
        assert values[..i + 1][..i] == values[..i];
        sum := sum + values[i];
        i := i + 1;
      }
      assert values[..i] == values;
      mean := sum as real / |values| as real;
      MulDiv(sum as real, |values| as real);
    }

    /**
     * The variance under stdev's square root. The integer accumulator drops a fraction at
     * every step: v is what it holds after each value.
     */
    method Variance() returns (variance: real, ghost v: seq<int>)
      ensures Accumulates(values, v, |values|)
      ensures |values| < 2 ==> variance == 0.0
      ensures |values| >= 2 ==> Mul(variance, (|values| - 1) as real) == v[|values|] as real && variance >= 0.0
    {
      var n := 0;
      var varsum := 0;
      var mean := 0.0;
      assert values[..0] == [];
      v := [0];
      while n < |values|
        invariant 0 <= n <= |values| && mean == MeanOf(values[..n])
        invariant Accumulates(values, v, n) && varsum == v[n]
      {
        hide IsMean, MeanOf, Deviations, Truncate, Mul, Exact;
        var value := values[n] as real;
        var delta := value - mean;
        var next := mean + delta / (n + 1) as real;
        AccumulatesNext(values, v, n, mean, next);
        varsum := Truncate(varsum as real + Mul(delta, value - next));
        v := v + [varsum];
        mean := next;
        n := n + 1;
      }
      hide MeanOf, Deviations, Mul, Ratio, Exact, Accumulates;
      AccumulatesBelow(values, v, n, n);
      if n < 2 {
        variance := 0.0;
      } else {
        variance := Ratio(varsum, n - 1);
        RatioTimes(varsum, n - 1);
      }
    }
  }
}
