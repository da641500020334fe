/** The weighted Jain index (benchmarks/simulator/metrics.py) over exact rationals. */
module WeightedJain {
  import opened Basics
  import opened Wrappers
  import opened Workload
  import opened ResourceTime

  datatype JainError = NoTenants | TenantsDiffer | WeightNotPositive | AllZero

  function Sum(x: seq<real>): real {
    if x == [] then 0.0 else Sum(x[..|x| - 1]) + x[|x| - 1]
  }

  function SumSquares(x: seq<real>): real {
    if x == [] then 0.0 else SumSquares(x[..|x| - 1]) + Square(x[|x| - 1])
  }

  /** Resource time per unit of weight. */
  function PerWeight(time: real, weight: int): real
    requires weight > 0
  {
    time / weight as real
  }

  function Normalized(ids: seq<TenantId>, time: map<TenantId, real>, weights: map<TenantId, int>): seq<real>
    requires forall t :: t in ids ==> t in time && t in weights && weights[t] > 0
  {
    if ids == [] then []
    else
      var t := ids[|ids| - 1];
      Normalized(ids[..|ids| - 1], time, weights) + [PerWeight(time[t], weights[t])]
  }

  function Jain(x: seq<real>): real
    requires |x| as real * SumSquares(x) != 0.0
  {
    Square(Sum(x)) / (|x| as real * SumSquares(x))
  }

  /** weighted_jain, its four errors in the order they are raised. */
  function Assess(time: map<TenantId, real>, weights: map<TenantId, int>): Result<real, JainError> {
    if time.Keys == {} then Err(NoTenants)
    else if time.Keys != weights.Keys then Err(TenantsDiffer)
    else if exists t :: t in weights && weights[t] <= 0 then Err(WeightNotPositive)
    else
      SortedIs(time.Keys);
      var x := Normalized(Sorted(time.Keys), time, weights);
      if |x| as real * SumSquares(x) == 0.0 then Err(AllZero) else Ok(Jain(x))
  }

  // ---- Cauchy-Schwarz, with its equality case --------------------------------------------------

  /** How far a sequence is from a value. */
  function Spread(x: seq<real>, y: real): real {
    if x == [] then 0.0 else Spread(x[..|x| - 1], y) + Square(x[|x| - 1] - y)
  }

  ghost predicate AllEqual(x: seq<real>) {
    forall i, j :: 0 <= i < |x| && 0 <= j < |x| ==> x[i] == x[j]
  }

  /** n * sum of squares - square of the sum. */
  function Gap(x: seq<real>): real {
    Times(|x| as real, SumSquares(x)) - Square(Sum(x))
  }

  lemma ProductPositive(a: real, b: real)
    requires a > 0.0 && b > 0.0
    ensures a * b > 0.0
  {
  }

  function Times(a: real, b: real): real {
    a * b
  }

  function Square(d: real): real {
    Times(d, d)
  }

  lemma TimesSign(a: real, b: real)
    requires (a > 0.0 && b > 0.0) || (a < 0.0 && b < 0.0)
    ensures Times(a, b) > 0.0
  {
  }

  lemma SquareSign(d: real)
    ensures Square(d) >= 0.0
    ensures Square(d) == 0.0 <==> d == 0.0
  {
    if d == 0.0 {
      assert Times(0.0, 0.0) == 0.0;
    } else {
      hide Times;
      TimesSign(d, d);
    }
  }

  lemma ExpandStep(z: real, y: real, s: real, s': real, q: real, q': real, m: real, m': real)
    requires s' == s + z && q' == q + Square(z) && m' == m + 1.0
    ensures q - 2.0 * Times(y, s) + Times(m, Square(y)) + Square(z - y)
            == q' - 2.0 * Times(y, s') + Times(m', Square(y))
  {
    assert Times(y, s') == Times(y, s) + y * z;
    assert Times(m', Square(y)) == Times(m, Square(y)) + y * y;
    assert Square(z - y) == z * z - 2.0 * (y * z) + y * y;
  }

  lemma {:induction false} SpreadExpands(x: seq<real>, y: real)
    ensures Spread(x, y) == SumSquares(x) - 2.0 * Times(y, Sum(x)) + Times(|x| as real, Square(y))
  {
    if x != [] {
      hide Square;
      hide Times;
      var n := |x| - 1;
      SpreadExpands(x[..n], y);
      ExpandStep(x[n], y, Sum(x[..n]), Sum(x), SumSquares(x[..n]), SumSquares(x), n as real, |x| as real);
    }
  }

  lemma {:induction false} SpreadIsDistance(x: seq<real>, y: real)
    ensures Spread(x, y) >= 0.0
    ensures Spread(x, y) == 0.0 <==> forall i :: 0 <= i < |x| ==> x[i] == y
  {
    if x != [] {
      hide Square;
      SpreadIsDistance(x[..|x| - 1], y);
      SquareSign(x[|x| - 1] - y);
    }
  }

  lemma GapArithmetic(y: real, s: real, s': real, q: real, q': real, m: real, m': real)
    requires s' == s + y && q' == q + Square(y) && m' == m + 1.0
    ensures Times(m', q') - Square(s') == Times(m, q) - Square(s) + (q - 2.0 * Times(y, s) + Times(m, Square(y)))
  {
    assert Times(m', q') == Times(m, q) + Times(m, Square(y)) + q + y * y;
    assert Square(s') == s * s + 2.0 * (y * s) + y * y;
  }

  lemma GapStep(x: seq<real>)
    requires x != []
    ensures Gap(x) == Gap(x[..|x| - 1]) + Spread(x[..|x| - 1], x[|x| - 1])
  {
    hide Square;
    hide Times;
    var n := |x| - 1;
    SpreadExpands(x[..n], x[n]);
    GapArithmetic(x[n], Sum(x[..n]), Sum(x), SumSquares(x[..n]), SumSquares(x), n as real, |x| as real);
  }

  lemma {:induction false} GapIsDistance(x: seq<real>)
    ensures Gap(x) >= 0.0
    ensures Gap(x) == 0.0 <==> AllEqual(x)
  {
    if x == [] {
      assert Gap(x) == 0.0 - Square(0.0);
    } else {
      hide Gap;
      hide Spread;
      var n := |x| - 1;
      GapStep(x);
      GapIsDistance(x[..n]);
      SpreadIsDistance(x[..n], x[n]);
      assert AllEqual(x) <==> AllEqual(x[..n]) && forall i :: 0 <= i < n ==> x[..n][i] == x[n];
    }
  }

  ghost predicate NonNegative(x: seq<real>) {
    forall i :: 0 <= i < |x| ==> x[i] >= 0.0
  }

  /** For non-negative numbers the square of the sum is at least the sum of squares. */
  lemma DominateStep(s: real, y: real, q: real)
    requires s >= 0.0 && y >= 0.0 && Square(s) >= q
    ensures Square(s + y) >= q + Square(y)
  {
    assert Square(s + y) == Square(s) + 2.0 * (s * y) + Square(y);
    assert s * y >= 0.0;
  }

  lemma {:induction false} SumDominates(x: seq<real>)
    requires NonNegative(x)
    ensures Sum(x) >= 0.0 && Square(Sum(x)) >= SumSquares(x) >= 0.0
  {
    if x == [] {
      SquareSign(0.0);
    } else {
      hide Square;
      var n := |x| - 1;
      SumDominates(x[..n]);
      DominateStep(Sum(x[..n]), x[n], SumSquares(x[..n]));
      SquareSign(x[n]);
    }
  }

  // ---- the index -----------------------------------------------------------------------------

  lemma RatioBounds(a: real, q: real, n: real)
    requires n >= 1.0 && q > 0.0 && q <= a <= n * q
    ensures n * q > 0.0 && 1.0 / n <= a / (n * q) <= 1.0
    ensures a / (n * q) == 1.0 <==> a == n * q
  {
    var d := n * q;
    assert d >= q by {
      assert (n - 1.0) * q >= 0.0;
    }
    var j, r := a / d, 1.0 / n;
    assert j * d == a && r * n == 1.0;
    assert r * d == q by {
      assert r * (n * q) == r * n * q;
    }
    Cancel(r, j, d);
    Cancel(j, 1.0, d);
  }

  /** For any n tenants with non-negative normalized times, not all zero, the index lies
      between 1/n and 1, and is 1 exactly when all are equal. */
  lemma JainRange(x: seq<real>)
    requires x != [] && NonNegative(x) && SumSquares(x) > 0.0
    ensures |x| as real * SumSquares(x) != 0.0
    ensures 1.0 / |x| as real <= Jain(x) <= 1.0
    ensures Jain(x) == 1.0 <==> AllEqual(x)
  {
    hide Sum;
    hide SumSquares;
    hide AllEqual;
    hide NonNegative;
    var a, q, n := Square(Sum(x)), SumSquares(x), |x| as real;
    GapIsDistance(x);
    SumDominates(x);
    assert Times(n, q) == n * q;
    assert Gap(x) == n * q - a;
    RatioBounds(a, q, n);
    assert Jain(x) == a / (n * q);
  }

  function Scale(x: seq<real>, k: real): seq<real> {
    if x == [] then [] else Scale(x[..|x| - 1], k) + [Times(k, x[|x| - 1])]
  }

  lemma ScaleStep(k: real, s: real, s': real, q: real, q': real, y: real)
    requires s' == s + y && q' == q + Square(y)
    ensures Times(k, s) + Times(k, y) == Times(k, s')
    ensures Times(Square(k), q) + Square(Times(k, y)) == Times(Square(k), q')
  {
    assert k * y * (k * y) == k * k * (y * y);
    assert k * k * q' == k * k * q + k * k * (y * y);
  }

  lemma {:induction false} ScaleSums(x: seq<real>, k: real)
    ensures |Scale(x, k)| == |x|
    ensures Sum(Scale(x, k)) == Times(k, Sum(x))
    ensures SumSquares(Scale(x, k)) == Times(Square(k), SumSquares(x))
  {
    if x == [] {
      assert Times(k, 0.0) == 0.0 == Times(Square(k), 0.0);
    } else {
      hide Square;
      hide Times;
      var n := |x| - 1;
      ScaleSums(x[..n], k);
      assert Scale(x, k)[..n] == Scale(x[..n], k);
      ScaleStep(k, Sum(x[..n]), Sum(x), SumSquares(x[..n]), SumSquares(x), x[n]);
    }
  }

  lemma SameRatio(a: real, b: real, c: real)
    requires b > 0.0 && c > 0.0
    ensures c * b > 0.0 && c * a / (c * b) == a / b
  {
    var r := a / b;
    assert r * b == a;
    assert r * (c * b) == c * (r * b);
  }

  lemma RatioScales(s: real, q: real, n: real, k: real)
    requires q > 0.0 && n > 0.0 && k > 0.0
    ensures n * q > 0.0 && n * Times(Square(k), q) > 0.0
    ensures Square(Times(k, s)) / (n * Times(Square(k), q)) == Square(s) / (n * q)
  {
    ProductPositive(n, q);
    SquareSign(k);
    SameRatio(Square(s), n * q, Square(k));
    Regroup(s, q, n, k);
  }

  lemma Regroup(s: real, q: real, n: real, k: real)
    ensures n * Times(Square(k), q) == Square(k) * (n * q)
    ensures Square(Times(k, s)) == Square(k) * Square(s)
  {
    assert k * s * (k * s) == k * k * (s * s);
  }

  /** Scaling every time by one positive factor changes nothing. */
  lemma JainScale(x: seq<real>, k: real)
    requires x != [] && k > 0.0 && SumSquares(x) > 0.0
    ensures |x| as real * SumSquares(x) != 0.0 && |Scale(x, k)| as real * SumSquares(Scale(x, k)) != 0.0
    ensures Jain(Scale(x, k)) == Jain(x)
  {
    hide Square;
    hide Times;
    hide Sum;
    hide SumSquares;
    ScaleSums(x, k);
    RatioScales(Sum(x), SumSquares(x), |x| as real, k);
  }

  // ---- the map version ---------------------------------------------------------------------------

  lemma {:induction false} NormalizedAt(ids: seq<TenantId>, time: map<TenantId, real>, weights: map<TenantId, int>)
    requires forall t :: t in ids ==> t in time && t in weights && weights[t] > 0
    ensures |Normalized(ids, time, weights)| == |ids|
    ensures forall i :: 0 <= i < |ids| ==> Normalized(ids, time, weights)[i] == PerWeight(time[ids[i]], weights[ids[i]])
  {
    if ids != [] {
      var n := |ids| - 1;
      assert ids == ids[..n] + [ids[n]];
      NormalizedAt(ids[..n], time, weights);
    }
  }

  lemma {:induction false} SquaresPositive(x: seq<real>)
    ensures SumSquares(x) >= 0.0
    ensures SumSquares(x) == 0.0 <==> forall i :: 0 <= i < |x| ==> x[i] == 0.0
  {
    if x != [] {
      hide Square;
      SquaresPositive(x[..|x| - 1]);
      SquareSign(x[|x| - 1]);
    }
  }

  lemma QuotientZero(a: real, w: int)
    requires w > 0 && a >= 0.0
    ensures PerWeight(a, w) >= 0.0 && (PerWeight(a, w) == 0.0 <==> a == 0.0)
  {
    assert PerWeight(a, w) * w as real == a;
  }

  ghost predicate Defined(time: map<TenantId, real>, weights: map<TenantId, int>) {
    time.Keys != {} && time.Keys == weights.Keys && forall t :: t in weights ==> weights[t] > 0
  }

  ghost predicate EqualPerWeight(time: map<TenantId, real>, weights: map<TenantId, int>)
    requires Defined(time, weights)
  {
    forall t, u :: t in time && u in time ==> PerWeight(time[t], weights[t]) == PerWeight(time[u], weights[u])
  }

  ghost predicate SomeTime(time: map<TenantId, real>) {
    exists t :: t in time && time[t] != 0.0
  }

  /** The normalized values are the tenants' times per weight, in order. */
  lemma NormalizedFacts(time: map<TenantId, real>, weights: map<TenantId, int>)
    returns (ids: seq<TenantId>, x: seq<real>)
    requires Defined(time, weights) && forall t :: t in time ==> time[t] >= 0.0
    ensures ids == Sorted(time.Keys) && (forall t :: t in ids <==> t in time) && |ids| == |time| == |x| > 0
    ensures x == Normalized(ids, time, weights) && NonNegative(x)
    ensures SumSquares(x) >= 0.0 && (SumSquares(x) > 0.0 <==> SomeTime(time))
    ensures AllEqual(x) <==> EqualPerWeight(time, weights)
  {
    hide PerWeight;
    hide SumSquares;
    SortedIs(time.Keys);
    SortedSize(time.Keys);
    assert |time| == |time.Keys|;
    ids := Sorted(time.Keys);
    x := Normalized(ids, time, weights);
    NormalizedAt(ids, time, weights);
    forall i | 0 <= i < |x| ensures x[i] >= 0.0 && (x[i] == 0.0 <==> time[ids[i]] == 0.0) {
      assert ids[i] in ids;
      QuotientZero(time[ids[i]], weights[ids[i]]);
    }
    SquaresPositive(x);
    if SomeTime(time) {
      var t :| t in time && time[t] != 0.0;
      assert t in ids;
      var i :| 0 <= i < |ids| && ids[i] == t;
      assert x[i] != 0.0;
    }
    EqualEverywhere(time, weights, ids, x);
  }

  lemma EqualEverywhere(time: map<TenantId, real>, weights: map<TenantId, int>, ids: seq<TenantId>, x: seq<real>)
    requires Defined(time, weights) && |x| == |ids| && forall t :: t in ids <==> t in time
    requires forall i :: 0 <= i < |ids| ==>
               ids[i] in weights && weights[ids[i]] > 0 && ids[i] in time
                 && x[i] == PerWeight(time[ids[i]], weights[ids[i]])
    ensures AllEqual(x) <==> EqualPerWeight(time, weights)
  {
    hide PerWeight;
    if AllEqual(x) {
      forall t, u | t in time && u in time ensures PerWeight(time[t], weights[t]) == PerWeight(time[u], weights[u]) {
        assert t in ids && u in ids;
        var i :| 0 <= i < |ids| && ids[i] == t;
        var j :| 0 <= j < |ids| && ids[j] == u;
        assert x[i] == x[j];
      }
    } else {
      var i, j :| 0 <= i < |x| && 0 <= j < |x| && x[i] != x[j];
      var t, u := ids[i], ids[j];
      assert t in ids && u in ids;
      assert t in time && u in time && PerWeight(time[t], weights[t]) != PerWeight(time[u], weights[u]);
      assert !EqualPerWeight(time, weights);
    }
  }

  lemma ProductZero(n: real, q: real)
    requires n > 0.0 && q >= 0.0
    ensures n * q == 0.0 <==> q == 0.0
  {
    if q > 0.0 {
      assert n * q > 0.0;
    }
  }

  lemma AssessIs(time: map<TenantId, real>, weights: map<TenantId, int>, x: seq<real>)
    requires Defined(time, weights)
    requires (forall t :: t in Sorted(time.Keys) ==> t in time) && x == Normalized(Sorted(time.Keys), time, weights)
    requires x != [] && SumSquares(x) >= 0.0
    ensures SumSquares(x) == 0.0 ==> Assess(time, weights) == Err(AllZero)
    ensures SumSquares(x) > 0.0 ==> |x| as real * SumSquares(x) != 0.0 && Assess(time, weights) == Ok(Jain(x))
  {
    hide SumSquares;
    hide Jain;
    hide Normalized;
    hide Sorted;
    ProductZero(|x| as real, SumSquares(x));
  }

  /** When the index is defined: at least one tenant, matching keys, positive weights and some
      non-zero time. Then it lies in [1/n, 1] and is 1 exactly for equal time per weight. */
  lemma AssessRange(time: map<TenantId, real>, weights: map<TenantId, int>)
    requires forall t :: t in time ==> time[t] >= 0.0
    ensures Assess(time, weights).Ok? <==> Defined(time, weights) && SomeTime(time)
    ensures Assess(time, weights).Ok? ==>
            && |time| > 0 && 1.0 / |time| as real <= Assess(time, weights).value <= 1.0
            && (Assess(time, weights).value == 1.0 <==> EqualPerWeight(time, weights))
  {
    hide SomeTime;
    if Defined(time, weights) {
      hide *;
      var ids, x := NormalizedFacts(time, weights);
      AssessIs(time, weights, x);
      if SumSquares(x) > 0.0 {
        JainRange(x);
      }
    }
  }

  function ScaleTimes(time: map<TenantId, real>, k: real): map<TenantId, real> {
    map t | t in time :: Times(k, time[t])
  }

  lemma PerWeightScales(k: real, time: real, weight: int)
    requires weight > 0
    ensures PerWeight(Times(k, time), weight) == Times(k, PerWeight(time, weight))
  {
    var r := time / weight as real;
    assert r * weight as real == time;
    assert k * r * weight as real == k * time;
  }

  lemma {:induction false} NormalizedScales(ids: seq<TenantId>, time: map<TenantId, real>, weights: map<TenantId, int>,
                                            k: real)
    requires forall t :: t in ids ==> t in time && t in weights && weights[t] > 0
    ensures Normalized(ids, ScaleTimes(time, k), weights) == Scale(Normalized(ids, time, weights), k)
  {
    hide Times;
    hide PerWeight;
    if ids != [] {
      var n := |ids| - 1;
      var rest := Normalized(ids[..n], time, weights);
      var t := ids[n];
      assert t in ids;
      NormalizedScales(ids[..n], time, weights, k);
      PerWeightScales(k, time[t], weights[t]);
      assert (rest + [PerWeight(time[t], weights[t])])[..|rest|] == rest;
    }
  }

  /** Scaling every time by one positive factor leaves the verdict as it was, error or value. */
  lemma AssessScale(time: map<TenantId, real>, weights: map<TenantId, int>, k: real)
    requires k > 0.0
    ensures Assess(ScaleTimes(time, k), weights) == Assess(time, weights)
  {
    var time' := ScaleTimes(time, k);
    assert time'.Keys == time.Keys;
    if Defined(time, weights) {
      SortedIs(time.Keys);
      SortedSize(time.Keys);
      var ids := Sorted(time.Keys);
      var x := Normalized(ids, time, weights);
      hide *;
      NormalizedAt(ids, time, weights);
      NormalizedScales(ids, time, weights, k);
      SquaresPositive(x);
      ScaleSums(x, k);
      SquaresPositive(Scale(x, k));
      AssessIs(time, weights, x);
      AssessIs(time', weights, Scale(x, k));
      if SumSquares(x) > 0.0 {
        JainScale(x, k);
      } else {
        assert Times(Square(k), 0.0) == 0.0;
      }
    }
  }

  lemma {:induction false} SortedSize(s: set<int>)
    ensures |Sorted(s)| == |s|
  {
    if s != {} {
      var m := Sorted(s)[0];
      SortedSize(s - {m});
    }
  }
}
