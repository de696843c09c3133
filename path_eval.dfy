/** The protocol between the Monte Carlo engine and its path evaluators, and
    the running statistics both evaluators keep: count, sum, sum of squares,
    minimum and maximum of one value per path. */
module PathEval {
  import opened Numerics

  /** What an evaluator is handed on one call: the path length `L`, the
      number of paths `PM`, the first `PM*L` cells of the path buffer (path
      `p` in cells `[p*L, (p+1)*L)`) and the first `L` timestamps. */
  datatype Batch = Batch(L: int, PM: int, paths: seq<real>, ts: seq<real>)

  ghost predicate WellFormed(b: Batch) {
    b.L >= 1 && b.PM >= 0 && |b.paths| == b.PM * b.L && |b.ts| == b.L
  }

  /** Path `p` of a batch. */
  function PathOf(b: Batch, p: int): (path: seq<real>)
    requires WellFormed(b) && 0 <= p < b.PM
    ensures |path| == b.L
  {
    PathSlot(p, b.PM, b.L);
    b.paths[p * b.L .. p * b.L + b.L]
  }

  /** Path `p` of `PM` paths of length `L` lies inside the `PM*L` cells. */
  lemma PathSlot(p: int, PM: int, L: int)
    requires 0 <= p < PM && L >= 1
    ensures 0 <= p * L && p * L + L <= PM * L
  {
    MulMonotone(p + 1, PM, L);
    MulMonotone(0, p, L);
  }

  /** The number of paths handed over in a sequence of batches. */
  function PathsIn(calls: seq<Batch>): int {
    if calls == [] then 0 else PathsIn(calls[..|calls| - 1]) + calls[|calls| - 1].PM
  }

  function Sum(xs: seq<real>): real {
    if xs == [] then 0.0 else Sum(xs[..|xs| - 1]) + xs[|xs| - 1]
  }

  function SumSq(xs: seq<real>): real {
    if xs == [] then 0.0 else SumSq(xs[..|xs| - 1]) + Sq(xs[|xs| - 1])
  }

  /** The running minimum, starting from +INFINITY. */
  function MinOf(xs: seq<real>): XReal {
    if xs == [] then PosInf else XMin(MinOf(xs[..|xs| - 1]), xs[|xs| - 1])
  }

  /** The running maximum, starting from -INFINITY. */
  function MaxOf(xs: seq<real>): XReal {
    if xs == [] then NegInf else XMax(MaxOf(xs[..|xs| - 1]), xs[|xs| - 1])
  }

  /** Folding one more value into the running figures. */
  lemma FoldStep(xs: seq<real>, x: real)
    ensures Sum(xs + [x]) == Sum(xs) + x && SumSq(xs + [x]) == SumSq(xs) + Sq(x)
    ensures MinOf(xs + [x]) == XMin(MinOf(xs), x) && MaxOf(xs + [x]) == XMax(MaxOf(xs), x)
  {
    assert (xs + [x])[..|xs|] == xs;
  }

  /** The running figures of an evaluator are the count, sum, sum of
      squares, minimum and maximum of the values `xs`. */
  ghost predicate Summarises(xs: seq<real>, n: int, sum: real, sum2: real, mn: XReal, mx: XReal) {
    n == |xs| && sum == Sum(xs) && sum2 == SumSq(xs) && mn == MinOf(xs) && mx == MaxOf(xs)
  }

  /** Folding the next value of `ys` into the running figures of `before`
      and the first `p` values of `ys`. */
  lemma SummarisesNext(before: seq<real>, ys: seq<real>, p: int, n: int, sum: real, sum2: real,
                       mn: XReal, mx: XReal)
    requires 0 <= p < |ys| && Summarises(before + ys[..p], n, sum, sum2, mn, mx)
    ensures Summarises(before + ys[..p + 1], n + 1, sum + ys[p], sum2 + Sq(ys[p]),
                       XMin(mn, ys[p]), XMax(mx, ys[p]))
  {
    var xs, x := before + ys[..p], ys[p];
    assert before + ys[..p + 1] == xs + [x];
    FoldStep(xs, x);
  }

  /** The mean as the evaluators compute it from the count and the running
      sum, `sum / P`. */
  function MeanOf(n: int, sum: real): (m: real)
    requires n >= 1
    ensures m * n as real == sum
  {
    sum / n as real
  }

  /** The variance as the evaluators compute it from the count and the
      running sums, `(sum2 - P * mean * mean) / (P - 1)`. */
  function VarianceOf(n: int, sum: real, sum2: real): (v: real)
    requires n >= 2
    // the squared deviation about the mean, recovered from the running
    // sums, over `P - 1`
    ensures v == Expanded(sum2, sum, n as real, MeanOf(n, sum)) / (n - 1) as real
  {
    var m := MeanOf(n, sum);
    CentredExpansion(sum2, sum, n as real, m);
    (sum2 - n as real * m * m) / (n - 1) as real
  }

  /** The mean of the values folded in. */
  function Mean(xs: seq<real>): real
    requires |xs| >= 1
  {
    MeanOf(|xs|, Sum(xs))
  }

  /** The one-pass variance of the values folded in. */
  function Variance(xs: seq<real>): real
    requires |xs| >= 2
  {
    VarianceOf(|xs|, Sum(xs), SumSq(xs))
  }

  /** The running minimum and maximum bound every value folded in, and are
      values that were folded in once there is at least one. */
  lemma {:induction false} MinMaxBound(xs: seq<real>)
    ensures forall i :: 0 <= i < |xs| ==> XLe(MinOf(xs), Fin(xs[i])) && XLe(Fin(xs[i]), MaxOf(xs))
    ensures xs != [] ==> MinOf(xs).Fin? && MaxOf(xs).Fin?
    ensures xs != [] ==> (exists i :: 0 <= i < |xs| && MinOf(xs) == Fin(xs[i]))
    ensures xs != [] ==> (exists j :: 0 <= j < |xs| && MaxOf(xs) == Fin(xs[j]))
  {
    if xs != [] {
      var init := xs[..|xs| - 1];
      MinMaxBound(init);
      var last := |xs| - 1;
      forall i | 0 <= i < |xs|
        ensures XLe(MinOf(xs), Fin(xs[i])) && XLe(Fin(xs[i]), MaxOf(xs))
      {
        if i < last {
          assert xs[i] == init[i];
        }
      }
      if MinOf(xs) != Fin(xs[last]) {
        assert MinOf(xs) == MinOf(init) && init != [];
        var i :| 0 <= i < |init| && MinOf(init) == Fin(init[i]);
        assert MinOf(xs) == Fin(xs[i]);
      }
      if MaxOf(xs) != Fin(xs[last]) {
        assert MaxOf(xs) == MaxOf(init) && init != [];
        var j :| 0 <= j < |init| && MaxOf(init) == Fin(init[j]);
        assert MaxOf(xs) == Fin(xs[j]);
      }
    }
  }

  /** Sum over the values of their squared distance to `c`: the textbook
      definition the running sums are checked against. */
  function SqDev(xs: seq<real>, c: real): real {
    if xs == [] then 0.0 else SqDev(xs[..|xs| - 1], c) + Sq(xs[|xs| - 1] - c)
  }

  function Sq(y: real): (r: real)
    ensures r >= 0.0
  {
    if y >= 0.0 then MulMonotoneReal(0.0, y, y); y * y
    else MulMonotoneReal(0.0, -y, -y); y * y
  }

  /** `sum2 - 2 c sum + P c^2` from the running sums. */
  function Expanded(sum2: real, sum: real, n: real, c: real): real {
    sum2 - 2.0 * c * sum + n * c * c
  }

  /** The squared deviation from any centre can be recovered from the running
      sums, and it is never negative. */
  lemma {:induction false} SqDevExpand(xs: seq<real>, c: real)
    ensures SqDev(xs, c) == Expanded(SumSq(xs), Sum(xs), |xs| as real, c)
    ensures SqDev(xs, c) >= 0.0
  {
    if xs != [] {
      var init, x := xs[..|xs| - 1], xs[|xs| - 1];
      SqDevExpand(init, c);
      SqDevStep(SqDev(xs, c), SumSq(xs), Sum(xs), |xs| as real,
                SqDev(init, c), SumSq(init), Sum(init), |init| as real, x, c);
    }
  }

  lemma SqDevStep(d': real, sum2': real, sum': real, n': real,
                  d: real, sum2: real, sum: real, n: real, x: real, c: real)
    requires d' == d + Sq(x - c) && sum2' == sum2 + Sq(x) && sum' == sum + x && n' == n + 1.0
    requires d == Expanded(sum2, sum, n, c) && d >= 0.0
    ensures d' == Expanded(sum2', sum', n', c) && d' >= 0.0
  {
    assert Sq(x - c) == Sq(x) - 2.0 * c * x + c * c;
    assert Sq(x - c) >= 0.0;
    assert 2.0 * c * sum' == 2.0 * c * sum + 2.0 * c * x;
    assert n' * c * c == n * c * c + c * c;
    assert Expanded(sum2', sum', n', c) == Expanded(sum2, sum, n, c) + Sq(x) - 2.0 * c * x + c * c;
  }

  /** The one-pass formula the evaluators use equals the two-pass sample
      variance `sum (x - mean)^2 / (P - 1)`, hence it is never negative. */
  lemma VarianceIsSampleVariance(xs: seq<real>)
    requires |xs| >= 2
    ensures Variance(xs) == SqDev(xs, Mean(xs)) / (|xs| - 1) as real
    ensures Variance(xs) >= 0.0
  {
    var m := Mean(xs);
    SqDevExpand(xs, m);
    CentredVariance(|xs|, Sum(xs), SumSq(xs), SqDev(xs, m));
  }

  lemma CentredVariance(n: int, sum: real, sum2: real, d: real)
    requires n >= 2 && d == Expanded(sum2, sum, n as real, MeanOf(n, sum)) && d >= 0.0
    ensures VarianceOf(n, sum, sum2) == d / (n - 1) as real && VarianceOf(n, sum, sum2) >= 0.0
  {
    CentredExpansion(sum2, sum, n as real, MeanOf(n, sum));
  }

  lemma CentredExpansion(sum2: real, sum: real, n: real, m: real)
    requires n > 0.0 && m == sum / n
    ensures Expanded(sum2, sum, n, m) == sum2 - n * m * m
  {
    assert n * m == sum;
    assert 2.0 * m * sum == 2.0 * m * (n * m);
  }

  /** Values between `lo` and `hi` sum to between `n*lo` and `n*hi`. */
  lemma {:induction false} SumBounds(xs: seq<real>, lo: real, hi: real)
    requires forall i :: 0 <= i < |xs| ==> lo <= xs[i] <= hi
    ensures |xs| as real * lo <= Sum(xs) <= |xs| as real * hi
  {
    if xs != [] {
      var n := |xs|;
      var init := xs[..n - 1];
      assert forall i :: 0 <= i < |init| ==> init[i] == xs[i];
      SumBounds(init, lo, hi);
      assert n as real * lo == (n - 1) as real * lo + lo;
      assert n as real * hi == (n - 1) as real * hi + hi;
    }
  }

  /** The mean lies between the running minimum and maximum. */
  lemma MeanWithinRange(xs: seq<real>)
    requires |xs| >= 1
    ensures MinOf(xs).Fin? && MaxOf(xs).Fin?
    ensures MinOf(xs).v <= Mean(xs) <= MaxOf(xs).v
  {
    MinMaxBound(xs);
    var lo, hi, n := MinOf(xs).v, MaxOf(xs).v, |xs| as real;
    SumBounds(xs, lo, hi);
    DivBounds(Sum(xs), n, lo, hi);
  }

  lemma DivBounds(s: real, n: real, lo: real, hi: real)
    requires n > 0.0 && n * lo <= s <= n * hi
    ensures lo <= s / n <= hi
  {
    assert s / n * n == s;
    if s / n < lo {
      MulMonotoneReal(s / n, lo, n);
    }
    if s / n > hi {
      MulMonotoneReal(hi, s / n, n);
    }
  }
}
