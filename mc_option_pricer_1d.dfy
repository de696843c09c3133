/** The pricing path evaluator: folds the payoff of every path it is handed
    into a count, a sum, a sum of squares, a minimum and a maximum, and
    answers the price and the statistics of the payoffs. */
module MCOptionPricer1D {
  import opened Numerics
  import opened Errors
  import opened Options
  import opened VanillaOption
  import opened PathEval

  /** The payoff of each path of a batch, in path order. */
  function BatchPayoffs(o: Option, b: Batch): (pos: seq<real>)
    requires WellFormed(b)
    ensures |pos| == b.PM
  {
    seq(b.PM, p requires 0 <= p < b.PM => Payoff(o, b.L, PathOf(b, p), b.ts))
  }

  /** The payoffs of all paths of all batches, in the order they were
      handed over. */
  function Payoffs(o: Option, calls: seq<Batch>): (pos: seq<real>)
    requires forall i :: 0 <= i < |calls| ==> WellFormed(calls[i])
    // one payoff per path handed over
    ensures |pos| == PathsIn(calls)
  {
    if calls == [] then []
    else Payoffs(o, calls[..|calls| - 1]) + BatchPayoffs(o, calls[|calls| - 1])
  }

  /** Handing over one more batch appends its payoffs. */
  lemma PayoffsAppend(o: Option, calls: seq<Batch>, b: Batch)
    requires (forall i :: 0 <= i < |calls| ==> WellFormed(calls[i])) && WellFormed(b)
    ensures forall i :: 0 <= i < |calls + [b]| ==> WellFormed((calls + [b])[i])
    ensures Payoffs(o, calls + [b]) == Payoffs(o, calls) + BatchPayoffs(o, b)
  {
    assert (calls + [b])[..|calls|] == calls;
  }

  /** Every payoff folded in is non-negative. */
  lemma {:induction false} PayoffsNonNegative(o: Option, calls: seq<Batch>)
    requires forall i :: 0 <= i < |calls| ==> WellFormed(calls[i])
    ensures forall k :: 0 <= k < |Payoffs(o, calls)| ==> Payoffs(o, calls)[k] >= 0.0
  {
    if calls != [] {
      var init := calls[..|calls| - 1];
      PayoffsNonNegative(o, init);
      var xs, ys := Payoffs(o, init), BatchPayoffs(o, calls[|calls| - 1]);
      assert Payoffs(o, calls) == xs + ys;
      forall k | 0 <= k < |xs + ys| ensures (xs + ys)[k] >= 0.0 {
        if k >= |xs| {
          assert (xs + ys)[k] == ys[k - |xs|];
        }
      }
    }
  }

  /** `OPPathEval`. */
  class OPPathEval {
    const option: Option
    var P: int
    var sum: real
    var sum2: real
    var minPO: XReal
    var maxPO: XReal
    /** Every batch handed over so far. */
    ghost var calls: seq<Batch>

    /** The running figures are those of the payoffs of all paths handed
        over. */
    ghost predicate Valid()
      reads this
    {
      (forall i :: 0 <= i < |calls| ==> WellFormed(calls[i])) &&
      Summarises(Payoffs(option, calls), P, sum, sum2, minPO, maxPO)
    }

    constructor (option: Option)
      ensures Valid() && this.option == option && calls == []
      ensures P == 0 && sum == 0.0 && sum2 == 0.0 && minPO == PosInf && maxPO == NegInf
    {
      this.option := option;
      P, sum, sum2 := 0, 0.0, 0.0;
      minPO, maxPO := PosInf, NegInf;
      calls := [];
    }

    /** `operator()`: folds the payoff of each of the `PM` paths of length
        `L` stored back to back in `paths`, and counts them. */
    method Consume(L: int, PM: int, paths: array<real>, ts: array<real>)
      requires Valid() && L >= 1 && PM >= 0 && 0 <= PM * L <= paths.Length && L <= ts.Length
      modifies this
      ensures Valid()
      ensures calls == old(calls) + [Batch(L, PM, paths[..PM * L], ts[..L])]
      ensures P == old(P) + PM
    {
      ghost var b := Batch(L, PM, paths[..PM * L], ts[..L]);
      var s, s2, mn, mx := FoldBatch(option, L, PM, paths, ts, Payoffs(option, calls),
                                     sum, sum2, minPO, maxPO);
      PayoffsAppend(option, calls, b);
      Commit(PM, s, s2, mn, mx, b);
    }

    /** The end of `operator()`: stores the new running figures and counts
        the batch's paths. */
    method Commit(PM: int, sum: real, sum2: real, mn: XReal, mx: XReal, ghost b: Batch)
      requires forall i :: 0 <= i < |calls + [b]| ==> WellFormed((calls + [b])[i])
      requires Summarises(Payoffs(option, calls + [b]), P + PM, sum, sum2, mn, mx)
      modifies this
      ensures Valid() && calls == old(calls) + [b] && P == old(P) + PM
    {
      P, this.sum, this.sum2, minPO, maxPO := P + PM, sum, sum2, mn, mx;
      calls := calls + [b];
    }

    /** The loop of `operator()`: the payoff of each path of the batch
        folded, in order, into the running figures of the values `before`. */
    static method FoldBatch(o: Option, L: int, PM: int, paths: array<real>, ts: array<real>,
                            ghost before: seq<real>, sum0: real, sum20: real, min0: XReal, max0: XReal)
      returns (sum: real, sum2: real, mn: XReal, mx: XReal)
      requires L >= 1 && PM >= 0 && 0 <= PM * L <= paths.Length && L <= ts.Length
      requires Summarises(before, |before|, sum0, sum20, min0, max0)
      ensures Summarises(before + BatchPayoffs(o, Batch(L, PM, paths[..PM * L], ts[..L])),
                         |before| + PM, sum, sum2, mn, mx)
    {
      ghost var b := Batch(L, PM, paths[..PM * L], ts[..L]);
      ghost var batch := BatchPayoffs(o, b);
      sum, sum2, mn, mx := sum0, sum20, min0, max0;
      var p := 0;
      assert before + batch[..0] == before;
      while p < PM
        invariant 0 <= p <= PM
        invariant Summarises(before + batch[..p], |before| + p, sum, sum2, mn, mx)
      {
        sum, sum2, mn, mx := FoldPath(o, L, PM, paths, ts, before, p, sum, sum2, mn, mx);
        p := p + 1;
      }
      assert batch[..PM] == batch;
    }

    /** The payoff of path `p` of the batch folded into the running
        figures. */
    static method FoldPath(o: Option, L: int, PM: int, paths: array<real>, ts: array<real>,
                           ghost before: seq<real>, p: int,
                           sum0: real, sum20: real, min0: XReal, max0: XReal)
      returns (sum: real, sum2: real, mn: XReal, mx: XReal)
      requires L >= 1 && 0 <= p < PM && PM * L <= paths.Length && L <= ts.Length
      requires Summarises(before + BatchPayoffs(o, Batch(L, PM, paths[..PM * L], ts[..L]))[..p],
                          |before| + p, sum0, sum20, min0, max0)
      ensures Summarises(before + BatchPayoffs(o, Batch(L, PM, paths[..PM * L], ts[..L]))[..p + 1],
                         |before| + p + 1, sum, sum2, mn, mx)
    {
      ghost var batch := BatchPayoffs(o, Batch(L, PM, paths[..PM * L], ts[..L]));
      var payOff := BatchPathPayoff(o, L, PM, paths, ts, p);
      SummarisesNext(before, batch, p, |before| + p, sum0, sum20, min0, max0);
      sum := sum0 + payOff;
      sum2 := sum20 + Sq(payOff);
      mn := XMin(min0, payOff);
      mx := XMax(max0, payOff);
    }

    /** The payoff of path `p` of the batch, read from its cells. */
    static method BatchPathPayoff(o: Option, L: int, PM: int, paths: array<real>, ts: array<real>,
                                  p: int) returns (payOff: real)
      requires L >= 1 && 0 <= p < PM && PM * L <= paths.Length && L <= ts.Length
      ensures payOff == BatchPayoffs(o, Batch(L, PM, paths[..PM * L], ts[..L]))[p]
    {
      ghost var b := Batch(L, PM, paths[..PM * L], ts[..L]);
      PathSlot(p, PM, L);
      var path := paths[p * L .. p * L + L];
      assert path == PathOf(b, p);
      payOff := Payoff(o, L, path, ts[..L]);
    }

    /** `GetPx`: the mean payoff, or a runtime_error with fewer than two
        paths. The mean lies between the smallest and largest payoff. */
    function GetPx(): (r: Result<real>)
      reads this
      requires Valid()
      ensures r.Err? <==> P < 2
      ensures r.Err? ==> r.error == RuntimeError("empty OPPathEval")
      ensures r.Ok? ==> r.value == Mean(Payoffs(option, calls))
      ensures r.Ok? ==> minPO.Fin? && maxPO.Fin? && minPO.v <= r.value <= maxPO.v
      ensures r.Ok? ==> r.value >= 0.0
    {
      if P < 2 then Err(RuntimeError("empty OPPathEval"))
      else
        MeanWithinRange(Payoffs(option, calls));
        PayoffsNonNegative(option, calls);
        MinMaxBound(Payoffs(option, calls));
        Ok(MeanOf(P, sum))
    }

    /** `GetStats`: the standard deviation, minimum and maximum of the
        payoffs, or a runtime_error with fewer than two paths. The variance
        whose root is taken is the sample variance, never negative. */
    function GetStats(sqrt: real -> real): (r: Result<(real, real, real)>)
      reads this
      requires Valid() && SqrtOk(sqrt)
      ensures r.Err? <==> P < 2
      ensures r.Err? ==> r.error == RuntimeError("empty OPPathEval")
      ensures r.Ok? ==> r.value.0 == sqrt(Variance(Payoffs(option, calls))) && r.value.0 >= 0.0
      ensures r.Ok? ==> minPO == Fin(r.value.1) && maxPO == Fin(r.value.2)
      ensures r.Ok? ==> forall k :: 0 <= k < P ==>
                          r.value.1 <= Payoffs(option, calls)[k] <= r.value.2
      ensures r.Ok? ==> (exists k :: 0 <= k < P && Payoffs(option, calls)[k] == r.value.1) &&
                        (exists k :: 0 <= k < P && Payoffs(option, calls)[k] == r.value.2)
    {
      if P < 2 then Err(RuntimeError("empty OPPathEval"))
      else
        var xs := Payoffs(option, calls);
        var variance := VarianceOf(P, sum, sum2);
        VarianceIsSampleVariance(xs);
        assert variance == Variance(xs);
        MinMaxBound(xs);
        Ok((sqrt(variance), minPO.v, maxPO.v))
    }
  }
}
