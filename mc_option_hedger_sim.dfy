/** The hedging simulator: owns the process, the two constant-rate providers
    and a Monte Carlo engine, and measures the profit and loss of a delta
    hedging policy by running the hedging evaluator over real-world paths up
    to the option's expiry. */
module MCOptionHedgerSim {
  import opened Numerics
  import opened Errors
  import opened IRProvider
  import opened IRProviderConst
  import opened Options
  import opened Diffusion1D
  import opened PathEval
  import opened MCPaths
  import opened MCOptionHedger1D
  import opened MCEngine1D

  /** The engine the simulator allocates: 102 271 points (five-minute points
      in a year) by 4096 paths held in memory. */
  const MaxL: int := 102271
  const MaxP: int := 4096

  /** The market a hedging run simulates under: the real-world measure, the
      simulator's process and rate providers, the option's assets. */
  function RealWorld(diff: Diffusion, irpA: ConstRates, irpB: ConstRates, o: Option): (m: Market)
    ensures MarketOk(m) && !m.isRN
  {
    Market(diff, false, irpA, irpB, o.assetA, o.assetB)
  }

  /** The batches a hedging run hands to the evaluator. */
  ghost function HedgingBatches(m: Market, t0: int, T: int, tauMins: int, P: int,
                                sqrt: real -> real, zs: seq<real>): (bs: seq<Batch>)
    requires MarketOk(m) && SqrtOk(sqrt) && t0 < T && tauMins > 0 && P > 0
    requires MakePlan(t0, T, tauMins).L <= MaxL && DrawsSuffice(t0, T, tauMins, P, MaxL, MaxP, zs)
    ensures LogFits(bs)
    ensures |bs| * PathsPerBatch(MaxL, MaxP, MakePlan(t0, T, tauMins).L) >= 2 * P
    ensures forall i :: 0 <= i < |bs| ==> bs[i].PM == PathsPerBatch(MaxL, MaxP, MakePlan(t0, T, tauMins).L)
  {
    var pl := MakePlan(t0, T, tauMins);
    PathsPerBatchPositive(MaxL, MaxP, pl.L);
    var PM := PathsPerBatch(MaxL, MaxP, pl.L);
    var PI := OuterIterations(2 * P, PM);
    TotalPaths(P, PM);
    var tsq := TimeLine(pl.L, pl.y0, pl.tau, pl.tlast);
    RunFits(m, StepsOf(pl, sqrt), tsq, zs, PM / 2, PI);
    RunBatchesOf(m, t0, T, tauMins, P, MaxL, MaxP, sqrt, zs)
  }

  /** The profit and loss of every path of a hedging run, in order. */
  ghost function HedgingPnLs(m: Market, h: Hedge, t0: int, tauMins: int, P: int,
                             sqrt: real -> real, zs: seq<real>): seq<real>
    requires MarketOk(m) && SqrtOk(sqrt) && t0 < h.option.expirTime && tauMins > 0 && P > 0
    requires h.acc > 0.0 && m.rateA.Valid() && m.rateB.Valid()
    requires IsCurrency(h.option.assetA) && IsCurrency(h.option.assetB)
    requires MakePlan(t0, h.option.expirTime, tauMins).L <= MaxL
    requires DrawsSuffice(t0, h.option.expirTime, tauMins, P, MaxL, MaxP, zs)
  {
    LogPnLs(h, m.rateA, m.rateB, h.option.assetA, h.option.assetB,
            HedgingBatches(m, t0, h.option.expirTime, tauMins, P, sqrt, zs))
  }

  /** The batches of a run with at least one pair per batch and at least one
      batch form a log the hedging evaluator accepts, each batch holding
      `2*pairs` paths. */
  lemma RunFits(m: Market, st: Steps, ts: seq<real>, zs: seq<real>, pairs: int, k: int)
    requires MarketOk(m) && st.L == |ts| && st.L >= 1 && pairs >= 1 && k >= 1
    requires |zs| >= k * (pairs * (st.L - 1))
    ensures LogFits(SimBatches(m, st, ts, zs, pairs, k))
    ensures forall i :: 0 <= i < k ==> SimBatches(m, st, ts, zs, pairs, k)[i].PM == 2 * pairs
  {
    var bs := SimBatches(m, st, ts, zs, pairs, k);
    SimBatchShape(m, st, ts, zs, pairs, k, 0);
    forall i | 0 <= i < k ensures WellFormed(bs[i]) && bs[i].L - 1 <= |bs[0].ts| && bs[i].PM == 2 * pairs {
      SimBatchPaths(m, st, ts, zs, pairs, k, i, 0);
      SimBatchShape(m, st, ts, zs, pairs, k, i);
    }
  }

  /** Batches of `n` paths each give `n` profit-and-loss values each. */
  lemma {:induction false} AllPnLsLength(h: Hedge, rA: seq<real>, rB: seq<real>, calls: seq<Batch>, n: int)
    requires h.acc > 0.0
    requires forall i :: 0 <= i < |calls| ==>
               WellFormed(calls[i]) && calls[i].L - 1 <= |rA| && calls[i].L - 1 <= |rB| &&
               calls[i].PM == n
    ensures |AllPnLs(h, rA, rB, calls)| == |calls| * n
  {
    if calls != [] {
      var init := calls[..|calls| - 1];
      assert forall i :: 0 <= i < |init| ==> init[i] == calls[i];
      AllPnLsLength(h, rA, rB, init, n);
      assert (|calls| - 1) * n + n == |calls| * n;
    }
  }

  /** `MCOptionHedger1D`. */
  class MCOptionHedger {
    const diff: Diffusion
    const irpA: ConstRates
    const irpB: ConstRates
    const mce: MCEngine
    /** Whether the source seeds its generator from the clock; the draws
        are a parameter of `SimulateHedging` here. */
    const useTimerSeed: bool

    ghost predicate Valid()
      reads this, mce
    {
      irpA.Valid() && irpB.Valid() && mce.Valid() && mce.maxL == MaxL && mce.maxP == MaxP
    }

    /** The constructor: the process, the two rate tables (read from files
        in the source) and a fresh engine of `MaxL` by `MaxP` cells. */
    constructor (diff: Diffusion, irpA: ConstRates, irpB: ConstRates, useTimerSeed: bool)
      requires irpA.Valid() && irpB.Valid()
      ensures Valid() && fresh(mce) && fresh(mce.paths) && fresh(mce.ts)
      ensures this.diff == diff && this.irpA == irpA && this.irpB == irpB
      ensures this.useTimerSeed == useTimerSeed
    {
      this.diff, this.irpA, this.irpB := diff, irpA, irpB;
      this.useTimerSeed := useTimerSeed;
      mce := new MCEngine(MaxL, MaxP);
    }

    /** `SimulateHedging`: a fresh hedging evaluator for the option, the
        premium `C0`, the hedge ratio `deltaFn` rounded to `deltaAcc`; a
        real-world run from `t0` to the option's expiry with steps of
        `tauMins` minutes and `P` antithetic pairs; then the evaluator's
        mean, standard deviation, minimum and maximum profit and loss. The
        engine's rejection of a path longer than it holds is passed on; the
        evaluator's "empty" error cannot happen, because a run hands over at
        least `2P` paths. */
    method SimulateHedging(option: Option, t0: int, C0: real, deltaFn: (real, real) -> real,
                           deltaAcc: real, tauMins: int, P: int, sqrt: real -> real,
                           zs: seq<real>) returns (r: Result<(real, real, real, real)>)
      requires Valid() && SqrtOk(sqrt)
      requires IsCurrency(option.assetA) && IsCurrency(option.assetB)
      requires tauMins > 0 && P > 0 && deltaAcc > 0.0 && t0 < option.expirTime
      requires DrawsSuffice(t0, option.expirTime, tauMins, P, MaxL, MaxP, zs)
      modifies mce.paths, mce.ts
      ensures r.Err? <==> MakePlan(t0, option.expirTime, tauMins).L > MaxL
      ensures r.Err? ==> r.error == InvalidArgument("invalid path parameters")
      ensures r.Ok? ==>
                var xs := HedgingPnLs(RealWorld(diff, irpA, irpB, option),
                                      Hedge(option, C0, deltaFn, deltaAcc), t0, tauMins, P, sqrt, zs);
                |xs| >= 2 * P &&
                r.value.0 == Mean(xs) && r.value.1 == sqrt(Variance(xs)) && r.value.1 >= 0.0 &&
                MinOf(xs) == Fin(r.value.2) && MaxOf(xs) == Fin(r.value.3) &&
                r.value.2 <= r.value.0 <= r.value.3
    {
      var m := RealWorld(diff, irpA, irpB, option);
      var T := option.expirTime;
      var ev := new OHPathEval(option, irpA, irpB, C0, deltaFn, deltaAcc);
      ghost var L := MakePlan(t0, T, tauMins).L;
      if L <= MaxL {
        PathsPerBatchPositive(MaxL, MaxP, L);
      }
      var res := mce.Simulate(t0, T, tauMins, P, m, sqrt, Hedger(ev), zs);
      if res.Err? {
        return Err(res.error);
      }
      ghost var h := Hedge(option, C0, deltaFn, deltaAcc);
      ghost var bs := HedgingBatches(m, t0, T, tauMins, P, sqrt, zs);
      assert ev.calls == bs;
      ghost var xs := HedgingPnLs(m, h, t0, tauMins, P, sqrt, zs);
      AllPnLsLength(h, RateTable(irpA, option.assetA, bs[0].ts), RateTable(irpB, option.assetB, bs[0].ts),
                    bs, PathsPerBatch(MaxL, MaxP, L));
      assert ev.PnLs() == xs;
      r := ev.GetStats(sqrt);
    }
  }
}
