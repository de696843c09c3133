/** The hedging path evaluator: along every path it runs a delta hedge of a
    long option position financed by a money account, and folds the final
    profit and loss of each path into the same running statistics as the
    pricing evaluator. */
module MCOptionHedger1D {
  import opened Numerics
  import opened Errors
  import opened IRProvider
  import opened IRProviderConst
  import opened Options
  import opened VanillaOption
  import opened PathEval

  // ---------------------------------------------------------------------
  // The hedging of one path
  // ---------------------------------------------------------------------

  /** `x` is a whole multiple of `acc`. */
  ghost predicate OnGrid(x: real, acc: real)
    requires acc > 0.0
  {
    (x / acc).Floor as real * acc == x
  }

  /** The position taken against a hedge ratio `d`: `d` rounded to the
      nearest multiple of `acc`, negated because the option is held long.
      The target is a whole multiple of `acc` within `acc/2` of `-d`. */
  function TargetDelta(d: real, acc: real): (x: real)
    requires acc > 0.0
    ensures OnGrid(x, acc)
    ensures -d - acc / 2.0 <= x <= -d + acc / 2.0
  {
    var k := Round(d / acc);
    NegatedMultipleOnGrid(k, acc);
    ScaledBelow(d, acc, k as real);
    ScaledAbove(d, acc, k as real);
    -(k as real) * acc
  }

  /** `-k acc` is a whole multiple of `acc`. */
  lemma NegatedMultipleOnGrid(k: int, acc: real)
    requires acc > 0.0
    ensures OnGrid(-(k as real) * acc, acc)
  {
    var x := -(k as real) * acc;
    assert x == (-k) as real * acc;
    assert x / acc == (-k) as real;
    assert (x / acc).Floor == -k;
  }

  /** A value at least `d/acc - 1/2`, scaled by `acc`, is at least
      `d - acc/2`. */
  lemma ScaledBelow(d: real, acc: real, k: real)
    requires acc > 0.0 && d / acc - 0.5 <= k
    ensures d - acc / 2.0 <= k * acc
  {
    MulMonotoneReal(d / acc - 0.5, k, acc);
    assert (d / acc - 0.5) * acc == d - acc / 2.0;
  }

  /** A value at most `d/acc + 1/2`, scaled by `acc`, is at most
      `d + acc/2`. */
  lemma ScaledAbove(d: real, acc: real, k: real)
    requires acc > 0.0 && k <= d / acc + 0.5
    ensures k * acc <= d + acc / 2.0
  {
    MulMonotoneReal(k, d / acc + 0.5, acc);
    assert (d / acc + 0.5) * acc == d + acc / 2.0;
  }

  /** The state carried along a path: the money account and the held
      delta. */
  datatype Account = Account(M: real, delta: real)

  /** The hedging policy: the option held, the premium received for it, the
      hedge-ratio function of (level, time) and the rounding granularity. */
  datatype Hedge = Hedge(option: Option, C0: real, deltaFn: (real, real) -> real, acc: real)

  /** The money account over a step of length `tau`: interest at rate `rB`
      on the money, then the carry at rate `rA` on the previous level. */
  function Accrue(M: real, Sp: real, tau: real, rA: real, rB: real): (M': real)
    // no time or no rates, no accrual
    ensures tau == 0.0 || (rA == 0.0 && rB == 0.0) ==> M' == M
  {
    var grown := M + M * tau * rB;
    grown + Sp * tau * rA
  }

  /** One point of the hedge from the values it reads: when `accrue`,
      the money grows over the step `tau` from the level `Sp` before; then,
      when `trade`, the position moves to the target delta at level `St`
      and time `t`, trading only when it differs from the held delta. */
  function StepAccount(h: Hedge, a: Account, accrue: bool, trade: bool, St: real, t: real,
                       Sp: real, tau: real, rA: real, rB: real): (a': Account)
    requires h.acc > 0.0
    // the trade is self-financing: money plus the held delta valued at `St`
    // is what the accrual left; without a trade nothing else moves
    ensures var M := if accrue then Accrue(a.M, Sp, tau, rA, rB) else a.M;
            a'.M + a'.delta * St == M + a.delta * St &&
            (!trade ==> a' == Account(M, a.delta)) &&
            (trade ==> a'.delta == TargetDelta(h.deltaFn(St, t), h.acc))
  {
    var M := if accrue then Accrue(a.M, Sp, tau, rA, rB) else a.M;
    if trade then Trade(Account(M, a.delta), TargetDelta(h.deltaFn(St, t), h.acc), St)
    else Account(M, a.delta)
  }

  /** Moving the position `a` to `deltaN` at level `St`, paid from the
      money; no trade when the position is already there. */
  function Trade(a: Account, deltaN: real, St: real): (a': Account)
    ensures a'.delta == deltaN && a'.M + a'.delta * St == a.M + a.delta * St
  {
    if a.delta != deltaN then
      assert (a.M - (deltaN - a.delta) * St) + deltaN * St == a.M + a.delta * St by {
        assert (deltaN - a.delta) * St == deltaN * St - a.delta * St;
      }
      Account(a.M - (deltaN - a.delta) * St, deltaN)
    else a
  }

  /** Point `l` of a path: accrue from point `l-1` (from the second point
      on), then, except at the last point, move to the target delta. */
  function HedgeStep(h: Hedge, path: seq<real>, ts: seq<real>, rA: seq<real>, rB: seq<real>,
                     l: int, a: Account): (a': Account)
    requires h.acc > 0.0 && 0 <= l < |path| <= |ts| && |path| - 1 <= |rA| && |path| - 1 <= |rB|
    // the money accrues first; the rebalance is self-financing at the
    // current level; there is no trade at the last point
    ensures var M := if l > 0 then Accrue(a.M, path[l - 1], ts[l] - ts[l - 1], rA[l - 1], rB[l - 1]) else a.M;
            a'.M + a'.delta * path[l] == M + a.delta * path[l] &&
            (l == |path| - 1 ==> a' == Account(M, a.delta)) &&
            (l < |path| - 1 ==> a'.delta == TargetDelta(h.deltaFn(path[l], ts[l]), h.acc))
  {
    if l > 0 then
      StepAccount(h, a, true, l < |path| - 1, path[l], ts[l], path[l - 1], ts[l] - ts[l - 1],
                  rA[l - 1], rB[l - 1])
    else StepAccount(h, a, false, l < |path| - 1, path[l], ts[l], 0.0, 0.0, 0.0, 0.0)
  }

  /** The account after the first `n` points: it starts short the premium
      with no delta. The held delta is always a whole multiple of the
      granularity. */
  function HedgeAfter(h: Hedge, path: seq<real>, ts: seq<real>, rA: seq<real>, rB: seq<real>,
                      n: int): (a: Account)
    requires h.acc > 0.0 && 0 <= n <= |path| <= |ts| && |path| - 1 <= |rA| && |path| - 1 <= |rB|
    ensures OnGrid(a.delta, h.acc)
    decreases n
  {
    if n == 0 then
      assert 0.0 / h.acc == 0.0;
      Account(-h.C0, 0.0)
    else HedgeStep(h, path, ts, rA, rB, n - 1, HedgeAfter(h, path, ts, rA, rB, n - 1))
  }

  /** The profit and loss of a hedged path: money, plus the option's payoff,
      plus the held delta valued at the last level. */
  function PnL(h: Hedge, path: seq<real>, ts: seq<real>, rA: seq<real>, rB: seq<real>): (p: real)
    requires h.acc > 0.0 && 1 <= |path| <= |ts| && |path| - 1 <= |rA| && |path| - 1 <= |rB|
    // a path of one point is never traded: the payoff less the premium
    ensures |path| == 1 ==> p == Payoff(h.option, 1, path, ts) - h.C0
  {
    Value(HedgeAfter(h, path, ts, rA, rB, |path|), Payoff(h.option, |path|, path, ts), path[|path| - 1])
  }

  /** The portfolio at the end of a path: the money, the option's payoff and
      the held delta valued at the last level `S`. */
  function Value(a: Account, payoff: real, S: real): (v: real)
    // a flat position is worth its money and the payoff
    ensures a.delta == 0.0 ==> v == a.M + payoff
  {
    a.M + payoff + a.delta * S
  }

  /** Re-hedging at the last level does not change the final value: the
      profit and loss does not depend on a trade at the level it is valued
      at. */
  lemma TradeKeepsValue(a: Account, deltaN: real, payoff: real, S: real)
    ensures Value(Trade(a, deltaN, S), payoff, S) == Value(a, payoff, S)
  {
    var a' := Trade(a, deltaN, S);
    assert a'.M + a'.delta * S == a.M + a.delta * S;
  }


  // ---------------------------------------------------------------------
  // The evaluator
  // ---------------------------------------------------------------------

  /** The rate of a currency at each point of a timeline. */
  function RateTable(p: ConstRates, c: Ccy, ts: seq<real>): (rs: seq<real>)
    requires p.Valid() && IsCurrency(c)
    ensures |rs| == |ts|
  {
    seq(|ts|, l requires 0 <= l < |ts| => R(p, c, ts[l]))
  }

  /** A lazily filled rate table: empty until the first batch. */
  datatype RateCache = Unfilled | Filled(rates: seq<real>)

  /** The profit and loss of each path of a batch, in path order. */
  function BatchPnLs(h: Hedge, rA: seq<real>, rB: seq<real>, b: Batch): (pnls: seq<real>)
    requires h.acc > 0.0 && WellFormed(b) && b.L - 1 <= |rA| && b.L - 1 <= |rB|
    ensures |pnls| == b.PM
  {
    seq(b.PM, p requires 0 <= p < b.PM => PnL(h, PathOf(b, p), b.ts, rA, rB))
  }

  /** The profit and loss of all paths of all batches, in order. */
  function AllPnLs(h: Hedge, rA: seq<real>, rB: seq<real>, calls: seq<Batch>): (pnls: seq<real>)
    requires h.acc > 0.0
    requires forall i :: 0 <= i < |calls| ==>
               WellFormed(calls[i]) && calls[i].L - 1 <= |rA| && calls[i].L - 1 <= |rB|
    // one value per path handed over
    ensures |pnls| == PathsIn(calls)
  {
    if calls == [] then []
    else AllPnLs(h, rA, rB, calls[..|calls| - 1]) + BatchPnLs(h, rA, rB, calls[|calls| - 1])
  }

  /** Every batch handed over is well formed and its paths fit the first
      batch's timeline, from which the rate tables are filled. */
  ghost predicate LogFits(calls: seq<Batch>) {
    calls != [] &&
    forall i :: 0 <= i < |calls| ==> WellFormed(calls[i]) && calls[i].L - 1 <= |calls[0].ts|
  }

  /** The profit and loss of every path of a log, with the rate tables
      filled from its first batch's timeline. */
  function LogPnLs(h: Hedge, irpA: ConstRates, irpB: ConstRates, cA: Ccy, cB: Ccy,
                   calls: seq<Batch>): (pnls: seq<real>)
    requires h.acc > 0.0 && irpA.Valid() && irpB.Valid() && IsCurrency(cA) && IsCurrency(cB)
    requires LogFits(calls)
    ensures |pnls| == PathsIn(calls)
  {
    AllPnLs(h, RateTable(irpA, cA, calls[0].ts), RateTable(irpB, cB, calls[0].ts), calls)
  }

  /** Handing over one more batch that fits the log keeps it fitting, and
      appends that batch's profit and loss, hedged with the tables of the
      log's first timeline. */
  lemma LogAppend(h: Hedge, irpA: ConstRates, irpB: ConstRates, cA: Ccy, cB: Ccy,
                  calls: seq<Batch>, b: Batch)
    requires h.acc > 0.0 && irpA.Valid() && irpB.Valid() && IsCurrency(cA) && IsCurrency(cB)
    requires calls == [] || LogFits(calls)
    requires WellFormed(b) && (calls != [] ==> b.L - 1 <= |calls[0].ts|)
    ensures LogFits(calls + [b]) && (calls + [b])[0].ts == (if calls == [] then b.ts else calls[0].ts)
    ensures var tA, tB := RateTable(irpA, cA, (calls + [b])[0].ts), RateTable(irpB, cB, (calls + [b])[0].ts);
            LogPnLs(h, irpA, irpB, cA, cB, calls + [b]) ==
              (if calls == [] then [] else LogPnLs(h, irpA, irpB, cA, cB, calls)) + BatchPnLs(h, tA, tB, b)
  {
    var c' := calls + [b];
    assert c'[..|c'| - 1] == calls && c'[|c'| - 1] == b;
    forall i | 0 <= i < |c'| ensures WellFormed(c'[i]) && c'[i].L - 1 <= |c'[0].ts| {
      if i < |calls| {
        assert c'[i] == calls[i];
      }
    }
    var tA, tB := RateTable(irpA, cA, c'[0].ts), RateTable(irpB, cB, c'[0].ts);
    assert AllPnLs(h, tA, tB, c') == AllPnLs(h, tA, tB, calls) + BatchPnLs(h, tA, tB, b);
    if calls != [] {
      assert c'[0] == calls[0];
    }
  }

  /** The state of a hedging evaluator with policy `h` after the batches
      `calls`: before the first batch the rate tables are unfilled and the
      statistics empty; afterwards the tables are filled from the first
      batch's timeline, every batch fits them, and the running figures are
      those of the profit and loss of all paths handed over. */
  ghost predicate Consistent(h: Hedge, irpA: ConstRates, irpB: ConstRates, ratesA: RateCache,
                             ratesB: RateCache, P: int, sum: real, sum2: real, mn: XReal, mx: XReal,
                             calls: seq<Batch>)
  {
    irpA.Valid() && irpB.Valid() && IsCurrency(h.option.assetA) && IsCurrency(h.option.assetB) &&
    h.acc >= 0.0 &&
    (calls == [] ==> ratesA == Unfilled && ratesB == Unfilled && P == 0 && sum == 0.0 &&
                     sum2 == 0.0 && mn == PosInf && mx == NegInf) &&
    (calls != [] ==>
      h.acc > 0.0 && LogFits(calls) &&
      ratesA == Filled(RateTable(irpA, h.option.assetA, calls[0].ts)) &&
      ratesB == Filled(RateTable(irpB, h.option.assetB, calls[0].ts)) &&
      Summarises(LogPnLs(h, irpA, irpB, h.option.assetA, h.option.assetB, calls), P, sum, sum2, mn, mx))
  }

  /** Folding the profit and loss of one more batch, hedged with the rate
      tables of the first timeline, keeps the state consistent. */
  lemma ConsistentAppend(h: Hedge, irpA: ConstRates, irpB: ConstRates, ratesA: RateCache,
                         ratesB: RateCache, P: int, sum: real, sum2: real, mn: XReal, mx: XReal,
                         calls: seq<Batch>, b: Batch, rA: seq<real>, rB: seq<real>,
                         sum': real, sum2': real, mn': XReal, mx': XReal)
    requires Consistent(h, irpA, irpB, ratesA, ratesB, P, sum, sum2, mn, mx, calls)
    requires h.acc > 0.0 && WellFormed(b) && (calls != [] ==> b.L - 1 <= |calls[0].ts|)
    requires rA == RateTable(irpA, h.option.assetA, (calls + [b])[0].ts)
    requires rB == RateTable(irpB, h.option.assetB, (calls + [b])[0].ts)
    requires var before := if calls == [] then [] else
                             LogPnLs(h, irpA, irpB, h.option.assetA, h.option.assetB, calls);
             Summarises(before + BatchPnLs(h, rA, rB, b), P + b.PM, sum', sum2', mn', mx')
    ensures Consistent(h, irpA, irpB, Filled(rA), Filled(rB), P + b.PM, sum', sum2', mn', mx', calls + [b])
  {
    LogAppend(h, irpA, irpB, h.option.assetA, h.option.assetB, calls, b);
  }

  /** `OHPathEval`. */
  class OHPathEval {
    const option: Option
    const irpA: ConstRates
    const irpB: ConstRates
    var ratesA: RateCache
    var ratesB: RateCache
    const C0: real
    const deltaFn: (real, real) -> real
    const deltaAcc: real
    var P: int
    var sumPnL: real
    var sumPnL2: real
    var minPnL: XReal
    var maxPnL: XReal
    /** Every batch handed over so far. */
    ghost var calls: seq<Batch>

    /** The rate tables are filled from the first batch's timeline, every
        batch's paths fit them, and the running figures are those of the
        profit and loss of all paths handed over. */
    ghost predicate Valid()
      reads this
    {
      Consistent(Hedge(option, C0, deltaFn, deltaAcc), irpA, irpB, ratesA, ratesB,
                 P, sumPnL, sumPnL2, minPnL, maxPnL, calls)
    }

    /** The policy this evaluator hedges with. */
    function Policy(): Hedge
      requires deltaAcc > 0.0
    {
      Hedge(option, C0, deltaFn, deltaAcc)
    }

    /** The profit and loss of every path handed over, in order. */
    ghost function PnLs(): seq<real>
      reads this
      requires Valid() && calls != []
    {
      LogPnLs(Policy(), irpA, irpB, option.assetA, option.assetB, calls)
    }

    /** The source asserts non-null pointers and a non-negative granularity;
        the rate tables start unfilled and the statistics empty. */
    constructor (option: Option, irpA: ConstRates, irpB: ConstRates, C0: real,
                 deltaFn: (real, real) -> real, deltaAcc: real)
      requires deltaAcc >= 0.0 && irpA.Valid() && irpB.Valid()
      requires IsCurrency(option.assetA) && IsCurrency(option.assetB)
      ensures Valid() && calls == []
      ensures this.option == option && this.irpA == irpA && this.irpB == irpB && this.C0 == C0
      ensures this.deltaFn == deltaFn && this.deltaAcc == deltaAcc
    {
      this.option, this.irpA, this.irpB := option, irpA, irpB;
      this.C0, this.deltaFn, this.deltaAcc := C0, deltaFn, deltaAcc;
      ratesA, ratesB := Unfilled, Unfilled;
      P, sumPnL, sumPnL2 := 0, 0.0, 0.0;
      minPnL, maxPnL := PosInf, NegInf;
      calls := [];
    }

    /** The rate of `c` at each of the first `L` points of `ts`, looked up
        one by one. */
    static method FillRates(p: ConstRates, c: Ccy, ts: array<real>, L: int) returns (rs: seq<real>)
      requires p.Valid() && IsCurrency(c) && 0 <= L <= ts.Length
      ensures rs == RateTable(p, c, ts[..L])
    {
      rs := [];
      var l := 0;
      while l < L
        invariant 0 <= l <= L && rs == RateTable(p, c, ts[..l])
      {
        assert ts[..l + 1] == ts[..l] + [ts[l]];
        rs := rs + [R(p, c, ts[l])];
        l := l + 1;
      }
    }

    /** The delta hedge of one path of length `L` stored from cell `start`
        of `paths`, with the timeline `ts` and the rate tables `rA`, `rB`;
        returns the path's profit and loss. */
    static method PathPnL(h: Hedge, paths: array<real>, start: int, L: int, ts: array<real>,
                          rA: seq<real>, rB: seq<real>) returns (pnl: real)
      requires h.acc > 0.0 && L >= 1 && 0 <= start && start + L <= paths.Length && L <= ts.Length
      requires L - 1 <= |rA| && L - 1 <= |rB|
      ensures pnl == PnL(h, paths[start .. start + L], ts[..L], rA, rB)
    {
      ghost var path, tsL := paths[start .. start + L], ts[..L];
      var M := -h.C0;
      var delta := 0.0;
      var l := 0;
      while l < L
        invariant 0 <= l <= L
        invariant Account(M, delta) == HedgeAfter(h, path, tsL, rA, rB, l)
      {
        M, delta := PointStep(h, paths, start, L, ts, rA, rB, l, M, delta);
        l := l + 1;
      }
      assert paths[start + L - 1] == path[L - 1];
      pnl := Value(Account(M, delta), Payoff(h.option, L, paths[start .. start + L], ts[..L]), paths[start + L - 1]);
    }

    /** Point `l` of the hedge of one path: accrue the money account over
        the step from point `l-1`, then rebalance to the target delta except
        at the last point. */
    static method PointStep(h: Hedge, paths: array<real>, start: int, L: int, ts: array<real>,
                            rA: seq<real>, rB: seq<real>, l: int, M0: real, delta0: real)
      returns (M: real, delta: real)
      requires h.acc > 0.0 && 0 <= l < L && 0 <= start && start + L <= paths.Length && L <= ts.Length
      requires L - 1 <= |rA| && L - 1 <= |rB|
      ensures Account(M, delta) ==
              HedgeStep(h, paths[start .. start + L], ts[..L], rA, rB, l, Account(M0, delta0))
    {
      M, delta := M0, delta0;
      var St := paths[start + l];
      var t := ts[l];
      var Sp, tau, rAp, rBp := 0.0, 0.0, 0.0, 0.0;
      if l > 0 {
        tau := t - ts[l - 1];
        Sp := paths[start + l - 1];
        rAp, rBp := rA[l - 1], rB[l - 1];
        M := Accrue(M, Sp, tau, rAp, rBp);
      }
      if l < L - 1 {
        var deltaN := TargetDelta(h.deltaFn(St, t), h.acc);
        if delta != deltaN {
          M := M - (deltaN - delta) * St;
          delta := deltaN;
        }
      }
      assert Account(M, delta) == StepAccount(h, Account(M0, delta0), l > 0, l < L - 1, St, t, Sp, tau, rAp, rBp);
      assert St == paths[start .. start + L][l] && t == ts[..L][l];
      assert l > 0 ==> Sp == paths[start .. start + L][l - 1] && tau == ts[..L][l] - ts[..L][l - 1];
    }

    /** The path loop of `operator()`: hedges each of the `PM` paths of
        length `L` stored back to back in `paths` and folds its profit and
        loss into the running sum, sum of squares, minimum and maximum of
        the values `before`. */
    static method FoldBatch(h: Hedge, L: int, PM: int, paths: array<real>, ts: array<real>,
                            rA: seq<real>, rB: seq<real>, ghost before: seq<real>,
                            sum0: real, sum20: real, min0: XReal, max0: XReal)
      returns (sum: real, sum2: real, mn: XReal, mx: XReal)
      requires h.acc > 0.0 && L >= 1 && PM >= 0 && 0 <= PM * L <= paths.Length && L <= ts.Length
      requires L - 1 <= |rA| && L - 1 <= |rB|
      requires Summarises(before, |before|, sum0, sum20, min0, max0)
      ensures Summarises(before + BatchPnLs(h, rA, rB, Batch(L, PM, paths[..PM * L], ts[..L])),
                         |before| + PM, sum, sum2, mn, mx)
    {
      ghost var batch := BatchPnLs(h, rA, rB, Batch(L, PM, paths[..PM * L], ts[..L]));
      sum, sum2, mn, mx := sum0, sum20, min0, max0;
      var p := 0;
      assert before + batch[..0] == before;
      while p < PM
        invariant 0 <= p <= PM
        invariant Summarises(before + batch[..p], |before| + p, sum, sum2, mn, mx)
      {
        sum, sum2, mn, mx := FoldPath(h, L, PM, paths, ts, rA, rB, before, p, sum, sum2, mn, mx);
        p := p + 1;
      }
      assert batch[..PM] == batch;
    }

    /** Path `p` of the batch hedged and its profit and loss folded into the
        running figures. */
    static method FoldPath(h: Hedge, L: int, PM: int, paths: array<real>, ts: array<real>,
                           rA: seq<real>, rB: seq<real>, ghost before: seq<real>, p: int,
                           sum0: real, sum20: real, min0: XReal, max0: XReal)
      returns (sum: real, sum2: real, mn: XReal, mx: XReal)
      requires h.acc > 0.0 && L >= 1 && 0 <= p < PM && PM * L <= paths.Length && L <= ts.Length
      requires L - 1 <= |rA| && L - 1 <= |rB|
      requires Summarises(before + BatchPnLs(h, rA, rB, Batch(L, PM, paths[..PM * L], ts[..L]))[..p],
                          |before| + p, sum0, sum20, min0, max0)
      ensures Summarises(before + BatchPnLs(h, rA, rB, Batch(L, PM, paths[..PM * L], ts[..L]))[..p + 1],
                         |before| + p + 1, sum, sum2, mn, mx)
    {
      ghost var batch := BatchPnLs(h, rA, rB, Batch(L, PM, paths[..PM * L], ts[..L]));
      var pnl := BatchPathPnL(h, L, PM, paths, ts, rA, rB, p);
      SummarisesNext(before, batch, p, |before| + p, sum0, sum20, min0, max0);
      sum := sum0 + pnl;
      sum2 := sum20 + Sq(pnl);
      mn := XMin(min0, pnl);
      mx := XMax(max0, pnl);
    }

    /** The profit and loss of path `p` of the batch, the path stored in
        cells `[p*L, (p+1)*L)`. */
    static method BatchPathPnL(h: Hedge, L: int, PM: int, paths: array<real>, ts: array<real>,
                               rA: seq<real>, rB: seq<real>, p: int) returns (pnl: real)
      requires h.acc > 0.0 && L >= 1 && 0 <= p < PM && PM * L <= paths.Length && L <= ts.Length
      requires L - 1 <= |rA| && L - 1 <= |rB|
      ensures pnl == BatchPnLs(h, rA, rB, Batch(L, PM, paths[..PM * L], ts[..L]))[p]
    {
      ghost var b := Batch(L, PM, paths[..PM * L], ts[..L]);
      PathSlot(p, PM, L);
      pnl := PathPnL(h, paths, p * L, L, ts, rA, rB);
      assert paths[p * L .. p * L + L] == PathOf(b, p);
    }

    /** The rate tables: those already filled, or on the first batch both
        looked up along its timeline. */
    method RateTables(ts: array<real>, L: int) returns (rA: seq<real>, rB: seq<real>)
      requires Valid() && 0 <= L <= ts.Length
      ensures calls == [] ==> rA == RateTable(irpA, option.assetA, ts[..L]) &&
                              rB == RateTable(irpB, option.assetB, ts[..L])
      ensures calls != [] ==> ratesA == Filled(rA) && ratesB == Filled(rB)
    {
      if ratesA.Unfilled? {
        rA := FillRates(irpA, option.assetA, ts, L);
      } else {
        rA := ratesA.rates;
      }
      if ratesB.Unfilled? {
        rB := FillRates(irpB, option.assetB, ts, L);
      } else {
        rB := ratesB.rates;
      }
    }

    /** `operator()`: on the first batch, fills both rate tables from its
        timeline; then hedges each of the `PM` paths and folds its profit
        and loss in, and counts them. */
    method Consume(L: int, PM: int, paths: array<real>, ts: array<real>)
      requires Valid() && deltaAcc > 0.0
      requires L >= 1 && PM >= 0 && 0 <= PM * L <= paths.Length && L <= ts.Length
      requires calls != [] ==> L - 1 <= |calls[0].ts|
      modifies this
      ensures Valid()
      ensures calls == old(calls) + [Batch(L, PM, paths[..PM * L], ts[..L])]
      ensures P == old(P) + PM
      ensures old(calls) != [] ==> ratesA == old(ratesA) && ratesB == old(ratesB)
    {
      ghost var b := Batch(L, PM, paths[..PM * L], ts[..L]);
      ghost var before := if calls == [] then [] else PnLs();
      var rA, rB := RateTables(ts, L);
      var pol := Policy();
      LogAppend(pol, irpA, irpB, option.assetA, option.assetB, calls, b);
      var sum, sum2, mn, mx :=
        FoldBatch(pol, L, PM, paths, ts, rA, rB, before, sumPnL, sumPnL2, minPnL, maxPnL);
      ghost var h := Hedge(option, C0, deltaFn, deltaAcc);
      assert pol == h;
      ConsistentAppend(h, irpA, irpB, ratesA, ratesB, P, sumPnL, sumPnL2, minPnL, maxPnL,
                       calls, b, rA, rB, sum, sum2, mn, mx);
      Commit(rA, rB, PM, sum, sum2, mn, mx, b);
    }

    /** The end of `operator()`: stores the rate tables and the new running
        figures, and counts the batch's paths. */
    method Commit(rA: seq<real>, rB: seq<real>, PM: int, sum: real, sum2: real, mn: XReal, mx: XReal,
                  ghost b: Batch)
      requires b.PM == PM
      requires Consistent(Hedge(option, C0, deltaFn, deltaAcc), irpA, irpB, Filled(rA), Filled(rB),
                          P + PM, sum, sum2, mn, mx, calls + [b])
      modifies this
      ensures Valid() && calls == old(calls) + [b] && P == old(P) + PM
      ensures ratesA == Filled(rA) && ratesB == Filled(rB)
    {
      ratesA, ratesB := Filled(rA), Filled(rB);
      P, sumPnL, sumPnL2, minPnL, maxPnL := P + PM, sum, sum2, mn, mx;
      calls := calls + [b];
    }

    /** `GetStats`: the mean, standard deviation, minimum and maximum of the
        profit and loss, or a runtime_error with fewer than two paths. */
    function GetStats(sqrt: real -> real): (r: Result<(real, real, real, real)>)
      reads this
      requires Valid() && SqrtOk(sqrt)
      ensures r.Err? <==> P < 2
      ensures r.Err? ==> r.error == RuntimeError("empty OPPathEval")
      ensures r.Ok? ==> calls != [] && r.value.0 == Mean(PnLs())
      ensures r.Ok? ==> r.value.1 == sqrt(Variance(PnLs())) && r.value.1 >= 0.0
      ensures r.Ok? ==> minPnL == Fin(r.value.2) && maxPnL == Fin(r.value.3)
      ensures r.Ok? ==> r.value.2 <= r.value.0 <= r.value.3
      ensures r.Ok? ==> forall k :: 0 <= k < P ==> r.value.2 <= PnLs()[k] <= r.value.3
    {
      if P < 2 then Err(RuntimeError("empty OPPathEval"))
      else
        var xs := PnLs();
        var mean := MeanOf(P, sumPnL);
        var variance := VarianceOf(P, sumPnL, sumPnL2);
        VarianceIsSampleVariance(xs);
        assert variance == Variance(xs);
        MinMaxBound(xs);
        MeanWithinRange(xs);
        Ok((mean, sqrt(variance), minPnL.v, maxPnL.v))
    }
  }
}
