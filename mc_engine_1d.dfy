/** The Monte Carlo engine: owns a buffer of `maxL * maxP` path cells and a
    timeline of `maxL` points, generates antithetic Euler paths batch by
    batch into the buffer and hands every batch to a path evaluator. */
module MCEngine1D {
  import opened Numerics
  import opened Errors
  import opened Time
  import opened IRProvider
  import opened IRProviderConst
  import opened Diffusion1D
  import opened PathEval
  import opened MCPaths
  import opened MCOptionPricer1D
  import opened MCOptionHedger1D

  // ---------------------------------------------------------------------
  // Path evaluators
  // ---------------------------------------------------------------------

  /** The path evaluator the engine is instantiated with: the pricing or the
      hedging evaluator. */
  datatype Evaluator = Pricer(op: OPPathEval) | Hedger(oh: OHPathEval)

  /** The object an evaluator updates. */
  function Target(ev: Evaluator): object {
    match ev
    case Pricer(op) => op
    case Hedger(oh) => oh
  }

  ghost predicate EvValid(ev: Evaluator)
    reads Target(ev)
  {
    match ev
    case Pricer(op) => op.Valid()
    case Hedger(oh) => oh.Valid()
  }

  /** Every batch handed to the evaluator so far. */
  ghost function EvCalls(ev: Evaluator): seq<Batch>
    reads Target(ev)
  {
    match ev
    case Pricer(op) => op.calls
    case Hedger(oh) => oh.calls
  }

  /** The evaluator can take batches of paths of length `L`: the hedging
      evaluator needs a positive granularity, and rate tables (filled from
      its first batch) long enough for the path. */
  ghost predicate Accepts(ev: Evaluator, L: int)
    reads Target(ev)
  {
    match ev
    case Pricer(_) => true
    case Hedger(oh) => oh.deltaAcc > 0.0 && (oh.calls != [] ==> L - 1 <= |oh.calls[0].ts|)
  }

  /** `(*a_PathEval)(L, PM, m_paths, m_ts)`: hands `PM` paths of length `L`
      to the evaluator, which logs them as one more batch. */
  method Evaluate(ev: Evaluator, L: int, PM: int, paths: array<real>, ts: array<real>)
    requires EvValid(ev) && Accepts(ev, L)
    requires L >= 1 && PM >= 0 && 0 <= PM * L <= paths.Length && L <= ts.Length
    modifies Target(ev)
    ensures EvValid(ev) && Accepts(ev, L)
    ensures EvCalls(ev) == old(EvCalls(ev)) + [Batch(L, PM, paths[..PM * L], ts[..L])]
  {
    match ev
    case Pricer(op) =>
      op.Consume(L, PM, paths, ts);
    case Hedger(oh) =>
      oh.Consume(L, PM, paths, ts);
  }

  // ---------------------------------------------------------------------
  // The shape of a run
  // ---------------------------------------------------------------------

  /** The steps of a plan, with the roots of both step lengths. */
  function StepsOf(pl: Plan, sqrt: real -> real): (st: Steps)
    requires SqrtOk(sqrt) && 0.0 < pl.tlast <= pl.tau
    ensures st.L == pl.L && st.tau == pl.tau && st.tlast == pl.tlast
    ensures 0.0 < st.slast <= st.stau
  {
    StepRootsBounded(pl, sqrt);
    Steps(pl.L, pl.tau, sqrt(pl.tau), pl.tlast, sqrt(pl.tlast))
  }

  /** The normal draws a run of `k` batches of `pairs` pairs of paths of
      length `L` consumes: one per step of each pair. */
  function DrawsNeeded(L: int, pairs: int, k: int): (n: int)
    requires L >= 1 && pairs >= 0 && k >= 0
    ensures n >= 0
  {
    MulMonotone(0, pairs, L - 1);
    MulMonotone(0, k, pairs * (L - 1));
    k * (pairs * (L - 1))
  }

  /** The draws suffice for a run over `[t0, T]` with `P` pairs on an
      engine of `maxL` by `maxP` cells: a path longer than the buffer is
      rejected before anything is drawn; otherwise a batch holds at least
      one pair and every step of every pair of every batch takes one draw. */
  ghost predicate DrawsSuffice(t0: int, T: int, tauMins: int, P: int, maxL: int, maxP: int, zs: seq<real>)
    requires t0 < T && tauMins > 0 && P > 0 && maxL >= 0 && maxP >= 0
  {
    var L := MakePlan(t0, T, tauMins).L;
    L <= maxL ==>
      PathsPerBatch(maxL, maxP, L) > 0 &&
      |zs| >= DrawsNeeded(L, PathsPerBatch(maxL, maxP, L) / 2,
                          OuterIterations(2 * P, PathsPerBatch(maxL, maxP, L)))
  }

  /** The batches a run over `[t0, T]` with `P` pairs hands to the
      evaluator: `PI` batches of `PM/2` pairs each over the run's timeline. */
  ghost function RunBatchesOf(m: Market, t0: int, T: int, tauMins: int, P: int, maxL: int, maxP: int,
                              sqrt: real -> real, zs: seq<real>): (bs: seq<Batch>)
    requires MarketOk(m) && SqrtOk(sqrt) && t0 < T && tauMins > 0 && P > 0 && maxL >= 0 && maxP >= 0
    requires MakePlan(t0, T, tauMins).L <= maxL && DrawsSuffice(t0, T, tauMins, P, maxL, maxP, zs)
    // one batch per outer iteration, and enough of them for `2P` paths
    ensures |bs| == OuterIterations(2 * P, PathsPerBatch(maxL, maxP, MakePlan(t0, T, tauMins).L))
    ensures |bs| * PathsPerBatch(maxL, maxP, MakePlan(t0, T, tauMins).L) >= 2 * P
  {
    var pl := MakePlan(t0, T, tauMins);
    var PM := PathsPerBatch(maxL, maxP, pl.L);
    TotalPaths(P, PM);
    SimBatches(m, StepsOf(pl, sqrt), TimeLine(pl.L, pl.y0, pl.tau, pl.tlast), zs, PM / 2,
               OuterIterations(2 * P, PM))
  }

  // ---------------------------------------------------------------------
  // The engine
  // ---------------------------------------------------------------------

  /** `MCEngine1D`. */
  class MCEngine {
    const maxL: int
    const maxP: int
    /** `m_paths`: `maxL * maxP` cells. */
    const paths: array<real>
    /** `m_ts`: the timeline, `maxL` points. */
    const ts: array<real>

    ghost predicate Valid()
      reads this
    {
      maxL > 0 && maxP > 0 && paths.Length == maxL * maxP && ts.Length == maxL && paths != ts
    }

    /** The first `n` cells of the path buffer hold `cells`. */
    ghost predicate Holds(n: int, cells: seq<real>)
      reads this, paths
    {
      0 <= n <= paths.Length && paths[..n] == cells
    }

    constructor (maxL: int, maxP: int)
      requires maxL > 0 && maxP > 0
      ensures Valid() && this.maxL == maxL && this.maxP == maxP
      ensures fresh(paths) && fresh(ts)
    {
      this.maxL, this.maxP := maxL, maxP;
      MulMonotone(0, maxL, maxP);
      paths := new real[maxL * maxP];
      ts := new real[maxL];
    }

    /** The constructor's check: an invalid_argument for a non-positive
        maximum path length or path count, otherwise a new engine. */
    static method Create(maxL: int, maxP: int) returns (r: Result<MCEngine>)
      ensures r.Err? <==> maxL <= 0 || maxP <= 0
      ensures r.Err? ==> r.error == InvalidArgument("invalid max path parameters")
      ensures r.Ok? ==> r.value.Valid() && r.value.maxL == maxL && r.value.maxP == maxP
      ensures r.Ok? ==> fresh(r.value) && fresh(r.value.paths) && fresh(r.value.ts)
    {
      if maxL <= 0 || maxP <= 0 {
        return Err(InvalidArgument("invalid max path parameters"));
      }
      var e := new MCEngine(maxL, maxP);
      return Ok(e);
    }

    /** Writes the timeline: `y0 + L*tau` at every point but the last, and
        the last step after it. */
    method FillTimeLine(L: int, y0: real, tau: real, tlast: real)
      requires Valid() && 2 <= L <= maxL
      modifies ts
      ensures ts[..L] == TimeLine(L, y0, tau, tlast)
      ensures forall j :: L <= j < ts.Length ==> ts[j] == old(ts[j])
    {
      var l := 0;
      while l < L - 1
        invariant 0 <= l <= L - 1
        invariant forall j :: 0 <= j < l ==> ts[j] == y0 + L as real * tau
        invariant forall j :: L <= j < ts.Length ==> ts[j] == old(ts[j])
      {
        ts[l] := y0 + L as real * tau;
        l := l + 1;
      }
      ts[L - 1] := ts[L - 2] + tlast;
      assert forall j :: 0 <= j < L ==> ts[..L][j] == TimeLine(L, y0, tau, tlast)[j];
    }

    /** The next point of both paths of a pair, from their previous points
        `Sp0`, `Sp1` and the draw `Z`: the trend (rate differential times
        the level in risk-neutral mode, the process's drift otherwise) and
        the volatility at the time of the previous point, over a full step
        or the last one. */
    static method NextPair(m: Market, st: Steps, tsq: seq<real>, l: int, Sp0: real, Sp1: real, Z: real)
      returns (Sn0: real, Sn1: real)
      requires MarketOk(m) && 1 <= l < st.L == |tsq|
      ensures Sn0 == Next(m, st, tsq, l, Sp0, Z, true)
      ensures Sn1 == Next(m, st, tsq, l, Sp1, Z, false)
    {
      var y := tsq[l - 1];
      var mu0, mu1 := 0.0, 0.0;
      if m.isRN {
        var deltaR := R(m.rateB, m.assetB, y) - R(m.rateA, m.assetA, y);
        mu0 := deltaR * Sp0;
        mu1 := deltaR * Sp1;
      } else {
        mu0 := Mu(m.diff, Sp0, y);
        mu1 := Mu(m.diff, Sp1, y);
      }
      var sigma0 := Sigma(m.diff, Sp0, y);
      var sigma1 := Sigma(m.diff, Sp1, y);
      assert mu0 == Drift(m, Sp0, y) && mu1 == Drift(m, Sp1, y);
      if l == st.L - 1 {
        Sn0 := Euler(Sp0, mu0, sigma0, st.tlast, st.slast, Z, true);
        Sn1 := Euler(Sp1, mu1, sigma1, st.tlast, st.slast, Z, false);
      } else {
        Sn0 := Euler(Sp0, mu0, sigma0, st.tau, st.stau, Z, true);
        Sn1 := Euler(Sp1, mu1, sigma1, st.tau, st.stau, Z, false);
      }
    }

    /** Both paths of the pair at cell `off` of `a` hold their first `l`
        points. */
    static ghost predicate PairFilled(a: seq<real>, m: Market, st: Steps, tsq: seq<real>, off: int,
                                      d: seq<real>, l: int)
      requires MarketOk(m) && 1 <= l <= st.L == |tsq| && |d| == st.L - 1
    {
      0 <= off && off + 2 * st.L <= |a| &&
      a[off .. off + l] == Path(m, st, tsq, d, true, l) &&
      a[off + st.L .. off + st.L + l] == Path(m, st, tsq, d, false, l)
    }

    /** A pair filled to the end holds its cells, and the cells around it
        are as they were. */
    static lemma PairDone(a: seq<real>, a0: seq<real>, m: Market, st: Steps, tsq: seq<real>, off: int,
                          d: seq<real>)
      requires MarketOk(m) && 1 <= st.L == |tsq| && |d| == st.L - 1
      requires PairFilled(a, m, st, tsq, off, d, st.L) && AgreeOutside(a, a0, off, off + 2 * st.L)
      ensures a[off .. off + 2 * st.L] == PairCells(m, st, tsq, d)
      ensures a[..off] == a0[..off] && a[off + 2 * st.L ..] == a0[off + 2 * st.L ..]
    {
      SliceConcat(a, off, off + st.L, off + 2 * st.L);
    }

    /** Writes one antithetic pair at cell `off`: the `+Z` path, then the
        `-Z` path, driven by the `L-1` draws of `zs` from `start`. */
    static method FillPair(paths: array<real>, m: Market, st: Steps, tsq: seq<real>, off: int,
                           zs: seq<real>, start: int)
      requires MarketOk(m) && 2 <= st.L == |tsq|
      requires 0 <= off && off + 2 * st.L <= paths.Length
      requires 0 <= start && start + st.L - 1 <= |zs|
      modifies paths
      ensures paths[off .. off + 2 * st.L] == PairCells(m, st, tsq, zs[start .. start + st.L - 1])
      ensures paths[..off] == old(paths[..off])
      ensures paths[off + 2 * st.L ..] == old(paths[off + 2 * st.L ..])
    {
      ghost var d := zs[start .. start + st.L - 1];
      ghost var a0 := paths[..];
      var S0 := GetS0(m.diff);
      paths[off] := S0;
      paths[off + st.L] := S0;
      PairStarted(paths[..], m, st, tsq, off, d);
      var Sp0, Sp1 := S0, S0;
      var l := 1;
      while l < st.L
        invariant 1 <= l <= st.L && PairFilled(paths[..], m, st, tsq, off, d, l)
        invariant Sp0 == paths[off + l - 1] && Sp1 == paths[off + st.L + l - 1]
        invariant AgreeOutside(paths[..], a0, off, off + 2 * st.L)
      {
        Sp0, Sp1 := PairStep(paths, m, st, tsq, off, l, d, Sp0, Sp1, zs[start + l - 1]);
        l := l + 1;
      }
      PairDone(paths[..], a0, m, st, tsq, off, d);
    }

    /** Both paths of a pair start at the process's initial level. */
    static lemma PairStarted(a: seq<real>, m: Market, st: Steps, tsq: seq<real>, off: int, d: seq<real>)
      requires MarketOk(m) && 2 <= st.L == |tsq| && |d| == st.L - 1
      requires 0 <= off && off + 2 * st.L <= |a|
      requires a[off] == GetS0(m.diff) && a[off + st.L] == GetS0(m.diff)
      ensures PairFilled(a, m, st, tsq, off, d, 1)
    {
      assert a[off .. off + 1] == [a[off]] && a[off + st.L .. off + st.L + 1] == [a[off + st.L]];
    }

    /** Point `l` of both paths of the pair at cell `off`, computed from
        their points `l-1` and stored after them. */
    static method PairStep(paths: array<real>, m: Market, st: Steps, tsq: seq<real>, off: int, l: int,
                           ghost d: seq<real>, Sp0: real, Sp1: real, Z: real)
      returns (Sn0: real, Sn1: real)
      requires MarketOk(m) && 1 <= l < st.L == |tsq| && |d| == st.L - 1 && Z == d[l - 1]
      requires PairFilled(paths[..], m, st, tsq, off, d, l)
      requires Sp0 == paths[off + l - 1] && Sp1 == paths[off + st.L + l - 1]
      modifies paths
      ensures PairFilled(paths[..], m, st, tsq, off, d, l + 1)
      ensures Sn0 == paths[off + l] && Sn1 == paths[off + st.L + l]
      ensures forall k :: 0 <= k < paths.Length && !(off <= k < off + 2 * st.L) ==> paths[k] == old(paths[k])
    {
      Sn0, Sn1 := NextPair(m, st, tsq, l, Sp0, Sp1, Z);
      WritePoints(paths, off, st.L, l, Sn0, Sn1);
      PairExtended(old(paths[..]), paths[..], m, st, tsq, off, l, d, Sn0, Sn1);
    }

    /** Appending the next Euler point of each path of a pair filled up to
        point `l` fills it up to point `l + 1`. */
    static lemma PairExtended(a0: seq<real>, a: seq<real>, m: Market, st: Steps, tsq: seq<real>, off: int,
                              l: int, d: seq<real>, Sn0: real, Sn1: real)
      requires MarketOk(m) && 1 <= l < st.L == |tsq| && |d| == st.L - 1 && |a| == |a0|
      requires PairFilled(a0, m, st, tsq, off, d, l)
      requires Sn0 == Next(m, st, tsq, l, a0[off + l - 1], d[l - 1], true)
      requires Sn1 == Next(m, st, tsq, l, a0[off + st.L + l - 1], d[l - 1], false)
      requires a[off .. off + l + 1] == a0[off .. off + l] + [Sn0]
      requires a[off + st.L .. off + st.L + l + 1] == a0[off + st.L .. off + st.L + l] + [Sn1]
      ensures PairFilled(a, m, st, tsq, off, d, l + 1)
    {
      assert a0[off + l - 1] == Path(m, st, tsq, d, true, l)[l - 1];
      assert a0[off + st.L + l - 1] == Path(m, st, tsq, d, false, l)[l - 1];
      PathStep(m, st, tsq, d, true, l, d[l - 1]);
      PathStep(m, st, tsq, d, false, l, d[l - 1]);
    }

    /** Stores point `l` of both paths of the pair at cell `off`. */
    static method WritePoints(paths: array<real>, off: int, L: int, l: int, Sn0: real, Sn1: real)
      requires 0 <= off && 1 <= l < L && off + 2 * L <= paths.Length
      modifies paths
      ensures paths[off .. off + l + 1] == old(paths[off .. off + l]) + [Sn0]
      ensures paths[off + L .. off + L + l + 1] == old(paths[off + L .. off + L + l]) + [Sn1]
      ensures forall k :: 0 <= k < paths.Length && !(off <= k < off + 2 * L) ==> paths[k] == old(paths[k])
    {
      paths[off + l] := Sn0;
      paths[off + L + l] := Sn1;
    }

    /** Writes one batch of `pairs` antithetic pairs, pair `p` at cell
        `2*p*L`, drawing from `zs` at `start` onwards. */
    static method FillBatch(paths: array<real>, m: Market, st: Steps, tsq: seq<real>, pairs: int,
                            zs: seq<real>, start: int)
      requires MarketOk(m) && 2 <= st.L == |tsq| && pairs >= 0
      requires 2 * pairs * st.L <= paths.Length
      requires 0 <= start && start + pairs * (st.L - 1) <= |zs|
      modifies paths
      ensures paths[..2 * pairs * st.L] == BatchCells(m, st, tsq, zs[start..], pairs)
    {
      ghost var ps := Pairs(m, st, tsq, zs[start..], pairs);
      var p := 0;
      while p < pairs
        invariant 0 <= p <= pairs && 0 <= 2 * p * st.L <= paths.Length
        invariant paths[..2 * p * st.L] == Flatten(ps[..p])
      {
        PlacePair(paths, m, st, tsq, pairs, zs, start, ps, p);
        p := p + 1;
      }
      assert ps[..pairs] == ps;
    }

    /** Writes pair `p` of a batch after the pairs before it. */
    static method PlacePair(paths: array<real>, m: Market, st: Steps, tsq: seq<real>, pairs: int,
                            zs: seq<real>, start: int, ghost ps: seq<seq<real>>, p: int)
      requires MarketOk(m) && 2 <= st.L == |tsq| && 0 <= p < pairs
      requires 2 * pairs * st.L <= paths.Length
      requires 0 <= start && start + pairs * (st.L - 1) <= |zs|
      requires ps == Pairs(m, st, tsq, zs[start..], pairs)
      requires paths[..2 * p * st.L] == Flatten(ps[..p])
      modifies paths
      ensures 0 <= 2 * (p + 1) * st.L <= paths.Length && paths[..2 * (p + 1) * st.L] == Flatten(ps[..p + 1])
    {
      var L := st.L;
      BatchSlot(L, pairs, p);
      var off := 2 * p * L;
      FillPair(paths, m, st, tsq, off, zs, start + p * (L - 1));
      PairDrawsAt(zs, start, L, pairs, p);
      assert ps[p] == PairCells(m, st, tsq, PairDraws(zs[start..], L, pairs, p));
      PrefixConcat(paths[..], off, off + 2 * L);
      FlattenNext(ps, p);
    }

    /** `Simulate`: plans the grid over `[t0, T]` with a step of `tauMins`
        minutes; rejects a path longer than the buffer; otherwise writes the
        timeline and runs `PI` outer iterations, each generating `PM`
        antithetic paths (`PM/2` pairs) into the buffer and handing them to
        the evaluator, until at least `2P` paths are done. The normal draws
        are read from `zs` in batch, pair and step order. */
    method Simulate(t0: int, T: int, tauMins: int, P: int, m: Market, sqrt: real -> real,
                    ev: Evaluator, zs: seq<real>) returns (r: Result<()>)
      requires Valid() && EvValid(ev) && MarketOk(m) && SqrtOk(sqrt)
      requires t0 < T && tauMins > 0 && P > 0
      requires DrawsSuffice(t0, T, tauMins, P, maxL, maxP, zs)
      requires MakePlan(t0, T, tauMins).L <= maxL ==> Accepts(ev, MakePlan(t0, T, tauMins).L)
      modifies paths, ts, Target(ev)
      ensures EvValid(ev)
      ensures r.Err? <==> MakePlan(t0, T, tauMins).L > maxL
      ensures r.Err? ==> r.error == InvalidArgument("invalid path parameters") &&
                         EvCalls(ev) == old(EvCalls(ev)) && unchanged(paths, ts)
      ensures r.Ok? ==>
                var pl := MakePlan(t0, T, tauMins);
                var bs := RunBatchesOf(m, t0, T, tauMins, P, maxL, maxP, sqrt, zs);
                ts[..pl.L] == TimeLine(pl.L, pl.y0, pl.tau, pl.tlast) &&
                EvCalls(ev) == old(EvCalls(ev)) + bs &&
                |bs| >= 1 && Holds(bs[|bs| - 1].PM * pl.L, bs[|bs| - 1].paths)
    {
      if MakePlan(t0, T, tauMins).L > maxL {
        return Err(InvalidArgument("invalid path parameters"));
      }
      RunPlan(t0, T, tauMins, P, m, sqrt, ev, zs);
      return Ok(());
    }

    /** The accepted run of `Simulate`: the timeline written, then every
        batch generated and handed over; the buffer keeps the last batch. */
    method RunPlan(t0: int, T: int, tauMins: int, P: int, m: Market, sqrt: real -> real,
                   ev: Evaluator, zs: seq<real>)
      requires Valid() && EvValid(ev) && MarketOk(m) && SqrtOk(sqrt)
      requires t0 < T && tauMins > 0 && P > 0
      requires DrawsSuffice(t0, T, tauMins, P, maxL, maxP, zs)
      requires MakePlan(t0, T, tauMins).L <= maxL && Accepts(ev, MakePlan(t0, T, tauMins).L)
      modifies paths, ts, Target(ev)
      ensures EvValid(ev)
      ensures var pl := MakePlan(t0, T, tauMins);
              var bs := RunBatchesOf(m, t0, T, tauMins, P, maxL, maxP, sqrt, zs);
              ts[..pl.L] == TimeLine(pl.L, pl.y0, pl.tau, pl.tlast) &&
              EvCalls(ev) == old(EvCalls(ev)) + bs &&
              |bs| >= 1 && Holds(bs[|bs| - 1].PM * pl.L, bs[|bs| - 1].paths)
    {
      var pl := MakePlan(t0, T, tauMins);
      var L, tau, tlast, y0 := pl.L, pl.tau, pl.tlast, pl.y0;
      var st := StepsOf(pl, sqrt);
      var PM := PathsPerBatch(maxL, maxP, L);
      var PI := OuterIterations(2 * P, PM);
      assert Target(ev) != ts;
      FillTimeLine(L, y0, tau, tlast);
      var tsq := ts[..L];
      MulMonotone(0, PM, L);
      TotalPaths(P, PM);
      RunBatches(m, st, tsq, PM, PI, ev, zs);
    }

    /** The outer iterations of a run: `PI` times, `PM/2` pairs generated
        into the buffer from the next draws and handed to the evaluator. */
    method RunBatches(m: Market, st: Steps, tsq: seq<real>, PM: int, PI: int, ev: Evaluator,
                      zs: seq<real>)
      requires Valid() && MarketOk(m) && 2 <= st.L == |tsq| <= maxL && ts[..st.L] == tsq
      requires EvValid(ev) && Accepts(ev, st.L)
      requires PM > 0 && PM % 2 == 0 && 0 <= PM * st.L <= paths.Length && PI >= 0
      requires |zs| >= DrawsNeeded(st.L, PM / 2, PI)
      modifies paths, Target(ev)
      ensures EvValid(ev) && ts[..st.L] == tsq
      ensures EvCalls(ev) == old(EvCalls(ev)) + SimBatches(m, st, tsq, zs, PM / 2, PI)
      ensures PI > 0 ==> var b := SimBatches(m, st, tsq, zs, PM / 2, PI)[PI - 1];
                         Holds(b.PM * st.L, b.paths)
    {
      ghost var bs := SimBatches(m, st, tsq, zs, PM / 2, PI);
      ghost var calls0 := EvCalls(ev);
      LogStart(calls0, bs);
      var i := 0;
      while i < PI
        invariant Running(m, st, tsq, PM, PI, ev, zs, bs, calls0, i)
        decreases PI - i
      {
        RunBatch(m, st, tsq, PM, PI, ev, zs, bs, calls0, i);
        i := i + 1;
      }
      LogWhole(EvCalls(ev), calls0, bs);
      if PI > 0 {
        SimBatchShape(m, st, tsq, zs, PM / 2, PI, PI - 1);
      }
    }

    /** The state after `i` outer iterations: the timeline in place, the
        evaluator handed the first `i` batches after `calls0`, and the
        buffer holding batch `i-1`. */
    ghost predicate Running(m: Market, st: Steps, tsq: seq<real>, PM: int, PI: int, ev: Evaluator,
                            zs: seq<real>, bs: seq<Batch>, calls0: seq<Batch>, i: int)
      reads this, paths, ts, Target(ev)
    {
      Valid() && MarketOk(m) && 2 <= st.L == |tsq| <= maxL && ts[..st.L] == tsq &&
      EvValid(ev) && Accepts(ev, st.L) &&
      PM > 0 && PM % 2 == 0 && 0 <= PM * st.L <= paths.Length && 0 <= i <= PI &&
      |zs| >= DrawsNeeded(st.L, PM / 2, PI) && bs == SimBatches(m, st, tsq, zs, PM / 2, PI) &&
      |calls0| <= |EvCalls(ev)| && EvCalls(ev)[..|calls0|] == calls0 && EvCalls(ev)[|calls0|..] == bs[..i] &&
      (i > 0 ==> Holds(PM * st.L, bs[i - 1].paths))
    }

    /** Outer iteration `i`: batch `i`'s pairs generated into the buffer and
        handed to the evaluator, after the batches before it. */
    method RunBatch(m: Market, st: Steps, tsq: seq<real>, PM: int, PI: int, ev: Evaluator,
                    zs: seq<real>, ghost bs: seq<Batch>, ghost calls0: seq<Batch>, i: int)
      requires Running(m, st, tsq, PM, PI, ev, zs, bs, calls0, i) && i < PI
      modifies paths, Target(ev)
      ensures Running(m, st, tsq, PM, PI, ev, zs, bs, calls0, i + 1)
    {
      ghost var calls := EvCalls(ev);
      HandBatch(m, st, tsq, PM, PI, ev, zs, bs, i);
      LogNext(calls, calls0, bs, i);
    }

    /** Batch `i`'s pairs generated into the buffer and handed to the
        evaluator. */
    method HandBatch(m: Market, st: Steps, tsq: seq<real>, PM: int, PI: int, ev: Evaluator,
                     zs: seq<real>, ghost bs: seq<Batch>, i: int)
      requires Valid() && MarketOk(m) && 2 <= st.L == |tsq| <= maxL && ts[..st.L] == tsq
      requires EvValid(ev) && Accepts(ev, st.L)
      requires PM > 0 && PM % 2 == 0 && 0 <= PM * st.L <= paths.Length && 0 <= i < PI
      requires |zs| >= DrawsNeeded(st.L, PM / 2, PI) && bs == SimBatches(m, st, tsq, zs, PM / 2, PI)
      modifies paths, Target(ev)
      ensures EvValid(ev) && Accepts(ev, st.L) && ts[..st.L] == tsq
      ensures EvCalls(ev) == old(EvCalls(ev)) + [bs[i]]
      ensures paths[..PM * st.L] == bs[i].paths
    {
      assert Target(ev) != paths && Target(ev) != ts;
      GenerateBatch(m, st, tsq, PM, PI, zs, bs, i);
      SimBatchShape(m, st, tsq, zs, PM / 2, PI, i);
      ghost var cells := paths[..PM * st.L];
      Evaluate(ev, st.L, PM, paths, ts);
      assert paths[..PM * st.L] == cells;
    }

    /** Batch `i`'s pairs generated into the buffer from that batch's
        draws. */
    method GenerateBatch(m: Market, st: Steps, tsq: seq<real>, PM: int, PI: int, zs: seq<real>,
                         ghost bs: seq<Batch>, i: int)
      requires Valid() && MarketOk(m) && 2 <= st.L == |tsq| <= maxL
      requires PM > 0 && PM % 2 == 0 && 0 <= PM * st.L <= paths.Length && 0 <= i < PI
      requires |zs| >= DrawsNeeded(st.L, PM / 2, PI) && bs == SimBatches(m, st, tsq, zs, PM / 2, PI)
      modifies paths
      ensures paths[..PM * st.L] == bs[i].paths
    {
      var L, PMh := st.L, PM / 2;
      var perBatch := PMh * (L - 1);
      assert PM == 2 * PMh && PM * L == 2 * PMh * L;
      SimBatchAt(m, st, tsq, zs, PMh, PI, i);
      FillBatch(paths, m, st, tsq, PMh, zs, i * perBatch);
    }
  }
}
