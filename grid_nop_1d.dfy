/** `GridNOP1D_S3_RKC1`: the grid pricer for options on one underlying. It
    owns five buffers allocated once: the grid of `maxN * maxN` cells stored
    layer by layer (one layer per time point, `N` price nodes each), the
    timeline, the price axis, and the expected-price and variance curves.
    `Run` fills them in place; `GetPxDeltaGamma0` reads the first layer. */
module GridNOP1D {
  import opened Numerics
  import opened Errors
  import opened Time
  import opened IRProvider
  import opened IRProviderConst
  import opened Options
  import opened VanillaOption
  import opened Diffusion1D
  import opened MCPaths
  import opened GridSpec

  class GridSolver {
    const irpA: ConstRates
    const irpB: ConstRates
    const maxM: int
    const maxN: int
    const grid: array<real>
    const ts: array<real>
    const S: array<real>
    const ES: array<real>
    const VarS: array<real>
    /** Time points, price nodes and the index of `S0` of the last grid
        sized, and its direction. */
    var M: int
    var N: int
    var i0: int
    var isFwd: bool
    /** Whether the buffers hold the grid `mesh` describes. */
    ghost var solved: bool
    ghost var mesh: Mesh

    ghost predicate Valid()
      reads this, grid, ts, S
    {
      irpA.Valid() && irpB.Valid() && 0 <= maxM && 0 <= maxN &&
      grid.Length == maxN * maxN && ts.Length == maxM && S.Length == maxN &&
      ES.Length == maxM && VarS.Length == maxM &&
      grid != ts && grid != S && grid != ES && grid != VarS && ts != S && ts != ES &&
      ts != VarS && S != ES && S != VarS && ES != VarS &&
      (solved ==> Solved())
    }

    /** The buffers hold the grid `mesh` describes: its timeline, its price
        axis and its layers, back to back. */
    ghost predicate Solved()
      reads this, grid, ts, S
    {
      MeshOk(mesh) && mesh.irpA == irpA && mesh.irpB == irpB &&
      M == mesh.M && N == mesh.N && i0 == mesh.i0 &&
      M <= ts.Length && N <= S.Length && N <= grid.Length && M * N <= grid.Length &&
      ts[..M] == mesh.ts && S[..N] == SLine(mesh) && grid[..M * N] == Flatten(Layers(mesh))
    }

    /** The constructor: the two rate tables (read from files in the source)
        and the five buffers. No grid is held yet. */
    constructor (irpA: ConstRates, irpB: ConstRates, maxN: int, maxM: int)
      requires irpA.Valid() && irpB.Valid() && maxN >= 0 && maxM >= 0
      ensures Valid() && !solved && M == 0 && N == 0 && i0 == 0 && !isFwd
      ensures this.irpA == irpA && this.irpB == irpB && this.maxN == maxN && this.maxM == maxM
      ensures grid.Length == maxN * maxN && ts.Length == maxM && S.Length == maxN
      ensures ES.Length == maxM && VarS.Length == maxM
      ensures fresh(grid) && fresh(ts) && fresh(S) && fresh(ES) && fresh(VarS)
    {
      this.irpA, this.irpB := irpA, irpB;
      this.maxN, this.maxM := maxN, maxM;
      MulMonotone(0, maxN, maxN);
      grid := new real[maxN * maxN];
      ts := new real[maxM];
      S := new real[maxN];
      ES := new real[maxM];
      VarS := new real[maxM];
      M, N, i0, isFwd := 0, 0, 0, false;
      solved := false;
    }

    /** `Run<IsFwd>`: checks the arguments in the source's order, sizes the
        grid, and fills the timeline, the curves, the price axis and every
        layer. A run the checks reject leaves the price axis and the grid as
        they were; the fields it had set by then keep their new values. */
    method Run(o: Option, diff: Diffusion, S0: real, t0: int, Nints: int, tauMins: int,
               BFactor: real, fwd: bool, exp: real -> real, sqrt: real -> real) returns (r: Result<()>)
      requires Valid() && maxM <= maxN
      requires IsCurrency(o.assetA) && IsCurrency(o.assetB)
      requires S0 > 0.0 && Nints > 0 && tauMins > 0 && BFactor > 0.0
      requires ExpOk(exp) && SqrtOk(sqrt)
      modifies this, grid, ts, S, ES, VarS
      ensures Valid()
      ensures var s := Setup(o, diff, irpA, irpB, S0, t0, Nints, tauMins, BFactor, fwd);
              r == Verdict(s, exp, sqrt, maxM, maxN)
      ensures var s := Setup(o, diff, irpA, irpB, S0, t0, Nints, tauMins, BFactor, fwd);
              r.Ok? ==> solved && mesh == MeshOf(s, exp, sqrt) && isFwd == fwd &&
                        ES[..M] == ESCurve(s, exp) && VarS[..M] == VarCurve(s, exp) &&
                        AgreeFrom(grid[..], old(grid[..]), M * N) && AgreeFrom(S[..], old(S[..]), N)
      ensures r.Err? ==> grid[..] == old(grid[..]) && S[..] == old(S[..])
      ensures isFwd == if (fwd && o.isAmerican) || o.isAsian then old(isFwd) else fwd
      ensures var s := Setup(o, diff, irpA, irpB, S0, t0, Nints, tauMins, BFactor, fwd);
              r.Err? && ((fwd && o.isAmerican) || o.isAsian || !Timed(s)) ==>
                M == old(M) && N == old(N) && i0 == old(i0) && solved == old(solved) &&
                mesh == old(mesh) && ts[..] == old(ts[..]) && ES[..] == old(ES[..]) &&
                VarS[..] == old(VarS[..])
      ensures var s := Setup(o, diff, irpA, irpB, S0, t0, Nints, tauMins, BFactor, fwd);
              r.Err? && !((fwd && o.isAmerican) || o.isAsian || !Timed(s)) ==>
                !solved && M == TimePoints(s) &&
                (M > maxM ==> N == old(N) && i0 == old(i0) && ts[..] == old(ts[..]) &&
                              ES[..] == old(ES[..]) && VarS[..] == old(VarS[..])) &&
                (M <= maxM ==> ts[..M] == Times(s) && ES[..M] == ESCurve(s, exp) &&
                               VarS[..M] == VarCurve(s, exp) && i0 == I0(s, exp, sqrt) &&
                               N == if i0 == 0 then old(N) else Nints + 1)
    {
      var s := Setup(o, diff, irpA, irpB, S0, t0, Nints, tauMins, BFactor, fwd);
      var tau;
      r, tau := Admit(s);
      if r.Ok? {
        r := Solve(s, exp, sqrt, tau);
      }
    }

    /** The checks of a run before the curves (GridNOP1D_S3_RKC1.hpp:45-70):
        no American option forward, no Asian option, at least one time step
        to expiry, no more time points than the timeline holds. The
        direction is recorded once the first two pass, the number of time
        points once the third passes. */
    method Admit(s: Setup) returns (r: Result<()>, tau: real)
      requires s.tauMins > 0
      modifies this`isFwd, this`M, this`solved
      ensures isFwd == if (s.fwd && s.o.isAmerican) || s.o.isAsian then old(isFwd) else s.fwd
      ensures (s.fwd && s.o.isAmerican) || s.o.isAsian || !Timed(s) ==>
                M == old(M) && solved == old(solved)
      ensures !((s.fwd && s.o.isAmerican) || s.o.isAsian || !Timed(s)) ==>
                M == TimePoints(s) && !solved
      ensures r.Ok? <==> !(s.fwd && s.o.isAmerican) && !s.o.isAsian && Timed(s) && TimePoints(s) <= maxM
      ensures s.fwd && s.o.isAmerican ==>
                r == Err(InvalidArgument("American options are not supported in Fwd"))
      ensures !(s.fwd && s.o.isAmerican) && s.o.isAsian ==>
                r == Err(InvalidArgument("Asian options aren`t supported by 1D-grid"))
      ensures !(s.fwd && s.o.isAmerican) && !s.o.isAsian && !Timed(s) ==>
                r == Err(InvalidArgument("Option has already expired or too close"))
      ensures !(s.fwd && s.o.isAmerican) && !s.o.isAsian && Timed(s) && TimePoints(s) > maxM ==>
                r == Err(InvalidArgument("too many t-points"))
      ensures r.Ok? ==> tau == Tau(s)
    {
      TimedIff(s);
      tau := 0.0;
      if s.fwd && s.o.isAmerican {
        return Err(InvalidArgument("American options are not supported in Fwd")), tau;
      }
      if s.o.isAsian {
        return Err(InvalidArgument("Asian options aren`t supported by 1D-grid")), tau;
      }
      isFwd := s.fwd;
      var TTE := YearFracInt(s.o.expirTime - s.t0);
      var tauSec := s.tauMins * 60;
      var Mints := TruncDiv(s.o.expirTime - s.t0, tauSec);
      if TTE <= 0.0 || Mints <= 0 {
        return Err(InvalidArgument("Option has already expired or too close")), tau;
      }
      M := Mints + 1;
      solved := false;
      if M > maxM {
        return Err(InvalidArgument("too many t-points")), tau;
      }
      tau := TTE / Mints as real;
      r := Ok(());
    }

    /** The rest of a run once the time grid is accepted: the timeline and
        the curves, the price axis, the last two checks, and the layers. */
    method Solve(s: Setup, exp: real -> real, sqrt: real -> real, tau: real) returns (r: Result<()>)
      requires Valid() && maxM <= maxN && SetupOk(s) && ExpOk(exp) && SqrtOk(sqrt) && Timed(s)
      requires s.irpA == irpA && s.irpB == irpB && !(s.fwd && s.o.isAmerican) && !s.o.isAsian
      requires M == TimePoints(s) && M <= maxM && !solved && tau == Tau(s)
      modifies this, grid, ts, S, ES, VarS
      ensures Valid() && M == old(M) && isFwd == old(isFwd)
      ensures r == Verdict(s, exp, sqrt, maxM, maxN)
      ensures ts[..M] == Times(s) && ES[..M] == ESCurve(s, exp) && VarS[..M] == VarCurve(s, exp)
      ensures i0 == I0(s, exp, sqrt) && N == if i0 == 0 then old(N) else s.Nints + 1
      ensures r.Ok? ==> solved && mesh == MeshOf(s, exp, sqrt) &&
                        AgreeFrom(grid[..], old(grid[..]), M * N) && AgreeFrom(S[..], old(S[..]), N)
      ensures r.Err? ==> !solved && grid[..] == old(grid[..]) && S[..] == old(S[..])
    {
      FillCurves(ts, ES, VarS, s, exp, M, tau);
      var h: real;
      i0, h := SizeAxis(s, exp, sqrt, M, ES[M - 1], VarS[M - 1]);
      if i0 == 0 {
        return Err(InvalidArgument("S0 is too small, try increasing N"));
      }
      N := s.Nints + 1;
      if N > maxN {
        return Err(InvalidArgument("Nints is too large"));
      }
      var g := Mesh(s.o, s.diff, irpA, irpB, s.fwd, M, N, i0, h, tau, ts[..M]);
      assert g == MeshOf(s, exp, sqrt);
      Lay(g);
      r := Ok(());
    }

    /** The grid of a run that passes every check: the price axis and the
        layers of `g` built in place. */
    method Lay(g: Mesh)
      requires Valid() && MeshOk(g) && g.irpA == irpA && g.irpB == irpB
      requires g.M == M && g.N == N && g.i0 == i0 && M <= maxM <= maxN && N <= maxN && ts[..M] == g.ts
      modifies this`mesh, this`solved, grid, S
      ensures Valid() && solved && mesh == g
      ensures AgreeFrom(grid[..], old(grid[..]), M * N) && AgreeFrom(S[..], old(S[..]), N)
    {
      MulMonotone(M, maxN, N);
      MulMonotone(N, maxN, maxN);
      Build(grid, S, ts, g);
      mesh := g;
      solved := true;
    }

    /** `a` and `b` have the same length and agree from index `lo` on. */
    static ghost predicate AgreeFrom(a: seq<real>, b: seq<real>, lo: int) {
      |a| == |b| && forall k :: 0 <= k < |a| && lo <= k ==> a[k] == b[k]
    }

    /** The price axis (GridNOP1D_S3_RKC1.hpp:104-118): its upper end `B` is
        the expected price at expiry plus `BFactor` standard deviations, the
        first step `B / Nints`, the index of `S0` that step rounded to
        nearest; when that index is not 0 the step becomes `S0 / i0`. (The
        source then recomputes `B` from the new step and never reads it.)
        `h = S0 / i0` is +INFINITY, and the run stops, exactly when `i0` is 0. */
    static method SizeAxis(s: Setup, exp: real -> real, sqrt: real -> real, M: int,
                           ESlast: real, VarLast: real) returns (i0: int, h: real)
      requires SetupOk(s) && ExpOk(exp) && SqrtOk(sqrt) && Timed(s) && M == TimePoints(s)
      requires ESlast == ESAt(s, exp, M - 1) && VarLast == VarAt(s, exp, M - 1)
      ensures i0 == I0(s, exp, sqrt) && 0 <= i0 <= s.Nints
      ensures i0 != 0 ==> h == Spacing0(s, exp, sqrt) && h > 0.0
    {
      var B := UpperEnd(ESlast, VarLast, s.BFactor, sqrt);
      IndexFrom(s, exp, sqrt, ESlast, VarLast, B);
      h := B / s.Nints as real;
      i0 := Round(s.S0 / h);
      if i0 != 0 {
        h := s.S0 / i0 as real;
      }
    }

    /** The timeline and the two curves (GridNOP1D_S3_RKC1.hpp:74-102): the
        curves start at `S0` and 0; each time point adds a step of the
        clamped rate differential to the integrated rate and a step of
        `sigma^2 tau` to the variance. */
    static method FillCurves(ts: array<real>, ES: array<real>, VarS: array<real>, s: Setup,
                             exp: real -> real, M: int, tau: real)
      requires RatesOk(s) && Timed(s) && M == TimePoints(s) && tau == Tau(s)
      requires M <= ts.Length && M <= ES.Length && M <= VarS.Length
      requires ts != ES && ts != VarS && ES != VarS
      modifies ts, ES, VarS
      ensures ts[..M] == Times(s) && ES[..M] == ESCurve(s, exp) && VarS[..M] == VarCurve(s, exp)
      ensures ts[M..] == old(ts[M..]) && ES[M..] == old(ES[M..]) && VarS[M..] == old(VarS[M..])
    {
      ghost var ts0, ES0, VarS0 := ts[..], ES[..], VarS[..];
      var integrAB := 0.0;
      ES[0] := s.S0;
      VarS[0] := 0.0;
      var j := 0;
      while j < M
        invariant CurvesUpTo(ts[..], ES[..], VarS[..], s, exp, M, j)
        invariant j < M ==> integrAB == Integr(s, j)
        invariant AgreeFrom(ts[..], ts0, M) && AgreeFrom(ES[..], ES0, M) && AgreeFrom(VarS[..], VarS0, M)
      {
        integrAB := CurvePoint(ts, ES, VarS, s, exp, M, tau, j, integrAB);
        j := j + 1;
      }
      CurvesDone(ts[..], ES[..], VarS[..], s, exp, M);
      assert ts[M..] == ts0[M..] && ES[M..] == ES0[M..] && VarS[M..] == VarS0[M..];
    }

    /** The timeline holds its first `j` points and the curves their first
        `j + 1` (all `M` once `j` reaches `M`). */
    static ghost predicate CurvesUpTo(tsq: seq<real>, esq: seq<real>, vsq: seq<real>, s: Setup,
                                      exp: real -> real, M: int, j: int)
      requires RatesOk(s) && Timed(s)
    {
      0 <= j <= M && M <= |tsq| && M <= |esq| && M <= |vsq| &&
      (forall k :: 0 <= k < j ==> tsq[k] == GridTime(s, k)) &&
      (forall k :: 0 <= k <= j && k < M ==> esq[k] == ESAt(s, exp, k)) &&
      (forall k :: 0 <= k <= j && k < M ==> vsq[k] == VarAt(s, exp, k))
    }

    static lemma CurvesDone(tsq: seq<real>, esq: seq<real>, vsq: seq<real>, s: Setup, exp: real -> real, M: int)
      requires RatesOk(s) && Timed(s) && M == TimePoints(s) && CurvesUpTo(tsq, esq, vsq, s, exp, M, M)
      ensures tsq[..M] == Times(s) && esq[..M] == ESCurve(s, exp) && vsq[..M] == VarCurve(s, exp)
    {
    }

    /** Time point `j` of the timeline, and the curves at the next point. */
    static method CurvePoint(ts: array<real>, ES: array<real>, VarS: array<real>, s: Setup,
                             exp: real -> real, M: int, tau: real, j: int, integrAB: real)
      returns (integrNext: real)
      requires RatesOk(s) && Timed(s) && tau == Tau(s) && j < M
      requires ts != ES && ts != VarS && ES != VarS
      requires CurvesUpTo(ts[..], ES[..], VarS[..], s, exp, M, j) && integrAB == Integr(s, j)
      modifies ts, ES, VarS
      ensures CurvesUpTo(ts[..], ES[..], VarS[..], s, exp, M, j + 1)
      ensures j < M - 1 ==> integrNext == Integr(s, j + 1)
      ensures forall k :: M <= k < ts.Length ==> ts[k] == old(ts[k])
      ensures forall k :: M <= k < ES.Length ==> ES[k] == old(ES[k])
      ensures forall k :: M <= k < VarS.Length ==> VarS[k] == old(VarS[k])
    {
      ghost var ts0, ES0, VarS0 := ts[..], ES[..], VarS[..];
      var t := YearFrac(s.t0 + j * (s.tauMins * 60));
      ts[j] := t;
      integrNext := integrAB;
      if j < M - 1 {
        var esNext, varNext;
        integrNext, esNext, varNext := NextCurves(s, exp, j, t, integrAB, ES[j], VarS[j], tau);
        ES[j + 1] := esNext;
        VarS[j + 1] := varNext;
        CurvesExtend(ts0, ES0, VarS0, ts[..], ES[..], VarS[..], s, exp, M, j);
      } else {
        CurvesExtend(ts0, ES0, VarS0, ts[..], ES[..], VarS[..], s, exp, M, j);
      }
    }

    /** Time point `j` of the timeline written, and the next point of both
        curves when there is one. */
    static lemma CurvesExtend(tsq: seq<real>, esq: seq<real>, vsq: seq<real>,
                              tsq': seq<real>, esq': seq<real>, vsq': seq<real>,
                              s: Setup, exp: real -> real, M: int, j: int)
      requires RatesOk(s) && Timed(s) && j < M && CurvesUpTo(tsq, esq, vsq, s, exp, M, j)
      requires tsq' == tsq[j := GridTime(s, j)]
      requires j < M - 1 ==> esq' == esq[j + 1 := ESAt(s, exp, j + 1)] && vsq' == vsq[j + 1 := VarAt(s, exp, j + 1)]
      requires j == M - 1 ==> esq' == esq && vsq' == vsq
      ensures CurvesUpTo(tsq', esq', vsq', s, exp, M, j + 1)
    {
      forall k | 0 <= k < j + 1 ensures tsq'[k] == GridTime(s, k) {
        if k < j {
          assert tsq'[k] == tsq[k];
        }
      }
      forall k | 0 <= k <= j + 1 && k < M ensures esq'[k] == ESAt(s, exp, k) && vsq'[k] == VarAt(s, exp, k) {
        if k <= j {
          assert esq'[k] == esq[k] && vsq'[k] == vsq[k];
        }
      }
    }

    /** From the values at time point `j`: the clamped rate differential
        at `t_j` integrated over one more step, the expected price at the
        next point, and one more step of `sigma^2 tau` of variance with
        `sigma` at the expected price and time of point `j`. */
    static method NextCurves(s: Setup, exp: real -> real, j: int, t: real, integrAB: real, es: real,
                             vs: real, tau: real)
      returns (integrNext: real, esNext: real, varNext: real)
      requires RatesOk(s) && Timed(s) && tau == Tau(s) && j >= 0 && t == GridTime(s, j)
      requires integrAB == Integr(s, j) && es == ESAt(s, exp, j) && vs == VarAt(s, exp, j)
      ensures integrNext == Integr(s, j + 1) && esNext == ESAt(s, exp, j + 1) && varNext == VarAt(s, exp, j + 1)
    {
      var rA := R(s.irpA, s.o.assetA, t);
      var rB := R(s.irpB, s.o.assetB, t);
      var rateDiff := MaxR(rB - rA, 0.0);
      integrNext := integrAB + rateDiff * tau;
      esNext := s.S0 * exp(integrNext);
      var sigma := Sigma(s.diff, es, t);
      varNext := vs + Spread(sigma, tau);
      IntegrNext(s, j, integrAB, t, rateDiff, tau, integrNext);
      ESNext(s, exp, j, integrNext, esNext);
      VarNext(s, exp, j, es, vs, t, sigma, tau, varNext);
    }

    /** The price axis, the payoff layer or the initial density, the
        boundary values, and every layer (GridNOP1D_S3_RKC1.hpp:125-232). */
    static method Build(grid: array<real>, S: array<real>, ts: array<real>, g: Mesh)
      requires MeshOk(g) && grid != S && grid != ts && S != ts
      requires g.N <= S.Length && g.M <= ts.Length && ts[..g.M] == g.ts && g.M * g.N <= grid.Length
      modifies grid, S
      ensures S[..g.N] == SLine(g) && S[g.N..] == old(S[g.N..])
      ensures grid[..g.M * g.N] == Flatten(Layers(g))
      ensures forall k :: g.M * g.N <= k < grid.Length ==> grid[k] == old(grid[k])
    {
      LayerSlot(g.M, g.N, g.M - 1);
      var last := (g.M - 1) * g.N;
      FillSLine(S, grid, ts, g, last);
      if g.fwd {
        FillInitial(grid, g);
      }
      var fa, isNeumann, UBC := BoundaryValues(grid, g, last);
      FillLowBound(grid, g.M, g.N, fa);
      if g.fwd {
        assert grid[..g.N] == Initial(g);
        MarchForward(grid, S, g, fa, isNeumann, UBC);
      } else {
        MarchBackward(grid, S, g, fa, isNeumann, UBC);
      }
    }

    /** The boundary values of a run (GridNOP1D_S3_RKC1.hpp:149-164): the
        bottom value `fa` and the upper boundary term, both read off the
        payoff layer of a backward run, and 0 in a forward run. */
    static method BoundaryValues(grid: array<real>, g: Mesh, last: int) returns (fa: real, isNeumann: bool, UBC: real)
      requires MeshOk(g) && 0 <= last && last + g.N <= grid.Length
      requires !g.fwd ==> grid[last .. last + g.N] == Terminal(g)
      ensures fa == Fa(g) && isNeumann == Neumann(g) && UBC == GridSpec.UBC(g)
    {
      // the payoff layer is read in backward runs only
      fa := if g.fwd then 0.0 else grid[last];
      isNeumann := false;
      UBC := 0.0;
      if !g.fwd {
        isNeumann := grid[last + g.N - 1] != 0.0;
        UBC := if isNeumann then grid[last + g.N - 1] - grid[last + g.N - 2] else 0.0;
      }
    }

    /** The price axis `S[i] = i h`, and in a backward run the payoff at
        every node at expiry in the last layer. */
    static method FillSLine(S: array<real>, grid: array<real>, ts: array<real>, g: Mesh, last: int)
      requires MeshOk(g) && grid != S && S != ts && grid != ts
      requires g.N <= S.Length && g.M <= ts.Length && ts[..g.M] == g.ts
      requires 0 <= last && last + g.N <= grid.Length
      modifies S, grid
      ensures S[..g.N] == SLine(g) && S[g.N..] == old(S[g.N..])
      ensures !g.fwd ==> grid[last .. last + g.N] == Terminal(g)
      ensures grid[..last] == old(grid[..last]) && grid[last + g.N..] == old(grid[last + g.N..])
      ensures g.fwd ==> grid[..] == old(grid[..])
    {
      ghost var S0, grid0 := S[..], grid[..];
      var i := 0;
      while i < g.N
        invariant 0 <= i <= g.N
        invariant SLineUpTo(S[..], grid[..], g, last, i)
        invariant AgreeFrom(S[..], S0, i)
        invariant AgreeOutside(grid[..], grid0, last, if g.fwd then last else last + i)
      {
        SLinePoint(S, grid, ts, g, last, i);
        i := i + 1;
      }
      SLineDone(S[..], grid[..], S0, grid0, g, last);
    }

    /** The first `i` prices of the axis are in place, and so are the first
        `i` payoffs of a backward run. */
    static ghost predicate SLineUpTo(sq: seq<real>, gq: seq<real>, g: Mesh, last: int, i: int)
      requires MeshOk(g)
    {
      0 <= i <= g.N <= |sq| && 0 <= last && last + g.N <= |gq| &&
      (forall k :: 0 <= k < i ==> sq[k] == Node(g, k)) &&
      (!g.fwd ==> forall k :: last <= k < last + i ==> gq[k] == Intrinsic(g, k - last, g.ts[g.M - 1]))
    }

    /** The price and, in a backward run, the payoff at node `i`. */
    static method SLinePoint(S: array<real>, grid: array<real>, ts: array<real>, g: Mesh, last: int, i: int)
      requires MeshOk(g) && grid != S && S != ts && grid != ts && 0 <= i < g.N
      requires g.N <= S.Length && g.M <= ts.Length && ts[..g.M] == g.ts
      requires SLineUpTo(S[..], grid[..], g, last, i)
      modifies S, grid
      ensures SLineUpTo(S[..], grid[..], g, last, i + 1)
      ensures forall k :: 0 <= k < S.Length && k != i ==> S[k] == old(S[k])
      ensures forall k :: 0 <= k < grid.Length && (g.fwd || k != last + i) ==> grid[k] == old(grid[k])
    {
      ghost var sq0, gq0 := S[..], grid[..];
      S[i] := i as real * g.h;
      assert S[i] == Node(g, i);
      assert S[..] == sq0[i := Node(g, i)];
      if !g.fwd {
        assert ts[g.M - 1] == g.ts[g.M - 1];
        grid[last + i] := Payoff(g.o, 1, [S[i]], [ts[g.M - 1]]);
      }
      SLineExtend(sq0, gq0, S[..], grid[..], g, last, i);
    }

    /** One more node of the axis, and of the payoff layer in a backward
        run. */
    static lemma SLineExtend(sq0: seq<real>, gq0: seq<real>, sq: seq<real>, gq: seq<real>, g: Mesh,
                             last: int, i: int)
      requires MeshOk(g) && 0 <= i < g.N && SLineUpTo(sq0, gq0, g, last, i)
      requires sq == sq0[i := Node(g, i)]
      requires gq == if g.fwd then gq0 else gq0[last + i := Intrinsic(g, i, g.ts[g.M - 1])]
      ensures SLineUpTo(sq, gq, g, last, i + 1)
    {
    }

    /** The whole axis in place, and the whole payoff layer in a backward
        run, with nothing else changed. */
    static lemma SLineDone(sq: seq<real>, gq: seq<real>, S0: seq<real>, grid0: seq<real>, g: Mesh, last: int)
      requires MeshOk(g) && SLineUpTo(sq, gq, g, last, g.N)
      requires AgreeFrom(sq, S0, g.N)
      requires AgreeOutside(gq, grid0, last, if g.fwd then last else last + g.N)
      ensures sq[..g.N] == SLine(g) && sq[g.N..] == S0[g.N..]
      ensures !g.fwd ==> gq[last .. last + g.N] == Terminal(g)
      ensures gq[..last] == grid0[..last] && gq[last + g.N..] == grid0[last + g.N..]
      ensures g.fwd ==> gq == grid0
    {
    }

    /** The delta function at `S0` in the first layer of a forward run. */
    static method FillInitial(grid: array<real>, g: Mesh)
      requires MeshOk(g) && g.N <= grid.Length
      modifies grid
      ensures grid[..g.N] == Initial(g) && grid[g.N..] == old(grid[g.N..])
    {
      var i := 0;
      while i < g.N
        invariant 0 <= i <= g.N
        invariant forall k :: 0 <= k < i ==> grid[k] == 0.0
        invariant grid[g.N..] == old(grid[g.N..])
      {
        grid[i] := 0.0;
        i := i + 1;
      }
      grid[g.i0] := 1.0 / g.h;
      assert grid[..g.N] == Initial(g);
    }

    /** The bottom node of every layer but the last set to `fa`; every other
        cell keeps its value. */
    static method FillLowBound(grid: array<real>, M: int, N: int, fa: real)
      requires 2 <= M && 2 <= N && M * N <= grid.Length
      modifies grid
      ensures grid[0] == fa && grid[1 .. N] == old(grid[1 .. N])
      ensures (M - 1) * N <= grid.Length && grid[(M - 1) * N..] == old(grid[(M - 1) * N..])
      ensures forall k :: 0 <= k < (M - 1) * N ==> grid[k] == if k % N == 0 then fa else old(grid[k])
    {
      LayerSlot(M, N, M - 1);
      var j := 0;
      while j < M - 1
        invariant 0 <= j <= M - 1
        invariant j > 0 ==> grid[0] == fa
        invariant grid[1 .. N] == old(grid[1 .. N])
        invariant grid[(M - 1) * N..] == old(grid[(M - 1) * N..])
        invariant forall k :: 0 <= k < j * N ==> grid[k] == if k % N == 0 then fa else old(grid[k])
        invariant forall k :: j * N <= k < grid.Length ==> grid[k] == old(grid[k])
      {
        LayerSlot(M, N, j);
        MulMonotone(j + 1, M - 1, N);
        if j > 0 {
          MulMonotone(1, j, N);
        }
        grid[j * N] := fa;
        forall k | j * N <= k < j * N + N
          ensures grid[k] == if k % N == 0 then fa else old(grid[k])
        {
          CellNode(N, j, k);
        }
        j := j + 1;
      }
    }

    /** What every step of the marching reads: the grid's price axis in `S`
        and the boundary values for the grid. */
    static ghost predicate Ready(S: array<real>, g: Mesh, fa: real, isNeumann: bool, UBC: real)
      reads S
    {
      MeshOk(g) && g.N <= S.Length && S[..g.N] == SLine(g) &&
      fa == Fa(g) && isNeumann == Neumann(g) && UBC == GridSpec.UBC(g)
    }

    /** Forward marching: layer `j+1` from layer `j`, for `j` from 0 up. */
    static method MarchForward(grid: array<real>, S: array<real>, g: Mesh, fa: real,
                               isNeumann: bool, UBC: real)
      requires MeshOk(g) && g.fwd && grid != S
      requires Ready(S, g, fa, isNeumann, UBC)
      requires g.M * g.N <= grid.Length && g.N <= grid.Length && grid[..g.N] == Initial(g)
      modifies grid
      ensures grid[..g.M * g.N] == Flatten(Layers(g))
      ensures forall k :: g.M * g.N <= k < grid.Length ==> grid[k] == old(grid[k])
    {
      ghost var ls := Layers(g);
      UpStart(grid, g, ls);
      MarchUp(grid, S, g, fa, isNeumann, UBC, ls);
      UpDone(grid, g, ls, (g.M - 1) * g.N);
    }

    /** The loop of forward marching, from layer 0 in place up to layer
        `M-1`. */
    static method MarchUp(grid: array<real>, S: array<real>, g: Mesh, fa: real,
                          isNeumann: bool, UBC: real, ghost ls: seq<seq<real>>)
      requires MeshOk(g) && g.fwd && grid != S && ls == Layers(g)
      requires Ready(S, g, fa, isNeumann, UBC)
      requires Marched(grid[..], g, ls, 0, 0)
      modifies grid
      ensures Marched(grid[..], g, ls, g.M - 1, (g.M - 1) * g.N)
      ensures forall k :: g.M * g.N <= k < grid.Length ==> grid[k] == old(grid[k])
    {
      ghost var a0 := grid[..];
      var j, off := 0, 0;
      while j <= g.M - 2
        invariant 0 <= j <= g.M - 1
        invariant Marched(grid[..], g, ls, j, off)
        invariant AgreeFrom(grid[..], a0, g.M * g.N)
      {
        ForwardLayers(g, j);
        ForwardStep(grid, S, g, fa, isNeumann, UBC, j, off, ls);
        j, off := j + 1, off + g.N;
      }
    }

    /** The initial density in place is the first layer in place. */
    static lemma UpStart(grid: array<real>, g: Mesh, ls: seq<seq<real>>)
      requires MeshOk(g) && g.fwd && ls == Layers(g)
      requires g.M * g.N <= grid.Length && g.N <= grid.Length && grid[..g.N] == Initial(g)
      ensures Marched(grid[..], g, ls, 0, 0)
    {
      assert Flatten(ls[..1]) == ls[0] by {
        assert ls[..1][..0] == [] && ls[0] == Layer(g, 0);
      }
      LayerSlot(g.M, g.N, 0);
    }

    /** The last layer in place means every layer is. */
    static lemma UpDone(grid: array<real>, g: Mesh, ls: seq<seq<real>>, off: int)
      requires MeshOk(g) && ls == Layers(g) && Marched(grid[..], g, ls, g.M - 1, off)
      ensures grid[..g.M * g.N] == Flatten(ls)
    {
      LayerSlot(g.M, g.N, g.M - 1);
      assert ls[..g.M] == ls;
    }

    /** The first `j + 1` layers of `ls` are in place in `grid`, layer `j`
        at `off`. */
    static ghost predicate Marched(grid: seq<real>, g: Mesh, ls: seq<seq<real>>, j: int, off: int) {
      0 <= j < |ls| && 1 <= g.N && off == j * g.N && 0 <= off && off + g.N <= g.M * g.N <= |grid| &&
      grid[..off + g.N] == Flatten(ls[..j + 1]) && grid[off .. off + g.N] == ls[j]
    }

    /** One forward step: the first `j + 1` layers in place give the first
        `j + 2`. */
    static method ForwardStep(grid: array<real>, S: array<real>, g: Mesh, fa: real,
                              isNeumann: bool, UBC: real, j: int, off: int, ghost ls: seq<seq<real>>)
      requires MeshOk(g) && grid != S && 0 <= j <= g.M - 2 && |ls| == g.M
      requires |ls[j]| == g.N && ls[j + 1] == Advance(g, ls[j], j)
      requires Ready(S, g, fa, isNeumann, UBC)
      requires Marched(grid[..], g, ls, j, off)
      modifies grid
      ensures Marched(grid[..], g, ls, j + 1, off + g.N)
      ensures AgreeFrom(grid[..], old(grid[..]), g.M * g.N)
    {
      LayerSlot(g.M, g.N, j + 1);
      MarchLayer(grid, S, g, j, off, off + g.N, fa, isNeumann, UBC);
      ForwardPlaced(old(grid[..]), grid[..], g, ls, j, off);
    }

    /** Writing layer `j + 1` right after the first `j + 1` layers, and
        nothing else, gives the first `j + 2` layers. */
    static lemma ForwardPlaced(a0: seq<real>, a: seq<real>, g: Mesh, ls: seq<seq<real>>, j: int, off: int)
      requires MeshOk(g) && 0 <= j <= g.M - 2 && |ls| == g.M && |a| == |a0|
      requires Marched(a0, g, ls, j, off) && off + 2 * g.N <= g.M * g.N
      requires ls[j + 1] == Advance(g, a0[off .. off + g.N], j)
      requires a[off + g.N .. off + 2 * g.N] == Advance(g, a0[off .. off + g.N], j)
      requires a[..off + g.N] == a0[..off + g.N] && a[off + 2 * g.N..] == a0[off + 2 * g.N..]
      ensures Marched(a, g, ls, j + 1, off + g.N)
      ensures AgreeFrom(a, a0, g.M * g.N)
    {
      var dst := off + g.N;
      assert a[..dst + g.N] == a[..dst] + a[dst .. dst + g.N];
      FlattenNext(ls, j + 1);
      forall k | 0 <= k < |a| && g.M * g.N <= k ensures a[k] == a0[k] {
        assert a[k] == a[dst + g.N..][k - (dst + g.N)];
      }
    }

    /** Backward marching: layer `j-1` from layer `j`, for `j` from `M-1`
        down. */
    static method MarchBackward(grid: array<real>, S: array<real>, g: Mesh, fa: real,
                                isNeumann: bool, UBC: real)
      requires MeshOk(g) && !g.fwd && grid != S
      requires Ready(S, g, fa, isNeumann, UBC)
      requires 0 <= (g.M - 1) * g.N && g.M * g.N <= grid.Length
      requires (g.M - 1) * g.N + g.N == g.M * g.N
      requires grid[(g.M - 1) * g.N .. g.M * g.N] == Terminal(g)
      modifies grid
      ensures grid[..g.M * g.N] == Flatten(Layers(g))
      ensures forall k :: g.M * g.N <= k < grid.Length ==> grid[k] == old(grid[k])
    {
      ghost var ls := Layers(g);
      DownStart(grid, g, ls);
      MarchDown(grid, S, g, fa, isNeumann, UBC, ls);
      assert grid[..g.M * g.N] == grid[0 .. g.M * g.N];
    }

    /** The payoff layer in place is the last layer in place. */
    static lemma DownStart(grid: array<real>, g: Mesh, ls: seq<seq<real>>)
      requires MeshOk(g) && !g.fwd && ls == Layers(g)
      requires 0 <= (g.M - 1) * g.N && g.M * g.N <= grid.Length
      requires (g.M - 1) * g.N + g.N == g.M * g.N
      requires grid[(g.M - 1) * g.N .. g.M * g.N] == Terminal(g)
      ensures MarchedDown(grid, g, ls, g.M - 1, (g.M - 1) * g.N)
    {
      FlattenFront(ls, g.M - 1);
      assert ls[g.M..] == [] && ls[g.M - 1] == Layer(g, g.M - 1);
    }

    /** The loop of backward marching, from layer `M-1` in place down to
        layer 0. */
    static method MarchDown(grid: array<real>, S: array<real>, g: Mesh, fa: real,
                            isNeumann: bool, UBC: real, ghost ls: seq<seq<real>>)
      requires MeshOk(g) && !g.fwd && grid != S && ls == Layers(g)
      requires Ready(S, g, fa, isNeumann, UBC)
      requires MarchedDown(grid, g, ls, g.M - 1, (g.M - 1) * g.N)
      modifies grid
      ensures MarchedDown(grid, g, ls, 0, 0)
      ensures forall k :: g.M * g.N <= k < grid.Length ==> grid[k] == old(grid[k])
    {
      ghost var a0 := grid[..];
      var j, off := g.M - 1, (g.M - 1) * g.N;
      while j >= 1
        invariant MarchedDown(grid, g, ls, j, off)
        invariant AgreeFrom(grid[..], a0, g.M * g.N)
      {
        BackwardLayers(g, j);
        BackwardStep(grid, S, g, fa, isNeumann, UBC, j, off, ls);
        j, off := j - 1, off - g.N;
      }
    }

    /** The layers of `ls` from `j` on are in place in `grid`, layer `j` at
        `off`. */
    static ghost predicate MarchedDown(grid: array<real>, g: Mesh, ls: seq<seq<real>>, j: int, off: int)
      reads grid
    {
      0 <= j < |ls| && 1 <= g.N && off == j * g.N && 0 <= off && off + g.N <= g.M * g.N <= grid.Length &&
      grid[off .. g.M * g.N] == Flatten(ls[j..]) && grid[off .. off + g.N] == ls[j]
    }

    /** One backward step: the layers from `j` on in place give the layers
        from `j - 1` on. */
    static method BackwardStep(grid: array<real>, S: array<real>, g: Mesh, fa: real,
                               isNeumann: bool, UBC: real, j: int, off: int, ghost ls: seq<seq<real>>)
      requires MeshOk(g) && grid != S && 1 <= j <= g.M - 1 && |ls| == g.M
      requires |ls[j]| == g.N && ls[j - 1] == Advance(g, ls[j], j)
      requires Ready(S, g, fa, isNeumann, UBC)
      requires MarchedDown(grid, g, ls, j, off)
      modifies grid
      ensures MarchedDown(grid, g, ls, j - 1, off - g.N)
      ensures AgreeFrom(grid[..], old(grid[..]), g.M * g.N)
    {
      LayerSlot(g.M, g.N, j - 1);
      var src, dst := off, off - g.N;
      ghost var done := grid[src .. g.M * g.N];
      MarchLayer(grid, S, g, j, src, dst, fa, isNeumann, UBC);
      assert grid[src .. g.M * g.N] == done;
      assert grid[dst .. g.M * g.N] == grid[dst .. src] + grid[src .. g.M * g.N];
      FlattenFront(ls, j - 1);
    }

    /** One layer (GridNOP1D_S3_RKC1.hpp:173-231): the bottom value, the explicit
        update `f[i] - tau * DfDt` at every inner node, the top node, and for American
        options the early-exercise floor at the source layer's time. */
    static method MarchLayer(grid: array<real>, S: array<real>, g: Mesh, j: int, src: int, dst: int,
                             fa: real, isNeumann: bool, UBC: real)
      requires MeshOk(g) && 0 <= j < g.M && grid != S
      requires Ready(S, g, fa, isNeumann, UBC)
      requires 0 <= src && src + g.N <= grid.Length && 0 <= dst && dst + g.N <= grid.Length
      requires src + g.N <= dst || dst + g.N <= src
      modifies grid
      ensures grid[dst .. dst + g.N] == Advance(g, old(grid[src .. src + g.N]), j)
      ensures grid[..dst] == old(grid[..dst]) && grid[dst + g.N..] == old(grid[dst + g.N..])
    {
      StepNodes(grid, S, g, j, src, dst, fa, isNeumann, UBC);
      if g.o.isAmerican {
        ExerciseFloor(grid, S, g, j, dst);
      }
    }

    /** Every node of the layer at `dst` before the early-exercise floor,
        from the layer at `src`. */
    static method StepNodes(grid: array<real>, S: array<real>, g: Mesh, j: int, src: int, dst: int,
                            fa: real, isNeumann: bool, UBC: real)
      requires MeshOk(g) && 0 <= j < g.M && grid != S
      requires Ready(S, g, fa, isNeumann, UBC)
      requires 0 <= src && src + g.N <= grid.Length && 0 <= dst && dst + g.N <= grid.Length
      requires src + g.N <= dst || dst + g.N <= src
      modifies grid
      ensures grid[dst .. dst + g.N] == PreLayer(g, old(grid[src .. src + g.N]), j)
      ensures grid[..dst] == old(grid[..dst]) && grid[dst + g.N..] == old(grid[dst + g.N..])
    {
      ghost var a0 := grid[..];
      ghost var f := a0[src .. src + g.N];
      var N, h := g.N, g.h;
      var tj := g.ts[j];
      var rateAj := R(g.irpA, g.o.assetA, tj);
      var rateBj := R(g.irpB, g.o.assetB, tj);
      var C1 := (rateBj - rateAj) / (2.0 * h);
      grid[dst] := fa;
      InnerNodes(grid, S, g, f, j, src, dst, C1, rateBj, a0);
      assert grid[dst + N - 2] == PreNode(g, f, j, N - 2);
      grid[dst + N - 1] := if !g.fwd && isNeumann then grid[dst + N - 2] + UBC else UBC;
      StepDone(grid[..], a0, g, f, j, src, dst);
    }

    /** Every node of the layer at `dst` in place, and the cells around it
        as they were. */
    static lemma StepDone(a: seq<real>, a0: seq<real>, g: Mesh, f: seq<real>, j: int, src: int, dst: int)
      requires MeshOk(g) && 0 <= j < g.M && |f| == g.N
      requires 0 <= src && src + g.N <= |a| && 0 <= dst && dst + g.N <= |a|
      requires AgreeOutside(a, a0, dst, dst + g.N) && a0[src .. src + g.N] == f
      requires forall k :: dst <= k < dst + g.N - 1 ==> a[k] == PreNode(g, f, j, k - dst)
      requires a[dst + g.N - 1] == PreNode(g, f, j, g.N - 1)
      ensures a[dst .. dst + g.N] == PreLayer(g, f, j)
      ensures a[..dst] == a0[..dst] && a[dst + g.N..] == a0[dst + g.N..]
    {
      LayerAt(a, dst, PreLayer(g, f, j));
      Untouched(a, a0, dst, dst + g.N, 0, dst);
      Untouched(a, a0, dst, dst + g.N, dst + g.N, |a| - dst - g.N);
    }

    /** The inner nodes `1 .. N-2` of the layer at `dst`, each by the
        explicit update from the layer `f` at `src`. */
    static method InnerNodes(grid: array<real>, S: array<real>, g: Mesh, ghost f: seq<real>, j: int,
                             src: int, dst: int, C1: real, rateBj: real, ghost a0: seq<real>)
      requires MeshOk(g) && 0 <= j < g.M && grid != S && |f| == g.N
      requires g.N <= S.Length && S[..g.N] == SLine(g)
      requires 0 <= src && src + g.N <= grid.Length && 0 <= dst && dst + g.N <= grid.Length
      requires src + g.N <= dst || dst + g.N <= src
      requires C1 == (R(g.irpB, g.o.assetB, g.ts[j]) - R(g.irpA, g.o.assetA, g.ts[j])) / (2.0 * g.h)
      requires |a0| == grid.Length && a0[src .. src + g.N] == f
      requires AgreeOutside(grid[..], a0, dst, dst + g.N) && grid[dst] == PreNode(g, f, j, 0)
      modifies grid
      ensures forall k :: dst <= k < dst + g.N - 1 ==> grid[k] == PreNode(g, f, j, k - dst)
      ensures AgreeOutside(grid[..], a0, dst, dst + g.N)
    {
      var i := 1;
      while i <= g.N - 2
        invariant 1 <= i <= g.N - 1
        invariant forall k :: dst <= k < dst + i ==> grid[k] == PreNode(g, f, j, k - dst)
        invariant AgreeOutside(grid[..], a0, dst, dst + g.N)
      {
        Untouched(grid[..], a0, dst, dst + g.N, src, g.N);
        var v := InnerNode(grid, S, g, f, j, src, i, C1, rateBj);
        grid[dst + i] := v;
        i := i + 1;
      }
    }

    /** Cells `[src, src + n)` that lie outside the cells `[lo, hi)` that
        changed are as they were. */
    static lemma Untouched(a: seq<real>, a0: seq<real>, lo: int, hi: int, src: int, n: int)
      requires 0 <= src && 0 <= n && src + n <= |a| && (src + n <= lo || hi <= src)
      requires AgreeOutside(a, a0, lo, hi)
      ensures a[src .. src + n] == a0[src .. src + n]
    {
    }

    /** Cells `dst ..` of `a` that hold the values of `layer` form it. */
    static lemma LayerAt(a: seq<real>, dst: int, layer: seq<real>)
      requires 0 <= dst && dst + |layer| <= |a|
      requires forall k :: dst <= k < dst + |layer| ==> a[k] == layer[k - dst]
      ensures a[dst .. dst + |layer|] == layer
    {
    }

    /** The explicit update `f[i] - tau * DfDt` at inner node `i`. Forward runs use the
        Fokker-Planck derivative; backward runs compute the Black-Scholes-
        Merton derivative into a local of its own, and the step still sees
        `DfDt == 0`. */
    static method InnerNode(grid: array<real>, S: array<real>, g: Mesh, ghost f: seq<real>, j: int,
                            src: int, i: int, C1: real, rateBj: real) returns (v: real)
      requires MeshOk(g) && 0 <= j < g.M && |f| == g.N && 1 <= i <= g.N - 2
      requires g.N <= S.Length && S[..g.N] == SLine(g)
      requires 0 <= src && src + g.N <= grid.Length
      requires grid[src .. src + g.N] == f
      requires C1 == (R(g.irpB, g.o.assetB, g.ts[j]) - R(g.irpA, g.o.assetA, g.ts[j])) / (2.0 * g.h)
      ensures v == Interior(g, f, j, i)
    {
      var tj := g.ts[j];
      var Si := S[i];
      var fjiM, fji, fjiP := grid[src + i - 1], grid[src + i], grid[src + i + 1];
      assert fjiM == f[i - 1] && fji == f[i] && fjiP == f[i + 1];
      var sigma := Sigma(g.diff, Si, tj);
      SquarePositive(g.h, 2.0 * g.h * g.h);
      var DfDt := 0.0;
      if g.fwd {
        var SiM, SiP := S[i - 1], S[i + 1];
        assert Si == Node(g, i) && SiM == Node(g, i - 1) && SiP == Node(g, i + 1);
        var sigmaP, sigmaM := Sigma(g.diff, SiP, tj), Sigma(g.diff, SiM, tj);
        InteriorForward(g, f, j, i, C1, sigmaM, sigma, sigmaP);
        DfDt := FokkerPlanck(C1, g.h, SiM, SiP, sigmaM, sigma, sigmaP, fjiM, fji, fjiP);
      } else {
        var shadowed := rateBj * fji - C1 * Si * (fjiP - fjiM)
                        - sigma * sigma / (2.0 * g.h * g.h) * (fjiP - 2.0 * fji + fjiM);
      }
      v := fji - g.tau * DfDt;
    }

    /** The early-exercise floor of an American option on the layer at
        `dst`: each node at least the payoff at its price and at time `t_j`. */
    static method ExerciseFloor(grid: array<real>, S: array<real>, g: Mesh, j: int, dst: int)
      requires MeshOk(g) && 0 <= j < g.M && grid != S
      requires g.N <= S.Length && S[..g.N] == SLine(g)
      requires 0 <= dst && dst + g.N <= grid.Length
      modifies grid
      ensures grid[dst .. dst + g.N] == Floor(g, old(grid[dst .. dst + g.N]), j)
      ensures grid[..dst] == old(grid[..dst]) && grid[dst + g.N..] == old(grid[dst + g.N..])
    {
      ghost var a0 := grid[..];
      var N, tj := g.N, g.ts[j];
      var i := 0;
      while i < N
        invariant 0 <= i <= N
        invariant forall k :: dst <= k < dst + i ==> grid[k] == MaxR(a0[k], Intrinsic(g, k - dst, tj))
        invariant AgreeOutside(grid[..], a0, dst, dst + i)
      {
        var intrVal := Payoff(g.o, 1, [S[i]], [tj]);
        assert S[i] == Node(g, i);
        grid[dst + i] := MaxR(grid[dst + i], intrVal);
        i := i + 1;
      }
      FloorDone(grid[..], a0, g, j, dst);
    }

    /** The floor in place at every node of the layer at `dst`, and the
        cells around it as they were. */
    static lemma FloorDone(a: seq<real>, a0: seq<real>, g: Mesh, j: int, dst: int)
      requires MeshOk(g) && 0 <= j < g.M && 0 <= dst && dst + g.N <= |a|
      requires AgreeOutside(a, a0, dst, dst + g.N)
      requires forall k :: dst <= k < dst + g.N ==> a[k] == MaxR(a0[k], Intrinsic(g, k - dst, g.ts[j]))
      ensures a[dst .. dst + g.N] == Floor(g, a0[dst .. dst + g.N], j)
      ensures a[..dst] == a0[..dst] && a[dst + g.N..] == a0[dst + g.N..]
    {
      LayerAt(a, dst, Floor(g, a0[dst .. dst + g.N], j));
      Untouched(a, a0, dst, dst + g.N, 0, dst);
      Untouched(a, a0, dst, dst + g.N, dst + g.N, |a| - dst - g.N);
    }

    /** The cells the Greeks read: `i0` and its neighbours inside the first
        layer, with two nodes on the price axis at distinct prices. */
    ghost predicate Readable()
      reads this, grid, S
    {
      2 <= N <= S.Length && N <= grid.Length && 0 <= i0 < N && S[1] != S[0]
    }

    /** `GetPxDeltaGamma0`: the price at `S0` from the first layer, its delta
        and its gamma, with the price step taken as the distance between the
        first two nodes. After a run these are the Greeks of the run's first
        layer at `i0` on the run's price step. */
    function GetPxDeltaGamma0(): (r: Result<(real, real, real)>)
      reads this, grid, ts, S
      requires Valid() && (M == 0 || N == 0 || solved || Readable())
      ensures r.Err? <==> M == 0 || N == 0
      ensures r.Err? ==> r.error == RuntimeError("Run BI first")
      ensures r.Ok? ==> Readable() && r.value.0 == grid[i0]
      ensures r.Ok? && solved ==> r.value == Greeks(Layer(mesh, 0), mesh.i0, mesh.h)
    {
      if M == 0 || N == 0 then Err(RuntimeError("Run BI first"))
      else
        FirstLayerReadable();
        Ok(Greeks(grid[..N], i0, Spacing(S[..2])))
    }

    /** After a run the Greeks can read the grid, and its first `N` cells are
        the run's first layer, on an axis whose step is the run's. */
    lemma FirstLayerReadable()
      requires Valid()
      ensures solved ==> Readable() && S[1] - S[0] == mesh.h
      ensures solved ==> grid[..N] == Layer(mesh, 0) && i0 == mesh.i0
    {
      if solved {
        var ls := Layers(mesh);
        FlattenBlock(ls, 0);
        assert ls[..0] == [];
        assert S[1] == SLine(mesh)[1] && S[0] == SLine(mesh)[0];
        assert grid[..N] == grid[..M * N][..N];
      }
    }
  }
}
