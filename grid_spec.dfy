/** What the finite-difference grid solver computes, stated as functions of
    its inputs: the time grid, the expected-price and variance curves that
    size the price axis, the price axis itself, and the grid layers one
    explicit Euler step apart. */
module GridSpec {
  import opened Numerics
  import opened Errors
  import opened Time
  import opened IRProvider
  import opened IRProviderConst
  import opened Options
  import opened VanillaOption
  import opened Diffusion1D
  import opened PathEval
  import opened MCPaths

  /** The arguments of one run besides the buffers: the option, the process,
      the two rate providers, the price today `S0`, the start time `t0`, the
      number of price intervals `Nints`, the time step in minutes, the
      number of standard deviations above the expected price where the
      price axis ends, and the direction (forward: Fokker-Planck for the
      density; backward: induction from the payoff). */
  datatype Setup = Setup(o: Option, diff: Diffusion, irpA: ConstRates, irpB: ConstRates,
                         S0: real, t0: int, Nints: int, tauMins: int, BFactor: real, fwd: bool)

  /** The rate lookups are defined: both tables are full and both assets are
      currencies. */
  ghost predicate RatesOk(s: Setup) {
    s.irpA.Valid() && s.irpB.Valid() && IsCurrency(s.o.assetA) && IsCurrency(s.o.assetB)
  }

  /** What the solver asserts of its arguments. */
  ghost predicate SetupOk(s: Setup) {
    RatesOk(s) && s.S0 > 0.0 && s.Nints > 0 && s.tauMins > 0 && s.BFactor > 0.0
  }

  function TauSec(s: Setup): int {
    s.tauMins * 60
  }

  /** The option expires at least one time step after `t0`; exactly the runs
      that pass the "already expired or too close" check. */
  predicate Timed(s: Setup) {
    s.tauMins > 0 && s.o.expirTime - s.t0 >= TauSec(s)
  }

  /** Time to expiry as a year fraction. */
  function TTE(s: Setup): real {
    YearFracInt(s.o.expirTime - s.t0)
  }

  /** Whole time steps to expiry, `(expiry - t0) / tauSec` in C++ integer
      division. */
  function Mints(s: Setup): (r: int)
    requires s.tauMins > 0
    // at least one whole step exactly when the expiry is a step or more away
    ensures r >= 1 <==> s.o.expirTime - s.t0 >= TauSec(s)
  {
    TruncDiv(s.o.expirTime - s.t0, TauSec(s))
  }

  /** The number of time points `M = Mints + 1`. */
  function TimePoints(s: Setup): (r: int)
    requires s.tauMins > 0
    // two points or more exactly when the expiry is a step or more away
    ensures r >= 2 <==> s.o.expirTime - s.t0 >= TauSec(s)
  {
    Mints(s) + 1
  }

  /** The time step as a year fraction, `TTE / Mints`. */
  function Tau(s: Setup): (r: real)
    requires Timed(s)
    ensures r > 0.0
  {
    MintsPositive(s);
    YearFracIntPositive(s.o.expirTime - s.t0);
    TTE(s) / Mints(s) as real
  }

  lemma MintsPositive(s: Setup)
    requires Timed(s)
    ensures Mints(s) >= 1
  {
    TimeSteps(s);
  }

  /** The time steps fit between `t0` and the expiry, the last one possibly
      short of it by less than a step: `Mints` steps of `tauSec` seconds
      cover the time to expiry up to less than one step, and `Mints` steps
      of `Tau` make exactly the time to expiry. */
  lemma TimeSteps(s: Setup)
    requires Timed(s)
    ensures Mints(s) >= 1 && TimePoints(s) >= 2
    ensures Mints(s) * TauSec(s) <= s.o.expirTime - s.t0 < Mints(s) * TauSec(s) + TauSec(s)
  {
    DivMul(s.o.expirTime - s.t0, TauSec(s));
  }

  /** `Mints` steps of `Tau` make exactly the time to expiry. */
  lemma TauSplitsTTE(s: Setup)
    requires Timed(s)
    ensures Tau(s) * Mints(s) as real == TTE(s)
  {
    TimeSteps(s);
  }

  /** The "already expired or too close" check passes exactly when the
      option expires at least one step after `t0`. */
  lemma TimedIff(s: Setup)
    requires s.tauMins > 0
    ensures Timed(s) <==> TTE(s) > 0.0 && Mints(s) > 0
  {
    if Timed(s) {
      YearFracIntPositive(s.o.expirTime - s.t0);
    }
  }

  /** Time point `j` as a year fraction: `t0 + j * tauSec` seconds. */
  function GridTime(s: Setup, j: int): real {
    YearFrac(s.t0 + j * TauSec(s))
  }

  /** The timeline `m_ts[0 .. M)`. */
  function Times(s: Setup): (ts: seq<real>)
    requires Timed(s)
    ensures |ts| == TimePoints(s)
  {
    TimeSteps(s);
    seq(TimePoints(s), j => GridTime(s, j))
  }

  /** The timeline starts at `t0`, increases strictly, and its last point is
      not after the expiry. */
  lemma TimesSpanToExpiry(s: Setup)
    requires Timed(s)
    ensures Times(s)[0] == YearFrac(s.t0)
    ensures forall j :: 0 <= j < |Times(s)| - 1 ==> Times(s)[j] < Times(s)[j + 1]
    ensures Times(s)[|Times(s)| - 1] <= YearFrac(s.o.expirTime)
  {
    TimeSteps(s);
    var ts := Times(s);
    forall j | 0 <= j < |ts| - 1 ensures ts[j] < ts[j + 1] {
      assert (j + 1) * TauSec(s) == j * TauSec(s) + TauSec(s);
      YearFracStrictlyIncreasing(s.t0 + j * TauSec(s), s.t0 + (j + 1) * TauSec(s));
    }
    if s.t0 + Mints(s) * TauSec(s) < s.o.expirTime {
      YearFracStrictlyIncreasing(s.t0 + Mints(s) * TauSec(s), s.o.expirTime);
    }
  }

  /** The positive part of `rB(t) - rA(t)`: cutting negative differentials
      keeps the price axis growing with time. */
  function RateDiff(s: Setup, t: real): (r: real)
    requires RatesOk(s)
    ensures r >= 0.0
  {
    MaxR(R(s.irpB, s.o.assetB, t) - R(s.irpA, s.o.assetA, t), 0.0)
  }

  /** The integrated rate differential after `j` steps. */
  function Integr(s: Setup, j: int): (r: real)
    requires RatesOk(s) && Timed(s) && j >= 0
    ensures r >= 0.0
    decreases j
  {
    if j == 0 then 0.0 else Integr(s, j - 1) + RateStep(s, j - 1)
  }

  /** The rate differential at time point `j` over one step. */
  function RateStep(s: Setup, j: int): (r: real)
    requires RatesOk(s) && Timed(s)
    ensures r >= 0.0
  {
    MulMonotoneReal(0.0, RateDiff(s, GridTime(s, j)), Tau(s));
    RateDiff(s, GridTime(s, j)) * Tau(s)
  }

  /** The expected price curve `E[S](t_j)`. */
  function ESAt(s: Setup, exp: real -> real, j: int): (r: real)
    requires RatesOk(s) && Timed(s) && j >= 0
    ensures j == 0 ==> r == s.S0
    ensures ExpOk(exp) && s.S0 >= 0.0 ==> r >= s.S0
  {
    assert ExpOk(exp) && s.S0 >= 0.0 ==> s.S0 * Growth(s, exp, j) >= s.S0 by {
      if ExpOk(exp) && s.S0 >= 0.0 {
        if j > 0 {
          assert 1.0 <= exp(Integr(s, j));
        }
        MulMonotoneReal(1.0, Growth(s, exp, j), s.S0);
      }
    }
    s.S0 * Growth(s, exp, j)
  }

  /** The growth factor of the expected price by time point `j`: 1 at the
      start, `exp` of the integrated rate differential after it. */
  function Growth(s: Setup, exp: real -> real, j: int): real
    requires RatesOk(s) && Timed(s) && j >= 0
  {
    if j == 0 then 1.0 else exp(Integr(s, j))
  }

  /** The growth factor starts at 1 and does not fall. */
  lemma GrowthStep(s: Setup, exp: real -> real, k: int)
    requires RatesOk(s) && ExpOk(exp) && Timed(s) && k >= 1
    ensures 1.0 <= Growth(s, exp, k - 1) <= Growth(s, exp, k)
  {
    assert Integr(s, k) == Integr(s, k - 1) + RateStep(s, k - 1);
  }

  /** The variance curve `Var[S](t_j)`: each step adds `sigma^2 tau`, with
      `sigma` taken at the expected price and the time of the step before. */
  function VarAt(s: Setup, exp: real -> real, j: int): (r: real)
    requires RatesOk(s) && Timed(s) && j >= 0
    ensures r >= 0.0
    decreases j
  {
    if j == 0 then 0.0 else VarAt(s, exp, j - 1) + VarStep(s, exp, j - 1)
  }

  /** The variance one step adds after time point `j`: `sigma^2 tau`, with
      `sigma` at the expected price and the time of point `j`. */
  function VarStep(s: Setup, exp: real -> real, j: int): (r: real)
    requires RatesOk(s) && Timed(s) && j >= 0
    ensures r >= 0.0
  {
    Spread(Sigma(s.diff, ESAt(s, exp, j), GridTime(s, j)), Tau(s))
  }

  /** The variance a volatility `sigma` spreads over a step `tau`. */
  function Spread(sigma: real, tau: real): (v: real)
    ensures tau >= 0.0 ==> v >= 0.0
  {
    assert sigma * sigma == Sq(sigma);
    assert tau >= 0.0 ==> sigma * sigma * tau >= 0.0 by {
      if tau >= 0.0 {
        MulMonotoneReal(0.0, sigma * sigma, tau);
      }
    }
    sigma * sigma * tau
  }

  /** One step of the integrated rate, as the solver's loop takes it at
      time point `j`. */
  lemma IntegrNext(s: Setup, j: int, integr: real, t: real, rateDiff: real, tau: real, integrNext: real)
    requires RatesOk(s) && Timed(s) && j >= 0
    requires integr == Integr(s, j) && t == GridTime(s, j) && tau == Tau(s)
    requires rateDiff == MaxR(R(s.irpB, s.o.assetB, t) - R(s.irpA, s.o.assetA, t), 0.0)
    requires integrNext == integr + rateDiff * tau
    ensures integrNext == Integr(s, j + 1)
  {
    assert Integr(s, j + 1) == Integr(s, j) + RateStep(s, j);
  }

  /** The expected price the solver's loop computes from the next
      integrated rate. */
  lemma ESNext(s: Setup, exp: real -> real, j: int, integrNext: real, esNext: real)
    requires RatesOk(s) && Timed(s) && j >= 0
    requires integrNext == Integr(s, j + 1) && esNext == s.S0 * exp(integrNext)
    ensures esNext == ESAt(s, exp, j + 1)
  {
    assert Growth(s, exp, j + 1) == exp(Integr(s, j + 1));
  }

  /** One step of the variance, as the solver's loop takes it at time point
      `j`. */
  lemma VarNext(s: Setup, exp: real -> real, j: int, es: real, vs: real, t: real, sigma: real, tau: real,
                varNext: real)
    requires RatesOk(s) && Timed(s) && j >= 0
    requires es == ESAt(s, exp, j) && vs == VarAt(s, exp, j) && t == GridTime(s, j) && tau == Tau(s)
    requires sigma == Sigma(s.diff, es, t) && varNext == vs + Spread(sigma, tau)
    ensures varNext == VarAt(s, exp, j + 1)
  {
    VarStepIs(s, exp, j, es, t, sigma, tau);
    VarAtStep(s, exp, j);
  }

  /** The variance step at point `j` is the spread of the volatility the
      solver's loop takes at that point. */
  lemma VarStepIs(s: Setup, exp: real -> real, j: int, es: real, t: real, sigma: real, tau: real)
    requires RatesOk(s) && Timed(s) && j >= 0
    requires es == ESAt(s, exp, j) && t == GridTime(s, j) && tau == Tau(s) && sigma == Sigma(s.diff, es, t)
    ensures VarStep(s, exp, j) == Spread(sigma, tau)
  {
  }

  lemma VarAtStep(s: Setup, exp: real -> real, j: int)
    requires RatesOk(s) && Timed(s) && j >= 0
    ensures VarAt(s, exp, j + 1) == VarAt(s, exp, j) + VarStep(s, exp, j)
  {
  }

  function ESCurve(s: Setup, exp: real -> real): (es: seq<real>)
    requires RatesOk(s) && Timed(s)
    ensures |es| == TimePoints(s)
  {
    seq(TimePoints(s), j requires 0 <= j => ESAt(s, exp, j))
  }

  function VarCurve(s: Setup, exp: real -> real): (vs: seq<real>)
    requires RatesOk(s) && Timed(s)
    ensures |vs| == TimePoints(s)
  {
    seq(TimePoints(s), j requires 0 <= j => VarAt(s, exp, j))
  }

  /** One step of the curves: the expected price stays at or above `S0`
      and does not fall, the variance does not fall. */
  lemma CurvesStep(s: Setup, exp: real -> real, k: int)
    requires SetupOk(s) && ExpOk(exp) && Timed(s) && k >= 1
    ensures ESAt(s, exp, k - 1) <= ESAt(s, exp, k) && s.S0 <= ESAt(s, exp, k)
    ensures VarAt(s, exp, k - 1) <= VarAt(s, exp, k)
  {
    ESStep(s, exp, k);
    assert VarAt(s, exp, k) == VarAt(s, exp, k - 1) + VarStep(s, exp, k - 1);
  }

  lemma ESStep(s: Setup, exp: real -> real, k: int)
    requires SetupOk(s) && ExpOk(exp) && Timed(s) && k >= 1
    ensures ESAt(s, exp, k - 1) <= ESAt(s, exp, k) && s.S0 <= ESAt(s, exp, k)
  {
    GrowthStep(s, exp, k);
    ScaleUp(s.S0, Growth(s, exp, k - 1), Growth(s, exp, k));
  }

  lemma ScaleUp(c: real, a: real, b: real)
    requires c > 0.0 && 1.0 <= a <= b
    ensures c <= c * a <= c * b
  {
    MulMonotoneReal(1.0, a, c);
    MulMonotoneReal(a, b, c);
  }

  /** Both curves start where the source starts them and never decrease:
      the expected price from `S0` upwards, the variance from 0 upwards. */
  lemma {:induction false} CurvesMonotone(s: Setup, exp: real -> real, j: int, k: int)
    requires SetupOk(s) && ExpOk(exp) && Timed(s) && 0 <= j <= k
    ensures ESAt(s, exp, 0) == s.S0 && VarAt(s, exp, 0) == 0.0
    ensures s.S0 <= ESAt(s, exp, j) <= ESAt(s, exp, k)
    ensures 0.0 <= VarAt(s, exp, j) <= VarAt(s, exp, k)
    decreases k
  {
    if j < k {
      CurvesMonotone(s, exp, j, k - 1);
      CurvesStep(s, exp, k);
    } else if j > 0 {
      CurvesMonotone(s, exp, 0, j - 1);
      CurvesStep(s, exp, j);
    }
  }

  /** The upper end of the price axis, `E[S](T) + BFactor * StD[S](T)`; never
      below `S0`. */
  function Upper(s: Setup, exp: real -> real, sqrt: real -> real): (B: real)
    requires SetupOk(s) && ExpOk(exp) && SqrtOk(sqrt) && Timed(s)
    ensures B >= s.S0
  {
    var last := TimePoints(s) - 1;
    var es, v := ESAt(s, exp, last), VarAt(s, exp, last);
    CurvesMonotone(s, exp, last, last);
    UpperEndAbove(s.S0, es, v, s.BFactor, sqrt);
    UpperEnd(es, v, s.BFactor, sqrt)
  }

  /** `E + BFactor * sqrt(Var)`. */
  function UpperEnd(es: real, v: real, BFactor: real, sqrt: real -> real): real {
    es + BFactor * sqrt(v)
  }

  lemma UpperEndAbove(S0: real, es: real, v: real, BFactor: real, sqrt: real -> real)
    requires SqrtOk(sqrt) && S0 <= es && 0.0 <= v && BFactor > 0.0
    ensures S0 <= UpperEnd(es, v, BFactor, sqrt)
  {
    MulMonotoneReal(0.0, sqrt(v), BFactor);
  }

  /** The upper end from the last points of the two curves. */
  lemma UpperFrom(s: Setup, exp: real -> real, sqrt: real -> real, es: real, v: real)
    requires SetupOk(s) && ExpOk(exp) && SqrtOk(sqrt) && Timed(s)
    requires es == ESAt(s, exp, TimePoints(s) - 1) && v == VarAt(s, exp, TimePoints(s) - 1)
    ensures Upper(s, exp, sqrt) == UpperEnd(es, v, s.BFactor, sqrt)
  {
  }

  /** The first step and the index of `S0` from the upper end computed
      from the last points of the two curves. */
  lemma IndexFrom(s: Setup, exp: real -> real, sqrt: real -> real, es: real, v: real, B: real)
    requires SetupOk(s) && ExpOk(exp) && SqrtOk(sqrt) && Timed(s)
    requires es == ESAt(s, exp, TimePoints(s) - 1) && v == VarAt(s, exp, TimePoints(s) - 1)
    requires B == UpperEnd(es, v, s.BFactor, sqrt)
    ensures B / s.Nints as real == CoarseStep(s, exp, sqrt)
    ensures Round(s.S0 / CoarseStep(s, exp, sqrt)) == I0(s, exp, sqrt)
  {
    UpperFrom(s, exp, sqrt, es, v);
  }

  /** The first price step, `B / Nints`. */
  function CoarseStep(s: Setup, exp: real -> real, sqrt: real -> real): (h: real)
    requires SetupOk(s) && ExpOk(exp) && SqrtOk(sqrt) && Timed(s)
    ensures h > 0.0
  {
    Upper(s, exp, sqrt) / s.Nints as real
  }

  /** The index of `S0` on the axis: `S0 / h` rounded to nearest. It is 0
      exactly when `S0` lies below half a first step, and never exceeds
      `Nints`, because `S0` lies below the upper end. */
  function I0(s: Setup, exp: real -> real, sqrt: real -> real): (i0: int)
    requires SetupOk(s) && ExpOk(exp) && SqrtOk(sqrt) && Timed(s)
    ensures 0 <= i0 <= s.Nints
    ensures i0 == 0 <==> s.S0 / CoarseStep(s, exp, sqrt) < 0.5
  {
    var h := CoarseStep(s, exp, sqrt);
    var x := s.S0 / h;
    BelowTop(s.S0, Upper(s, exp, sqrt), s.Nints as real, h);
    Round(x)
  }

  lemma BelowTop(S0: real, B: real, n: real, h: real)
    requires 0.0 < S0 <= B && n >= 1.0 && h == B / n
    ensures 0.0 < S0 / h <= n
  {
    assert h > 0.0;
    assert h * n == B;
    if S0 / h > n {
      MulMonotoneReal(n, S0 / h, h);
    }
  }

  /** The price step after moving `S0` onto the axis, `S0 / i0`. */
  function Spacing0(s: Setup, exp: real -> real, sqrt: real -> real): (h: real)
    requires SetupOk(s) && ExpOk(exp) && SqrtOk(sqrt) && Timed(s) && I0(s, exp, sqrt) != 0
    ensures h > 0.0
  {
    s.S0 / I0(s, exp, sqrt) as real
  }

  /** After sizing, `S0` is exactly node `i0` of the axis, and `i0` is an
      inner or the top node: `1 <= i0 <= Nints`. */
  lemma SizingExact(s: Setup, exp: real -> real, sqrt: real -> real)
    requires SetupOk(s) && ExpOk(exp) && SqrtOk(sqrt) && Timed(s) && I0(s, exp, sqrt) != 0
    ensures 1 <= I0(s, exp, sqrt) <= s.Nints
    ensures I0(s, exp, sqrt) as real * Spacing0(s, exp, sqrt) == s.S0
  {
  }

  /** The order in which a run rejects its arguments, each with its own
      message; a run that passes all six builds the grid. */
  function Verdict(s: Setup, exp: real -> real, sqrt: real -> real, maxM: int, maxN: int): (r: Result<()>)
    requires SetupOk(s) && ExpOk(exp) && SqrtOk(sqrt)
    ensures r.Ok? <==> !(s.fwd && s.o.isAmerican) && !s.o.isAsian && Timed(s) &&
                       TimePoints(s) <= maxM && I0(s, exp, sqrt) != 0 && s.Nints + 1 <= maxN
    ensures s.fwd && s.o.isAmerican ==>
              r == Err(InvalidArgument("American options are not supported in Fwd"))
    ensures !(s.fwd && s.o.isAmerican) && s.o.isAsian ==>
              r == Err(InvalidArgument("Asian options aren`t supported by 1D-grid"))
    ensures !(s.fwd && s.o.isAmerican) && !s.o.isAsian && !Timed(s) ==>
              r == Err(InvalidArgument("Option has already expired or too close"))
    ensures r.Err? ==> r.error.InvalidArgument?
  {
    TimedIff(s);
    if s.fwd && s.o.isAmerican then Err(InvalidArgument("American options are not supported in Fwd"))
    else if s.o.isAsian then Err(InvalidArgument("Asian options aren`t supported by 1D-grid"))
    else if TTE(s) <= 0.0 || Mints(s) <= 0 then Err(InvalidArgument("Option has already expired or too close"))
    else if TimePoints(s) > maxM then Err(InvalidArgument("too many t-points"))
    // `h = S0 / i0` is +INFINITY when `i0` is 0, and only then
    else if I0(s, exp, sqrt) == 0 then Err(InvalidArgument("S0 is too small, try increasing N"))
    else if s.Nints + 1 > maxN then Err(InvalidArgument("Nints is too large"))
    else Ok(())
  }

  /** A grid of `M` time points by `N` price nodes with price step `h` and
      time step `tau`, `S0` at node `i0`, and timeline `ts`. */
  datatype Mesh = Mesh(o: Option, diff: Diffusion, irpA: ConstRates, irpB: ConstRates, fwd: bool,
                       M: int, N: int, i0: int, h: real, tau: real, ts: seq<real>)

  ghost predicate MeshOk(g: Mesh) {
    g.irpA.Valid() && g.irpB.Valid() && IsCurrency(g.o.assetA) && IsCurrency(g.o.assetB) &&
    2 <= g.M == |g.ts| && 2 <= g.N && 1 <= g.i0 < g.N && g.h > 0.0 && !(g.fwd && g.o.isAmerican)
  }

  /** The grid a run that passes every check builds. */
  function MeshOf(s: Setup, exp: real -> real, sqrt: real -> real): (g: Mesh)
    requires SetupOk(s) && ExpOk(exp) && SqrtOk(sqrt) && Timed(s) && I0(s, exp, sqrt) != 0
    requires !(s.fwd && s.o.isAmerican)
    ensures MeshOk(g)
  {
    TimeSteps(s);
    Mesh(s.o, s.diff, s.irpA, s.irpB, s.fwd, TimePoints(s), s.Nints + 1,
         I0(s, exp, sqrt), Spacing0(s, exp, sqrt), Tau(s), Times(s))
  }

  /** Price node `i`. */
  function Node(g: Mesh, i: int): (S: real)
    ensures i == 0 ==> S == 0.0
    ensures g.h > 0.0 ==> (S > 0.0 <==> i > 0)
  {
    i as real * g.h
  }

  /** The price axis `m_S[0 .. N)`. */
  function SLine(g: Mesh): (S: seq<real>)
    ensures |S| == if g.N < 0 then 0 else g.N
    ensures |S| > 0 ==> S[0] == 0.0
  {
    seq(if g.N < 0 then 0 else g.N, i => Node(g, i))
  }

  /** On a positive step the price axis increases strictly from 0. */
  lemma SLineIncreasing(g: Mesh, i: int, k: int)
    requires g.h > 0.0 && 0 <= i < k < |SLine(g)|
    ensures 0.0 <= SLine(g)[i] < SLine(g)[k]
  {
    assert Node(g, k) - Node(g, i) == (k - i) as real * g.h;
    assert Node(g, k - i) > 0.0;
  }

  /** The payoff of the option at node `i` at time `t`. */
  function Intrinsic(g: Mesh, i: int, t: real): (r: real)
    ensures r >= 0.0
  {
    Payoff(g.o, 1, [Node(g, i)], [t])
  }

  /** The last layer of a backward run: the payoff at every node. */
  function Terminal(g: Mesh): (f: seq<real>)
    requires MeshOk(g)
    ensures |f| == g.N
  {
    seq(g.N, i => Intrinsic(g, i, g.ts[g.M - 1]))
  }

  /** The first layer of a forward run: the delta function at `S0`, 0 at
      every node but `1/h` at `i0`. It is non-negative and its only mass
      is at `S0`; `InitialMass` shows the mass is 1. */
  function Initial(g: Mesh): (f: seq<real>)
    requires MeshOk(g)
    ensures |f| == g.N
    ensures forall i :: 0 <= i < g.N ==> f[i] >= 0.0 && (f[i] > 0.0 <==> i == g.i0)
  {
    seq(g.N, i => if i == g.i0 then 1.0 / g.h else 0.0)
  }

  /** The value held at the bottom node: the payoff at `S = 0` backward, 0
      forward. */
  function Fa(g: Mesh): (r: real)
    requires MeshOk(g)
    ensures g.fwd ==> r == 0.0
    ensures !g.fwd ==> r == Intrinsic(g, 0, g.ts[g.M - 1])
    ensures r >= 0.0
  {
    if g.fwd then 0.0 else Terminal(g)[0]
  }

  /** A backward run whose payoff is not 0 at the top node fixes the slope
      there instead of the value. */
  predicate Neumann(g: Mesh)
    requires MeshOk(g)
    // the payoff is never negative, so a non-zero top payoff is positive
    ensures Neumann(g) <==> !g.fwd && Intrinsic(g, g.N - 1, g.ts[g.M - 1]) > 0.0
  {
    !g.fwd && Terminal(g)[g.N - 1] != 0.0
  }

  /** The upper boundary term: the payoff's last difference under the
      slope condition, else 0. */
  function UBC(g: Mesh): (r: real)
    requires MeshOk(g)
    ensures !Neumann(g) ==> r == 0.0
    ensures Neumann(g) ==> r == Intrinsic(g, g.N - 1, g.ts[g.M - 1]) - Intrinsic(g, g.N - 2, g.ts[g.M - 1])
  {
    if Neumann(g) then Terminal(g)[g.N - 1] - Terminal(g)[g.N - 2] else 0.0
  }

  /** The Fokker-Planck time derivative of a density at a node at price
      `Si` with neighbours at `SiM` and `SiP` on an axis of step `h`:
      convection `C1 = (rB - rA) / 2h` times the central difference of
      `S f`, plus the second difference of `sigma^2 f` over `D2 = 2 h^2`. */
  function FokkerPlanck(C1: real, h: real, SiM: real, SiP: real, sigmaM: real, sigma: real,
                        sigmaP: real, fM: real, f0: real, fP: real): (d: real)
    requires h != 0.0
    ensures fM == 0.0 && f0 == 0.0 && fP == 0.0 ==> d == 0.0
    ensures C1 == 0.0 && sigmaM == sigma == sigmaP && fP - f0 == f0 - fM ==> d == 0.0
  {
    var D2 := 2.0 * h * h;
    SquarePositive(h, D2);
    FokkerPlanckOver(C1, D2, SiM, SiP, sigmaM, sigma, sigmaP, fM, f0, fP)
  }

  /** The same derivative with the denominator `D2` of the diffusive term
      given. */
  function FokkerPlanckOver(C1: real, D2: real, SiM: real, SiP: real, sigmaM: real, sigma: real,
                        sigmaP: real, fM: real, f0: real, fP: real): (d: real)
    requires D2 > 0.0
    // no mass, no flow
    ensures fM == 0.0 && f0 == 0.0 && fP == 0.0 ==> d == 0.0
    // without convection and with a uniform volatility, a density linear
    // across the node does not move
    ensures C1 == 0.0 && sigmaM == sigma == sigmaP && fP - f0 == f0 - fM ==> d == 0.0
  {
    var conv := C1 * (SiP * fP - SiM * fM);
    var diff := sigmaP * sigmaP * fP - 2.0 * sigma * sigma * f0 + sigmaM * sigmaM * fM;
    QuietNode(C1, SiM, SiP, sigmaM, sigma, sigmaP, fM, f0, fP, conv, diff);
    assert 0.0 / D2 * D2 == 0.0;
    - conv + diff / D2
  }

  /** A forward step as written, from a unit spike at the node below, makes
      an empty node negative for any non-zero volatility: subtracting `tau`
      times the Fokker-Planck derivative concentrates the density instead of
      spreading it. */
  lemma ForwardStepSignAsWritten(h: real, tau: real, s: real)
    requires h > 0.0 && tau > 0.0 && s != 0.0
    ensures FokkerPlanck(0.0, h, h, 3.0 * h, s, s, s, 1.0, 0.0, 0.0) > 0.0
    ensures 0.0 - tau * FokkerPlanck(0.0, h, h, 3.0 * h, s, s, s, 1.0, 0.0, 0.0) < 0.0
  {
    var D2 := 2.0 * h * h;
    SquarePositive(h, D2);
    SquarePositive(s, 2.0 * s * s);
    var d := FokkerPlanck(0.0, h, h, 3.0 * h, s, s, s, 1.0, 0.0, 0.0);
    assert d == s * s / D2;
    assert d > 0.0;
    MulPositive(tau, d);
  }

  /** Both terms of the operator vanish on a node with no mass around it, and
      on a linear density without convection under a uniform volatility. */
  lemma QuietNode(C1: real, SiM: real, SiP: real, sigmaM: real, sigma: real, sigmaP: real,
                  fM: real, f0: real, fP: real, conv: real, diff: real)
    requires conv == C1 * (SiP * fP - SiM * fM)
    requires diff == sigmaP * sigmaP * fP - 2.0 * sigma * sigma * f0 + sigmaM * sigmaM * fM
    ensures fM == 0.0 && f0 == 0.0 && fP == 0.0 ==> conv == 0.0 && diff == 0.0
    ensures C1 == 0.0 && sigmaM == sigma == sigmaP && fP - f0 == f0 - fM ==> conv == 0.0 && diff == 0.0
  {
    if C1 == 0.0 && sigmaM == sigma == sigmaP && fP - f0 == f0 - fM {
      assert diff == sigma * sigma * (fP - 2.0 * f0 + fM);
    }
  }

  /** The update at inner node `i` from layer `f` at time point `j`: the
      node less `tau` times a time derivative. Forward, `f` is a density and
      the derivative is the Fokker-Planck one, so, as written, the step has
      the sign of a step backward in time (see `ForwardStepSignAsWritten`).
      Backward, the source computes the Black-Scholes-Merton derivative in a
      local that hides the one the step uses, which stays 0, so the node
      keeps its value. */
  function Interior(g: Mesh, f: seq<real>, j: int, i: int): (v: real)
    requires MeshOk(g) && 0 <= j < g.M && |f| == g.N && 1 <= i <= g.N - 2
    ensures !g.fwd ==> v == f[i]
    ensures g.fwd && f[i - 1] == 0.0 && f[i] == 0.0 && f[i + 1] == 0.0 ==> v == 0.0
  {
    var t := g.ts[j];
    if g.fwd then
      var C1 := (R(g.irpB, g.o.assetB, t) - R(g.irpA, g.o.assetA, t)) / (2.0 * g.h);
      var DfDt := FokkerPlanck(C1, g.h, Node(g, i - 1), Node(g, i + 1), Sigma(g.diff, Node(g, i - 1), t),
                               Sigma(g.diff, Node(g, i), t), Sigma(g.diff, Node(g, i + 1), t),
                               f[i - 1], f[i], f[i + 1]);
      f[i] - g.tau * DfDt
    else
      f[i]
  }

  /** A forward inner step from the scalars the solver's loop reads. */
  lemma InteriorForward(g: Mesh, f: seq<real>, j: int, i: int, C1: real,
                        sigmaM: real, sigma: real, sigmaP: real)
    requires MeshOk(g) && 0 <= j < g.M && |f| == g.N && 1 <= i <= g.N - 2 && g.fwd
    requires C1 == (R(g.irpB, g.o.assetB, g.ts[j]) - R(g.irpA, g.o.assetA, g.ts[j])) / (2.0 * g.h)
    requires sigmaM == Sigma(g.diff, Node(g, i - 1), g.ts[j]) && sigma == Sigma(g.diff, Node(g, i), g.ts[j])
    requires sigmaP == Sigma(g.diff, Node(g, i + 1), g.ts[j])
    ensures Interior(g, f, j, i) == f[i] - g.tau * FokkerPlanck(C1, g.h, Node(g, i - 1), Node(g, i + 1),
                                                                sigmaM, sigma, sigmaP, f[i - 1], f[i], f[i + 1])
  {
  }

  /** Node `i` of the next layer before the early-exercise floor: the bottom
      value, an inner step, or the top node (the node below it plus the
      boundary term under the slope condition, else the term alone). */
  function PreNode(g: Mesh, f: seq<real>, j: int, i: int): (v: real)
    requires MeshOk(g) && 0 <= j < g.M && |f| == g.N && 0 <= i < g.N
    ensures i == 0 ==> v == Fa(g)
    ensures i == g.N - 1 && !Neumann(g) ==> v == 0.0
    ensures g.fwd && (i == 0 || i == g.N - 1) ==> v == 0.0
    decreases i
  {
    if i == 0 then Fa(g)
    else if i <= g.N - 2 then Interior(g, f, j, i)
    else if !g.fwd && Neumann(g) then PreNode(g, f, j, g.N - 2) + UBC(g)
    else UBC(g)
  }

  /** Every node of the layer after `f` before the early-exercise floor. */
  function PreLayer(g: Mesh, f: seq<real>, j: int): (f': seq<real>)
    requires MeshOk(g) && 0 <= j < g.M && |f| == g.N
    ensures |f'| == g.N && forall i :: 0 <= i < g.N ==> f'[i] == PreNode(g, f, j, i)
  {
    seq(g.N, i requires 0 <= i < g.N => PreNode(g, f, j, i))
  }

  /** The early-exercise floor at time point `j`: every node at least the
      payoff at its price. */
  function Floor(g: Mesh, f: seq<real>, j: int): (f': seq<real>)
    requires MeshOk(g) && 0 <= j < g.M && |f| == g.N
    ensures |f'| == g.N && forall i :: 0 <= i < g.N ==> f'[i] == MaxR(f[i], Intrinsic(g, i, g.ts[j]))
  {
    seq(g.N, i requires 0 <= i < g.N => MaxR(f[i], Intrinsic(g, i, g.ts[j])))
  }

  /** The layer after `f`, made at time point `j`: American options are
      floored at their payoff at the nodes and at time `t_j`. */
  function Advance(g: Mesh, f: seq<real>, j: int): (f': seq<real>)
    requires MeshOk(g) && 0 <= j < g.M && |f| == g.N
    ensures |f'| == g.N
    // the floor leaves European layers alone
    ensures !g.o.isAmerican ==> f' == PreLayer(g, f, j)
  {
    if g.o.isAmerican then Floor(g, PreLayer(g, f, j), j) else PreLayer(g, f, j)
  }

  /** Layer `j` of the grid. Forward runs start at layer 0 and step up;
      backward runs start at layer `M-1` and step down. */
  function Layer(g: Mesh, j: int): (f: seq<real>)
    requires MeshOk(g) && 0 <= j < g.M
    ensures |f| == g.N
    decreases if g.fwd then j else g.M - 1 - j
  {
    if g.fwd then (if j == 0 then Initial(g) else Advance(g, Layer(g, j - 1), j - 1))
    else (if j == g.M - 1 then Terminal(g) else Advance(g, Layer(g, j + 1), j + 1))
  }

  /** The whole grid, layer by layer. */
  function Layers(g: Mesh): (ls: seq<seq<real>>)
    requires MeshOk(g)
    ensures |ls| == g.M && forall j {:trigger Layer(g, j)} :: 0 <= j < g.M ==> ls[j] == Layer(g, j)
  {
    seq(g.M, j requires 0 <= j < g.M => Layer(g, j))
  }

  /** In a forward run each layer is the step from the one before. */
  lemma ForwardLayers(g: Mesh, j: int)
    requires MeshOk(g) && g.fwd && 0 <= j < g.M - 1
    ensures Layers(g)[j + 1] == Advance(g, Layers(g)[j], j)
  {
    assert Layers(g)[j + 1] == Layer(g, j + 1) && Layers(g)[j] == Layer(g, j);
  }

  /** In a backward run each layer is the step from the one after. */
  lemma BackwardLayers(g: Mesh, j: int)
    requires MeshOk(g) && !g.fwd && 0 < j < g.M
    ensures Layers(g)[j - 1] == Advance(g, Layers(g)[j], j)
  {
    assert Layers(g)[j - 1] == Layer(g, j - 1) && Layers(g)[j] == Layer(g, j);
  }

  /** The density a forward run starts from has unit mass: `h` times the
      sum of its nodes is 1. */
  lemma InitialMass(g: Mesh)
    requires MeshOk(g)
    ensures g.h * Sum(Initial(g)) == 1.0
  {
    SpikeSum(g.N, g.i0, 1.0 / g.h);
    assert Initial(g) == seq(g.N, i => if i == g.i0 then 1.0 / g.h else 0.0);
  }

  lemma {:induction false} SpikeSum(n: nat, k: int, v: real)
    ensures Sum(seq(n, i => if i == k then v else 0.0)) == if 0 <= k < n then v else 0.0
  {
    if n > 0 {
      var xs := seq(n, i => if i == k then v else 0.0);
      assert xs[..n - 1] == seq(n - 1, i => if i == k then v else 0.0);
      SpikeSum(n - 1, k, v);
    }
  }

  /** Every layer a forward run makes holds 0 at both ends. */
  lemma ForwardBoundaries(g: Mesh, j: int)
    requires MeshOk(g) && g.fwd && 1 <= j < g.M
    ensures Layer(g, j)[0] == 0.0 && Layer(g, j)[g.N - 1] == 0.0
  {
  }

  /** Every layer a step makes holds the bottom value at node 0 and obeys the
      top rule at node `N-1` before the early-exercise floor, for every
      option. European options keep that layer; American options floor
      both ends at their payoff afterwards. */
  lemma StepBoundaries(g: Mesh, f: seq<real>, j: int)
    requires MeshOk(g) && 0 <= j < g.M && |f| == g.N
    ensures PreLayer(g, f, j)[0] == Fa(g)
    ensures Neumann(g) ==> PreLayer(g, f, j)[g.N - 1] == PreLayer(g, f, j)[g.N - 2] + UBC(g)
    ensures !Neumann(g) ==> PreLayer(g, f, j)[g.N - 1] == 0.0
    ensures !g.o.isAmerican ==> Advance(g, f, j) == PreLayer(g, f, j)
    ensures g.o.isAmerican ==>
              Advance(g, f, j)[0] == MaxR(Fa(g), Intrinsic(g, 0, g.ts[j])) &&
              Advance(g, f, j)[g.N - 1] == MaxR(PreLayer(g, f, j)[g.N - 1], Intrinsic(g, g.N - 1, g.ts[j]))
  {
  }

  /** Every node of every layer a step makes for an American option is at
      least its payoff at the step's time. */
  lemma AmericanFloor(g: Mesh, f: seq<real>, j: int)
    requires MeshOk(g) && 0 <= j < g.M && |f| == g.N && g.o.isAmerican
    ensures forall i :: 0 <= i < g.N ==> Advance(g, f, j)[i] >= Intrinsic(g, i, g.ts[j]) >= 0.0
    ensures forall i :: 0 <= i < g.N ==> Advance(g, f, j)[i] >= PreLayer(g, f, j)[i]
  {
  }

  /** The payoff at a node does not depend on the time it is taken at. */
  lemma IntrinsicIgnoresTime(g: Mesh, i: int, t1: real, t2: real)
    ensures Intrinsic(g, i, t1) == Intrinsic(g, i, t2)
  {
    PayoffReadsLastPriceOnly(g.o, 1, [Node(g, i)], [t1], [Node(g, i)], [t2]);
  }

  /** As written, a backward step leaves the payoff layer as it is: the
      bottom value is its first node, inner nodes keep their values, the top
      rule restores its last node, and the early-exercise floor is the
      payoff itself. */
  lemma BackwardStepKeepsPayoff(g: Mesh, j: int)
    requires MeshOk(g) && !g.fwd && 0 <= j < g.M
    ensures Advance(g, Terminal(g), j) == Terminal(g)
  {
    var f := Terminal(g);
    forall i | 0 <= i < g.N ensures PreNode(g, f, j, i) == f[i] {
      if i == g.N - 1 && Neumann(g) {
        assert PreNode(g, f, j, g.N - 2) == f[g.N - 2];
      }
    }
    if g.o.isAmerican {
      forall i | 0 <= i < g.N ensures Intrinsic(g, i, g.ts[j]) == f[i] {
        IntrinsicIgnoresTime(g, i, g.ts[j], g.ts[g.M - 1]);
      }
    }
  }

  /** As written, every layer of a backward run, American or European, is
      the payoff layer. */
  lemma {:induction false} BackwardLayersArePayoff(g: Mesh, j: int)
    requires MeshOk(g) && !g.fwd && 0 <= j < g.M
    ensures Layer(g, j) == Terminal(g)
    decreases g.M - j
  {
    if j < g.M - 1 {
      BackwardLayersArePayoff(g, j + 1);
      BackwardStepKeepsPayoff(g, j + 1);
      assert Layer(g, j) == Advance(g, Layer(g, j + 1), j + 1);
    }
  }

  /** As written, the price a backward run reports at node `i0` is the
      payoff there. */
  lemma BackwardPriceIsPayoff(g: Mesh)
    requires MeshOk(g) && !g.fwd
    ensures Layer(g, 0)[g.i0] == Payoff(g.o, 1, [Node(g, g.i0)], [g.ts[g.M - 1]])
  {
    BackwardLayersArePayoff(g, 0);
  }

  /** The grid a run builds has `S0` exactly at node `i0`, the first time
      point at `t0`, and one more price node than intervals. */
  lemma MeshPlacesS0(s: Setup, exp: real -> real, sqrt: real -> real)
    requires SetupOk(s) && ExpOk(exp) && SqrtOk(sqrt) && Timed(s) && I0(s, exp, sqrt) != 0
    requires !(s.fwd && s.o.isAmerican)
    ensures var g := MeshOf(s, exp, sqrt);
            Node(g, g.i0) == s.S0 && g.ts[0] == YearFrac(s.t0) && g.N == s.Nints + 1
  {
    SizingExact(s, exp, sqrt);
    TimesSpanToExpiry(s);
  }

  /** The price step as the Greeks are meant to use it: the distance between
      the first two nodes. */
  function Spacing(S: seq<real>): real
    requires |S| >= 2
  {
    S[1] - S[0]
  }

  /** On the axis of a grid it is the grid's price step. */
  lemma SpacingIsStep(g: Mesh)
    requires MeshOk(g)
    ensures Spacing(SLine(g)) == g.h > 0.0
  {
  }

  /** The price step as the source computes it for the Greeks: it assigns
      node 0 to node 1 and takes the result, giving the new axis and the
      step. */
  function AsWrittenSpacing(S: seq<real>): (r: (seq<real>, real))
    requires |S| >= 2
    ensures |r.0| == |S|
  {
    var S' := S[1 := S[0]];
    (S', S'[1])
  }

  /** On the axis of any grid the step as written is 0, so every one-sided
      delta and the gamma divide by zero, and node 1 of the axis is
      overwritten. */
  lemma AsWrittenSpacingVanishes(g: Mesh)
    requires MeshOk(g)
    ensures AsWrittenSpacing(SLine(g)).1 == 0.0
    ensures AsWrittenSpacing(SLine(g)).0 != SLine(g)
  {
    assert AsWrittenSpacing(SLine(g)).0[1] != SLine(g)[1];
  }

  /** The price, delta and gamma at node `i` of a layer `f` on an axis of
      step `h`: at an inner node the delta is the central difference and the
      gamma the central second difference; at an end node the delta is the
      one-sided difference and the gamma 0. */
  function Greeks(f: seq<real>, i: int, h: real): (r: (real, real, real))
    requires 2 <= |f| && 0 <= i < |f| && h != 0.0
    ensures r.0 == f[i]
    ensures i == 0 || i == |f| - 1 ==> r.2 == 0.0
  {
    SquarePositive(h, 2.0 * h * h);
    if 0 < i <= |f| - 2 then
      (f[i], (f[i + 1] - f[i - 1]) / (2.0 * h), (f[i + 1] - 2.0 * f[i] + f[i - 1]) / (h * h))
    else if i == 0 then
      (f[i], (f[1] - f[0]) / h, 0.0)
    else
      (f[i], (f[|f| - 1] - f[|f| - 2]) / h, 0.0)
  }

  /** `h^2` and `2 h^2` are positive for a non-zero step. */
  lemma SquarePositive(h: real, D2: real)
    requires h != 0.0 && D2 == 2.0 * h * h
    ensures h * h > 0.0 && D2 > 0.0
  {
    var twiceH := 2.0 * h;
    assert D2 == twiceH * h;
    if h > 0.0 {
      MulPositive(h, h);
      MulPositive(twiceH, h);
    } else {
      MulNegative(h, h);
      MulNegative(twiceH, h);
    }
  }

  lemma MulPositive(a: real, b: real)
    requires a > 0.0 && b > 0.0
    ensures a * b > 0.0
  {
  }

  lemma MulNegative(a: real, b: real)
    requires a < 0.0 && b < 0.0
    ensures a * b > 0.0
  {
  }

  /** On a layer that is linear in the price, `f[k] = a + b k h`, the end
      deltas are the slope `b` and every gamma is 0. */
  lemma GreeksOfLinear(f: seq<real>, i: int, h: real, a: real, b: real)
    requires 2 <= |f| && 0 <= i < |f| && h != 0.0
    requires forall k :: 0 <= k < |f| ==> f[k] == a + b * (k as real * h)
    ensures Greeks(f, i, h).2 == 0.0
    ensures Greeks(f, i, h).1 == b
  {
    SquarePositive(h, 2.0 * h * h);
    if 0 < i <= |f| - 2 {
      var x := i as real * h;
      assert (i + 1) as real * h == x + h && (i - 1) as real * h == x - h;
      assert f[i + 1] - 2.0 * f[i] + f[i - 1] == 0.0;
      assert Greeks(f, i, h).2 == 0.0 / (h * h);
      assert f[i + 1] - f[i - 1] == b * (2.0 * h);
    } else if i == 0 {
      assert f[1] - f[0] == b * h;
    } else {
      var x := (i - 1) as real * h;
      assert i as real * h == x + h;
      assert f[i] - f[i - 1] == b * h;
    }
  }

  /** The inner delta as the source computes it: the upper neighbour less
      itself, over `2h`. It is 0 on every layer. */
  function AsWrittenDelta(f: seq<real>, i: int, h: real): (d: real)
    requires 0 < i < |f| - 1 && h != 0.0
    ensures d == 0.0
  {
    (f[i + 1] - f[i + 1]) / (2.0 * h)
  }

  /** On the layer `0, 1, 2` with unit step the price rises by 1 per unit,
      yet the delta as written at the middle node is 0, where the central
      difference gives the slope 1. */
  lemma AsWrittenDeltaMissesSlope()
    ensures AsWrittenDelta([0.0, 1.0, 2.0], 1, 1.0) == 0.0
    ensures Greeks([0.0, 1.0, 2.0], 1, 1.0).1 == 1.0
  {
  }

  /** Layer `j` of `M` layers of `N` nodes lies inside the `M*N` cells. */
  lemma LayerSlot(M: int, N: int, j: int)
    requires 0 <= j < M && N >= 1
    ensures 0 <= j * N && j * N + N <= M * N
    ensures (j + 1) * N == j * N + N
  {
    MulMonotone(j + 1, M, N);
    MulMonotone(0, j, N);
  }

  /** Cell `k` of layer `j` of `N`-node layers is node `k - jN` of layer `j`. */
  lemma CellNode(N: int, j: int, k: int)
    requires N >= 1 && 0 <= j && j * N <= k < j * N + N
    ensures k / N == j && k % N == k - j * N
  {
    var q := k / N;
    DivMul(k, N);
    if q < j {
      MulMonotone(q + 1, j, N);
      MulShift(q, 1, N);
    } else if q > j {
      MulMonotone(j + 1, q, N);
      MulShift(j, 1, N);
    }
  }
}
