/** What one Monte Carlo run produces, stated as functions of its inputs:
    the time grid over `[t0, T]`, the batch sizing, the antithetic Euler
    paths built from a stream of standard normal draws, and the sequence of
    batches handed to the path evaluator. The engine's loops are proved to
    write exactly these values. */
module MCPaths {
  import opened Numerics
  import opened Time
  import opened IRProvider
  import opened IRProviderConst
  import opened Diffusion1D
  import opened PathEval

  // ---------------------------------------------------------------------
  // Time grid
  // ---------------------------------------------------------------------

  /** The number of intervals covering `Tsec` seconds with steps of
      `tauSec`: whole steps, plus one shortened step for a remainder. */
  function IntervalCount(Tsec: int, tauSec: int): (n: int)
    requires Tsec > 0 && tauSec > 0
    ensures n >= 1
    ensures (n - 1) * tauSec < Tsec <= n * tauSec
  {
    var q, rem := Tsec / tauSec, Tsec % tauSec;
    assert Tsec == q * tauSec + rem;
    if rem == 0 then
      assert q >= 1;
      q
    else
      assert (q + 1) * tauSec == q * tauSec + tauSec;
      q + 1
  }

  /** The length in seconds of the last interval: a whole step when the
      steps divide the horizon, otherwise what is left after the whole
      steps. */
  function LastIntervalSec(Tsec: int, tauSec: int): (last: int)
    requires Tsec > 0 && tauSec > 0
    ensures 0 < last <= tauSec
    ensures last == tauSec <==> Tsec % tauSec == 0
    ensures (IntervalCount(Tsec, tauSec) - 1) * tauSec + last == Tsec
  {
    var n := IntervalCount(Tsec, tauSec);
    var q, rem := Tsec / tauSec, Tsec % tauSec;
    assert Tsec == q * tauSec + rem;
    if rem == 0 then
      assert (n - 1) * tauSec + tauSec == n * tauSec;
      tauSec
    else
      assert (n - 1) * tauSec == q * tauSec;
      Tsec - (n - 1) * tauSec
  }

  /** The grid of one simulation over `[t0, T]` with a step of `tauMins`
      minutes. */
  datatype Plan = Plan(Tsec: int, tauSec: int, Lints: int, L: int, lastSec: int, y0: real,
                       tau: real, tlast: real)

  function MakePlan(t0: int, T: int, tauMins: int): (pl: Plan)
    requires t0 < T && tauMins > 0
    ensures pl.L == pl.Lints + 1 && pl.L >= 2
    ensures pl.Tsec == T - t0 && pl.tauSec == tauMins * SecInMin
    ensures (pl.Lints - 1) * pl.tauSec + pl.lastSec == pl.Tsec
    ensures 0.0 < pl.tlast <= pl.tau
    ensures pl.tlast == pl.tau <==> pl.Tsec % pl.tauSec == 0
  {
    var Tsec, tauSec := T - t0, tauMins * SecInMin;
    var n := IntervalCount(Tsec, tauSec);
    var last := LastIntervalSec(Tsec, tauSec);
    var tau := YearFracInt(tauSec);
    var tlast := if Tsec % tauSec == 0 then tau else YearFracInt(last);
    YearFracIntPositive(last);
    YearFracIntMonotone(last, tauSec);
    assert Tsec % tauSec != 0 ==> tlast < tau by {
      if Tsec % tauSec != 0 {
        assert last < tauSec;
      }
    }
    Plan(Tsec, tauSec, n, n + 1, last, YearFrac(t0), tau, tlast)
  }

  /** The asserted bounds on the square roots of the two step lengths hold
      for any `sqrt` with the assumed properties. */
  lemma StepRootsBounded(pl: Plan, sqrt: real -> real)
    requires SqrtOk(sqrt) && 0.0 < pl.tlast <= pl.tau
    ensures 0.0 < sqrt(pl.tlast) <= sqrt(pl.tau)
  {
  }

  /** The timeline as the engine writes it: every point but the last is
      `y0 + L*tau` (the source multiplies by the path length where the step
      index is evidently meant), and the last is the one before plus the
      last step. */
  function TimeLine(L: int, y0: real, tau: real, tlast: real): (ts: seq<real>)
    requires L >= 2
    ensures |ts| == L && ts[L - 1] == ts[L - 2] + tlast
  {
    seq(L - 1, _ => y0 + L as real * tau) + [y0 + L as real * tau + tlast]
  }

  /** The consequences of that timeline: it does not start at `t0`, it is
      flat up to its last point, and it spans only the last step. */
  lemma TimeLineAsWritten(L: int, y0: real, tau: real, tlast: real)
    requires L >= 2 && tau > 0.0
    ensures |TimeLine(L, y0, tau, tlast)| == L
    ensures TimeLine(L, y0, tau, tlast)[0] > y0
    ensures forall l :: 0 <= l < L - 1 ==> TimeLine(L, y0, tau, tlast)[l] == TimeLine(L, y0, tau, tlast)[0]
    ensures TimeLine(L, y0, tau, tlast)[L - 1] - TimeLine(L, y0, tau, tlast)[0] == tlast
  {
    var ts := TimeLine(L, y0, tau, tlast);
    assert ts[0] == y0 + L as real * tau;
    assert L as real * tau > 0.0;
  }

  // ---------------------------------------------------------------------
  // Batch sizing
  // ---------------------------------------------------------------------

  /** `PM`: the number of paths held in memory at once, the largest even
      number of paths of length `L` that fit in `maxL * maxPM` cells. */
  function PathsPerBatch(maxL: int, maxPM: int, L: int): (pm: int)
    requires L >= 1 && maxL >= 0 && maxPM >= 0
    ensures pm >= 0 && pm % 2 == 0
    ensures pm * L <= maxL * maxPM < (pm + 2) * L
  {
    var cap := maxL * maxPM;
    var q := cap / L;
    DivMul(cap, L);
    MulMonotone(0, maxL, maxPM);
    if q % 2 != 0 then
      MulShift(q, -1, L);
      MulShift(q - 1, 2, L);
      q - 1
    else
      MulShift(q, 2, L);
      q
  }

  /** With at least two paths of capacity and a path that fits, a batch holds
      at least one antithetic pair, as the engine asserts. */
  lemma PathsPerBatchPositive(maxL: int, maxPM: int, L: int)
    requires 1 <= L <= maxL && maxPM >= 2
    ensures PathsPerBatch(maxL, maxPM, L) >= 2
  {
    var pm := PathsPerBatch(maxL, maxPM, L);
    MulMonotone(L, maxL, maxPM);
    MulMonotone(2, maxPM, L);
  }

  /** `PI`: the number of outer iterations, enough batches of `PM` paths to
      reach `P2` paths and no more. */
  function OuterIterations(P2: int, PM: int): (pi: int)
    requires P2 >= 0 && PM > 0
    ensures pi >= 0
    ensures (pi - 1) * PM < P2 <= pi * PM
  {
    var q, rem := P2 / PM, P2 % PM;
    assert P2 == q * PM + rem;
    if rem == 0 then q
    else
      assert (q + 1) * PM == q * PM + PM;
      q + 1
  }

  /** Every requested path is simulated, together with its antithetic twin,
      and fewer than one extra batch on top. */
  lemma TotalPaths(P: int, PM: int)
    requires P > 0 && PM > 0
    ensures 2 * P <= OuterIterations(2 * P, PM) * PM < 2 * P + PM
    ensures OuterIterations(2 * P, PM) >= 1
  {
    var pi := OuterIterations(2 * P, PM);
    assert (pi - 1) * PM == pi * PM - PM;
  }

  // ---------------------------------------------------------------------
  // Antithetic Euler paths
  // ---------------------------------------------------------------------

  /** Everything a step of the simulation reads besides the draws: the
      process, the measure (risk-neutral or real-world), the two rate
      providers and the two assets. */
  datatype Market = Market(diff: Diffusion, isRN: bool, rateA: ConstRates, rateB: ConstRates,
                           assetA: Ccy, assetB: Ccy)

  /** In risk-neutral mode both rates are looked up, so both assets must be
      real currencies with a full rate table. */
  ghost predicate MarketOk(m: Market) {
    m.isRN ==> m.rateA.Valid() && m.rateB.Valid() && IsCurrency(m.assetA) && IsCurrency(m.assetB)
  }

  /** The drift used from level `S` at time `y`: the rate differential times
      the level in risk-neutral mode, the process's own drift otherwise. */
  function Drift(m: Market, S: real, y: real): (mu: real)
    requires MarketOk(m)
    // risk-neutral, a zero level or equal rates give no drift
    ensures m.isRN && (S == 0.0 || R(m.rateB, m.assetB, y) == R(m.rateA, m.assetA, y)) ==> mu == 0.0
  {
    if m.isRN then (R(m.rateB, m.assetB, y) - R(m.rateA, m.assetA, y)) * S
    else Mu(m.diff, S, y)
  }

  /** The step lengths: `tau` with root `stau` for every step but the last,
      `tlast` with root `slast` for the last. */
  datatype Steps = Steps(L: int, tau: real, stau: real, tlast: real, slast: real)

  /** Point `l` of a path from point `l-1` at level `Sp`, with the draw `Z`
      added (first path of a pair) or subtracted (second path). The
      coefficients are taken at the time of point `l-1`. */
  function Next(m: Market, st: Steps, ts: seq<real>, l: int, Sp: real, Z: real, plus: bool): (S: real)
    requires MarketOk(m) && 1 <= l < st.L <= |ts|
    // without noise both paths of a pair take the same deterministic step
    ensures Z == 0.0 ==>
              S == Sp + Drift(m, Sp, ts[l - 1]) * (if l == st.L - 1 then st.tlast else st.tau)
  {
    var y := ts[l - 1];
    var mu := Drift(m, Sp, y);
    var sigma := Sigma(m.diff, Sp, y);
    var dt := if l == st.L - 1 then st.tlast else st.tau;
    var sdt := if l == st.L - 1 then st.slast else st.stau;
    Euler(Sp, mu, sigma, dt, sdt, Z, plus)
  }

  /** One Euler step from `Sp` of length `dt` with root `sdt`: drift times
      the step, plus or minus volatility times the root times the draw. */
  function Euler(Sp: real, mu: real, sigma: real, dt: real, sdt: real, Z: real, plus: bool): (S: real)
    ensures Z == 0.0 ==> S == Sp + mu * dt
  {
    if plus then Sp + mu * dt + sigma * sdt * Z else Sp + mu * dt - sigma * sdt * Z
  }

  /** The first `n` points of a path driven by the draws `zs` (draw `l-1`
      makes point `l`), starting at the process's initial level. */
  function Path(m: Market, st: Steps, ts: seq<real>, zs: seq<real>, plus: bool, n: int): (path: seq<real>)
    requires MarketOk(m) && 1 <= n <= st.L <= |ts| && |zs| >= st.L - 1
    ensures |path| == n && path[0] == GetS0(m.diff)
    decreases n
  {
    if n == 1 then [GetS0(m.diff)]
    else
      var prev := Path(m, st, ts, zs, plus, n - 1);
      prev + [Next(m, st, ts, n - 1, prev[n - 2], zs[n - 2], plus)]
  }

  /** One more point of a path. */
  lemma PathStep(m: Market, st: Steps, ts: seq<real>, zs: seq<real>, plus: bool, l: int, Z: real)
    requires MarketOk(m) && 1 <= l < st.L <= |ts| && |zs| >= st.L - 1 && Z == zs[l - 1]
    ensures Path(m, st, ts, zs, plus, l + 1) ==
            Path(m, st, ts, zs, plus, l) + [Next(m, st, ts, l, Path(m, st, ts, zs, plus, l)[l - 1], Z, plus)]
  {
  }

  function Negated(zs: seq<real>): (r: seq<real>)
    ensures |r| == |zs| && forall i :: 0 <= i < |zs| ==> r[i] == -zs[i]
  {
    seq(|zs|, i requires 0 <= i < |zs| => -zs[i])
  }

  /** The second path of a pair is the first path driven by the negated
      draws. */
  lemma {:induction false} AntitheticMirror(m: Market, st: Steps, ts: seq<real>, zs: seq<real>, n: int)
    requires MarketOk(m) && 1 <= n <= st.L <= |ts| && |zs| >= st.L - 1
    ensures Path(m, st, ts, zs, false, n) == Path(m, st, ts, Negated(zs), true, n)
  {
    if n > 1 {
      AntitheticMirror(m, st, ts, zs, n - 1);
      var prev := Path(m, st, ts, zs, false, n - 1);
      assert Negated(zs)[n - 2] == -zs[n - 2];
      NextMirror(m, st, ts, n - 1, prev[n - 2], zs[n - 2]);
    }
  }

  /** Subtracting a draw is adding its negation. */
  lemma NextMirror(m: Market, st: Steps, ts: seq<real>, l: int, Sp: real, Z: real)
    requires MarketOk(m) && 1 <= l < st.L <= |ts|
    ensures Next(m, st, ts, l, Sp, Z, false) == Next(m, st, ts, l, Sp, -Z, true)
  {
    var y := ts[l - 1];
    var sigma := Sigma(m.diff, Sp, y);
    var sdt := if l == st.L - 1 then st.slast else st.stau;
    NegProduct(sigma * sdt, Z);
  }

  lemma NegProduct(a: real, z: real)
    ensures a * (-z) == -(a * z)
  {
  }

  /** With no drift and no volatility anywhere, every point of every path
      stays at the initial level. */
  lemma {:induction false} FlatMarketKeepsS0(m: Market, st: Steps, ts: seq<real>, zs: seq<real>,
                                             plus: bool, n: int)
    requires MarketOk(m) && 1 <= n <= st.L <= |ts| && |zs| >= st.L - 1
    requires forall S, y :: Drift(m, S, y) == 0.0 && Sigma(m.diff, S, y) == 0.0
    ensures forall k :: 0 <= k < n ==> Path(m, st, ts, zs, plus, n)[k] == GetS0(m.diff)
  {
    if n > 1 {
      FlatMarketKeepsS0(m, st, ts, zs, plus, n - 1);
      var prev := Path(m, st, ts, zs, plus, n - 1);
      var path := Path(m, st, ts, zs, plus, n);
      assert path == prev + [Next(m, st, ts, n - 1, prev[n - 2], zs[n - 2], plus)];
      var y := ts[n - 2];
      assert Drift(m, prev[n - 2], y) == 0.0 && Sigma(m.diff, prev[n - 2], y) == 0.0;
    }
  }

  // ---------------------------------------------------------------------
  // Batches
  // ---------------------------------------------------------------------

  /** The `2L` cells of one antithetic pair: the `+Z` path, then the `-Z`
      path, both from the same `L-1` draws. */
  function PairCells(m: Market, st: Steps, ts: seq<real>, zs: seq<real>): (cells: seq<real>)
    requires MarketOk(m) && 1 <= st.L <= |ts| && |zs| >= st.L - 1
    ensures |cells| == 2 * st.L
  {
    Path(m, st, ts, zs, true, st.L) + Path(m, st, ts, zs, false, st.L)
  }

  /** The draws of pair `p` of a batch of `pairs` pairs: the `L-1`
      consecutive draws after those of the pairs before it. */
  function PairDraws(zs: seq<real>, L: int, pairs: int, p: int): (d: seq<real>)
    requires L >= 1 && 0 <= p < pairs && |zs| >= pairs * (L - 1)
    ensures |d| == L - 1
  {
    MulMonotone(p + 1, pairs, L - 1);
    MulMonotone(p, p + 1, L - 1);
    zs[p * (L - 1) .. (p + 1) * (L - 1)]
  }

  /** The cells of each pair of a batch, in pair order. */
  function Pairs(m: Market, st: Steps, ts: seq<real>, zs: seq<real>, pairs: int): (ps: seq<seq<real>>)
    requires MarketOk(m) && 1 <= st.L <= |ts| && pairs >= 0 && |zs| >= pairs * (st.L - 1)
    ensures |ps| == pairs && forall p :: 0 <= p < pairs ==> |ps[p]| == 2 * st.L
  {
    seq(pairs, p requires 0 <= p < pairs => PairCells(m, st, ts, PairDraws(zs, st.L, pairs, p)))
  }

  /** Blocks laid end to end. */
  function Flatten(blocks: seq<seq<real>>): seq<real> {
    if blocks == [] then [] else Flatten(blocks[..|blocks| - 1]) + blocks[|blocks| - 1]
  }

  /** Blocks of one width `w` laid end to end take `w` cells each. */
  lemma {:induction false} FlattenLength(blocks: seq<seq<real>>, w: int)
    requires forall p :: 0 <= p < |blocks| ==> |blocks[p]| == w
    ensures |Flatten(blocks)| == |blocks| * w
  {
    if blocks != [] {
      var n := |blocks|;
      FlattenLength(blocks[..n - 1], w);
      assert (n - 1) * w + w == n * w;
    }
  }

  /** Block `p` follows the blocks before it. */
  lemma {:induction false} FlattenBlock(blocks: seq<seq<real>>, p: int)
    requires 0 <= p < |blocks|
    ensures |Flatten(blocks[..p])| + |blocks[p]| <= |Flatten(blocks)|
    ensures Flatten(blocks)[|Flatten(blocks[..p])| .. |Flatten(blocks[..p])| + |blocks[p]|] == blocks[p]
  {
    var n := |blocks|;
    var init := blocks[..n - 1];
    assert Flatten(blocks) == Flatten(init) + blocks[n - 1];
    if p < n - 1 {
      FlattenBlock(init, p);
      assert init[..p] == blocks[..p];
      SliceOfPrefix(Flatten(init), blocks[n - 1], |Flatten(blocks[..p])|, |Flatten(blocks[..p])| + |blocks[p]|);
    } else {
      assert blocks[..p] == init;
      SliceOfSuffix(Flatten(init), blocks[n - 1]);
    }
  }

  /** The pair after the first `p` blocks. */
  lemma FlattenNext(blocks: seq<seq<real>>, p: int)
    requires 0 <= p < |blocks|
    ensures Flatten(blocks[..p + 1]) == Flatten(blocks[..p]) + blocks[p]
  {
    assert blocks[..p + 1][..p] == blocks[..p];
  }

  /** Blocks laid end to end: the cells of two runs of blocks in a row. */
  lemma {:induction false} FlattenConcat(a: seq<seq<real>>, b: seq<seq<real>>)
    ensures Flatten(a + b) == Flatten(a) + Flatten(b)
    decreases |b|
  {
    if b != [] {
      var init := b[..|b| - 1];
      assert (a + b)[..|a + b| - 1] == a + init;
      FlattenConcat(a, init);
      assert Flatten(a + b) == Flatten(a + init) + b[|b| - 1];
      assert Flatten(b) == Flatten(init) + b[|b| - 1];
    } else {
      assert a + b == a;
    }
  }

  /** The cells from block `p` on are block `p` followed by the cells from
      block `p+1` on. */
  lemma FlattenFront(blocks: seq<seq<real>>, p: int)
    requires 0 <= p < |blocks|
    ensures Flatten(blocks[p..]) == blocks[p] + Flatten(blocks[p + 1..])
  {
    assert blocks[p..] == [blocks[p]] + blocks[p + 1..];
    FlattenConcat([blocks[p]], blocks[p + 1..]);
    assert [blocks[p]][..0] == [];
  }

  /** Pair `p` of a batch of `pairs` pairs of paths of length `L` takes the
      `2L` cells from `2pL`, and its `L-1` draws the ones from `p(L-1)`. */
  lemma BatchSlot(L: int, pairs: int, p: int)
    requires L >= 1 && 0 <= p < pairs
    ensures 0 <= 2 * p * L && 2 * p * L + 2 * L <= 2 * pairs * L
    ensures 2 * (p + 1) * L == 2 * p * L + 2 * L
    ensures 0 <= p * (L - 1) && p * (L - 1) + (L - 1) <= pairs * (L - 1)
  {
    MulMonotone(p + 1, pairs, 2 * L);
    DoubleWidth(p + 1, L);
    DoubleWidth(pairs, L);
    MulMonotone(0, p, L - 1);
    MulMonotone(p + 1, pairs, L - 1);
    MulShift(p, 1, L - 1);
  }

  /** The draws of pair `p` of a batch whose draws start at `start`. */
  lemma PairDrawsAt(zs: seq<real>, start: int, L: int, pairs: int, p: int)
    requires L >= 1 && 0 <= p < pairs && 0 <= start && start + pairs * (L - 1) <= |zs|
    ensures 0 <= p * (L - 1) && start + p * (L - 1) + (L - 1) <= |zs|
    ensures zs[start + p * (L - 1) .. start + p * (L - 1) + (L - 1)] == PairDraws(zs[start..], L, pairs, p)
  {
    BatchSlot(L, pairs, p);
    MulShift(p, 1, L - 1);
  }

  lemma DoubleWidth(a: int, L: int)
    ensures a * (2 * L) == 2 * a * L
  {
  }

  lemma SliceConcat(a: seq<real>, lo: int, mid: int, hi: int)
    requires 0 <= lo <= mid <= hi <= |a|
    ensures a[lo .. hi] == a[lo .. mid] + a[mid .. hi]
  {
  }

  lemma PrefixConcat(a: seq<real>, mid: int, hi: int)
    requires 0 <= mid <= hi <= |a|
    ensures a[..hi] == a[..mid] + a[mid .. hi]
  {
  }

  /** A log that starts with `c` and goes on with nothing yet. */
  lemma LogStart<T>(s: seq<T>, bs: seq<T>)
    ensures s[..|s|] == s && s[|s|..] == bs[..0]
  { }

  /** A log that is `c` followed by the first `i` elements of `bs`, with
      element `i` appended, is `c` followed by the first `i+1`. */
  lemma LogNext<T>(s: seq<T>, c: seq<T>, bs: seq<T>, i: int)
    requires 0 <= i < |bs| && |c| <= |s| && s[..|c|] == c && s[|c|..] == bs[..i]
    ensures (s + [bs[i]])[..|c|] == c && (s + [bs[i]])[|c|..] == bs[..i + 1]
  {
    assert (s + [bs[i]])[..|c|] == s[..|c|];
    assert (s + [bs[i]])[|c|..] == s[|c|..] + [bs[i]];
    assert bs[..i + 1] == bs[..i] + [bs[i]];
  }

  /** A log that is `c` followed by all of `bs`. */
  lemma LogWhole<T>(s: seq<T>, c: seq<T>, bs: seq<T>)
    requires |c| <= |s| && s[..|c|] == c && s[|c|..] == bs[..|bs|]
    ensures s == c + bs
  {
    assert s == s[..|c|] + s[|c|..];
    assert bs[..|bs|] == bs;
  }

  lemma SliceOfPrefix(a: seq<real>, b: seq<real>, lo: int, hi: int)
    requires 0 <= lo <= hi <= |a|
    ensures (a + b)[lo .. hi] == a[lo .. hi]
  {
  }

  lemma SliceOfSuffix(a: seq<real>, b: seq<real>)
    ensures (a + b)[|a| .. |a| + |b|] == b
  {
  }

  /** The cells of a batch of `pairs` antithetic pairs. */
  function BatchCells(m: Market, st: Steps, ts: seq<real>, zs: seq<real>, pairs: int): seq<real>
    requires MarketOk(m) && 1 <= st.L <= |ts| && pairs >= 0 && |zs| >= pairs * (st.L - 1)
  {
    Flatten(Pairs(m, st, ts, zs, pairs))
  }

  /** A batch of `pairs` pairs fills `2*pairs*L` cells; path `2p` of the
      batch is the `+Z` path and path `2p+1` the `-Z` path of pair `p`'s
      draws, both starting at the initial level. */
  lemma BatchLayout(m: Market, st: Steps, ts: seq<real>, zs: seq<real>, pairs: int, p: int)
    requires MarketOk(m) && 1 <= st.L <= |ts| && 0 <= p < pairs && |zs| >= pairs * (st.L - 1)
    ensures |BatchCells(m, st, ts, zs, pairs)| == 2 * pairs * st.L
    ensures 0 <= 2 * p * st.L && 2 * p * st.L + 2 * st.L <= |BatchCells(m, st, ts, zs, pairs)| &&
            BatchCells(m, st, ts, zs, pairs)[2 * p * st.L .. 2 * p * st.L + st.L]
              == Path(m, st, ts, PairDraws(zs, st.L, pairs, p), true, st.L) &&
            BatchCells(m, st, ts, zs, pairs)[2 * p * st.L + st.L .. 2 * p * st.L + 2 * st.L]
              == Path(m, st, ts, PairDraws(zs, st.L, pairs, p), false, st.L)
  {
    var ps := Pairs(m, st, ts, zs, pairs);
    UniformBlock(ps, 2 * st.L, p);
    DoubleWidth(pairs, st.L);
    DoubleWidth(p, st.L);
    var d := PairDraws(zs, st.L, pairs, p);
    Halves(Flatten(ps), 2 * p * st.L, Path(m, st, ts, d, true, st.L), Path(m, st, ts, d, false, st.L));
  }

  /** Blocks of one width `w` laid end to end: block `p` takes the `w`
      cells from `p*w`. */
  lemma UniformBlock(blocks: seq<seq<real>>, w: int, p: int)
    requires 0 <= p < |blocks| && forall q :: 0 <= q < |blocks| ==> |blocks[q]| == w
    ensures |Flatten(blocks)| == |blocks| * w
    ensures 0 <= p * w && p * w + w <= |Flatten(blocks)| && Flatten(blocks)[p * w .. p * w + w] == blocks[p]
  {
    FlattenLength(blocks, w);
    FlattenLength(blocks[..p], w);
    FlattenBlock(blocks, p);
  }

  lemma Halves(c: seq<real>, lo: int, x: seq<real>, y: seq<real>)
    requires 0 <= lo && lo + |x| + |y| <= |c| && c[lo .. lo + |x| + |y|] == x + y
    ensures c[lo .. lo + |x|] == x && c[lo + |x| .. lo + |x| + |y|] == y
  {
    assert c[lo .. lo + |x|] == (x + y)[..|x|];
    assert c[lo + |x| .. lo + |x| + |y|] == (x + y)[|x|..];
  }

  /** The draws consumed by batch `i`: the ones after the `i` earlier
      batches' draws. */
  function BatchDraws(zs: seq<real>, perBatch: int, k: int, i: int): (d: seq<real>)
    requires perBatch >= 0 && 0 <= i < k && |zs| >= k * perBatch
    ensures |d| >= perBatch
  {
    MulMonotone(i + 1, k, perBatch);
    zs[i * perBatch ..]
  }

  /** The batches of a run of `k` outer iterations: batch `i` holds
      `2*pairs` paths built from batch `i`'s draws, and the timeline. */
  function SimBatches(m: Market, st: Steps, ts: seq<real>, zs: seq<real>, pairs: int, k: int): (bs: seq<Batch>)
    requires MarketOk(m) && st.L == |ts| && st.L >= 1 && pairs >= 0 && k >= 0
    requires |zs| >= k * (pairs * (st.L - 1))
    ensures |bs| == k
  {
    if k == 0 then []
    else
      MulMonotone(0, pairs, st.L - 1);
      MulMonotone(k - 1, k, pairs * (st.L - 1));
      SimBatches(m, st, ts, zs, pairs, k - 1) +
        [Batch(st.L, 2 * pairs, BatchCells(m, st, ts, BatchDraws(zs, pairs * (st.L - 1), k, k - 1), pairs), ts)]
  }

  /** Batch `i` of a run holds `2*pairs` paths of `L` points over the
      run's timeline. */
  lemma {:induction false} SimBatchShape(m: Market, st: Steps, ts: seq<real>, zs: seq<real>, pairs: int,
                                         k: int, i: int)
    requires MarketOk(m) && st.L == |ts| && st.L >= 1 && pairs >= 0 && 0 <= i < k
    requires |zs| >= k * (pairs * (st.L - 1))
    ensures var b := SimBatches(m, st, ts, zs, pairs, k)[i];
            b.L == st.L && b.PM == 2 * pairs && b.ts == ts
  {
    if i < k - 1 {
      MulMonotone(0, pairs, st.L - 1);
      MulMonotone(k - 1, k, pairs * (st.L - 1));
      SimBatchShape(m, st, ts, zs, pairs, k - 1, i);
    }
  }

  /** Batch `i` of a run holds the cells of `pairs` pairs built from the
      draws after the `i` earlier batches' draws. */
  lemma {:induction false} SimBatchAt(m: Market, st: Steps, ts: seq<real>, zs: seq<real>, pairs: int,
                                      k: int, i: int)
    requires MarketOk(m) && st.L == |ts| && st.L >= 1 && pairs >= 0 && 0 <= i < k
    requires |zs| >= k * (pairs * (st.L - 1))
    ensures 0 <= i * (pairs * (st.L - 1)) && i * (pairs * (st.L - 1)) + pairs * (st.L - 1) <= |zs|
    ensures SimBatches(m, st, ts, zs, pairs, k)[i] ==
            Batch(st.L, 2 * pairs, BatchCells(m, st, ts, zs[i * (pairs * (st.L - 1))..], pairs), ts)
  {
    var perBatch := pairs * (st.L - 1);
    MulMonotone(0, pairs, st.L - 1);
    MulMonotone(0, i, perBatch);
    MulMonotone(i + 1, k, perBatch);
    MulShift(i, 1, perBatch);
    if i < k - 1 {
      MulMonotone(k - 1, k, perBatch);
      SimBatchAt(m, st, ts, zs, pairs, k - 1, i);
    }
  }

  /** Every batch of a run is well formed for the evaluator: `L` points per
      path, `2*pairs` paths, and path `q` of batch `i` is the `+Z` (even `q`)
      or `-Z` (odd `q`) path of pair `q/2` of that batch. */
  lemma SimBatchPaths(m: Market, st: Steps, ts: seq<real>, zs: seq<real>, pairs: int, k: int, i: int, q: int)
    requires MarketOk(m) && st.L == |ts| && st.L >= 1 && pairs >= 0 && k >= 0
    requires |zs| >= k * (pairs * (st.L - 1))
    requires 0 <= i < k && 0 <= q < 2 * pairs
    ensures WellFormed(SimBatches(m, st, ts, zs, pairs, k)[i]) &&
            SimBatches(m, st, ts, zs, pairs, k)[i].PM == 2 * pairs
    ensures PathOf(SimBatches(m, st, ts, zs, pairs, k)[i], q)
            == Path(m, st, ts, PairDraws(BatchDraws(zs, pairs * (st.L - 1), k, i), st.L, pairs, q / 2),
                    q % 2 == 0, st.L)
  {
    MulMonotone(0, pairs, st.L - 1);
    var d := BatchDraws(zs, pairs * (st.L - 1), k, i);
    SimBatchAt(m, st, ts, zs, pairs, k, i);
    assert SimBatches(m, st, ts, zs, pairs, k)[i] == Batch(st.L, 2 * pairs, BatchCells(m, st, ts, d, pairs), ts);
    BatchPath(m, st, ts, d, pairs, q);
  }

  /** Path `q` of a batch of `pairs` pairs built from the draws `d`. */
  lemma BatchPath(m: Market, st: Steps, ts: seq<real>, d: seq<real>, pairs: int, q: int)
    requires MarketOk(m) && st.L == |ts| && st.L >= 1 && 0 <= q < 2 * pairs && |d| >= pairs * (st.L - 1)
    ensures var b := Batch(st.L, 2 * pairs, BatchCells(m, st, ts, d, pairs), ts);
            WellFormed(b) && PathOf(b, q) == Path(m, st, ts, PairDraws(d, st.L, pairs, q / 2), q % 2 == 0, st.L)
  {
    var b := Batch(st.L, 2 * pairs, BatchCells(m, st, ts, d, pairs), ts);
    BatchLayout(m, st, ts, d, pairs, q / 2);
    PathOfPair(b, Path(m, st, ts, PairDraws(d, st.L, pairs, q / 2), true, st.L),
               Path(m, st, ts, PairDraws(d, st.L, pairs, q / 2), false, st.L), q);
  }

  /** Path `q` of a batch laid out in pairs is the first or the second
      path of pair `q/2`, as `q` is even or odd. */
  lemma PathOfPair(b: Batch, x: seq<real>, y: seq<real>, q: int)
    requires WellFormed(b) && 0 <= q < b.PM
    requires 0 <= 2 * (q / 2) * b.L && 2 * (q / 2) * b.L + 2 * b.L <= |b.paths|
    requires b.paths[2 * (q / 2) * b.L .. 2 * (q / 2) * b.L + b.L] == x
    requires b.paths[2 * (q / 2) * b.L + b.L .. 2 * (q / 2) * b.L + 2 * b.L] == y
    ensures PathOf(b, q) == if q % 2 == 0 then x else y
  {
    HalfIndex(q, b.PM, b.L);
  }

  lemma HalfIndex(q: int, pairs: int, L: int)
    requires q >= 0
    ensures q % 2 == 0 ==> q * L == 2 * (q / 2) * L
    ensures q % 2 == 1 ==> q * L == 2 * (q / 2) * L + L
    ensures (2 * pairs) * L == 2 * pairs * L
  {
  }
}
