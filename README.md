# SiriusFM option-pricing core in Dafny

This project models the core of SiriusFM, a small C++ library for pricing and
hedging options on one underlying:

- **The Monte Carlo path engine** `MCEngine1D`:
  - splits `[t0, T]` into whole time steps and a shortened final step;
  - sizes an even number of paths per batch so a batch fits the fixed path buffer;
  - fills the buffer with antithetic pairs of Euler paths (`+Z` / `-Z` from one draw), in risk-neutral or real-world mode;
  - hands every batch to a path evaluator.
- **The two path evaluators**:
  - the pricer `OPPathEval` folds each path's payoff into a count, sum, sum of squares, minimum and maximum;
  - the hedger `OHPathEval` delta-hedges each path on a money account, with the hedge ratio rounded to a granularity, and folds each path's profit and loss the same way.
  - `MCOptionHedger1D::SimulateHedging` wires the hedger to the engine.
- **The explicit finite-difference grid solver** `GridNOP1D_S3_RKC1`:
  - rejects unsupported runs and checks the time and price capacities;
  - integrates the expected-price and variance curves, then sizes the price axis so that `S0` is exactly a node;
  - sets the payoff layer (backward) or the unit-mass density (forward);
  - marches layer by layer with the boundary rules and the American early-exercise floor;
  - reads the price, delta and gamma at `S0` back from the first layer.
- **The leaves**:
  - the year-fraction clock, currency codes and constant rate tables;
  - the option record with its European call and put;
  - the geometric Brownian motion (GBM) and Ornstein-Uhlenbeck (OU) processes.

## Form of the model

- **Values.** `double` is `real`. Options, processes, rate tables, time grids and batches are datatypes. An exception is a `Result` error carrying the exception's kind and message.
- **Classes.** The engine, both evaluators, the hedging simulator and the grid solver are classes. Their buffers are `array<real>` fields that the methods fill in place:
  - the engine's path buffer and timeline;
  - the solver's grid, timeline, price axis and the two curves.
- **Specifications.** Every method is proved against a specification function in a pure module:
  - `MCPaths` specifies the engine;
  - `PathEval` the accumulators;
  - `MCOptionHedger1D`'s functions the hedging of a path;
  - `GridSpec` the grid.
- **Evaluator history.** Each evaluator keeps a ghost log of the batches it was handed. Its running figures are proved to be the count, sum, sum of squares, minimum and maximum of the values of all logged paths. The engine's `Simulate` proves that it appends exactly the batches `MCPaths.SimBatches` describes.
- **Evaluator choice.** The evaluator template parameter is a datatype with one case per evaluator class.
- **Supplied functions.** `sqrt` and `exp` are function parameters, constrained only by `Numerics.SqrtOk` and `Numerics.ExpOk`:
  - `sqrt` is non-negative, positive on positive arguments, and monotone;
  - `exp` is monotone and at least 1 on non-negative arguments.
- **Normal draws.** They are an input sequence, consumed in batch, pair, step order. The hedge-ratio function is a parameter.
- **Rounding and integer division.** `std::round` is defined exactly (halfway cases away from zero), and so is C++ integer division.
- **Assumed constants.** The source uses `YearFracInt` and `SEC_IN_MIN` without defining them. The model takes:
  - `YearFracInt(d) = d / 31557600`, consistent with `YearFrac`;
  - `SEC_IN_MIN = 60`, consistent with the grid solver's literal.
- **Undeclared members.** The following are declared in the model:
  - `m_MaxPM`, modelled as `maxP`, and the engine timeline `m_ts`, an array of `maxL` points;
  - the grid fields `m_M`, `m_N`, `m_i0` and `m_isFwd`;
  - the option fields `m_expirTime`, `m_assetA`, `m_assetB` and `m_isAsian`.
- **Header and implementation disagree:**
  - **Engine.** The engine header declares a different `Simulate` from the one the implementation defines. The model follows the implementation.
  - **Grid entry point.** The grid header declares `RunBI`, while the implementation defines `Run<IsFwd>`. The model's `Run` takes `fwd` as a parameter.
  - **Payoff arguments.** `Option::Payoff` names its arguments `(L, t, S)`, but every caller passes `(L, path, ts)`. The model's payoff takes the length, the prices and the times.
- **Asserts in the source.** Where the source asserts something of its arguments, the model requires it. Three of those asserts are corrupt in the source and are read as intended:
  - `a_tau_min > 0` as `a_tauMins > 0`;
  - `a_tauMins > &&` as `a_tauMins > 0`;
  - `m_i0 = m_N - 1` as a comparison.

## Model

| member | source | states |
|---|---|---|
| Time.YearFrac | Time.h:6-9 | the absolute time is recovered exactly from the year fraction, `(y - 1970) * SecY = t`; a time is at or after the epoch exactly when its year fraction is at least 1970 |
| Time.YearFracInt | GridNOP1D_S3_RKC1.hpp:58 | an interval in seconds is recovered exactly from its year fraction, `y * SecY = d`; the fraction is positive exactly when the interval is |
| Time.YearFracAtEpoch | Time.h:6-9 | the epoch is year 1970.0 |
| Time.YearFracStrictlyIncreasing | Time.h:6-9 | a later absolute time is a strictly later year fraction |
| Time.YearFracDifference | Time.h:6-9 | differences of year fractions are the time difference over the average year, independent of the epoch offset |
| Time.YearFracIntPositive | GridNOP1D_S3_RKC1.hpp:58 | a positive number of seconds is a positive year fraction |
| Time.YearFracIntMonotone | MCEngine1D.hpp:54-59 | a longer interval is no shorter as a year fraction |
| IRProvider.CcyToStr | IRProvider.h:35-45 | succeeds exactly on the six real currencies, with a 3-letter code (4 for ZERO); invalid_argument "invalid ccy" otherwise |
| IRProvider.StrToCcy | IRProvider.h:47-64 | succeeds exactly on the six case-sensitive codes; invalid_argument "null string" for a null pointer and "invalid ccy" for any other string |
| IRProvider.CcyRoundTrip | IRProvider.h:35-64 | every real currency comes back from its code |
| IRProvider.CodeRoundTrip | IRProvider.h:35-64 | every accepted code comes back from its currency |
| IRProvider.OrdinalsAreSlots | IRProvider.h:15-24 | UNDEFINED is -1, the real currencies are exactly those other than UNDEFINED and N, ordinals are injective, and N is 6 |
| IRProviderConst.R | IRProviderConst.h:12-14 | the rate of a real currency is one of the six rates of the table |
| IRProviderConst.RateIgnoresTime | IRProviderConst.h:12-14 | the rate of a real currency is its table slot at any time |
| IRProviderConst.TableSlots | IRProviderConst.h:9-14 | the table has one slot per real currency: slot `k` holds the rate of the `k`-th currency at any time, and the six real currencies are exactly the listed ones, each once |
| Options.NewOption | Option.h:10-15 | succeeds exactly when `Tdays > 0`, else invalid_argument "Tdays must be positive"; the option holds the given fields |
| Options.IsAmericanIsConstructedFlag | Option.h:18-20 | `IsAmerican` returns the flag given at construction |
| VanillaOption.NewEurCall | VanillaOption.h:12-17 | the base check first, then invalid_argument "K must be positive"; a constructed call is European, not Asian, with strike K |
| VanillaOption.NewEurPut | VanillaOption.h:29-34 | the same checks in the same order for the put |
| VanillaOption.Payoff | VanillaOption.h:19-39 | non-negative; the call is `max(S[l-1] - K, 0)` and the put `max(K - S[l-1], 0)` |
| VanillaOption.PayoffReadsLastPriceOnly | VanillaOption.h:19-39 | the payoff depends only on the price at point `l-1`, not on the times |
| VanillaOption.PutCallParity | VanillaOption.h:21-38 | call payoff minus put payoff is `S[l-1] - K` |
| DiffusionGBM.NewGBM | DiffusionGBM.h:13-18 | succeeds exactly when `sigma >= 0` and `S0 >= 0`, else invalid_argument "invalid params" |
| DiffusionGBM.Mu | DiffusionGBM.h:20-22 | at a positive level the drift has the sign of `mu`: positive, negative or 0 together with it |
| DiffusionGBM.Sigma | DiffusionGBM.h:24-26 | at a positive level the volatility is 0 exactly when `sigma` is; for a valid process it is never negative |
| DiffusionGBM.GetS0 | DiffusionGBM.h:28-30 | the initial level of a valid process is non-negative |
| DiffusionGBM.Coefficients | DiffusionGBM.h:20-26 | at and below 0 both coefficients are 0; both ignore the time argument |
| DiffusionOU.NewOU | DiffusionOU.h:14-23 | checks sigma, then kappa, then S0, each with its own invalid_argument |
| DiffusionOU.Mu | DiffusionOU.h:25-27 | on non-negative levels, with `kappa > 0`, the drift is positive exactly below `theta`, negative exactly above, and 0 exactly at `theta` |
| DiffusionOU.Sigma | DiffusionOU.h:29-31 | on non-negative levels the volatility is `sigma`; for a valid process it is never negative |
| DiffusionOU.GetS0 | DiffusionOU.h:33-35 | the initial level of a valid process is non-negative |
| DiffusionOU.Coefficients | DiffusionOU.h:25-31 | below 0 both coefficients are 0; both ignore the time argument |
| Numerics.Round | MCOptionHedger1D.h:125 | `std::round`: an integer within 1/2, halfway cases away from zero |
| Numerics.TruncDiv | GridNOP1D_S3_RKC1.hpp:62 | C++ integer division; for a positive divisor the quotient is non-positive exactly when the dividend is below it |
| Numerics.XMin | MCOptionPricer1D.h:51 | `std::min` against a running minimum that may be +INFINITY: below both and one of them |
| Numerics.XMax | MCOptionPricer1D.h:52 | `std::max` against a running maximum that may be -INFINITY: above both and one of them |
| PathEval.PathOf | MCOptionPricer1D.h:46-47 | path `p` of a batch is `L` cells starting at cell `p*L` |
| PathEval.SummarisesNext | MCOptionPricer1D.h:49-52 | folding one more value keeps count, sum, sum of squares, minimum and maximum those of all values folded |
| PathEval.MinMaxBound | MCOptionPricer1D.h:51-52 | the running minimum and maximum bound every value folded and, once one was, are values folded |
| PathEval.SqDevExpand | MCOptionPricer1D.h:68-70 | the squared deviation from any centre is recovered from the running sums and is non-negative |
| PathEval.VarianceIsSampleVariance | MCOptionPricer1D.h:68-70 | the one-pass variance equals the two-pass sample variance, so the asserted `var >= 0` holds |
| PathEval.MeanOf | MCOptionPricer1D.h:61 | the mean times the count is the running sum |
| PathEval.VarianceOf | MCOptionPricer1D.h:68-69 | the one-pass formula is the squared deviation about the mean, recovered from the running sums, over `P - 1` |
| PathEval.MeanWithinRange | MCOptionPricer1D.h:58-62 | the mean lies between the running minimum and maximum |
| MCPaths.IntervalCount | MCEngine1D.hpp:47-52 | the number of intervals covers the span: `(n-1)*tau < T <= n*tau` |
| MCPaths.LastIntervalSec | MCEngine1D.hpp:56-59 | the last interval is in `(0, tau]`, is `tau` exactly when `tau` divides the span, and completes the span |
| MCPaths.MakePlan | MCEngine1D.hpp:47-66 | `L = Lints + 1 >= 2`, full intervals plus the last make the span, and `0 < tlast <= tau` as asserted |
| MCPaths.StepRootsBounded | MCEngine1D.hpp:63-65 | the asserted `0 < slast <= stau` |
| MCPaths.TimeLine | MCEngine1D.hpp:91-94 | `L` points, all but the last equal, the last one step `tlast` after the one before |
| MCPaths.TimeLineAsWritten | MCEngine1D.hpp:91-94 | the timeline as written: every point but the last is the same value after `y0`, and the last is one short step later |
| MCPaths.PathsPerBatch | MCEngine1D.hpp:78-83 | `PM` is the largest even count of paths of length `L` that fits the buffer |
| MCPaths.PathsPerBatchPositive | MCEngine1D.hpp:83 | with a path that fits and at least two paths of capacity, `PM >= 2` as asserted |
| MCPaths.OuterIterations | MCEngine1D.hpp:88 | `PI` is the ceiling of `2P / PM` |
| MCPaths.TotalPaths | MCEngine1D.hpp:68-97 | the paths evaluated, `PI*PM`, lie in `[2P, 2P + PM)` and `PI >= 1` |
| MCPaths.Drift | MCEngine1D.hpp:114-126 | risk-neutral, a zero level or equal rates of the two assets give no drift |
| MCPaths.Next | MCEngine1D.hpp:137-145 | with a zero draw both paths of a pair take the same deterministic Euler step, `tau` or `tlast` long |
| MCPaths.Euler | MCEngine1D.hpp:137-145 | with a zero draw the Euler step is the drift step alone, whichever path of the pair it is |
| MCPaths.Path | MCEngine1D.hpp:105-150 | a path starts at the process's initial level and has the requested length |
| MCPaths.PathStep | MCEngine1D.hpp:111-150 | each point is the Euler step from the previous one with the next draw |
| MCPaths.AntitheticMirror | MCEngine1D.hpp:137-145 | the second path of a pair is the first path driven by the negated draws |
| MCPaths.NextMirror | MCEngine1D.hpp:137-145 | subtracting a draw's term is adding the negated draw's term |
| MCPaths.FlatMarketKeepsS0 | MCEngine1D.hpp:111-150 | with no drift and no volatility, every point of every path is the initial level |
| MCPaths.BatchLayout | MCEngine1D.hpp:100-109 | pair `p` takes cells `[2pL, 2pL+2L)`: the `+Z` path, then the `-Z` path from the same draws |
| MCPaths.SimBatches | MCEngine1D.hpp:97-155 | a run of `PI` outer iterations hands over exactly `PI` batches |
| MCPaths.SimBatchAt | MCEngine1D.hpp:97-155 | batch `i` holds the pairs built from the draws after the earlier batches' draws |
| MCPaths.SimBatchPaths | MCEngine1D.hpp:97-155 | path `q` of batch `i` is the `+Z` or `-Z` path of pair `q/2` of that batch's draws |
| MCPaths.SimBatchShape | MCEngine1D.hpp:97-155 | every batch of a run holds `2*pairs` paths of `L` points over the run's timeline |
| MCEngine1D.Evaluate | MCEngine1D.hpp:155 | the evaluator logs exactly one more batch: `L`, `PM`, the first `PM*L` cells and `L` timestamps |
| MCEngine1D.StepsOf | MCEngine1D.hpp:63-65 | the steps keep the plan's lengths and `0 < slast <= stau` |
| MCEngine1D.RunBatchesOf | MCEngine1D.hpp:73-155 | the batches of a run: one per outer iteration, `PI` of them, together holding at least the `2P` requested paths |
| MCEngine1D.MCEngine.constructor | MCEngine1D.h:27-46 | fixed capacities and fresh buffers |
| MCEngine1D.MCEngine.Create | MCEngine1D.h:43-46 | invalid_argument "invalid max path parameters" exactly when a capacity is not positive |
| MCEngine1D.MCEngine.FillTimeLine | MCEngine1D.hpp:91-94 | the timeline cells hold the timeline as written; the cells after it are unchanged |
| MCEngine1D.MCEngine.NextPair | MCEngine1D.hpp:113-145 | the two new points are the `+Z` and `-Z` Euler steps, with the last step's lengths at the last point |
| MCEngine1D.MCEngine.FillPair | MCEngine1D.hpp:100-151 | one pair written at its cells, every other cell unchanged |
| MCEngine1D.MCEngine.PairStarted | MCEngine1D.hpp:105-106 | both paths of a pair start at the process's initial level |
| MCEngine1D.MCEngine.PairStep | MCEngine1D.hpp:111-151 | point `l` of both paths stored after their first `l` points, returned for the next step, every cell outside the pair unchanged |
| MCEngine1D.MCEngine.PairExtended | MCEngine1D.hpp:111-150 | appending the next Euler point of each path of a pair filled to point `l` fills it to point `l + 1` |
| MCEngine1D.MCEngine.WritePoints | MCEngine1D.hpp:147-148 | the two new points appended after the first `l` points of each path, every cell outside the pair unchanged |
| MCEngine1D.MCEngine.FillBatch | MCEngine1D.hpp:100-152 | the first `2*pairs*L` cells hold the batch's pairs in order |
| MCEngine1D.MCEngine.PlacePair | MCEngine1D.hpp:100-151 | after pair `p` is written the first `2(p+1)L` cells are the first `p+1` pairs laid end to end |
| MCEngine1D.MCEngine.Simulate | MCEngine1D.hpp:47-156 | invalid_argument "invalid path parameters" exactly when `L > maxL`, with no batch handed and the path and timeline buffers untouched; otherwise the timeline is written, the evaluator gets exactly the `PI >= 1` batches of the specification, and the path buffer is left holding the last of them |
| MCEngine1D.MCEngine.RunPlan | MCEngine1D.hpp:73-156 | an accepted run writes the timeline, hands over exactly the specified batches, at least one, and leaves the last batch's cells in the path buffer |
| MCEngine1D.MCEngine.RunBatches | MCEngine1D.hpp:97-156 | the outer loop appends exactly the specified batches, in order, and leaves the last one in the path buffer |
| MCEngine1D.MCEngine.RunBatch | MCEngine1D.hpp:97-155 | one outer iteration hands over the next specified batch after the earlier ones and leaves it in the path buffer |
| MCEngine1D.MCEngine.HandBatch | MCEngine1D.hpp:97-155 | batch `i` is generated and handed over exactly once, and the buffer keeps its cells |
| MCEngine1D.MCEngine.GenerateBatch | MCEngine1D.hpp:100-152 | the first `PM*L` cells of the buffer hold batch `i` of the run |
| MCOptionPricer1D.BatchPayoffs | MCOptionPricer1D.h:46-48 | one payoff per path of the batch |
| MCOptionPricer1D.Payoffs | MCOptionPricer1D.h:44-55 | one payoff per path handed over, in all batches |
| MCOptionPricer1D.PayoffsAppend | MCOptionPricer1D.h:44-55 | one more batch appends its payoffs |
| MCOptionPricer1D.PayoffsNonNegative | MCOptionPricer1D.h:48 | every payoff folded is non-negative |
| MCOptionPricer1D.OPPathEval.constructor | MCOptionPricer1D.h:33-41 | no paths, zero sums, minimum +INFINITY, maximum -INFINITY |
| MCOptionPricer1D.OPPathEval.Consume | MCOptionPricer1D.h:44-55 | the count grows by `PM` and the running figures are those of all payoffs handed over |
| MCOptionPricer1D.OPPathEval.FoldBatch | MCOptionPricer1D.h:46-53 | the running figures after the loop are those of the earlier values followed by every payoff of the batch, in order |
| MCOptionPricer1D.OPPathEval.FoldPath | MCOptionPricer1D.h:47-52 | folding path `p`'s payoff extends the running figures by exactly that payoff |
| MCOptionPricer1D.OPPathEval.BatchPathPayoff | MCOptionPricer1D.h:47-48 | the payoff read from cells `[p*L, p*L+L)` is that of path `p` of the batch |
| MCOptionPricer1D.OPPathEval.Commit | MCOptionPricer1D.h:49-54 | storing the folded figures and counting the batch leaves the evaluator consistent with its log, one batch longer |
| MCOptionPricer1D.OPPathEval.GetPx | MCOptionPricer1D.h:58-62 | runtime_error "empty OPPathEval" exactly when fewer than 2 paths; otherwise the mean payoff, non-negative and between minimum and maximum |
| MCOptionPricer1D.OPPathEval.GetStats | MCOptionPricer1D.h:65-72 | the same error; otherwise the root of the sample variance, non-negative, and the minimum and maximum, which bound every payoff and are payoffs |
| MCOptionHedger1D.TargetDelta | MCOptionHedger1D.h:120-126 | the target delta is a whole multiple of the granularity within half of it from `-deltaN`, as `std::round` gives |
| MCOptionHedger1D.Accrue | MCOptionHedger1D.h:110-117 | with no time elapsed or with both rates 0 the money account does not move |
| MCOptionHedger1D.HedgeAfter | MCOptionHedger1D.h:102-133 | the held delta is always a whole multiple of the granularity, from the initial 0 on |
| MCOptionHedger1D.HedgeStep | MCOptionHedger1D.h:105-132 | at each point the money account accrues first; the rebalance preserves money plus delta times price; no trade at the last point; otherwise the delta becomes the target |
| MCOptionHedger1D.Value | MCOptionHedger1D.h:135-136 | a flat position is worth its money plus the payoff |
| MCOptionHedger1D.TradeKeepsValue | MCOptionHedger1D.h:127-136 | re-hedging at the level the portfolio is valued at leaves the value unchanged |
| MCOptionHedger1D.StepAccount | MCOptionHedger1D.h:109-132 | one point of the hedge is self-financing: money plus the held delta at `St` is what the accrual left; without a trade only the accrual happens, with one the delta becomes the target |
| MCOptionHedger1D.Trade | MCOptionHedger1D.h:127-131 | a re-hedge moves the delta to the target and pays for it from the money, so money plus delta times price is unchanged |
| MCOptionHedger1D.PnL | MCOptionHedger1D.h:102-136 | a path of a single point is never traded nor accrued: its profit and loss is the payoff less the premium `C0` |
| MCOptionHedger1D.RateTable | MCOptionHedger1D.h:85-95 | one rate per point of the timeline |
| MCOptionHedger1D.BatchPnLs | MCOptionHedger1D.h:98-142 | one profit and loss per path of the batch |
| MCOptionHedger1D.AllPnLs | MCOptionHedger1D.h:98-143 | one profit and loss per path handed over, in all batches |
| MCOptionHedger1D.LogPnLs | MCOptionHedger1D.h:84-143 | one profit and loss per path of the log, with the rate tables of the first batch |
| MCOptionHedger1D.LogAppend | MCOptionHedger1D.h:84-143 | one more batch appends its profit and loss, hedged with the rate tables of the first batch's timeline |
| MCOptionHedger1D.ConsistentAppend | MCOptionHedger1D.h:84-143 | folding one more batch keeps the evaluator's state consistent with its log |
| MCOptionHedger1D.OHPathEval.constructor | MCOptionHedger1D.h:46-70 | rate tables unfilled, no paths, empty statistics |
| MCOptionHedger1D.OHPathEval.FillRates | MCOptionHedger1D.h:86-94 | the rate table along the first `L` timestamps |
| MCOptionHedger1D.OHPathEval.PathPnL | MCOptionHedger1D.h:99-136 | the hedging loop over one path yields that path's specified profit and loss |
| MCOptionHedger1D.OHPathEval.PointStep | MCOptionHedger1D.h:106-131 | one point of the hedging loop is the specified step of the account |
| MCOptionHedger1D.OHPathEval.FoldBatch | MCOptionHedger1D.h:98-142 | the running figures cover the profit and loss of every path of the batch |
| MCOptionHedger1D.OHPathEval.FoldPath | MCOptionHedger1D.h:98-141 | folding path `p`'s profit and loss extends the running figures by exactly that value |
| MCOptionHedger1D.OHPathEval.BatchPathPnL | MCOptionHedger1D.h:99-136 | the profit and loss hedged along cells `[p*L, p*L+L)` is that of path `p` of the batch |
| MCOptionHedger1D.OHPathEval.Commit | MCOptionHedger1D.h:138-143 | storing the tables and the folded figures and counting the batch leaves the evaluator consistent with its log, one batch longer |
| MCOptionHedger1D.OHPathEval.RateTables | MCOptionHedger1D.h:84-95 | the tables are filled on the first batch from its timeline and reused afterwards |
| MCOptionHedger1D.OHPathEval.Consume | MCOptionHedger1D.h:81-144 | the count grows by `PM`, the running figures are those of all paths' profit and loss, and filled tables stay |
| MCOptionHedger1D.OHPathEval.GetStats | MCOptionHedger1D.h:147-156 | runtime_error when fewer than 2 paths; otherwise mean, root of the non-negative sample variance, minimum and maximum, with the minimum at most the mean at most the maximum and both bounding every value |
| MCOptionHedgerSim.RealWorld | MCOptionHedger1D.hpp:39-41 | the run is in the real-world measure with the simulator's process, rates and the option's assets |
| MCOptionHedgerSim.HedgingBatches | MCOptionHedger1D.hpp:39-41 | the batches of a hedging run form a log the evaluator accepts and hold at least `2P` paths |
| MCOptionHedgerSim.RunFits | MCOptionHedger1D.hpp:39-41 | the batches of a run with at least one pair each form a log the hedging evaluator accepts, each of `2*pairs` paths |
| MCOptionHedgerSim.AllPnLsLength | MCOptionHedger1D.h:138-143 | batches of `n` paths each give `n` values each |
| MCOptionHedgerSim.MCOptionHedger.constructor | MCOptionHedger1D.h:172-184 | the engine of 102271 points by 4096 paths, fresh |
| MCOptionHedgerSim.MCOptionHedger.SimulateHedging | MCOptionHedger1D.hpp:20-45 | the engine's rejection exactly when the path is too long; otherwise at least `2P` values, with their mean, standard deviation, minimum and maximum from a fresh evaluator |
| GridSpec.Mints | GridNOP1D_S3_RKC1.hpp:61-62 | at least one whole step exactly when the expiry is a step or more away |
| GridSpec.TimePoints | GridNOP1D_S3_RKC1.hpp:67 | at least two time points exactly when the expiry is a step or more away |
| GridSpec.Tau | GridNOP1D_S3_RKC1.hpp:72 | the time step is positive |
| GridSpec.TimeSteps | GridNOP1D_S3_RKC1.hpp:61-67 | `Mints` whole steps fit in the time to expiry and one more does not; `M >= 2` |
| GridSpec.TauSplitsTTE | GridNOP1D_S3_RKC1.hpp:58-72 | `Mints` steps of `tau` make the time to expiry |
| GridSpec.Times | GridNOP1D_S3_RKC1.hpp:78-81 | one time per time point |
| GridSpec.TimedIff | GridNOP1D_S3_RKC1.hpp:64-65 | the "already expired or too close" check passes exactly for the runs the model calls timed |
| GridSpec.TimesSpanToExpiry | GridNOP1D_S3_RKC1.hpp:78-81 | the timeline starts at `t0`, increases strictly and ends no later than expiry |
| GridSpec.RateDiff | GridNOP1D_S3_RKC1.hpp:87-89 | the rate differential is clamped at 0 |
| GridSpec.Integr | GridNOP1D_S3_RKC1.hpp:89-93 | the integrated clamped rate differential is never negative |
| GridSpec.ESAt | GridNOP1D_S3_RKC1.hpp:75-96 | the expected price starts at `S0` and never falls below a non-negative `S0` |
| GridSpec.VarAt | GridNOP1D_S3_RKC1.hpp:76-100 | the variance is never negative |
| GridSpec.Spread | GridNOP1D_S3_RKC1.hpp:100 | the variance added over a non-negative step, `sigma^2 tau`, is non-negative |
| GridSpec.VarStepIs | GridNOP1D_S3_RKC1.hpp:99-100 | the variance step at point `j` is the spread of the volatility at the expected price |
| GridSpec.VarAtStep | GridNOP1D_S3_RKC1.hpp:100 | the variance at `j + 1` is that at `j` plus the step |
| GridSpec.IntegrNext | GridNOP1D_S3_RKC1.hpp:92-93 | the loop's integrated rate is the specification's at the next point |
| GridSpec.ESNext | GridNOP1D_S3_RKC1.hpp:96 | the loop's expected price is the specification's at the next point |
| GridSpec.VarNext | GridNOP1D_S3_RKC1.hpp:99-100 | the loop's variance is the specification's at the next point |
| GridSpec.CurvesMonotone | GridNOP1D_S3_RKC1.hpp:74-101 | `E[S]` starts at `S0` and `Var[S]` at 0, and neither decreases |
| GridSpec.Upper | GridNOP1D_S3_RKC1.hpp:104-106 | the upper end of the price axis is at least `S0` |
| GridSpec.I0 | GridNOP1D_S3_RKC1.hpp:109-112 | `0 <= i0 <= Nints`, and `i0 = 0` exactly when `S0 / h < 1/2` |
| GridSpec.SizingExact | GridNOP1D_S3_RKC1.hpp:109-118 | after moving the step, `1 <= i0 <= Nints` and `i0 * h = S0` exactly |
| GridSpec.Verdict | GridNOP1D_S3_RKC1.hpp:45-123 | the six rejections in source order with their messages; success exactly when none applies |
| GridSpec.MeshPlacesS0 | GridNOP1D_S3_RKC1.hpp:78-131 | the grid has `S0` at node `i0`, its first time at `t0`, and `Nints + 1` nodes |
| GridSpec.Node | GridNOP1D_S3_RKC1.hpp:131 | node 0 is the price 0, and with a positive step a node is a positive price exactly when it is above node 0 |
| GridSpec.SLine | GridNOP1D_S3_RKC1.hpp:130-131 | one price per node, starting at 0 |
| GridSpec.SLineIncreasing | GridNOP1D_S3_RKC1.hpp:130-131 | with a positive step the axis is non-negative and strictly increasing |
| GridSpec.Intrinsic | GridNOP1D_S3_RKC1.hpp:135 | the payoff at a node is never negative |
| GridSpec.Fa | GridNOP1D_S3_RKC1.hpp:147-149 | the lower boundary is 0 forward and the payoff at node 0 backward, never negative |
| GridSpec.Neumann | GridNOP1D_S3_RKC1.hpp:154-158 | the slope condition holds exactly backward with a positive payoff at the top node |
| GridSpec.UBC | GridNOP1D_S3_RKC1.hpp:155-159 | the upper boundary term is the payoff's last difference under the slope condition, else 0 |
| GridSpec.Terminal | GridNOP1D_S3_RKC1.hpp:130-136 | one payoff per node |
| GridSpec.Initial | GridNOP1D_S3_RKC1.hpp:139-145 | the forward initial layer has `N` nodes, is non-negative and is positive exactly at `i0` |
| GridSpec.InitialMass | GridNOP1D_S3_RKC1.hpp:139-145 | the forward initial layer has unit mass: `h` times its sum is 1 |
| GridSpec.FokkerPlanck | GridNOP1D_S3_RKC1.hpp:201-203 | no mass around a node, no flow; without convection and with a uniform volatility a density linear across the node does not move |
| GridSpec.Interior | GridNOP1D_S3_RKC1.hpp:184-215 | backward, as written, an inner node keeps its value; forward, an inner node with no mass around it stays at 0 |
| GridSpec.InteriorForward | GridNOP1D_S3_RKC1.hpp:194-214 | a forward inner node is `f[i]` minus `tau` times the Fokker-Planck derivative, as the source writes it; this is the sign of a step backward in time |
| GridSpec.ForwardStepSignAsWritten | GridNOP1D_S3_RKC1.hpp:201-214 | from a unit spike at the node below, the Fokker-Planck derivative at an empty node is positive for any non-zero volatility, so the forward update as written makes that node negative |
| GridSpec.PreNode | GridNOP1D_S3_RKC1.hpp:181-217 | node 0 is `fa`; without the slope condition the top node is 0; forward both ends are 0 |
| GridSpec.PreLayer | GridNOP1D_S3_RKC1.hpp:181-217 | every node of a new layer before the floor |
| GridSpec.Floor | GridNOP1D_S3_RKC1.hpp:221-230 | every node at least its payoff at the step's time |
| GridSpec.Advance | GridNOP1D_S3_RKC1.hpp:169-231 | a new layer has `N` nodes, and the floor changes only American runs: a European layer is the layer before the floor |
| GridSpec.Layer | GridNOP1D_S3_RKC1.hpp:169-231 | every layer of the grid has `N` nodes |
| GridSpec.Layers | GridNOP1D_S3_RKC1.hpp:169-174 | the grid is its layers in order |
| GridSpec.ForwardLayers | GridNOP1D_S3_RKC1.hpp:169-174 | forward, each layer is the step from the one before |
| GridSpec.BackwardLayers | GridNOP1D_S3_RKC1.hpp:169-174 | backward, each layer is the step from the one after |
| GridSpec.ForwardBoundaries | GridNOP1D_S3_RKC1.hpp:149-217 | every layer a forward run makes is 0 at both ends |
| GridSpec.StepBoundaries | GridNOP1D_S3_RKC1.hpp:149-231 | for every option, before the floor node 0 is `fa` and the top node is the node below plus the payoff's last difference under the Neumann rule, else 0; a European layer is exactly that, an American layer floors both ends at the payoff afterwards |
| GridSpec.AmericanFloor | GridNOP1D_S3_RKC1.hpp:221-230 | for American options, every node of every new layer is at least its non-negative payoff at the source layer's time |
| GridSpec.IntrinsicIgnoresTime | GridNOP1D_S3_RKC1.hpp:227 | the payoff at a node does not depend on the time it is taken at |
| GridSpec.BackwardStepKeepsPayoff | GridNOP1D_S3_RKC1.hpp:206-217 | as written, a backward step leaves the payoff layer as it is |
| GridSpec.BackwardLayersArePayoff | GridNOP1D_S3_RKC1.hpp:169-232 | as written, every backward layer is the payoff layer |
| GridSpec.BackwardPriceIsPayoff | GridNOP1D_S3_RKC1.hpp:253 | as written, a backward run prices at the payoff at `S0` |
| GridSpec.SpacingIsStep | GridNOP1D_S3_RKC1.hpp:252 | the step as intended, `S[1] - S[0]`, is the grid's positive step |
| GridSpec.AsWrittenSpacing | GridNOP1D_S3_RKC1.hpp:252 | the step as written also rewrites the axis, which keeps its length |
| GridSpec.AsWrittenSpacingVanishes | GridNOP1D_S3_RKC1.hpp:252 | the step as written is 0 and node 1 of the axis is overwritten |
| GridSpec.Greeks | GridNOP1D_S3_RKC1.hpp:253-270 | the price is the node's value; the gamma at an end node is 0; the inner delta is the central difference (see Findings) |
| GridSpec.AsWrittenDelta | GridNOP1D_S3_RKC1.hpp:258 | the inner delta as written, `(f[i+1] - f[i+1]) / 2h`, is 0 on every layer |
| GridSpec.AsWrittenDeltaMissesSlope | GridNOP1D_S3_RKC1.hpp:258 | on the layer `0, 1, 2` with unit step the delta as written is 0, while the central difference is the slope 1 |
| GridSpec.SquarePositive | GridNOP1D_S3_RKC1.hpp:201-203 | for a non-zero step, `h^2` and the diffusion denominator `2 h^2` are positive |
| GridSpec.GreeksOfLinear | GridNOP1D_S3_RKC1.hpp:257-267 | on a layer linear in the price every gamma is 0 and every delta, inner or end, is the slope |
| GridNOP1D.GridSolver.constructor | GridNOP1D_S3_RKC1.h:40-56 | the five buffers at their capacities; no grid held |
| GridNOP1D.GridSolver.Run | GridNOP1D_S3_RKC1.hpp:24-233 | the result is the verdict; on success the grid is the specified mesh and layers, with the curves; on failure the fields set before the failing check hold their new values and the rest is unchanged |
| GridNOP1D.GridSolver.Admit | GridNOP1D_S3_RKC1.hpp:45-72 | the first four rejections in order with their messages, and `M` and the step once the time grid passes |
| GridNOP1D.GridSolver.Solve | GridNOP1D_S3_RKC1.hpp:74-232 | the timeline and curves, `i0`, `N`, and either the last two rejections or the built grid |
| GridNOP1D.GridSolver.Lay | GridNOP1D_S3_RKC1.hpp:125-232 | the grid built in place for the mesh, with nothing beyond it changed |
| GridNOP1D.GridSolver.SizeAxis | GridNOP1D_S3_RKC1.hpp:104-116 | `i0` as specified, and the moved step `S0 / i0` when `i0 != 0` |
| GridNOP1D.GridSolver.FillCurves | GridNOP1D_S3_RKC1.hpp:74-102 | the timeline and both curves as specified, cells after `M` unchanged |
| GridNOP1D.GridSolver.CurvePoint | GridNOP1D_S3_RKC1.hpp:78-101 | one more point of the timeline and both curves in place, with the next integrated rate; cells after `M` unchanged |
| GridNOP1D.GridSolver.NextCurves | GridNOP1D_S3_RKC1.hpp:87-100 | the next integrated rate, expected price and variance as specified |
| GridNOP1D.GridSolver.Build | GridNOP1D_S3_RKC1.hpp:125-232 | the price axis and every layer of the mesh; cells beyond unchanged |
| GridNOP1D.GridSolver.BoundaryValues | GridNOP1D_S3_RKC1.hpp:149-160 | `fa`, the Neumann flag and the upper boundary term read from the payoff layer |
| GridNOP1D.GridSolver.FillSLine | GridNOP1D_S3_RKC1.hpp:127-136 | `S[i] = i h`, and backward the payoff layer in the last layer; nothing else changed |
| GridNOP1D.GridSolver.SLinePoint | GridNOP1D_S3_RKC1.hpp:130-136 | one more price of the axis, and backward one more payoff in the last layer; nothing else changed |
| GridNOP1D.GridSolver.FillInitial | GridNOP1D_S3_RKC1.hpp:139-145 | the first layer is the forward initial density |
| GridNOP1D.GridSolver.FillLowBound | GridNOP1D_S3_RKC1.hpp:163-164 | the bottom node of every layer but the last is `fa`; every other cell, the whole last layer included, keeps its value |
| GridNOP1D.GridSolver.MarchForward | GridNOP1D_S3_RKC1.hpp:169-232 | forward marching fills every layer as specified |
| GridNOP1D.GridSolver.MarchBackward | GridNOP1D_S3_RKC1.hpp:169-232 | backward marching fills every layer as specified |
| GridNOP1D.GridSolver.MarchUp | GridNOP1D_S3_RKC1.hpp:169-232 | from the initial layer, all `M` layers in place, cells beyond unchanged |
| GridNOP1D.GridSolver.ForwardStep | GridNOP1D_S3_RKC1.hpp:169-232 | the first `j + 1` layers in place give the first `j + 2`; cells beyond the grid unchanged |
| GridNOP1D.GridSolver.ForwardPlaced | GridNOP1D_S3_RKC1.hpp:169-232 | writing layer `j + 1` right after the first `j + 1` layers, and nothing else, places the first `j + 2` |
| GridNOP1D.GridSolver.MarchDown | GridNOP1D_S3_RKC1.hpp:169-232 | from the payoff layer, all layers down to the first in place, cells beyond unchanged |
| GridNOP1D.GridSolver.BackwardStep | GridNOP1D_S3_RKC1.hpp:169-232 | layers `j` to `M - 1` in place give layers `j - 1` to `M - 1`; cells beyond the grid unchanged |
| GridNOP1D.GridSolver.MarchLayer | GridNOP1D_S3_RKC1.hpp:173-231 | one new layer is the specified step of the source layer, other cells unchanged |
| GridNOP1D.GridSolver.StepNodes | GridNOP1D_S3_RKC1.hpp:181-217 | every node of the new layer before the floor |
| GridNOP1D.GridSolver.InnerNodes | GridNOP1D_S3_RKC1.hpp:184-215 | node 0 as set and every inner node `1 .. N-2` of the new layer by the explicit step; cells outside the layer unchanged |
| GridNOP1D.GridSolver.InnerNode | GridNOP1D_S3_RKC1.hpp:185-214 | one inner node by the explicit Euler step |
| GridNOP1D.GridSolver.ExerciseFloor | GridNOP1D_S3_RKC1.hpp:221-230 | the early-exercise floor on the new layer, other cells unchanged |
| GridNOP1D.GridSolver.GetPxDeltaGamma0 | GridNOP1D_S3_RKC1.hpp:245-271 | runtime_error "Run BI first" exactly when `M` or `N` is 0; otherwise the price at `i0`, and after a run the Greeks of the first layer on the run's step |
| GridNOP1D.GridSolver.FirstLayerReadable | GridNOP1D_S3_RKC1.hpp:250-253 | after a run the cells read are the first layer, and the axis step is the run's |

## Left out

- Random numbers: `mt19937_64`, `normal_distribution` and the clock seed are replaced by the input sequence of draws. `useTimerSeed` is kept only as a field.
- Floating point:
  - `double` is a real number, so rounding, overflow, NaN and infinities are not modelled;
  - the grid solver's `isfinite(h)` check is modelled by its only real-number cause, `i0 = 0`;
  - `sqrt` and `exp` are supplied functions constrained only by the properties listed above.
- Integer widths: `int`, `long` and `time_t` are unbounded integers, so their overflow is not modelled. This covers `a_tauMins * 60` (GridNOP1D_S3_RKC1.hpp:61) and `a_tauMins * SEC_IN_MIN` (MCEngine1D.hpp:48) in `int`, and `m_MaxL * m_MaxPM` (MCEngine1D.hpp:78) in `long`.
- Memory: allocation, destructors (including the hedger's double reset of `m_ratesA`), and the commented-out OpenMP pragma are not modelled.
- `IRProviderConst.cpp`, the rate-file reader, is not part of this model. A rate table is a value of six rates.
- `MCOptionPricer1D::Px` and the pricer's constructor are not modelled: `Px` has only a declaration. `MCOptionHedger1D::GetRateA` and `GetRateB` are not modelled either; they are one-line lookups covered by `IRProviderConst.R`.
- BSM.hpp, the test drivers, and the CEV, CIR and Lipton processes are not part of this model.
- GridNOP1D.GridSolver.Run: requires `maxM <= maxN`, because the grid buffer holds `maxN * maxN` cells while a run addresses `M * N` of them. A solver with `maxM > maxN` is therefore never run, even when the run itself would fit. For example, with `maxN = 10` and `maxM = 20`, a run with `M = 20` and `N = 5` uses 100 of the 100 cells. The model does not cover such solvers, because `M` and `N` are known only inside the run.
- Default arguments are not modelled; every argument is explicit. This covers `a_tauMins = 15` and `a_P = 100'000` of `SimulateHedging` (MCOptionHedger1D.h:198-199), and `a_N = 500`, `a_tauMins = 30` and `a_BFactor = 4.5` of `RunBI` (GridNOP1D_S3_RKC1.h:85-87).
- GridNOP1D.GridSolver.constructor: the header never declares the fields `m_M`, `m_N`, `m_i0` and `m_isFwd`. The model declares them and starts them at `M = N = i0 = 0` and not forward. The 0s are what `GetPxDeltaGamma0` tests to detect a solver that has not run.
- GridNOP1D.GridSolver.Run: the unused recomputation `B = h * Nints` is not modelled.
- GridNOP1D.GridSolver.GetPxDeltaGamma0:
  - uses the intended step `S[1] - S[0]` and the central-difference inner delta, not the step and the delta as written (see Findings);
  - on a solver whose last run failed after setting `N`, it requires cells that hold two distinct prices;
  - the source would divide by zero there.
- GridSpec.Interior: the forward interior update is modelled as written, `f[i] - tau * DfDt` (GridNOP1D_S3_RKC1.hpp:214). With the Fokker-Planck derivative of hpp:201-203 this has the sign of a backward-in-time step, which does not keep the layer a density (`GridSpec.ForwardStepSignAsWritten`). No corrected forward step `f[i] + tau * DfDt` is modelled, because the forward layers, the boundaries and the run all build on the step as written.
- GridSpec.Interior: the backward interior update is modelled as written. An inner `double DfDt` shadows the outer one, so the node keeps its value. `GridSpec.BackwardLayersArePayoff` states the consequence. The Black-Scholes-Merton step is not modelled.
- MCPaths.TimeLine: the timeline is modelled as written, `y0 + L*tau` at every point but the last. `MCPaths.TimeLineAsWritten` states the consequence. No corrected timeline is modelled.
- MCEngine1D.MCEngine.Simulate: requires enough draws for the whole run, in place of an unbounded generator. The same requires, `DrawsSuffice`, also asks for `PM > 0`, the source's `assert(PM > 0 ...)` (MCEngine1D.hpp:83). The model therefore does not cover an accepted path too long for two paths to fit, for example `maxP = 1` with `L > maxL / 2`; the source's assert fails there.
- MCOptionHedger1D.OHPathEval.Consume: requires a positive granularity. The constructor admits 0, but the hedging loop divides by it. Every caller, `SimulateHedging` included, asserts it is positive.
- MCOptionHedgerSim.MCOptionHedger.SimulateHedging: the evaluator's "empty" error is not modelled as a separate outcome. A successful engine run always hands over at least `2P >= 2` paths.

## Findings

| source | as written | input that shows it | evidently intended | confidence | as-written member | corrected member |
|---|---|---|---|---|---|---|
| GridNOP1D_S3_RKC1.hpp:258 | the inner delta `(f[i0+1] - f[i0+1]) / 2h` subtracts the upper neighbour from itself, so it is always 0 | the layer `0, 1, 2` with unit step at node 1: delta 0, slope 1 | `(f[i0+1] - f[i0-1]) / 2h`, the central difference | not executed | GridSpec.AsWrittenDelta | GridSpec.GreeksOfLinear |
| GridNOP1D_S3_RKC1.hpp:252 | `h = m_S[1] = m_S[0]` stores node 0 into node 1 and takes that, so `h = 0` | any successful run, e.g. `Nints = 500`; then `S[0] = 0`, so `h = 0` and node 1 of the axis is lost | `h = m_S[1] - m_S[0]`, the grid's price step | not executed | GridSpec.AsWrittenSpacingVanishes | GridSpec.SpacingIsStep |
