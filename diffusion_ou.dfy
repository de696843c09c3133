/** The mean-reverting (Ornstein-Uhlenbeck) process: drift
    `kappa*(theta - S)`, constant volatility, both 0 below the origin. */
module DiffusionOU {
  import opened Errors

  datatype OU = OU(kappa: real, theta: real, sigma: real, S0: real)

  ghost predicate Valid(o: OU) {
    o.sigma >= 0.0 && o.kappa > 0.0 && o.S0 >= 0.0
  }

  /** The constructor checks sigma, then kappa, then S0, each with its own
      invalid_argument. */
  function NewOU(kappa: real, theta: real, sigma: real, S0: real): (r: Result<OU>)
    ensures r.Ok? <==> sigma >= 0.0 && kappa > 0.0 && S0 >= 0.0
    ensures sigma < 0.0 ==> r == Err(InvalidArgument("invalid sigma"))
    ensures sigma >= 0.0 && kappa <= 0.0 ==> r == Err(InvalidArgument("invalid beta"))
    ensures sigma >= 0.0 && kappa > 0.0 && S0 < 0.0 ==> r == Err(InvalidArgument("invalid S0"))
    ensures r.Ok? ==> Valid(r.value) && r.value == OU(kappa, theta, sigma, S0)
  {
    if sigma < 0.0 then Err(InvalidArgument("invalid sigma"))
    else if kappa <= 0.0 then Err(InvalidArgument("invalid beta"))
    else if S0 < 0.0 then Err(InvalidArgument("invalid S0"))
    else Ok(OU(kappa, theta, sigma, S0))
  }

  /** Mean reversion: on the non-negative levels the drift points toward
      theta and vanishes at theta. */
  function Mu(o: OU, S: real, t: real): (r: real)
    ensures S >= 0.0 && o.kappa > 0.0 ==>
              (r > 0.0 <==> S < o.theta) && (r < 0.0 <==> S > o.theta) && (r == 0.0 <==> S == o.theta)
  {
    if S < 0.0 then 0.0
    else
      assert o.kappa > 0.0 && S < o.theta ==> o.kappa * (o.theta - S) > 0.0;
      assert o.kappa > 0.0 && S > o.theta ==> o.kappa * (o.theta - S) < 0.0;
      o.kappa * (o.theta - S)
  }

  /** The volatility is the constant sigma on the non-negative levels;
      never negative for a constructed process. */
  function Sigma(o: OU, S: real, t: real): (r: real)
    ensures S >= 0.0 ==> r == o.sigma
    ensures Valid(o) ==> r >= 0.0
  {
    if S < 0.0 then 0.0 else o.sigma
  }

  /** A constructed process starts at a non-negative level. */
  function GetS0(o: OU): (r: real)
    ensures Valid(o) ==> r >= 0.0
  {
    o.S0
  }

  /** Both coefficients vanish below the origin, and neither depends on
      time. */
  lemma Coefficients(o: OU, S: real, t: real, t': real)
    ensures S < 0.0 ==> Mu(o, S, t) == 0.0 && Sigma(o, S, t) == 0.0
    ensures Mu(o, S, t) == Mu(o, S, t') && Sigma(o, S, t) == Sigma(o, S, t')
  {
  }
}
