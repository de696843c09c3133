/** Geometric Brownian motion: drift `mu*S`, volatility `sigma*S`, both 0
    below the origin. */
module DiffusionGBM {
  import opened Errors

  datatype GBM = GBM(mu: real, sigma: real, S0: real)

  ghost predicate Valid(g: GBM) {
    g.sigma >= 0.0 && g.S0 >= 0.0
  }

  /** The constructor: invalid_argument if `sigma < 0` or `S0 < 0`. */
  function NewGBM(mu: real, sigma: real, S0: real): (r: Result<GBM>)
    ensures r.Ok? <==> sigma >= 0.0 && S0 >= 0.0
    ensures r.Err? ==> r.error == InvalidArgument("invalid params")
    ensures r.Ok? ==> Valid(r.value) && r.value == GBM(mu, sigma, S0)
  {
    if sigma < 0.0 || S0 < 0.0 then Err(InvalidArgument("invalid params")) else Ok(GBM(mu, sigma, S0))
  }

  /** Above the origin the drift has the sign of `mu`. */
  function Mu(g: GBM, S: real, t: real): (r: real)
    ensures S > 0.0 ==> (r > 0.0 <==> g.mu > 0.0) && (r < 0.0 <==> g.mu < 0.0)
  {
    if S < 0.0 then 0.0 else g.mu * S
  }

  /** Above the origin the volatility is 0 exactly when `sigma` is; it is
      never negative for a constructed process. */
  function Sigma(g: GBM, S: real, t: real): (r: real)
    ensures S > 0.0 ==> (r == 0.0 <==> g.sigma == 0.0)
    ensures Valid(g) ==> r >= 0.0
  {
    if S < 0.0 then 0.0
    else
      assert g.sigma >= 0.0 && S >= 0.0 ==> g.sigma * S >= 0.0;
      g.sigma * S
  }

  /** A constructed process starts at a non-negative level. */
  function GetS0(g: GBM): (r: real)
    ensures Valid(g) ==> r >= 0.0
  {
    g.S0
  }

  /** Both coefficients vanish at and below the origin, and neither
      depends on time. */
  lemma Coefficients(g: GBM, S: real, t: real, t': real)
    ensures S <= 0.0 ==> Mu(g, S, t) == 0.0 && Sigma(g, S, t) == 0.0
    ensures Mu(g, S, t) == Mu(g, S, t') && Sigma(g, S, t) == Sigma(g, S, t')
  {
  }
}
