/** European calls and puts: constructors that validate the strike, and the
    payoff on a path. */
module VanillaOption {
  import opened Errors
  import opened IRProvider
  import opened Options

  /** `EurCallOption(K, Tdays)`: the base constructor runs first (European,
      `Tdays > 0`), then the strike must be positive. */
  function NewEurCall(K: real, tDays: int, expirTime: int, assetA: Ccy, assetB: Ccy): (r: Result<Option>)
    ensures r.Ok? <==> tDays > 0 && K > 0.0
    ensures tDays <= 0 ==> r == Err(InvalidArgument("Tdays must be positive"))
    ensures tDays > 0 && K <= 0.0 ==> r == Err(InvalidArgument("K must be positive"))
    ensures r.Ok? ==> Valid(r.value) && !r.value.isAmerican && !r.value.isAsian && r.value.kind == EurCall(K)
  {
    var base :- NewOption(false, tDays, expirTime, assetA, assetB, false, EurCall(K));
    if K <= 0.0 then Err(InvalidArgument("K must be positive")) else Ok(base)
  }

  /** `EurPutOption(K, Tdays)`, with the same checks in the same order. */
  function NewEurPut(K: real, tDays: int, expirTime: int, assetA: Ccy, assetB: Ccy): (r: Result<Option>)
    ensures r.Ok? <==> tDays > 0 && K > 0.0
    ensures tDays <= 0 ==> r == Err(InvalidArgument("Tdays must be positive"))
    ensures tDays > 0 && K <= 0.0 ==> r == Err(InvalidArgument("K must be positive"))
    ensures r.Ok? ==> Valid(r.value) && !r.value.isAmerican && !r.value.isAsian && r.value.kind == EurPut(K)
  {
    var base :- NewOption(false, tDays, expirTime, assetA, assetB, false, EurPut(K));
    if K <= 0.0 then Err(InvalidArgument("K must be positive")) else Ok(base)
  }

  /** `Payoff(l, prices, times)`: the payoff on the first `l` points of a
      path, which for a vanilla option depends on the price at point `l-1`
      alone. The source asserts `l > 0` and a non-null price array. */
  function Payoff(o: Option, l: int, S: seq<real>, ts: seq<real>): (r: real)
    requires 0 < l <= |S|
    ensures r >= 0.0
    ensures o.kind.EurCall? ==> r >= S[l - 1] - o.kind.K && (r == 0.0 || r == S[l - 1] - o.kind.K)
    ensures o.kind.EurPut? ==> r >= o.kind.K - S[l - 1] && (r == 0.0 || r == o.kind.K - S[l - 1])
  {
    match o.kind
    case EurCall(K) => if S[l - 1] - K < 0.0 then 0.0 else S[l - 1] - K
    case EurPut(K) => if K - S[l - 1] < 0.0 then 0.0 else K - S[l - 1]
  }

  /** The payoff reads only the price at point `l-1`, never the times. */
  lemma PayoffReadsLastPriceOnly(o: Option, l: int, S: seq<real>, ts: seq<real>,
                                 S': seq<real>, ts': seq<real>)
    requires 0 < l <= |S| && 0 < l <= |S'| && S[l - 1] == S'[l - 1]
    ensures Payoff(o, l, S, ts) == Payoff(o, l, S', ts')
  {
  }

  /** Put-call parity of the payoffs: call minus put is the price minus
      the strike. */
  lemma PutCallParity(c: Option, p: Option, l: int, S: seq<real>, ts: seq<real>)
    requires c.kind.EurCall? && p.kind == EurPut(c.kind.K) && 0 < l <= |S|
    ensures Payoff(c, l, S, ts) - Payoff(p, l, S, ts) == S[l - 1] - c.kind.K
  {
  }
}
