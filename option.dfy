/** The option contract as the pricing engines see it. The base class of the
    source holds the American flag and the life in days; the engines also
    read an expiry time, the two assets and an Asian flag, which the record
    carries as well. The payoff is a tag chosen by the concrete option. */
module Options {
  import opened Errors
  import opened IRProvider

  /** The concrete payoffs available: the vanilla call and put. */
  datatype Kind = EurCall(K: real) | EurPut(K: real)

  datatype Option = Option(
    isAmerican: bool,
    tDays: int,
    expirTime: int,
    assetA: Ccy,
    assetB: Ccy,
    isAsian: bool,
    kind: Kind)

  /** Every constructed option has a positive life in days. */
  ghost predicate Valid(o: Option) {
    o.tDays > 0
  }

  /** The base-class constructor: invalid_argument unless `tDays > 0`. */
  function NewOption(isAmerican: bool, tDays: int, expirTime: int, assetA: Ccy, assetB: Ccy,
                     isAsian: bool, kind: Kind): (r: Result<Option>)
    ensures r.Ok? <==> tDays > 0
    ensures r.Err? ==> r.error == InvalidArgument("Tdays must be positive")
    ensures r.Ok? ==> Valid(r.value) && r.value.isAmerican == isAmerican && r.value.tDays == tDays
    ensures r.Ok? ==> r.value.expirTime == expirTime && r.value.assetA == assetA
    ensures r.Ok? ==> r.value.assetB == assetB && r.value.isAsian == isAsian && r.value.kind == kind
  {
    if tDays <= 0 then Err(InvalidArgument("Tdays must be positive"))
    else Ok(Option(isAmerican, tDays, expirTime, assetA, assetB, isAsian, kind))
  }

  function IsAmerican(o: Option): bool {
    o.isAmerican
  }

  /** `IsAmerican()` returns the flag given at construction. */
  lemma IsAmericanIsConstructedFlag(isAmerican: bool, tDays: int, expirTime: int, assetA: Ccy,
                                    assetB: Ccy, isAsian: bool, kind: Kind)
    requires NewOption(isAmerican, tDays, expirTime, assetA, assetB, isAsian, kind).Ok?
    ensures IsAmerican(NewOption(isAmerican, tDays, expirTime, assetA, assetB, isAsian, kind).value)
            == isAmerican
  {
  }
}
