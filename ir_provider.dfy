/** Currencies and interest-rate modes: the enumerations, and the mapping
    between a currency and its three- or four-letter code. */
module IRProvider {
  import opened Errors

  /** The currency enumeration. `UNDEFINED` is a sentinel and `N` counts the
      real currencies; neither names a currency. */
  datatype Ccy = UNDEFINED | USD | EUR | GBP | CHF | RUB | ZERO | N

  /** The integer value of each enumerator. */
  function Ordinal(c: Ccy): int {
    match c
    case UNDEFINED => -1
    case USD => 0
    case EUR => 1
    case GBP => 2
    case CHF => 3
    case RUB => 4
    case ZERO => 5
    case N => 6
  }

  /** The number of real currencies, the value of `N`. */
  const NumCcy: int := Ordinal(N)

  /** A real currency: neither `UNDEFINED` nor `N`. */
  predicate IsCurrency(c: Ccy) {
    0 <= Ordinal(c) < NumCcy
  }

  /** The interest-rate modes; only `Const` has a provider. */
  datatype IRMode = Const | FwdCurve | Stoch

  function ModeOrdinal(m: IRMode): int {
    match m
    case Const => 0
    case FwdCurve => 1
    case Stoch => 2
  }

  /** A C string argument: a null pointer or the characters before the
      terminating NUL. */
  datatype CStr = Null | Str(chars: string)

  const Codes: set<string> := {"USD", "EUR", "GBP", "CHF", "RUB", "ZERO"}

  /** The code of a currency; invalid_argument for `UNDEFINED` and `N`. */
  function CcyToStr(c: Ccy): (r: Result<string>)
    ensures r.Ok? <==> IsCurrency(c)
    ensures r.Ok? ==> r.value in Codes && |r.value| == (if c == ZERO then 4 else 3)
    ensures r.Err? ==> r.error == InvalidArgument("invalid ccy")
  {
    match c
    case USD => Ok("USD")
    case EUR => Ok("EUR")
    case GBP => Ok("GBP")
    case CHF => Ok("CHF")
    case RUB => Ok("RUB")
    case ZERO => Ok("ZERO")
    case _ => Err(InvalidArgument("invalid ccy"))
  }

  /** The currency with the given code: an exact, case-sensitive match
      against the six codes, tried in declaration order. */
  function StrToCcy(s: CStr): (r: Result<Ccy>)
    ensures r.Ok? <==> s.Str? && s.chars in Codes
    ensures r.Ok? ==> IsCurrency(r.value)
    ensures s.Null? ==> r == Err(InvalidArgument("null string"))
    ensures s.Str? && s.chars !in Codes ==> r == Err(InvalidArgument("invalid ccy"))
  {
    if s.Null? then Err(InvalidArgument("null string"))
    else if s.chars == "USD" then Ok(USD)
    else if s.chars == "EUR" then Ok(EUR)
    else if s.chars == "GBP" then Ok(GBP)
    else if s.chars == "CHF" then Ok(CHF)
    else if s.chars == "RUB" then Ok(RUB)
    else if s.chars == "ZERO" then Ok(ZERO)
    else Err(InvalidArgument("invalid ccy"))
  }

  /** Every currency survives the trip through its code. */
  lemma CcyRoundTrip(c: Ccy)
    requires IsCurrency(c)
    ensures CcyToStr(c).Ok? && StrToCcy(Str(CcyToStr(c).value)) == Ok(c)
  {
  }

  /** Every accepted code survives the trip through its currency. */
  lemma CodeRoundTrip(s: string)
    requires StrToCcy(Str(s)).Ok?
    ensures CcyToStr(StrToCcy(Str(s)).value) == Ok(s)
  {
  }

  /** The ordinals of the real currencies are exactly 0 .. N-1, one each. */
  lemma OrdinalsAreSlots(c: Ccy, d: Ccy)
    ensures IsCurrency(c) <==> c != UNDEFINED && c != N
    ensures Ordinal(c) == Ordinal(d) ==> c == d
    ensures Ordinal(UNDEFINED) == -1 && NumCcy == 6
  {
  }
}
