/** The constant-rate provider: one rate per currency, whatever the time.
    Filling the table from a file is not part of this model; the table is
    given. */
module IRProviderConst {
  import opened IRProvider

  /** `m_IRs`: one slot per currency ordinal 0 .. N-1. */
  datatype ConstRates = ConstRates(irs: seq<real>) {
    ghost predicate Valid() {
      |irs| == NumCcy
    }
  }

  /** `r(c, t)`: the table slot of `c`. The source does not guard the
      index, so `UNDEFINED` (ordinal -1) or `N` (ordinal 6) would read outside
      the table; the precondition excludes them. */
  function R(p: ConstRates, c: Ccy, t: real): (r: real)
    requires p.Valid() && IsCurrency(c)
    ensures r in p.irs
  {
    p.irs[Ordinal(c)]
  }

  /** The rate is the slot of the currency and does not depend on time. */
  lemma RateIgnoresTime(p: ConstRates, c: Ccy, t1: real, t2: real)
    requires p.Valid() && IsCurrency(c)
    ensures R(p, c, t1) == R(p, c, t2) == p.irs[Ordinal(c)]
  {
  }

  /** The real currencies in ordinal order. */
  const Currencies: seq<Ccy> := [USD, EUR, GBP, CHF, RUB, ZERO]

  /** The table has one slot per ordinal 0 .. N-1: slot `k` is the rate of
      the `k`-th currency, at any time, and the real currencies are exactly
      the ones listed, each once. */
  lemma TableSlots(p: ConstRates, t: real)
    requires p.Valid()
    ensures |Currencies| == NumCcy == |p.irs|
    ensures forall k :: 0 <= k < NumCcy ==>
              IsCurrency(Currencies[k]) && Ordinal(Currencies[k]) == k && R(p, Currencies[k], t) == p.irs[k]
    ensures forall c :: IsCurrency(c) <==> c in Currencies
    ensures forall i, j :: 0 <= i < j < |Currencies| ==> Currencies[i] != Currencies[j]
  {
  }
}
