/** Calendar time. Absolute times are whole seconds since the Unix epoch
    (`time_t`); the numerical code works in year fractions, with an average
    year of 365.25 days. */
module Time {

  /** Seconds in an average year: 365.25 * 86400. */
  const SecY: real := 365.25 * 86400.0

  /** Seconds in a minute. The source uses the name `SEC_IN_MIN` without
      defining it; the value 60 agrees with the literal the grid solver uses. */
  const SecInMin: int := 60

  /** Absolute time as a calendar year with fraction: 1970 at the epoch. */
  function YearFrac(t: int): (y: real)
    // the seconds are recovered exactly from the year fraction
    ensures (y - 1970.0) * SecY == t as real
    ensures t >= 0 <==> y >= 1970.0
  {
    1970.0 + t as real / SecY
  }

  /** A duration in seconds as a year fraction. The source uses the name
      `YearFracInt` without defining it; it is taken as YearFrac without the
      epoch offset. */
  function YearFracInt(d: int): (y: real)
    ensures y * SecY == d as real
    ensures d > 0 <==> y > 0.0
  {
    d as real / SecY
  }

  lemma YearFracAtEpoch()
    ensures YearFrac(0) == 1970.0
  {
  }

  lemma YearFracStrictlyIncreasing(a: int, b: int)
    requires a < b
    ensures YearFrac(a) < YearFrac(b)
  {
  }

  /** Differences of year fractions do not depend on the epoch offset. */
  lemma YearFracDifference(a: int, b: int)
    ensures YearFrac(a) - YearFrac(b) == YearFracInt(a - b)
    ensures YearFracInt(a - b) * SecY == (a - b) as real
  {
  }

  lemma YearFracIntPositive(d: int)
    requires d > 0
    ensures YearFracInt(d) > 0.0
  {
  }

  lemma YearFracIntMonotone(a: int, b: int)
    requires a <= b
    ensures YearFracInt(a) <= YearFracInt(b)
  {
  }
}
