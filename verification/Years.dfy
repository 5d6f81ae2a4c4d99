/** The days of whole years, counted from the months' lengths. */
module Years {
  import opened Calendar

  /** The days before a year: three hundred and sixty-five for each year gone, and one for each leap year among them,
      every fourth but of the hundredths only the four-hundredths. */
  lemma {:induction false} YearsAreGregorian(year: nat)
    requires year >= 1
    ensures MonthStart(12 * year) - 1 == 365 * (year - 1) + LeapsBy(year - 1)
  {
    if year > 1 {
      YearsAreGregorian(year - 1);
      YearHasItsDays(year - 1);
      NextLeap(year - 1);
    }
  }

  function LeapsBy(years: nat): int {
    years / 4 - years / 100 + years / 400
  }

  lemma {:induction false} NextLeap(year: nat)
    requires year >= 1
    ensures LeapsBy(year) == LeapsBy(year - 1) + if Leap(year) then 1 else 0
  {
    NextFourth(year);
    NextHundredth(year);
    NextFourHundredth(year);
    HundredthsAreFourths(year);
  }

  lemma {:induction false} NextFourth(n: nat)
    requires n >= 1
    ensures n / 4 == (n - 1) / 4 + if n % 4 == 0 then 1 else 0
  {
  }

  lemma {:induction false} NextHundredth(n: nat)
    requires n >= 1
    ensures n / 100 == (n - 1) / 100 + if n % 100 == 0 then 1 else 0
  {
  }

  lemma {:induction false} NextFourHundredth(n: nat)
    requires n >= 1
    ensures n / 400 == (n - 1) / 400 + if n % 400 == 0 then 1 else 0
  {
  }

  lemma {:induction false} HundredthsAreFourths(n: nat)
    ensures (n % 100 == 0 ==> n % 4 == 0) && (n % 400 == 0 ==> n % 100 == 0)
  {
    assert n == 4 * (n / 4) + n % 4 && n == 100 * (n / 100) + n % 100 && n == 400 * (n / 400) + n % 400;
  }

  lemma {:induction false} LengthIn(year: nat, month: int)
    requires 1 <= month <= 12
    ensures LengthOf(12 * year + month - 1) == MonthLength(year, month)
  {
  }

  /** Three months of a year, from a month on. */
  lemma {:induction false} QuarterHasItsDays(year: nat, month: int)
    requires year >= 1 && 1 <= month <= 10
    ensures MonthStart(12 * year + month + 2)
         == MonthStart(12 * year + month - 1) + MonthLength(year, month) + MonthLength(year, month + 1)
            + MonthLength(year, month + 2)
  {
    var index := 12 * year + month - 1;
    LengthIn(year, month);
    LengthIn(year, month + 1);
    LengthIn(year, month + 2);
    assert MonthStart(index + 1) == MonthStart(index) + LengthOf(index);
    assert MonthStart(index + 2) == MonthStart(index + 1) + LengthOf(index + 1);
  }

  lemma {:induction false} YearHasItsDays(year: nat)
    requires year >= 1
    ensures MonthStart(12 * year + 12) == MonthStart(12 * year) + if Leap(year) then 366 else 365
  {
    QuarterHasItsDays(year, 1);
    QuarterHasItsDays(year, 4);
    QuarterHasItsDays(year, 7);
    QuarterHasItsDays(year, 10);
  }
}
