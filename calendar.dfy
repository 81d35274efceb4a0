/**
 * Day numbers of proleptic Gregorian dates: days since 1970-01-01, the UTC day that
 * JavaScript's `new Date("YYYY-MM-DD")` reads a date-only string as.
 *
 * The conversion counts years from the first of March, so that February, with its leap
 * day, closes the counting year; a 400-year cycle has 146097 days.
 */
module Calendar {
  import opened Decimal

  /** The Gregorian leap-year rule. */
  predicate IsLeapYear(year: int) {
    year % 4 == 0 && (year % 100 != 0 || year % 400 == 0)
  }

  function DaysInMonth(year: int, month: int): int {
    if month == 2 then (if IsLeapYear(year) then 29 else 28)
    else if month == 4 || month == 6 || month == 9 || month == 11 then 30
    else 31
  }

  predicate ValidDate(year: int, month: int, day: int) {
    1 <= month <= 12 && 1 <= day <= DaysInMonth(year, month)
  }

  datatype CivilDate = CivilDate(year: int, month: int, day: int)

  /** The calendar date after a valid date. */
  function NextDate(year: int, month: int, day: int): CivilDate {
    if day < DaysInMonth(year, month) then CivilDate(year, month, day + 1)
    else if month < 12 then CivilDate(year, month + 1, 1)
    else CivilDate(year + 1, 1, 1)
  }

  /** The March-first year a date falls in: January and February belong to the year before. */
  function ShiftedYear(year: int, month: int): int {
    if month <= 2 then year - 1 else year
  }

  /** Days in the first `k` March-first years of a 400-year cycle. */
  function CycleDays(k: int): int {
    k * 365 + k / 4 - k / 100
  }

  /** The day number of the first of March of `year`. */
  function MarchFirst(year: int): int {
    (year / 400) * 146097 + CycleDays(year % 400) - 719468
  }

  /** Days from the first of March to the first of `month`. */
  function MonthOffset(month: int): int {
    (153 * ((month + 9) % 12) + 2) / 5
  }

  /** Days since 1970-01-01 of a date (days-from-civil). */
  function EpochDays(year: int, month: int, day: int): int {
    MarchFirst(ShiftedYear(year, month)) + MonthOffset(month) + day - 1
  }

  lemma EpochDaysAnchors()
    ensures EpochDays(1970, 1, 1) == 0
    ensures EpochDays(1970, 3, 1) == 59
    ensures EpochDays(2000, 3, 1) == 11017
    ensures EpochDays(1969, 12, 31) == -1
  {
    DivModUnique(1969, 400, 4, 369);
    DivModUnique(1970, 400, 4, 370);
    DivModUnique(2000, 400, 5, 0);
    assert CycleDays(369) == 134774 && CycleDays(370) == 135139;
    assert MarchFirst(1969) == -306 && MarchFirst(1970) == 59 && MarchFirst(2000) == 11017;
    assert MonthOffset(1) == 306 && MonthOffset(3) == 0 && MonthOffset(12) == 275;
  }

  /** Each month other than February is as long as the gap to the next month's offset. */
  lemma MonthOffsetStep(year: int, month: int)
    requires 1 <= month <= 12 && month != 2
    ensures MonthOffset(if month == 12 then 1 else month + 1) == MonthOffset(month) + DaysInMonth(year, month)
  {
    if month == 1 {
      assert MonthOffset(1) == 306 && MonthOffset(2) == 337;
    } else if month == 3 {
      assert MonthOffset(3) == 0 && MonthOffset(4) == 31;
    } else if month == 4 {
      assert MonthOffset(4) == 31 && MonthOffset(5) == 61;
    } else if month == 5 {
      assert MonthOffset(5) == 61 && MonthOffset(6) == 92;
    } else if month == 6 {
      assert MonthOffset(6) == 92 && MonthOffset(7) == 122;
    } else if month == 7 {
      assert MonthOffset(7) == 122 && MonthOffset(8) == 153;
    } else if month == 8 {
      assert MonthOffset(8) == 153 && MonthOffset(9) == 184;
    } else if month == 9 {
      assert MonthOffset(9) == 184 && MonthOffset(10) == 214;
    } else if month == 10 {
      assert MonthOffset(10) == 214 && MonthOffset(11) == 245;
    } else if month == 11 {
      assert MonthOffset(11) == 245 && MonthOffset(12) == 275;
    } else {
      assert MonthOffset(12) == 275 && MonthOffset(1) == 306;
    }
  }

  /** Floor-quotient steps: `k / 4` and `k / 100` grow by one exactly when 4, resp. 100, divides `k`. */
  lemma QuotientSteps(k: int)
    ensures k / 4 - (k - 1) / 4 == (if k % 4 == 0 then 1 else 0)
    ensures k / 100 - (k - 1) / 100 == (if k % 100 == 0 then 1 else 0)
  {
    var q4, r4 := (k - 1) / 4, (k - 1) % 4;
    if r4 == 3 { DivModUnique(k, 4, q4 + 1, 0); } else { DivModUnique(k, 4, q4, r4 + 1); }
    var q100, r100 := (k - 1) / 100, (k - 1) % 100;
    if r100 == 99 { DivModUnique(k, 100, q100 + 1, 0); } else { DivModUnique(k, 100, q100, r100 + 1); }
  }

  /** Whether 4 or 100 divides a year depends only on its place in the 400-year cycle. */
  lemma ResidueOfCycle(x: int)
    ensures x % 4 == (x % 400) % 4 && x % 100 == (x % 400) % 100
  {
    var q, r := x / 400, x % 400;
    DivModUnique(r, 4, r / 4, r % 4);
    DivModUnique(x, 4, 100 * q + r / 4, r % 4);
    DivModUnique(x, 100, 4 * q + r / 100, r % 100);
  }

  /** The leap-year rule repeats every 400 years. */
  lemma LeapPeriodic(era: int, k: int)
    ensures IsLeapYear(era * 400 + k) == IsLeapYear(k)
  {
    DivModUnique(era * 400 + k, 400, era + k / 400, k % 400);
    ResidueOfCycle(era * 400 + k);
    ResidueOfCycle(k);
  }

  /** From one first of March to the next: 366 days when the later year is a leap year, else 365. */
  lemma MarchToMarch(year: int)
    ensures MarchFirst(year + 1) == MarchFirst(year) + (if IsLeapYear(year + 1) then 366 else 365)
  {
    var era, k := year / 400, year % 400;
    if k == 399 {
      DivModUnique(year + 1, 400, era + 1, 0);
      LeapPeriodic(era + 1, 0);
      assert CycleDays(399) == 145731;
    } else {
      DivModUnique(year + 1, 400, era, k + 1);
      LeapPeriodic(era, k + 1);
      QuotientSteps(k + 1);
      assert IsLeapYear(k + 1) <==> (k + 1) % 4 == 0 && (k + 1) % 100 != 0;
    }
  }

  /** Consecutive calendar dates have consecutive day numbers, across month, February and year ends. */
  lemma EpochDaysNextDate(year: int, month: int, day: int)
    requires ValidDate(year, month, day)
    ensures var n := NextDate(year, month, day); ValidDate(n.year, n.month, n.day)
    ensures var n := NextDate(year, month, day); EpochDays(n.year, n.month, n.day) == EpochDays(year, month, day) + 1
  {
    if day == DaysInMonth(year, month) {
      if month == 2 {
        assert MonthOffset(2) == 337 && MonthOffset(3) == 0;
        MarchToMarch(year - 1);
      } else {
        MonthOffsetStep(year, month);
      }
    }
  }
}
