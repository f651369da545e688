/** The proleptic Gregorian calendar of the ECMAScript `Date` object. An instant is a number of UTC
    milliseconds since 1970; a month is numbered 12 * year + month, January being 0. */
module Calendar {

  const DAY := 86_400_000
  const EPOCH := 12 * 1970

  predicate Leap(year: int) {
    year % 4 == 0 && (year % 100 != 0 || year % 400 == 0)
  }

  function DaysInMonth(month: int): (days: int)
    ensures 28 <= days <= 31
  {
    match month % 12
    case 1 => if Leap(month / 12) then 29 else 28
    case 3 | 5 | 8 | 10 => 30
    case _ => 31
  }

  /** The first instant of a month. */
  function MonthStart(month: int): int
    decreases if month < EPOCH then EPOCH - month else month - EPOCH
  {
    if month == EPOCH then 0
    else if month > EPOCH then MonthStart(month - 1) + DaysInMonth(month - 1) * DAY
    else MonthStart(month + 1) - DaysInMonth(month) * DAY
  }

  /** The month an instant falls in, found by walking from the epoch. */
  function MonthOf(t: int): (month: int)
    ensures MonthStart(month) <= t < MonthStart(month + 1)
  {
    MonthFrom(t, EPOCH)
  }

  function MonthFrom(t: int, guess: int): (month: int)
    ensures MonthStart(month) <= t < MonthStart(month + 1)
    decreases if t < MonthStart(guess) then MonthStart(guess) - t + 31 * DAY
              else if MonthStart(guess + 1) <= t then t - MonthStart(guess)
              else 0
  {
    if t < MonthStart(guess) then MonthFrom(t, guess - 1)
    else if MonthStart(guess + 1) <= t then MonthFrom(t, guess + 1)
    else guess
  }

  function YearOf(t: int): int {
    MonthOf(t) / 12
  }

  function YearStart(year: int): int {
    MonthStart(12 * year)
  }

  /** `setUTCMonth(m + 1)`: the same offset into the next month, so day 31 spills over into the month
      after a shorter one. */
  function AddMonth(t: int): int {
    MonthStart(MonthOf(t) + 1) + (t - MonthStart(MonthOf(t)))
  }

  lemma {:induction false} MonthStartsIncrease(m: int, n: int)
    requires m < n
    ensures MonthStart(m) + 28 * DAY <= MonthStart(n)
    decreases n - m
  {
    MonthLength(m);
    hide MonthStart, DaysInMonth;
    if m + 1 < n {
      MonthStartsIncrease(m + 1, n);
    }
  }

  lemma MonthLength(m: int)
    ensures MonthStart(m + 1) == MonthStart(m) + DaysInMonth(m) * DAY
  {
    hide DaysInMonth;
  }

  /** Only the month an instant falls in contains it. */
  lemma MonthUnique(t: int, month: int)
    requires MonthStart(month) <= t < MonthStart(month + 1)
    ensures MonthOf(t) == month
  {
    hide MonthStart, MonthOf;
    var m := MonthOf(t);
    if m < month && m + 1 < month {
      MonthStartsIncrease(m + 1, month);
    } else if month < m && month + 1 < m {
      MonthStartsIncrease(month + 1, m);
    }
  }

  /** The year window `[1 January, 1 January of the next year)` holds exactly the year's instants. */
  lemma YearWindow(t: int, year: int)
    ensures YearStart(year) <= t < YearStart(year + 1) <==> YearOf(t) == year
  {
    hide MonthStart, MonthOf;
    var m := MonthOf(t);
    if m < 12 * year {
      if m + 1 < 12 * year { MonthStartsIncrease(m + 1, 12 * year); }
    } else if 12 * year + 12 <= m {
      if 12 * year + 12 < m { MonthStartsIncrease(12 * year + 12, m); }
    } else {
      if 12 * year < m { MonthStartsIncrease(12 * year, m); }
      if m + 1 < 12 * year + 12 { MonthStartsIncrease(m + 1, 12 * year + 12); }
    }
  }

  /** Stepping a month always lands in a later month: the next one or, when the day spills over, the
      one after it. */
  lemma AddMonthLater(t: int)
    ensures AddMonth(t) == t + DaysInMonth(MonthOf(t)) * DAY
    ensures MonthOf(t) < MonthOf(AddMonth(t)) <= MonthOf(t) + 2
  {
    hide MonthStart, MonthOf, DaysInMonth;
    var m := MonthOf(t);
    var u := AddMonth(t);
    MonthLength(m);
    MonthLength(m + 1);
    MonthLength(m + 2);
    if u < MonthStart(m + 2) {
      MonthUnique(u, m + 1);
    } else {
      MonthUnique(u, m + 2);
    }
  }

  /** n months after an instant, stepping one month at a time. */
  function MonthsAfter(t: int, n: nat): int {
    if n == 0 then t else AddMonth(MonthsAfter(t, n - 1))
  }

  /** Each step leads to a strictly later month. */
  lemma {:induction false} MonthsIncrease(t: int, m: nat, n: nat)
    requires m < n
    ensures MonthOf(MonthsAfter(t, m)) < MonthOf(MonthsAfter(t, n))
    ensures MonthsAfter(t, m) < MonthsAfter(t, n)
  {
    hide MonthOf, AddMonth;
    AddMonthLater(MonthsAfter(t, n - 1));
    if m < n - 1 {
      MonthsIncrease(t, m, n - 1);
    }
  }

  // ---- the Gregorian calendar ----

  /** The epoch is the first instant of 1970. A year has 366 days if it is divisible by four and not by a hundred, or by
      four hundred, and 365 otherwise, of which February has 29 or 28. */
  lemma YearLength(year: int)
    ensures YearStart(1970) == 0 && YearOf(0) == 1970
    ensures var leap := year % 400 == 0 || (year % 4 == 0 && year % 100 != 0);
            && YearStart(year + 1) - YearStart(year) == (if leap then 366 else 365) * 86400000
            && MonthStart(12 * year + 2) - MonthStart(12 * year + 1) == (if leap then 29 else 28) * 86400000
  {
    hide MonthStart, MonthOf, DaysInMonth, Leap;
    Epoch();
    LeapIs(year);
    TwelveMonths(12 * year);
    MonthLength(12 * year + 1);
    DaysOfYear(year);
  }

  lemma LeapIs(year: int)
    ensures Leap(year) <==> year % 400 == 0 || (year % 4 == 0 && year % 100 != 0)
  {
  }

  /** Twelve months on end. */
  lemma TwelveMonths(m: int)
    ensures MonthStart(m + 12) - MonthStart(m)
            == (DaysInMonth(m) + DaysInMonth(m + 1) + DaysInMonth(m + 2) + DaysInMonth(m + 3) + DaysInMonth(m + 4)
                + DaysInMonth(m + 5) + DaysInMonth(m + 6) + DaysInMonth(m + 7) + DaysInMonth(m + 8) + DaysInMonth(m + 9)
                + DaysInMonth(m + 10) + DaysInMonth(m + 11)) * DAY
  {
    hide MonthStart, DaysInMonth;
    MonthLength(m);
    MonthLength(m + 1);
    MonthLength(m + 2);
    MonthLength(m + 3);
    MonthLength(m + 4);
    MonthLength(m + 5);
    MonthLength(m + 6);
    MonthLength(m + 7);
    MonthLength(m + 8);
    MonthLength(m + 9);
    MonthLength(m + 10);
    MonthLength(m + 11);
  }

  lemma DaysOfYear(year: int)
    ensures var m := 12 * year;
            && DaysInMonth(m + 1) == (if Leap(year) then 29 else 28)
            && DaysInMonth(m) + DaysInMonth(m + 1) + DaysInMonth(m + 2) + DaysInMonth(m + 3) + DaysInMonth(m + 4)
               + DaysInMonth(m + 5) + DaysInMonth(m + 6) + DaysInMonth(m + 7) + DaysInMonth(m + 8) + DaysInMonth(m + 9)
               + DaysInMonth(m + 10) + DaysInMonth(m + 11) == if Leap(year) then 366 else 365
  {
  }

  lemma Epoch()
    ensures MonthStart(EPOCH) == 0 && MonthOf(0) == EPOCH
  {
    MonthLength(EPOCH);
    MonthUnique(0, EPOCH);
  }
}
