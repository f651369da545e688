/** Fiscal years and the monthly periods they are cut into (fiscal-years.service.ts). */
module FiscalYears {
  import opened Schema
  import opened Calendar
  import opened Numbers
  import opened AccountingPeriods
  import JournalEntries

  // ---- generation ----

  /** How many periods a year gets: one per month begun, twelve at most. */
  function PeriodCount(start: int, end: int, i: nat): (n: nat)
    requires i <= 12
    ensures i <= n <= 12
    ensures n < 12 ==> end < MonthsAfter(start, n)
    ensures forall k :: i <= k < n ==> MonthsAfter(start, k) <= end
    decreases 12 - i
  {
    if i == 12 || end < MonthsAfter(start, i) then i else PeriodCount(start, end, i + 1)
  }

  /** The period of the i-th month begun. */
  function MonthPeriod(tenant: nat, year: nat, start: int, i: nat): Period {
    var from := MonthsAfter(start, i);
    Period(tenant, year, MonthName(MonthOf(from)), from, MonthsAfter(start, i + 1) - 1, Open)
  }

  /** The i-th of n periods; the last one stretches or shrinks to the year's end. */
  function PeriodAt(tenant: nat, year: nat, start: int, end: int, n: nat, i: nat): Period {
    var p := MonthPeriod(tenant, year, start, i);
    if i + 1 == n then p.(end := end) else p
  }

  function Generated(tenant: nat, year: nat, start: int, end: int): (rows: seq<Period>)
    ensures 1 <= |rows| <= 12
  {
    var n := PeriodCount(start, end, 1);
    seq(n, i requires 0 <= i < n => PeriodAt(tenant, year, start, end, n, i))
  }

  predicate YearNamed(years: seq<FiscalYear>, tenant: nat, name: string) {
    exists i :: 0 <= i < |years| && years[i].tenant == tenant && years[i].name == name
  }

  /** Period names are unique per tenant in the database. */
  predicate NameClash(periods: seq<Period>, rows: seq<Period>) {
    exists i, j :: 0 <= i < |periods| && 0 <= j < |rows|
                   && periods[i].tenant == rows[j].tenant && periods[i].name == rows[j].name
  }

  function CreateError(years: seq<FiscalYear>, periods: seq<Period>, tenant: nat, name: string,
                       start: int, end: int): Option<Error>
  {
    if start >= end then Some(DatesOutOfOrder)
    else if YearNamed(years, tenant, name) then Some(NameExists)
    else if NameClash(periods, Generated(tenant, |years|, start, end)) then Some(PeriodNameExists)
    else None
  }

  method Create(db: Database, tenant: nat, name: string, start: int, end: int) returns (r: Result<nat>)
    modifies db`fiscalYears, db`periods
    ensures var years, periods := old(db.fiscalYears), old(db.periods);
            match CreateError(years, periods, tenant, name, start, end)
            case Some(e) => r == Err(e) && db.fiscalYears == years && db.periods == periods
            case None =>
              && r == Ok(|years|)
              && db.fiscalYears == years + [FiscalYear(tenant, name, start, end, false)]
              && db.periods == periods + Generated(tenant, |years|, start, end)
  {
    hide MonthName, AddMonth;
    if start >= end {
      return Err(DatesOutOfOrder);
    }
    if YearNamed(db.fiscalYears, tenant, name) {
      return Err(NameExists);
    }
    var rows := GeneratePeriods(tenant, |db.fiscalYears|, start, end);
    if NameClash(db.periods, rows) {
      return Err(PeriodNameExists);
    }
    db.fiscalYears := db.fiscalYears + [FiscalYear(tenant, name, start, end, false)];
    db.periods := db.periods + rows;
    r := Ok(|db.fiscalYears| - 1);
  }

  method GeneratePeriods(tenant: nat, year: nat, start: int, end: int) returns (rows: seq<Period>)
    ensures rows == Generated(tenant, year, start, end)
  {
    hide MonthPeriod, AddMonth, MonthsAfter, MonthOf, PeriodCount, Generated, MonthName;
    rows := [];
    ghost var n := PeriodCount(start, end, 1);
    var currentStart := start;
    FirstMonth(start);
    for i := 1 to 13
      invariant |rows| == i - 1 && currentStart == MonthsAfter(start, i - 1)
      invariant forall k :: 0 <= k < i - 1 ==> rows[k] == MonthPeriod(tenant, year, start, k)
      invariant i <= 12 ==> PeriodCount(start, end, i) == n
      invariant i == 13 ==> n == 12
    {
      var nextMonth := AddMonth(currentStart);
      NextMonth(start, i - 1);
      CountStep(start, end, i);
      MonthPeriodIs(tenant, year, start, i - 1);
      rows := rows + [Period(tenant, year, MonthName(MonthOf(currentStart)), currentStart, nextMonth - 1, Open)];
      currentStart := nextMonth;
      if currentStart > end {
        break;
      }
    }
    rows := StretchLast(tenant, year, start, end, rows);
  }

  /** The last period's end is overwritten with the year's. */
  method StretchLast(tenant: nat, year: nat, start: int, end: int, months: seq<Period>) returns (rows: seq<Period>)
    requires |months| == PeriodCount(start, end, 1)
    requires forall k :: 0 <= k < |months| ==> months[k] == MonthPeriod(tenant, year, start, k)
    ensures rows == Generated(tenant, year, start, end)
  {
    hide MonthPeriod, PeriodCount;
    var last := |months| - 1;
    rows := months[last := months[last].(end := end)];
  }

  lemma CountStep(start: int, end: int, i: nat)
    requires i <= 12
    ensures PeriodCount(start, end, i)
            == if i == 12 || end < MonthsAfter(start, i) then i else PeriodCount(start, end, i + 1)
  {
    hide MonthsAfter;
  }

  lemma MonthPeriodIs(tenant: nat, year: nat, start: int, i: nat)
    ensures var from := MonthsAfter(start, i);
            MonthPeriod(tenant, year, start, i)
            == Period(tenant, year, MonthName(MonthOf(from)), from, MonthsAfter(start, i + 1) - 1, Open)
  {
    hide MonthsAfter, MonthOf, MonthName;
  }

  lemma {:induction false} FirstMonth(t: int)
    ensures MonthsAfter(t, 0) == t
  {
  }

  lemma NextMonth(t: int, n: nat)
    ensures MonthsAfter(t, n + 1) == AddMonth(MonthsAfter(t, n))
  {
    hide AddMonth;
  }

  // ---- the periods of a year partition it ----

  ghost predicate Partitions(rows: seq<Period>, tenant: nat, start: int, end: int) {
    && rows != [] && rows[0].start == start && rows[|rows| - 1].end == end
    && (forall i :: 0 <= i < |rows| ==> rows[i].tenant == tenant && rows[i].start <= rows[i].end)
    && (forall i :: 0 <= i < |rows| - 1 ==> rows[i + 1].start == rows[i].end + 1)
  }

  lemma PeriodNonempty(tenant: nat, year: nat, start: int, end: int, n: nat, i: nat)
    requires i < n && MonthsAfter(start, i) <= end
    ensures var p := PeriodAt(tenant, year, start, end, n, i);
            && p.start <= p.end && p.tenant == tenant && p.start == MonthsAfter(start, i)
            && p.end == if i + 1 == n then end else MonthsAfter(start, i + 1) - 1
  {
    hide MonthName, MonthOf, AddMonth, MonthsAfter;
    MonthsIncrease(start, i, i + 1);
  }

  lemma NamesDiffer(tenant: nat, year: nat, start: int, i: nat, j: nat)
    requires i < j
    ensures MonthPeriod(tenant, year, start, i).name != MonthPeriod(tenant, year, start, j).name
  {
    hide MonthName, MonthOf, AddMonth, MonthsAfter;
    MonthsIncrease(start, i, j);
    var m, n := MonthOf(MonthsAfter(start, i)), MonthOf(MonthsAfter(start, j));
    if MonthName(m) == MonthName(n) { MonthNameInjective(m, n); }
  }

  lemma GeneratedDates(tenant: nat, year: nat, start: int, end: int)
    requires start < end
    ensures Partitions(Generated(tenant, year, start, end), tenant, start, end)
  {
    hide Generated, MonthsAfter;
    FirstMonth(start);
    var rows := Generated(tenant, year, start, end);
    forall i: int | 0 <= i < |rows|
      ensures rows[i].tenant == tenant && rows[i].start <= rows[i].end && rows[i].start == MonthsAfter(start, i)
      ensures rows[i].end == if i + 1 == |rows| then end else MonthsAfter(start, i + 1) - 1
    {
      GeneratedPeriod(tenant, year, start, end, i);
    }
    GeneratedPeriod(tenant, year, start, end, |rows| - 1);
  }

  lemma GeneratedPeriod(tenant: nat, year: nat, start: int, end: int, i: nat)
    requires start < end && i < |Generated(tenant, year, start, end)|
    ensures var rows := Generated(tenant, year, start, end);
            && rows[i].start <= rows[i].end && rows[i].tenant == tenant && rows[i].start == MonthsAfter(start, i)
            && rows[i].end == if i + 1 == |rows| then end else MonthsAfter(start, i + 1) - 1
  {
    hide PeriodAt, MonthsAfter, PeriodCount;
    FirstMonth(start);
    PeriodNonempty(tenant, year, start, end, |Generated(tenant, year, start, end)|, i);
  }

  lemma GeneratedNames(tenant: nat, year: nat, start: int, end: int, i: nat, j: nat)
    requires i < j < |Generated(tenant, year, start, end)|
    ensures Generated(tenant, year, start, end)[i].name != Generated(tenant, year, start, end)[j].name
  {
    hide MonthPeriod, MonthsAfter;
    NamesDiffer(tenant, year, start, i, j);
  }

  /** Whatever its dates, a year is cut into nonempty periods without gap or overlap, under different names. */
  lemma GeneratedPartitions(tenant: nat, year: nat, start: int, end: int)
    requires start < end
    ensures var rows := Generated(tenant, year, start, end);
            && Partitions(rows, tenant, start, end)
            && forall i, j :: 0 <= i < j < |rows| ==> rows[i].name != rows[j].name
  {
    hide Generated, Partitions;
    GeneratedDates(tenant, year, start, end);
    forall i, j | 0 <= i < j < |Generated(tenant, year, start, end)|
      ensures Generated(tenant, year, start, end)[i].name != Generated(tenant, year, start, end)[j].name
    {
      GeneratedNames(tenant, year, start, end, i, j);
    }
  }

  lemma {:induction false} LaterStartsLater(rows: seq<Period>, tenant: nat, start: int, end: int, i: nat, j: nat)
    requires Partitions(rows, tenant, start, end) && i < j < |rows|
    ensures rows[i].end < rows[j].start
  {
    if i + 1 < j { LaterStartsLater(rows, tenant, start, end, i, j - 1); }
  }

  lemma {:induction false} SomePeriod(rows: seq<Period>, tenant: nat, start: int, end: int, date: int, n: nat)
    returns (i: nat)
    requires Partitions(rows, tenant, start, end) && n < |rows| && start <= date <= rows[n].end
    ensures i <= n && Covers(rows[i], tenant, date)
  {
    if rows[n].start <= date { i := n; } else { i := SomePeriod(rows, tenant, start, end, date, n - 1); }
  }

  /** Every date of the year is in exactly one of its periods, every other date in none, and the lookup
      finds it. */
  lemma {:induction false} LookupInYear(rows: seq<Period>, tenant: nat, start: int, end: int, date: int)
    requires Partitions(rows, tenant, start, end)
    ensures FindFirst(rows, tenant, date).Some? <==> start <= date <= end
    ensures forall i, j :: 0 <= i < j < |rows| ==> !(Covers(rows[i], tenant, date) && Covers(rows[j], tenant, date))
    ensures forall i: nat :: i < |rows| && Covers(rows[i], tenant, date) ==> FindFirst(rows, tenant, date) == Some(i)
  {
    forall i, j | 0 <= i < j < |rows|
      ensures !(Covers(rows[i], tenant, date) && Covers(rows[j], tenant, date))
    {
      LaterStartsLater(rows, tenant, start, end, i, j);
    }
    if start <= date <= end {
      var i := SomePeriod(rows, tenant, start, end, date, |rows| - 1);
    }
    forall i: nat | i < |rows| && Covers(rows[i], tenant, date)
      ensures start <= date <= end
    {
      if 0 < i { LaterStartsLater(rows, tenant, start, end, 0, i); }
      if i < |rows| - 1 { LaterStartsLater(rows, tenant, start, end, i, |rows| - 1); }
    }
  }

  // ---- closing ----

  /** The periods of a fiscal year that still take postings. */
  predicate HasOpenPeriod(periods: seq<Period>, year: nat) {
    exists i :: 0 <= i < |periods| && periods[i].year == year && periods[i].status != Closed
  }

  function CloseError(years: seq<FiscalYear>, periods: seq<Period>, tenant: nat, id: nat): (e: Option<Error>)
    ensures e.None? ==> id < |years|
  {
    if id >= |years| || years[id].tenant != tenant then Some(NoFiscalYear)
    else if years[id].closed then Some(YearClosed)
    else if HasOpenPeriod(periods, id) then Some(PeriodsOpen)
    else None
  }

  method Close(db: Database, tenant: nat, id: nat) returns (r: Result<()>)
    modifies db`fiscalYears
    ensures var years := old(db.fiscalYears);
            match CloseError(years, db.periods, tenant, id)
            case Some(e) => r == Err(e) && db.fiscalYears == years
            case None => r == Ok(()) && db.fiscalYears == years[id := years[id].(closed := true)]
  {
    if id >= |db.fiscalYears| || db.fiscalYears[id].tenant != tenant {
      return Err(NoFiscalYear);
    }
    if db.fiscalYears[id].closed {
      return Err(YearClosed);
    }
    if HasOpenPeriod(db.periods, id) {
      return Err(PeriodsOpen);
    }
    db.fiscalYears := db.fiscalYears[id := db.fiscalYears[id].(closed := true)];
    r := Ok(());
  }

  /** A year can be closed only when no entry can be posted or reversed into it any more: every date that is
      covered by its periods alone refuses them. */
  lemma ClosedYearRefuses(b: Books, years: seq<FiscalYear>, tenant: nat, year: nat, date: int)
    requires CloseError(years, b.periods, tenant, year) == None
    requires forall i :: 0 <= i < |b.periods| && Covers(b.periods[i], tenant, date) ==> b.periods[i].year == year
    ensures forall ls: seq<JournalEntries.LineInput> ::
              JournalEntries.CreateError(b, tenant, date, ls) in [Some(TooFewLines), Some(NoPeriod), Some(PeriodClosed)]
    ensures forall e: nat :: JournalEntries.ReversalError(b, tenant, e, date).Some?
  {
    var found := FindFirst(b.periods, tenant, date);
    assert found.Some? ==> b.periods[found.value].status == Closed;
  }

  /** Closing a year does not hold against reopening one of its periods: the dates that belong to the period take
      postings again, while the year stays closed and cannot be closed once more. */
  lemma {:induction false} ReopeningUndoesClosing(b: Books, years: seq<FiscalYear>, tenant: nat, year: nat, id: nat,
                                                  date: int)
    requires CloseError(years, b.periods, tenant, year) == None
    requires id < |b.periods| && b.periods[id].year == year && FindFirst(b.periods, tenant, date) == Some(id)
    ensures FindActive(b.periods, tenant, date) == Err(PeriodClosed)
    ensures var closed := years[year := years[year].(closed := true)];
            var reopened := b.(periods := b.periods[id := b.periods[id].(status := Open)]);
            && FindActive(reopened.periods, tenant, date) == Ok(id)
            && (forall ls: seq<JournalEntries.LineInput> ::
                  JournalEntries.CreateError(reopened, tenant, date, ls) !in [Some(NoPeriod), Some(PeriodClosed)])
            && CloseError(closed, reopened.periods, tenant, year) == Some(YearClosed)
  {
    hide FindFirst, JournalEntries.LinesError, JournalEntries.Debits, JournalEntries.Credits;
    StatusDecides(b.periods, id, Open, tenant, date);
    forall ls: seq<JournalEntries.LineInput>
      ensures JournalEntries.LinesError(b.accounts, tenant, ls) !in [Some(NoPeriod), Some(PeriodClosed)]
    {
      NoPeriodError(b.accounts, tenant, ls);
    }
  }

  lemma {:induction false} NoPeriodError(accounts: seq<Account>, tenant: nat, ls: seq<JournalEntries.LineInput>)
    ensures JournalEntries.LinesError(accounts, tenant, ls) !in [Some(NoPeriod), Some(PeriodClosed)]
  {
    if ls != [] { NoPeriodError(accounts, tenant, ls[..|ls| - 1]); }
  }

  // ---- what is accepted ----

  /** All periods of a new year belong to it and are open, each under the name of the month it starts in. */
  lemma GeneratedOpen(tenant: nat, year: nat, start: int, end: int, i: nat)
    requires i < |Generated(tenant, year, start, end)|
    ensures var p := Generated(tenant, year, start, end)[i];
            p.tenant == tenant && p.year == year && p.status == Open && p.name == MonthName(MonthOf(p.start))
  {
    hide MonthsAfter, MonthName, MonthOf, PeriodCount;
  }

  /** A year is created exactly when it starts before it ends and the tenant has neither a year of its name nor a
      period of the name of one of its months. */
  lemma CreatedExactly(years: seq<FiscalYear>, periods: seq<Period>, tenant: nat, name: string, start: int, end: int)
    ensures CreateError(years, periods, tenant, name, start, end) == None
            <==> && start < end
                 && (forall i :: 0 <= i < |years| ==> years[i].tenant != tenant || years[i].name != name)
                 && (forall i, j :: 0 <= i < |periods| && 0 <= j < |Generated(tenant, |years|, start, end)|
                                    && periods[i].tenant == tenant ==>
                       periods[i].name != Generated(tenant, |years|, start, end)[j].name)
  {
    hide Generated;
    GeneratedOwner(tenant, |years|, start, end);
  }

  lemma GeneratedOwner(tenant: nat, year: nat, start: int, end: int)
    ensures forall j :: 0 <= j < |Generated(tenant, year, start, end)| ==>
              Generated(tenant, year, start, end)[j].tenant == tenant
  {
    hide MonthsAfter, MonthName, MonthOf, PeriodCount, Generated;
    forall j | 0 <= j < |Generated(tenant, year, start, end)|
      ensures Generated(tenant, year, start, end)[j].tenant == tenant
    {
      GeneratedOpen(tenant, year, start, end, j);
    }
  }

  /** A year is closed exactly when it is the tenant's, not closed yet, and all its periods are closed. */
  lemma ClosedExactly(years: seq<FiscalYear>, periods: seq<Period>, tenant: nat, id: nat)
    ensures CloseError(years, periods, tenant, id) == None
            <==> && id < |years| && years[id].tenant == tenant && !years[id].closed
                 && forall i :: 0 <= i < |periods| && periods[i].year == id ==> periods[i].status == Closed
  {
  }
}
