/** Posting and reversing journal entries (journal-entries.service.ts). */
module JournalEntries {
  import opened Schema
  import opened Money
  import opened Calendar
  import opened Numbers
  import ChartOfAccounts
  import AccountingPeriods

  /** A line of a request: its amounts are exact and may have fractions of a cent. */
  datatype LineInput = LineInput(account: nat, debit: real, credit: real)

  // ---- the balance check ----

  function LineError(accounts: seq<Account>, tenant: nat, l: LineInput): Option<Error> {
    if l.debit < 0.0 || l.credit < 0.0 then Some(NegativeAmount)
    else if l.debit != 0.0 && l.credit != 0.0 then Some(TwoSidedLine)
    else ChartOfAccounts.PostingError(accounts, tenant, l.account)
  }

  /** What is wrong with the first faulty line, if one is. */
  function LinesError(accounts: seq<Account>, tenant: nat, ls: seq<LineInput>): Option<Error> {
    if ls == [] then None
    else
      var earlier := LinesError(accounts, tenant, ls[..|ls| - 1]);
      if earlier.Some? then earlier else LineError(accounts, tenant, ls[|ls| - 1])
  }

  function Debits(ls: seq<LineInput>): real {
    if ls == [] then 0.0 else Debits(ls[..|ls| - 1]) + ls[|ls| - 1].debit
  }

  function Credits(ls: seq<LineInput>): real {
    if ls == [] then 0.0 else Credits(ls[..|ls| - 1]) + ls[|ls| - 1].credit
  }

  lemma SumsOfNone()
    ensures Debits([]) == 0.0 && Credits([]) == 0.0
  {
  }

  lemma {:induction false} SumsAppend(ls: seq<LineInput>, l: LineInput)
    ensures Debits(ls + [l]) == Debits(ls) + l.debit && Credits(ls + [l]) == Credits(ls) + l.credit
  {
    assert (ls + [l])[..|ls|] == ls;
  }

  /** Why `create` refuses a request, in the order in which it looks. */
  function CreateError(b: Books, tenant: nat, date: int, ls: seq<LineInput>): Option<Error> {
    if |ls| < 2 then Some(TooFewLines)
    else if AccountingPeriods.FindActive(b.periods, tenant, date).Err? then
      Some(AccountingPeriods.FindActive(b.periods, tenant, date).error)
    else if LinesError(b.accounts, tenant, ls).Some? then LinesError(b.accounts, tenant, ls)
    else if Debits(ls) != Credits(ls) then Some(OutOfBalance)
    else None
  }

  // ---- numbering and storing ----

  /** How many entries the tenant has in a calendar year. */
  function CountYear(entries: seq<Entry>, tenant: nat, year: int): nat {
    if entries == [] then 0
    else
      var e := entries[|entries| - 1];
      CountYear(entries[..|entries| - 1], tenant, year)
      + if e.tenant == tenant && YearStart(year) <= e.date < YearStart(year + 1) then 1 else 0
  }

  function NextNumber(prefix: string, entries: seq<Entry>, tenant: nat, date: int): string {
    EntryNumber(prefix, YearOf(date), CountYear(entries, tenant, YearOf(date)) + 1)
  }

  /** The rows a request's lines become. */
  function Stored(ls: seq<LineInput>, tenant: nat, entry: nat, now: int): (rows: seq<Line>)
    ensures |rows| == |ls|
  {
    if ls == [] then []
    else
      var l := ls[|ls| - 1];
      Stored(ls[..|ls| - 1], tenant, entry, now)
      + [Line(tenant, entry, l.account, Round(l.debit), Round(l.credit), now, None)]
  }

  function Append(b: Books, entry: Entry, rows: seq<Line>): Books {
    b.(entries := b.entries + [entry], lines := b.lines + rows)
  }

  /** The books after `create` has accepted a request. */
  function Posted(b: Books, tenant: nat, date: int, ls: seq<LineInput>, now: int): Books {
    Append(b, Entry(tenant, NextNumber("JE", b.entries, tenant, date), date, None),
           Stored(ls, tenant, |b.entries|, now))
  }

  method Create(db: Database, tenant: nat, date: int, ls: seq<LineInput>, now: int) returns (r: Result<nat>)
    modifies db`entries, db`lines
    ensures var before := old(db.Ledger());
            match CreateError(before, tenant, date, ls)
            case Some(e) => r == Err(e) && db.Ledger() == before
            case None => r == Ok(|before.entries|) && db.Ledger() == Posted(before, tenant, date, ls, now)
  {
    if |ls| < 2 {
      return Err(TooFewLines);
    }
    var period := AccountingPeriods.FindActive(db.periods, tenant, date);
    if period.Err? {
      return Err(period.error);
    }
    var totalDebits, totalCredits := 0.0, 0.0;
    for i := 0 to |ls|
      invariant LinesError(db.accounts, tenant, ls[..i]) == None
      invariant totalDebits == Debits(ls[..i]) && totalCredits == Credits(ls[..i])
    {
      var l := ls[i];
      assert ls[..i + 1][..i] == ls[..i];
      if l.debit < 0.0 || l.credit < 0.0 {
        FirstErrorStands(db.accounts, tenant, ls, i);
        return Err(NegativeAmount);
      }
      if l.debit != 0.0 && l.credit != 0.0 {
        FirstErrorStands(db.accounts, tenant, ls, i);
        return Err(TwoSidedLine);
      }
      totalDebits := totalDebits + l.debit;
      totalCredits := totalCredits + l.credit;
      var error := ChartOfAccounts.PostingError(db.accounts, tenant, l.account);
      if error.Some? {
        FirstErrorStands(db.accounts, tenant, ls, i);
        return Err(error.value);
      }
    }
    assert ls[..|ls|] == ls;
    if totalDebits != totalCredits {
      return Err(OutOfBalance);
    }
    var number := NextNumber("JE", db.entries, tenant, date);
    db.lines := db.lines + Stored(ls, tenant, |db.entries|, now);
    db.entries := db.entries + [Entry(tenant, number, date, None)];
    r := Ok(|db.entries| - 1);
  }

  /** The error of the first faulty line is the error of the whole list. */
  lemma {:induction false} FirstErrorStands(accounts: seq<Account>, tenant: nat, ls: seq<LineInput>, i: nat)
    requires i < |ls| && LinesError(accounts, tenant, ls[..i]) == None
    requires LineError(accounts, tenant, ls[i]).Some?
    ensures LinesError(accounts, tenant, ls) == LineError(accounts, tenant, ls[i])
  {
    if i == |ls| - 1 {
    } else {
      assert ls[..|ls| - 1][..i] == ls[..i];
      FirstErrorStands(accounts, tenant, ls[..|ls| - 1], i);
    }
  }

  /** Whether an error is one of those that posting reports. */
  predicate PostingReports(e: Error) {
    e in [TooFewLines, NoPeriod, PeriodClosed, NegativeAmount, TwoSidedLine, AccountInvalid, SummaryAccount,
          OutOfBalance]
  }

  lemma PostingErrors(b: Books, tenant: nat, date: int, ls: seq<LineInput>)
    ensures CreateError(b, tenant, date, ls).Some? ==> PostingReports(CreateError(b, tenant, date, ls).value)
  {
    LineErrors(b.accounts, tenant, ls);
  }

  lemma {:induction false} LineErrors(accounts: seq<Account>, tenant: nat, ls: seq<LineInput>)
    ensures LinesError(accounts, tenant, ls).Some? ==> PostingReports(LinesError(accounts, tenant, ls).value)
  {
    if ls != [] { LineErrors(accounts, tenant, ls[..|ls| - 1]); }
  }

  // ---- reversal ----

  /** The lines of one entry. */
  function LinesOf(lines: seq<Line>, entry: nat): (rows: seq<Line>)
    ensures forall i :: 0 <= i < |rows| ==> rows[i].entry == entry && rows[i] in lines
  {
    if lines == [] then []
    else
      var rest := LinesOf(lines[..|lines| - 1], entry);
      if lines[|lines| - 1].entry == entry then rest + [lines[|lines| - 1]] else rest
  }

  /** Copies of an entry's lines with debit and credit exchanged. */
  function Inverted(rows: seq<Line>, tenant: nat, entry: nat, now: int): (inverted: seq<Line>)
    ensures |inverted| == |rows|
  {
    if rows == [] then []
    else
      var l := rows[|rows| - 1];
      Inverted(rows[..|rows| - 1], tenant, entry, now)
      + [Line(tenant, entry, l.account, l.credit, l.debit, now, None)]
  }

  function ReversalError(b: Books, tenant: nat, original: nat, date: int): Option<Error> {
    if original >= |b.entries| || b.entries[original].tenant != tenant then Some(NoEntry)
    else if b.entries[original].reversal.Some? then Some(AlreadyReversed)
    else if AccountingPeriods.FindActive(b.periods, tenant, date).Err? then
      Some(AccountingPeriods.FindActive(b.periods, tenant, date).error)
    else None
  }

  function Reversed(b: Books, tenant: nat, original: nat, date: int, now: int): Books
    requires original < |b.entries|
  {
    var reversal := |b.entries|;
    var b' := Append(b, Entry(tenant, NextNumber("REV", b.entries, tenant, date), date, None),
                     Inverted(LinesOf(b.lines, original), tenant, reversal, now));
    b'.(entries := b'.entries[original := b'.entries[original].(reversal := Some(reversal))])
  }

  method CreateReversal(db: Database, tenant: nat, original: nat, date: int, now: int) returns (r: Result<nat>)
    modifies db`entries, db`lines
    ensures var before := old(db.Ledger());
            match ReversalError(before, tenant, original, date)
            case Some(e) => r == Err(e) && db.Ledger() == before
            case None => r == Ok(|before.entries|) && db.Ledger() == Reversed(before, tenant, original, date, now)
  {
    if original >= |db.entries| || db.entries[original].tenant != tenant {
      return Err(NoEntry);
    }
    if db.entries[original].reversal.Some? {
      return Err(AlreadyReversed);
    }
    var period := AccountingPeriods.FindActive(db.periods, tenant, date);
    if period.Err? {
      return Err(period.error);
    }
    var reversal := |db.entries|;
    var number := NextNumber("REV", db.entries, tenant, date);
    db.lines := db.lines + Inverted(LinesOf(db.lines, original), tenant, reversal, now);
    db.entries := db.entries + [Entry(tenant, number, date, None)];
    db.entries := db.entries[original := db.entries[original].(reversal := Some(reversal))];
    r := Ok(reversal);
  }

  // ---- what rounding at the column can do to an accepted entry ----

  /** Debits minus credits of stored rows. */
  function Net(rows: seq<Line>): int {
    if rows == [] then 0 else Net(rows[..|rows| - 1]) + rows[|rows| - 1].debit - rows[|rows| - 1].credit
  }

  /** The largest gap, in cents, that rounding can open in an entry of n lines. */
  function Slack(n: nat): int {
    if n == 0 then 0 else (n - 1) / 2
  }

  /** Each line is one-sided with nonnegative amounts, which `create` checks. */
  predicate OneSided(ls: seq<LineInput>) {
    forall i :: 0 <= i < |ls| ==>
      0.0 <= ls[i].debit && 0.0 <= ls[i].credit && (ls[i].debit == 0.0 || ls[i].credit == 0.0)
  }

  lemma {:induction false} AcceptedOneSided(accounts: seq<Account>, tenant: nat, ls: seq<LineInput>)
    requires LinesError(accounts, tenant, ls) == None
    ensures OneSided(ls)
    ensures forall i :: 0 <= i < |ls| ==> ChartOfAccounts.PostingError(accounts, tenant, ls[i].account) == None
  {
    if ls != [] {
      var init := ls[..|ls| - 1];
      AcceptedOneSided(accounts, tenant, init);
      assert forall i :: 0 <= i < |init| ==> ls[i] == init[i];
    }
  }

  lemma {:induction false} OneSidedAccepted(accounts: seq<Account>, tenant: nat, ls: seq<LineInput>)
    requires OneSided(ls)
    requires forall i :: 0 <= i < |ls| ==> ChartOfAccounts.PostingError(accounts, tenant, ls[i].account) == None
    ensures LinesError(accounts, tenant, ls) == None
  {
    if ls != [] { OneSidedAccepted(accounts, tenant, ls[..|ls| - 1]); }
  }

  /** Storing moves each line by at most half a cent, upwards only on a half, so a whole half cent per
      line can be gained on one side only when every line is on that side. */
  lemma {:induction false} RoundingDrift(ls: seq<LineInput>, tenant: nat, entry: nat, now: int)
    requires OneSided(ls)
    ensures var drift := Net(Stored(ls, tenant, entry, now)) as real - (Debits(ls) - Credits(ls));
            var half := |ls| as real / 2.0;
            && -half <= drift <= half
            && (drift == half ==> Credits(ls) == 0.0 && (ls == [] || Debits(ls) > 0.0))
            && (drift == -half ==> Debits(ls) == 0.0 && (ls == [] || Credits(ls) > 0.0))
            && 0.0 <= Debits(ls) && 0.0 <= Credits(ls)
  {
    if ls != [] {
      RoundingDrift(ls[..|ls| - 1], tenant, entry, now);
    }
  }

  /** An accepted entry of n lines is out of balance by at most (n - 1) / 2 cents, rounded down, once
      its lines are stored; with two lines it is stored exactly balanced. */
  lemma {:induction false} StoredGap(b: Books, tenant: nat, date: int, ls: seq<LineInput>, entry: nat, now: int)
    requires CreateError(b, tenant, date, ls) == None
    ensures -Slack(|ls|) <= Net(Stored(ls, tenant, entry, now)) <= Slack(|ls|)
  {
    AcceptedOneSided(b.accounts, tenant, ls);
    RoundingDrift(ls, tenant, entry, now);
  }

  /** If the request is balanced as submitted, it is still balanced as stored. */
  ghost predicate KeepsBalance(ls: seq<LineInput>) {
    OneSided(ls) && Debits(ls) == Credits(ls) ==> Net(Stored(ls, 0, 0, 0)) == 0
  }

  lemma {:induction false} NetOfAmounts(ls: seq<LineInput>, tenant: nat, entry: nat, now: int)
    ensures Net(Stored(ls, tenant, entry, now)) == Net(Stored(ls, 0, 0, 0))
  {
    if ls != [] { NetOfAmounts(ls[..|ls| - 1], tenant, entry, now); }
  }

  lemma {:induction false} StoredAppend(ls: seq<LineInput>, l: LineInput)
    ensures Net(Stored(ls + [l], 0, 0, 0)) == Net(Stored(ls, 0, 0, 0)) + Round(l.debit) - Round(l.credit)
  {
    hide Round;
    assert (ls + [l])[..|ls|] == ls;
    var rows := Stored(ls + [l], 0, 0, 0);
    assert rows[..|ls|] == Stored(ls, 0, 0, 0);
  }

  lemma NothingStored()
    ensures Net(Stored([], 0, 0, 0)) == 0
  {
  }

  /** Two lines always do, whatever their fractions. */
  lemma TwoLinesKeepBalance(ls: seq<LineInput>)
    requires |ls| == 2
    ensures KeepsBalance(ls)
  {
    if OneSided(ls) { RoundingDrift(ls, 0, 0, 0); }
  }

  /** n half-cent debits against one credit of their sum. */
  function HalfCents(n: nat): seq<LineInput> {
    seq(n, i => LineInput(0, 0.5, 0.0)) + [LineInput(0, 0.0, n as real / 2.0)]
  }

  /** The bound is reached by a balanced request of every length. */
  lemma {:induction false} SlackReached(n: nat, tenant: nat, entry: nat, now: int)
    requires 1 <= n
    ensures OneSided(HalfCents(n)) && Debits(HalfCents(n)) == Credits(HalfCents(n))
    ensures Net(Stored(HalfCents(n), tenant, entry, now)) == Slack(n + 1)
  {
    var debits := seq(n, i => LineInput(0, 0.5, 0.0));
    HalfCentDebits(debits, tenant, entry, now);
    assert HalfCents(n)[..n] == debits;
    assert n % 2 == 0 ==> n as real / 2.0 == (n / 2) as real;
    assert n % 2 == 1 ==> n as real / 2.0 == (n / 2) as real + 0.5;
  }

  lemma {:induction false} HalfCentDebits(ls: seq<LineInput>, tenant: nat, entry: nat, now: int)
    requires forall i :: 0 <= i < |ls| ==> ls[i] == LineInput(0, 0.5, 0.0)
    ensures Debits(ls) == |ls| as real / 2.0 && Credits(ls) == 0.0
    ensures Net(Stored(ls, tenant, entry, now)) == |ls|
  {
    if ls != [] {
      HalfCentDebits(ls[..|ls| - 1], tenant, entry, now);
      RoundWhole(0);
    }
  }

  // ---- what is accepted ----

  /** A request is accepted exactly when it has two lines, its date is in a period that is not closed, its lines are
      one-sided, nonnegative and on accounts that take postings, and its debits equal its credits. */
  lemma {:induction false} AcceptedExactly(b: Books, tenant: nat, date: int, ls: seq<LineInput>)
    ensures CreateError(b, tenant, date, ls) == None
            <==> && |ls| >= 2 && AccountingPeriods.FindActive(b.periods, tenant, date).Ok? && OneSided(ls)
                 && (forall i :: 0 <= i < |ls| ==>
                       ChartOfAccounts.PostingError(b.accounts, tenant, ls[i].account) == None)
                 && Debits(ls) == Credits(ls)
  {
    hide Debits, Credits, AccountingPeriods.FindActive, ChartOfAccounts.PostingError, OneSided;
    if LinesError(b.accounts, tenant, ls) == None {
      AcceptedOneSided(b.accounts, tenant, ls);
    } else if OneSided(ls) && forall i :: 0 <= i < |ls| ==>
                 ChartOfAccounts.PostingError(b.accounts, tenant, ls[i].account) == None {
      OneSidedAccepted(b.accounts, tenant, ls);
    }
  }

  /** A reversal is accepted exactly for an entry of the tenant that has none, on a date in a period that is not
      closed. */
  lemma ReversedExactly(b: Books, tenant: nat, original: nat, date: int)
    ensures ReversalError(b, tenant, original, date) == None
            <==> && original < |b.entries| && b.entries[original].tenant == tenant
                 && b.entries[original].reversal == None
                 && AccountingPeriods.FindActive(b.periods, tenant, date).Ok?
  {
  }

  // ---- what is stored ----

  lemma {:induction false} StoredAs(ls: seq<LineInput>, tenant: nat, entry: nat, now: int, k: nat)
    requires k < |ls|
    ensures Stored(ls, tenant, entry, now)[k]
            == Line(tenant, entry, ls[k].account, Round(ls[k].debit), Round(ls[k].credit), now, None)
  {
    hide Round;
    if k < |ls| - 1 { StoredAs(ls[..|ls| - 1], tenant, entry, now, k); }
  }

  /** A posting adds one entry, numbered in the `JE` series, and its lines in order: in cents, free for reconciliation
      and entered now. */
  lemma {:induction false} PostedAs(b: Books, tenant: nat, date: int, ls: seq<LineInput>, now: int)
    ensures var t, n, m := Posted(b, tenant, date, ls, now), |b.entries|, |b.lines|;
            && t.accounts == b.accounts && t.periods == b.periods
            && t.entries == b.entries + [Entry(tenant, t.entries[n].number, date, None)]
            && t.entries[n].number == EntryNumber("JE", YearOf(date), CountYear(b.entries, tenant, YearOf(date)) + 1)
            && |t.lines| == m + |ls| && t.lines[..m] == b.lines
            && forall k :: 0 <= k < |ls| ==>
                 t.lines[m + k] == Line(tenant, n, ls[k].account, Round(ls[k].debit), Round(ls[k].credit), now, None)
  {
    hide Round, EntryNumber, YearOf, CountYear, Stored;
    forall k | 0 <= k < |ls|
      ensures Stored(ls, tenant, |b.entries|, now)[k]
              == Line(tenant, |b.entries|, ls[k].account, Round(ls[k].debit), Round(ls[k].credit), now, None)
    {
      StoredAs(ls, tenant, |b.entries|, now, k);
    }
  }

  lemma {:induction false} InvertedAs(rows: seq<Line>, tenant: nat, entry: nat, now: int, k: nat)
    requires k < |rows|
    ensures Inverted(rows, tenant, entry, now)[k]
            == Line(tenant, entry, rows[k].account, rows[k].credit, rows[k].debit, now, None)
  {
    if k < |rows| - 1 { InvertedAs(rows[..|rows| - 1], tenant, entry, now, k); }
  }

  /** A reversal adds one entry, numbered in the `REV` series, and links it from the original, which cannot be reversed
      again; no other entry changes. */
  lemma {:induction false} ReversedAs(b: Books, tenant: nat, original: nat, date: int, now: int, again: int)
    requires ReversalError(b, tenant, original, date) == None
    ensures var t, n := Reversed(b, tenant, original, date, now), |b.entries|;
            && |t.entries| == n + 1 && t.entries[n].tenant == tenant && t.entries[n].date == date
            && t.entries[n].reversal == None
            && t.entries[n].number == EntryNumber("REV", YearOf(date), CountYear(b.entries, tenant, YearOf(date)) + 1)
            && t.entries[original] == b.entries[original].(reversal := Some(n))
            && ReversalError(t, tenant, original, again) == Some(AlreadyReversed)
            && forall e :: 0 <= e < n && e != original ==> t.entries[e] == b.entries[e]
  {
    hide EntryNumber, YearOf, CountYear, Inverted, LinesOf;
  }
}
