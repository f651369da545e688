/** What every posting and reversal keeps true of the ledger tables, and what that makes of the trial
    balance. */
module LedgerBooks {
  import opened Schema
  import opened JournalEntries
  import opened GeneralLedger
  import opened Money
  import ChartOfAccounts

  ghost predicate Own(accounts: seq<Account>, tenant: nat, account: nat) {
    account < |accounts| && accounts[account].tenant == tenant && accounts[account].active
  }

  ghost predicate WholeLines(ls: seq<LineInput>) {
    forall i :: 0 <= i < |ls| ==> ls[i].debit == ls[i].debit.Floor as real && ls[i].credit == ls[i].credit.Floor as real
  }

  // ---- what the ledger tables keep ----

  /** Every line belongs to an entry of its tenant. */
  ghost predicate Linked(b: Books) {
    forall i :: 0 <= i < |b.lines| ==>
      b.lines[i].entry < |b.entries| && b.lines[i].tenant == b.entries[b.lines[i].entry].tenant
  }

  /** Every line sits on one of its tenant's active accounts. */
  ghost predicate Owned(accounts: seq<Account>, lines: seq<Line>) {
    forall i :: 0 <= i < |lines| ==> Own(accounts, lines[i].tenant, lines[i].account)
  }

  function EntryNet(b: Books, e: nat): int {
    Net(LinesOf(b.lines, e))
  }

  /** No entry is further out of balance than rounding its lines allows. */
  ghost predicate WithinSlack(b: Books) {
    forall e: nat :: e < |b.entries| ==>
      -Slack(|LinesOf(b.lines, e)|) <= EntryNet(b, e) <= Slack(|LinesOf(b.lines, e)|)
  }

  ghost predicate Exact(b: Books) {
    forall e: nat :: e < |b.entries| ==> EntryNet(b, e) == 0
  }

  /** New rows for a new entry of a tenant. */
  ghost predicate RowsFor(b: Books, rows: seq<Line>, tenant: nat) {
    forall i :: 0 <= i < |rows| ==>
      rows[i].entry == |b.entries| && rows[i].tenant == tenant
  }

  lemma {:induction false} LinesOfAppend(lines: seq<Line>, rows: seq<Line>, n: nat, e: nat)
    requires forall i :: 0 <= i < |lines| ==> lines[i].entry < n
    requires forall i :: 0 <= i < |rows| ==> rows[i].entry == n
    ensures LinesOf(lines + rows, e) == if e == n then rows else LinesOf(lines, e)
  {
    if rows == [] {
      assert lines + rows == lines;
      if e == n { NoLinesOf(lines, n); }
    } else {
      var init := rows[..|rows| - 1];
      LinesOfAppend(lines, init, n, e);
      assert (lines + rows)[..|lines + rows| - 1] == lines + init;
      assert (lines + rows)[|lines + rows| - 1] == rows[|init|];
      assert rows == init + [rows[|init|]];
    }
  }

  lemma {:induction false} NoLinesOf(lines: seq<Line>, e: nat)
    requires forall i :: 0 <= i < |lines| ==> lines[i].entry != e
    ensures LinesOf(lines, e) == []
  {
    if lines != [] {
      NoLinesOf(lines[..|lines| - 1], e);
    }
  }

  /** Appending an entry leaves the earlier ones as they were. */
  lemma {:induction false} AppendKeeps(b: Books, entry: Entry, rows: seq<Line>)
    requires Linked(b) && RowsFor(b, rows, entry.tenant)
    ensures Linked(Append(b, entry, rows))
    ensures forall e: nat :: e <= |b.entries| ==>
              LinesOf(b.lines + rows, e) == if e == |b.entries| then rows else LinesOf(b.lines, e)
  {
    forall e: nat | e <= |b.entries|
      ensures LinesOf(b.lines + rows, e) == if e == |b.entries| then rows else LinesOf(b.lines, e)
    {
      LinesOfAppend(b.lines, rows, |b.entries|, e);
    }
  }

  lemma {:induction false} StoredRows(b: Books, tenant: nat, ls: seq<LineInput>, now: int)
    ensures RowsFor(b, Stored(ls, tenant, |b.entries|, now), tenant)
    ensures (forall i :: 0 <= i < |ls| ==> ChartOfAccounts.PostingError(b.accounts, tenant, ls[i].account) == None) ==>
              Owned(b.accounts, Stored(ls, tenant, |b.entries|, now))
  {
    if ls != [] {
      StoredRows(b, tenant, ls[..|ls| - 1], now);
    }
  }

  lemma {:induction false} InvertedRows(b: Books, tenant: nat, rows: seq<Line>, now: int)
    ensures RowsFor(b, Inverted(rows, tenant, |b.entries|, now), tenant)
    ensures Net(Inverted(rows, tenant, |b.entries|, now)) == -Net(rows)
    ensures (forall i :: 0 <= i < |rows| ==> rows[i].tenant == tenant) && Owned(b.accounts, rows) ==>
              Owned(b.accounts, Inverted(rows, tenant, |b.entries|, now))
  {
    if rows != [] {
      InvertedRows(b, tenant, rows[..|rows| - 1], now);
    }
  }

  /** Whole cents are stored as they are. */
  lemma {:induction false} WholeLinesStoredExactly(ls: seq<LineInput>)
    requires WholeLines(ls)
    ensures Net(Stored(ls, 0, 0, 0)) as real == Debits(ls) - Credits(ls) && KeepsBalance(ls)
  {
    if ls != [] {
      var init, l := ls[..|ls| - 1], ls[|ls| - 1];
      WholeLinesStoredExactly(init);
      RoundWhole(l.debit.Floor);
      RoundWhole(l.credit.Floor);
    }
  }

  /** Books whose entries are each within their rounding slack, and balanced exactly if so wanted. */
  ghost predicate Sound(b: Books, exact: bool) {
    Linked(b) && WithinSlack(b) && (exact ==> Exact(b))
  }

  /** A new entry that is itself within its slack keeps the books so. */
  lemma {:induction false} AppendSound(b: Books, entry: Entry, rows: seq<Line>, exact: bool)
    requires Sound(b, exact) && RowsFor(b, rows, entry.tenant)
    requires -Slack(|rows|) <= Net(rows) <= Slack(|rows|) && (exact ==> Net(rows) == 0)
    ensures Sound(Append(b, entry, rows), exact)
  {
    hide Slack, Net;
    AppendKeeps(b, entry, rows);
  }

  lemma PostKeeps(b: Books, tenant: nat, date: int, ls: seq<LineInput>, now: int, exact: bool)
    requires Sound(b, exact) && JournalEntries.CreateError(b, tenant, date, ls) == None && (exact ==> KeepsBalance(ls))
    ensures Sound(Posted(b, tenant, date, ls, now), exact)
  {
    AcceptedOneSided(b.accounts, tenant, ls);
    StoredRows(b, tenant, ls, now);
    StoredGap(b, tenant, date, ls, |b.entries|, now);
    NetOfAmounts(ls, tenant, |b.entries|, now);
    AppendSound(b, Entry(tenant, NextNumber("JE", b.entries, tenant, date), date, None),
                Stored(ls, tenant, |b.entries|, now), exact);
  }

  lemma {:induction false} AppendInverse(b: Books, tenant: nat, number: string, original: nat, date: int, now: int,
                                         exact: bool)
    requires Sound(b, exact) && original < |b.entries| && b.entries[original].tenant == tenant
    ensures Sound(Append(b, Entry(tenant, number, date, None),
                         Inverted(LinesOf(b.lines, original), tenant, |b.entries|, now)), exact)
  {
    hide Slack, Net;
    var lines := LinesOf(b.lines, original);
    InvertedRows(b, tenant, lines, now);
    AppendSound(b, Entry(tenant, number, date, None), Inverted(lines, tenant, |b.entries|, now), exact);
  }

  lemma ReverseKeeps(b: Books, tenant: nat, original: nat, date: int, now: int, exact: bool)
    requires Sound(b, exact) && ReversalError(b, tenant, original, date) == None
    ensures Sound(Reversed(b, tenant, original, date, now), exact)
  {
    AppendInverse(b, tenant, NextNumber("REV", b.entries, tenant, date), original, date, now, exact);
  }

  // ---- what a posting does to a balance ----

  /** The stored debits minus credits of a request on one account. */
  function Moved(ls: seq<LineInput>, account: nat): int {
    if ls == [] then 0
    else
      var l := ls[|ls| - 1];
      Moved(ls[..|ls| - 1], account) + if l.account == account then Round(l.debit) - Round(l.credit) else 0
  }

  lemma {:induction false} MovedAppend(ls: seq<LineInput>, l: LineInput, account: nat)
    ensures Moved(ls + [l], account)
            == Moved(ls, account) + if l.account == account then Round(l.debit) - Round(l.credit) else 0
  {
    hide Round;
    assert (ls + [l])[..|ls|] == ls;
  }

  lemma {:induction false} NothingMoved(account: nat)
    ensures Moved([], account) == 0
  {
  }

  lemma {:induction false} NetOfMoreRows(entries: seq<Entry>, entry: Entry, lines: seq<Line>, ls: seq<LineInput>,
                                         tenant: nat, now: int, reader: nat, w: Window, account: nat)
    requires forall i :: 0 <= i < |lines| ==> lines[i].entry < |entries|
    ensures AccountNet(entries + [entry], lines + Stored(ls, tenant, |entries|, now), reader, w, account)
            == AccountNet(entries, lines, reader, w, account)
               + if reader == tenant && Within(w, entry.date) then Moved(ls, account) else 0
  {
    hide Round, Within;
    if ls != [] {
      NetOfMoreRows(entries, entry, lines, ls[..|ls| - 1], tenant, now, reader, w, account);
      var rows := Stored(ls, tenant, |entries|, now);
      assert rows[..|rows| - 1] == Stored(ls[..|ls| - 1], tenant, |entries|, now);
      assert (lines + rows)[..|lines + rows| - 1] == lines + rows[..|rows| - 1];
    } else {
      assert lines + [] == lines;
      NetOfMoreEntries(entries, entry, lines, reader, w, account);
    }
  }

  lemma {:induction false} NetOfMoreEntries(entries: seq<Entry>, entry: Entry, lines: seq<Line>, reader: nat,
                                            w: Window, account: nat)
    requires forall i :: 0 <= i < |lines| ==> lines[i].entry < |entries|
    ensures AccountNet(entries + [entry], lines, reader, w, account) == AccountNet(entries, lines, reader, w, account)
  {
    hide Within;
    if lines != [] { NetOfMoreEntries(entries, entry, lines[..|lines| - 1], reader, w, account); }
  }

  /** A posting moves each account's balance by its stored lines on that account, for its own tenant and in
      exactly the windows that cover its date; nothing else moves. */
  lemma {:induction false} PostMoves(b: Books, tenant: nat, date: int, ls: seq<LineInput>, now: int, reader: nat,
                                     w: Window, account: nat)
    requires Linked(b)
    ensures var t := Posted(b, tenant, date, ls, now);
            AccountNet(t.entries, t.lines, reader, w, account)
            == AccountNet(b.entries, b.lines, reader, w, account)
               + if reader == tenant && Within(w, date) then Moved(ls, account) else 0
  {
    hide AccountNet, NextNumber, Moved, Stored;
    NetOfMoreRows(b.entries, Entry(tenant, NextNumber("JE", b.entries, tenant, date), date, None), b.lines, ls,
                  tenant, now, reader, w, account);
  }

  // ---- the trial balance of sound books ----

  /** The gaps of the tenant's entries dated inside a window, among the first n. */
  function SumEntryNets(b: Books, lines: seq<Line>, tenant: nat, w: Window, n: nat): int
    requires n <= |b.entries|
  {
    if n == 0 then 0
    else SumEntryNets(b, lines, tenant, w, n - 1)
         + if b.entries[n - 1].tenant == tenant && Within(w, b.entries[n - 1].date)
           then Net(LinesOf(lines, n - 1)) else 0
  }

  function SumSlack(b: Books, tenant: nat, w: Window, n: nat): int
    requires n <= |b.entries|
  {
    if n == 0 then 0
    else SumSlack(b, tenant, w, n - 1)
         + if b.entries[n - 1].tenant == tenant && Within(w, b.entries[n - 1].date)
           then Slack(|LinesOf(b.lines, n - 1)|) else 0
  }

  /** Adding a line changes the gap of its own entry only. */
  lemma {:induction false} OneMoreLineByEntry(b: Books, lines: seq<Line>, tenant: nat, w: Window, n: nat)
    requires lines != [] && n <= |b.entries|
    ensures var l := lines[|lines| - 1];
            SumEntryNets(b, lines, tenant, w, n)
            == SumEntryNets(b, lines[..|lines| - 1], tenant, w, n)
               + if l.entry < n && b.entries[l.entry].tenant == tenant && Within(w, b.entries[l.entry].date)
                 then l.debit - l.credit else 0
  {
    hide Within, Net, LinesOf;
    if n > 0 {
      OneMoreLineByEntry(b, lines, tenant, w, n - 1);
      NetOfLast(lines, n - 1);
    }
  }

  lemma {:induction false} NetOfLast(lines: seq<Line>, e: nat)
    requires lines != []
    ensures var l := lines[|lines| - 1];
            Net(LinesOf(lines, e))
            == Net(LinesOf(lines[..|lines| - 1], e)) + if l.entry == e then l.debit - l.credit else 0
  {
    var rows := LinesOf(lines, e);
    if lines[|lines| - 1].entry == e {
      assert rows[..|rows| - 1] == LinesOf(lines[..|lines| - 1], e);
    }
  }

  lemma {:induction false} NoEntryNets(b: Books, tenant: nat, w: Window, n: nat)
    requires n <= |b.entries|
    ensures SumEntryNets(b, [], tenant, w, n) == 0
  {
    if n > 0 { NoEntryNets(b, tenant, w, n - 1); }
  }

  /** When every line sits on an active account of its own tenant, the lines can be summed entry by entry. */
  lemma {:induction false} NetByEntry(b: Books, k: nat, tenant: nat, w: Window)
    requires Linked(b) && Owned(b.accounts, b.lines) && k <= |b.lines|
    ensures NetOn(b.entries, b.lines[..k], tenant, w, ActiveIds(b.accounts, tenant))
            == SumEntryNets(b, b.lines[..k], tenant, w, |b.entries|)
  {
    hide ActiveIds;
    if k == 0 {
      NoEntryNets(b, tenant, w, |b.entries|);
    } else {
      NetByEntry(b, k - 1, tenant, w);
      OneMoreLineByEntry(b, b.lines[..k], tenant, w, |b.entries|);
      assert b.lines[..k][..k - 1] == b.lines[..k - 1];
      var l := b.lines[k - 1];
      assert Own(b.accounts, l.tenant, l.account);
    }
  }

  lemma {:induction false} NetsWithinSlack(b: Books, tenant: nat, w: Window, n: nat, exact: bool)
    requires Sound(b, exact) && n <= |b.entries|
    ensures -SumSlack(b, tenant, w, n) <= SumEntryNets(b, b.lines, tenant, w, n) <= SumSlack(b, tenant, w, n)
    ensures exact ==> SumEntryNets(b, b.lines, tenant, w, n) == 0
  {
    hide Net, Slack, LinesOf;
    if n > 0 {
      NetsWithinSlack(b, tenant, w, n - 1, exact);
      assert EntryNet(b, n - 1) == Net(LinesOf(b.lines, n - 1));
    }
  }

  // ---- reversal ----

  const ALL_TIME := Window(None, None)

  /** A tenant's debits minus credits on an account, dates aside. */
  function TenantNet(lines: seq<Line>, tenant: nat, account: nat): int {
    if lines == [] then 0
    else
      var l := lines[|lines| - 1];
      TenantNet(lines[..|lines| - 1], tenant, account)
      + if l.tenant == tenant && l.account == account then l.debit - l.credit else 0
  }

  lemma {:induction false} AllTimeNet(entries: seq<Entry>, lines: seq<Line>, tenant: nat, account: nat)
    requires forall i :: 0 <= i < |lines| ==> lines[i].entry < |entries|
    ensures AccountNet(entries, lines, tenant, ALL_TIME, account) == TenantNet(lines, tenant, account)
  {
    if lines != [] { AllTimeNet(entries, lines[..|lines| - 1], tenant, account); }
  }

  lemma {:induction false} TenantNetAppend(lines: seq<Line>, rows: seq<Line>, tenant: nat, account: nat)
    ensures TenantNet(lines + rows, tenant, account)
            == TenantNet(lines, tenant, account) + TenantNet(rows, tenant, account)
  {
    if rows == [] {
      assert lines + rows == lines;
    } else {
      TenantNetAppend(lines, rows[..|rows| - 1], tenant, account);
      assert (lines + rows)[..|lines + rows| - 1] == lines + rows[..|rows| - 1];
    }
  }

  lemma {:induction false} TenantNetInverted(rows: seq<Line>, tenant: nat, entry: nat, now: int, account: nat)
    requires forall i :: 0 <= i < |rows| ==> rows[i].tenant == tenant
    ensures TenantNet(Inverted(rows, tenant, entry, now), tenant, account) == -TenantNet(rows, tenant, account)
  {
    if rows != [] { TenantNetInverted(rows[..|rows| - 1], tenant, entry, now, account); }
  }

  /** A reversal takes from every account's all-time balance exactly what the original entry put there. */
  lemma {:induction false} ReversalCancels(b: Books, tenant: nat, original: nat, date: int, now: int, account: nat)
    requires Linked(b) && ReversalError(b, tenant, original, date) == None
    ensures var b' := Reversed(b, tenant, original, date, now);
            AccountNet(b'.entries, b'.lines, tenant, ALL_TIME, account)
            == AccountNet(b.entries, b.lines, tenant, ALL_TIME, account)
               - TenantNet(LinesOf(b.lines, original), tenant, account)
  {
    hide NextNumber, TenantNet, AccountNet;
    var rows := LinesOf(b.lines, original);
    var b' := Reversed(b, tenant, original, date, now);
    forall i | 0 <= i < |rows|
      ensures rows[i].tenant == tenant
    {
      assert rows[i] in b.lines && rows[i].entry == original;
    }
    var inverted := Inverted(rows, tenant, |b.entries|, now);
    InvertedRows(b, tenant, rows, now);
    AllTimeNet(b.entries, b.lines, tenant, account);
    AllTimeNet(b'.entries, b'.lines, tenant, account);
    TenantNetAppend(b.lines, inverted, tenant, account);
    TenantNetInverted(rows, tenant, |b.entries|, now, account);
  }

  /** Rows of a new entry count in the windows that cover its date. */
  lemma {:induction false} NetOfNewRows(entries: seq<Entry>, entry: Entry, lines: seq<Line>, rows: seq<Line>,
                                        reader: nat,
                                        w: Window, account: nat)
    requires forall i :: 0 <= i < |lines| ==> lines[i].entry < |entries|
    requires forall i :: 0 <= i < |rows| ==> rows[i].entry == |entries|
    ensures AccountNet(entries + [entry], lines + rows, reader, w, account)
            == AccountNet(entries, lines, reader, w, account)
               + if Within(w, entry.date) then TenantNet(rows, reader, account) else 0
  {
    hide Within;
    if rows == [] {
      assert lines + rows == lines;
      NetOfMoreEntries(entries, entry, lines, reader, w, account);
    } else {
      var n := |rows| - 1;
      NetOfNewRows(entries, entry, lines, rows[..n], reader, w, account);
      assert (lines + rows)[..|lines + rows| - 1] == lines + rows[..n];
      assert (lines + rows)[|lines + rows| - 1] == rows[n];
    }
  }

  /** Only the dates of entries matter. */
  lemma {:induction false} NetSameDates(entries: seq<Entry>, entries': seq<Entry>, lines: seq<Line>, reader: nat,
                                        w: Window, account: nat)
    requires |entries| == |entries'|
    requires forall e :: 0 <= e < |entries| ==> entries'[e].date == entries[e].date
    ensures AccountNet(entries', lines, reader, w, account) == AccountNet(entries, lines, reader, w, account)
  {
    hide Within;
    if lines != [] { NetSameDates(entries, entries', lines[..|lines| - 1], reader, w, account); }
  }

  lemma {:induction false} TenantNetOthers(rows: seq<Line>, tenant: nat, account: nat)
    requires forall i :: 0 <= i < |rows| ==> rows[i].tenant != tenant
    ensures TenantNet(rows, tenant, account) == 0
  {
    if rows != [] { TenantNetOthers(rows[..|rows| - 1], tenant, account); }
  }

  /** In exactly the windows that cover its date a reversal takes from every account what the original put there. */
  lemma {:induction false} ReversalMoves(b: Books, tenant: nat, original: nat, date: int, now: int, reader: nat,
                                         w: Window, account: nat)
    requires Linked(b) && ReversalError(b, tenant, original, date) == None
    ensures var t := Reversed(b, tenant, original, date, now);
            AccountNet(t.entries, t.lines, reader, w, account)
            == AccountNet(b.entries, b.lines, reader, w, account)
               - if reader != tenant || !Within(w, date) then 0
                 else TenantNet(LinesOf(b.lines, original), tenant, account)
  {
    hide NextNumber, TenantNet, AccountNet, Within;
    var rows, t := LinesOf(b.lines, original), Reversed(b, tenant, original, date, now);
    forall i | 0 <= i < |rows|
      ensures rows[i].tenant == tenant
    {
      assert rows[i] in b.lines && rows[i].entry == original;
    }
    var inverted := Inverted(rows, tenant, |b.entries|, now);
    InvertedRows(b, tenant, rows, now);
    var entry := Entry(tenant, NextNumber("REV", b.entries, tenant, date), date, None);
    NetOfNewRows(b.entries, entry, b.lines, inverted, reader, w, account);
    NetSameDates(b.entries + [entry], t.entries, t.lines, reader, w, account);
    if reader == tenant {
      TenantNetInverted(rows, tenant, |b.entries|, now, account);
    } else {
      TenantNetOthers(inverted, reader, account);
    }
  }

  /** Posting an entry and reversing it leaves every account's all-time balance as it was. */
  lemma PostThenReverse(b: Books, tenant: nat, date: int, ls: seq<LineInput>, day: int, now: int, account: nat)
    requires Linked(b) && JournalEntries.CreateError(b, tenant, date, ls) == None
    requires var posted := Posted(b, tenant, date, ls, now);
             ReversalError(posted, tenant, |b.entries|, day) == None
    ensures var b' := Reversed(Posted(b, tenant, date, ls, now), tenant, |b.entries|, day, now);
            AccountNet(b'.entries, b'.lines, tenant, ALL_TIME, account)
            == AccountNet(b.entries, b.lines, tenant, ALL_TIME, account)
  {
    hide NextNumber, TenantNet, AccountNet;
    var rows := Stored(ls, tenant, |b.entries|, now);
    var posted := Posted(b, tenant, date, ls, now);
    AcceptedOneSided(b.accounts, tenant, ls);
    StoredRows(b, tenant, ls, now);
    AppendKeeps(b, posted.entries[|b.entries|], rows);
    ReversalCancels(posted, tenant, |b.entries|, day, now, account);
    AllTimeNet(b.entries, b.lines, tenant, account);
    AllTimeNet(posted.entries, posted.lines, tenant, account);
    TenantNetAppend(b.lines, rows, tenant, account);
  }
}
