/** Whole runs of the services that write to the ledger: whatever the order of posts, reversals, asset
    purchases and depreciation runs, the trial balance agrees up to rounding, numbers stay unique and
    depreciation is posted in order. */
module LedgerRuns {
  import opened Schema
  import opened Calendar
  import opened Numbers
  import opened JournalEntries
  import opened GeneralLedger
  import opened FixedAssets
  import opened LedgerBooks
  import opened AssetRegister

  // ---- runs ----

  datatype Event =
    | OpenAccounts(accounts: seq<Account>)
    | SetPeriods(periods: seq<Period>)
    | Post(tenant: nat, date: int, ls: seq<LineInput>, now: int)
    | Reverse(tenant: nat, original: nat, date: int, now: int)
    | Buy(asset: FixedAsset)
    | Depreciate(tenant: nat, asOf: int, now: int)

  /** The register after an event; a refused call changes nothing. */
  function Next(s: AssetBooks, e: Event): AssetBooks {
    match e
    case OpenAccounts(accounts) => s.(books := s.books.(accounts := s.books.accounts + accounts))
    case SetPeriods(periods) => s.(books := s.books.(periods := periods))
    case Post(tenant, date, ls, now) =>
      if JournalEntries.CreateError(s.books, tenant, date, ls).Some? then s
      else s.(books := Posted(s.books, tenant, date, ls, now))
    case Reverse(tenant, original, date, now) =>
      if ReversalError(s.books, tenant, original, date).Some? then s
      else s.(books := Reversed(s.books, tenant, original, date, now))
    case Buy(a) => if CodeTaken(s.assets, a.tenant, a.code) then s else Added(s, a)
    case Depreciate(tenant, asOf, now) => RunTo(s, tenant, asOf, now, |s.schedules|).register
  }

  function Run(events: seq<Event>): AssetBooks {
    if events == [] then AssetBooks(Books([], [], [], []), [], [])
    else Next(Run(events[..|events| - 1]), events[|events| - 1])
  }

  /** Assets are bought on accounts of their own tenant: the one thing the services do not check. */
  ghost predicate OwnAssetAccounts(events: seq<Event>) {
    events != [] ==>
      var e := events[|events| - 1];
      var accounts := Run(events[..|events| - 1]).books.accounts;
      && OwnAssetAccounts(events[..|events| - 1])
      && OwnBuy(accounts, e)
  }

  ghost predicate OwnBuy(accounts: seq<Account>, e: Event) {
    e.Buy? ==> Own(accounts, e.asset.tenant, e.asset.expenseAccount)
               && Own(accounts, e.asset.tenant, e.asset.depreciationAccount)
  }

  /** Every request that balances is stored balanced: true of whole cents and of all two-line requests. */
  ghost predicate ExactPosts(events: seq<Event>) {
    forall i :: 0 <= i < |events| && events[i].Post? ==> KeepsBalance(events[i].ls)
  }

  // ---- the invariant of every run ----

  ghost predicate Inv(s: AssetBooks, exact: bool) {
    && Sound(s.books, exact)
    && Layout(s.assets, s.schedules) && PostedInOrder(s.schedules)
    && Numbered(s) && Booked(s) && UniqueNumbers(s.books.entries) && Labelled(s)
  }

  lemma {:induction false} DepreciationRunKeeps(s: AssetBooks, tenant: nat, asOf: int, now: int, n: nat, exact: bool)
    requires n <= |s.schedules| && Sound(s.books, exact) && Numbered(s) && Booked(s)
    ensures var t := RunTo(s, tenant, asOf, now, n).register;
            Sound(t.books, exact) && Numbered(t) && Booked(t)
  {
    hide PostRow, Numbered, Booked, WithinSlack, Exact, Linked, Clashes;
    if n > 0 {
      DepreciationRunKeeps(s, tenant, asOf, now, n - 1, exact);
      var t := RunTo(s, tenant, asOf, now, n - 1).register;
      if IsPending(t, n - 1, tenant, asOf) && !Clashes(t, n - 1) {
        DepreciateKeeps(t, n - 1, now, exact);
        PostRowEffect(t, n - 1, now);
        PostRowNumbered(t, n - 1, now);
        PostRowBooked(t, n - 1, now);
      }
    }
  }

  lemma {:induction false} DepreciateInv(s: AssetBooks, tenant: nat, asOf: int, now: int, exact: bool)
    requires Inv(s, exact)
    ensures Inv(RunTo(s, tenant, asOf, now, |s.schedules|).register, exact)
  {
    hide RunTo, Sound, Numbered, Booked, MonthOf, Labelled, UniqueNumbers;
    var t := RunTo(s, tenant, asOf, now, |s.schedules|).register;
    RunKeepsNumbers(s, tenant, asOf, now, |s.schedules|);
    DepreciationRunKeeps(s, tenant, asOf, now, |s.schedules|, exact);
    RunPosts(s, tenant, asOf, now, |s.schedules|);
    LayoutSame(s.assets, s.schedules, t.schedules);
  }

  lemma PostInv(s: AssetBooks, tenant: nat, date: int, ls: seq<LineInput>, now: int, exact: bool)
    requires Inv(s, exact) && JournalEntries.CreateError(s.books, tenant, date, ls) == None
    requires exact ==> KeepsBalance(ls)
    ensures Inv(s.(books := Posted(s.books, tenant, date, ls, now)), exact)
  {
    hide Numbered, Booked, Layout, NextNumber, WithinSlack, Exact, Labelled, UniqueNumbers;
    NextNumberFree(s, "JE", tenant, date);
    AppendUnique(s.books.entries, Entry(tenant, NextNumber("JE", s.books.entries, tenant, date), date, None));
    GrowLabelled(s, s.(books := Posted(s.books, tenant, date, ls, now)));
    PostKeeps(s.books, tenant, date, ls, now, exact);
    AppendNumbered(s, "JE", tenant, date, Stored(ls, tenant, |s.books.entries|, now));
    StoredRows(s.books, tenant, ls, now);
    AppendKeeps(s.books, Entry(tenant, NextNumber("JE", s.books.entries, tenant, date), date, None),
                Stored(ls, tenant, |s.books.entries|, now));
    GrowBooked(s, s.(books := Posted(s.books, tenant, date, ls, now)));
  }

  lemma ReverseInv(s: AssetBooks, tenant: nat, original: nat, date: int, now: int, exact: bool)
    requires Inv(s, exact) && ReversalError(s.books, tenant, original, date) == None
    ensures Inv(s.(books := Reversed(s.books, tenant, original, date, now)), exact)
  {
    hide Numbered, Booked, Layout, NextNumber, WithinSlack, Exact, Labelled, UniqueNumbers;
    NextNumberFree(s, "REV", tenant, date);
    ReversedUnique(s.books, tenant, original, date, now);
    GrowLabelled(s, s.(books := Reversed(s.books, tenant, original, date, now)));
    var lines := LinesOf(s.books.lines, original);
    ReverseKeeps(s.books, tenant, original, date, now, exact);
    ReversedNumbered(s, tenant, original, date, now);
    InvertedRows(s.books, tenant, lines, now);
    AppendKeeps(s.books, Entry(tenant, NextNumber("REV", s.books.entries, tenant, date), date, None),
                Inverted(lines, tenant, |s.books.entries|, now));
    GrowBooked(s, s.(books := Reversed(s.books, tenant, original, date, now)));
  }

  lemma ReversedUnique(b: Books, tenant: nat, original: nat, date: int, now: int)
    requires UniqueNumbers(b.entries) && original < |b.entries|
    requires !NumberTaken(b.entries, tenant, NextNumber("REV", b.entries, tenant, date))
    ensures UniqueNumbers(Reversed(b, tenant, original, date, now).entries)
  {
    hide NextNumber;
    AppendUnique(b.entries, Entry(tenant, NextNumber("REV", b.entries, tenant, date), date, None));
  }

  lemma BuyInv(s: AssetBooks, a: FixedAsset, exact: bool)
    requires Inv(s, exact) && !CodeTaken(s.assets, a.tenant, a.code)
    ensures Inv(Added(s, a), exact)
  {
    hide Numbered, Booked, Layout, Sound, Instalments, Labelled, UniqueNumbers;
    var t := Added(s, a);
    GrowLabelled(s, t);
    AddedLayout(s, a);
    GrowNumbered(s, t);
    GrowBooked(s, t);
    assert PostedInOrder(t.schedules) by {
      assert forall j :: |s.schedules| <= j < |t.schedules| ==> !t.schedules[j].Posted();
    }
  }

  lemma OtherInv(s: AssetBooks, accounts: seq<Account>, periods: seq<Period>, exact: bool)
    requires Inv(s, exact) && s.books.accounts <= accounts
    ensures Inv(s.(books := s.books.(accounts := accounts, periods := periods)), exact)
  {
    hide Layout, Numbered, Booked, Labelled, UniqueNumbers;
    var t := s.(books := s.books.(accounts := accounts, periods := periods));
    GrowNumbered(s, t);
    GrowLabelled(s, t);
    GrowBooked(s, t);
  }

  lemma {:induction false} RunKeeps(events: seq<Event>, exact: bool)
    requires exact ==> ExactPosts(events)
    ensures Inv(Run(events), exact)
  {
    hide Inv, PostRow, Added;
    if events == [] {
      EmptyInv(exact);
    } else {
      var s, e := Run(events[..|events| - 1]), events[|events| - 1];
      RunKeeps(events[..|events| - 1], exact);
      match e
      case OpenAccounts(accounts) => OtherInv(s, s.books.accounts + accounts, s.books.periods, exact);
      case SetPeriods(periods) => OtherInv(s, s.books.accounts, periods, exact);
      case Post(tenant, date, ls, now) =>
        if JournalEntries.CreateError(s.books, tenant, date, ls).None? { PostInv(s, tenant, date, ls, now, exact); }
      case Reverse(tenant, original, date, now) =>
        if ReversalError(s.books, tenant, original, date).None? { ReverseInv(s, tenant, original, date, now, exact); }
      case Buy(a) => if !CodeTaken(s.assets, a.tenant, a.code) { BuyInv(s, a, exact); }
      case Depreciate(tenant, asOf, now) => DepreciateInv(s, tenant, asOf, now, exact);
    }
  }

  lemma EmptyInv(exact: bool)
    ensures Inv(Run([]), exact)
  {
  }

  // ---- whose accounts the lines are on ----

  /** Assets and lines are on active accounts of their own tenant. */
  ghost predicate OwnInv(s: AssetBooks) {
    && Linked(s.books) && Owned(s.books.accounts, s.books.lines)
    && (forall i :: 0 <= i < |s.schedules| ==> s.schedules[i].asset < |s.assets|)
    && forall i :: 0 <= i < |s.assets| ==>
         && Own(s.books.accounts, s.assets[i].tenant, s.assets[i].expenseAccount)
         && Own(s.books.accounts, s.assets[i].tenant, s.assets[i].depreciationAccount)
  }

  lemma {:induction false} DepreciationRunOwned(s: AssetBooks, tenant: nat, asOf: int, now: int, n: nat)
    requires n <= |s.schedules| && OwnInv(s)
    ensures OwnInv(RunTo(s, tenant, asOf, now, n).register)
  {
    hide OwnInv, PostRow, Clashes;
    if n > 0 {
      DepreciationRunOwned(s, tenant, asOf, now, n - 1);
      var t := RunTo(s, tenant, asOf, now, n - 1).register;
      if IsPending(t, n - 1, tenant, asOf) { PostRowOwned(t, n - 1, now); }
    }
  }

  lemma PostRowOwned(s: AssetBooks, i: nat, now: int)
    requires OwnInv(s) && i < |s.schedules| && s.schedules[i].asset < |s.assets|
    ensures OwnInv(PostRow(s, i, now))
  {
    hide DepreciationNumber, MonthOf;
  }

  lemma OpenOwned(s: AssetBooks, accounts: seq<Account>)
    requires OwnInv(s)
    ensures OwnInv(s.(books := s.books.(accounts := s.books.accounts + accounts)))
  {
  }

  lemma BuyOwned(s: AssetBooks, a: FixedAsset)
    requires OwnInv(s)
    requires Own(s.books.accounts, a.tenant, a.expenseAccount)
    requires Own(s.books.accounts, a.tenant, a.depreciationAccount)
    ensures OwnInv(Added(s, a))
  {
    hide Instalments;
  }

  lemma PostOwned(s: AssetBooks, tenant: nat, date: int, ls: seq<LineInput>, now: int)
    requires OwnInv(s) && JournalEntries.CreateError(s.books, tenant, date, ls) == None
    ensures OwnInv(s.(books := Posted(s.books, tenant, date, ls, now)))
  {
    hide NextNumber;
    AcceptedOneSided(s.books.accounts, tenant, ls);
    StoredRows(s.books, tenant, ls, now);
  }

  lemma ReverseOwned(s: AssetBooks, tenant: nat, original: nat, date: int, now: int)
    requires OwnInv(s) && ReversalError(s.books, tenant, original, date) == None
    ensures OwnInv(s.(books := Reversed(s.books, tenant, original, date, now)))
  {
    hide NextNumber;
    var lines := LinesOf(s.books.lines, original);
    forall i | 0 <= i < |lines|
      ensures lines[i].tenant == tenant && Own(s.books.accounts, lines[i].tenant, lines[i].account)
    {
      assert lines[i] in s.books.lines && lines[i].entry == original;
    }
    InvertedRows(s.books, tenant, lines, now);
  }

  /** What the checks on posted accounts keep true, provided assets are bought on own accounts. */
  lemma {:induction false} RunOwned(events: seq<Event>)
    requires OwnAssetAccounts(events)
    ensures OwnInv(Run(events))
  {
    hide OwnInv, PostRow, Added;
    if events == [] {
      NothingOwned();
    } else {
      var s, e := Run(events[..|events| - 1]), events[|events| - 1];
      RunOwned(events[..|events| - 1]);
      match e
      case OpenAccounts(accounts) => OpenOwned(s, accounts);
      case SetPeriods(periods) => PeriodsOwned(s, periods);
      case Post(tenant, date, ls, now) =>
        if JournalEntries.CreateError(s.books, tenant, date, ls).None? { PostOwned(s, tenant, date, ls, now); }
      case Reverse(tenant, original, date, now) =>
        if ReversalError(s.books, tenant, original, date).None? { ReverseOwned(s, tenant, original, date, now); }
      case Buy(a) => if !CodeTaken(s.assets, a.tenant, a.code) { BuyOwned(s, a); }
      case Depreciate(tenant, asOf, now) => DepreciationRunOwned(s, tenant, asOf, now, |s.schedules|);
    }
  }

  lemma NothingOwned()
    ensures OwnInv(Run([]))
  {
  }

  lemma PeriodsOwned(s: AssetBooks, periods: seq<Period>)
    requires OwnInv(s)
    ensures OwnInv(s.(books := s.books.(periods := periods)))
  {
  }

  // ---- what holds after any run ----

  /** After any run, in any window, the trial balance is off by no more than the rounding slack of the
      entries it covers, whatever the absolute-value split does; it balances when every balanced request is
      stored balanced. */
  lemma {:induction false} TrialBalanceOfRun(events: seq<Event>, tenant: nat, w: Window)
    requires OwnAssetAccounts(events)
    ensures var b := Run(events).books;
            var tb := GetTrialBalance(b, tenant, w);
            && -SumSlack(b, tenant, w, |b.entries|) <= tb.debit - tb.credit <= SumSlack(b, tenant, w, |b.entries|)
            && (ExactPosts(events) ==> tb.isBalanced)
  {
    hide Run, GetTrialBalance, SumSlack, SumEntryNets;
    var exact := ExactPosts(events);
    var b := Run(events).books;
    RunKeeps(events, exact);
    RunOwned(events);
    TotalsFollowLines(b, tenant, w);
    NetByEntry(b, |b.lines|, tenant, w);
    assert b.lines[..|b.lines|] == b.lines;
    NetsWithinSlack(b, tenant, w, |b.entries|, exact);
  }

  /** So it does after every run whose requests are in whole cents or of two lines. */
  lemma {:induction false} BalancedAfterPlainPosts(events: seq<Event>, tenant: nat, w: Window)
    requires OwnAssetAccounts(events)
    requires forall i :: 0 <= i < |events| && events[i].Post? ==> WholeLines(events[i].ls) || |events[i].ls| == 2
    ensures GetTrialBalance(Run(events).books, tenant, w).isBalanced
  {
    hide Run, GetTrialBalance, SumSlack, KeepsBalance, WholeLines, OwnAssetAccounts;
    forall i | 0 <= i < |events| && events[i].Post?
      ensures KeepsBalance(events[i].ls)
    {
      if |events[i].ls| == 2 { TwoLinesKeepBalance(events[i].ls); } else { WholeLinesStoredExactly(events[i].ls); }
    }
    TrialBalanceOfRun(events, tenant, w);
  }

  /** No two entries of a tenant ever get the same number, and the number of the next posting or reversal is never
      taken: the index on entry numbers refuses neither. */
  lemma {:induction false} NumbersUniqueInRun(events: seq<Event>, tenant: nat, date: int)
    ensures var entries := Run(events).books.entries;
            && UniqueNumbers(entries)
            && !NumberTaken(entries, tenant, NextNumber("JE", entries, tenant, date))
            && !NumberTaken(entries, tenant, NextNumber("REV", entries, tenant, date))
  {
    hide Run, Numbered, Layout, UniqueNumbers, NextNumber, NumberTaken;
    RunKeeps(events, false);
    NextNumberFree(Run(events), "JE", tenant, date);
    NextNumberFree(Run(events), "REV", tenant, date);
  }

  /** After any run, the index ends a depreciation run exactly when some due row falls in a year outside 0 to 9999
      in which its asset has an earlier row; otherwise the run posts every due row. */
  lemma {:induction false} DepreciationRefused(events: seq<Event>, tenant: nat, asOf: int, now: int)
    requires var rows := Run(events).schedules;
             forall i :: 0 <= i < |rows| ==> -1000000 < MonthOf(rows[i].date) / 12 < 1000000
    ensures var s := Run(events);
            RunTo(s, tenant, asOf, now, |s.schedules|).reached < |s.schedules|
            <==> exists i: nat, j: nat :: i < j < |s.schedules| && SameLateYear(s, i, j, tenant, asOf)
  {
    hide Run, Numbered, Labelled, UniqueNumbers, RunTo, Sound, Booked, IsoMonth, MonthOf, SameLateYear, Conflict;
    var s := Run(events);
    RunKeeps(events, false);
    RunGetsThrough(s, tenant, asOf, now, |s.schedules|);
    forall i: nat, j: nat | i < j < |s.schedules|
      ensures Conflict(s, i, j, tenant, asOf) <==> SameLateYear(s, i, j, tenant, asOf)
    {
      ConflictIsLateYear(s, i, j, tenant, asOf);
    }
  }

  /** Two rows of an asset in one year outside 0 to 9999, the second due. */
  ghost predicate SameLateYear(s: AssetBooks, i: nat, j: nat, tenant: nat, asOf: int)
    requires i < j < |s.schedules|
  {
    var year := MonthOf(s.schedules[j].date) / 12;
    && s.schedules[i].asset == s.schedules[j].asset && IsPending(s, j, tenant, asOf)
    && MonthOf(s.schedules[i].date) / 12 == year && !(0 <= year <= 9999)
  }

  lemma ConflictIsLateYear(s: AssetBooks, i: nat, j: nat, tenant: nat, asOf: int)
    requires i < j < |s.schedules| && Layout(s.assets, s.schedules)
    requires -1000000 < MonthOf(s.schedules[i].date) / 12 < 1000000
    requires -1000000 < MonthOf(s.schedules[j].date) / 12 < 1000000
    ensures Conflict(s, i, j, tenant, asOf) <==> SameLateYear(s, i, j, tenant, asOf)
  {
    hide IsoMonth, MonthOf;
    IsoMonthEqual(MonthOf(s.schedules[i].date), MonthOf(s.schedules[j].date));
  }

  /** After any run, the posted rows of an asset are those up to some date, and their entries have debited the
      `accumulated` of the last to the asset's own expense account, credited the same to its accumulated
      depreciation, and touched no other account. */
  lemma {:induction false} DepreciationInRun(events: seq<Event>, asset: nat, account: nat)
    requires asset < |Run(events).assets|
    ensures var s := Run(events);
            var last := LastPosted(s.schedules, asset);
            && DatePrefix(s.schedules)
            && DebitBooked(s.books.lines, s.schedules, asset, account)
               == (if account == s.assets[asset].expenseAccount then last else 0)
            && CreditBooked(s.books.lines, s.schedules, asset, account)
               == (if account == s.assets[asset].depreciationAccount then last else 0)
  {
    hide Run, MonthOf, Sound, Numbered, LastPosted, SumPosted, DebitBooked, CreditBooked;
    var s := Run(events);
    RunKeeps(events, false);
    BookedIsSumPosted(s, |s.schedules|, asset, account);
    assert s.schedules[..|s.schedules|] == s.schedules;
    PostedIsLastAccumulated(s.schedules, asset);
  }
}
