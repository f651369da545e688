/** What depreciation keeps true of the asset register, its schedules and the numbers of the entries. */
module AssetRegister {
  import opened Schema
  import opened Calendar
  import opened Numbers
  import opened JournalEntries
  import opened FixedAssets
  import opened LedgerBooks
  import opened GeneralLedger

  // ---- what the depreciation schedules keep ----

  /** The amounts of an asset's rows. */
  function SumOf(rows: seq<Schedule>, asset: nat): int {
    if rows == [] then 0
    else SumOf(rows[..|rows| - 1], asset)
         + if rows[|rows| - 1].asset == asset then rows[|rows| - 1].amount else 0
  }

  /** Asset codes are unique, the rows of an asset fall in ever later months, and each row's
      `accumulated` is the sum of the asset's instalments so far. */
  ghost predicate Layout(assets: seq<FixedAsset>, rows: seq<Schedule>) {
    && (forall i, j :: 0 <= i < j < |assets| ==>
          assets[i].tenant != assets[j].tenant || assets[i].code != assets[j].code)
    && (forall i :: 0 <= i < |rows| ==> rows[i].asset < |assets|)
    && (forall i, j :: 0 <= i < j < |rows| && rows[i].asset == rows[j].asset ==>
          MonthOf(rows[i].date) < MonthOf(rows[j].date) && rows[i].date < rows[j].date)
    && (forall i :: 0 <= i < |rows| ==> rows[i].accumulated == SumOf(rows[..i + 1], rows[i].asset))
  }

  /** The rows of an asset are posted from the first on, without a gap. */
  ghost predicate PostedInOrder(rows: seq<Schedule>) {
    forall i, j :: 0 <= i < j < |rows| && rows[i].asset == rows[j].asset && rows[j].Posted() ==> rows[i].Posted()
  }

  /** The posted rows of an asset are those up to some date. */
  ghost predicate DatePrefix(rows: seq<Schedule>) {
    forall i, j ::
      && 0 <= i < |rows| && 0 <= j < |rows|
      && rows[i].asset == rows[j].asset && rows[i].date <= rows[j].date && rows[j].Posted()
      ==> rows[i].Posted()
  }

  /** Posting a row changes only its link. */
  ghost predicate SameSchedule(rows: seq<Schedule>, rows': seq<Schedule>) {
    && |rows| == |rows'|
    && forall i :: 0 <= i < |rows| ==> rows'[i] == rows[i].(entry := rows'[i].entry)
  }

  lemma {:induction false} SumOfSame(rows: seq<Schedule>, rows': seq<Schedule>, asset: nat)
    requires SameSchedule(rows, rows')
    ensures SumOf(rows, asset) == SumOf(rows', asset)
  {
    if rows != [] {
      SumOfSame(rows[..|rows| - 1], rows'[..|rows| - 1], asset);
    }
  }

  lemma LayoutSame(assets: seq<FixedAsset>, rows: seq<Schedule>, rows': seq<Schedule>)
    requires Layout(assets, rows) && SameSchedule(rows, rows')
    ensures Layout(assets, rows')
  {
    forall i | 0 <= i < |rows|
      ensures rows'[i].accumulated == SumOf(rows'[..i + 1], rows'[i].asset)
    {
      SumOfSame(rows[..i + 1], rows'[..i + 1], rows[i].asset);
    }
  }

  lemma {:induction false} SumOfNewAsset(rows: seq<Schedule>, more: seq<Schedule>, asset: nat)
    requires forall i :: 0 <= i < |rows| ==> rows[i].asset != asset
    requires forall i :: 0 <= i < |more| ==> more[i].asset == asset
    ensures SumOf(rows + more, asset) == Sum(more)
  {
    if more != [] {
      SumOfNewAsset(rows, more[..|more| - 1], asset);
      assert (rows + more)[..|rows + more| - 1] == rows + more[..|more| - 1];
    } else if rows != [] {
      assert rows + more == rows;
      SumOfNewAsset(rows[..|rows| - 1], [], asset);
      assert rows[..|rows| - 1] + [] == rows[..|rows| - 1];
    }
  }

  lemma NewMonthsIncrease(asset: nat, amount: int, life: int, purchased: int, i: nat, j: nat)
    requires i < j < |Instalments(asset, amount, life, purchased)|
    ensures var rows := Instalments(asset, amount, life, purchased);
            MonthOf(rows[i].date) < MonthOf(rows[j].date) && rows[i].date < rows[j].date
  {
    hide MonthOf, AddMonth, MonthStart, MonthsAfter;
    MonthsIncrease(purchased, i + 1, j + 1);
  }

  lemma {:induction false} NewAccumulated(before: seq<Schedule>, asset: nat, amount: int, life: int, purchased: int,
                                          k: nat)
    requires forall i :: 0 <= i < |before| ==> before[i].asset != asset
    requires k < |Instalments(asset, amount, life, purchased)|
    ensures var more := Instalments(asset, amount, life, purchased);
            more[k].accumulated == SumOf((before + more)[..|before| + k + 1], asset)
  {
    var more := Instalments(asset, amount, life, purchased);
    assert (before + more)[..|before| + k + 1] == before + more[..k + 1];
    SumOfNewAsset(before, more[..k + 1], asset);
    AccumulatedIsPrefixSum(asset, amount, life, purchased, k);
  }

  /** A new asset's schedule fits in behind the others. */
  lemma AddedLayout(s: AssetBooks, a: FixedAsset)
    requires Layout(s.assets, s.schedules) && !CodeTaken(s.assets, a.tenant, a.code)
    ensures Layout(Added(s, a).assets, Added(s, a).schedules)
  {
    hide MonthOf, Instalments, SumOf;
    var asset, amount, n := |s.assets|, a.price - a.salvage, |s.schedules|;
    var more := Instalments(asset, amount, a.life, a.purchased);
    AddedMonths(s.assets, s.schedules, amount, a.life, a.purchased);
    AddedAccumulates(s.assets, s.schedules, amount, a.life, a.purchased);
  }

  lemma AddedMonths(assets: seq<FixedAsset>, before: seq<Schedule>, amount: int, life: int, purchased: int)
    requires Layout(assets, before)
    ensures var rows := before + Instalments(|assets|, amount, life, purchased);
            forall i, j :: 0 <= i < j < |rows| && rows[i].asset == rows[j].asset ==>
              MonthOf(rows[i].date) < MonthOf(rows[j].date) && rows[i].date < rows[j].date
  {
    hide MonthOf, Instalments, SumOf;
    var rows, n := before + Instalments(|assets|, amount, life, purchased), |before|;
    forall i, j | 0 <= i < j < |rows| && rows[i].asset == rows[j].asset
      ensures MonthOf(rows[i].date) < MonthOf(rows[j].date) && rows[i].date < rows[j].date
    {
      if n <= i {
        NewMonthsIncrease(|assets|, amount, life, purchased, i - n, j - n);
      } else {
        assert j < n;
      }
    }
  }

  lemma AddedAccumulates(assets: seq<FixedAsset>, before: seq<Schedule>, amount: int, life: int, purchased: int)
    requires Layout(assets, before)
    ensures var rows := before + Instalments(|assets|, amount, life, purchased);
            forall i :: 0 <= i < |rows| ==> rows[i].accumulated == SumOf(rows[..i + 1], rows[i].asset)
  {
    hide MonthOf, Instalments;
    var rows := before + Instalments(|assets|, amount, life, purchased);
    forall i | 0 <= i < |rows|
      ensures rows[i].accumulated == SumOf(rows[..i + 1], rows[i].asset)
    {
      if i < |before| {
        assert rows[..i + 1] == before[..i + 1];
      } else {
        NewAccumulated(before, |assets|, amount, life, purchased, i - |before|);
      }
    }
  }

  lemma PostRowEffect(s: AssetBooks, i: nat, now: int)
    requires i < |s.schedules| && s.schedules[i].asset < |s.assets|
    ensures var t := PostRow(s, i, now);
            && t.assets == s.assets && t.books.accounts == s.books.accounts
            && t.schedules == s.schedules[i := s.schedules[i].(entry := Some(|s.books.entries|))]
  {
    hide MonthOf, DepreciationNumber;
  }

  /** The rows due in a run, among the first n. */
  ghost predicate Due(s: AssetBooks, i: nat, tenant: nat, asOf: int, n: nat)
    requires i < |s.schedules| && s.schedules[i].asset < |s.assets|
  {
    i < n && s.assets[s.schedules[i].asset].tenant == tenant && s.schedules[i].date <= asOf
  }

  /** A run posts exactly the tenant's rows due by its date, up to where it ends, and changes no row otherwise. */
  lemma {:induction false} RunPosts(s: AssetBooks, tenant: nat, asOf: int, now: int, n: nat)
    requires n <= |s.schedules| && forall i :: 0 <= i < |s.schedules| ==> s.schedules[i].asset < |s.assets|
    ensures var p := RunTo(s, tenant, asOf, now, n);
            var t := p.register;
            && t.assets == s.assets && t.books.accounts == s.books.accounts
            && SameSchedule(s.schedules, t.schedules)
            && forall i :: 0 <= i < |s.schedules| ==>
                 (t.schedules[i].Posted() <==> s.schedules[i].Posted() || Due(s, i, tenant, asOf, p.reached))
  {
    hide PostRow, Clashes;
    if n > 0 {
      RunPosts(s, tenant, asOf, now, n - 1);
      var t := RunTo(s, tenant, asOf, now, n - 1).register;
      if IsPending(t, n - 1, tenant, asOf) {
        PostRowEffect(t, n - 1, now);
      }
    }
  }

  /** Whatever was posted, the last posted row's `accumulated` is the expense booked for the asset. */
  function SumPosted(rows: seq<Schedule>, asset: nat): int {
    if rows == [] then 0
    else
      var row := rows[|rows| - 1];
      SumPosted(rows[..|rows| - 1], asset) + if row.asset == asset && row.Posted() then row.amount else 0
  }

  function LastPosted(rows: seq<Schedule>, asset: nat): int {
    if rows == [] then 0
    else
      var row := rows[|rows| - 1];
      if row.asset == asset && row.Posted() then row.accumulated else LastPosted(rows[..|rows| - 1], asset)
  }

  lemma {:induction false} AllPosted(rows: seq<Schedule>, asset: nat)
    requires forall i :: 0 <= i < |rows| && rows[i].asset == asset ==> rows[i].Posted()
    ensures SumPosted(rows, asset) == SumOf(rows, asset)
  {
    if rows != [] {
      AllPosted(rows[..|rows| - 1], asset);
    }
  }

  lemma {:induction false} PostedIsLastAccumulated(rows: seq<Schedule>, asset: nat)
    requires PostedInOrder(rows)
    requires forall i :: 0 <= i < |rows| ==> rows[i].accumulated == SumOf(rows[..i + 1], rows[i].asset)
    ensures SumPosted(rows, asset) == LastPosted(rows, asset)
  {
    if rows != [] {
      var last := |rows| - 1;
      if rows[last].asset == asset && rows[last].Posted() {
        AllPosted(rows, asset);
        assert rows[..last + 1] == rows;
      } else {
        forall i | 0 <= i < last
          ensures rows[..last][i].accumulated == SumOf(rows[..last][..i + 1], rows[i].asset)
        {
          assert rows[..last][..i + 1] == rows[..i + 1];
        }
        PostedIsLastAccumulated(rows[..last], asset);
      }
    }
  }

  /** Depreciation entries are written unchecked but balanced. */
  lemma DepreciateKeeps(s: AssetBooks, i: nat, now: int, exact: bool)
    requires Sound(s.books, exact)
    requires i < |s.schedules| && s.schedules[i].asset < |s.assets|
    ensures Sound(PostRow(s, i, now).books, exact)
  {
    var row, a := s.schedules[i], s.assets[s.schedules[i].asset];
    var rows := DepreciationLines(a, row.amount, |s.books.entries|, now);
    assert rows[..1][..0] == [] && rows[..1] == [rows[0]];
    assert Net(rows) == Net(rows[..1]) - row.amount;
    AppendSound(s.books, Entry(a.tenant, DepreciationNumber(a.code, MonthOf(row.date)), row.date, None), rows, exact);
  }

  // ---- what the entry numbers keep ----

  ghost predicate JournalNumber(entries: seq<Entry>, e: nat)
    requires e < |entries|
  {
    var year := YearOf(entries[e].date);
    var n := CountYear(entries[..e], entries[e].tenant, year) + 1;
    entries[e].number == EntryNumber("JE", year, n) || entries[e].number == EntryNumber("REV", year, n)
  }

  ghost predicate NumberedBy(s: AssetBooks, e: nat, i: nat)
    requires e < |s.books.entries|
  {
    && i < |s.schedules| && s.schedules[i].entry == Some(e) && s.schedules[i].asset < |s.assets|
    && var a := s.assets[s.schedules[i].asset];
       && s.books.entries[e].tenant == a.tenant
       && s.books.entries[e].number == DepreciationNumber(a.code, MonthOf(s.schedules[i].date))
  }

  /** An entry carries either the number its position in the year gives it or the number of the schedule
      row it posted. */
  ghost predicate Numbered(s: AssetBooks) {
    forall e: nat :: e < |s.books.entries| ==>
      JournalNumber(s.books.entries, e) || exists i: nat :: NumberedBy(s, e, i)
  }

  /** Linking a reversal changes nothing a number depends on. */
  ghost predicate SameEntries(entries: seq<Entry>, entries': seq<Entry>) {
    && |entries| == |entries'|
    && forall e :: 0 <= e < |entries| ==> entries'[e] == entries[e].(reversal := entries'[e].reversal)
  }

  lemma {:induction false} CountSame(entries: seq<Entry>, entries': seq<Entry>, tenant: nat, year: int)
    requires SameEntries(entries, entries')
    ensures CountYear(entries, tenant, year) == CountYear(entries', tenant, year)
  {
    hide YearStart;
    if entries != [] {
      CountSame(entries[..|entries| - 1], entries'[..|entries| - 1], tenant, year);
    }
  }

  lemma {:induction false} CountGrows(entries: seq<Entry>, e: nat, f: nat, tenant: nat, year: int)
    requires e <= f <= |entries|
    ensures CountYear(entries[..e], tenant, year) <= CountYear(entries[..f], tenant, year)
  {
    hide YearStart;
    if e < f {
      CountGrows(entries, e, f - 1, tenant, year);
      assert entries[..f][..f - 1] == entries[..f - 1];
    }
  }

  /** Two journal entries of a tenant never share a number: the count of the year has moved on. */
  lemma JournalNumbersDiffer(entries: seq<Entry>, e: nat, f: nat)
    requires e < f < |entries| && entries[e].tenant == entries[f].tenant
    requires JournalNumber(entries, e) && JournalNumber(entries, f)
    ensures entries[e].number != entries[f].number
  {
    hide EntryNumber, YearOf, YearStart;
    var tenant, y, z := entries[e].tenant, YearOf(entries[e].date), YearOf(entries[f].date);
    var m, n := CountYear(entries[..e], tenant, y) + 1, CountYear(entries[..f], tenant, z) + 1;
    if entries[e].number == entries[f].number {
      var p := if entries[e].number == EntryNumber("JE", y, m) then "JE" else "REV";
      var q := if entries[f].number == EntryNumber("JE", z, n) then "JE" else "REV";
      EntryNumberInjective(p, y, m, q, z, n);
      YearWindow(entries[e].date, y);
      assert entries[..e + 1][..e] == entries[..e];
      CountGrows(entries, e + 1, f, tenant, y);
    }
  }

  ghost predicate UniqueNumbers(entries: seq<Entry>) {
    forall e, f :: 0 <= e < f < |entries| && entries[e].tenant == entries[f].tenant ==>
      entries[e].number != entries[f].number
  }

  /** The number of a new posting or reversal is never taken. */
  lemma NextNumberFree(s: AssetBooks, prefix: string, tenant: nat, date: int)
    requires Numbered(s) && prefix in ["JE", "REV"]
    ensures !NumberTaken(s.books.entries, tenant, NextNumber(prefix, s.books.entries, tenant, date))
  {
    hide MonthOf, DepreciationNumber, EntryNumber, YearOf, CountYear;
    var entries, n := s.books.entries, |s.books.entries|;
    var entry := Entry(tenant, NextNumber(prefix, entries, tenant, date), date, None);
    assert (entries + [entry])[..n] == entries;
    forall e: nat | e < n && entries[e].tenant == tenant
      ensures entries[e].number != entry.number
    {
      if JournalNumber(entries, e) {
        AppendKeepsNumber(entries, entry, e);
        JournalNumbersDiffer(entries + [entry], e, n);
      } else {
        var i: nat :| NumberedBy(s, e, i);
        SeriesDisjoint(prefix, YearOf(date), CountYear(entries, tenant, YearOf(date)) + 1,
                       s.assets[s.schedules[i].asset].code, MonthOf(s.schedules[i].date));
      }
    }
  }

  lemma AppendUnique(entries: seq<Entry>, entry: Entry)
    requires UniqueNumbers(entries) && !NumberTaken(entries, entry.tenant, entry.number)
    ensures UniqueNumbers(entries + [entry])
  {
  }

  // Each way of extending the register keeps every entry numbered.

  lemma AppendKeepsNumber(entries: seq<Entry>, entry: Entry, e: nat)
    requires e < |entries| && JournalNumber(entries, e)
    ensures JournalNumber(entries + [entry], e)
  {
    hide EntryNumber, YearOf, CountYear;
    assert (entries + [entry])[..e] == entries[..e];
  }

  lemma AppendNumbered(s: AssetBooks, prefix: string, tenant: nat, date: int, rows: seq<Line>)
    requires Numbered(s) && prefix in ["JE", "REV"]
    ensures var entry := Entry(tenant, NextNumber(prefix, s.books.entries, tenant, date), date, None);
            Numbered(s.(books := Append(s.books, entry, rows)))
  {
    hide EntryNumber, YearOf, CountYear, MonthOf, DepreciationNumber;
    var entry := Entry(tenant, NextNumber(prefix, s.books.entries, tenant, date), date, None);
    var t := s.(books := Append(s.books, entry, rows));
    forall e: nat | e < |t.books.entries|
      ensures JournalNumber(t.books.entries, e) || exists i: nat :: NumberedBy(t, e, i)
    {
      if e == |s.books.entries| {
        assert t.books.entries[..e] == s.books.entries;
      } else if JournalNumber(s.books.entries, e) {
        AppendKeepsNumber(s.books.entries, entry, e);
      } else {
        var i: nat :| NumberedBy(s, e, i);
        assert NumberedBy(t, e, i);
      }
    }
  }

  lemma LinkNumbered(s: AssetBooks, t: AssetBooks)
    requires Numbered(s) && SameEntries(s.books.entries, t.books.entries)
    requires t.assets == s.assets && t.schedules == s.schedules
    ensures Numbered(t)
  {
    hide EntryNumber, YearOf, CountYear, MonthOf, DepreciationNumber;
    var entries, entries' := s.books.entries, t.books.entries;
    forall e: nat | e < |entries'|
      ensures JournalNumber(entries', e) || exists i: nat :: NumberedBy(t, e, i)
    {
      if JournalNumber(entries, e) {
        CountSame(entries[..e], entries'[..e], entries[e].tenant, YearOf(entries[e].date));
      } else {
        var i: nat :| NumberedBy(s, e, i);
        assert NumberedBy(t, e, i);
      }
    }
  }

  lemma ReversedNumbered(s: AssetBooks, tenant: nat, original: nat, date: int, now: int)
    requires Numbered(s) && ReversalError(s.books, tenant, original, date) == None
    ensures Numbered(s.(books := Reversed(s.books, tenant, original, date, now)))
  {
    hide EntryNumber, YearOf, CountYear, Numbered;
    var rows := Inverted(LinesOf(s.books.lines, original), tenant, |s.books.entries|, now);
    AppendNumbered(s, "REV", tenant, date, rows);
    var entry := Entry(tenant, NextNumber("REV", s.books.entries, tenant, date), date, None);
    LinkNumbered(s.(books := Append(s.books, entry, rows)),
                 s.(books := Reversed(s.books, tenant, original, date, now)));
  }

  lemma PostRowNumbered(s: AssetBooks, i: nat, now: int)
    requires Numbered(s) && i < |s.schedules| && s.schedules[i].asset < |s.assets| && !s.schedules[i].Posted()
    ensures Numbered(PostRow(s, i, now))
  {
    hide EntryNumber, YearOf, CountYear, MonthOf, DepreciationNumber;
    var t := PostRow(s, i, now);
    forall e: nat | e < |t.books.entries|
      ensures JournalNumber(t.books.entries, e) || exists j: nat :: NumberedBy(t, e, j)
    {
      if e == |s.books.entries| {
        assert NumberedBy(t, e, i);
      } else if JournalNumber(s.books.entries, e) {
        AppendKeepsNumber(s.books.entries, t.books.entries[|s.books.entries|], e);
      } else {
        var j: nat :| NumberedBy(s, e, j);
        assert NumberedBy(t, e, j);
      }
    }
  }

  lemma GrowNumbered(s: AssetBooks, t: AssetBooks)
    requires Numbered(s) && t.books.entries == s.books.entries && s.assets <= t.assets && s.schedules <= t.schedules
    ensures Numbered(t)
  {
    hide JournalNumber, MonthOf, DepreciationNumber;
    forall e: nat | e < |t.books.entries|
      ensures JournalNumber(t.books.entries, e) || exists i: nat :: NumberedBy(t, e, i)
    {
      if !JournalNumber(s.books.entries, e) {
        var i: nat :| NumberedBy(s, e, i);
        assert NumberedBy(t, e, i);
      }
    }
  }

  /** A posted row's entry carries the row's number. */
  ghost predicate Labelled(s: AssetBooks) {
    forall i: nat :: i < |s.schedules| && s.schedules[i].Posted() ==>
      s.schedules[i].entry.value < |s.books.entries| && NumberedBy(s, s.schedules[i].entry.value, i)
  }

  lemma GrowLabelled(s: AssetBooks, t: AssetBooks)
    requires Labelled(s) && |s.books.entries| <= |t.books.entries| && s.assets <= t.assets
    requires forall e :: 0 <= e < |s.books.entries| ==>
               t.books.entries[e] == s.books.entries[e].(reversal := t.books.entries[e].reversal)
    requires forall i: nat :: i < |t.schedules| && t.schedules[i].Posted() ==>
               i < |s.schedules| && t.schedules[i] == s.schedules[i]
    ensures Labelled(t)
  {
    hide MonthOf, DepreciationNumber;
  }

  lemma PostRowLabelled(s: AssetBooks, i: nat, now: int)
    requires Labelled(s) && i < |s.schedules| && s.schedules[i].asset < |s.assets| && !s.schedules[i].Posted()
    ensures Labelled(PostRow(s, i, now))
  {
    hide MonthOf, DepreciationNumber;
  }

  lemma {:induction false} RunKeepsNumbers(s: AssetBooks, tenant: nat, asOf: int, now: int, n: nat)
    requires n <= |s.schedules| && Numbered(s) && Labelled(s) && UniqueNumbers(s.books.entries)
    ensures var t := RunTo(s, tenant, asOf, now, n).register;
            Numbered(t) && Labelled(t) && UniqueNumbers(t.books.entries)
  {
    hide Numbered, Labelled, UniqueNumbers, MonthOf, DepreciationNumber;
    if n > 0 {
      RunKeepsNumbers(s, tenant, asOf, now, n - 1);
      var t := RunTo(s, tenant, asOf, now, n - 1).register;
      if IsPending(t, n - 1, tenant, asOf) && !Clashes(t, n - 1) {
        PostRowNumbered(t, n - 1, now);
        PostRowLabelled(t, n - 1, now);
        AppendUnique(t.books.entries, PostRow(t, n - 1, now).books.entries[|t.books.entries|]);
      }
    }
  }

  /** Two rows of an asset that get one number, and the second is due. */
  ghost predicate Conflict(s: AssetBooks, i: nat, j: nat, tenant: nat, asOf: int)
    requires i < j < |s.schedules|
  {
    && s.schedules[i].asset == s.schedules[j].asset && IsPending(s, j, tenant, asOf)
    && IsoMonth(MonthOf(s.schedules[i].date)) == IsoMonth(MonthOf(s.schedules[j].date))
  }

  /** Whether a due row clashes depends on the earlier rows of its asset only: they are all posted by then. */
  lemma ClashIsConflict(s: AssetBooks, t: AssetBooks, tenant: nat, asOf: int, j: nat)
    requires Layout(s.assets, s.schedules) && PostedInOrder(s.schedules)
    requires SameSchedule(s.schedules, t.schedules) && t.assets == s.assets && Numbered(t) && Labelled(t)
    requires j < |s.schedules| && IsPending(s, j, tenant, asOf)
    requires forall i :: 0 <= i < |s.schedules| ==>
               (t.schedules[i].Posted() <==> s.schedules[i].Posted() || Due(s, i, tenant, asOf, j))
    ensures Clashes(t, j) <==> exists i: nat :: i < j && Conflict(s, i, j, tenant, asOf)
  {
    hide IsoMonth, MonthOf, DepreciationNumber, JournalNumber, Labelled;
    var entries := t.books.entries;
    if Clashes(t, j) {
      var e: nat :| e < |entries| && entries[e].tenant == tenant && entries[e].number == RowNumber(t, j);
      RowOfClash(t, e, j);
      var i: nat :| NumberedBy(t, e, i);
      DepreciationNumberParts(t.assets[t.schedules[i].asset].code, MonthOf(t.schedules[i].date),
                              t.assets[t.schedules[j].asset].code, MonthOf(t.schedules[j].date));
      assert s.schedules[i].asset == s.schedules[j].asset;
      assert Conflict(s, i, j, tenant, asOf);
    }
    if i: nat :| i < j && Conflict(s, i, j, tenant, asOf) {
      assert Due(s, i, tenant, asOf, j);
      RowTaken(t, i, j);
    }
  }

  lemma RowOfClash(t: AssetBooks, e: nat, j: nat)
    requires Numbered(t) && e < |t.books.entries| && j < |t.schedules| && t.schedules[j].asset < |t.assets|
    requires t.books.entries[e].number == RowNumber(t, j)
    ensures exists i: nat :: NumberedBy(t, e, i)
  {
    hide MonthOf, DepreciationNumber, EntryNumber, YearOf, CountYear;
    if JournalNumber(t.books.entries, e) {
      var year := YearOf(t.books.entries[e].date);
      var n := CountYear(t.books.entries[..e], t.books.entries[e].tenant, year) + 1;
      var a, month := t.assets[t.schedules[j].asset], MonthOf(t.schedules[j].date);
      SeriesDisjoint("JE", year, n, a.code, month);
      SeriesDisjoint("REV", year, n, a.code, month);
    }
  }

  lemma RowTaken(t: AssetBooks, i: nat, j: nat)
    requires Labelled(t) && i < |t.schedules| && j < |t.schedules| && t.schedules[i].Posted()
    requires t.schedules[i].asset == t.schedules[j].asset < |t.assets|
    requires IsoMonth(MonthOf(t.schedules[i].date)) == IsoMonth(MonthOf(t.schedules[j].date))
    ensures Clashes(t, j)
  {
    hide IsoMonth, MonthOf;
    assert NumberedBy(t, t.schedules[i].entry.value, i);
  }

  /** A run over the first n rows gets through exactly when no row due in it has the number of an earlier row of
      its asset. */
  lemma {:induction false} RunGetsThrough(s: AssetBooks, tenant: nat, asOf: int, now: int, n: nat)
    requires Layout(s.assets, s.schedules) && PostedInOrder(s.schedules)
    requires Numbered(s) && Labelled(s) && UniqueNumbers(s.books.entries) && n <= |s.schedules|
    ensures RunTo(s, tenant, asOf, now, n).reached == n
            <==> forall i: nat, j: nat :: i < j < n ==> !Conflict(s, i, j, tenant, asOf)
  {
    hide Numbered, Labelled, UniqueNumbers, MonthOf, IsoMonth, PostRow, Clashes, Conflict, Layout, PostedInOrder,
         Due, SameSchedule, IsPending;
    if n > 0 {
      RunGetsThrough(s, tenant, asOf, now, n - 1);
      var p := RunTo(s, tenant, asOf, now, n - 1);
      AssetsExist(s);
      RunPosts(s, tenant, asOf, now, n - 1);
      if p.reached == n - 1 {
        RunKeepsNumbers(s, tenant, asOf, now, n - 1);
        SamePending(s, p.register, tenant, asOf, n - 1);
        if IsPending(s, n - 1, tenant, asOf) {
          ClashIsConflict(s, p.register, tenant, asOf, n - 1);
        } else {
          NoConflict(s, n - 1, tenant, asOf);
        }
      }
    }
  }

  /** A row that the run has not come to is pending as it was before the run. */
  lemma SamePending(s: AssetBooks, t: AssetBooks, tenant: nat, asOf: int, j: nat)
    requires SameSchedule(s.schedules, t.schedules) && t.assets == s.assets && j < |s.schedules|
    requires forall i :: 0 <= i < |s.schedules| ==> s.schedules[i].asset < |s.assets|
    requires forall i :: 0 <= i < |s.schedules| ==>
               (t.schedules[i].Posted() <==> s.schedules[i].Posted() || Due(s, i, tenant, asOf, j))
    ensures IsPending(t, j, tenant, asOf) <==> IsPending(s, j, tenant, asOf)
  {
    assert t.schedules[j] == s.schedules[j].(entry := t.schedules[j].entry);
  }

  lemma AssetsExist(s: AssetBooks)
    requires Layout(s.assets, s.schedules)
    ensures forall i :: 0 <= i < |s.schedules| ==> s.schedules[i].asset < |s.assets|
  {
  }

  lemma NoConflict(s: AssetBooks, j: nat, tenant: nat, asOf: int)
    requires j < |s.schedules| && !IsPending(s, j, tenant, asOf)
    ensures forall i: nat :: i < j ==> !Conflict(s, i, j, tenant, asOf)
  {
  }

  // ---- what links schedules to the ledger ----

  /** A posted row's entry debits its amount to the asset's expense account and credits it to the
      accumulated depreciation. */
  ghost predicate BookedBy(s: AssetBooks, i: nat, now: int)
    requires i < |s.schedules| && s.schedules[i].Posted()
  {
    var row := s.schedules[i];
    && row.asset < |s.assets| && row.entry.value < |s.books.entries|
    && LinesOf(s.books.lines, row.entry.value)
       == DepreciationLines(s.assets[row.asset], row.amount, row.entry.value, now)
  }

  ghost predicate Booked(s: AssetBooks) {
    forall i: nat :: i < |s.schedules| && s.schedules[i].Posted() ==> exists now :: BookedBy(s, i, now)
  }

  /** Extending the ledger and the register keeps the links. */
  lemma GrowBooked(s: AssetBooks, t: AssetBooks)
    requires Booked(s) && |s.books.entries| <= |t.books.entries| && s.assets <= t.assets
    requires forall e: nat :: e < |s.books.entries| ==> LinesOf(t.books.lines, e) == LinesOf(s.books.lines, e)
    requires forall i: nat :: i < |t.schedules| && t.schedules[i].Posted() ==>
               i < |s.schedules| && t.schedules[i] == s.schedules[i]
    ensures Booked(t)
  {
    hide DepreciationLines;
    forall i: nat | i < |t.schedules| && t.schedules[i].Posted()
      ensures exists now :: BookedBy(t, i, now)
    {
      var now :| BookedBy(s, i, now);
      assert BookedBy(t, i, now);
    }
  }

  lemma PostRowBooked(s: AssetBooks, i: nat, now: int)
    requires Booked(s) && Linked(s.books)
    requires i < |s.schedules| && s.schedules[i].asset < |s.assets| && !s.schedules[i].Posted()
    ensures Booked(PostRow(s, i, now))
  {
    hide MonthOf, DepreciationNumber;
    var t, row := PostRow(s, i, now), s.schedules[i];
    var a := s.assets[row.asset];
    AppendKeeps(s.books, t.books.entries[|s.books.entries|], DepreciationLines(a, row.amount, |s.books.entries|, now));
    forall j: nat | j < |t.schedules| && t.schedules[j].Posted()
      ensures exists when :: BookedBy(t, j, when)
    {
      if j == i {
        assert BookedBy(t, i, now);
      } else {
        var when :| BookedBy(s, j, when);
        assert BookedBy(t, j, when);
      }
    }
  }

  function DebitOn(rows: seq<Line>, account: nat): int {
    if rows == [] then 0
    else
      var l := rows[|rows| - 1];
      DebitOn(rows[..|rows| - 1], account) + if l.account == account then l.debit else 0
  }

  function CreditOn(rows: seq<Line>, account: nat): int {
    if rows == [] then 0
    else
      var l := rows[|rows| - 1];
      CreditOn(rows[..|rows| - 1], account) + if l.account == account then l.credit else 0
  }

  /** What the entries of an asset's posted rows debit to an account, and what they credit to it. */
  function DebitBooked(lines: seq<Line>, rows: seq<Schedule>, asset: nat, account: nat): int {
    if rows == [] then 0
    else
      var row := rows[|rows| - 1];
      DebitBooked(lines, rows[..|rows| - 1], asset, account)
      + if row.asset == asset && row.Posted() then DebitOn(LinesOf(lines, row.entry.value), account) else 0
  }

  function CreditBooked(lines: seq<Line>, rows: seq<Schedule>, asset: nat, account: nat): int {
    if rows == [] then 0
    else
      var row := rows[|rows| - 1];
      CreditBooked(lines, rows[..|rows| - 1], asset, account)
      + if row.asset == asset && row.Posted() then CreditOn(LinesOf(lines, row.entry.value), account) else 0
  }

  /** An entry of depreciation debits nothing but the expense account and credits nothing but the accumulated
      depreciation. */
  lemma {:induction false} DepreciationSides(a: FixedAsset, amount: int, entry: nat, now: int, account: nat)
    ensures var rows := DepreciationLines(a, amount, entry, now);
            && DebitOn(rows, account) == (if account == a.expenseAccount then amount else 0)
            && CreditOn(rows, account) == (if account == a.depreciationAccount then amount else 0)
  {
    hide DebitOn, CreditOn;
    var rows := DepreciationLines(a, amount, entry, now);
    OneMoreSide([], rows[0], account);
    OneMoreSide([rows[0]], rows[1], account);
    assert [] + [rows[0]] == [rows[0]] && [rows[0]] + [rows[1]] == rows;
  }

  lemma {:induction false} OneMoreSide(rows: seq<Line>, l: Line, account: nat)
    ensures DebitOn([], account) == 0 && CreditOn([], account) == 0
    ensures DebitOn(rows + [l], account) == DebitOn(rows, account) + if l.account == account then l.debit else 0
    ensures CreditOn(rows + [l], account) == CreditOn(rows, account) + if l.account == account then l.credit else 0
  {
    assert (rows + [l])[..|rows|] == rows;
  }

  /** The posted rows of an asset are booked on its own two accounts. */
  lemma {:induction false} BookedIsSumPosted(s: AssetBooks, n: nat, asset: nat, account: nat)
    requires Booked(s) && n <= |s.schedules| && asset < |s.assets|
    ensures DebitBooked(s.books.lines, s.schedules[..n], asset, account)
            == if account == s.assets[asset].expenseAccount then SumPosted(s.schedules[..n], asset) else 0
    ensures CreditBooked(s.books.lines, s.schedules[..n], asset, account)
            == if account == s.assets[asset].depreciationAccount then SumPosted(s.schedules[..n], asset) else 0
  {
    hide DebitOn, CreditOn, DepreciationLines;
    if n > 0 {
      BookedIsSumPosted(s, n - 1, asset, account);
      var row := s.schedules[n - 1];
      assert s.schedules[..n][..n - 1] == s.schedules[..n - 1];
      if row.Posted() {
        var now :| BookedBy(s, n - 1, now);
        DepreciationSides(s.assets[row.asset], row.amount, row.entry.value, now, account);
      }
    }
  }

  // ---- what a depreciation run does to balances ----

  /** What the rows posted between two states put on an account, in a window: their amounts as expense, and the
      same amounts off the accumulated depreciation. */
  function Charged(s: AssetBooks, after: seq<Schedule>, w: Window, account: nat, n: nat): int
    requires n <= |s.schedules| == |after|
  {
    if n == 0 then 0
    else
      var row := s.schedules[n - 1];
      Charged(s, after, w, account, n - 1)
      + if row.asset < |s.assets| && after[n - 1].Posted() && !row.Posted() && Within(w, row.date)
        then (if s.assets[row.asset].expenseAccount == account then row.amount else 0)
             - (if s.assets[row.asset].depreciationAccount == account then row.amount else 0)
        else 0
  }

  lemma {:induction false} ChargedSame(s: AssetBooks, after: seq<Schedule>, later: seq<Schedule>, w: Window,
                                       account: nat, n: nat)
    requires n <= |s.schedules| == |after| == |later|
    requires forall i :: 0 <= i < n ==> (after[i].Posted() <==> later[i].Posted())
    ensures Charged(s, after, w, account, n) == Charged(s, later, w, account, n)
  {
    hide Within;
    if n > 0 { ChargedSame(s, after, later, w, account, n - 1); }
  }

  lemma {:induction false} NetOfMoreLine(entries: seq<Entry>, lines: seq<Line>, l: Line, reader: nat, w: Window,
                                         account: nat)
    ensures AccountNet(entries, lines + [l], reader, w, account)
            == AccountNet(entries, lines, reader, w, account)
               + if Counted(entries, l, reader, w) && l.account == account then l.debit - l.credit else 0
  {
    hide Counted;
    assert (lines + [l])[..|lines|] == lines;
  }

  lemma PostRowMoves(s: AssetBooks, i: nat, now: int, reader: nat, w: Window, account: nat)
    requires Linked(s.books) && i < |s.schedules| && s.schedules[i].asset < |s.assets|
    ensures var t, row := PostRow(s, i, now), s.schedules[i];
            var a := s.assets[row.asset];
            && Linked(t.books)
            && AccountNet(t.books.entries, t.books.lines, reader, w, account)
               == AccountNet(s.books.entries, s.books.lines, reader, w, account)
                  + if reader != a.tenant || !Within(w, row.date) then 0
                    else (if a.expenseAccount == account then row.amount else 0)
                         - (if a.depreciationAccount == account then row.amount else 0)
  {
    hide AccountNet, RowNumber, Within;
    var t, row := PostRow(s, i, now), s.schedules[i];
    var entries, lines := t.books.entries, s.books.lines;
    var rows := DepreciationLines(s.assets[row.asset], row.amount, |s.books.entries|, now);
    NetOfMoreEntries(s.books.entries, entries[|s.books.entries|], lines, reader, w, account);
    NetOfMoreLine(entries, lines, rows[0], reader, w, account);
    NetOfMoreLine(entries, lines + [rows[0]], rows[1], reader, w, account);
    assert t.books.lines == lines + [rows[0]] + [rows[1]];
  }

  /** A run moves each account of its tenant by the rows it posts, in exactly the windows that cover their dates: up
      by those of assets whose expense account it is, down by those whose accumulated depreciation it holds. */
  lemma {:induction false} DepreciationMoves(s: AssetBooks, tenant: nat, asOf: int, now: int, n: nat, reader: nat,
                                             w: Window, account: nat)
    requires Linked(s.books) && n <= |s.schedules|
    requires forall i :: 0 <= i < |s.schedules| ==> s.schedules[i].asset < |s.assets|
    ensures var t := RunTo(s, tenant, asOf, now, n).register;
            && Linked(t.books)
            && AccountNet(t.books.entries, t.books.lines, reader, w, account)
               == AccountNet(s.books.entries, s.books.lines, reader, w, account)
                  + if reader == tenant then Charged(s, t.schedules, w, account, n) else 0
  {
    hide AccountNet, PostRow, Clashes, Within, Linked;
    if n > 0 {
      DepreciationMoves(s, tenant, asOf, now, n - 1, reader, w, account);
      RunPosts(s, tenant, asOf, now, n - 1);
      RunPosts(s, tenant, asOf, now, n);
      var t := RunTo(s, tenant, asOf, now, n - 1).register;
      var after := RunTo(s, tenant, asOf, now, n).register;
      if IsPending(t, n - 1, tenant, asOf) {
        PostRowMoves(t, n - 1, now, reader, w, account);
        PostRowEffect(t, n - 1, now);
      }
      ChargedSame(s, t.schedules, after.schedules, w, account, n - 1);
    }
  }

  // ---- what an asset adds ----

  /** A new asset brings its depreciable amount, price less salvage value, in as many instalments as it has months to
      live, the first a month after its purchase; nothing if there is nothing to depreciate. */
  lemma {:induction false} AddedSchedule(s: AssetBooks, a: FixedAsset)
    ensures var t, n := Added(s, a), |s.schedules|;
            && t.assets == s.assets + [a] && t.books == s.books && s.schedules <= t.schedules
            && |t.schedules| - n == (if a.price <= a.salvage || a.life <= 0 then 0 else a.life)
            && Sum(t.schedules[n..]) == (if a.price <= a.salvage || a.life <= 0 then 0 else a.price - a.salvage)
            && forall k :: n <= k < |t.schedules| ==>
                 && t.schedules[k].asset == |s.assets| && !t.schedules[k].Posted()
                 && t.schedules[k].date == MonthsAfter(a.purchased, k - n + 1)
  {
    hide MonthsAfter, Monthly;
    var more := Instalments(|s.assets|, a.price - a.salvage, a.life, a.purchased);
    assert Added(s, a).schedules[|s.schedules|..] == more;
    if a.price > a.salvage && a.life > 0 {
      InstalmentsSum(|s.assets|, a.price - a.salvage, a.life, a.purchased);
    }
  }

  /** A code is refused exactly when an asset of the same tenant has it. */
  lemma CodeFreeExactly(assets: seq<FixedAsset>, tenant: nat, code: string)
    ensures !CodeTaken(assets, tenant, code)
            <==> forall i :: 0 <= i < |assets| ==> assets[i].tenant == tenant ==> assets[i].code != code
  {
  }
}
