/** Straight-line depreciation schedules and their posting (fixed-assets.service.ts). */
module FixedAssets {
  import opened Schema
  import opened Money
  import opened Calendar
  import opened Numbers
  import JournalEntries

  // ---- the schedule ----

  /** The instalment of every month but the last. */
  function Monthly(amount: int, life: int): int
    requires 0 < life
  {
    Round(amount as real / life as real)
  }

  function LastInstalment(amount: int, life: int): int
    requires 0 < life
  {
    amount - (life - 1) * Monthly(amount, life)
  }

  /** The i-th row, counted from 1, in closed form. */
  function Instalment(asset: nat, amount: int, life: int, monthly: int, purchased: int, i: nat): Schedule {
    if i == life
    then Schedule(asset, MonthsAfter(purchased, i), amount - (life - 1) * monthly, amount, None)
    else Schedule(asset, MonthsAfter(purchased, i), monthly, i * monthly, None)
  }

  /** The schedule of an asset: empty when there is nothing to depreciate or no month to do it in. */
  function Instalments(asset: nat, amount: int, life: int, purchased: int): (rows: seq<Schedule>)
    ensures |rows| == if amount <= 0 || life <= 0 then 0 else life
    ensures forall i :: 0 <= i < |rows| ==> rows[i].asset == asset && !rows[i].Posted()
  {
    if amount <= 0 || life <= 0 then []
    else
      var monthly := Monthly(amount, life);
      seq(life, i requires 0 <= i < life => Instalment(asset, amount, life, monthly, purchased, i + 1))
  }

  method GenerateSchedule(asset: nat, amount: int, life: int, purchased: int) returns (rows: seq<Schedule>)
    ensures rows == Instalments(asset, amount, life, purchased)
  {
    hide AddMonth, Monthly;
    rows := [];
    if amount <= 0 || life <= 0 {
      return;
    }
    var monthly := Monthly(amount, life);
    var accumulated := 0;
    var month := purchased;
    for i := 1 to life + 1
      invariant |rows| == i - 1
      invariant forall k :: 0 <= k < i - 1 ==>
        rows[k] == Instalment(asset, amount, life, monthly, purchased, k + 1)
      invariant month == MonthsAfter(purchased, i - 1)
      invariant accumulated == if i == life + 1 then amount else (i - 1) * monthly
    {
      month := AddMonth(month);
      var instalment := monthly;
      if i == life {
        instalment := amount - accumulated;
      }
      accumulated := accumulated + instalment;
      rows := rows + [Schedule(asset, month, instalment, accumulated, None)];
      assert (i - 1) * monthly + monthly == i * monthly;
    }
  }

  function Sum(rows: seq<Schedule>): int {
    if rows == [] then 0 else Sum(rows[..|rows| - 1]) + rows[|rows| - 1].amount
  }

  /** Each row's `accumulated` is the sum of the instalments so far. */
  lemma AccumulatedIsPrefixSum(asset: nat, amount: int, life: int, purchased: int, n: nat)
    requires n < |Instalments(asset, amount, life, purchased)|
    ensures var rows := Instalments(asset, amount, life, purchased);
            Sum(rows[..n + 1]) == rows[n].accumulated
  {
    PrefixSum(Instalments(asset, amount, life, purchased), asset, amount, life, Monthly(amount, life), purchased, n);
  }

  lemma {:induction false} PrefixSum(rows: seq<Schedule>, asset: nat, amount: int, life: int, monthly: int,
                                     purchased: int, n: nat)
    requires n < |rows| <= life
    requires forall k :: 0 <= k <= n ==> rows[k] == Instalment(asset, amount, life, monthly, purchased, k + 1)
    ensures Sum(rows[..n + 1]) == rows[n].accumulated
  {
    assert rows[..n + 1][..n] == rows[..n];
    if n > 0 {
      PrefixSum(rows, asset, amount, life, monthly, purchased, n - 1);
      assert n * monthly + monthly == (n + 1) * monthly;
    }
  }

  /** A monthly instalment is within half a cent of an equal share. */
  lemma MonthlyNearShare(amount: int, life: int)
    requires 0 < life
    ensures -life <= 2 * (amount - life * Monthly(amount, life)) <= life
  {
    RoundQuotient(amount as real, life);
    assert (amount - life * Monthly(amount, life)) as real <= life as real * 0.5;
    assert (life * Monthly(amount, life) - amount) as real <= life as real * 0.5;
  }

  /** The instalments of any depreciable amount and life add up to it exactly. */
  lemma InstalmentsSum(asset: nat, amount: int, life: int, purchased: int)
    requires 0 < amount && 0 < life
    ensures Sum(Instalments(asset, amount, life, purchased)) == amount
  {
    var rows := Instalments(asset, amount, life, purchased);
    AccumulatedIsPrefixSum(asset, amount, life, purchased, life - 1);
    assert rows[..life] == rows;
  }

  /** The last instalment is within half a cent per other month of an equal share (stated multiplied by
      2 * life), so it is not negative when the amount is at least life * (life - 1) / 2 cents. */
  lemma LastInstalmentNearShare(amount: int, life: int)
    requires 0 < amount && 0 < life
    ensures var last := LastInstalment(amount, life);
            && -life * (life - 1) <= 2 * (life * last - amount) <= life * (life - 1)
            && (life * (life - 1) <= 2 * amount ==> 0 <= last)
  {
    var m := Monthly(amount, life);
    MonthlyNearShare(amount, life);
    LastFromMonthly(amount, life, m);
  }

  lemma LastFromMonthly(amount: int, life: int, m: int)
    requires 0 < life && -life <= 2 * (amount - life * m) <= life
    ensures var last := amount - (life - 1) * m;
            && -life * (life - 1) <= 2 * (life * last - amount) <= life * (life - 1)
            && (life * (life - 1) <= 2 * amount ==> 0 <= last)
  {
    var error, last := amount - life * m, amount - (life - 1) * m;
    LastTimesLife(amount, life, m);
    ScaleInt(life - 1, -life, 2 * error);
    ScaleInt(life - 1, 2 * error, life);
    var product, bound := life * last, life * (life - 1);
    assert (life - 1) * (2 * error) == 2 * ((life - 1) * error);
    assert (life - 1) * -life == -bound && (life - 1) * life == bound;
    assert -bound <= 2 * (product - amount) <= bound;
    if bound <= 2 * amount {
      assert 0 <= product;
      SignOfFactor(life, last);
    }
  }

  lemma LastTimesLife(amount: int, life: int, m: int)
    ensures life * (amount - (life - 1) * m) - amount == (life - 1) * (amount - life * m)
  {
  }

  lemma SignOfFactor(n: int, x: int)
    requires 0 < n && 0 <= n * x
    ensures 0 <= x
  {
  }

  /** The last instalment is not negative exactly when the months round down, or the whole cents of a share
      and the cents left over make up for all the months that round up. */
  lemma LastInstalmentSign(amount: int, life: int)
    requires 0 < amount && 0 < life
    ensures 0 <= LastInstalment(amount, life)
            <==> 2 * (amount % life) < life || life - 1 <= amount / life + amount % life
  {
    hide Monthly;
    MonthlyFromShare(amount, life);
    var share, left := amount / life, amount % life;
    assert amount - (life - 1) * share == share + left;
    assert (life - 1) * (share + 1) == (life - 1) * share + life - 1;
  }

  lemma MonthlyFromShare(amount: int, life: int)
    requires 0 < amount && 0 < life
    ensures Monthly(amount, life) == amount / life + if 2 * (amount % life) < life then 0 else 1
  {
    hide Round;
    var share, left := amount / life, amount % life;
    var fraction := ShareAndFraction(amount, life);
    FractionOf(left as real, life as real, fraction);
    RoundShare(amount as real / life as real, share, fraction);
    assert 2.0 * left as real == (2 * left) as real;
  }

  /** An equal share in whole cents and a fraction of one. */
  lemma ShareAndFraction(amount: int, life: int) returns (fraction: real)
    requires 0 < amount && 0 < life
    ensures life as real * fraction == (amount % life) as real
    ensures amount as real / life as real == (amount / life) as real + fraction
  {
    var share, left, k := amount / life, amount % life, life as real;
    fraction := left as real / k;
    Quotient(left as real, k);
    Quotient(amount as real, k);
    ProductAsReal(life, share);
    assert amount as real == (life * share) as real + left as real;
    Distribute(k, share as real, fraction);
    SameQuotient(k, share as real + fraction, amount as real / k);
  }

  lemma Distribute(k: real, x: real, y: real)
    ensures k * (x + y) == k * x + k * y
  {
  }

  lemma SameQuotient(k: real, x: real, y: real)
    requires 0.0 < k && k * x == k * y
    ensures x == y
  {
  }

  lemma RoundShare(x: real, share: int, fraction: real)
    requires x == share as real + fraction && 0.0 <= fraction < 1.0 && 0.0 <= x
    ensures Round(x) == share + if fraction < 0.5 then 0 else 1
  {
    assert x.Floor == share;
    RoundByFraction(x);
  }

  /** A product as such, for comparing products without multiplying out. */
  function Times(k: real, x: real): real {
    k * x
  }

  lemma FractionOf(left: real, life: real, fraction: real)
    requires 0.0 <= left < life && Times(life, fraction) == left
    ensures 0.0 <= fraction < 1.0 && (fraction < 0.5 <==> 2.0 * left < life)
  {
    hide Times;
    Multiples(life);
    ScaleBoth(life, fraction, 0.0);
    ScaleBoth(life, fraction, 1.0);
    ScaleBoth(life, fraction, 0.5);
  }

  lemma Multiples(k: real)
    ensures Times(k, 0.0) == 0.0 && Times(k, 1.0) == k && 2.0 * Times(k, 0.5) == k
  {
  }

  lemma ScaleBoth(k: real, x: real, y: real)
    requires 0.0 < k
    ensures x < y <==> Times(k, x) < Times(k, y)
  {
    hide Times;
    if x < y { TimesLess(k, x, y); } else if y < x { TimesLess(k, y, x); }
  }

  lemma TimesLess(k: real, x: real, y: real)
    requires 0.0 < k && x < y
    ensures Times(k, x) < Times(k, y)
  {
  }

  /** So small amounts can end on a negative instalment: 50 cents over 100 months. */
  lemma LastInstalmentCanBeNegative()
    ensures LastInstalment(50, 100) == -49
  {
    assert 50 as real / 100 as real == 0.5;
  }

  // ---- the register ----

  predicate CodeTaken(assets: seq<FixedAsset>, tenant: nat, code: string) {
    exists i :: 0 <= i < |assets| && assets[i].tenant == tenant && assets[i].code == code
  }

  /** The register after an asset is created together with its schedule. */
  function Added(s: AssetBooks, a: FixedAsset): AssetBooks {
    s.(assets := s.assets + [a],
       schedules := s.schedules + Instalments(|s.assets|, a.price - a.salvage, a.life, a.purchased))
  }

  method Create(db: Database, tenant: nat, code: string, depreciationAccount: nat, expenseAccount: nat,
                purchased: int, price: real, salvage: real, life: int, how: DepreciationMethod)
    returns (r: Result<nat>)
    modifies db`assets, db`schedules
    ensures var before := old(db.Register());
            var asset := FixedAsset(tenant, code, depreciationAccount, expenseAccount, purchased,
                                    Round(price), Round(salvage), life);
            if CodeTaken(before.assets, tenant, code) then r == Err(CodeExists) && db.Register() == before
            else if how != StraightLine then r == Err(UnsupportedMethod) && db.Register() == before
            else r == Ok(|before.assets|) && db.Register() == Added(before, asset)
  {
    if CodeTaken(db.assets, tenant, code) {
      return Err(CodeExists);
    }
    if how != StraightLine {
      return Err(UnsupportedMethod);
    }
    var asset := FixedAsset(tenant, code, depreciationAccount, expenseAccount, purchased,
                            Round(price), Round(salvage), life);
    var rows := GenerateSchedule(|db.assets|, asset.price - asset.salvage, life, purchased);
    db.assets := db.assets + [asset];
    db.schedules := db.schedules + rows;
    r := Ok(|db.assets| - 1);
  }

  /** A row a depreciation run has to post. */
  predicate IsPending(s: AssetBooks, i: nat, tenant: nat, asOf: int)
    requires i < |s.schedules|
  {
    var row := s.schedules[i];
    row.asset < |s.assets| && s.assets[row.asset].tenant == tenant && row.date <= asOf && !row.Posted()
  }

  function DepreciationLines(a: FixedAsset, amount: int, entry: nat, now: int): seq<Line> {
    [Line(a.tenant, entry, a.expenseAccount, amount, 0, now, None),
     Line(a.tenant, entry, a.depreciationAccount, 0, amount, now, None)]
  }

  function RowNumber(s: AssetBooks, i: nat): string
    requires i < |s.schedules| && s.schedules[i].asset < |s.assets|
  {
    DepreciationNumber(s.assets[s.schedules[i].asset].code, MonthOf(s.schedules[i].date))
  }

  /** The index on entry numbers refuses a number that the tenant has used. */
  predicate NumberTaken(entries: seq<Entry>, tenant: nat, number: string) {
    exists e :: 0 <= e < |entries| && entries[e].tenant == tenant && entries[e].number == number
  }

  predicate Clashes(s: AssetBooks, i: nat)
    requires i < |s.schedules| && s.schedules[i].asset < |s.assets|
  {
    NumberTaken(s.books.entries, s.assets[s.schedules[i].asset].tenant, RowNumber(s, i))
  }

  /** Posting one row writes its entry without going through the journal's checks. */
  function PostRow(s: AssetBooks, i: nat, now: int): AssetBooks
    requires i < |s.schedules| && s.schedules[i].asset < |s.assets|
  {
    var row, entry := s.schedules[i], |s.books.entries|;
    var a := s.assets[row.asset];
    s.(books := JournalEntries.Append(s.books, Entry(a.tenant, RowNumber(s, i), row.date, None),
                                      DepreciationLines(a, row.amount, entry, now)),
       schedules := s.schedules[i := row.(entry := Some(entry))])
  }

  /** How far a run has come: the register and the number of schedule rows dealt with. */
  datatype Progress = Progress(register: AssetBooks, reached: nat)

  /** A run over the first n schedule rows. Each pending row is a transaction of its own; the first whose number
      is taken ends the run, and what was posted before stays. */
  function RunTo(s: AssetBooks, tenant: nat, asOf: int, now: int, n: nat): (p: Progress)
    requires n <= |s.schedules|
    ensures |p.register.schedules| == |s.schedules| && p.reached <= n
  {
    if n == 0 then Progress(s, 0)
    else
      var p := RunTo(s, tenant, asOf, now, n - 1);
      if p.reached < n - 1 then p
      else if !IsPending(p.register, n - 1, tenant, asOf) then p.(reached := n)
      else if Clashes(p.register, n - 1) then p
      else Progress(PostRow(p.register, n - 1, now), n)
  }

  method RunMonthlyDepreciation(db: Database, tenant: nat, asOf: int, now: int) returns (r: Result<nat>)
    modifies db`entries, db`lines, db`schedules
    ensures var before := old(db.Register());
            var p := RunTo(before, tenant, asOf, now, |before.schedules|);
            && db.Register() == p.register
            && r == if p.reached < |before.schedules| then Err(NumberExists)
                    else Ok(|db.entries| - |before.books.entries|)
  {
    hide DepreciationNumber, MonthOf;
    ghost var before := db.Register();
    var postedCount := 0;
    for i := 0 to |db.schedules|
      invariant |db.schedules| == |before.schedules|
      invariant RunTo(before, tenant, asOf, now, i) == Progress(db.Register(), i)
      invariant postedCount == |db.entries| - |before.books.entries|
    {
      var row := db.schedules[i];
      if row.asset < |db.assets| && db.assets[row.asset].tenant == tenant && row.date <= asOf && !row.Posted() {
        var a := db.assets[row.asset];
        var entry, number := |db.entries|, DepreciationNumber(a.code, MonthOf(row.date));
        if NumberTaken(db.entries, tenant, number) {
          RunEnds(before, tenant, asOf, now, i + 1, |before.schedules|);
          return Err(NumberExists);
        }
        db.lines := db.lines + [Line(tenant, entry, a.expenseAccount, row.amount, 0, now, None),
                                Line(tenant, entry, a.depreciationAccount, 0, row.amount, now, None)];
        db.entries := db.entries + [Entry(tenant, number, row.date, None)];
        db.schedules := db.schedules[i := row.(entry := Some(entry))];
        postedCount := postedCount + 1;
      }
    }
    r := Ok(postedCount);
  }

  lemma {:induction false} RunEnds(s: AssetBooks, tenant: nat, asOf: int, now: int, m: nat, n: nat)
    requires m <= n <= |s.schedules| && RunTo(s, tenant, asOf, now, m).reached < m
    ensures RunTo(s, tenant, asOf, now, n) == RunTo(s, tenant, asOf, now, m)
  {
    hide PostRow, Clashes;
    if m < n { RunEnds(s, tenant, asOf, now, m, n - 1); }
  }
}
