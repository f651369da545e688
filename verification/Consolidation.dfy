/** The consolidated trial balance of a tenant and its children (consolidation.service.ts). */
module Consolidation {
  import opened Schema
  import opened Money
  import opened GeneralLedger
  import LedgerBooks

  datatype Sums = Sums(debit: int, credit: int)

  datatype RealSums = RealSums(debit: real, credit: real)

  // ---- one tenant ----

  function CodeOf(accounts: seq<Account>, l: Line): string {
    if l.account < |accounts| then accounts[l.account].code else ""
  }

  /** A tenant's debits and credits under an account code. */
  function SumsOf(b: Books, lines: seq<Line>, tenant: nat, w: Window, code: string): Sums {
    if lines == [] then Sums(0, 0)
    else
      var s, l := SumsOf(b, lines[..|lines| - 1], tenant, w, code), lines[|lines| - 1];
      if Counted(b.entries, l, tenant, w) && CodeOf(b.accounts, l) == code
      then Sums(s.debit + l.debit, s.credit + l.credit) else s
  }

  /** The account codes a tenant has lines under. */
  function CodesOf(b: Books, lines: seq<Line>, tenant: nat, w: Window): set<string> {
    if lines == [] then {}
    else
      var codes, l := CodesOf(b, lines[..|lines| - 1], tenant, w), lines[|lines| - 1];
      if Counted(b.entries, l, tenant, w) then codes + {CodeOf(b.accounts, l)} else codes
  }

  lemma {:induction false} NoLinesUnder(b: Books, lines: seq<Line>, tenant: nat, w: Window, code: string)
    requires code !in CodesOf(b, lines, tenant, w)
    ensures SumsOf(b, lines, tenant, w, code) == Sums(0, 0)
  {
    if lines != [] { NoLinesUnder(b, lines[..|lines| - 1], tenant, w, code); }
  }

  method GetTenantTrialBalance(b: Books, tenant: nat, w: Window) returns (tb: map<string, Sums>)
    ensures tb.Keys == CodesOf(b, b.lines, tenant, w)
    ensures forall code :: code in tb ==> tb[code] == SumsOf(b, b.lines, tenant, w, code)
  {
    hide Counted, CodeOf;
    tb := map[];
    for i := 0 to |b.lines|
      invariant tb.Keys == CodesOf(b, b.lines[..i], tenant, w)
      invariant forall code :: code in tb ==> tb[code] == SumsOf(b, b.lines[..i], tenant, w, code)
    {
      var l := b.lines[i];
      assert b.lines[..i + 1][..i] == b.lines[..i];
      if Counted(b.entries, l, tenant, w) {
        var code := CodeOf(b.accounts, l);
        if code !in tb {
          NoLinesUnder(b, b.lines[..i], tenant, w, code);
          tb := tb[code := Sums(0, 0)];
        }
        tb := tb[code := Sums(tb[code].debit + l.debit, tb[code].credit + l.credit)];
      }
    }
    assert b.lines[..|b.lines|] == b.lines;
  }

  // ---- the group ----

  datatype Member = Member(tenant: nat, rate: real)

  /** The first row that satisfies a lookup. */
  function FindCurrency(currencies: seq<Currency>, tenant: nat, code: string): (i: Option<nat>)
  {
    if currencies == [] then None
    else
      var earlier, last := FindCurrency(currencies[..|currencies| - 1], tenant, code), currencies[|currencies| - 1];
      if earlier.Some? then earlier
      else if last.tenant == tenant && last.code == code then Some(|currencies| - 1) else None
  }

  /** The first of the parent's periods that contains the whole window. */
  function FindPeriod(periods: seq<Period>, tenant: nat, from: int, to: int): Option<nat> {
    if periods == [] then None
    else
      var earlier, last := FindPeriod(periods[..|periods| - 1], tenant, from, to), periods[|periods| - 1];
      if earlier.Some? then earlier
      else if last.tenant == tenant && last.start <= from && to <= last.end then Some(|periods| - 1) else None
  }

  function FindRate(rates: seq<PeriodRate>, tenant: nat, currency: nat, period: nat): Option<int> {
    if rates == [] then None
    else
      var earlier, last := FindRate(rates[..|rates| - 1], tenant, currency, period), rates[|rates| - 1];
      if earlier.Some? then earlier
      else if last.tenant == tenant && last.currency == currency && last.period == period then Some(last.rate) else None
  }

  /** The rate a child is translated at: 1 in the parent's own currency, and also when no period or no rate
      fits; a currency the parent does not have is refused. */
  function RateFor(g: Group, periods: seq<Period>, parent: nat, child: nat, from: int, to: int): Result<real>
    requires parent < |g.tenants| && child < |g.tenants|
  {
    if g.tenants[child].currency == g.tenants[parent].currency then Ok(1.0)
    else
      var currency := FindCurrency(g.currencies, parent, g.tenants[child].currency);
      if currency.None? then Err(CurrencyMissing)
      else
        var period := FindPeriod(periods, parent, from, to);
        if period.None? then Ok(1.0)
        else
          var rate := FindRate(g.rates, parent, currency.value, period.value);
          Ok(if rate.Some? then rate.value as real / 1000000.0 else 1.0)
  }

  /** The parent at rate 1 and its children, in the order they are listed in. */
  function Members(g: Group, periods: seq<Period>, parent: nat, children: seq<nat>, from: int, to: int)
    : (r: Result<seq<Member>>)
    requires parent < |g.tenants| && forall i :: 0 <= i < |children| ==> children[i] < |g.tenants|
  {
    if children == [] then Ok([Member(parent, 1.0)])
    else
      var earlier := Members(g, periods, parent, children[..|children| - 1], from, to);
      var child := children[|children| - 1];
      if earlier.Err? then earlier
      else
        match RateFor(g, periods, parent, child, from, to)
        case Err(e) => Err(e)
        case Ok(rate) => Ok(earlier.value + [Member(child, rate)])
  }

  /** The rate-weighted sum over the members. */
  function Weighted(b: Books, w: Window, ms: seq<Member>, code: string): RealSums {
    if ms == [] then RealSums(0.0, 0.0)
    else
      var sum, m := Weighted(b, w, ms[..|ms| - 1], code), ms[|ms| - 1];
      Plus(sum, SumsOf(b, b.lines, m.tenant, w, code), m.rate)
  }

  /** Sums added after translation at a rate. */
  function Plus(t: RealSums, s: Sums, rate: real): RealSums {
    RealSums(t.debit + s.debit as real * rate, t.credit + s.credit as real * rate)
  }

  lemma {:induction false} MemberAdded(b: Books, w: Window, ms: seq<Member>, m: Member)
    ensures AllCodes(b, w, ms + [m]) == AllCodes(b, w, ms) + CodesOf(b, b.lines, m.tenant, w)
    ensures forall code ::
              Weighted(b, w, ms + [m], code)
              == Plus(Weighted(b, w, ms, code), SumsOf(b, b.lines, m.tenant, w, code), m.rate)
  {
    hide Plus, SumsOf, CodesOf;
    assert (ms + [m])[..|ms|] == ms;
  }

  lemma PlusNothing(t: RealSums, rate: real)
    ensures Plus(t, Sums(0, 0), rate) == t
  {
  }

  function AllCodes(b: Books, w: Window, ms: seq<Member>): set<string> {
    if ms == [] then {} else AllCodes(b, w, ms[..|ms| - 1]) + CodesOf(b, b.lines, ms[|ms| - 1].tenant, w)
  }

  lemma {:induction false} NothingUnder(b: Books, w: Window, ms: seq<Member>, code: string)
    requires code !in AllCodes(b, w, ms)
    ensures Weighted(b, w, ms, code) == RealSums(0.0, 0.0)
  {
    if ms != [] {
      NothingUnder(b, w, ms[..|ms| - 1], code);
      NoLinesUnder(b, b.lines, ms[|ms| - 1].tenant, w, code);
    }
  }

  /** The map holds the weighted sums of the members under every code of theirs. */
  ghost predicate Holds(b: Books, w: Window, ms: seq<Member>, totals: map<string, RealSums>) {
    && totals.Keys == AllCodes(b, w, ms)
    && forall code :: code in totals ==> totals[code] == Weighted(b, w, ms, code)
  }

  /** The inner loop: a member's trial balance is translated and added to the totals code by code. */
  method AddMember(b: Books, w: Window, ghost ms: seq<Member>, totals: map<string, RealSums>, m: Member)
    returns (more: map<string, RealSums>)
    requires Holds(b, w, ms, totals)
    ensures Holds(b, w, ms + [m], more)
  {
    hide SumsOf, CodesOf, Weighted, AllCodes, Plus;
    var tb := GetTenantTrialBalance(b, m.tenant, w);
    more := totals;
    var left := tb.Keys;
    MemberAdded(b, w, ms, m);
    while left != {}
      invariant left <= tb.Keys
      invariant more.Keys == totals.Keys + (tb.Keys - left)
      invariant forall code :: code in more ==>
        more[code] == if code in tb && code !in left then Weighted(b, w, ms + [m], code) else Weighted(b, w, ms, code)
    {
      var code :| code in left;
      if code !in more {
        NothingUnder(b, w, ms, code);
        more := more[code := RealSums(0.0, 0.0)];
      }
      more := more[code := Plus(more[code], tb[code], m.rate)];
      left := left - {code};
    }
    forall code | code in more && code !in tb
      ensures Weighted(b, w, ms + [m], code) == Weighted(b, w, ms, code)
    {
      NoLinesUnder(b, b.lines, m.tenant, w, code);
      PlusNothing(Weighted(b, w, ms, code), m.rate);
    }
  }

  datatype GroupRow = GroupRow(code: string, debit: int, credit: int)

  /** A listing of the rounded totals, one row per code. */
  ghost predicate Lists(b: Books, w: Window, ms: seq<Member>, rows: seq<GroupRow>) {
    && (forall code :: code in AllCodes(b, w, ms) <==> exists i :: 0 <= i < |rows| && rows[i].code == code)
    && (forall i, j :: 0 <= i < j < |rows| ==> rows[i].code != rows[j].code)
    && (forall i :: 0 <= i < |rows| ==>
          var s := Weighted(b, w, ms, rows[i].code);
          rows[i].debit == Round(s.debit) && rows[i].credit == Round(s.credit))
  }

  method GetConsolidatedTrialBalance(db: Database, parent: nat, from: int, to: int) returns (r: Result<seq<GroupRow>>)
    requires forall i, k :: 0 <= i < |db.tenants| && 0 <= k < |db.tenants[i].children| ==>
               db.tenants[i].children[k] < |db.tenants|
    ensures if parent >= |db.tenants| then r == Err(NoTenant)
            else
              var b, w := db.Ledger(), Window(Some(from), Some(to));
              match Members(db.Companies(), db.periods, parent, db.tenants[parent].children, from, to)
              case Err(e) => r == Err(e)
              case Ok(ms) => r.Ok? && Lists(b, w, ms, r.value)
  {
    hide Weighted, AllCodes, RateFor;
    if parent >= |db.tenants| {
      return Err(NoTenant);
    }
    var b, w, g := db.Ledger(), Window(Some(from), Some(to)), db.Companies();
    var children := db.tenants[parent].children;
    NoMembers(b, w);
    var totals := AddMember(b, w, [], map[], Member(parent, 1.0));
    ghost var ms := [Member(parent, 1.0)];
    assert [] + ms == ms;
    for i := 0 to |children|
      invariant Members(g, db.periods, parent, children[..i], from, to) == Ok(ms)
      invariant Holds(b, w, ms, totals)
    {
      assert children[..i + 1][..i] == children[..i];
      var rate := RateFor(g, db.periods, parent, children[i], from, to);
      if rate.Err? {
        MembersFail(g, db.periods, parent, children, from, to, i + 1);
        return Err(rate.error);
      }
      totals := AddMember(b, w, ms, totals, Member(children[i], rate.value));
      ms := ms + [Member(children[i], rate.value)];
    }
    assert children[..|children|] == children;
    var rows := Format(totals);
    r := Ok(rows);
  }

  lemma NoMembers(b: Books, w: Window)
    ensures Holds(b, w, [], map[])
  {
  }

  lemma {:induction false} MembersFail(g: Group, periods: seq<Period>, parent: nat, children: seq<nat>, from: int,
                                       to: int, n: nat)
    requires parent < |g.tenants| && forall i :: 0 <= i < |children| ==> children[i] < |g.tenants|
    requires n <= |children| && Members(g, periods, parent, children[..n], from, to).Err?
    ensures Members(g, periods, parent, children, from, to) == Members(g, periods, parent, children[..n], from, to)
  {
    if n < |children| {
      assert children[..|children| - 1][..n] == children[..n];
      MembersFail(g, periods, parent, children[..|children| - 1], from, to, n);
    } else {
      assert children[..n] == children;
    }
  }

  /** One row per code, rounded to two decimals. */
  method Format(totals: map<string, RealSums>) returns (rows: seq<GroupRow>)
    ensures forall code :: code in totals <==> exists i :: 0 <= i < |rows| && rows[i].code == code
    ensures forall i, j :: 0 <= i < j < |rows| ==> rows[i].code != rows[j].code
    ensures forall i :: 0 <= i < |rows| ==>
              rows[i].code in totals && rows[i].debit == Round(totals[rows[i].code].debit)
              && rows[i].credit == Round(totals[rows[i].code].credit)
  {
    hide Round;
    rows := [];
    var left := totals.Keys;
    while left != {}
      invariant left <= totals.Keys
      invariant forall code :: code in totals && code !in left <==> exists i :: 0 <= i < |rows| && rows[i].code == code
      invariant forall i, j :: 0 <= i < j < |rows| ==> rows[i].code != rows[j].code
      invariant forall i :: 0 <= i < |rows| ==>
        rows[i].code in totals && rows[i].debit == Round(totals[rows[i].code].debit)
        && rows[i].credit == Round(totals[rows[i].code].credit)
    {
      var code :| code in left;
      ghost var before := rows;
      rows := rows + [GroupRow(code, Round(totals[code].debit), Round(totals[code].credit))];
      left := left - {code};
      assert forall i :: 0 <= i < |before| ==> rows[i] == before[i];
      assert rows[|before|].code == code;
    }
  }

  // ---- the order of the children does not matter ----

  function Without<T>(s: seq<T>, j: nat): seq<T>
    requires j < |s|
  {
    s[..j] + s[j + 1..]
  }

  lemma WithoutMultiset<T>(s: seq<T>, j: nat)
    requires j < |s|
    ensures multiset(s) == multiset(Without(s, j)) + multiset{s[j]}
    ensures multiset(Without(s, j)) == multiset(s) - multiset{s[j]}
  {
    var front, back := s[..j], s[j + 1..];
    assert s == front + [s[j]] + back;
    assert multiset(s) == multiset(front) + multiset{s[j]} + multiset(back);
    assert multiset(Without(s, j)) == multiset(front) + multiset(back);
  }

  /** Permutations agree on where their last elements leave them. */
  lemma RemoveLast<T>(s: seq<T>, t: seq<T>) returns (j: nat)
    requires s != [] && multiset(s) == multiset(t)
    ensures j < |t| && t[j] == s[|s| - 1] && multiset(s[..|s| - 1]) == multiset(Without(t, j))
  {
    hide Without;
    var last := s[|s| - 1];
    assert last in multiset(s);
    j := Find(t, last);
    WithoutMultiset(t, j);
    WithoutLast(s);
  }

  lemma Find<T>(t: seq<T>, x: T) returns (j: nat)
    requires x in multiset(t)
    ensures j < |t| && t[j] == x
  {
    j :| 0 <= j < |t| && t[j] == x;
  }

  lemma WithoutLast<T>(s: seq<T>)
    requires s != []
    ensures multiset(s[..|s| - 1]) == multiset(s) - multiset{s[|s| - 1]}
  {
    assert s == s[..|s| - 1] + [s[|s| - 1]];
  }

  lemma EmptyPermutation<T>(t: seq<T>)
    requires multiset(t) == multiset{}
    ensures t == []
  {
    assert |multiset(t)| == |t|;
  }

  lemma PlusSwap(t: RealSums, x: Sums, xRate: real, y: Sums, yRate: real)
    ensures Plus(Plus(t, x, xRate), y, yRate) == Plus(Plus(t, y, yRate), x, xRate)
  {
  }

  /** A member can be added at any place. */
  lemma {:induction false} WeightedWithout(b: Books, w: Window, ms: seq<Member>, j: nat, code: string)
    requires j < |ms|
    ensures Weighted(b, w, ms, code)
            == Plus(Weighted(b, w, Without(ms, j), code), SumsOf(b, b.lines, ms[j].tenant, w, code), ms[j].rate)
  {
    hide SumsOf, Plus;
    var n := |ms| - 1;
    if j < n {
      WeightedWithout(b, w, ms[..n], j, code);
      var rest := Without(ms, j);
      assert rest[..|rest| - 1] == Without(ms[..n], j);
      PlusSwap(Weighted(b, w, Without(ms[..n], j), code), SumsOf(b, b.lines, ms[j].tenant, w, code), ms[j].rate,
               SumsOf(b, b.lines, ms[n].tenant, w, code), ms[n].rate);
    } else {
      assert Without(ms, j) == ms[..n];
    }
  }

  lemma {:induction false} WeightedPermuted(b: Books, w: Window, ms: seq<Member>, ns: seq<Member>, code: string)
    requires multiset(ms) == multiset(ns)
    ensures Weighted(b, w, ms, code) == Weighted(b, w, ns, code)
  {
    hide SumsOf, Plus, Without;
    if ms == [] {
      EmptyPermutation(ns);
    } else {
      var j := RemoveLast(ms, ns);
      WeightedPermuted(b, w, ms[..|ms| - 1], Without(ns, j), code);
      WeightedWithout(b, w, ns, j, code);
    }
  }

  lemma {:induction false} MembersLast(g: Group, periods: seq<Period>, parent: nat, children: seq<nat>, from: int,
                                       to: int)
    requires parent < |g.tenants| && (forall i :: 0 <= i < |children| ==> children[i] < |g.tenants|) && children != []
    ensures var n := |children| - 1;
            var all, init := Members(g, periods, parent, children, from, to),
                             Members(g, periods, parent, children[..n], from, to);
            var rate := RateFor(g, periods, parent, children[n], from, to);
            && (all.Ok? <==> init.Ok? && rate.Ok?)
            && (all.Ok? ==> multiset(all.value) == multiset(init.value) + multiset{Member(children[n], rate.value)})
  {
    hide RateFor;
  }

  /** Taking a child out of the list takes its member out. */
  lemma {:induction false} MembersWithout(g: Group, periods: seq<Period>, parent: nat, children: seq<nat>,
                                          from: int, to: int, j: nat)
    requires parent < |g.tenants| && (forall i :: 0 <= i < |children| ==> children[i] < |g.tenants|) && j < |children|
    ensures var all, rest := Members(g, periods, parent, children, from, to),
                             Members(g, periods, parent, Without(children, j), from, to);
            var rate := RateFor(g, periods, parent, children[j], from, to);
            && (all.Ok? <==> rest.Ok? && rate.Ok?)
            && (all.Ok? ==> multiset(all.value) == multiset(rest.value) + multiset{Member(children[j], rate.value)})
  {
    hide RateFor, Members;
    var n := |children| - 1;
    var rest := Without(children, j);
    MembersLast(g, periods, parent, children, from, to);
    if j < n {
      MembersWithout(g, periods, parent, children[..n], from, to, j);
      assert rest[..|rest| - 1] == Without(children[..n], j) && rest[|rest| - 1] == children[n];
      MembersLast(g, periods, parent, rest, from, to);
    } else {
      assert rest == children[..n];
    }
  }

  lemma {:induction false} MembersPermuted(g: Group, periods: seq<Period>, parent: nat, cs: seq<nat>, ds: seq<nat>,
                                           from: int, to: int)
    requires parent < |g.tenants| && (forall i :: 0 <= i < |cs| ==> cs[i] < |g.tenants|)
    requires (forall i :: 0 <= i < |ds| ==> ds[i] < |g.tenants|) && multiset(cs) == multiset(ds)
    ensures var ms, ns := Members(g, periods, parent, cs, from, to), Members(g, periods, parent, ds, from, to);
            (ms.Ok? <==> ns.Ok?) && (ms.Ok? ==> multiset(ms.value) == multiset(ns.value))
  {
    hide RateFor, Members;
    if cs == [] {
      EmptyPermutation(ds);
    } else {
      var j := RemoveLast(cs, ds);
      WithoutChildren(ds, j, |g.tenants|);
      MembersPermuted(g, periods, parent, cs[..|cs| - 1], Without(ds, j), from, to);
      MembersWithout(g, periods, parent, ds, from, to, j);
      MembersLast(g, periods, parent, cs, from, to);
    }
  }

  lemma WithoutChildren(children: seq<nat>, j: nat, n: nat)
    requires j < |children| && forall i :: 0 <= i < |children| ==> children[i] < n
    ensures forall i :: 0 <= i < |Without(children, j)| ==> Without(children, j)[i] < n
  {
  }

  /** However the children are listed, the consolidation is refused or not alike, and every code gets the same
      sums: those of the parent plus each child's at its rate. */
  lemma {:induction false} OrderIrrelevant(g: Group, b: Books, parent: nat, cs: seq<nat>, ds: seq<nat>, from: int,
                                           to: int, code: string)
    requires parent < |g.tenants| && (forall i :: 0 <= i < |cs| ==> cs[i] < |g.tenants|)
    requires (forall i :: 0 <= i < |ds| ==> ds[i] < |g.tenants|) && multiset(cs) == multiset(ds)
    ensures var w := Window(Some(from), Some(to));
            var ms, ns := Members(g, b.periods, parent, cs, from, to), Members(g, b.periods, parent, ds, from, to);
            && (ms.Ok? <==> ns.Ok?)
            && (ms.Ok? ==> Weighted(b, w, ms.value, code) == Weighted(b, w, ns.value, code))
  {
    hide Members, Weighted;
    MembersPermuted(g, b.periods, parent, cs, ds, from, to);
    var ms, ns := Members(g, b.periods, parent, cs, from, to), Members(g, b.periods, parent, ds, from, to);
    if ms.Ok? { WeightedPermuted(b, Window(Some(from), Some(to)), ms.value, ns.value, code); }
  }

  // ---- debits against credits ----

  /** Debits minus credits of a tenant's lines. */
  function CountedNet(b: Books, lines: seq<Line>, tenant: nat, w: Window): int {
    if lines == [] then 0
    else
      var l := lines[|lines| - 1];
      CountedNet(b, lines[..|lines| - 1], tenant, w)
      + if Counted(b.entries, l, tenant, w) then l.debit - l.credit else 0
  }

  function NetOverCodes(b: Books, lines: seq<Line>, tenant: nat, w: Window, codes: seq<string>): int {
    if codes == [] then 0
    else
      var s := SumsOf(b, lines, tenant, w, codes[|codes| - 1]);
      NetOverCodes(b, lines, tenant, w, codes[..|codes| - 1]) + s.debit - s.credit
  }

  ghost predicate DistinctCodes(codes: seq<string>) {
    forall i, j :: 0 <= i < j < |codes| ==> codes[i] != codes[j]
  }

  lemma {:induction false} OneMoreLineOverCodes(b: Books, lines: seq<Line>, tenant: nat, w: Window, codes: seq<string>)
    requires lines != [] && DistinctCodes(codes)
    ensures var l := lines[|lines| - 1];
            NetOverCodes(b, lines, tenant, w, codes)
            == NetOverCodes(b, lines[..|lines| - 1], tenant, w, codes)
               + if Counted(b.entries, l, tenant, w) && CodeOf(b.accounts, l) in codes then l.debit - l.credit else 0
  {
    hide Counted, CodeOf;
    if codes != [] {
      var init := codes[..|codes| - 1];
      OneMoreLineOverCodes(b, lines, tenant, w, init);
      assert codes == init + [codes[|codes| - 1]];
    }
  }

  lemma {:induction false} NothingOverCodes(b: Books, tenant: nat, w: Window, codes: seq<string>)
    ensures NetOverCodes(b, [], tenant, w, codes) == 0
  {
    if codes != [] { NothingOverCodes(b, tenant, w, codes[..|codes| - 1]); }
  }

  lemma {:induction false} NetByCode(b: Books, lines: seq<Line>, tenant: nat, w: Window, codes: seq<string>)
    requires DistinctCodes(codes) && forall code :: code in CodesOf(b, lines, tenant, w) ==> code in codes
    ensures NetOverCodes(b, lines, tenant, w, codes) == CountedNet(b, lines, tenant, w)
  {
    hide Counted, CodeOf;
    if lines == [] {
      NothingOverCodes(b, tenant, w, codes);
    } else {
      NetByCode(b, lines[..|lines| - 1], tenant, w, codes);
      OneMoreLineOverCodes(b, lines, tenant, w, codes);
    }
  }

  /** Debits minus credits of the unrounded consolidation. */
  function Gap(b: Books, w: Window, ms: seq<Member>, codes: seq<string>): real {
    if codes == [] then 0.0
    else
      var s := Weighted(b, w, ms, codes[|codes| - 1]);
      Gap(b, w, ms, codes[..|codes| - 1]) + s.debit - s.credit
  }

  lemma {:induction false} GapOfMember(b: Books, w: Window, ms: seq<Member>, codes: seq<string>)
    requires ms != []
    ensures var m := ms[|ms| - 1];
            Gap(b, w, ms, codes)
            == Gap(b, w, ms[..|ms| - 1], codes) + NetOverCodes(b, b.lines, m.tenant, w, codes) as real * m.rate
  {
    hide SumsOf, Weighted;
    assert ms == ms[..|ms| - 1] + [ms[|ms| - 1]];
    MemberAdded(b, w, ms[..|ms| - 1], ms[|ms| - 1]);
    if codes != [] {
      var m, init, code := ms[|ms| - 1], codes[..|codes| - 1], codes[|codes| - 1];
      GapOfMember(b, w, ms, init);
      var s := SumsOf(b, b.lines, m.tenant, w, code);
      Translated(NetOverCodes(b, b.lines, m.tenant, w, init), s.debit, s.credit, m.rate);
    }
  }

  lemma Translated(net: int, debit: int, credit: int, rate: real)
    ensures (net + debit - credit) as real * rate == net as real * rate + debit as real * rate - credit as real * rate
  {
  }

  lemma {:induction false} GapOfNone(b: Books, w: Window, codes: seq<string>)
    ensures Gap(b, w, [], codes) == 0.0
  {
    if codes != [] { GapOfNone(b, w, codes[..|codes| - 1]); }
  }

  /** The members' own gaps at their rates. */
  function MembersGap(b: Books, w: Window, ms: seq<Member>): real {
    if ms == [] then 0.0
    else
      var m := ms[|ms| - 1];
      MembersGap(b, w, ms[..|ms| - 1]) + CountedNet(b, b.lines, m.tenant, w) as real * m.rate
  }

  /** Before rounding the consolidation is off by exactly its members' gaps at their rates. */
  lemma {:induction false} GapOfMembers(b: Books, w: Window, ms: seq<Member>, codes: seq<string>)
    requires DistinctCodes(codes) && forall code :: code in AllCodes(b, w, ms) ==> code in codes
    ensures Gap(b, w, ms, codes) == MembersGap(b, w, ms)
  {
    hide CodesOf, Gap, CountedNet;
    if ms == [] {
      GapOfNone(b, w, codes);
    } else {
      GapOfMembers(b, w, ms[..|ms| - 1], codes);
      GapOfMember(b, w, ms, codes);
      NetByCode(b, b.lines, ms[|ms| - 1].tenant, w, codes);
    }
  }

  lemma {:induction false} NoGaps(b: Books, w: Window, ms: seq<Member>)
    requires forall i :: 0 <= i < |ms| ==> CountedNet(b, b.lines, ms[i].tenant, w) == 0
    ensures MembersGap(b, w, ms) == 0.0
  {
    hide CountedNet;
    if ms != [] { NoGaps(b, w, ms[..|ms| - 1]); }
  }

  /** So it balances when each of its members does. */
  lemma {:induction false} BalancedBeforeRounding(b: Books, w: Window, ms: seq<Member>, codes: seq<string>)
    requires DistinctCodes(codes) && forall code :: code in AllCodes(b, w, ms) ==> code in codes
    requires forall i :: 0 <= i < |ms| ==> CountedNet(b, b.lines, ms[i].tenant, w) == 0
    ensures Gap(b, w, ms, codes) == 0.0
  {
    hide AllCodes, Gap, CountedNet;
    GapOfMembers(b, w, ms, codes);
    NoGaps(b, w, ms);
  }

  function RowsGap(rows: seq<GroupRow>): int {
    if rows == [] then 0 else RowsGap(rows[..|rows| - 1]) + rows[|rows| - 1].debit - rows[|rows| - 1].credit
  }

  function CodesIn(rows: seq<GroupRow>): (codes: seq<string>)
    ensures |codes| == |rows| && forall i :: 0 <= i < |rows| ==> codes[i] == rows[i].code
  {
    if rows == [] then [] else CodesIn(rows[..|rows| - 1]) + [rows[|rows| - 1].code]
  }

  /** Rounding moves each row's two sides by at most half a cent; sides that are not negative cannot both
      move the full half in opposite directions. */
  lemma {:induction false} RoundingGap(b: Books, w: Window, ms: seq<Member>, rows: seq<GroupRow>)
    requires forall i :: 0 <= i < |rows| ==>
               var s := Weighted(b, w, ms, rows[i].code);
               rows[i].debit == Round(s.debit) && rows[i].credit == Round(s.credit)
    ensures var drift := RowsGap(rows) as real - Gap(b, w, ms, CodesIn(rows));
            && -(|rows| as real) <= drift <= |rows| as real
            && (NonnegativeRows(b, w, ms, rows) && rows != [] ==> -(|rows| as real) < drift < |rows| as real)
  {
    hide Weighted, Round, NonnegativeRows, CodesIn;
    NoRowsGap(b, w, ms);
    if rows != [] {
      var init, last := rows[..|rows| - 1], rows[|rows| - 1];
      RoundingGap(b, w, ms, init);
      OneMoreRow(b, w, ms, rows);
      var s := Weighted(b, w, ms, last.code);
      HalfCents(s.debit, s.credit);
      var before, step := RowsGap(init), last.debit - last.credit;
      assert RowsGap(rows) as real == before as real + step as real;
      assert step as real == last.debit as real - last.credit as real;
      assert |rows| as real == |init| as real + 1.0;
    }
  }

  lemma {:induction false} NoRowsGap(b: Books, w: Window, ms: seq<Member>)
    ensures Gap(b, w, ms, CodesIn([])) == 0.0
  {
  }

  lemma OneMoreRow(b: Books, w: Window, ms: seq<Member>, rows: seq<GroupRow>)
    requires rows != []
    ensures var init, s := rows[..|rows| - 1], Weighted(b, w, ms, rows[|rows| - 1].code);
            && Gap(b, w, ms, CodesIn(rows)) == Gap(b, w, ms, CodesIn(init)) + s.debit - s.credit
            && (NonnegativeRows(b, w, ms, rows) ==>
                  NonnegativeRows(b, w, ms, init) && 0.0 <= s.debit && 0.0 <= s.credit)
  {
    hide Weighted;
    var init := rows[..|rows| - 1];
    assert CodesIn(rows)[..|init|] == CodesIn(init);
  }

  ghost predicate NonnegativeRows(b: Books, w: Window, ms: seq<Member>, rows: seq<GroupRow>) {
    forall i :: 0 <= i < |rows| ==>
      0.0 <= Weighted(b, w, ms, rows[i].code).debit && 0.0 <= Weighted(b, w, ms, rows[i].code).credit
  }

  lemma HalfCents(x: real, y: real)
    ensures -1.0 <= Round(x) as real - x - (Round(y) as real - y) <= 1.0
    ensures 0.0 <= x && 0.0 <= y ==> -1.0 < Round(x) as real - x - (Round(y) as real - y) < 1.0
  {
  }

  /** The report is off by its members' gaps at their rates and at most a cent per code, and by less than a cent per
      code when no translated sum is negative. */
  lemma {:induction false} ReportGap(b: Books, w: Window, ms: seq<Member>, rows: seq<GroupRow>)
    requires Lists(b, w, ms, rows)
    ensures var drift := RowsGap(rows) as real - MembersGap(b, w, ms);
            && -(|rows| as real) <= drift <= |rows| as real
            && (NonnegativeRows(b, w, ms, rows) && rows != [] ==> -(|rows| as real) < drift < |rows| as real)
  {
    hide Weighted, AllCodes, MembersGap, NonnegativeRows, Round;
    GapOfMembers(b, w, ms, CodesIn(rows));
    RoundingGap(b, w, ms, rows);
  }

  /** For balanced members that is at most a cent per code, and one cent less when no translated sum is negative. */
  lemma {:induction false} BalancedReport(b: Books, w: Window, ms: seq<Member>, rows: seq<GroupRow>)
    requires Lists(b, w, ms, rows)
    requires forall i :: 0 <= i < |ms| ==> CountedNet(b, b.lines, ms[i].tenant, w) == 0
    ensures -|rows| <= RowsGap(rows) <= |rows|
    ensures NonnegativeRows(b, w, ms, rows) && rows != [] ==> -|rows| < RowsGap(rows) < |rows|
  {
    hide Lists, MembersGap, CountedNet, NonnegativeRows;
    NoGaps(b, w, ms);
    ReportGap(b, w, ms, rows);
  }

  /** In books whose entries balance exactly, such as those of any run with whole-cent postings, every tenant
      is balanced in every window. */
  lemma {:induction false} MembersBalance(b: Books, tenant: nat, w: Window)
    requires LedgerBooks.Sound(b, true)
    ensures CountedNet(b, b.lines, tenant, w) == 0
  {
    LedgerBooks.NetsWithinSlack(b, tenant, w, |b.entries|, true);
    CountedByEntry(b, |b.lines|, tenant, w);
    assert b.lines[..|b.lines|] == b.lines;
  }

  lemma {:induction false} CountedByEntry(b: Books, n: nat, tenant: nat, w: Window)
    requires LedgerBooks.Linked(b) && n <= |b.lines|
    ensures CountedNet(b, b.lines[..n], tenant, w) == LedgerBooks.SumEntryNets(b, b.lines[..n], tenant, w, |b.entries|)
  {
    hide Within;
    if n == 0 {
      LedgerBooks.NoEntryNets(b, tenant, w, |b.entries|);
    } else {
      CountedByEntry(b, n - 1, tenant, w);
      LedgerBooks.OneMoreLineByEntry(b, b.lines[..n], tenant, w, |b.entries|);
      assert b.lines[..n][..n - 1] == b.lines[..n - 1];
    }
  }

  // ---- rates ----

  /** A row that is the first of its kind. */
  ghost predicate FirstPeriod(periods: seq<Period>, i: nat, tenant: nat, from: int, to: int) {
    && i < |periods| && periods[i].tenant == tenant && periods[i].start <= from && to <= periods[i].end
    && forall k :: 0 <= k < i ==> !(periods[k].tenant == tenant && periods[k].start <= from && to <= periods[k].end)
  }

  ghost predicate FirstRate(rates: seq<PeriodRate>, i: nat, tenant: nat, currency: nat, period: nat) {
    && i < |rates| && rates[i].tenant == tenant && rates[i].currency == currency && rates[i].period == period
    && forall k :: 0 <= k < i ==>
         !(rates[k].tenant == tenant && rates[k].currency == currency && rates[k].period == period)
  }

  ghost predicate FirstCurrency(currencies: seq<Currency>, i: nat, tenant: nat, code: string) {
    && i < |currencies| && currencies[i].tenant == tenant && currencies[i].code == code
    && forall k :: 0 <= k < i ==> !(currencies[k].tenant == tenant && currencies[k].code == code)
  }

  lemma {:induction false} PeriodFound(periods: seq<Period>, tenant: nat, from: int, to: int)
    ensures match FindPeriod(periods, tenant, from, to)
            case Some(i) => FirstPeriod(periods, i, tenant, from, to)
            case None => forall i: nat :: !FirstPeriod(periods, i, tenant, from, to)
    ensures FindPeriod(periods, tenant, from, to).None? ==>
              forall i :: 0 <= i < |periods| ==>
                !(periods[i].tenant == tenant && periods[i].start <= from && to <= periods[i].end)
  {
    if periods != [] {
      var init := periods[..|periods| - 1];
      PeriodFound(init, tenant, from, to);
      assert forall i :: 0 <= i < |init| ==> init[i] == periods[i];
    }
  }

  lemma {:induction false} RateFound(rates: seq<PeriodRate>, tenant: nat, currency: nat, period: nat, i: nat)
    ensures FirstRate(rates, i, tenant, currency, period) ==>
              FindRate(rates, tenant, currency, period) == Some(rates[i].rate)
    ensures FindRate(rates, tenant, currency, period).None?
            <==> forall k :: 0 <= k < |rates| ==>
                   !(rates[k].tenant == tenant && rates[k].currency == currency && rates[k].period == period)
  {
    if rates != [] {
      var init := rates[..|rates| - 1];
      RateFound(init, tenant, currency, period, i);
      assert forall k :: 0 <= k < |init| ==> init[k] == rates[k];
    }
  }

  lemma {:induction false} CurrencyFound(currencies: seq<Currency>, tenant: nat, code: string)
    ensures match FindCurrency(currencies, tenant, code)
            case Some(i) => FirstCurrency(currencies, i, tenant, code)
            case None => forall k :: 0 <= k < |currencies| ==>
                           !(currencies[k].tenant == tenant && currencies[k].code == code)
  {
    if currencies != [] {
      var init := currencies[..|currencies| - 1];
      CurrencyFound(init, tenant, code);
      assert forall i :: 0 <= i < |init| ==> init[i] == currencies[i];
    }
  }

  /** A child in a foreign currency is translated at the rate stored for the parent's currency of that code in the
      parent's period that contains the window, in millionths. */
  lemma RateIs(g: Group, periods: seq<Period>, parent: nat, child: nat, from: int, to: int, c: nat, p: nat, r: nat)
    requires parent < |g.tenants| && child < |g.tenants| && g.tenants[child].currency != g.tenants[parent].currency
    requires FirstCurrency(g.currencies, c, parent, g.tenants[child].currency)
    requires FirstPeriod(periods, p, parent, from, to) && FirstRate(g.rates, r, parent, c, p)
    ensures RateFor(g, periods, parent, child, from, to) == Ok(g.rates[r].rate as real / 1000000.0)
  {
    hide FindCurrency, FindPeriod, FindRate;
    CurrencyFound(g.currencies, parent, g.tenants[child].currency);
    PeriodFound(periods, parent, from, to);
    RateFound(g.rates, parent, c, p, r);
  }

  /** It is refused exactly when it has a foreign currency the parent does not have, and taken at 1 when it has the
      parent's currency, no period contains the window, or no rate is stored for it. */
  lemma RateOtherwise(g: Group, periods: seq<Period>, parent: nat, child: nat, from: int, to: int)
    requires parent < |g.tenants| && child < |g.tenants|
    ensures var code := g.tenants[child].currency;
            var foreign := code != g.tenants[parent].currency;
            && (RateFor(g, periods, parent, child, from, to).Err?
                <==> foreign && forall k :: 0 <= k < |g.currencies| ==>
                       !(g.currencies[k].tenant == parent && g.currencies[k].code == code))
            && (!foreign ==> RateFor(g, periods, parent, child, from, to) == Ok(1.0))
            && ((forall i :: 0 <= i < |periods| ==>
                   !(periods[i].tenant == parent && periods[i].start <= from && to <= periods[i].end))
                && RateFor(g, periods, parent, child, from, to).Ok? ==>
                  RateFor(g, periods, parent, child, from, to) == Ok(1.0))
  {
    hide FindCurrency, FindPeriod, FindRate;
    CurrencyFound(g.currencies, parent, g.tenants[child].currency);
    PeriodFound(periods, parent, from, to);
  }

  lemma RateNotStored(g: Group, periods: seq<Period>, parent: nat, child: nat, from: int, to: int, c: nat, p: nat)
    requires parent < |g.tenants| && child < |g.tenants| && g.tenants[child].currency != g.tenants[parent].currency
    requires FirstCurrency(g.currencies, c, parent, g.tenants[child].currency)
    requires FirstPeriod(periods, p, parent, from, to)
    requires forall k :: 0 <= k < |g.rates| ==>
               !(g.rates[k].tenant == parent && g.rates[k].currency == c && g.rates[k].period == p)
    ensures RateFor(g, periods, parent, child, from, to) == Ok(1.0)
  {
    hide FindCurrency, FindPeriod, FindRate;
    CurrencyFound(g.currencies, parent, g.tenants[child].currency);
    PeriodFound(periods, parent, from, to);
    RateFound(g.rates, parent, c, p, 0);
  }

  /** The parent comes first, at 1, then the children in their order, each at its rate. */
  lemma {:induction false} MembersAre(g: Group, periods: seq<Period>, parent: nat, children: seq<nat>, from: int,
                                      to: int)
    requires parent < |g.tenants| && forall i :: 0 <= i < |children| ==> children[i] < |g.tenants|
    ensures var r := Members(g, periods, parent, children, from, to);
            && (r.Ok? <==> forall i :: 0 <= i < |children| ==> RateFor(g, periods, parent, children[i], from, to).Ok?)
            && (r.Ok? ==>
                  && |r.value| == |children| + 1 && r.value[0] == Member(parent, 1.0)
                  && forall i :: 0 <= i < |children| ==>
                       && r.value[i + 1].tenant == children[i]
                       && RateFor(g, periods, parent, children[i], from, to) == Ok(r.value[i + 1].rate))
  {
    hide RateFor;
    if children != [] {
      var init := children[..|children| - 1];
      MembersAre(g, periods, parent, init, from, to);
      assert children == init + [children[|children| - 1]];
    }
  }
}
