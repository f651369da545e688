/** Matching journal lines to bank statements (bank-reconciliation.service.ts). */
module BankReconciliation {
  import opened Schema
  import opened Money
  import opened Calendar

  const TOLERANCE := 3 * DAY

  /** A statement transaction and a journal line may be the same movement: equal amounts, at most three
      days apart. */
  predicate Compatible(t: Transaction, l: Line) {
    t.amount == l.debit - l.credit && -TOLERANCE <= t.date - l.createdAt <= TOLERANCE
  }

  predicate Free(l: Line, tenant: nat, account: nat) {
    l.tenant == tenant && l.account == account && l.reconciliation.None?
  }

  /** The unreconciled lines of a bank account. */
  function FreeIds(lines: seq<Line>, tenant: nat, account: nat): (ids: seq<nat>)
    ensures forall i :: 0 <= i < |ids| ==> ids[i] < |lines| && Free(lines[ids[i]], tenant, account)
    ensures forall id: nat :: id < |lines| && Free(lines[id], tenant, account) ==> id in ids
    ensures forall i, j :: 0 <= i < j < |ids| ==> ids[i] < ids[j]
  {
    if lines == [] then []
    else
      var last := |lines| - 1;
      var ids := FreeIds(lines[..last], tenant, account);
      if Free(lines[last], tenant, account) then ids + [last] else ids
  }

  // ---- the greedy matcher ----

  /** The first line not yet used that is compatible with a transaction. */
  function FirstMatch(lines: seq<Line>, ids: seq<nat>, used: set<nat>, t: Transaction): (m: Option<nat>)
    requires forall i :: 0 <= i < |ids| ==> ids[i] < |lines|
    ensures m.Some? ==> m.value in ids && m.value < |lines| && m.value !in used && Compatible(t, lines[m.value])
    ensures m.None? ==> forall i :: 0 <= i < |ids| && ids[i] !in used ==> !Compatible(t, lines[ids[i]])
  {
    if ids == [] then None
    else
      var earlier, last := FirstMatch(lines, ids[..|ids| - 1], used, t), ids[|ids| - 1];
      if earlier.Some? then earlier
      else if last !in used && Compatible(t, lines[last]) then Some(last)
      else None
  }

  /** The lines a matching uses. */
  function Used(matching: seq<Option<nat>>): set<nat> {
    set i | 0 <= i < |matching| && matching[i].Some? :: matching[i].value
  }

  function Count(matching: seq<Option<nat>>): nat {
    if matching == [] then 0
    else Count(matching[..|matching| - 1]) + if matching[|matching| - 1].Some? then 1 else 0
  }

  /** Each transaction in turn takes the first line left that is compatible with it. */
  function Greedy(lines: seq<Line>, ids: seq<nat>, txns: seq<Transaction>): (matching: seq<Option<nat>>)
    requires forall i :: 0 <= i < |ids| ==> ids[i] < |lines|
    ensures |matching| == |txns|
  {
    if txns == [] then []
    else
      var earlier := Greedy(lines, ids, txns[..|txns| - 1]);
      earlier + [FirstMatch(lines, ids, Used(earlier), txns[|txns| - 1])]
  }

  /** Lines with the given ids are moved to a reconciliation, or to none. */
  function Tag(lines: seq<Line>, ids: set<nat>, r: Option<nat>): (tagged: seq<Line>)
    ensures |tagged| == |lines|
    ensures forall i :: 0 <= i < |lines| ==>
              tagged[i] == if i in ids then lines[i].(reconciliation := r) else lines[i]
  {
    seq(|lines|, i requires 0 <= i < |lines| => if i in ids then lines[i].(reconciliation := r) else lines[i])
  }

  function OpenError(recs: seq<Reconciliation>, tenant: nat, r: nat): (e: Option<Error>)
    ensures e.None? ==> r < |recs|
  {
    if r >= |recs| || recs[r].tenant != tenant then Some(NoReconciliation)
    else if recs[r].reconciled then Some(AlreadyReconciled)
    else None
  }

  function AutoMatching(lines: seq<Line>, rec: Reconciliation): seq<Option<nat>> {
    Greedy(lines, FreeIds(lines, rec.tenant, rec.account), rec.transactions)
  }

  method AutoMatch(db: Database, tenant: nat, r: nat) returns (res: Result<nat>)
    modifies db`lines
    ensures match OpenError(db.reconciliations, tenant, r)
            case Some(e) => res == Err(e) && db.lines == old(db.lines)
            case None =>
              var matching := AutoMatching(old(db.lines), db.reconciliations[r]);
              res == Ok(Count(matching)) && db.lines == Tag(old(db.lines), Used(matching), Some(r))
  {
    hide Greedy, FirstMatch, Used, Count, Tag, FreeIds, Compatible;
    if r >= |db.reconciliations| || db.reconciliations[r].tenant != tenant {
      return Err(NoReconciliation);
    }
    var rec := db.reconciliations[r];
    if rec.reconciled {
      return Err(AlreadyReconciled);
    }
    ghost var before := db.lines;
    var unreconciled := FreeIds(db.lines, tenant, rec.account);
    var matchedCount := 0;
    var matchedLineIds: set<nat> := {};
    ghost var matching: seq<Option<nat>> := [];
    NothingMatched(before, unreconciled, Some(r));
    for i := 0 to |rec.transactions|
      invariant matching == Greedy(before, unreconciled, rec.transactions[..i])
      invariant matchedLineIds == Used(matching) && matchedCount == Count(matching)
      invariant db.lines == Tag(before, matchedLineIds, Some(r))
    {
      GreedyStep(before, unreconciled, rec.transactions, i);
      SameMatch(before, db.lines, unreconciled, matchedLineIds, rec.transactions[i]);
      var found := FirstMatch(db.lines, unreconciled, matchedLineIds, rec.transactions[i]);
      OneMore(matching, found);
      matching := matching + [found];
      if found.Some? {
        TagOne(before, matchedLineIds, found.value, Some(r));
        matchedLineIds := matchedLineIds + {found.value};
        matchedCount := matchedCount + 1;
        db.lines := db.lines[found.value := db.lines[found.value].(reconciliation := Some(r))];
      }
    }
    assert rec.transactions[..|rec.transactions|] == rec.transactions;
    res := Ok(matchedCount);
  }

  lemma {:induction false} NothingMatched(lines: seq<Line>, ids: seq<nat>, r: Option<nat>)
    requires forall i :: 0 <= i < |ids| ==> ids[i] < |lines|
    ensures Greedy(lines, ids, []) == [] && Used([]) == {} && Count([]) == 0 && Tag(lines, {}, r) == lines
  {
  }

  lemma {:induction false} GreedyStep(lines: seq<Line>, ids: seq<nat>, txns: seq<Transaction>, n: nat)
    requires n < |txns| && forall i :: 0 <= i < |ids| ==> ids[i] < |lines|
    ensures var earlier := Greedy(lines, ids, txns[..n]);
            Greedy(lines, ids, txns[..n + 1]) == earlier + [FirstMatch(lines, ids, Used(earlier), txns[n])]
  {
    assert txns[..n + 1][..n] == txns[..n];
  }

  lemma TagOne(lines: seq<Line>, ids: set<nat>, id: nat, r: Option<nat>)
    requires id < |lines|
    ensures var tagged := Tag(lines, ids, r);
            Tag(lines, ids + {id}, r) == tagged[id := tagged[id].(reconciliation := r)]
  {
  }

  lemma {:induction false} OneMore(matching: seq<Option<nat>>, m: Option<nat>)
    ensures Used(matching + [m]) == Used(matching) + if m.Some? then {m.value} else {}
    ensures Count(matching + [m]) == Count(matching) + if m.Some? then 1 else 0
  {
    var more := matching + [m];
    assert more[..|matching|] == matching;
    forall x | x in Used(matching)
      ensures x in Used(more)
    {
      var i :| 0 <= i < |matching| && matching[i].Some? && matching[i].value == x;
      assert more[i] == matching[i];
    }
    if m.Some? { assert more[|matching|].value in Used(more); }
  }

  /** Tagging lines does not change which of them match. */
  lemma {:induction false} SameMatch(lines: seq<Line>, lines': seq<Line>, ids: seq<nat>, used: set<nat>, t: Transaction)
    requires |lines| == |lines'| && forall i :: 0 <= i < |ids| ==> ids[i] < |lines|
    requires forall k :: 0 <= k < |lines| ==>
               lines'[k].debit == lines[k].debit && lines'[k].credit == lines[k].credit
               && lines'[k].createdAt == lines[k].createdAt
    ensures FirstMatch(lines, ids, used, t) == FirstMatch(lines', ids, used, t)
  {
    if ids != [] { SameMatch(lines, lines', ids[..|ids| - 1], used, t); }
  }

  // ---- the other operations ----

  datatype StatementLine = StatementLine(date: int, amount: real)

  function StoredTransactions(ls: seq<StatementLine>): seq<Transaction> {
    seq(|ls|, i requires 0 <= i < |ls| => Transaction(ls[i].date, Round(ls[i].amount)))
  }

  method UploadStatement(db: Database, tenant: nat, account: nat, opening: real, closing: real, ls: seq<StatementLine>)
    returns (res: Result<nat>)
    modifies db`reconciliations
    ensures var recs := old(db.reconciliations);
            if account >= |db.accounts| || db.accounts[account].tenant != tenant
            then res == Err(NoAccount) && db.reconciliations == recs
            else
              && res == Ok(|recs|)
              && db.reconciliations == recs + [Reconciliation(tenant, account, Round(opening), Round(closing),
                                                              StoredTransactions(ls), false)]
  {
    if account >= |db.accounts| || db.accounts[account].tenant != tenant {
      return Err(NoAccount);
    }
    db.reconciliations := db.reconciliations
      + [Reconciliation(tenant, account, Round(opening), Round(closing), StoredTransactions(ls), false)];
    res := Ok(|db.reconciliations| - 1);
  }

  /** Of the requested lines, those of the account that are in the given reconciliation, or in none. */
  function Selected(lines: seq<Line>, ids: seq<nat>, rec: Reconciliation, current: Option<nat>): set<nat> {
    set id: nat | id < |lines| && id in ids && lines[id].tenant == rec.tenant && lines[id].account == rec.account
                  && lines[id].reconciliation == current
  }

  method ManualMatch(db: Database, tenant: nat, r: nat, ids: seq<nat>) returns (res: Result<nat>)
    modifies db`lines
    ensures match OpenError(db.reconciliations, tenant, r)
            case Some(e) => res == Err(e) && db.lines == old(db.lines)
            case None =>
              var matched := Selected(old(db.lines), ids, db.reconciliations[r], None);
              res == Ok(|matched|) && db.lines == Tag(old(db.lines), matched, Some(r))
  {
    var error := OpenError(db.reconciliations, tenant, r);
    if error.Some? {
      return Err(error.value);
    }
    var matched := Selected(db.lines, ids, db.reconciliations[r], None);
    db.lines := Tag(db.lines, matched, Some(r));
    res := Ok(|matched|);
  }

  method ManualUnmatch(db: Database, tenant: nat, r: nat, ids: seq<nat>) returns (res: Result<nat>)
    modifies db`lines
    ensures match OpenError(db.reconciliations, tenant, r)
            case Some(e) => res == Err(e) && db.lines == old(db.lines)
            case None =>
              var unmatched := Selected(old(db.lines), ids, db.reconciliations[r], Some(r));
              res == Ok(|unmatched|) && db.lines == Tag(old(db.lines), unmatched, None)
  {
    var error := OpenError(db.reconciliations, tenant, r);
    if error.Some? {
      return Err(error.value);
    }
    var unmatched := Selected(db.lines, ids, db.reconciliations[r], Some(r));
    db.lines := Tag(db.lines, unmatched, None);
    res := Ok(|unmatched|);
  }

  /** Debits minus credits of the lines of a reconciliation. */
  function MatchedNet(lines: seq<Line>, r: nat): int {
    if lines == [] then 0
    else
      var l := lines[|lines| - 1];
      MatchedNet(lines[..|lines| - 1], r) + if l.reconciliation == Some(r) then l.debit - l.credit else 0
  }

  function CompleteError(lines: seq<Line>, recs: seq<Reconciliation>, tenant: nat, r: nat): (e: Option<Error>)
    ensures e.None? ==> r < |recs|
  {
    if OpenError(recs, tenant, r).Some? then OpenError(recs, tenant, r)
    else if recs[r].opening + MatchedNet(lines, r) != recs[r].closing then Some(BalanceMismatch)
    else None
  }

  method CompleteReconciliation(db: Database, tenant: nat, r: nat) returns (res: Result<()>)
    modifies db`reconciliations
    ensures var recs := old(db.reconciliations);
            match CompleteError(db.lines, recs, tenant, r)
            case Some(e) => res == Err(e) && db.reconciliations == recs
            case None => res == Ok(()) && db.reconciliations == recs[r := recs[r].(reconciled := true)]
  {
    var error := OpenError(db.reconciliations, tenant, r);
    if error.Some? {
      return Err(error.value);
    }
    var rec := db.reconciliations[r];
    if rec.opening + MatchedNet(db.lines, r) != rec.closing {
      return Err(BalanceMismatch);
    }
    db.reconciliations := db.reconciliations[r := rec.(reconciled := true)];
    res := Ok(());
  }

  // ---- how good the greedy matching is ----

  /** A one-to-one matching of transactions with compatible lines out of the given ones. */
  ghost predicate Matching(lines: seq<Line>, ids: seq<nat>, txns: seq<Transaction>, m: seq<Option<nat>>)
    requires forall i :: 0 <= i < |ids| ==> ids[i] < |lines|
  {
    && |m| == |txns|
    && (forall i :: 0 <= i < |m| && m[i].Some? ==> m[i].value in ids && Compatible(txns[i], lines[m[i].value]))
    && (forall i, j :: 0 <= i < j < |m| && m[i].Some? && m[j].Some? ==> m[i].value != m[j].value)
  }

  /** No transaction and line are left over that could still be paired. */
  ghost predicate Maximal(lines: seq<Line>, ids: seq<nat>, txns: seq<Transaction>, m: seq<Option<nat>>)
    requires |m| == |txns| && forall i :: 0 <= i < |ids| ==> ids[i] < |lines|
  {
    forall i, id: nat :: 0 <= i < |txns| && m[i].None? && id in ids && id !in Used(m) ==>
      !Compatible(txns[i], lines[id])
  }

  lemma {:induction false} GreedyMaximal(lines: seq<Line>, ids: seq<nat>, txns: seq<Transaction>)
    requires forall i :: 0 <= i < |ids| ==> ids[i] < |lines|
    ensures var m := Greedy(lines, ids, txns);
            Matching(lines, ids, txns, m) && Maximal(lines, ids, txns, m)
  {
    hide FirstMatch, Compatible, Used, Matching, Maximal;
    if txns == [] {
      NothingToMatch(lines, ids);
    } else {
      var n := |txns| - 1;
      GreedyMaximal(lines, ids, txns[..n]);
      ExtendMatching(lines, ids, txns, Greedy(lines, ids, txns[..n]));
    }
  }

  lemma NothingToMatch(lines: seq<Line>, ids: seq<nat>)
    requires forall i :: 0 <= i < |ids| ==> ids[i] < |lines|
    ensures Matching(lines, ids, [], []) && Maximal(lines, ids, [], [])
  {
  }

  /** Giving the last transaction the first line left keeps a matching one-to-one and maximal. */
  lemma {:induction false} ExtendMatching(lines: seq<Line>, ids: seq<nat>, txns: seq<Transaction>, m: seq<Option<nat>>)
    requires txns != [] && forall i :: 0 <= i < |ids| ==> ids[i] < |lines|
    requires |m| == |txns| - 1 && Matching(lines, ids, txns[..|m|], m) && Maximal(lines, ids, txns[..|m|], m)
    ensures var m' := m + [FirstMatch(lines, ids, Used(m), txns[|m|])];
            Matching(lines, ids, txns, m') && Maximal(lines, ids, txns, m')
  {
    hide FirstMatch, Compatible, Used;
    var n, found := |m|, FirstMatch(lines, ids, Used(m), txns[|m|]);
    var m' := m + [found];
    OneMore(m, found);
    InUsed(m);
    assert forall i :: 0 <= i < n ==> txns[..n][i] == txns[i];
    forall i, id: nat | 0 <= i < |txns| && m'[i].None? && id in ids && id !in Used(m')
      ensures !Compatible(txns[i], lines[id])
    {
      if i < n { assert m[i].None? && !Compatible(txns[..n][i], lines[id]); }
    }
  }

  lemma InUsed(m: seq<Option<nat>>)
    ensures forall i :: 0 <= i < |m| && m[i].Some? ==> m[i].value in Used(m)
  {
  }

  /** The transactions a matching covers. */
  ghost function Covered(m: seq<Option<nat>>): set<nat> {
    set i: nat | i < |m| && m[i].Some?
  }

  lemma {:induction false} CoveredCount(m: seq<Option<nat>>)
    ensures |Covered(m)| == Count(m)
  {
    if m != [] {
      var n := |m| - 1;
      CoveredCount(m[..n]);
      assert Covered(m) == Covered(m[..n]) + if m[n].Some? then {n} else {};
    }
  }

  /** Distinct transactions with distinct lines among the given ones are no more than those lines. */
  lemma {:induction false} Injects(m: seq<Option<nat>>, txnIds: set<nat>, lines: set<nat>)
    requires forall i :: i in txnIds ==> i < |m| && m[i].Some? && m[i].value in lines
    requires forall i, j :: i in txnIds && j in txnIds && i != j ==> m[i].value != m[j].value
    ensures |txnIds| <= |lines|
    decreases txnIds
  {
    if txnIds != {} {
      var i :| i in txnIds;
      Injects(m, txnIds - {i}, lines - {m[i].value});
    }
  }

  lemma {:induction false} UsedAtMostCount(m: seq<Option<nat>>)
    ensures |Used(m)| <= Count(m)
  {
    if m != [] {
      var n := |m| - 1;
      UsedAtMostCount(m[..n]);
      assert m[..n] + [m[n]] == m;
      OneMore(m[..n], m[n]);
    }
  }

  /** The greedy matching is at least half as large as any other matching of the same statement. */
  lemma {:induction false} GreedyIsHalf(lines: seq<Line>, ids: seq<nat>, txns: seq<Transaction>,
                                        other: seq<Option<nat>>)
    requires forall i :: 0 <= i < |ids| ==> ids[i] < |lines|
    requires Matching(lines, ids, txns, other)
    ensures Count(other) <= 2 * Count(Greedy(lines, ids, txns))
  {
    var m := Greedy(lines, ids, txns);
    GreedyMaximal(lines, ids, txns);
    CoveredCount(m);
    CoveredCount(other);
    UsedAtMostCount(m);
    var rest := Covered(other) - Covered(m);
    Injects(other, rest, Used(m));
    Injects(m, Covered(m), Used(m));
    assert Covered(other) <= rest + Covered(m);
    CardinalityMonotone(Covered(other), rest + Covered(m));
  }

  lemma {:induction false} CardinalityMonotone(a: set<nat>, b: set<nat>)
    requires a <= b
    ensures |a| <= |b|
  {
    if a != {} {
      var x :| x in a;
      CardinalityMonotone(a - {x}, b - {x});
    }
  }

  /** Half is all that can be promised: the first transaction may take the only line of the second. */
  lemma GreedyCanBeHalf()
    ensures var lines := [Line(0, 0, 0, 100, 0, 3 * DAY, None), Line(0, 0, 0, 100, 0, 0, None)];
            var txns := [Transaction(3 * DAY, 100), Transaction(6 * DAY, 100)];
            && Count(Greedy(lines, [0, 1], txns)) == 1
            && Matching(lines, [0, 1], txns, [Some(1), Some(0)]) && Count([Some(1), Some(0)]) == 2
  {
    hide Greedy;
    var lines := [Line(0, 0, 0, 100, 0, 3 * DAY, None), Line(0, 0, 0, 100, 0, 0, None)];
    var txns := [Transaction(3 * DAY, 100), Transaction(6 * DAY, 100)];
    FirstBlocksSecond(lines[0], lines[1], txns[0], txns[1]);
    CountOfTwo(Some(0), None);
    CountOfTwo(Some(1), Some(0));
  }

  /** The first transaction takes the first line, which is the only one the second fits. */
  lemma FirstBlocksSecond(k: Line, l: Line, t: Transaction, u: Transaction)
    requires Compatible(t, k) && !Compatible(u, l)
    ensures Greedy([k, l], [0, 1], [t, u]) == [Some(0), None]
  {
    hide Compatible, Greedy;
    FirstOnly([k, l], [0, 1], t);
    GreedyStep([k, l], [0, 1], [t, u], 1);
    assert [t, u][..1] == [t] && [t, u][..2] == [t, u];
    assert Used([Some(0)]) == {0} by { assert [Some(0)][0].Some?; }
    assert FirstMatch([k, l], [0, 1], {0}, u) == None;
  }

  lemma CountOfTwo(x: Option<nat>, y: Option<nat>)
    ensures Count([x, y]) == (if x.Some? then 1 else 0) + if y.Some? then 1 else 0
  {
    hide Count;
    OneMoreCounted([], x);
    OneMoreCounted([x], y);
    assert [] + [x] == [x] && [x] + [y] == [x, y];
  }

  lemma {:induction false} OneMoreCounted(m: seq<Option<nat>>, x: Option<nat>)
    ensures Count([]) == 0 && Count(m + [x]) == Count(m) + if x.Some? then 1 else 0
  {
    assert (m + [x])[..|m|] == m;
  }

  // ---- runs ----

  datatype Bank = Bank(accounts: seq<Account>, lines: seq<Line>, recs: seq<Reconciliation>)

  datatype Event =
    | Upload(tenant: nat, account: nat, opening: real, closing: real, ls: seq<StatementLine>)
    | Auto(tenant: nat, r: nat)
    | Match(tenant: nat, r: nat, ids: seq<nat>)
    | Unmatch(tenant: nat, r: nat, ids: seq<nat>)
    | Complete(tenant: nat, r: nat)
    | NewLines(rows: seq<Line>)  // postings add unreconciled lines

  function Next(b: Bank, e: Event): Bank {
    match e
    case Upload(tenant, account, opening, closing, ls) =>
      if account >= |b.accounts| || b.accounts[account].tenant != tenant then b
      else b.(recs := b.recs + [Reconciliation(tenant, account, Round(opening), Round(closing),
                                               StoredTransactions(ls), false)])
    case Auto(tenant, r) =>
      if OpenError(b.recs, tenant, r).Some? then b
      else b.(lines := Tag(b.lines, Used(AutoMatching(b.lines, b.recs[r])), Some(r)))
    case Match(tenant, r, ids) =>
      if OpenError(b.recs, tenant, r).Some? then b
      else b.(lines := Tag(b.lines, Selected(b.lines, ids, b.recs[r], None), Some(r)))
    case Unmatch(tenant, r, ids) =>
      if OpenError(b.recs, tenant, r).Some? then b
      else b.(lines := Tag(b.lines, Selected(b.lines, ids, b.recs[r], Some(r)), None))
    case Complete(tenant, r) =>
      if CompleteError(b.lines, b.recs, tenant, r).Some? then b
      else b.(recs := b.recs[r := b.recs[r].(reconciled := true)])
    case NewLines(rows) =>
      if exists i :: 0 <= i < |rows| && rows[i].reconciliation.Some? then b
      else b.(lines := b.lines + rows)
  }

  function Run(b: Bank, events: seq<Event>): Bank {
    if events == [] then b else Next(Run(b, events[..|events| - 1]), events[|events| - 1])
  }

  /** Matched lines are on the account of their reconciliation, and every completed reconciliation ties out:
      opening balance plus matched lines is the closing balance. */
  ghost predicate Inv(b: Bank) {
    && (forall i :: 0 <= i < |b.lines| && b.lines[i].reconciliation.Some? ==> OnAccount(b, b.lines[i]))
    && (forall r: nat :: r < |b.recs| && b.recs[r].reconciled ==>
          b.recs[r].opening + MatchedNet(b.lines, r) == b.recs[r].closing)
    && (forall r: nat :: r >= |b.recs| ==> MatchedNet(b.lines, r) == 0)
  }

  ghost predicate OnAccount(b: Bank, l: Line)
    requires l.reconciliation.Some?
  {
    var r := l.reconciliation.value;
    r < |b.recs| && b.recs[r].account == l.account && b.recs[r].tenant == l.tenant
  }

  /** A line changes reconciliation only by way of being free. */
  ghost predicate NothingStolen(b: Bank, b': Bank) {
    && |b.lines| <= |b'.lines|
    && forall i :: 0 <= i < |b.lines| ==>
         b'.lines[i].reconciliation == b.lines[i].reconciliation
         || b.lines[i].reconciliation.None? || b'.lines[i].reconciliation.None?
  }

  /** From one state to a later one, nothing about a completed reconciliation changes: neither its statement
      nor the set of its lines nor their amounts. */
  ghost predicate Frozen(b: Bank, b': Bank) {
    && |b.recs| <= |b'.recs| && |b.lines| <= |b'.lines|
    && (forall r :: 0 <= r < |b.recs| && b.recs[r].reconciled ==> b'.recs[r] == b.recs[r])
    && (forall i :: 0 <= i < |b.lines| ==> b'.lines[i] == b.lines[i].(reconciliation := b'.lines[i].reconciliation))
    && (forall i, r: nat :: 0 <= i < |b'.lines| && r < |b.recs| && b.recs[r].reconciled ==>
          (b'.lines[i].reconciliation == Some(r) <==> i < |b.lines| && b.lines[i].reconciliation == Some(r)))
  }

  lemma {:induction false} NetSame(lines: seq<Line>, lines': seq<Line>, q: nat)
    requires |lines| == |lines'|
    requires forall i :: 0 <= i < |lines| ==>
               && lines'[i].debit == lines[i].debit && lines'[i].credit == lines[i].credit
               && (lines'[i].reconciliation == Some(q) <==> lines[i].reconciliation == Some(q))
    ensures MatchedNet(lines', q) == MatchedNet(lines, q)
  {
    if lines != [] { NetSame(lines[..|lines| - 1], lines'[..|lines| - 1], q); }
  }

  /** Free lines of the account of an open reconciliation, or its own lines. */
  ghost predicate Taggable(b: Bank, r: nat, ids: set<nat>, from: Option<nat>, to: Option<nat>) {
    && r < |b.recs| && !b.recs[r].reconciled
    && from in [None, Some(r)] && to in [None, Some(r)] && (from.None? || to.None?)
    && forall i :: i in ids ==>
         i < |b.lines| && b.lines[i].reconciliation == from
         && b.lines[i].account == b.recs[r].account && b.lines[i].tenant == b.recs[r].tenant
  }

  /** Moving free lines of its account into an open reconciliation, or its own lines out of it, touches no
      completed one. */
  lemma TagKeeps(b: Bank, r: nat, ids: set<nat>, from: Option<nat>, to: Option<nat>)
    requires Inv(b) && Taggable(b, r, ids, from, to)
    ensures var b' := b.(lines := Tag(b.lines, ids, to));
            Inv(b') && Frozen(b, b') && NothingStolen(b, b')
  {
    hide MatchedNet, Frozen, NothingStolen;
    var b' := b.(lines := Tag(b.lines, ids, to));
    TagFreezes(b, r, ids, from, to);
    forall q: nat | q != r
      ensures MatchedNet(b'.lines, q) == MatchedNet(b.lines, q)
    {
      NetSame(b.lines, b'.lines, q);
    }
  }

  lemma TagFreezes(b: Bank, r: nat, ids: set<nat>, from: Option<nat>, to: Option<nat>)
    requires Taggable(b, r, ids, from, to)
    ensures var b' := b.(lines := Tag(b.lines, ids, to));
            Frozen(b, b') && NothingStolen(b, b')
  {
  }

  lemma AutoUsesFreeLines(lines: seq<Line>, rec: Reconciliation)
    ensures forall id :: id in Used(AutoMatching(lines, rec)) ==>
              id < |lines| && Free(lines[id], rec.tenant, rec.account)
  {
    var ids := FreeIds(lines, rec.tenant, rec.account);
    GreedyMaximal(lines, ids, rec.transactions);
    var m := AutoMatching(lines, rec);
    forall id | id in Used(m)
      ensures id < |lines| && Free(lines[id], rec.tenant, rec.account)
    {
      var i :| 0 <= i < |m| && m[i].Some? && m[i].value == id;
      assert id in ids;
    }
  }

  lemma {:induction false} NewLinesNet(lines: seq<Line>, rows: seq<Line>, r: nat)
    requires forall i :: 0 <= i < |rows| ==> rows[i].reconciliation.None?
    ensures MatchedNet(lines + rows, r) == MatchedNet(lines, r)
  {
    if rows == [] {
      assert lines + rows == lines;
    } else {
      NewLinesNet(lines, rows[..|rows| - 1], r);
      assert (lines + rows)[..|lines + rows| - 1] == lines + rows[..|rows| - 1];
    }
  }

  lemma NewLinesKeep(b: Bank, rows: seq<Line>)
    requires Inv(b) && forall i :: 0 <= i < |rows| ==> rows[i].reconciliation.None?
    ensures var b' := b.(lines := b.lines + rows);
            Inv(b') && Frozen(b, b') && NothingStolen(b, b')
  {
    hide MatchedNet;
    forall r: nat
      ensures MatchedNet(b.lines + rows, r) == MatchedNet(b.lines, r)
    {
      NewLinesNet(b.lines, rows, r);
    }
  }

  lemma UploadKeeps(b: Bank, rec: Reconciliation)
    requires Inv(b) && !rec.reconciled
    ensures var b' := b.(recs := b.recs + [rec]);
            Inv(b') && Frozen(b, b') && NothingStolen(b, b')
  {
    hide MatchedNet;
  }

  lemma CompleteKeeps(b: Bank, tenant: nat, r: nat)
    requires Inv(b) && CompleteError(b.lines, b.recs, tenant, r) == None
    ensures var b' := b.(recs := b.recs[r := b.recs[r].(reconciled := true)]);
            Inv(b') && Frozen(b, b') && NothingStolen(b, b')
  {
    hide MatchedNet;
  }

  lemma StepKeeps(b: Bank, e: Event)
    requires Inv(b)
    ensures Inv(Next(b, e)) && Frozen(b, Next(b, e)) && NothingStolen(b, Next(b, e))
  {
    hide AutoMatching, Used, Tag, Inv, MatchedNet;
    match e
    case Upload(tenant, account, opening, closing, ls) =>
      var rec := Reconciliation(tenant, account, Round(opening), Round(closing), StoredTransactions(ls), false);
      UploadKeeps(b, rec);
    case Auto(tenant, r) =>
      if OpenError(b.recs, tenant, r).None? {
        AutoUsesFreeLines(b.lines, b.recs[r]);
        TagKeeps(b, r, Used(AutoMatching(b.lines, b.recs[r])), None, Some(r));
      }
    case Match(tenant, r, ids) =>
      if OpenError(b.recs, tenant, r).None? {
        TagKeeps(b, r, Selected(b.lines, ids, b.recs[r], None), None, Some(r));
      }
    case Unmatch(tenant, r, ids) =>
      if OpenError(b.recs, tenant, r).None? {
        TagKeeps(b, r, Selected(b.lines, ids, b.recs[r], Some(r)), Some(r), None);
      }
    case Complete(tenant, r) =>
      if CompleteError(b.lines, b.recs, tenant, r).None? { CompleteKeeps(b, tenant, r); }
    case NewLines(rows) =>
      if forall i :: 0 <= i < |rows| ==> rows[i].reconciliation.None? { NewLinesKeep(b, rows); }
  }

  /** In every reachable state completed reconciliations tie out, and from any state on they stay frozen,
      whatever is uploaded, matched, unmatched, completed or posted afterwards. */
  lemma {:induction false} RunKeeps(b: Bank, events: seq<Event>)
    requires Inv(b)
    ensures Inv(Run(b, events)) && Frozen(b, Run(b, events))
  {
    hide Inv, Next;
    if events != [] {
      var init := events[..|events| - 1];
      RunKeeps(b, init);
      StepKeeps(Run(b, init), events[|events| - 1]);
    }
  }

  lemma EmptyBank(accounts: seq<Account>)
    ensures Inv(Bank(accounts, [], []))
  {
  }

  lemma {:induction false} RunInTwo(b: Bank, events: seq<Event>, later: seq<Event>)
    ensures Run(b, events + later) == Run(Run(b, events), later)
  {
    hide Next;
    if later == [] {
      assert events + later == events;
    } else {
      RunInTwo(b, events, later[..|later| - 1]);
      assert (events + later)[..|events + later| - 1] == events + later[..|later| - 1];
    }
  }

  /** So from a bank without lines and reconciliations on, every run ends with all completed reconciliations tied
      out, and what was completed after any part of it is unchanged at its end. */
  lemma {:induction false} RunFromEmpty(accounts: seq<Account>, events: seq<Event>, later: seq<Event>)
    ensures var start := Bank(accounts, [], []);
            Inv(Run(start, events + later)) && Frozen(Run(start, events), Run(start, events + later))
  {
    hide Inv, Frozen, Run;
    var start := Bank(accounts, [], []);
    EmptyBank(accounts);
    RunKeeps(start, events);
    RunKeeps(Run(start, events), later);
    RunInTwo(start, events, later);
  }

  // ---- what matching adds up to ----

  function Amounts(txns: seq<Transaction>, m: seq<Option<nat>>): int
    requires |txns| == |m|
  {
    if m == [] then 0
    else
      var n := |m| - 1;
      Amounts(txns[..n], m[..n]) + if m[n].Some? then txns[n].amount else 0
  }

  lemma {:induction false} MoveNet(lines: seq<Line>, id: nat, r: nat)
    requires id < |lines| && lines[id].reconciliation.None?
    ensures MatchedNet(lines[id := lines[id].(reconciliation := Some(r))], r)
            == MatchedNet(lines, r) + lines[id].debit - lines[id].credit
  {
    var moved := lines[id := lines[id].(reconciliation := Some(r))];
    var n := |lines| - 1;
    if id < n {
      MoveNet(lines[..n], id, r);
      assert moved[..n] == lines[..n][id := lines[id].(reconciliation := Some(r))];
    } else {
      assert moved[..n] == lines[..n];
    }
  }

  /** A matching moves exactly the amounts of the transactions it covers into the reconciliation. */
  lemma {:induction false} MatchingNet(lines: seq<Line>, ids: seq<nat>, txns: seq<Transaction>, m: seq<Option<nat>>,
                                       r: nat)
    requires forall i :: 0 <= i < |ids| ==> ids[i] < |lines| && lines[ids[i]].reconciliation.None?
    requires Matching(lines, ids, txns, m)
    ensures MatchedNet(Tag(lines, Used(m), Some(r)), r) == MatchedNet(lines, r) + Amounts(txns, m)
  {
    hide MatchedNet, Used, Matching, Tag, Compatible;
    if m == [] {
      NothingMatched(lines, ids, Some(r));
    } else {
      var n := |m| - 1;
      LastPair(lines, ids, txns, m);
      MatchingNet(lines, ids, txns[..n], m[..n], r);
      assert m[..n] + [m[n]] == m;
      OneMore(m[..n], m[n]);
      if m[n].Some? {
        TagOne(lines, Used(m[..n]), m[n].value, Some(r));
        MoveNet(Tag(lines, Used(m[..n]), Some(r)), m[n].value, r);
      } else {
        assert Used(m) == Used(m[..n]);
      }
    }
  }

  lemma LastPair(lines: seq<Line>, ids: seq<nat>, txns: seq<Transaction>, m: seq<Option<nat>>)
    requires forall i :: 0 <= i < |ids| ==> ids[i] < |lines|
    requires Matching(lines, ids, txns, m) && m != []
    ensures var n := |m| - 1;
            && |txns| == |m| && Matching(lines, ids, txns[..n], m[..n])
            && (m[n].Some? ==>
                  && m[n].value in ids && m[n].value < |lines| && m[n].value !in Used(m[..n])
                  && txns[n].amount == lines[m[n].value].debit - lines[m[n].value].credit)
  {
  }

  function SumAmounts(txns: seq<Transaction>): int {
    if txns == [] then 0 else SumAmounts(txns[..|txns| - 1]) + txns[|txns| - 1].amount
  }

  lemma {:induction false} AllCovered(txns: seq<Transaction>, m: seq<Option<nat>>)
    requires |txns| == |m| && Count(m) == |m|
    ensures Amounts(txns, m) == SumAmounts(txns)
  {
    if m != [] {
      CountAtMost(m[..|m| - 1]);
      AllCovered(txns[..|m| - 1], m[..|m| - 1]);
    }
  }

  lemma {:induction false} CountAtMost(m: seq<Option<nat>>)
    ensures Count(m) <= |m|
  {
    if m != [] { CountAtMost(m[..|m| - 1]); }
  }

  /** A reconciliation whose transactions are all matched automatically can be completed exactly when the
      statement itself adds up, apart from what was matched to it before. */
  lemma {:induction false} FullMatchCompletes(b: Bank, tenant: nat, r: nat)
    requires OpenError(b.recs, tenant, r) == None
    requires Count(AutoMatching(b.lines, b.recs[r])) == |b.recs[r].transactions|
    ensures var b' := Next(b, Auto(tenant, r));
            CompleteError(b'.lines, b'.recs, tenant, r) == None
            <==> b.recs[r].opening + MatchedNet(b.lines, r) + SumAmounts(b.recs[r].transactions) == b.recs[r].closing
  {
    hide Used, Tag, MatchedNet, Count, Amounts, SumAmounts;
    var rec, m := b.recs[r], AutoMatching(b.lines, b.recs[r]);
    var ids := FreeIds(b.lines, rec.tenant, rec.account);
    GreedyMaximal(b.lines, ids, rec.transactions);
    MatchingNet(b.lines, ids, rec.transactions, m, r);
    AllCovered(rec.transactions, m);
  }

  /** A second automatic run adds nothing exactly when no transaction, matched before or not, is compatible
      with a line that is still free: transactions do not remember their lines. */
  lemma SecondRun(b: Bank, tenant: nat, r: nat)
    requires OpenError(b.recs, tenant, r) == None
    ensures var rec := b.recs[r];
            Count(AutoMatching(b.lines, rec)) == 0
            <==> forall i, id: nat ::
                   0 <= i < |rec.transactions| && id < |b.lines| && Free(b.lines[id], rec.tenant, rec.account)
                   ==> !Compatible(rec.transactions[i], b.lines[id])
  {
    hide Compatible, Count;
    var rec, m := b.recs[r], AutoMatching(b.lines, b.recs[r]);
    var ids := FreeIds(b.lines, rec.tenant, rec.account);
    GreedyMaximal(b.lines, ids, rec.transactions);
    CoveredCount(m);
    if Count(m) == 0 {
      assert Covered(m) == {};
      assert forall i: nat :: i < |m| ==> i !in Covered(m);
      UsedAtMostCount(m);
    } else {
      assert Covered(m) != {};
      var i :| i in Covered(m);
      assert m[i].value in ids;
    }
  }

  /** Right after an automatic run another one pairs no transaction that was left over: whatever it matches, it
      matches to a transaction that already has a line. */
  lemma SecondRunRematches(b: Bank, tenant: nat, r: nat)
    requires OpenError(b.recs, tenant, r) == None
    ensures var first := AutoMatching(b.lines, b.recs[r]);
            var second := AutoMatching(Next(b, Auto(tenant, r)).lines, b.recs[r]);
            |second| == |first| && forall i :: 0 <= i < |second| && second[i].Some? ==> first[i].Some?
  {
    hide Greedy, Used, Compatible, FreeIds;
    var rec, b' := b.recs[r], Next(b, Auto(tenant, r));
    var first, second := AutoMatching(b.lines, rec), AutoMatching(b'.lines, rec);
    var ids, ids' := FreeIds(b.lines, rec.tenant, rec.account), FreeIds(b'.lines, rec.tenant, rec.account);
    GreedyMaximal(b.lines, ids, rec.transactions);
    GreedyMaximal(b'.lines, ids', rec.transactions);
    forall i | 0 <= i < |second| && second[i].Some?
      ensures first[i].Some?
    {
      var id := second[i].value;
      assert id in ids' && id !in Used(first) && b'.lines[id] == b.lines[id];
      assert id in ids && Compatible(rec.transactions[i], b.lines[id]);
    }
  }

  /** That happens: of two equal lines that fit a statement's one transaction the first run takes one and the second
      the other. */
  lemma TransactionMatchedTwice(line: Line, rec: Reconciliation, r: nat)
    requires |rec.transactions| == 1 && Compatible(rec.transactions[0], line) && Free(line, rec.tenant, rec.account)
    ensures AutoMatching([line, line], rec) == [Some(0)]
    ensures AutoMatching(Tag([line, line], {0}, Some(r)), rec) == [Some(1)]
  {
    hide Greedy, Compatible, FreeIds, Tag;
    var matched := line.(reconciliation := Some(r));
    TagFirst(line, line, Some(r));
    FreeOfTwo(line, line, rec.tenant, rec.account);
    FreeOfTwo(matched, line, rec.tenant, rec.account);
    assert rec.transactions == [rec.transactions[0]];
    assert FreeIds([line, line], rec.tenant, rec.account) == [0, 1];
    assert FreeIds([matched, line], rec.tenant, rec.account) == [1];
    FirstOnly([line, line], [0, 1], rec.transactions[0]);
    FirstOnly([matched, line], [1], rec.transactions[0]);
  }

  lemma TagFirst(k: Line, l: Line, r: Option<nat>)
    ensures Tag([k, l], {0}, r) == [k.(reconciliation := r), l]
  {
  }

  lemma {:induction false} FreeOfTwo(k: Line, l: Line, tenant: nat, account: nat)
    ensures FreeIds([k, l], tenant, account)
            == (if Free(k, tenant, account) then [0] else []) + (if Free(l, tenant, account) then [1] else [])
  {
    hide Free, FreeIds;
    OneMoreFree([], k, tenant, account);
    OneMoreFree([k], l, tenant, account);
    assert [] + [k] == [k] && [k] + [l] == [k, l];
  }

  lemma {:induction false} OneMoreFree(lines: seq<Line>, l: Line, tenant: nat, account: nat)
    ensures FreeIds(lines + [l], tenant, account)
            == FreeIds(lines, tenant, account) + if Free(l, tenant, account) then [|lines|] else []
    ensures FreeIds([], tenant, account) == []
  {
    assert (lines + [l])[..|lines|] == lines;
  }

  lemma {:induction false} FirstOnly(lines: seq<Line>, ids: seq<nat>, t: Transaction)
    requires ids != [] && (forall i :: 0 <= i < |ids| ==> ids[i] < |lines|) && Compatible(t, lines[ids[0]])
    ensures Greedy(lines, ids, [t]) == [Some(ids[0])]
  {
    FirstFound(lines, ids, t);
    assert [t][..0] == [] && Used([]) == {};
  }

  lemma {:induction false} FirstFound(lines: seq<Line>, ids: seq<nat>, t: Transaction)
    requires ids != [] && (forall i :: 0 <= i < |ids| ==> ids[i] < |lines|) && Compatible(t, lines[ids[0]])
    ensures FirstMatch(lines, ids, {}, t) == Some(ids[0])
  {
    if |ids| > 1 { FirstFound(lines, ids[..|ids| - 1], t); } else { assert ids[..0] == []; }
  }

  // ---- which lines are matched ----

  /** Every automatic match is of a free line of the account with exactly the transaction's amount, entered at most
      three days from its date; and no transaction and free line like that are both left over. */
  lemma MatchesAre(lines: seq<Line>, rec: Reconciliation, i: nat, id: nat)
    requires i < |rec.transactions| && id < |lines|
    ensures var m, t, l := AutoMatching(lines, rec), rec.transactions[i], lines[id];
            var fits := && l.tenant == rec.tenant && l.account == rec.account && l.reconciliation == None
                        && t.amount == l.debit - l.credit && -259200000 <= t.date - l.createdAt <= 259200000;
            && |m| == |rec.transactions|
            && (m[i] == Some(id) ==> fits)
            && (m[i] == None && (forall k :: 0 <= k < |m| ==> m[k] != Some(id)) ==> !fits)
  {
    hide Greedy;
    var ids := FreeIds(lines, rec.tenant, rec.account);
    GreedyMaximal(lines, ids, rec.transactions);
    var m := AutoMatching(lines, rec);
    if m[i] == Some(id) { assert id in ids; }
    if forall k :: 0 <= k < |m| ==> m[k] != Some(id) { assert id !in Used(m); }
  }

  /** A manual match takes exactly the named free lines of the account into a draft of the tenant; no other line
      changes. */
  lemma ManuallyMatched(b: Bank, tenant: nat, r: nat, ids: seq<nat>, i: nat)
    requires i < |b.lines|
    ensures var l, t := b.lines[i], Next(b, Match(tenant, r, ids));
            && t.recs == b.recs && |t.lines| == |b.lines|
            && t.lines[i] == if r < |b.recs| && b.recs[r].tenant == tenant && !b.recs[r].reconciled && i in ids
                                && l.tenant == tenant && l.account == b.recs[r].account && l.reconciliation == None
                             then l.(reconciliation := Some(r)) else l
  {
  }

  /** A manual unmatch frees exactly the named lines of a draft of the tenant. */
  lemma ManuallyUnmatched(b: Bank, tenant: nat, r: nat, ids: seq<nat>, i: nat)
    requires Inv(b) && i < |b.lines|
    ensures var l, t := b.lines[i], Next(b, Unmatch(tenant, r, ids));
            && t.recs == b.recs && |t.lines| == |b.lines|
            && t.lines[i] == if r < |b.recs| && b.recs[r].tenant == tenant && !b.recs[r].reconciled && i in ids
                                && l.reconciliation == Some(r)
                             then l.(reconciliation := None) else l
  {
    hide MatchedNet;
    if b.lines[i].reconciliation.Some? { assert OnAccount(b, b.lines[i]); }
  }

  /** A statement is stored with its transactions in order, each on its date and rounded to cents. */
  lemma UploadedAs(b: Bank, tenant: nat, account: nat, opening: real, closing: real, ls: seq<StatementLine>, k: nat)
    requires account < |b.accounts| && b.accounts[account].tenant == tenant && k < |ls|
    ensures var t := Next(b, Upload(tenant, account, opening, closing, ls));
            && |t.recs| == |b.recs| + 1 && t.recs[..|b.recs|] == b.recs && t.lines == b.lines
            && var rec := t.recs[|b.recs|];
               && rec.tenant == tenant && rec.account == account && !rec.reconciled
               && rec.opening == Round(opening) && rec.closing == Round(closing)
               && |rec.transactions| == |ls| && rec.transactions[k] == Transaction(ls[k].date, Round(ls[k].amount))
  {
    hide Round;
  }
}
