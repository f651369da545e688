/** Stock at weighted average cost (inventory.service.ts). A quantity is measured in ten-thousandths, the
    last place of its column, and a cost in cents. */
module Inventory {
  import opened Schema
  import opened Money

  const UNIT := 10000.0  // one whole unit of an item

  function FindBalance(balances: seq<Balance>, item: nat, warehouse: nat): (i: Option<nat>)
    ensures i.Some? ==>
              i.value < |balances| && balances[i.value].item == item && balances[i.value].warehouse == warehouse
    ensures i.None? ==>
              forall k :: 0 <= k < |balances| ==> balances[k].item != item || balances[k].warehouse != warehouse
  {
    if balances == [] then None
    else
      var earlier, last := FindBalance(balances[..|balances| - 1], item, warehouse), balances[|balances| - 1];
      if earlier.Some? then earlier
      else if last.item == item && last.warehouse == warehouse then Some(|balances| - 1)
      else None
  }

  /** What a warehouse has of an item. */
  function Available(balances: seq<Balance>, item: nat, warehouse: nat): int {
    var i := FindBalance(balances, item, warehouse);
    if i.Some? then balances[i.value].quantity else 0
  }

  /** What all warehouses have of an item. */
  function OnHand(balances: seq<Balance>, item: nat): int {
    if balances == [] then 0
    else
      var b := balances[|balances| - 1];
      OnHand(balances[..|balances| - 1], item) + if b.item == item then b.quantity else 0
  }

  function Upserted(balances: seq<Balance>, item: nat, warehouse: nat, change: real): seq<Balance> {
    match FindBalance(balances, item, warehouse)
    case Some(i) => balances[i := balances[i].(quantity := Round(balances[i].quantity as real + change))]
    case None => balances + [Balance(item, warehouse, Round(change))]
  }

  method UpsertBalance(db: Database, item: nat, warehouse: nat, change: real)
    modifies db`balances
    ensures db.balances == Upserted(old(db.balances), item, warehouse, change)
  {
    var existing := FindBalance(db.balances, item, warehouse);
    if existing.Some? {
      var b := db.balances[existing.value];
      db.balances := db.balances[existing.value := b.(quantity := Round(b.quantity as real + change))];
    } else {
      db.balances := db.balances + [Balance(item, warehouse, Round(change))];
    }
  }

  // ---- receipts ----

  function InwardError(s: Stock, item: nat, quantity: real): (e: Option<Error>)
    ensures e.None? ==> item < |s.items|
  {
    if item >= |s.items| then Some(NoItem)
    else if quantity == 0.0 || OnHand(s.balances, item) as real + quantity == 0.0 then Some(NotANumber)
    else None
  }

  /** The value on hand plus the cost received, over the new quantity. */
  function Average(onHand: int, average: int, quantity: real, cost: real): int
    requires onHand as real + quantity != 0.0
  {
    Round((onHand as real * average as real + UNIT * cost) / (onHand as real + quantity))
  }

  function UnitCost(quantity: real, cost: real): int
    requires quantity != 0.0
  {
    Round(UNIT * (UNIT * cost / quantity))
  }

  function Received(s: Stock, item: nat, warehouse: nat, quantity: real, cost: real): Stock
    requires InwardError(s, item, quantity) == None
  {
    var average := Average(OnHand(s.balances, item), s.items[item].average, quantity, cost);
    Stock(s.items[item := s.items[item].(average := average)],
          Upserted(s.balances, item, warehouse, quantity),
          s.movements + [Movement(Purchase, item, warehouse, Round(quantity), UnitCost(quantity, cost))])
  }

  method ProcessInwardMovement(db: Database, item: nat, warehouse: nat, quantity: real, cost: real)
    returns (r: Result<()>)
    modifies db`items, db`balances, db`movements
    ensures var before := old(db.Inventory());
            match InwardError(before, item, quantity)
            case Some(e) => r == Err(e) && db.Inventory() == before
            case None => r == Ok(()) && db.Inventory() == Received(before, item, warehouse, quantity, cost)
  {
    if item >= |db.items| {
      return Err(NoItem);
    }
    hide Average, UnitCost, Upserted, FindBalance;
    var onHand := OnHand(db.balances, item);
    if quantity == 0.0 || onHand as real + quantity == 0.0 {
      return Err(NotANumber);
    }
    var unitCost := UnitCost(quantity, cost);
    var average := Average(onHand, db.items[item].average, quantity, cost);
    db.items := db.items[item := db.items[item].(average := average)];
    UpsertBalance(db, item, warehouse, quantity);
    db.movements := db.movements + [Movement(Purchase, item, warehouse, Round(quantity), unitCost)];
    r := Ok(());
  }

  // ---- sales ----

  function OutwardError(s: Stock, item: nat, warehouse: nat, quantity: real): (e: Option<Error>)
    ensures e.None? ==> item < |s.items| && FindBalance(s.balances, item, warehouse).Some?
                        && quantity <= Available(s.balances, item, warehouse) as real
  {
    if item >= |s.items| then Some(NoItem)
    else if FindBalance(s.balances, item, warehouse).None?
            || Available(s.balances, item, warehouse) as real < quantity then Some(InsufficientStock)
    else None
  }

  /** The average cost as a movement records it. */
  function AverageCost(item: Item): int {
    10000 * item.average
  }

  function Sold(s: Stock, item: nat, warehouse: nat, quantity: real): Stock
    requires item < |s.items|
  {
    s.(balances := Upserted(s.balances, item, warehouse, -quantity),
       movements := s.movements + [Movement(Sale, item, warehouse, Round(-quantity), AverageCost(s.items[item]))])
  }

  /** Cost of goods sold, in cents. */
  function Cogs(item: Item, quantity: real): real {
    item.average as real * (quantity / UNIT)
  }

  method ProcessOutwardMovement(db: Database, item: nat, warehouse: nat, quantity: real) returns (r: Result<real>)
    modifies db`balances, db`movements
    ensures var before := old(db.Inventory());
            match OutwardError(before, item, warehouse, quantity)
            case Some(e) => r == Err(e) && db.Inventory() == before
            case None =>
              && r == Ok(Cogs(before.items[item], quantity))
              && db.Inventory() == Sold(before, item, warehouse, quantity)
  {
    if item >= |db.items| {
      return Err(NoItem);
    }
    var balance := FindBalance(db.balances, item, warehouse);
    if balance.None? || db.balances[balance.value].quantity as real < quantity {
      return Err(InsufficientStock);
    }
    hide Cogs, Upserted;
    UpsertBalance(db, item, warehouse, -quantity);
    db.movements := db.movements + [Movement(Sale, item, warehouse, Round(-quantity), AverageCost(db.items[item]))];
    r := Ok(Cogs(db.items[item], quantity));
  }

  // ---- transfers ----

  function Moved(s: Stock, item: nat, from: nat, to: nat, quantity: real): Stock
    requires item < |s.items|
  {
    var unitCost := AverageCost(s.items[item]);
    s.(balances := Upserted(Upserted(s.balances, item, from, -quantity), item, to, quantity),
       movements := s.movements + [Movement(Transfer, item, from, Round(-quantity), unitCost),
                                   Movement(Transfer, item, to, Round(quantity), unitCost)])
  }

  /** Nothing asks for the quantity to be positive. */
  method TransferInventory(db: Database, item: nat, from: nat, to: nat, quantity: real) returns (r: Result<()>)
    requires forall i :: 0 <= i < |db.balances| ==> db.balances[i].item < |db.items|
    modifies db`balances, db`movements
    ensures var before := old(db.Inventory());
            if OutwardError(before, item, from, quantity).Some?
            then r == Err(InsufficientStock) && db.Inventory() == before
            else r == Ok(()) && db.Inventory() == Moved(before, item, from, to, quantity)
  {
    var source := FindBalance(db.balances, item, from);
    if source.None? || db.balances[source.value].quantity as real < quantity {
      return Err(InsufficientStock);
    }
    var unitCost := AverageCost(db.items[item]);
    UpsertBalance(db, item, from, -quantity);
    db.movements := db.movements + [Movement(Transfer, item, from, Round(-quantity), unitCost)];
    UpsertBalance(db, item, to, quantity);
    db.movements := db.movements + [Movement(Transfer, item, to, Round(quantity), unitCost)];
    r := Ok(());
  }

  // ---- runs ----

  datatype Event =
    | Receive(item: nat, warehouse: nat, quantity: real, cost: real)
    | Sell(item: nat, warehouse: nat, quantity: real)
    | Move(item: nat, from: nat, to: nat, quantity: real)

  /** An item starts without stock at average cost zero. */
  function Start(items: seq<Item>): Stock {
    Stock(seq(|items|, i requires 0 <= i < |items| => items[i].(average := 0)), [], [])
  }

  function Next(s: Stock, e: Event): Stock {
    match e
    case Receive(item, warehouse, quantity, cost) =>
      if InwardError(s, item, quantity).Some? then s else Received(s, item, warehouse, quantity, cost)
    case Sell(item, warehouse, quantity) =>
      if OutwardError(s, item, warehouse, quantity).Some? then s else Sold(s, item, warehouse, quantity)
    case Move(item, from, to, quantity) =>
      if OutwardError(s, item, from, quantity).Some? then s else Moved(s, item, from, to, quantity)
  }

  function Run(items: seq<Item>, events: seq<Event>): Stock {
    if events == [] then Start(items) else Next(Run(items, events[..|events| - 1]), events[|events| - 1])
  }

  /** A positive quantity that its column can hold. */
  predicate Countable(quantity: real) {
    quantity > 0.0 && quantity == quantity.Floor as real
  }

  /** What a sale may ask for: possibly nothing. */
  predicate Whole(quantity: real) {
    quantity >= 0.0 && quantity == quantity.Floor as real
  }

  /** Quantities come with the decimals their source keeps: two on an invoice line, so a whole number of places,
      and any number, of either sign, on a transfer. A transfer that passes the check fits if it moves nothing at a
      half place and nothing negative that its destination does not cover up to rounding. */
  predicate Fits(s: Stock, e: Event) {
    if e.Move? then
      OutwardError(s, e.item, e.from, e.quantity).None? ==>
        !Half(e.quantity) && (e.from == e.to || -0.5 < Available(s.balances, e.item, e.to) as real + e.quantity)
    else Whole(e.quantity)
  }

  predicate AllFit(items: seq<Item>, events: seq<Event>) {
    events != [] ==>
      var init := events[..|events| - 1];
      AllFit(items, init) && Fits(Run(items, init), events[|events| - 1])
  }

  // ---- the balance table and the movement log ----

  function Logged(movements: seq<Movement>, item: nat, warehouse: nat): int {
    if movements == [] then 0
    else
      var m := movements[|movements| - 1];
      Logged(movements[..|movements| - 1], item, warehouse)
      + if m.item == item && m.warehouse == warehouse then m.quantity else 0
  }

  /** Every warehouse has, of every item, what the log says, and never less than nothing. */
  ghost predicate Inv(s: Stock) {
    && Keyed(s.balances) && (forall i :: 0 <= i < |s.balances| ==> s.balances[i].item < |s.items|)
    && (forall item: nat, warehouse: nat ::
          && Available(s.balances, item, warehouse) == Logged(s.movements, item, warehouse)
          && Available(s.balances, item, warehouse) >= 0)
  }

  ghost predicate Keyed(balances: seq<Balance>) {
    forall i, j :: 0 <= i < j < |balances| ==>
      balances[i].item != balances[j].item || balances[i].warehouse != balances[j].warehouse
  }

  lemma {:induction false} FindUpdated(balances: seq<Balance>, k: nat, quantity: int, item: nat, warehouse: nat)
    requires k < |balances|
    ensures FindBalance(balances[k := balances[k].(quantity := quantity)], item, warehouse)
            == FindBalance(balances, item, warehouse)
  {
    var n, updated := |balances| - 1, balances[k := balances[k].(quantity := quantity)];
    if k < n {
      FindUpdated(balances[..n], k, quantity, item, warehouse);
      assert updated[..n] == balances[..n][k := balances[k].(quantity := quantity)];
    } else {
      assert updated[..n] == balances[..n];
    }
  }

  lemma {:induction false} OnHandUpdated(balances: seq<Balance>, k: nat, quantity: int, item: nat)
    requires k < |balances|
    ensures OnHand(balances[k := balances[k].(quantity := quantity)], item)
            == OnHand(balances, item) + if balances[k].item == item then quantity - balances[k].quantity else 0
  {
    var n, updated := |balances| - 1, balances[k := balances[k].(quantity := quantity)];
    if k < n {
      OnHandUpdated(balances[..n], k, quantity, item);
      assert updated[..n] == balances[..n][k := balances[k].(quantity := quantity)];
    } else {
      assert updated[..n] == balances[..n];
    }
  }

  /** An upsert of a whole number of places changes one balance by that number. */
  lemma UpsertedEffect(balances: seq<Balance>, item: nat, warehouse: nat, n: int, i: nat, w: nat)
    ensures var after := Upserted(balances, item, warehouse, n as real);
            && Available(after, i, w) == Available(balances, i, w) + (if i == item && w == warehouse then n else 0)
            && OnHand(after, i) == OnHand(balances, i) + (if i == item then n else 0)
            && (Keyed(balances) ==> Keyed(after))
            && (forall k :: 0 <= k < |after| ==>
                  after[k].item == item || (k < |balances| && after[k].item == balances[k].item))
  {
    hide Round;
    var after := Upserted(balances, item, warehouse, n as real);
    match FindBalance(balances, item, warehouse)
    case Some(k) =>
      var quantity := balances[k].quantity + n;
      assert balances[k].quantity as real + n as real == quantity as real;
      RoundWhole(quantity);
      FindUpdated(balances, k, quantity, i, w);
      OnHandUpdated(balances, k, quantity, i);
    case None =>
      RoundWhole(n);
      assert after[..|balances|] == balances;
  }

  lemma {:induction false} LoggedOne(movements: seq<Movement>, m: Movement, item: nat, warehouse: nat)
    ensures Logged(movements + [m], item, warehouse)
            == Logged(movements, item, warehouse)
               + if m.item == item && m.warehouse == warehouse then m.quantity else 0
  {
    assert (movements + [m])[..|movements|] == movements;
  }

  lemma ReceivedKeeps(s: Stock, item: nat, warehouse: nat, quantity: real, cost: real)
    requires Inv(s) && Countable(quantity) && InwardError(s, item, quantity) == None
    ensures Inv(Received(s, item, warehouse, quantity, cost))
  {
    hide Available, Logged, Upserted, Average, UnitCost, Round;
    var t, n := Received(s, item, warehouse, quantity, cost), quantity.Floor;
    RoundWhole(n);
    UpsertedEffect(s.balances, item, warehouse, n, item, warehouse);
    forall i: nat, w: nat
      ensures Available(t.balances, i, w) == Logged(t.movements, i, w) && Available(t.balances, i, w) >= 0
    {
      UpsertedEffect(s.balances, item, warehouse, n, i, w);
      LoggedOne(s.movements, t.movements[|s.movements|], i, w);
    }
  }

  lemma SoldKeeps(s: Stock, item: nat, warehouse: nat, quantity: real)
    requires Inv(s) && Whole(quantity) && OutwardError(s, item, warehouse, quantity) == None
    ensures Inv(Sold(s, item, warehouse, quantity))
  {
    hide Available, Logged, Upserted, Round, FindBalance;
    var t, n := Sold(s, item, warehouse, quantity), quantity.Floor;
    assert -quantity == (-n) as real;
    RoundWhole(-n);
    UpsertedEffect(s.balances, item, warehouse, -n, item, warehouse);
    forall i: nat, w: nat
      ensures Available(t.balances, i, w) == Logged(t.movements, i, w) && Available(t.balances, i, w) >= 0
    {
      UpsertedEffect(s.balances, item, warehouse, -n, i, w);
      LoggedOne(s.movements, t.movements[|s.movements|], i, w);
    }
  }

  /** An upsert of any quantity changes one balance by the whole number of places that rounding leaves. */
  lemma UpsertedWhole(balances: seq<Balance>, item: nat, warehouse: nat, change: real)
    ensures var had := Available(balances, item, warehouse);
            Upserted(balances, item, warehouse, change)
            == Upserted(balances, item, warehouse, (Round(had as real + change) - had) as real)
  {
    hide Round;
    var had := Available(balances, item, warehouse);
    var n := Round(had as real + change) - had;
    assert had as real + n as real == (had + n) as real;
    RoundWhole(had + n);
    RoundWhole(n);
  }

  /** The places a transfer takes from its source, and those it adds to its destination afterwards. */
  function Taken(s: Stock, item: nat, from: nat, quantity: real): int {
    var had := Available(s.balances, item, from);
    had - Round(had as real - quantity)
  }

  function Added(s: Stock, item: nat, from: nat, to: nat, quantity: real): int {
    var had := Available(s.balances, item, to) - if from == to then Taken(s, item, from, quantity) else 0;
    Round(had as real + quantity) - had
  }

  /** What a transfer of any quantity does to the balances and the log. */
  lemma {:induction false} MovedEffect(s: Stock, item: nat, from: nat, to: nat, quantity: real, i: nat, w: nat)
    requires item < |s.items|
    ensures var t, taken, added := Moved(s, item, from, to, quantity), Taken(s, item, from, quantity),
                                   Added(s, item, from, to, quantity);
            && Available(t.balances, i, w)
               == Available(s.balances, i, w) + (if i == item && w == to then added else 0)
                  - (if i == item && w == from then taken else 0)
            && Logged(t.movements, i, w)
               == Logged(s.movements, i, w) + (if i == item && w == to then Round(quantity) else 0)
                  - (if i == item && w == from then Round(quantity) else 0)
            && OnHand(t.balances, i) == OnHand(s.balances, i) + (if i == item then added - taken else 0)
            && (Keyed(s.balances) ==> Keyed(t.balances))
            && (forall k :: 0 <= k < |t.balances| ==>
                  t.balances[k].item == item || (k < |s.balances| && t.balances[k].item == s.balances[k].item))
  {
    hide Available, Logged, Upserted, Round, FindBalance, OnHand, Keyed, Taken, Added;
    var t, taken, added := Moved(s, item, from, to, quantity), Taken(s, item, from, quantity),
                           Added(s, item, from, to, quantity);
    TakenIs(s, item, from, quantity);
    UpsertedEffect(s.balances, item, from, -taken, i, w);
    UpsertedEffect(s.balances, item, from, -taken, item, to);
    AddedIs(s, item, from, to, quantity);
    UpsertedEffect(Upserted(s.balances, item, from, -quantity), item, to, added, i, w);
    RoundNegated(quantity);
    var first, second := t.movements[|s.movements|], t.movements[|s.movements| + 1];
    assert t.movements == (s.movements + [first]) + [second];
    LoggedOne(s.movements, first, i, w);
    LoggedOne(s.movements + [first], second, i, w);
  }

  lemma TakenIs(s: Stock, item: nat, from: nat, quantity: real)
    ensures Upserted(s.balances, item, from, -quantity)
            == Upserted(s.balances, item, from, (-Taken(s, item, from, quantity)) as real)
  {
    hide Available, Upserted, Round;
    var had := Available(s.balances, item, from);
    UpsertedWhole(s.balances, item, from, -quantity);
    assert had as real - quantity == had as real + -quantity;
    assert -Taken(s, item, from, quantity) == Round(had as real + -quantity) - had;
  }

  lemma AddedIs(s: Stock, item: nat, from: nat, to: nat, quantity: real)
    ensures var between := Upserted(s.balances, item, from, -quantity);
            Upserted(between, item, to, quantity)
            == Upserted(between, item, to, Added(s, item, from, to, quantity) as real)
  {
    hide Available, Upserted, Round, Taken, OnHand, Keyed;
    TakenIs(s, item, from, quantity);
    UpsertedEffect(s.balances, item, from, -Taken(s, item, from, quantity), item, to);
    UpsertedWhole(Upserted(s.balances, item, from, -quantity), item, to, quantity);
  }

  /** Away from halves both ends of a transfer round alike. At a half the source is rounded up, and so is the
      destination unless that leaves it negative. */
  lemma PlacesMoved(s: Stock, item: nat, from: nat, to: nat, quantity: real)
    requires quantity <= Available(s.balances, item, from) as real && 0 <= Available(s.balances, item, to)
    requires from == to ==> 0 <= Available(s.balances, item, from)
    ensures var taken, added := Taken(s, item, from, quantity), Added(s, item, from, to, quantity);
            if Half(quantity) then
              && taken == quantity.Floor
              && added == quantity.Floor
                          + if from == to || 0.0 <= Available(s.balances, item, to) as real + quantity then 1 else 0
            else taken == added == Round(quantity)
  {
    hide Round, Available;
    var a, b := Available(s.balances, item, from), Available(s.balances, item, to);
    var taken := Taken(s, item, from, quantity);
    var had := b - if from == to then taken else 0;
    RoundByFraction(quantity);
    ShiftedFloor(quantity, had);
    NegatedFloor(quantity, a);
    RoundByFraction(a as real - quantity);
    RoundByFraction(had as real + quantity);
  }

  lemma ShiftedFloor(x: real, n: int)
    ensures (n as real + x).Floor == n + x.Floor
  {
    assert (n + x.Floor) as real <= n as real + x < (n + x.Floor + 1) as real;
  }

  lemma NegatedFloor(x: real, n: int)
    ensures (n as real - x).Floor == n - x.Floor - if x == x.Floor as real then 0 else 1
  {
  }

  /** A transfer that creates a place: one at a half, unless it ends on a negative destination. */
  predicate Creates(s: Stock, item: nat, from: nat, to: nat, quantity: real) {
    Half(quantity) && (from == to || 0.0 <= Available(s.balances, item, to) as real + quantity)
  }

  /** Whatever quantity passes the check on the source, a transfer leaves the item's total as it was, and the
      balances on the log, exactly when it does not create a place; otherwise the total grows by one place. */
  lemma {:induction false} TransferConserves(s: Stock, item: nat, from: nat, to: nat, quantity: real)
    requires Inv(s) && OutwardError(s, item, from, quantity) == None
    ensures var t := Moved(s, item, from, to, quantity);
            && OnHand(t.balances, item)
               == OnHand(s.balances, item) + (if Creates(s, item, from, to, quantity) then 1 else 0)
            && (MatchesLog(t) <==> !Creates(s, item, from, to, quantity))
            && forall x: nat :: x != item ==> OnHand(t.balances, x) == OnHand(s.balances, x)
  {
    hide Available, Logged, Moved, Round, FindBalance, OnHand, Taken, Added;
    var t := Moved(s, item, from, to, quantity);
    PlacesMoved(s, item, from, to, quantity);
    RoundByFraction(quantity);
    MovedEffect(s, item, from, to, quantity, item, from);
    MovedEffect(s, item, from, to, quantity, item, to);
    forall i: nat, w: nat | i != item || w !in [from, to]
      ensures Available(t.balances, i, w) == Logged(t.movements, i, w)
    {
      MovedEffect(s, item, from, to, quantity, i, w);
    }
    forall x: nat | x != item
      ensures OnHand(t.balances, x) == OnHand(s.balances, x)
    {
      MovedEffect(s, item, from, to, quantity, x, from);
    }
  }

  ghost predicate MatchesLog(s: Stock) {
    forall item: nat, warehouse: nat ::
      Available(s.balances, item, warehouse) == Logged(s.movements, item, warehouse)
  }

  /** It leaves no balance negative exactly when the destination, should the quantity be negative, covers it up
      to rounding. */
  lemma TransferNonnegative(s: Stock, item: nat, from: nat, to: nat, quantity: real)
    requires Inv(s) && OutwardError(s, item, from, quantity) == None
    ensures NoneNegative(Moved(s, item, from, to, quantity).balances)
            <==> from == to || -0.5 < Available(s.balances, item, to) as real + quantity
  {
    hide Available, Logged, Moved, Round, FindBalance, OnHand, Taken, Added;
    var after := Moved(s, item, from, to, quantity).balances;
    PlacesMoved(s, item, from, to, quantity);
    RoundByFraction(quantity);
    MovedEffect(s, item, from, to, quantity, item, from);
    MovedEffect(s, item, from, to, quantity, item, to);
    forall i: nat, w: nat | i != item || w !in [from, to]
      ensures Available(after, i, w) == Available(s.balances, i, w)
    {
      MovedEffect(s, item, from, to, quantity, i, w);
    }
    assert NoneNegative(after) <==> Available(after, item, from) >= 0 && Available(after, item, to) >= 0;
  }

  ghost predicate NoneNegative(balances: seq<Balance>) {
    forall item: nat, warehouse: nat :: Available(balances, item, warehouse) >= 0
  }

  /** A transfer keeps the stock table sound exactly when its quantity is not at a half and does not leave the
      destination negative. */
  lemma TransferSound(s: Stock, item: nat, from: nat, to: nat, quantity: real)
    requires Inv(s) && OutwardError(s, item, from, quantity) == None
    ensures Inv(Moved(s, item, from, to, quantity))
            <==> !Half(quantity) && (from == to || -0.5 < Available(s.balances, item, to) as real + quantity)
  {
    hide Inv, Available, Moved, FindBalance, MatchesLog, NoneNegative, Tabled, OnHand, Half;
    InvParts(s);
    if Half(quantity) && -0.5 < Available(s.balances, item, to) as real + quantity {
      HalfNearZero(Available(s.balances, item, to), quantity);
    }
    TransferConserves(s, item, from, to, quantity);
    TransferNonnegative(s, item, from, to, quantity);
    MovedTable(s, item, from, to, quantity);
    InvParts(Moved(s, item, from, to, quantity));
  }

  lemma HalfNearZero(n: int, x: real)
    requires Half(x) && -0.5 < n as real + x
    ensures 0.0 <= n as real + x
  {
    ShiftedFloor(x, n);
  }

  /** One row per item and warehouse, for items that exist. */
  ghost predicate Tabled(s: Stock) {
    Keyed(s.balances) && forall i :: 0 <= i < |s.balances| ==> s.balances[i].item < |s.items|
  }

  lemma InvParts(s: Stock)
    ensures Inv(s) <==> Tabled(s) && MatchesLog(s) && NoneNegative(s.balances)
  {
    hide Available, Logged, Keyed;
  }

  lemma MovedTable(s: Stock, item: nat, from: nat, to: nat, quantity: real)
    requires Tabled(s) && item < |s.items|
    ensures Tabled(Moved(s, item, from, to, quantity))
  {
    hide Available, Logged, Moved, OnHand, Keyed, Taken, Added;
    MovedEffect(s, item, from, to, quantity, item, from);
    MovedItems(s, item, from, to, quantity);
  }

  lemma MovedItems(s: Stock, item: nat, from: nat, to: nat, quantity: real)
    requires item < |s.items|
    ensures Moved(s, item, from, to, quantity).items == s.items
  {
  }

  lemma StepKeeps(s: Stock, e: Event)
    requires Inv(s)
    ensures Fits(s, e) ==> Inv(Next(s, e))
    ensures e.Move? && Inv(Next(s, e)) ==> Fits(s, e)
    ensures |Next(s, e).items| == |s.items|
  {
    hide Inv;
    match e
    case Receive(item, warehouse, quantity, cost) =>
      if Whole(quantity) && InwardError(s, item, quantity).None? {
        ReceivedKeeps(s, item, warehouse, quantity, cost);
      }
    case Sell(item, warehouse, quantity) =>
      if Whole(quantity) && OutwardError(s, item, warehouse, quantity).None? {
        SoldKeeps(s, item, warehouse, quantity);
      }
    case Move(item, from, to, quantity) =>
      if OutwardError(s, item, from, quantity).None? {
        TransferSound(s, item, from, to, quantity);
        MovedItems(s, item, from, to, quantity);
      }
  }

  /** After any run that fits, the balance table is the sum of the movement log, without a negative balance. */
  lemma {:induction false} RunKeeps(items: seq<Item>, events: seq<Event>)
    requires AllFit(items, events)
    ensures Inv(Run(items, events)) && |Run(items, events).items| == |items|
  {
    hide Inv, Next, Fits;
    if events == [] {
      StartInv(items);
    } else {
      RunKeeps(items, events[..|events| - 1]);
      StepKeeps(Run(items, events[..|events| - 1]), events[|events| - 1]);
    }
  }

  /** No other run keeps the table so at every moment, as long as receipts and sales are of whole places. */
  lemma {:induction false} SoundRunsFit(items: seq<Item>, events: seq<Event>)
    requires forall i :: 0 <= i < |events| ==> events[i].Move? || Whole(events[i].quantity)
    requires forall n :: 0 <= n <= |events| ==> Inv(Run(items, events[..n]))
    ensures AllFit(items, events)
  {
    hide Inv, Next, Fits, Run;
    if events != [] {
      var init := events[..|events| - 1];
      forall n | 0 <= n <= |init|
        ensures Inv(Run(items, init[..n]))
      {
        assert init[..n] == events[..n];
      }
      assert events[..|events|] == events && init[..|init|] == init;
      SoundRunsFit(items, init);
      OneMoreEvent(items, events);
      StepKeeps(Run(items, init), events[|events| - 1]);
      if !events[|events| - 1].Move? { OtherFits(Run(items, init), events[|events| - 1]); }
    }
  }

  lemma {:induction false} OneMoreEvent(items: seq<Item>, events: seq<Event>)
    requires events != []
    ensures Run(items, events) == Next(Run(items, events[..|events| - 1]), events[|events| - 1])
  {
    hide Next;
  }

  lemma OtherFits(s: Stock, e: Event)
    requires !e.Move? && Whole(e.quantity)
    ensures Fits(s, e)
  {
  }

  lemma StartInv(items: seq<Item>)
    ensures Inv(Start(items))
  {
  }

  // ---- the average against the cost flow ----

  /** What went into an item's stock minus what was charged out of it, in ten-thousandths of a cent. */
  function Flow(items: seq<Item>, events: seq<Event>, x: nat): real {
    if events == [] then 0.0
    else
      var init, e := events[..|events| - 1], events[|events| - 1];
      Flow(items, init, x) + FlowOf(Run(items, init), e, x)
  }

  /** The quantities on hand just after each receipt, added up. */
  function Allowance(items: seq<Item>, events: seq<Event>, x: nat): int {
    if events == [] then 0
    else
      var init, e := events[..|events| - 1], events[|events| - 1];
      Allowance(items, init, x)
      + if Receives(Run(items, init), e, x) then OnHand(Run(items, events).balances, x) else 0
  }

  /** A receipt leaves the value within half a cent per unit on hand of what it should be. */
  lemma ReceiptDrift(onHand: int, average: int, n: int, cost: real)
    requires 0 <= onHand && 0 < n
    ensures var value := (onHand * average) as real + UNIT * cost;
            var after := ((onHand + n) * Average(onHand, average, n as real, cost)) as real;
            value - (onHand + n) as real * 0.5 <= after <= value + (onHand + n) as real * 0.5
  {
    assert onHand as real * average as real == (onHand * average) as real;
    assert onHand as real + n as real == (onHand + n) as real;
    RoundQuotient((onHand * average) as real + UNIT * cost, onHand + n);
  }

  /** A sale takes its cost of goods, and nothing else, out of quantity on hand times stored average. */
  lemma {:induction false} SaleDrift(s: Stock, item: nat, warehouse: nat, quantity: real)
    requires Whole(quantity) && item < |s.items|
    ensures var t := Sold(s, item, warehouse, quantity);
            (OnHand(t.balances, item) * t.items[item].average) as real
            == (OnHand(s.balances, item) * s.items[item].average) as real - UNIT * Cogs(s.items[item], quantity)
  {
    hide OnHand, Upserted, Round, Available;
    var n, average := quantity.Floor, s.items[item].average;
    assert -quantity == (-n) as real;
    UpsertedEffect(s.balances, item, warehouse, -n, item, warehouse);
    ShareOfValue(OnHand(s.balances, item), average, n);
  }

  lemma ShareOfValue(onHand: int, average: int, n: int)
    ensures ((onHand - n) * average) as real
            == (onHand * average) as real - UNIT * (average as real * (n as real / UNIT))
  {
    assert UNIT * (average as real * (n as real / UNIT)) == average as real * n as real;
    assert average as real * n as real == (average * n) as real;
    assert (onHand - n) * average == onHand * average - average * n;
  }

  // What an event does to one item's quantity on hand, its average and its flow.

  ghost predicate WithinDrift(s: Stock, x: nat, flow: real, allowance: int)
    requires x < |s.items|
  {
    var value := (OnHand(s.balances, x) * s.items[x].average) as real;
    0 <= OnHand(s.balances, x) && flow - allowance as real * 0.5 <= value <= flow + allowance as real * 0.5
  }

  lemma {:induction false} OnHandNonnegative(balances: seq<Balance>, x: nat)
    requires forall i :: 0 <= i < |balances| ==> 0 <= balances[i].quantity
    ensures 0 <= OnHand(balances, x)
  {
    if balances != [] { OnHandNonnegative(balances[..|balances| - 1], x); }
  }

  lemma {:induction false} RowIsAvailable(balances: seq<Balance>, k: nat)
    requires Keyed(balances) && k < |balances|
    ensures Available(balances, balances[k].item, balances[k].warehouse) == balances[k].quantity
  {
  }

  lemma {:induction false} InvOnHand(s: Stock, x: nat)
    requires Inv(s)
    ensures 0 <= OnHand(s.balances, x)
  {
    forall k | 0 <= k < |s.balances|
      ensures 0 <= s.balances[k].quantity
    {
      RowIsAvailable(s.balances, k);
    }
    OnHandNonnegative(s.balances, x);
  }

  /** After any run that fits, quantity on hand times stored average differs from the costs
      received minus the cost of goods sold by at most half a cent per unit on hand at each receipt; sales
      and transfers add nothing. */
  lemma {:induction false} Drift(items: seq<Item>, events: seq<Event>, x: nat)
    requires AllFit(items, events) && x < |items|
    ensures x < |Run(items, events).items|
    ensures WithinDrift(Run(items, events), x, Flow(items, events, x), Allowance(items, events, x))
  {
    hide Inv, OnHand, Received, Sold, Moved, Average, Cogs, WithinDrift;
    RunKeeps(items, events);
    if events == [] {
      StartDrift(items, x);
    } else {
      var init, e := events[..|events| - 1], events[|events| - 1];
      var s := Run(items, init);
      RunKeeps(items, init);
      Drift(items, init, x);
      StepDrift(s, e, x, Flow(items, init, x), Allowance(items, init, x));
    }
  }

  lemma StartDrift(items: seq<Item>, x: nat)
    requires x < |items|
    ensures WithinDrift(Start(items), x, 0.0, 0)
  {
  }

  /** Whether an event is an accepted receipt, or sale, of an item. */
  predicate Receives(s: Stock, e: Event, x: nat) {
    e.Receive? && e.item == x && InwardError(s, x, e.quantity).None?
  }

  predicate Sells(s: Stock, e: Event, x: nat) {
    e.Sell? && e.item == x && OutwardError(s, x, e.warehouse, e.quantity).None?
  }

  function FlowOf(s: Stock, e: Event, x: nat): real {
    if Receives(s, e, x) then UNIT * e.cost
    else if Sells(s, e, x) then -(UNIT * Cogs(s.items[x], e.quantity))
    else 0.0
  }

  /** An item's quantity on hand and average after an event. */
  lemma {:induction false} StepEffect(s: Stock, e: Event, x: nat)
    requires Inv(s) && Fits(s, e) && x < |s.items|
    ensures |Next(s, e).items| == |s.items|
    ensures var t, n := Next(s, e), e.quantity.Floor;
            && OnHand(t.balances, x)
               == OnHand(s.balances, x) + (if Receives(s, e, x) then n else if Sells(s, e, x) then -n else 0)
            && t.items[x].average
               == (if Receives(s, e, x) then Average(OnHand(s.balances, x), s.items[x].average, e.quantity, e.cost)
                   else s.items[x].average)
  {
    hide Available, Upserted, Round, FindBalance, OnHand, Average, UnitCost;
    var n := e.quantity.Floor;
    match e
    case Receive(item, warehouse, quantity, cost) =>
      UpsertedEffect(s.balances, item, warehouse, n, x, warehouse);
    case Sell(item, warehouse, quantity) =>
      assert -quantity == (-n) as real;
      UpsertedEffect(s.balances, item, warehouse, -n, x, warehouse);
    case Move(item, from, to, quantity) =>
      if OutwardError(s, item, from, quantity).None? {
        PlacesMoved(s, item, from, to, quantity);
        MovedEffect(s, item, from, to, quantity, x, from);
        MovedItems(s, item, from, to, quantity);
      }
  }

  lemma {:induction false} StepDrift(s: Stock, e: Event, x: nat, flow: real, allowance: int)
    requires Inv(s) && Fits(s, e) && x < |s.items| && WithinDrift(s, x, flow, allowance)
    ensures x < |Next(s, e).items|
    ensures var t := Next(s, e);
            WithinDrift(t, x, flow + FlowOf(s, e, x),
                        allowance + if Receives(s, e, x) then OnHand(t.balances, x) else 0)
  {
    hide Inv, Next, OnHand, Average, OutwardError;
    var n, onHand, average := e.quantity.Floor, OnHand(s.balances, x), s.items[x].average;
    StepKeeps(s, e);
    InvOnHand(Next(s, e), x);
    StepEffect(s, e, x);
    if Receives(s, e, x) {
      assert e.quantity != 0.0;
      ReceiptDrift(onHand, average, n, e.cost);
    } else if Sells(s, e, x) {
      ShareOfValue(onHand, average, n);
    }
  }

  // ---- the bounds of the average ----

  /** Every receipt of an item cost between lo and hi whole cents a unit. */
  ghost predicate CostsWithin(events: seq<Event>, x: nat, lo: int, hi: int) {
    forall i :: 0 <= i < |events| && events[i].Receive? && events[i].item == x ==>
      lo as real * events[i].quantity <= UNIT * events[i].cost <= hi as real * events[i].quantity
  }

  ghost predicate Stocked(events: seq<Event>, x: nat) {
    exists i :: 0 <= i < |events| && events[i].Receive? && events[i].item == x && events[i].quantity > 0.0
  }

  /** An average of amounts within whole-cent bounds is stored within them. */
  lemma AverageWithin(onHand: int, average: int, n: int, cost: real, lo: int, hi: int)
    requires 0 <= onHand && 0 < n
    requires onHand == 0 || lo <= average <= hi
    requires lo as real * n as real <= UNIT * cost <= hi as real * n as real
    ensures lo <= Average(onHand, average, n as real, cost) <= hi
  {
    ValueWithin(onHand, average, n, UNIT * cost, lo, hi);
    ProductAsReal(onHand, average);
    assert onHand as real + n as real == (onHand + n) as real;
    QuotientWithin((onHand * average) as real + UNIT * cost, onHand + n, lo, hi);
  }

  lemma ValueWithin(onHand: int, average: int, n: int, c: real, lo: int, hi: int)
    requires 0 <= onHand && 0 < n && (onHand == 0 || lo <= average <= hi)
    requires lo as real * n as real <= c <= hi as real * n as real
    ensures ((onHand + n) * lo) as real <= (onHand * average) as real + c <= ((onHand + n) * hi) as real
  {
    if onHand > 0 {
      ScaleInt(onHand, lo, average);
      ScaleInt(onHand, average, hi);
    }
    ProductAsReal(lo, n);
    ProductAsReal(hi, n);
    assert (onHand + n) * lo == onHand * lo + lo * n && (onHand + n) * hi == onHand * hi + hi * n;
  }

  lemma {:induction false} StepAverage(s: Stock, e: Event, x: nat, lo: int, hi: int, stocked: bool)
    requires Inv(s) && Fits(s, e) && x < |s.items|
    requires if stocked then lo <= s.items[x].average <= hi else OnHand(s.balances, x) == 0
    requires e.Receive? && e.item == x ==>
               lo as real * e.quantity <= UNIT * e.cost <= hi as real * e.quantity
    ensures x < |Next(s, e).items|
    ensures var t := Next(s, e);
            if stocked || (e.Receive? && e.item == x && e.quantity > 0.0) then lo <= t.items[x].average <= hi
            else OnHand(t.balances, x) == 0
  {
    hide Inv, Next, OnHand, Average, OutwardError;
    StepKeeps(s, e);
    InvOnHand(s, x);
    InvOnHand(Next(s, e), x);
    StepEffect(s, e, x);
    if Receives(s, e, x) {
      AverageWithin(OnHand(s.balances, x), s.items[x].average, e.quantity.Floor, e.cost, lo, hi);
    }
  }

  /** After any run that fits and received an item at all, its stored average is within any
      whole-cent bounds that all its receipts' unit costs were in. */
  lemma {:induction false} AverageInRun(items: seq<Item>, events: seq<Event>, x: nat, lo: int, hi: int)
    requires AllFit(items, events) && x < |items| && CostsWithin(events, x, lo, hi)
    ensures x < |Run(items, events).items|
    ensures var s := Run(items, events);
            if Stocked(events, x) then lo <= s.items[x].average <= hi else OnHand(s.balances, x) == 0
  {
    hide Inv, Next, Fits, OnHand, CostsWithin, Stocked;
    RunKeeps(items, events);
    if events == [] {
      NothingStocked(items, x);
    } else {
      var init, e := events[..|events| - 1], events[|events| - 1];
      RunKeeps(items, init);
      OneMoreCost(events, x, lo, hi);
      AverageInRun(items, init, x, lo, hi);
      StepAverage(Run(items, init), e, x, lo, hi, Stocked(init, x));
    }
  }

  lemma {:induction false} NothingStocked(items: seq<Item>, x: nat)
    ensures !Stocked([], x) && OnHand(Run(items, []).balances, x) == 0
  {
  }

  lemma OneMoreCost(events: seq<Event>, x: nat, lo: int, hi: int)
    requires events != [] && CostsWithin(events, x, lo, hi)
    ensures var init, e := events[..|events| - 1], events[|events| - 1];
            && CostsWithin(init, x, lo, hi)
            && (Stocked(events, x) <==> Stocked(init, x) || (e.Receive? && e.item == x && e.quantity > 0.0))
            && (e.Receive? && e.item == x ==> lo as real * e.quantity <= UNIT * e.cost <= hi as real * e.quantity)
  {
    var init := events[..|events| - 1];
    assert forall i :: 0 <= i < |init| ==> events[i] == init[i];
  }

  /** No item has a negative average cost. */
  ghost predicate Valued(s: Stock) {
    forall i :: 0 <= i < |s.items| ==> 0 <= s.items[i].average
  }

  lemma ReceivedValued(s: Stock, item: nat, warehouse: nat, quantity: real, cost: real)
    requires Inv(s) && Valued(s) && Countable(quantity) && 0.0 <= cost && InwardError(s, item, quantity) == None
    ensures Valued(Received(s, item, warehouse, quantity, cost))
  {
    hide Inv, Upserted, UnitCost, OnHand;
    var onHand, average, n := OnHand(s.balances, item), s.items[item].average, quantity.Floor;
    InvOnHand(s, item);
    ScaleInt(onHand, 0, average);
    AverageNonnegative(onHand, average, n, cost);
  }

  lemma AverageNonnegative(onHand: int, average: int, n: int, cost: real)
    requires 0 <= onHand * average && 0 <= onHand && 0 < n && 0.0 <= cost
    ensures 0 <= Average(onHand, average, n as real, cost)
  {
    ProductAsReal(onHand, average);
    assert onHand as real + n as real == (onHand + n) as real;
    Quotient((onHand * average) as real + UNIT * cost, (onHand + n) as real);
    var x := ((onHand * average) as real + UNIT * cost) / (onHand + n) as real;
    assert x < 0.0 ==> (onHand + n) as real * x < 0.0;
  }

  // ---- what the log records ----

  /** A receipt is logged with its quantity and a unit cost that gives back its cost to within half of the last place
      a unit. */
  lemma ReceiptLogged(s: Stock, item: nat, warehouse: nat, quantity: real, cost: real)
    requires Countable(quantity) && InwardError(s, item, quantity) == None
    ensures var t, n := Received(s, item, warehouse, quantity, cost), quantity.Floor;
            && |t.movements| == |s.movements| + 1
            && var m := t.movements[|s.movements|];
               && m.kind == Purchase && m.item == item && m.warehouse == warehouse && m.quantity == n
               && 100000000.0 * cost - n as real * 0.5 <= (n * m.unitCost) as real
                  <= 100000000.0 * cost + n as real * 0.5
  {
    hide Round, Upserted, OnHand, Average;
    RoundWhole(quantity.Floor);
    RoundQuotient(UNIT * UNIT * cost, quantity.Floor);
    Reassociate(UNIT, UNIT * cost, quantity);
  }

  lemma Reassociate(k: real, x: real, y: real)
    requires y != 0.0
    ensures k * (x / y) == k * x / y
  {
  }

  /** Sales and transfers are logged at the average cost of the moment, a transfer out of one warehouse and into the
      other, and leave the average alone. */
  lemma OutwardLogged(s: Stock, item: nat, from: nat, to: nat, n: int)
    requires item < |s.items|
    ensures var t, cost := Sold(s, item, from, n as real), 10000 * s.items[item].average;
            t.items == s.items && t.movements == s.movements + [Movement(Sale, item, from, -n, cost)]
    ensures var t, cost := Moved(s, item, from, to, n as real), 10000 * s.items[item].average;
            && t.items == s.items
            && t.movements
               == s.movements + [Movement(Transfer, item, from, -n, cost), Movement(Transfer, item, to, n, cost)]
  {
    hide Round, Upserted;
    assert -(n as real) == (-n) as real;
    RoundWhole(n);
    RoundWhole(-n);
  }

  // ---- what is accepted ----

  /** A sale or transfer is accepted exactly when the item exists and the warehouse has a balance of it, possibly just
      as much as is asked for. */
  lemma {:induction false} OutwardExactly(s: Stock, item: nat, warehouse: nat, quantity: real)
    requires Keyed(s.balances)
    ensures OutwardError(s, item, warehouse, quantity) == None
            <==> && item < |s.items|
                 && exists k :: && 0 <= k < |s.balances| && s.balances[k].item == item
                                && s.balances[k].warehouse == warehouse && quantity <= s.balances[k].quantity as real
  {
    hide FindBalance;
  }

  /** A receipt is accepted exactly for an item that exists and quantities by which costs can be divided: its own, and
      the one on hand with it. */
  lemma {:induction false} InwardExactly(s: Stock, item: nat, quantity: real)
    ensures InwardError(s, item, quantity) == None
            <==> item < |s.items| && quantity != 0.0 && quantity != -(OnHand(s.balances, item) as real)
  {
    hide OnHand;
  }
}
