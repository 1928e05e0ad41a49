/** Writing trades with their order updates in one transaction (persistence/postgres.go,
    constraints of db/schema.sql).
 */
module TradeWrites {
  import opened Orders

  datatype TradeRecord = TradeRecord(
    id: Id, buyOrderId: Id, sellOrderId: Id, instrument: string,
    price: Decimal, quantity: Decimal, timestamp: int, createdAt: int)

  datatype OrderUpdate = OrderUpdate(orderId: Id, filled: Decimal, status: OrderStatus)

  datatype OrderRow = OrderRow(quantity: Decimal, filled: Decimal, status: OrderStatus)

  type TradeTable = map<Id, TradeRecord>
  type OrderTable = map<Id, OrderRow>

  datatype Database = Database(trades: TradeTable, orders: OrderTable)

  /** CHECK (price > 0) and CHECK (quantity > 0). */
  predicate TradeAllowed(t: TradeRecord) { t.price > 0.0 && t.quantity > 0.0 }

  /** The row exists and CHECK (0 <= filled_quantity <= quantity) holds of its new value. */
  predicate UpdateAllowed(orders: OrderTable, u: OrderUpdate) {
    u.orderId in orders && 0.0 <= u.filled <= orders[u.orderId].quantity
  }

  /** An INSERT that does nothing if the trade is already there. */
  function InsertTrade(trades: TradeTable, t: TradeRecord): Option<TradeTable> {
    if !TradeAllowed(t) then None
    else if t.id in trades then Some(trades)
    else Some(trades[t.id := t])
  }

  function UpdateOrder(orders: OrderTable, u: OrderUpdate): Option<OrderTable> {
    if !UpdateAllowed(orders, u) then None
    else Some(orders[u.orderId := orders[u.orderId].(filled := u.filled, status := u.status)])
  }

  // The reference: everything in list order.

  function InsertAll(trades: TradeTable, ts: seq<TradeRecord>): Option<TradeTable> {
    if ts == [] then Some(trades)
    else
      var before := InsertAll(trades, ts[..|ts| - 1]);
      if before.None? then None else InsertTrade(before.value, ts[|ts| - 1])
  }

  function UpdateAll(orders: OrderTable, us: seq<OrderUpdate>): Option<OrderTable> {
    if us == [] then Some(orders)
    else
      var before := UpdateAll(orders, us[..|us| - 1]);
      if before.None? then None else UpdateOrder(before.value, us[|us| - 1])
  }

  function InListOrder(db: Database, ts: seq<TradeRecord>, us: seq<OrderUpdate>): Option<Database> {
    var trades, orders := InsertAll(db.trades, ts), UpdateAll(db.orders, us);
    if trades.Some? && orders.Some? then Some(Database(trades.value, orders.value)) else None
  }

  // The transaction: only the last update of each order.

  function Latest(us: seq<OrderUpdate>): map<Id, OrderUpdate> {
    if us == [] then map[] else Latest(us[..|us| - 1])[us[|us| - 1].orderId := us[|us| - 1]]
  }

  predicate AllAllowed(orders: OrderTable, latest: map<Id, OrderUpdate>) {
    forall id :: id in latest ==> UpdateAllowed(orders, latest[id])
  }

  function Overwritten(orders: OrderTable, latest: map<Id, OrderUpdate>): OrderTable {
    map id | id in orders ::
      if id in latest then orders[id].(filled := latest[id].filled, status := latest[id].status) else orders[id]
  }

  function Batched(db: Database, ts: seq<TradeRecord>, us: seq<OrderUpdate>): Option<Database> {
    var trades := InsertAll(db.trades, ts);
    if trades.Some? && AllAllowed(db.orders, Latest(us))
    then Some(Database(trades.value, Overwritten(db.orders, Latest(us))))
    else None
  }

  /** Updates are keyed by the order they update. */
  lemma {:induction false} LatestKeys(us: seq<OrderUpdate>)
    ensures forall id :: id in Latest(us) ==> Latest(us)[id].orderId == id && Latest(us)[id] in us
    ensures forall u :: u in us ==> u.orderId in Latest(us)
    decreases |us|
  {
    if us != [] {
      var n := |us| - 1;
      assert us == us[..n] + [us[n]];
      LatestKeys(us[..n]);
    }
  }

  ghost predicate EachAllowed(orders: OrderTable, us: seq<OrderUpdate>) {
    forall u :: u in us ==> UpdateAllowed(orders, u)
  }

  lemma OverwrittenAllowed(orders: OrderTable, latest: map<Id, OrderUpdate>, u: OrderUpdate)
    ensures UpdateAllowed(Overwritten(orders, latest), u) == UpdateAllowed(orders, u)
  {
  }

  lemma OverwrittenMore(orders: OrderTable, latest: map<Id, OrderUpdate>, u: OrderUpdate)
    requires UpdateAllowed(orders, u)
    ensures UpdateOrder(Overwritten(orders, latest), u) == Some(Overwritten(orders, latest[u.orderId := u]))
  {
    var a := Overwritten(orders, latest);
    var b := Overwritten(orders, latest[u.orderId := u]);
    var c := a[u.orderId := a[u.orderId].(filled := u.filled, status := u.status)];
    assert c.Keys == b.Keys;
    assert forall id :: id in b ==> c[id] == b[id];
    assert c == b;
  }

  lemma NotUpdated(orders: OrderTable, u: OrderUpdate)
    requires !UpdateAllowed(orders, u)
    ensures UpdateOrder(orders, u) == None
  {
  }

  lemma Applied(orders: OrderTable, done: map<Id, OrderUpdate>, u: OrderUpdate)
    ensures UpdateOrder(Overwritten(orders, done), u)
         == if UpdateAllowed(orders, u) then Some(Overwritten(orders, done[u.orderId := u])) else None
  {
    hide Overwritten, UpdateAllowed, UpdateOrder;
    OverwrittenAllowed(orders, done, u);
    if UpdateAllowed(orders, u) {
      OverwrittenMore(orders, done, u);
    } else {
      NotUpdated(Overwritten(orders, done), u);
    }
  }

  /** Applying all updates in list order succeeds exactly when each of them is allowed, and then
      leaves the last update of every order. */
  lemma {:induction false} ListOrderLeavesLatest(orders: OrderTable, us: seq<OrderUpdate>)
    ensures UpdateAll(orders, us) == if EachAllowed(orders, us) then Some(Overwritten(orders, Latest(us))) else None
    decreases |us|
  {
    hide UpdateAllowed, UpdateOrder;
    if us == [] {
      NothingOverwritten(orders);
    } else {
      hide Overwritten;
      var n := |us| - 1;
      assert us == us[..n] + [us[n]];
      ListOrderLeavesLatest(orders, us[..n]);
      assert EachAllowed(orders, us) == (EachAllowed(orders, us[..n]) && UpdateAllowed(orders, us[n]));
      if EachAllowed(orders, us[..n]) {
        Applied(orders, Latest(us[..n]), us[n]);
      }
    }
  }

  lemma NothingOverwritten(orders: OrderTable)
    ensures Overwritten(orders, map[]) == orders
  {
    assert Overwritten(orders, map[]).Keys == orders.Keys;
  }

  lemma EachAllowedLatest(orders: OrderTable, us: seq<OrderUpdate>)
    requires EachAllowed(orders, us)
    ensures AllAllowed(orders, Latest(us))
  {
    LatestKeys(us);
  }

  /** De-duplicating preserves the meaning of the batch, unless an update that is replaced by a
      later one would have been refused while everything else is allowed: exactly then the
      transaction succeeds where list order fails. */
  lemma BatchedExactly(db: Database, ts: seq<TradeRecord>, us: seq<OrderUpdate>)
    ensures Batched(db, ts, us) == InListOrder(db, ts, us)
       <==> EachAllowed(db.orders, us) || !AllAllowed(db.orders, Latest(us)) || InsertAll(db.trades, ts).None?
    ensures InListOrder(db, ts, us).Some? ==> Batched(db, ts, us) == InListOrder(db, ts, us)
  {
    hide UpdateAll, InsertAll, AllAllowed, EachAllowed, Overwritten;
    ListOrderLeavesLatest(db.orders, us);
    if EachAllowed(db.orders, us) {
      EachAllowedLatest(db.orders, us);
    }
  }

  /** An update to more than the order's quantity, replaced by a correct one in the same batch. */
  lemma SupersededExample()
    ensures var db := Database(map[], map["o" := OrderRow(1.0, 0.0, Open)]);
            var us := [OrderUpdate("o", 2.0, Filled), OrderUpdate("o", 1.0, Filled)];
            Batched(db, [], us).Some? && InListOrder(db, [], us).None?
  {
    var db := Database(map[], map["o" := OrderRow(1.0, 0.0, Open)]);
    var us := [OrderUpdate("o", 2.0, Filled), OrderUpdate("o", 1.0, Filled)];
    LatestKeys(us);
    assert us[..1] == [us[0]];
    assert Latest(us)["o"] == us[1];
    assert us[0] in us && !UpdateAllowed(db.orders, us[0]);
    ListOrderLeavesLatest(db.orders, us);
  }

  /** A batch that names a missing order fails in either form. */
  lemma MissingOrderFails(db: Database, ts: seq<TradeRecord>, us: seq<OrderUpdate>, u: OrderUpdate)
    requires u in us && u.orderId !in db.orders
    ensures Batched(db, ts, us) == None && InListOrder(db, ts, us) == None
  {
    LatestKeys(us);
    assert !UpdateAllowed(db.orders, Latest(us)[u.orderId]);
    ListOrderLeavesLatest(db.orders, us);
    assert !EachAllowed(db.orders, us);
  }

  /** The update at `i` is the last one of its order. */
  ghost predicate LastOf(us: seq<OrderUpdate>, i: nat) {
    i < |us| && forall j :: i < j < |us| ==> us[j].orderId != us[i].orderId
  }

  lemma {:induction false} LatestIsLast(us: seq<OrderUpdate>, i: nat)
    requires LastOf(us, i)
    ensures us[i].orderId in Latest(us) && Latest(us)[us[i].orderId] == us[i]
    decreases |us|
  {
    var n := |us| - 1;
    if i < n {
      LatestIsLast(us[..n], i);
    }
  }

  lemma {:induction false} LatestFrom(us: seq<OrderUpdate>, id: Id) returns (i: nat)
    requires id in Latest(us)
    ensures LastOf(us, i) && us[i].orderId == id && Latest(us)[id] == us[i]
    decreases |us|
  {
    var n := |us| - 1;
    if us[n].orderId == id {
      i := n;
    } else {
      i := LatestFrom(us[..n], id);
      assert us[..n][i] == us[i];
    }
  }

  /** A batch succeeds exactly when every trade has a positive price and quantity, and the last update of
      every order names a stored order and fills it within its quantity. */
  lemma BatchSucceedsExactly(db: Database, ts: seq<TradeRecord>, us: seq<OrderUpdate>)
    ensures Batched(db, ts, us).Some? <==>
            && (forall i :: 0 <= i < |ts| ==> ts[i].price > 0.0 && ts[i].quantity > 0.0)
            && (forall i :: 0 <= i < |us| && LastOf(us, i) ==>
                  us[i].orderId in db.orders && 0.0 <= us[i].filled <= db.orders[us[i].orderId].quantity)
  {
    hide Latest, InsertAll, Overwritten, LastOf;
    InsertAllOutcome(db.trades, ts);
    forall i | 0 <= i < |us| && LastOf(us, i)
      ensures us[i].orderId in Latest(us) && Latest(us)[us[i].orderId] == us[i]
    {
      LatestIsLast(us, i);
    }
    forall id | id in Latest(us)
      ensures exists i :: 0 <= i < |us| && LastOf(us, i) && us[i].orderId == id && Latest(us)[id] == us[i]
    {
      var i := LatestFrom(us, id);
      LastInRange(us, i);
    }
    if forall i :: 0 <= i < |ts| ==> ts[i].price > 0.0 && ts[i].quantity > 0.0 {
      assert forall t :: t in ts ==> TradeAllowed(t);
    } else {
      var i :| 0 <= i < |ts| && !(ts[i].price > 0.0 && ts[i].quantity > 0.0);
      assert ts[i] in ts && !TradeAllowed(ts[i]);
    }
  }

  lemma LastInRange(us: seq<OrderUpdate>, i: nat)
    requires LastOf(us, i)
    ensures i < |us|
  {
  }

  /** After a batch each updated order has the filled quantity and status of its last update, and its own
      quantity; every other order is as it was. */
  lemma BatchedOrders(db: Database, ts: seq<TradeRecord>, us: seq<OrderUpdate>)
    requires Batched(db, ts, us).Some?
    ensures var orders := Batched(db, ts, us).value.orders;
            && orders.Keys == db.orders.Keys
            && (forall i :: 0 <= i < |us| && LastOf(us, i) ==>
                  && us[i].orderId in orders && orders[us[i].orderId].filled == us[i].filled
                  && orders[us[i].orderId].status == us[i].status)
            && (forall id :: id in orders ==> orders[id].quantity == db.orders[id].quantity)
            && (forall id :: id in orders && (forall i :: 0 <= i < |us| ==> us[i].orderId != id) ==>
                  orders[id] == db.orders[id])
  {
    hide Latest, InsertAll, LastOf;
    LatestKeys(us);
    forall i | 0 <= i < |us| && LastOf(us, i)
      ensures us[i].orderId in Latest(us) && Latest(us)[us[i].orderId] == us[i]
    {
      LatestIsLast(us, i);
    }
  }

  /** After a batch each trade id that was new holds the first trade of the batch with it. */
  lemma {:induction false} InsertedFirst(trades: TradeTable, ts: seq<TradeRecord>, i: nat)
    requires InsertAll(trades, ts).Some? && i < |ts| && ts[i].id !in trades
    requires forall j :: 0 <= j < i ==> ts[j].id != ts[i].id
    ensures ts[i].id in InsertAll(trades, ts).value && InsertAll(trades, ts).value[ts[i].id] == ts[i]
    decreases |ts|
  {
    var n := |ts| - 1;
    InsertAllOutcome(trades, ts[..n]);
    if i < n {
      InsertedFirst(trades, ts[..n], i);
    } else {
      var before := InsertAll(trades, ts[..n]).value;
      assert ts[n].id !in before;
    }
  }

  // Re-running a committed batch changes nothing.

  ghost predicate Present(trades: TradeTable, ts: seq<TradeRecord>) {
    forall t :: t in ts ==> TradeAllowed(t) && t.id in trades
  }

  /** Inserting keeps what is there, adds only trades of the batch, and succeeds exactly when every
      trade is allowed. */
  lemma {:induction false} InsertAllOutcome(trades: TradeTable, ts: seq<TradeRecord>)
    ensures InsertAll(trades, ts).Some? <==> forall t :: t in ts ==> TradeAllowed(t)
    ensures var r := InsertAll(trades, ts); r.Some? ==>
              && Present(r.value, ts)
              && (forall id :: id in trades ==> id in r.value && r.value[id] == trades[id])
              && (forall id :: id in r.value ==> id in trades || (r.value[id] in ts && r.value[id].id == id))
    decreases |ts|
  {
    if ts != [] {
      var n := |ts| - 1;
      assert ts == ts[..n] + [ts[n]];
      InsertAllOutcome(trades, ts[..n]);
    }
  }

  lemma {:induction false} InsertPresent(trades: TradeTable, ts: seq<TradeRecord>)
    requires Present(trades, ts)
    ensures InsertAll(trades, ts) == Some(trades)
    decreases |ts|
  {
    if ts != [] {
      var n := |ts| - 1;
      assert ts == ts[..n] + [ts[n]];
      InsertPresent(trades, ts[..n]);
    }
  }

  lemma OverwrittenTwice(orders: OrderTable, latest: map<Id, OrderUpdate>)
    ensures Overwritten(Overwritten(orders, latest), latest) == Overwritten(orders, latest)
  {
    var once := Overwritten(orders, latest);
    var twice := Overwritten(once, latest);
    assert twice.Keys == once.Keys;
    assert forall id :: id in once ==> twice[id] == once[id];
  }

  lemma RerunChangesNothing(db: Database, ts: seq<TradeRecord>, us: seq<OrderUpdate>)
    requires Batched(db, ts, us).Some?
    ensures var committed := Batched(db, ts, us).value; Batched(committed, ts, us) == Some(committed)
  {
    hide InsertAll, Overwritten;
    var committed := Batched(db, ts, us).value;
    var latest := Latest(us);
    InsertAllOutcome(db.trades, ts);
    InsertPresent(committed.trades, ts);
    forall id | id in latest
      ensures UpdateAllowed(committed.orders, latest[id])
    {
      OverwrittenAllowed(db.orders, latest, latest[id]);
    }
    OverwrittenTwice(db.orders, latest);
  }
}
