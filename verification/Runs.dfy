/** The engine as a state machine over commands (engine/matching_engine.go): what one NEW or
    CANCEL command does to the whole state, and what holds after every run.

    `Engine.ProcessCommand` is proved to do exactly `Step`.
 */
module Runs {
  import opened Orders
  import opened PriceTime
  import opened Matching

  datatype Command = New(order: OrderRec) | Cancel(id: Id) | Unknown(text: string)

  /** Resting orders in priority order, orders that left the book or never entered it, all trades
      so far, and the arrival number of every accepted order. */
  datatype State = State(
    bids: seq<OrderRec>, asks: seq<OrderRec>, done: seq<OrderRec>, log: seq<Trade>,
    arrival: map<Id, nat>, clock: nat)
  {
    function Of(side: OrderSide): seq<OrderRec> { if side == Buy then bids else asks }

    function With(side: OrderSide, xs: seq<OrderRec>): State {
      if side == Buy then this.(bids := xs) else this.(asks := xs)
    }
  }

  const EMPTY := State([], [], [], [], map[], 0)

  /** The order once matching is over. */
  function Settled(o: OrderRec): OrderRec {
    if o.kind == Market then GiveUp(o) else o
  }

  /** A limit order with something left goes to the book. */
  predicate Rests(o: OrderRec) {
    o.kind == Limit && o.CanBeFilled() && !o.IsFilled()
  }

  function Matched(s: State, o: OrderRec): Match {
    Greedy(o, s.Of(Opposite(o.side)))
  }

  /** A NEW command for a valid order. */
  function Accept(s: State, o: OrderRec): State {
    var g := Matched(s, o);
    var o' := Settled(g.aggressor);
    var s1 := s.With(Opposite(o.side), g.rest)
               .(done := s.done + g.consumed, log := s.log + g.trades,
                 arrival := s.arrival[o.id := s.clock], clock := s.clock + 1);
    if Rests(o') then s1.With(o.side, Insert(s1.Of(o.side), o'))
    else s1.(done := s1.done + [o'])
  }

  /** What a NEW command does to each part of the state. */
  lemma AcceptParts(s: State, o: OrderRec)
    requires o.side == Buy || o.side == Sell
    ensures var g, s' := Matched(s, o), Accept(s, o);
            var o' := Settled(g.aggressor);
            && s'.Of(Opposite(o.side)) == g.rest
            && s'.Of(o.side) == (if Rests(o') then Insert(s.Of(o.side), o') else s.Of(o.side))
            && s'.done == s.done + g.consumed + (if Rests(o') then [] else [o'])
            && s'.log == s.log + g.trades
            && s'.arrival == s.arrival[o.id := s.clock] && s'.clock == s.clock + 1
  {
    assert s.done + Matched(s, o).consumed + [] == s.done + Matched(s, o).consumed;
  }

  function Lookup(xs: seq<OrderRec>, id: Id): (r: OrderRec)
    requires HasId(xs, id)
    ensures r in xs && r.id == id
  {
    if xs[0].id == id then xs[0] else
    assert HasId(xs[1..], id) by {
      var i :| 0 <= i < |xs| && xs[i].id == id;
      assert xs[1..][i - 1].id == id;
    }
    Lookup(xs[1..], id)
  }

  /** A CANCEL command for an order on one side. */
  function CancelOn(s: State, side: OrderSide, id: Id): State
    requires HasId(s.Of(side), id)
  {
    s.With(side, Without(s.Of(side), id))
     .(done := s.done + [Lookup(s.Of(side), id).(status := Cancelled)])
  }

  function Step(s: State, c: Command): State {
    match c
    case New(o) => if o.IsValid() then Accept(s, o) else s
    case Cancel(id) =>
      if HasId(s.bids, id) then CancelOn(s, Buy, id)
      else if HasId(s.asks, id) then CancelOn(s, Sell, id)
      else s
    case Unknown(_) => s
  }

  function Run(s: State, cs: seq<Command>): State
    decreases |cs|
  {
    if cs == [] then s else Run(Step(s, cs[0]), cs[1..])
  }

  /** New orders come with an unused id, open and unfilled (api/handlers.go, NewOrder). */
  predicate Fresh(s: State, c: Command) {
    c.New? && c.order.IsValid() ==>
      c.order.id !in s.arrival && c.order.filled == 0.0 && c.order.status == Open
  }

  predicate FreshRun(s: State, cs: seq<Command>)
    decreases |cs|
  {
    cs == [] || (Fresh(s, cs[0]) && FreshRun(Step(s, cs[0]), cs[1..]))
  }

  // Time priority.

  ghost predicate Ahead(side: OrderSide, arrival: map<Id, nat>, a: OrderRec, b: OrderRec) {
    && a.id in arrival && b.id in arrival
    && (Better(side, a.price, b.price) || (a.price == b.price && arrival[a.id] < arrival[b.id]))
  }

  ghost predicate Ordered(side: OrderSide, arrival: map<Id, nat>, xs: seq<OrderRec>) {
    forall i, j :: 0 <= i < j < |xs| ==> Ahead(side, arrival, xs[i], xs[j])
  }

  ghost predicate Known(arrival: map<Id, nat>, clock: nat, xs: seq<OrderRec>) {
    forall i :: 0 <= i < |xs| ==> xs[i].id in arrival && arrival[xs[i].id] < clock
  }

  /** `ys` has the same orders in the same places as `xs`, up to fills. */
  ghost predicate SamePlaces(xs: seq<OrderRec>, ys: seq<OrderRec>) {
    |xs| == |ys| && forall i :: 0 <= i < |xs| ==> xs[i].id == ys[i].id && xs[i].price == ys[i].price
  }

  lemma {:induction false} InsertPlace(xs: seq<OrderRec>, o: OrderRec) returns (k: nat)
    ensures k <= |xs| && Insert(xs, o) == xs[..k] + [o] + xs[k..]
    ensures forall i :: 0 <= i < k ==> AtLeastAsGood(o.side, xs[i].price, o.price)
    ensures k < |xs| ==> Better(o.side, o.price, xs[k].price)
  {
    if xs == [] || !AtLeastAsGood(o.side, xs[0].price, o.price) {
      k := 0;
    } else {
      var j := InsertPlace(xs[1..], o);
      k := j + 1;
      assert xs[..k] == [xs[0]] + xs[1..][..j];
      assert xs[k..] == xs[1..][j..];
    }
  }

  /** The newest order goes behind everything of its price. */
  lemma InsertOrdered(side: OrderSide, arrival: map<Id, nat>, clock: nat, xs: seq<OrderRec>, o: OrderRec)
    requires o.side == side && (side == Buy || side == Sell)
    requires Ordered(side, arrival, xs) && Known(arrival, clock, xs)
    requires o.id in arrival && arrival[o.id] == clock
    ensures Ordered(side, arrival, Insert(xs, o))
  {
    var k := InsertPlace(xs, o);
    var ys := Insert(xs, o);
    forall i, j | 0 <= i < j < |ys| ensures Ahead(side, arrival, ys[i], ys[j]) {
      assert i < k ==> ys[i] == xs[i];
      assert i > k ==> ys[i] == xs[i - 1];
      assert j < k ==> ys[j] == xs[j];
      assert j > k ==> ys[j] == xs[j - 1];
      if i == k && j > k + 1 {
        assert Ahead(side, arrival, xs[k], xs[j - 1]);
      }
    }
  }

  lemma OrderedElsewhere(side: OrderSide, arrival: map<Id, nat>, id: Id, n: nat, xs: seq<OrderRec>)
    requires Ordered(side, arrival, xs) && id !in arrival
    ensures Ordered(side, arrival[id := n], xs)
  {
    forall i, j | 0 <= i < j < |xs| ensures Ahead(side, arrival[id := n], xs[i], xs[j]) {
      assert Ahead(side, arrival, xs[i], xs[j]);
    }
  }

  lemma OrderedSamePlaces(side: OrderSide, arrival: map<Id, nat>, xs: seq<OrderRec>, ys: seq<OrderRec>)
    requires Ordered(side, arrival, xs) && SamePlaces(xs, ys)
    ensures Ordered(side, arrival, ys)
  {
    forall i, j | 0 <= i < j < |ys| ensures Ahead(side, arrival, ys[i], ys[j]) {
      assert Ahead(side, arrival, xs[i], xs[j]);
    }
  }

  lemma OrderedSlice(side: OrderSide, arrival: map<Id, nat>, xs: seq<OrderRec>, k: nat)
    requires Ordered(side, arrival, xs) && k <= |xs|
    ensures Ordered(side, arrival, xs[k..])
  {
    forall i, j | 0 <= i < j < |xs[k..]| ensures Ahead(side, arrival, xs[k..][i], xs[k..][j]) {
      assert Ahead(side, arrival, xs[k + i], xs[k + j]);
    }
  }

  /** What is left of a list after matching is its tail, up to the fill of its head. */
  lemma RestPlaces(o: OrderRec, xs: seq<OrderRec>, g: Match)
    requires SplitsAt(o, xs, g)
    ensures |g.consumed| <= |xs| && SamePlaces(xs[|g.consumed|..], g.rest)
  {
  }

  // Every accepted order is in exactly one place.

  function Ids(xs: seq<OrderRec>): (ids: seq<Id>)
    ensures |ids| == |xs| && forall i :: 0 <= i < |xs| ==> ids[i] == xs[i].id
  {
    if xs == [] then [] else [xs[0].id] + Ids(xs[1..])
  }

  ghost predicate OnePlace(s: State) {
    multiset(Ids(s.bids)) + multiset(Ids(s.asks)) + multiset(Ids(s.done)) == multiset(s.arrival.Keys)
  }

  lemma IdsAppend(xs: seq<OrderRec>, ys: seq<OrderRec>)
    ensures Ids(xs + ys) == Ids(xs) + Ids(ys)
  {
  }

  lemma MultisetMiddle<T>(x: seq<T>, e: T, y: seq<T>)
    ensures multiset(x + [e] + y) == multiset(x + y) + multiset{e}
  {
  }

  lemma IdsMiddle(a: seq<OrderRec>, o: OrderRec, b: seq<OrderRec>)
    ensures multiset(Ids(a + [o] + b)) == multiset(Ids(a + b)) + multiset{o.id}
  {
    IdsAppend(a, b);
    IdsAppend(a + [o], b);
    IdsAppend(a, [o]);
    assert Ids([o]) == [o.id];
    hide Ids;
    MultisetMiddle(Ids(a), o.id, Ids(b));
  }

  lemma IdsInsert(xs: seq<OrderRec>, o: OrderRec)
    ensures multiset(Ids(Insert(xs, o))) == multiset(Ids(xs)) + multiset{o.id}
  {
    hide Ids, Insert;
    var k := InsertPlace(xs, o);
    assert xs == xs[..k] + xs[k..];
    IdsMiddle(xs[..k], o, xs[k..]);
  }

  lemma {:induction false} FirstWith(xs: seq<OrderRec>, id: Id) returns (i: nat)
    requires HasId(xs, id)
    ensures i < |xs| && xs[i].id == id && !HasId(xs[..i], id)
  {
    if xs[0].id == id {
      i := 0;
    } else {
      var k :| 0 <= k < |xs| && xs[k].id == id;
      assert xs[1..][k - 1].id == id;
      var j := FirstWith(xs[1..], id);
      i := j + 1;
      assert forall m :: 0 < m < i ==> xs[m] == xs[1..][..j][m - 1];
    }
  }

  lemma IdsWithout(xs: seq<OrderRec>, id: Id)
    requires HasId(xs, id)
    ensures multiset(Ids(Without(xs, id))) + multiset{id} == multiset(Ids(xs))
  {
    hide Ids, Without;
    var i := FirstWith(xs, id);
    WithoutAt(xs, i);
    assert xs == xs[..i] + [xs[i]] + xs[i + 1..];
    IdsMiddle(xs[..i], xs[i], xs[i + 1..]);
  }

  lemma IdsSplit(o: OrderRec, xs: seq<OrderRec>, g: Match)
    requires SplitsAt(o, xs, g)
    ensures Ids(xs) == Ids(g.consumed) + Ids(g.rest)
  {
    RestPlaces(o, xs, g);
  }

  /** An id in both lists is there at least twice. */
  lemma CountedTwice(xs: seq<OrderRec>, ys: seq<OrderRec>, i: nat, j: nat)
    requires i < |xs| && j < |ys| && xs[i].id == ys[j].id
    ensures (multiset(Ids(xs)) + multiset(Ids(ys)))[xs[i].id] >= 2
  {
    assert Ids(xs)[i] in multiset(Ids(xs)) && Ids(ys)[j] in multiset(Ids(ys));
  }

  lemma CountedTwiceIn(xs: seq<OrderRec>, i: nat, j: nat)
    requires i < j < |xs| && xs[i].id == xs[j].id
    ensures multiset(Ids(xs))[xs[i].id] >= 2
  {
    assert xs == xs[..j] + xs[j..];
    IdsAppend(xs[..j], xs[j..]);
    CountedTwice(xs[..j], xs[j..], i, 0);
  }

  ghost predicate Apart(xs: seq<OrderRec>, ys: seq<OrderRec>) {
    forall i, j :: 0 <= i < |xs| && 0 <= j < |ys| ==> xs[i].id != ys[j].id
  }

  ghost predicate AllIn(arrival: map<Id, nat>, xs: seq<OrderRec>) {
    forall i :: 0 <= i < |xs| ==> xs[i].id in arrival
  }

  lemma AtMostOnce(m: multiset<Id>, n: multiset<Id>, ids: set<Id>, id: Id)
    requires m + n == multiset(ids)
    ensures m[id] <= 1 && (m[id] > 0 ==> id in ids)
  {
    assert (m + n)[id] == m[id] + n[id];
  }

  lemma DistinctBy(xs: seq<OrderRec>, n: multiset<Id>, ids: set<Id>)
    requires multiset(Ids(xs)) + n == multiset(ids)
    ensures DistinctIds(xs)
  {
    forall i, j | 0 <= i < j < |xs| ensures xs[i].id != xs[j].id {
      AtMostOnce(multiset(Ids(xs)), n, ids, xs[i].id);
      if xs[i].id == xs[j].id { CountedTwiceIn(xs, i, j); }
    }
  }

  lemma AllInBy(xs: seq<OrderRec>, n: multiset<Id>, arrival: map<Id, nat>)
    requires multiset(Ids(xs)) + n == multiset(arrival.Keys)
    ensures AllIn(arrival, xs)
  {
    forall i | 0 <= i < |xs| ensures xs[i].id in arrival {
      assert Ids(xs)[i] in multiset(Ids(xs));
      AtMostOnce(multiset(Ids(xs)), n, arrival.Keys, xs[i].id);
    }
  }

  lemma ApartBy(xs: seq<OrderRec>, ys: seq<OrderRec>, n: multiset<Id>, ids: set<Id>)
    requires multiset(Ids(xs)) + multiset(Ids(ys)) + n == multiset(ids)
    ensures Apart(xs, ys)
  {
    forall i, j | 0 <= i < |xs| && 0 <= j < |ys| ensures xs[i].id != ys[j].id {
      AtMostOnce(multiset(Ids(xs)) + multiset(Ids(ys)), n, ids, xs[i].id);
      if xs[i].id == ys[j].id { CountedTwice(xs, ys, i, j); }
    }
  }

  /** No id is in two places, or twice in one. */
  lemma OnePlaceApart(s: State)
    requires OnePlace(s)
    ensures DistinctIds(s.bids) && DistinctIds(s.asks)
    ensures Apart(s.bids, s.asks) && Apart(s.bids, s.done) && Apart(s.asks, s.done)
    ensures AllIn(s.arrival, s.bids) && AllIn(s.arrival, s.asks) && AllIn(s.arrival, s.done)
  {
    hide Ids, DistinctIds, Apart, AllIn;
    var b, a, d := multiset(Ids(s.bids)), multiset(Ids(s.asks)), multiset(Ids(s.done));
    Rearranged(b, a, d);
    ApartBy(s.bids, s.asks, d, s.arrival.Keys);
    ApartBy(s.bids, s.done, a, s.arrival.Keys);
    ApartBy(s.asks, s.done, b, s.arrival.Keys);
    DistinctBy(s.bids, a + d, s.arrival.Keys);
    DistinctBy(s.asks, d + b, s.arrival.Keys);
    AllInBy(s.bids, a + d, s.arrival);
    AllInBy(s.asks, d + b, s.arrival);
    AllInBy(s.done, b + a, s.arrival);
  }

  lemma Rearranged(b: multiset<Id>, a: multiset<Id>, d: multiset<Id>)
    ensures b + (a + d) == b + a + d && a + (d + b) == b + a + d && d + (b + a) == b + a + d
    ensures b + d + a == b + a + d && a + d + b == b + a + d
  {
  }

  // Conservation.

  predicate NamesId(t: Trade, id: Id) { t.buyId == id || t.sellId == id }

  /** The traded volume of one order. */
  function Named(log: seq<Trade>, id: Id): Decimal {
    if log == [] then 0.0
    else (if NamesId(log[0], id) then log[0].quantity else 0.0) + Named(log[1..], id)
  }

  lemma {:induction false} NamedAppend(a: seq<Trade>, b: seq<Trade>, id: Id)
    ensures Named(a + b, id) == Named(a, id) + Named(b, id)
  {
    if a == [] {
      assert a + b == b;
    } else {
      NamedAppend(a[1..], b, id);
      assert (a + b)[1..] == a[1..] + b;
    }
  }

  lemma {:induction false} VolumeAppend(a: seq<Trade>, b: seq<Trade>)
    ensures Volume(a + b) == Volume(a) + Volume(b)
  {
    if a == [] {
      assert a + b == b;
    } else {
      VolumeAppend(a[1..], b);
      assert (a + b)[1..] == a[1..] + b;
    }
  }

  lemma {:induction false} NoneNamed(ts: seq<Trade>, id: Id)
    requires forall i :: 0 <= i < |ts| ==> !NamesId(ts[i], id)
    ensures Named(ts, id) == 0.0
  {
    if ts != [] {
      NoneNamed(ts[1..], id);
    }
  }

  lemma {:induction false} AllNamed(ts: seq<Trade>, id: Id)
    requires forall i :: 0 <= i < |ts| ==> NamesId(ts[i], id)
    ensures Named(ts, id) == Volume(ts)
  {
    if ts != [] {
      AllNamed(ts[1..], id);
    }
  }

  lemma {:induction false} OneNamed(ts: seq<Trade>, id: Id, k: nat)
    requires k < |ts| && forall i :: 0 <= i < |ts| ==> (NamesId(ts[i], id) <==> i == k)
    ensures Named(ts, id) == ts[k].quantity
  {
    if k == 0 {
      NoneNamed(ts[1..], id);
    } else {
      assert forall i :: 0 <= i < |ts[1..]| ==> ts[1..][i] == ts[i + 1];
      OneNamed(ts[1..], id, k - 1);
    }
  }

  /** Every order of the list is filled by exactly the trades that name it, and not beyond. */
  ghost predicate Accounted(xs: seq<OrderRec>, log: seq<Trade>) {
    forall i :: 0 <= i < |xs| ==> xs[i].filled == Named(log, xs[i].id) && 0.0 <= xs[i].filled <= xs[i].quantity
  }

  /** Orders that the new trades do not name stay accounted for. */
  lemma AccountedElsewhere(xs: seq<OrderRec>, log: seq<Trade>, ts: seq<Trade>)
    requires Accounted(xs, log)
    requires forall i, j :: 0 <= i < |xs| && 0 <= j < |ts| ==> !NamesId(ts[j], xs[i].id)
    ensures Accounted(xs, log + ts)
  {
    forall i | 0 <= i < |xs| ensures xs[i].filled == Named(log + ts, xs[i].id) {
      NamedAppend(log, ts, xs[i].id);
      NoneNamed(ts, xs[i].id);
    }
  }

  // Totals over lists of orders.

  datatype Measure = Quantity | FilledPart | Left | LeftOfCancelled | LeftOfMarket

  function Weight(k: Measure, side: OrderSide, r: OrderRec): Decimal {
    if r.side != side then 0.0 else
    match k
    case Quantity => r.quantity
    case FilledPart => r.filled
    case Left => r.Remaining()
    case LeftOfCancelled => if r.status == Cancelled then r.Remaining() else 0.0
    case LeftOfMarket => if r.kind == Market then r.Remaining() else 0.0
  }

  function Total(k: Measure, side: OrderSide, xs: seq<OrderRec>): Decimal {
    if xs == [] then 0.0 else Weight(k, side, xs[0]) + Total(k, side, xs[1..])
  }

  function Everywhere(k: Measure, side: OrderSide, s: State): Decimal {
    Total(k, side, s.bids) + Total(k, side, s.asks) + Total(k, side, s.done)
  }

  lemma {:induction false} TotalAppend(k: Measure, side: OrderSide, a: seq<OrderRec>, b: seq<OrderRec>)
    ensures Total(k, side, a + b) == Total(k, side, a) + Total(k, side, b)
  {
    if a == [] {
      assert a + b == b;
    } else {
      TotalAppend(k, side, a[1..], b);
      assert (a + b)[1..] == a[1..] + b;
    }
  }

  lemma TotalInsert(k: Measure, side: OrderSide, xs: seq<OrderRec>, o: OrderRec)
    ensures Total(k, side, Insert(xs, o)) == Total(k, side, xs) + Weight(k, side, o)
  {
    var i := InsertPlace(xs, o);
    assert xs == xs[..i] + xs[i..];
    TotalAppend(k, side, xs[..i], xs[i..]);
    TotalAppend(k, side, xs[..i] + [o], xs[i..]);
    TotalAppend(k, side, xs[..i], [o]);
  }

  lemma {:induction false} TotalWithout(k: Measure, side: OrderSide, xs: seq<OrderRec>, id: Id)
    requires HasId(xs, id)
    ensures Total(k, side, Without(xs, id)) + Weight(k, side, Lookup(xs, id)) == Total(k, side, xs)
  {
    if xs[0].id != id {
      var i :| 0 <= i < |xs| && xs[i].id == id;
      assert xs[1..][i - 1].id == id;
      TotalWithout(k, side, xs[1..], id);
    }
  }

  lemma {:induction false} TotalSame(k: Measure, side: OrderSide, xs: seq<OrderRec>, ys: seq<OrderRec>)
    requires |xs| == |ys| && forall i :: 0 <= i < |xs| ==> Weight(k, side, xs[i]) == Weight(k, side, ys[i])
    ensures Total(k, side, xs) == Total(k, side, ys)
  {
    if xs != [] {
      TotalSame(k, side, xs[1..], ys[1..]);
    }
  }

  lemma {:induction false} TotalZero(k: Measure, side: OrderSide, xs: seq<OrderRec>)
    requires forall i :: 0 <= i < |xs| ==> Weight(k, side, xs[i]) == 0.0
    ensures Total(k, side, xs) == 0.0
  {
    if xs != [] {
      TotalZero(k, side, xs[1..]);
    }
  }

  /** Matching keeps every order's quantity. */
  lemma SplitQuantity(o: OrderRec, xs: seq<OrderRec>, g: Match, side: OrderSide)
    requires SplitsAt(o, xs, g)
    ensures Total(Quantity, side, g.consumed) + Total(Quantity, side, g.rest) == Total(Quantity, side, xs)
  {
    var k := |g.consumed|;
    assert xs == xs[..k] + xs[k..];
    TotalAppend(Quantity, side, xs[..k], xs[k..]);
    TotalSame(Quantity, side, xs[..k], g.consumed);
    TotalSame(Quantity, side, xs[k..], g.rest);
  }

  /** On the side it matches against, matching fills exactly the traded volume. */
  lemma {:induction false} GreedyFills(o: OrderRec, xs: seq<OrderRec>, side: OrderSide)
    requires Resting(xs, side) && Incoming(o)
    ensures var g := Greedy(o, xs);
            Total(FilledPart, side, g.consumed) + Total(FilledPart, side, g.rest)
            == Total(FilledPart, side, xs) + Volume(g.trades)
    decreases |xs|
  {
    if !Stuck(o, xs) {
      var q := Min(o.Remaining(), xs[0].Remaining());
      var o', r' := o.AfterFill(q), xs[0].AfterFill(q);
      var t := TradeOf(o', r', q);
      if r'.IsFilled() {
        GreedyFills(o', xs[1..], side);
        var h := Greedy(o', xs[1..]);
        assert ([t] + h.trades)[1..] == h.trades;
        assert ([r'] + h.consumed)[1..] == h.consumed;
      } else {
        assert ([r'] + xs[1..])[1..] == xs[1..];
        assert Volume([t]) == q;
      }
    }
  }

  /** On the other side it fills nothing. */
  lemma FillsElsewhere(o: OrderRec, xs: seq<OrderRec>, g: Match, side: OrderSide, other: OrderSide)
    requires SplitsAt(o, xs, g) && Resting(xs, side) && other != side
    ensures Total(FilledPart, other, g.consumed) == 0.0 && Total(FilledPart, other, g.rest) == 0.0
    ensures Total(FilledPart, other, xs) == 0.0
  {
    TotalZero(FilledPart, other, g.consumed);
    TotalZero(FilledPart, other, g.rest);
    TotalZero(FilledPart, other, xs);
  }
}
