/** What every run of NEW and CANCEL commands keeps: price-time order, no crossed book, one place
    per order, fills that agree with the trade log, and conservation of quantity.
 */
module RunInvariants {
  import opened Orders
  import opened PriceTime
  import opened Matching
  import opened Runs

  /** One side holds resting orders only, in price-time priority. */
  ghost predicate SideInv(s: State, side: OrderSide) {
    && Resting(s.Of(side), side)
    && Ordered(side, s.arrival, s.Of(side))
    && Known(s.arrival, s.clock, s.Of(side))
  }

  /** Every bid of `bs` is below every ask of `xs`. */
  ghost predicate Below(bs: seq<OrderRec>, xs: seq<OrderRec>) {
    forall i, j :: 0 <= i < |bs| && 0 <= j < |xs| ==> bs[i].price < xs[j].price
  }

  ghost predicate Uncrossed(s: State) {
    Below(s.bids, s.asks)
  }

  /** How an order ends: filled, cancelled, or a market order that ran out of counterparties. */
  predicate Ended(r: OrderRec) {
    && (r.side == Buy || r.side == Sell)
    && (|| (r.status == Filled && r.filled == r.quantity)
        || (r.status == Cancelled && r.kind == Limit && r.filled < r.quantity)
        || (r.kind == Market && r.status == PartiallyFilled && 0.0 < r.filled < r.quantity)
        || (r.kind == Market && r.status == Rejected && 0.0 == r.filled < r.quantity))
  }

  ghost predicate AllEnded(xs: seq<OrderRec>) {
    forall i :: 0 <= i < |xs| ==> Ended(xs[i])
  }

  ghost predicate FillsAgree(s: State) {
    Accounted(s.bids, s.log) && Accounted(s.asks, s.log) && Accounted(s.done, s.log)
  }

  /** Trades name accepted orders only. */
  ghost predicate LogKnown(s: State) {
    forall i :: 0 <= i < |s.log| ==> s.log[i].buyId in s.arrival && s.log[i].sellId in s.arrival
  }

  /** Bought equals sold equals traded. */
  ghost predicate TotalsAgree(s: State) {
    Everywhere(FilledPart, Buy, s) == Volume(s.log) && Everywhere(FilledPart, Sell, s) == Volume(s.log)
  }

  ghost predicate Inv(s: State) {
    && SideInv(s, Buy) && SideInv(s, Sell)
    && Uncrossed(s) && OnePlace(s) && AllEnded(s.done)
    && LogKnown(s) && FillsAgree(s) && TotalsAgree(s)
  }

  /** A valid new order. */
  ghost predicate Arriving(s: State, o: OrderRec) {
    o.IsValid() && o.id !in s.arrival && o.filled == 0.0 && o.status == Open
  }

  // What Accept does, part by part.

  /** What matching guarantees about an arriving order. */
  lemma MatchFacts(s: State, o: OrderRec)
    requires SideInv(s, Opposite(o.side)) && Arriving(s, o)
    ensures var g := Matched(s, o);
            && SplitsAt(o, s.Of(Opposite(o.side)), g)
            && Stuck(g.aggressor, g.rest)
            && 0.0 <= Volume(g.trades) <= o.quantity
            && g.aggressor == (if g.trades == [] then o else o.AfterFill(Volume(g.trades)))
            && (g.trades != [] ==> Volume(g.trades) > 0.0)
  {
    var xs := s.Of(Opposite(o.side));
    GreedySplits(o, xs, Opposite(o.side));
    GreedyExhausts(o, xs, Opposite(o.side));
    GreedyAggressor(o, xs, Opposite(o.side));
  }

  /** What becomes of the aggressor: it rests exactly when it is a limit order with something
      left, and otherwise it has ended. */
  lemma SettledFacts(o: OrderRec, a: OrderRec, ts: seq<Trade>)
    requires o.IsValid() && o.filled == 0.0 && o.status == Open
    requires 0.0 <= Volume(ts) <= o.quantity && (ts != [] ==> Volume(ts) > 0.0)
    requires a == (if ts == [] then o else o.AfterFill(Volume(ts)))
    ensures var o' := Settled(a);
            && o'.id == o.id && o'.side == o.side && o'.price == o.price && o'.quantity == o.quantity
            && o'.kind == o.kind && o'.filled == Volume(ts)
            && (Rests(o') <==> o.kind == Limit && Volume(ts) < o.quantity)
            && (Rests(o') ==> o'.IsResting())
            && (!Rests(o') ==> Ended(o'))
            && (o.kind == Market && Volume(ts) < o.quantity ==>
                  o'.status == (if ts == [] then Rejected else PartiallyFilled))
  {
  }

  // Preservation, one clause at a time.

  function Places(own: seq<OrderRec>, opp: seq<OrderRec>, done: seq<OrderRec>): multiset<Id> {
    multiset(Ids(own)) + multiset(Ids(opp)) + multiset(Ids(done))
  }

  lemma PlacesOf(s: State, side: OrderSide)
    requires side == Buy || side == Sell
    ensures OnePlace(s) <==> Places(s.Of(side), s.Of(Opposite(side)), s.done) == multiset(s.arrival.Keys)
  {
  }

  lemma PlacesSplit(own: seq<OrderRec>, o: OrderRec, xs: seq<OrderRec>, g: Match, done: seq<OrderRec>)
    requires SplitsAt(o, xs, g)
    ensures Places(own, g.rest, done + g.consumed) == Places(own, xs, done)
  {
    hide SplitsAt;
    IdsSplit(o, xs, g);
    IdsAppend(done, g.consumed);
  }

  lemma PlacesDone(own: seq<OrderRec>, opp: seq<OrderRec>, done: seq<OrderRec>, o: OrderRec)
    ensures Places(own, opp, done + [o]) == Places(own, opp, done) + multiset{o.id}
  {
    IdsAppend(done, [o]);
    assert Ids([o]) == [o.id];
  }

  lemma PlacesInsert(own: seq<OrderRec>, opp: seq<OrderRec>, done: seq<OrderRec>, o: OrderRec)
    ensures Places(Insert(own, o), opp, done) == Places(own, opp, done) + multiset{o.id}
  {
    IdsInsert(own, o);
  }

  lemma AcceptOnePlace(s: State, o: OrderRec)
    requires SideInv(s, Opposite(o.side)) && Arriving(s, o) && OnePlace(s)
    ensures OnePlace(Accept(s, o))
  {
    hide Accept, Matched, Settled, Rests, SplitsAt, Places, OnePlace, SideInv, Insert;
    var g, s' := Matched(s, o), Accept(s, o);
    var o' := Settled(g.aggressor);
    var own, opp := s.Of(o.side), s.Of(Opposite(o.side));
    MatchFacts(s, o);
    SettledFacts(o, g.aggressor, g.trades);
    AcceptParts(s, o);
    PlacesOf(s, o.side);
    PlacesOf(s', o.side);
    PlacesSplit(own, o, opp, g, s.done);
    if Rests(o') {
      PlacesInsert(own, g.rest, s.done + g.consumed, o');
      assert s'.done == s.done + g.consumed;
    } else {
      PlacesDone(own, g.rest, s.done + g.consumed, o');
    }
    assert multiset(s'.arrival.Keys) == multiset(s.arrival.Keys) + multiset{o.id};
  }

  lemma RestResting(o: OrderRec, xs: seq<OrderRec>, g: Match, side: OrderSide)
    requires SplitsAt(o, xs, g) && Resting(xs, side)
    ensures Resting(g.rest, side)
  {
  }

  lemma KnownLater(arrival: map<Id, nat>, clock: nat, xs: seq<OrderRec>, id: Id)
    requires Known(arrival, clock, xs) && id !in arrival
    ensures Known(arrival[id := clock], clock + 1, xs)
  {
  }

  lemma AcceptOpposite(s: State, o: OrderRec)
    requires SideInv(s, Opposite(o.side)) && Arriving(s, o)
    ensures SideInv(Accept(s, o), Opposite(o.side))
  {
    hide Accept, Matched, Settled, Rests, Insert;
    var g, side, xs := Matched(s, o), Opposite(o.side), s.Of(Opposite(o.side));
    var k := |g.consumed|;
    MatchFacts(s, o);
    AcceptParts(s, o);
    RestResting(o, xs, g, side);
    RestPlaces(o, xs, g);
    hide SplitsAt, Ordered, Resting;
    OrderedElsewhere(side, s.arrival, o.id, s.clock, xs);
    OrderedSlice(side, s.arrival[o.id := s.clock], xs, k);
    OrderedSamePlaces(side, s.arrival[o.id := s.clock], xs[k..], g.rest);
    KnownLater(s.arrival, s.clock, xs, o.id);
  }

  lemma InsertKnown(arrival: map<Id, nat>, clock: nat, xs: seq<OrderRec>, o: OrderRec)
    requires Known(arrival, clock, xs) && o.id in arrival && arrival[o.id] < clock
    ensures Known(arrival, clock, Insert(xs, o))
  {
    var k := InsertPlace(xs, o);
  }

  lemma InsertResting(xs: seq<OrderRec>, o: OrderRec)
    requires Resting(xs, o.side) && o.IsResting()
    ensures Resting(Insert(xs, o), o.side)
  {
    var k := InsertPlace(xs, o);
  }

  lemma AcceptOwn(s: State, o: OrderRec)
    requires SideInv(s, Opposite(o.side)) && SideInv(s, o.side) && Arriving(s, o)
    ensures SideInv(Accept(s, o), o.side)
  {
    hide Accept, Matched, Settled, Rests, Insert, SplitsAt, Ordered, Resting, Known, OrderRec.IsResting;
    var g := Matched(s, o);
    var o', xs, arrival := Settled(g.aggressor), s.Of(o.side), s.arrival[o.id := s.clock];
    MatchFacts(s, o);
    SettledFacts(o, g.aggressor, g.trades);
    AcceptParts(s, o);
    OrderedElsewhere(o.side, s.arrival, o.id, s.clock, xs);
    KnownElsewhere(s.arrival, s.clock, xs, o.id);
    KnownLater(s.arrival, s.clock, xs, o.id);
    if Rests(o') {
      InsertOrdered(o.side, arrival, s.clock, xs, o');
      InsertKnown(arrival, s.clock + 1, xs, o');
      InsertResting(xs, o');
    }
  }

  lemma KnownElsewhere(arrival: map<Id, nat>, clock: nat, xs: seq<OrderRec>, id: Id)
    requires Known(arrival, clock, xs) && id !in arrival
    ensures Known(arrival[id := clock], clock, xs)
  {
  }

  // The book is never crossed.

  lemma RestBelow(o: OrderRec, xs: seq<OrderRec>, g: Match, ys: seq<OrderRec>)
    requires SplitsAt(o, xs, g)
    ensures Below(ys, xs) ==> Below(ys, g.rest)
    ensures Below(xs, ys) ==> Below(g.rest, ys)
  {
    RestPlaces(o, xs, g);
    var k := |g.consumed|;
    assert forall i :: 0 <= i < |g.rest| ==> g.rest[i].price == xs[k..][i].price == xs[k + i].price;
  }

  /** What does not cross the best price does not cross any. */
  lemma NotCrossing(side: OrderSide, arrival: map<Id, nat>, rest: seq<OrderRec>, o: OrderRec)
    requires o.side == Buy || o.side == Sell
    requires side == Opposite(o.side) && Ordered(side, arrival, rest)
    requires o.kind == Limit && (rest == [] || !Crosses(o, rest[0].price))
    ensures if o.side == Buy then Below([o], rest) else Below(rest, [o])
  {
    forall j | 0 <= j < |rest| ensures if o.side == Buy then o.price < rest[j].price else rest[j].price < o.price {
      if j > 0 { assert Ahead(side, arrival, rest[0], rest[j]); }
    }
  }

  lemma BelowInsert(xs: seq<OrderRec>, o: OrderRec, ys: seq<OrderRec>)
    ensures Below(xs, ys) && Below([o], ys) ==> Below(Insert(xs, o), ys)
    ensures Below(ys, xs) && Below(ys, [o]) ==> Below(ys, Insert(xs, o))
  {
    var k := InsertPlace(xs, o);
    forall i | 0 <= i < |Insert(xs, o)| ensures Insert(xs, o)[i] == o || Insert(xs, o)[i] in xs {
      if i < k { assert Insert(xs, o)[i] == xs[i]; }
      if i > k { assert Insert(xs, o)[i] == xs[i - 1]; }
    }
    if Below(xs, ys) && Below([o], ys) {
      forall i, j | 0 <= i < |Insert(xs, o)| && 0 <= j < |ys| ensures Insert(xs, o)[i].price < ys[j].price {
        assert [o][0].price < ys[j].price;
      }
    }
    if Below(ys, xs) && Below(ys, [o]) {
      forall i, j | 0 <= i < |ys| && 0 <= j < |Insert(xs, o)| ensures ys[i].price < Insert(xs, o)[j].price {
        assert ys[i].price < [o][0].price;
      }
    }
  }

  lemma UncrossedOf(s: State, side: OrderSide)
    requires side == Buy || side == Sell
    ensures Uncrossed(s) <==>
            if side == Buy then Below(s.Of(side), s.Of(Opposite(side))) else Below(s.Of(Opposite(side)), s.Of(side))
  {
  }

  lemma AcceptUncrossed(s: State, o: OrderRec)
    requires SideInv(s, Opposite(o.side)) && Arriving(s, o) && Uncrossed(s)
    ensures Uncrossed(Accept(s, o))
  {
    hide Accept, Matched, Settled, Insert, SplitsAt, Ordered, Resting, Known, Below, Uncrossed, Crosses;
    var g, s' := Matched(s, o), Accept(s, o);
    var o', own, opp := Settled(g.aggressor), s.Of(o.side), s.Of(Opposite(o.side));
    MatchFacts(s, o);
    SettledFacts(o, g.aggressor, g.trades);
    AcceptParts(s, o);
    UncrossedOf(s, o.side);
    UncrossedOf(s', o.side);
    RestBelow(o, opp, g, own);
    if Rests(o') {
      AcceptOpposite(s, o);
      SettledCrosses(g.aggressor, if g.rest == [] then 0.0 else g.rest[0].price);
      NotCrossing(Opposite(o.side), s'.arrival, g.rest, o');
      BelowInsert(own, o', g.rest);
    }
  }

  lemma SettledCrosses(a: OrderRec, p: Decimal)
    ensures Crosses(Settled(a), p) <==> Crosses(a, p)
  {
  }

  // Fills agree with the log.

  /** Who the trades of one match name. */
  lemma MatchNames(o: OrderRec, xs: seq<OrderRec>, g: Match)
    requires |g.trades| <= |xs| && TradesInOrder(o, xs, g) && DistinctIds(xs)
    requires o.side == Buy || o.side == Sell
    requires forall i :: 0 <= i < |xs| ==> xs[i].id != o.id
    ensures Named(g.trades, o.id) == Volume(g.trades)
    ensures forall i :: 0 <= i < |g.trades| ==> Named(g.trades, xs[i].id) == g.trades[i].quantity
    ensures forall i :: |g.trades| <= i < |xs| ==> Named(g.trades, xs[i].id) == 0.0
  {
    forall j | 0 <= j < |g.trades| ensures NamesId(g.trades[j], o.id) {
      assert Names(g.trades[j], o, xs[j]);
    }
    AllNamed(g.trades, o.id);
    forall i | 0 <= i < |xs|
      ensures Named(g.trades, xs[i].id) == if i < |g.trades| then g.trades[i].quantity else 0.0
    {
      forall j | 0 <= j < |g.trades| ensures NamesId(g.trades[j], xs[i].id) <==> i == j {
        assert Names(g.trades[j], o, xs[j]);
      }
      if i < |g.trades| { OneNamed(g.trades, xs[i].id, i); } else { NoneNamed(g.trades, xs[i].id); }
    }
  }

  lemma SplitAccounted(o: OrderRec, xs: seq<OrderRec>, g: Match, side: OrderSide, log: seq<Trade>)
    requires SplitsAt(o, xs, g) && DistinctIds(xs) && Resting(xs, side) && Accounted(xs, log)
    requires o.side == Buy || o.side == Sell
    requires forall i :: 0 <= i < |xs| ==> xs[i].id != o.id
    ensures Accounted(g.consumed, log + g.trades) && Accounted(g.rest, log + g.trades)
  {
    hide Named;
    MatchNames(o, xs, g);
    ConsumedAccounted(o, xs, g, log);
    var k := |g.consumed|;
    RestPlaces(o, xs, g);
    forall i | 0 <= i < |g.rest|
      ensures g.rest[i].filled == Named(log + g.trades, g.rest[i].id) && 0.0 <= g.rest[i].filled <= g.rest[i].quantity
    {
      NamedAppend(log, g.trades, xs[k + i].id);
      assert i > 0 || |g.trades| == k ==> g.rest[i] == xs[k + i];
      assert i == 0 && |g.trades| > k ==> g.rest[0] == xs[k].AfterFill(g.trades[k].quantity);
    }
  }

  lemma ConsumedAccounted(o: OrderRec, xs: seq<OrderRec>, g: Match, log: seq<Trade>)
    requires SplitsAt(o, xs, g) && Accounted(xs, log) && (forall i :: 0 <= i < |xs| ==> 0.0 <= xs[i].quantity)
    requires forall i :: 0 <= i < |g.consumed| ==> Named(g.trades, xs[i].id) == g.trades[i].quantity
    ensures Accounted(g.consumed, log + g.trades)
  {
    hide Named;
    forall i | 0 <= i < |g.consumed|
      ensures g.consumed[i].filled == Named(log + g.trades, g.consumed[i].id)
      ensures 0.0 <= g.consumed[i].filled <= g.consumed[i].quantity
    {
      assert g.consumed[i] == FilledUp(xs[i]);
      NamedAppend(log, g.trades, xs[i].id);
    }
  }

  lemma NotNamed(o: OrderRec, xs: seq<OrderRec>, g: Match, ys: seq<OrderRec>)
    requires |g.trades| <= |xs| && TradesInOrder(o, xs, g) && (o.side == Buy || o.side == Sell)
    requires Apart(ys, xs) && forall i :: 0 <= i < |ys| ==> ys[i].id != o.id
    ensures forall i, j :: 0 <= i < |ys| && 0 <= j < |g.trades| ==> !NamesId(g.trades[j], ys[i].id)
  {
    forall i, j | 0 <= i < |ys| && 0 <= j < |g.trades| ensures !NamesId(g.trades[j], ys[i].id) {
      assert Names(g.trades[j], o, xs[j]);
    }
  }

  lemma AccountedAppend(xs: seq<OrderRec>, ys: seq<OrderRec>, log: seq<Trade>)
    ensures Accounted(xs + ys, log) <==> Accounted(xs, log) && Accounted(ys, log)
  {
    if Accounted(xs + ys, log) {
      forall i | 0 <= i < |xs| ensures xs[i] == (xs + ys)[i] {}
      forall i | 0 <= i < |ys| ensures ys[i] == (xs + ys)[|xs| + i] {}
    }
  }

  lemma AccountedInsert(xs: seq<OrderRec>, o: OrderRec, log: seq<Trade>)
    requires Accounted(xs, log) && Accounted([o], log)
    ensures Accounted(Insert(xs, o), log)
  {
    var k := InsertPlace(xs, o);
    assert xs == xs[..k] + xs[k..];
    hide Accounted;
    AccountedAppend(xs[..k], xs[k..], log);
    AccountedAppend(xs[..k] + [o], xs[k..], log);
    AccountedAppend(xs[..k], [o], log);
  }

  /** No trade so far names an order that has not arrived. */
  lemma NewcomerUnnamed(s: State, o: OrderRec)
    requires LogKnown(s) && o.id !in s.arrival
    ensures Named(s.log, o.id) == 0.0
  {
    NoneNamed(s.log, o.id);
  }

  lemma AggressorAccounted(s: State, o: OrderRec, g: Match, o': OrderRec, xs: seq<OrderRec>)
    requires LogKnown(s) && o.id !in s.arrival && (o.side == Buy || o.side == Sell)
    requires |g.trades| <= |xs| && TradesInOrder(o, xs, g) && 0.0 <= Volume(g.trades) <= o.quantity
    requires o'.id == o.id && o'.quantity == o.quantity && o'.filled == Volume(g.trades)
    ensures Accounted([o'], s.log + g.trades)
  {
    NewcomerUnnamed(s, o);
    forall j | 0 <= j < |g.trades| ensures NamesId(g.trades[j], o.id) {
      assert Names(g.trades[j], o, xs[j]);
    }
    AllNamed(g.trades, o.id);
    NamedAppend(s.log, g.trades, o.id);
  }

  ghost predicate FillsAgreeOf(own: seq<OrderRec>, opp: seq<OrderRec>, done: seq<OrderRec>, log: seq<Trade>) {
    Accounted(own, log) && Accounted(opp, log) && Accounted(done, log)
  }

  lemma FillsOf(s: State, side: OrderSide)
    requires side == Buy || side == Sell
    ensures FillsAgree(s) <==> FillsAgreeOf(s.Of(side), s.Of(Opposite(side)), s.done, s.log)
  {
  }

  /** Facts about who is where, seen from one side. */
  lemma ApartOf(s: State, side: OrderSide)
    requires OnePlace(s) && (side == Buy || side == Sell)
    ensures DistinctIds(s.Of(Opposite(side)))
    ensures Apart(s.Of(side), s.Of(Opposite(side))) && Apart(s.done, s.Of(Opposite(side)))
    ensures AllIn(s.arrival, s.bids) && AllIn(s.arrival, s.asks) && AllIn(s.arrival, s.done)
  {
    hide OnePlace, AllIn;
    OnePlaceApart(s);
  }

  lemma AcceptFills(s: State, o: OrderRec)
    requires SideInv(s, Opposite(o.side)) && Arriving(s, o) && OnePlace(s) && LogKnown(s) && FillsAgree(s)
    ensures FillsAgree(Accept(s, o))
  {
    hide Accept, Matched, Settled, Insert, Ordered, Known, OnePlace, LogKnown, FillsAgree, Accounted, Apart,
         DistinctIds, Rests;
    var g, s' := Matched(s, o), Accept(s, o);
    var o', own, opp := Settled(g.aggressor), s.Of(o.side), s.Of(Opposite(o.side));
    MatchFacts(s, o);
    SettledFacts(o, g.aggressor, g.trades);
    AcceptParts(s, o);
    FillsOf(s, o.side);
    FillsOf(s', o.side);
    ApartOf(s, o.side);
    assert |g.trades| <= |opp| && TradesInOrder(o, opp, g);
    hide SplitsAt, TradesInOrder;
    SplitAccounted(o, opp, g, Opposite(o.side), s.log);
    NotNamed(o, opp, g, own);
    AccountedElsewhere(own, s.log, g.trades);
    NotNamed(o, opp, g, s.done);
    AccountedElsewhere(s.done, s.log, g.trades);
    AggressorAccounted(s, o, g, o', opp);
    AccountedAppend(s.done, g.consumed, s'.log);
    if Rests(o') {
      AccountedInsert(own, o', s'.log);
      assert s'.done == s.done + g.consumed;
    } else {
      AccountedAppend(s.done + g.consumed, [o'], s'.log);
    }
  }

  lemma AcceptLog(s: State, o: OrderRec)
    requires SideInv(s, Opposite(o.side)) && Arriving(s, o) && LogKnown(s)
    ensures LogKnown(Accept(s, o))
  {
    hide Accept, Matched, Settled, Insert, Ordered, Resting, Rests;
    var g, s' := Matched(s, o), Accept(s, o);
    MatchFacts(s, o);
    AcceptParts(s, o);
    forall i | 0 <= i < |s'.log| ensures s'.log[i].buyId in s'.arrival && s'.log[i].sellId in s'.arrival {
      if i >= |s.log| {
        var j := i - |s.log|;
        assert s'.log[i] == g.trades[j] && Names(g.trades[j], o, s.Of(Opposite(o.side))[j]);
      }
    }
  }

  lemma AcceptEnded(s: State, o: OrderRec)
    requires SideInv(s, Opposite(o.side)) && Arriving(s, o) && AllEnded(s.done)
    ensures AllEnded(Accept(s, o).done)
  {
    hide Accept, Matched, Settled, Insert, Ordered, Rests;
    var g, s' := Matched(s, o), Accept(s, o);
    var o' := Settled(g.aggressor);
    MatchFacts(s, o);
    SettledFacts(o, g.aggressor, g.trades);
    AcceptParts(s, o);
    forall i | 0 <= i < |s'.done| ensures Ended(s'.done[i]) {
      if |s.done| <= i < |s.done| + |g.consumed| {
        assert s'.done[i] == g.consumed[i - |s.done|] == FilledUp(s.Of(Opposite(o.side))[i - |s.done|]);
      }
    }
  }

  // Totals.

  function Three(k: Measure, side: OrderSide, own: seq<OrderRec>, opp: seq<OrderRec>, done: seq<OrderRec>): Decimal {
    Total(k, side, own) + Total(k, side, opp) + Total(k, side, done)
  }

  lemma ThreeOf(k: Measure, side: OrderSide, s: State, from: OrderSide)
    requires from == Buy || from == Sell
    ensures Everywhere(k, side, s) == Three(k, side, s.Of(from), s.Of(Opposite(from)), s.done)
  {
  }

  lemma ThreeAccept(k: Measure, side: OrderSide, own: seq<OrderRec>, opp: seq<OrderRec>, done: seq<OrderRec>,
                    rest: seq<OrderRec>, consumed: seq<OrderRec>, o: OrderRec)
    ensures Three(k, side, Insert(own, o), rest, done + consumed)
         == Three(k, side, own, opp, done) - Total(k, side, opp)
            + Total(k, side, consumed) + Total(k, side, rest) + Weight(k, side, o)
    ensures Three(k, side, own, rest, done + consumed + [o])
         == Three(k, side, own, opp, done) - Total(k, side, opp)
            + Total(k, side, consumed) + Total(k, side, rest) + Weight(k, side, o)
  {
    TotalInsert(k, side, own, o);
    TotalAppend(k, side, done, consumed);
    TotalAppend(k, side, done + consumed, [o]);
  }

  /** How a NEW command changes any total. */
  lemma AcceptTotal(k: Measure, side: OrderSide, s: State, o: OrderRec)
    requires o.side == Buy || o.side == Sell
    ensures var g := Matched(s, o);
            Everywhere(k, side, Accept(s, o)) ==
            Everywhere(k, side, s) - Total(k, side, s.Of(Opposite(o.side)))
            + Total(k, side, g.consumed) + Total(k, side, g.rest) + Weight(k, side, Settled(g.aggressor))
  {
    hide Accept, Matched, Settled, Insert, Rests, Three, Everywhere, Total, Weight;
    var g, s' := Matched(s, o), Accept(s, o);
    AcceptParts(s, o);
    ThreeOf(k, side, s, o.side);
    ThreeOf(k, side, s', o.side);
    ThreeAccept(k, side, s.Of(o.side), s.Of(Opposite(o.side)), s.done, g.rest, g.consumed, Settled(g.aggressor));
    assert Rests(Settled(g.aggressor)) ==> s'.done == s.done + g.consumed;
  }

  lemma AcceptFilled(s: State, o: OrderRec, side: OrderSide)
    requires SideInv(s, Opposite(o.side)) && Arriving(s, o) && (side == Buy || side == Sell)
    ensures Everywhere(FilledPart, side, Accept(s, o)) == Everywhere(FilledPart, side, s) + Volume(Matched(s, o).trades)
  {
    hide Accept, Settled, Everywhere, Total, Ordered, Known;
    var g, opp := Matched(s, o), s.Of(Opposite(o.side));
    MatchFacts(s, o);
    SettledFacts(o, g.aggressor, g.trades);
    AcceptTotal(FilledPart, side, s, o);
    if side == o.side {
      FillsElsewhere(o, opp, g, Opposite(o.side), side);
    } else {
      GreedyFills(o, opp, side);
    }
  }

  lemma AcceptTotals(s: State, o: OrderRec)
    requires SideInv(s, Opposite(o.side)) && Arriving(s, o) && TotalsAgree(s)
    ensures TotalsAgree(Accept(s, o))
  {
    hide Accept, Matched, Everywhere, SideInv;
    AcceptFilled(s, o, Buy);
    AcceptFilled(s, o, Sell);
    VolumeAppend(s.log, Matched(s, o).trades);
    AcceptParts(s, o);
  }

  /** A NEW command keeps the invariant. */
  lemma AcceptInv(s: State, o: OrderRec)
    requires Inv(s) && Arriving(s, o)
    ensures Inv(Accept(s, o))
  {
    hide Accept, SideInv, Uncrossed, OnePlace, AllEnded, LogKnown, FillsAgree, TotalsAgree;
    AcceptOwn(s, o);
    AcceptOpposite(s, o);
    AcceptUncrossed(s, o);
    AcceptOnePlace(s, o);
    AcceptEnded(s, o);
    AcceptLog(s, o);
    AcceptFills(s, o);
    AcceptTotals(s, o);
  }

  // Cancelling.

  lemma WithoutPlace(xs: seq<OrderRec>, id: Id) returns (i: nat)
    requires HasId(xs, id)
    ensures i < |xs| && xs[i] == Lookup(xs, id) && xs[i].id == id
    ensures Without(xs, id) == xs[..i] + xs[i + 1..]
  {
    i := FirstWith(xs, id);
    WithoutAt(xs, i);
    LookupFirst(xs, id, i);
  }

  lemma {:induction false} LookupFirst(xs: seq<OrderRec>, id: Id, i: nat)
    requires i < |xs| && xs[i].id == id && !HasId(xs[..i], id)
    ensures HasId(xs, id) && Lookup(xs, id) == xs[i]
  {
    if i > 0 {
      assert xs[..i][0] == xs[0];
      var ys := xs[1..][..i - 1];
      assert forall j :: 0 <= j < |ys| ==> ys[j] == xs[..i][j + 1];
      LookupFirst(xs[1..], id, i - 1);
    }
  }

  lemma DropOrdered(side: OrderSide, arrival: map<Id, nat>, clock: nat, xs: seq<OrderRec>, i: nat)
    requires i < |xs| && Ordered(side, arrival, xs) && Known(arrival, clock, xs) && Resting(xs, side)
    ensures var ys := xs[..i] + xs[i + 1..];
            Ordered(side, arrival, ys) && Known(arrival, clock, ys) && Resting(ys, side)
  {
    hide OrderRec.IsResting;
    var ys := xs[..i] + xs[i + 1..];
    forall a | 0 <= a < |ys| ensures ys[a] == xs[if a < i then a else a + 1] {}
    forall a, b | 0 <= a < b < |ys| ensures Ahead(side, arrival, ys[a], ys[b]) {
      assert Ahead(side, arrival, xs[if a < i then a else a + 1], xs[if b < i then b else b + 1]);
    }
  }

  lemma CancelSide(s: State, side: OrderSide, id: Id)
    requires SideInv(s, side) && HasId(s.Of(side), id)
    ensures SideInv(CancelOn(s, side, id), side)
  {
    hide Ordered, Known, Resting, Without, Lookup, HasId;
    var i := WithoutPlace(s.Of(side), id);
    DropOrdered(side, s.arrival, s.clock, s.Of(side), i);
  }

  lemma CancelUncrossed(s: State, side: OrderSide, id: Id)
    requires Uncrossed(s) && HasId(s.Of(side), id)
    ensures Uncrossed(CancelOn(s, side, id))
  {
    var i := WithoutPlace(s.Of(side), id);
    forall a | 0 <= a < |Without(s.Of(side), id)|
      ensures Without(s.Of(side), id)[a] == s.Of(side)[if a < i then a else a + 1] {}
  }

  lemma CancelOnePlace(s: State, side: OrderSide, id: Id)
    requires OnePlace(s) && HasId(s.Of(side), id)
    ensures OnePlace(CancelOn(s, side, id))
  {
    var r := Lookup(s.Of(side), id).(status := Cancelled);
    IdsWithout(s.Of(side), id);
    IdsAppend(s.done, [r]);
    assert Ids([r]) == [id];
  }

  lemma CancelFills(s: State, side: OrderSide, id: Id)
    requires FillsAgree(s) && HasId(s.Of(side), id)
    ensures FillsAgree(CancelOn(s, side, id))
  {
    var xs := s.Of(side);
    var i := WithoutPlace(xs, id);
    assert xs == xs[..i] + xs[i..] && xs[i..] == [xs[i]] + xs[i + 1..];
    var r := xs[i].(status := Cancelled);
    AccountedAppend(xs[..i], xs[i..], s.log);
    AccountedAppend([xs[i]], xs[i + 1..], s.log);
    AccountedAppend(xs[..i], xs[i + 1..], s.log);
    assert Accounted([r], s.log) by { assert [xs[i]][0] == xs[i]; }
    AccountedAppend(s.done, [r], s.log);
  }

  lemma CancelTotals(s: State, side: OrderSide, id: Id, k: Measure, on: OrderSide)
    requires HasId(s.Of(side), id) && (k == FilledPart || k == Quantity)
    ensures Everywhere(k, on, CancelOn(s, side, id)) == Everywhere(k, on, s)
  {
    var r := Lookup(s.Of(side), id);
    TotalWithout(k, on, s.Of(side), id);
    TotalAppend(k, on, s.done, [r.(status := Cancelled)]);
  }

  lemma CancelOther(s: State, side: OrderSide, id: Id)
    requires SideInv(s, Opposite(side)) && HasId(s.Of(side), id) && (side == Buy || side == Sell)
    ensures SideInv(CancelOn(s, side, id), Opposite(side))
  {
  }

  lemma CancelEnded(s: State, side: OrderSide, id: Id)
    requires SideInv(s, side) && AllEnded(s.done) && HasId(s.Of(side), id) && (side == Buy || side == Sell)
    ensures AllEnded(CancelOn(s, side, id).done)
  {
    var i := WithoutPlace(s.Of(side), id);
    assert Ended(s.Of(side)[i].(status := Cancelled));
  }

  /** A CANCEL command keeps the invariant. */
  lemma CancelInv(s: State, side: OrderSide, id: Id)
    requires Inv(s) && HasId(s.Of(side), id) && (side == Buy || side == Sell)
    ensures Inv(CancelOn(s, side, id))
  {
    hide SideInv, Uncrossed, OnePlace, FillsAgree, Everywhere, AllEnded, Lookup, Without, HasId;
    CancelSide(s, side, id);
    CancelOther(s, side, id);
    CancelEnded(s, side, id);
    CancelUncrossed(s, side, id);
    CancelOnePlace(s, side, id);
    CancelFills(s, side, id);
    CancelTotals(s, side, id, FilledPart, Buy);
    CancelTotals(s, side, id, FilledPart, Sell);
  }

  // Whole runs.

  lemma StepInv(s: State, c: Command)
    requires Inv(s) && Fresh(s, c)
    ensures Inv(Step(s, c))
  {
    hide Inv, Accept, CancelOn;
    match c
    case New(o) => if o.IsValid() { AcceptInv(s, o); }
    case Cancel(id) =>
      if HasId(s.bids, id) { CancelInv(s, Buy, id); } else if HasId(s.asks, id) { CancelInv(s, Sell, id); }
    case Unknown(_) =>
  }

  lemma {:induction false} RunInv(s: State, cs: seq<Command>)
    requires Inv(s) && FreshRun(s, cs)
    ensures Inv(Run(s, cs))
    decreases |cs|
  {
    if cs != [] {
      StepInv(s, cs[0]);
      RunInv(Step(s, cs[0]), cs[1..]);
    }
  }

  lemma EmptyInv()
    ensures Inv(EMPTY)
  {
  }

  /** After any sequence of commands from the empty book: no crossed book, price-time order, one
      place per order, fills equal to logged trades. */
  lemma Reachable(cs: seq<Command>)
    requires FreshRun(EMPTY, cs)
    ensures Inv(Run(EMPTY, cs))
  {
    EmptyInv();
    RunInv(EMPTY, cs);
  }

  /** Quantity of the valid orders of one side among the commands. */
  function Accepted(cs: seq<Command>, side: OrderSide): Decimal {
    if cs == [] then 0.0
    else (if cs[0].New? && cs[0].order.IsValid() && cs[0].order.side == side then cs[0].order.quantity else 0.0)
         + Accepted(cs[1..], side)
  }

  lemma StepQuantity(s: State, c: Command, side: OrderSide)
    requires Inv(s) && Fresh(s, c)
    ensures Everywhere(Quantity, side, Step(s, c)) == Everywhere(Quantity, side, s) + Accepted([c], side)
  {
    hide Inv, Accept, CancelOn, Everywhere, HasId;
    assert Accepted([c], side) ==
           (if c.New? && c.order.IsValid() && c.order.side == side then c.order.quantity else 0.0) by {
      assert [c][1..] == [];
    }
    match c
    case New(o) =>
      if o.IsValid() { AcceptQuantityInv(s, o, side); }
    case Cancel(id) =>
      if HasId(s.bids, id) { CancelTotals(s, Buy, id, Quantity, side); }
      else if HasId(s.asks, id) { CancelTotals(s, Sell, id, Quantity, side); }
    case Unknown(_) =>
  }

  lemma AcceptQuantityInv(s: State, o: OrderRec, side: OrderSide)
    requires Inv(s) && Arriving(s, o)
    ensures Everywhere(Quantity, side, Accept(s, o))
         == Everywhere(Quantity, side, s) + if o.side == side then o.quantity else 0.0
  {
    hide SideInv, Uncrossed, OnePlace, AllEnded, LogKnown, FillsAgree, TotalsAgree, Everywhere, Accept;
    AcceptQuantity(s, o, side);
  }

  lemma AcceptQuantity(s: State, o: OrderRec, side: OrderSide)
    requires SideInv(s, Opposite(o.side)) && Arriving(s, o)
    ensures Everywhere(Quantity, side, Accept(s, o))
         == Everywhere(Quantity, side, s) + if o.side == side then o.quantity else 0.0
  {
    hide Accept, Settled, Everywhere, Total, SideInv;
    var g := Matched(s, o);
    MatchFacts(s, o);
    SettledFacts(o, g.aggressor, g.trades);
    AcceptTotal(Quantity, side, s, o);
    SplitQuantity(o, s.Of(Opposite(o.side)), g, side);
  }

  lemma {:induction false} RunQuantity(s: State, cs: seq<Command>, side: OrderSide)
    requires Inv(s) && FreshRun(s, cs)
    ensures Everywhere(Quantity, side, Run(s, cs)) == Everywhere(Quantity, side, s) + Accepted(cs, side)
    decreases |cs|
  {
    hide Inv, Everywhere, Step;
    if cs != [] {
      StepInv(s, cs[0]);
      StepQuantity(s, cs[0], side);
      RunQuantity(Step(s, cs[0]), cs[1..], side);
      assert Accepted([cs[0]], side) + Accepted(cs[1..], side) == Accepted(cs, side) by {
        assert [cs[0]][1..] == [];
      }
    }
  }

  lemma {:induction false} TotalParts(side: OrderSide, xs: seq<OrderRec>)
    ensures Total(Quantity, side, xs) == Total(FilledPart, side, xs) + Total(Left, side, xs)
  {
    if xs != [] {
      TotalParts(side, xs[1..]);
    }
  }

  lemma {:induction false} LeftOfEnded(side: OrderSide, xs: seq<OrderRec>)
    requires AllEnded(xs)
    ensures Total(Left, side, xs) == Total(LeftOfCancelled, side, xs) + Total(LeftOfMarket, side, xs)
  {
    if xs != [] {
      assert Ended(xs[0]);
      LeftOfEnded(side, xs[1..]);
    }
  }

  lemma LeftElsewhere(s: State, side: OrderSide)
    requires SideInv(s, Opposite(side)) && (side == Buy || side == Sell)
    ensures Total(Left, side, s.Of(Opposite(side))) == 0.0
  {
    TotalZero(Left, side, s.Of(Opposite(side)));
  }

  /** Over every run, what was accepted on a side is what was traded, what rests, what was
      cancelled, and what market orders could not get. */
  lemma Conservation(cs: seq<Command>, side: OrderSide)
    requires FreshRun(EMPTY, cs) && (side == Buy || side == Sell)
    ensures var s := Run(EMPTY, cs);
            Accepted(cs, side) == Volume(s.log) + Total(Left, side, s.Of(side))
            + Total(LeftOfCancelled, side, s.done) + Total(LeftOfMarket, side, s.done)
  {
    var s := Run(EMPTY, cs);
    EmptyInv();
    RunInv(EMPTY, cs);
    RunQuantity(EMPTY, cs, side);
    hide SideInv, Uncrossed, OnePlace, AllEnded, LogKnown, FillsAgree, Total, Run, FreshRun;
    TotalParts(side, s.bids);
    TotalParts(side, s.asks);
    TotalParts(side, s.done);
    LeftOfEnded(side, s.done);
    LeftElsewhere(s, side);
    EmptyTotals(side);
  }

  lemma EmptyTotals(side: OrderSide)
    ensures Everywhere(Quantity, side, EMPTY) == 0.0
  {
  }
}
