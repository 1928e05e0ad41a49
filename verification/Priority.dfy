/** What a counterparty can rely on: strict price-time priority, execution prices, maximal fills
    and final statuses, in every reachable state.
 */
module Priority {
  import opened Orders
  import opened PriceTime
  import opened Matching
  import opened Runs
  import opened RunInvariants

  lemma StandsBefore(side: OrderSide, arrival: map<Id, nat>, xs: seq<OrderRec>, i: nat, j: nat)
    requires Ordered(side, arrival, xs) && i < |xs| && j < |xs|
    requires Ahead(side, arrival, xs[j], xs[i])
    ensures j < i
  {
  }

  /** No resting order is passed over: whatever stands ahead of a traded order, by a better price or
      by an earlier arrival at the same price, was completely filled by the same command, before. */
  lemma NoBypass(s: State, o: OrderRec, i: nat, j: nat)
    requires Inv(s) && Arriving(s, o)
    requires i < |Matched(s, o).trades| && i < |s.Of(Opposite(o.side))| && j < |s.Of(Opposite(o.side))|
    requires Ahead(Opposite(o.side), s.arrival, s.Of(Opposite(o.side))[j], s.Of(Opposite(o.side))[i])
    ensures var g, x := Matched(s, o), s.Of(Opposite(o.side))[j];
            && j < i && j < |g.consumed|
            && Names(g.trades[j], o, x) && g.trades[j].quantity == x.Remaining()
            && FilledUp(x) in Accept(s, o).done
  {
    hide Matched, Accept, Uncrossed, OnePlace, AllEnded, LogKnown, FillsAgree, TotalsAgree, Resting, Known,
         Settled, Rests;
    var g, xs := Matched(s, o), s.Of(Opposite(o.side));
    MatchFacts(s, o);
    StandsBefore(Opposite(o.side), s.arrival, xs, i, j);
    AcceptParts(s, o);
    assert Names(g.trades[j], o, xs[j]);
    assert g.consumed[j] == FilledUp(xs[j]);
    assert Accept(s, o).done[|s.done| + j] == FilledUp(xs[j]);
  }

  lemma SortedByPrice(side: OrderSide, arrival: map<Id, nat>, xs: seq<OrderRec>)
    requires Ordered(side, arrival, xs)
    ensures PriceSorted(xs, side)
  {
    forall i, j | 0 <= i < j < |xs| ensures AtLeastAsGood(side, xs[i].price, xs[j].price) {
      assert Ahead(side, arrival, xs[i], xs[j]);
    }
  }

  /** Every trade prints at the price of the resting order whose turn it is, between the buyer and the
      seller; a limit buy never pays more than its limit, a limit sell never gets less, and prices only
      get worse for the aggressor. */
  lemma ExecutionPrices(s: State, o: OrderRec)
    requires Inv(s) && Arriving(s, o)
    ensures var ts, xs := Matched(s, o).trades, s.Of(Opposite(o.side));
            && |ts| <= |xs|
            && (forall i :: 0 <= i < |ts| ==>
                  && ts[i].price == xs[i].price && ts[i].instrument == o.instrument && ts[i].quantity > 0.0
                  && ts[i].buyId == (if o.side == Buy then o.id else xs[i].id)
                  && ts[i].sellId == (if o.side == Buy then xs[i].id else o.id))
            && (o.kind == Limit && o.side == Buy ==> forall i :: 0 <= i < |ts| ==> ts[i].price <= o.price)
            && (o.kind == Limit && o.side == Sell ==> forall i :: 0 <= i < |ts| ==> ts[i].price >= o.price)
            && (o.side == Buy ==> forall i, j :: 0 <= i < j < |ts| ==> ts[i].price <= ts[j].price)
            && (o.side == Sell ==> forall i, j :: 0 <= i < j < |ts| ==> ts[i].price >= ts[j].price)
  {
    hide Matched, Uncrossed, OnePlace, AllEnded, LogKnown, FillsAgree, TotalsAgree, Known;
    var g, xs := Matched(s, o), s.Of(Opposite(o.side));
    MatchFacts(s, o);
    SortedByPrice(Opposite(o.side), s.arrival, xs);
    forall i | 0 <= i < |g.trades|
      ensures Names(g.trades[i], o, xs[i]) && Crosses(o, xs[i].price) && g.trades[i].quantity > 0.0
    {
      TradePositive(o, xs, g, i);
    }
  }

  lemma TradePositive(o: OrderRec, xs: seq<OrderRec>, g: Match, i: nat)
    requires SplitsAt(o, xs, g) && i < |g.trades| && Resting(xs, Opposite(o.side))
    ensures Names(g.trades[i], o, xs[i]) && Crosses(o, xs[i].price) && g.trades[i].quantity > 0.0
  {
    if i < |g.consumed| {
      assert g.trades[i].quantity == xs[i].Remaining();
    }
  }

  /** A NEW command leaves everything as it is exactly when the order has no client or no instrument, an
      unknown side or type, no positive quantity, no positive price although it is a limit order, or is
      filled beyond its quantity. */
  lemma RejectsExactly(s: State, o: OrderRec)
    ensures Step(s, New(o)) == s <==>
            || o.clientId == "" || o.instrument == ""
            || (o.side != Buy && o.side != Sell) || (o.kind != Limit && o.kind != Market)
            || o.quantity <= 0.0 || (o.kind == Limit && o.price <= 0.0) || o.filled > o.quantity
  {
    if o.side == Buy || o.side == Sell {
      AcceptParts(s, o);
      hide Accept, Matched;
      assert Accept(s, o).clock == s.clock + 1;
    }
  }

  /** The order as it stands when its command is over. */
  function Outcome(s: State, o: OrderRec): OrderRec { Settled(Matched(s, o).aggressor) }

  /** A command fills its order by exactly the smaller of what it asks for and what crosses. */
  lemma MaximalFill(s: State, o: OrderRec)
    requires Inv(s) && Arriving(s, o)
    ensures Outcome(s, o).filled == Min(o.quantity, CrossingLiquidity(o, s.Of(Opposite(o.side))))
  {
    var g, xs := Matched(s, o), s.Of(Opposite(o.side));
    MatchFacts(s, o);
    SettledFacts(o, g.aggressor, g.trades);
    SortedByPrice(Opposite(o.side), s.arrival, xs);
    GreedyMaximal(o, xs);
  }

  /** A market order never rests; it is left unfilled only by an empty opposing side, and rejected
      exactly when it did not trade at all. */
  lemma MarketOutcome(s: State, o: OrderRec)
    requires Inv(s) && Arriving(s, o) && o.kind == Market
    ensures var s', o' := Accept(s, o), Outcome(s, o);
            && s'.Of(o.side) == s.Of(o.side) && !HasId(s'.bids, o.id) && !HasId(s'.asks, o.id) && o' in s'.done
            && (o'.filled < o.quantity ==> s'.Of(Opposite(o.side)) == [])
            && (o'.status == Rejected <==> Matched(s, o).trades == [])
            && (o'.status == Filled <==> o'.filled == o.quantity)
  {
    hide Matched, Accept, Settled, Uncrossed, OnePlace, AllEnded, LogKnown, FillsAgree, TotalsAgree, SplitsAt, HasId;
    var g, s' := Matched(s, o), Accept(s, o);
    MatchFacts(s, o);
    SettledFacts(o, g.aggressor, g.trades);
    AcceptParts(s, o);
    NotAround(s, o);
    assert s'.done[|s'.done| - 1] == Outcome(s, o);
  }

  /** A limit order rests exactly when something of it is left. */
  lemma LimitOutcome(s: State, o: OrderRec)
    requires Inv(s) && Arriving(s, o) && o.kind == Limit
    ensures var s', o' := Accept(s, o), Outcome(s, o);
            && (o'.filled < o.quantity ==> o' in s'.Of(o.side) && o'.IsResting())
            && (o'.filled == o.quantity ==> !HasId(s'.bids, o.id) && !HasId(s'.asks, o.id) && o'.status == Filled)
  {
    var g, o' := Matched(s, o), Outcome(s, o);
    MatchFacts(s, o);
    SettledFacts(o, g.aggressor, g.trades);
    AcceptParts(s, o);
    if Rests(o') {
      var k := InsertPlace(s.Of(o.side), o');
      assert Insert(s.Of(o.side), o')[k] == o';
    } else {
      NotAround(s, o);
    }
  }

  /** An order that does not rest is in neither list afterwards. */
  lemma NotAround(s: State, o: OrderRec)
    requires Inv(s) && Arriving(s, o) && !Rests(Outcome(s, o))
    ensures !HasId(Accept(s, o).bids, o.id) && !HasId(Accept(s, o).asks, o.id)
  {
    hide Matched, Accept, SideInv, Uncrossed, OnePlace, AllEnded, LogKnown, FillsAgree, TotalsAgree,
         Settled, Rests, SplitsAt;
    MatchFacts(s, o);
    AcceptParts(s, o);
    OnePlaceApart(s);
    RestHasNot(o, s.Of(Opposite(o.side)), Matched(s, o), o.id);
  }

  lemma RestHasNot(o: OrderRec, xs: seq<OrderRec>, g: Match, id: Id)
    requires SplitsAt(o, xs, g) && !HasId(xs, id)
    ensures !HasId(g.rest, id)
  {
    RestPlaces(o, xs, g);
    var k := |g.consumed|;
    assert forall i :: 0 <= i < |g.rest| ==> g.rest[i].id == xs[k..][i].id == xs[k + i].id;
  }

  /** In every reachable state the best bid is below the best ask. */
  lemma NeverCrossed(cs: seq<Command>)
    requires FreshRun(EMPTY, cs)
    ensures var s := Run(EMPTY, cs); s.bids != [] && s.asks != [] ==> s.bids[0].price < s.asks[0].price
  {
    Reachable(cs);
  }

  /** In every reachable state each order, wherever it is, is filled by exactly the logged trades
      that name it, never beyond its quantity, and bought equals sold equals traded volume. */
  lemma FillsMatchTrades(cs: seq<Command>, r: OrderRec)
    requires FreshRun(EMPTY, cs)
    requires var s := Run(EMPTY, cs); r in s.bids || r in s.asks || r in s.done
    ensures r.filled == Named(Run(EMPTY, cs).log, r.id) && 0.0 <= r.filled <= r.quantity
    ensures var s := Run(EMPTY, cs);
            Everywhere(FilledPart, Buy, s) == Everywhere(FilledPart, Sell, s) == Volume(s.log)
  {
    Reachable(cs);
    hide Run, FreshRun, SideInv, Uncrossed, OnePlace, AllEnded, Everywhere, Volume;
  }

  /** In every reachable state the book holds, on each side, only open or partially filled limit
      orders of that side with something left, in price-time order. */
  lemma BookHoldsRestingOrders(cs: seq<Command>, side: OrderSide)
    requires FreshRun(EMPTY, cs) && (side == Buy || side == Sell)
    ensures var s := Run(EMPTY, cs);
            && Ordered(side, s.arrival, s.Of(side))
            && forall i :: 0 <= i < |s.Of(side)| ==>
                 var r := s.Of(side)[i];
                 && r.side == side && r.kind == Limit && r.Remaining() > 0.0
                 && (r.status == Open || r.status == PartiallyFilled)
  {
    Reachable(cs);
    hide Run, FreshRun, Uncrossed, OnePlace, AllEnded, LogKnown, FillsAgree, TotalsAgree, Ordered;
  }
}
