/** What matching is meant to do (engine/matching_engine.go): one greedy pass over the opposing
    side in price-time priority, and what that pass guarantees.

    The engine itself runs nested loops over levels and queues; module `Engine` proves that they
    compute exactly `Greedy`.
 */
module Matching {
  import opened Orders
  import opened PriceTime

  predicate Crosses(o: OrderRec, p: Decimal) {
    o.kind == Market || (if o.side == Buy then o.price >= p else o.price <= p)
  }

  function Min(a: Decimal, b: Decimal): Decimal { if a <= b then a else b }

  /** The trade of aggressor `o` with resting order `r`, both as they are after the fill. */
  function TradeOf(o: OrderRec, r: OrderRec, q: Decimal): Trade {
    var (buyer, seller) := if o.side == Buy then (o, r) else (r, o);
    Trade(buyer.id, seller.id, o.instrument, r.price, q,
          buyer.status == PartiallyFilled, seller.status == PartiallyFilled,
          buyer.filled, seller.filled, buyer.Remaining(), seller.Remaining())
  }

  /** Result of matching: trades in order, the aggressor afterwards, the resting orders that were
      used up, and the opposing list that is left. */
  datatype Match = Match(
    trades: seq<Trade>, aggressor: OrderRec, consumed: seq<OrderRec>, rest: seq<OrderRec>)
  {
    function After(ts: seq<Trade>, cs: seq<OrderRec>): Match {
      Match(ts + trades, aggressor, cs + consumed, rest)
    }
  }

  /** No further trade is possible: the aggressor is done, or nothing (left) crosses. */
  predicate Stuck(o: OrderRec, xs: seq<OrderRec>) {
    o.Remaining() <= 0.0 || xs == [] || !Crosses(o, xs[0].price)
  }

  function Greedy(o: OrderRec, xs: seq<OrderRec>): Match
    decreases |xs|
  {
    if Stuck(o, xs) then Match([], o, [], xs) else
    var q := Min(o.Remaining(), xs[0].Remaining());
    var o' := o.AfterFill(q);
    var r' := xs[0].AfterFill(q);
    var t := TradeOf(o', r', q);
    if r'.IsFilled()
    then Greedy(o', xs[1..]).After([t], [r'])
    else Match([t], o', [], [r'] + xs[1..])
  }

  /** A market order that finds no more counterparties is left partially filled, or rejected. */
  function GiveUp(o: OrderRec): OrderRec {
    if o.Remaining() > 0.0 then o.(status := if o.filled > 0.0 then PartiallyFilled else Rejected) else o
  }

  // Vocabulary.

  ghost predicate Resting(xs: seq<OrderRec>, side: OrderSide) {
    forall i :: 0 <= i < |xs| ==> xs[i].side == side && xs[i].IsResting()
  }

  ghost predicate PriceSorted(xs: seq<OrderRec>, side: OrderSide) {
    forall i, j :: 0 <= i < j < |xs| ==> AtLeastAsGood(side, xs[i].price, xs[j].price)
  }

  function Volume(ts: seq<Trade>): Decimal {
    if ts == [] then 0.0 else ts[0].quantity + Volume(ts[1..])
  }

  /** Everything on the opposing side that the order may trade with: all of it for a market order, and
      what is not beyond its limit for a limit order. */
  function CrossingLiquidity(o: OrderRec, xs: seq<OrderRec>): Decimal {
    if xs == [] then 0.0
    else
      var p := xs[0].price;
      var within := o.kind == Market || (if o.side == Buy then p <= o.price else p >= o.price);
      (if within then xs[0].Remaining() else 0.0) + CrossingLiquidity(o, xs[1..])
  }

  /** A completely filled order. */
  function FilledUp(r: OrderRec): OrderRec { r.(filled := r.quantity, status := Filled) }

  ghost predicate Incoming(o: OrderRec) {
    0.0 <= o.filled <= o.quantity
  }

  /** `t` is a trade of `o` with `r`, at the price of `r`. */
  predicate Names(t: Trade, o: OrderRec, r: OrderRec) {
    t.price == r.price && t.instrument == o.instrument &&
    if o.side == Buy then t.buyId == o.id && t.sellId == r.id else t.buyId == r.id && t.sellId == o.id
  }

  // What one pass guarantees.

  /** The list splits into completely filled orders, at most one reduced order, and untouched
      ones; the `i`-th trade is with the `i`-th order, at its price. */
  ghost predicate SplitsAt(o: OrderRec, xs: seq<OrderRec>, g: Match) {
    && |g.consumed| <= |g.trades| <= |g.consumed| + 1 && |g.trades| <= |xs|
    && TradesInOrder(o, xs, g)
    && ConsumedInOrder(xs, g)
    && RestInOrder(xs, g)
  }

  ghost predicate TradesInOrder(o: OrderRec, xs: seq<OrderRec>, g: Match)
    requires |g.trades| <= |xs|
  {
    forall i :: 0 <= i < |g.trades| ==> Names(g.trades[i], o, xs[i]) && Crosses(o, xs[i].price)
  }

  ghost predicate ConsumedInOrder(xs: seq<OrderRec>, g: Match)
    requires |g.consumed| <= |g.trades| <= |xs|
  {
    forall i :: 0 <= i < |g.consumed| ==>
      g.consumed[i] == FilledUp(xs[i]) && g.trades[i].quantity == xs[i].Remaining()
  }

  ghost predicate RestInOrder(xs: seq<OrderRec>, g: Match)
    requires |g.consumed| <= |g.trades| <= |g.consumed| + 1 && |g.trades| <= |xs|
  {
    var k := |g.consumed|;
    if |g.trades| == k then g.rest == xs[k..]
    else 0.0 < g.trades[k].quantity < xs[k].Remaining()
         && g.rest == [xs[k].AfterFill(g.trades[k].quantity)] + xs[k + 1..]
  }

  lemma {:induction false} GreedySplits(o: OrderRec, xs: seq<OrderRec>, side: OrderSide)
    requires Resting(xs, side) && Incoming(o)
    ensures SplitsAt(o, xs, Greedy(o, xs))
    decreases |xs|
  {
    if !Stuck(o, xs) {
      var q := Min(o.Remaining(), xs[0].Remaining());
      if xs[0].AfterFill(q).IsFilled() {
        var o' := o.AfterFill(q);
        GreedySplits(o', xs[1..], side);
        SplitsCons(o, xs, Greedy(o', xs[1..]), TradeOf(o', xs[0].AfterFill(q), q));
      }
    }
  }

  lemma SplitsCons(o: OrderRec, xs: seq<OrderRec>, h: Match, t: Trade)
    requires xs != [] && Crosses(o, xs[0].price)
    requires Names(t, o, xs[0]) && t.quantity == xs[0].Remaining()
    requires SplitsAt(o, xs[1..], h)
    ensures SplitsAt(o, xs, h.After([t], [FilledUp(xs[0])]))
  {
    TradesCons(o, xs, h, t);
    ConsumedCons(xs, h, t);
    RestCons(xs, h, t);
  }

  lemma TradesCons(o: OrderRec, xs: seq<OrderRec>, h: Match, t: Trade)
    requires xs != [] && |h.trades| <= |xs| - 1
    requires Crosses(o, xs[0].price) && Names(t, o, xs[0])
    requires TradesInOrder(o, xs[1..], h)
    ensures TradesInOrder(o, xs, h.After([t], [FilledUp(xs[0])]))
  {
    var ts := [t] + h.trades;
    forall i | 0 <= i < |ts| ensures Names(ts[i], o, xs[i]) && Crosses(o, xs[i].price) {
      if i > 0 { assert ts[i] == h.trades[i - 1] && xs[i] == xs[1..][i - 1]; }
    }
  }

  lemma ConsumedCons(xs: seq<OrderRec>, h: Match, t: Trade)
    requires xs != [] && |h.consumed| <= |h.trades| <= |xs| - 1
    requires t.quantity == xs[0].Remaining()
    requires ConsumedInOrder(xs[1..], h)
    ensures ConsumedInOrder(xs, h.After([t], [FilledUp(xs[0])]))
  {
    var g := h.After([t], [FilledUp(xs[0])]);
    forall i | 0 <= i < |g.consumed|
      ensures g.consumed[i] == FilledUp(xs[i]) && g.trades[i].quantity == xs[i].Remaining()
    {
      if i > 0 {
        assert g.consumed[i] == h.consumed[i - 1] && g.trades[i] == h.trades[i - 1] && xs[i] == xs[1..][i - 1];
      }
    }
  }

  lemma RestCons(xs: seq<OrderRec>, h: Match, t: Trade)
    requires xs != []
    requires |h.consumed| <= |h.trades| <= |h.consumed| + 1 && |h.trades| <= |xs| - 1
    requires RestInOrder(xs[1..], h)
    ensures RestInOrder(xs, h.After([t], [FilledUp(xs[0])]))
  {
    var k := |h.consumed|;
    assert xs[1..][k..] == xs[k + 1..];
    if |h.trades| > k {
      assert xs[1..][k + 1..] == xs[k + 2..] && xs[1..][k] == xs[k + 1];
      assert ([t] + h.trades)[k + 1] == h.trades[k];
    }
  }

  /** The aggressor gains exactly the traded volume, and its status says how far it got. */
  lemma {:induction false} GreedyAggressor(o: OrderRec, xs: seq<OrderRec>, side: OrderSide)
    requires Resting(xs, side) && Incoming(o)
    ensures var g := Greedy(o, xs);
            && 0.0 <= Volume(g.trades) <= o.Remaining()
            && g.aggressor == (if g.trades == [] then o else o.AfterFill(Volume(g.trades)))
            && (g.trades != [] ==> Volume(g.trades) > 0.0)
    decreases |xs|
  {
    if !Stuck(o, xs) {
      var q := Min(o.Remaining(), xs[0].Remaining());
      if xs[0].AfterFill(q).IsFilled() {
        GreedyAggressor(o.AfterFill(q), xs[1..], side);
        var h := Greedy(o.AfterFill(q), xs[1..]);
        var t := TradeOf(o.AfterFill(q), xs[0].AfterFill(q), q);
        assert ([t] + h.trades)[1..] == h.trades;
      }
    }
  }

  /** Matching changes only the fill and the status of the aggressor. */
  lemma {:induction false} GreedyIdentity(o: OrderRec, xs: seq<OrderRec>)
    ensures var a := Greedy(o, xs).aggressor; a == o.(filled := a.filled, status := a.status)
    decreases |xs|
  {
    if !Stuck(o, xs) {
      var q := Min(o.Remaining(), xs[0].Remaining());
      if xs[0].AfterFill(q).IsFilled() {
        GreedyIdentity(o.AfterFill(q), xs[1..]);
      }
    }
  }

  /** Matching stops only when no further trade is possible. */
  lemma {:induction false} GreedyExhausts(o: OrderRec, xs: seq<OrderRec>, side: OrderSide)
    requires Resting(xs, side) && Incoming(o)
    ensures var g := Greedy(o, xs); Stuck(g.aggressor, g.rest)
    decreases |xs|
  {
    if !Stuck(o, xs) {
      var q := Min(o.Remaining(), xs[0].Remaining());
      if xs[0].AfterFill(q).IsFilled() {
        GreedyExhausts(o.AfterFill(q), xs[1..], side);
      }
    }
  }

  lemma {:induction false} NoLiquidityBehind(o: OrderRec, xs: seq<OrderRec>, p: Decimal)
    requires (o.side == Buy || o.side == Sell)
    requires !Crosses(o, p)
    requires forall i :: 0 <= i < |xs| ==> AtLeastAsGood(Opposite(o.side), p, xs[i].price)
    ensures CrossingLiquidity(o, xs) == 0.0
  {
    if xs != [] {
      NoLiquidityBehind(o, xs[1..], p);
    }
  }

  lemma {:induction false} LiquidityUnchanged(o: OrderRec, o': OrderRec, xs: seq<OrderRec>)
    requires o.kind == o'.kind && o.side == o'.side && o.price == o'.price
    ensures CrossingLiquidity(o, xs) == CrossingLiquidity(o', xs)
  {
    if xs != [] {
      LiquidityUnchanged(o, o', xs[1..]);
    }
  }

  lemma {:induction false} LiquidityNonNegative(o: OrderRec, xs: seq<OrderRec>, side: OrderSide)
    requires Resting(xs, side)
    ensures CrossingLiquidity(o, xs) >= 0.0
  {
    if xs != [] {
      LiquidityNonNegative(o, xs[1..], side);
    }
  }

  /** Matching fills exactly the smaller of what is wanted and what crosses. */
  lemma {:induction false} GreedyMaximal(o: OrderRec, xs: seq<OrderRec>)
    requires o.side == Buy || o.side == Sell
    requires Incoming(o)
    requires Resting(xs, Opposite(o.side)) && PriceSorted(xs, Opposite(o.side))
    ensures Volume(Greedy(o, xs).trades) == Min(o.Remaining(), CrossingLiquidity(o, xs))
    decreases |xs|
  {
    LiquidityNonNegative(o, xs, Opposite(o.side));
    if Stuck(o, xs) {
      if xs != [] && !Crosses(o, xs[0].price) {
        NoLiquidityBehind(o, xs, xs[0].price);
      }
    } else {
      var q := Min(o.Remaining(), xs[0].Remaining());
      var o' := o.AfterFill(q);
      LiquidityUnchanged(o, o', xs[1..]);
      LiquidityNonNegative(o, xs[1..], Opposite(o.side));
      if xs[0].AfterFill(q).IsFilled() {
        GreedyMaximal(o', xs[1..]);
        var h := Greedy(o', xs[1..]);
        var t := TradeOf(o', xs[0].AfterFill(q), q);
        assert ([t] + h.trades)[1..] == h.trades;
      }
    }
  }

  // Matching one order at a time.

  /** From `o0` and `xs0`, the trades `ts` have been made and `cs` used up; `o` and `xs` are left. */
  ghost predicate SoFar(
    o0: OrderRec, xs0: seq<OrderRec>, o: OrderRec, xs: seq<OrderRec>, ts: seq<Trade>, cs: seq<OrderRec>)
  {
    Greedy(o0, xs0) == Greedy(o, xs).After(ts, cs)
  }

  lemma NothingYet(o: OrderRec, xs: seq<OrderRec>)
    ensures SoFar(o, xs, o, xs, [], [])
  {
    var g := Greedy(o, xs);
    assert [] + g.trades == g.trades && [] + g.consumed == g.consumed;
  }

  lemma OneMore(o0: OrderRec, xs0: seq<OrderRec>, o: OrderRec, xs: seq<OrderRec>, ts: seq<Trade>, cs: seq<OrderRec>,
                o': OrderRec, r': OrderRec)
    requires SoFar(o0, xs0, o, xs, ts, cs)
    requires !Stuck(o, xs) && xs[0].IsResting()
    requires var q := Min(o.Remaining(), xs[0].Remaining()); o' == o.AfterFill(q) && r' == xs[0].AfterFill(q)
    ensures var t := TradeOf(o', r', Min(o.Remaining(), xs[0].Remaining()));
            SoFar(o0, xs0, o', (if r'.IsFilled() then [] else [r']) + xs[1..], ts + [t],
                  cs + if r'.IsFilled() then [r'] else [])
  {
    var t := TradeOf(o', r', Min(o.Remaining(), xs[0].Remaining()));
    if r'.IsFilled() {
      assert [] + xs[1..] == xs[1..];
      var g := Greedy(o', xs[1..]);
      assert ts + ([t] + g.trades) == ts + [t] + g.trades;
      assert cs + ([r'] + g.consumed) == cs + [r'] + g.consumed;
    } else {
      assert Stuck(o', [r'] + xs[1..]);
      assert ts + [t] + [] == ts + [t];
      assert cs + [] + [] == cs + [];
    }
  }

  lemma NothingMore(o0: OrderRec, xs0: seq<OrderRec>, o: OrderRec, xs: seq<OrderRec>, ts: seq<Trade>, cs: seq<OrderRec>)
    requires SoFar(o0, xs0, o, xs, ts, cs) && Stuck(o, xs)
    ensures Greedy(o0, xs0) == Match(ts, o, cs, xs)
  {
    assert ts + [] == ts && cs + [] == cs;
  }

  lemma Continued(o0: OrderRec, xs0: seq<OrderRec>,
                  o1: OrderRec, xs1: seq<OrderRec>, ts1: seq<Trade>, cs1: seq<OrderRec>,
                  o: OrderRec, xs: seq<OrderRec>, ts: seq<Trade>, cs: seq<OrderRec>)
    requires SoFar(o0, xs0, o1, xs1, ts1, cs1) && SoFar(o1, xs1, o, xs, ts, cs)
    ensures SoFar(o0, xs0, o, xs, ts1 + ts, cs1 + cs)
  {
    var g := Greedy(o, xs);
    assert ts1 + (ts + g.trades) == ts1 + ts + g.trades;
    assert cs1 + (cs + g.consumed) == cs1 + cs + g.consumed;
  }
}
