/** The matching engine (engine/matching_engine.go): the nested loops that match an order against
    the book, and the worker's command processing.
 */
module Engine {
  import opened Orders
  import opened PriceTime
  import opened Matching
  import opened PriceLevels
  import opened BookShape
  import opened OrderBooks
  import opened Runs

  /** A command as posted to the worker: NEW carries the caller's order object. */
  datatype Posted = PostNew(order: Order) | PostCancel(id: Id) | PostUnknown(text: string)

  ghost function Carried(c: Posted): set<Order> {
    if c.PostNew? then {c.order} else {}
  }

  /** The command as values. */
  ghost function Said(c: Posted): Command
    reads Carried(c)
  {
    match c
    case PostNew(o) => New(o.Rec())
    case PostCancel(id) => Cancel(id)
    case PostUnknown(text) => Unknown(text)
  }

  ghost function SaidAll(cs: seq<Posted>): (said: seq<Command>)
    reads AllCarried(cs)
    ensures |said| == |cs| && forall i :: 0 <= i < |cs| ==> said[i] == Said(cs[i])
  {
    seq(|cs|, i requires 0 <= i < |cs| reads AllCarried(cs) => Said(cs[i]))
  }

  ghost function AllCarried(cs: seq<Posted>): set<Order> {
    set i | 0 <= i < |cs| && cs[i].PostNew? :: cs[i].order
  }

  /** No order with this id is resting. */
  predicate Free(s: State, id: Id) { !HasId(s.bids, id) && !HasId(s.asks, id) }

  /** A new order comes with an id that no resting order has when its turn comes. */
  predicate FreeIds(s: State, said: seq<Command>)
    decreases |said|
  {
    said == [] || ((said[0].New? ==> Free(s, said[0].order.id)) && FreeIds(Step(s, said[0]), said[1..]))
  }

  lemma NextCommand(s: State, said: seq<Command>)
    requires FreeIds(s, said) && said != []
    ensures (said[0].New? ==> Free(s, said[0].order.id)) && FreeIds(Step(s, said[0]), said[1..])
    ensures Run(s, said) == Run(Step(s, said[0]), said[1..])
  {
  }

  lemma NoCommand(s: State)
    ensures Run(s, []) == s
  {
  }

  /** New orders are different objects. */
  ghost predicate Separate(cs: seq<Posted>) {
    forall i, j :: 0 <= i < j < |cs| && cs[i].PostNew? && cs[j].PostNew? ==> cs[i].order != cs[j].order
  }

  /** The response is one to this command. */
  predicate Answers(r: Response, c: Posted) {
    match r
    case Processed(trades, o) => c == PostNew(o) || (c == PostCancel(o.id) && trades == [])
    case OrderNotFound(id) => c == PostCancel(id)
    case UnknownCommand(text) => c == PostUnknown(text)
  }

  function TradesOf(r: Response): seq<Trade> { if r.Processed? then r.trades else [] }

  /** The trades of all responses, in order. */
  function AllTrades(rs: seq<Response>): seq<Trade> {
    if rs == [] then [] else AllTrades(rs[..|rs| - 1]) + TradesOf(rs[|rs| - 1])
  }

  lemma NoTrades(log: seq<Trade>)
    ensures log + AllTrades([]) == log
  {
  }

  lemma TradesAppend(log: seq<Trade>, rs: seq<Response>, r: Response)
    ensures log + AllTrades(rs) + TradesOf(r) == log + AllTrades(rs + [r])
  {
    assert (rs + [r])[..|rs|] == rs;
  }

  lemma CarriedAt(cs: seq<Posted>, i: nat)
    requires i < |cs|
    ensures Carried(cs[i]) <= AllCarried(cs)
  {
  }

  lemma StepUnknown(s: State, text: string)
    ensures Step(s, Unknown(text)) == s
  {
  }

  datatype Response = Processed(trades: seq<Trade>, order: Order) | OrderNotFound(id: Id) | UnknownCommand(text: string)

  /** Reducing the first order of the best level reduces the head of the list. */
  lemma FillFrontFlat(m: Queues, side: OrderSide, p: Decimal, r: OrderRec)
    requires IsBest(m.Keys, side, p) && m[p] != []
    ensures Flatten(m, side) != [] && Flatten(m, side)[0] == m[p][0]
    ensures Flatten(m[p := m[p][0 := r]], side) == [r] + Flatten(m, side)[1..]
  {
    FlattenAt(m, side, p);
    FlattenSetBest(m, side, p, m[p][0 := r]);
    assert m[p][0 := r] == [r] + m[p][1..];
    assert (m[p] + Flatten(m - {p}, side))[1..] == m[p][1..] + Flatten(m - {p}, side);
  }

  lemma StaysLinked(s: Shape, s': Shape, r: Order, l: PriceLevel)
    requires LinkedAt(s, r, l, 0) && s'.bids == s.bids && s'.asks == s.asks && r in s'.ov
    requires l in s'.lv && l in s.lv && s'.lv[l].orders == s.lv[l].orders
    ensures LinkedAt(s', r, l, 0)
  {
  }

  lemma FrontOf(s: Shape, side: OrderSide, l: PriceLevel)
    requires s.QueueOk(side, l, null)
    ensures var o := s.lv[l].orders[0];
            && o in s.ov && o.side == side && o.price == l.price
            && o.id in s.index && s.index[o.id] == Location(l, o)
            && s.ov[o].id == o.id && s.ov[o].price == l.price && s.ov[o].IsResting()
    ensures |s.Queue(l)| > 0 && s.Queue(l)[0] == s.ov[s.lv[l].orders[0]]
  {
    assert s.ElementOk(side, l, s.lv[l].orders[0], null);
  }

  /** Where the front order of the best level is. */
  lemma FrontLinked(s: Shape, side: OrderSide, l: PriceLevel)
    requires s.Ok(null, false) && (side == Buy || side == Sell)
    requires IsBest(s.Tree(side).Keys, side, l.price) && s.Tree(side)[l.price] == l
    ensures l in s.lv && s.lv[l].orders != []
    ensures var o := s.lv[l].orders[0];
            && LinkedAt(s, o, l, 0) && o.side == side && o.price == l.price
            && o.id in s.index && s.index[o.id] == Location(l, o)
            && s.ov[o].id == o.id && s.ov[o].price == l.price && s.ov[o].IsResting()
    ensures s.Queues(side).Keys == s.Tree(side).Keys
    ensures s.Queues(side)[l.price] == s.Queue(l) && |s.Queue(l)| > 0
    ensures s.Queue(l)[0] == s.ov[s.lv[l].orders[0]]
  {
    hide Shape.SideOk, Shape.IndexOk, Shape.ElementOk, Shape.VolumeOk, NoDup, Shape.Queue, OrderRec.IsResting;
    LevelOf(s, side, l.price, null, false);
    FrontOf(s, side, l);
    QueueKeys(s, side);
  }

  class MatchingEngine {
    const book: OrderBook
    /** The state as values, and the objects of the orders that are done. */
    ghost var state: State
    ghost var retired: seq<Order>

    ghost predicate Valid()
      reads this, book, book.bids, book.asks, book.lv.Keys, book.ov.Keys, retired
    {
      && book.Valid()
      && book.Flat(Buy) == state.bids && book.Flat(Sell) == state.asks
      && book.index.Keys <= state.arrival.Keys
      && Retired(retired, state.done, state.arrival)
    }

    /** The objects of finished orders show their final values and are out of the book. */
    ghost predicate Retired(os: seq<Order>, rs: seq<OrderRec>, arrival: map<Id, nat>)
      reads book, os
    {
      && |os| == |rs|
      && forall i :: 0 <= i < |os| ==> os[i].Rec() == rs[i] && os[i] !in book.ov && os[i].id in arrival
    }

    lemma RetiredMore(os: seq<Order>, rs: seq<OrderRec>, os': seq<Order>, rs': seq<OrderRec>, arrival: map<Id, nat>)
      requires Retired(os, rs, arrival) && Retired(os', rs', arrival)
      ensures Retired(os + os', rs + rs', arrival)
    {
    }

    constructor ()
      ensures Valid() && state == EMPTY && retired == []
      ensures fresh(book) && fresh(book.bids) && fresh(book.asks) && book.lv == map[] && book.ov == map[]
    {
      book := new OrderBook();
      state, retired := EMPTY, [];
    }

    /** `l` is the best level opposite to `o`, and `r` is the first in its queue. */
    ghost predicate Facing(o: Order, r: Order, l: PriceLevel)
      reads book, book.bids, book.asks
    {
      var s, side := book.Now(), Opposite(o.side);
      && IsBest(s.Tree(side).Keys, side, l.price) && s.Tree(side)[l.price] == l
      && l in s.lv && s.lv[l].orders != [] && s.lv[l].orders[0] == r
    }

    /** Both orders are filled by the smaller of what is left of each. */
    method FillBoth(o: Order, r: Order, ghost l: PriceLevel) returns (t: Trade)
      requires book.Valid() && o.id !in book.index && (o.side == Buy || o.side == Sell)
      requires Facing(o, r, l)
      modifies book`ov, o, r
      ensures old(book.Flat(Opposite(o.side))) != [] && old(book.Flat(Opposite(o.side))[0] == r.Rec())
      ensures book.Inv(r, true)
      ensures var q := Min(old(o.Rec()).Remaining(), old(r.Rec()).Remaining());
              && o.Rec() == old(o.Rec()).AfterFill(q)
              && r.Rec() == old(r.Rec()).AfterFill(q)
              && t == TradeOf(o.Rec(), r.Rec(), q)
      ensures old(r in book.ov) && book.ov == old(book.ov)[r := r.Rec()]
      ensures book.Flat(Opposite(o.side)) == [r.Rec()] + old(book.Flat(Opposite(o.side)))[1..]
      ensures book.Flat(o.side) == old(book.Flat(o.side))
      ensures r.id in book.index && book.index[r.id] == Location(l, r) && r.side == Opposite(o.side)
    {
      hide Shape.Ok, Shape.Queues, Shape.Queue, Flatten, OrderRec.AfterFill;
      ghost var s, side := book.Now(), Opposite(o.side);
      FrontLinked(s, side, l);
      assert o !in book.ov by { NotInBook(s, o); }
      var q := Min(o.Rec().Remaining(), r.Rec().Remaining());
      o.Fill(q);
      book.FillResting(r, q, l, 0);
      FillFrontFlat(s.Queues(side), side, l.price, r.Rec());
      t := TradeOf(o.Rec(), r.Rec(), q);
    }

    lemma NotInBook(s: Shape, o: Order)
      requires s.Ok(null, false) && o.id !in s.index
      ensures o !in s.ov
    {
    }

    /** The book catches up with a fill that the order object already shows. */
    method Reconcile(r: Order, ghost l: PriceLevel)
      requires book.Inv(r, true) && r in book.ov
      requires r.id in book.index && book.index[r.id] == Location(l, r)
      requires r.Rec().WithFilled(r.filled) == r.Rec()
      modifies book, book.lv.Keys, book.ov.Keys
      ensures book.Inv(r, false) && r.Rec() == old(r.Rec())
      ensures book.bids == old(book.bids) && book.asks == old(book.asks)
      ensures book.index == old(book.index) && book.ov == old(book.ov)
      ensures old(l in book.lv) && book.lv == old(book.lv)[l := old(book.lv)[l].(volume := l.volume)]
      ensures book.Now().Queues(Buy) == old(book.Now().Queues(Buy))
      ensures book.Now().Queues(Sell) == old(book.Now().Queues(Sell))
    {
      hide Shape.Ok, Shape.Queues, OrderRec.WithFilled;
      ghost var s := book.Now();
      ghost var i := book.UpdateOrder(r.id, r.filled, r, true);
      SameRecord(s, r, l, i);
    }

    /** Unlinks the front order `r` of the best level `l` if it is filled. */
    method DropIfFilled(r: Order, l: PriceLevel)
      requires book.Inv(r, false) && r in book.ov && (r.Rec().IsFilled() || r.Rec().IsResting())
      requires LinkedAt(book.Now(), r, l, 0)
      requires r.id in book.index && book.index[r.id] == Location(l, r)
      modifies book, book.bids, book.asks, book.lv.Keys
      ensures book.Valid()
      ensures book.bids == old(book.bids) && book.asks == old(book.asks) && book.lv.Keys <= old(book.lv.Keys)
      ensures book.index.Keys <= old(book.index.Keys)
      ensures book.Flat(Opposite(r.side)) == old(book.Flat(Opposite(r.side)))
      ensures book.Flat(r.side) ==
              if r.Rec().IsFilled() then Without(old(book.Flat(r.side)), r.id) else old(book.Flat(r.side))
      ensures !r.Rec().IsFilled() ==> book.Now() == old(book.Now())
      ensures r.Rec().IsFilled() ==> NextInLine(old(book.Now()), book.Now(), r.side, l)
      ensures book.ov == if r.Rec().IsFilled() then old(book.ov) - {r} else old(book.ov)
    {
      hide Shape.Ok, Shape.Queues, Flatten, OrderRec.IsResting, Without, Unlinked, NextInLine;
      if r.Rec().IsFilled() {
        ghost var i;
        var removed;
        ghost var s := book.Now();
        removed, i := book.RemoveOrder(r.id, r);
        OnlyOnce(s, r, l, 0, i);
        UnlinkedFront(s, r, l);
      } else {
        SettleOk(book.Now(), r);
      }
    }

    /** Trade with the front order, then let the book catch up with the fill. */
    method TradeFront(o: Order, r: Order, l: PriceLevel) returns (t: Trade)
      requires book.Valid() && o.id !in book.index && (o.side == Buy || o.side == Sell)
      requires Facing(o, r, l) && o.Rec().Remaining() > 0.0
      modifies book, book.lv.Keys, book.ov.Keys, o
      ensures old(book.Flat(Opposite(o.side))) != [] && old(book.Flat(Opposite(o.side))[0] == r.Rec())
      ensures var q := Min(old(o.Rec()).Remaining(), old(r.Rec()).Remaining());
              && o.Rec() == old(o.Rec()).AfterFill(q)
              && r.Rec() == old(r.Rec()).AfterFill(q)
              && t == TradeOf(o.Rec(), r.Rec(), q)
      ensures book.Inv(r, false) && r in book.ov && (r.Rec().IsFilled() || r.Rec().IsResting())
      ensures book.bids == old(book.bids) && book.asks == old(book.asks) && book.index == old(book.index)
      ensures LinkedAt(book.Now(), r, l, 0) && r.side == Opposite(o.side)
      ensures r.id in book.index && book.index[r.id] == Location(l, r)
      ensures old(r in book.ov) && book.ov == old(book.ov)[r := r.Rec()]
      ensures old(l in book.lv) && book.lv == old(book.lv)[l := old(book.lv)[l].(volume := l.volume)]
      ensures book.Flat(o.side) == old(book.Flat(o.side))
      ensures book.Flat(Opposite(o.side)) == [r.Rec()] + old(book.Flat(Opposite(o.side)))[1..]
    {
      hide Shape.Ok, Shape.Queues, Flatten, Facing, LinkedAt,
           OrderRec.AfterFill, OrderRec.WithFilled, OrderRec.IsResting, OrderBook.Mirrored;
      FrontFacts(o, r, l);
      FillIsStable(r.Rec(), Min(o.Rec().Remaining(), r.Rec().Remaining()));
      t := FillBoth(o, r, l);
      Reconcile(r, l);
      assert LinkedAt(book.Now(), r, l, 0) by { StaysLinked(old(book.Now()), book.Now(), r, l); }
    }

    /** What is known of the front order before a trade. */
    lemma FrontFacts(o: Order, r: Order, l: PriceLevel)
      requires book.Valid() && o.id !in book.index && (o.side == Buy || o.side == Sell) && Facing(o, r, l)
      ensures o !in book.ov && r in book.ov && l in book.lv && r.side == Opposite(o.side)
      ensures LinkedAt(book.Now(), r, l, 0) && r.Rec().IsResting() && r.Rec().Remaining() > 0.0
    {
      hide Shape.Ok, Shape.Queues, Flatten, OrderBook.Mirrored;
      FrontLinked(book.Now(), Opposite(o.side), l);
      NotInBook(book.Now(), o);
      book.ShownBy(r);
      Positive(r.Rec());
    }

    /** One round of the inner loop: trade with the front order, then let the book catch up and
        unlink the order if it is filled. */
    method MatchFront(o: Order, r: Order, l: PriceLevel) returns (t: Trade)
      requires book.Valid() && o.id !in book.index && (o.side == Buy || o.side == Sell)
      requires Facing(o, r, l) && o.Rec().Remaining() > 0.0
      modifies book, book.bids, book.asks, book.lv.Keys, book.ov.Keys, o
      ensures old(book.Flat(Opposite(o.side))) != [] && old(book.Flat(Opposite(o.side))[0] == r.Rec())
      ensures var q := Min(old(o.Rec()).Remaining(), old(r.Rec()).Remaining());
              && o.Rec() == old(o.Rec()).AfterFill(q)
              && r.Rec() == old(r.Rec()).AfterFill(q)
              && t == TradeOf(o.Rec(), r.Rec(), q)
      ensures book.Valid() && o.id !in book.index
      ensures book.bids == old(book.bids) && book.asks == old(book.asks) && book.lv.Keys <= old(book.lv.Keys)
      ensures book.Flat(o.side) == old(book.Flat(o.side))
      ensures book.Flat(Opposite(o.side)) ==
              (if r.Rec().IsFilled() then [] else [r.Rec()]) + old(book.Flat(Opposite(o.side)))[1..]
      ensures old(r in book.ov)
      ensures book.ov == if r.Rec().IsFilled() then old(book.ov) - {r} else old(book.ov)[r := r.Rec()]
      ensures r.Rec().IsFilled() ==> NextInLine(old(book.Now()), book.Now(), Opposite(o.side), l)
    {
      hide Shape.Ok, Shape.Queues, Flatten, Facing, LinkedAt, OrderRec.AfterFill, OrderRec.IsResting,
           OrderBook.Mirrored, Without;
      ghost var flat := book.Flat(Opposite(o.side));
      NotInBook(book.Now(), o);
      t := TradeFront(o, r, l);
      DropIfFilled(r, l);
      DropsHead(r.Rec(), flat[1..]);
    }

    /** The orders of `gone` were in the book, left it, and show the values `cs`. */
    ghost predicate Gone(gone: seq<Order>, cs: seq<OrderRec>, o: Order, was: set<Order>)
      reads book, gone
    {
      && |gone| == |cs| && book.ov.Keys <= was
      && forall i :: 0 <= i < |gone| ==> gone[i].Rec() == cs[i] && gone[i] in was && gone[i] !in book.ov && gone[i] != o
    }

    /** One round of the inner loop: the successor of the element is read before the element may
        be unlinked. */
    method MatchElement(o: Order, r: Order, l: PriceLevel, trades: seq<Trade>,
                        ghost o0: OrderRec, ghost xs0: seq<OrderRec>, ghost was: set<Order>,
                        ghost gone: seq<Order>, ghost cs: seq<OrderRec>)
      returns (trades': seq<Trade>, next: Order?, ghost gone': seq<Order>, ghost cs': seq<OrderRec>)
      requires book.Valid() && o.id !in book.index && (o.side == Buy || o.side == Sell)
      requires Facing(o, r, l) && o.Rec().Remaining() > 0.0 && Crosses(o.Rec(), l.price)
      requires SoFar(o0, xs0, o.Rec(), book.Flat(Opposite(o.side)), trades, cs)
      requires Gone(gone, cs, o, was)
      modifies book, book.bids, book.asks, book.lv.Keys, book.ov.Keys, o
      ensures book.Valid() && o.id !in book.index
      ensures book.bids == old(book.bids) && book.asks == old(book.asks) && book.lv.Keys <= old(book.lv.Keys)
      ensures book.Flat(o.side) == old(book.Flat(o.side))
      ensures SoFar(o0, xs0, o.Rec(), book.Flat(Opposite(o.side)), trades', cs')
      ensures Crosses(o.Rec(), l.price)
      ensures Gone(gone', cs', o, was)
      ensures o.Rec().Remaining() <= 0.0 ||
              (if next == null then l.price !in book.Now().Tree(Opposite(o.side)) else Facing(o, next, l))
      ensures |book.Flat(Opposite(o.side))| < old(|book.Flat(Opposite(o.side))|) ||
              (o.Rec().Remaining() <= 0.0 && |book.Flat(Opposite(o.side))| == old(|book.Flat(Opposite(o.side))|))
    {
      hide Shape.Ok, Shape.Queues, Flatten, OrderBook.Mirrored, SoFar, Crosses, OrderRec.IsResting, OrderRec.AfterFill;
      ghost var o1, xs1, r1 := o.Rec(), book.Flat(Opposite(o.side)), r.Rec();
      FrontLinked(book.Now(), Opposite(o.side), l);
      book.LevelShown(l);
      book.ShownBy(r);
      next := l.Next(r);
      var t := MatchFront(o, r, l);
      AfterRound(o1, r1, l.price);
      OneMore(o0, xs0, o1, xs1, trades, cs, o.Rec(), r.Rec());
      trades' := trades + [t];
      cs' := cs + if r.Rec().IsFilled() then [r.Rec()] else [];
      gone' := gone + if r.Rec().IsFilled() then [r] else [];
    }

    /** Consumes the queue of the best level front to back. */
    method MatchAgainstPriceLevel(o: Order, l: PriceLevel)
      returns (trades: seq<Trade>, ghost gone: seq<Order>, ghost cs: seq<OrderRec>)
      requires book.Valid() && o.id !in book.index && (o.side == Buy || o.side == Sell)
      requires var s, side := book.Now(), Opposite(o.side);
               IsBest(s.Tree(side).Keys, side, l.price) && s.Tree(side)[l.price] == l
      requires Crosses(o.Rec(), l.price)
      modifies book, book.bids, book.asks, book.lv.Keys, book.ov.Keys, o
      ensures book.Valid() && o.id !in book.index
      ensures book.bids == old(book.bids) && book.asks == old(book.asks) && book.lv.Keys <= old(book.lv.Keys)
      ensures book.Flat(o.side) == old(book.Flat(o.side))
      ensures SoFar(old(o.Rec()), old(book.Flat(Opposite(o.side))), o.Rec(), book.Flat(Opposite(o.side)), trades, cs)
      ensures o.Rec().Remaining() <= 0.0 || l.price !in book.Now().Tree(Opposite(o.side))
      ensures Gone(gone, cs, o, old(book.ov.Keys))
      ensures o.Rec().Remaining() <= 0.0 || |book.Flat(Opposite(o.side))| < old(|book.Flat(Opposite(o.side))|)
      ensures |book.Flat(Opposite(o.side))| <= old(|book.Flat(Opposite(o.side))|)
    {
      hide Shape.Ok, Shape.Queues, Flatten, OrderBook.Mirrored, SoFar, Crosses;
      trades, gone, cs := [], [], [];
      NothingYet(o.Rec(), book.Flat(Opposite(o.side)));
      FrontLinked(book.Now(), Opposite(o.side), l);
      book.LevelShown(l);
      var element := l.Front();
      while element != null && o.Rec().Remaining() > 0.0
        invariant book.Valid() && o.id !in book.index
        invariant book.bids == old(book.bids) && book.asks == old(book.asks) && book.lv.Keys <= old(book.lv.Keys)
        invariant book.Flat(o.side) == old(book.Flat(o.side))
        invariant SoFar(old(o.Rec()), old(book.Flat(Opposite(o.side))), o.Rec(), book.Flat(Opposite(o.side)),
                        trades, cs)
        invariant Crosses(o.Rec(), l.price)
        invariant Gone(gone, cs, o, old(book.ov.Keys))
        invariant o.Rec().Remaining() <= 0.0 ||
                  (if element == null then l.price !in book.Now().Tree(Opposite(o.side)) else Facing(o, element, l))
        invariant o.Rec().Remaining() <= 0.0 || element != null ||
                  |book.Flat(Opposite(o.side))| < old(|book.Flat(Opposite(o.side))|)
        invariant |book.Flat(Opposite(o.side))| <= old(|book.Flat(Opposite(o.side))|)
        decreases |book.Flat(Opposite(o.side))|, o.Rec().Remaining() > 0.0
      {
        trades, element, gone, cs :=
          MatchElement(o, element, l, trades, old(o.Rec()), old(book.Flat(Opposite(o.side))), old(book.ov.Keys),
                       gone, cs);
      }
    }

    /** One round of the outer loops: match against the best level. */
    method MatchLevel(o: Order, l: PriceLevel, trades: seq<Trade>,
                      ghost o0: OrderRec, ghost xs0: seq<OrderRec>, ghost was: set<Order>,
                        ghost gone: seq<Order>, ghost cs: seq<OrderRec>)
      returns (trades': seq<Trade>, ghost gone': seq<Order>, ghost cs': seq<OrderRec>)
      requires book.Valid() && o.id !in book.index && (o.side == Buy || o.side == Sell)
      requires var s, side := book.Now(), Opposite(o.side);
               IsBest(s.Tree(side).Keys, side, l.price) && s.Tree(side)[l.price] == l
      requires Crosses(o.Rec(), l.price)
      requires SoFar(o0, xs0, o.Rec(), book.Flat(Opposite(o.side)), trades, cs) && Gone(gone, cs, o, was)
      modifies book, book.bids, book.asks, book.lv.Keys, book.ov.Keys, o
      ensures book.Valid() && o.id !in book.index
      ensures book.bids == old(book.bids) && book.asks == old(book.asks) && book.lv.Keys <= old(book.lv.Keys)
      ensures book.Flat(o.side) == old(book.Flat(o.side))
      ensures SoFar(o0, xs0, o.Rec(), book.Flat(Opposite(o.side)), trades', cs')
      ensures Gone(gone', cs', o, was)
      ensures o.Rec().Remaining() <= 0.0 || |book.Flat(Opposite(o.side))| < old(|book.Flat(Opposite(o.side))|)
      ensures |book.Flat(Opposite(o.side))| <= old(|book.Flat(Opposite(o.side))|)
    {
      hide Shape.Ok, Shape.Queues, Flatten, OrderBook.Mirrored, SoFar, Crosses;
      ghost var o1, xs1 := o.Rec(), book.Flat(Opposite(o.side));
      var ts;
      ghost var g, c;
      ts, g, c := MatchAgainstPriceLevel(o, l);
      Continued(o0, xs0, o1, xs1, trades, cs, o.Rec(), book.Flat(Opposite(o.side)), ts, c);
      trades', gone', cs' := trades + ts, gone + g, cs + c;
    }

    /** The first listed order opposite to `o` is the front of the best level. */
    lemma FlatFront(side: OrderSide, l: PriceLevel)
      requires book.Valid() && (side == Buy || side == Sell)
      requires IsBest(book.Now().Tree(side).Keys, side, l.price) && book.Now().Tree(side)[l.price] == l
      ensures book.Flat(side) != [] && book.Flat(side)[0].price == l.price
    {
      FrontLinked(book.Now(), side, l);
      FillFrontFlat(book.Now().Queues(side), side, l.price, NO_ORDER);
    }

    method MatchMarketOrder(o: Order) returns (trades: seq<Trade>, ghost gone: seq<Order>)
      requires book.Valid() && o.id !in book.index && (o.side == Buy || o.side == Sell) && o.kind == Market
      modifies book, book.bids, book.asks, book.lv.Keys, book.ov.Keys, o
      ensures book.Valid() && o.id !in book.index
      ensures book.bids == old(book.bids) && book.asks == old(book.asks) && book.lv.Keys <= old(book.lv.Keys)
      ensures var g := Greedy(old(o.Rec()), old(book.Flat(Opposite(o.side))));
              && trades == g.trades && o.Rec() == GiveUp(g.aggressor)
              && book.Flat(Opposite(o.side)) == g.rest && Gone(gone, g.consumed, o, old(book.ov.Keys))
      ensures book.Flat(o.side) == old(book.Flat(o.side))
    {
      hide Shape.Ok, Shape.Queues, Flatten, OrderBook.Mirrored, SoFar, Greedy;
      ghost var o0, xs0 := o.Rec(), book.Flat(Opposite(o.side));
      ghost var cs: seq<OrderRec> := [];
      trades, gone := [], [];
      NothingYet(o0, xs0);
      while o.Rec().Remaining() > 0.0
        invariant book.Valid() && o.id !in book.index
        invariant book.bids == old(book.bids) && book.asks == old(book.asks) && book.lv.Keys <= old(book.lv.Keys)
        invariant book.Flat(o.side) == old(book.Flat(o.side))
        invariant SoFar(o0, xs0, o.Rec(), book.Flat(Opposite(o.side)), trades, cs)
        invariant Gone(gone, cs, o, old(book.ov.Keys))
        decreases |book.Flat(Opposite(o.side))|, o.Rec().Remaining() > 0.0
      {
        var best := book.GetBest(Opposite(o.side));
        if best == null {
          NoQueues(book.Now(), Opposite(o.side));
          NotInBook(book.Now(), o);
          NothingMore(o0, xs0, o.Rec(), book.Flat(Opposite(o.side)), trades, cs);
          if o.filled > 0.0 {
            o.SetStatus(PartiallyFilled);
          } else {
            o.SetStatus(Rejected);
          }
          return;
        }
        trades, gone, cs := MatchLevel(o, best, trades, o0, xs0, old(book.ov.Keys), gone, cs);
        if o.Rec().IsFilled() { break; }
      }
      NothingMore(o0, xs0, o.Rec(), book.Flat(Opposite(o.side)), trades, cs);
    }

    method MatchLimitOrder(o: Order) returns (trades: seq<Trade>, ghost gone: seq<Order>)
      requires book.Valid() && o.id !in book.index && (o.side == Buy || o.side == Sell) && o.kind != Market
      modifies book, book.bids, book.asks, book.lv.Keys, book.ov.Keys, o
      ensures book.Valid() && o.id !in book.index
      ensures book.bids == old(book.bids) && book.asks == old(book.asks) && book.lv.Keys <= old(book.lv.Keys)
      ensures var g := Greedy(old(o.Rec()), old(book.Flat(Opposite(o.side))));
              && trades == g.trades && o.Rec() == g.aggressor
              && book.Flat(Opposite(o.side)) == g.rest && Gone(gone, g.consumed, o, old(book.ov.Keys))
      ensures book.Flat(o.side) == old(book.Flat(o.side))
    {
      hide Shape.Ok, Shape.Queues, Flatten, OrderBook.Mirrored, SoFar, Greedy;
      ghost var o0, xs0 := o.Rec(), book.Flat(Opposite(o.side));
      ghost var cs: seq<OrderRec> := [];
      trades, gone := [], [];
      NothingYet(o0, xs0);
      while o.Rec().Remaining() > 0.0
        invariant book.Valid() && o.id !in book.index
        invariant book.bids == old(book.bids) && book.asks == old(book.asks) && book.lv.Keys <= old(book.lv.Keys)
        invariant book.Flat(o.side) == old(book.Flat(o.side))
        invariant SoFar(o0, xs0, o.Rec(), book.Flat(Opposite(o.side)), trades, cs)
        invariant Gone(gone, cs, o, old(book.ov.Keys))
        decreases |book.Flat(Opposite(o.side))|, o.Rec().Remaining() > 0.0
      {
        var best := book.GetBest(Opposite(o.side));
        if best == null {
          NoQueues(book.Now(), Opposite(o.side));
          break;
        }
        FlatFront(Opposite(o.side), best);
        var canMatch := if o.side == Buy then o.price >= best.price else o.price <= best.price;
        if !canMatch { break; }
        trades, gone, cs := MatchLevel(o, best, trades, o0, xs0, old(book.ov.Keys), gone, cs);
        if o.Rec().IsFilled() { break; }
      }
      NothingMore(o0, xs0, o.Rec(), book.Flat(Opposite(o.side)), trades, cs);
    }

    /** Matches an order by its type. */
    method MatchByType(o: Order) returns (trades: seq<Trade>, ghost gone: seq<Order>)
      requires book.Valid() && o.id !in book.index && (o.side == Buy || o.side == Sell)
      modifies book, book.bids, book.asks, book.lv.Keys, book.ov.Keys, o
      ensures book.Valid() && o.id !in book.index
      ensures book.bids == old(book.bids) && book.asks == old(book.asks) && book.lv.Keys <= old(book.lv.Keys)
      ensures var g := Greedy(old(o.Rec()), old(book.Flat(Opposite(o.side))));
              && trades == g.trades && o.Rec() == Settled(g.aggressor)
              && book.Flat(Opposite(o.side)) == g.rest && Gone(gone, g.consumed, o, old(book.ov.Keys))
      ensures book.Flat(o.side) == old(book.Flat(o.side))
    {
      hide Shape.Ok, Shape.Queues, Flatten, OrderBook.Mirrored, Greedy, GiveUp;
      GreedyIdentity(o.Rec(), book.Flat(Opposite(o.side)));
      if o.kind == Market {
        trades, gone := MatchMarketOrder(o);
      } else {
        trades, gone := MatchLimitOrder(o);
      }
    }

    /** Puts what is left of a limit order into the book. */
    method RestRemainder(o: Order)
      requires book.Valid() && o.id !in book.index && (o.side == Buy || o.side == Sell)
      requires Rests(o.Rec()) ==> o.Rec().IsResting()
      modifies book, book.bids, book.asks, book.lv.Keys
      ensures book.Valid() && book.bids == old(book.bids) && book.asks == old(book.asks)
      ensures forall l :: l in book.lv ==> l in old(book.lv) || fresh(l)
      ensures book.ov == if Rests(o.Rec()) then old(book.ov)[o := o.Rec()] else old(book.ov)
      ensures book.index.Keys <= old(book.index.Keys) + {o.id}
      ensures book.Flat(o.side) ==
              if Rests(o.Rec()) then Insert(old(book.Flat(o.side)), o.Rec()) else old(book.Flat(o.side))
      ensures book.Flat(Opposite(o.side)) == old(book.Flat(Opposite(o.side)))
    {
      hide Shape.SideOk, Shape.IndexOk, Shape.Queues, Flatten, OrderBook.Mirrored, AddTo, Insert, OrderRec.IsResting;
      ghost var s := book.Now();
      if o.kind == Limit && o.Rec().CanBeFilled() && !o.Rec().IsFilled() {
        QueuesAreOk(s, o.side);
        FlattenAdd(s.Queues(o.side), o.side, o.Rec());
        book.AddOrder(o);
      }
    }

    /** A NEW command: an invalid order is rejected; otherwise it is matched and, if it is a limit
        order with something left, added to the book. */
    method MatchOrder(o: Order) returns (trades: seq<Trade>)
      requires Valid() && o.id !in book.index && o !in retired && 0.0 <= o.filled
      modifies this, book, book.bids, book.asks, book.lv.Keys, book.ov.Keys, o
      ensures Valid()
      ensures book.bids == old(book.bids) && book.asks == old(book.asks)
      ensures forall l :: l in book.lv ==> l in old(book.lv) || fresh(l)
      ensures book.ov.Keys <= old(book.ov.Keys) + {o}
      ensures forall x :: x in retired ==> x in old(retired) || x in old(book.ov) || x == o
      ensures state == Step(old(state), New(old(o.Rec())))
      ensures state.log == old(state).log + trades
      ensures o.Rec() == if old(o.Rec()).IsValid() then Settled(Matched(old(state), old(o.Rec())).aggressor)
                         else old(o.Rec()).(status := Rejected)
    {
      hide Shape.Ok, Shape.Queues, Flatten, OrderBook.Mirrored, Greedy, Insert, Settled;
      NotInBook(book.Now(), o);
      if !o.Rec().IsValid() {
        o.SetStatus(Rejected);
        assert state.log + [] == state.log;
        return [];
      }
      trades := AcceptOrder(o);
    }

    /** Matching and resting, as far as the book is concerned. */
    method MatchAndRest(o: Order) returns (trades: seq<Trade>, ghost gone: seq<Order>)
      requires book.Valid() && o.id !in book.index && 0.0 <= o.filled && o.Rec().IsValid()
      modifies book, book.bids, book.asks, book.lv.Keys, book.ov.Keys, o
      ensures book.Valid() && book.bids == old(book.bids) && book.asks == old(book.asks)
      ensures forall l :: l in book.lv ==> l in old(book.lv) || fresh(l)
      ensures book.ov.Keys <= old(book.ov.Keys) + (if Rests(o.Rec()) then {o} else {})
      ensures book.index.Keys <= old(book.index.Keys) + {o.id}
      ensures var g := Greedy(old(o.Rec()), old(book.Flat(Opposite(o.side))));
              && trades == g.trades && o.Rec() == Settled(g.aggressor)
              && book.Flat(Opposite(o.side)) == g.rest
              && book.Flat(o.side) ==
                 (if Rests(o.Rec()) then Insert(old(book.Flat(o.side)), o.Rec()) else old(book.Flat(o.side)))
              && |gone| == |g.consumed|
              && forall i :: 0 <= i < |gone| ==>
                   gone[i].Rec() == g.consumed[i] && gone[i] !in book.ov && gone[i] in old(book.ov)
    {
      hide Shape.Ok, Shape.Queues, Flatten, OrderBook.Mirrored, Greedy, Insert, Settled, Rests, OrderRec.IsResting;
      ghost var o0, b0, xs0 := o.Rec(), book.Now(), book.Flat(Opposite(o.side));
      OrdersIndexed(b0);
      trades, gone := MatchByType(o);
      OrdersIndexed(book.Now());
      LeftoverRests(b0, xs0, o0);
      RestRemainder(o);
    }

    method AcceptOrder(o: Order) returns (trades: seq<Trade>)
      requires Valid() && o.id !in book.index && o !in retired && 0.0 <= o.filled && o.Rec().IsValid()
      modifies this, book, book.bids, book.asks, book.lv.Keys, book.ov.Keys, o
      ensures Valid()
      ensures book.bids == old(book.bids) && book.asks == old(book.asks)
      ensures forall l :: l in book.lv ==> l in old(book.lv) || fresh(l)
      ensures book.ov.Keys <= old(book.ov.Keys) + {o}
      ensures forall x :: x in retired ==> x in old(retired) || x in old(book.ov) || x == o
      ensures state == Accept(old(state), old(o.Rec()))
      ensures state.log == old(state).log + trades
      ensures o.Rec() == Settled(Matched(old(state), old(o.Rec())).aggressor)
    {
      hide Shape.Ok, Shape.Queues, Flatten, OrderBook.Mirrored, Greedy, Insert, Settled, Accept, Rests;
      ghost var s0, o0, b0 := state, o.Rec(), book.Now();
      OrdersIndexed(b0);
      ghost var gone;
      trades, gone := MatchAndRest(o);
      ghost var g, arrival := Matched(s0, o0), s0.arrival[o.id := s0.clock];
      AcceptParts(s0, o0);
      assert Retired(retired, s0.done, arrival);
      assert Retired(gone, g.consumed, arrival);
      ghost var last: seq<Order> := if Rests(o.Rec()) then [] else [o];
      assert Retired(last, if Rests(o.Rec()) then [] else [o.Rec()], arrival);
      Finish(s0, o0, g, gone, last, o);
    }

    ghost method Finish(s0: State, o0: OrderRec, g: Match, gone: seq<Order>, last: seq<Order>, o: Order)
      requires book.Valid() && s0 == state && g == Matched(s0, o0) && (o0.side == Buy || o0.side == Sell)
      requires var s' := Accept(s0, o0);
               && book.Flat(Buy) == s'.bids && book.Flat(Sell) == s'.asks
               && book.index.Keys <= s'.arrival.Keys
               && Retired(retired, s0.done, s'.arrival) && Retired(gone, g.consumed, s'.arrival)
               && Retired(last, if Rests(Settled(g.aggressor)) then [] else [Settled(g.aggressor)], s'.arrival)
      modifies this
      ensures Valid() && state == Accept(s0, o0) && retired == old(retired) + gone + last
    {
      hide Shape.Ok, Shape.Queues, Flatten, OrderBook.Mirrored, Greedy, Insert, Settled, Accept, Rests, Retired;
      AcceptParts(s0, o0);
      var tail := if Rests(Settled(g.aggressor)) then [] else [Settled(g.aggressor)];
      RetiredMore(retired, s0.done, gone, g.consumed, Accept(s0, o0).arrival);
      RetiredMore(retired + gone, s0.done + g.consumed, last, tail, Accept(s0, o0).arrival);
      state := Accept(s0, o0);
      retired := retired + gone + last;
    }

    /** A CANCEL command. */
    method CancelCommand(id: Id) returns (o: Order?)
      requires Valid()
      modifies this, book, book.bids, book.asks, book.lv.Keys, book.ov.Keys
      ensures Valid() && state == Step(old(state), Cancel(id))
      ensures book.bids == old(book.bids) && book.asks == old(book.asks)
      ensures book.lv.Keys <= old(book.lv.Keys) && book.ov.Keys <= old(book.ov.Keys)
      ensures forall x :: x in retired ==> x in old(retired) || x in old(book.ov)
      ensures o == null <==> id !in old(book.index)
      ensures o != null ==>
                o.id == id && o == old(book.index)[id].element && o.Rec() == old(o.Rec()).(status := Cancelled)
      ensures state.log == old(state).log && state.arrival == old(state).arrival
    {
      hide Shape.Ok, Shape.Queues, Flatten, OrderBook.Mirrored, Without, Lookup, HasId;
      ghost var b := book.Now();
      CancelFinds(b, id);
      OrdersIndexed(b);
      if id in book.index { book.ShownBy(book.index[id].element); }
      o := book.CancelOrder(id);
      if o != null {
        assert Retired(retired, state.done, state.arrival);
        FinishCancel(o);
      }
    }

    ghost method FinishCancel(o: Order)
      requires book.Valid() && (o.side == Buy || o.side == Sell) && o !in book.ov && o.id in state.arrival
      requires HasId(state.Of(o.side), o.id) && Lookup(state.Of(o.side), o.id).(status := Cancelled) == o.Rec()
      requires book.Flat(o.side) == Without(state.Of(o.side), o.id)
      requires book.Flat(Opposite(o.side)) == state.Of(Opposite(o.side))
      requires book.index.Keys <= state.arrival.Keys && Retired(retired, state.done, state.arrival)
      modifies this
      ensures Valid() && state == CancelOn(old(state), o.side, o.id) && retired == old(retired) + [o]
    {
      hide Shape.Ok, Shape.Queues, Flatten, OrderBook.Mirrored, Without, Lookup, HasId;
      assert Retired([o], [o.Rec()], state.arrival);
      hide Retired;
      RetiredMore(retired, state.done, [o], [o.Rec()], state.arrival);
      state := CancelOn(state, o.side, o.id);
      retired := retired + [o];
    }

    /** The worker handles one command. */
    method ProcessCommand(c: Posted) returns (response: Response)
      requires Valid()
      requires c.PostNew? ==> c.order.id !in book.index && c.order !in retired && 0.0 <= c.order.filled
      modifies this, book, book.bids, book.asks, book.lv.Keys, book.ov.Keys, Carried(c)
      ensures Valid() && state == Step(old(state), old(Said(c)))
      ensures Answers(response, c) && state.log == old(state).log + TradesOf(response)
      ensures response.OrderNotFound? <==> c.PostCancel? && c.id !in old(book.index)
      ensures response.Processed? && c.PostCancel? ==>
                response.order == old(book.index)[c.id].element && response.order.status == Cancelled
      ensures book.bids == old(book.bids) && book.asks == old(book.asks)
      ensures forall l :: l in book.lv ==> l in old(book.lv) || fresh(l)
      ensures book.ov.Keys <= old(book.ov.Keys) + Carried(c)
      ensures forall x :: x in retired ==> x in old(retired) || x in old(book.ov) || x in Carried(c)
    {
      hide Shape.Ok, Shape.Queues, Flatten, OrderBook.Mirrored, Step, Retired, OrderBook.Valid, Settled, Matched;
      match c
      case PostNew(o) =>
        var trades := MatchOrder(o);
        response := Processed(trades, o);
      case PostCancel(id) =>
        var o := CancelCommand(id);
        if o == null {
          response := OrderNotFound(id);
        } else {
          response := Processed([], o);
        }
        assert state.log == old(state).log + [];
      case PostUnknown(text) =>
        StepUnknown(state, text);
        response := UnknownCommand(text);
        assert state.log == old(state).log + [];
    }

    /** The worker handles the commands of its channel one after the other: each gets a response of
        its own, and the log gains exactly the trades of the responses. */
    method ProcessAll(cs: seq<Posted>) returns (responses: seq<Response>)
      requires Valid() && Separate(cs) && FreeIds(state, SaidAll(cs))
      requires forall i :: 0 <= i < |cs| && cs[i].PostNew? ==> Elsewhere(cs[i].order)
      modifies this, book, book.bids, book.asks, book.lv.Keys, book.ov.Keys, AllCarried(cs)
      ensures Valid() && state == Run(old(state), old(SaidAll(cs)))
      ensures |responses| == |cs| && forall i :: 0 <= i < |cs| ==> Answers(responses[i], cs[i])
      ensures state.log == old(state).log + AllTrades(responses)
    {
      hide Valid, Ready, AllTrades, TradesOf, Answers, Free, FreeIds, Run, Step;
      ghost var said := SaidAll(cs);
      NoTrades(state.log);
      responses := [];
      assert said[0..] == said;
      ReadyAtFirst(cs);
      for i := 0 to |cs|
        invariant Valid() && |responses| == i && forall k :: 0 <= k < i ==> Answers(responses[k], cs[k])
        invariant state.log == old(state).log + AllTrades(responses)
        invariant book.bids == old(book.bids) && book.asks == old(book.asks)
        invariant forall l :: l in book.lv ==> l in old(book.lv) || fresh(l)
        invariant book.ov.Keys <= old(book.ov.Keys) + AllCarried(cs)
        invariant Run(old(state), said) == Run(state, said[i..]) && FreeIds(state, said[i..])
        invariant Ready(cs, i, said)
      {
        CarriedAt(cs, i);
        assert said[i..][1..] == said[i + 1..];
        NextCommand(state, said[i..]);
        var r := ProcessNext(cs, i, said);
        TradesAppend(old(state).log, responses, r);
        responses := responses + [r];
      }
      assert said[|cs|..] == [];
      NoCommand(state);
    }

    /** The commands from `i` on say what they said at first, and bring orders from elsewhere. */
    ghost predicate Ready(cs: seq<Posted>, i: nat, said: seq<Command>)
      reads this, book, AllCarried(cs)
    {
      && |said| == |cs|
      && forall k :: i <= k < |cs| ==> said[k] == Said(cs[k]) && (cs[k].PostNew? ==> Elsewhere(cs[k].order))
    }

    lemma ReadyAtFirst(cs: seq<Posted>)
      requires forall i :: 0 <= i < |cs| && cs[i].PostNew? ==> Elsewhere(cs[i].order)
      ensures Ready(cs, 0, SaidAll(cs))
    {
    }

    /** One command of many: the orders that are still to come stay as they are. */
    method ProcessNext(cs: seq<Posted>, i: nat, ghost said: seq<Command>) returns (r: Response)
      requires i < |cs| && Valid() && Separate(cs) && Ready(cs, i, said)
      requires said[i].New? ==> Free(state, said[i].order.id)
      modifies this, book, book.bids, book.asks, book.lv.Keys, book.ov.Keys, Carried(cs[i])
      ensures Valid() && Ready(cs, i + 1, said)
      ensures state == Step(old(state), said[i])
      ensures Answers(r, cs[i]) && state.log == old(state).log + TradesOf(r)
      ensures book.bids == old(book.bids) && book.asks == old(book.asks)
      ensures forall l :: l in book.lv ==> l in old(book.lv) || fresh(l)
      ensures book.ov.Keys <= old(book.ov.Keys) + Carried(cs[i])
    {
      hide Valid, TradesOf, Answers, Free, Step;
      if cs[i].PostNew? { FreeNotIndexed(cs[i].order.id); }
      r := ProcessCommand(cs[i]);
    }

    /** The order is not in the book, was not in it before, and is not filled below zero. */
    ghost predicate Elsewhere(o: Order)
      reads this, book, o
    {
      o !in book.ov && o !in retired && 0.0 <= o.filled
    }

    /** The index knows no id that is not resting. */
    lemma FreeNotIndexed(id: Id)
      requires Valid() && Free(state, id)
      ensures id !in book.index
    {
      hide Shape.Ok, Shape.Queues, Flatten, OrderBook.Mirrored, Retired;
      if id in book.index {
        IndexedIsListed(book.Now(), id);
      }
    }
  }

  /** A fill does not change what an order crosses, and leaves nothing of one of the two. */
  lemma AfterRound(o: OrderRec, r: OrderRec, p: Decimal)
    ensures var q := Min(o.Remaining(), r.Remaining());
            && (Crosses(o.AfterFill(q), p) <==> Crosses(o, p))
            && (!r.AfterFill(q).IsFilled() ==> o.AfterFill(q).Remaining() == 0.0)
  {
  }

  /** After the front order of `l` left: the next one is in front, or the level is gone. */
  ghost predicate NextInLine(s: Shape, s': Shape, side: OrderSide, l: PriceLevel) {
    l in s.lv &&
    if |s.lv[l].orders| > 1
    then s'.Tree(side) == s.Tree(side) && l in s'.lv && s'.lv[l].orders == s.lv[l].orders[1..]
    else l.price !in s'.Tree(side)
  }

  lemma UnlinkedFront(s: Shape, o: Order, l: PriceLevel)
    requires LinkedAt(s, o, l, 0) && l.price == o.price
    ensures NextInLine(s, Unlinked(s, o, l, 0), o.side, l)
  {
    assert DropAt(s.lv[l].orders, 0) == s.lv[l].orders[1..];
  }

  lemma DropsHead(r: OrderRec, xs: seq<OrderRec>)
    ensures Without([r] + xs, r.id) == xs && [] + xs == xs
  {
    assert ([r] + xs)[1..] == xs;
  }

  /** An order is in its queue once. */
  lemma OnlyOnce(s: Shape, o: Order, l: PriceLevel, i: nat, j: nat)
    requires s.Ok(o, false) && LinkedAt(s, o, l, i) && LinkedAt(s, o, l, j)
    ensures i == j && l.price == o.price
  {
    LevelOf(s, o.side, o.price, o, false);
  }

  /** Writing the value that is already there changes nothing. */
  lemma SameRecord(s: Shape, o: Order, l: PriceLevel, i: nat)
    requires LinkedAt(s, o, l, i)
    ensures s.Queues(o.side)[o.price := s.Queue(l)[i := s.ov[o]]] == s.Queues(o.side)
  {
    assert s.Queue(l)[i := s.ov[o]] == s.Queue(l);
    QueueUnchanged(s, o.side, o.price);
  }

  lemma FillIsStable(r: OrderRec, q: Decimal)
    requires r.IsResting() && 0.0 < q <= r.Remaining()
    ensures var r' := r.AfterFill(q);
            && r'.WithFilled(r'.filled) == r'
            && (r'.IsFilled() || r'.IsResting())
  {
  }

  lemma Positive(r: OrderRec)
    requires r.IsResting()
    ensures r.Remaining() > 0.0
  {
  }

  /** What is left of an order that goes to the book is fit for it. */
  lemma LeftoverRests(b: Shape, xs: seq<OrderRec>, o: OrderRec)
    requires b.Ok(null, false) && o.IsValid() && 0.0 <= o.filled
    requires xs == Flatten(b.Queues(Opposite(o.side)), Opposite(o.side))
    ensures var o' := Settled(Greedy(o, xs).aggressor); Rests(o') ==> o'.IsResting()
  {
    hide Shape.Ok, Shape.Queues, Flatten, Greedy;
    var side := Opposite(o.side);
    forall k | 0 <= k < |xs| ensures xs[k].side == side && xs[k].IsResting() {
      ListedIsIndexed(b, side, k);
    }
    GreedyAggressor(o, xs, side);
    GreedyIdentity(o, xs);
  }

  /** The ids in the index are those of the orders in the book. */
  lemma OrdersIndexed(b: Shape)
    requires b.Ok(null, false)
    ensures forall o :: o in b.ov ==> o.id in b.index
    ensures forall id :: id in b.index ==> b.index[id].element in b.ov && b.index[id].element.id == id
  {
    forall id | id in b.index ensures b.index[id].element in b.ov && b.index[id].element.id == id {
      assert b.EntryOk(id);
    }
  }

  /** The index and the lists agree on which side an id is, and on its value. */
  lemma CancelFinds(b: Shape, id: Id)
    requires b.Ok(null, false)
    ensures id !in b.index ==> !HasId(Flatten(b.Queues(Buy), Buy), id) && !HasId(Flatten(b.Queues(Sell), Sell), id)
    ensures id in b.index ==>
              var o := b.index[id].element;
              && (o.side == Buy || o.side == Sell) && o in b.ov
              && HasId(Flatten(b.Queues(o.side), o.side), id)
              && !HasId(Flatten(b.Queues(Opposite(o.side)), Opposite(o.side)), id)
              && Lookup(Flatten(b.Queues(o.side), o.side), id) == b.ov[o]
  {
    hide Shape.Ok, Shape.Queues, Flatten;
    HasIdInIndex(b, Buy, id);
    HasIdInIndex(b, Sell, id);
    if id in b.index {
      IndexedIsListed(b, id);
    }
  }

  lemma HasIdInIndex(b: Shape, side: OrderSide, id: Id)
    requires b.Ok(null, false) && (side == Buy || side == Sell)
    ensures var xs := Flatten(b.Queues(side), side);
            HasId(xs, id) ==> id in b.index && b.index[id].element.side == side
                              && b.index[id].element in b.ov && Lookup(xs, id) == b.ov[b.index[id].element]
  {
    hide Shape.Ok, Shape.Queues, Flatten;
    var xs := Flatten(b.Queues(side), side);
    if HasId(xs, id) {
      var r := Lookup(xs, id);
      var k :| 0 <= k < |xs| && xs[k] == r;
      ListedIsIndexed(b, side, k);
    }
  }
}
