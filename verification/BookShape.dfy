/** The order book as values: what its trees, index, levels and orders contain at one moment, what
    makes such a state consistent, and how the book's operations keep it so.
 */
module BookShape {
  import opened Orders
  import opened PriceTime
  import opened PriceLevels

  /** Where an order is: its level and its list element. */
  datatype Location = Location(level: PriceLevel, element: Order)

  datatype LevelVal = LevelVal(orders: seq<Order>, volume: Decimal)

  type Tree = map<Decimal, PriceLevel>

  const NO_ORDER := OrderRec("", "", "", Buy, Limit, 0.0, 0.0, 0.0, Open, 0)

  /** The values of a list of orders, looked up in `ov`. */
  ghost function RecsOf(os: seq<Order>, ov: map<Order, OrderRec>): (rs: seq<OrderRec>)
    ensures |rs| == |os|
    ensures forall i :: 0 <= i < |os| && os[i] in ov ==> rs[i] == ov[os[i]]
  {
    seq(|os|, i requires 0 <= i < |os| => if os[i] in ov then ov[os[i]] else NO_ORDER)
  }

  ghost predicate NoDup(os: seq<Order>) {
    forall i, j :: 0 <= i < j < |os| ==> os[i] != os[j]
  }

  datatype Shape = Shape(
    bids: Tree, asks: Tree, index: map<Id, Location>,
    lv: map<PriceLevel, LevelVal>, ov: map<Order, OrderRec>)
  {
    function Tree(side: OrderSide): Tree { if side == Buy then bids else asks }

    /** The index entry of `o` is its element in level `l`, and its value fits that place.  Order
        `ex`, if any, may be in the middle of a fill. */
    ghost predicate ElementOk(side: OrderSide, l: PriceLevel, o: Order, ex: Order?) {
      && o.side == side && o.price == l.price
      && o in ov && ov[o].id == o.id && ov[o].side == side && ov[o].price == l.price
      && o.id in index && index[o.id] == Location(l, o)
      && (ov[o].IsResting() || o == ex)
    }

    ghost predicate QueueOk(side: OrderSide, l: PriceLevel, ex: Order?) {
      && l in lv && lv[l].orders != []
      && (forall i :: 0 <= i < |lv[l].orders| ==> ElementOk(side, l, lv[l].orders[i], ex))
      && NoDup(lv[l].orders)
    }

    ghost function Queue(l: PriceLevel): seq<OrderRec> {
      if l in lv then RecsOf(lv[l].orders, ov) else []
    }

    /** The orders of one side by price. */
    ghost function Queues(side: OrderSide): Queues {
      map p | p in Tree(side) :: Queue(Tree(side)[p])
    }

    /** The cached volume is right, except perhaps in the level of a fill in progress. */
    ghost predicate VolumeOk(l: PriceLevel, ex: Order?, stale: bool) {
      l in lv && (lv[l].volume == SumRemaining(Queue(l)) || (stale && ex in lv[l].orders))
    }

    ghost predicate LevelOk(side: OrderSide, p: Decimal, ex: Order?, stale: bool)
      requires p in Tree(side)
    {
      var l := Tree(side)[p];
      l.price == p && QueueOk(side, l, ex) && VolumeOk(l, ex, stale)
    }

    ghost predicate SideOk(side: OrderSide, ex: Order?, stale: bool) {
      forall p :: p in Tree(side) ==> LevelOk(side, p, ex, stale)
    }

    /** The index entry of `id` is an order with that id, linked into the level of its price. */
    ghost predicate EntryOk(id: Id)
      requires id in index
    {
      var o, l := index[id].element, index[id].level;
      && o.id == id && (o.side == Buy || o.side == Sell) && o in ov
      && o.price in Tree(o.side) && Tree(o.side)[o.price] == l
      && l in lv && o in lv[l].orders
    }

    ghost predicate IndexOk() {
      && (forall id :: id in index ==> EntryOk(id))
      && (forall o :: o in ov ==> o.id in index && index[o.id].element == o)
    }

    ghost predicate Ok(ex: Order?, stale: bool) {
      SideOk(Buy, ex, stale) && SideOk(Sell, ex, stale) && IndexOk()
    }
  }

  lemma QueueKeys(s: Shape, side: OrderSide)
    ensures s.Queues(side).Keys == s.Tree(side).Keys
  {
  }

  // Operations touch one level and one order.  Everything else keeps its invariant.

  /** `s'` differs from `s` at most in level `l`, order `o` and the index entry of `o`. */
  ghost predicate OnlyTouches(s: Shape, s': Shape, l: PriceLevel, o: Order) {
    && (forall k :: k in s.lv && k != l ==> k in s'.lv && s'.lv[k] == s.lv[k])
    && (forall x :: x in s.ov && x != o ==> x in s'.ov && s'.ov[x] == s.ov[x])
    && (forall id :: id in s.index && id != o.id ==> id in s'.index && s'.index[id] == s.index[id])
  }

  ghost predicate Located(s: Shape, l: PriceLevel, o: Order) {
    o.id !in s.index || s.index[o.id] == Location(l, o)
  }

  lemma QueueFrame(s: Shape, s': Shape, side: OrderSide, k: PriceLevel, l: PriceLevel, o: Order,
                   ex: Order?, ex': Order?)
    requires s.QueueOk(side, k, ex) && k != l && (ex == null || ex == o)
    requires Located(s, l, o) && OnlyTouches(s, s', l, o)
    ensures s'.QueueOk(side, k, ex') && s'.Queue(k) == s.Queue(k) && o !in s.lv[k].orders
  {
    var os := s.lv[k].orders;
    forall i | 0 <= i < |os| ensures s'.ElementOk(side, k, os[i], ex') && os[i] != o && s'.ov[os[i]] == s.ov[os[i]] {
      assert s.ElementOk(side, k, os[i], ex);
    }
    assert RecsOf(os, s.ov) == RecsOf(os, s'.ov);
  }

  lemma LevelFrame(s: Shape, s': Shape, side: OrderSide, p: Decimal, l: PriceLevel, o: Order,
                   ex: Order?, stale: bool, ex': Order?, stale': bool)
    requires p in s.Tree(side) && p in s'.Tree(side) && s'.Tree(side)[p] == s.Tree(side)[p] != l
    requires s.LevelOk(side, p, ex, stale) && (ex == null || ex == o)
    requires Located(s, l, o) && OnlyTouches(s, s', l, o)
    ensures s'.LevelOk(side, p, ex', stale')
    ensures s'.Queues(side)[p] == s.Queues(side)[p]
  {
    QueueFrame(s, s', side, s.Tree(side)[p], l, o, ex, ex');
  }

  lemma OtherSideFrame(s: Shape, s': Shape, side: OrderSide, l: PriceLevel, o: Order,
                       ex: Order?, stale: bool, ex': Order?, stale': bool)
    requires s.SideOk(side, ex, stale) && s'.Tree(side) == s.Tree(side)
    requires forall p :: p in s.Tree(side) ==> s.Tree(side)[p] != l
    requires (ex == null || ex == o) && Located(s, l, o) && OnlyTouches(s, s', l, o)
    ensures s'.SideOk(side, ex', stale')
    ensures s'.Queues(side) == s.Queues(side)
  {
    forall p | p in s.Tree(side)
      ensures s'.LevelOk(side, p, ex', stale') && s'.Queues(side)[p] == s.Queues(side)[p]
    {
      LevelFrame(s, s', side, p, l, o, ex, stale, ex', stale');
    }
    assert forall p :: p in s.Queues(side) ==> s'.Queues(side)[p] == s.Queues(side)[p];
  }

  lemma OwnLevelsFrame(s: Shape, s': Shape, side: OrderSide, p: Decimal, l: PriceLevel, o: Order,
                       ex: Order?, stale: bool, ex': Order?, stale': bool)
    requires s.SideOk(side, ex, stale) && s'.Tree(side) - {p} == s.Tree(side) - {p}
    requires l.price == p
    requires (ex == null || ex == o) && Located(s, l, o) && OnlyTouches(s, s', l, o)
    ensures forall q :: q in s'.Tree(side) && q != p ==>
              q in s.Tree(side) && s'.LevelOk(side, q, ex', stale') && s'.Queues(side)[q] == s.Queues(side)[q]
  {
    hide Shape.LevelOk, OnlyTouches, Shape.Queue;
    forall q | q in s'.Tree(side) && q != p
      ensures q in s.Tree(side) && s'.LevelOk(side, q, ex', stale') && s'.Queues(side)[q] == s.Queues(side)[q]
    {
      SameElsewhere(s.Tree(side), s'.Tree(side), p, q);
      LevelOf(s, side, q, ex, stale);
      LevelFrame(s, s', side, q, l, o, ex, stale, ex', stale');
    }
  }

  lemma SameElsewhere(t: Tree, t': Tree, p: Decimal, q: Decimal)
    requires t' - {p} == t - {p} && q != p
    ensures q in t <==> q in t'
    ensures q in t ==> t[q] == t'[q]
  {
    assert q in t <==> q in t - {p};
    assert q in t' <==> q in t' - {p};
    if q in t {
      assert (t - {p})[q] == (t' - {p})[q];
    }
  }

  ghost function WithQueue(m: Queues, p: Decimal, present: bool, q: seq<OrderRec>): Queues {
    if present then m[p := q] else m - {p}
  }

  lemma OwnQueuesFrame(s: Shape, s': Shape, side: OrderSide, p: Decimal, l: PriceLevel)
    requires s'.Tree(side) - {p} == s.Tree(side) - {p}
    requires p in s'.Tree(side) ==> s'.Tree(side)[p] == l
    requires forall q :: q in s'.Tree(side) && q != p ==> q in s.Tree(side) && s'.Queues(side)[q] == s.Queues(side)[q]
    ensures s'.Queues(side) == WithQueue(s.Queues(side), p, p in s'.Tree(side), s'.Queue(l))
  {
    var m' := WithQueue(s.Queues(side), p, p in s'.Tree(side), s'.Queue(l));
    QueueKeys(s, side);
    QueueKeys(s', side);
    forall q ensures q in m'.Keys <==> q in s'.Queues(side).Keys {
      if q != p { SameElsewhere(s.Tree(side), s'.Tree(side), p, q); }
    }
    assert m'.Keys == s'.Queues(side).Keys;
    assert forall q :: q in m' ==> s'.Queues(side)[q] == m'[q];
  }

  lemma OwnSideFrame(s: Shape, s': Shape, side: OrderSide, p: Decimal, l: PriceLevel, o: Order,
                     ex: Order?, stale: bool, ex': Order?, stale': bool)
    requires s.SideOk(side, ex, stale) && s'.Tree(side) - {p} == s.Tree(side) - {p}
    requires l.price == p
    requires (ex == null || ex == o) && Located(s, l, o) && OnlyTouches(s, s', l, o)
    requires p in s'.Tree(side) ==> s'.Tree(side)[p] == l && s'.LevelOk(side, p, ex', stale')
    ensures s'.SideOk(side, ex', stale')
    ensures s'.Queues(side) == WithQueue(s.Queues(side), p, p in s'.Tree(side), s'.Queue(l))
  {
    hide Shape.LevelOk, OnlyTouches, Shape.Queues, WithQueue;
    OwnLevelsFrame(s, s', side, p, l, o, ex, stale, ex', stale');
    OwnQueuesFrame(s, s', side, p, l);
  }

  /** Levels of different sides are different objects. */
  lemma SidesApart(s: Shape, side: OrderSide, k: PriceLevel, l: PriceLevel, ex: Order?)
    requires s.QueueOk(side, k, ex) && s.QueueOk(Opposite(side), l, ex)
    ensures k != l
  {
    assert s.ElementOk(side, k, s.lv[k].orders[0], ex);
    assert s.ElementOk(Opposite(side), l, s.lv[l].orders[0], ex);
  }

  lemma NotOnOtherSide(s: Shape, side: OrderSide, p: Decimal, l: PriceLevel, ex: Order?, stale: bool)
    requires s.SideOk(side, ex, stale) && s.SideOk(Opposite(side), ex, stale)
    requires if p in s.Tree(side) then s.Tree(side)[p] == l else l !in s.lv
    ensures forall q :: q in s.Tree(Opposite(side)) ==> s.Tree(Opposite(side))[q] != l
  {
    forall q | q in s.Tree(Opposite(side)) ensures s.Tree(Opposite(side))[q] != l {
      assert s.LevelOk(Opposite(side), q, ex, stale);
      if p in s.Tree(side) {
        assert s.LevelOk(side, p, ex, stale);
        SidesApart(s, side, l, s.Tree(Opposite(side))[q], ex);
      }
    }
  }

  /** An operation on level `l` of price `p` that leaves that level consistent, or drops it, leaves
      both sides consistent; only the queue of `p` changes. */
  lemma TouchOk(s: Shape, s': Shape, side: OrderSide, p: Decimal, l: PriceLevel, o: Order,
                ex: Order?, stale: bool, ex': Order?, stale': bool)
    requires s.SideOk(Buy, ex, stale) && s.SideOk(Sell, ex, stale) && (side == Buy || side == Sell)
    requires l.price == p && if p in s.Tree(side) then s.Tree(side)[p] == l else l !in s.lv
    requires s'.Tree(Opposite(side)) == s.Tree(Opposite(side))
    requires s'.Tree(side) - {p} == s.Tree(side) - {p}
    requires (ex == null || ex == o) && Located(s, l, o) && OnlyTouches(s, s', l, o)
    requires p in s'.Tree(side) ==> s'.Tree(side)[p] == l && s'.LevelOk(side, p, ex', stale')
    ensures s'.SideOk(Buy, ex', stale') && s'.SideOk(Sell, ex', stale')
    ensures s'.Queues(side) == WithQueue(s.Queues(side), p, p in s'.Tree(side), s'.Queue(l))
    ensures s'.Queues(Opposite(side)) == s.Queues(Opposite(side))
  {
    hide Shape.SideOk, OnlyTouches, Shape.LevelOk, Shape.Queues, WithQueue;
    NotOnOtherSide(s, side, p, l, ex, stale);
    OtherSideFrame(s, s', Opposite(side), l, o, ex, stale, ex', stale');
    OwnSideFrame(s, s', side, p, l, o, ex, stale, ex', stale');
  }

  lemma LevelOf(s: Shape, side: OrderSide, p: Decimal, ex: Order?, stale: bool)
    requires s.SideOk(side, ex, stale) && p in s.Tree(side)
    ensures s.LevelOk(side, p, ex, stale) && s.Tree(side)[p].price == p
  {
  }

  /** The level of a price, if any, carries that price and is mirrored. */
  lemma LevelHere(s: Shape, side: OrderSide, p: Decimal)
    requires s.Ok(null, false) && (side == Buy || side == Sell)
    ensures p in s.Tree(side) ==> s.Tree(side)[p].price == p && s.Tree(side)[p] in s.lv
  {
    if p in s.Tree(side) {
      LevelOf(s, side, p, null, false);
    }
  }

  // Adding an order.

  ghost function Appended(s: Shape, o: Order, r: OrderRec, l: PriceLevel): Shape {
    var was := if l in s.lv then s.lv[l] else LevelVal([], 0.0);
    Shape(if o.side == Buy then s.bids[o.price := l] else s.bids,
          if o.side == Buy then s.asks else s.asks[o.price := l],
          s.index[o.id := Location(l, o)],
          s.lv[l := LevelVal(was.orders + [o], was.volume + r.Remaining())],
          s.ov[o := r])
  }

  /** `l` is the level of price `o.price`, or a new one. */
  ghost predicate LevelFor(s: Shape, o: Order, l: PriceLevel) {
    && l.price == o.price
    && if o.price in s.Tree(o.side) then l == s.Tree(o.side)[o.price] else l !in s.lv
  }

  lemma AppendedQueue(s: Shape, o: Order, r: OrderRec, l: PriceLevel)
    requires o.id !in s.index && l.price == o.price
    requires l in s.lv ==> s.QueueOk(o.side, l, null)
    requires r.id == o.id && r.side == o.side && r.price == o.price && r.IsResting()
    ensures var s' := Appended(s, o, r, l);
            && s'.QueueOk(o.side, l, null)
            && s'.Queue(l) == s.Queue(l) + [r]
  {
    var s' := Appended(s, o, r, l);
    var os: seq<Order> := if l in s.lv then s.lv[l].orders else [];
    assert s'.lv[l].orders == os + [o];
    forall i | 0 <= i < |os|
      ensures s'.ElementOk(o.side, l, os[i], null) && os[i] != o && s'.ov[os[i]] == s.ov[os[i]]
    {
      assert s.ElementOk(o.side, l, os[i], null);
    }
    assert s'.ElementOk(o.side, l, o, null);
    assert s'.Queue(l) == s.Queue(l) + [r];
  }

  lemma AppendedLevel(s: Shape, o: Order, r: OrderRec, l: PriceLevel)
    requires LevelFor(s, o, l) && o.id !in s.index
    requires o.price in s.Tree(o.side) ==> s.LevelOk(o.side, o.price, null, false)
    requires r.id == o.id && r.side == o.side && r.price == o.price && r.IsResting()
    ensures var s' := Appended(s, o, r, l);
            && s'.LevelOk(o.side, o.price, null, false)
            && s'.Queue(l) == s.Queue(l) + [r]
  {
    AppendedQueue(s, o, r, l);
    SumRemainingConcat(s.Queue(l), [r]);
  }

  lemma AppendedIndex(s: Shape, o: Order, r: OrderRec, l: PriceLevel)
    requires s.IndexOk() && LevelFor(s, o, l) && o.id !in s.index
    requires o.side == Buy || o.side == Sell
    ensures Appended(s, o, r, l).IndexOk()
  {
    var s' := Appended(s, o, r, l);
    forall id | id in s'.index ensures s'.EntryOk(id) {
      if id != o.id {
        assert s.EntryOk(id);
      }
    }
  }

  lemma AppendedTouches(s: Shape, o: Order, r: OrderRec, l: PriceLevel)
    ensures OnlyTouches(s, Appended(s, o, r, l), l, o)
    ensures Appended(s, o, r, l).Tree(o.side) - {o.price} == s.Tree(o.side) - {o.price}
    ensures o.side == Buy || o.side == Sell ==>
              Appended(s, o, r, l).Tree(Opposite(o.side)) == s.Tree(Opposite(o.side))
  {
  }

  lemma AppendedMaps(s: Shape, o: Order, r: OrderRec, l: PriceLevel)
    ensures var s' := Appended(s, o, r, l);
            && s'.lv.Keys == s.lv.Keys + {l} && s'.ov == s.ov[o := r]
            && s'.index == s.index[o.id := Location(l, o)]
            && forall k :: k in s.lv && k != l ==> s'.lv[k] == s.lv[k]
  {
  }

  /** Adding an order keeps the book consistent and appends to the queue of its price. */
  lemma AppendOk(s: Shape, o: Order, r: OrderRec, l: PriceLevel)
    requires s.Ok(null, false) && o.id !in s.index && LevelFor(s, o, l)
    requires o.side == Buy || o.side == Sell
    requires r.id == o.id && r.side == o.side && r.price == o.price && r.IsResting()
    ensures var s' := Appended(s, o, r, l);
            && s'.Ok(null, false)
            && s'.Queues(o.side) == AddTo(s.Queues(o.side), r)
            && s'.Queues(Opposite(o.side)) == s.Queues(Opposite(o.side))
  {
    var s' := Appended(s, o, r, l);
    hide Shape.IndexOk, OnlyTouches, Shape.LevelOk, Shape.QueueOk;
    AppendedTouches(s, o, r, l);
    AppendedLevel(s, o, r, l);
    TouchOk(s, s', o.side, o.price, l, o, null, false, null, false);
    AppendedIndex(s, o, r, l);
  }

  /** Adding an order of a known id leaves an order behind that the index no longer knows, or the same
      order twice in its queue. */
  lemma RepeatedIdBreaks(s: Shape, o: Order, r: OrderRec, l: PriceLevel)
    requires s.Ok(null, false) && o.id in s.index && LevelFor(s, o, l) && (o.side == Buy || o.side == Sell)
    ensures !Appended(s, o, r, l).Ok(null, false)
  {
    hide Shape.SideOk, Shape.IndexOk, OrderRec.IsResting;
    IndexEntry(s, o.id);
    if s.index[o.id].element == o {
      TwiceQueued(s, o, r, l);
    } else {
      Orphaned(s, o, r, l);
    }
  }

  lemma IndexEntry(s: Shape, id: Id)
    requires s.IndexOk() && id in s.index
    ensures s.EntryOk(id)
  {
  }

  lemma Orphaned(s: Shape, o: Order, r: OrderRec, l: PriceLevel)
    requires o.id in s.index && s.EntryOk(o.id) && s.index[o.id].element != o
    ensures !Appended(s, o, r, l).IndexOk()
  {
    var s', x := Appended(s, o, r, l), s.index[o.id].element;
    assert x in s'.ov && s'.index[x.id].element == o;
  }

  lemma TwiceQueued(s: Shape, o: Order, r: OrderRec, l: PriceLevel)
    requires o.id in s.index && s.EntryOk(o.id) && s.index[o.id].element == o && LevelFor(s, o, l)
    requires o.side == Buy || o.side == Sell
    ensures !Appended(s, o, r, l).SideOk(o.side, null, false)
  {
    hide Shape.ElementOk, Shape.VolumeOk;
    var s' := Appended(s, o, r, l);
    var k :| 0 <= k < |s.lv[l].orders| && s.lv[l].orders[k] == o;
    assert s'.lv[l].orders[k] == o && s'.lv[l].orders[|s.lv[l].orders|] == o;
    assert o.price in s'.Tree(o.side) && s'.Tree(o.side)[o.price] == l;
    assert !NoDup(s'.lv[l].orders);
    assert !s'.LevelOk(o.side, o.price, null, false);
  }

  /** An order with nothing left, or of another kind or status, does not belong in a book. */
  lemma NotRestingBreaks(s: Shape, o: Order, r: OrderRec, l: PriceLevel)
    requires LevelFor(s, o, l) && (o.side == Buy || o.side == Sell) && !r.IsResting()
    ensures !Appended(s, o, r, l).Ok(null, false)
  {
    var s' := Appended(s, o, r, l);
    var n := |s'.lv[l].orders| - 1;
    assert s'.lv[l].orders[n] == o && !s'.ElementOk(o.side, l, o, null);
    assert o.price in s'.Tree(o.side) && s'.Tree(o.side)[o.price] == l;
  }

  /** Adding an order to a consistent book leaves it consistent exactly when its id is new and it is
      fit to rest. */
  lemma AppendOkExactly(s: Shape, o: Order, r: OrderRec, l: PriceLevel)
    requires s.Ok(null, false) && LevelFor(s, o, l) && (o.side == Buy || o.side == Sell)
    requires r.id == o.id && r.side == o.side && r.price == o.price
    ensures Appended(s, o, r, l).Ok(null, false) <==> o.id !in s.index && r.IsResting()
  {
    hide Shape.Ok, Appended, LevelFor, OrderRec.IsResting;
    if o.id in s.index {
      RepeatedIdBreaks(s, o, r, l);
    } else if r.IsResting() {
      AppendOk(s, o, r, l);
    } else {
      NotRestingBreaks(s, o, r, l);
    }
  }

  // Unlinking an order.

  /** Order `o` is the `i`-th of its level `l`. */
  ghost predicate LinkedAt(s: Shape, o: Order, l: PriceLevel, i: nat) {
    && (o.side == Buy || o.side == Sell) && o in s.ov
    && o.price in s.Tree(o.side) && s.Tree(o.side)[o.price] == l
    && l in s.lv && i < |s.lv[l].orders| && s.lv[l].orders[i] == o
  }

  ghost function Unlinked(s: Shape, o: Order, l: PriceLevel, i: nat): Shape
    requires LinkedAt(s, o, l, i)
  {
    var os := DropAt(s.lv[l].orders, i);
    Shape(if os == [] && o.side == Buy then s.bids - {o.price} else s.bids,
          if os == [] && o.side != Buy then s.asks - {o.price} else s.asks,
          s.index - {o.id},
          if os == [] then s.lv - {l} else s.lv[l := LevelVal(os, s.lv[l].volume - s.ov[o].Remaining())],
          s.ov - {o})
  }

  lemma {:induction false} SumRemainingDrop(xs: seq<OrderRec>, i: nat)
    requires i < |xs|
    ensures SumRemaining(DropAt(xs, i)) == SumRemaining(xs) - xs[i].Remaining()
  {
    if i > 0 {
      SumRemainingDrop(xs[1..], i - 1);
      assert DropAt(xs, i)[1..] == DropAt(xs[1..], i - 1);
    } else {
      assert DropAt(xs, i) == xs[1..];
    }
  }

  lemma UnlinkedQueue(s: Shape, o: Order, l: PriceLevel, i: nat, ex: Order?)
    requires LinkedAt(s, o, l, i) && s.QueueOk(o.side, l, ex) && (ex == null || ex == o)
    ensures var s' := Unlinked(s, o, l, i);
            l in s'.lv ==> s'.QueueOk(o.side, l, null) && s'.Queue(l) == DropAt(s.Queue(l), i)
  {
    var os := s.lv[l].orders;
    var s' := Unlinked(s, o, l, i);
    var os' := DropAt(os, i);
    if os' != [] {
      forall j | 0 <= j < |os'| ensures s'.ElementOk(o.side, l, os'[j], null) && s'.ov[os'[j]] == s.ov[os'[j]] {
        var x := os'[j];
        assert x == os[if j < i then j else j + 1];
        assert s.ElementOk(o.side, l, x, ex) && s.ElementOk(o.side, l, o, ex);
      }
      assert NoDup(os');
      assert s'.Queue(l) == DropAt(s.Queue(l), i);
    }
  }

  lemma UnlinkedLevel(s: Shape, o: Order, l: PriceLevel, i: nat, ex: Order?)
    requires LinkedAt(s, o, l, i) && s.LevelOk(o.side, o.price, ex, false) && (ex == null || ex == o)
    ensures var s' := Unlinked(s, o, l, i);
            && (o.price in s'.Tree(o.side) <==> |s.lv[l].orders| > 1)
            && (o.price in s'.Tree(o.side) ==>
                  && s'.Tree(o.side)[o.price] == l
                  && s'.LevelOk(o.side, o.price, null, false)
                  && s'.Queue(l) == DropAt(s.Queue(l), i))
  {
    UnlinkedQueue(s, o, l, i, ex);
    SumRemainingDrop(s.Queue(l), i);
  }

  lemma UnlinkedTouches(s: Shape, o: Order, l: PriceLevel, i: nat)
    requires LinkedAt(s, o, l, i)
    ensures OnlyTouches(s, Unlinked(s, o, l, i), l, o)
    ensures Unlinked(s, o, l, i).Tree(o.side) - {o.price} == s.Tree(o.side) - {o.price}
    ensures Unlinked(s, o, l, i).Tree(Opposite(o.side)) == s.Tree(Opposite(o.side))
  {
  }

  lemma UnlinkedIndex(s: Shape, o: Order, l: PriceLevel, i: nat)
    requires LinkedAt(s, o, l, i) && s.IndexOk() && o.id in s.index && s.index[o.id] == Location(l, o)
    requires l.price == o.price
    ensures Unlinked(s, o, l, i).IndexOk()
  {
    var s' := Unlinked(s, o, l, i);
    forall id | id in s'.index ensures s'.EntryOk(id) {
      assert s.EntryOk(id);
      var x, k := s.index[id].element, s.index[id].level;
      assert x != o;
      if k == l {
        KeepsOthers(s.lv[l].orders, i, x);
      }
    }
  }

  lemma KeepsOthers(os: seq<Order>, i: nat, x: Order)
    requires i < |os| && x in os && x != os[i]
    ensures x in DropAt(os, i)
  {
    var j :| 0 <= j < |os| && os[j] == x;
    assert DropAt(os, i)[if j < i then j else j - 1] == x;
  }

  lemma UniqueInQueues(s: Shape, o: Order, l: PriceLevel, i: nat, ex: Order?)
    requires LinkedAt(s, o, l, i) && s.SideOk(o.side, ex, false)
    ensures OnlyAt(s.Queues(o.side), o.price, i) && s.Queues(o.side)[o.price][i].id == o.id
  {
    var m: Queues := s.Queues(o.side);
    assert s.LevelOk(o.side, o.price, ex, false) && s.ElementOk(o.side, l, o, ex);
    forall p, j | p in m && 0 <= j < |m[p]| && m[p][j].id == m[o.price][i].id ensures p == o.price && j == i {
      var k := s.Tree(o.side)[p];
      assert s.LevelOk(o.side, p, ex, false);
      assert s.ElementOk(o.side, k, s.lv[k].orders[j], ex);
    }
  }

  /** Removing an order keeps the book consistent, and drops its level when it was the last. */
  lemma UnlinkOk(s: Shape, o: Order, l: PriceLevel, i: nat, ex: Order?)
    requires s.Ok(ex, false) && (ex == null || ex == o)
    requires LinkedAt(s, o, l, i) && o.id in s.index && s.index[o.id] == Location(l, o)
    ensures var s' := Unlinked(s, o, l, i);
            && s'.Ok(null, false)
            && s'.Queues(o.side) == SetQueue(s.Queues(o.side), o.price, DropAt(s.Queue(l), i))
            && s'.Queues(Opposite(o.side)) == s.Queues(Opposite(o.side))
  {
    var s' := Unlinked(s, o, l, i);
    hide Shape.IndexOk, Shape.SideOk, Shape.LevelOk, OnlyTouches;
    LevelOf(s, o.side, o.price, ex, false);
    UnlinkedTouches(s, o, l, i);
    UnlinkedLevel(s, o, l, i, ex);
    TouchOk(s, s', o.side, o.price, l, o, ex, false, null, false);
    UnlinkedIndex(s, o, l, i);
  }

  // Filling an order in place, and recomputing its level's volume.

  ghost function Refilled(s: Shape, o: Order, r: OrderRec): Shape {
    s.(ov := s.ov[o := r])
  }

  lemma RefilledLevel(s: Shape, o: Order, r: OrderRec, l: PriceLevel, i: nat, ex: Order?, stale: bool)
    requires LinkedAt(s, o, l, i) && s.LevelOk(o.side, o.price, ex, stale) && (ex == null || ex == o)
    requires r.id == o.id && r.side == o.side && r.price == o.price
    ensures var s' := Refilled(s, o, r);
            && s'.LevelOk(o.side, o.price, o, true)
            && s'.Queue(l) == s.Queue(l)[i := r]
  {
    var s' := Refilled(s, o, r);
    var os := s.lv[l].orders;
    forall j | 0 <= j < |os| ensures s'.ElementOk(o.side, l, os[j], o) {
      assert s.ElementOk(o.side, l, os[j], ex);
    }
    assert s'.Queue(l) == s.Queue(l)[i := r];
  }

  lemma RefilledIndex(s: Shape, o: Order, r: OrderRec)
    requires s.IndexOk() && o in s.ov
    ensures Refilled(s, o, r).IndexOk()
  {
    forall id | id in s.index ensures Refilled(s, o, r).EntryOk(id) {
      assert s.EntryOk(id);
    }
  }

  lemma RefilledTouches(s: Shape, o: Order, r: OrderRec, l: PriceLevel)
    ensures OnlyTouches(s, Refilled(s, o, r), l, o)
  {
  }

  /** After an order object changed, only its own level's volume may be out of date. */
  lemma RefillOk(s: Shape, o: Order, r: OrderRec, l: PriceLevel, i: nat, ex: Order?, stale: bool)
    requires s.Ok(ex, stale) && (ex == null || ex == o)
    requires LinkedAt(s, o, l, i) && o.id in s.index && s.index[o.id] == Location(l, o)
    requires r.id == o.id && r.side == o.side && r.price == o.price
    ensures var s' := Refilled(s, o, r);
            && s'.Ok(o, true)
            && s'.Queues(o.side) == s.Queues(o.side)[o.price := s.Queue(l)[i := r]]
            && s'.Queues(Opposite(o.side)) == s.Queues(Opposite(o.side))
  {
    var s' := Refilled(s, o, r);
    hide Shape.IndexOk, Shape.SideOk, Shape.LevelOk, OnlyTouches;
    LevelOf(s, o.side, o.price, ex, stale);
    RefilledTouches(s, o, r, l);
    RefilledLevel(s, o, r, l, i, ex, stale);
    TouchOk(s, s', o.side, o.price, l, o, ex, stale, o, true);
    RefilledIndex(s, o, r);
  }

  ghost function Revolumed(s: Shape, l: PriceLevel, v: Decimal): Shape
    requires l in s.lv
  {
    s.(lv := s.lv[l := s.lv[l].(volume := v)])
  }

  lemma RevolumedLevel(s: Shape, o: Order, l: PriceLevel, i: nat)
    requires LinkedAt(s, o, l, i) && s.LevelOk(o.side, o.price, o, true)
    ensures var s' := Revolumed(s, l, SumRemaining(s.Queue(l)));
            s'.LevelOk(o.side, o.price, o, false) && s'.Queue(l) == s.Queue(l)
  {
    var s' := Revolumed(s, l, SumRemaining(s.Queue(l)));
    forall j | 0 <= j < |s'.lv[l].orders| ensures s'.ElementOk(o.side, l, s'.lv[l].orders[j], o) {
      assert s.ElementOk(o.side, l, s.lv[l].orders[j], o);
    }
  }

  lemma RevolumedIndex(s: Shape, l: PriceLevel, v: Decimal)
    requires s.IndexOk() && l in s.lv
    ensures Revolumed(s, l, v).IndexOk()
  {
    forall id | id in s.index ensures Revolumed(s, l, v).EntryOk(id) {
      assert s.EntryOk(id);
    }
  }

  lemma RevolumedTouches(s: Shape, o: Order, l: PriceLevel, v: Decimal)
    requires l in s.lv
    ensures OnlyTouches(s, Revolumed(s, l, v), l, o)
  {
  }

  lemma QueueUnchanged(s: Shape, side: OrderSide, p: Decimal)
    requires p in s.Tree(side)
    ensures s.Queues(side)[p := s.Queue(s.Tree(side)[p])] == s.Queues(side)
  {
  }

  lemma RevolumedSides(s: Shape, o: Order, l: PriceLevel, i: nat, s': Shape)
    requires s.SideOk(Buy, o, true) && s.SideOk(Sell, o, true)
    requires LinkedAt(s, o, l, i) && Located(s, l, o)
    requires s' == Revolumed(s, l, SumRemaining(s.Queue(l)))
    ensures s'.SideOk(Buy, o, false) && s'.SideOk(Sell, o, false)
    ensures s'.Queues(o.side) == s.Queues(o.side)
    ensures s'.Queues(Opposite(o.side)) == s.Queues(Opposite(o.side))
  {
    hide Shape.SideOk, Shape.LevelOk, OnlyTouches, Shape.Queues, SumRemaining;
    LevelOf(s, o.side, o.price, o, true);
    RevolumedTouches(s, o, l, SumRemaining(s.Queue(l)));
    RevolumedLevel(s, o, l, i);
    TouchOk(s, s', o.side, o.price, l, o, o, true, o, false);
    QueueUnchanged(s, o.side, o.price);
  }

  /** Recomputing the volume repairs it. */
  lemma RevolumeOk(s: Shape, o: Order, l: PriceLevel, i: nat)
    requires s.Ok(o, true)
    requires LinkedAt(s, o, l, i) && o.id in s.index && s.index[o.id] == Location(l, o)
    ensures var s' := Revolumed(s, l, SumRemaining(s.Queue(l)));
            && s'.Ok(o, false)
            && s'.Queues(o.side) == s.Queues(o.side)
            && s'.Queues(Opposite(o.side)) == s.Queues(Opposite(o.side))
  {
    hide Shape.IndexOk, Shape.SideOk, Shape.Queues, SumRemaining;
    RevolumedSides(s, o, l, i, Revolumed(s, l, SumRemaining(s.Queue(l))));
    RevolumedIndex(s, l, SumRemaining(s.Queue(l)));
  }

  /** When the order that was being filled is resting again, the book is consistent. */
  lemma SettleOk(s: Shape, o: Order)
    requires s.Ok(o, false) && o in s.ov && s.ov[o].IsResting()
    ensures s.Ok(null, false)
  {
    SettleSide(s, o, Buy);
    SettleSide(s, o, Sell);
  }

  lemma SettleSide(s: Shape, o: Order, side: OrderSide)
    requires s.SideOk(side, o, false) && o in s.ov && s.ov[o].IsResting()
    ensures s.SideOk(side, null, false)
  {
    forall p | p in s.Tree(side) ensures s.LevelOk(side, p, null, false) {
      var l := s.Tree(side)[p];
      assert s.LevelOk(side, p, o, false);
      forall j | 0 <= j < |s.lv[l].orders| ensures s.ElementOk(side, l, s.lv[l].orders[j], null) {
        assert s.ElementOk(side, l, s.lv[l].orders[j], o);
      }
    }
  }

  // Dropping a whole level.

  ghost function Popped(s: Shape, side: OrderSide, l: PriceLevel): Shape
    requires l in s.lv
  {
    Shape(if side == Buy then s.bids - {l.price} else s.bids,
          if side == Buy then s.asks else s.asks - {l.price},
          map id | id in s.index && s.index[id].level != l :: s.index[id],
          s.lv - {l},
          map o | o in s.ov && o !in s.lv[l].orders :: s.ov[o])
  }

  lemma NotInLevel(s: Shape, side: OrderSide, l: PriceLevel, o: Order)
    requires s.QueueOk(side, l, null) && o.id in s.index && s.index[o.id].level != l
    ensures o !in s.lv[l].orders
  {
    forall j | 0 <= j < |s.lv[l].orders| ensures s.lv[l].orders[j] != o {
      assert s.ElementOk(side, l, s.lv[l].orders[j], null);
    }
  }

  lemma PoppedQueue(s: Shape, side: OrderSide, l: PriceLevel, on: OrderSide, k: PriceLevel)
    requires s.QueueOk(side, l, null) && s.QueueOk(on, k, null) && k != l
    ensures var s' := Popped(s, side, l); s'.QueueOk(on, k, null) && s'.Queue(k) == s.Queue(k)
  {
    var s', os := Popped(s, side, l), s.lv[k].orders;
    forall i | 0 <= i < |os| ensures s'.ElementOk(on, k, os[i], null) && s'.ov[os[i]] == s.ov[os[i]] {
      assert s.ElementOk(on, k, os[i], null);
      NotInLevel(s, side, l, os[i]);
    }
    assert RecsOf(os, s.ov) == RecsOf(os, s'.ov);
  }

  lemma PoppedLevel(s: Shape, side: OrderSide, l: PriceLevel, on: OrderSide, p: Decimal)
    requires s.QueueOk(side, l, null) && p in s.Tree(on) && s.LevelOk(on, p, null, false) && s.Tree(on)[p] != l
    requires p in Popped(s, side, l).Tree(on) && Popped(s, side, l).Tree(on)[p] == s.Tree(on)[p]
    ensures Popped(s, side, l).LevelOk(on, p, null, false)
    ensures Popped(s, side, l).Queues(on)[p] == s.Queues(on)[p]
  {
    PoppedQueue(s, side, l, on, s.Tree(on)[p]);
  }

  lemma PoppedIndex(s: Shape, side: OrderSide, l: PriceLevel)
    requires s.IndexOk() && s.QueueOk(side, l, null) && l.price in s.Tree(side) && s.Tree(side)[l.price] == l
    requires side == Buy || side == Sell
    ensures Popped(s, side, l).IndexOk()
  {
    var s' := Popped(s, side, l);
    forall id | id in s'.index ensures s'.EntryOk(id) {
      assert s.EntryOk(id);
      NotInLevel(s, side, l, s.index[id].element);
    }
    forall o | o in s'.ov ensures o.id in s'.index && s'.index[o.id].element == o {
      assert s.EntryOk(o.id);
    }
  }

  lemma PoppedOwnSide(s: Shape, side: OrderSide, l: PriceLevel)
    requires s.SideOk(side, null, false)
    requires l in s.lv && l.price in s.Tree(side) && s.Tree(side)[l.price] == l && (side == Buy || side == Sell)
    ensures Popped(s, side, l).SideOk(side, null, false)
    ensures Popped(s, side, l).Queues(side) == s.Queues(side) - {l.price}
  {
    var s' := Popped(s, side, l);
    LevelOf(s, side, l.price, null, false);
    forall p | p in s'.Tree(side)
      ensures s'.LevelOk(side, p, null, false) && s'.Queues(side)[p] == s.Queues(side)[p]
    {
      LevelOf(s, side, p, null, false);
      PoppedLevel(s, side, l, side, p);
    }
    assert s'.Queues(side).Keys == s'.Tree(side).Keys;
    assert (s.Queues(side) - {l.price}).Keys == s.Tree(side).Keys - {l.price};
    assert forall p :: p in s'.Queues(side) ==> s'.Queues(side)[p] == (s.Queues(side) - {l.price})[p];
  }

  lemma PoppedOtherSide(s: Shape, side: OrderSide, l: PriceLevel)
    requires s.SideOk(side, null, false) && s.SideOk(Opposite(side), null, false)
    requires l in s.lv && l.price in s.Tree(side) && s.Tree(side)[l.price] == l && (side == Buy || side == Sell)
    ensures Popped(s, side, l).SideOk(Opposite(side), null, false)
    ensures Popped(s, side, l).Queues(Opposite(side)) == s.Queues(Opposite(side))
  {
    var s', other := Popped(s, side, l), Opposite(side);
    LevelOf(s, side, l.price, null, false);
    NotOnOtherSide(s, side, l.price, l, null, false);
    forall p | p in s'.Tree(other)
      ensures s'.LevelOk(other, p, null, false) && s'.Queues(other)[p] == s.Queues(other)[p]
    {
      LevelOf(s, other, p, null, false);
      PoppedLevel(s, side, l, other, p);
    }
    assert s'.Queues(other).Keys == s'.Tree(other).Keys == s.Tree(other).Keys == s.Queues(other).Keys;
    assert forall p :: p in s'.Queues(other) ==> s'.Queues(other)[p] == s.Queues(other)[p];
  }

  /** Removing a whole level with its orders keeps the book consistent. */
  lemma PopOk(s: Shape, side: OrderSide, l: PriceLevel)
    requires s.Ok(null, false) && (side == Buy || side == Sell)
    requires l in s.lv && l.price in s.Tree(side) && s.Tree(side)[l.price] == l
    ensures var s' := Popped(s, side, l);
            && s'.Ok(null, false)
            && s'.Queues(side) == s.Queues(side) - {l.price}
            && s'.Queues(Opposite(side)) == s.Queues(Opposite(side))
  {
    hide Shape.SideOk, Shape.IndexOk, Shape.Queues, Shape.QueueOk, Popped;
    LevelOf(s, side, l.price, null, false);
    PoppedOwnSide(s, side, l);
    PoppedOtherSide(s, side, l);
    PoppedIndex(s, side, l);
  }
}
