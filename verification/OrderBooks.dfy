/** The order book (engine/orderbook.go): two trees of price levels, each level a queue of shared
    orders with a cached volume, and a map from order id to the order's place.

    The ghost fields `lv` and `ov` mirror the contents of the level and order objects in the book,
    so that everything else about a book is a fact about values (module `BookShape`).
 */
module OrderBooks {
  import opened Orders
  import opened PriceTime
  import opened PriceLevels
  import opened BookShape

  lemma NoQueues(s: Shape, side: OrderSide)
    requires s.Tree(side) == map[]
    ensures Flatten(s.Queues(side), side) == []
  {
    assert s.Queues(side).Keys == {};
  }

  /** What the index says about an id. */
  lemma Found(s: Shape, id: Id, ex: Order?, stale: bool)
    requires s.Ok(ex, stale) && id in s.index
    ensures var o, l := s.index[id].element, s.index[id].level;
            && o.id == id && (o.side == Buy || o.side == Sell) && o in s.ov
            && l in s.lv && o in s.lv[l].orders && l.price == o.price
            && o.price in s.Tree(o.side) && s.Tree(o.side)[o.price] == l
  {
    assert s.EntryOk(id);
    var o := s.index[id].element;
    LevelOf(s, o.side, o.price, ex, stale);
  }

  lemma InIndex(s: Shape, o: Order)
    requires s.Ok(null, false) && o in s.ov
    ensures o.id in s.index && s.index[o.id].element == o
    ensures o.price in s.Tree(o.side) && s.index[o.id].level == s.Tree(o.side)[o.price]
  {
    assert s.EntryOk(o.id);
  }

  lemma QueuesAreOk(s: Shape, side: OrderSide)
    requires s.SideOk(side, null, false)
    ensures QueuesOk(s.Queues(side), side)
  {
    forall p | p in s.Tree(side) ensures QueueOk(s.Queues(side)[p], side, p) {
      var l := s.Tree(side)[p];
      LevelOf(s, side, p, null, false);
      forall i | 0 <= i < |s.lv[l].orders| ensures s.Queue(l)[i].price == p && s.Queue(l)[i].side == side {
        assert s.ElementOk(side, l, s.lv[l].orders[i], null);
      }
    }
  }

  /** A listed order is indexed: the `k`-th order of a side is the value of its index entry. */
  lemma ListedIsIndexed(s: Shape, side: OrderSide, k: nat)
    requires s.Ok(null, false) && (side == Buy || side == Sell)
    requires k < |Flatten(s.Queues(side), side)|
    ensures var r := Flatten(s.Queues(side), side)[k];
            && r.id in s.index && s.index[r.id].element.side == side
            && s.index[r.id].element in s.ov && s.ov[s.index[r.id].element] == r && r.IsResting() && r.side == side
  {
    QueuesAreOk(s, side);
    FlattenMember(s.Queues(side), side, k);
    var r := Flatten(s.Queues(side), side)[k];
    LevelOf(s, side, r.price, null, false);
    var l := s.Tree(side)[r.price];
    var i :| 0 <= i < |s.Queue(l)| && s.Queue(l)[i] == r;
    assert s.ElementOk(side, l, s.lv[l].orders[i], null);
  }

  /** An indexed order is listed on its side. */
  lemma IndexedIsListed(s: Shape, id: Id)
    requires s.Ok(null, false) && id in s.index
    ensures var o := s.index[id].element;
            o in s.ov && s.ov[o].id == id && (o.side == Buy || o.side == Sell)
            && s.ov[o] in Flatten(s.Queues(o.side), o.side)
  {
    Found(s, id, null, false);
    var o, l := s.index[id].element, s.index[id].level;
    LevelOf(s, o.side, o.price, null, false);
    var i :| 0 <= i < |s.lv[l].orders| && s.lv[l].orders[i] == o;
    assert s.ElementOk(o.side, l, o, null);
    assert s.Queues(o.side)[o.price][i] == s.ov[o];
    FlattenContains(s.Queues(o.side), o.side, o.price, i);
  }

  lemma OrdersHere(s: Shape, o: Order, l: PriceLevel, i: nat)
    requires s.Ok(o, true) && LinkedAt(s, o, l, i)
    ensures forall j :: 0 <= j < |s.lv[l].orders| ==> s.lv[l].orders[j] in s.ov
  {
    LevelOf(s, o.side, o.price, o, true);
    forall j | 0 <= j < |s.lv[l].orders| ensures s.lv[l].orders[j] in s.ov {
      assert s.ElementOk(o.side, l, s.lv[l].orders[j], o);
    }
  }

  lemma RemoveOk(s: Shape, o: Order, l: PriceLevel, i: nat, ex: Order?)
    requires s.Ok(ex, false) && (ex == null || ex == o)
    requires LinkedAt(s, o, l, i) && o.id in s.index && s.index[o.id] == Location(l, o)
    ensures var s' := Unlinked(s, o, l, i);
            && s'.Ok(null, false)
            && Flatten(s'.Queues(o.side), o.side) == Without(Flatten(s.Queues(o.side), o.side), o.id)
            && s'.Queues(Opposite(o.side)) == s.Queues(Opposite(o.side))
  {
    hide Shape.SideOk, Shape.IndexOk, Flatten, Unlinked;
    UnlinkOk(s, o, l, i, ex);
    UniqueInQueues(s, o, l, i, ex);
    FlattenRemove(s.Queues(o.side), o.side, o.price, i);
  }

  function IdSet(os: seq<Order>): set<Id> {
    set i | 0 <= i < |os| :: os[i].id
  }

  /** The ids of a level are the entries that point at it. */
  lemma PointsAt(s: Shape, side: OrderSide, l: PriceLevel, id: Id)
    requires s.QueueOk(side, l, null) && id in s.index && s.EntryOk(id)
    ensures s.index[id].level == l <==> id in IdSet(s.lv[l].orders)
  {
    if id in IdSet(s.lv[l].orders) {
      var i :| 0 <= i < |s.lv[l].orders| && s.lv[l].orders[i].id == id;
      assert s.ElementOk(side, l, s.lv[l].orders[i], null);
    }
  }

  lemma RemoveIds(s: Shape, side: OrderSide, l: PriceLevel)
    requires s.Ok(null, false) && (side == Buy || side == Sell)
    requires l in s.lv && l.price in s.Tree(side) && s.Tree(side)[l.price] == l
    ensures s.index - IdSet(s.lv[l].orders) == Popped(s, side, l).index
  {
    hide Shape.SideOk, Shape.QueueOk, Shape.EntryOk, IdSet;
    LevelOf(s, side, l.price, null, false);
    forall id | id in s.index ensures s.index[id].level == l <==> id in IdSet(s.lv[l].orders) {
      PointsAt(s, side, l, id);
    }
  }

  lemma PopFlat(s: Shape, side: OrderSide, l: PriceLevel)
    requires s.Ok(null, false) && (side == Buy || side == Sell)
    requires IsBest(s.Tree(side).Keys, side, l.price) && s.Tree(side)[l.price] == l && l in s.lv
    ensures Flatten(s.Queues(side), side) == s.Queue(l) + Flatten(s.Queues(side) - {l.price}, side)
    ensures s.Queue(l) != []
  {
    hide Shape.SideOk, Shape.IndexOk, Flatten, Shape.ElementOk, NoDup;
    LevelOf(s, side, l.price, null, false);
    QueueKeys(s, side);
    FlattenAt(s.Queues(side), side, l.price);
  }

  // The index and the lists have the same size.

  lemma {:induction false} DistinctCount(xs: seq<OrderRec>)
    requires DistinctIds(xs)
    ensures |ListedIds(xs)| == |xs|
  {
    if xs == [] {
      assert ListedIds(xs) == {};
    } else {
      DistinctCount(xs[1..]);
      FirstListed(xs);
      NotListed(xs[1..], xs[0].id);
    }
  }

  lemma NotListed(xs: seq<OrderRec>, id: Id)
    requires forall i :: 0 <= i < |xs| ==> xs[i].id != id
    ensures id !in ListedIds(xs)
  {
  }

  lemma FirstListed(xs: seq<OrderRec>)
    requires xs != []
    ensures ListedIds(xs) == {xs[0].id} + ListedIds(xs[1..])
  {
    forall id ensures id in ListedIds(xs) <==> id == xs[0].id || id in ListedIds(xs[1..]) {
      if id in ListedIds(xs[1..]) {
        var i :| 0 <= i < |xs[1..]| && xs[1..][i].id == id;
        assert xs[i + 1].id == id;
      }
      if id in ListedIds(xs) && id != xs[0].id {
        var i :| 0 <= i < |xs| && xs[i].id == id;
        assert xs[1..][i - 1].id == id;
      }
    }
  }

  function ListedIds(xs: seq<OrderRec>): set<Id> {
    set i | 0 <= i < |xs| :: xs[i].id
  }

  lemma FlatDistinct(s: Shape, side: OrderSide)
    requires s.Ok(null, false) && (side == Buy || side == Sell)
    ensures DistinctIds(Flatten(s.Queues(side), side))
  {
    var m: Queues := s.Queues(side);
    QueuesAreOk(s, side);
    forall p, i | p in m && 0 <= i < |m[p]| ensures OnlyAt(m, p, i) {
      LevelOf(s, side, p, null, false);
      var l := s.Tree(side)[p];
      var o := s.lv[l].orders[i];
      assert s.ElementOk(side, l, o, null);
      UniqueInQueues(s, o, l, i, null);
    }
    FlattenDistinct(m, side);
  }

  lemma SidesListed(s: Shape)
    requires s.Ok(null, false)
    ensures s.index.Keys == ListedIds(Flatten(s.Queues(Buy), Buy)) + ListedIds(Flatten(s.Queues(Sell), Sell))
    ensures ListedIds(Flatten(s.Queues(Buy), Buy)) !! ListedIds(Flatten(s.Queues(Sell), Sell))
  {
    hide Shape.Ok, Shape.Queues, Flatten;
    var bs, xs := Flatten(s.Queues(Buy), Buy), Flatten(s.Queues(Sell), Sell);
    forall id | id in ListedIds(bs) ensures id in s.index && s.index[id].element.side == Buy {
      var k :| 0 <= k < |bs| && bs[k].id == id;
      ListedIsIndexed(s, Buy, k);
    }
    forall id | id in ListedIds(xs) ensures id in s.index && s.index[id].element.side == Sell {
      var k :| 0 <= k < |xs| && xs[k].id == id;
      ListedIsIndexed(s, Sell, k);
    }
    forall id | id in s.index ensures id in ListedIds(bs) + ListedIds(xs) {
      IndexedIsListed(s, id);
    }
  }

  /** The index has exactly one entry for each listed order. */
  lemma IndexCounts(s: Shape)
    requires s.Ok(null, false)
    ensures |s.index| == |Flatten(s.Queues(Buy), Buy)| + |Flatten(s.Queues(Sell), Sell)|
  {
    hide Shape.Ok, Shape.Queues, Flatten, ListedIds, DistinctIds;
    FlatDistinct(s, Buy);
    FlatDistinct(s, Sell);
    DistinctCount(Flatten(s.Queues(Buy), Buy));
    DistinctCount(Flatten(s.Queues(Sell), Sell));
    SidesListed(s);
    assert |s.index| == |s.index.Keys|;
  }

  class OrderBook {
    var bids: OrderBookSide
    var asks: OrderBookSide
    var index: map<Id, Location>
    ghost var lv: map<PriceLevel, LevelVal>
    ghost var ov: map<Order, OrderRec>

    ghost function Now(): Shape
      reads this, bids, asks
    {
      Shape(bids.tree, asks.tree, index, lv, ov)
    }

    /** The mirror fields tell what the objects hold. */
    ghost predicate Mirrored()
      reads this, lv.Keys, ov.Keys
    {
      && bids != asks
      && (forall l {:trigger l in lv} :: l in lv ==> l.orders == lv[l].orders && l.volume == lv[l].volume)
      && (forall o {:trigger o in ov} :: o in ov ==> o.Rec() == ov[o])
    }

    /** Consistent, except that order `ex` may be in the middle of a fill. */
    ghost predicate Inv(ex: Order?, stale: bool)
      reads this, bids, asks, lv.Keys, ov.Keys
    {
      Mirrored() && Now().Ok(ex, stale)
    }

    ghost predicate Valid()
      reads this, bids, asks, lv.Keys, ov.Keys
    {
      Inv(null, false)
    }

    /** One side in price-time priority. */
    ghost function Flat(side: OrderSide): seq<OrderRec>
      reads this, bids, asks
    {
      Flatten(Now().Queues(side), side)
    }

    constructor ()
      ensures Valid() && fresh(bids) && fresh(asks)
      ensures index == map[] && lv == map[] && ov == map[]
      ensures Flat(Buy) == Flat(Sell) == []
    {
      bids := new OrderBookSide();
      asks := new OrderBookSide();
      index, lv, ov := map[], map[], map[];
      new;
      NoQueues(Now(), Buy);
      NoQueues(Now(), Sell);
    }

    /** The objects hold what `s` says. */
    ghost predicate Holds(s: Shape)
      reads this, bids, asks, s.lv.Keys, s.ov.Keys
    {
      && bids != asks && bids.tree == s.bids && asks.tree == s.asks && index == s.index
      && (forall l {:trigger l in s.lv} :: l in s.lv ==> l.orders == s.lv[l].orders && l.volume == s.lv[l].volume)
      && (forall o {:trigger o in s.ov} :: o in s.ov ==> o.Rec() == s.ov[o])
    }

    /** Brings the mirror fields up to date. */
    ghost method Sync(s: Shape, ex: Order?, stale: bool)
      requires Holds(s) && s.Ok(ex, stale)
      modifies this`lv, this`ov
      ensures Inv(ex, stale) && Now() == s
    {
      hide Shape.Ok;
      lv, ov := s.lv, s.ov;
    }

    method AddOrder(o: Order)
      requires Valid()
      requires o.id !in index
      requires o.Rec().IsResting() && (o.side == Buy || o.side == Sell)
      modifies this, bids, asks, lv.Keys
      ensures Valid() && bids == old(bids) && asks == old(asks)
      ensures (forall l :: l in lv ==> l in old(lv) || fresh(l)) && ov == old(ov)[o := o.Rec()]
      ensures index.Keys == old(index.Keys) + {o.id} && index[o.id].element == o
      ensures Now().Queues(o.side) == AddTo(old(Now().Queues(o.side)), o.Rec())
      ensures Now().Queues(Opposite(o.side)) == old(Now().Queues(Opposite(o.side)))
    {
      hide Shape.Ok, Shape.Queues, AddTo, OrderRec.IsResting, Appended, LevelFor, Holds, Mirrored;
      ghost var s := Now();
      var l := Place(o);
      AppendOk(s, o, o.Rec(), l);
      AppendedMaps(s, o, o.Rec(), l);
      Sync(Appended(s, o, o.Rec(), l), null, false);
    }

    /** The work of AddOrder on the objects. */
    method Place(o: Order) returns (l: PriceLevel)
      requires Valid() && o.id !in index && (o.side == Buy || o.side == Sell)
      modifies this`index, bids, asks, lv.Keys
      ensures LevelFor(old(Now()), o, l) && (l in lv || fresh(l))
      ensures Holds(Appended(old(Now()), o, o.Rec(), l))
    {
      hide Shape.Ok, Appended, LevelFor;
      ghost var s := Now();
      l := Link(o);
      AppendedMaps(s, o, o.Rec(), l);
    }

    /** The work of AddOrder on the trees, levels and index. */
    method Link(o: Order) returns (l: PriceLevel)
      requires Valid() && (o.side == Buy || o.side == Sell)
      modifies this`index, bids, asks, lv.Keys
      ensures LevelFor(old(Now()), o, l) && (l in lv || fresh(l))
      ensures forall k :: k in lv && k != l ==> k.orders == lv[k].orders && k.volume == lv[k].volume
      ensures var s' := Appended(old(Now()), o, o.Rec(), l);
              && l.orders == s'.lv[l].orders && l.volume == s'.lv[l].volume
              && bids.tree == s'.bids && asks.tree == s'.asks && index == s'.index
    {
      hide Shape.Ok;
      LevelHere(Now(), o.side, o.price);
      var side := if o.side == Buy then bids else asks;
      l := side.Enqueue(o);
      index := index[o.id := Location(l, o)];
    }

    /** The work of RemoveOrder and CancelOrder on the level, the tree and the index. */
    method Unlink(loc: Location) returns (ghost i: nat)
      requires bids != asks && (loc.element.side == Buy || loc.element.side == Sell)
      requires loc.element in loc.level.orders
      modifies this`index, bids, asks, loc.level
      ensures i < |old(loc.level.orders)| && old(loc.level.orders)[i] == loc.element
      ensures loc.level.orders == DropAt(old(loc.level.orders), i)
      ensures loc.level.volume == old(loc.level.volume) - loc.element.Rec().Remaining()
      ensures index == old(index) - {loc.element.id}
      ensures Now().Tree(loc.element.side) ==
              if loc.level.orders == [] then old(Now().Tree(loc.element.side)) - {loc.level.price}
              else old(Now().Tree(loc.element.side))
      ensures Now().Tree(Opposite(loc.element.side)) == old(Now().Tree(Opposite(loc.element.side)))
    {
      i := loc.level.RemoveOrder(loc.element);
      if loc.level.IsEmpty() {
        var side := if loc.element.side == Buy then bids else asks;
        side.RemovePriceLevel(loc.level.price);
      }
      index := index - {loc.element.id};
    }

    /** Removes a linked order, dropping its level when it was the last. */
    method Take(loc: Location, ghost ex: Order?) returns (ghost i: nat)
      requires Inv(ex, false) && (ex == null || ex == loc.element)
      requires loc.element.id in index && index[loc.element.id] == loc
      modifies this, bids, asks, loc.level
      ensures Valid() && bids == old(bids) && asks == old(asks)
      ensures lv.Keys <= old(lv.Keys)
      ensures LinkedAt(old(Now()), loc.element, loc.level, i)
      ensures Now() == Unlinked(old(Now()), loc.element, loc.level, i)
      ensures ov == old(ov) - {loc.element} && index == old(index) - {loc.element.id}
      ensures Flat(loc.element.side) == Without(old(Flat(loc.element.side)), loc.element.id)
      ensures Flat(Opposite(loc.element.side)) == old(Flat(Opposite(loc.element.side)))
    {
      hide Shape.Ok, Shape.Queues, Flatten, Without, SetQueue, Holds, Mirrored;
      ghost var s := Now();
      Found(s, loc.element.id, ex, false);
      i := Detach(loc);
      RemoveOk(s, loc.element, loc.level, i, ex);
      Sync(Unlinked(s, loc.element, loc.level, i), null, false);
    }

    /** The work of Take on the objects. */
    method Detach(loc: Location) returns (ghost i: nat)
      requires Mirrored() && (loc.element.side == Buy || loc.element.side == Sell) && loc.element in ov
      requires loc.level in lv && loc.element in lv[loc.level].orders && loc.level.price == loc.element.price
      requires loc.element.price in Now().Tree(loc.element.side)
      requires Now().Tree(loc.element.side)[loc.element.price] == loc.level
      modifies this`index, bids, asks, loc.level
      ensures LinkedAt(old(Now()), loc.element, loc.level, i)
      ensures Holds(Unlinked(old(Now()), loc.element, loc.level, i))
    {
      i := Unlink(loc);
    }

    /** Removes an order by id; `ex`, if any, is the order of a fill in progress, with that id. */
    method RemoveOrder(id: Id, ghost ex: Order?) returns (o: Order?, ghost i: nat)
      requires Inv(ex, false) && (ex == null || (id in index && index[id].element == ex))
      modifies this, bids, asks, lv.Keys
      ensures bids == old(bids) && asks == old(asks) && lv.Keys <= old(lv.Keys)
      ensures o == null <==> id !in old(index)
      ensures o == null ==> Inv(ex, false) && Now() == old(Now())
      ensures o != null ==>
                && Valid() && o == old(index)[id].element && o.id == id && o in old(ov)
                && LinkedAt(old(Now()), o, old(index)[id].level, i)
                && Now() == Unlinked(old(Now()), o, old(index)[id].level, i)
                && (o.side == Buy || o.side == Sell)
                && ov == old(ov) - {o} && index == old(index) - {id}
                && Flat(o.side) == Without(old(Flat(o.side)), id)
                && Flat(Opposite(o.side)) == old(Flat(Opposite(o.side)))
    {
      if id !in index { return null, 0; }
      hide Shape.Ok, Shape.Queues, Flatten, Without, Mirrored, Unlinked;
      Found(Now(), id, ex, false);
      o := index[id].element;
      i := Take(index[id], ex);
    }

    /** Removes an order by id and marks it cancelled. */
    method CancelOrder(id: Id) returns (o: Order?)
      requires Valid()
      modifies this, bids, asks, lv.Keys, ov.Keys
      ensures Valid() && bids == old(bids) && asks == old(asks) && lv.Keys <= old(lv.Keys)
      ensures o == null <==> id !in old(index)
      ensures o == null ==> Now() == old(Now())
      ensures o != null ==>
                && o == old(index)[id].element && o.id == id && o in old(ov)
                && (o.side == Buy || o.side == Sell)
                && o.Rec() == old(o.Rec()).(status := Cancelled)
                && ov == old(ov) - {o} && index == old(index) - {id}
                && Flat(o.side) == Without(old(Flat(o.side)), id)
                && Flat(Opposite(o.side)) == old(Flat(Opposite(o.side)))
      ensures forall x :: x in old(ov) && x != o ==> unchanged(x)
    {
      hide Shape.Ok, Shape.Queues, Flatten, Without, Unlinked;
      ghost var i;
      o, i := RemoveOrder(id, null);
      if o != null {
        o.SetStatus(Cancelled);
      }
    }

    /** The best level of a side. */
    method GetBest(side: OrderSide) returns (l: PriceLevel?)
      requires Valid() && (side == Buy || side == Sell)
      ensures l == null <==> Now().Tree(side) == map[]
      ensures l != null ==> IsBest(Now().Tree(side).Keys, side, l.price) && Now().Tree(side)[l.price] == l
    {
      hide Shape.Ok;
      var s := if side == Buy then bids else asks;
      l := s.GetBestPrice(side);
      if l != null {
        ghost var p :| IsBest(s.tree.Keys, side, p) && l == s.tree[p];
        LevelHere(Now(), side, p);
      }
    }

    /** Fills an order that is in the book.  The cached volume of its level is now out of date. */
    method FillResting(o: Order, q: Decimal, ghost l: PriceLevel, ghost i: nat)
      requires Valid() && LinkedAt(Now(), o, l, i)
      modifies this`ov, o
      ensures Inv(o, true) && ov.Keys == old(ov.Keys)
      ensures o.Rec() == old(o.Rec()).AfterFill(q)
      ensures Now() == Refilled(old(Now()), o, o.Rec())
      ensures Now().Queues(o.side) == old(Now()).Queues(o.side)[o.price := old(Now()).Queue(l)[i := o.Rec()]]
      ensures Now().Queues(Opposite(o.side)) == old(Now()).Queues(Opposite(o.side))
    {
      hide Shape.Ok, Shape.Queues, Shape.Queue;
      ghost var s := Now();
      InIndex(s, o);
      o.Fill(q);
      RefillOk(s, o, o.Rec(), l, i, null, false);
      ov := ov[o := o.Rec()];
      assert Now() == Refilled(s, o, o.Rec());
    }

    /** Sets an order's filled quantity and recomputes the volume of its level. */
    method UpdateOrder(id: Id, newFilled: Decimal, ghost ex: Order?, ghost stale: bool) returns (ghost i: nat)
      requires Inv(ex, stale) && (ex == null || (id in index && index[id].element == ex))
      modifies this, lv.Keys, ov.Keys
      ensures bids == old(bids) && asks == old(asks) && index == old(index)
      ensures id !in index ==> Inv(ex, stale) && Now() == old(Now())
      ensures id in index ==>
                var o, l, s := index[id].element, index[id].level, old(Now());
                && Inv(o, false) && LinkedAt(s, o, l, i)
                && o.Rec() == old(o.Rec()).WithFilled(newFilled) && ov == old(ov)[o := o.Rec()]
                && lv == old(lv)[l := old(lv)[l].(volume := l.volume)]
                && Now().Queues(o.side) == s.Queues(o.side)[o.price := s.Queue(l)[i := o.Rec()]]
                && Now().Queues(Opposite(o.side)) == s.Queues(Opposite(o.side))
    {
      hide Shape.Ok, Shape.Queues, Shape.Queue, Mirrored, OrderRec.WithFilled;
      if id !in index { return 0; }
      Found(Now(), id, ex, stale);
      i := Refill(index[id], newFilled, ex, stale);
    }

    method Refill(loc: Location, newFilled: Decimal, ghost ex: Order?, ghost stale: bool) returns (ghost i: nat)
      requires Inv(ex, stale) && (ex == null || loc.element == ex)
      requires loc.element.id in index && index[loc.element.id] == loc
      modifies this`lv, this`ov, loc.level, loc.element
      ensures var o, l, s := loc.element, loc.level, old(Now());
              && Inv(o, false) && LinkedAt(s, o, l, i)
              && o.Rec() == old(o.Rec()).WithFilled(newFilled) && ov == old(ov)[o := o.Rec()]
              && lv == old(lv)[l := old(lv)[l].(volume := l.volume)]
              && Now().Queues(o.side) == s.Queues(o.side)[o.price := s.Queue(l)[i := o.Rec()]]
              && Now().Queues(Opposite(o.side)) == s.Queues(Opposite(o.side))
    {
      hide Shape.Ok, Shape.Queues, Shape.Queue, Mirrored, OrderRec.WithFilled;
      ghost var s := Now();
      Found(s, loc.element.id, ex, stale);
      i :| 0 <= i < |lv[loc.level].orders| && lv[loc.level].orders[i] == loc.element;
      Restate(loc, newFilled, i, ex, stale);
      Revolume(loc, i);
    }

    method Restate(loc: Location, newFilled: Decimal, ghost i: nat, ghost ex: Order?, ghost stale: bool)
      requires Inv(ex, stale) && (ex == null || loc.element == ex)
      requires loc.element.id in index && index[loc.element.id] == loc
      requires LinkedAt(Now(), loc.element, loc.level, i)
      modifies this`ov, loc.element
      ensures var o, l, s := loc.element, loc.level, old(Now());
              && Inv(o, true) && LinkedAt(Now(), o, l, i)
              && o.Rec() == old(o.Rec()).WithFilled(newFilled) && ov == old(ov)[o := o.Rec()]
              && Now().Queues(o.side) == s.Queues(o.side)[o.price := s.Queue(l)[i := o.Rec()]]
              && Now().Queues(Opposite(o.side)) == s.Queues(Opposite(o.side))
    {
      hide Shape.Ok, Shape.Queues, Shape.Queue, OrderRec.WithFilled;
      ghost var s := Now();
      loc.element.SetFilled(newFilled);
      RefillOk(s, loc.element, loc.element.Rec(), loc.level, i, ex, stale);
      ov := ov[loc.element := loc.element.Rec()];
      assert Now() == Refilled(s, loc.element, loc.element.Rec());
    }

    method Revolume(loc: Location, ghost i: nat)
      requires Inv(loc.element, true) && LinkedAt(Now(), loc.element, loc.level, i)
      requires loc.element.id in index && index[loc.element.id] == loc
      modifies this`lv, this`ov, loc.level
      ensures Inv(loc.element, false) && ov == old(ov)
      ensures lv == old(lv)[loc.level := old(lv)[loc.level].(volume := loc.level.volume)]
      ensures Now().Queues(loc.element.side) == old(Now()).Queues(loc.element.side)
      ensures Now().Queues(Opposite(loc.element.side)) == old(Now()).Queues(Opposite(loc.element.side))
    {
      hide Shape.Ok, Shape.Queues, Shape.Queue, SumRemaining;
      var l := loc.level;
      ghost var s := Now();
      OrdersHere(s, loc.element, l, i);
      RevolumeOk(s, loc.element, l, i);
      Measure(l);
      ghost var s' := Revolumed(s, l, SumRemaining(s.Queue(l)));
      assert Holds(s');
      hide Holds;
      Sync(s', loc.element, false);
    }

    /** Recomputes the volume of a level from the values of its orders. */
    method Measure(l: PriceLevel)
      requires Mirrored() && l in lv && forall j :: 0 <= j < |lv[l].orders| ==> lv[l].orders[j] in ov
      modifies l
      ensures l.orders == old(l.orders) && l.volume == SumRemaining(Now().Queue(l))
    {
      QueueIs(l);
      l.UpdateVolume();
    }

    lemma ShownBy(o: Order)
      requires Mirrored() && o in ov
      ensures o.Rec() == ov[o]
    {
    }

    lemma LevelShown(l: PriceLevel)
      requires Mirrored() && l in lv
      ensures l.orders == lv[l].orders && l.volume == lv[l].volume
    {
    }

    /** The mirror gives the values of a level's orders. */
    lemma QueueIs(l: PriceLevel)
      requires l in lv && l.orders == lv[l].orders
      requires forall i :: 0 <= i < |l.orders| ==> l.orders[i] in ov && l.orders[i].Rec() == ov[l.orders[i]]
      ensures Recs(l.orders) == Now().Queue(l)
    {
    }

    /** Removes the best level of a side with all its orders. */
    method PopBestLevel(side: OrderSide) returns (l: PriceLevel?)
      requires Valid() && (side == Buy || side == Sell)
      modifies this, bids, asks
      ensures Valid() && bids == old(bids) && asks == old(asks)
      ensures l == null <==> old(Flat(side)) == []
      ensures l == null ==> Now() == old(Now())
      ensures l != null ==>
                && l in old(lv) && Recs(l.orders) == old(Now()).Queue(l)
                && old(Flat(side)) == Recs(l.orders) + Flat(side)
                && Flat(Opposite(side)) == old(Flat(Opposite(side)))
                && index == Popped(old(Now()), side, l).index
    {
      hide Shape.Ok, Shape.Queues, Flatten, Mirrored, Popped, Recs, Shape.Queue;
      ghost var s := Now();
      l := GetBest(side);
      if l == null {
        NoQueues(s, side);
        return;
      }
      LevelHere(s, side, l.price);
      PopFlat(s, side, l);
      QueueShown(side, l);
      Drop(side, l);
    }

    /** Forgets a level and its orders. */
    method Drop(side: OrderSide, l: PriceLevel)
      requires Valid() && (side == Buy || side == Sell)
      requires l in lv && l.price in Now().Tree(side) && Now().Tree(side)[l.price] == l
      modifies this, bids, asks
      ensures Valid() && bids == old(bids) && asks == old(asks)
      ensures Now() == Popped(old(Now()), side, l)
      ensures Now().Queues(side) == old(Now().Queues(side)) - {l.price}
      ensures Now().Queues(Opposite(side)) == old(Now().Queues(Opposite(side)))
    {
      hide Shape.Ok, Shape.Queues;
      ghost var s := Now();
      PopOk(s, side, l);
      Evict(side, l);
      RemoveIds(s, side, l);
      assert Holds(Popped(s, side, l));
      hide Holds, Mirrored;
      Sync(Popped(s, side, l), null, false);
    }

    method Evict(side: OrderSide, l: PriceLevel)
      requires bids != asks && (side == Buy || side == Sell)
      modifies this`index, bids, asks
      ensures index == old(index) - IdSet(l.orders)
      ensures Now().Tree(side) == old(Now().Tree(side)) - {l.price}
      ensures Now().Tree(Opposite(side)) == old(Now().Tree(Opposite(side)))
    {
      var k := 0;
      while k < |l.orders|
        modifies this`index
        invariant 0 <= k <= |l.orders|
        invariant index == old(index) - IdSet(l.orders[..k])
      {
        index := index - {l.orders[k].id};
        assert l.orders[..k + 1] == l.orders[..k] + [l.orders[k]];
        k := k + 1;
      }
      assert l.orders[..k] == l.orders;
      var tree := if side == Buy then bids else asks;
      tree.RemovePriceLevel(l.price);
    }

    method Clear()
      modifies this
      ensures Valid() && fresh(bids) && fresh(asks)
      ensures index == map[] && Flat(Buy) == [] && Flat(Sell) == []
    {
      bids := new OrderBookSide();
      asks := new OrderBookSide();
      index, lv, ov := map[], map[], map[];
      NoQueues(Now(), Buy);
      NoQueues(Now(), Sell);
    }

    lemma QueueShown(side: OrderSide, l: PriceLevel)
      requires Valid() && (side == Buy || side == Sell)
      requires l.price in Now().Tree(side) && Now().Tree(side)[l.price] == l
      ensures l in lv && l.orders == lv[l].orders && Recs(l.orders) == Now().Queue(l)
      ensures l.volume == SumRemaining(Now().Queue(l))
    {
      LevelOf(Now(), side, l.price, null, false);
      forall i | 0 <= i < |l.orders| ensures l.orders[i] in ov && l.orders[i].Rec() == ov[l.orders[i]] {
        assert Now().ElementOk(side, l, lv[l].orders[i], null);
      }
      QueueIs(l);
    }

    /** A level's cached volume and length are those of its queue. */
    lemma LevelTotals(side: OrderSide, p: Decimal)
      requires Valid() && (side == Buy || side == Sell) && p in Now().Tree(side)
      ensures p in Now().Queues(side)
      ensures Now().Tree(side)[p].volume == SumRemaining(Now().Queues(side)[p])
      ensures |Now().Tree(side)[p].orders| == |Now().Queues(side)[p]|
    {
      hide Shape.Ok, Mirrored, SumRemaining, Recs;
      LevelHere(Now(), side, p);
      QueueShown(side, Now().Tree(side)[p]);
    }

    /** Adds up the cached volumes of a side, walking its tree in either direction. */
    method SideVolume(side: OrderSide, direction: OrderSide) returns (v: Decimal)
      requires Valid() && (side == Buy || side == Sell)
      ensures v == SumRemaining(Flat(side))
    {
      hide Shape.Ok, Mirrored, Flatten, Shape.Queues, SumAlong, PriceOrder, SumRemaining;
      var tree := if side == Buy then bids else asks;
      var ls := tree.Walk(direction);
      ghost var m, ps := Now().Queues(side), PriceOrder(tree.tree.Keys, direction);
      QueueKeys(Now(), side);
      SumAlongEnds(m, ps);
      v := 0.0;
      for i := 0 to |ls|
        invariant v + SumAlong(m, ps[i..]) == SumAlong(m, ps)
      {
        LevelTotals(side, ps[i]);
        SumAlongStep(m, ps, i);
        v := v + ls[i].volume;
      }
      SumAnyOrder(m, m.Keys, direction, side);
      FlattenSums(m, side);
    }

    /** Total volume on each side; both trees are walked in ascending order. */
    method GetDepth() returns (bidVolume: Decimal, askVolume: Decimal)
      requires Valid()
      ensures bidVolume == SumRemaining(Flat(Buy)) && askVolume == SumRemaining(Flat(Sell))
    {
      bidVolume := SideVolume(Buy, Sell);
      askVolume := SideVolume(Sell, Sell);
    }

    /** Number of orders on a side. */
    method SideDepth(side: OrderSide) returns (n: nat)
      requires Valid() && (side == Buy || side == Sell)
      ensures n == |Flat(side)|
    {
      hide Shape.Ok, Mirrored, Flatten, Shape.Queues, CountAlong, PriceOrder;
      var tree := if side == Buy then bids else asks;
      var ls := tree.Walk(side);
      ghost var m, ps := Now().Queues(side), PriceOrder(tree.tree.Keys, side);
      QueueKeys(Now(), side);
      SumAlongEnds(m, ps);
      n := 0;
      for i := 0 to |ls|
        invariant n + CountAlong(m, ps[i..]) == CountAlong(m, ps)
      {
        LevelTotals(side, ps[i]);
        SumAlongStep(m, ps, i);
        n := n + |ls[i].orders|;
      }
      FlattenSums(m, side);
    }

    /** The best levels of a side, at most `n`. */
    method TopLevels(side: OrderSide, n: nat) returns (top: seq<PriceLevel>)
      requires Valid() && (side == Buy || side == Sell)
      ensures var ps := PriceOrder(Now().Tree(side).Keys, side);
              && |top| == (if n <= |ps| then n else |ps|)
              && forall i :: 0 <= i < |top| ==> ps[i] in Now().Tree(side) && top[i] == Now().Tree(side)[ps[i]]
    {
      var tree := if side == Buy then bids else asks;
      var ls := tree.Walk(side);
      top := [];
      var count := 0;
      while count < |ls| && count < n
        invariant 0 <= count <= |ls| && count <= n && top == ls[..count]
      {
        top := top + [ls[count]];
        count := count + 1;
      }
    }

    /** Number of orders in the book. */
    method Size() returns (n: nat)
      requires Valid()
      ensures n == |Flat(Buy)| + |Flat(Sell)|
    {
      n := |index|;
      IndexCounts(Now());
    }
  }
}
