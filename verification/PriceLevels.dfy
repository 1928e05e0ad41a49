/** Price levels and the tree of one side (engine/orderbook.go).

    A level is a first-in-first-out list of shared orders with a cached volume; a list element is
    named by the order it holds.  The tree is an ordered map from price to level.
 */
module PriceLevels {
  import opened Orders
  import opened PriceTime

  /** The current values of a list of orders. */
  ghost function Recs(os: seq<Order>): (rs: seq<OrderRec>)
    reads os
    ensures |rs| == |os| && forall i :: 0 <= i < |os| ==> rs[i] == os[i].Rec()
  {
    if os == [] then [] else [os[0].Rec()] + Recs(os[1..])
  }

  class PriceLevel {
    const price: Decimal
    var orders: seq<Order>
    var volume: Decimal

    constructor (price: Decimal)
      ensures this.price == price && orders == [] && volume == 0.0
    {
      this.price, orders, volume := price, [], 0.0;
    }

    method AddOrder(o: Order)
      modifies this
      ensures orders == old(orders) + [o]
      ensures volume == old(volume) + o.Rec().Remaining()
    {
      orders := orders + [o];
      volume := volume + o.Rec().Remaining();
    }

    method RemoveOrder(o: Order) returns (ghost i: nat)
      requires o in orders
      modifies this
      ensures i < |old(orders)| && old(orders)[i] == o && o !in old(orders)[..i]
      ensures orders == DropAt(old(orders), i)
      ensures volume == old(volume) - o.Rec().Remaining()
    {
      volume := volume - o.Rec().Remaining();
      var k := 0;
      while orders[k] != o
        invariant 0 <= k < |orders| && o !in orders[..k]
        decreases |orders| - k
      {
        k := k + 1;
      }
      orders := DropAt(orders, k);
      i := k;
    }

    /** Recomputes the cached volume from the queue. */
    method UpdateVolume()
      modifies this
      ensures orders == old(orders)
      ensures volume == SumRemaining(Recs(orders))
    {
      volume := 0.0;
      var k := 0;
      while k < |orders|
        invariant 0 <= k <= |orders| && orders == old(orders)
        invariant volume + SumRemaining(Recs(orders)[k..]) == SumRemaining(Recs(orders))
      {
        volume := volume + orders[k].Rec().Remaining();
        assert Recs(orders)[k..][1..] == Recs(orders)[k + 1..];
        k := k + 1;
      }
    }

    predicate IsEmpty()
      reads this
    {
      orders == []
    }

    method Front() returns (o: Order?)
      ensures orders == [] ==> o == null
      ensures orders != [] ==> o == orders[0]
    {
      if orders == [] { return null; }
      return orders[0];
    }

    /** The successor of a list element; an element that was unlinked has none. */
    method Next(o: Order) returns (next: Order?)
      ensures o !in orders ==> next == null
      ensures forall i :: 0 <= i < |orders| && orders[i] == o && o !in orders[..i] ==>
                next == (if i + 1 < |orders| then orders[i + 1] else null)
      ensures orders != [] && orders[0] == o ==> next == (if 1 < |orders| then orders[1] else null)
    {
      var k := 0;
      while k < |orders|
        invariant 0 <= k <= |orders| && o !in orders[..k]
      {
        if orders[k] == o {
          if k + 1 < |orders| { return orders[k + 1]; }
          return null;
        }
        k := k + 1;
      }
      return null;
    }
  }

  class OrderBookSide {
    var tree: map<Decimal, PriceLevel>

    constructor ()
      ensures tree == map[]
    {
      tree := map[];
    }

    method GetOrCreatePriceLevel(price: Decimal) returns (l: PriceLevel)
      requires price in tree ==> tree[price].price == price
      modifies this
      ensures l.price == price
      ensures tree == old(tree)[price := l]
      ensures price in old(tree) ==> l == old(tree)[price]
      ensures price !in old(tree) ==> fresh(l) && l.orders == [] && l.volume == 0.0
    {
      if price in tree {
        l := tree[price];
      } else {
        l := new PriceLevel(price);
        tree := tree[price := l];
      }
    }

    method RemovePriceLevel(price: Decimal)
      modifies this
      ensures tree == old(tree) - {price}
    {
      tree := tree - {price};
    }

    /** The tree's maximum for bids, its minimum for asks. */
    method GetBestPrice(side: OrderSide) returns (l: PriceLevel?)
      ensures l == null <==> tree == map[]
      ensures l != null ==> exists p :: IsBest(tree.Keys, side, p) && l == tree[p]
    {
      if tree == map[] { return null; }
      ghost var w := BestExists(tree.Keys, side);
      var p :| p in tree.Keys && forall q :: q in tree.Keys ==> AtLeastAsGood(side, p, q);
      assert IsBest(tree.Keys, side, p);
      l := tree[p];
    }

    /** Puts an order at the end of the queue of its price, creating the level if need be. */
    method Enqueue(o: Order) returns (l: PriceLevel)
      requires o.price in tree ==> tree[o.price].price == o.price
      modifies this, if o.price in tree then {tree[o.price]} else {}
      ensures l.price == o.price
      ensures tree == old(tree)[o.price := l]
      ensures if o.price in old(tree) then l == old(tree)[o.price] else fresh(l)
      ensures l.orders == (if o.price in old(tree) then old(l.orders) else []) + [o]
      ensures l.volume == (if o.price in old(tree) then old(l.volume) else 0.0) + o.Rec().Remaining()
    {
      l := GetOrCreatePriceLevel(o.price);
      l.AddOrder(o);
    }

    /** Walks the tree: descending for bids, ascending for asks. */
    method Walk(side: OrderSide) returns (ls: seq<PriceLevel>)
      ensures |ls| == |PriceOrder(tree.Keys, side)|
      ensures forall i :: 0 <= i < |ls| ==>
                PriceOrder(tree.Keys, side)[i] in tree && ls[i] == tree[PriceOrder(tree.Keys, side)[i]]
    {
      ls := [];
      var left := tree.Keys;
      ghost var order := PriceOrder(tree.Keys, side);
      ghost var ps: seq<Decimal> := [];
      while left != {}
        invariant left <= tree.Keys && |ps| == |ls|
        invariant order == ps + PriceOrder(left, side)
        invariant forall i :: 0 <= i < |ls| ==> ps[i] in tree && ls[i] == tree[ps[i]]
        decreases |left|
      {
        ghost var w := BestExists(left, side);
        var p :| p in left && forall q :: q in left ==> AtLeastAsGood(side, p, q);
        assert IsBest(left, side, p) && Best(left, side) == p;
        ls, ps, left := ls + [tree[p]], ps + [p], left - {p};
      }
      assert order == ps;
    }
  }
}
