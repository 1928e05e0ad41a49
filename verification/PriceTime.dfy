/** One side of the book as values: price levels with first-in-first-out queues, and the single
    list in price-time priority order that they flatten to.

    The tree of price levels is an ordered map.  `PriceOrder` lists its keys from best to worst;
    for bids that is the tree's descending order, for asks its ascending order.
 */
module PriceTime {
  import opened Orders

  /** Price level to queue, the oldest order first. */
  type Queues = map<Decimal, seq<OrderRec>>

  /** On resting side `side`, a counterparty prefers price `p` to price `q`, or does not care. */
  predicate AtLeastAsGood(side: OrderSide, p: Decimal, q: Decimal) {
    if side == Buy then p >= q else p <= q
  }

  predicate Better(side: OrderSide, p: Decimal, q: Decimal) {
    if side == Buy then p > q else p < q
  }

  ghost predicate IsBest(ps: set<Decimal>, side: OrderSide, p: Decimal) {
    p in ps && forall q :: q in ps ==> AtLeastAsGood(side, p, q)
  }

  lemma PickFrom<T>(s: set<T>) returns (x: T)
    requires s != {}
    ensures x in s
  {
    x :| x in s;
  }

  lemma {:induction false} BestExists(ps: set<Decimal>, side: OrderSide) returns (p: Decimal)
    requires ps != {}
    ensures IsBest(ps, side, p)
    decreases |ps|
  {
    p := PickFrom(ps);
    if ps != {p} {
      var rest := ps - {p};
      assert ps == rest + {p};
      var q := BestExists(rest, side);
      if AtLeastAsGood(side, q, p) {
        p := q;
      }
    }
  }

  /** The best price: the tree's maximum for bids, its minimum for asks. */
  ghost function Best(ps: set<Decimal>, side: OrderSide): (p: Decimal)
    requires ps != {}
    ensures IsBest(ps, side, p)
  {
    var w := BestWitness(ps, side);
    var p :| IsBest(ps, side, p);
    p
  }

  ghost function BestWitness(ps: set<Decimal>, side: OrderSide): (b: bool)
    requires ps != {}
    ensures exists p :: IsBest(ps, side, p)
  {
    assert exists p :: IsBest(ps, side, p) by {
      var p := BestExists(ps, side);
    }
    true
  }

  /** The keys of a tree, best price first. */
  ghost function PriceOrder(ps: set<Decimal>, side: OrderSide): seq<Decimal>
    decreases |ps|
  {
    if ps == {} then [] else
    var p := Best(ps, side);
    [p] + PriceOrder(ps - {p}, side)
  }

  /** The orders of one side in price-time priority. */
  ghost function Flatten(m: Queues, side: OrderSide): seq<OrderRec>
    decreases |m.Keys|
  {
    if m.Keys == {} then [] else
    var p := Best(m.Keys, side);
    assert (m - {p}).Keys == m.Keys - {p};
    m[p] + Flatten(m - {p}, side)
  }

  ghost predicate QueuesOk(m: Queues, side: OrderSide) {
    forall p :: p in m ==> QueueOk(m[p], side, p)
  }

  ghost predicate QueueOk(q: seq<OrderRec>, side: OrderSide, p: Decimal) {
    q != [] && forall i :: 0 <= i < |q| ==> q[i].price == p && q[i].side == side
  }

  // Reference operations on the flat list.

  /** Behind every order that is at least as good: last in its own price level. */
  function Insert(xs: seq<OrderRec>, o: OrderRec): seq<OrderRec> {
    if xs == [] then [o]
    else if AtLeastAsGood(o.side, xs[0].price, o.price) then [xs[0]] + Insert(xs[1..], o)
    else [o] + xs
  }

  function Without(xs: seq<OrderRec>, id: Id): seq<OrderRec> {
    if xs == [] then []
    else if xs[0].id == id then xs[1..]
    else [xs[0]] + Without(xs[1..], id)
  }

  predicate HasId(xs: seq<OrderRec>, id: Id) {
    exists i :: 0 <= i < |xs| && xs[i].id == id
  }

  /** All orders are of instrument `ins`. */
  ghost predicate AllOf(xs: seq<OrderRec>, ins: string) {
    forall i :: 0 <= i < |xs| ==> xs[i].instrument == ins
  }

  function SumRemaining(xs: seq<OrderRec>): Decimal {
    if xs == [] then 0.0 else xs[0].Remaining() + SumRemaining(xs[1..])
  }

  // The same operations on the levels.

  /** Append to the level of the order's price, creating it if need be. */
  function AddTo(m: Queues, o: OrderRec): Queues {
    m[o.price := (if o.price in m then m[o.price] else []) + [o]]
  }

  /** Replace the queue at `p`, dropping the level when the queue is empty. */
  function SetQueue(m: Queues, p: Decimal, q: seq<OrderRec>): Queues {
    if q == [] then m - {p} else m[p := q]
  }

  // Lemmas.

  lemma FlattenAt(m: Queues, side: OrderSide, p: Decimal)
    requires IsBest(m.Keys, side, p)
    ensures Flatten(m, side) == m[p] + Flatten(m - {p}, side)
  {
    assert Best(m.Keys, side) == p;
  }

  /** Replacing the queue of the best level replaces a prefix of the list. */
  lemma FlattenSetBest(m: Queues, side: OrderSide, p: Decimal, q: seq<OrderRec>)
    requires IsBest(m.Keys, side, p)
    ensures Flatten(SetQueue(m, p, q), side) == q + Flatten(m - {p}, side)
  {
    if q == [] {
      assert q + Flatten(m - {p}, side) == Flatten(m - {p}, side);
    } else {
      var m' := m[p := q];
      assert m'.Keys == m.Keys;
      FlattenAt(m', side, p);
      assert m' - {p} == m - {p};
    }
  }

  lemma {:induction false} InsertSkips(a: seq<OrderRec>, b: seq<OrderRec>, o: OrderRec)
    requires forall i :: 0 <= i < |a| ==> AtLeastAsGood(o.side, a[i].price, o.price)
    ensures Insert(a + b, o) == a + Insert(b, o)
  {
    if a == [] {
      assert a + b == b;
      assert a + Insert(b, o) == Insert(b, o);
    } else {
      InsertSkips(a[1..], b, o);
      assert (a + b)[1..] == a[1..] + b;
      assert a == [a[0]] + a[1..];
    }
  }

  /** Every listed order is in the queue of its price. */
  lemma {:induction false} FlattenMember(m: Queues, side: OrderSide, k: nat)
    requires QueuesOk(m, side) && k < |Flatten(m, side)|
    ensures var r := Flatten(m, side)[k]; r.price in m && r in m[r.price] && r.side == side
    decreases |m.Keys|
  {
    var p := Best(m.Keys, side);
    var rest := m - {p};
    assert rest.Keys == m.Keys - {p};
    if k >= |m[p]| {
      FlattenMember(rest, side, k - |m[p]|);
    }
  }

  /** Appending to a level is priority insertion into the list. */
  lemma {:induction false} FlattenAdd(m: Queues, side: OrderSide, o: OrderRec)
    requires QueuesOk(m, side) && o.side == side
    ensures Flatten(AddTo(m, o), side) == Insert(Flatten(m, side), o)
    decreases |m.Keys|
  {
    if m.Keys == {} || !AtLeastAsGood(side, Best(m.Keys, side), o.price) {
      FlattenAddFront(m, side, o);
    } else if Best(m.Keys, side) == o.price {
      FlattenAddBest(m, side, o);
    } else {
      var p := Best(m.Keys, side);
      var rest := m - {p};
      assert rest.Keys == m.Keys - {p};
      FlattenAdd(rest, side, o);
      InsertSkips(m[p], Flatten(rest, side), o);
      FlattenAddLater(m, side, o);
    }
  }

  lemma FlattenAddFront(m: Queues, side: OrderSide, o: OrderRec)
    requires QueuesOk(m, side) && o.side == side
    requires forall p :: p in m ==> Better(side, o.price, p)
    ensures Flatten(AddTo(m, o), side) == Insert(Flatten(m, side), o)
  {
    assert IsBest(AddTo(m, o).Keys, side, o.price);
    FlattenAt(AddTo(m, o), side, o.price);
    assert AddTo(m, o) - {o.price} == m;
    InsertBeforeWorse(m, side, o);
  }

  lemma FlattenAddBest(m: Queues, side: OrderSide, o: OrderRec)
    requires QueuesOk(m, side) && o.side == side
    requires IsBest(m.Keys, side, o.price)
    ensures Flatten(AddTo(m, o), side) == Insert(Flatten(m, side), o)
  {
    hide Flatten;
    var rest := m - {o.price};
    FlattenSetBest(m, side, o.price, m[o.price] + [o]);
    FlattenAt(m, side, o.price);
    InsertSkips(m[o.price], Flatten(rest, side), o);
    InsertBeforeWorse(rest, side, o);
    assert m[o.price] + [o] + Flatten(rest, side) == m[o.price] + ([o] + Flatten(rest, side));
  }

  lemma FlattenAddLater(m: Queues, side: OrderSide, o: OrderRec)
    requires m.Keys != {} && Better(side, Best(m.Keys, side), o.price)
    ensures var p := Best(m.Keys, side);
            Flatten(AddTo(m, o), side) == m[p] + Flatten(AddTo(m - {p}, o), side)
  {
    var p := Best(m.Keys, side);
    var m' := AddTo(m, o);
    assert m'.Keys == m.Keys + {o.price};
    FlattenAt(m', side, p);
    assert m' - {p} == AddTo(m - {p}, o);
  }

  lemma InsertBeforeWorse(m: Queues, side: OrderSide, o: OrderRec)
    requires QueuesOk(m, side) && o.side == side
    requires forall p :: p in m ==> Better(side, o.price, p)
    ensures Insert(Flatten(m, side), o) == [o] + Flatten(m, side)
  {
    if Flatten(m, side) != [] {
      FlattenMember(m, side, 0);
    }
  }

  lemma {:induction false} WithoutSkips(a: seq<OrderRec>, b: seq<OrderRec>, id: Id)
    requires !HasId(a, id)
    ensures Without(a + b, id) == a + Without(b, id)
  {
    if a == [] {
      assert a + b == b;
      assert a + Without(b, id) == Without(b, id);
    } else {
      assert a[0].id != id;
      assert forall i :: 0 <= i < |a[1..]| ==> a[1..][i] == a[i + 1];
      WithoutSkips(a[1..], b, id);
      assert (a + b)[1..] == a[1..] + b;
      assert a == [a[0]] + a[1..];
    }
  }

  lemma WithoutAt(xs: seq<OrderRec>, i: nat)
    requires i < |xs| && !HasId(xs[..i], xs[i].id)
    ensures Without(xs, xs[i].id) == xs[..i] + xs[i + 1..]
  {
    assert xs == xs[..i] + xs[i..];
    WithoutSkips(xs[..i], xs[i..], xs[i].id);
  }

  /** The order at position `i` of level `p` is the only one with its id. */
  ghost predicate OnlyAt(m: Queues, p: Decimal, i: nat) {
    && p in m && i < |m[p]|
    && forall q, j :: q in m && 0 <= j < |m[q]| && m[q][j].id == m[p][i].id ==> q == p && j == i
  }

  function DropAt<T>(xs: seq<T>, i: nat): seq<T>
    requires i < |xs|
  {
    xs[..i] + xs[i + 1..]
  }

  /** Unlinking the `i`-th order of level `p` is removal of its id from the list. */
  lemma {:induction false} FlattenRemove(m: Queues, side: OrderSide, p: Decimal, i: nat)
    requires OnlyAt(m, p, i)
    ensures Flatten(SetQueue(m, p, DropAt(m[p], i)), side) == Without(Flatten(m, side), m[p][i].id)
    decreases |m.Keys|
  {
    var best := Best(m.Keys, side);
    if best == p {
      FlattenRemoveBest(m, side, p, i);
    } else {
      var rest := m - {best};
      assert rest.Keys == m.Keys - {best};
      FlattenRemove(rest, side, p, i);
      FlattenSetLater(m, side, p, DropAt(m[p], i));
      assert !HasId(m[best], m[p][i].id);
      WithoutSkips(m[best], Flatten(rest, side), m[p][i].id);
    }
  }

  lemma FlattenRemoveBest(m: Queues, side: OrderSide, p: Decimal, i: nat)
    requires OnlyAt(m, p, i) && IsBest(m.Keys, side, p)
    ensures Flatten(SetQueue(m, p, DropAt(m[p], i)), side) == Without(Flatten(m, side), m[p][i].id)
  {
    FlattenSetBest(m, side, p, DropAt(m[p], i));
    FlattenAt(m, side, p);
    assert !HasId(m[p][..i], m[p][i].id);
    WithoutInFront(m[p], Flatten(m - {p}, side), i);
  }

  lemma WithoutInFront(a: seq<OrderRec>, b: seq<OrderRec>, i: nat)
    requires i < |a| && !HasId(a[..i], a[i].id)
    ensures Without(a + b, a[i].id) == DropAt(a, i) + b
  {
    assert (a + b)[..i] == a[..i];
    WithoutAt(a + b, i);
    assert (a + b)[i + 1..] == a[i + 1..] + b;
  }

  lemma FlattenSetLater(m: Queues, side: OrderSide, p: Decimal, q: seq<OrderRec>)
    requires p in m && !IsBest(m.Keys, side, p)
    ensures var best := Best(m.Keys, side);
            Flatten(SetQueue(m, p, q), side) == m[best] + Flatten(SetQueue(m - {best}, p, q), side)
  {
    var best := Best(m.Keys, side);
    var m' := SetQueue(m, p, q);
    assert m'.Keys == m.Keys || m'.Keys == m.Keys - {p};
    FlattenAt(m', side, best);
    assert m' - {best} == SetQueue(m - {best}, p, q);
  }

  /** Every queued order is listed. */
  lemma {:induction false} FlattenContains(m: Queues, side: OrderSide, p: Decimal, i: nat)
    requires p in m && i < |m[p]|
    ensures m[p][i] in Flatten(m, side)
    decreases |m.Keys|
  {
    var best := Best(m.Keys, side);
    var rest := m - {best};
    assert rest.Keys == m.Keys - {best};
    if best == p {
      assert Flatten(m, side)[i] == m[p][i];
    } else {
      FlattenContains(rest, side, p, i);
      var k :| 0 <= k < |Flatten(rest, side)| && Flatten(rest, side)[k] == m[p][i];
      assert Flatten(m, side)[|m[best]| + k] == m[p][i];
    }
  }

  // A list determines its levels.

  /** The orders of one price, in list order. */
  function AtPrice(xs: seq<OrderRec>, p: Decimal): seq<OrderRec> {
    if xs == [] then [] else (if xs[0].price == p then [xs[0]] else []) + AtPrice(xs[1..], p)
  }

  function Prices(xs: seq<OrderRec>): set<Decimal> {
    set i | 0 <= i < |xs| :: xs[i].price
  }

  /** The levels of a list: at each price its orders, in list order. */
  function Levels(xs: seq<OrderRec>): Queues {
    map p | p in Prices(xs) :: AtPrice(xs, p)
  }

  lemma {:induction false} AtPriceConcat(a: seq<OrderRec>, b: seq<OrderRec>, p: Decimal)
    ensures AtPrice(a + b, p) == AtPrice(a, p) + AtPrice(b, p)
  {
    if a == [] {
      assert a + b == b;
    } else {
      assert (a + b)[1..] == a[1..] + b;
      AtPriceConcat(a[1..], b, p);
      var first := if a[0].price == p then [a[0]] else [];
      assert first + (AtPrice(a[1..], p) + AtPrice(b, p)) == (first + AtPrice(a[1..], p)) + AtPrice(b, p);
    }
  }

  lemma {:induction false} AtOnePrice(q: seq<OrderRec>, p: Decimal, price: Decimal)
    requires forall i :: 0 <= i < |q| ==> q[i].price == price
    ensures AtPrice(q, p) == if p == price then q else []
  {
    if q != [] {
      AtOnePrice(q[1..], p, price);
      assert q == [q[0]] + q[1..];
    }
  }

  /** A level is what its price filters from the list. */
  lemma {:induction false} LevelFiltered(m: Queues, side: OrderSide, p: Decimal)
    requires QueuesOk(m, side)
    ensures AtPrice(Flatten(m, side), p) == if p in m then m[p] else []
    decreases |m.Keys|
  {
    if m.Keys != {} {
      var best := Best(m.Keys, side);
      var rest := m - {best};
      assert rest.Keys == m.Keys - {best};
      LevelFiltered(rest, side, p);
      AtPriceConcat(m[best], Flatten(rest, side), p);
      AtOnePrice(m[best], p, best);
    }
  }

  /** The levels can be read back from the list: two books with the same list have the same levels. */
  lemma LevelsOfList(m: Queues, side: OrderSide)
    requires QueuesOk(m, side)
    ensures Levels(Flatten(m, side)) == m && Prices(Flatten(m, side)) == m.Keys
  {
    var xs := Flatten(m, side);
    forall p ensures p in Prices(xs) <==> p in m {
      if p in m {
        FlattenContains(m, side, p, 0);
        var k :| 0 <= k < |xs| && xs[k] == m[p][0];
        assert xs[k].price in Prices(xs);
      }
      if p in Prices(xs) {
        var k :| 0 <= k < |xs| && xs[k].price == p;
        FlattenMember(m, side, k);
      }
    }
    assert Levels(xs).Keys == m.Keys;
    forall p | p in m ensures Levels(xs)[p] == m[p] {
      LevelFiltered(m, side, p);
    }
  }

  // Totals over levels.

  function SumAlong(m: Queues, ps: seq<Decimal>): Decimal {
    if ps == [] then 0.0
    else (if ps[0] in m then SumRemaining(m[ps[0]]) else 0.0) + SumAlong(m, ps[1..])
  }

  function CountAlong(m: Queues, ps: seq<Decimal>): nat {
    if ps == [] then 0 else (if ps[0] in m then |m[ps[0]]| else 0) + CountAlong(m, ps[1..])
  }

  lemma SumAlongStep(m: Queues, ps: seq<Decimal>, i: nat)
    requires i < |ps| && ps[i] in m
    ensures SumAlong(m, ps[i..]) == SumRemaining(m[ps[i]]) + SumAlong(m, ps[i + 1..])
    ensures CountAlong(m, ps[i..]) == |m[ps[i]]| + CountAlong(m, ps[i + 1..])
  {
    assert ps[i..][1..] == ps[i + 1..];
  }

  lemma SumAlongEnds(m: Queues, ps: seq<Decimal>)
    ensures ps[0..] == ps && SumAlong(m, ps[|ps|..]) == 0.0 && CountAlong(m, ps[|ps|..]) == 0
  {
  }

  lemma {:induction false} SumRemainingConcat(a: seq<OrderRec>, b: seq<OrderRec>)
    ensures SumRemaining(a + b) == SumRemaining(a) + SumRemaining(b)
  {
    if a == [] {
      assert a + b == b;
    } else {
      SumRemainingConcat(a[1..], b);
      assert (a + b)[1..] == a[1..] + b;
    }
  }

  lemma {:induction false} SumAlongWithout(m: Queues, p: Decimal, ps: seq<Decimal>)
    requires p !in ps
    ensures SumAlong(m - {p}, ps) == SumAlong(m, ps) && CountAlong(m - {p}, ps) == CountAlong(m, ps)
  {
    if ps != [] {
      SumAlongWithout(m, p, ps[1..]);
    }
  }

  lemma {:induction false} PriceOrderKeys(ps: set<Decimal>, side: OrderSide)
    ensures forall p :: p in PriceOrder(ps, side) <==> p in ps
    ensures |PriceOrder(ps, side)| == |ps|
    decreases |ps|
  {
    if ps != {} {
      PriceOrderKeys(ps - {Best(ps, side)}, side);
    }
  }

  /** The list has the total and the size of its levels, taken from best to worst. */
  lemma {:induction false} FlattenSums(m: Queues, side: OrderSide)
    ensures SumRemaining(Flatten(m, side)) == SumAlong(m, PriceOrder(m.Keys, side))
    ensures |Flatten(m, side)| == CountAlong(m, PriceOrder(m.Keys, side))
    decreases |m.Keys|
  {
    if m.Keys != {} {
      var p := Best(m.Keys, side);
      var rest := m - {p};
      assert rest.Keys == m.Keys - {p};
      FlattenSums(rest, side);
      SumRemainingConcat(m[p], Flatten(rest, side));
      var ps := PriceOrder(rest.Keys, side);
      PriceOrderKeys(rest.Keys, side);
      SumAlongWithout(m, p, ps);
      assert PriceOrder(m.Keys, side) == [p] + ps;
    }
  }

  lemma {:induction false} SumAlongTake(m: Queues, ps: set<Decimal>, side: OrderSide, p: Decimal)
    requires p in ps && p in m
    ensures SumAlong(m, PriceOrder(ps, side)) == SumRemaining(m[p]) + SumAlong(m, PriceOrder(ps - {p}, side))
    decreases |ps|
  {
    var b := Best(ps, side);
    var rest := ps - {b};
    assert PriceOrder(ps, side) == [b] + PriceOrder(rest, side);
    if b != p {
      SumAlongTake(m, rest, side, p);
      assert IsBest(ps - {p}, side, b);
      assert Best(ps - {p}, side) == b;
      assert rest - {p} == ps - {p} - {b};
      assert PriceOrder(ps - {p}, side) == [b] + PriceOrder(rest - {p}, side);
    }
  }

  /** The total does not depend on the direction in which the tree is walked. */
  lemma {:induction false} SumAnyOrder(m: Queues, ps: set<Decimal>, a: OrderSide, b: OrderSide)
    requires ps <= m.Keys
    ensures SumAlong(m, PriceOrder(ps, a)) == SumAlong(m, PriceOrder(ps, b))
    decreases |ps|
  {
    if ps != {} {
      var p := Best(ps, a);
      SumAlongTake(m, ps, b, p);
      SumAnyOrder(m, ps - {p}, a, b);
    }
  }

  ghost predicate DistinctIds(xs: seq<OrderRec>) {
    forall i, j :: 0 <= i < j < |xs| ==> xs[i].id != xs[j].id
  }

  ghost predicate DistinctIn(m: Queues) {
    forall p, i :: p in m && 0 <= i < |m[p]| ==> OnlyAt(m, p, i)
  }

  /** Ids that are distinct in the levels are distinct in the list. */
  lemma {:induction false} FlattenDistinct(m: Queues, side: OrderSide)
    requires QueuesOk(m, side) && DistinctIn(m)
    ensures DistinctIds(Flatten(m, side))
    decreases |m.Keys|
  {
    if m.Keys != {} {
      var p := Best(m.Keys, side);
      var rest := m - {p};
      assert rest.Keys == m.Keys - {p};
      DistinctInRest(m, p);
      FlattenDistinct(rest, side);
      var tail := Flatten(rest, side);
      forall i, j | 0 <= i < |m[p]| && 0 <= j < |tail| ensures m[p][i].id != tail[j].id {
        FlattenMember(rest, side, j);
        assert OnlyAt(m, p, i);
      }
      DistinctConcat(m[p], tail, m, p);
    }
  }

  lemma DistinctInRest(m: Queues, p: Decimal)
    requires DistinctIn(m)
    ensures DistinctIn(m - {p})
  {
    var rest := m - {p};
    forall q, i | q in rest && 0 <= i < |rest[q]| ensures OnlyAt(rest, q, i) {
      assert OnlyAt(m, q, i);
    }
  }

  lemma DistinctConcat(a: seq<OrderRec>, b: seq<OrderRec>, m: Queues, p: Decimal)
    requires DistinctIn(m) && p in m && m[p] == a && DistinctIds(b)
    requires forall i, j :: 0 <= i < |a| && 0 <= j < |b| ==> a[i].id != b[j].id
    ensures DistinctIds(a + b)
  {
    forall i, j | 0 <= i < j < |a + b| ensures (a + b)[i].id != (a + b)[j].id {
      if j < |a| {
        assert OnlyAt(m, p, i);
      }
    }
  }
}
