/** Rebuilding a book from stored rows (engine/recovery_manager.go): open rows are read in
    creation order and added one by one to an empty book.  When does that give the book back?
 */
module Rebuilding {
  import opened Orders
  import opened PriceTime
  import opened Matching
  import opened Runs
  import opened RunInvariants

  /** A row as it is read back: always a limit order, without its client. */
  function Reload(r: OrderRec): OrderRec { r.(clientId := "", kind := Limit) }

  function ReloadAll(xs: seq<OrderRec>): (ys: seq<OrderRec>)
    ensures |ys| == |xs| && forall i :: 0 <= i < |xs| ==> ys[i] == Reload(xs[i])
  {
    if xs == [] then [] else [Reload(xs[0])] + ReloadAll(xs[1..])
  }

  /** The same order in everything that a row holds. */
  predicate SameOrder(r: OrderRec, q: OrderRec) {
    && r.id == q.id && r.instrument == q.instrument && r.side == q.side && r.price == q.price
    && r.quantity == q.quantity && r.filled == q.filled && r.status == q.status && r.createdAt == q.createdAt
  }

  /** The same orders at the same places. */
  ghost predicate SameOrders(xs: seq<OrderRec>, ys: seq<OrderRec>) {
    |xs| == |ys| && forall i :: 0 <= i < |xs| ==> SameOrder(xs[i], ys[i])
  }

  /** Reloading loses exactly the client and the type. */
  lemma SameIfReloaded(xs: seq<OrderRec>, ys: seq<OrderRec>)
    ensures SameOrders(xs, ys) <==> ReloadAll(xs) == ReloadAll(ys)
    ensures SameOrders(ReloadAll(xs), ys) <==> ReloadAll(xs) == ReloadAll(ys)
    ensures forall i :: 0 <= i < |xs| ==> ReloadAll(xs)[i].kind == Limit && ReloadAll(xs)[i].clientId == ""
  {
    if SameOrders(xs, ys) || SameOrders(ReloadAll(xs), ys) {
      assert forall i :: 0 <= i < |xs| ==> ReloadAll(xs)[i] == ReloadAll(ys)[i];
    }
    if ReloadAll(xs) == ReloadAll(ys) {
      forall i | 0 <= i < |xs| ensures SameOrder(xs[i], ys[i]) && SameOrder(ReloadAll(xs)[i], ys[i]) {
        assert ReloadAll(xs)[i] == ReloadAll(ys)[i];
      }
    }
  }

  /** An open or partially filled row of instrument `ins`. */
  predicate Wanted(r: OrderRec, ins: string) { r.instrument == ins && r.CanBeFilled() }

  /** The rows that the query of the recovery manager of `ins` selects. */
  function Selected(rows: seq<OrderRec>, ins: string): seq<OrderRec> {
    if rows == [] then []
    else if Wanted(rows[0], ins) then [rows[0]] + Selected(rows[1..], ins)
    else Selected(rows[1..], ins)
  }

  /** What the query may return: the selected rows by creation time, ties in any order. */
  ghost predicate QueryResult(table: seq<OrderRec>, ins: string, rows: seq<OrderRec>) {
    multiset(rows) == multiset(Selected(table, ins)) && ByCreation(rows)
  }

  ghost predicate ByCreation(rows: seq<OrderRec>) {
    forall i, j :: 0 <= i < j < |rows| ==> rows[i].createdAt <= rows[j].createdAt
  }

  /** One side of the book after adding the rows in order to an empty book (before `Reload`). */
  function Rebuilt(rows: seq<OrderRec>, side: OrderSide): seq<OrderRec> {
    if rows == [] then [] else
    var r := rows[|rows| - 1];
    var xs := Rebuilt(rows[..|rows| - 1], side);
    if r.side == side then Insert(xs, r) else xs
  }

  lemma {:induction false} InsertReloaded(xs: seq<OrderRec>, r: OrderRec)
    ensures Insert(ReloadAll(xs), Reload(r)) == ReloadAll(Insert(xs, r))
  {
    if xs != [] {
      assert ReloadAll(xs)[1..] == ReloadAll(xs[1..]);
      InsertReloaded(xs[1..], r);
    }
  }

  /** The table after a run: every accepted order with its latest values. */
  function Table(s: State): seq<OrderRec> { s.bids + s.asks + s.done }

  // Strictly sorted lists.

  ghost predicate Before(side: OrderSide, a: OrderRec, b: OrderRec) {
    Better(side, a.price, b.price) || (a.price == b.price && a.createdAt < b.createdAt)
  }

  ghost predicate StrictlySorted(side: OrderSide, xs: seq<OrderRec>) {
    forall i, j :: 0 <= i < j < |xs| ==> Before(side, xs[i], xs[j])
  }

  lemma HeadIsFirst(side: OrderSide, xs: seq<OrderRec>, ys: seq<OrderRec>)
    requires StrictlySorted(side, xs) && StrictlySorted(side, ys)
    requires multiset(xs) == multiset(ys) && xs != [] && ys != []
    ensures xs[0] == ys[0]
  {
    assert xs[0] in multiset(ys) && ys[0] in multiset(xs);
    var i :| 0 <= i < |ys| && ys[i] == xs[0];
    var j :| 0 <= j < |xs| && xs[j] == ys[0];
  }

  /** A strictly sorted list is determined by its elements. */
  lemma {:induction false} SortedUnique(side: OrderSide, xs: seq<OrderRec>, ys: seq<OrderRec>)
    requires StrictlySorted(side, xs) && StrictlySorted(side, ys) && multiset(xs) == multiset(ys)
    ensures xs == ys
  {
    if xs == [] {
      assert |multiset(ys)| == |ys|;
    } else {
      assert |multiset(xs)| == |xs| && |multiset(ys)| == |ys|;
      HeadIsFirst(side, xs, ys);
      assert xs == [xs[0]] + xs[1..] && ys == [ys[0]] + ys[1..];
      assert multiset(xs[1..]) == multiset(xs) - multiset{xs[0]};
      assert multiset(ys[1..]) == multiset(ys) - multiset{ys[0]};
      SortedUnique(side, xs[1..], ys[1..]);
    }
  }

  // What rebuilding gives.

  lemma InsertElements(xs: seq<OrderRec>, o: OrderRec)
    ensures multiset(Insert(xs, o)) == multiset(xs) + multiset{o}
  {
    hide Insert;
    var k := InsertPlace(xs, o);
    assert xs == xs[..k] + xs[k..];
    MultisetMiddle(xs[..k], o, xs[k..]);
  }

  /** Rebuilding a side keeps exactly the rows of that side. */
  lemma {:induction false} RebuiltElements(rows: seq<OrderRec>, side: OrderSide, r: OrderRec)
    ensures multiset(Rebuilt(rows, side))[r] == if r.side == side then multiset(rows)[r] else 0
  {
    if rows != [] {
      var last, front := rows[|rows| - 1], rows[..|rows| - 1];
      assert rows == front + [last];
      RebuiltElements(front, side, r);
      InsertElements(Rebuilt(front, side), last);
    }
  }

  /** Two rows of the same side and price were created at different times. */
  ghost predicate NoTies(rows: seq<OrderRec>) {
    forall i, j :: 0 <= i < j < |rows| && rows[i].side == rows[j].side && rows[i].price == rows[j].price ==>
      rows[i].createdAt != rows[j].createdAt
  }

  /** Rows read in creation order end up sorted by price, then creation. */
  lemma {:induction false} RebuiltSorted(rows: seq<OrderRec>, side: OrderSide)
    requires ByCreation(rows) && NoTies(rows) && (side == Buy || side == Sell)
    ensures StrictlySorted(side, Rebuilt(rows, side))
  {
    if rows != [] {
      var r, front := rows[|rows| - 1], rows[..|rows| - 1];
      RebuiltSorted(front, side);
      if r.side == side {
        var xs := Rebuilt(front, side);
        forall k | 0 <= k < |xs| ensures xs[k].price == r.price ==> xs[k].createdAt < r.createdAt {
          RebuiltElements(front, side, xs[k]);
          assert xs[k] in multiset(xs);
          assert xs[k] in front;
        }
        InsertNewest(side, xs, r);
      }
    }
  }

  lemma InsertNewest(side: OrderSide, xs: seq<OrderRec>, r: OrderRec)
    requires StrictlySorted(side, xs) && r.side == side && (side == Buy || side == Sell)
    requires forall k :: 0 <= k < |xs| && xs[k].price == r.price ==> xs[k].createdAt < r.createdAt
    ensures StrictlySorted(side, Insert(xs, r))
  {
    var k := InsertPlace(xs, r);
    var ys := Insert(xs, r);
    forall i, j | 0 <= i < j < |ys| ensures Before(side, ys[i], ys[j]) {
      assert i < k ==> ys[i] == xs[i];
      assert i > k ==> ys[i] == xs[i - 1];
      assert j < k ==> ys[j] == xs[j];
      assert j > k ==> ys[j] == xs[j - 1];
      if i == k && j > k + 1 {
        assert Before(side, xs[k], xs[j - 1]);
      }
    }
  }

  // The rows of a run.

  /** Market orders of `ins` that were left partially filled: the query takes them for open orders. */
  function Strays(done: seq<OrderRec>, ins: string): seq<OrderRec> {
    if done == [] then []
    else
      var r := done[0];
      var left := r.instrument == ins && r.kind == Market && r.status == PartiallyFilled;
      (if left then [r] else []) + Strays(done[1..], ins)
  }

  /** Of the orders that left the book or never entered it, the query selects exactly those. */
  lemma {:induction false} StraysSelected(done: seq<OrderRec>, ins: string)
    requires AllEnded(done)
    ensures Selected(done, ins) == Strays(done, ins)
  {
    if done != [] {
      assert Ended(done[0]);
      StraysSelected(done[1..], ins);
    }
  }

  /** Inside each level, orders were created in the order in which they arrived. */
  ghost predicate CreatedInOrder(xs: seq<OrderRec>) {
    forall i, j :: 0 <= i < j < |xs| && xs[i].price == xs[j].price ==> xs[i].createdAt < xs[j].createdAt
  }

  lemma {:induction false} SelectedAppend(a: seq<OrderRec>, b: seq<OrderRec>, ins: string)
    ensures Selected(a + b, ins) == Selected(a, ins) + Selected(b, ins)
  {
    if a == [] {
      assert a + b == b;
      assert Selected(a, ins) + Selected(b, ins) == Selected(b, ins);
    } else {
      SelectedAppend(a[1..], b, ins);
      assert (a + b)[1..] == a[1..] + b && (a + b)[0] == a[0];
      hide Wanted;
      if Wanted(a[0], ins) {
        assert [a[0]] + (Selected(a[1..], ins) + Selected(b, ins)) == [a[0]] + Selected(a[1..], ins) + Selected(b, ins);
      }
    }
  }

  lemma {:induction false} SelectedAll(xs: seq<OrderRec>, ins: string)
    requires forall i :: 0 <= i < |xs| ==> Wanted(xs[i], ins)
    ensures Selected(xs, ins) == xs
  {
    if xs != [] {
      SelectedAll(xs[1..], ins);
    }
  }

  /** What the query selects of a reachable table: orders of `ins` that rest, and its leftovers. */
  lemma SelectedParts(s: State, ins: string)
    requires Inv(s)
    ensures Selected(Table(s), ins) == Selected(s.bids, ins) + Selected(s.asks, ins) + Strays(s.done, ins)
  {
    hide Selected, Strays, Wanted;
    SelectedAppend(s.bids, s.asks, ins);
    SelectedAppend(s.bids + s.asks, s.done, ins);
    StraysSelected(s.done, ins);
  }

  lemma SelectedSideAll(s: State, side: OrderSide, ins: string)
    requires SideInv(s, side) && (side == Buy || side == Sell) && AllOf(s.Of(side), ins)
    ensures Selected(s.Of(side), ins) == s.Of(side)
  {
    SelectedAll(s.Of(side), ins);
  }

  /** If the book holds only orders of `ins`, the query selects all of them. */
  lemma SelectedRows(s: State, ins: string)
    requires Inv(s) && AllOf(s.bids, ins) && AllOf(s.asks, ins)
    ensures Selected(Table(s), ins) == s.bids + s.asks + Strays(s.done, ins)
  {
    hide Selected, Strays, AllOf;
    SelectedParts(s, ins);
    SelectedSideAll(s, Buy, ins);
    SelectedSideAll(s, Sell, ins);
  }

  lemma OrderedIsSorted(side: OrderSide, arrival: map<Id, nat>, xs: seq<OrderRec>)
    requires Ordered(side, arrival, xs) && CreatedInOrder(xs)
    ensures StrictlySorted(side, xs)
  {
    forall i, j | 0 <= i < j < |xs| ensures Before(side, xs[i], xs[j]) {
      assert Ahead(side, arrival, xs[i], xs[j]);
    }
  }

  // Creation order inside the levels and no strays suffice.

  lemma OnceIn(xs: seq<OrderRec>, r: OrderRec)
    requires DistinctIds(xs)
    ensures multiset(xs)[r] <= 1
  {
    if r in xs {
      var i :| 0 <= i < |xs| && xs[i] == r;
      var a, b := xs[..i], xs[i + 1..];
      assert xs == a + [r] + b;
      assert r !in a && r !in b;
    }
  }

  lemma TwiceIn(rows: seq<OrderRec>, i: nat, j: nat)
    requires i < j < |rows| && rows[i] == rows[j]
    ensures multiset(rows)[rows[i]] >= 2
  {
    assert rows == rows[..j] + rows[j..];
    assert rows[i] in rows[..j] && rows[j] in rows[j..];
  }

  /** How often a row is selected, by side. */
  lemma Occurrences(s: State, rows: seq<OrderRec>, side: OrderSide, r: OrderRec)
    requires Inv(s) && multiset(rows) == multiset(s.bids + s.asks) && (side == Buy || side == Sell)
    requires r.side == side
    ensures multiset(rows)[r] == multiset(s.Of(side))[r] <= 1
  {
    assert r !in s.Of(Opposite(side));
    OnePlaceApart(s);
    OnceIn(s.Of(side), r);
  }

  lemma DifferentTimes(xs: seq<OrderRec>, r: OrderRec, q: OrderRec)
    requires CreatedInOrder(xs) && r in xs && q in xs && r != q && r.price == q.price
    ensures r.createdAt != q.createdAt
  {
    var a :| 0 <= a < |xs| && xs[a] == r;
    var b :| 0 <= b < |xs| && xs[b] == q;
  }

  lemma RowsDiffer(s: State, rows: seq<OrderRec>, i: nat, j: nat)
    requires Inv(s) && multiset(rows) == multiset(s.bids + s.asks) && i < j < |rows|
    requires rows[i].side == rows[j].side
    ensures rows[i] != rows[j] && (rows[i].side == Buy || rows[i].side == Sell)
    ensures rows[i] in s.Of(rows[i].side) && rows[j] in s.Of(rows[i].side)
  {
    hide Inv, State.Of;
    RowSides(s, rows, i);
    Occurrences(s, rows, rows[i].side, rows[i]);
    Occurrences(s, rows, rows[i].side, rows[j]);
    assert rows[i] in multiset(rows) && rows[j] in multiset(rows);
    if rows[i] == rows[j] { TwiceIn(rows, i, j); }
  }

  lemma RowsHaveNoTies(s: State, rows: seq<OrderRec>)
    requires Inv(s) && multiset(rows) == multiset(s.bids + s.asks)
    requires CreatedInOrder(s.bids) && CreatedInOrder(s.asks)
    ensures NoTies(rows)
  {
    hide Inv, CreatedInOrder;
    forall i, j | 0 <= i < j < |rows| && rows[i].side == rows[j].side && rows[i].price == rows[j].price
      ensures rows[i].createdAt != rows[j].createdAt
    {
      RowsDiffer(s, rows, i, j);
      DifferentTimes(s.Of(rows[i].side), rows[i], rows[j]);
    }
  }

  lemma RowSides(s: State, rows: seq<OrderRec>, i: nat)
    requires Inv(s) && multiset(rows) == multiset(s.bids + s.asks) && i < |rows|
    ensures rows[i].side == Buy || rows[i].side == Sell
  {
    assert rows[i] in multiset(rows);
    assert rows[i] in s.bids + s.asks;
  }

  lemma SideElements(s: State, rows: seq<OrderRec>, side: OrderSide)
    requires Inv(s) && multiset(rows) == multiset(s.bids + s.asks) && (side == Buy || side == Sell)
    ensures multiset(Rebuilt(rows, side)) == multiset(s.Of(side))
  {
    hide Rebuilt, Uncrossed, OnePlace, AllEnded, LogKnown, FillsAgree, TotalsAgree, Ordered, Known;
    var xs := s.Of(side);
    forall r ensures multiset(Rebuilt(rows, side))[r] == multiset(xs)[r] {
      RebuiltElements(rows, side, r);
      if r.side == side {
        Occurrences(s, rows, side, r);
      } else {
        assert r !in xs;
      }
    }
  }

  lemma RebuiltSide(s: State, rows: seq<OrderRec>, side: OrderSide)
    requires Inv(s) && multiset(rows) == multiset(s.bids + s.asks) && ByCreation(rows)
    requires CreatedInOrder(s.bids) && CreatedInOrder(s.asks) && (side == Buy || side == Sell)
    ensures Rebuilt(rows, side) == s.Of(side)
  {
    hide Rebuilt, Uncrossed, OnePlace, AllEnded, LogKnown, FillsAgree, TotalsAgree, StrictlySorted;
    RowsHaveNoTies(s, rows);
    RebuiltSorted(rows, side);
    OrderedIsSorted(side, s.arrival, s.Of(side));
    SideElements(s, rows, side);
    SortedUnique(side, Rebuilt(rows, side), s.Of(side));
  }

  /** Re-adding the stored orders of any reachable book gives the same queues in the same order. */
  lemma RoundTrip(s: State, ins: string, rows: seq<OrderRec>)
    requires Inv(s) && QueryResult(Table(s), ins, rows)
    requires AllOf(s.bids, ins) && AllOf(s.asks, ins) && Strays(s.done, ins) == []
    requires CreatedInOrder(s.bids) && CreatedInOrder(s.asks)
    ensures Rebuilt(rows, Buy) == s.bids && Rebuilt(rows, Sell) == s.asks
  {
    hide Inv, Rebuilt;
    SelectedRows(s, ins);
    assert s.bids + s.asks + [] == s.bids + s.asks;
    RebuiltSide(s, rows, Buy);
    RebuiltSide(s, rows, Sell);
  }

  // They are also necessary.

  /** Stable insertion by creation time. */
  function PutIn(rows: seq<OrderRec>, r: OrderRec): seq<OrderRec> {
    if rows == [] then [r]
    else if rows[0].createdAt <= r.createdAt then [rows[0]] + PutIn(rows[1..], r)
    else [r] + rows
  }

  function SortedRows(rows: seq<OrderRec>): seq<OrderRec> {
    if rows == [] then [] else PutIn(SortedRows(rows[..|rows| - 1]), rows[|rows| - 1])
  }

  lemma {:induction false} PutInPlace(rows: seq<OrderRec>, r: OrderRec) returns (k: nat)
    requires ByCreation(rows)
    ensures k <= |rows| && PutIn(rows, r) == rows[..k] + [r] + rows[k..]
    ensures forall i :: 0 <= i < k ==> rows[i].createdAt <= r.createdAt
    ensures forall i :: k <= i < |rows| ==> r.createdAt <= rows[i].createdAt
  {
    if rows == [] || rows[0].createdAt > r.createdAt {
      k := 0;
    } else {
      var j := PutInPlace(rows[1..], r);
      k := j + 1;
      assert rows[..k] == [rows[0]] + rows[1..][..j];
      assert rows[k..] == rows[1..][j..];
      assert forall i :: k <= i < |rows| ==> rows[i] == rows[1..][i - 1];
      assert forall i :: 0 < i < k ==> rows[i] == rows[1..][i - 1];
    }
  }

  lemma StaysSorted(rows: seq<OrderRec>, k: nat, r: OrderRec)
    requires ByCreation(rows) && k <= |rows|
    requires forall i :: 0 <= i < k ==> rows[i].createdAt <= r.createdAt
    requires forall i :: k <= i < |rows| ==> r.createdAt <= rows[i].createdAt
    ensures ByCreation(rows[..k] + [r] + rows[k..])
  {
    var ys := rows[..k] + [r] + rows[k..];
    forall i, j | 0 <= i < j < |ys| ensures ys[i].createdAt <= ys[j].createdAt {
      assert i < k ==> ys[i] == rows[i];
      assert i > k ==> ys[i] == rows[i - 1];
      assert j < k ==> ys[j] == rows[j];
      assert j > k ==> ys[j] == rows[j - 1];
    }
  }

  lemma PutInSorted(rows: seq<OrderRec>, r: OrderRec)
    requires ByCreation(rows)
    ensures ByCreation(PutIn(rows, r)) && multiset(PutIn(rows, r)) == multiset(rows) + multiset{r}
  {
    var k := PutInPlace(rows, r);
    hide PutIn;
    assert rows == rows[..k] + rows[k..];
    MultisetMiddle(rows[..k], r, rows[k..]);
    StaysSorted(rows, k, r);
  }

  lemma {:induction false} SortedRowsOk(rows: seq<OrderRec>)
    ensures ByCreation(SortedRows(rows)) && multiset(SortedRows(rows)) == multiset(rows)
  {
    if rows != [] {
      var front := rows[..|rows| - 1];
      SortedRowsOk(front);
      PutInSorted(SortedRows(front), rows[|rows| - 1]);
      assert rows == front + [rows[|rows| - 1]];
    }
  }

  /** `a` stands somewhere before `b`. */
  ghost predicate Precedes(xs: seq<OrderRec>, a: OrderRec, b: OrderRec) {
    exists i, j :: 0 <= i < j < |xs| && xs[i] == a && xs[j] == b
  }

  lemma PrecedesAfterInsertion(xs: seq<OrderRec>, ys: seq<OrderRec>, k: nat, r: OrderRec, a: OrderRec, b: OrderRec)
    requires k <= |xs| && ys == xs[..k] + [r] + xs[k..] && Precedes(xs, a, b)
    ensures Precedes(ys, a, b)
  {
    var i, j :| 0 <= i < j < |xs| && xs[i] == a && xs[j] == b;
    var i', j' := if i < k then i else i + 1, if j < k then j else j + 1;
    assert ys[i'] == a && ys[j'] == b;
  }

  lemma {:induction false} SortedRowsKeep(rows: seq<OrderRec>, a: OrderRec, b: OrderRec)
    requires |rows| >= 2 && rows[0] == a && rows[1] == b && a.createdAt <= b.createdAt
    ensures Precedes(SortedRows(rows), a, b)
  {
    var front, last := rows[..|rows| - 1], rows[|rows| - 1];
    SortedRowsOk(front);
    var k := PutInPlace(SortedRows(front), last);
    if |rows| == 2 {
      assert front == [a];
      assert SortedRows([a]) == [a] by { assert [a][..0] == []; }
      assert SortedRows(rows) == [a, b];
      assert SortedRows(rows)[0] == a && SortedRows(rows)[1] == b;
    } else {
      SortedRowsKeep(front, a, b);
      PrecedesAfterInsertion(SortedRows(front), SortedRows(rows), k, last, a, b);
    }
  }

  /** Rows of one price are queued in the order in which they are read. */
  lemma {:induction false} RebuiltKeeps(rows: seq<OrderRec>, side: OrderSide, i: nat, j: nat)
    requires i < j < |rows| && rows[i].side == rows[j].side == side && rows[i].price == rows[j].price
    requires side == Buy || side == Sell
    ensures Precedes(Rebuilt(rows, side), rows[i], rows[j])
  {
    var front, r := rows[..|rows| - 1], rows[|rows| - 1];
    var xs := Rebuilt(front, side);
    if j < |rows| - 1 {
      RebuiltKeeps(front, side, i, j);
      if r.side == side {
        var k := InsertPlace(xs, r);
        PrecedesAfterInsertion(xs, Rebuilt(rows, side), k, r, rows[i], rows[j]);
      }
    } else {
      var k := InsertPlace(xs, r);
      RebuiltElements(front, side, rows[i]);
      assert rows[i] in multiset(front) by { assert front[i] == rows[i]; }
      assert rows[i] in multiset(xs);
      var m :| 0 <= m < |xs| && xs[m] == rows[i];
      RebuiltPriceSorted(front, side);
      assert m < k;
      assert Rebuilt(rows, side)[m] == rows[i] && Rebuilt(rows, side)[k] == r;
    }
  }

  lemma {:induction false} RebuiltPriceSorted(rows: seq<OrderRec>, side: OrderSide)
    requires side == Buy || side == Sell
    ensures PriceSorted(Rebuilt(rows, side), side)
  {
    if rows != [] {
      var front, r := rows[..|rows| - 1], rows[|rows| - 1];
      RebuiltPriceSorted(front, side);
      if r.side == side {
        var xs, ys := Rebuilt(front, side), Rebuilt(rows, side);
        var k := InsertPlace(xs, r);
        forall i, j | 0 <= i < j < |ys| ensures AtLeastAsGood(side, ys[i].price, ys[j].price) {
          assert i < k ==> ys[i] == xs[i];
          assert i > k ==> ys[i] == xs[i - 1];
          assert j < k ==> ys[j] == xs[j];
          assert j > k ==> ys[j] == xs[j - 1];
          if i == k && j > k + 1 { assert AtLeastAsGood(side, xs[k].price, xs[j - 1].price); }
        }
      }
    }
  }

  /** The query always has a result. */
  lemma SomeResult(table: seq<OrderRec>, ins: string) returns (rows: seq<OrderRec>)
    ensures QueryResult(table, ins, rows)
  {
    rows := SortedRows(Selected(table, ins));
    SortedRowsOk(Selected(table, ins));
  }

  lemma {:induction false} RebuiltSize(rows: seq<OrderRec>)
    requires forall i :: 0 <= i < |rows| ==> rows[i].side == Buy || rows[i].side == Sell
    ensures |Rebuilt(rows, Buy)| + |Rebuilt(rows, Sell)| == |rows|
  {
    if rows != [] {
      var front, r := rows[..|rows| - 1], rows[|rows| - 1];
      RebuiltSize(front);
      var k := InsertPlace(Rebuilt(front, r.side), r);
    }
  }

  lemma {:induction false} SelectedMembers(xs: seq<OrderRec>, ins: string)
    ensures forall i :: 0 <= i < |Selected(xs, ins)| ==> Selected(xs, ins)[i] in xs && Wanted(Selected(xs, ins)[i], ins)
  {
    if xs != [] {
      SelectedMembers(xs[1..], ins);
    }
  }

  lemma RowOfTable(s: State, ins: string, rows: seq<OrderRec>, r: OrderRec)
    requires QueryResult(Table(s), ins, rows) && r in rows
    ensures r in Table(s) && Wanted(r, ins)
  {
    hide Table, Wanted;
    SelectedMembers(Table(s), ins);
    assert r in multiset(rows);
    assert r in Selected(Table(s), ins);
  }

  lemma TableSides(s: State, ins: string, rows: seq<OrderRec>)
    requires Inv(s) && QueryResult(Table(s), ins, rows)
    ensures forall i :: 0 <= i < |rows| ==> rows[i].side == Buy || rows[i].side == Sell
  {
    hide Inv, QueryResult, Table;
    forall i | 0 <= i < |rows| ensures rows[i].side == Buy || rows[i].side == Sell {
      RowOfTable(s, ins, rows, rows[i]);
      InTable(s, rows[i]);
    }
  }

  lemma InTable(s: State, r: OrderRec)
    requires Inv(s) && r in Table(s)
    ensures r.side == Buy || r.side == Sell
  {
    hide Uncrossed, OnePlace, LogKnown, FillsAgree, TotalsAgree, Ordered, Known;
    assert r in s.bids || r in s.asks || r in s.done;
    if r in s.done {
      var i :| 0 <= i < |s.done| && s.done[i] == r;
      assert Ended(s.done[i]);
    }
  }

  lemma TableSize(s: State, ins: string, rows: seq<OrderRec>)
    requires Inv(s) && QueryResult(Table(s), ins, rows) && AllOf(s.bids, ins) && AllOf(s.asks, ins)
    ensures |rows| == |s.bids| + |s.asks| + |Strays(s.done, ins)|
  {
    hide Inv, Selected, Table, ByCreation, AllOf, Strays;
    SelectedRows(s, ins);
    assert |multiset(rows)| == |rows| && |multiset(Selected(Table(s), ins))| == |Selected(Table(s), ins)|;
  }

  /** Re-adding the rows gives the lists of the book, field by field. */
  ghost predicate GivesBack(s: State, rows: seq<OrderRec>) {
    SameOrders(ReloadAll(Rebuilt(rows, Buy)), s.bids) && SameOrders(ReloadAll(Rebuilt(rows, Sell)), s.asks)
  }

  lemma GivesBackLists(s: State, rows: seq<OrderRec>)
    ensures GivesBack(s, rows) <==>
            ReloadAll(Rebuilt(rows, Buy)) == ReloadAll(s.bids) && ReloadAll(Rebuilt(rows, Sell)) == ReloadAll(s.asks)
  {
    hide SameOrders, ReloadAll, Rebuilt;
    SameIfReloaded(Rebuilt(rows, Buy), s.bids);
    SameIfReloaded(Rebuilt(rows, Sell), s.asks);
  }

  /** Every rebuilt order is one of the rows, and so of the manager's instrument. */
  lemma RebuiltOf(s: State, ins: string, rows: seq<OrderRec>, side: OrderSide)
    requires QueryResult(Table(s), ins, rows)
    ensures AllOf(Rebuilt(rows, side), ins)
  {
    hide QueryResult, Rebuilt;
    var xs := Rebuilt(rows, side);
    forall i | 0 <= i < |xs| ensures xs[i].instrument == ins {
      assert xs[i] in multiset(xs);
      RebuiltElements(rows, side, xs[i]);
      assert xs[i] in multiset(rows);
      RowOfTable(s, ins, rows, xs[i]);
    }
  }

  /** An order of another instrument in the book is never reloaded. */
  lemma ForeignBreaks(s: State, ins: string, rows: seq<OrderRec>, side: OrderSide)
    requires QueryResult(Table(s), ins, rows) && !AllOf(s.Of(side), ins)
    ensures ReloadAll(Rebuilt(rows, side)) != ReloadAll(s.Of(side))
  {
    hide QueryResult, Rebuilt, ReloadAll, State.Of;
    RebuiltOf(s, ins, rows, side);
    var xs, ys := s.Of(side), Rebuilt(rows, side);
    var k :| 0 <= k < |xs| && xs[k].instrument != ins;
    SameInstrumentAt(xs, ys, k);
  }

  lemma SameInstrumentAt(xs: seq<OrderRec>, ys: seq<OrderRec>, k: nat)
    requires k < |xs|
    ensures ReloadAll(ys) == ReloadAll(xs) ==> k < |ys| && ys[k].instrument == xs[k].instrument
  {
  }

  /** A partially filled market order of `ins` in the table makes every rebuilt book differ. */
  lemma StraysBreak(s: State, ins: string, rows: seq<OrderRec>)
    requires Inv(s) && QueryResult(Table(s), ins, rows) && Strays(s.done, ins) != []
    ensures !GivesBack(s, rows)
  {
    hide Inv, QueryResult, AllOf, Strays;
    GivesBackLists(s, rows);
    if !AllOf(s.bids, ins) {
      ForeignBreaks(s, ins, rows, Buy);
    } else if !AllOf(s.asks, ins) {
      ForeignBreaks(s, ins, rows, Sell);
    } else {
      TableSides(s, ins, rows);
      TableSize(s, ins, rows);
      RebuiltSize(rows);
    }
  }

  lemma SelectedTwo(s: State, ins: string, side: OrderSide, i: nat, j: nat)
    requires Inv(s) && (side == Buy || side == Sell) && i < j < |s.Of(side)| && AllOf(s.Of(side), ins)
    ensures s.Of(side)[i] in Selected(Table(s), ins) && s.Of(side)[j] in Selected(Table(s), ins)
    ensures s.Of(side)[i] != s.Of(side)[j]
    ensures s.Of(side)[i].side == s.Of(side)[j].side == side && DistinctIds(s.Of(side))
  {
    hide Selected, Table, Strays, AllOf;
    SelectedParts(s, ins);
    SelectedSideAll(s, side, ins);
    OnePlaceApart(s);
  }

  lemma OutOfOrderSide(s: State, ins: string, side: OrderSide) returns (rows: seq<OrderRec>)
    requires Inv(s) && (side == Buy || side == Sell) && !CreatedInOrder(s.Of(side))
    ensures QueryResult(Table(s), ins, rows) && ReloadAll(Rebuilt(rows, side)) != ReloadAll(s.Of(side))
  {
    hide Inv, Selected, Table, Rebuilt, SortedRows, AllOf;
    if !AllOf(s.Of(side), ins) {
      rows := SomeResult(Table(s), ins);
      ForeignBreaks(s, ins, rows, side);
    } else {
      var xs := s.Of(side);
      var i, j :| 0 <= i < j < |xs| && xs[i].price == xs[j].price && xs[i].createdAt >= xs[j].createdAt;
      SelectedTwo(s, ins, side, i, j);
      var rest := TakeTwo(Selected(Table(s), ins), xs[j], xs[i]);
      rows := SortedRows([xs[j], xs[i]] + rest);
      SortedRowsOk([xs[j], xs[i]] + rest);
      SortedRowsKeep([xs[j], xs[i]] + rest, xs[j], xs[i]);
      var u, v :| 0 <= u < v < |rows| && rows[u] == xs[j] && rows[v] == xs[i];
      RebuiltKeeps(rows, side, u, v);
      Reversed(xs, Rebuilt(rows, side), i, j);
    }
  }

  lemma Reversed(xs: seq<OrderRec>, ys: seq<OrderRec>, i: nat, j: nat)
    requires DistinctIds(xs) && i < j < |xs| && Precedes(ys, xs[j], xs[i])
    ensures ReloadAll(ys) != ReloadAll(xs)
  {
    hide ReloadAll;
    SameIdsAt(xs, ys);
    var a, b :| 0 <= a < b < |ys| && ys[a] == xs[j] && ys[b] == xs[i];
    PlaceOf(xs, a, j);
    PlaceOf(xs, b, i);
  }

  lemma SameIdsAt(xs: seq<OrderRec>, ys: seq<OrderRec>)
    ensures ReloadAll(ys) == ReloadAll(xs) ==> |ys| == |xs| && forall k :: 0 <= k < |xs| ==> ys[k].id == xs[k].id
  {
    forall k | 0 <= k < |xs| && ReloadAll(ys) == ReloadAll(xs) ensures |ys| == |xs| && ys[k].id == xs[k].id {
      assert ReloadAll(ys)[k].id == ReloadAll(xs)[k].id;
    }
  }

  lemma PlaceOf(xs: seq<OrderRec>, a: nat, b: nat)
    requires DistinctIds(xs)
    ensures a < |xs| && b < |xs| && xs[a].id == xs[b].id ==> a == b
  {
  }

  lemma TakeOne(all: seq<OrderRec>, a: OrderRec) returns (rest: seq<OrderRec>)
    requires a in all
    ensures multiset([a] + rest) == multiset(all)
    ensures forall b :: b in all && b != a ==> b in rest
  {
    var i :| 0 <= i < |all| && all[i] == a;
    rest := all[..i] + all[i + 1..];
    assert all == all[..i] + ([a] + all[i + 1..]);
  }

  lemma TakeTwo(all: seq<OrderRec>, a: OrderRec, b: OrderRec) returns (rest: seq<OrderRec>)
    requires a in all && b in all && a != b
    ensures multiset([a, b] + rest) == multiset(all)
  {
    var one := TakeOne(all, a);
    rest := TakeOne(one, b);
    assert [a, b] + rest == [a] + ([b] + rest);
  }

  /** The book comes back from whatever the query returns. */
  ghost predicate Restores(s: State, ins: string) {
    forall rows :: QueryResult(Table(s), ins, rows) ==> GivesBack(s, rows)
  }

  /** When that is so: the book holds only orders of the manager's instrument, no partially filled
      market order of it is stored, and creation times agree with queue order. */
  ghost predicate Restorable(s: State, ins: string) {
    && AllOf(s.bids, ins) && AllOf(s.asks, ins) && Strays(s.done, ins) == []
    && CreatedInOrder(s.bids) && CreatedInOrder(s.asks)
  }

  /** Recovery restores a reachable book, for every answer of the database, if and only if the book
      holds only orders of the manager's instrument, no partially filled market order of it is stored
      and creation times agree with queue order. */
  lemma RestoresExactly(s: State, ins: string)
    requires Inv(s)
    ensures Restores(s, ins) <==> Restorable(s, ins)
  {
    hide Inv, QueryResult, Rebuilt, ReloadAll, CreatedInOrder, Strays, AllOf;
    if Restorable(s, ins) {
      forall rows | QueryResult(Table(s), ins, rows) ensures GivesBack(s, rows) {
        GivesBackLists(s, rows);
        RoundTrip(s, ins, rows);
      }
    } else {
      var rows := Unrestored(s, ins);
    }
  }

  /** A result of the query from which the book does not come back. */
  lemma Unrestored(s: State, ins: string) returns (rows: seq<OrderRec>)
    requires Inv(s) && !Restorable(s, ins)
    ensures QueryResult(Table(s), ins, rows) && !GivesBack(s, rows)
  {
    hide Inv, QueryResult, Rebuilt, ReloadAll, CreatedInOrder, Strays, AllOf;
    if !CreatedInOrder(s.bids) {
      rows := OutOfOrderSide(s, ins, Buy);
    } else if !CreatedInOrder(s.asks) {
      rows := OutOfOrderSide(s, ins, Sell);
    } else {
      rows := SomeResult(Table(s), ins);
      if !AllOf(s.bids, ins) {
        ForeignBreaks(s, ins, rows, Buy);
      } else if !AllOf(s.asks, ins) {
        ForeignBreaks(s, ins, rows, Sell);
      } else {
        StraysBreak(s, ins, rows);
      }
    }
    GivesBackLists(s, rows);
  }
}
