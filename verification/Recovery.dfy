/** Crash recovery (engine/recovery_manager.go): rebuild the book from stored rows, capture its
    totals, and validate them against the database.
 */
module Recovery {
  import opened Orders
  import opened PriceTime
  import opened Runs
  import opened RunInvariants
  import opened PriceLevels
  import opened BookShape
  import opened OrderBooks
  import opened Rebuilding

  /** Rows that a book of resting limit orders leaves in the table. */
  ghost predicate RowsFit(rows: seq<OrderRec>) {
    && (forall i :: 0 <= i < |rows| ==>
          && (rows[i].side == Buy || rows[i].side == Sell)
          && rows[i].CanBeFilled() && 0.0 <= rows[i].filled < rows[i].quantity)
    && DistinctIds(rows)
  }

  /** One side of a book with list `xs` after adding the rows in order. */
  function Added(xs: seq<OrderRec>, rows: seq<OrderRec>, side: OrderSide): seq<OrderRec> {
    if rows == [] then xs else
    var r, ys := rows[|rows| - 1], Added(xs, rows[..|rows| - 1], side);
    if r.side == side then Insert(ys, Reload(r)) else ys
  }

  /** In an empty book that is the reloaded list of the rebuilt side. */
  lemma {:induction false} AddedToNothing(rows: seq<OrderRec>, side: OrderSide)
    ensures Added([], rows, side) == ReloadAll(Rebuilt(rows, side))
  {
    if rows != [] {
      var front, r := rows[..|rows| - 1], rows[|rows| - 1];
      AddedToNothing(front, side);
      InsertReloaded(Rebuilt(front, side), r);
    }
  }

  lemma AddedStep(xs: seq<OrderRec>, rows: seq<OrderRec>, i: nat, side: OrderSide)
    requires i < |rows|
    ensures Added(xs, rows[..i + 1], side) ==
            if rows[i].side == side then Insert(Added(xs, rows[..i], side), Reload(rows[i]))
            else Added(xs, rows[..i], side)
  {
    assert rows[..i + 1][..i] == rows[..i];
  }

  lemma AddedEnds(xs: seq<OrderRec>, rows: seq<OrderRec>, side: OrderSide)
    ensures Added(xs, rows[..0], side) == xs && rows[..|rows|] == rows
  {
  }

  /** Reloaded orders are limit orders without a client. */
  ghost predicate AllReloaded(xs: seq<OrderRec>) {
    forall i :: 0 <= i < |xs| ==> xs[i].kind == Limit && xs[i].clientId == ""
  }

  /** Some order of the list is the row, field by field, as a limit order. */
  ghost predicate Listed(xs: seq<OrderRec>, r: OrderRec) {
    exists k :: 0 <= k < |xs| && SameOrder(xs[k], r) && xs[k].kind == Limit
  }

  lemma InsertListed(xs: seq<OrderRec>, o: OrderRec, r: OrderRec)
    requires Listed(xs, r) || (SameOrder(o, r) && o.kind == Limit)
    ensures Listed(Insert(xs, o), r)
  {
    hide Insert, SameOrder;
    var ys := Insert(xs, o);
    var k := InsertPlace(xs, o);
    if Listed(xs, r) {
      var j :| 0 <= j < |xs| && SameOrder(xs[j], r) && xs[j].kind == Limit;
      assert ys[if j < k then j else j + 1] == xs[j];
    } else {
      assert ys[k] == o;
    }
  }

  /** Every row is in the list of its side. */
  lemma {:induction false} AddedListed(xs: seq<OrderRec>, rows: seq<OrderRec>, i: nat)
    requires i < |rows|
    ensures Listed(Added(xs, rows, rows[i].side), rows[i])
  {
    hide Listed, Insert;
    var n, side := |rows| - 1, rows[i].side;
    var last, before := rows[n], Added(xs, rows[..n], side);
    if i < n {
      AddedListed(xs, rows[..n], i);
    }
    if last.side == side {
      InsertListed(before, Reload(last), rows[i]);
    }
  }

  /** Adds every row to the book, in the order of the rows.  Rows of ids that are already there
      would leave orders behind that the index does not know. */
  method RebuildBook(book: OrderBook, rows: seq<OrderRec>)
    requires book.Valid() && RowsFit(rows)
    requires forall i :: 0 <= i < |rows| ==> rows[i].id !in book.index
    modifies book, book.bids, book.asks, book.lv.Keys
    ensures book.Valid()
    ensures book.Flat(Buy) == Added(old(book.Flat(Buy)), rows, Buy)
    ensures book.Flat(Sell) == Added(old(book.Flat(Sell)), rows, Sell)
    ensures forall i :: 0 <= i < |rows| ==> Listed(book.Flat(rows[i].side), rows[i])
  {
    hide Shape.Ok, Shape.Queues, Flatten, OrderBook.Mirrored, AddTo, Insert, Added, Listed;
    ghost var bids, asks := book.Flat(Buy), book.Flat(Sell);
    AddedEnds(bids, rows, Buy);
    AddedEnds(asks, rows, Sell);
    for i := 0 to |rows|
      invariant book.Valid() && book.bids == old(book.bids) && book.asks == old(book.asks)
      invariant forall l :: l in book.lv ==> l in old(book.lv) || fresh(l)
      invariant forall k :: i <= k < |rows| ==> rows[k].id !in book.index
      invariant book.Flat(Buy) == Added(bids, rows[..i], Buy) && book.Flat(Sell) == Added(asks, rows[..i], Sell)
    {
      var o := new Order(Reload(rows[i]));
      AddedStep(bids, rows, i, Buy);
      AddedStep(asks, rows, i, Sell);
      AddRow(book, o);
    }
    forall i | 0 <= i < |rows| ensures Listed(book.Flat(rows[i].side), rows[i]) {
      AddedListed(if rows[i].side == Buy then bids else asks, rows, i);
    }
  }

  /** Adding an order, seen in the lists. */
  method AddRow(book: OrderBook, o: Order)
    requires book.Valid() && o.id !in book.index
    requires o.Rec().IsResting() && (o.side == Buy || o.side == Sell)
    modifies book, book.bids, book.asks, book.lv.Keys
    ensures book.Valid() && book.bids == old(book.bids) && book.asks == old(book.asks)
    ensures forall l :: l in book.lv ==> l in old(book.lv) || fresh(l)
    ensures book.index.Keys == old(book.index.Keys) + {o.id}
    ensures book.Flat(o.side) == Insert(old(book.Flat(o.side)), o.Rec())
    ensures book.Flat(Opposite(o.side)) == old(book.Flat(Opposite(o.side)))
  {
    hide Shape.SideOk, Shape.IndexOk, Shape.Queues, Flatten, OrderBook.Mirrored, AddTo, Insert, OrderRec.IsResting;
    ghost var s := book.Now();
    QueuesAreOk(s, o.side);
    FlattenAdd(s.Queues(o.side), o.side, o.Rec());
    book.AddOrder(o);
  }

  // Capturing totals from the best levels.

  const MAX_LEVELS: nat := 100

  function Top(ps: seq<Decimal>): seq<Decimal> {
    if |ps| <= MAX_LEVELS then ps else ps[..MAX_LEVELS]
  }

  function Bottom(ps: seq<Decimal>): seq<Decimal> {
    if |ps| <= MAX_LEVELS then [] else ps[MAX_LEVELS..]
  }

  /** Volume of the levels that the capture does not look at. */
  ghost function Overlooked(m: Queues, side: OrderSide): Decimal {
    SumAlong(m, Bottom(PriceOrder(m.Keys, side)))
  }

  datatype Report = Report(
    restored: nat, bidLevels: nat, askLevels: nat, bidVolume: Decimal, askVolume: Decimal,
    bestBid: Option<Decimal>, bestAsk: Option<Decimal>, spread: Option<Decimal>)

  function BestOf(xs: seq<OrderRec>): Option<Decimal> {
    if xs == [] then None else Some(xs[0].price)
  }

  /** Level count, volume and best price of one side, over its best levels. */
  method CaptureSide(book: OrderBook, side: OrderSide) returns (levels: nat, volume: Decimal, best: Option<Decimal>)
    requires book.Valid() && (side == Buy || side == Sell)
    ensures var m := book.Now().Queues(side);
            && levels == |Top(PriceOrder(m.Keys, side))|
            && volume == SumAlong(m, Top(PriceOrder(m.Keys, side)))
    ensures best == BestOf(book.Flat(side))
  {
    hide Shape.Ok, OrderBook.Mirrored, Flatten, Shape.Queues, SumAlong, PriceOrder, SumRemaining, BestOf;
    var top := book.TopLevels(side, MAX_LEVELS);
    ghost var m, ps := book.Now().Queues(side), Top(PriceOrder(book.Now().Tree(side).Keys, side));
    QueueKeys(book.Now(), side);
    SumAlongEnds(m, ps);
    levels := |top|;
    volume := 0.0;
    for i := 0 to |top|
      invariant volume + SumAlong(m, ps[i..]) == SumAlong(m, ps)
    {
      book.LevelTotals(side, ps[i]);
      SumAlongStep(m, ps, i);
      volume := volume + top[i].volume;
    }
    best := BestPrice(book, side);
  }

  method BestPrice(book: OrderBook, side: OrderSide) returns (best: Option<Decimal>)
    requires book.Valid() && (side == Buy || side == Sell)
    ensures best == BestOf(book.Flat(side))
  {
    hide Shape.Ok, OrderBook.Mirrored, Flatten, Shape.Queues;
    var l := book.GetBest(side);
    if l == null {
      NoQueues(book.Now(), side);
      return None;
    }
    BestIsFirst(book.Now(), side, l);
    return Some(l.price);
  }

  lemma BestIsFirst(s: Shape, side: OrderSide, l: PriceLevel)
    requires s.Ok(null, false) && (side == Buy || side == Sell)
    requires IsBest(s.Tree(side).Keys, side, l.price) && s.Tree(side)[l.price] == l
    ensures BestOf(Flatten(s.Queues(side), side)) == Some(l.price)
  {
    LevelOf(s, side, l.price, null, false);
    assert s.ElementOk(side, l, s.lv[l].orders[0], null);
    PopFlat(s, side, l);
  }

  method CapturePostRecoveryState(book: OrderBook, restored: nat) returns (r: Report)
    requires book.Valid()
    ensures var b, a := book.Now().Queues(Buy), book.Now().Queues(Sell);
            && r.restored == restored
            && r.bidLevels == |Top(PriceOrder(b.Keys, Buy))| && r.bidVolume == SumAlong(b, Top(PriceOrder(b.Keys, Buy)))
            && r.askLevels == |Top(PriceOrder(a.Keys, Sell))|
            && r.askVolume == SumAlong(a, Top(PriceOrder(a.Keys, Sell)))
    ensures r.bestBid == BestOf(book.Flat(Buy)) && r.bestAsk == BestOf(book.Flat(Sell))
    ensures r.spread == if book.Flat(Buy) != [] && book.Flat(Sell) != []
                        then Some(book.Flat(Sell)[0].price - book.Flat(Buy)[0].price) else None
  {
    hide Shape.Ok, OrderBook.Mirrored, Flatten, Shape.Queues;
    var bidLevels, bidVolume, bestBid := CaptureSide(book, Buy);
    var askLevels, askVolume, bestAsk := CaptureSide(book, Sell);
    var spread := None;
    if bestBid.Some? && bestAsk.Some? {
      spread := Some(bestAsk.value - bestBid.value);
    }
    r := Report(restored, bidLevels, askLevels, bidVolume, askVolume, bestBid, bestAsk, spread);
  }

  // Validation.

  const TOLERANCE: Decimal := 0.00000001

  datatype Finding =
    LevelsWithoutOrders | NegativeBidVolume | NegativeAskVolume | NegativeSpread | BidMismatch | AskMismatch

  /** Aggregates of the selected rows; `None` when the query failed. */
  datatype DatabaseTotals = DatabaseTotals(bidVolume: Decimal, askVolume: Decimal)

  function Abs(x: Decimal): Decimal { if x < 0.0 then -x else x }

  method ValidateVolume(found: seq<Finding>, kind: Finding, recovered: Decimal, stored: Decimal)
    returns (found': seq<Finding>)
    ensures -0.00000001 <= recovered - stored <= 0.00000001 ==> found' == found
    ensures !(-0.00000001 <= recovered - stored <= 0.00000001) ==> found' == found + [kind]
  {
    found' := found;
    var diff := recovered - stored;
    if Abs(diff) > TOLERANCE {
      found' := found' + [kind];
    }
  }

  /** The checks, in order; validation passes when nothing is found. */
  method ValidateRecovery(r: Report, db: Option<DatabaseTotals>) returns (passed: bool, found: seq<Finding>)
    ensures passed <==> found == []
    ensures LevelsWithoutOrders in found <==> r.restored == 0 && (r.bidLevels > 0 || r.askLevels > 0)
    ensures NegativeBidVolume in found <==> r.bidVolume < 0.0
    ensures NegativeAskVolume in found <==> r.askVolume < 0.0
    ensures NegativeSpread in found <==> r.spread.Some? && r.spread.value < 0.0
    ensures BidMismatch in found <==> db.Some? && Abs(r.bidVolume - db.value.bidVolume) > TOLERANCE
    ensures AskMismatch in found <==> db.Some? && Abs(r.askVolume - db.value.askVolume) > TOLERANCE
  {
    found := BasicChecks(r);
    if db.Some? {
      found := ValidateVolume(found, BidMismatch, r.bidVolume, db.value.bidVolume);
      found := ValidateVolume(found, AskMismatch, r.askVolume, db.value.askVolume);
    }
    passed := found == [];
  }

  /** The checks that need no database. */
  method BasicChecks(r: Report) returns (found: seq<Finding>)
    ensures LevelsWithoutOrders in found <==> r.restored == 0 && (r.bidLevels > 0 || r.askLevels > 0)
    ensures NegativeBidVolume in found <==> r.bidVolume < 0.0
    ensures NegativeAskVolume in found <==> r.askVolume < 0.0
    ensures NegativeSpread in found <==> r.spread.Some? && r.spread.value < 0.0
    ensures BidMismatch !in found && AskMismatch !in found
  {
    found := [];
    if r.restored == 0 && (r.bidLevels > 0 || r.askLevels > 0) {
      found := found + [LevelsWithoutOrders];
    }
    if r.bidVolume < 0.0 {
      found := found + [NegativeBidVolume];
    }
    if r.askVolume < 0.0 {
      found := found + [NegativeAskVolume];
    }
    if r.spread.Some? && r.spread.value < 0.0 {
      found := found + [NegativeSpread];
    }
  }

  // What validation says about a rebuilt book.

  lemma {:induction false} SumAlongSplit(m: Queues, a: seq<Decimal>, b: seq<Decimal>)
    ensures SumAlong(m, a + b) == SumAlong(m, a) + SumAlong(m, b)
  {
    if a == [] {
      assert a + b == b;
    } else {
      SumAlongSplit(m, a[1..], b);
      assert (a + b)[1..] == a[1..] + b;
    }
  }

  /** The captured volume falls short of the side's volume by exactly the overlooked levels. */
  lemma CapturedVolume(m: Queues, side: OrderSide)
    ensures SumAlong(m, Top(PriceOrder(m.Keys, side))) + Overlooked(m, side) == SumRemaining(Flatten(m, side))
  {
    var ps := PriceOrder(m.Keys, side);
    FlattenSums(m, side);
    assert ps == Top(ps) + Bottom(ps);
    SumAlongSplit(m, Top(ps), Bottom(ps));
  }

  lemma SumInsert(xs: seq<OrderRec>, o: OrderRec)
    ensures SumRemaining(Insert(xs, o)) == SumRemaining(xs) + o.Remaining()
  {
    hide Insert, SumRemaining;
    var k := InsertPlace(xs, o);
    assert xs[..k] + xs[k..] == xs && xs[..k] + ([o] + xs[k..]) == xs[..k] + [o] + xs[k..];
    SumRemainingConcat(xs[..k], xs[k..]);
    SumRemainingConcat(xs[..k], [o] + xs[k..]);
    SumRemainingConcat([o], xs[k..]);
    SumOne(o);
  }

  lemma SumOne(o: OrderRec)
    ensures SumRemaining([o]) == o.Remaining()
  {
    assert [o][1..] == [];
  }

  /** Adding rows to a side adds exactly the volume that the database sums over them. */
  lemma {:induction false} RecoveredVolume(xs: seq<OrderRec>, rows: seq<OrderRec>, side: OrderSide)
    ensures SumRemaining(Added(xs, rows, side)) == SumRemaining(xs) + Total(Left, side, rows)
  {
    hide SumRemaining, Insert, Total;
    if rows == [] {
      NoTotal(side);
    } else {
      var front, r := rows[..|rows| - 1], rows[|rows| - 1];
      RecoveredVolume(xs, front, side);
      SumInsert(Added(xs, front, side), Reload(r));
      assert rows == front + [r];
      TotalAppend(Left, side, front, [r]);
      TotalOne(r, side);
    }
  }

  lemma NoTotal(side: OrderSide)
    ensures Total(Left, side, []) == 0.0
  {
  }

  lemma TotalOne(r: OrderRec, side: OrderSide)
    ensures Total(Left, side, [r]) == if r.side == side then r.Remaining() else 0.0
  {
    assert [r][1..] == [];
  }

  lemma {:induction false} NonNegativeSum(xs: seq<OrderRec>)
    requires forall i :: 0 <= i < |xs| ==> xs[i].IsResting()
    ensures SumRemaining(xs) >= 0.0
  {
    if xs != [] {
      NonNegativeSum(xs[1..]);
    }
  }

  lemma {:induction false} NonNegativeAlong(m: Queues, ps: seq<Decimal>)
    requires forall p :: p in m ==> SumRemaining(m[p]) >= 0.0
    ensures SumAlong(m, ps) >= 0.0
  {
    if ps != [] {
      NonNegativeAlong(m, ps[1..]);
    }
  }

  lemma LevelVolumes(s: Shape, side: OrderSide)
    requires s.SideOk(side, null, false)
    ensures forall p :: p in s.Queues(side) ==> SumRemaining(s.Queues(side)[p]) >= 0.0
  {
    forall p | p in s.Queues(side) ensures SumRemaining(s.Queues(side)[p]) >= 0.0 {
      LevelOf(s, side, p, null, false);
      var l := s.Tree(side)[p];
      forall i | 0 <= i < |s.Queue(l)| ensures s.Queue(l)[i].IsResting() {
        assert s.ElementOk(side, l, s.lv[l].orders[i], null);
      }
      NonNegativeSum(s.Queue(l));
    }
  }

  /** The totals of one side of a consistent book: captured, overlooked, and in all. */
  lemma SideTotals(s: Shape, side: OrderSide)
    requires s.Ok(null, false) && (side == Buy || side == Sell)
    ensures var m := s.Queues(side);
            var captured := SumAlong(m, Top(PriceOrder(m.Keys, side)));
            && captured >= 0.0 && Overlooked(m, side) >= 0.0
            && captured + Overlooked(m, side) == SumRemaining(Flatten(m, side))
            && (|Top(PriceOrder(m.Keys, side))| == 0 <==> Flatten(m, side) == [])
  {
    hide Flatten, SumAlong, PriceOrder, SumRemaining;
    var m := s.Queues(side);
    LevelVolumes(s, side);
    NonNegativeAlong(m, Top(PriceOrder(m.Keys, side)));
    NonNegativeAlong(m, Bottom(PriceOrder(m.Keys, side)));
    CapturedVolume(m, side);
    QueuesAreOk(s, side);
    LevelsIfOrders(m, side);
  }

  lemma LevelsIfOrders(m: Queues, side: OrderSide)
    requires QueuesOk(m, side)
    ensures PriceOrder(m.Keys, side) == [] <==> Flatten(m, side) == []
  {
    if m.Keys != {} {
      assert m[Best(m.Keys, side)] != [];
    }
  }

  ghost predicate CrossedBook(bids: seq<OrderRec>, asks: seq<OrderRec>) {
    bids != [] && asks != [] && asks[0].price < bids[0].price
  }

  /** The captured volume of a side is within tolerance of what the database sums over the rows: what
      was in the book before and what lies beyond the best 100 levels differ by no more. */
  ghost predicate WithinTolerance(before: seq<OrderRec>, m: Queues, side: OrderSide) {
    Abs(SumRemaining(before) - Overlooked(m, side)) <= TOLERANCE
  }

  /** Rebuild, capture, validate.  Validation passes exactly when the book is not crossed, it is
      empty if there were no rows, and what was there before makes up for what lies beyond the best
      100 levels of each side; in a book that was empty, when the latter is within tolerance. */
  method RecoverOrderbook(book: OrderBook, rows: seq<OrderRec>, totalsAvailable: bool)
    returns (passed: bool, found: seq<Finding>, report: Report)
    requires book.Valid() && RowsFit(rows)
    requires forall i :: 0 <= i < |rows| ==> rows[i].id !in book.index
    modifies book, book.bids, book.asks, book.lv.Keys
    ensures book.Valid()
    ensures book.Flat(Buy) == Added(old(book.Flat(Buy)), rows, Buy)
    ensures book.Flat(Sell) == Added(old(book.Flat(Sell)), rows, Sell)
    ensures passed <==>
            && !CrossedBook(book.Flat(Buy), book.Flat(Sell))
            && (rows == [] ==> book.Flat(Buy) == [] && book.Flat(Sell) == [])
            && (totalsAvailable ==>
                  && WithinTolerance(old(book.Flat(Buy)), book.Now().Queues(Buy), Buy)
                  && WithinTolerance(old(book.Flat(Sell)), book.Now().Queues(Sell), Sell))
    ensures report.bidVolume + Overlooked(book.Now().Queues(Buy), Buy)
         == SumRemaining(old(book.Flat(Buy))) + Total(Left, Buy, rows)
    ensures report.askVolume + Overlooked(book.Now().Queues(Sell), Sell)
         == SumRemaining(old(book.Flat(Sell))) + Total(Left, Sell, rows)
  {
    hide Shape.Ok, OrderBook.Mirrored, Flatten, Shape.Queues, PriceOrder, Added, Total, SumAlong, Top, Overlooked,
         SumRemaining;
    ghost var bids, asks := book.Flat(Buy), book.Flat(Sell);
    RebuildBook(book, rows);
    report := CapturePostRecoveryState(book, |rows|);
    var db := if totalsAvailable then Some(DatabaseTotals(Total(Left, Buy, rows), Total(Left, Sell, rows))) else None;
    passed, found := ValidateRecovery(report, db);
    SideTotals(book.Now(), Buy);
    SideTotals(book.Now(), Sell);
    RecoveredVolume(bids, rows, Buy);
    RecoveredVolume(asks, rows, Sell);
    NothingFound(found);
  }

  lemma NothingFound(found: seq<Finding>)
    ensures found == [] <==>
            && LevelsWithoutOrders !in found && NegativeBidVolume !in found && NegativeAskVolume !in found
            && NegativeSpread !in found && BidMismatch !in found && AskMismatch !in found
  {
    if found != [] {
      var f := found[0];
      assert f in found;
      assert f == LevelsWithoutOrders || f == NegativeBidVolume || f == NegativeAskVolume
          || f == NegativeSpread || f == BidMismatch || f == AskMismatch;
    }
  }

  /** With at most 100 levels on a side nothing is overlooked. */
  lemma NothingOverlooked(m: Queues, side: OrderSide)
    requires |m.Keys| <= 100
    ensures Overlooked(m, side) == 0.0
  {
    PriceOrderKeys(m.Keys, side);
  }

  // The rows of a reachable book.

  lemma {:induction false} SelectedDistinct(xs: seq<OrderRec>, ins: string)
    requires DistinctIds(xs)
    ensures DistinctIds(Selected(xs, ins))
  {
    hide Wanted;
    if xs != [] {
      SelectedDistinct(xs[1..], ins);
      SelectedMembers(xs[1..], ins);
    }
  }

  lemma PermutedDistinct(xs: seq<OrderRec>, ys: seq<OrderRec>)
    requires DistinctIds(xs) && multiset(xs) == multiset(ys)
    ensures DistinctIds(ys)
  {
    forall i, j | 0 <= i < j < |ys| ensures ys[i].id != ys[j].id {
      assert ys[i] in multiset(ys) && ys[j] in multiset(ys);
      OnceIn(xs, ys[i]);
      if ys[i] == ys[j] { TwiceIn(ys, i, j); }
      var a :| 0 <= a < |xs| && xs[a] == ys[i];
      var b :| 0 <= b < |xs| && xs[b] == ys[j];
    }
  }

  lemma TableDistinct(s: State)
    requires OnePlace(s)
    ensures DistinctIds(Table(s))
  {
    hide Ids, DistinctIds;
    IdsAppend(s.bids, s.asks);
    IdsAppend(s.bids + s.asks, s.done);
    DistinctBy(Table(s), multiset{}, s.arrival.Keys);
  }

  lemma TableRow(s: State, r: OrderRec)
    requires Inv(s) && r in Table(s) && r.CanBeFilled()
    ensures (r.side == Buy || r.side == Sell) && 0.0 <= r.filled < r.quantity
  {
    hide Uncrossed, OnePlace, LogKnown, FillsAgree, TotalsAgree, Ordered, Known;
    assert r in s.bids || r in s.asks || r in s.done;
    if r in s.done {
      var i :| 0 <= i < |s.done| && s.done[i] == r;
      assert Ended(s.done[i]);
    }
  }

  /** The rows of any reachable book can be restored, market leftovers included. */
  lemma ReachableRows(s: State, ins: string, rows: seq<OrderRec>)
    requires Inv(s) && QueryResult(Table(s), ins, rows)
    ensures RowsFit(rows)
  {
    hide Selected, Table, DistinctIds, SideInv, Uncrossed, OnePlace, AllEnded, LogKnown, FillsAgree, TotalsAgree;
    TableDistinct(s);
    SelectedDistinct(Table(s), ins);
    PermutedDistinct(Selected(Table(s), ins), rows);
    forall i | 0 <= i < |rows|
      ensures (rows[i].side == Buy || rows[i].side == Sell) && rows[i].CanBeFilled()
      ensures 0.0 <= rows[i].filled < rows[i].quantity
    {
      RowOfTable(s, ins, rows, rows[i]);
      TableRow(s, rows[i]);
    }
  }

  /** A reachable book that recovery gives back is not crossed, so that with at most 100 levels a side
      every check passes. */
  lemma ReachableNotCrossed(s: State, ins: string, rows: seq<OrderRec>)
    requires Inv(s) && QueryResult(Table(s), ins, rows) && Restorable(s, ins)
    ensures !CrossedBook(Added([], rows, Buy), Added([], rows, Sell))
  {
    hide QueryResult, Rebuilt, Strays, CreatedInOrder, AllOf, Added;
    AddedToNothing(rows, Buy);
    AddedToNothing(rows, Sell);
    RoundTrip(s, ins, rows);
    hide SideInv, OnePlace, AllEnded, LogKnown, FillsAgree, TotalsAgree;
  }

  lemma LevelCount(b: Shape, side: OrderSide, xs: seq<OrderRec>)
    requires b.Ok(null, false) && (side == Buy || side == Sell) && Flatten(b.Queues(side), side) == ReloadAll(xs)
    requires |Prices(xs)| <= 100
    ensures Overlooked(b.Queues(side), side) == 0.0
  {
    hide Flatten, Shape.Queues, Overlooked, ReloadAll, Prices, Shape.IndexOk;
    QueuesAreOk(b, side);
    LevelsOfList(b.Queues(side), side);
    SamePrices(xs);
    NothingOverlooked(b.Queues(side), side);
  }

  /** Recovery of any reachable book that can be restored and has at most 100 levels a side gives the
      book back and passes every check. */
  method RecoverReachable(
    book: OrderBook, ghost s: State, ghost ins: string, rows: seq<OrderRec>, totalsAvailable: bool)
    returns (passed: bool)
    requires book.Valid() && book.index == map[] && book.Flat(Buy) == [] && book.Flat(Sell) == []
    requires Inv(s) && QueryResult(Table(s), ins, rows) && Restorable(s, ins)
    requires |Prices(s.bids)| <= 100 && |Prices(s.asks)| <= 100
    modifies book, book.bids, book.asks, book.lv.Keys
    ensures passed && book.Valid()
    ensures SameOrders(book.Flat(Buy), s.bids) && SameOrders(book.Flat(Sell), s.asks)
    ensures AllReloaded(book.Flat(Buy)) && AllReloaded(book.Flat(Sell))
  {
    hide Shape.Ok, OrderBook.Mirrored, Flatten, Shape.Queues, Overlooked, Added, Prices, QueryResult, Inv, Restorable,
         ReloadAll, Rebuilt, SameOrders;
    ReachableRows(s, ins, rows);
    ReachableNotCrossed(s, ins, rows);
    RestoredLists(s, ins, rows);
    var found, report;
    passed, found, report := RecoverOrderbook(book, rows, totalsAvailable);
    LevelCount(book.Now(), Buy, s.bids);
    LevelCount(book.Now(), Sell, s.asks);
    SameIfReloaded(s.bids, s.bids);
    SameIfReloaded(s.asks, s.asks);
  }

  lemma RestoredLists(s: State, ins: string, rows: seq<OrderRec>)
    requires Inv(s) && QueryResult(Table(s), ins, rows) && Restorable(s, ins)
    ensures Added([], rows, Buy) == ReloadAll(s.bids) && Added([], rows, Sell) == ReloadAll(s.asks)
    ensures rows == [] ==> s.bids == [] && s.asks == []
  {
    hide Inv, QueryResult, Strays, CreatedInOrder, AllOf;
    AddedToNothing(rows, Buy);
    AddedToNothing(rows, Sell);
    RoundTrip(s, ins, rows);
  }

  // Equal lists are equal books.

  ghost function ReloadQueues(m: Queues): Queues {
    map p | p in m :: ReloadAll(m[p])
  }

  lemma {:induction false} ReloadConcat(a: seq<OrderRec>, b: seq<OrderRec>)
    ensures ReloadAll(a + b) == ReloadAll(a) + ReloadAll(b)
  {
  }

  lemma {:induction false} AtPriceReloaded(xs: seq<OrderRec>, p: Decimal)
    ensures AtPrice(ReloadAll(xs), p) == ReloadAll(AtPrice(xs, p))
  {
    if xs != [] {
      assert ReloadAll(xs)[1..] == ReloadAll(xs[1..]);
      AtPriceReloaded(xs[1..], p);
      ReloadConcat(if xs[0].price == p then [xs[0]] else [], AtPrice(xs[1..], p));
    }
  }

  lemma {:induction false} FlattenReloaded(m: Queues, side: OrderSide)
    ensures Flatten(ReloadQueues(m), side) == ReloadAll(Flatten(m, side))
    decreases |m.Keys|
  {
    assert ReloadQueues(m).Keys == m.Keys;
    if m.Keys != {} {
      var p := Best(m.Keys, side);
      var rest := m - {p};
      assert rest.Keys == m.Keys - {p};
      FlattenReloaded(rest, side);
      assert ReloadQueues(m) - {p} == ReloadQueues(rest);
      ReloadConcat(m[p], Flatten(rest, side));
    }
  }

  /** The lists are equal up to reloading exactly when the levels are. */
  lemma ReloadedLevels(m: Queues, m': Queues, side: OrderSide)
    requires QueuesOk(m, side) && QueuesOk(m', side)
    ensures Flatten(m', side) == ReloadAll(Flatten(m, side)) <==> m' == ReloadQueues(m)
  {
    hide Flatten, ReloadAll, AtPrice;
    FlattenReloaded(m, side);
    if Flatten(m', side) == ReloadAll(Flatten(m, side)) {
      LevelsOfList(m, side);
      LevelsOfList(m', side);
      var xs := Flatten(m, side);
      SamePrices(xs);
      assert m'.Keys == m.Keys;
      forall p | p in m ensures m'[p] == ReloadAll(m[p]) {
        AtPriceReloaded(xs, p);
      }
      assert m' == ReloadQueues(m);
    }
  }

  lemma SamePrices(xs: seq<OrderRec>)
    ensures Prices(ReloadAll(xs)) == Prices(xs)
  {
    assert forall i :: 0 <= i < |xs| ==> ReloadAll(xs)[i].price == xs[i].price;
    forall p ensures p in Prices(ReloadAll(xs)) <==> p in Prices(xs) {
      if p in Prices(xs) {
        var i :| 0 <= i < |xs| && xs[i].price == p;
        assert ReloadAll(xs)[i].price == p;
      }
    }
  }

  ghost function ListOf(b: Shape, side: OrderSide): seq<OrderRec> { Flatten(b.Queues(side), side) }

  /** One side of `b'` has the levels of `b` with the same orders in each queue and the same volumes. */
  ghost predicate SameSide(b: Shape, b': Shape, side: OrderSide) {
    && b'.Queues(side).Keys == b.Queues(side).Keys
    && (forall p :: p in b.Queues(side) ==> SameOrders(b'.Queues(side)[p], b.Queues(side)[p]))
    && forall p :: p in b.Tree(side) ==>
         && p in b'.Tree(side) && b.Tree(side)[p] in b.lv && b'.Tree(side)[p] in b'.lv
         && b'.lv[b'.Tree(side)[p]].volume == b.lv[b.Tree(side)[p]].volume
  }

  /** The index entry of `id` names the same order in the level of the same price. */
  ghost predicate SameEntry(b: Shape, b': Shape, id: Id) {
    && id in b.index && id in b'.index
    && b.index[id].element in b.ov && b'.index[id].element in b'.ov
    && SameOrder(b'.ov[b'.index[id].element], b.ov[b.index[id].element])
    && b'.index[id].level.price == b.index[id].level.price
  }

  /** The same levels, queue orders, volumes and index. */
  ghost predicate SameBook(b: Shape, b': Shape) {
    && SameSide(b, b', Buy) && SameSide(b, b', Sell)
    && b'.index.Keys == b.index.Keys
    && forall id :: id in b.index ==> SameEntry(b, b', id)
  }

  lemma {:induction false} SumSame(xs: seq<OrderRec>, ys: seq<OrderRec>)
    requires SameOrders(xs, ys)
    ensures SumRemaining(xs) == SumRemaining(ys)
  {
    if xs != [] {
      assert SameOrder(xs[0], ys[0]);
      SumSame(xs[1..], ys[1..]);
    }
  }

  /** Lists agree exactly when levels and queues do. */
  lemma SameLevels(m: Queues, m': Queues, side: OrderSide)
    requires QueuesOk(m, side) && QueuesOk(m', side)
    ensures SameOrders(Flatten(m', side), Flatten(m, side)) <==>
            m'.Keys == m.Keys && forall p :: p in m ==> SameOrders(m'[p], m[p])
  {
    hide Flatten, ReloadAll, SameOrders;
    SameIfReloaded(Flatten(m', side), Flatten(m, side));
    FlattenReloaded(m', side);
    ReloadedOk(m', side);
    ReloadedLevels(m, ReloadQueues(m'), side);
    QueuewiseSame(m, m');
  }

  lemma ReloadedOk(m: Queues, side: OrderSide)
    requires QueuesOk(m, side)
    ensures QueuesOk(ReloadQueues(m), side)
  {
    forall p | p in m ensures QueueOk(ReloadAll(m[p]), side, p) {
      assert QueueOk(m[p], side, p);
    }
  }

  lemma QueuewiseSame(m: Queues, m': Queues)
    ensures ReloadQueues(m') == ReloadQueues(m) <==> m'.Keys == m.Keys && forall p :: p in m ==> SameOrders(m'[p], m[p])
  {
    hide ReloadAll, SameOrders;
    assert ReloadQueues(m').Keys == m'.Keys && ReloadQueues(m).Keys == m.Keys;
    forall p | p in m && p in m' ensures SameOrders(m'[p], m[p]) <==> ReloadQueues(m')[p] == ReloadQueues(m)[p] {
      SameIfReloaded(m'[p], m[p]);
    }
    if m'.Keys == m.Keys && forall p :: p in m ==> SameOrders(m'[p], m[p]) {
      assert forall p :: p in m ==> ReloadQueues(m')[p] == ReloadQueues(m)[p];
    }
  }

  lemma SameVolumes(b: Shape, b': Shape, side: OrderSide)
    requires b.SideOk(side, null, false) && b'.SideOk(side, null, false)
    requires b'.Queues(side).Keys == b.Queues(side).Keys
    requires forall p :: p in b.Queues(side) ==> SameOrders(b'.Queues(side)[p], b.Queues(side)[p])
    ensures SameSide(b, b', side)
  {
    hide SumRemaining, SameOrders;
    QueueKeys(b, side);
    QueueKeys(b', side);
    forall p | p in b.Tree(side)
      ensures && p in b'.Tree(side) && b.Tree(side)[p] in b.lv && b'.Tree(side)[p] in b'.lv
              && b'.lv[b'.Tree(side)[p]].volume == b.lv[b.Tree(side)[p]].volume
    {
      assert p in b.Queues(side).Keys && p in b'.Tree(side);
      LevelOf(b, side, p, null, false);
      LevelOf(b', side, p, null, false);
      SumSame(b'.Queues(side)[p], b.Queues(side)[p]);
    }
  }

  lemma SameEntryOf(b: Shape, b': Shape, id: Id)
    requires b.Ok(null, false) && b'.Ok(null, false) && id in b.index
    requires SameOrders(ListOf(b', Buy), ListOf(b, Buy)) && SameOrders(ListOf(b', Sell), ListOf(b, Sell))
    ensures SameEntry(b, b', id)
  {
    hide Shape.SideOk, Flatten, Shape.Queues;
    IndexedIsListed(b, id);
    var o := b.index[id].element;
    var k :| 0 <= k < |ListOf(b, o.side)| && ListOf(b, o.side)[k] == b.ov[o];
    assert SameOrder(ListOf(b', o.side)[k], b.ov[o]);
    ListedIsIndexed(b', o.side, k);
    EntryLevel(b, id);
    EntryLevel(b', id);
  }

  lemma EntryLevel(b: Shape, id: Id)
    requires b.Ok(null, false) && id in b.index
    ensures b.index[id].element in b.ov && b.index[id].level.price == b.ov[b.index[id].element].price
  {
    Found(b, id, null, false);
    var o, l := b.index[id].element, b.index[id].level;
    LevelOf(b, o.side, o.price, null, false);
    var i :| 0 <= i < |b.lv[l].orders| && b.lv[l].orders[i] == o;
    assert b.ElementOk(o.side, l, o, null);
  }

  lemma SameIds(xs: seq<OrderRec>, ys: seq<OrderRec>)
    requires SameOrders(xs, ys)
    ensures ListedIds(xs) == ListedIds(ys)
  {
    forall id ensures id in ListedIds(xs) <==> id in ListedIds(ys) {
      if id in ListedIds(xs) {
        var i :| 0 <= i < |xs| && xs[i].id == id;
        assert SameOrder(xs[i], ys[i]) && ys[i].id == id;
      }
      if id in ListedIds(ys) {
        var i :| 0 <= i < |ys| && ys[i].id == id;
        assert SameOrder(xs[i], ys[i]) && xs[i].id == id;
      }
    }
  }

  /** Two consistent books agree in levels, queue orders, volumes and index exactly when their lists
      agree, field by field. */
  lemma SameBookExactly(b: Shape, b': Shape)
    requires b.Ok(null, false) && b'.Ok(null, false)
    ensures SameBook(b, b') <==>
            SameOrders(ListOf(b', Buy), ListOf(b, Buy)) && SameOrders(ListOf(b', Sell), ListOf(b, Sell))
  {
    hide Flatten, Shape.Queues, Shape.IndexOk, Shape.SideOk, SameOrders, SameEntry;
    QueuesAreOk(b, Buy);
    QueuesAreOk(b, Sell);
    QueuesAreOk(b', Buy);
    QueuesAreOk(b', Sell);
    SameLevels(b.Queues(Buy), b'.Queues(Buy), Buy);
    SameLevels(b.Queues(Sell), b'.Queues(Sell), Sell);
    if SameOrders(ListOf(b', Buy), ListOf(b, Buy)) && SameOrders(ListOf(b', Sell), ListOf(b, Sell)) {
      SameVolumes(b, b', Buy);
      SameVolumes(b, b', Sell);
      SidesListed(b);
      SidesListed(b');
      SameIds(ListOf(b', Buy), ListOf(b, Buy));
      SameIds(ListOf(b', Sell), ListOf(b, Sell));
      forall id | id in b.index ensures SameEntry(b, b', id) {
        SameEntryOf(b, b', id);
      }
    }
  }

  /** The book that recovery builds from the rows of a state has the live book's levels, queue
      orders, volumes and index exactly when the rows give the lists back; when they do for every
      answer of the database is what `RestoresExactly` says. */
  lemma RecoveredBookExactly(s: State, rows: seq<OrderRec>, live: Shape, b: Shape)
    requires live.Ok(null, false) && ListOf(live, Buy) == s.bids && ListOf(live, Sell) == s.asks
    requires b.Ok(null, false) && ListOf(b, Buy) == Added([], rows, Buy) && ListOf(b, Sell) == Added([], rows, Sell)
    ensures SameBook(live, b) <==> GivesBack(s, rows)
  {
    hide Shape.Ok, SameBook, ListOf, Added, ReloadAll, Rebuilt, SameOrders;
    SameBookExactly(live, b);
    AddedToNothing(rows, Buy);
    AddedToNothing(rows, Sell);
  }
}
