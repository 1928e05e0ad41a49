/** Short runs after which recovery does not give the book back, once without validation noticing,
    and rows of a correct book that validation refuses.
 */
module RecoveryExamples {
  import opened Orders
  import opened PriceTime
  import opened Matching
  import opened Runs
  import opened RunInvariants
  import opened Rebuilding
  import opened BookShape
  import opened OrderBooks
  import opened Recovery

  const ASK := OrderRec("ask", "client", "ABC", Sell, Limit, 100.0, 1.0, 0.0, Open, 2)
  const MARKET := OrderRec("market", "client", "ABC", Buy, Market, 0.0, 2.0, 0.0, Open, 3)
  const EARLIER := ASK.(id := "earlier", createdAt := 1)

  const LEFTOVER := MARKET.(filled := 1.0, status := PartiallyFilled)

  function FirstAsk(): State { Accept(EMPTY, ASK) }

  lemma OneAsk()
    ensures ASK.IsValid() && FirstAsk().asks == [ASK] && FirstAsk().bids == [] && FirstAsk().done == []
    ensures FirstAsk().arrival == map["ask" := 0]
  {
    assert Matched(EMPTY, ASK) == Match([], ASK, [], []);
    assert Insert([], ASK) == [ASK];
  }

  lemma TwoSteps(a: OrderRec, b: OrderRec)
    requires a.IsValid() && b.IsValid()
    ensures Run(EMPTY, [New(a), New(b)]) == Accept(Accept(EMPTY, a), b)
    ensures FreshRun(EMPTY, [New(a), New(b)]) == (Fresh(EMPTY, New(a)) && Fresh(Accept(EMPTY, a), New(b)))
  {
    hide Accept, Fresh;
    var s1 := Accept(EMPTY, a);
    assert [New(a), New(b)][1..] == [New(b)];
    assert [New(b)][1..] == [];
    assert Run(s1, [New(b)]) == Run(Step(s1, New(b)), []);
    assert FreshRun(s1, [New(b)]) == Fresh(s1, New(b)) by {
      assert FreshRun(Step(s1, New(b)), []);
    }
  }

  /** A market buy of two against an ask of one stays stored as partially filled. */
  lemma MarketLeftover()
    ensures var s := Accept(FirstAsk(), MARKET);
            s.asks == [] && s.bids == [] && s.done == [ASK.AfterFill(1.0), LEFTOVER]
  {
    OneAsk();
    var taken := ASK.AfterFill(1.0);
    var left := MARKET.AfterFill(1.0);
    assert taken.IsFilled() && left == LEFTOVER;
    assert [ASK][1..] == [];
    assert Greedy(left, []) == Match([], left, [], []);
    assert Matched(FirstAsk(), MARKET).aggressor == left;
    assert Matched(FirstAsk(), MARKET).rest == [];
    assert Settled(left) == left && !Rests(left);
  }

  ghost function StrayState(): State { Run(EMPTY, [New(ASK), New(MARKET)]) }

  /** What the run leaves, and what the query returns for it. */
  lemma StrayRows(rows: seq<OrderRec>)
    requires QueryResult(Table(StrayState()), "ABC", rows)
    ensures FreshRun(EMPTY, [New(ASK), New(MARKET)]) && Inv(StrayState())
    ensures StrayState().bids == [] && StrayState().asks == [] && Strays(StrayState().done, "ABC") == [LEFTOVER]
    ensures rows == [LEFTOVER]
  {
    hide Accept, Run, FreshRun, Inv, Selected, QueryResult;
    OneAsk();
    TwoSteps(ASK, MARKET);
    assert MARKET.IsValid() && Fresh(EMPTY, New(ASK)) && Fresh(FirstAsk(), New(MARKET));
    Reachable([New(ASK), New(MARKET)]);
    MarketLeftover();
    assert [LEFTOVER][1..] == [] && StrayState().done[1..] == [LEFTOVER];
    SelectedRows(StrayState(), "ABC");
    assert [] + [] + [LEFTOVER] == [LEFTOVER];
    OnlyRow(rows, Table(StrayState()));
  }

  lemma OnlyRow(rows: seq<OrderRec>, table: seq<OrderRec>)
    requires QueryResult(table, "ABC", rows) && Selected(table, "ABC") == [LEFTOVER]
    ensures rows == [LEFTOVER]
  {
    assert |multiset(rows)| == |rows| && |multiset([LEFTOVER])| == 1;
    assert rows[0] in multiset(rows);
  }

  /** Recovery puts a partially filled market order into the book. */
  lemma StrayExample()
    ensures FreshRun(EMPTY, [New(ASK), New(MARKET)]) && !Restores(StrayState(), "ABC")
  {
    hide Run, FreshRun, Inv, Strays, CreatedInOrder;
    var rows := SomeResult(Table(StrayState()), "ABC");
    StrayRows(rows);
    RestoresExactly(StrayState(), "ABC");
  }

  // Other instruments.

  /** An order of another instrument than the recovery manager's is matched and kept like any other,
      and is not recovered. */
  lemma ForeignExample()
    ensures FreshRun(EMPTY, [New(ASK)])
    ensures Restores(Run(EMPTY, [New(ASK)]), "ABC") && !Restores(Run(EMPTY, [New(ASK)]), "XYZ")
  {
    hide Accept, Restores, Inv;
    OneAsk();
    assert [New(ASK)][1..] == [];
    assert Run(EMPTY, [New(ASK)]) == FirstAsk();
    assert FreshRun(EMPTY, [New(ASK)]) by { assert FreshRun(FirstAsk(), []); }
    Reachable([New(ASK)]);
    RestoresExactly(FirstAsk(), "ABC");
    RestoresExactly(FirstAsk(), "XYZ");
    assert FirstAsk().asks[0].instrument == "ABC";
  }

  /** The leftover of the stray example does no harm to the recovery of another instrument. */
  lemma ForeignLeftover()
    ensures Restores(StrayState(), "XYZ")
  {
    hide Run, FreshRun, Inv, Restores;
    var rows := SomeResult(Table(StrayState()), "ABC");
    StrayRows(rows);
    MarketLeftover();
    StrayDone();
    RestoresExactly(StrayState(), "XYZ");
  }

  lemma StrayDone()
    ensures Strays(StrayState().done, "XYZ") == []
  {
    hide Accept, Run, FreshRun;
    OneAsk();
    TwoSteps(ASK, MARKET);
    MarketLeftover();
    assert StrayState().done[1..] == [LEFTOVER] && [LEFTOVER][1..] == [];
  }

  /** A market buy of one instrument takes an ask of another, and the trade names the buyer's. */
  lemma CrossInstrumentTrade()
    ensures var o := MARKET.(instrument := "XYZ");
            var ts := Matched(FirstAsk(), o).trades;
            |ts| == 1 && ts[0].buyId == o.id && ts[0].sellId == ASK.id && ts[0].instrument == "XYZ" != ASK.instrument
  {
    OneAsk();
    var o := MARKET.(instrument := "XYZ");
    assert ASK.AfterFill(1.0).IsFilled() && [ASK][1..] == [];
    assert Greedy(o.AfterFill(1.0), []) == Match([], o.AfterFill(1.0), [], []);
  }

  lemma FewLevels(b: Shape, side: OrderSide)
    requires b.Ok(null, false) && (side == Buy || side == Sell) && |ListOf(b, side)| <= 1
    ensures Overlooked(b.Queues(side), side) == 0.0
  {
    hide Flatten, Shape.Queues, Overlooked, AtPrice;
    var xs := ListOf(b, side);
    QueuesAreOk(b, side);
    LevelsOfList(b.Queues(side), side);
    assert xs == [] ==> Prices(xs) == {};
    assert |xs| == 1 ==> Prices(xs) == {xs[0].price};
    assert |b.Queues(side).Keys| <= 1;
    NothingOverlooked(b.Queues(side), side);
  }

  /** Validation does not notice: the totals are summed over the same rows. */
  method StrayPassesValidation(book: OrderBook, rows: seq<OrderRec>) returns (passed: bool)
    requires book.Valid() && book.index == map[] && book.Flat(Buy) == [] && book.Flat(Sell) == []
    requires QueryResult(Table(StrayState()), "ABC", rows)
    modifies book, book.bids, book.asks, book.lv.Keys
    ensures passed && book.Flat(Buy) == [Reload(LEFTOVER)] && StrayState().bids == []
  {
    hide Shape.Ok, OrderBook.Mirrored, Flatten, Shape.Queues, QueryResult, Table, Inv, Overlooked;
    StrayRows(rows);
    ReachableRows(StrayState(), "ABC", rows);
    AddedLeftover();
    var found, report;
    passed, found, report := RecoverOrderbook(book, rows, true);
    FewLevels(book.Now(), Buy);
    FewLevels(book.Now(), Sell);
  }

  lemma AddedLeftover()
    ensures Added([], [LEFTOVER], Buy) == [Reload(LEFTOVER)] && Added([], [LEFTOVER], Sell) == []
  {
    assert [LEFTOVER][..0] == [];
    assert Insert([], Reload(LEFTOVER)) == [Reload(LEFTOVER)];
  }

  lemma SecondAsk()
    ensures Accept(FirstAsk(), EARLIER).asks == [ASK, EARLIER]
  {
    OneAsk();
    assert Matched(FirstAsk(), EARLIER) == Match([], EARLIER, [], []);
    assert [ASK][1..] == [];
    assert Insert([], EARLIER) == [EARLIER];
    assert Insert([ASK], EARLIER) == [ASK] + [EARLIER];
  }

  /** Recovery swaps two asks of one price that arrived in the opposite order of their creation. */
  lemma SwappedExample()
    ensures var cs := [New(ASK), New(EARLIER)]; FreshRun(EMPTY, cs) && !Restores(Run(EMPTY, cs), "ABC")
  {
    hide Accept, Run, FreshRun, Restores, Inv, Strays;
    var cs := [New(ASK), New(EARLIER)];
    OneAsk();
    TwoSteps(ASK, EARLIER);
    assert EARLIER.IsValid() && Fresh(EMPTY, New(ASK)) && Fresh(FirstAsk(), New(EARLIER));
    Reachable(cs);
    SecondAsk();
    var asks := Run(EMPTY, cs).asks;
    assert asks[0].price == asks[1].price && asks[0].createdAt > asks[1].createdAt;
    RestoresExactly(Run(EMPTY, cs), "ABC");
  }

  // A correct book of 101 levels.

  function Digits(n: nat): string { if n == 0 then "" else Digits(n - 1) + "1" }

  lemma {:induction false} DigitsLength(n: nat)
    ensures |Digits(n)| == n
  {
    if n > 0 { DigitsLength(n - 1); }
  }

  function AskAt(n: nat): OrderRec {
    OrderRec(Digits(n), "", "ABC", Sell, Limit, n as real, 1.0, 0.0, Open, n)
  }

  /** `n` asks of quantity 1, one at each price. */
  function Asks(n: nat): (rows: seq<OrderRec>)
    ensures |rows| == n && forall i :: 0 <= i < n ==> rows[i] == AskAt(i + 1)
  {
    if n == 0 then [] else Asks(n - 1) + [AskAt(n)]
  }

  lemma AsksFit(n: nat)
    ensures RowsFit(Asks(n))
  {
    hide Digits;
    forall i, j | 0 <= i < j < n ensures Asks(n)[i].id != Asks(n)[j].id {
      DigitsLength(i + 1);
      DigitsLength(j + 1);
    }
  }

  lemma {:induction false} InsertLast(xs: seq<OrderRec>, o: OrderRec)
    requires forall i :: 0 <= i < |xs| ==> AtLeastAsGood(o.side, xs[i].price, o.price)
    ensures Insert(xs, o) == xs + [o]
  {
    if xs != [] {
      InsertLast(xs[1..], o);
      assert [xs[0]] + (xs[1..] + [o]) == xs + [o];
    }
  }

  lemma {:induction false} AsksAdded(n: nat)
    ensures Added([], Asks(n), Sell) == Asks(n) && Added([], Asks(n), Buy) == []
  {
    if n > 0 {
      assert Asks(n)[..n - 1] == Asks(n - 1);
      AsksAdded(n - 1);
      InsertLast(Asks(n - 1), AskAt(n));
    }
  }

  lemma {:induction false} AskPrices(n: nat)
    ensures |Prices(Asks(n))| == n && forall p :: p in Prices(Asks(n)) ==> p <= n as real
    decreases n
  {
    if n > 0 {
      AskPrices(n - 1);
      var xs, o := Asks(n - 1), AskAt(n);
      assert Asks(n) == xs + [o];
      MorePrices(xs, o);
      hide Prices, Asks;
      assert o.price !in Prices(xs);
    }
  }

  lemma {:induction false} AskVolumes(n: nat, p: Decimal)
    requires p in Prices(Asks(n))
    ensures SumRemaining(AtPrice(Asks(n), p)) == 1.0
    decreases n
  {
    hide SumRemaining, AtPrice;
    var xs, o := Asks(n - 1), AskAt(n);
    assert Asks(n) == xs + [o];
    AskPrices(n - 1);
    MorePrices(xs, o);
    hide Prices, Asks;
    AtPriceConcat(xs, [o], p);
    SumRemainingConcat(AtPrice(xs, p), AtPrice([o], p));
    AtOnePrice([o], p, o.price);
    SumNone();
    SumOne(o);
    if p == o.price {
      NoneAtPrice(xs, p);
    } else {
      AskVolumes(n - 1, p);
    }
  }

  lemma SumNone()
    ensures SumRemaining([]) == 0.0
  {
  }

  lemma MorePrices(xs: seq<OrderRec>, o: OrderRec)
    ensures Prices(xs + [o]) == Prices(xs) + {o.price}
  {
    var ys := xs + [o];
    forall p ensures p in Prices(ys) <==> p in Prices(xs) + {o.price} {
      if p in Prices(xs) {
        var i :| 0 <= i < |xs| && xs[i].price == p;
        assert ys[i].price == p;
      }
      assert ys[|xs|].price == o.price;
    }
  }

  lemma {:induction false} NoneAtPrice(xs: seq<OrderRec>, p: Decimal)
    requires p !in Prices(xs)
    ensures AtPrice(xs, p) == []
  {
    if xs != [] {
      assert xs[0].price in Prices(xs);
      forall i | 0 <= i < |xs[1..]| ensures xs[1..][i].price in Prices(xs) {
        assert xs[i + 1].price in Prices(xs);
      }
      NoneAtPrice(xs[1..], p);
    }
  }

  /** Beyond 100 levels, the rest of such a book is overlooked. */
  lemma AsksOverlooked(b: Shape)
    requires b.Ok(null, false) && ListOf(b, Sell) == Asks(101)
    ensures Overlooked(b.Queues(Sell), Sell) == 1.0
  {
    hide Flatten, Shape.Queues, Asks, AtPrice, SumRemaining, Shape.IndexOk, PriceOrder, Prices;
    var m := b.Queues(Sell);
    QueuesAreOk(b, Sell);
    LevelsOfList(m, Sell);
    AskPrices(101);
    PriceOrderKeys(m.Keys, Sell);
    var ps := PriceOrder(m.Keys, Sell);
    assert |ps| == 101;
    var last := ps[100];
    assert Bottom(ps) == [last];
    assert last in m.Keys;
    AskVolumes(101, last);
    OneLevel(m, last);
    assert m[last] == AtPrice(Asks(101), last);
  }

  lemma OneLevel(m: Queues, p: Decimal)
    requires p in m
    ensures SumAlong(m, [p]) == SumRemaining(m[p])
  {
    assert [p][1..] == [];
  }

  /** Validation refuses the rows of a correct book of 101 asks. */
  method DeepBookFailsValidation(book: OrderBook) returns (passed: bool)
    requires book.Valid() && book.index == map[] && book.Flat(Buy) == [] && book.Flat(Sell) == []
    modifies book, book.bids, book.asks, book.lv.Keys
    ensures !passed && book.Flat(Sell) == Asks(101) && book.Flat(Buy) == []
  {
    hide Shape.Ok, OrderBook.Mirrored, Flatten, Shape.Queues, Asks, Overlooked, RowsFit;
    AsksFit(101);
    AsksAdded(101);
    var rows := Asks(101);
    var found, report;
    passed, found, report := RecoverOrderbook(book, rows, true);
    AsksOverlooked(book.Now());
  }
}
