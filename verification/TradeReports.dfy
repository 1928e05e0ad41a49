/** What each trade says about its two parties (engine/matching_engine.go): how much of each order is
    filled and left after the trade, and whether the fill is a partial one.
 */
module TradeReports {
  import opened Orders
  import opened PriceTime
  import opened Matching
  import opened Runs
  import opened RunInvariants
  import opened Rebuilding

  /** One party of a trade: its total fill, what is left, and the partial-fill mark. */
  datatype Party = Party(filled: Decimal, remaining: Decimal, partial: bool)

  function Buyer(t: Trade): Party { Party(t.buyerFilled, t.buyerRemaining, t.buyerPartial) }

  function Seller(t: Trade): Party { Party(t.sellerFilled, t.sellerRemaining, t.sellerPartial) }

  /** `filled` of `quantity` is what the party reports. */
  predicate Reported(p: Party, filled: Decimal, quantity: Decimal) {
    && p.filled == filled && p.remaining == quantity - filled
    && (p.partial <==> 0.0 < filled < quantity)
  }

  function Aggressors(t: Trade, o: OrderRec): Party { if o.side == Buy then Buyer(t) else Seller(t) }

  function Restings(t: Trade, o: OrderRec): Party { if o.side == Buy then Seller(t) else Buyer(t) }

  // One match.

  ghost predicate ReportedIn(o: OrderRec, xs: seq<OrderRec>, ts: seq<Trade>) {
    && |ts| <= |xs|
    && forall i :: 0 <= i < |ts| ==>
         && Reported(Aggressors(ts[i], o), o.filled + Volume(ts[..i + 1]), o.quantity)
         && Reported(Restings(ts[i], o), xs[i].filled + ts[i].quantity, xs[i].quantity)
  }

  lemma FirstReported(o: OrderRec, r: OrderRec)
    requires Incoming(o) && r.IsResting() && o.Remaining() > 0.0 && (o.status == Open || o.status == PartiallyFilled)
    ensures var q := Min(o.Remaining(), r.Remaining());
            var t := TradeOf(o.AfterFill(q), r.AfterFill(q), q);
            && t.quantity == q > 0.0
            && Reported(Aggressors(t, o), o.filled + q, o.quantity)
            && Reported(Restings(t, o), r.filled + q, r.quantity)
  {
  }

  lemma VolumeMore(t: Trade, ts: seq<Trade>, i: nat)
    requires 0 < i <= |ts|
    ensures Volume(([t] + ts)[..i + 1]) == t.quantity + Volume(ts[..i])
  {
    assert ([t] + ts)[..i + 1] == [t] + ts[..i];
    assert ([t] + ts[..i])[1..] == ts[..i];
  }

  lemma VolumeFirst(ts: seq<Trade>)
    requires ts != []
    ensures Volume(ts[..1]) == ts[0].quantity
  {
    assert ts[..1][1..] == [];
  }

  lemma {:induction false} GreedyReports(o: OrderRec, xs: seq<OrderRec>, side: OrderSide)
    requires Resting(xs, side) && Incoming(o)
    requires o.Remaining() > 0.0 ==> o.status == Open || o.status == PartiallyFilled
    ensures ReportedIn(o, xs, Greedy(o, xs).trades)
    decreases |xs|
  {
    if !Stuck(o, xs) {
      var q := Min(o.Remaining(), xs[0].Remaining());
      var o', r' := o.AfterFill(q), xs[0].AfterFill(q);
      var t := TradeOf(o', r', q);
      FirstReported(o, xs[0]);
      if r'.IsFilled() {
        GreedyReports(o', xs[1..], side);
        MoreReported(o, o', xs, t, Greedy(o', xs[1..]).trades, q);
      } else {
        VolumeFirst([t]);
      }
    }
  }

  lemma MoreReported(o: OrderRec, o': OrderRec, xs: seq<OrderRec>, t: Trade, ts: seq<Trade>, q: Decimal)
    requires xs != [] && ReportedIn(o', xs[1..], ts) && t.quantity == q
    requires o'.side == o.side && o'.quantity == o.quantity && o'.filled == o.filled + q
    requires Reported(Aggressors(t, o), o.filled + q, o.quantity)
    requires Reported(Restings(t, o), xs[0].filled + q, xs[0].quantity)
    ensures ReportedIn(o, xs, [t] + ts)
  {
    hide Reported;
    var all := [t] + ts;
    VolumeFirst(all);
    forall i | 0 <= i < |all|
      ensures Reported(Aggressors(all[i], o), o.filled + Volume(all[..i + 1]), o.quantity)
      ensures Reported(Restings(all[i], o), xs[i].filled + all[i].quantity, xs[i].quantity)
    {
      if i > 0 {
        VolumeMore(t, ts, i);
        assert all[i] == ts[i - 1] && xs[i] == xs[1..][i - 1];
        assert Reported(Aggressors(ts[i - 1], o'), o'.filled + Volume(ts[..i - 1 + 1]), o'.quantity);
      }
    }
  }

  // A whole run.

  /** The party of trade `i` with id `id` reports that order's fills so far, and no other quantity than
      the order's. */
  ghost predicate Right(s: State, i: nat, id: Id, p: Party)
    requires i < |s.log|
  {
    forall r :: r in Table(s) && r.id == id ==> Reported(p, Named(s.log[..i + 1], id), r.quantity)
  }

  ghost predicate AllRight(s: State) {
    forall i :: 0 <= i < |s.log| ==>
      Right(s, i, s.log[i].buyId, Buyer(s.log[i])) && Right(s, i, s.log[i].sellId, Seller(s.log[i]))
  }

  /** Every order of `s'` but `id` was there before, with the same quantity. */
  ghost predicate SameQuantities(s: State, s': State, id: Id) {
    forall r :: r in Table(s') && r.id != id ==> exists q :: q in Table(s) && q.id == r.id && q.quantity == r.quantity
  }

  /** What was right about an earlier trade stays right. */
  lemma StaysRight(s: State, s': State, id: Id, i: nat, x: Id, p: Party)
    requires SameQuantities(s, s', id) && s.log <= s'.log && i < |s.log| && x != id && Right(s, i, x, p)
    ensures Right(s', i, x, p)
  {
    hide Table, Named;
    assert s'.log[..i + 1] == s.log[..i + 1];
    forall r | r in Table(s') && r.id == x ensures Reported(p, Named(s'.log[..i + 1], x), r.quantity) {
      var q :| q in Table(s) && q.id == r.id && q.quantity == r.quantity;
    }
  }

  lemma AcceptQuantities(s: State, o: OrderRec)
    requires Inv(s) && Arriving(s, o)
    ensures SameQuantities(s, Accept(s, o), o.id)
    ensures forall r :: r in Table(Accept(s, o)) && r.id == o.id ==> r.quantity == o.quantity
  {
    hide Inv, Accept, Matched, Settled, Insert, SplitsAt;
    var g, xs, s' := Matched(s, o), s.Of(Opposite(o.side)), Accept(s, o);
    AcceptParts(s, o);
    MatchParts(s, o);
    var o' := Settled(g.aggressor);
    forall r | r in Table(s')
      ensures (r.id == o.id && r.quantity == o.quantity)
           || exists q :: q in Table(s) && q.id == r.id && q.quantity == r.quantity
    {
      InParts(s, s', o, o', g, r);
    }
    NewId(s, o);
  }

  lemma NewId(s: State, o: OrderRec)
    requires Inv(s) && Arriving(s, o)
    ensures forall q :: q in Table(s) ==> q.id != o.id
  {
    hide SideInv, Uncrossed, AllEnded, LogKnown, FillsAgree, TotalsAgree, OnePlace;
    OnePlaceApart(s);
    forall q | q in Table(s) ensures q.id != o.id {
      assert q in s.bids || q in s.asks || q in s.done;
    }
  }

  /** The orders that a match leaves are those it met, with the same quantities. */
  lemma MatchParts(s: State, o: OrderRec)
    requires Inv(s) && Arriving(s, o)
    ensures var g, o' := Matched(s, o), Settled(Matched(s, o).aggressor);
            && o'.id == o.id && o'.quantity == o.quantity
            && (forall r :: r in g.consumed || r in g.rest ==>
                  exists q :: q in s.Of(Opposite(o.side)) && q.id == r.id && q.quantity == r.quantity)
  {
    hide Inv, Matched, Settled;
    assert Inv(s) ==> SideInv(s, Opposite(o.side)) by { SideOf(s, o.side); }
    MatchFacts(s, o);
    var g, xs := Matched(s, o), s.Of(Opposite(o.side));
    SettledFacts(o, g.aggressor, g.trades);
    SplitParts(o, xs, g);
  }

  lemma SideOf(s: State, side: OrderSide)
    ensures Inv(s) ==> SideInv(s, Opposite(side))
  {
  }

  lemma SplitParts(o: OrderRec, xs: seq<OrderRec>, g: Match)
    requires SplitsAt(o, xs, g)
    ensures forall r :: r in g.consumed || r in g.rest ==>
              exists q :: q in xs && q.id == r.id && q.quantity == r.quantity
  {
    var k := |g.consumed|;
    forall r | r in g.consumed || r in g.rest ensures exists q :: q in xs && q.id == r.id && q.quantity == r.quantity {
      if r in g.consumed {
        var i :| 0 <= i < k && g.consumed[i] == r;
        assert xs[i] in xs && FilledUp(xs[i]) == r;
      } else {
        var i :| 0 <= i < |g.rest| && g.rest[i] == r;
        assert xs[k + i] in xs && xs[k + i].id == r.id && xs[k + i].quantity == r.quantity;
      }
    }
  }

  lemma InParts(s: State, s': State, o: OrderRec, o': OrderRec, g: Match, r: OrderRec)
    requires (o.side == Buy || o.side == Sell) && o'.id == o.id && o'.quantity == o.quantity && r in Table(s')
    requires s'.Of(Opposite(o.side)) == g.rest
    requires s'.Of(o.side) == (if Rests(o') then Insert(s.Of(o.side), o') else s.Of(o.side))
    requires s'.done == s.done + g.consumed + (if Rests(o') then [] else [o'])
    requires forall r :: r in g.consumed || r in g.rest ==>
               exists q :: q in s.Of(Opposite(o.side)) && q.id == r.id && q.quantity == r.quantity
    ensures (r.id == o.id && r.quantity == o.quantity)
         || exists q :: q in Table(s) && q.id == r.id && q.quantity == r.quantity
  {
    hide Rests, Insert;
    assert forall q :: q in s.bids || q in s.asks || q in s.done ==> q in Table(s);
    assert r in s'.bids || r in s'.asks || r in s'.done;
    var k := InsertPlace(s.Of(o.side), o');
    assert r in Insert(s.Of(o.side), o') ==> r == o' || r in s.Of(o.side);
    if r in g.consumed || r in g.rest {
      var q :| q in s.Of(Opposite(o.side)) && q.id == r.id && q.quantity == r.quantity;
      assert q in Table(s);
    } else if r != o' {
      assert r in s.Of(o.side) || r in s.done;
      assert r in Table(s);
    }
  }

  /** The new trades are right about both parties. */
  lemma NewTradeRight(s: State, o: OrderRec, j: nat)
    requires Inv(s) && Arriving(s, o) && j < |Matched(s, o).trades|
    ensures var ts, xs, s', i := Matched(s, o).trades, s.Of(Opposite(o.side)), Accept(s, o), |s.log| + j;
            && s'.log == s.log + ts && j < |xs|
            && NamesId(ts[j], xs[j].id) && NamesId(ts[j], o.id)
            && Reported(Aggressors(ts[j], o), Named(s'.log[..i + 1], o.id), o.quantity)
            && Reported(Restings(ts[j], o), Named(s'.log[..i + 1], xs[j].id), xs[j].quantity)
  {
    hide Inv, Accept, Matched, SplitsAt, ReportedIn, Reported, Named, Accounted;
    var xs := s.Of(Opposite(o.side));
    AcceptParts(s, o);
    NewTradeFacts(s, o);
    TradeRight(o, xs, Matched(s, o), s.log, j);
    assert Accept(s, o).log[..|s.log| + j + 1] == s.log + Matched(s, o).trades[..j + 1];
  }

  lemma NewTradeFacts(s: State, o: OrderRec)
    requires Inv(s) && Arriving(s, o)
    ensures var xs, g := s.Of(Opposite(o.side)), Matched(s, o);
            && SplitsAt(o, xs, g) && ReportedIn(o, xs, g.trades) && DistinctIds(xs)
            && (forall k :: 0 <= k < |xs| ==> xs[k].id != o.id)
            && Accounted(xs, s.log) && Named(s.log, o.id) == 0.0
  {
    hide Uncrossed, AllEnded, TotalsAgree, Ordered, Known, OnePlace, SplitsAt, ReportedIn, Accounted, Named;
    MatchFacts(s, o);
    GreedyReports(o, s.Of(Opposite(o.side)), Opposite(o.side));
    OnePlaceApart(s);
    NewcomerUnnamed(s, o);
  }

  lemma TradeRight(o: OrderRec, xs: seq<OrderRec>, g: Match, log: seq<Trade>, j: nat)
    requires SplitsAt(o, xs, g) && ReportedIn(o, xs, g.trades) && DistinctIds(xs) && (o.side == Buy || o.side == Sell)
    requires forall k :: 0 <= k < |xs| ==> xs[k].id != o.id
    requires Accounted(xs, log) && Named(log, o.id) == 0.0 && o.filled == 0.0 && j < |g.trades|
    ensures j < |xs| && NamesId(g.trades[j], xs[j].id) && NamesId(g.trades[j], o.id)
    ensures Reported(Aggressors(g.trades[j], o), Named(log + g.trades[..j + 1], o.id), o.quantity)
    ensures Reported(Restings(g.trades[j], o), Named(log + g.trades[..j + 1], xs[j].id), xs[j].quantity)
  {
    hide Reported, Named, Volume;
    var first := g.trades[..j + 1];
    forall k | 0 <= k < |first|
      ensures NamesId(first[k], o.id) && (NamesId(first[k], xs[j].id) <==> k == j)
    {
      assert first[k] == g.trades[k] && Names(g.trades[k], o, xs[k]);
    }
    AllNamed(first, o.id);
    OneNamed(first, xs[j].id, j);
    NamedAppend(log, first, o.id);
    NamedAppend(log, first, xs[j].id);
  }

  lemma AcceptRight(s: State, o: OrderRec)
    requires Inv(s) && Arriving(s, o) && AllRight(s)
    ensures AllRight(Accept(s, o))
  {
    hide Inv, Accept, Matched, Reported, Named, SameQuantities, Table;
    var ts, xs, s' := Matched(s, o).trades, s.Of(Opposite(o.side)), Accept(s, o);
    AcceptParts(s, o);
    AcceptQuantities(s, o);
    forall i | 0 <= i < |s'.log|
      ensures Right(s', i, s'.log[i].buyId, Buyer(s'.log[i])) && Right(s', i, s'.log[i].sellId, Seller(s'.log[i]))
    {
      if i < |s.log| {
        assert s'.log[i] == s.log[i];
        OldIds(s, o, i);
        StaysRight(s, s', o.id, i, s.log[i].buyId, Buyer(s.log[i]));
        StaysRight(s, s', o.id, i, s.log[i].sellId, Seller(s.log[i]));
      } else {
        NewTradeParties(s, o, i - |s.log|);
      }
    }
  }

  lemma OldIds(s: State, o: OrderRec, i: nat)
    requires Inv(s) && Arriving(s, o) && i < |s.log|
    ensures s.log[i].buyId != o.id && s.log[i].sellId != o.id
  {
    hide SideInv, Uncrossed, AllEnded, FillsAgree, TotalsAgree, OnePlace;
  }

  /** Both parties of a new trade, against the table after the command. */
  lemma NewTradeParties(s: State, o: OrderRec, j: nat)
    requires Inv(s) && Arriving(s, o) && j < |Matched(s, o).trades|
    ensures var t, s', i := Matched(s, o).trades[j], Accept(s, o), |s.log| + j;
            i < |s'.log| && s'.log[i] == t && Right(s', i, t.buyId, Buyer(t)) && Right(s', i, t.sellId, Seller(t))
  {
    hide Inv, Accept, Reported, Named, Matched;
    var xs, s', t := s.Of(Opposite(o.side)), Accept(s, o), Matched(s, o).trades[j];
    NewTradeRight(s, o, j);
    NewTradeIds(s, o, j);
    AcceptQuantities(s, o);
    forall r | r in Table(s') && r.id == xs[j].id ensures r.quantity == xs[j].quantity {
      OneQuantity(s, s', o, j, r);
    }
  }

  lemma NewTradeIds(s: State, o: OrderRec, j: nat)
    requires Inv(s) && Arriving(s, o) && j < |Matched(s, o).trades|
    ensures j < |s.Of(Opposite(o.side))| && s.Of(Opposite(o.side))[j].id != o.id
    ensures var t, x := Matched(s, o).trades[j], s.Of(Opposite(o.side))[j];
            if o.side == Buy then t.buyId == o.id && t.sellId == x.id else t.buyId == x.id && t.sellId == o.id
  {
    hide Uncrossed, AllEnded, TotalsAgree, Ordered, Known, FillsAgree, OnePlace;
    MatchFacts(s, o);
    OnePlaceApart(s);
    assert Names(Matched(s, o).trades[j], o, s.Of(Opposite(o.side))[j]);
  }

  lemma OneQuantity(s: State, s': State, o: OrderRec, j: nat, r: OrderRec)
    requires Inv(s) && Arriving(s, o) && SameQuantities(s, s', o.id)
    requires j < |s.Of(Opposite(o.side))| && r in Table(s') && r.id == s.Of(Opposite(o.side))[j].id != o.id
    ensures r.quantity == s.Of(Opposite(o.side))[j].quantity
  {
    hide SideInv, Uncrossed, AllEnded, LogKnown, FillsAgree, TotalsAgree;
    var q :| q in Table(s) && q.id == r.id && q.quantity == r.quantity;
    OnePlaceApart(s);
    hide OnePlace;
    assert q in s.bids || q in s.asks || q in s.done;
  }

  lemma CancelRight(s: State, side: OrderSide, id: Id)
    requires Inv(s) && AllRight(s) && HasId(s.Of(side), id) && (side == Buy || side == Sell)
    ensures AllRight(CancelOn(s, side, id))
  {
    hide Inv, Reported, Named;
    var s', xs := CancelOn(s, side, id), s.Of(side);
    var k := WithoutPlace(xs, id);
    hide Without, HasId;
    forall r | r in Table(s') ensures exists q :: q in Table(s) && q.id == r.id && q.quantity == r.quantity {
      assert r in s'.bids || r in s'.asks || r in s'.done;
      assert forall q :: q in s.bids || q in s.asks || q in s.done ==> q in Table(s);
      if r == xs[k].(status := Cancelled) {
        assert xs[k] in Table(s);
      } else {
        assert r in s.bids || r in s.asks || r in s.done;
        assert r in Table(s);
      }
    }
    forall i | 0 <= i < |s'.log|
      ensures Right(s', i, s'.log[i].buyId, Buyer(s'.log[i])) && Right(s', i, s'.log[i].sellId, Seller(s'.log[i]))
    {
      CancelStays(s, s', i, s.log[i].buyId, Buyer(s.log[i]));
      CancelStays(s, s', i, s.log[i].sellId, Seller(s.log[i]));
    }
  }

  lemma CancelStays(s: State, s': State, i: nat, x: Id, p: Party)
    requires s'.log == s.log && i < |s.log| && Right(s, i, x, p)
    requires forall r :: r in Table(s') ==> exists q :: q in Table(s) && q.id == r.id && q.quantity == r.quantity
    ensures Right(s', i, x, p)
  {
    hide Table, Named;
    forall r | r in Table(s') && r.id == x ensures Reported(p, Named(s'.log[..i + 1], x), r.quantity) {
      var q :| q in Table(s) && q.id == r.id && q.quantity == r.quantity;
    }
  }

  lemma StepRight(s: State, c: Command)
    requires Inv(s) && AllRight(s) && Fresh(s, c)
    ensures AllRight(Step(s, c))
  {
    hide Inv, AllRight, Accept, CancelOn, HasId;
    match c
    case New(o) => if o.IsValid() { AcceptRight(s, o); }
    case Cancel(id) =>
      if HasId(s.bids, id) {
        CancelRight(s, Buy, id);
      } else if HasId(s.asks, id) {
        CancelRight(s, Sell, id);
      }
    case Unknown(_) =>
  }

  lemma {:induction false} RunRight(s: State, cs: seq<Command>)
    requires Inv(s) && AllRight(s) && FreshRun(s, cs)
    ensures AllRight(Run(s, cs))
    decreases |cs|
  {
    hide Inv, AllRight, Step, Fresh;
    if cs != [] {
      StepRight(s, cs[0]);
      StepInv(s, cs[0]);
      RunRight(Step(s, cs[0]), cs[1..]);
    }
  }

  /** In every run each trade states, for buyer and seller, the total of that order's trades up to and
      including this one, what that leaves of the order's quantity, and a partial fill exactly when the
      order is neither untouched nor complete. */
  lemma TradesReportFills(cs: seq<Command>, i: nat, r: OrderRec)
    requires FreshRun(EMPTY, cs) && i < |Run(EMPTY, cs).log| && r in Table(Run(EMPTY, cs))
    ensures var t, sofar := Run(EMPTY, cs).log[i], Named(Run(EMPTY, cs).log[..i + 1], r.id);
            && (t.buyId == r.id ==>
                  && t.buyerFilled == sofar && t.buyerRemaining == r.quantity - sofar
                  && (t.buyerPartial <==> 0.0 < sofar < r.quantity))
            && (t.sellId == r.id ==>
                  && t.sellerFilled == sofar && t.sellerRemaining == r.quantity - sofar
                  && (t.sellerPartial <==> 0.0 < sofar < r.quantity))
  {
    hide Run, FreshRun, Inv, Named, Table;
    EmptyInv();
    RunRight(EMPTY, cs);
    var s := Run(EMPTY, cs);
    assert Right(s, i, s.log[i].buyId, Buyer(s.log[i])) && Right(s, i, s.log[i].sellId, Seller(s.log[i]));
  }
}
