/** Recording the engine's steps as order events: after any run the snapshot table shows every accepted
    order with its latest values, which is what recovery reads.
 */
module Recording {
  import opened Orders
  import opened PriceTime
  import opened Matching
  import opened Runs
  import opened RunInvariants
  import Store = OrderEvents
  import Rebuilding

  type Call = Store.Call
  type Tables = Store.Tables

  /** The row of an order has its details, filled quantity and status. */
  ghost predicate Shows(t: Tables, r: OrderRec) {
    && r.id in t.rows && t.rows[r.id].details == Store.DetailsOf(r)
    && t.rows[r.id].filled == r.filled && t.rows[r.id].status == r.status
  }

  ghost predicate ShowsAll(t: Tables, xs: seq<OrderRec>) {
    forall i :: 0 <= i < |xs| ==> Shows(t, xs[i])
  }

  /** The rows of all ids but `id` and those of `xs` are the same. */
  ghost predicate SameBut(t: Tables, t': Tables, id: Id, xs: seq<OrderRec>) {
    && t'.rows.Keys == t.rows.Keys
    && forall x :: x in t.rows && x != id && !HasId(xs, x) ==> t'.rows[x] == t.rows[x]
  }

  lemma StillShows(t: Tables, t': Tables, id: Id, xs: seq<OrderRec>, ys: seq<OrderRec>)
    requires SameBut(t, t', id, xs) && ShowsAll(t, ys)
    requires forall i :: 0 <= i < |ys| ==> ys[i].id != id && !HasId(xs, ys[i].id)
    ensures ShowsAll(t', ys)
  {
    forall i | 0 <= i < |ys| ensures Shows(t', ys[i]) {
      assert Shows(t, ys[i]);
    }
  }

  // One call.

  /** The order after a call about it. */
  function After(r: OrderRec, c: Call): OrderRec {
    match c
    case RecordFill(_, _, f, s, _) => r.(filled := f, status := s)
    case RecordCancelled(_, _, _) => r.(status := Cancelled)
    case RecordRejected(_, _, _) => r.(status := Rejected)
    case RecordCreated(_, _) => r
  }

  lemma UpdateShown(t: Tables, r: OrderRec, c: Call)
    requires Store.Consistent(t) && Shows(t, r) && c.id == r.id && !c.RecordCreated?
    requires 0.0 <= After(r, c).filled <= r.quantity
    ensures var t' := Store.Step(t, c);
            Store.Consistent(t') && Shows(t', After(r, c)) && SameBut(t, t', r.id, [])
  {
    hide Store.Consistent;
    RowAllowedOf(t, r.id);
    Store.StepConsistent(t, c);
    hide Store.NextSequence;
  }

  lemma RowAllowedOf(t: Tables, id: Id)
    requires Store.Consistent(t) && id in t.rows
    ensures Store.RowAllowed(t.rows[id])
  {
    assert Store.OrderConsistent(t, id);
  }

  /** What the table lets in: its CHECK constraint on prices is stricter than the engine for market orders. */
  predicate Storable(o: OrderRec) {
    o.IsValid() && o.filled == 0.0 && o.status == Open && o.price >= 0.0
  }

  lemma CreationShown(t: Tables, o: OrderRec)
    requires Store.Consistent(t) && o.id !in t.rows && Storable(o)
    ensures var t' := Store.Step(t, Store.RecordCreated(o.id, Store.DetailsOf(o)));
            && Store.Consistent(t') && Shows(t', o) && t'.rows.Keys == t.rows.Keys + {o.id}
            && forall x :: x in t.rows ==> t'.rows[x] == t.rows[x]
  {
    hide Store.Consistent;
    Store.StepConsistent(t, Store.RecordCreated(o.id, Store.DetailsOf(o)));
    hide Store.NextSequence;
  }

  // One match: each trade is recorded for the resting order and for the aggressor.

  function FillOf(r: OrderRec, q: Decimal, at: int): Call {
    Store.RecordFill(r.id, q, r.filled, r.status, at)
  }

  function GreedyCalls(o: OrderRec, xs: seq<OrderRec>, at: int): seq<Call>
    decreases |xs|
  {
    if Stuck(o, xs) then [] else
    var q := Min(o.Remaining(), xs[0].Remaining());
    var o', r' := o.AfterFill(q), xs[0].AfterFill(q);
    [FillOf(r', q, at), FillOf(o', q, at)] + if r'.IsFilled() then GreedyCalls(o', xs[1..], at) else []
  }

  lemma FillShown(t: Tables, r: OrderRec, q: Decimal, at: int)
    requires Store.Consistent(t) && Shows(t, r) && 0.0 <= r.filled + q <= r.quantity
    ensures var t' := Store.Step(t, FillOf(r.AfterFill(q), q, at));
            Store.Consistent(t') && Shows(t', r.AfterFill(q)) && SameBut(t, t', r.id, [])
  {
    hide Store.Consistent, Store.Step;
    var c := FillOf(r.AfterFill(q), q, at);
    assert After(r, c) == r.AfterFill(q);
    UpdateShown(t, r, c);
  }

  lemma RunTwo(t: Tables, a: Call, b: Call, cs: seq<Call>)
    ensures Store.Run(t, [a, b] + cs) == Store.Run(Store.Step(Store.Step(t, a), b), cs)
  {
    hide Store.Step;
    assert ([a, b] + cs)[1..] == [b] + cs && ([b] + cs)[1..] == cs;
  }

  /** Both fills of the first trade are recorded. */
  lemma FirstTradeShown(t: Tables, o: OrderRec, xs: seq<OrderRec>, side: OrderSide, at: int)
    requires Store.Consistent(t) && Shows(t, o) && ShowsAll(t, xs)
    requires Resting(xs, side) && Incoming(o) && DistinctIds(xs) && !HasId(xs, o.id) && !Stuck(o, xs)
    ensures var q := Min(o.Remaining(), xs[0].Remaining());
            var t2 := Store.Step(Store.Step(t, FillOf(xs[0].AfterFill(q), q, at)), FillOf(o.AfterFill(q), q, at));
            && Store.Consistent(t2) && Shows(t2, xs[0].AfterFill(q)) && Shows(t2, o.AfterFill(q))
            && SameBut(t, t2, o.id, [xs[0]]) && ShowsAll(t2, xs[1..])
  {
    hide Store.Consistent, Store.Step;
    var q, x := Min(o.Remaining(), xs[0].Remaining()), xs[0];
    assert x.id != o.id && Shows(t, x);
    FillShown(t, x, q, at);
    var t1 := Store.Step(t, FillOf(x.AfterFill(q), q, at));
    assert Shows(t1, o);
    FillShown(t1, o, q, at);
    var t2 := Store.Step(t1, FillOf(o.AfterFill(q), q, at));
    Single(x);
    assert SameBut(t, t2, o.id, [x]);
    forall i | 0 <= i < |xs[1..]| ensures Shows(t2, xs[1..][i]) {
      assert xs[1..][i] == xs[i + 1] && xs[i + 1].id != x.id && xs[i + 1].id != o.id;
      assert Shows(t, xs[i + 1]);
    }
  }

  lemma {:induction false} MatchShown(t: Tables, o: OrderRec, xs: seq<OrderRec>, side: OrderSide, at: int)
    requires Store.Consistent(t) && Shows(t, o) && ShowsAll(t, xs)
    requires Resting(xs, side) && Incoming(o) && DistinctIds(xs) && !HasId(xs, o.id)
    ensures var g, t' := Greedy(o, xs), Store.Run(t, GreedyCalls(o, xs, at));
            && Store.Consistent(t') && SameBut(t, t', o.id, xs)
            && Shows(t', g.aggressor) && ShowsAll(t', g.consumed) && ShowsAll(t', g.rest)
    decreases |xs|
  {
    hide Store.Consistent, Store.Step, Shows, SameBut, HasId, OrderRec.AfterFill;
    if Stuck(o, xs) {
      NothingDone(t, o.id, xs);
    } else {
      var q := Min(o.Remaining(), xs[0].Remaining());
      var o', r' := o.AfterFill(q), xs[0].AfterFill(q);
      var t2 := Store.Step(Store.Step(t, FillOf(r', q, at)), FillOf(o', q, at));
      FirstTradeShown(t, o, xs, side, at);
      RunTwo(t, FillOf(r', q, at), FillOf(o', q, at), if r'.IsFilled() then GreedyCalls(o', xs[1..], at) else []);
      Tail(xs, o.id);
      FillFits(o, xs[0], q);
      if r'.IsFilled() {
        MatchShown(t2, o', xs[1..], side, at);
        ThenRest(t, t2, Store.Run(t2, GreedyCalls(o', xs[1..], at)), o.id, xs, r');
      } else {
        NothingDone(t2, o.id, xs[1..]);
        ThenRest(t, t2, t2, o.id, xs, r');
      }
    }
  }

  lemma NothingDone(t: Tables, id: Id, xs: seq<OrderRec>)
    ensures SameBut(t, t, id, xs)
  {
  }

  lemma FillFits(o: OrderRec, r: OrderRec, q: Decimal)
    requires Incoming(o) && 0.0 <= q <= o.Remaining()
    ensures Incoming(o.AfterFill(q)) && o.AfterFill(q).id == o.id && r.AfterFill(q).id == r.id
  {
  }

  lemma Tail(xs: seq<OrderRec>, id: Id)
    requires xs != [] && DistinctIds(xs) && !HasId(xs, id)
    ensures DistinctIds(xs[1..]) && !HasId(xs[1..], id) && !HasId(xs[1..], xs[0].id) && xs[0].id != id
    ensures forall x :: HasId(xs, x) <==> x == xs[0].id || HasId(xs[1..], x)
  {
    assert forall i :: 0 <= i < |xs[1..]| ==> xs[1..][i] == xs[i + 1];
    forall x ensures HasId(xs, x) <==> x == xs[0].id || HasId(xs[1..], x) {
      if HasId(xs, x) && x != xs[0].id {
        var i :| 0 <= i < |xs| && xs[i].id == x;
        assert xs[1..][i - 1].id == x;
      }
    }
  }

  /** What the rest of a match leaves alone. */
  lemma ThenRest(t: Tables, t2: Tables, t': Tables, id: Id, xs: seq<OrderRec>, r: OrderRec)
    requires xs != [] && DistinctIds(xs) && !HasId(xs, id) && r.id == xs[0].id
    requires SameBut(t, t2, id, [xs[0]]) && SameBut(t2, t', id, xs[1..]) && Shows(t2, r)
    ensures SameBut(t, t', id, xs) && Shows(t', r)
  {
    hide HasId;
    Tail(xs, id);
    Single(xs[0]);
  }

  lemma Single(r: OrderRec)
    ensures forall x :: HasId([r], x) <==> x == r.id
  {
    assert [r][0] == r;
  }

  // One command.

  function EndCalls(o: OrderRec, at: int): seq<Call> {
    if o.status == Rejected then [Store.RecordRejected(o.id, "no liquidity", at)] else []
  }

  function AcceptCalls(s: State, o: OrderRec, at: int): seq<Call> {
    [Store.RecordCreated(o.id, Store.DetailsOf(o))]
    + (GreedyCalls(o, s.Of(Opposite(o.side)), at) + EndCalls(Settled(Matched(s, o).aggressor), at))
  }

  function StepCalls(s: State, c: Command, at: int): seq<Call> {
    match c
    case New(o) => if o.IsValid() then AcceptCalls(s, o, at) else []
    case Cancel(id) => if HasId(s.bids, id) || HasId(s.asks, id) then [Store.RecordCancelled(id, "", at)] else []
    case Unknown(_) => []
  }

  function RunCalls(s: State, cs: seq<Command>, ats: seq<int>): seq<Call>
    requires |ats| == |cs|
    decreases |cs|
  {
    if cs == [] then [] else StepCalls(s, cs[0], ats[0]) + RunCalls(Step(s, cs[0]), cs[1..], ats[1..])
  }

  /** The table has exactly the accepted orders, and shows each with its latest values. */
  ghost predicate Recorded(t: Tables, s: State) {
    && Store.Consistent(t) && t.rows.Keys == s.arrival.Keys
    && ShowsAll(t, s.bids) && ShowsAll(t, s.asks) && ShowsAll(t, s.done)
  }

  lemma {:induction false} RunConcat(t: Tables, a: seq<Call>, b: seq<Call>)
    ensures Store.Run(t, a + b) == Store.Run(Store.Run(t, a), b)
    decreases |a|
  {
    hide Store.Step;
    if a == [] {
      assert a + b == b;
    } else {
      assert (a + b)[1..] == a[1..] + b;
      RunConcat(Store.Step(t, a[0]), a[1..], b);
    }
  }

  lemma RunFirst(t: Tables, c: Call, cs: seq<Call>)
    ensures Store.Run(t, [c] + cs) == Store.Run(Store.Step(t, c), cs)
  {
    hide Store.Step;
    assert ([c] + cs)[1..] == cs;
  }

  lemma RunNone(t: Tables)
    ensures Store.Run(t, []) == t
  {
  }

  /** The aggressor at the end of its command. */
  lemma EndShown(t: Tables, o: OrderRec, a: OrderRec, at: int)
    requires Store.Consistent(t) && Shows(t, a) && 0.0 <= a.filled <= a.quantity
    requires Settled(a) == a || Settled(a) == a.(status := Rejected)
    ensures var t' := Store.Run(t, EndCalls(Settled(a), at));
            Store.Consistent(t') && Shows(t', Settled(a)) && SameBut(t, t', a.id, [])
  {
    hide Store.Consistent, Store.Step, Settled;
    var c := Store.RecordRejected(a.id, "no liquidity", at);
    RunNone(t);
    if Settled(a).status == Rejected {
      RunFirst(t, c, []);
      assert [c] + [] == [c];
      RunNone(Store.Step(t, c));
      UpdateShown(t, a, c);
      assert After(a, c) == a.(status := Rejected);
    }
  }

  lemma AggressorEnds(s: State, o: OrderRec)
    requires Inv(s) && Arriving(s, o)
    ensures var a := Matched(s, o).aggressor;
            && a.id == o.id && 0.0 <= a.filled <= a.quantity
            && (Settled(a) == a || Settled(a) == a.(status := Rejected))
  {
    MatchFacts(s, o);
    hide Inv, Matched;
  }

  lemma AcceptRecorded(t: Tables, s: State, o: OrderRec, at: int)
    requires Inv(s) && Arriving(s, o) && Storable(o) && Recorded(t, s)
    ensures Recorded(Store.Run(t, AcceptCalls(s, o, at)), Accept(s, o))
  {
    hide Store.Consistent, Store.Step, Store.Run, Inv, Accept, Settled, Greedy, Insert, ShowsAll, Shows, SameBut;
    var side := Opposite(o.side);
    var xs, g := s.Of(side), Matched(s, o);
    var t1 := Store.Step(t, Store.RecordCreated(o.id, Store.DetailsOf(o)));
    CreationShown(t, o);
    AfterCreation(t, t1, s);
    var t2 := Store.Run(t1, GreedyCalls(o, xs, at));
    SideFacts(s, o);
    MatchShown(t1, o, xs, side, at);
    AggressorEnds(s, o);
    var t3 := Store.Run(t2, EndCalls(Settled(g.aggressor), at));
    EndShown(t2, o, g.aggressor, at);
    var fills, ends := GreedyCalls(o, xs, at), EndCalls(Settled(g.aggressor), at);
    RunFirst(t, Store.RecordCreated(o.id, Store.DetailsOf(o)), fills + ends);
    RunConcat(t1, fills, ends);
    Untouched(s, o, t1, t2, t3);
    AcceptedAll(s, o, t3);
    SameKeys(t1, t2, o.id, xs);
    SameKeys(t2, t3, o.id, []);
    AcceptParts(s, o);
  }

  lemma SameKeys(t: Tables, t': Tables, id: Id, xs: seq<OrderRec>)
    requires SameBut(t, t', id, xs)
    ensures t'.rows.Keys == t.rows.Keys
  {
  }

  lemma AfterCreation(t: Tables, t': Tables, s: State)
    requires forall x :: x in t.rows ==> x in t'.rows && t'.rows[x] == t.rows[x]
    requires ShowsAll(t, s.bids) && ShowsAll(t, s.asks) && ShowsAll(t, s.done)
    ensures ShowsAll(t', s.bids) && ShowsAll(t', s.asks) && ShowsAll(t', s.done)
  {
    AllStay(t, t', s.bids);
    AllStay(t, t', s.asks);
    AllStay(t, t', s.done);
  }

  lemma AllStay(t: Tables, t': Tables, xs: seq<OrderRec>)
    requires (forall x :: x in t.rows ==> x in t'.rows && t'.rows[x] == t.rows[x]) && ShowsAll(t, xs)
    ensures ShowsAll(t', xs)
  {
    forall i | 0 <= i < |xs| ensures Shows(t', xs[i]) {
      assert Shows(t, xs[i]);
    }
  }

  lemma SideFacts(s: State, o: OrderRec)
    requires Inv(s) && Arriving(s, o)
    ensures var side := Opposite(o.side);
            Resting(s.Of(side), side) && DistinctIds(s.Of(side)) && !HasId(s.Of(side), o.id) && Incoming(o)
  {
    hide Uncrossed, AllEnded, LogKnown, FillsAgree, TotalsAgree, Ordered, Known, OnePlace;
    OnePlaceApart(s);
  }

  ghost predicate Avoids(ys: seq<OrderRec>, id: Id, xs: seq<OrderRec>) {
    forall i :: 0 <= i < |ys| ==> ys[i].id != id && !HasId(xs, ys[i].id)
  }

  lemma Apartness(s: State, o: OrderRec)
    requires Inv(s) && Arriving(s, o)
    ensures var xs := s.Of(Opposite(o.side)); Avoids(s.Of(o.side), o.id, xs) && Avoids(s.done, o.id, xs)
  {
    hide Uncrossed, AllEnded, LogKnown, FillsAgree, TotalsAgree, Ordered, Known, OnePlace, Resting;
    OnePlaceApart(s);
  }

  lemma MatchedAvoids(s: State, o: OrderRec)
    requires Inv(s) && Arriving(s, o)
    ensures Avoids(Matched(s, o).consumed, o.id, []) && Avoids(Matched(s, o).rest, o.id, [])
  {
    hide SplitsAt, Matched, Avoids;
    SideFacts(s, o);
    MatchFacts(s, o);
    SplitAvoids(o, s.Of(Opposite(o.side)), Matched(s, o));
  }

  lemma SplitAvoids(o: OrderRec, xs: seq<OrderRec>, g: Match)
    requires SplitsAt(o, xs, g) && !HasId(xs, o.id)
    ensures Avoids(g.consumed, o.id, []) && Avoids(g.rest, o.id, [])
  {
    assert forall i :: 0 <= i < |xs| ==> xs[i].id != o.id;
    assert forall i :: 0 <= i < |g.consumed| ==> g.consumed[i] == FilledUp(xs[i]);
    RestPlaces(o, xs, g);
    var k := |g.consumed|;
    forall i | 0 <= i < |g.rest| ensures g.rest[i].id != o.id {
      assert g.rest[i].id == xs[k..][i].id && xs[k..][i] == xs[k + i];
    }
  }

  /** What the match and the end of the command do not touch, and what they leave. */
  lemma Untouched(s: State, o: OrderRec, t1: Tables, t2: Tables, t3: Tables)
    requires Inv(s) && Arriving(s, o) && ShowsAll(t1, s.Of(o.side)) && ShowsAll(t1, s.done)
    requires SameBut(t1, t2, o.id, s.Of(Opposite(o.side))) && SameBut(t2, t3, o.id, [])
    requires ShowsAll(t2, Matched(s, o).consumed) && ShowsAll(t2, Matched(s, o).rest)
    ensures ShowsAll(t3, s.Of(o.side)) && ShowsAll(t3, s.done)
    ensures ShowsAll(t3, Matched(s, o).consumed) && ShowsAll(t3, Matched(s, o).rest)
  {
    hide Inv, ShowsAll, SameBut, HasId, Matched;
    var xs := s.Of(Opposite(o.side));
    Apartness(s, o);
    MatchedAvoids(s, o);
    StillShows(t1, t2, o.id, xs, s.Of(o.side));
    StillShows(t1, t2, o.id, xs, s.done);
    NothingThere(s.Of(o.side), o.id, xs);
    NothingThere(s.done, o.id, xs);
    StillShows(t2, t3, o.id, [], s.Of(o.side));
    StillShows(t2, t3, o.id, [], s.done);
    StillShows(t2, t3, o.id, [], Matched(s, o).consumed);
    StillShows(t2, t3, o.id, [], Matched(s, o).rest);
  }

  lemma NothingThere(ys: seq<OrderRec>, id: Id, xs: seq<OrderRec>)
    requires Avoids(ys, id, xs)
    ensures Avoids(ys, id, [])
  {
  }

  /** The parts of the state after the command. */
  lemma AcceptedAll(s: State, o: OrderRec, t: Tables)
    requires o.side == Buy || o.side == Sell
    requires ShowsAll(t, s.Of(o.side)) && ShowsAll(t, s.done) && Shows(t, Settled(Matched(s, o).aggressor))
    requires ShowsAll(t, Matched(s, o).consumed) && ShowsAll(t, Matched(s, o).rest)
    ensures var s' := Accept(s, o); ShowsAll(t, s'.bids) && ShowsAll(t, s'.asks) && ShowsAll(t, s'.done)
  {
    hide Accept, Matched, Settled, Shows, Insert, Rests;
    AcceptParts(s, o);
    var o' := Settled(Matched(s, o).aggressor);
    var k := InsertPlace(s.Of(o.side), o');
    assert ShowsAll(t, Insert(s.Of(o.side), o'));
  }

  lemma CancelRecorded(t: Tables, s: State, side: OrderSide, id: Id, at: int)
    requires Inv(s) && HasId(s.Of(side), id) && (side == Buy || side == Sell) && Recorded(t, s)
    ensures Recorded(Store.Run(t, [Store.RecordCancelled(id, "", at)]), CancelOn(s, side, id))
  {
    hide Store.Consistent, Store.Step, Inv, Without;
    var c, xs := Store.RecordCancelled(id, "", at), s.Of(side);
    RunFirst(t, c, []);
    assert [c] + [] == [c];
    var t' := Store.Step(t, c);
    RunNone(t');
    var i := WithoutPlace(xs, id);
    assert Shows(t, xs[i]);
    InvFilled(s, side, i);
    UpdateShown(t, xs[i], c);
    CancelAvoids(s, side, i);
    StillShows(t, t', id, [], xs[..i] + xs[i + 1..]);
    StillShows(t, t', id, [], s.Of(Opposite(side)));
    StillShows(t, t', id, [], s.done);
    assert ShowsAll(t', [xs[i].(status := Cancelled)]);
  }

  lemma InvFilled(s: State, side: OrderSide, i: nat)
    requires Inv(s) && (side == Buy || side == Sell) && i < |s.Of(side)|
    ensures 0.0 <= s.Of(side)[i].filled <= s.Of(side)[i].quantity
  {
    hide Uncrossed, AllEnded, LogKnown, FillsAgree, TotalsAgree, Ordered, Known, OnePlace;
  }

  lemma CancelAvoids(s: State, side: OrderSide, i: nat)
    requires Inv(s) && (side == Buy || side == Sell) && i < |s.Of(side)|
    ensures var xs := s.Of(side);
            && Avoids(xs[..i] + xs[i + 1..], xs[i].id, [])
            && Avoids(s.Of(Opposite(side)), xs[i].id, []) && Avoids(s.done, xs[i].id, [])
  {
    hide Uncrossed, AllEnded, LogKnown, FillsAgree, TotalsAgree, Ordered, Known, OnePlace, Resting;
    OnePlaceApart(s);
  }

  // A whole run.

  /** Every new order comes with an unused id, open, unfilled and with a price that the table allows. */
  ghost predicate StorableRun(cs: seq<Command>) {
    forall i :: 0 <= i < |cs| && cs[i].New? && cs[i].order.IsValid() ==> cs[i].order.price >= 0.0
  }

  lemma StepRecorded(t: Tables, s: State, c: Command, at: int)
    requires Inv(s) && Recorded(t, s) && Fresh(s, c)
    requires c.New? && c.order.IsValid() ==> c.order.price >= 0.0
    ensures Recorded(Store.Run(t, StepCalls(s, c, at)), Step(s, c))
  {
    hide Inv, Recorded, AcceptCalls, Accept, CancelOn, HasId;
    RunNone(t);
    match c
    case New(o) => if o.IsValid() { AcceptRecorded(t, s, o, at); }
    case Cancel(id) =>
      if HasId(s.bids, id) {
        CancelRecorded(t, s, Buy, id, at);
      } else if HasId(s.asks, id) {
        CancelRecorded(t, s, Sell, id, at);
      }
    case Unknown(_) =>
  }

  lemma {:induction false} RunRecorded(t: Tables, s: State, cs: seq<Command>, ats: seq<int>)
    requires Inv(s) && Recorded(t, s) && FreshRun(s, cs) && StorableRun(cs) && |ats| == |cs|
    ensures Recorded(Store.Run(t, RunCalls(s, cs, ats)), Run(s, cs))
    decreases |cs|
  {
    hide Inv, Recorded, StepCalls, Step, Fresh;
    if cs == [] {
      RunNone(t);
    } else {
      var calls, rest := StepCalls(s, cs[0], ats[0]), RunCalls(Step(s, cs[0]), cs[1..], ats[1..]);
      StepRecorded(t, s, cs[0], ats[0]);
      StepInv(s, cs[0]);
      RunRecorded(Store.Run(t, calls), Step(s, cs[0]), cs[1..], ats[1..]);
      RunConcat(t, calls, rest);
    }
  }

  /** If every step of a run is recorded, the snapshot table has a row for exactly the orders that
      recovery's table is made of, with their latest values, and could be rebuilt from the events. */
  lemma SnapshotIsTable(cs: seq<Command>, ats: seq<int>)
    requires FreshRun(EMPTY, cs) && StorableRun(cs) && |ats| == |cs|
    ensures var s, t := Run(EMPTY, cs), Store.Run(Store.NO_TABLES, RunCalls(EMPTY, cs, ats));
            && (forall id :: id in t.rows <==> HasId(Rebuilding.Table(s), id))
            && ShowsAll(t, Rebuilding.Table(s))
            && Store.Rebuilds(t)
  {
    hide Inv, FreshRun, Run, RunCalls, Store.Run, Store.Rebuild, Store.Consistent;
    var s, t := Run(EMPTY, cs), Store.Run(Store.NO_TABLES, RunCalls(EMPTY, cs, ats));
    EmptyInv();
    Store.StartsConsistent();
    RunRecorded(Store.NO_TABLES, EMPTY, cs, ats);
    Reachable(cs);
    Store.RebuildIsIdentity(t);
    TableIds(s);
  }

  /** The accepted ids are those of the table. */
  lemma TableIds(s: State)
    requires Inv(s)
    ensures forall id :: id in s.arrival <==> HasId(Rebuilding.Table(s), id)
  {
    hide SideInv, Uncrossed, AllEnded, LogKnown, FillsAgree, TotalsAgree;
    var all := Rebuilding.Table(s);
    IdsAppend(s.bids, s.asks);
    IdsAppend(s.bids + s.asks, s.done);
    assert multiset(Ids(all)) == multiset(s.arrival.Keys);
    forall id ensures id in s.arrival <==> HasId(all, id) {
      assert id in s.arrival <==> id in multiset(Ids(all));
      if id in s.arrival {
        var i :| 0 <= i < |Ids(all)| && Ids(all)[i] == id;
        assert all[i].id == id;
      }
      if HasId(all, id) {
        var i :| 0 <= i < |all| && all[i].id == id;
        assert Ids(all)[i] == id;
      }
    }
  }
}
