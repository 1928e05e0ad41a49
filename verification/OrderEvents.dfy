/** Append-only order events with a maintained snapshot table (db/order_events_schema.sql).

    Each `record_*` function appends one event and updates one snapshot row in the same statement;
    replaying the events of an order must give its row.
 */
module OrderEvents {
  import opened Orders

  datatype Details = Details(
    clientId: string, instrument: string, side: OrderSide, kind: OrderType,
    price: Decimal, quantity: Decimal, createdAt: int)

  datatype EventData =
    | Created(details: Details)
    | Fill(fillQuantity: Decimal, filledQuantity: Decimal, status: OrderStatus)
    | Cancellation(reason: string)
    | Rejection(reason: string)

  /** A row of order_events. */
  datatype Event = Event(orderId: Id, data: EventData, timestamp: int, sequence: nat)

  /** A row of orders_snapshot. */
  datatype Row = Row(details: Details, filled: Decimal, status: OrderStatus, updatedAt: int, lastSequence: nat)

  /** The table's CHECK constraints. */
  predicate RowAllowed(r: Row) {
    && (r.details.side == Buy || r.details.side == Sell)
    && (r.details.kind == Limit || r.details.kind == Market)
    && 0.0 <= r.filled <= r.details.quantity && r.details.quantity > 0.0 && r.details.price >= 0.0
  }

  datatype Tables = Tables(log: seq<Event>, rows: map<Id, Row>)

  datatype Call =
    | RecordCreated(id: Id, details: Details)
    | RecordFill(id: Id, fillQuantity: Decimal, filledQuantity: Decimal, status: OrderStatus, at: int)
    | RecordCancelled(id: Id, reason: string, at: int)
    | RecordRejected(id: Id, reason: string, at: int)

  /** The events of one order, oldest first. */
  function History(log: seq<Event>, id: Id): seq<Event> {
    if log == [] then [] else
    var h := History(log[..|log| - 1], id);
    if log[|log| - 1].orderId == id then h + [log[|log| - 1]] else h
  }

  /** COALESCE(MAX(sequence_number), 0) + 1. */
  function MaxSequence(h: seq<Event>): nat {
    if h == [] then 0 else
    var m := MaxSequence(h[..|h| - 1]);
    if h[|h| - 1].sequence > m then h[|h| - 1].sequence else m
  }

  function NextSequence(log: seq<Event>, id: Id): nat { MaxSequence(History(log, id)) + 1 }

  function EventOf(c: Call, sequence: nat): Event {
    match c
    case RecordCreated(id, d) => Event(id, Created(d), d.createdAt, sequence)
    case RecordFill(id, q, f, s, t) => Event(id, Fill(q, f, s), t, sequence)
    case RecordCancelled(id, reason, t) => Event(id, Cancellation(reason), t, sequence)
    case RecordRejected(id, reason, t) => Event(id, Rejection(reason), t, sequence)
  }

  /** The row that a call's statement would write; an update of a missing row writes none. */
  function Proposed(rows: map<Id, Row>, c: Call, sequence: nat): Option<Row> {
    if c.RecordCreated? then Some(Row(c.details, 0.0, Open, c.details.createdAt, sequence))
    else if c.id !in rows then None
    else
      var r := rows[c.id].(updatedAt := c.at, lastSequence := sequence);
      match c
      case RecordFill(_, _, f, s, _) => Some(r.(filled := f, status := s))
      case RecordCancelled(_, _, _) => Some(r.(status := Cancelled))
      case RecordRejected(_, _, _) => Some(r.(status := Rejected))
  }

  /** The row that it does write: a creation never overwrites an existing row. */
  function Written(rows: map<Id, Row>, c: Call, sequence: nat): Option<Row> {
    if c.RecordCreated? && c.id in rows then None else Proposed(rows, c, sequence)
  }

  /** A call that would break a CHECK constraint fails and changes nothing; the constraints of an
      insertion are looked at before its conflict. */
  predicate Accepts(s: Tables, c: Call) {
    var r := Proposed(s.rows, c, NextSequence(s.log, c.id));
    r.Some? ==> RowAllowed(r.value)
  }

  function Step(s: Tables, c: Call): Tables {
    var n := NextSequence(s.log, c.id);
    var r := Written(s.rows, c, n);
    if Accepts(s, c) then Tables(s.log + [EventOf(c, n)], if r.Some? then s.rows[c.id := r.value] else s.rows) else s
  }

  function Run(s: Tables, cs: seq<Call>): Tables
    decreases |cs|
  {
    if cs == [] then s else Run(Step(s, cs[0]), cs[1..])
  }

  // Replay.

  /** The replayed record; fields set by ORDER_CREATED are NULL until then. */
  datatype Replayed = Replayed(
    details: Option<Details>, filled: Decimal, status: OrderStatus, updatedAt: Option<int>, count: nat)

  const BLANK := Replayed(None, 0.0, Open, None, 0)

  function Apply(v: Replayed, e: Event): Replayed {
    var w := v.(count := v.count + 1, updatedAt := Some(e.timestamp));
    match e.data
    case Created(d) => w.(details := Some(d.(createdAt := e.timestamp)), status := Open)
    case Fill(_, f, s) => w.(filled := f, status := s)
    case Cancellation(_) => w.(status := Cancelled)
    case Rejection(_) => w.(status := Rejected)
  }

  function Replay(h: seq<Event>): Replayed {
    if h == [] then BLANK else Apply(Replay(h[..|h| - 1]), h[|h| - 1])
  }

  /** The row that rebuild_orders_snapshot inserts, if the NOT NULL constraints let it. */
  function RowOf(v: Replayed): Option<Row> {
    if v.details.Some? && v.updatedAt.Some?
    then Some(Row(v.details.value, v.filled, v.status, v.updatedAt.value, v.count))
    else None
  }

  // Consistency.

  ghost predicate Gapless(h: seq<Event>) {
    forall i :: 0 <= i < |h| ==> h[i].sequence == i + 1
  }

  ghost predicate CreatedOnce(h: seq<Event>) {
    forall i :: 0 <= i < |h| ==> (h[i].data.Created? <==> i == 0)
  }

  ghost predicate OrderConsistent(s: Tables, id: Id) {
    var h := History(s.log, id);
    && Gapless(h) && CreatedOnce(h)
    && (id in s.rows <==> h != [])
    && (h != [] ==> RowOf(Replay(h)) == Some(s.rows[id]) && RowAllowed(s.rows[id]))
  }

  ghost predicate Consistent(s: Tables) {
    forall id :: OrderConsistent(s, id)
  }

  /** The protocol: an order is created exactly once, before anything else happens to it. */
  predicate InProtocol(s: Tables, c: Call) {
    c.RecordCreated? <==> c.id !in s.rows
  }

  /** Every call that is accepted is in protocol. */
  predicate FollowsProtocol(s: Tables, cs: seq<Call>)
    decreases |cs|
  {
    cs == [] || ((Accepts(s, cs[0]) ==> InProtocol(s, cs[0])) && FollowsProtocol(Step(s, cs[0]), cs[1..]))
  }

  lemma HistoryAppend(log: seq<Event>, e: Event, id: Id)
    ensures History(log + [e], id) == if e.orderId == id then History(log, id) + [e] else History(log, id)
  {
    assert (log + [e])[..|log|] == log;
  }

  lemma {:induction false} MaxOfGapless(h: seq<Event>)
    requires Gapless(h)
    ensures MaxSequence(h) == |h|
  {
    if h != [] {
      MaxOfGapless(h[..|h| - 1]);
    }
  }

  lemma {:induction false} ReplayCounts(h: seq<Event>)
    ensures Replay(h).count == |h|
  {
    if h != [] {
      ReplayCounts(h[..|h| - 1]);
    }
  }

  lemma ReplayAppend(h: seq<Event>, e: Event)
    ensures Replay(h + [e]) == Apply(Replay(h), e)
  {
    assert (h + [e])[..|h|] == h;
  }

  lemma RowAppend(v: Replayed, rows: map<Id, Row>, c: Call, n: nat)
    requires c.RecordCreated? <==> c.id !in rows
    requires c.RecordCreated? ==> v == BLANK
    requires !c.RecordCreated? ==> RowOf(v) == Some(rows[c.id])
    requires n == v.count + 1
    ensures RowOf(Apply(v, EventOf(c, n))) == Written(rows, c, n) == Proposed(rows, c, n)
    ensures Written(rows, c, n).Some?
  {
  }

  // Sequence numbers have no gaps, whatever is recorded.

  ghost predicate AllGapless(log: seq<Event>) {
    forall id :: Gapless(History(log, id))
  }

  lemma NextOfGapless(log: seq<Event>, id: Id)
    requires AllGapless(log)
    ensures NextSequence(log, id) == |History(log, id)| + 1
  {
    MaxOfGapless(History(log, id));
  }

  lemma AppendGapless(log: seq<Event>, e: Event)
    requires AllGapless(log) && e.sequence == NextSequence(log, e.orderId)
    ensures AllGapless(log + [e])
  {
    hide History, NextSequence;
    NextOfGapless(log, e.orderId);
    forall id ensures Gapless(History(log + [e], id)) {
      assert Gapless(History(log, id));
      HistoryAppend(log, e, id);
    }
  }

  lemma StepGapless(s: Tables, c: Call)
    requires AllGapless(s.log)
    ensures AllGapless(Step(s, c).log)
  {
    hide History, AllGapless, NextSequence;
    if Accepts(s, c) {
      AppendGapless(s.log, EventOf(c, NextSequence(s.log, c.id)));
    }
  }

  /** In every run, in protocol or not, the events of an order are numbered 1, 2, 3 and so on. */
  lemma {:induction false} RunGapless(s: Tables, cs: seq<Call>)
    requires AllGapless(s.log)
    ensures AllGapless(Run(s, cs).log)
    decreases |cs|
  {
    hide AllGapless, Step;
    if cs != [] {
      StepGapless(s, cs[0]);
      RunGapless(Step(s, cs[0]), cs[1..]);
    }
  }

  function InsertBySequence(h: seq<Event>, e: Event): seq<Event> {
    if h == [] || h[|h| - 1].sequence <= e.sequence then h + [e]
    else InsertBySequence(h[..|h| - 1], e) + [h[|h| - 1]]
  }

  /** The events of one order, ordered by sequence number. */
  function BySequence(log: seq<Event>, id: Id): seq<Event> {
    if log == [] then [] else
    var h := BySequence(log[..|log| - 1], id);
    if log[|log| - 1].orderId == id then InsertBySequence(h, log[|log| - 1]) else h
  }

  lemma {:induction false} HistoryPrefix(log: seq<Event>, id: Id)
    requires log != []
    ensures History(log[..|log| - 1], id) <= History(log, id)
    ensures log[|log| - 1].orderId == id ==> History(log, id) == History(log[..|log| - 1], id) + [log[|log| - 1]]
  {
  }

  /** Without gaps, sequence order is the order in which the events were appended. */
  lemma {:induction false} SequenceIsAppendOrder(log: seq<Event>, id: Id)
    requires Gapless(History(log, id))
    ensures BySequence(log, id) == History(log, id)
  {
    if log != [] {
      HistoryPrefix(log, id);
      var front, e := log[..|log| - 1], log[|log| - 1];
      var h := History(front, id);
      assert forall i :: 0 <= i < |h| ==> h[i] == History(log, id)[i];
      SequenceIsAppendOrder(front, id);
      if e.orderId == id {
        assert History(log, id)[|h|] == e;
        assert InsertBySequence(h, e) == h + [e];
      }
    }
  }

  // Rows and replay agree.

  /** A recorded call keeps the order it is about consistent. */
  lemma StepOwn(s: Tables, c: Call)
    requires OrderConsistent(s, c.id) && InProtocol(s, c) && Accepts(s, c)
    ensures OrderConsistent(Step(s, c), c.id)
  {
    hide History, MaxSequence, Gapless, CreatedOnce, Written, Proposed, Apply, RowOf, Replay, RowAllowed;
    var h := History(s.log, c.id);
    MaxOfGapless(h);
    ReplayCounts(h);
    var e := EventOf(c, |h| + 1);
    HistoryAppend(s.log, e, c.id);
    ReplayAppend(h, e);
    NumbersAppend(h, e);
    ReplayNone();
    RowAppend(Replay(h), s.rows, c, |h| + 1);
  }

  lemma ReplayNone()
    ensures Replay([]) == BLANK
  {
  }

  lemma NumbersAppend(h: seq<Event>, e: Event)
    requires Gapless(h) && CreatedOnce(h) && e.sequence == |h| + 1 && (e.data.Created? <==> h == [])
    ensures Gapless(h + [e]) && CreatedOnce(h + [e])
  {
  }

  lemma StepOther(s: Tables, c: Call, id: Id)
    requires id != c.id
    ensures History(Step(s, c).log, id) == History(s.log, id)
    ensures id in Step(s, c).rows <==> id in s.rows
    ensures id in s.rows ==> Step(s, c).rows[id] == s.rows[id]
  {
    HistoryAppend(s.log, EventOf(c, NextSequence(s.log, c.id)), id);
    hide History, MaxSequence, Written, Proposed;
  }

  lemma StepConsistent(s: Tables, c: Call)
    requires Consistent(s) && (Accepts(s, c) ==> InProtocol(s, c))
    ensures Consistent(Step(s, c))
  {
    forall id ensures OrderConsistent(Step(s, c), id) {
      assert OrderConsistent(s, id);
      hide History, Gapless, CreatedOnce, Replay, RowOf;
      if id != c.id { StepOther(s, c, id); } else if Accepts(s, c) { StepOwn(s, c); }
    }
  }

  /** After any interleaved run that creates each order first and once, sequence numbers have no
      gaps and every snapshot row is what replay gives, sequence number included. */
  lemma {:induction false} RunConsistent(s: Tables, cs: seq<Call>)
    requires Consistent(s) && FollowsProtocol(s, cs)
    ensures Consistent(Run(s, cs))
    decreases |cs|
  {
    hide Consistent, Step;
    if cs != [] {
      StepConsistent(s, cs[0]);
      RunConsistent(Step(s, cs[0]), cs[1..]);
    }
  }

  const NO_TABLES := Tables([], map[])

  lemma StartsConsistent()
    ensures Consistent(NO_TABLES) && AllGapless(NO_TABLES.log)
  {
  }

  // What the tables say, in terms of the calls.

  /** A call is accepted exactly when the row that it proposes meets the constraints: a creation of a
      known side and type, a positive quantity and no negative price; a fill within the order's
      quantity, or of an order without a row; every cancellation and rejection. */
  lemma AcceptsExactly(s: Tables, c: Call)
    requires Consistent(s)
    ensures match c
            case RecordCreated(_, d) =>
              Accepts(s, c) <==>
              && (d.side == Buy || d.side == Sell) && (d.kind == Limit || d.kind == Market)
              && d.quantity > 0.0 && d.price >= 0.0
            case RecordFill(id, _, f, _, _) =>
              Accepts(s, c) <==> (id in s.rows ==> 0.0 <= f <= s.rows[id].details.quantity)
            case _ => Accepts(s, c)
  {
    hide NextSequence;
    if c.id in s.rows {
      assert OrderConsistent(s, c.id);
    }
  }

  /** The calls that are accepted, in order. */
  function Through(s: Tables, cs: seq<Call>): seq<Call>
    decreases |cs|
  {
    if cs == [] then [] else (if Accepts(s, cs[0]) then [cs[0]] else []) + Through(Step(s, cs[0]), cs[1..])
  }

  function About(cs: seq<Call>, id: Id): seq<Call> {
    if cs == [] then []
    else About(cs[..|cs| - 1], id) + (if cs[|cs| - 1].id == id then [cs[|cs| - 1]] else [])
  }

  /** The row has the details of the first call, the time and status of the last one, the quantity of the
      last fill, and the number of calls. */
  ghost predicate Says(r: Row, ds: seq<Call>)
    requires ds != []
  {
    var last := ds[|ds| - 1];
    && ds[0].RecordCreated? && r.details == ds[0].details && r.lastSequence == |ds|
    && r.updatedAt == (if last.RecordCreated? then last.details.createdAt else last.at)
    && (last.RecordCreated? ==> r.status == Open)
    && (last.RecordFill? ==> r.status == last.status)
    && (last.RecordCancelled? ==> r.status == Cancelled)
    && (last.RecordRejected? ==> r.status == Rejected)
    && (forall i :: 0 <= i < |ds| && ds[i].RecordFill? && (forall j :: i < j < |ds| ==> !ds[j].RecordFill?) ==>
          r.filled == ds[i].filledQuantity)
    && ((forall i :: 0 <= i < |ds| ==> !ds[i].RecordFill?) ==> r.filled == 0.0)
  }

  ghost predicate RowSays(s: Tables, cs: seq<Call>, id: Id) {
    var ds := About(cs, id);
    (id in s.rows <==> ds != []) && (ds != [] ==> Says(s.rows[id], ds))
  }

  lemma AboutMore(cs: seq<Call>, c: Call, id: Id)
    ensures About(cs + [c], id) == About(cs, id) + (if c.id == id then [c] else [])
  {
    assert (cs + [c])[..|cs|] == cs;
  }

  lemma RowNumber(s: Tables, id: Id)
    requires Consistent(s)
    ensures NextSequence(s.log, id) == if id in s.rows then s.rows[id].lastSequence + 1 else 1
  {
    assert OrderConsistent(s, id);
    MaxOfGapless(History(s.log, id));
    ReplayCounts(History(s.log, id));
  }

  lemma OneMoreSays(r: Row, ds: seq<Call>, c: Call, rows: map<Id, Row>)
    requires ds != [] && Says(r, ds) && c.id in rows && rows[c.id] == r && !c.RecordCreated?
    ensures var w := Written(rows, c, |ds| + 1); w.Some? && Says(w.value, ds + [c])
  {
    var es := ds + [c];
    assert es[0] == ds[0] && es[|es| - 1] == c && forall i :: 0 <= i < |ds| ==> es[i] == ds[i];
  }

  lemma StepSays(s: Tables, cs: seq<Call>, c: Call, id: Id)
    requires Consistent(s) && Accepts(s, c) && InProtocol(s, c) && RowSays(s, cs, id)
    ensures RowSays(Step(s, c), cs + [c], id)
  {
    hide History, MaxSequence, Consistent, Says;
    AboutMore(cs, c, id);
    RowNumber(s, c.id);
    if id != c.id {
      StepOther(s, c, id);
      assert About(cs, id) + [] == About(cs, id);
    } else {
      var ds := About(cs, id);
      if ds == [] {
        FirstSays(c);
        assert [] + [c] == [c];
      } else {
        SaysNumber(s.rows[id], ds);
        OneMoreSays(s.rows[id], ds, c, s.rows);
      }
    }
  }

  lemma SaysNumber(r: Row, ds: seq<Call>)
    requires ds != [] && Says(r, ds)
    ensures r.lastSequence == |ds|
  {
  }

  lemma FirstSays(c: Call)
    requires c.RecordCreated?
    ensures Says(Row(c.details, 0.0, Open, c.details.createdAt, 1), [c])
  {
  }

  lemma {:induction false} RunSays(s: Tables, before: seq<Call>, cs: seq<Call>)
    requires Consistent(s) && FollowsProtocol(s, cs) && forall id :: RowSays(s, before, id)
    ensures forall id :: RowSays(Run(s, cs), before + Through(s, cs), id)
    decreases |cs|
  {
    hide Consistent, Step, Accepts, InProtocol, RowSays;
    if cs == [] {
      assert before + [] == before;
    } else {
      var c, s' := cs[0], Step(s, cs[0]);
      StepConsistent(s, c);
      if Accepts(s, c) {
        forall id ensures RowSays(s', before + [c], id) {
          StepSays(s, before, c, id);
        }
        RunSays(s', before + [c], cs[1..]);
        assert before + [c] + Through(s', cs[1..]) == before + ([c] + Through(s', cs[1..]));
      } else {
        RefusedStep(s, c);
        RunSays(s', before, cs[1..]);
        assert [] + Through(s', cs[1..]) == Through(s', cs[1..]);
      }
    }
  }

  lemma RefusedStep(s: Tables, c: Call)
    requires !Accepts(s, c)
    ensures Step(s, c) == s
  {
  }

  /** After any run in protocol, each row says what the accepted calls about its order say. */
  lemma RowsSayCalls(cs: seq<Call>, id: Id)
    requires FollowsProtocol(NO_TABLES, cs)
    ensures RowSays(Run(NO_TABLES, cs), Through(NO_TABLES, cs), id)
  {
    hide Consistent, FollowsProtocol, Says;
    StartsConsistent();
    RunSays(NO_TABLES, [], cs);
    assert [] + Through(NO_TABLES, cs) == Through(NO_TABLES, cs);
  }

  // Verification and rebuilding.

  /** Orders whose row disagrees with replay in status or filled quantity. */
  ghost function Inconsistent(s: Tables): set<Id> {
    set id | id in s.rows && Disagrees(s.rows[id], Replay(History(s.log, id)))
  }

  predicate Disagrees(r: Row, v: Replayed) {
    r.status != v.status || r.filled != v.filled
  }

  function LogIds(log: seq<Event>): set<Id> {
    set i | 0 <= i < |log| :: log[i].orderId
  }

  /** What the snapshot is after a rebuild; `None` if some order cannot be inserted. */
  ghost function Rebuild(log: seq<Event>): Option<map<Id, Row>> {
    if forall id :: id in LogIds(log) ==> Insertable(log, id)
    then Some(map id | id in LogIds(log) :: RowOf(Replay(History(log, id))).value)
    else None
  }

  ghost predicate Insertable(log: seq<Event>, id: Id) {
    var r := RowOf(Replay(History(log, id)));
    r.Some? && RowAllowed(r.value)
  }

  lemma {:induction false} HistoryEmpty(log: seq<Event>, id: Id)
    ensures History(log, id) == [] <==> id !in LogIds(log)
  {
    if log != [] {
      var front, e := log[..|log| - 1], log[|log| - 1];
      HistoryEmpty(front, id);
      assert LogIds(log) == LogIds(front) + {e.orderId} by {
        assert log == front + [e];
      }
    }
  }

  lemma SameIds(s: Tables)
    requires Consistent(s)
    ensures s.rows.Keys == LogIds(s.log)
  {
    forall id ensures id in s.rows <==> id in LogIds(s.log) {
      assert OrderConsistent(s, id);
      HistoryEmpty(s.log, id);
    }
  }

  /** In a consistent store verification reports nothing and rebuilding changes nothing. */
  lemma RebuildIsIdentity(s: Tables)
    requires Consistent(s)
    ensures Inconsistent(s) == {} && Rebuild(s.log) == Some(s.rows)
  {
    SameIds(s);
    hide LogIds, History;
    forall id | id in s.rows
      ensures RowOf(Replay(History(s.log, id))) == Some(s.rows[id]) && Insertable(s.log, id)
    {
      assert OrderConsistent(s, id);
    }
    assert Rebuild(s.log).Some? && Rebuild(s.log).value.Keys == s.rows.Keys;
    assert forall id :: id in s.rows ==> Rebuild(s.log).value[id] == s.rows[id];
    assert Rebuild(s.log).value == s.rows;
    assert forall id :: id in s.rows ==> id !in Inconsistent(s);
  }

  /** A rebuild gives the snapshot back. */
  ghost predicate Rebuilds(s: Tables) { Rebuild(s.log) == Some(s.rows) }

  /** After one more accepted call, rebuilding still gives the snapshot back if and only if the
      call respects the protocol. */
  lemma ProtocolIsExact(s: Tables, c: Call)
    requires Consistent(s) && Accepts(s, c)
    ensures Rebuilds(Step(s, c)) <==> InProtocol(s, c)
  {
    if InProtocol(s, c) {
      StepConsistent(s, c);
      RebuildIsIdentity(Step(s, c));
    } else {
      hide Replay, Gapless, CreatedOnce, Apply, RowOf, MaxSequence, LogIds;
      assert OrderConsistent(s, c.id);
      var h := History(s.log, c.id);
      var e := EventOf(c, NextSequence(s.log, c.id));
      HistoryAppend(s.log, e, c.id);
      HistoryEmpty(Step(s, c).log, c.id);
      ReplayAppend(h, e);
      ReplayCounts(h);
      MaxOfGapless(h);
      OutsideProtocol(s, c, h, e);
    }
  }

  lemma OutsideProtocol(s: Tables, c: Call, h: seq<Event>, e: Event)
    requires h == History(s.log, c.id) && OrderConsistent(s, c.id) && !InProtocol(s, c) && Accepts(s, c)
    requires e == EventOf(c, NextSequence(s.log, c.id)) && Replay(h + [e]) == Apply(Replay(h), e)
    requires History(Step(s, c).log, c.id) == h + [e] && c.id in LogIds(Step(s, c).log)
    requires Replay(h).count == |h| == MaxSequence(h)
    ensures !Rebuilds(Step(s, c))
  {
    hide History, LogIds;
    var s' := Step(s, c);
    if c.id !in s.rows {
      assert RowOf(Replay(History(s'.log, c.id))) == None;
      assert !Insertable(s'.log, c.id);
    } else {
      assert s'.rows == s.rows && s.rows[c.id].lastSequence == |h|;
      assert RowOf(Replay(History(s'.log, c.id))).value.lastSequence == |h| + 1;
      if Rebuild(s'.log).Some? {
        assert Rebuild(s'.log).value[c.id] != s'.rows[c.id];
      }
    }
  }

  /** A rebuild gives the snapshot back at every moment of a run. */
  ghost predicate RebuildsThroughout(s: Tables, cs: seq<Call>)
    decreases |cs|
  {
    Rebuilds(s) && (cs == [] || RebuildsThroughout(Step(s, cs[0]), cs[1..]))
  }

  /** Over every run, a rebuild gives the snapshot back at every moment if and only if every accepted
      call respects the protocol. */
  lemma {:induction false} RunIsExact(s: Tables, cs: seq<Call>)
    requires Consistent(s)
    ensures RebuildsThroughout(s, cs) <==> FollowsProtocol(s, cs)
    decreases |cs|
  {
    hide Consistent, Step, Accepts, InProtocol, Rebuilds;
    RebuildIsIdentity(s);
    assert Rebuilds(s) by { RebuildsIf(s); }
    if cs != [] {
      if Accepts(s, cs[0]) && !InProtocol(s, cs[0]) {
        ProtocolIsExact(s, cs[0]);
        assert !RebuildsThroughout(Step(s, cs[0]), cs[1..]);
      } else {
        StepConsistent(s, cs[0]);
        RunIsExact(Step(s, cs[0]), cs[1..]);
      }
    }
  }

  lemma RebuildsIf(s: Tables)
    requires Rebuild(s.log) == Some(s.rows)
    ensures Rebuilds(s)
  {
  }

  /** From empty tables, in particular. */
  lemma FirstRunIsExact(cs: seq<Call>)
    ensures RebuildsThroughout(NO_TABLES, cs) <==> FollowsProtocol(NO_TABLES, cs)
    ensures AllGapless(Run(NO_TABLES, cs).log)
  {
    hide Consistent, AllGapless;
    StartsConsistent();
    RunIsExact(NO_TABLES, cs);
    RunGapless(NO_TABLES, cs);
  }

  const DETAILS := Details("client", "ABC", Buy, Limit, 1.0, 1.0, 0)

  /** A fill that is recorded before its order leaves a log that cannot be rebuilt. */
  lemma FillBeforeCreation()
    ensures var c := RecordFill("o", 1.0, 1.0, Filled, 0);
            Accepts(NO_TABLES, c) && !InProtocol(NO_TABLES, c) && !Rebuilds(Step(NO_TABLES, c))
  {
    var c := RecordFill("o", 1.0, 1.0, Filled, 0);
    StartsConsistent();
    ProtocolIsExact(NO_TABLES, c);
  }

  /** A second creation changes what a rebuild gives, and verification does not notice. */
  lemma SecondCreation()
    ensures var c := RecordCreated("o", DETAILS);
            var s := Step(NO_TABLES, c);
            Accepts(s, c) && !InProtocol(s, c) && !Rebuilds(Step(s, c)) && Inconsistent(Step(s, c)) == {}
  {
    var c := RecordCreated("o", DETAILS);
    var s := Step(NO_TABLES, c);
    StartsConsistent();
    StepConsistent(NO_TABLES, c);
    ProtocolIsExact(s, c);
    VerificationNotices(s, c);
  }

  /** Of the calls out of protocol, verification notices exactly the second creation of an order that
      is no longer open. */
  lemma VerificationNotices(s: Tables, c: Call)
    requires Consistent(s) && Accepts(s, c) && !InProtocol(s, c)
    ensures Inconsistent(Step(s, c)) != {} <==> c.RecordCreated? && s.rows[c.id].status != Open
  {
    hide History, Replay, Gapless, CreatedOnce, MaxSequence, RowAllowed;
    var s' := Step(s, c);
    var h := History(s.log, c.id);
    var e := EventOf(c, NextSequence(s.log, c.id));
    HistoryAppend(s.log, e, c.id);
    ReplayAppend(h, e);
    assert OrderConsistent(s, c.id);
    forall id | id in s.rows && id != c.id ensures id !in Inconsistent(s') {
      assert OrderConsistent(s, id);
      StepOther(s, c, id);
    }
    assert c.id in Inconsistent(s') <==> c.RecordCreated? && s.rows[c.id].status != Open;
    assert forall id :: id in Inconsistent(s') ==> id == c.id;
  }

  /** What verification does not look at: orders that only one table has, and the other fields. */
  ghost predicate Unseen(s: Tables, id: Id) {
    var v := RowOf(Replay(History(s.log, id)));
    || !(id in s.rows <==> id in LogIds(s.log))
    || (id in s.rows && (v.None? || !RowAllowed(v.value)
          || v.value.(status := s.rows[id].status, filled := s.rows[id].filled) != s.rows[id]))
  }

  /** A rebuild gives the snapshot back exactly when verification reports nothing and there is
      nothing that it does not look at. */
  lemma VerificationMisses(s: Tables)
    ensures Rebuilds(s) <==> Inconsistent(s) == {} && forall id :: !Unseen(s, id)
  {
    hide History, Replay, LogIds, RowAllowed;
    if Rebuilds(s) {
      assert Rebuild(s.log).value.Keys == LogIds(s.log);
      forall id ensures !Unseen(s, id) && id !in Inconsistent(s) {
        assert id in s.rows <==> id in LogIds(s.log);
        if id in s.rows {
          assert Insertable(s.log, id) && s.rows[id] == RowOf(Replay(History(s.log, id))).value;
        }
      }
    }
    if Inconsistent(s) == {} && forall id :: !Unseen(s, id) {
      NothingMissed(s);
    }
  }

  lemma NothingMissed(s: Tables)
    requires Inconsistent(s) == {} && forall id :: !Unseen(s, id)
    ensures Rebuilds(s)
  {
    hide History, Replay, LogIds, RowAllowed;
    forall id | id in LogIds(s.log)
      ensures Insertable(s.log, id) && id in s.rows && RowOf(Replay(History(s.log, id))) == Some(s.rows[id])
    {
      assert !Unseen(s, id);
      assert id !in Inconsistent(s);
    }
    forall id | id in s.rows ensures id in LogIds(s.log) {
      assert !Unseen(s, id);
    }
    var r := Rebuild(s.log);
    assert r.Some? && r.value.Keys == s.rows.Keys;
    assert r.value == s.rows;
  }

  // Replay reproduces the order in memory.

  datatype Change = Filling(q: Decimal) | Cancelling

  /** The order object after a change (models/order.go). */
  function Changed(o: OrderRec, x: Change): OrderRec {
    match x
    case Filling(q) => o.AfterFill(q)
    case Cancelling => o.(status := Cancelled)
  }

  /** What is recorded after a change: the cumulative filled quantity and the new status. */
  function Recorded(o: OrderRec, x: Change, at: int): Call {
    match x
    case Filling(q) => RecordFill(o.id, q, Changed(o, x).filled, Changed(o, x).status, at)
    case Cancelling => RecordCancelled(o.id, "", at)
  }

  function DetailsOf(o: OrderRec): Details {
    Details(o.clientId, o.instrument, o.side, o.kind, o.price, o.quantity, o.createdAt)
  }

  /** The order as replay and as the snapshot show it. */
  ghost predicate Mirrors(s: Tables, o: OrderRec) {
    var v := Replay(History(s.log, o.id));
    && v.details == Some(DetailsOf(o)) && v.filled == o.filled && v.status == o.status
    && o.id in s.rows && s.rows[o.id].details == DetailsOf(o)
    && s.rows[o.id].filled == o.filled && s.rows[o.id].status == o.status
  }

  /** The order changes and the change is recorded, or some other order's call comes in between. */
  datatype Moment = Own(x: Change, at: int) | Foreign(c: Call)

  /** Fills never take the order beyond its quantity, and foreign calls are about other orders. */
  predicate WithinQuantity(o: OrderRec, ms: seq<Moment>)
    decreases |ms|
  {
    ms == [] ||
    match ms[0]
    case Own(x, _) => 0.0 <= Changed(o, x).filled <= o.quantity && WithinQuantity(Changed(o, x), ms[1..])
    case Foreign(c) => c.id != o.id && WithinQuantity(o, ms[1..])
  }

  /** Change the order, then record the change, again and again, between calls of other orders. */
  function RecordAll(s: Tables, o: OrderRec, ms: seq<Moment>): (r: (Tables, OrderRec))
    decreases |ms|
  {
    if ms == [] then (s, o) else
    match ms[0]
    case Own(x, at) => RecordAll(Step(s, Recorded(o, x, at)), Changed(o, x), ms[1..])
    case Foreign(c) => RecordAll(Step(s, c), o, ms[1..])
  }

  lemma ChangeMirrored(s: Tables, o: OrderRec, x: Change, at: int)
    requires Mirrors(s, o) && o.id in s.rows && RowAllowed(s.rows[o.id]) && 0.0 <= Changed(o, x).filled <= o.quantity
    ensures Mirrors(Step(s, Recorded(o, x, at)), Changed(o, x))
    ensures RowAllowed(Step(s, Recorded(o, x, at)).rows[o.id])
  {
    var e := EventOf(Recorded(o, x, at), NextSequence(s.log, o.id));
    HistoryAppend(s.log, e, o.id);
    ReplayAppend(History(s.log, o.id), e);
    hide History, Replay, MaxSequence;
  }

  /** For any sequence of fills and cancellations, recorded one by one at any times and interleaved
      with calls of other orders, replaying the log yields the filled quantity, status and details of
      the order in memory, and so does its row. */
  lemma {:induction false} ReplayReproducesMemory(s: Tables, o: OrderRec, ms: seq<Moment>)
    requires Mirrors(s, o) && o.id in s.rows && RowAllowed(s.rows[o.id]) && WithinQuantity(o, ms)
    ensures var (s', o') := RecordAll(s, o, ms); Mirrors(s', o')
    decreases |ms|
  {
    if ms != [] {
      hide Step, Replay, RowAllowed;
      match ms[0]
      case Own(x, at) =>
        ChangeMirrored(s, o, x, at);
        ReplayReproducesMemory(Step(s, Recorded(o, x, at)), Changed(o, x), ms[1..]);
      case Foreign(c) =>
        StepOther(s, c, o.id);
        ReplayReproducesMemory(Step(s, c), o, ms[1..]);
    }
  }

  /** A newly recorded order is mirrored to begin with. */
  lemma CreationMirrored(s: Tables, o: OrderRec)
    requires Consistent(s) && o.id !in s.rows && o.filled == 0.0 && o.status == Open
    requires RowAllowed(Row(DetailsOf(o), 0.0, Open, o.createdAt, 1))
    ensures var s' := Step(s, RecordCreated(o.id, DetailsOf(o)));
            Mirrors(s', o) && RowAllowed(s'.rows[o.id])
  {
    var c := RecordCreated(o.id, DetailsOf(o));
    assert OrderConsistent(s, o.id);
    var e := EventOf(c, NextSequence(s.log, o.id));
    HistoryAppend(s.log, e, o.id);
    ReplayAppend([], e);
    assert [] + [e] == [e];
  }
}
