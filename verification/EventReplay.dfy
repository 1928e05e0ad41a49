/** Rebuilding an order from its event log, up to now, to a version or to a time
    (eventsourcing/replay.go, queries of eventsourcing/store.go).
 */
module EventReplay {
  import opened Orders

  datatype Status = Blank | IsOpen | IsPartial | IsFilled | IsCancelled

  datatype Payload =
    | Placed(clientId: string, instrument: string, side: string, kind: string, price: real, quantity: real,
             timeInForce: string)
    | CancelledEvent
    | PartFilled(filledQuantity: real, remainingQuantity: real, fillPrice: real)
    | FilledEvent(totalFilled: real, averagePrice: real)
    | OtherEvent

  datatype Event = Event(orderId: Id, version: int, timestamp: int, payload: Payload)

  datatype Terms = Terms(
    orderId: Id, clientId: string, instrument: string, side: string, kind: string, price: real, timeInForce: string)

  datatype State = State(
    terms: Terms, original: real, remaining: real, filled: real, average: real,
    status: Status, createdAt: int, updatedAt: int, version: int)

  /** All fields zero. */
  const EMPTY := State(Terms("", "", "", "", "", 0.0, ""), 0.0, 0.0, 0.0, 0.0, Blank, 0, 0, 0)

  function Apply(s: State, e: Event): State {
    var t := s.(updatedAt := e.timestamp, version := e.version);
    match e.payload
    case Placed(c, i, d, k, p, q, tif) =>
      t.(terms := Terms(e.orderId, c, i, d, k, p, tif), original := q, remaining := q, filled := 0.0,
         status := IsOpen, createdAt := e.timestamp)
    case CancelledEvent => t.(status := IsCancelled)
    case PartFilled(q, r, p) =>
      t.(filled := s.filled + q, remaining := r, status := IsPartial, average := Averaged(s.average, s.filled, p, q))
    case FilledEvent(total, average) =>
      t.(filled := total, remaining := 0.0, status := IsFilled, average := average)
    case OtherEvent => s
  }

  /** The average price after `q` more at price `p`; it stays as long as nothing is filled. */
  function Averaged(average: real, filled: real, p: real, q: real): real {
    if filled + q > 0.0 then (average * filled + p * q) / (filled + q) else average
  }

  function Replay(s: State, es: seq<Event>): State {
    if es == [] then s else Apply(Replay(s, es[..|es| - 1]), es[|es| - 1])
  }

  // The log and its two queries.

  /** UNIQUE(aggregate, version): a version is written once per order. */
  ghost predicate Unique(log: seq<Event>) {
    forall i, j :: 0 <= i < j < |log| && log[i].orderId == log[j].orderId ==> log[i].version != log[j].version
  }

  function Insert(es: seq<Event>, e: Event): seq<Event> {
    if es == [] || e.version < es[0].version then [e] + es else [es[0]] + Insert(es[1..], e)
  }

  /** The events of an order with a version above `v` (of all versions without one), by version. */
  function Load(log: seq<Event>, id: Id, v: Option<int>): seq<Event> {
    if log == [] then []
    else
      var es, e := Load(log[..|log| - 1], id, v), log[|log| - 1];
      if e.orderId == id && (v.Some? ==> e.version > v.value) then Insert(es, e) else es
  }

  ghost predicate Sorted(es: seq<Event>) {
    forall i, j :: 0 <= i < j < |es| ==> es[i].version < es[j].version
  }

  /** The events that a replay to version `v` reaches before it stops. */
  function UpTo(es: seq<Event>, v: int): seq<Event> {
    if es == [] || es[0].version > v then [] else [es[0]] + UpTo(es[1..], v)
  }

  function After(es: seq<Event>, v: int): seq<Event> {
    if es == [] then [] else (if es[0].version > v then [es[0]] else []) + After(es[1..], v)
  }

  lemma {:induction false} InsertMembers(es: seq<Event>, e: Event)
    ensures forall x :: x in Insert(es, e) <==> x in es || x == e
    decreases |es|
  {
    if es != [] && e.version >= es[0].version {
      InsertMembers(es[1..], e);
      assert es == [es[0]] + es[1..];
    }
  }

  lemma {:induction false} InsertSorted(es: seq<Event>, e: Event)
    requires Sorted(es) && forall x :: x in es ==> x.version != e.version
    ensures Sorted(Insert(es, e))
    decreases |es|
  {
    if es != [] && e.version >= es[0].version {
      InsertSorted(es[1..], e);
      InsertMembers(es[1..], e);
      assert forall x :: x in Insert(es[1..], e) ==> es[0].version < x.version;
    } else {
      assert forall i :: 0 <= i < |es| ==> e.version < es[i].version;
    }
  }

  lemma {:induction false} LoadMembers(log: seq<Event>, id: Id, v: Option<int>)
    ensures forall x :: x in Load(log, id, v) <==> x in log && x.orderId == id && (v.Some? ==> x.version > v.value)
    decreases |log|
  {
    if log != [] {
      var n := |log| - 1;
      LoadMembers(log[..n], id, v);
      InsertMembers(Load(log[..n], id, v), log[n]);
      assert log == log[..n] + [log[n]];
    }
  }

  /** The store returns an order's events in strictly increasing version order. */
  lemma {:induction false} LoadSorted(log: seq<Event>, id: Id, v: Option<int>)
    requires Unique(log)
    ensures Sorted(Load(log, id, v))
    decreases |log|
  {
    if log != [] {
      var n := |log| - 1;
      LoadSorted(log[..n], id, v);
      LoadMembers(log[..n], id, v);
      if log[n].orderId == id && (v.Some? ==> log[n].version > v.value) {
        forall x | x in Load(log[..n], id, v)
          ensures x.version != log[n].version
        {
          var i :| 0 <= i < n && log[i] == x;
        }
        InsertSorted(Load(log[..n], id, v), log[n]);
      }
    }
  }

  lemma {:induction false} AfterMembers(es: seq<Event>, v: int)
    ensures forall x :: x in After(es, v) <==> x in es && x.version > v
    decreases |es|
  {
    if es != [] {
      AfterMembers(es[1..], v);
      assert es == [es[0]] + es[1..];
    }
  }

  lemma {:induction false} AfterAll(es: seq<Event>, v: int)
    requires forall x :: x in es ==> x.version > v
    ensures After(es, v) == es
    decreases |es|
  {
    if es != [] {
      AfterAll(es[1..], v);
      assert es == [es[0]] + es[1..];
    }
  }

  lemma {:induction false} AfterInsert(es: seq<Event>, e: Event, v: int)
    requires Sorted(es)
    ensures After(Insert(es, e), v) == if e.version > v then Insert(After(es, v), e) else After(es, v)
    decreases |es|
  {
    if es == [] || e.version < es[0].version {
      assert ([e] + es)[1..] == es;
      if e.version > v {
        forall x | x in es
          ensures x.version > v
        {
          var i :| 0 <= i < |es| && es[i] == x;
        }
        AfterAll(es, v);
      }
    } else {
      AfterInsert(es[1..], e, v);
      assert ([es[0]] + Insert(es[1..], e))[1..] == Insert(es[1..], e);
      if es[0].version > v {
        assert ([es[0]] + After(es[1..], v))[1..] == After(es[1..], v);
      } else {
        assert After(es, v) == After(es[1..], v);
      }
    }
  }

  /** Asking for the events after a version gives the later part of all events. */
  lemma {:induction false} LoadSince(log: seq<Event>, id: Id, v: int)
    requires Unique(log)
    ensures Load(log, id, Some(v)) == After(Load(log, id, None), v)
    decreases |log|
  {
    if log != [] {
      var n := |log| - 1;
      LoadSince(log[..n], id, v);
      LoadSorted(log[..n], id, None);
      AfterInsert(Load(log[..n], id, None), log[n], v);
    }
  }

  lemma {:induction false} SplitAtVersion(es: seq<Event>, v: int)
    requires Sorted(es)
    ensures es == UpTo(es, v) + After(es, v)
    decreases |es|
  {
    if es != [] {
      if es[0].version > v {
        forall x | x in es
          ensures x.version > v
        {
          var i :| 0 <= i < |es| && es[i] == x;
        }
        AfterAll(es, v);
      } else {
        SplitAtVersion(es[1..], v);
        assert After(es, v) == After(es[1..], v);
        assert es == [es[0]] + es[1..];
      }
    }
  }

  /** A replay to a version reaches exactly the events of that version and earlier ones. */
  lemma {:induction false} UpToMembers(es: seq<Event>, v: int)
    requires Sorted(es)
    ensures forall x :: x in UpTo(es, v) <==> x in es && x.version <= v
    decreases |es|
  {
    if es != [] {
      assert es == [es[0]] + es[1..];
      if es[0].version <= v {
        UpToMembers(es[1..], v);
      } else {
        assert forall i :: 0 <= i < |es| ==> es[i].version > v;
      }
    }
  }

  lemma {:induction false} UpToPrefix(es: seq<Event>, i: nat, v: int)
    requires i <= |es| && (forall k :: 0 <= k < i ==> es[k].version <= v) && (i < |es| ==> es[i].version > v)
    ensures UpTo(es, v) == es[..i]
    decreases |es|
  {
    if i > 0 {
      UpToPrefix(es[1..], i - 1, v);
      assert es[..i] == [es[0]] + es[1..][..i - 1];
    }
  }

  lemma {:induction false} UntilPrefix(es: seq<Event>, i: nat, time: int)
    requires i <= |es| && (forall k :: 0 <= k < i ==> es[k].timestamp <= time) && (i < |es| ==> es[i].timestamp > time)
    ensures Until(es, time) == es[..i]
    decreases |es|
  {
    if i > 0 {
      UntilPrefix(es[1..], i - 1, time);
      assert es[..i] == [es[0]] + es[1..][..i - 1];
    }
  }

  lemma {:induction false} ReplayConcat(s: State, a: seq<Event>, b: seq<Event>)
    ensures Replay(s, a + b) == Replay(Replay(s, a), b)
    decreases |b|
  {
    hide Apply;
    if b == [] {
      assert a + b == a;
    } else {
      var n := |b| - 1;
      assert (a + b)[..|a| + n] == a + b[..n];
      ReplayConcat(s, a, b[..n]);
    }
  }

  function ToVersion(log: seq<Event>, id: Id, v: int): State {
    Replay(EMPTY, UpTo(Load(log, id, None), v))
  }

  /** Replaying to a version and then applying what the store returns for the time since is the
      full replay, at every version and in whatever order the events were written. */
  lemma ReplaySplits(log: seq<Event>, id: Id, v: int)
    requires Unique(log)
    ensures Replay(ToVersion(log, id, v), Load(log, id, Some(v))) == Replay(EMPTY, Load(log, id, None))
  {
    hide Replay;
    LoadSorted(log, id, None);
    LoadSince(log, id, v);
    SplitAtVersion(Load(log, id, None), v);
    ReplayConcat(EMPTY, UpTo(Load(log, id, None), v), After(Load(log, id, None), v));
  }

  // Replay to a time.

  /** The events that a replay to a time reaches before it stops. */
  function Until(es: seq<Event>, time: int): seq<Event> {
    if es == [] || es[0].timestamp > time then [] else [es[0]] + Until(es[1..], time)
  }

  function NotAfter(es: seq<Event>, time: int): seq<Event> {
    if es == [] then [] else (if es[0].timestamp <= time then [es[0]] else []) + NotAfter(es[1..], time)
  }

  /** No event up to `time` comes after a later one in version order. */
  ghost predicate InTimeOrder(es: seq<Event>, time: int) {
    forall i, j :: 0 <= i < j < |es| && es[j].timestamp <= time ==> es[i].timestamp <= time
  }

  lemma {:induction false} NoneLeft(es: seq<Event>, time: int)
    ensures NotAfter(es, time) == [] <==> forall i :: 0 <= i < |es| ==> es[i].timestamp > time
    decreases |es|
  {
    if es != [] {
      NoneLeft(es[1..], time);
    }
  }

  /** Stopping at the first later event replays exactly the events up to the time, if and only if
      time and version order agree about it. */
  lemma {:induction false} UntilExactly(es: seq<Event>, time: int)
    ensures Until(es, time) == NotAfter(es, time) <==> InTimeOrder(es, time)
    decreases |es|
  {
    if es != [] {
      var rest := es[1..];
      UntilExactly(rest, time);
      if es[0].timestamp <= time {
        assert forall i :: 0 < i < |es| ==> es[i] == rest[i - 1];
        assert InTimeOrder(es, time) <==> InTimeOrder(rest, time);
        SameTail(es[0], Until(rest, time), NotAfter(rest, time));
      } else {
        NoneLeft(rest, time);
        assert NotAfter(es, time) == NotAfter(rest, time);
        if InTimeOrder(es, time) {
          assert forall i :: 0 <= i < |rest| ==> rest[i] == es[i + 1];
        }
      }
    }
  }

  /** A placement recorded late and a cancellation recorded with an earlier time. */
  function LateLog(): seq<Event> {
    [Event("o", 1, 10, Placed("c", "ABC", "buy", "limit", 1.0, 1.0, "GTC")), Event("o", 2, 5, CancelledEvent)]
  }

  /** An event with an early time but a late version is missed: the order's own log, replayed to 7,
      shows nothing, although the order is cancelled by then. */
  lemma UntilExample()
    ensures Unique(LateLog()) && Load(LateLog(), "o", None) == LateLog()
    ensures Replay(EMPTY, Until(LateLog(), 7)) == EMPTY
    ensures Replay(EMPTY, NotAfter(LateLog(), 7)).status == IsCancelled
  {
    var es := LateLog();
    assert es[..1] == [es[0]] && [es[0]][..0] == [];
    assert Load([es[0]], "o", None) == [es[0]];
    assert [es[0]][1..] == [] && Insert([es[0]], es[1]) == [es[0]] + [es[1]];
    assert es[1..] == [es[1]] && es[1..][1..] == [];
    assert NotAfter(es, 7) == [es[1]] && [es[1]][..0] == [];
  }

  lemma SameTail<T>(x: T, a: seq<T>, b: seq<T>)
    ensures [x] + a == [x] + b <==> a == b
  {
    assert ([x] + a)[1..] == a && ([x] + b)[1..] == b;
  }

  // What the fields show.

  /** Terms and creation time are those of the last placement. */
  lemma {:induction false} TermsShown(es: seq<Event>, i: nat)
    requires i < |es| && es[i].payload.Placed? && forall j :: i < j < |es| ==> !es[j].payload.Placed?
    ensures var s, p := Replay(EMPTY, es), es[i].payload;
            && s.terms.orderId == es[i].orderId && s.terms.clientId == p.clientId
            && s.terms.instrument == p.instrument && s.terms.side == p.side && s.terms.kind == p.kind
            && s.terms.price == p.price && s.terms.timeInForce == p.timeInForce
            && s.original == p.quantity && s.createdAt == es[i].timestamp
    decreases |es|
  {
    var n := |es| - 1;
    if i < n {
      TermsShown(es[..n], i);
    }
  }

  /** Version and time are those of the last event about the order, and the status is named by it. */
  lemma {:induction false} StatusShown(es: seq<Event>, i: nat)
    requires i < |es| && !es[i].payload.OtherEvent? && forall j :: i < j < |es| ==> es[j].payload.OtherEvent?
    ensures var s := Replay(EMPTY, es);
            && s.version == es[i].version && s.updatedAt == es[i].timestamp
            && (s.status == IsOpen <==> es[i].payload.Placed?)
            && (s.status == IsPartial <==> es[i].payload.PartFilled?)
            && (s.status == IsFilled <==> es[i].payload.FilledEvent?)
            && (s.status == IsCancelled <==> es[i].payload.CancelledEvent?)
    decreases |es|
  {
    var n := |es| - 1;
    if i < n {
      StatusShown(es[..n], i);
    }
  }

  /** Only fills change the average price, and only fills and placements the quantities. */
  lemma OnlyFillsCount(es: seq<Event>, e: Event)
    requires !e.payload.PartFilled? && !e.payload.FilledEvent?
    ensures var s, s' := Replay(EMPTY, es), Replay(EMPTY, es + [e]);
            && s'.average == s.average
            && (!e.payload.Placed? ==>
                  s'.filled == s.filled && s'.remaining == s.remaining && s'.original == s.original)
  {
    assert (es + [e])[..|es|] == es;
  }

  /** An order without events about it is blank. */
  lemma {:induction false} NothingShown(es: seq<Event>)
    requires forall j :: 0 <= j < |es| ==> es[j].payload.OtherEvent?
    ensures Replay(EMPTY, es) == EMPTY
    decreases |es|
  {
    if es != [] {
      NothingShown(es[..|es| - 1]);
    }
  }

  // Quantities and the average price.

  /** The quantity of the last placement. */
  function PlacedQuantity(es: seq<Event>): real {
    if es == [] then 0.0
    else
      var e := es[|es| - 1].payload;
      if e.Placed? then e.quantity else PlacedQuantity(es[..|es| - 1])
  }

  /** That quantity less the fills since; nothing after a complete fill. */
  function Outstanding(es: seq<Event>): real {
    if es == [] then 0.0
    else
      var before := Outstanding(es[..|es| - 1]);
      match es[|es| - 1].payload
      case Placed(_, _, _, _, _, q, _) => q
      case PartFilled(q, _, _) => before - q
      case FilledEvent(_, _) => 0.0
      case _ => before
  }

  /** A partial fill says what is outstanding after it, a complete fill the placed quantity. */
  predicate Continues(es: seq<Event>, e: Event) {
    match e.payload
    case PartFilled(q, r, _) => r == Outstanding(es) - q
    case FilledEvent(total, _) => total == PlacedQuantity(es)
    case _ => true
  }

  predicate WellFormed(es: seq<Event>) {
    es == [] || (WellFormed(es[..|es| - 1]) && Continues(es[..|es| - 1], es[|es| - 1]))
  }

  predicate Adds(s: State) { s.filled + s.remaining == s.original }

  predicate AddsThroughout(es: seq<Event>) {
    Adds(Replay(EMPTY, es)) && (es == [] || AddsThroughout(es[..|es| - 1]))
  }

  /** What the event fields say is what replay shows. */
  lemma {:induction false} ReplayShows(es: seq<Event>)
    ensures Replay(EMPTY, es).original == PlacedQuantity(es)
    ensures WellFormed(es) ==> Replay(EMPTY, es).remaining == Outstanding(es)
    decreases |es|
  {
    if es != [] {
      ReplayShows(es[..|es| - 1]);
    }
  }

  /** Filled and remaining quantity make up the original one after every event, if and only if every
      fill event says what follows from the events before it. */
  lemma {:induction false} QuantityExactly(es: seq<Event>)
    ensures AddsThroughout(es) <==> WellFormed(es)
    decreases |es|
  {
    if es != [] {
      hide Apply, Continues, Adds, Outstanding, PlacedQuantity;
      var n := |es| - 1;
      QuantityExactly(es[..n]);
      if WellFormed(es[..n]) {
        ReplayShows(es[..n]);
        QuantityStep(es[..n], Replay(EMPTY, es[..n]), es[n]);
      }
    }
  }

  lemma QuantityStep(es: seq<Event>, s: State, e: Event)
    requires Adds(s) && s.original == PlacedQuantity(es) && s.remaining == Outstanding(es)
    ensures Adds(Apply(s, e)) <==> Continues(es, e)
  {
    hide Outstanding, PlacedQuantity, Averaged;
  }

  function Traded(before: real, e: Event): real {
    match e.payload
    case Placed(_, _, _, _, _, _, _) => 0.0
    case PartFilled(q, _, p) => before + p * q
    case FilledEvent(total, average) => average * total
    case _ => before
  }

  /** Price times quantity over the partial fills since the order was placed; a complete fill says
      the whole. */
  function Notional(es: seq<Event>): real {
    if es == [] then 0.0 else Traded(Notional(es[..|es| - 1]), es[|es| - 1])
  }

  predicate NotNegative(e: Event) {
    && (e.payload.PartFilled? ==> e.payload.filledQuantity >= 0.0)
    && (e.payload.FilledEvent? ==> e.payload.totalFilled >= 0.0)
  }

  /** A partial fill extends the average's total by price times quantity, if and only if something is
      filled afterwards or there is nothing to average. */
  lemma AverageStep(average: real, filled: real, p: real, q: real)
    ensures Averaged(average, filled, p, q) * (filled + q) == average * filled + p * q
       <==> filled + q > 0.0 || (average - p) * q == 0.0
  {
    if filled + q > 0.0 {
      Cancels(average * filled + p * q, filled + q);
    } else {
      assert average * (filled + q) == average * filled + average * q;
      assert (average - p) * q == average * q - p * q;
    }
  }

  lemma Cancels(x: real, y: real)
    requires y != 0.0
    ensures x / y * y == x
  {
  }

  predicate Weighted(s: State, traded: real) { s.filled >= 0.0 && s.average * s.filled == traded }

  lemma WeightedStep(s: State, e: Event, traded: real)
    requires Weighted(s, traded) && NotNegative(e)
    ensures Weighted(Apply(s, e), Traded(traded, e))
  {
    if e.payload.PartFilled? {
      var q, p := e.payload.filledQuantity, e.payload.fillPrice;
      if s.filled + q == 0.0 {
        assert q == 0.0;
      }
      AverageStep(s.average, s.filled, p, q);
      hide Averaged;
    }
  }

  /** Over any log without negative fills, average price times filled quantity is the traded value. */
  lemma {:induction false} AverageIsWeighted(es: seq<Event>)
    requires forall e :: e in es ==> NotNegative(e)
    ensures Weighted(Replay(EMPTY, es), Notional(es))
    decreases |es|
  {
    hide Apply, Traded, NotNegative;
    if es == [] {
      assert Weighted(EMPTY, 0.0);
    } else {
      hide Weighted;
      var n := |es| - 1;
      assert es[n] in es;
      AverageIsWeighted(es[..n]);
      WeightedStep(Replay(EMPTY, es[..n]), es[n], Notional(es[..n]));
    }
  }

  // The replay engine.

  /** An order rebuilt event by event. */
  class OrderState {
    var terms: Terms
    var original: real
    var remaining: real
    var filled: real
    var average: real
    var status: Status
    var createdAt: int
    var updatedAt: int
    var version: int

    function Value(): State
      reads this
    {
      State(terms, original, remaining, filled, average, status, createdAt, updatedAt, version)
    }

    constructor ()
      ensures Value() == EMPTY
    {
      terms, original, remaining, filled, average := EMPTY.terms, 0.0, 0.0, 0.0, 0.0;
      status, createdAt, updatedAt, version := Blank, 0, 0, 0;
    }

    method ApplyEvent(e: Event)
      modifies this
      ensures Value() == Apply(old(Value()), e)
    {
      match e.payload
      case Placed(c, i, d, k, p, q, tif) =>
        terms, original, remaining, filled := Terms(e.orderId, c, i, d, k, p, tif), q, q, 0.0;
        status, createdAt, updatedAt, version := IsOpen, e.timestamp, e.timestamp, e.version;
      case CancelledEvent =>
        status, updatedAt, version := IsCancelled, e.timestamp, e.version;
      case PartFilled(q, r, p) =>
        ghost var was := filled;
        filled := filled + q;
        remaining, status, updatedAt, version := r, IsPartial, e.timestamp, e.version;
        if filled > 0.0 {
          assert filled - q == was;
          average := (average * (filled - q) + p * q) / filled;
        }
        assert average == Averaged(old(average), was, p, q);
        hide Averaged;
      case FilledEvent(total, price) =>
        filled, remaining, status, average := total, 0.0, IsFilled, price;
        updatedAt, version := e.timestamp, e.version;
      case OtherEvent =>
    }
  }

  /** The whole history; an order without events is not found. */
  method ReplayOrder(log: seq<Event>, id: Id) returns (state: OrderState?)
    ensures state == null <==> forall e :: e in log ==> e.orderId != id
    ensures state != null ==> fresh(state) && state.Value() == Replay(EMPTY, Load(log, id, None))
  {
    var events := Load(log, id, None);
    LoadMembers(log, id, None);
    if events == [] {
      return null;
    }
    assert events[0] in events;
    state := new OrderState();
    for i := 0 to |events|
      invariant fresh(state) && state.Value() == Replay(EMPTY, events[..i])
    {
      hide Apply;
      state.ApplyEvent(events[i]);
      assert events[..i + 1][..i] == events[..i];
    }
    assert events[..|events|] == events;
  }

  /** The state at a version, from which the events since then lead to the whole history. */
  method ReplayOrderToVersion(log: seq<Event>, id: Id, v: int) returns (state: OrderState)
    requires Unique(log)
    ensures fresh(state) && state.Value() == ToVersion(log, id, v)
    ensures Replay(state.Value(), Load(log, id, Some(v))) == Replay(EMPTY, Load(log, id, None))
  {
    hide Apply;
    var events := Load(log, id, None);
    state := new OrderState();
    var i := 0;
    while i < |events| && events[i].version <= v
      invariant 0 <= i <= |events| && fresh(state) && state.Value() == Replay(EMPTY, events[..i])
      invariant forall k :: 0 <= k < i ==> events[k].version <= v
    {
      state.ApplyEvent(events[i]);
      assert events[..i + 1][..i] == events[..i];
      i := i + 1;
    }
    UpToPrefix(events, i, v);
    ReplaySplits(log, id, v);
  }

  /** The state at a time; it reflects exactly the events up to then if and only if version order
      agrees with time order about them. */
  method ReplayOrderToTimestamp(log: seq<Event>, id: Id, time: int) returns (state: OrderState)
    ensures fresh(state) && state.Value() == Replay(EMPTY, Until(Load(log, id, None), time))
    ensures InTimeOrder(Load(log, id, None), time) ==>
              state.Value() == Replay(EMPTY, NotAfter(Load(log, id, None), time))
  {
    hide Apply;
    var events := Load(log, id, None);
    state := new OrderState();
    var i := 0;
    while i < |events| && events[i].timestamp <= time
      invariant 0 <= i <= |events| && fresh(state) && state.Value() == Replay(EMPTY, events[..i])
      invariant forall k :: 0 <= k < i ==> events[k].timestamp <= time
    {
      state.ApplyEvent(events[i]);
      assert events[..i + 1][..i] == events[..i];
      i := i + 1;
    }
    UntilPrefix(events, i, time);
    UntilExactly(events, time);
  }
}
