/** The stored functions of db/order_events_schema.sql, over the two tables that they update. */
module OrderEventStore {
  import opened Orders
  import opened OrderEvents

  lemma HistoryStep(log: seq<Event>, i: nat, id: Id)
    requires i < |log|
    ensures History(log[..i + 1], id) ==
            if log[i].orderId == id then History(log[..i], id) + [log[i]] else History(log[..i], id)
  {
    assert log[..i + 1] == log[..i] + [log[i]];
    HistoryAppend(log[..i], log[i], id);
  }

  lemma MaxStep(h: seq<Event>, e: Event)
    ensures MaxSequence(h + [e]) == if e.sequence > MaxSequence(h) then e.sequence else MaxSequence(h)
  {
    assert (h + [e])[..|h|] == h;
  }

  class EventTables {
    var log: seq<Event>
    var rows: map<Id, Row>

    /** The events of every order are numbered without gaps. */
    ghost predicate Valid()
      reads this
    {
      AllGapless(log)
    }

    constructor ()
      ensures Valid() && Contents() == NO_TABLES
    {
      log, rows := [], map[];
      StartsConsistent();
    }

    ghost function Contents(): Tables
      reads this
    {
      Tables(log, rows)
    }

    method GetNextSequenceNumber(id: Id) returns (n: nat)
      ensures n == NextSequence(log, id)
    {
      n := 0;
      for i := 0 to |log|
        invariant n == MaxSequence(History(log[..i], id))
      {
        HistoryStep(log, i, id);
        MaxStep(History(log[..i], id), log[i]);
        if log[i].orderId == id && log[i].sequence > n {
          n := log[i].sequence;
        }
      }
      assert log[..|log|] == log;
      n := n + 1;
    }

    /** Appends an event and installs a row, unless the row breaks a constraint; a creation leaves an
        existing row alone. */
    method Commit(e: Event, row: Option<Row>) returns (ok: bool)
      modifies this
      ensures ok == (row.Some? ==> RowAllowed(row.value))
      ensures log == if ok then old(log) + [e] else old(log)
      ensures rows == if ok && row.Some? && !(e.data.Created? && e.orderId in old(rows))
                      then old(rows)[e.orderId := row.value] else old(rows)
    {
      if row.Some? && !RowAllowed(row.value) {
        return false;
      }
      log := log + [e];
      if row.Some? && !(e.data.Created? && e.orderId in rows) {
        rows := rows[e.orderId := row.value];
      }
      return true;
    }

    method RecordOrderCreated(id: Id, d: Details) returns (ok: bool)
      requires Valid()
      modifies this
      ensures Valid()
      ensures ok == Accepts(old(Contents()), RecordCreated(id, d))
      ensures Contents() == Step(old(Contents()), RecordCreated(id, d))
      ensures ok ==> log == old(log) + [Event(id, Created(d), d.createdAt, |History(old(log), id)| + 1)]
    {
      StepGapless(Contents(), RecordCreated(id, d));
      NextOfGapless(log, id);
      var n := GetNextSequenceNumber(id);
      ok := Commit(Event(id, Created(d), d.createdAt, n), Some(Row(d, 0.0, Open, d.createdAt, n)));
    }

    method RecordOrderFill(id: Id, q: Decimal, filled: Decimal, status: OrderStatus, at: int) returns (ok: bool)
      requires Valid()
      modifies this
      ensures Valid()
      ensures ok == Accepts(old(Contents()), RecordFill(id, q, filled, status, at))
      ensures Contents() == Step(old(Contents()), RecordFill(id, q, filled, status, at))
      ensures ok ==> log == old(log) + [Event(id, Fill(q, filled, status), at, |History(old(log), id)| + 1)]
    {
      StepGapless(Contents(), RecordFill(id, q, filled, status, at));
      NextOfGapless(log, id);
      var n := GetNextSequenceNumber(id);
      var row := if id in rows
        then Some(rows[id].(filled := filled, status := status, updatedAt := at, lastSequence := n)) else None;
      ok := Commit(Event(id, Fill(q, filled, status), at, n), row);
    }

    method RecordOrderCancelled(id: Id, reason: string, at: int) returns (ok: bool)
      requires Valid()
      modifies this
      ensures Valid()
      ensures ok == Accepts(old(Contents()), RecordCancelled(id, reason, at))
      ensures Contents() == Step(old(Contents()), RecordCancelled(id, reason, at))
      ensures ok ==> log == old(log) + [Event(id, Cancellation(reason), at, |History(old(log), id)| + 1)]
    {
      StepGapless(Contents(), RecordCancelled(id, reason, at));
      NextOfGapless(log, id);
      var n := GetNextSequenceNumber(id);
      var row := if id in rows then Some(rows[id].(status := Cancelled, updatedAt := at, lastSequence := n)) else None;
      ok := Commit(Event(id, Cancellation(reason), at, n), row);
    }

    method RecordOrderRejected(id: Id, reason: string, at: int) returns (ok: bool)
      requires Valid()
      modifies this
      ensures Valid()
      ensures ok == Accepts(old(Contents()), RecordRejected(id, reason, at))
      ensures Contents() == Step(old(Contents()), RecordRejected(id, reason, at))
      ensures ok ==> log == old(log) + [Event(id, Rejection(reason), at, |History(old(log), id)| + 1)]
    {
      StepGapless(Contents(), RecordRejected(id, reason, at));
      NextOfGapless(log, id);
      var n := GetNextSequenceNumber(id);
      var row := if id in rows then Some(rows[id].(status := Rejected, updatedAt := at, lastSequence := n)) else None;
      ok := Commit(Event(id, Rejection(reason), at, n), row);
    }

    /** The loop body of a replay. */
    static method ApplyEvent(v: Replayed, e: Event) returns (v': Replayed)
      ensures v' == Apply(v, e)
    {
      v' := v.(count := v.count + 1);
      match e.data {
        case Created(d) =>
          v' := v'.(details := Some(d.(createdAt := e.timestamp)), updatedAt := Some(e.timestamp), status := Open);
        case Fill(_, f, s) =>
          v' := v'.(filled := f, status := s, updatedAt := Some(e.timestamp));
        case Cancellation(_) =>
          v' := v'.(status := Cancelled, updatedAt := Some(e.timestamp));
        case Rejection(_) =>
          v' := v'.(status := Rejected, updatedAt := Some(e.timestamp));
      }
    }

    /** Replays the events of one order by sequence number, which is the order of appending. */
    method ReplayOrderState(id: Id) returns (v: Replayed)
      ensures v == Replay(BySequence(log, id))
      ensures Valid() ==> v == Replay(History(log, id))
    {
      hide Apply;
      if Gapless(History(log, id)) { SequenceIsAppendOrder(log, id); }
      assert AllGapless(log) ==> Gapless(History(log, id));
      var events := BySequence(log, id);
      v := BLANK;
      for i := 0 to |events|
        invariant v == Replay(events[..i])
      {
        v := ApplyEvent(v, events[i]);
        assert events[..i + 1][..i] == events[..i];
      }
      assert events[..|events|] == events;
    }

    /** Truncates the snapshot and inserts the replayed row of every order; a row that cannot be
        inserted aborts the rebuild and leaves the snapshot as it was. */
    method RebuildOrdersSnapshot() returns (count: Option<nat>)
      requires Valid()
      modifies this`rows
      ensures count == if Rebuild(log).Some? then Some(|LogIds(log)|) else None
      ensures Valid() && rows == if Rebuild(log).Some? then Rebuild(log).value else old(rows)
    {
      hide History, Replay, RowOf, RowAllowed, LogIds;
      var left := LogIds(log);
      var rebuilt: map<Id, Row> := map[];
      var n := 0;
      while left != {}
        modifies {}
        invariant left <= LogIds(log) && n + |left| == |LogIds(log)|
        invariant rebuilt.Keys == LogIds(log) - left
        invariant forall id :: id in rebuilt ==>
                    Insertable(log, id) && rebuilt[id] == RowOf(Replay(History(log, id))).value
        decreases |left|
      {
        var id :| id in left;
        var v := ReplayOrderState(id);
        var row := RowOf(v);
        if row.None? || !RowAllowed(row.value) {
          assert !Insertable(log, id);
          return None;
        }
        rebuilt, left, n := rebuilt[id := row.value], left - {id}, n + 1;
      }
      assert rebuilt == Rebuild(log).value;
      rows := rebuilt;
      return Some(n);
    }

    method VerifySnapshotConsistency() returns (bad: set<Id>)
      requires Valid()
      ensures bad == Inconsistent(Contents())
    {
      hide History, Replay, Disagrees;
      bad := {};
      var left := rows.Keys;
      while left != {}
        invariant left <= rows.Keys
        invariant bad == set id | id in rows.Keys - left && id in Inconsistent(Contents())
        decreases |left|
      {
        var id :| id in left;
        var v := ReplayOrderState(id);
        if Disagrees(rows[id], v) {
          bad := bad + {id};
        }
        left := left - {id};
      }
    }
  }
}
