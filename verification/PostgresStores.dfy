/** The store's transaction and its retry loop (persistence/postgres.go). */
module PostgresStores {
  import opened Orders
  import opened TradeWrites

  /** What the driver reports: an error of the database with its code, or some other error. */
  datatype DriverError = Pq(code: string) | OtherError(text: string)

  /** Errors as the store passes them on. */
  datatype DbError =
    | Driver(error: DriverError)
    | Sentinel(text: string)
    | Plain(text: string)
    | Wrapped(text: string, cause: DbError)

  predicate TransientCode(code: string) {
    code in {"40001", "40P01", "08000", "08003", "08006", "57P03"}
  }

  /** Whether one of the store's own error values is in the chain. */
  predicate HasSentinel(e: DbError) {
    match e
    case Sentinel(_) => true
    case Wrapped(_, cause) => HasSentinel(cause)
    case _ => false
  }

  /** The code is looked for in the error itself only, not in what it wraps. */
  predicate IsRetryable(e: DbError) {
    (e.Driver? && e.error.Pq? && TransientCode(e.error.code)) || HasSentinel(e)
  }

  /** What the connection does to one attempt: it works, it breaks before the statements are through,
      or it breaks while committing, in which case the attempt may have been committed all the same. */
  datatype Fate = Works | BreaksBefore(error: DriverError) | BreaksAtCommit(committed: bool, error: DriverError)

  datatype Outcome = Done | Failed(error: DbError)

  /** An attempt is repeated only after a transient error of the commit, and only where that error is
      passed on bare. */
  predicate Repeated(fate: Fate, bare: bool) {
    bare && fate.BreaksAtCommit? && fate.error.Pq? && TransientCode(fate.error.code)
  }

  /** Collects the updates in a map: the last one of each order stays. */
  method Deduplicate(us: seq<OrderUpdate>) returns (latest: map<Id, OrderUpdate>)
    ensures latest == Latest(us)
    ensures forall u :: u in us ==> u.orderId in latest
    ensures forall id :: id in latest ==> latest[id] in us && latest[id].orderId == id
  {
    latest := map[];
    for i := 0 to |us|
      invariant latest == Latest(us[..i])
    {
      latest := latest[us[i].orderId := us[i]];
      assert us[..i + 1][..i] == us[..i];
    }
    assert us[..|us|] == us;
    LatestKeys(us);
  }

  /** Applies the collected updates in whatever order the map is walked: the outcome does not
      depend on it. */
  method UpdateOrders(orders: OrderTable, latest: map<Id, OrderUpdate>) returns (r: Option<OrderTable>)
    requires forall id :: id in latest ==> latest[id].orderId == id
    ensures r == if AllAllowed(orders, latest) then Some(Overwritten(orders, latest)) else None
  {
    var table, left := orders, latest.Keys;
    NothingOverwritten(orders);
    ghost var done: map<Id, OrderUpdate> := map[];
    while left != {}
      invariant table == Overwritten(orders, done)
      invariant left <= latest.Keys && done.Keys == latest.Keys - left
      invariant forall id :: id in done ==> done[id] == latest[id] && UpdateAllowed(orders, latest[id])
      decreases |left|
    {
      hide Overwritten, UpdateAllowed, UpdateOrder;
      var id :| id in left;
      Applied(orders, done, latest[id]);
      var next := UpdateOrder(table, latest[id]);
      if next.None? {
        return None;
      }
      table, done := next.value, done[id := latest[id]];
      left := left - {id};
    }
    assert done == latest;
    r := Some(table);
  }

  method InsertTrades(trades: TradeTable, ts: seq<TradeRecord>) returns (r: Option<TradeTable>)
    ensures r == InsertAll(trades, ts)
    ensures r.Some? <==> forall t :: t in ts ==> TradeAllowed(t)
  {
    InsertAllOutcome(trades, ts);
    var table := trades;
    for i := 0 to |ts|
      invariant InsertAll(trades, ts[..i]) == Some(table)
    {
      assert ts[..i + 1][..i] == ts[..i];
      var next := InsertTrade(table, ts[i]);
      if next.None? {
        return None;
      }
      table := next.value;
    }
    assert ts[..|ts|] == ts;
    r := Some(table);
  }

  class PostgresStore {
    var trades: TradeTable
    var orders: OrderTable
    const maxRetries: int

    ghost function Db(): Database
      reads this
    {
      Database(trades, orders)
    }

    /** One transaction: all of the batch or nothing. Errors are wrapped, except those of the commit
        where `bare`. */
    method RunTx(ts: seq<TradeRecord>, us: seq<OrderUpdate>, fate: Fate, bare: bool) returns (outcome: Outcome)
      modifies this
      ensures var batch := Batched(old(Db()), ts, us);
              && (outcome.Done? <==> batch.Some? && fate.Works?)
              && Db() == (if batch.Some? && (fate.Works? || (fate.BreaksAtCommit? && fate.committed)) then batch.value
                          else old(Db()))
              && (outcome.Failed? ==> IsRetryable(outcome.error) == (batch.Some? && Repeated(fate, bare)))
    {
      hide Latest, AllAllowed, Overwritten, InsertAll, TransientCode, HasSentinel;
      if fate.BreaksBefore? {
        Classified("failed to execute", Driver(fate.error));
        return Failed(Wrapped("failed to execute", Driver(fate.error)));
      }
      var inserted := InsertTrades(trades, ts);
      if inserted.None? {
        Classified("failed to insert trade", Driver(Pq("23514")));
        return Failed(Wrapped("failed to insert trade", Driver(Pq("23514"))));
      }
      var latest := Deduplicate(us);
      var updated := UpdateOrders(orders, latest);
      if updated.None? {
        Classified("failed to update order", Plain("order not found or not allowed"));
        return Failed(Wrapped("failed to update order", Plain("order not found or not allowed")));
      }
      if fate.Works? {
        trades, orders := inserted.value, updated.value;
        return Done;
      }
      if fate.committed {
        trades, orders := inserted.value, updated.value;
      }
      var error := Driver(fate.error);
      Classified("failed to commit transaction", error);
      outcome := Failed(if bare then error else Wrapped("failed to commit transaction", error));
    }

    /** Runs a transaction until it succeeds, its error is not retryable, a wait is cancelled or the
        retries are used up. Whatever the connection does, and even when a commit is reported as a
        failure and run again, the tables hold either what they held before or the batch once;
        success means the batch. */
    method ExecuteWithRetry(
      ts: seq<TradeRecord>, us: seq<OrderUpdate>, bare: bool, fates: seq<Fate>, cancelled: seq<bool>)
      returns (ok: bool, ghost attempts: nat)
      requires |fates| == |cancelled| > maxRetries
      modifies this
      ensures var batch := Batched(old(Db()), ts, us);
              && (batch.None? ==> !ok && Db() == old(Db()))
              && (batch.Some? ==> Db() == old(Db()) || Db() == batch.value)
              && (ok ==> batch.Some? && Db() == batch.value)
              && (ok <==> batch.Some? && Gets(fates, cancelled, maxRetries, bare))
      ensures attempts <= |fates| && attempts <= (if maxRetries >= 0 then maxRetries + 1 else 0)
      ensures forall i :: 0 <= i < attempts - 1 ==> Repeated(fates[i], bare)
    {
      ghost var db := Db();
      ghost var batch := Batched(db, ts, us);
      if batch.Some? {
        RerunChangesNothing(db, ts, us);
      }
      hide Batched, Repeated, IsRetryable;
      attempts := 0;
      var attempt := 0;
      while attempt <= maxRetries
        invariant 0 <= attempt == attempts
        invariant attempt <= |fates| && (attempt <= maxRetries + 1 || attempt == 0)
        invariant Db() == db || (batch.Some? && Db() == batch.value)
        invariant forall i :: 0 <= i < attempt ==> Repeated(fates[i], bare) && !fates[i].Works?
        invariant forall i :: 0 <= i < attempt && i < maxRetries ==> !cancelled[i]
        decreases maxRetries - attempt
      {
        attempts := attempts + 1;
        var outcome := RunTx(ts, us, fates[attempt], bare);
        if outcome.Done? {
          return true, attempts;
        }
        if !IsRetryable(outcome.error) {
          return false, attempts;
        }
        if attempt < maxRetries && cancelled[attempt] {
          return false, attempts;
        }
        NotWorking(fates[attempt], bare);
        attempt := attempt + 1;
      }
      ok := false;
    }

    /** Writes a batch. Every error is wrapped, so that no attempt is ever repeated. */
    method PersistMultipleTrades(ts: seq<TradeRecord>, us: seq<OrderUpdate>, fates: seq<Fate>, cancelled: seq<bool>)
      returns (ok: bool, ghost attempts: nat)
      requires |fates| == |cancelled| > maxRetries
      modifies this
      ensures var batch := Batched(old(Db()), ts, us);
              && (batch.None? ==> Db() == old(Db()))
              && (batch.Some? ==> Db() == old(Db()) || Db() == batch.value)
              && (ok <==> batch.Some? && maxRetries >= 0 && fates[0].Works?)
              && (ok ==> Db() == batch.value)
      ensures attempts <= 1
    {
      hide Batched, Gets;
      ok, attempts := ExecuteWithRetry(ts, us, false, fates, cancelled);
      FirstOnly(fates, cancelled, maxRetries);
      assert attempts > 1 ==> Repeated(fates[0], false);
    }

    /** Writes one trade without touching orders. Errors of the commit are passed on bare, so that
        transient ones are retried. */
    method PersistTradeOnly(trade: TradeRecord, fates: seq<Fate>, cancelled: seq<bool>)
      returns (ok: bool, ghost attempts: nat)
      requires |fates| == |cancelled| > maxRetries
      modifies this
      ensures orders == old(orders)
      ensures trades != old(trades) ==>
                TradeAllowed(trade) && trade.id !in old(trades) && trades == old(trades)[trade.id := trade]
      ensures ok <==> TradeAllowed(trade) && Gets(fates, cancelled, maxRetries, true)
      ensures ok ==> trade.id in trades
    {
      OneTrade(Db(), trade);
      hide Batched;
      ok, attempts := ExecuteWithRetry([trade], [], true, fates, cancelled);
    }
  }

  /** What wraps an error of the driver or a plain one is never retryable; bare errors go by their code. */
  lemma Classified(text: string, e: DbError)
    requires e.Driver? || e.Plain?
    ensures !IsRetryable(Wrapped(text, e)) && !HasSentinel(e)
  {
    assert HasSentinel(Wrapped(text, e)) == HasSentinel(e);
  }

  /** The codes of a serialization failure, a deadlock, three kinds of lost connections and a server that
      cannot be reached, and no others. */
  lemma RetryableCodes(code: string)
    ensures IsRetryable(Driver(Pq(code))) <==>
            || code == "40001" || code == "40P01" || code == "08000" || code == "08003" || code == "08006"
            || code == "57P03"
  {
  }

  lemma NotWorking(fate: Fate, bare: bool)
    requires Repeated(fate, bare)
    ensures !fate.Works?
  {
  }

  lemma OneTrade(db: Database, t: TradeRecord)
    ensures Batched(db, [t], []) ==
            if !TradeAllowed(t) then None
            else Some(db.(trades := if t.id in db.trades then db.trades else db.trades[t.id := t]))
  {
    assert [t][..0] == [];
    assert InsertAll(db.trades, [t][..0]) == Some(db.trades);
    NothingOverwritten(db.orders);
    assert Latest([]) == map[] && AllAllowed(db.orders, map[]);
  }

  /** Some attempt works, every one before it is repeated, and no wait before it is cancelled. */
  ghost predicate Gets(fates: seq<Fate>, cancelled: seq<bool>, maxRetries: int, bare: bool)
    requires |fates| == |cancelled| > maxRetries
  {
    exists k :: 0 <= k <= maxRetries && fates[k].Works?
      && (forall i :: 0 <= i < k ==> Repeated(fates[i], bare) && !cancelled[i])
  }

  /** Where errors are wrapped only the first attempt counts. */
  lemma FirstOnly(fates: seq<Fate>, cancelled: seq<bool>, maxRetries: int)
    requires |fates| == |cancelled| > maxRetries
    ensures Gets(fates, cancelled, maxRetries, false) <==> maxRetries >= 0 && fates[0].Works?
  {
    if Gets(fates, cancelled, maxRetries, false) {
      var k :| 0 <= k <= maxRetries && fates[k].Works?
        && (forall i :: 0 <= i < k ==> Repeated(fates[i], false) && !cancelled[i]);
      assert k > 0 ==> Repeated(fates[0], false);
    }
  }

  /** A deadlock while committing a batch ends the write after one attempt; bare, it is repeated. */
  lemma DeadlockExample()
    ensures var fate := BreaksAtCommit(false, Pq("40P01"));
            Repeated(fate, true) && !Repeated(fate, false)
    ensures IsRetryable(Driver(Pq("40P01")))
    ensures !IsRetryable(Wrapped("failed to commit transaction", Driver(Pq("40P01"))))
  {
    Classified("failed to commit transaction", Driver(Pq("40P01")));
  }
}
