/** The event store with its retry queue (persistence/retry_queue.go), as a state machine whose
    steps may interleave in any order: callers write directly and submit what failed, one worker
    retries.
 */
module RetryQueues {
  import opened Orders
  import Store = OrderEvents

  type Call = Store.Call

  datatype Config = Config(queueSize: nat, maxRetries: int)

  /** An event waiting to be written. `tries` counts its failed tries since it last entered the
      queue from outside; no step looks at it. */
  datatype Pending = Pending(call: Call, attempts: nat, tries: nat) {
    function Failed(): Pending { this.(attempts := attempts + 1, tries := tries + 1) }

    function Restarted(): Pending { this.(attempts := 0, tries := 0) }
  }

  /** What the worker holds between its steps. */
  datatype Worker =
    | Idle
    | Trying(event: Pending)
    | Returning(event: Pending)
    | GivingUp(event: Pending)
    | Resubmitting(rest: seq<Pending>)
    | Overflowing(event: Pending, rest: seq<Pending>)

  /** `leaving` are submitted events that found the queue full and are not yet in the failed list;
      `submitted` and `persisted` only record the past. */
  datatype State = State(
    queue: seq<Pending>, failed: seq<Pending>, leaving: seq<Pending>, worker: Worker,
    tables: Store.Tables, persisted: seq<Call>, submitted: seq<Call>)

  datatype Action =
    | Direct(call: Call, up: bool)
    | Submit(call: Call)
    | Record(i: nat)
    | Dequeue
    | Attempt(up: bool)
    | Return
    | GiveUp
    | Tick
    | Resubmit
    | Overflow

  /** Whether a send succeeds at once; without a buffer, only when the worker is receiving. */
  predicate Room(c: Config, s: State) {
    |s.queue| < c.queueSize || (c.queueSize == 0 && s.worker.Idle? && s.queue == [])
  }

  /** One step; an action that is not possible changes nothing. */
  function Step(c: Config, s: State, a: Action): State {
    match a
    case Direct(call, up) => Recorded(s, call, up)
    case Submit(call) =>
      var e, s' := Pending(call, 1, 0), s.(submitted := s.submitted + [call]);
      if Room(c, s) then s'.(queue := s.queue + [e]) else s'.(leaving := s.leaving + [e])
    case Record(i) =>
      if i < |s.leaving| then
        s.(failed := s.failed + [s.leaving[i]], leaving := s.leaving[..i] + s.leaving[i + 1..])
      else s
    case Dequeue =>
      if s.worker.Idle? && s.queue != [] then s.(worker := Trying(s.queue[0]), queue := s.queue[1..]) else s
    case Attempt(up) => if s.worker.Trying? then Tried(s, s.worker.event, up) else s
    case Return => if s.worker.Returning? then Returned(c, s, s.worker.event) else s
    case GiveUp =>
      if s.worker.GivingUp? then s.(worker := Idle, failed := s.failed + [s.worker.event]) else s
    case Tick =>
      if s.worker.Idle? && s.failed != [] then s.(worker := Resubmitting(s.failed), failed := []) else s
    case Resubmit => if s.worker.Resubmitting? then Resubmitted(c, s, s.worker.rest) else s
    case Overflow =>
      if s.worker.Overflowing? then
        s.(worker := Resubmitting(s.worker.rest), failed := s.failed + [s.worker.event])
      else s
  }

  /** A caller's own write; a failed one changes nothing, and the caller then submits the event. */
  function Recorded(s: State, call: Call, up: bool): State {
    if up && Store.Accepts(s.tables, call) then
      s.(tables := Store.Step(s.tables, call), persisted := s.persisted + [call], submitted := s.submitted + [call])
    else s
  }

  /** A write succeeds if the database is up and its constraints hold; otherwise it changes nothing. */
  function Tried(s: State, e: Pending, up: bool): State {
    if up && Store.Accepts(s.tables, e.call) then
      s.(worker := Idle, tables := Store.Step(s.tables, e.call), persisted := s.persisted + [e.call])
    else s.(worker := Returning(e.Failed()))
  }

  function Returned(c: Config, s: State, e: Pending): State {
    if e.attempts >= c.maxRetries || !Room(c, s) then s.(worker := GivingUp(e))
    else s.(worker := Idle, queue := s.queue + [e])
  }

  function Resubmitted(c: Config, s: State, rest: seq<Pending>): State {
    if rest == [] then s.(worker := Idle)
    else if Room(c, s) then s.(worker := Resubmitting(rest[1..]), queue := s.queue + [rest[0].Restarted()])
    else s.(worker := Overflowing(rest[0].Restarted(), rest[1..]))
  }

  function Run(c: Config, s: State, actions: seq<Action>): State {
    if actions == [] then s else Step(c, Run(c, s, actions[..|actions| - 1]), actions[|actions| - 1])
  }

  function Fresh(tables: Store.Tables): State {
    State([], [], [], Idle, tables, [], [])
  }

  // Nothing is lost and nothing is duplicated.

  function Calls(es: seq<Pending>): multiset<Call> {
    if es == [] then multiset{} else Calls(es[..|es| - 1]) + multiset{es[|es| - 1].call}
  }

  function Held(w: Worker): seq<Pending> {
    match w
    case Idle => []
    case Resubmitting(rest) => rest
    case Overflowing(e, rest) => [e] + rest
    case _ => [w.event]
  }

  function Everywhere(s: State): multiset<Call> {
    multiset(s.persisted) + Calls(s.queue) + Calls(Held(s.worker)) + Calls(s.leaving) + Calls(s.failed)
  }

  lemma CallsAppend(es: seq<Pending>, e: Pending)
    ensures Calls(es + [e]) == Calls(es) + multiset{e.call}
  {
    assert (es + [e])[..|es|] == es;
  }

  lemma {:induction false} CallsConcat(a: seq<Pending>, b: seq<Pending>)
    ensures Calls(a + b) == Calls(a) + Calls(b)
    decreases |b|
  {
    hide Calls;
    if b == [] {
      assert a + b == a;
      CallsNone();
    } else {
      var n := |b| - 1;
      CallsConcat(a, b[..n]);
      assert b[..n] + [b[n]] == b;
      OneMoreCall(a, b[..n], b[n]);
    }
  }

  lemma OneMoreCall(a: seq<Pending>, b: seq<Pending>, e: Pending)
    requires Calls(a + b) == Calls(a) + Calls(b)
    ensures Calls(a + (b + [e])) == Calls(a) + Calls(b + [e])
  {
    hide Calls;
    calc {
      Calls(a + (b + [e]));
      { assert a + (b + [e]) == a + b + [e]; }
      Calls(a + b + [e]);
      { CallsAppend(a + b, e); }
      (Calls(a) + Calls(b)) + multiset{e.call};
      { Associative(Calls(a), Calls(b), multiset{e.call}); }
      Calls(a) + (Calls(b) + multiset{e.call});
      { CallsAppend(b, e); }
      Calls(a) + Calls(b + [e]);
    }
  }

  lemma Associative(x: multiset<Call>, y: multiset<Call>, z: multiset<Call>)
    ensures (x + y) + z == x + (y + z)
  {
  }

  lemma CallsOne(e: Pending)
    ensures Calls([e]) == multiset{e.call}
  {
    assert [e][..0] == [];
  }

  lemma CallsSplit(es: seq<Pending>, i: nat)
    requires i < |es|
    ensures Calls(es) == Calls(es[..i] + es[i + 1..]) + multiset{es[i].call}
  {
    hide Calls;
    assert es == es[..i] + ([es[i]] + es[i + 1..]);
    CallsConcat(es[..i], [es[i]] + es[i + 1..]);
    CallsConcat([es[i]], es[i + 1..]);
    CallsOne(es[i]);
    CallsConcat(es[..i], es[i + 1..]);
  }

  lemma CallsFirst(es: seq<Pending>)
    requires es != []
    ensures Calls(es) == multiset{es[0].call} + Calls(es[1..])
  {
    CallsSplit(es, 0);
    assert es[..0] + es[1..] == es[1..];
  }

  lemma StepKeepsAll(c: Config, s: State, a: Action)
    requires multiset(s.submitted) == Everywhere(s)
    ensures var s' := Step(c, s, a); multiset(s'.submitted) == Everywhere(s')
  {
    hide Calls, Room, Everywhere, Recorded, Tried, Returned, Resubmitted;
    match a
    case Direct(call, up) => DirectKeepsAll(s, call, up);
    case Submit(call) => SubmitKeepsAll(c, s, call);
    case Record(i) => if i < |s.leaving| { RecordKeepsAll(c, s, i); }
    case Dequeue => if s.worker.Idle? && s.queue != [] { DequeueKeepsAll(c, s); }
    case Attempt(up) => if s.worker.Trying? { AttemptKeepsAll(s, s.worker.event, up); }
    case Return => if s.worker.Returning? { ReturnKeepsAll(c, s, s.worker.event); }
    case GiveUp => if s.worker.GivingUp? { GiveUpKeepsAll(c, s); }
    case Tick => if s.worker.Idle? && s.failed != [] { TickKeepsAll(c, s); }
    case Resubmit => if s.worker.Resubmitting? { ResubmitKeepsAll(c, s, s.worker.rest); }
    case Overflow => if s.worker.Overflowing? { OverflowKeepsAll(c, s); }
  }

  lemma RecordKeepsAll(c: Config, s: State, i: nat)
    requires i < |s.leaving|
    ensures Everywhere(Step(c, s, Record(i))) == Everywhere(s)
  {
    hide Calls;
    CallsAppend(s.failed, s.leaving[i]);
    CallsSplit(s.leaving, i);
  }

  lemma DequeueKeepsAll(c: Config, s: State)
    requires s.worker.Idle? && s.queue != []
    ensures Everywhere(Step(c, s, Dequeue)) == Everywhere(s)
  {
    hide Calls;
    CallsFirst(s.queue);
    CallsOne(s.queue[0]);
    CallsNone();
  }

  lemma GiveUpKeepsAll(c: Config, s: State)
    requires s.worker.GivingUp?
    ensures Everywhere(Step(c, s, GiveUp)) == Everywhere(s)
  {
    hide Calls;
    CallsAppend(s.failed, s.worker.event);
    CallsOne(s.worker.event);
    CallsNone();
  }

  lemma TickKeepsAll(c: Config, s: State)
    requires s.worker.Idle? && s.failed != []
    ensures Everywhere(Step(c, s, Tick)) == Everywhere(s)
  {
    hide Calls;
    CallsNone();
  }

  lemma OverflowKeepsAll(c: Config, s: State)
    requires s.worker.Overflowing?
    ensures Everywhere(Step(c, s, Overflow)) == Everywhere(s)
  {
    hide Calls;
    CallsAppend(s.failed, s.worker.event);
    CallsFirst(Held(s.worker));
    assert Held(s.worker)[1..] == s.worker.rest;
  }

  lemma CallsNone()
    ensures Calls([]) == multiset{}
  {
  }

  lemma SubmitKeepsAll(c: Config, s: State, call: Call)
    ensures var s' := Step(c, s, Submit(call));
            && multiset(s'.submitted) == multiset(s.submitted) + multiset{call}
            && Everywhere(s') == Everywhere(s) + multiset{call}
  {
    hide Calls, Room;
    CallsAppend(s.queue, Pending(call, 1, 0));
    CallsAppend(s.leaving, Pending(call, 1, 0));
  }

  lemma DirectKeepsAll(s: State, call: Call, up: bool)
    requires multiset(s.submitted) == Everywhere(s)
    ensures var s' := Recorded(s, call, up); multiset(s'.submitted) == Everywhere(s')
  {
    hide Calls, Store.Step, Store.Accepts;
    if up && Store.Accepts(s.tables, call) {
      MovedIn(multiset(s.persisted), Calls(s.queue), Calls(Held(s.worker)), Calls(s.leaving), Calls(s.failed), call);
    }
  }

  lemma MovedIn(p: multiset<Call>, q: multiset<Call>, w: multiset<Call>, l: multiset<Call>, f: multiset<Call>, x: Call)
    ensures (p + multiset{x}) + q + w + l + f == p + q + w + l + f + multiset{x}
  {
  }

  lemma AttemptKeepsAll(s: State, e: Pending, up: bool)
    requires s.worker == Trying(e)
    ensures Everywhere(Tried(s, e, up)) == Everywhere(s) && Tried(s, e, up).submitted == s.submitted
  {
    hide Calls, Store.Step, Store.Accepts;
    CallsOne(e);
    CallsOne(e.Failed());
    CallsNone();
  }

  lemma ReturnKeepsAll(c: Config, s: State, e: Pending)
    requires s.worker == Returning(e)
    ensures Everywhere(Returned(c, s, e)) == Everywhere(s) && Returned(c, s, e).submitted == s.submitted
  {
    hide Calls, Room;
    CallsOne(e);
    CallsAppend(s.queue, e);
    CallsNone();
  }

  lemma ResubmitKeepsAll(c: Config, s: State, rest: seq<Pending>)
    requires s.worker == Resubmitting(rest)
    ensures Everywhere(Resubmitted(c, s, rest)) == Everywhere(s) && Resubmitted(c, s, rest).submitted == s.submitted
  {
    hide Calls, Room;
    if rest != [] {
      var e := rest[0].Restarted();
      CallsFirst(rest);
      if Room(c, s) {
        CallsAppend(s.queue, e);
        Moved(multiset(s.persisted), Calls(s.queue), Calls(rest[1..]), Calls(s.leaving), Calls(s.failed), e.call);
      } else {
        CallsFirst([e] + rest[1..]);
        assert ([e] + rest[1..])[1..] == rest[1..];
      }
    }
  }

  lemma Moved(p: multiset<Call>, q: multiset<Call>, w: multiset<Call>, l: multiset<Call>, f: multiset<Call>, x: Call)
    ensures p + (q + multiset{x}) + w + l + f == p + q + (multiset{x} + w) + l + f
  {
  }

  /** Under every interleaving and every failure pattern, each event that was written or submitted is in exactly one
      place as often as it was submitted, and the tables are what the persisted events make of them. */
  lemma {:induction false} NothingLost(c: Config, tables: Store.Tables, actions: seq<Action>)
    ensures var s := Run(c, Fresh(tables), actions);
            multiset(s.submitted) == Everywhere(s) && s.tables == Store.Run(tables, s.persisted)
    decreases |actions|
  {
    hide Everywhere, Store.Step, Store.Accepts, Step;
    if actions == [] {
      EmptyEverywhere(tables);
    } else {
      var n := |actions| - 1;
      NothingLost(c, tables, actions[..n]);
      StepKeepsAll(c, Run(c, Fresh(tables), actions[..n]), actions[n]);
      StepKeepsTables(c, Run(c, Fresh(tables), actions[..n]), actions[n], tables);
    }
  }

  lemma EmptyEverywhere(tables: Store.Tables)
    ensures Everywhere(Fresh(tables)) == multiset{}
  {
  }

  lemma {:induction false} TablesAppend(tables: Store.Tables, calls: seq<Call>, call: Call)
    ensures Store.Run(tables, calls + [call]) == Store.Step(Store.Run(tables, calls), call)
    decreases |calls|
  {
    hide Store.Step;
    if calls == [] {
      assert [call][1..] == [];
    } else {
      assert (calls + [call])[1..] == calls[1..] + [call];
      TablesAppend(Store.Step(tables, calls[0]), calls[1..], call);
    }
  }

  lemma StepKeepsTables(c: Config, s: State, a: Action, tables: Store.Tables)
    requires s.tables == Store.Run(tables, s.persisted)
    ensures var s' := Step(c, s, a); s'.tables == Store.Run(tables, s'.persisted)
  {
    hide Room, Store.Run, Store.Step, Store.Accepts;
    if a.Attempt? && s.worker.Trying? {
      TablesAppend(tables, s.persisted, s.worker.event.call);
    } else if a.Direct? {
      TablesAppend(tables, s.persisted, a.call);
    }
  }

  // Failed tries are bounded.

  /** The most tries an event gets before it is put aside: at least one. */
  function Limit(c: Config): nat { if c.maxRetries < 1 then 1 else c.maxRetries }

  predicate Waiting(c: Config, e: Pending) { e.tries < Limit(c) && e.tries <= e.attempts }

  predicate Bounded(c: Config, e: Pending) { e.tries <= Limit(c) && e.tries <= e.attempts }

  ghost predicate TriesBounded(c: Config, s: State) {
    && (forall e :: e in s.queue ==> Waiting(c, e))
    && (forall e :: e in s.leaving ==> Waiting(c, e))
    && (forall e :: e in s.failed ==> Bounded(c, e))
    && (forall e :: e in Held(s.worker) ==> Bounded(c, e))
    && (s.worker.Trying? ==> Waiting(c, s.worker.event))
    && |s.queue| <= (if c.queueSize == 0 then 1 else c.queueSize)
  }

  lemma StepTriesBounded(c: Config, s: State, a: Action)
    requires TriesBounded(c, s)
    ensures TriesBounded(c, Step(c, s, a))
  {
    hide Store.Step, Store.Accepts;
    match a
    case Attempt(up) =>
      if s.worker.Trying? {
        assert Bounded(c, s.worker.event.Failed());
      }
    case Return =>
      if s.worker.Returning? {
        assert s.worker.event in Held(s.worker);
      }
    case Dequeue =>
      if s.worker.Idle? && s.queue != [] {
        assert s.queue[0] in s.queue;
      }
    case GiveUp =>
      if s.worker.GivingUp? {
        assert s.worker.event in Held(s.worker);
      }
    case Resubmit =>
      if s.worker.Resubmitting? && s.worker.rest != [] {
        assert Waiting(c, s.worker.rest[0].Restarted());
      }
    case Record(i) =>
      if i < |s.leaving| {
        assert s.leaving[i] in s.leaving;
        assert Bounded(c, s.leaving[i]);
      }
    case Overflow =>
      if s.worker.Overflowing? {
        assert s.worker.event in Held(s.worker);
        assert forall e :: e in s.worker.rest ==> e in Held(s.worker);
      }
    case Submit(call) => assert Waiting(c, Pending(call, 1, 0));
    case Tick =>
    case Direct(_, _) =>
  }

  /** In every run, no event fails more than max(1, maxRetries) tries in a row before it is put
      aside, and the queue holds at most its size. */
  lemma {:induction false} RunTriesBounded(c: Config, tables: Store.Tables, actions: seq<Action>)
    ensures TriesBounded(c, Run(c, Fresh(tables), actions))
    decreases |actions|
  {
    hide TriesBounded, Step;
    if actions == [] {
      StartTriesBounded(c, tables);
    } else {
      var n := |actions| - 1;
      RunTriesBounded(c, tables, actions[..n]);
      StepTriesBounded(c, Run(c, Fresh(tables), actions[..n]), actions[n]);
    }
  }

  lemma StartTriesBounded(c: Config, tables: Store.Tables)
    ensures TriesBounded(c, Fresh(tables))
  {
  }

  /** No event in the failed list failed more than `maxRetries` tries in a row. */
  ghost predicate WithinMaxRetries(c: Config, tables: Store.Tables) {
    forall actions, i :: 0 <= i < |Run(c, Fresh(tables), actions).failed|
      ==> Run(c, Fresh(tables), actions).failed[i].tries <= c.maxRetries
  }

  /** An event whose first write and only retry fail is put aside after these two. */
  lemma OneTryThenAside(c: Config, tables: Store.Tables, call: Call)
    requires c.maxRetries <= 2
    ensures var s := Run(c, Fresh(tables), [Submit(call), Dequeue, Attempt(false), Return, GiveUp]);
            s.failed == [Pending(call, 2, 1)]
  {
    hide Store.Step, Store.Accepts, Run;
    var e, s := Pending(call, 1, 0), Fresh(tables);
    RunOne(c, s, Submit(call));
    var s1 := Run(c, s, [Submit(call)]);
    assert s1.queue == [e] && s1.worker.Idle?;
    var a2 := [Submit(call)] + [Dequeue];
    RunMore(c, s, [Submit(call)], Dequeue);
    assert Run(c, s, a2).worker == Trying(e);
    var a3 := a2 + [Attempt(false)];
    RunMore(c, s, a2, Attempt(false));
    assert Run(c, s, a3).worker == Returning(e.Failed());
    var a4 := a3 + [Return];
    RunMore(c, s, a3, Return);
    assert Run(c, s, a4).worker == GivingUp(e.Failed()) && Run(c, s, a4).failed == [];
    RunMore(c, s, a4, GiveUp);
    assert a4 + [GiveUp] == [Submit(call), Dequeue, Attempt(false), Return, GiveUp];
  }

  lemma RunOne(c: Config, s: State, a: Action)
    ensures Run(c, s, [a]) == Step(c, s, a)
  {
    assert [a][..0] == [];
  }

  lemma RunMore(c: Config, s: State, actions: seq<Action>, a: Action)
    ensures Run(c, s, actions + [a]) == Step(c, Run(c, s, actions), a)
  {
    assert (actions + [a])[..|actions|] == actions;
  }

  lemma WithinMaxRetriesExactly(c: Config, tables: Store.Tables, call: Call)
    ensures WithinMaxRetries(c, tables) <==> c.maxRetries >= 1
  {
    hide Run;
    if c.maxRetries >= 1 {
      forall actions, i | 0 <= i < |Run(c, Fresh(tables), actions).failed|
        ensures Run(c, Fresh(tables), actions).failed[i].tries <= c.maxRetries
      {
        RunTriesBounded(c, tables, actions);
        var failed := Run(c, Fresh(tables), actions).failed;
        assert failed[i] in failed;
      }
    } else {
      OneTryThenAside(c, tables, call);
      var actions := [Submit(call), Dequeue, Attempt(false), Return, GiveUp];
      assert Run(c, Fresh(tables), actions).failed[0].tries == 1;
    }
  }

  lemma Twice(c: Config, s: State, a: Action, b: Action)
    ensures Run(c, s, [a, b]) == Step(c, Step(c, s, a), b)
  {
    hide Step;
    RunOne(c, s, a);
    RunMore(c, s, [a], b);
    assert [a] + [b] == [a, b];
  }

  /** A submission ends in the queue, or, if there is no room, among the failed events. */
  lemma SubmitRecorded(c: Config, s: State, call: Call)
    requires s.leaving == []
    ensures Run(c, s, [Submit(call), Record(0)])
         == var e, s' := Pending(call, 1, 0), s.(submitted := s.submitted + [call]);
            if Room(c, s) then s'.(queue := s.queue + [e]) else s'.(failed := s.failed + [e])
  {
    hide Run;
    Twice(c, s, Submit(call), Record(0));
  }

  lemma {:induction false} RunSplit(c: Config, s: State, a: seq<Action>, b: seq<Action>)
    ensures Run(c, s, a + b) == Run(c, Run(c, s, a), b)
    decreases |b|
  {
    hide Step;
    if b == [] {
      assert a + b == a;
    } else {
      var n := |b| - 1;
      assert (a + b)[..|a| + n] == a + b[..n];
      RunSplit(c, s, a, b[..n]);
    }
  }

  // Retries are really granted.

  /** The worker takes an event, its write fails, and it goes back or aside. */
  const ROUND: seq<Action> := [Dequeue, Attempt(false)] + [Return, GiveUp]

  function Rounds(k: nat): seq<Action> { if k == 0 then [] else Rounds(k - 1) + ROUND }

  lemma RunNothing(c: Config, s: State)
    ensures Run(c, s, []) == s
  {
  }

  lemma OneRound(c: Config, s: State, e: Pending)
    requires s.worker == Idle && s.queue == [e] && c.queueSize >= 1
    ensures Run(c, s, ROUND) ==
            if e.attempts + 1 < c.maxRetries then s.(queue := [Pending(e.call, e.attempts + 1, e.tries + 1)])
            else s.(queue := [], failed := s.failed + [Pending(e.call, e.attempts + 1, e.tries + 1)])
  {
    hide Run, Store.Step, Store.Accepts;
    RunSplit(c, s, [Dequeue, Attempt(false)], [Return, GiveUp]);
    Twice(c, s, Dequeue, Attempt(false));
    var s2 := Run(c, s, [Dequeue, Attempt(false)]);
    assert s2 == s.(queue := [], worker := Returning(e.Failed()));
    Twice(c, s2, Return, GiveUp);
    assert [] + [e.Failed()] == [e.Failed()];
  }

  lemma {:induction false} RoundsFrom(c: Config, s: State, e: Pending, k: nat)
    requires s.worker == Idle && s.queue == [e] && c.queueSize >= 1 && e.attempts + k < c.maxRetries
    ensures Run(c, s, Rounds(k)) == s.(queue := [Pending(e.call, e.attempts + k, e.tries + k)])
    decreases k
  {
    hide Run, Step;
    if k == 0 {
      RunNothing(c, s);
    } else {
      RoundsFrom(c, s, e, k - 1);
      RunSplit(c, s, Rounds(k - 1), ROUND);
      OneRound(c, Run(c, s, Rounds(k - 1)), Pending(e.call, e.attempts + k - 1, e.tries + k - 1));
    }
  }

  lemma LastRound(c: Config, s: State, e: Pending, k: nat)
    requires s.worker == Idle && s.queue == [e] && c.queueSize >= 1 && k >= 1 && e.attempts + k == c.maxRetries
    ensures Run(c, s, Rounds(k)) == s.(queue := [], failed := s.failed + [Pending(e.call, c.maxRetries, e.tries + k)])
  {
    hide Run, Step;
    RoundsFrom(c, s, e, k - 1);
    RunSplit(c, s, Rounds(k - 1), ROUND);
    OneRound(c, Run(c, s, Rounds(k - 1)), Pending(e.call, e.attempts + k - 1, e.tries + k - 1));
  }

  lemma Submitted(c: Config, tables: Store.Tables, call: Call)
    requires c.queueSize >= 1
    ensures Run(c, Fresh(tables), [Submit(call)]) == Fresh(tables).(queue := [Pending(call, 1, 0)], submitted := [call])
  {
    RunOne(c, Fresh(tables), Submit(call));
    assert [] + [call] == [call];
  }

  /** A submitted event whose retries fail stays queued, one attempt more each time, until it has had
      `maxRetries - 1` retries, and only then is put aside. */
  lemma RetriesGranted(c: Config, tables: Store.Tables, call: Call, k: nat)
    requires c.queueSize >= 1 && c.maxRetries >= 2
    ensures var s := Run(c, Fresh(tables), [Submit(call)] + Rounds(k));
            k < c.maxRetries - 1 ==> s.queue == [Pending(call, 1 + k, k)] && s.failed == [] && s.worker == Idle
    ensures var s := Run(c, Fresh(tables), [Submit(call)] + Rounds(c.maxRetries - 1));
            s.queue == [] && s.failed == [Pending(call, c.maxRetries, c.maxRetries - 1)] && s.worker == Idle
  {
    hide Run, Step;
    var s, e := Fresh(tables), Pending(call, 1, 0);
    Submitted(c, tables, call);
    RunSplit(c, s, [Submit(call)], Rounds(k));
    RunSplit(c, s, [Submit(call)], Rounds(c.maxRetries - 1));
    var s1 := Run(c, s, [Submit(call)]);
    if k < c.maxRetries - 1 {
      RoundsFrom(c, s1, e, k);
    }
    LastRound(c, s1, e, c.maxRetries - 1);
    assert [] + [Pending(call, c.maxRetries, c.maxRetries - 1)] == [Pending(call, c.maxRetries, c.maxRetries - 1)];
  }

  /** The periodic retry of one failed event. */
  const PERIODIC: seq<Action> := [Tick, Resubmit] + [Resubmit]

  lemma PeriodicRetry(c: Config, s: State, e: Pending)
    requires s.worker == Idle && s.queue == [] && s.failed == [e] && c.queueSize >= 1
    ensures Run(c, s, PERIODIC) == s.(queue := [Pending(e.call, 0, 0)], failed := [])
  {
    hide Run;
    RunSplit(c, s, [Tick, Resubmit], [Resubmit]);
    Twice(c, s, Tick, Resubmit);
    var s2 := Run(c, s, [Tick, Resubmit]);
    assert [e][1..] == [] && [] + [e.Restarted()] == [e.Restarted()];
    assert s2 == s.(queue := [e.Restarted()], failed := [], worker := Resubmitting([]));
    RunOne(c, s2, Resubmit);
  }

  /** An event that was put aside gets `maxRetries` new tries at every periodic retry. */
  lemma RetriesGrantedAgain(c: Config, s: State, e: Pending, k: nat)
    requires s.worker == Idle && s.queue == [] && s.failed == [e] && c.queueSize >= 1 && c.maxRetries >= 1
    ensures var s' := Run(c, s, PERIODIC + Rounds(k));
            k < c.maxRetries ==> s'.queue == [Pending(e.call, k, k)] && s'.failed == [] && s'.worker == Idle
    ensures var s' := Run(c, s, PERIODIC + Rounds(c.maxRetries));
            s'.queue == [] && s'.failed == [Pending(e.call, c.maxRetries, c.maxRetries)] && s'.worker == Idle
  {
    hide Run, Step;
    PeriodicRetry(c, s, e);
    RunSplit(c, s, PERIODIC, Rounds(k));
    RunSplit(c, s, PERIODIC, Rounds(c.maxRetries));
    var s1, e1 := Run(c, s, PERIODIC), Pending(e.call, 0, 0);
    if k < c.maxRetries {
      RoundsFrom(c, s1, e1, k);
    }
    LastRound(c, s1, e1, c.maxRetries);
    assert [] + [Pending(e.call, c.maxRetries, c.maxRetries)] == [Pending(e.call, c.maxRetries, c.maxRetries)];
  }

  // First in, first out.

  function Submits(calls: seq<Call>): seq<Action> {
    if calls == [] then [] else Submits(calls[..|calls| - 1]) + [Submit(calls[|calls| - 1])]
  }

  function Drains(n: nat): seq<Action> { if n == 0 then [] else [Dequeue, Attempt(true)] + Drains(n - 1) }

  function Queued(calls: seq<Call>): (es: seq<Pending>)
    ensures |es| == |calls| && forall i :: 0 <= i < |es| ==> es[i] == Pending(calls[i], 1, 0)
  {
    seq(|calls|, i requires 0 <= i < |calls| => Pending(calls[i], 1, 0))
  }

  /** Each call is accepted when its turn comes. */
  predicate AcceptedInTurn(t: Store.Tables, calls: seq<Call>)
    decreases |calls|
  {
    calls == [] || (Store.Accepts(t, calls[0]) && AcceptedInTurn(Store.Step(t, calls[0]), calls[1..]))
  }

  lemma {:induction false} SubmitsQueue(c: Config, tables: Store.Tables, calls: seq<Call>)
    requires |calls| <= c.queueSize
    ensures Run(c, Fresh(tables), Submits(calls)) == Fresh(tables).(queue := Queued(calls), submitted := calls)
    decreases |calls|
  {
    hide Run;
    if calls == [] {
      RunNothing(c, Fresh(tables));
    } else {
      var n := |calls| - 1;
      SubmitsQueue(c, tables, calls[..n]);
      RunMore(c, Fresh(tables), Submits(calls[..n]), Submit(calls[n]));
      assert Queued(calls[..n]) + [Pending(calls[n], 1, 0)] == Queued(calls);
      assert calls[..n] + [calls[n]] == calls;
    }
  }

  lemma {:induction false} DrainsInOrder(c: Config, s: State, calls: seq<Call>)
    requires s.worker == Idle && s.queue == Queued(calls) && AcceptedInTurn(s.tables, calls)
    ensures var s' := Run(c, s, Drains(|calls|));
            s'.persisted == s.persisted + calls && s'.queue == [] && s'.failed == s.failed && s'.worker == Idle
    decreases |calls|
  {
    hide Run, Store.Step, Store.Accepts;
    if calls == [] {
      RunNothing(c, s);
      assert s.persisted + [] == s.persisted;
    } else {
      var s2 := Run(c, s, [Dequeue, Attempt(true)]);
      RunSplit(c, s, [Dequeue, Attempt(true)], Drains(|calls| - 1));
      Twice(c, s, Dequeue, Attempt(true));
      assert s.queue[1..] == Queued(calls[1..]);
      assert s2.persisted == s.persisted + [calls[0]];
      DrainsInOrder(c, s2, calls[1..]);
      assert s.persisted + [calls[0]] + calls[1..] == s.persisted + calls;
    }
  }

  /** Events that fit the queue are written in the order in which they were submitted. */
  lemma FirstInFirstOut(c: Config, tables: Store.Tables, calls: seq<Call>)
    requires |calls| <= c.queueSize && AcceptedInTurn(tables, calls)
    ensures var s := Run(c, Fresh(tables), Submits(calls) + Drains(|calls|));
            s.persisted == calls && s.queue == [] && s.failed == []
  {
    hide Run, Step;
    SubmitsQueue(c, tables, calls);
    RunSplit(c, Fresh(tables), Submits(calls), Drains(|calls|));
    DrainsInOrder(c, Fresh(tables).(queue := Queued(calls), submitted := calls), calls);
    assert [] + calls == calls;
  }

  // The program's own counter also counts the failed first write.

  ghost predicate AttemptsBounded(c: Config, s: State) {
    && (forall e :: e in s.queue ==> e.attempts < c.maxRetries)
    && (forall e :: e in s.leaving ==> e.attempts < c.maxRetries)
    && (forall e :: e in s.failed ==> e.attempts <= c.maxRetries)
    && (forall e :: e in Held(s.worker) ==> e.attempts <= c.maxRetries)
    && (s.worker.Trying? ==> s.worker.event.attempts < c.maxRetries)
  }

  lemma StepAttemptsBounded(c: Config, s: State, a: Action)
    requires AttemptsBounded(c, s) && c.maxRetries >= 2
    ensures AttemptsBounded(c, Step(c, s, a))
  {
    hide Store.Step, Store.Accepts, Room;
    match a
    case Dequeue =>
      if s.worker.Idle? && s.queue != [] {
        assert s.queue[0] in s.queue;
      }
    case Return =>
      if s.worker.Returning? {
        assert s.worker.event in Held(s.worker);
      }
    case GiveUp =>
      if s.worker.GivingUp? {
        assert s.worker.event in Held(s.worker);
      }
    case Overflow =>
      if s.worker.Overflowing? {
        assert s.worker.event in Held(s.worker);
        assert forall e :: e in s.worker.rest ==> e in Held(s.worker);
      }
    case _ =>
  }

  lemma {:induction false} RunAttemptsBounded(c: Config, tables: Store.Tables, actions: seq<Action>)
    requires c.maxRetries >= 2
    ensures AttemptsBounded(c, Run(c, Fresh(tables), actions))
    decreases |actions|
  {
    hide Step;
    if actions != [] {
      hide AttemptsBounded;
      var n := |actions| - 1;
      RunAttemptsBounded(c, tables, actions[..n]);
      StepAttemptsBounded(c, Run(c, Fresh(tables), actions[..n]), actions[n]);
    }
  }

  /** No event in the failed list counts more than `maxRetries` attempts. */
  ghost predicate WithinMaxAttempts(c: Config, tables: Store.Tables) {
    forall actions, i :: 0 <= i < |Run(c, Fresh(tables), actions).failed|
      ==> Run(c, Fresh(tables), actions).failed[i].attempts <= c.maxRetries
  }

  /** The program's counter stays within `maxRetries` exactly from 2 on: the failed first write counts
      as an attempt, and one retry is always made. */
  lemma WithinMaxAttemptsExactly(c: Config, tables: Store.Tables, call: Call)
    ensures WithinMaxAttempts(c, tables) <==> c.maxRetries >= 2
  {
    hide Run;
    if c.maxRetries >= 2 {
      forall actions, i | 0 <= i < |Run(c, Fresh(tables), actions).failed|
        ensures Run(c, Fresh(tables), actions).failed[i].attempts <= c.maxRetries
      {
        RunAttemptsBounded(c, tables, actions);
        var failed := Run(c, Fresh(tables), actions).failed;
        assert failed[i] in failed;
      }
    } else {
      OneTryThenAside(c, tables, call);
      var actions := [Submit(call), Dequeue, Attempt(false), Return, GiveUp];
      assert Run(c, Fresh(tables), actions).failed[0].attempts == 2;
    }
  }

  // Retrying may reorder the events of an order, unless callers wait.

  /** The calls that are waiting to be retried. */
  function Waits(s: State): multiset<Call> {
    Calls(s.queue) + Calls(Held(s.worker)) + Calls(s.leaving) + Calls(s.failed)
  }

  /** A caller may issue a call about an order only when its row is there, and a creation only when
      there is neither a row nor anything waiting for its id. */
  ghost predicate MayIssue(s: State, call: Call) {
    if call.RecordCreated?
    then call.id !in s.tables.rows && forall x :: x in Waits(s) ==> x.id != call.id
    else call.id in s.tables.rows
  }

  ghost predicate Patient(s: State, a: Action) {
    (a.Direct? ==> MayIssue(s, a.call)) && (a.Submit? ==> MayIssue(s, a.call))
  }

  ghost predicate PatientRun(c: Config, s: State, actions: seq<Action>) {
    actions == [] ||
    (PatientRun(c, s, actions[..|actions| - 1]) && Patient(Run(c, s, actions[..|actions| - 1]), actions[|actions| - 1]))
  }

  /** A creation whose row the constraints allow; any other creation is refused whenever it is tried. */
  predicate Creates(x: Call) {
    x.RecordCreated? && Store.RowAllowed(Store.Row(x.details, 0.0, Open, x.details.createdAt, 1))
  }

  /** Creations wait only for ids without a row, and alone; everything else is about orders with one. */
  ghost predicate Fits(rows: map<Id, Store.Row>, waits: multiset<Call>) {
    && (forall x :: x in waits && !x.RecordCreated? ==> x.id in rows)
    && (forall x :: x in waits && Creates(x) ==> x.id !in rows && waits[x] == 1)
    && (forall x, y :: x in waits && y in waits && Creates(x) && Creates(y) && x.id == y.id ==> x == y)
  }

  ghost predicate InOrder(s: State) {
    && s.tables == Store.Run(Store.NO_TABLES, s.persisted)
    && Store.FollowsProtocol(Store.NO_TABLES, s.persisted)
    && Fits(s.tables.rows, Waits(s))
  }

  lemma EverywhereSplits(s: State)
    ensures Everywhere(s) == multiset(s.persisted) + Waits(s)
  {
    hide Calls;
    Regrouped(multiset(s.persisted), Calls(s.queue), Calls(Held(s.worker)), Calls(s.leaving), Calls(s.failed));
  }

  lemma Regrouped(p: multiset<Call>, q: multiset<Call>, w: multiset<Call>, l: multiset<Call>, f: multiset<Call>)
    ensures p + q + w + l + f == p + (q + w + l + f)
  {
  }

  lemma Cancelled(p: multiset<Call>, x: multiset<Call>, y: multiset<Call>)
    requires p + x == p + y
    ensures x == y
  {
    forall c: Call ensures x[c] == y[c] {
      assert (p + x)[c] == (p + y)[c];
    }
  }

  /** A step that only moves waiting events. */
  lemma MoveKeepsOrder(s: State, s': State)
    requires InOrder(s) && Everywhere(s') == Everywhere(s)
    requires s'.tables == s.tables && s'.persisted == s.persisted
    ensures InOrder(s')
  {
    hide Everywhere, Waits, Fits, Store.FollowsProtocol, Store.Run;
    EverywhereSplits(s);
    EverywhereSplits(s');
    Cancelled(multiset(s.persisted), Waits(s), Waits(s'));
  }

  lemma {:induction false} ProtocolAppend(t: Store.Tables, calls: seq<Call>, call: Call)
    ensures Store.FollowsProtocol(t, calls + [call]) <==>
            && Store.FollowsProtocol(t, calls)
            && (Store.Accepts(Store.Run(t, calls), call) ==> Store.InProtocol(Store.Run(t, calls), call))
    decreases |calls|
  {
    hide Store.Step, Store.Accepts, Store.InProtocol;
    if calls == [] {
      assert [] + [call] == [call] && [call][1..] == [];
      assert Store.FollowsProtocol(Store.Step(t, call), []);
    } else {
      assert (calls + [call])[1..] == calls[1..] + [call];
      ProtocolAppend(Store.Step(t, calls[0]), calls[1..], call);
    }
  }

  lemma StepKeys(t: Store.Tables, call: Call)
    requires Store.Accepts(t, call) && Store.InProtocol(t, call)
    ensures Store.Step(t, call).rows.Keys == t.rows.Keys + {call.id}
  {
    hide Store.NextSequence, Store.RowAllowed;
  }

  /** A waiting call gets through. */
  lemma WrittenFits(rows: map<Id, Store.Row>, rows': map<Id, Store.Row>, waits: multiset<Call>, call: Call)
    requires Fits(rows, waits) && call in waits && rows'.Keys == rows.Keys + {call.id}
    requires call.RecordCreated? ==> Creates(call)
    ensures Fits(rows', waits - multiset{call})
  {
    hide Creates;
    var rest := waits - multiset{call};
    assert call.RecordCreated? ==> rest[call] == 0;
    assert forall x :: x in rest ==> x in waits && rest[x] <= waits[x];
    forall x | x in rest && Creates(x) ensures x.id !in rows' && rest[x] == 1 {
      assert waits[x] == 1;
    }
  }

  lemma FewerFit(rows: map<Id, Store.Row>, waits: multiset<Call>, call: Call)
    requires Fits(rows, waits)
    ensures Fits(rows, waits - multiset{call})
  {
    hide Creates;
    var rest := waits - multiset{call};
    assert forall x :: x in rest ==> x in waits && 0 < rest[x] <= waits[x];
  }

  /** The constraints of a creation do not depend on the tables. */
  lemma AcceptsCreation(t: Store.Tables, call: Call)
    requires call.RecordCreated?
    ensures Store.Accepts(t, call) <==> Creates(call)
  {
  }

  lemma OneThrough(t: Store.Tables, waits: multiset<Call>, x: Call)
    requires Fits(t.rows, waits) && x in waits
    ensures (Store.Accepts(t, x) ==> Store.InProtocol(t, x)) && Fits(Store.Step(t, x).rows, waits - multiset{x})
  {
    hide Fits, Creates;
    if Store.Accepts(t, x) {
      FitsProtocol(t, waits, x);
      StepKeys(t, x);
      if x.RecordCreated? { AcceptsCreation(t, x); }
      WrittenFits(t.rows, Store.Step(t, x).rows, waits, x);
    } else {
      FewerFit(t.rows, waits, x);
    }
  }

  lemma {:induction false} AnyOrderFollows(t: Store.Tables, waits: multiset<Call>, order: seq<Call>)
    requires Fits(t.rows, waits) && multiset(order) <= waits
    ensures Store.FollowsProtocol(t, order)
    decreases |order|
  {
    hide Fits, Store.Accepts, Store.InProtocol, Store.Step;
    if order != [] {
      var x := order[0];
      assert order == [x] + order[1..] && x in multiset(order);
      assert multiset(order[1..]) == multiset(order) - multiset{x};
      OneThrough(t, waits, x);
      AnyOrderFollows(Store.Step(t, x), waits - multiset{x}, order[1..]);
    }
  }

  lemma AcceptsIt(t: Store.Tables, call: Call)
    requires Creates(call)
    ensures call.RecordCreated? && Store.Accepts(t, call)
  {
    AcceptsCreation(t, call);
  }

  lemma OneCall(t: Store.Tables, x: Call)
    ensures Store.FollowsProtocol(t, [x]) <==> (Store.Accepts(t, x) ==> Store.InProtocol(t, x))
  {
    assert [x][1..] == [];
    assert Store.FollowsProtocol(Store.Step(t, x), []);
  }

  lemma TwoCreations(t: Store.Tables, x: Call, y: Call)
    requires Creates(x) && Creates(y) && x.id == y.id && x.id !in t.rows
    ensures !Store.FollowsProtocol(t, [x, y])
  {
    AcceptsCreation(t, x);
    StepKeys(t, x);
    AcceptsCreation(Store.Step(t, x), y);
    OneCall(Store.Step(t, x), y);
    assert [x, y][1..] == [y];
  }

  /** The waiting calls may get through in every order, and any of them may be left out. */
  ghost predicate AnyOrder(t: Store.Tables, waits: multiset<Call>) {
    forall order :: multiset(order) <= waits ==> Store.FollowsProtocol(t, order)
  }

  /** Whatever gets through of the waiting calls, in whatever order, is in protocol if and only if
      creations wait only for ids without a row, and alone, and everything else is about orders with
      one. */
  lemma FitsExactly(t: Store.Tables, waits: multiset<Call>)
    ensures AnyOrder(t, waits) <==> Fits(t.rows, waits)
  {
    if Fits(t.rows, waits) {
      forall order | multiset(order) <= waits ensures Store.FollowsProtocol(t, order) {
        AnyOrderFollows(t, waits, order);
      }
    } else {
      var order := BadOrder(t, waits);
    }
  }

  lemma BadOrder(t: Store.Tables, waits: multiset<Call>) returns (order: seq<Call>)
    requires !Fits(t.rows, waits)
    ensures multiset(order) <= waits && !Store.FollowsProtocol(t, order)
  {
    hide Store.FollowsProtocol, Creates, Store.Step;
    if x :| x in waits && !x.RecordCreated? && x.id !in t.rows {
      order := [x];
      OneCall(t, x);
    } else if x :| x in waits && Creates(x) && x.id in t.rows {
      order := [x];
      AcceptsIt(t, x);
      OneCall(t, x);
    } else if x :| x in waits && Creates(x) && waits[x] != 1 {
      order := [x, x];
      TwoCreations(t, x, x);
    } else {
      var x, y :| x in waits && y in waits && Creates(x) && Creates(y) && x.id == y.id && x != y;
      order := [x, y];
      TwoCreations(t, x, y);
    }
  }

  lemma AttemptKeepsOrder(s: State, e: Pending, up: bool)
    requires InOrder(s) && s.worker == Trying(e)
    ensures InOrder(Tried(s, e, up))
  {
    hide Waits, Everywhere, Fits, Store.FollowsProtocol, Store.Run, Store.Step, Store.Accepts;
    AttemptKeepsAll(s, e, up);
    if up && Store.Accepts(s.tables, e.call) {
      var s' := Tried(s, e, up);
      EverywhereSplits(s);
      EverywhereSplits(s');
      TriedWaits(s, e);
      Taken(multiset(s.persisted), Waits(s), Waits(s'), e.call);
      FitsProtocol(s.tables, Waits(s), e.call);
      StepKeys(s.tables, e.call);
      if e.call.RecordCreated? { AcceptsCreation(s.tables, e.call); }
      WrittenFits(s.tables.rows, s'.tables.rows, Waits(s), e.call);
      ProtocolAppend(Store.NO_TABLES, s.persisted, e.call);
      TablesAppend(Store.NO_TABLES, s.persisted, e.call);
    } else {
      MoveKeepsOrder(s, Tried(s, e, up));
    }
  }

  lemma FitsProtocol(t: Store.Tables, waits: multiset<Call>, call: Call)
    requires Fits(t.rows, waits) && call in waits && Store.Accepts(t, call)
    ensures Store.InProtocol(t, call)
  {
    hide Store.Accepts, Creates;
    if call.RecordCreated? { AcceptsCreation(t, call); }
  }

  lemma TriedWaits(s: State, e: Pending)
    requires s.worker == Trying(e)
    ensures e.call in Waits(s)
  {
    CallsOne(e);
    hide Calls;
    assert e.call in Calls(Held(s.worker));
  }

  lemma Taken(p: multiset<Call>, w: multiset<Call>, w': multiset<Call>, x: Call)
    requires p + multiset{x} + w' == p + w && x in w
    ensures w' == w - multiset{x}
  {
    forall c: Call ensures w'[c] == (w - multiset{x})[c] {
      assert (p + multiset{x} + w')[c] == (p + w)[c];
    }
  }

  lemma SubmitKeepsOrder(c: Config, s: State, call: Call)
    requires InOrder(s) && MayIssue(s, call)
    ensures InOrder(Step(c, s, Submit(call)))
  {
    hide Waits, Everywhere, Fits, Store.FollowsProtocol, Store.Run, Room;
    var s' := Step(c, s, Submit(call));
    SubmitKeepsAll(c, s, call);
    EverywhereSplits(s);
    EverywhereSplits(s');
    Added(multiset(s.persisted), Waits(s), Waits(s'), call);
    IssuedFits(s, call);
  }

  lemma Added(p: multiset<Call>, w: multiset<Call>, w': multiset<Call>, x: Call)
    requires p + w' == p + w + multiset{x}
    ensures w' == w + multiset{x}
  {
    forall c: Call ensures w'[c] == (w + multiset{x})[c] {
      assert (p + w')[c] == (p + w + multiset{x})[c];
    }
  }

  lemma IssuedFits(s: State, call: Call)
    requires Fits(s.tables.rows, Waits(s)) && MayIssue(s, call)
    ensures Fits(s.tables.rows, Waits(s) + multiset{call})
  {
    hide Waits;
    var w, w' := Waits(s), Waits(s) + multiset{call};
    forall x | x in w' ensures x in w || x == call {
      assert w'[x] == w[x] + multiset{call}[x];
    }
    forall x | x in w' && Creates(x) ensures x.id !in s.tables.rows && w'[x] == 1 {
      assert w'[x] == w[x] + multiset{call}[x];
      assert x in w ==> w[x] == 1;
    }
  }

  lemma DirectKeepsOrder(s: State, call: Call, up: bool)
    requires InOrder(s) && MayIssue(s, call)
    ensures InOrder(Recorded(s, call, up))
  {
    hide Waits, Store.FollowsProtocol, Store.Run, Store.Step, Store.Accepts;
    if up && Store.Accepts(s.tables, call) {
      StepKeys(s.tables, call);
      ProtocolAppend(Store.NO_TABLES, s.persisted, call);
      TablesAppend(Store.NO_TABLES, s.persisted, call);
      assert Waits(Recorded(s, call, up)) == Waits(s) by { SameWaits(s, call, up); }
    }
  }

  lemma SameWaits(s: State, call: Call, up: bool)
    ensures Waits(Recorded(s, call, up)) == Waits(s)
  {
  }

  lemma StepKeepsOrder(c: Config, s: State, a: Action)
    requires InOrder(s) && Patient(s, a)
    ensures InOrder(Step(c, s, a))
  {
    hide Calls, Room, Everywhere, Waits, Fits, InOrder, Recorded, Tried, Returned, Resubmitted, MayIssue;
    match a
    case Direct(call, up) => DirectKeepsOrder(s, call, up);
    case Submit(call) => SubmitKeepsOrder(c, s, call);
    case Attempt(up) => if s.worker.Trying? { AttemptKeepsOrder(s, s.worker.event, up); }
    case _ =>
      MovesOnly(c, s, a);
      MoveKeepsOrder(s, Step(c, s, a));
  }

  lemma MovesOnly(c: Config, s: State, a: Action)
    requires !a.Direct? && !a.Submit? && !a.Attempt?
    ensures var s' := Step(c, s, a);
            Everywhere(s') == Everywhere(s) && s'.tables == s.tables && s'.persisted == s.persisted
  {
    hide Calls, Room, Everywhere;
    match a
    case Record(i) => if i < |s.leaving| { RecordKeepsAll(c, s, i); }
    case Dequeue => if s.worker.Idle? && s.queue != [] { DequeueKeepsAll(c, s); }
    case Return => if s.worker.Returning? { ReturnKeepsAll(c, s, s.worker.event); }
    case GiveUp => if s.worker.GivingUp? { GiveUpKeepsAll(c, s); }
    case Tick => if s.worker.Idle? && s.failed != [] { TickKeepsAll(c, s); }
    case Resubmit => if s.worker.Resubmitting? { ResubmitKeepsAll(c, s, s.worker.rest); }
    case Overflow => if s.worker.Overflowing? { OverflowKeepsAll(c, s); }
  }

  lemma StartsInOrder()
    ensures InOrder(Fresh(Store.NO_TABLES))
  {
  }

  lemma {:induction false} PatientInOrder(c: Config, actions: seq<Action>)
    requires PatientRun(c, Fresh(Store.NO_TABLES), actions)
    ensures InOrder(Run(c, Fresh(Store.NO_TABLES), actions))
    decreases |actions|
  {
    hide InOrder, Step, Patient;
    if actions == [] {
      StartsInOrder();
    } else {
      var n := |actions| - 1;
      PatientInOrder(c, actions[..n]);
      StepKeepsOrder(c, Run(c, Fresh(Store.NO_TABLES), actions[..n]), actions[n]);
    }
  }

  /** If callers issue a call about an order only when its row is there, and a creation only when
      there is neither a row nor anything waiting for its id, then under every interleaving and every
      failure pattern all calls get through in protocol, and the snapshot could be rebuilt at every
      moment. */
  lemma PatientKeepsProtocol(c: Config, actions: seq<Action>)
    requires PatientRun(c, Fresh(Store.NO_TABLES), actions)
    ensures var s := Run(c, Fresh(Store.NO_TABLES), actions);
            && Store.FollowsProtocol(Store.NO_TABLES, s.persisted)
            && Store.RebuildsThroughout(Store.NO_TABLES, s.persisted)
            && Store.Consistent(s.tables)
  {
    hide Run, Store.FollowsProtocol, Store.RebuildsThroughout, Store.Consistent, Fits, Waits;
    PatientInOrder(c, actions);
    var s := Run(c, Fresh(Store.NO_TABLES), actions);
    Store.FirstRunIsExact(s.persisted);
    Store.StartsConsistent();
    Store.RunConsistent(Store.NO_TABLES, s.persisted);
  }

  /** A direct write that gets through keeps the snapshot rebuildable exactly when it is about an order
      with a row, or creates one without. */
  lemma DirectExactly(s: State, call: Call)
    requires Store.Consistent(s.tables) && Store.Accepts(s.tables, call)
    ensures Store.Rebuilds(Recorded(s, call, true).tables) <==> (call.RecordCreated? <==> call.id !in s.tables.rows)
  {
    Store.ProtocolIsExact(s.tables, call);
  }

  /** So does the retry of the first queued call. */
  lemma RetryExactly(c: Config, s: State)
    requires Store.Consistent(s.tables) && s.worker == Idle && s.queue != [] && Store.Accepts(s.tables, s.queue[0].call)
    ensures var call, s' := s.queue[0].call, Step(c, Step(c, s, Dequeue), Attempt(true));
            Store.Rebuilds(s'.tables) <==> (call.RecordCreated? <==> call.id !in s.tables.rows)
  {
    hide Store.Rebuilds;
    Store.ProtocolIsExact(s.tables, s.queue[0].call);
  }

  /** Whatever is waiting to be retried, a direct write about an order without a row leaves a log that
      cannot be rebuilt. */
  lemma OvertakenCreation(s: State, call: Call)
    requires Store.Consistent(s.tables) && call.id !in s.tables.rows && !call.RecordCreated?
    ensures !Store.Rebuilds(Recorded(s, call, true).tables)
  {
    Store.ProtocolIsExact(s.tables, call);
  }

  const CREATION := Store.RecordCreated("o", Store.DETAILS)
  const FILL := Store.RecordFill("o", 1.0, 1.0, Filled, 1)

  /** The creation of an order is submitted after a failed write, its fill is written directly, then
      the creation is retried with success: nothing is pending, and the snapshot is wrong. */
  lemma OvertakenExample(c: Config)
    ensures var s := Run(c, Fresh(Store.NO_TABLES), [Submit(CREATION), Direct(FILL, true), Dequeue, Attempt(true)]);
            && s.persisted == [FILL, CREATION] && s.queue == [] && s.failed == [] && s.leaving == [] && s.worker == Idle
            && "o" in s.tables.rows && s.tables.rows["o"].filled == 0.0 && !Store.Rebuilds(s.tables)
  {
    hide Run, Store.Rebuilds, Store.Step, Store.Accepts;
    var s, e := Fresh(Store.NO_TABLES), Pending(CREATION, 1, 0);
    FillThenCreation();
    RunOne(c, s, Submit(CREATION));
    var a2 := [Submit(CREATION)] + [Direct(FILL, true)];
    RunMore(c, s, [Submit(CREATION)], Direct(FILL, true));
    var s2 := Run(c, s, a2);
    assert s2.queue == [e] && s2.worker == Idle && s2.tables == Store.Step(Store.NO_TABLES, FILL);
    var a3 := a2 + [Dequeue];
    RunMore(c, s, a2, Dequeue);
    assert Run(c, s, a3) == s2.(worker := Trying(e), queue := []);
    RunMore(c, s, a3, Attempt(true));
    assert a3 + [Attempt(true)] == [Submit(CREATION), Direct(FILL, true), Dequeue, Attempt(true)];
  }

  /** An order is created directly while its creation is waiting after a failed write: the retry
      creates it a second time. */
  lemma DuplicateExample(c: Config)
    ensures var s := Run(c, Fresh(Store.NO_TABLES), [Submit(CREATION), Direct(CREATION, true), Dequeue, Attempt(true)]);
            s.persisted == [CREATION, CREATION] && !Store.Rebuilds(s.tables)
  {
    hide Run, Store.Rebuilds, Store.Step, Store.Accepts;
    var s, e := Fresh(Store.NO_TABLES), Pending(CREATION, 1, 0);
    var t := Store.Step(Store.NO_TABLES, CREATION);
    CreatedTwice();
    RunOne(c, s, Submit(CREATION));
    var a2 := [Submit(CREATION)] + [Direct(CREATION, true)];
    RunMore(c, s, [Submit(CREATION)], Direct(CREATION, true));
    var a3 := a2 + [Dequeue];
    RunMore(c, s, a2, Dequeue);
    assert Run(c, s, a2).queue == [e] && Run(c, s, a2).worker == Idle && Run(c, s, a2).tables == t;
    assert Run(c, s, a3).worker == Trying(e);
    RunMore(c, s, a3, Attempt(true));
    assert a3 + [Attempt(true)] == [Submit(CREATION), Direct(CREATION, true), Dequeue, Attempt(true)];
  }

  lemma CreatedTwice()
    ensures Store.Accepts(Store.NO_TABLES, CREATION)
    ensures var t := Store.Step(Store.NO_TABLES, CREATION);
            Store.Accepts(t, CREATION) && !Store.Rebuilds(Store.Step(t, CREATION))
  {
    Store.SecondCreation();
  }

  lemma FillThenCreation()
    ensures var s1 := Store.Step(Store.NO_TABLES, FILL);
            var s2 := Store.Step(s1, CREATION);
            && Store.Accepts(Store.NO_TABLES, FILL) && Store.Accepts(s1, CREATION)
            && "o" in s2.rows && s2.rows["o"].filled == 0.0 && !Store.Rebuilds(s2)
  {
    hide Store.Rebuilds;
    var s1 := Store.Step(Store.NO_TABLES, FILL);
    var s2 := Store.Step(s1, CREATION);
    var e1, e2 := Store.EventOf(FILL, 1), Store.EventOf(CREATION, 2);
    NumberedFirst(e1);
    assert [] + [e1] == [e1];
    assert s1.log == [e1] && s1.rows == map[];
    assert s2.log == [e1] + [e2];
    WrongSnapshot(s2, e1, e2);
  }

  lemma NumberedFirst(e: Store.Event)
    requires e.orderId == "o" && e.sequence == 1
    ensures Store.NextSequence([], "o") == 1 && Store.NextSequence([e], "o") == 2
  {
    assert [e][..0] == [];
    assert Store.History([e], "o") == [e];
  }

  lemma WrongSnapshot(s: Store.Tables, e1: Store.Event, e2: Store.Event)
    requires e1 == Store.EventOf(FILL, 1) && e2 == Store.EventOf(CREATION, 2) && s.log == [e1] + [e2]
    requires "o" in s.rows && s.rows["o"].filled == 0.0
    ensures !Store.Rebuilds(s)
  {
    hide Store.Rebuilds, Store.Unseen;
    Store.HistoryAppend([], e1, "o");
    Store.HistoryAppend([e1], e2, "o");
    assert [] + [e1] == [e1] && Store.History([], "o") == [];
    hide Store.History;
    Store.ReplayNone();
    Store.ReplayAppend([], e1);
    Store.ReplayAppend([e1], e2);
    hide Store.Replay;
    assert Store.Replay(Store.History(s.log, "o")).filled == 1.0;
    assert "o" in Store.Inconsistent(s);
    Store.VerificationMisses(s);
  }
}
