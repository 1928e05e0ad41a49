/** The retry queue's operations (persistence/retry_queue.go), each a run of the queue's steps. */
module EventRetryQueues {
  import opened RetryQueues

  class EventRetryQueue {
    const config: Config
    var queue: seq<Pending>
    var failedEvents: seq<Pending>
    var store: Store.Tables
    ghost var persisted: seq<Call>
    ghost var submitted: seq<Call>

    ghost function View(): State
      reads this
    {
      State(queue, failedEvents, [], Idle, store, persisted, submitted)
    }

    constructor (config: Config, store: Store.Tables)
      ensures this.config == config && View() == Fresh(store)
    {
      this.config, this.store, queue, failedEvents := config, store, [], [];
      persisted, submitted := [], [];
    }

    /** A non-blocking send; without a buffer it needs a worker that is receiving. */
    method TrySend(event: Pending, receiving: bool) returns (sent: bool)
      modifies this`queue
      ensures sent == (|old(queue)| < config.queueSize || (config.queueSize == 0 && receiving && old(queue) == []))
      ensures queue == if sent then old(queue) + [event] else old(queue)
    {
      sent := |queue| < config.queueSize || (config.queueSize == 0 && receiving && queue == []);
      if sent {
        queue := queue + [event];
      }
    }

    method RecordFailedEvent(event: Pending)
      modifies this`failedEvents
      ensures failedEvents == old(failedEvents) + [event]
    {
      failedEvents := failedEvents + [event];
    }

    /** Queues an event whose first write failed. */
    method QueueEvent(call: Call)
      modifies this
      ensures View() == Run(config, old(View()), [Submit(call), Record(0)])
    {
      hide Run;
      ghost var s := View();
      var event := Pending(call, 1, 0);
      submitted := submitted + [call];
      var sent := TrySend(event, true);
      if !sent {
        RecordFailedEvent(event);
      }
      SubmitRecorded(config, s, call);
    }

    /** Writes an event, and queues it if that fails. */
    method RecordOrQueue(call: Call, up: bool) returns (ok: bool)
      modifies this
      ensures ok == (up && Store.Accepts(old(store), call))
      ensures View() == Run(config, old(View()), if ok then [Direct(call, up)] else [Submit(call), Record(0)])
    {
      hide Store.Accepts, Store.Step;
      ghost var s := View();
      ok := up && Store.Accepts(store, call);
      if ok {
        store, persisted, submitted := Store.Step(store, call), persisted + [call], submitted + [call];
        RunOne(config, s, Direct(call, up));
      } else {
        QueueEvent(call);
      }
    }

    /** Takes the first queued event and tries to write it. */
    method ProcessNext(up: bool)
      requires queue != []
      modifies this
      ensures View() == Run(config, old(View()), [Dequeue, Attempt(up)] + [Return, GiveUp])
    {
      ghost var s := View();
      var event := queue[0];
      queue := queue[1..];
      RetryEvent(event, up, s);
      Twice(config, s, Dequeue, Attempt(up));
      RunSplit(config, s, [Dequeue, Attempt(up)], [Return, GiveUp]);
      Twice(config, Run(config, s, [Dequeue, Attempt(up)]), Return, GiveUp);
    }

    method RetryEvent(event: Pending, up: bool, ghost s: State)
      requires View() == s.(queue := queue) && s.worker == Idle && s.queue == [event] + queue
      modifies this
      ensures var works := up && Store.Accepts(old(store), event.call);
              var again := event.attempts + 1 < config.maxRetries && |old(queue)| < config.queueSize;
              && queue == (if !works && again then old(queue) + [event.Failed()] else old(queue))
              && failedEvents == (if !works && !again then old(failedEvents) + [event.Failed()] else old(failedEvents))
              && persisted == (if works then old(persisted) + [event.call] else old(persisted))
      ensures var tried := Tried(s.(queue := old(queue), worker := Trying(event)), event, up);
              View() == Step(config, Step(config, tried, Return), GiveUp)
    {
      hide Store.Accepts, Store.Step;
      if up && Store.Accepts(store, event.call) {
        store, persisted := Store.Step(store, event.call), persisted + [event.call];
      } else {
        var again := event.Failed();
        if again.attempts >= config.maxRetries {
          RecordFailedEvent(again);
        } else {
          var sent := TrySend(again, false);
          if !sent {
            RecordFailedEvent(again);
          }
        }
      }
    }

    /** Sends one failed event again, or puts it back in the failed list. */
    method ResubmitEvent(event: Pending, ghost rest: seq<Pending>) returns (sent: bool, ghost steps: seq<Action>)
      modifies this
      ensures View().(worker := Resubmitting(rest))
           == Run(config, old(View()).(worker := Resubmitting([event] + rest)), steps)
      ensures sent == (|old(queue)| < config.queueSize)
      ensures queue == if sent then old(queue) + [event.Restarted()] else old(queue)
      ensures failedEvents == if sent then old(failedEvents) else old(failedEvents) + [event.Restarted()]
      ensures unchanged(`persisted, `submitted, `store)
    {
      ghost var s := View().(worker := Resubmitting([event] + rest));
      assert ([event] + rest)[1..] == rest;
      var again := event.Restarted();
      sent := TrySend(again, false);
      RunOne(config, s, Resubmit);
      steps := [Resubmit];
      if !sent {
        RecordFailedEvent(again);
        Twice(config, s, Resubmit, Overflow);
        steps := [Resubmit, Overflow];
      }
    }

    /** Moves failed events back to the queue, oldest first, as long as there is room. */
    method RetryFailedEvents() returns (ghost moved: nat, ghost steps: seq<Action>)
      modifies this
      ensures View() == Run(config, old(View()), steps)
      ensures moved <= |old(failedEvents)|
      ensures queue == old(queue) + Restart(old(failedEvents)[..moved])
      ensures failedEvents == Restart(old(failedEvents)[moved..])
      ensures moved == |old(failedEvents)| || |queue| >= config.queueSize
    {
      hide Run, Step;
      moved, steps := 0, [];
      RunNone(config, View());
      if failedEvents == [] {
        return;
      }
      ghost var s := View();
      var toRetry := failedEvents;
      failedEvents := [];
      steps := [Tick];
      TickRun(config, s);
      var i := 0;
      while i < |toRetry|
        invariant moved <= i <= |toRetry|
        invariant Run(config, s, steps) == View().(worker := Resubmitting(toRetry[i..]))
        invariant queue == s.queue + Restart(toRetry[..moved])
        invariant failedEvents == Restart(toRetry[moved..i])
        invariant moved == i || |queue| >= config.queueSize
      {
        assert [toRetry[i]] + toRetry[i + 1..] == toRetry[i..];
        var sent; ghost var more;
        sent, more := ResubmitEvent(toRetry[i], toRetry[i + 1..]);
        RunSplit(config, s, steps, more);
        steps := steps + more;
        RestartAppend(toRetry, moved, i);
        if sent {
          moved := moved + 1;
        }
        i := i + 1;
      }
      RunMore(config, s, steps, Resubmit);
      Finished(config, Run(config, s, steps));
      steps := steps + [Resubmit];
      assert toRetry[moved..i] == toRetry[moved..];
    }
  }

  lemma RunNone(c: Config, s: State)
    ensures Run(c, s, []) == s
  {
  }

  lemma TickRun(c: Config, s: State)
    requires s.worker == Idle && s.failed != []
    ensures Run(c, s, [Tick]) == s.(worker := Resubmitting(s.failed), failed := [])
  {
    RunOne(c, s, Tick);
  }

  lemma Finished(c: Config, s: State)
    requires s.worker == Resubmitting([])
    ensures Step(c, s, Resubmit) == s.(worker := Idle)
  {
  }

  lemma RestartAppend(es: seq<Pending>, m: nat, i: nat)
    requires m <= i < |es|
    ensures Restart(es[m..i + 1]) == Restart(es[m..i]) + [es[i].Restarted()]
    ensures m == i ==> Restart(es[..m + 1]) == Restart(es[..m]) + [es[i].Restarted()] && Restart(es[m + 1..i + 1]) == []
  {
  }

  function Restart(es: seq<Pending>): (r: seq<Pending>)
    ensures |r| == |es| && forall i :: 0 <= i < |es| ==> r[i] == es[i].Restarted()
  {
    seq(|es|, i requires 0 <= i < |es| => es[i].Restarted())
  }
}
