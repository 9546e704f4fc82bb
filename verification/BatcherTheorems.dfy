/** The promises of the batcher to its requesters, over every run. */
module BatcherTheorems {
  import opened Wrappers
  import opened BatchQueue
  import opened BatcherSystem
  import opened BatcherSafety

  /** Every request is queued, in flight or served, in exactly one of these places and there once. So a
      requester never finds its channel closed, and never gets two replies. */
  lemma {:induction false} EveryRequestIsInOnePlace<O, S>(cfg: Config, steps: seq<Step<O, S>>, x: Ticket<O>)
    requires cfg.batchSize > 0 && Exec(cfg, steps).Some?
    ensures var s := Exec(cfg, steps).value;
            && s.dropped[x] == 0
            && Queued(s.front.queues, x) + InFlight(s.calls, x) + Served(s.delivered, x)
               == if x in s.requested then 1 else 0
  {
    Reachable(cfg, steps);
    ReachablePlaces(cfg, steps, x);
  }

  /** A reply comes from a call that went out after the request was made, and says what that call found
      out about the order of the request. */
  lemma {:induction false} RepliesAreRightAndFresh<O, S>(cfg: Config, steps: seq<Step<O, S>>, d: nat)
    requires cfg.batchSize > 0 && Exec(cfg, steps).Some? && d < |Exec(cfg, steps).value.delivered|
    ensures var s := Exec(cfg, steps).value;
            && s.delivered[d].call < |s.calls|
            && RightReply(s.calls[s.delivered[d].call], s.delivered[d].ticket, s.delivered[d].reply)
  {
    Reachable(cfg, steps);
  }

  /** Jobs never wait without something that will wake the runner: for urgent jobs a notification, a
      short timer, or the runner itself; and no more than `concurrent` calls are ever open. */
  lemma {:induction false} NoLostWakeUp<O, S>(cfg: Config, steps: seq<Step<O, S>>)
    requires cfg.batchSize > 0 && Exec(cfg, steps).Some?
    ensures WakeInv(Exec(cfg, steps).value) && PermitsInv(cfg, Exec(cfg, steps).value)
    ensures Holding(Exec(cfg, steps).value.calls) <= cfg.concurrent
  {
    Reachable(cfg, steps);
  }

  /** Nothing holds up the outside: in every state anyone may ask, any timer that was set may end, and any
      call that went out may return anything, once. */
  lemma OutsideIsFree<O, S>(s: Sys<O, S>, order: O, urgent: bool, c: nat, raw: Result<seq<S>, string>)
    ensures Enabled(s, Ask(order, urgent))
    ensures Enabled(s, ShortTimer) <==> s.front.shortTimers > 0
    ensures Enabled(s, LongTimer) <==> s.front.longTimers > 0
    ensures Enabled(s, Return(c, raw)) <==> c < |s.calls| && s.calls[c].issued.Some? && s.calls[c].outcome.None?
  {
  }

  // ---------- every request is served ----------

  ghost function CallWork<O, S>(call: Call<O, S>): nat {
    (if call.issued.None? then 1 else 0) + (if call.outcome.None? then 1 else 0) + (if call.done then 0 else 1)
    + if call.replied <= |Tickets(call.jobs)| then |Tickets(call.jobs)| - call.replied else 0
  }

  ghost function CallsWork<O, S>(calls: seq<Call<O, S>>): nat {
    if calls == [] then 0 else CallsWork(calls[..|calls| - 1]) + CallWork(calls[|calls| - 1])
  }

  ghost function RunnerWork(r: Runner): nat {
    match r
    case Waiting => 0
    case Taking => 2
    case Acquiring => 3
  }

  ghost function QueueWork<O>(jobs: seq<Job<O>>): nat {
    if jobs == [] then 0 else 5 + |jobs[0].senders| + QueueWork(jobs[1..])
  }

  /** An upper bound on the number of steps the batcher takes before it needs a new request. */
  ghost function Work<O, S>(s: Sys<O, S>): nat {
    5 * s.front.shortTimers + 5 * s.front.longTimers + (if s.front.stored then 4 else 0)
    + RunnerWork(s.runner) + QueueWork(Schedule(s.front.queues)) + CallsWork(s.calls)
  }

  lemma {:induction false} CallsWorkUpdate<O, S>(calls: seq<Call<O, S>>, i: nat, call: Call<O, S>)
    requires i < |calls|
    ensures CallsWork(calls[i := call]) + CallWork(calls[i]) == CallsWork(calls) + CallWork(call)
  {
    var n := |calls| - 1;
    if i < n {
      CallsWorkUpdate(calls[..n], i, call);
      assert calls[i := call][..n] == calls[..n][i := call];
    } else {
      assert calls[i := call][..n] == calls[..n];
    }
  }

  lemma {:induction false} QueueWorkConcat<O>(a: seq<Job<O>>, b: seq<Job<O>>)
    ensures QueueWork(a + b) == QueueWork(a) + QueueWork(b)
  {
    if a == [] {
      assert a + b == b;
    } else {
      assert (a + b)[1..] == a[1..] + b;
      QueueWorkConcat(a[1..], b);
    }
  }

  lemma {:induction false} QueueWorkOfBatch<O>(jobs: seq<Job<O>>)
    ensures QueueWork(jobs) == 5 * |jobs| + |Tickets(jobs)|
  {
    if jobs != [] {
      QueueWorkOfBatch(jobs[1..]);
    }
  }

  lemma TakeWorks<O, S>(cfg: Config, s: Sys<O, S>)
    requires s.runner.Taking?
    ensures Work(Do(cfg, s, Take)) < Work(s)
  {
    var s' := Do(cfg, s, Take);
    var batch, rest := Taken(s.front.queues, cfg.batchSize).0, Taken(s.front.queues, cfg.batchSize).1;
    if batch != [] {
      TakenSizes(s.front.queues, cfg.batchSize);
      QueueWorkConcat(batch, Schedule(rest));
      QueueWorkOfBatch(batch);
      assert s'.calls[..|s.calls|] == s.calls;
    }
  }

  /** Every step other than a new request uses up work. */
  lemma StepWorks<O, S>(cfg: Config, s: Sys<O, S>, step: Step<O, S>)
    requires Enabled(s, step) && Inv(cfg, s) && !step.Ask?
    ensures Work(Do(cfg, s, step)) < Work(s)
  {
    var s' := Do(cfg, s, step);
    match step {
      case Take => TakeWorks(cfg, s);
      case Issue(c) => CallsWorkUpdate(s.calls, c, s'.calls[c]);
      case Return(c, _) => CallsWorkUpdate(s.calls, c, s'.calls[c]);
      case Reply(c) =>
        RepliedTickets(s.calls[c].jobs, s.calls[c].outcome.value);
        CallsWorkUpdate(s.calls, c, s'.calls[c]);
      case Finish(c) => CallsWorkUpdate(s.calls, c, s'.calls[c]);
      case _ =>
    }
  }

  /** A call that still owes a reply. */
  lemma {:induction false} FindOwing<O, S>(calls: seq<Call<O, S>>, x: Ticket<O>) returns (c: nat)
    requires InFlight(calls, x) > 0
    ensures c < |calls| && Owing(calls[c], x) > 0
  {
    if Owing(calls[|calls| - 1], x) > 0 {
      c := |calls| - 1;
    } else {
      c := FindOwing(calls[..|calls| - 1], x);
    }
  }

  lemma {:induction false} FindHolding<O, S>(calls: seq<Call<O, S>>) returns (c: nat)
    requires Holding(calls) > 0
    ensures c < |calls| && calls[c].outcome.None?
  {
    if calls[|calls| - 1].outcome.None? {
      c := |calls| - 1;
    } else {
      c := FindHolding(calls[..|calls| - 1]);
    }
  }

  /** The next step of a call that is not done. */
  lemma CallGoesOn<O, S>(cfg: Config, s: Sys<O, S>, c: nat) returns (step: Step<O, S>)
    requires Inv(cfg, s) && c < |s.calls| && !s.calls[c].done
    ensures !step.Ask? && Enabled(s, step)
  {
    var call := s.calls[c];
    assert CallInv(call, s.now);
    if call.issued.None? {
      step := Issue(c);
    } else if call.outcome.None? {
      step := Return(c, Failure("timeout"));
    } else {
      AllReplied(call.jobs, call.outcome.value);
      step := if call.replied < |Tickets(call.jobs)| then Reply(c) else Finish(c);
    }
  }

  /** As long as a request is not served there is something the batcher can do without a new one. */
  lemma NeverStuck<O, S>(cfg: Config, s: Sys<O, S>, x: Ticket<O>) returns (step: Step<O, S>)
    requires cfg.batchSize > 0 && cfg.concurrent > 0 && Inv(cfg, s) && PlacesInv(s, x)
    requires Served(s.delivered, x) < s.requested[x]
    ensures !step.Ask? && Enabled(s, step)
  {
    if InFlight(s.calls, x) > 0 {
      var c := FindOwing(s.calls, x);
      assert CallInv(s.calls[c], s.now);
      step := CallGoesOn(cfg, s, c);
    } else {
      assert Schedule(s.front.queues) != [];
      if s.runner.Taking? {
        step := Take;
      } else if s.runner.Acquiring? && s.permits > 0 {
        step := Acquire;
      } else if s.runner.Acquiring? {
        var c := FindHolding(s.calls);
        assert CallInv(s.calls[c], s.now);
        step := CallGoesOn(cfg, s, c);
      } else if s.front.stored {
        step := Wake;
      } else if s.front.shortTimers > 0 {
        step := ShortTimer;
      } else {
        step := LongTimer;
      }
    }
  }

  /** However its steps are scheduled, the batcher takes only so many before it needs a new request. */
  lemma {:induction false} SchedulesAreShort<O, S>(cfg: Config, steps: seq<Step<O, S>>, more: seq<Step<O, S>>)
    requires cfg.batchSize > 0 && Exec(cfg, steps).Some? && Exec(cfg, steps + more).Some?
    requires forall i | 0 <= i < |more| :: !more[i].Ask?
    ensures |more| + Work(Exec(cfg, steps + more).value) <= Work(Exec(cfg, steps).value)
    ensures Exec(cfg, steps + more).value.requested == Exec(cfg, steps).value.requested
    decreases |more|
  {
    if more == [] {
      assert steps + more == steps;
    } else {
      var fewer, last := more[..|more| - 1], more[|more| - 1];
      assert (steps + more)[..|steps + more| - 1] == steps + fewer;
      SchedulesAreShort(cfg, steps, fewer);
      Reachable(cfg, steps + fewer);
      StepWorks(cfg, Exec(cfg, steps + fewer).value, last);
    }
  }

  /** And when it cannot take another step every request made so far has been served, once. Together:
      once requests stop coming, every one is served after at most `Work` steps, whatever their order.
      While they keep coming, `WaitIsBounded` says how long one can wait. */
  lemma QuietMeansServed<O, S>(cfg: Config, steps: seq<Step<O, S>>, x: Ticket<O>)
    requires cfg.batchSize > 0 && cfg.concurrent > 0 && Exec(cfg, steps).Some?
    requires forall step: Step<O, S> | !step.Ask? :: !Enabled(Exec(cfg, steps).value, step)
    ensures Served(Exec(cfg, steps).value.delivered, x) == Exec(cfg, steps).value.requested[x]
  {
    var s := Exec(cfg, steps).value;
    Reachable(cfg, steps);
    ReachablePlaces(cfg, steps, x);
    if Served(s.delivered, x) < s.requested[x] {
      var step := NeverStuck(cfg, s, x);
    }
  }

  ghost predicate Idle<O, S>(cfg: Config, s: Sys<O, S>) {
    s.calls == [] && s.delivered == [] && (cfg.concurrent == 0 ==> s.permits == 0 && !s.runner.Taking?)
  }

  lemma IdleStep<O, S>(cfg: Config, s: Sys<O, S>, step: Step<O, S>)
    requires (cfg.batchSize == 0 || cfg.concurrent == 0) && Idle(cfg, s) && Enabled(s, step)
    ensures Idle(cfg, Do(cfg, s, step))
  {
  }

  /** Both limits have to be positive: otherwise no request is ever served. */
  lemma {:induction false} NothingIsServedWithoutRoom<O, S>(cfg: Config, steps: seq<Step<O, S>>)
    requires (cfg.batchSize == 0 || cfg.concurrent == 0) && Exec(cfg, steps).Some?
    ensures Idle(cfg, Exec(cfg, steps).value)
  {
    if steps != [] {
      var front := steps[..|steps| - 1];
      NothingIsServedWithoutRoom(cfg, front);
      IdleStep(cfg, Exec(cfg, front).value, steps[|steps| - 1]);
    }
  }
}
