/** How long a request can wait in the queues while others keep coming in. */
module BatcherWaiting {
  import opened Wrappers
  import opened BatchQueue
  import opened BatcherSystem
  import opened BatcherSafety

  /** No order is queued twice in any state. */
  lemma {:induction false} ReachableDistinct<O, S>(cfg: Config, steps: seq<Step<O, S>>)
    requires Exec(cfg, steps).Some?
    ensures Distinct(Schedule(Exec(cfg, steps).value.front.queues))
  {
    if steps != [] {
      var front, step := steps[..|steps| - 1], steps[|steps| - 1];
      ReachableDistinct(cfg, front);
      DistinctStep(cfg, Exec(cfg, front).value, step);
    }
  }

  lemma DistinctStep<O, S>(cfg: Config, s: Sys<O, S>, step: Step<O, S>)
    requires Enabled(s, step) && Distinct(Schedule(s.front.queues))
    ensures Distinct(Schedule(Do(cfg, s, step).front.queues))
  {
    StepQueues(cfg, s, step);
    if step.Ask? {
      InsertedKeepsDistinct(s.front.queues, Job(step.order, [s.now]), step.urgent);
    }
  }

  // ---------- the place of a request ----------

  function Place<O(==), S>(s: Sys<O, S>, order: O): nat {
    Find(Schedule(s.front.queues), order)
  }

  lemma {:induction false} NoJobNoRequest<O>(jobs: seq<Job<O>>, x: Ticket<O>)
    requires Find(jobs, x.order) == |jobs|
    ensures Bag(jobs)[x] == 0
  {
    if jobs != [] {
      NoJobNoRequest(jobs[1..], x);
      forall t | t in JobTickets(jobs[0])
        ensures t != x
      {
      }
    }
  }

  lemma QueuedHasPlace<O>(q: Queues<O>, x: Ticket<O>)
    requires Queued(q, x) > 0
    ensures Find(Schedule(q), x.order) < |Schedule(q)|
  {
    if Find(Schedule(q), x.order) == |Schedule(q)| {
      NoJobNoRequest(Schedule(q), x);
    }
  }

  lemma DropMovesUp<O>(jobs: seq<Job<O>>, n: nat, order: O)
    requires Distinct(jobs) && n <= |jobs| && Find(jobs[n..], order) < |jobs| - n
    ensures Find(jobs, order) == n + Find(jobs[n..], order)
  {
    FindIsFirst(jobs, order, n + Find(jobs[n..], order));
  }

  /** A request that was not taken with a batch is a full batch closer to the front. */
  lemma TakenMovesUp<O>(q: Queues<O>, size: nat, x: Ticket<O>)
    requires Distinct(Schedule(q)) && Queued(Taken(q, size).1, x) > 0
    ensures Queued(q, x) > 0
    ensures Find(Schedule(Taken(q, size).1), x.order) + size == Find(Schedule(q), x.order)
  {
    QueuedTaken(q, size, x);
    QueuedHasPlace(Taken(q, size).1, x);
    DropMovesUp(Schedule(q), Min(size, |Schedule(q)|), x.order);
  }

  /** A new request puts an older one back by one place at most. */
  lemma AskedMovesBackByOne<O>(q: Queues<O>, order: O, now: nat, urgent: bool, x: Ticket<O>)
    requires Distinct(Schedule(q)) && x.sender < now && Queued(Inserted(q, Job(order, [now]), urgent), x) > 0
    ensures Queued(q, x) > 0
    ensures Find(Schedule(Inserted(q, Job(order, [now]), urgent)), x.order) <= Find(Schedule(q), x.order) + 1
  {
    QueuedInserted(q, order, now, urgent, x);
    QueuedHasPlace(q, x);
    InsertedDelaysByOne(q, Job(order, [now]), urgent, x.order, x.order);
  }

  function PlacesWon<O, S>(cfg: Config, step: Step<O, S>): nat {
    if step.Take? then cfg.batchSize else 0
  }

  function PlacesLost<O, S>(step: Step<O, S>): nat {
    if step.Ask? then 1 else 0
  }

  lemma WaitStep<O, S>(cfg: Config, s: Sys<O, S>, step: Step<O, S>, x: Ticket<O>)
    requires Enabled(s, step) && Distinct(Schedule(s.front.queues)) && x.sender < s.now
    requires Queued(Do(cfg, s, step).front.queues, x) > 0
    ensures Queued(s.front.queues, x) > 0
    ensures Place(Do(cfg, s, step), x.order) + PlacesWon(cfg, step) <= Place(s, x.order) + PlacesLost(step)
  {
    StepQueues(cfg, s, step);
    match step {
      case Ask(order, urgent) => AskedMovesBackByOne(s.front.queues, order, s.now, urgent, x);
      case Take => TakenMovesUp(s.front.queues, cfg.batchSize, x);
      case _ =>
    }
  }

  function Takes<O, S>(steps: seq<Step<O, S>>): nat {
    if steps == [] then 0 else Takes(steps[..|steps| - 1]) + if steps[|steps| - 1].Take? then 1 else 0
  }

  function AllWon<O, S>(cfg: Config, steps: seq<Step<O, S>>): nat {
    if steps == [] then 0 else AllWon(cfg, steps[..|steps| - 1]) + PlacesWon(cfg, steps[|steps| - 1])
  }

  /** Every batch wins as many places as it is long. */
  lemma {:induction false} AllWonIsProduct<O, S>(cfg: Config, steps: seq<Step<O, S>>)
    ensures AllWon(cfg, steps) == Takes(steps) * cfg.batchSize
  {
    if steps != [] {
      AllWonIsProduct(cfg, steps[..|steps| - 1]);
    }
  }

  function Asks<O, S>(steps: seq<Step<O, S>>): nat {
    if steps == [] then 0 else Asks(steps[..|steps| - 1]) + if steps[|steps| - 1].Ask? then 1 else 0
  }

  lemma OneStep<O, S>(cfg: Config, s: Sys<O, S>, step: Step<O, S>)
    requires Enabled(s, step)
    ensures Do(cfg, s, step).now == s.now + 1
  {
  }

  lemma {:induction false} NowGrows<O, S>(cfg: Config, steps: seq<Step<O, S>>, more: seq<Step<O, S>>)
    requires Exec(cfg, steps + more).Some?
    ensures Exec(cfg, steps).Some? && Exec(cfg, steps).value.now <= Exec(cfg, steps + more).value.now
    decreases |more|
  {
    if more == [] {
      assert steps + more == steps;
    } else {
      var before := steps + more[..|more| - 1];
      assert (steps + more)[..|steps + more| - 1] == before;
      OneStep(cfg, Exec(cfg, before).value, more[|more| - 1]);
      NowGrows(cfg, steps, more[..|more| - 1]);
    }
  }

  lemma WaitOneMore<O, S>(cfg: Config, run: seq<Step<O, S>>, last: Step<O, S>, x: Ticket<O>)
    requires Exec(cfg, run + [last]).Some? && Exec(cfg, run).Some? && x.sender < Exec(cfg, run).value.now
    requires Queued(Exec(cfg, run + [last]).value.front.queues, x) > 0
    ensures Queued(Exec(cfg, run).value.front.queues, x) > 0
    ensures Place(Exec(cfg, run + [last]).value, x.order) + PlacesWon(cfg, last)
            <= Place(Exec(cfg, run).value, x.order) + PlacesLost(last)
  {
    assert (run + [last])[..|run|] == run;
    ReachableDistinct(cfg, run);
    WaitStep(cfg, Exec(cfg, run).value, last, x);
  }

  lemma LastOne<T>(steps: seq<T>, more: seq<T>)
    requires more != []
    ensures steps + more == (steps + more[..|more| - 1]) + [more[|more| - 1]]
  {
  }

  lemma ExecFront<O, S>(cfg: Config, run: seq<Step<O, S>>, last: Step<O, S>)
    requires Exec(cfg, run + [last]).Some?
    ensures Exec(cfg, run).Some?
  {
    assert (run + [last])[..|run|] == run;
  }

  /** As long as a request waits, whatever the interleaving: the place it has got to and what the batches
      since have won add up to no more than the place it had and the number of requests since. */
  lemma {:induction false} WaitingMovesUp<O, S>(cfg: Config, steps: seq<Step<O, S>>, more: seq<Step<O, S>>, x: Ticket<O>)
    requires Exec(cfg, steps).Some? && Exec(cfg, steps + more).Some? && x.sender < Exec(cfg, steps).value.now
    requires Queued(Exec(cfg, steps + more).value.front.queues, x) > 0
    ensures Queued(Exec(cfg, steps).value.front.queues, x) > 0
    ensures Place(Exec(cfg, steps + more).value, x.order) + AllWon(cfg, more)
            <= Place(Exec(cfg, steps).value, x.order) + Asks(more)
    decreases |more|
  {
    if more == [] {
      assert steps + more == steps;
    } else {
      var fewer, last := more[..|more| - 1], more[|more| - 1];
      var run := steps + fewer;
      LastOne(steps, more);
      ExecFront(cfg, run, last);
      NowGrows(cfg, steps, fewer);
      WaitOneMore(cfg, run, last, x);
      WaitingMovesUp(cfg, steps, fewer, x);
    }
  }

  /** So a request is in a call, or served, once the batches taken since hold more than its place and the
      number of requests since. */
  lemma WaitIsBounded<O, S>(cfg: Config, steps: seq<Step<O, S>>, more: seq<Step<O, S>>, x: Ticket<O>)
    requires cfg.batchSize > 0 && Exec(cfg, steps).Some? && Exec(cfg, steps + more).Some?
    requires x in Exec(cfg, steps).value.requested
    requires Takes(more) * cfg.batchSize > Place(Exec(cfg, steps).value, x.order) + Asks(more)
    ensures var s := Exec(cfg, steps + more).value;
            Queued(s.front.queues, x) == 0 && InFlight(s.calls, x) + Served(s.delivered, x) == s.requested[x]
  {
    Reachable(cfg, steps);
    ReachablePlaces(cfg, steps + more, x);
    if Queued(Exec(cfg, steps + more).value.front.queues, x) > 0 {
      WaitingMovesUp(cfg, steps, more, x);
      AllWonIsProduct(cfg, more);
    }
  }

  // ---------- urgent requests ----------

  /** The order waits among the urgent ones. */
  predicate IsUrgent<O(==), S>(s: Sys<O, S>, order: O) {
    Place(s, order) < |s.front.queues.priority|
  }

  lemma AskedLeavesUrgent<O>(q: Queues<O>, job: Job<O>, urgent: bool, x: O)
    requires Distinct(Schedule(q)) && Find(Schedule(q), x) < |q.priority|
    ensures Find(Schedule(Inserted(q, job, urgent)), x) == Find(Schedule(q), x)
    ensures |Inserted(q, job, urgent).priority| >= |q.priority|
  {
    PlaceAfter(q, job, urgent, x);
    InsertedQueues(q, job, urgent);
  }

  /** An urgent request makes its order urgent, wherever it waited before, ... */
  lemma UrgentRequestIsUrgent<O, S>(cfg: Config, s: Sys<O, S>, order: O)
    ensures IsUrgent(Do(cfg, s, Ask(order, true)), order)
  {
    var q := s.front.queues;
    var job := Job(order, [s.now]);
    var q' := Inserted(q, job, true);
    StepQueues(cfg, s, Ask(order, true));
    InsertedQueues(q, job, true);
    FindAtMost(Schedule(q'), order, Find(q'.priority, order));
  }

  /** ... and so it is after any step, unless it is taken. Only batches change its place. */
  lemma UrgentStep<O, S>(cfg: Config, s: Sys<O, S>, step: Step<O, S>, x: Ticket<O>)
    requires Enabled(s, step) && Distinct(Schedule(s.front.queues)) && x.sender < s.now && IsUrgent(s, x.order)
    requires Queued(Do(cfg, s, step).front.queues, x) > 0
    ensures IsUrgent(Do(cfg, s, step), x.order)
    ensures Place(Do(cfg, s, step), x.order) + PlacesWon(cfg, step) == Place(s, x.order)
  {
    StepQueues(cfg, s, step);
    match step {
      case Ask(order, urgent) => AskedLeavesUrgent(s.front.queues, Job(order, [s.now]), urgent, x.order);
      case Take =>
        TakenMovesUp(s.front.queues, cfg.batchSize, x);
        TakenKeepsQueues(s.front.queues, cfg.batchSize);
      case _ =>
    }
  }

  lemma UrgentOneMore<O, S>(cfg: Config, run: seq<Step<O, S>>, last: Step<O, S>, x: Ticket<O>)
    requires Exec(cfg, run + [last]).Some? && Exec(cfg, run).Some? && x.sender < Exec(cfg, run).value.now
    requires Queued(Exec(cfg, run + [last]).value.front.queues, x) > 0 && IsUrgent(Exec(cfg, run).value, x.order)
    ensures IsUrgent(Exec(cfg, run + [last]).value, x.order)
    ensures Place(Exec(cfg, run + [last]).value, x.order) + PlacesWon(cfg, last) == Place(Exec(cfg, run).value, x.order)
  {
    assert (run + [last])[..|run|] == run;
    ReachableDistinct(cfg, run);
    UrgentStep(cfg, Exec(cfg, run).value, last, x);
  }

  /** While an urgent request waits, every batch moves it up by a full batch, and nothing moves it back. */
  lemma {:induction false} UrgentMovesUp<O, S>(cfg: Config, steps: seq<Step<O, S>>, more: seq<Step<O, S>>, x: Ticket<O>)
    requires Exec(cfg, steps).Some? && Exec(cfg, steps + more).Some? && x.sender < Exec(cfg, steps).value.now
    requires Queued(Exec(cfg, steps + more).value.front.queues, x) > 0 && IsUrgent(Exec(cfg, steps).value, x.order)
    ensures IsUrgent(Exec(cfg, steps + more).value, x.order)
    ensures Place(Exec(cfg, steps + more).value, x.order) + AllWon(cfg, more) == Place(Exec(cfg, steps).value, x.order)
    decreases |more|
  {
    if more == [] {
      assert steps + more == steps;
    } else {
      var fewer, last := more[..|more| - 1], more[|more| - 1];
      var run := steps + fewer;
      LastOne(steps, more);
      ExecFront(cfg, run, last);
      NowGrows(cfg, steps, fewer);
      WaitOneMore(cfg, run, last, x);
      UrgentMovesUp(cfg, steps, fewer, x);
      UrgentOneMore(cfg, run, last, x);
    }
  }

  /** So an urgent request is in a call, or served, once the batches taken since hold more than its place,
      however many requests came in since. */
  lemma UrgentWaitIsBounded<O, S>(cfg: Config, steps: seq<Step<O, S>>, more: seq<Step<O, S>>, x: Ticket<O>)
    requires cfg.batchSize > 0 && Exec(cfg, steps).Some? && Exec(cfg, steps + more).Some?
    requires x in Exec(cfg, steps).value.requested && IsUrgent(Exec(cfg, steps).value, x.order)
    requires Takes(more) * cfg.batchSize > Place(Exec(cfg, steps).value, x.order)
    ensures var s := Exec(cfg, steps + more).value;
            Queued(s.front.queues, x) == 0 && InFlight(s.calls, x) + Served(s.delivered, x) == s.requested[x]
  {
    Reachable(cfg, steps);
    ReachablePlaces(cfg, steps + more, x);
    if Queued(Exec(cfg, steps + more).value.front.queues, x) > 0 {
      UrgentMovesUp(cfg, steps, more, x);
      AllWonIsProduct(cfg, more);
    }
  }

  // ---------- urgent requests first ----------

  /** The runner is about to take a batch, and order `a` waits in the normal queue. `n` others were
      served. */
  ghost predicate Starving<O, S>(s: Sys<O, S>, a: O, n: nat) {
    s.runner == Taking && s.permits == 0 && s.front.queues == Queues([], [Job(a, [0])]) && |s.delivered| == n
  }

  lemma OneMore<O, S>(cfg: Config, steps: seq<Step<O, S>>, s: Sys<O, S>, step: Step<O, S>) returns (more: seq<Step<O, S>>)
    requires Exec(cfg, steps) == Some(s) && Enabled(s, step)
    ensures Exec(cfg, more) == Some(Do(cfg, s, step))
  {
    more := steps + [step];
    assert more[..|steps|] == steps;
  }

  lemma UrgentComesFirst<O>(q: Queues<O>, a: O, b: O, m: nat)
    requires q == Queues([], [Job(a, [0])]) && a != b
    ensures Inserted(q, Job(b, [m]), true) == Queues([Job(b, [m])], [Job(a, [0])])
  {
  }

  lemma FirstIsTaken<O>(q: Queues<O>)
    requires |q.priority| == 1
    ensures Taken(q, 1).0 == q.priority && Taken(q, 1).1 == Queues([], q.queue)
  {
  }

  /** What a new request leaves alone. */
  lemma Unchanged<O, S>(cfg: Config, s: Sys<O, S>, step: Step<O, S>)
    requires Enabled(s, step)
    ensures var t := Do(cfg, s, step);
            step.Ask? ==> t.runner == s.runner && t.permits == s.permits && t.calls == s.calls && t.delivered == s.delivered
  {
  }

  /** An urgent request comes in ... */
  lemma UrgentIsAsked<O, S>(steps: seq<Step<O, S>>, s: Sys<O, S>, a: O, b: O, n: nat)
    returns (more: seq<Step<O, S>>, t: Sys<O, S>)
    requires Exec(Config(1, 1), steps) == Some(s) && Starving(s, a, n) && a != b
    ensures Exec(Config(1, 1), more) == Some(t)
    ensures t.front.queues == Queues([Job(b, [s.now])], [Job(a, [0])])
    ensures t.runner == Taking && t.permits == 0 && |t.delivered| == n
  {
    var cfg, step := Config(1, 1), Ask(b, true);
    more := OneMore(cfg, steps, s, step);
    t := Do(cfg, s, step);
    StepQueues(cfg, s, step);
    Unchanged(cfg, s, step);
    UrgentComesFirst(s.front.queues, a, b, s.now);
  }

  lemma OneTake<O, S>(cfg: Config, steps: seq<Step<O, S>>, s: Sys<O, S>) returns (more: seq<Step<O, S>>, t: Sys<O, S>)
    requires Exec(cfg, steps) == Some(s) && s.runner == Taking && Taken(s.front.queues, cfg.batchSize).0 != []
    ensures Exec(cfg, more) == Some(t)
    ensures t.front.queues == Taken(s.front.queues, cfg.batchSize).1 && t.runner == Acquiring
    ensures t.permits == s.permits && t.delivered == s.delivered
    ensures t.calls == s.calls + [Call(Taken(s.front.queues, cfg.batchSize).0, None, None, 0, false)]
  {
    more := OneMore(cfg, steps, s, Take);
    t := Do(cfg, s, Take);
  }

  /** ... and is taken at once. */
  lemma UrgentIsTaken<O, S>(steps: seq<Step<O, S>>, s: Sys<O, S>) returns (more: seq<Step<O, S>>, t: Sys<O, S>)
    requires Exec(Config(1, 1), steps) == Some(s) && s.runner == Taking && |s.front.queues.priority| == 1
    ensures Exec(Config(1, 1), more) == Some(t)
    ensures t.front.queues == Queues([], s.front.queues.queue) && t.runner == Acquiring
    ensures t.permits == s.permits && t.delivered == s.delivered
    ensures t.calls == s.calls + [Call(s.front.queues.priority, None, None, 0, false)]
  {
    FirstIsTaken(s.front.queues);
    more, t := OneTake(Config(1, 1), steps, s);
  }

  /** Its call goes out and comes back, ... */
  lemma UrgentIsCalled<O, S>(steps: seq<Step<O, S>>, s: Sys<O, S>, b: O, m: nat, state: S)
    returns (more: seq<Step<O, S>>, t: Sys<O, S>)
    requires Exec(Config(1, 1), steps) == Some(s) && s.runner == Acquiring
    requires s.calls != [] && s.calls[|s.calls| - 1] == Call([Job(b, [m])], None, None, 0, false)
    ensures Exec(Config(1, 1), more) == Some(t)
    ensures t.front == s.front && t.runner == Acquiring && t.permits == s.permits + 1 && t.delivered == s.delivered
    ensures |t.calls| == |s.calls| && t.calls[|s.calls| - 1].outcome == Some(Success([state]))
    ensures t.calls[|s.calls| - 1] == Call([Job(b, [m])], Some(s.now), Some(Success([state])), 0, false)
  {
    var cfg, c := Config(1, 1), |s.calls| - 1;
    var u := Do(cfg, s, Issue(c));
    more := OneMore(cfg, steps, s, Issue(c));
    more := OneMore(cfg, more, u, Return(c, Success([state])));
    t := Do(cfg, u, Return(c, Success([state])));
  }

  /** ... it is served, and the runner goes for the next batch. */
  lemma UrgentIsServed<O, S>(steps: seq<Step<O, S>>, s: Sys<O, S>, b: O, m: nat, state: S, n: nat)
    returns (more: seq<Step<O, S>>, t: Sys<O, S>)
    requires Exec(Config(1, 1), steps) == Some(s) && s.runner == Acquiring && s.permits == 1 && |s.delivered| == n
    requires s.calls != [] && !s.calls[|s.calls| - 1].done && s.calls[|s.calls| - 1].replied == 0
    requires s.calls[|s.calls| - 1].jobs == [Job(b, [m])] && s.calls[|s.calls| - 1].outcome == Some(Success([state]))
    ensures Exec(Config(1, 1), more) == Some(t)
    ensures t.front == s.front && t.runner == Taking && t.permits == 0 && |t.delivered| == n + 1
  {
    var cfg, c := Config(1, 1), |s.calls| - 1;
    assert Tickets([Job(b, [m])]) == [Ticket(m, b)];
    assert Replied([Job(b, [m])], Success([state])) == [Job(b, [m])];
    var u := Do(cfg, s, Reply(c));
    more := OneMore(cfg, steps, s, Reply(c));
    more := OneMore(cfg, more, u, Acquire);
    t := Do(cfg, u, Acquire);
  }

  lemma FirstWaits<O, S>(a: O) returns (steps: seq<Step<O, S>>, t: Sys<O, S>)
    ensures Exec(Config(1, 1), steps) == Some(t) && Starving(t, a, 0)
  {
    var cfg := Config(1, 1);
    var s0: Sys<O, S> := Init(cfg);
    steps := OneMore(cfg, [], s0, Ask(a, false));
    var s1 := Do(cfg, s0, Ask(a, false));
    steps := OneMore(cfg, steps, s1, Wake);
    var s2 := Do(cfg, s1, Wake);
    steps := OneMore(cfg, steps, s2, Acquire);
    t := Do(cfg, s2, Acquire);
  }

  lemma {:induction false} Starve<O, S>(a: O, b: O, state: S, n: nat) returns (steps: seq<Step<O, S>>, s: Sys<O, S>)
    requires a != b
    ensures Exec(Config(1, 1), steps) == Some(s) && Starving(s, a, n)
  {
    if n == 0 {
      steps, s := FirstWaits(a);
    } else {
      steps, s := Starve(a, b, state, n - 1);
      var m := s.now;
      steps, s := UrgentIsAsked(steps, s, a, b, n - 1);
      steps, s := UrgentIsTaken(steps, s);
      steps, s := UrgentIsCalled(steps, s, b, m, state);
      steps, s := UrgentIsServed(steps, s, b, m, state, n - 1);
    }
  }

  /** Without a bound on the requests since there is none on the wait: urgent requests can keep a normal
      one in the queue for any number of batches. */
  lemma UrgentRequestsStarveOthers<O, S>(a: O, b: O, state: S, n: nat)
    requires a != b
    ensures exists steps: seq<Step<O, S>> ::
              && Exec(Config(1, 1), steps).Some?
              && var s := Exec(Config(1, 1), steps).value;
                 |s.delivered| == n && Queued(s.front.queues, Ticket(0, a)) == 1
  {
    var steps: seq<Step<O, S>>, s := Starve(a, b, state, n);
    var jobs := [Job(a, [0])];
    assert Schedule(Queues([], jobs)) == jobs;
    BagOfOne(jobs[0]);
    assert JobTickets(jobs[0]) == [Ticket(0, a)];
  }
}
