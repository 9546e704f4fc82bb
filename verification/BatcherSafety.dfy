/** What holds in every state the batcher can reach, whatever the order of its steps. */
module BatcherSafety {
  import opened Wrappers
  import opened BatchQueue
  import opened BatcherSystem

  // ---------- permits ----------

  /** How many calls hold a permit. */
  function Holding<O, S>(calls: seq<Call<O, S>>): nat {
    if calls == [] then 0
    else Holding(calls[..|calls| - 1]) + if calls[|calls| - 1].outcome.None? then 1 else 0
  }

  lemma {:induction false} HoldingUpdate<O, S>(calls: seq<Call<O, S>>, i: nat, call: Call<O, S>)
    requires i < |calls|
    ensures Holding(calls[i := call]) - (if call.outcome.None? then 1 else 0)
            == Holding(calls) - if calls[i].outcome.None? then 1 else 0
  {
    var n := |calls| - 1;
    if i < n {
      HoldingUpdate(calls[..n], i, call);
      assert calls[i := call][..n] == calls[..n][i := call];
    } else {
      assert calls[i := call][..n] == calls[..n];
    }
  }

  ghost predicate PermitsInv<O, S>(cfg: Config, s: Sys<O, S>) {
    s.permits + (if s.runner.Taking? then 1 else 0) + Holding(s.calls) == cfg.concurrent
  }

  lemma PermitsStep<O, S>(cfg: Config, s: Sys<O, S>, step: Step<O, S>)
    requires Enabled(s, step) && PermitsInv(cfg, s)
    ensures PermitsInv(cfg, Do(cfg, s, step))
  {
    var s' := Do(cfg, s, step);
    match step {
      case Issue(c) => HoldingUpdate(s.calls, c, s'.calls[c]);
      case Return(c, _) => HoldingUpdate(s.calls, c, s'.calls[c]);
      case Reply(c) => HoldingUpdate(s.calls, c, s'.calls[c]);
      case Finish(c) => HoldingUpdate(s.calls, c, s'.calls[c]);
      case Take =>
        if s'.calls != s.calls {
          assert s'.calls[..|s.calls|] == s.calls;
        }
      case _ =>
    }
  }

  // ---------- wake-ups ----------

  /** Jobs that wait are waited for, by the runner when it is `awake` or by what will wake it. */
  ghost predicate Watched<O>(f: Front<O>, awake: bool) {
    && (f.queues.priority != [] ==> f.stored || f.shortTimers > 0 || awake)
    && (f.queues.queue != [] ==> f.stored || f.shortTimers > 0 || f.longTimers > 0 || awake)
  }

  ghost predicate WakeInv<O, S>(s: Sys<O, S>) {
    Watched(s.front, !s.runner.Waiting?)
  }

  lemma WakeStep<O, S>(cfg: Config, s: Sys<O, S>, step: Step<O, S>)
    requires cfg.batchSize > 0 && Enabled(s, step) && WakeInv(s)
    ensures WakeInv(Do(cfg, s, step))
  {
  }

  // ---------- calls ----------

  /** A call is only answered after it went out, its output is as long as its batch, and everyone in the
      batch asked before the call went out. */
  ghost predicate CallInv<O, S>(call: Call<O, S>, now: nat) {
    && (forall k | 0 <= k < |Tickets(call.jobs)| :: Tickets(call.jobs)[k].sender < now)
    && (call.issued.Some? ==>
          call.issued.value < now
          && forall k | 0 <= k < |Tickets(call.jobs)| :: Tickets(call.jobs)[k].sender < call.issued.value)
    && (call.outcome.Some? ==> call.issued.Some?)
    && (call.outcome.Some? && call.outcome.value.Success? ==> |call.outcome.value.value| == |call.jobs|)
    && call.replied <= |Tickets(call.jobs)|
    && (call.done ==> call.outcome.Some? && call.replied == |Tickets(call.jobs)|)
  }

  /** Everyone in the queues asked before `now`. */
  ghost predicate QueuedBefore<O>(q: Queues<O>, now: nat) {
    forall t | t in Bag(Schedule(q)) :: t.sender < now
  }

  ghost predicate AllCallInv<O, S>(calls: seq<Call<O, S>>, now: nat) {
    forall c | 0 <= c < |calls| :: CallInv(calls[c], now)
  }

  ghost predicate CallsInv<O, S>(s: Sys<O, S>) {
    QueuedBefore(s.front.queues, s.now) && AllCallInv(s.calls, s.now)
  }

  /** When the output is as long as the batch everyone gets a reply. */
  lemma AllReplied<O, S>(jobs: seq<Job<O>>, outcome: Result<seq<S>, BatchError>)
    requires outcome.Success? ==> |outcome.value| == |jobs|
    ensures Replied(jobs, outcome) == jobs
  {
  }

  lemma CallsLater<O, S>(calls: seq<Call<O, S>>, now: nat)
    requires AllCallInv(calls, now)
    ensures AllCallInv(calls, now + 1)
  {
  }

  lemma CallsUpdate<O, S>(calls: seq<Call<O, S>>, c: nat, call: Call<O, S>, now: nat)
    requires AllCallInv(calls, now) && c < |calls| && CallInv(call, now + 1)
    ensures AllCallInv(calls[c := call], now + 1)
  {
  }

  lemma CallsStep<O, S>(cfg: Config, s: Sys<O, S>, step: Step<O, S>)
    requires Enabled(s, step) && CallsInv(s)
    ensures CallsInv(Do(cfg, s, step))
  {
    QueuedStep(cfg, s, step);
    match step {
      case Take => CallsTake(cfg, s);
      case Issue(c) => ChangedCall(cfg, s, step, c);
      case Return(c, _) => ChangedCall(cfg, s, step, c);
      case Reply(c) => ChangedCall(cfg, s, step, c);
      case Finish(c) => ChangedCall(cfg, s, step, c);
      case _ => SameCalls(cfg, s, step);
    }
  }

  predicate TouchesCalls<O, S>(step: Step<O, S>) {
    step.Take? || step.Issue? || step.Return? || step.Reply? || step.Finish?
  }

  lemma SameCalls<O, S>(cfg: Config, s: Sys<O, S>, step: Step<O, S>)
    requires Enabled(s, step) && CallsInv(s) && !TouchesCalls(step)
    ensures AllCallInv(Do(cfg, s, step).calls, s.now + 1)
  {
  }

  lemma CallsGrow<O, S>(calls: seq<Call<O, S>>, batch: seq<Job<O>>, now: nat)
    requires AllCallInv(calls, now)
    requires forall k | 0 <= k < |Tickets(batch)| :: Tickets(batch)[k].sender < now
    ensures AllCallInv(calls + [Call(batch, None, None, 0, false)], now + 1)
  {
  }

  function CallsAfterTake<O, S>(calls: seq<Call<O, S>>, batch: seq<Job<O>>): seq<Call<O, S>> {
    if batch == [] then calls else calls + [Call(batch, None, None, 0, false)]
  }

  lemma TakeAddsCall<O, S>(cfg: Config, s: Sys<O, S>)
    requires s.runner.Taking?
    ensures Do(cfg, s, Take).calls == CallsAfterTake(s.calls, Taken(s.front.queues, cfg.batchSize).0)
  {
  }

  lemma CallsTake<O, S>(cfg: Config, s: Sys<O, S>)
    requires s.runner.Taking? && CallsInv(s)
    ensures AllCallInv(Do(cfg, s, Take).calls, s.now + 1)
  {
    var batch := Taken(s.front.queues, cfg.batchSize).0;
    TakeAddsCall(cfg, s);
    FreshBatch(s.front.queues, cfg.batchSize, s.now);
    CallsLater(s.calls, s.now);
    CallsGrow(s.calls, batch, s.now);
  }

  lemma ChangedCall<O, S>(cfg: Config, s: Sys<O, S>, step: Step<O, S>, c: nat)
    requires Enabled(s, step) && CallsInv(s)
    requires step == Issue(c) || step == Reply(c) || step == Finish(c) || (step.Return? && step.call == c)
    ensures c < |s.calls| && AllCallInv(Do(cfg, s, step).calls, s.now + 1)
  {
    var call := s.calls[c];
    assert CallInv(call, s.now);
    if call.outcome.Some? {
      AllReplied(call.jobs, call.outcome.value);
    }
    CallsUpdate(s.calls, c, Do(cfg, s, step).calls[c], s.now);
  }

  lemma FreshBatch<O>(q: Queues<O>, batchSize: nat, now: nat)
    requires QueuedBefore(q, now)
    ensures forall k | 0 <= k < |Tickets(Taken(q, batchSize).0)| :: Tickets(Taken(q, batchSize).0)[k].sender < now
  {
    var batch := Taken(q, batchSize).0;
    TakenKeepsBag(q, batchSize);
    BagOfTickets(batch);
    forall k | 0 <= k < |Tickets(batch)|
      ensures Tickets(batch)[k].sender < now
    {
      assert Tickets(batch)[k] in Bag(batch);
    }
  }

  lemma AskedJob<O>(order: O, now: nat)
    ensures JobTickets(Job(order, [now])) == [Ticket(now, order)]
  {
  }

  lemma AskedIsQueued<O>(q: Queues<O>, order: O, now: nat, urgent: bool)
    requires QueuedBefore(q, now)
    ensures QueuedBefore(Inserted(q, Job(order, [now]), urgent), now + 1)
  {
    AskedJob(order, now);
    QueuesBag(q);
    QueuesBag(Inserted(q, Job(order, [now]), urgent));
    InsertedKeepsBag(q, Job(order, [now]), urgent);
  }

  lemma RestIsQueued<O>(q: Queues<O>, batchSize: nat, now: nat)
    requires QueuedBefore(q, now)
    ensures QueuedBefore(Taken(q, batchSize).1, now)
  {
    TakenKeepsBag(q, batchSize);
  }

  /** What a step does to the queues. */
  function QueuesAfter<O(==), S>(cfg: Config, s: Sys<O, S>, step: Step<O, S>): Queues<O> {
    match step
    case Ask(order, urgent) => Inserted(s.front.queues, Job(order, [s.now]), urgent)
    case Take => Taken(s.front.queues, cfg.batchSize).1
    case _ => s.front.queues
  }

  lemma StepQueues<O, S>(cfg: Config, s: Sys<O, S>, step: Step<O, S>)
    requires Enabled(s, step)
    ensures Do(cfg, s, step).front.queues == QueuesAfter(cfg, s, step)
  {
    if step.Take? && Taken(s.front.queues, cfg.batchSize).0 == [] {
      assert Taken(s.front.queues, cfg.batchSize).1 == s.front.queues;
    }
  }

  lemma QueuedStep<O, S>(cfg: Config, s: Sys<O, S>, step: Step<O, S>)
    requires Enabled(s, step) && QueuedBefore(s.front.queues, s.now)
    ensures QueuedBefore(Do(cfg, s, step).front.queues, s.now + 1)
  {
    StepQueues(cfg, s, step);
    match step {
      case Ask(order, urgent) => AskedIsQueued(s.front.queues, order, s.now, urgent);
      case Take => RestIsQueued(s.front.queues, cfg.batchSize, s.now);
      case _ =>
    }
  }

  lemma QueuesBag<O>(q: Queues<O>)
    ensures Bag(Schedule(q)) == Bag(q.priority) + Bag(q.queue)
  {
    BagConcat(q.priority, q.queue);
  }

  // ---------- every requester is in one place ----------

  /** How often a call still has to reply to request `x`. */
  ghost function Owing<O, S>(call: Call<O, S>, x: Ticket<O>): nat {
    if call.done || call.replied > |Tickets(call.jobs)| then 0
    else multiset(Tickets(call.jobs)[call.replied..])[x]
  }

  ghost function InFlight<O, S>(calls: seq<Call<O, S>>, x: Ticket<O>): nat {
    if calls == [] then 0
    else InFlight(calls[..|calls| - 1], x) + Owing(calls[|calls| - 1], x)
  }

  lemma {:induction false} InFlightUpdate<O, S>(calls: seq<Call<O, S>>, i: nat, call: Call<O, S>, x: Ticket<O>)
    requires i < |calls|
    ensures InFlight(calls[i := call], x) + Owing(calls[i], x) == InFlight(calls, x) + Owing(call, x)
  {
    var n := |calls| - 1;
    if i < n {
      InFlightUpdate(calls[..n], i, call, x);
      assert calls[i := call][..n] == calls[..n][i := call];
    } else {
      assert calls[i := call][..n] == calls[..n];
    }
  }

  /** How many replies were sent to request `x`. */
  ghost function Served<O, S>(delivered: seq<Delivery<O, S>>, x: Ticket<O>): nat {
    if delivered == [] then 0
    else Served(delivered[..|delivered| - 1], x) + if delivered[|delivered| - 1].ticket == x then 1 else 0
  }

  ghost function Queued<O>(q: Queues<O>, x: Ticket<O>): nat {
    Bag(Schedule(q))[x]
  }

  /** Request `x`, if it was made, is queued, in flight, or served; it is not dropped. */
  ghost predicate PlacesInv<O, S>(s: Sys<O, S>, x: Ticket<O>) {
    && s.dropped[x] == 0
    && s.requested[x] == Queued(s.front.queues, x) + InFlight(s.calls, x) + Served(s.delivered, x)
  }

  lemma QueuedInserted<O>(q: Queues<O>, order: O, now: nat, urgent: bool, x: Ticket<O>)
    ensures Queued(Inserted(q, Job(order, [now]), urgent), x)
            == Queued(q, x) + if x == Ticket(now, order) then 1 else 0
  {
    var job := Job(order, [now]);
    AskedJob(order, now);
    QueuesBag(q);
    QueuesBag(Inserted(q, job, urgent));
    InsertedKeepsBag(q, job, urgent);
  }

  lemma OwingAll<O, S>(jobs: seq<Job<O>>, x: Ticket<O>)
    ensures Owing<O, S>(Call(jobs, None, None, 0, false), x) == Bag(jobs)[x]
  {
  }

  lemma InFlightTaken<O, S>(calls: seq<Call<O, S>>, jobs: seq<Job<O>>, x: Ticket<O>)
    ensures InFlight(calls + [Call(jobs, None, None, 0, false)], x) == InFlight(calls, x) + Bag(jobs)[x]
  {
    assert (calls + [Call(jobs, None, None, 0, false)])[..|calls|] == calls;
    OwingAll<O, S>(jobs, x);
  }

  lemma OwingAfterReply<O, S>(call: Call<O, S>, x: Ticket<O>)
    requires !call.done && call.replied < |Tickets(call.jobs)|
    ensures Owing(call, x) == Owing(call.(replied := call.replied + 1), x)
                              + if Tickets(call.jobs)[call.replied] == x then 1 else 0
  {
    var tickets, k := Tickets(call.jobs), call.replied;
    assert tickets[k..] == [tickets[k]] + tickets[k + 1..];
  }

  lemma ServedOneMore<O, S>(delivered: seq<Delivery<O, S>>, d: Delivery<O, S>, x: Ticket<O>)
    ensures Served(delivered + [d], x) == Served(delivered, x) + if d.ticket == x then 1 else 0
  {
  }

  lemma PlacesStep<O, S>(cfg: Config, s: Sys<O, S>, step: Step<O, S>, x: Ticket<O>)
    requires Enabled(s, step) && CallsInv(s) && PlacesInv(s, x)
    ensures PlacesInv(Do(cfg, s, step), x)
  {
    match step {
      case Ask(order, urgent) => PlacesAsk(cfg, s, order, urgent, x);
      case Take => PlacesTake(cfg, s, x);
      case Issue(c) => PlacesOutcome(cfg, s, step, c, x);
      case Return(c, _) => PlacesOutcome(cfg, s, step, c, x);
      case Reply(c) => PlacesReply(cfg, s, c, x);
      case Finish(c) => PlacesFinish(cfg, s, c, x);
      case _ =>
    }
  }

  lemma PlacesAsk<O, S>(cfg: Config, s: Sys<O, S>, order: O, urgent: bool, x: Ticket<O>)
    requires PlacesInv(s, x)
    ensures PlacesInv(Do(cfg, s, Ask(order, urgent)), x)
  {
    QueuedInserted(s.front.queues, order, s.now, urgent, x);
  }

  lemma PlacesOutcome<O, S>(cfg: Config, s: Sys<O, S>, step: Step<O, S>, c: nat, x: Ticket<O>)
    requires Enabled(s, step) && PlacesInv(s, x)
    requires step == Issue(c) || (step.Return? && step.call == c)
    ensures PlacesInv(Do(cfg, s, step), x)
  {
    InFlightUpdate(s.calls, c, Do(cfg, s, step).calls[c], x);
  }

  lemma QueuedTaken<O>(q: Queues<O>, batchSize: nat, x: Ticket<O>)
    ensures Queued(q, x) == Bag(Taken(q, batchSize).0)[x] + Queued(Taken(q, batchSize).1, x)
  {
    TakenKeepsBag(q, batchSize);
  }

  lemma PlacesTake<O, S>(cfg: Config, s: Sys<O, S>, x: Ticket<O>)
    requires s.runner.Taking? && PlacesInv(s, x)
    ensures PlacesInv(Do(cfg, s, Take), x)
  {
    var batch := Taken(s.front.queues, cfg.batchSize).0;
    if batch != [] {
      QueuedTaken(s.front.queues, cfg.batchSize, x);
      InFlightTaken(s.calls, batch, x);
    }
  }

  lemma PlacesReply<O, S>(cfg: Config, s: Sys<O, S>, c: nat, x: Ticket<O>)
    requires Enabled(s, Reply(c)) && CallsInv(s) && PlacesInv(s, x)
    ensures PlacesInv(Do(cfg, s, Reply(c)), x)
  {
    var s', call := Do(cfg, s, Reply(c)), s.calls[c];
    RepliedTickets(call.jobs, call.outcome.value);
    InFlightUpdate(s.calls, c, s'.calls[c], x);
    OwingAfterReply(call, x);
    ServedOneMore(s.delivered, s'.delivered[|s.delivered|], x);
  }

  lemma PlacesFinish<O, S>(cfg: Config, s: Sys<O, S>, c: nat, x: Ticket<O>)
    requires Enabled(s, Finish(c)) && CallsInv(s) && PlacesInv(s, x)
    ensures PlacesInv(Do(cfg, s, Finish(c)), x)
  {
    var s', call := Do(cfg, s, Finish(c)), s.calls[c];
    assert CallInv(call, s.now);
    AllReplied(call.jobs, call.outcome.value);
    InFlightUpdate(s.calls, c, s'.calls[c], x);
    assert Tickets(call.jobs)[call.replied..] == [];
  }

  // ---------- replies are right and fresh ----------

  /** The reply is what the call says about the order, and the call went out after the request. */
  ghost predicate RightReply<O, S>(call: Call<O, S>, ticket: Ticket<O>, reply: Result<S, BatchError>) {
    && call.issued.Some? && ticket.sender < call.issued.value
    && call.outcome.Some?
    && match call.outcome.value
       case Failure(e) => reply == Failure(e)
       case Success(states) =>
         exists i: nat ::
           && i < |call.jobs| && i < |states|
           && call.jobs[i].order == ticket.order && ticket.sender in call.jobs[i].senders
           && reply == Success(states[i])
  }

  ghost predicate AllRight<O, S>(calls: seq<Call<O, S>>, delivered: seq<Delivery<O, S>>) {
    forall d | 0 <= d < |delivered| ::
      && delivered[d].call < |calls|
      && RightReply(calls[delivered[d].call], delivered[d].ticket, delivered[d].reply)
  }

  ghost predicate RepliesInv<O, S>(s: Sys<O, S>) {
    AllRight(s.calls, s.delivered)
  }

  /** A change to a call that does not touch what was said. */
  ghost predicate SaysTheSame<O, S>(a: Call<O, S>, b: Call<O, S>) {
    a.outcome.Some? ==> b.jobs == a.jobs && b.issued == a.issued && b.outcome == a.outcome
  }

  lemma RightStaysRight<O, S>(calls: seq<Call<O, S>>, delivered: seq<Delivery<O, S>>, c: nat, call: Call<O, S>)
    requires AllRight(calls, delivered) && c < |calls| && SaysTheSame(calls[c], call)
    ensures AllRight(calls[c := call], delivered)
  {
  }

  lemma NewReply<O, S>(call: Call<O, S>, now: nat)
    requires CallInv(call, now) && call.outcome.Some?
    requires call.replied < |Tickets(Replied(call.jobs, call.outcome.value))|
    ensures call.replied < |Tickets(call.jobs)|
    ensures RightReply(call, Tickets(call.jobs)[call.replied], ReplyTo(call, call.replied))
  {
    RepliedTickets(call.jobs, call.outcome.value);
    if call.outcome.value.Success? {
      JobOfPrefix(call.jobs, Min(|call.jobs|, |call.outcome.value.value|), call.replied);
      var i := JobOf(call.jobs, call.replied);
      assert call.jobs[i].order == Tickets(call.jobs)[call.replied].order;
    }
  }

  lemma RepliesStep<O, S>(cfg: Config, s: Sys<O, S>, step: Step<O, S>)
    requires Enabled(s, step) && CallsInv(s) && RepliesInv(s)
    ensures RepliesInv(Do(cfg, s, step))
  {
    match step {
      case Issue(c) =>
        assert CallInv(s.calls[c], s.now);
        RightStaysRight(s.calls, s.delivered, c, Do(cfg, s, step).calls[c]);
      case Return(c, _) => RightStaysRight(s.calls, s.delivered, c, Do(cfg, s, step).calls[c]);
      case Reply(c) => RepliesReply(cfg, s, c);
      case Finish(c) => RightStaysRight(s.calls, s.delivered, c, Do(cfg, s, step).calls[c]);
      case _ =>
    }
  }

  lemma RepliesReply<O, S>(cfg: Config, s: Sys<O, S>, c: nat)
    requires Enabled(s, Reply(c)) && CallsInv(s) && RepliesInv(s)
    ensures RepliesInv(Do(cfg, s, Reply(c)))
  {
    var call, s' := s.calls[c], Do(cfg, s, Reply(c));
    assert CallInv(call, s.now);
    RightStaysRight(s.calls, s.delivered, c, s'.calls[c]);
    NewReply(call, s.now);
    assert RightReply(s'.calls[c], Tickets(call.jobs)[call.replied], ReplyTo(call, call.replied));
  }

  // ---------- requests are told apart ----------

  ghost predicate RequestsInv<O, S>(s: Sys<O, S>) {
    && (forall t | t in s.requested :: s.requested[t] == 1 && t.sender < s.now)
    && (forall t, u | t in s.requested && u in s.requested && t.sender == u.sender :: t == u)
  }

  lemma RequestsStep<O, S>(cfg: Config, s: Sys<O, S>, step: Step<O, S>)
    requires Enabled(s, step) && RequestsInv(s)
    ensures RequestsInv(Do(cfg, s, step))
  {
  }

  // ---------- every reachable state ----------

  ghost predicate Inv<O, S>(cfg: Config, s: Sys<O, S>) {
    PermitsInv(cfg, s) && WakeInv(s) && CallsInv(s) && RepliesInv(s) && RequestsInv(s)
  }

  lemma InvStep<O, S>(cfg: Config, s: Sys<O, S>, step: Step<O, S>)
    requires cfg.batchSize > 0 && Enabled(s, step) && Inv(cfg, s)
    ensures Inv(cfg, Do(cfg, s, step))
  {
    PermitsStep(cfg, s, step);
    WakeStep(cfg, s, step);
    CallsStep(cfg, s, step);
    RepliesStep(cfg, s, step);
    RequestsStep(cfg, s, step);
  }

  lemma {:induction false} Reachable<O, S>(cfg: Config, steps: seq<Step<O, S>>)
    requires cfg.batchSize > 0 && Exec(cfg, steps).Some?
    ensures Inv(cfg, Exec(cfg, steps).value)
  {
    if steps != [] {
      var front := steps[..|steps| - 1];
      Reachable(cfg, front);
      InvStep(cfg, Exec(cfg, front).value, steps[|steps| - 1]);
    }
  }

  lemma {:induction false} ReachablePlaces<O, S>(cfg: Config, steps: seq<Step<O, S>>, x: Ticket<O>)
    requires cfg.batchSize > 0 && Exec(cfg, steps).Some?
    ensures PlacesInv(Exec(cfg, steps).value, x)
  {
    if steps != [] {
      var front := steps[..|steps| - 1];
      Reachable(cfg, front);
      ReachablePlaces(cfg, front, x);
      PlacesStep(cfg, Exec(cfg, front).value, steps[|steps| - 1], x);
    }
  }
}
