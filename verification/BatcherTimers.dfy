/** When the batcher is woken at once, and when a cork timer is set. */
module BatcherTimers {
  import opened Wrappers
  import opened BatchQueue
  import opened BatcherSystem
  import opened BatcherSafety
  import opened BatcherWaiting

  // ---------- full batches ----------

  /** A full batch does not wait for a timer. */
  ghost predicate FullInv<O, S>(cfg: Config, s: Sys<O, S>) {
    |Schedule(s.front.queues)| >= cfg.batchSize ==> s.front.stored || !s.runner.Waiting?
  }

  lemma EnqueuedIsNotified<O>(f: Front<O>, job: Job<O>, urgent: bool, batchSize: nat, awake: bool)
    requires |Schedule(f.queues)| >= batchSize ==> f.stored || awake
    ensures var g := Enqueue(f, job, urgent, batchSize);
            |Schedule(g.queues)| >= batchSize ==> g.stored || awake
  {
    InsertedSchedule(f.queues, job, urgent);
  }

  lemma FullStep<O, S>(cfg: Config, s: Sys<O, S>, step: Step<O, S>)
    requires cfg.batchSize > 0 && Enabled(s, step) && FullInv(cfg, s)
    ensures FullInv(cfg, Do(cfg, s, step))
  {
    match step {
      case Ask(order, urgent) =>
        EnqueuedIsNotified(s.front, Job(order, [s.now]), urgent, cfg.batchSize, !s.runner.Waiting?);
      case Take => TakenSizes(s.front.queues, cfg.batchSize);
      case _ =>
    }
  }

  /** In every interleaving: as soon as the queues hold a full batch, a notification is stored or the
      runner is awake; no timer has to end first. */
  lemma {:induction false} FullBatchesDoNotWait<O, S>(cfg: Config, steps: seq<Step<O, S>>)
    requires cfg.batchSize > 0 && Exec(cfg, steps).Some?
    ensures FullInv(cfg, Exec(cfg, steps).value)
  {
    if steps != [] {
      var front := steps[..|steps| - 1];
      FullBatchesDoNotWait(cfg, front);
      FullStep(cfg, Exec(cfg, front).value, steps[|steps| - 1]);
    }
  }

  // ---------- timers ----------

  /** How many requests of one kind were made. */
  function AsksOf<O, S>(steps: seq<Step<O, S>>, urgent: bool): nat {
    if steps == [] then 0
    else AsksOf(steps[..|steps| - 1], urgent)
         + if steps[|steps| - 1].Ask? && steps[|steps| - 1].urgent == urgent then 1 else 0
  }

  /** Short timers are for urgent requests and long ones for normal requests, and a short one is only set
      when the first urgent job comes after a batch. */
  ghost predicate TimersInv<O, S>(s: Sys<O, S>, steps: seq<Step<O, S>>) {
    && s.front.shortTimers <= AsksOf(steps, true)
    && s.front.longTimers <= AsksOf(steps, false)
    && s.front.shortTimers + (if s.front.queues.priority == [] then 1 else 0) <= 1 + Takes(steps)
  }

  /** A request sets a timer when its queue was empty, and notifies when it completes a batch. */
  lemma EnqueuedSetsOneTimer<O>(f: Front<O>, job: Job<O>, urgent: bool, batchSize: nat)
    ensures var g := Enqueue(f, job, urgent, batchSize);
            && g.shortTimers - f.shortTimers == (if urgent && f.queues.priority == [] && |Schedule(g.queues)| != batchSize then 1 else 0)
            && g.longTimers - f.longTimers == (if !urgent && f.queues.queue == [] && |Schedule(g.queues)| != batchSize then 1 else 0)
            && (urgent || f.queues.priority != [] ==> g.queues.priority != [])
            && (g.stored <==> f.stored || |Schedule(g.queues)| == batchSize)
  {
  }

  lemma TimersStep<O, S>(cfg: Config, s: Sys<O, S>, steps: seq<Step<O, S>>, step: Step<O, S>)
    requires Enabled(s, step) && TimersInv(s, steps)
    ensures TimersInv(Do(cfg, s, step), steps + [step])
  {
    assert (steps + [step])[..|steps|] == steps;
    if step.Ask? {
      EnqueuedSetsOneTimer(s.front, Job(step.order, [s.now]), step.urgent, cfg.batchSize);
    }
  }

  /** In every interleaving there are no more timers than that. */
  lemma {:induction false} TimersAreFew<O, S>(cfg: Config, steps: seq<Step<O, S>>)
    requires Exec(cfg, steps).Some?
    ensures TimersInv(Exec(cfg, steps).value, steps)
  {
    if steps != [] {
      var front, last := steps[..|steps| - 1], steps[|steps| - 1];
      TimersAreFew(cfg, front);
      TimersStep(cfg, Exec(cfg, front).value, front, last);
      assert steps == front + [last];
    }
  }
}
