/** The batcher as a whole: requesters, cork timers, the runner, the calls in flight and the replies,
    as atomic steps that may come in any order. */
module BatcherSystem {
  import opened Wrappers
  import opened BatchQueue

  datatype BatchError = Web3Error(message: string) | InvalidOutputLength

  datatype Config = Config(batchSize: nat, concurrent: nat)

  // ---------- inserting ----------

  /** What a requester touches: the queues, the stored notification, and the timers that will notify. */
  datatype Front<O> = Front(queues: Queues<O>, stored: bool, shortTimers: nat, longTimers: nat)

  function Enqueue<O(==)>(f: Front<O>, job: Job<O>, urgent: bool, batchSize: nat): Front<O> {
    var first := if urgent then f.queues.priority == [] else f.queues.queue == [];
    var g := f.(queues := Inserted(f.queues, job, urgent));
    if |Schedule(g.queues)| == batchSize then g.(stored := true)
    else if !first then g
    else if urgent then g.(shortTimers := g.shortTimers + 1)
    else g.(longTimers := g.longTimers + 1)
  }

  class Batcher<O(==)> {
    const state: State<O>
    const batchSize: nat
    var stored: bool
    var shortTimers: nat
    var longTimers: nat

    function Value(): Front<O>
      reads this, state
    {
      Front(state.Value(), stored, shortTimers, longTimers)
    }

    constructor (batchSize: nat)
      ensures fresh(state) && this.batchSize == batchSize
      ensures Value() == Front(Queues([], []), false, 0, 0)
    {
      state := new State();
      this.batchSize := batchSize;
      stored, shortTimers, longTimers := false, 0, 0;
    }

    method Insert(job: Job<O>, urgent: bool)
      modifies this, state
      ensures Value() == Enqueue(old(Value()), job, urgent, batchSize)
    {
      var notify := if urgent then state.priority == [] else state.queue == [];
      state.Insert(job, urgent);
      var len := state.Len();
      if len == batchSize {
        stored := true;
      } else if notify {
        if urgent {
          shortTimers := shortTimers + 1;
        } else {
          longTimers := longTimers + 1;
        }
      }
    }
  }

  // ---------- the state ----------

  datatype Runner = Waiting | Acquiring | Taking

  /** A batch that was taken. `issued` is the moment its call went out, `outcome` what came of it. */
  datatype Call<O, S> = Call(
    jobs: seq<Job<O>>, issued: Option<nat>, outcome: Option<Result<seq<S>, BatchError>>, replied: nat, done: bool)

  datatype Delivery<O, S> = Delivery(ticket: Ticket<O>, reply: Result<S, BatchError>, call: nat)

  datatype Sys<O(==), S> = Sys(
    now: nat, front: Front<O>, runner: Runner, permits: nat, calls: seq<Call<O, S>>,
    delivered: seq<Delivery<O, S>>, dropped: multiset<Ticket<O>>, requested: multiset<Ticket<O>>)

  function Init<O(==), S>(cfg: Config): Sys<O, S> {
    Sys(0, Front(Queues([], []), false, 0, 0), Waiting, cfg.concurrent, [], [], multiset{}, multiset{})
  }

  // ---------- the steps ----------

  datatype Step<O, S> =
    | Ask(order: O, urgent: bool)                       // a requester inserts its job
    | ShortTimer                                        // a cork ends and notifies
    | LongTimer
    | Wake                                              // the runner receives the notification
    | Acquire                                           // ... gets a permit
    | Take                                              // ... and takes a batch
    | Issue(call: nat)                                  // the call of a batch goes out
    | Return(call: nat, raw: Result<seq<S>, string>)    // it returns, and gives its permit back
    | Reply(call: nat)                                  // one requester gets its reply
    | Finish(call: nat)                                 // all replies are out

  /** The result of a call for `n` orders, after the length of the output is checked. */
  function FetchResult<S>(n: nat, raw: Result<seq<S>, string>): (r: Result<seq<S>, BatchError>)
    ensures r.Success? <==> raw.Success? && |raw.value| == n
    ensures r.Success? ==> r.value == raw.value
    ensures raw.Failure? <==> r.Failure? && r.error.Web3Error?
    ensures raw.Failure? ==> r.error.message == raw.error
  {
    match raw
    case Failure(message) => Failure(Web3Error(message))
    case Success(states) => if |states| != n then Failure(InvalidOutputLength) else Success(states)
  }

  /** The jobs whose requesters get a reply: those that are paired with a state, or all on error. */
  function Replied<O, S>(jobs: seq<Job<O>>, outcome: Result<seq<S>, BatchError>): seq<Job<O>> {
    match outcome
    case Failure(_) => jobs
    case Success(states) => jobs[..Min(|jobs|, |states|)]
  }

  lemma {:induction false} TicketsPrefix<O>(jobs: seq<Job<O>>, n: nat)
    requires n <= |jobs|
    ensures Tickets(jobs[..n]) <= Tickets(jobs)
  {
    if n > 0 {
      TicketsPrefix(jobs[1..], n - 1);
      assert jobs[..n][1..] == jobs[1..][..n - 1];
      assert JobTickets(jobs[0]) + Tickets(jobs[1..][..n - 1]) <= JobTickets(jobs[0]) + Tickets(jobs[1..]);
    }
  }

  /** The job that the `k`-th request of a batch belongs to. */
  function JobOf<O>(jobs: seq<Job<O>>, k: nat): (i: nat)
    requires k < |Tickets(jobs)|
    ensures i < |jobs| && Tickets(jobs)[k].order == jobs[i].order && Tickets(jobs)[k].sender in jobs[i].senders
  {
    var n := |jobs[0].senders|;
    if k < n then
      assert Tickets(jobs)[k] == JobTickets(jobs[0])[k];
      0
    else
      assert Tickets(jobs)[k] == Tickets(jobs[1..])[k - n];
      1 + JobOf(jobs[1..], k - n)
  }

  lemma {:induction false} JobOfPrefix<O>(jobs: seq<Job<O>>, n: nat, k: nat)
    requires n <= |jobs| && k < |Tickets(jobs[..n])|
    ensures k < |Tickets(jobs)| && JobOf(jobs, k) < n
  {
    TicketsPrefix(jobs, n);
    var first := |jobs[0].senders|;
    if k >= first {
      assert jobs[..n][1..] == jobs[1..][..n - 1];
      JobOfPrefix(jobs[1..], n - 1, k - first);
    }
  }

  predicate Enabled<O(==), S>(s: Sys<O, S>, step: Step<O, S>) {
    match step
    case Ask(_, _) => true
    case ShortTimer => s.front.shortTimers > 0
    case LongTimer => s.front.longTimers > 0
    case Wake => s.runner.Waiting? && s.front.stored
    case Acquire => s.runner.Acquiring? && s.permits > 0
    case Take => s.runner.Taking?
    case Issue(c) => c < |s.calls| && s.calls[c].issued.None?
    case Return(c, _) => c < |s.calls| && s.calls[c].issued.Some? && s.calls[c].outcome.None?
    case Reply(c) =>
      && c < |s.calls| && s.calls[c].outcome.Some? && !s.calls[c].done
      && s.calls[c].replied < |Tickets(Replied(s.calls[c].jobs, s.calls[c].outcome.value))|
    case Finish(c) =>
      && c < |s.calls| && s.calls[c].outcome.Some? && !s.calls[c].done
      && s.calls[c].replied == |Tickets(Replied(s.calls[c].jobs, s.calls[c].outcome.value))|
  }

  function ReplyTo<O, S>(call: Call<O, S>, k: nat): Result<S, BatchError>
    requires call.outcome.Some? && k < |Tickets(Replied(call.jobs, call.outcome.value))|
  {
    match call.outcome.value
    case Failure(e) => Failure(e)
    case Success(states) =>
      JobOfPrefix(call.jobs, Min(|call.jobs|, |states|), k);
      Success(states[JobOf(call.jobs, k)])
  }

  lemma RepliedTickets<O, S>(jobs: seq<Job<O>>, outcome: Result<seq<S>, BatchError>)
    ensures Tickets(Replied(jobs, outcome)) <= Tickets(jobs)
  {
    if outcome.Success? {
      TicketsPrefix(jobs, Min(|jobs|, |outcome.value|));
    }
  }

  function Do<O(==), S>(cfg: Config, s: Sys<O, S>, step: Step<O, S>): Sys<O, S>
    requires Enabled(s, step)
  {
    var s := s.(now := s.now + 1);
    match step
    case Ask(order, urgent) =>
      // The new requester is named by the moment it asks.
      var job := Job(order, [s.now - 1]);
      s.(front := Enqueue(s.front, job, urgent, cfg.batchSize),
         requested := s.requested + multiset{Ticket(s.now - 1, order)})
    case ShortTimer => s.(front := s.front.(shortTimers := s.front.shortTimers - 1, stored := true))
    case LongTimer => s.(front := s.front.(longTimers := s.front.longTimers - 1, stored := true))
    case Wake => s.(runner := Acquiring, front := s.front.(stored := false))
    case Acquire => s.(runner := Taking, permits := s.permits - 1)
    case Take =>
      var (batch, rest) := Taken(s.front.queues, cfg.batchSize);
      if batch == [] then s.(runner := Waiting, permits := s.permits + 1)
      else s.(runner := Acquiring,
              front := s.front.(queues := rest),
              calls := s.calls + [Call(batch, None, None, 0, false)])
    case Issue(c) => s.(calls := s.calls[c := s.calls[c].(issued := Some(s.now - 1))])
    case Return(c, raw) =>
      s.(permits := s.permits + 1,
         calls := s.calls[c := s.calls[c].(outcome := Some(FetchResult(|s.calls[c].jobs|, raw)))])
    case Reply(c) =>
      var call := s.calls[c];
      RepliedTickets(call.jobs, call.outcome.value);
      s.(calls := s.calls[c := call.(replied := call.replied + 1)],
         delivered := s.delivered + [Delivery(Tickets(call.jobs)[call.replied], ReplyTo(call, call.replied), c)])
    case Finish(c) =>
      // The senders that are left go out of scope, and with them the channel.
      var call := s.calls[c];
      RepliedTickets(call.jobs, call.outcome.value);
      s.(calls := s.calls[c := call.(done := true)],
         dropped := s.dropped + multiset(Tickets(call.jobs)[call.replied..]))
  }

  /** The state after a list of steps, if each was possible when it came. */
  function Exec<O(==), S>(cfg: Config, steps: seq<Step<O, S>>): Option<Sys<O, S>> {
    if steps == [] then Some(Init(cfg))
    else
      match Exec(cfg, steps[..|steps| - 1])
      case None => None
      case Some(s) => if Enabled(s, steps[|steps| - 1]) then Some(Do(cfg, s, steps[|steps| - 1])) else None
  }
}
