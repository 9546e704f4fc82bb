/** The two queues of order state requests. Requests for the same order share a job. */
module BatchQueue {
  import opened Wrappers

  // The reply channel of one request, named by the moment at which the request was made.
  type Sender = nat

  // `O` is the type of orders.
  datatype Job<O> = Job(order: O, senders: seq<Sender>)

  datatype Queues<O> = Queues(priority: seq<Job<O>>, queue: seq<Job<O>>)

  // One request that waits for its reply.
  datatype Ticket<O> = Ticket(sender: Sender, order: O)

  /** The order in which jobs will be taken. */
  function Schedule<O>(q: Queues<O>): seq<Job<O>> {
    q.priority + q.queue
  }

  /** The first job for an order, or the length of the list. */
  function Find<O(==)>(jobs: seq<Job<O>>, order: O): (i: nat)
    ensures i <= |jobs|
    ensures i < |jobs| ==> jobs[i].order == order
    ensures forall k | 0 <= k < i :: jobs[k].order != order
  {
    if jobs == [] || jobs[0].order == order then 0 else 1 + Find(jobs[1..], order)
  }

  function Merge<O>(jobs: seq<Job<O>>, i: nat, senders: seq<Sender>): seq<Job<O>>
    requires i < |jobs|
  {
    jobs[i := Job(jobs[i].order, jobs[i].senders + senders)]
  }

  function Inserted<O(==)>(q: Queues<O>, job: Job<O>, priority: bool): Queues<O> {
    var p, n := Find(q.priority, job.order), Find(q.queue, job.order);
    if p < |q.priority| then q.(priority := Merge(q.priority, p, job.senders))
    else if n < |q.queue| then
      var merged := Merge(q.queue, n, job.senders);
      if priority then Queues(q.priority + [merged[n]], merged[..n] + merged[n + 1..])
      else q.(queue := merged)
    else if priority then q.(priority := q.priority + [job])
    else q.(queue := q.queue + [job])
  }

  function Taken<O>(q: Queues<O>, size: nat): (r: (seq<Job<O>>, Queues<O>))
    ensures var n := Min(size, |Schedule(q)|);
            r.0 == Schedule(q)[..n] && Schedule(r.1) == Schedule(q)[n..]
  {
    var p := Min(|q.priority|, size);
    var n := Min(|q.queue|, size - p);
    (q.priority[..p] + q.queue[..n], Queues(q.priority[p..], q.queue[n..]))
  }

  class State<O(==)> {
    var priority: seq<Job<O>>
    var queue: seq<Job<O>>

    function Value(): Queues<O>
      reads this
    {
      Queues(priority, queue)
    }

    constructor ()
      ensures Value() == Queues([], [])
    {
      priority, queue := [], [];
    }

    method Len() returns (n: nat)
      ensures n == |Schedule(Value())|
    {
      n := |priority| + |queue|;
    }

    method TakeBatch(size: nat) returns (batch: seq<Job<O>>)
      modifies this
      ensures (batch, Value()) == Taken(old(Value()), size)
    {
      var num := Min(|priority|, size);
      batch := priority[..num];
      priority := priority[num..];
      num := Min(|queue|, size - |batch|);
      batch := batch + queue[..num];
      queue := queue[num..];
    }

    method Insert(job: Job<O>, urgent: bool)
      modifies this
      ensures Value() == Inserted(old(Value()), job, urgent)
    {
      var existing := Position(priority, job.order);
      if existing.Some? {
        var i := existing.value;
        priority := priority[i := priority[i].(senders := priority[i].senders + job.senders)];
      } else {
        existing := Position(queue, job.order);
        if existing.Some? {
          var i := existing.value;
          queue := queue[i := queue[i].(senders := queue[i].senders + job.senders)];
          if urgent {
            priority := priority + [queue[i]];
            queue := queue[..i] + queue[i + 1..];
          }
        } else if urgent {
          priority := priority + [job];
        } else {
          queue := queue + [job];
        }
      }
    }
  }

  lemma {:induction false} FindIsFirst<O>(jobs: seq<Job<O>>, order: O, i: nat)
    requires i <= |jobs| && (i < |jobs| ==> jobs[i].order == order)
    requires forall k | 0 <= k < i :: jobs[k].order != order
    ensures Find(jobs, order) == i
  {
  }

  method Position<O(==)>(jobs: seq<Job<O>>, order: O) returns (r: Option<nat>)
    ensures r == if Find(jobs, order) < |jobs| then Some(Find(jobs, order)) else None
  {
    for i := 0 to |jobs|
      invariant forall k | 0 <= k < i :: jobs[k].order != order
    {
      if jobs[i].order == order {
        FindIsFirst(jobs, order, i);
        return Some(i);
      }
    }
    FindIsFirst(jobs, order, |jobs|);
    r := None;
  }

  function OrdersOf<O>(jobs: seq<Job<O>>): (s: seq<O>)
    ensures |s| == |jobs|
    ensures forall i | 0 <= i < |jobs| :: s[i] == jobs[i].order
  {
    seq(|jobs|, i requires 0 <= i < |jobs| => jobs[i].order)
  }

  // ---------- requests are conserved ----------

  function JobTickets<O>(job: Job<O>): (t: seq<Ticket<O>>)
    ensures |t| == |job.senders|
  {
    seq(|job.senders|, i requires 0 <= i < |job.senders| => Ticket(job.senders[i], job.order))
  }

  /** The requests of a list of jobs, in the order in which they are replied to. */
  function Tickets<O>(jobs: seq<Job<O>>): seq<Ticket<O>> {
    if jobs == [] then [] else JobTickets(jobs[0]) + Tickets(jobs[1..])
  }

  /** The requests of a list of jobs, in no order. */
  ghost function Bag<O>(jobs: seq<Job<O>>): multiset<Ticket<O>> {
    if jobs == [] then multiset{} else multiset(JobTickets(jobs[0])) + Bag(jobs[1..])
  }

  lemma {:induction false} BagOfTickets<O>(jobs: seq<Job<O>>)
    ensures multiset(Tickets(jobs)) == Bag(jobs)
  {
    if jobs != [] {
      BagOfTickets(jobs[1..]);
    }
  }

  lemma {:induction false} BagConcat<O>(a: seq<Job<O>>, b: seq<Job<O>>)
    ensures Bag(a + b) == Bag(a) + Bag(b)
  {
    if a == [] {
      assert a + b == b;
    } else {
      assert (a + b)[1..] == a[1..] + b;
      BagConcat(a[1..], b);
    }
  }

  lemma {:induction false} BagSplit<O>(jobs: seq<Job<O>>, i: nat)
    requires i < |jobs|
    ensures Bag(jobs) == Bag(jobs[..i]) + multiset(JobTickets(jobs[i])) + Bag(jobs[i + 1..])
  {
    assert jobs == jobs[..i] + jobs[i..];
    BagConcat(jobs[..i], jobs[i..]);
    assert jobs[i..][1..] == jobs[i + 1..];
  }

  lemma JobTicketsConcat<O>(order: O, a: seq<Sender>, b: seq<Sender>)
    ensures JobTickets(Job(order, a + b)) == JobTickets(Job(order, a)) + JobTickets(Job(order, b))
  {
  }

  lemma {:induction false} MergeBag<O>(jobs: seq<Job<O>>, i: nat, senders: seq<Sender>)
    requires i < |jobs|
    ensures Bag(Merge(jobs, i, senders)) == Bag(jobs) + multiset(JobTickets(Job(jobs[i].order, senders)))
  {
    var merged := Merge(jobs, i, senders);
    BagSplit(jobs, i);
    BagSplit(merged, i);
    assert merged[..i] == jobs[..i] && merged[i + 1..] == jobs[i + 1..];
    JobTicketsConcat(jobs[i].order, jobs[i].senders, senders);
  }

  lemma BagOfOne<O>(job: Job<O>)
    ensures Bag([job]) == multiset(JobTickets(job))
  {
  }

  lemma MoveBag<O>(priority: seq<Job<O>>, queue: seq<Job<O>>, n: nat)
    requires n < |queue|
    ensures Bag(priority + [queue[n]]) + Bag(queue[..n] + queue[n + 1..]) == Bag(priority) + Bag(queue)
  {
    BagSplit(queue, n);
    BagConcat(priority, [queue[n]]);
    BagConcat(queue[..n], queue[n + 1..]);
    BagOfOne(queue[n]);
  }

  lemma AppendBag<O>(jobs: seq<Job<O>>, job: Job<O>)
    ensures Bag(jobs + [job]) == Bag(jobs) + multiset(JobTickets(job))
  {
    BagConcat(jobs, [job]);
    BagOfOne(job);
  }

  /** Inserting a job adds exactly its own requests to those that wait. */
  lemma InsertedKeepsBag<O>(q: Queues<O>, job: Job<O>, priority: bool)
    ensures Bag(Inserted(q, job, priority).priority) + Bag(Inserted(q, job, priority).queue)
            == Bag(q.priority) + Bag(q.queue) + multiset(JobTickets(job))
  {
    var p, n := Find(q.priority, job.order), Find(q.queue, job.order);
    if p < |q.priority| {
      MergeBag(q.priority, p, job.senders);
    } else if n < |q.queue| {
      MergeBag(q.queue, n, job.senders);
      MoveBag(q.priority, Merge(q.queue, n, job.senders), n);
    } else {
      AppendBag(q.priority, job);
      AppendBag(q.queue, job);
    }
  }

  lemma BagPrefix<O>(jobs: seq<Job<O>>, n: nat)
    requires n <= |jobs|
    ensures Bag(jobs) == Bag(jobs[..n]) + Bag(jobs[n..])
  {
    assert jobs == jobs[..n] + jobs[n..];
    BagConcat(jobs[..n], jobs[n..]);
  }

  /** A batch takes its requests out of those that wait. */
  lemma {:induction false} TakenKeepsBag<O>(q: Queues<O>, size: nat)
    ensures Bag(Schedule(q)) == Bag(Taken(q, size).0) + Bag(Schedule(Taken(q, size).1))
  {
    BagPrefix(Schedule(q), Min(size, |Schedule(q)|));
  }

  // ---------- the schedule ----------

  /** No order is in the list twice. */
  predicate Distinct<O(==)>(jobs: seq<Job<O>>) {
    forall i, j | 0 <= i < j < |jobs| :: jobs[i].order != jobs[j].order
  }

  /** Inserting a job puts it, merged with any job for the same order, at place `to`. It was at place
      `from`, or is new when `from` is the length of the schedule. */
  function Move<O(==)>(q: Queues<O>, job: Job<O>, priority: bool): (r: (nat, nat))
    ensures r.0 <= r.1 <= |Schedule(q)|
  {
    var p, n := Find(q.priority, job.order), Find(q.queue, job.order);
    if p < |q.priority| then (p, p)
    else (if priority then |q.priority| else |q.priority| + n, |q.priority| + n)
  }

  function NewPlace(to: nat, from: nat, k: nat): nat {
    if k == from then to else if to <= k < from then k + 1 else k
  }

  /** The jobs of the old schedule, in their new places. */
  lemma InsertedSchedule<O>(q: Queues<O>, job: Job<O>, priority: bool)
    ensures var (to, from), s, s' := Move(q, job, priority), Schedule(q), Schedule(Inserted(q, job, priority));
            && |s'| == (if from == |s| then |s| + 1 else |s|)
            && s'[to].order == job.order
            && (from == |s| ==> s'[to] == job && forall k | 0 <= k < |s| :: s[k].order != job.order)
            && (from < |s| ==> s[from].order == job.order && s'[to].senders == s[from].senders + job.senders)
            && (forall k: nat | k < |s| && k != from :: s'[NewPlace(to, from, k)] == s[k])
  {
  }

  lemma InsertedKeepsDistinct<O>(q: Queues<O>, job: Job<O>, priority: bool)
    requires Distinct(Schedule(q))
    ensures Distinct(Schedule(Inserted(q, job, priority)))
  {
    var (to, from) := Move(q, job, priority);
    var s, s' := Schedule(q), Schedule(Inserted(q, job, priority));
    InsertedSchedule(q, job, priority);
    forall i, j | 0 <= i < j < |s'|
      ensures s'[i].order != s'[j].order
    {
      var i', j' := OldPlace(to, from, i), OldPlace(to, from, j);
      assert NewPlace(to, from, i') == i && NewPlace(to, from, j') == j;
    }
  }

  function OldPlace(to: nat, from: nat, k: nat): nat
    requires to <= from
  {
    if k == to then from else if to < k <= from then k - 1 else k
  }

  lemma PlaceAfter<O>(q: Queues<O>, job: Job<O>, priority: bool, order: O)
    requires Distinct(Schedule(q)) && Find(Schedule(q), order) < |Schedule(q)|
    ensures Find(Schedule(Inserted(q, job, priority)), order)
            == NewPlace(Move(q, job, priority).0, Move(q, job, priority).1, Find(Schedule(q), order))
    ensures order == job.order <==> Find(Schedule(q), order) == Move(q, job, priority).1
  {
    var (to, from) := Move(q, job, priority);
    var s, s' := Schedule(q), Schedule(Inserted(q, job, priority));
    var k := Find(s, order);
    InsertedSchedule(q, job, priority);
    InsertedKeepsDistinct(q, job, priority);
    FindIsFirst(s', order, NewPlace(to, from, k));
  }

  /** What an insertion does to the schedule: no order overtakes another one, except that the inserted
      order may move forward; no other order is delayed by more than one place. */
  lemma InsertedDelaysByOne<O>(q: Queues<O>, job: Job<O>, priority: bool, x: O, y: O)
    requires var s := Schedule(q); Distinct(s) && Find(s, x) < |s| && Find(s, y) < |s|
    ensures var s, s' := Schedule(q), Schedule(Inserted(q, job, priority));
            && Find(s', x) < |s'|
            && (x == job.order ==> Find(s', x) <= Find(s, x))
            && (x != job.order ==> Find(s, x) <= Find(s', x) <= Find(s, x) + 1)
            && (x != job.order && y != job.order ==> (Find(s, x) < Find(s, y) <==> Find(s', x) < Find(s', y)))
  {
    InsertedSchedule(q, job, priority);
    PlaceAfter(q, job, priority, x);
    PlaceAfter(q, job, priority, y);
  }

  /** Which queue everything ends in. An urgent order ends in the priority queue, behind those that are
      there; an order that is not urgent changes the priority queue only by its senders. */
  lemma InsertedQueues<O>(q: Queues<O>, job: Job<O>, priority: bool)
    ensures var q', known := Inserted(q, job, priority), Find(q.priority, job.order) < |q.priority|;
            && OrdersOf(q'.priority) == OrdersOf(q.priority) + (if priority && !known then [job.order] else [])
            && (priority ==> Find(q'.priority, job.order) < |q'.priority|)
            && (!priority ==>
                  OrdersOf(q'.queue) == OrdersOf(q.queue)
                                        + if known || Find(q.queue, job.order) < |q.queue| then [] else [job.order])
  {
    var q' := Inserted(q, job, priority);
    if priority {
      var p := Move(q, job, priority).0;
      assert p < |q'.priority| && q'.priority[p].order == job.order;
      FindAtMost(q'.priority, job.order, p);
    }
  }

  lemma {:induction false} FindAtMost<O>(jobs: seq<Job<O>>, order: O, i: nat)
    requires i < |jobs| && jobs[i].order == order
    ensures Find(jobs, order) <= i
  {
  }

  /** Urgent jobs are never overtaken. */
  lemma UrgentKeepsItsPlace<O>(q: Queues<O>, job: Job<O>, priority: bool, x: O)
    requires Find(q.priority, x) < |q.priority|
    ensures Find(Inserted(q, job, priority).priority, x) == Find(q.priority, x)
  {
    InsertedQueues(q, job, priority);
    var before, after := OrdersOf(q.priority), OrdersOf(Inserted(q, job, priority).priority);
    assert after[..|before|] == before;
    forall k | 0 <= k <= Find(q.priority, x)
      ensures Inserted(q, job, priority).priority[k].order == q.priority[k].order
    {
      assert after[k] == before[k];
    }
    FindIsFirst(Inserted(q, job, priority).priority, x, Find(q.priority, x));
  }

  /** A batch takes normal jobs only when no urgent one is left, and what is left stays in its queue. */
  lemma TakenKeepsQueues<O>(q: Queues<O>, size: nat)
    ensures var (batch, rest) := Taken(q, size);
            if rest.priority != [] then |batch| == size && batch + rest.priority == q.priority && rest.queue == q.queue
            else q.priority <= batch && batch[|q.priority|..] + rest.queue == q.queue
  {
    var p := Min(|q.priority|, size);
    var n := Min(|q.queue|, size - p);
    Cut(q.priority, p);
    Cut(q.queue, n);
    assert q.priority[|q.priority|..] == [] && q.queue[0..] == q.queue;
    if p == |q.priority| {
      assert (q.priority + q.queue[..n])[p..] == q.queue[..n];
    }
  }

  lemma Cut<T>(s: seq<T>, n: nat)
    requires n <= |s|
    ensures s[..n] + s[n..] == s
  {
  }

  // ---------- draining ----------

  /** The batches that are taken one after the other until the queues are empty. */
  function Drain<O>(q: Queues<O>, size: nat): seq<seq<Job<O>>>
    requires size > 0
    decreases |Schedule(q)|
  {
    var (batch, rest) := Taken(q, size);
    if batch == [] then [] else [batch] + Drain(rest, size)
  }

  function Concat<O>(batches: seq<seq<Job<O>>>): seq<Job<O>> {
    if batches == [] then [] else batches[0] + Concat(batches[1..])
  }

  ghost predicate FullButLast<O>(batches: seq<seq<Job<O>>>, size: nat) {
    forall i | 0 <= i < |batches| ::
      0 < |batches[i]| <= size && (i < |batches| - 1 ==> |batches[i]| == size)
  }

  lemma TakenSizes<O>(q: Queues<O>, size: nat)
    ensures |Taken(q, size).0| == Min(size, |Schedule(q)|)
    ensures |Schedule(Taken(q, size).1)| == |Schedule(q)| - |Taken(q, size).0|
    ensures Schedule(q) == Taken(q, size).0 + Schedule(Taken(q, size).1)
  {
    Cut(Schedule(q), Min(size, |Schedule(q)|));
  }

  /** Draining takes every job once, in schedule order. */
  lemma {:induction false} DrainTakesTheSchedule<O>(q: Queues<O>, size: nat)
    requires size > 0
    ensures Concat(Drain(q, size)) == Schedule(q)
    decreases |Schedule(q)|
  {
    TakenSizes(q, size);
    var batch, rest := Taken(q, size).0, Taken(q, size).1;
    if batch != [] {
      DrainTakesTheSchedule(rest, size);
      assert ([batch] + Drain(rest, size))[1..] == Drain(rest, size);
    }
  }

  lemma FullInFront<O>(batch: seq<Job<O>>, others: seq<seq<Job<O>>>, size: nat)
    requires 0 < |batch| <= size && (others != [] ==> |batch| == size) && FullButLast(others, size)
    ensures FullButLast([batch] + others, size)
  {
  }

  /** Every batch but the last is full ... */
  lemma {:induction false} DrainFillsBatches<O>(q: Queues<O>, size: nat)
    requires size > 0
    ensures FullButLast(Drain(q, size), size)
    decreases |Schedule(q)|
  {
    TakenSizes(q, size);
    var batch, rest := Taken(q, size).0, Taken(q, size).1;
    if batch != [] {
      DrainFillsBatches(rest, size);
      DrainOfNothing(rest, size);
      FullInFront(batch, Drain(rest, size), size);
    }
  }

  lemma DrainOfNothing<O>(q: Queues<O>, size: nat)
    requires size > 0
    ensures Schedule(q) == [] ==> Drain(q, size) == []
  {
  }

  /** How many batches of this size `n` jobs need. */
  function BatchesFor(n: nat, size: nat): nat
    requires size > 0
  {
    if n == 0 then 0 else 1 + BatchesFor(n - Min(size, n), size)
  }

  lemma {:induction false} BatchesRoundUp(n: nat, size: nat)
    requires size > 0
    ensures BatchesFor(n, size) == (n + size - 1) / size
  {
    if n > size {
      BatchesRoundUp(n - size, size);
      assert n + size - 1 == (n - size + size - 1) + size;
      DivideOneMore(n - 1, size);
    } else if n > 0 {
      DivideOneMore(n - 1, size);
      assert (n - 1) / size == 0;
    } else {
      assert (size - 1) / size == 0;
    }
  }

  lemma DivideOneMore(n: nat, size: nat)
    requires size > 0
    ensures (n + size) / size == 1 + n / size
  {
    var a, b := (n + size) / size, 1 + n / size;
    assert (a - b) * size == n % size - (n + size) % size;
    assert (b - a) * size == -((a - b) * size);
    if a > b {
      AtLeastOne(a - b, size);
    } else if a < b {
      AtLeastOne(b - a, size);
    }
  }

  lemma AtLeastOne(n: nat, size: nat)
    requires n >= 1
    ensures n * size >= size
  {
  }

  /** ... so there are as many as the number of jobs divided by the batch size, rounded up. */
  lemma {:induction false} DrainCountsBatches<O>(q: Queues<O>, size: nat)
    requires size > 0
    ensures |Drain(q, size)| == BatchesFor(|Schedule(q)|, size)
    decreases |Schedule(q)|
  {
    TakenSizes(q, size);
    if Taken(q, size).0 != [] {
      DrainCountsBatches(Taken(q, size).1, size);
    }
  }
}
