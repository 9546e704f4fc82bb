/** The block watcher: it follows the tip of the chain over any number of connections and tells its
    subscribers about every block and every re-org. */
module Watcher {
  import opened Wrappers
  import opened BlockTree
  import opened WatcherLog
  import opened Walk

  // Maximum number of consecutive connections without progress.
  const MAX_TRIES: nat := 10

  datatype Error =
    | Web3Error | Timeout | EndOfStream | NotFound | NumberMissing | HashMissing
    | ReorgOverflow | InsaneParentHash | InsaneNumber

  predicate IsLookupError(e: Error) {
    e.Web3Error? || e.Timeout? || e.NotFound? || e.NumberMissing? || e.HashMissing?
  }

  /** A header as it comes in from the subscription: its number or hash may be missing. */
  datatype RawHeader = RawHeader(number: Option<nat>, hash: Option<Hash>, parent: Hash)

  function HeaderOf(raw: RawHeader): Header
    requires raw.number.Some? && raw.hash.Some?
  {
    Header(raw.hash.value, raw.parent, raw.number.value)
  }

  /** What the environment does during one connection. A failed connection and a failed lookup of the
      latest block are errors; the feed then delivers headers until it breaks. */
  datatype Connection = Connection(
    connected: Result<(), Error>,
    latest: Result<Header, Error>,
    feed: seq<Result<RawHeader, Error>>)

  /** The provider never shows a header that its own tree contradicts. */
  ghost predicate HonestFeed(t: Tree, feed: seq<Result<RawHeader, Error>>) {
    forall i | 0 <= i < |feed| :: HonestItem(t, feed[i])
  }

  ghost predicate HonestItem(t: Tree, item: Result<RawHeader, Error>) {
    item.Success? ==> HonestHeader(t, item.value)
  }

  ghost predicate HonestHeader(t: Tree, raw: RawHeader) {
    raw.number.Some? && raw.hash.Some? ==> Known(t, HeaderOf(raw))
  }

  ghost predicate Honest(t: Tree, c: Connection) {
    HonestFeed(t, c.feed) && (c.latest.Success? ==> Known(t, c.latest.value))
  }

  /** What one item of the feed makes the watcher do when every lookup is answered. */
  datatype Reaction = Stop(error: Error) | Skip | Accept(header: Header)

  ghost function React(t: Tree, last: Header, item: Result<RawHeader, Error>): Reaction
    requires Consistent(t) && Known(t, last) && HonestItem(t, item)
  {
    match item
    case Failure(e) => Stop(e)
    case Success(raw) =>
      if raw.number.None? then Stop(NumberMissing)
      else if raw.number.value <= last.number then Skip
      else if raw.hash.None? then Stop(HashMissing)
      else
        var header := HeaderOf(raw);
        if Accepts(t, last, header) then Accept(header) else Stop(ReorgOverflow)
  }

  /** What following a feed leads to when every lookup is answered: the tips that are accepted, and the
      error that ends it. */
  datatype Followed = Followed(tips: seq<Header>, error: Error)

  ghost function Follow(t: Tree, last: Header, feed: seq<Result<RawHeader, Error>>, i: nat): Followed
    requires Consistent(t) && Known(t, last) && HonestFeed(t, feed) && i <= |feed|
    decreases |feed| - i
  {
    if i == |feed| then Followed([], EndOfStream)
    else
      match React(t, last, feed[i])
      case Stop(e) => Followed([], e)
      case Skip => Follow(t, last, feed, i + 1)
      case Accept(header) =>
        var rest := Follow(t, header, feed, i + 1);
        Followed([header] + rest.tips, rest.error)
  }

  /** From `base` the feed has led to `tips` and ended with `e`: all the way if every lookup was answered,
      and part of it otherwise. */
  ghost predicate FedTo(all: Followed, base: seq<Header>, tips: seq<Header>, e: Error, answered: bool) {
    if answered then tips == base + all.tips && e == all.error
    else base <= tips <= base + all.tips && IsLookupError(e)
  }

  /** The effect of one item of the feed on the tips. */
  ghost predicate Reacted(r: Reaction, before: seq<Header>, after: seq<Header>, e: Option<Error>) {
    match r
    case Stop(error) => e == Some(error) && after == before
    case Skip => e == None && after == before
    case Accept(header) => e == None && after == before + [header]
  }

  /** Having gone from `base` to `tips`, with `i` items of the feed behind it, the watcher still is on the
      way to `all`. */
  ghost predicate OnCourse(t: Tree, feed: seq<Result<RawHeader, Error>>, all: Followed,
                           base: seq<Header>, tips: seq<Header>, i: nat) {
    && Consistent(t) && HonestFeed(t, feed) && i <= |feed|
    && base <= tips && tips != [] && Known(t, tips[|tips| - 1])
    && var rest := Follow(t, tips[|tips| - 1], feed, i);
       all.tips == tips[|base|..] + rest.tips && all.error == rest.error
  }

  lemma CourseEnds(t: Tree, feed: seq<Result<RawHeader, Error>>, all: Followed, base: seq<Header>, tips: seq<Header>)
    requires OnCourse(t, feed, all, base, tips, |feed|)
    ensures FedTo(all, base, tips, EndOfStream, true)
  {
  }

  /** One item of the feed, dealt with as `React` says, or given up for a lookup that was not answered. */
  ghost predicate Dealt(t: Tree, item: Result<RawHeader, Error>, before: seq<Header>, after: seq<Header>,
                        stop: Option<Error>, answered: bool)
    requires Consistent(t) && HonestItem(t, item) && before != [] && Known(t, before[|before| - 1])
  {
    if answered then Reacted(React(t, before[|before| - 1], item), before, after, stop)
    else after == before && stop.Some? && IsLookupError(stop.value) && NeedsLookup(before[|before| - 1], item)
  }

  /** The item is a new block that does not simply extend the tip. */
  predicate NeedsLookup(last: Header, item: Result<RawHeader, Error>) {
    && item.Success? && item.value.number.Some? && item.value.hash.Some?
    && last.number < item.value.number.value && !Follows(last, HeaderOf(item.value))
  }

  lemma CourseStep(t: Tree, feed: seq<Result<RawHeader, Error>>, all: Followed, base: seq<Header>,
                   before: seq<Header>, after: seq<Header>, i: nat, stop: Option<Error>, answered: bool)
    requires OnCourse(t, feed, all, base, before, i) && i < |feed|
    requires HonestItem(t, feed[i]) && Dealt(t, feed[i], before, after, stop, answered)
    ensures stop.None? ==> OnCourse(t, feed, all, base, after, i + 1)
    ensures stop.Some? ==> FedTo(all, base, after, stop.value, answered)
  {
  }

  // ---------- what a feed leads to, by the numbers in it ----------

  /** The first `n` items were dealt with and led from the tips `base` to `tips`: none of them is higher
      than the tip, and every new tip is one of them. */
  ghost predicate Passed(base: seq<Header>, feed: seq<Result<RawHeader, Error>>, n: nat, tips: seq<Header>) {
    && base != [] && base <= tips && n <= |feed|
    && base[|base| - 1].number <= tips[|tips| - 1].number
    && (forall j | 0 <= j < n ::
          feed[j].Success? && feed[j].value.number.Some? && feed[j].value.number.value <= tips[|tips| - 1].number)
    && (forall k | |base| <= k < |tips| ::
          exists j | 0 <= j < n :: feed[j].Success? && feed[j].value == RawHeader(Some(tips[k].number), Some(tips[k].hash), tips[k].parent))
  }

  /** Item `n` of the feed is the one that ended it, in the way `e` says, or the feed came to its end. */
  ghost predicate EndsAt(t: Tree, base: seq<Header>, feed: seq<Result<RawHeader, Error>>, n: nat,
                         tips: seq<Header>, e: Error, answered: bool) {
    && Passed(base, feed, n, tips) && Consistent(t) && HonestFeed(t, feed) && Known(t, tips[|tips| - 1])
    && if n == |feed| then answered && e == EndOfStream
       else if feed[n].Failure? then answered && e == feed[n].error
       else
         var raw, tip := feed[n].value, tips[|tips| - 1];
         if raw.number.None? then answered && e == NumberMissing
         else
           && tip.number < raw.number.value
           && if raw.hash.None? then answered && e == HashMissing
              else if answered then e == ReorgOverflow && HonestItem(t, feed[n]) && !Accepts(t, tip, HeaderOf(raw))
              else IsLookupError(e) && !Follows(tip, HeaderOf(raw))
  }

  ghost predicate Ended(t: Tree, base: seq<Header>, feed: seq<Result<RawHeader, Error>>,
                        tips: seq<Header>, e: Error, answered: bool) {
    exists n :: EndsAt(t, base, feed, n, tips, e, answered)
  }

  lemma PassedOn(t: Tree, base: seq<Header>, feed: seq<Result<RawHeader, Error>>, n: nat, before: seq<Header>,
                 after: seq<Header>)
    requires Passed(base, feed, n, before) && n < |feed| && Consistent(t) && HonestItem(t, feed[n])
    requires Known(t, before[|before| - 1]) && Dealt(t, feed[n], before, after, None, true)
    ensures Passed(base, feed, n + 1, after) && Known(t, after[|after| - 1])
  {
  }

  lemma PassedEnd(t: Tree, base: seq<Header>, feed: seq<Result<RawHeader, Error>>, n: nat, tips: seq<Header>,
                  after: seq<Header>, e: Error, answered: bool)
    requires Passed(base, feed, n, tips) && n < |feed| && Consistent(t) && HonestFeed(t, feed)
    requires Known(t, tips[|tips| - 1]) && HonestItem(t, feed[n])
    requires Dealt(t, feed[n], tips, after, Some(e), answered)
    ensures after == tips && Ended(t, base, feed, tips, e, answered)
  {
    assert EndsAt(t, base, feed, n, tips, e, answered);
  }

  /** One item of what `Follow` does. */
  lemma FollowOne(t: Tree, last: Header, feed: seq<Result<RawHeader, Error>>, i: nat, tips: seq<Header>)
    requires Consistent(t) && Known(t, last) && HonestFeed(t, feed) && i < |feed| && HonestItem(t, feed[i])
    requires tips != [] && tips[|tips| - 1] == last
    ensures match React(t, last, feed[i])
            case Stop(e) => Follow(t, last, feed, i) == Followed([], e)
            case Skip => Follow(t, last, feed, i) == Follow(t, last, feed, i + 1)
            case Accept(header) =>
              && Known(t, header)
              && Follow(t, last, feed, i).error == Follow(t, header, feed, i + 1).error
              && tips + Follow(t, last, feed, i).tips == (tips + [header]) + Follow(t, header, feed, i + 1).tips
  {
  }

  /** What `Follow` leads to: the highest block of the feed before the item that ends it. */
  lemma {:induction false} FollowEnds(t: Tree, base: seq<Header>, feed: seq<Result<RawHeader, Error>>,
                                      tips: seq<Header>, i: nat, whole: seq<Header>, e: Error)
    requires Passed(base, feed, i, tips) && Consistent(t) && HonestFeed(t, feed) && Known(t, tips[|tips| - 1])
    requires whole == tips + Follow(t, tips[|tips| - 1], feed, i).tips && e == Follow(t, tips[|tips| - 1], feed, i).error
    ensures Ended(t, base, feed, whole, e, true)
    decreases |feed| - i
  {
    if i == |feed| {
      assert whole == tips && EndsAt(t, base, feed, i, tips, e, true);
    } else {
      var last := tips[|tips| - 1];
      assert HonestItem(t, feed[i]);
      FollowOne(t, last, feed, i, tips);
      match React(t, last, feed[i])
      case Stop(_) =>
        assert whole == tips;
        PassedEnd(t, base, feed, i, tips, tips, e, true);
      case Skip =>
        PassedOn(t, base, feed, i, tips, tips);
        FollowEnds(t, base, feed, tips, i + 1, whole, e);
      case Accept(header) =>
        PassedOn(t, base, feed, i, tips, tips + [header]);
        FollowEnds(t, base, feed, tips + [header], i + 1, whole, e);
    }
  }

  /** After `i` items the watcher still is on its way ... */
  ghost predicate Going(t: Tree, feed: seq<Result<RawHeader, Error>>, base: seq<Header>, tips: seq<Header>, i: nat) {
    && base != [] && Consistent(t) && HonestFeed(t, feed) && Known(t, base[|base| - 1])
    && OnCourse(t, feed, Follow(t, base[|base| - 1], feed, 0), base, tips, i) && Passed(base, feed, i, tips)
  }

  /** ... or at the end of it. */
  ghost predicate Arrived(t: Tree, feed: seq<Result<RawHeader, Error>>, base: seq<Header>, tips: seq<Header>,
                          e: Error, answered: bool)
    requires base != [] && Consistent(t) && HonestFeed(t, feed) && Known(t, base[|base| - 1])
  {
    && FedTo(Follow(t, base[|base| - 1], feed, 0), base, tips, e, answered)
    && Ended(t, base, feed, tips, e, answered)
  }

  lemma StartGoing(t: Tree, feed: seq<Result<RawHeader, Error>>, base: seq<Header>)
    requires base != [] && Consistent(t) && HonestFeed(t, feed) && Known(t, base[|base| - 1])
    ensures Going(t, feed, base, base, 0)
  {
  }

  lemma KeepGoing(t: Tree, feed: seq<Result<RawHeader, Error>>, base: seq<Header>, before: seq<Header>,
                  after: seq<Header>, i: nat, stop: Option<Error>, answered: bool)
    requires Going(t, feed, base, before, i) && i < |feed|
    requires HonestItem(t, feed[i]) && Dealt(t, feed[i], before, after, stop, answered)
    ensures stop.None? ==> Going(t, feed, base, after, i + 1)
    ensures stop.Some? ==> Arrived(t, feed, base, after, stop.value, answered)
  {
    CourseStep(t, feed, Follow(t, base[|base| - 1], feed, 0), base, before, after, i, stop, answered);
    if stop.None? {
      PassedOn(t, base, feed, i, before, after);
    } else {
      PassedEnd(t, base, feed, i, before, after, stop.value, answered);
    }
  }

  lemma StopGoing(t: Tree, feed: seq<Result<RawHeader, Error>>, base: seq<Header>, tips: seq<Header>)
    requires Going(t, feed, base, tips, |feed|)
    ensures Arrived(t, feed, base, tips, EndOfStream, true)
  {
    CourseEnds(t, feed, Follow(t, base[|base| - 1], feed, 0), base, tips);
    assert EndsAt(t, base, feed, |feed|, tips, EndOfStream, true);
  }

  /** The chain put on top of `start` is broken at its `k`-th block, in the way the error says. */
  ghost predicate BreaksAt(start: Header, chain: seq<Header>, k: nat, e: Error)
    requires k < |chain|
  {
    var before := if k == 0 then start else chain[k - 1];
    && !Extends(start, chain, k)
    && e == if chain[k].number != before.number + 1 then InsaneNumber else InsaneParentHash
  }

  /** The run goes on with a tip that its last one accepts. */
  lemma RunGoesOn(t: Tree, tips: seq<Header>, tip: Header)
    requires IsRun(t, tips) && tips != [] && Known(t, tip)
    requires Accepts(t, tips[|tips| - 1], tip)
    ensures IsRun(t, tips + [tip])
    ensures Sent(t, tips + [tip]) == Sent(t, tips) + Batch(t, tips[|tips| - 1], tip)
  {
  }

  /** One connection leads from the tips `before` to the tips `after`, and ends with `e`. */
  ghost predicate Led(t: Tree, c: Connection, before: seq<Header>, after: seq<Header>, e: Error, answered: bool)
    requires IsRun(t, before) && Honest(t, c)
  {
    if c.connected.Failure? then after == before && e == c.connected.error
    else if before == [] && c.latest.Failure? then after == before && e == c.latest.error
    else
      var base := if before == [] then [c.latest.value] else before;
      Arrived(t, c.feed, base, after, e, answered)
  }

  ghost predicate Leads(t: Tree, c: Connection, before: seq<Header>, after: seq<Header>, e: Error)
    requires IsRun(t, before) && Honest(t, c)
  {
    exists answered :: Led(t, c, before, after, e, answered)
  }

  // The tips before the first connection, and after each one with the error that ended it.
  datatype Course = Course(tips: seq<seq<Header>>, errors: seq<Error>)

  /** `course` leads from `before` to `after`, connection by connection, and `progress` says which of
      them moved the tip. */
  ghost predicate IsCourse(t: Tree, course: Course, connections: seq<Connection>, progress: seq<bool>,
                           before: seq<Header>, after: seq<Header>)
  {
    && |course.tips| == |progress| + 1 <= |connections| + 1 && |course.errors| == |progress|
    && course.tips[0] == before && course.tips[|progress|] == after
    && (forall i | 0 <= i < |course.tips| :: IsRun(t, course.tips[i]))
    && forall i | 0 <= i < |progress| ::
         && Honest(t, connections[i])
         && Leads(t, connections[i], course.tips[i], course.tips[i + 1], course.errors[i])
         && (progress[i] <==> course.tips[i + 1] != course.tips[i])
  }

  /** In a run the tips only get higher. */
  lemma {:induction false} TipsClimb(t: Tree, tips: seq<Header>, n: nat)
    requires IsRun(t, tips) && 0 < n < |tips|
    ensures tips[n - 1].number < tips[|tips| - 1].number
  {
    var front := tips[..|tips| - 1];
    if n < |front| {
      TipsClimb(t, front, n);
    }
  }

  lemma TipMoves(t: Tree, before: seq<Header>, after: seq<Header>)
    requires IsRun(t, after) && before <= after
    ensures before != [] && before != after ==> before[|before| - 1] != after[|after| - 1]
  {
    if before != [] && before != after {
      TipsClimb(t, after, |before|);
    }
  }

  lemma CourseGrows(t: Tree, course: Course, connections: seq<Connection>, progress: seq<bool>,
                    before: seq<Header>, mid: seq<Header>, after: seq<Header>, e: Error)
    requires IsCourse(t, course, connections, progress, before, mid) && |progress| < |connections|
    requires IsRun(t, mid) && IsRun(t, after) && Honest(t, connections[|progress|])
    requires Leads(t, connections[|progress|], mid, after, e)
    ensures IsCourse(t, Course(course.tips + [after], course.errors + [e]), connections, progress + [after != mid], before, after)
  {
  }

  class Watcher {
    // What the provider knows. Nothing is assumed about it unless a contract says so.
    const tree: Tree

    var last: Option<Header>
    var sent: Log
    // Lookups by hash that were not answered.
    var failedLookups: nat
    // All lookups by hash.
    var lookups: nat
    // Every value `last` has had.
    ghost var tips: seq<Header>

    /** The watcher is in the state that a run over `tips` leaves behind. */
    ghost predicate Valid()
      reads this
    {
      && IsRun(tree, tips)
      && sent == Sent(tree, tips)
      && last == if tips == [] then None else Some(tips[|tips| - 1])
    }

    constructor (tree: Tree)
      ensures this.tree == tree && last == None && sent == [] && tips == []
      ensures Consistent(tree) ==> Valid()
    {
      this.tree := tree;
      last, sent, failedLookups, lookups, tips := None, [], 0, 0, [];
    }

    /** Looks a block up by its hash. The request may fail in any way. */
    method FetchHeader(hash: Hash) returns (r: Result<Header, Error>)
      modifies this`failedLookups, this`lookups
      ensures lookups == old(lookups) + 1
      ensures r.Success? ==> hash in tree && r.value == tree[hash] && failedLookups == old(failedLookups)
      ensures r.Failure? ==> IsLookupError(r.error) && failedLookups == old(failedLookups) + 1
    {
      var fault: Error := *;
      lookups := lookups + 1;
      if hash in tree && !IsLookupError(fault) {
        r := Success(tree[hash]);
      } else {
        failedLookups := failedLookups + 1;
        r := Failure(if IsLookupError(fault) then fault else NotFound);
      }
    }

    /** Sends queued headers, oldest (last in the queue) first, checking that each extends the one
        before. */
    method SendQueue(start: Header, queue: seq<Header>) returns (r: Result<(), Error>)
      modifies this`sent
      ensures r.Success? ==>
                && sent == old(sent) + Events(Reverse(queue))
                && forall i: nat | i < |queue| :: Extends(start, Reverse(queue), i)
      ensures r.Failure? ==>
                exists k: nat | k < |queue| && BreaksAt(start, Reverse(queue), k, r.error) ::
                  sent == old(sent) + Events(Reverse(queue)[..k])
    {
      var last := start;
      ghost var chain := Reverse(queue);
      for i := |queue| downto 0
        invariant var k := |queue| - i;
                  && sent == old(sent) + Events(chain[..k])
                  && last == (if k == 0 then start else chain[k - 1])
                  && forall j: nat | j < k :: Extends(start, chain, j)
      {
        var header := queue[i];
        ghost var k := |queue| - 1 - i;
        assert header == chain[k];
        assert Extends(start, chain, k) <==> Follows(last, header);
        if header.number != last.number + 1 {
          assert BreaksAt(start, chain, k, InsaneNumber);
          return Failure(InsaneNumber);
        }
        if header.parent != last.hash {
          assert BreaksAt(start, chain, k, InsaneParentHash);
          return Failure(InsaneParentHash);
        }
        last := header;
        sent := sent + [Event(header)];
        assert chain[..k + 1] == chain[..k] + [header];
      }
      assert chain[..|queue|] == chain;
      r := Success(());
    }

    ghost predicate Sound(start: Header, latest: Header) {
      Consistent(tree) && Known(tree, start) && Known(tree, latest) && start.number < latest.number
    }

    /** Sends a new block with everything a subscriber needs to get to it from `start`. */
    method SendWithReorgs(start: Header, latest: Header) returns (r: Result<(), Error>)
      modifies this`sent, this`failedLookups, this`lookups
      ensures failedLookups >= old(failedLookups)
      ensures r.Success? ==> failedLookups == old(failedLookups)
      // With a consistent provider a batch is sent completely or not at all, ...
      ensures Sound(start, latest) ==>
                if r.Success? then Accepts(tree, start, latest) && sent == old(sent) + Batch(tree, start, latest)
                else sent == old(sent)
      // ... only an unanswered lookup or a re-org that is too deep stops it, ...
      ensures Sound(start, latest) && r.Failure? ==>
                if failedLookups == old(failedLookups) then r.error == ReorgOverflow else IsLookupError(r.error)
      // ... and too deep means that the highest common ancestor is out of reach.
      ensures Sound(start, latest) && failedLookups == old(failedLookups) ==> (r.Success? <==> Accepts(tree, start, latest))
      // Only the missing blocks of the new branch and the way back on the old one are looked up; ...
      ensures Sound(start, latest) && r.Success? ==>
                var m := Meet(tree, start, latest).value;
                lookups == old(lookups) + (latest.number - m.number - 1) + (start.number - m.number)
      // ... nothing for a block that extends the tip, whatever the provider is like.
      ensures Follows(start, latest) ==> r.Success? && lookups == old(lookups) && sent == old(sent) + [Event(latest)]
    {
      ghost var sound := Sound(start, latest);
      var last := start;
      var queue := [latest];
      var rewound := 0;
      if sound {
        WalkStarts(tree, start, latest);
      }
      while true
        invariant 0 < |queue| <= MAX_REORG + 1
        invariant sent == old(sent) && failedLookups == old(failedLookups)
        invariant sound ==> Walking(tree, start, latest, last, queue)
        invariant sound ==> rewound == start.number - last.number
        invariant lookups == old(lookups) + (|queue| - 1) + rewound
        invariant Follows(start, latest) ==> last == start && queue == [latest] && rewound == 0
        decreases MAX_REORG + 1 - |queue|
      {
        if |queue| > MAX_REORG {
          if sound {
            WalkOverflows(tree, start, latest, last, queue);
          }
          return Failure(ReorgOverflow);
        }
        var end := queue[|queue| - 1];
        ghost var rewindFrom := last;
        if end.number == last.number + 1 {
          if end.parent == last.hash {
            break;
          }
          rewound := rewound + 1;
          var previous := FetchHeader(last.parent);
          if previous.Failure? {
            return Failure(previous.error);
          }
          last := previous.value;
        }
        var parent := FetchHeader(end.parent);
        if parent.Failure? {
          return Failure(parent.error);
        }
        if sound {
          WalkOn(tree, start, latest, rewindFrom, queue);
        }
        queue := queue + [parent.value];
      }
      if sound {
        WalkMeets(tree, start, latest, last, queue);
      }
      if rewound > 0 {
        sent := sent + [Reorg(last.number + 1)];
      }
      assert sound ==> sent == old(sent) + Rewind(start, last);
      r := SendQueue(last, queue);
    }

    /** Deals with one item of the feed. `None` means that the loop goes on. */
    method Receive(item: Result<RawHeader, Error>) returns (e: Option<Error>)
      requires last.Some?
      modifies this
      ensures last.Some? && failedLookups >= old(failedLookups)
      ensures e.None? ==> failedLookups == old(failedLookups)
      ensures old(Valid()) && HonestItem(tree, item) ==>
                && Valid()
                && Dealt(tree, item, old(tips), tips, e, failedLookups == old(failedLookups))
    {
      ghost var sound := Valid() && HonestItem(tree, item);
      if item.Failure? {
        return Some(item.error);
      }
      var raw := item.value;
      if raw.number.None? {
        return Some(NumberMissing);
      }
      if last.value.number >= raw.number.value {
        // Not on the longest known chain.
        return None;
      }
      if raw.hash.None? {
        return Some(HashMissing);
      }
      var header := Header(raw.hash.value, raw.parent, raw.number.value);
      var result := SendWithReorgs(last.value, header);
      if result.Failure? {
        return Some(result.error);
      }
      if sound {
        RunGoesOn(tree, tips, header);
      }
      last := Some(header);
      tips := tips + [header];
      e := None;
    }

    /** Follows the feed of one connection until it breaks. The loop is only left with an error. */
    method FetchLoop(feed: seq<Result<RawHeader, Error>>) returns (e: Error)
      requires last.Some?
      modifies this
      ensures last.Some? && failedLookups >= old(failedLookups)
      // The accepted tips are those the feed leads to, up to the first unanswered lookup: it ends at the
      // first item it must end at, with the highest block before it as its tip.
      ensures old(Valid()) && HonestFeed(tree, feed) ==>
                && Valid()
                && Arrived(tree, feed, old(tips), tips, e, failedLookups == old(failedLookups))
    {
      ghost var sound, base := Valid() && HonestFeed(tree, feed), tips;
      if sound {
        StartGoing(tree, feed, base);
      }
      for i := 0 to |feed|
        invariant last.Some? && failedLookups == old(failedLookups)
        invariant sound ==> Valid() && Going(tree, feed, base, tips, i)
      {
        ghost var before := tips;
        var stop := Receive(feed[i]);
        if sound {
          KeepGoing(tree, feed, base, before, tips, i, stop, failedLookups == old(failedLookups));
        }
        if stop.Some? {
          return stop.value;
        }
      }
      if sound {
        StopGoing(tree, feed, base, tips);
      }
      return EndOfStream;
    }

    /** Sends the first block of all. */
    method SendFirst(latest: Header)
      requires last.None?
      modifies this
      ensures last == Some(latest) && tips == old(tips) + [latest] && failedLookups == old(failedLookups)
      ensures old(Valid()) && Known(tree, latest) ==> Valid()
    {
      assert [latest][..0] == [];
      sent := sent + [Event(latest)];
      last := Some(latest);
      tips := tips + [latest];
    }

    /** One connection, from connecting to its failure. */
    method RunOnce(c: Connection) returns (e: Error)
      modifies this
      ensures failedLookups >= old(failedLookups)
      ensures old(Valid()) && Honest(tree, c) ==>
                && Valid()
                && Led(tree, c, old(tips), tips, e, failedLookups == old(failedLookups))
                && (last != old(last) <==> tips != old(tips))
      // Nothing happens without a connection, or without a first block.
      ensures c.connected.Failure? ==> unchanged(this) && e == c.connected.error
      ensures c.connected.Success? && old(last).None? && c.latest.Failure? ==> unchanged(this) && e == c.latest.error
    {
      if c.connected.Failure? {
        return c.connected.error;
      }
      if last.None? {
        if c.latest.Failure? {
          return c.latest.error;
        }
        SendFirst(c.latest.value);
      }
      e := FetchLoop(c.feed);
      if old(Valid()) && Honest(tree, c) {
        TipMoves(tree, old(tips), tips);
      }
    }

    /** Connects again and again. `progress` says of each connection whether it moved the tip. The
        method stops when the watcher gives up, or when it has seen all the connections given. */
    method Run(connections: seq<Connection>) returns (progress: seq<bool>, gaveUp: Option<Error>, ghost course: Course)
      modifies this
      ensures old(Valid()) && (forall i | 0 <= i < |connections| :: Honest(tree, connections[i]))
              ==> Valid() && IsCourse(tree, course, connections, progress, old(tips), tips)
      ensures GaveUpAtOnce(progress, gaveUp.Some?)
      // The error it gives up with is that of the last connection.
      ensures |course.errors| == |progress| <= |connections|
      ensures gaveUp.Some? ==> progress != [] && gaveUp.value == course.errors[|progress| - 1]
      ensures gaveUp.None? ==> |progress| == |connections|
    {
      ghost var sound := Valid() && forall i | 0 <= i < |connections| :: Honest(tree, connections[i]);
      var retries := 0;
      progress, course := [], Course([tips], []);
      for i := 0 to |connections|
        invariant sound ==> Valid() && IsCourse(tree, course, connections, progress, old(tips), tips)
        invariant |progress| == |course.errors| == i
        invariant GaveUpAtOnce(progress, false)
        invariant retries == Retries(progress)
      {
        var first := last;
        var e := RunOnce(connections[i]);
        if sound {
          CourseGrows(tree, course, connections, progress, old(tips), course.tips[i], tips, e);
        }
        TryAgain(progress, last != first);
        progress, course := progress + [last != first], Course(course.tips + [tips], course.errors + [e]);
        if last != first {
          retries := 0;
        }
        if retries > MAX_TRIES {
          return progress, Some(e), course;
        }
        retries := retries + 1;
      }
      gaveUp := None;
    }
  }

  // ---------- giving up ----------

  /** How many connections at the end of the list made no progress. */
  function Stalled(progress: seq<bool>): (n: nat)
    ensures n <= |progress|
  {
    if progress == [] || progress[|progress| - 1] then 0
    else 1 + Stalled(progress[..|progress| - 1])
  }

  /** The retry counter after these connections. */
  function Retries(progress: seq<bool>): nat {
    if Stalled(progress) == |progress| then |progress| else Stalled(progress) + 1
  }

  /** Too many connections in a row without progress. The connection that last made progress counts as
      the first try. */
  predicate TooManyTries(progress: seq<bool>) {
    Stalled(progress) > 0 && Retries(progress) > MAX_TRIES + 1
  }

  /** The watcher gives up as soon as there were too many tries, and not before. */
  ghost predicate GaveUpAtOnce(progress: seq<bool>, gaveUp: bool) {
    && (forall k | 0 <= k < |progress| :: !TooManyTries(progress[..k]))
    && (TooManyTries(progress) <==> gaveUp)
  }

  lemma TryAgain(progress: seq<bool>, moved: bool)
    requires GaveUpAtOnce(progress, false)
    ensures GaveUpAtOnce(progress + [moved], TooManyTries(progress + [moved]))
    ensures Retries(progress + [moved]) == (if moved then 0 else Retries(progress)) + 1
  {
    var now := progress + [moved];
    assert now[..|progress|] == progress;
    assert forall k | 0 <= k < |progress| :: now[..k] == progress[..k];
  }

  /** A stall as long as `k` shows in the count. */
  lemma {:induction false} StallIsCounted(progress: seq<bool>, k: nat)
    requires k <= |progress| && forall i | |progress| - k <= i < |progress| :: !progress[i]
    ensures Stalled(progress) >= k
  {
    if k > 0 {
      StallIsCounted(progress[..|progress| - 1], k - 1);
    }
  }

  lemma {:induction false} StallIsReal(progress: seq<bool>)
    ensures forall i | |progress| - Stalled(progress) <= i < |progress| :: !progress[i]
    ensures Stalled(progress) < |progress| ==> progress[|progress| - Stalled(progress) - 1]
  {
    if progress != [] && !progress[|progress| - 1] {
      StallIsReal(progress[..|progress| - 1]);
    }
  }

  /** When the watcher gives up, exactly `MAX_TRIES + 1` connections in a row made no progress since the
      last one that did, or `MAX_TRIES + 2` if none ever did; as long as it goes on there were fewer. */
  lemma GivesUpAfterExactlySo(progress: seq<bool>, gaveUp: bool)
    requires GaveUpAtOnce(progress, gaveUp)
    ensures gaveUp ==> Stalled(progress) == if Stalled(progress) == |progress| then MAX_TRIES + 2 else MAX_TRIES + 1
    ensures !gaveUp ==> Stalled(progress) <= if Stalled(progress) == |progress| then MAX_TRIES + 1 else MAX_TRIES
  {
  }

  /** No more than `MAX_TRIES + 2` connections in a row fail to make progress. */
  lemma StallsAreShort(progress: seq<bool>, gaveUp: bool, i: nat, k: nat)
    requires GaveUpAtOnce(progress, gaveUp)
    requires i + k <= |progress| && forall j | i <= j < i + k :: !progress[j]
    ensures k <= MAX_TRIES + 2
  {
    var part := progress[..i + k];
    StallIsCounted(part, k);
    if i + k == |progress| {
      assert part == progress;
      GivesUpAfterExactlySo(progress, gaveUp);
    } else {
      assert !TooManyTries(part);
    }
  }
}
