/** The walk back from a new header towards the old tip: what holds while it goes on, and what it has
    found when it stops. */
module Walk {
  import opened Wrappers
  import opened BlockTree
  import opened WatcherLog

  function Reverse(s: seq<Header>): (r: seq<Header>)
    ensures |r| == |s|
    ensures forall i | 0 <= i < |s| :: r[i] == s[|s| - 1 - i]
  {
    seq(|s|, i requires 0 <= i < |s| => s[|s| - 1 - i])
  }

  /** The walk started at `start` and `latest`. It has rewound the old branch to `last` and collected
      `queue`, newest block first, from the new branch. The branches share nothing above `last`. */
  ghost predicate Walking(t: Tree, start: Header, latest: Header, last: Header, queue: seq<Header>) {
    && Consistent(t) && Known(t, start) && Known(t, latest) && start.number < latest.number
    && 0 < |queue| <= latest.number + 1
    && (forall k: nat | k < |queue| :: AncestorAt(t, latest, latest.number - k) == Some(queue[k]))
    && IsAncestor(t, last, start)
    && last.number < latest.number - (|queue| - 1)
    && (last != start ==> last.number + 1 == latest.number - (|queue| - 1))
    && (forall n: nat | last.number < n <= start.number :: !CommonAt(t, start, latest, n))
  }

  lemma WalkStarts(t: Tree, last: Header, latest: Header)
    requires Consistent(t) && Known(t, last) && Known(t, latest) && last.number < latest.number
    ensures Walking(t, last, latest, last, [latest])
  {
  }

  lemma EndOfQueue(t: Tree, start: Header, latest: Header, last: Header, queue: seq<Header>)
    requires Walking(t, start, latest, last, queue)
    ensures var end := queue[|queue| - 1];
            Known(t, end) && Known(t, last) && end.number == latest.number - (|queue| - 1)
  {
  }

  /** The gap is still open: only the new branch is followed. */
  lemma WalkBack(t: Tree, start: Header, latest: Header, last: Header, queue: seq<Header>)
    requires Walking(t, start, latest, last, queue)
    requires queue[|queue| - 1].number != last.number + 1
    requires queue[|queue| - 1].parent in t
    ensures Walking(t, start, latest, last, queue + [t[queue[|queue| - 1].parent]])
  {
    var end := queue[|queue| - 1];
    EndOfQueue(t, start, latest, last, queue);
    ParentOnBranch(t, latest, end.number);
  }

  /** The gap is closed but the branches differ: both are followed. */
  lemma WalkRewind(t: Tree, start: Header, latest: Header, last: Header, queue: seq<Header>)
    requires Walking(t, start, latest, last, queue)
    requires queue[|queue| - 1].number == last.number + 1 && queue[|queue| - 1].parent != last.hash
    requires queue[|queue| - 1].parent in t && last.parent in t
    ensures Walking(t, start, latest, t[last.parent], queue + [t[queue[|queue| - 1].parent]])
  {
    var end := queue[|queue| - 1];
    EndOfQueue(t, start, latest, last, queue);
    ParentOnBranch(t, latest, end.number);
    ParentOnBranch(t, start, last.number);
    assert !CommonAt(t, start, latest, last.number);
    assert t[last.parent].number == last.number - 1;
  }

  /** What one round of the walk does, in either case. */
  lemma WalkOn(t: Tree, start: Header, latest: Header, last: Header, queue: seq<Header>)
    requires Walking(t, start, latest, last, queue)
    requires var end := queue[|queue| - 1];
             && end.parent in t && !Follows(last, end) && (end.number == last.number + 1 ==> last.parent in t)
    ensures var end := queue[|queue| - 1];
            if end.number == last.number + 1
            then t[last.parent].number == last.number - 1 && Walking(t, start, latest, t[last.parent], queue + [t[end.parent]])
            else Walking(t, start, latest, last, queue + [t[end.parent]])
  {
    EndOfQueue(t, start, latest, last, queue);
    if queue[|queue| - 1].number == last.number + 1 {
      WalkRewind(t, start, latest, last, queue);
      ParentOnBranch(t, start, last.number);
    } else {
      WalkBack(t, start, latest, last, queue);
    }
  }

  /** The walk stops at the highest common ancestor, with exactly the blocks to send. */
  lemma WalkMeets(t: Tree, start: Header, latest: Header, last: Header, queue: seq<Header>)
    requires Walking(t, start, latest, last, queue) && |queue| <= MAX_REORG
    requires Follows(last, queue[|queue| - 1])
    ensures Accepts(t, start, latest) && Meet(t, start, latest) == Some(last)
    ensures |queue| == latest.number - last.number
    ensures Rewind(start, last) + Events(Reverse(queue)) == Batch(t, start, latest)
    ensures forall i: nat | i < |queue| :: Extends(last, Reverse(queue), i)
  {
    var end := queue[|queue| - 1];
    EndOfQueue(t, start, latest, last, queue);
    ParentOnBranch(t, latest, end.number);
    MeetIsUnique(t, start, latest, last);
    NewBranchExists(t, last, latest);
    var branch := Branch(t, latest, last.number + 1);
    forall i | 0 <= i < |queue|
      ensures Reverse(queue)[i] == branch[i]
    {
      BranchAt(t, latest, last.number + 1, i);
      assert AncestorAt(t, latest, latest.number - (|queue| - 1 - i)) == Some(queue[|queue| - 1 - i]);
    }
    assert Reverse(queue) == branch;
    BranchIsLinked(t, latest, last.number + 1);
  }

  /** When the queue is too long there is no common ancestor within reach. */
  lemma WalkOverflows(t: Tree, start: Header, latest: Header, last: Header, queue: seq<Header>)
    requires Walking(t, start, latest, last, queue) && |queue| > MAX_REORG
    ensures !Accepts(t, start, latest)
  {
    MeetIsHighest(t, start, latest);
    if Accepts(t, start, latest) {
      assert CommonAt(t, start, latest, Meet(t, start, latest).value.number);
    }
  }
}
