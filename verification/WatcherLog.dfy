/** What a subscriber of the block watcher sees: the stream of events, its replay, and the stream that
    a run over a given sequence of accepted tips produces. */
module WatcherLog {
  import opened Wrappers
  import opened BlockTree

  // A new block may be at most this far above the branching point.
  const MAX_REORG: nat := 10

  /** Either an event, or the news that everything at `blockHeight` and above is void. */
  datatype Reorgable<+T> = Event(value: T) | Reorg(blockHeight: nat)

  type Log = seq<Reorgable<Header>>

  // ---------- the subscriber ----------

  /** The blocks of `chain` below height `k`. */
  function Below(chain: seq<Header>, k: int): seq<Header> {
    if chain == [] then []
    else Below(chain[..|chain| - 1], k)
         + if chain[|chain| - 1].number < k then [chain[|chain| - 1]] else []
  }

  function Apply(chain: seq<Header>, e: Reorgable<Header>): seq<Header> {
    match e
    case Event(b) => chain + [b]
    case Reorg(k) => Below(chain, k)
  }

  /** A subscriber appends events and drops what a re-org voids. */
  function Replay(log: Log): seq<Header> {
    if log == [] then [] else Apply(Replay(log[..|log| - 1]), log[|log| - 1])
  }

  function Events(chain: seq<Header>): (log: Log)
    ensures |log| == |chain|
    ensures forall i | 0 <= i < |chain| :: log[i] == Event(chain[i])
  {
    seq(|chain|, i requires 0 <= i < |chain| => Event(chain[i]))
  }

  /** The lowest height an event changes in the replay. */
  function Touched(e: Reorgable<Header>): nat {
    match e
    case Event(b) => b.number
    case Reorg(k) => k
  }

  // ---------- the run ----------

  /** The watcher may move its tip from `last` to `latest`. */
  ghost predicate Accepts(t: Tree, last: Header, latest: Header)
    requires Consistent(t) && Known(t, last) && Known(t, latest)
  {
    && last.number < latest.number
    && Meet(t, last, latest).Some?
    && latest.number - Meet(t, last, latest).value.number <= MAX_REORG
  }

  /** The re-org event, if the meeting point is not the old tip itself. */
  function Rewind(last: Header, m: Header): Log {
    if m == last then [] else [Reorg(m.number + 1)]
  }

  /** What is sent when the tip moves: a re-org event if blocks were rewound, then the new blocks. */
  ghost function Batch(t: Tree, last: Header, latest: Header): Log
    requires Consistent(t) && Known(t, last) && Known(t, latest) && Meet(t, last, latest).Some?
  {
    MeetIsHighest(t, last, latest);
    var m := Meet(t, last, latest).value;
    NewBranchExists(t, m, latest);
    Rewind(last, m) + Events(Branch(t, latest, m.number + 1))
  }

  lemma NewBranchExists(t: Tree, m: Header, b: Header)
    requires Consistent(t) && Known(t, b) && IsAncestor(t, m, b)
    ensures m.number + 1 <= b.number ==> AncestorAt(t, b, m.number + 1).Some?
  {
    if m.number + 1 <= b.number {
      BranchHasNoGaps(t, b, m.number, m.number + 1);
    }
  }

  /** A run, given by the tips it accepted one after the other. */
  ghost predicate IsRun(t: Tree, tips: seq<Header>) {
    && Consistent(t)
    && (tips != [] ==> Known(t, tips[|tips| - 1]) && IsRun(t, tips[..|tips| - 1]))
    && (|tips| > 1 ==> Known(t, tips[|tips| - 2]) && Accepts(t, tips[|tips| - 2], tips[|tips| - 1]))
  }

  /** Everything a run has sent. */
  ghost function Sent(t: Tree, tips: seq<Header>): Log
    requires IsRun(t, tips)
  {
    if |tips| == 0 then []
    else if |tips| == 1 then [Event(tips[0])]
    else Sent(t, tips[..|tips| - 1]) + Batch(t, tips[|tips| - 2], tips[|tips| - 1])
  }

  /** The height at which the replay of a run starts: the first block sent, or the lowest re-org. */
  ghost function Start(t: Tree, tips: seq<Header>): nat
    requires IsRun(t, tips) && tips != []
  {
    if |tips| == 1 then tips[0].number
    else Min(Start(t, tips[..|tips| - 1]), Meet(t, tips[|tips| - 2], tips[|tips| - 1]).value.number + 1)
  }

  // ---------- replay ----------

  lemma {:induction false} ReplayConcat(a: Log, b: seq<Header>)
    ensures Replay(a + Events(b)) == Replay(a) + b
  {
    var log := a + Events(b);
    if b == [] {
      assert log == a;
    } else {
      var front := b[..|b| - 1];
      assert log[..|log| - 1] == a + Events(front);
      ReplayConcat(a, front);
      assert b == front + [b[|b| - 1]];
    }
  }

  /** On a consecutive chain, dropping by height is taking a prefix. */
  lemma {:induction false} BelowIsPrefix(chain: seq<Header>, k: int, from: int)
    requires forall i | 0 <= i < |chain| :: chain[i].number == from + i
    requires k <= from + |chain|
    ensures Below(chain, k) == if k <= from then [] else chain[..k - from]
  {
    if k == from + |chain| {
      BelowAll(chain, k);
    } else if chain != [] {
      var front := chain[..|chain| - 1];
      BelowIsPrefix(front, k, from);
      assert Below(chain, k) == Below(front, k);
    }
  }

  lemma {:induction false} BelowAll(chain: seq<Header>, k: int)
    requires forall i | 0 <= i < |chain| :: chain[i].number < k
    ensures Below(chain, k) == chain
  {
    if chain != [] {
      BelowAll(chain[..|chain| - 1], k);
    }
  }

  /** The last step of a run: where the tips meet, and the blocks that were added. */
  lemma LastStep(t: Tree, tips: seq<Header>) returns (m: Header, added: seq<Header>)
    requires IsRun(t, tips) && |tips| >= 2
    ensures var last, tip := tips[|tips| - 2], tips[|tips| - 1];
            && IsRun(t, tips[..|tips| - 1]) && tips[..|tips| - 1] != [] && tips[..|tips| - 1][|tips| - 2] == last
            && Known(t, last) && Known(t, tip) && Known(t, m)
            && IsAncestor(t, m, last) && IsAncestor(t, m, tip) && Meet(t, last, tip) == Some(m)
            && tip.number - MAX_REORG <= m.number <= last.number < tip.number
            && AncestorAt(t, tip, m.number + 1).Some?
            && added == Branch(t, tip, m.number + 1)
            && Sent(t, tips) == Sent(t, tips[..|tips| - 1]) + Rewind(last, m) + Events(added)
            && Start(t, tips) == Min(Start(t, tips[..|tips| - 1]), m.number + 1)
  {
    var last, tip := tips[|tips| - 2], tips[|tips| - 1];
    MeetIsHighest(t, last, tip);
    m := Meet(t, last, tip).value;
    NewBranchExists(t, m, tip);
    added := Branch(t, tip, m.number + 1);
  }

  lemma BranchNumbers(t: Tree, b: Header, from: nat)
    requires Consistent(t) && Known(t, b)
    requires from <= b.number ==> AncestorAt(t, b, from).Some?
    ensures forall i | 0 <= i < |Branch(t, b, from)| :: Branch(t, b, from)[i].number == from + i
  {
    forall i | 0 <= i < |Branch(t, b, from)|
      ensures Branch(t, b, from)[i].number == from + i
    {
      BranchAt(t, b, from, i);
    }
  }

  /** Two branches that agree up to the block at height `m` agree on everything from `from` to `m`. */
  lemma BranchPrefix(t: Tree, b: Header, m: Header, from: nat)
    requires Consistent(t) && Known(t, b) && IsAncestor(t, m, b)
    requires from <= m.number && AncestorAt(t, b, from).Some?
    ensures Known(t, m) && m.number <= b.number && AncestorAt(t, m, from) == AncestorAt(t, b, from)
    ensures Branch(t, b, from)[..m.number - from + 1] == Branch(t, m, from)
  {
    AncestorOfAncestor(t, b, from, m.number);
    forall i | 0 <= i <= m.number - from
      ensures Branch(t, b, from)[i] == Branch(t, m, from)[i]
    {
      BranchAt(t, b, from, i);
      BranchAt(t, m, from, i);
      AncestorOfAncestor(t, b, from + i, m.number);
    }
  }

  /** What two branches share, followed by the rest of one of them, is that branch. */
  lemma JoinBranches(t: Tree, b: Header, m: Header, from: nat)
    requires Consistent(t) && Known(t, b) && IsAncestor(t, m, b) && m.number < b.number
    requires from <= m.number ==> AncestorAt(t, m, from).Some?
    ensures Known(t, m) && AncestorAt(t, b, m.number + 1).Some?
    ensures AncestorAt(t, b, Min(from, m.number + 1)).Some?
    ensures Branch(t, m, from) + Branch(t, b, m.number + 1) == Branch(t, b, Min(from, m.number + 1))
  {
    BranchHasNoGaps(t, b, m.number, m.number + 1);
    if from <= m.number {
      AncestorOfAncestor(t, b, from, m.number);
      BranchPrefix(t, b, m, from);
      var whole, low, high := Branch(t, b, from), Branch(t, m, from), Branch(t, b, m.number + 1);
      forall i | |low| <= i < |whole|
        ensures whole[i] == high[i - |low|]
      {
        BranchAt(t, b, from, i);
        BranchAt(t, b, m.number + 1, i - |low|);
      }
      assert whole == whole[..|low|] + whole[|low|..];
    }
  }

  /** After a run, the replay is exactly the branch of the current tip, from `Start` up. */
  lemma {:induction false} ReplayIsTheBranchOfTheTip(t: Tree, tips: seq<Header>)
    requires IsRun(t, tips) && tips != []
    ensures var tip, start := tips[|tips| - 1], Start(t, tips);
            && start <= tip.number
            && AncestorAt(t, tip, start).Some?
            && Replay(Sent(t, tips)) == Branch(t, tip, start)
  {
    var tip := tips[|tips| - 1];
    if |tips| == 1 {
      ReplayAppend([], Event(tip));
    } else {
      var m, added := LastStep(t, tips);
      var front := tips[..|tips| - 1];
      var last, start, earlier := tips[|tips| - 2], Start(t, front), Sent(t, front);
      ReplayIsTheBranchOfTheTip(t, front);
      ReplayRewind(t, earlier, last, m, start);
      ReplayConcat(earlier + Rewind(last, m), added);
      JoinBranches(t, tip, m, start);
    }
  }

  /** After the re-org event the replay is what the old branch has in common with the new one. */
  lemma ReplayRewind(t: Tree, log: Log, last: Header, m: Header, from: nat)
    requires Consistent(t) && Known(t, last) && IsAncestor(t, m, last)
    requires from <= last.number && AncestorAt(t, last, from).Some? && Replay(log) == Branch(t, last, from)
    ensures Known(t, m)
    ensures from <= m.number ==> AncestorAt(t, m, from).Some?
    ensures Replay(log + Rewind(last, m)) == Branch(t, m, from)
  {
    if m == last {
      assert log + [] == log;
    } else {
      ReplayAppend(log, Reorg(m.number + 1));
      BelowBranch(t, last, m, from);
    }
  }

  lemma ReplayAppend(log: Log, e: Reorgable<Header>)
    ensures Replay(log + [e]) == Apply(Replay(log), e)
  {
  }

  lemma BelowBranch(t: Tree, b: Header, m: Header, from: nat)
    requires Consistent(t) && Known(t, b) && IsAncestor(t, m, b)
    requires from <= b.number && AncestorAt(t, b, from).Some?
    ensures Known(t, m)
    ensures from <= m.number ==> AncestorAt(t, m, from).Some?
    ensures Below(Branch(t, b, from), m.number + 1) == Branch(t, m, from)
  {
    BranchNumbers(t, b, from);
    BelowIsPrefix(Branch(t, b, from), m.number + 1, from);
    if from <= m.number {
      BranchPrefix(t, b, m, from);
    }
  }

  /** A re-org event is sent exactly when the old tip is not an ancestor of the new one. */
  lemma ReorgIffNotExtension(t: Tree, last: Header, latest: Header)
    requires Consistent(t) && Known(t, last) && Known(t, latest) && Accepts(t, last, latest)
    ensures (exists i | 0 <= i < |Batch(t, last, latest)| :: Batch(t, last, latest)[i].Reorg?)
            <==> !IsAncestor(t, last, latest)
  {
    MeetIsHighest(t, last, latest);
    var m := Meet(t, last, latest).value;
    NewBranchExists(t, m, latest);
    if IsAncestor(t, last, latest) {
      assert CommonAt(t, last, latest, last.number);
    } else {
      assert Batch(t, last, latest)[0].Reorg?;
    }
  }
}
