/** What a subscriber of the block watcher can rely on at every point of the stream, not only between
    batches: its replay is always a chain, and blocks deep enough below any block it received are
    final. */
module WatcherFinality {
  import opened Wrappers
  import opened BlockTree
  import opened WatcherLog

  lemma LinkedPrefix(chain: seq<Header>, k: nat)
    requires Linked(chain) && k <= |chain|
    ensures Linked(chain[..k])
  {
  }

  /** While the new blocks of a batch come in, the replay is a prefix of the branch of the new tip. */
  lemma ReplayInsideBatch(t: Tree, log: Log, m: Header, tip: Header, from: nat, k: nat)
    requires Consistent(t) && Known(t, m) && Known(t, tip) && IsAncestor(t, m, tip) && m.number < tip.number
    requires from <= m.number ==> AncestorAt(t, m, from).Some?
    requires Replay(log) == Branch(t, m, from)
    requires AncestorAt(t, tip, m.number + 1).Some? && k <= |Branch(t, tip, m.number + 1)|
    ensures Linked(Replay(log + Events(Branch(t, tip, m.number + 1)[..k])))
  {
    var common, added := Branch(t, m, from), Branch(t, tip, m.number + 1);
    ReplayConcat(log, added[..k]);
    JoinBranches(t, tip, m, from);
    BranchIsLinked(t, tip, Min(from, m.number + 1));
    LinkedPrefix(common + added, |common| + k);
    assert (common + added)[..|common| + k] == common + added[..k];
  }

  /** ... from the re-org event on. */
  lemma ReplayInLastBatch(t: Tree, log: Log, last: Header, m: Header, tip: Header, from: nat, k: nat)
    requires Consistent(t) && Known(t, last) && Known(t, m) && Known(t, tip)
    requires IsAncestor(t, m, last) && IsAncestor(t, m, tip) && m.number < tip.number
    requires from <= last.number && AncestorAt(t, last, from).Some? && Replay(log) == Branch(t, last, from)
    requires AncestorAt(t, tip, m.number + 1).Some? && k <= |Branch(t, tip, m.number + 1)|
    ensures Linked(Replay(log + Rewind(last, m) + Events(Branch(t, tip, m.number + 1)[..k])))
  {
    ReplayRewind(t, log, last, m, from);
    ReplayInsideBatch(t, log + Rewind(last, m), m, tip, from, k);
  }

  lemma LinkedInLastStep(t: Tree, tips: seq<Header>, i: nat)
    requires IsRun(t, tips) && |tips| >= 2 && |Sent(t, tips[..|tips| - 1])| < i <= |Sent(t, tips)|
    ensures Linked(Replay(Sent(t, tips)[..i]))
  {
    var front, last := tips[..|tips| - 1], tips[|tips| - 2];
    var m, added := LastStep(t, tips);
    var earlier := Sent(t, front);
    var k := i - |earlier| - |Rewind(last, m)|;
    ReplayIsTheBranchOfTheTip(t, front);
    ReplayInLastBatch(t, earlier, last, m, tips[|tips| - 1], Start(t, front), k);
    CutBatch(earlier + Rewind(last, m), added, k);
  }

  /** At every point of the stream the replay has consecutive numbers and matching parent hashes. */
  lemma {:induction false} ReplayIsAlwaysLinked(t: Tree, tips: seq<Header>, i: nat)
    requires IsRun(t, tips) && i <= |Sent(t, tips)|
    ensures Linked(Replay(Sent(t, tips)[..i]))
    decreases |tips|
  {
    if |tips| <= 1 {
      assert i == 0 || (i == 1 && Sent(t, tips)[..1][..0] == []);
    } else {
      var front := tips[..|tips| - 1];
      if i <= |Sent(t, front)| {
        ReplayIsAlwaysLinked(t, front, i);
        assert Sent(t, tips)[..i] == Sent(t, front)[..i];
      } else {
        LinkedInLastStep(t, tips, i);
      }
    }
  }

  lemma CutBatch(log: Log, added: seq<Header>, k: nat)
    requires k <= |added|
    ensures (log + Events(added))[..|log| + k] == log + Events(added[..k])
  {
  }

  // ---------- finality ----------

  /** Nothing received after a block reaches `MAX_REORG - 1` or more heights below that block. */
  ghost predicate Settles(log: Log) {
    forall i, j | 0 <= i < j < |log| && log[i].Event? ::
      Touched(log[j]) > log[i].value.number - (MAX_REORG - 1)
  }

  lemma {:induction false} SentIsBelowTheTip(t: Tree, tips: seq<Header>)
    requires IsRun(t, tips) && tips != []
    ensures forall i | 0 <= i < |Sent(t, tips)| && Sent(t, tips)[i].Event? ::
              Sent(t, tips)[i].value.number <= tips[|tips| - 1].number
  {
    if |tips| > 1 {
      var tip := tips[|tips| - 1];
      var m, added := LastStep(t, tips);
      SentIsBelowTheTip(t, tips[..|tips| - 1]);
      BranchNumbers(t, tip, m.number + 1);
    }
  }

  lemma {:induction false} SentSettles(t: Tree, tips: seq<Header>)
    requires IsRun(t, tips)
    ensures Settles(Sent(t, tips))
  {
    if |tips| > 1 {
      var tip, log, earlier := tips[|tips| - 1], Sent(t, tips), Sent(t, tips[..|tips| - 1]);
      var m, added := LastStep(t, tips);
      SentSettles(t, tips[..|tips| - 1]);
      SentIsBelowTheTip(t, tips[..|tips| - 1]);
      BranchNumbers(t, tip, m.number + 1);
      forall i, j | 0 <= i < j < |log| && log[i].Event?
        ensures Touched(log[j]) > log[i].value.number - (MAX_REORG - 1)
      {
        if j >= |earlier| {
          assert Touched(log[j]) > m.number;
        } else {
          assert log[i] == earlier[i] && log[j] == earlier[j];
        }
      }
    }
  }

  /** The part of a replay that is final once a block at height `n` was received. */
  function Final(chain: seq<Header>, n: int): seq<Header> {
    Below(chain, n - (MAX_REORG - 1) + 1)
  }

  lemma {:induction false} BelowTwice(chain: seq<Header>, k: int, high: int)
    requires k <= high
    ensures Below(Below(chain, high), k) == Below(chain, k)
  {
    if chain != [] {
      var front, top := chain[..|chain| - 1], chain[|chain| - 1];
      BelowTwice(front, k, high);
      if top.number < high {
        assert (Below(front, high) + [top])[..|Below(front, high)|] == Below(front, high);
      } else {
        assert Below(front, high) + [] == Below(front, high);
        assert Below(front, k) + [] == Below(front, k);
      }
    }
  }

  lemma ApplyKeepsBelow(chain: seq<Header>, e: Reorgable<Header>, k: int)
    requires Touched(e) >= k
    ensures Below(Apply(chain, e), k) == Below(chain, k)
  {
    match e
    case Event(b) => assert (chain + [b])[..|chain|] == chain;
    case Reorg(h) => BelowTwice(chain, k, h);
  }

  lemma {:induction false} SettledLogFinalises(log: Log, i: nat, j: nat)
    requires Settles(log) && i < j <= |log| && log[i].Event?
    ensures Final(Replay(log[..j]), log[i].value.number) == Final(Replay(log[..i + 1]), log[i].value.number)
    decreases j
  {
    if i + 1 < j {
      var before := log[..j - 1];
      SettledLogFinalises(log, i, j - 1);
      assert log[..j] == before + [log[j - 1]];
      ReplayAppend(before, log[j - 1]);
      ApplyKeepsBelow(Replay(before), log[j - 1], log[i].value.number - (MAX_REORG - 1) + 1);
    }
  }

  /** Finality. Once a block at height `n` has been received, the replayed blocks at heights up to
      `n - (MAX_REORG - 1)` are the same at every later point of the run. */
  lemma ReceivedBlocksFinalise(t: Tree, tips: seq<Header>, i: nat, j: nat)
    requires IsRun(t, tips) && i < j <= |Sent(t, tips)| && Sent(t, tips)[i].Event?
    ensures var log, n := Sent(t, tips), Sent(t, tips)[i].value.number;
            Final(Replay(log[..j]), n) == Final(Replay(log[..i + 1]), n)
  {
    SentSettles(t, tips);
    SettledLogFinalises(Sent(t, tips), i, j);
  }

  // ---------- the depth cannot be improved ----------

  // A trunk of blocks 0 to 9 at heights 20 to 29, and a fork of blocks 101 to 110 that leaves it at block 0.
  predicate InFork(h: int) {
    h <= 9 || 101 <= h
  }

  function ForkTree(): Tree {
    map h | 0 <= h <= 110 && InFork(h) ::
      if h <= 9 then Header(h, h - 1, h + 20)
      else Header(h, if h == 101 then 0 else h - 1, h - 80)
  }

  lemma {:induction false} ForkAncestor(h: int, n: nat)
    requires h in ForkTree() && n >= 20
    ensures Consistent(ForkTree()) && Known(ForkTree(), ForkTree()[h])
    ensures n <= ForkTree()[h].number ==>
              AncestorAt(ForkTree(), ForkTree()[h], n) == Some(ForkTree()[if h <= 9 || n == 20 then n - 20 else n + 80])
    decreases h
  {
    var t := ForkTree();
    assert Consistent(t);
    if n < t[h].number {
      ForkAncestor(t[h].parent, n);
    }
  }

  lemma ForkMeets()
    ensures var t := ForkTree();
            && Consistent(t) && Known(t, t[0]) && Known(t, t[9]) && Known(t, t[110])
            && Meet(t, t[0], t[9]) == Some(t[0]) && Meet(t, t[9], t[110]) == Some(t[0])
  {
    ForkAncestor(0, 20);
    ForkAncestor(9, 20);
    ForkAncestor(110, 20);
    var t := ForkTree();
    MeetIsUnique(t, t[0], t[9], t[0]);
    forall k: nat | 20 < k <= 29
      ensures !CommonAt(t, t[9], t[110], k)
    {
      ForkParts(k);
    }
    MeetIsUnique(t, t[9], t[110], t[0]);
  }

  lemma ForkParts(k: nat)
    requires 20 < k <= 29
    ensures var t := ForkTree(); Consistent(t) && Known(t, t[9]) && Known(t, t[110]) && !CommonAt(t, t[9], t[110], k)
  {
    ForkAncestor(9, k);
    ForkAncestor(110, k);
  }

  lemma RunOfThree(t: Tree, a: Header, b: Header, c: Header)
    requires Consistent(t) && Known(t, a) && Known(t, b) && Known(t, c)
    requires Accepts(t, a, b) && Accepts(t, b, c)
    ensures IsRun(t, [a]) && IsRun(t, [a, b]) && IsRun(t, [a, b, c])
  {
  }

  /** The run that follows the trunk to its end and then moves to the fork. */
  lemma ForkRun()
    ensures var t := ForkTree();
            IsRun(t, [t[0]]) && IsRun(t, [t[0], t[9]]) && IsRun(t, [t[0], t[9], t[110]])
  {
    ForkMeets();
    var t := ForkTree();
    RunOfThree(t, t[0], t[9], t[110]);
  }

  /** A run of three tips in which the last one leaves the branch of the second at the first. */
  lemma ReplayOfFork(t: Tree, a: Header, b: Header, c: Header)
    requires IsRun(t, [a]) && IsRun(t, [a, b]) && IsRun(t, [a, b, c])
    requires Known(t, a) && Known(t, b) && Known(t, c)
    requires Meet(t, a, b) == Some(a) && Meet(t, b, c) == Some(a) && a.number == 20 && b.number == 29
    ensures AncestorAt(t, b, 20).Some? && AncestorAt(t, c, 20).Some?
    ensures var log := Sent(t, [a, b, c]);
            && |log| > 10 && log[9] == Event(b)
            && Replay(log[..10]) == Branch(t, b, 20) && Replay(log) == Branch(t, c, 20)
  {
    var short, tips := [a, b], [a, b, c];
    assert tips[..2] == short && short[..1] == [a];
    var m, added := LastStep(t, short);
    var m', added' := LastStep(t, tips);
    ReplayIsTheBranchOfTheTip(t, short);
    ReplayIsTheBranchOfTheTip(t, tips);
    var log := Sent(t, tips);
    assert Sent(t, [a]) == [Event(a)];
    assert log[..10] == Sent(t, short);
    BranchIsLinked(t, b, 21);
    assert log[9] == Sent(t, short)[9];
  }

  /** The bound is tight: there is a run in which a block one height above the final part is replaced. */
  lemma FinalityIsTight()
    ensures exists t, tips: seq<Header>, i: nat, j: nat ::
              && IsRun(t, tips) && i < j <= |Sent(t, tips)| && Sent(t, tips)[i].Event?
              && Final(Replay(Sent(t, tips)[..i + 1]), Sent(t, tips)[i].value.number + 1)
                 != Final(Replay(Sent(t, tips)[..j]), Sent(t, tips)[i].value.number + 1)
  {
    ForkMeets();
    ForkRun();
    var t := ForkTree();
    var a, b, c := t[0], t[9], t[110];
    ReplayOfFork(t, a, b, c);
    FinalOfBranch(t, 9);
    FinalOfBranch(t, 110);
    var log := Sent(t, [a, b, c]);
    assert log[..|log|] == log;
    assert Final(Replay(log[..9 + 1]), log[9].value.number + 1)
           != Final(Replay(log[..|log|]), log[9].value.number + 1);
  }

  lemma LowestTwo(t: Tree, b: Header, from: nat)
    requires Consistent(t) && Known(t, b) && from < b.number
    requires AncestorAt(t, b, from).Some? && AncestorAt(t, b, from + 1).Some?
    ensures Below(Branch(t, b, from), from + 2) == [AncestorAt(t, b, from).value, AncestorAt(t, b, from + 1).value]
  {
    BranchNumbers(t, b, from);
    BelowIsPrefix(Branch(t, b, from), from + 2, from);
    BranchAt(t, b, from, 0);
    BranchAt(t, b, from, 1);
  }

  lemma FinalOfBranch(t: Tree, h: int)
    requires t == ForkTree() && (h == 9 || h == 110)
    ensures Consistent(t) && Known(t, t[h]) && AncestorAt(t, t[h], 20).Some?
    ensures Final(Branch(t, t[h], 20), 30) == [t[0], t[if h == 9 then 1 else 101]]
  {
    ForkAncestor(h, 20);
    ForkAncestor(h, 21);
    LowestTwo(ForkTree(), ForkTree()[h], 20);
  }
}
