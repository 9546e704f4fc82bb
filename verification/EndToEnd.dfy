/** Promises that span the components. */
module EndToEnd {
  import opened Wrappers
  import BlockTree
  import WatcherLog
  import WatcherFinality
  import opened Orders
  import OrderTable
  import LifeCycle
  import LifeCycleRuns
  import BatchQueue
  import BatcherSystem
  import BatcherSafety
  import BatcherTheorems
  import AbiCoding

  // ---------- deleted orders and final blocks ----------

  lemma {:induction false} BelowHas(chain: seq<BlockTree.Header>, k: int, b: BlockTree.Header)
    ensures b in WatcherLog.Below(chain, k) <==> b in chain && b.number < k
  {
    if chain != [] {
      BelowHas(chain[..|chain| - 1], k, b);
      assert chain == chain[..|chain| - 1] + [chain[|chain| - 1]];
    }
  }

  /** Two replays with the same final part have the same blocks in it. */
  lemma FinalHas(a: seq<BlockTree.Header>, c: seq<BlockTree.Header>, n: int, b: BlockTree.Header)
    requires WatcherFinality.Final(a, n) == WatcherFinality.Final(c, n)
    requires b.number <= n - (WatcherLog.MAX_REORG - 1)
    ensures b in a <==> b in c
  {
    BelowHas(a, n - (WatcherLog.MAX_REORG - 1) + 1, b);
    BelowHas(c, n - (WatcherLog.MAX_REORG - 1) + 1, b);
  }

  /** When the block at place `i` of the stream makes a row go, the blocks up to the one that marked the
      row are final: later re-orgs neither remove nor add any of them. It takes a `maxReorg` of at least
      `MAX_REORG - 1`. */
  lemma PurgedRowsRestOnFinalBlocks(t: BlockTree.Tree, tips: seq<BlockTree.Header>, i: nat, j: nat,
                                    e: OrderTable.Entry, maxReorg: nat, b: BlockTree.Header)
    requires WatcherLog.IsRun(t, tips) && i < j <= |WatcherLog.Sent(t, tips)| && WatcherLog.Sent(t, tips)[i].Event?
    requires maxReorg >= WatcherLog.MAX_REORG - 1
    requires OrderTable.Overdue(e, WatcherLog.Sent(t, tips)[i].value.number - maxReorg)
    requires b.number <= e.invalidSince.value
    ensures b in WatcherLog.Replay(WatcherLog.Sent(t, tips)[..i + 1]) <==> b in WatcherLog.Replay(WatcherLog.Sent(t, tips)[..j])
  {
    var log, n := WatcherLog.Sent(t, tips), WatcherLog.Sent(t, tips)[i].value.number;
    WatcherFinality.ReceivedBlocksFinalise(t, tips, i, j);
    FinalHas(WatcherLog.Replay(log[..i + 1]), WatcherLog.Replay(log[..j]), n, b);
  }

  /** For an order over any run: if the block that the watcher sent at place `i` deletes it, then the
      block in which its streak of invalid revalidations began is at a height that no re-org changes any
      more. */
  lemma DeletedOrdersRestOnFinalBlocks(t: BlockTree.Tree, tips: seq<BlockTree.Header>, i: nat, j: nat,
                                       k: OrderTable.Key, steps: seq<LifeCycleRuns.Step>, state: SignedOrderState,
                                       maxReorg: nat, b: BlockTree.Header)
    requires WatcherLog.IsRun(t, tips) && i < j <= |WatcherLog.Sent(t, tips)| && WatcherLog.Sent(t, tips)[i].Event?
    requires maxReorg >= WatcherLog.MAX_REORG - 1
    requires LifeCycleRuns.Run(k, steps, maxReorg).row.Some?
    requires LifeCycleRuns.Next(LifeCycleRuns.Run(k, steps, maxReorg), k,
                                LifeCycleRuns.Block(WatcherLog.Sent(t, tips)[i].value.number, state), maxReorg).row.None?
    ensures LifeCycleRuns.Streak(k, steps, maxReorg) != []
    ensures b.number <= LifeCycleRuns.Streak(k, steps, maxReorg)[0] ==>
              (b in WatcherLog.Replay(WatcherLog.Sent(t, tips)[..i + 1]) <==> b in WatcherLog.Replay(WatcherLog.Sent(t, tips)[..j]))
  {
    var n := WatcherLog.Sent(t, tips)[i].value.number;
    LifeCycleRuns.DeletedIffInvalidForLong(k, steps, n, state, maxReorg);
    LifeCycleRuns.MarkIsStartOfStreak(k, steps, maxReorg);
    if b.number <= LifeCycleRuns.Streak(k, steps, maxReorg)[0] {
      PurgedRowsRestOnFinalBlocks(t, tips, i, j, LifeCycleRuns.Run(k, steps, maxReorg).row.value, maxReorg, b);
    }
  }

  /** A stream in which block `b`, at height 21, is there when a block at height 29 comes in at place 9, and
      gone at the end. */
  ghost predicate Replaces(t: BlockTree.Tree, tips: seq<BlockTree.Header>, b: BlockTree.Header) {
    && WatcherLog.IsRun(t, tips) && |WatcherLog.Sent(t, tips)| > 10 && b.number == 21
    && WatcherLog.Sent(t, tips)[9].Event? && WatcherLog.Sent(t, tips)[9].value.number == 29
    && b in WatcherLog.Replay(WatcherLog.Sent(t, tips)[..10]) && b !in WatcherLog.Replay(WatcherLog.Sent(t, tips))
  }

  lemma BelowIsShown(chain: seq<BlockTree.Header>, k: int, low: seq<BlockTree.Header>, b: BlockTree.Header)
    requires WatcherLog.Below(chain, k) == low && b.number < k
    ensures b in chain <==> b in low
  {
    BelowHas(chain, k, b);
  }

  lemma ForkReplacesBlock() returns (t: BlockTree.Tree, tips: seq<BlockTree.Header>, b: BlockTree.Header)
    ensures Replaces(t, tips, b)
  {
    t := WatcherFinality.ForkTree();
    tips, b := [t[0], t[9], t[110]], t[1];
    WatcherFinality.ForkMeets();
    WatcherFinality.ForkRun();
    WatcherFinality.ReplayOfFork(t, t[0], t[9], t[110]);
    WatcherFinality.FinalOfBranch(t, 9);
    WatcherFinality.FinalOfBranch(t, 110);
    BelowIsShown(BlockTree.Branch(t, t[9], 20), 22, [t[0], t[1]], b);
    BelowIsShown(BlockTree.Branch(t, t[110], 20), 22, [t[0], t[101]], b);
  }

  lemma MarkedRun(k: OrderTable.Key, good: SignedOrderState, bad: SignedOrderState)
    requires ValidateState(good).Success? && ValidateState(bad).Failure?
    ensures var steps := [LifeCycleRuns.Submit(0, good), LifeCycleRuns.Block(21, bad)];
            && LifeCycleRuns.Run(k, steps, 8).row == Some(OrderTable.Entry(0, good.fillable, Some(21)))
            && LifeCycleRuns.Streak(k, steps, 8) == [21]
  {
    var submit, block := LifeCycleRuns.Submit(0, good), LifeCycleRuns.Block(21, bad);
    assert [submit, block][..1] == [submit] && [submit][..0] == [];
    assert LifeCycleRuns.Run(k, [submit], 8).row == Some(OrderTable.Entry(0, good.fillable, None));
    assert LifeCycleRuns.Streak(k, [submit], 8) == [];
  }

  /** The block at place `i` of the stream deletes the order, and later, at place `j`, the block `b` in
      which its streak began is gone. */
  ghost predicate DeletesTooSoon(t: BlockTree.Tree, tips: seq<BlockTree.Header>, i: nat, j: nat, k: OrderTable.Key,
                                 steps: seq<LifeCycleRuns.Step>, state: SignedOrderState, maxReorg: nat, b: BlockTree.Header)
  {
    && WatcherLog.IsRun(t, tips) && i < j <= |WatcherLog.Sent(t, tips)| && WatcherLog.Sent(t, tips)[i].Event?
    && LifeCycleRuns.Run(k, steps, maxReorg).row.Some?
    && LifeCycleRuns.Next(LifeCycleRuns.Run(k, steps, maxReorg), k,
                          LifeCycleRuns.Block(WatcherLog.Sent(t, tips)[i].value.number, state), maxReorg).row.None?
    && LifeCycleRuns.Streak(k, steps, maxReorg) == [b.number]
    && b in WatcherLog.Replay(WatcherLog.Sent(t, tips)[..i + 1])
    && b !in WatcherLog.Replay(WatcherLog.Sent(t, tips)[..j])
  }

  const TOO_LITTLE: nat := WatcherLog.MAX_REORG - 2

  /** It takes that much: with a `maxReorg` of `MAX_REORG - 2` it can happen. */
  lemma OneHeightLessIsTooLittle()
    ensures exists t, tips, i, j, k, steps, state, b :: DeletesTooSoon(t, tips, i, j, k, steps, state, TOO_LITTLE, b)
  {
    var t, tips, b := ForkReplacesBlock();
    var log := WatcherLog.Sent(t, tips);
    assert log[..|log|] == log;
    var k, good, bad := LifeCycleRuns.SomeKey(), LifeCycleRuns.StateOf(Fillable, 5, true), LifeCycleRuns.StateOf(Invalid, 0, true);
    var steps := [LifeCycleRuns.Submit(0, good), LifeCycleRuns.Block(21, bad)];
    MarkedRun(k, good, bad);
    var next := LifeCycleRuns.Block(log[9].value.number, bad);
    assert LifeCycleRuns.Next(LifeCycleRuns.Run(k, steps, 8), k, next, 8).row.None?;
    assert DeletesTooSoon(t, tips, 9, |log|, k, steps, bad, TOO_LITTLE, b);
  }

  // ---------- requesters and the contract ----------

  // What the contract says may change from call to call.
  type Verdicts = nat -> AbiCoding.Verdict

  /** Every call that was answered got an output that the contract made position by position, by what it
      said at the time, decoded as `AbiCoding` says. */
  ghost predicate CallsAreAligned(verdicts: Verdicts, s: BatcherSystem.Sys<SignedOrder, SignedOrderState>) {
    forall c | 0 <= c < |s.calls| ::
      s.calls[c].outcome.Some? && s.calls[c].outcome.value.Success? ==>
        Aligned(verdicts(c), BatchQueue.OrdersOf(s.calls[c].jobs), s.calls[c].outcome.value.value)
  }

  ghost predicate Aligned(verdict: AbiCoding.Verdict, orders: seq<SignedOrder>, states: seq<SignedOrderState>) {
    exists output ::
      && AbiCoding.AnswersByPosition(verdict, AbiCoding.IntoTokens(orders), output)
      && AbiCoding.IsDecoded(output, Success(states))
  }

  lemma AlignedStates(verdict: AbiCoding.Verdict, orders: seq<SignedOrder>, states: seq<SignedOrderState>, i: nat)
    requires Aligned(verdict, orders, states) && i < |orders|
    ensures |states| == |orders|
    ensures states[i] == verdict(AbiCoding.OrderToken(orders[i].order), AbiCoding.SignatureToken(orders[i].signature))
  {
  }

  /** In every interleaving, a requester gets an error, or what the contract said about its own order with
      its own signature in a call that went out after the request was made; however the request was
      merged, promoted and batched, and however the contract changed its mind. */
  lemma {:induction false} RequestersGetTheirVerdict(cfg: BatcherSystem.Config, steps: seq<BatcherSystem.Step<SignedOrder, SignedOrderState>>,
                                  verdicts: Verdicts, d: nat)
    requires cfg.batchSize > 0 && BatcherSystem.Exec(cfg, steps).Some?
    requires CallsAreAligned(verdicts, BatcherSystem.Exec(cfg, steps).value)
    requires d < |BatcherSystem.Exec(cfg, steps).value.delivered|
    ensures var s := BatcherSystem.Exec(cfg, steps).value;
            var delivery := s.delivered[d];
            && delivery.call < |s.calls| && s.calls[delivery.call].issued.Some?
            && delivery.ticket.sender < s.calls[delivery.call].issued.value
            && (delivery.reply.Success? ==>
                  delivery.reply.value == verdicts(delivery.call)(AbiCoding.OrderToken(delivery.ticket.order.order),
                                                                  AbiCoding.SignatureToken(delivery.ticket.order.signature)))
  {
    var s := BatcherSystem.Exec(cfg, steps).value;
    var delivery := s.delivered[d];
    BatcherTheorems.RepliesAreRightAndFresh(cfg, steps, d);
    var call := s.calls[delivery.call];
    if delivery.reply.Success? {
      ghost var i: nat :| i < |call.jobs| && i < |call.outcome.value.value|
                          && call.jobs[i].order == delivery.ticket.order
                          && delivery.reply == Success(call.outcome.value.value[i]);
      AlignedStates(verdicts(delivery.call), BatchQueue.OrdersOf(call.jobs), call.outcome.value.value, i);
    }
  }
}
