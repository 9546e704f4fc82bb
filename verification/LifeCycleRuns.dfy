/** What holds of an order over every run in which blocks are dealt with one after the other. Block
    heights may go up and down, and the order may be submitted any number of times. */
module LifeCycleRuns {
  import opened Wrappers
  import opened Orders
  import opened OrderTable
  import opened LifeCycle

  /** What happens to one order. `state` is what the contract says about it at that moment. */
  datatype Step =
    | Submit(createdAt: int, state: SignedOrderState)
    | Block(number: int, state: SignedOrderState)

  function Next(l: Life, k: Key, step: Step, maxReorg: nat): Life {
    match step
    case Submit(createdAt, state) => Submitted(l, k, createdAt, state)
    case Block(number, state) => Processed(l, k, state, number, maxReorg)
  }

  function Run(k: Key, steps: seq<Step>, maxReorg: nat): Life {
    if steps == [] then Life(None, [])
    else Next(Run(k, steps[..|steps| - 1], maxReorg), k, steps[|steps| - 1], maxReorg)
  }

  // ---------- deletion ----------

  /** The blocks, first to last, of the unbroken streak of revalidations up to now that found the order
      invalid. It does not look at marks, only at what the contract said and when, and at whether the
      row is still there. */
  function Streak(k: Key, steps: seq<Step>, maxReorg: nat): seq<int> {
    if steps == [] then []
    else
      var before := Streak(k, steps[..|steps| - 1], maxReorg);
      match steps[|steps| - 1]
      case Submit(_, _) => before
      case Block(number, state) =>
        if Run(k, steps, maxReorg).row.None? || ValidateState(state).Success? then [] else before + [number]
  }

  /** The mark on a row is the first block of the streak, in every run. */
  lemma {:induction false} MarkIsStartOfStreak(k: Key, steps: seq<Step>, maxReorg: nat)
    ensures var row, streak := Run(k, steps, maxReorg).row, Streak(k, steps, maxReorg);
            && (row.None? ==> streak == [])
            && (row.Some? ==> row.value.invalidSince == if streak == [] then None else Some(streak[0]))
  {
    if steps != [] {
      MarkIsStartOfStreak(k, steps[..|steps| - 1], maxReorg);
    }
  }

  /** A block deletes an order exactly when all revalidations for at least `maxReorg` heights found it
      invalid: the streak started at or below the height of the block minus `maxReorg`. */
  lemma DeletedIffInvalidForLong(k: Key, steps: seq<Step>, number: int, state: SignedOrderState, maxReorg: nat)
    ensures var before, streak := Run(k, steps, maxReorg), Streak(k, steps, maxReorg);
            Next(before, k, Block(number, state), maxReorg).row.None?
            <==> before.row.None? || (streak != [] && streak[0] <= number - maxReorg)
  {
    MarkIsStartOfStreak(k, steps, maxReorg);
  }

  function BlockNumbers(steps: seq<Step>): seq<int> {
    if steps == [] then []
    else
      BlockNumbers(steps[..|steps| - 1])
      + match steps[|steps| - 1] case Submit(_, _) => [] case Block(number, _) => [number]
  }

  /** Step `i` is a block that found the order valid or left no row, and so ended any streak before it. */
  predicate ResetAt(k: Key, steps: seq<Step>, maxReorg: nat, i: nat)
    requires i < |steps|
  {
    steps[i].Block? && (ValidateState(steps[i].state).Success? || Run(k, steps[..i + 1], maxReorg).row.None?)
  }

  lemma ResetStays(k: Key, steps: seq<Step>, maxReorg: nat, i: nat)
    requires i < |steps| - 1
    ensures ResetAt(k, steps[..|steps| - 1], maxReorg, i) == ResetAt(k, steps, maxReorg, i)
  {
    assert steps[..|steps| - 1][..i + 1] == steps[..i + 1];
  }

  /** The number of steps up to the last that ended a streak. */
  function LastReset(k: Key, steps: seq<Step>, maxReorg: nat): (i: nat)
    ensures i <= |steps|
  {
    if steps == [] then 0
    else if ResetAt(k, steps, maxReorg, |steps| - 1) then |steps|
    else LastReset(k, steps[..|steps| - 1], maxReorg)
  }

  lemma {:induction false} LastResetIsOne(k: Key, steps: seq<Step>, maxReorg: nat)
    ensures var i := LastReset(k, steps, maxReorg); i > 0 ==> ResetAt(k, steps, maxReorg, i - 1)
  {
    if steps != [] && !ResetAt(k, steps, maxReorg, |steps| - 1) {
      LastResetIsOne(k, steps[..|steps| - 1], maxReorg);
      var i := LastReset(k, steps, maxReorg);
      if i > 0 {
        ResetStays(k, steps, maxReorg, i - 1);
      }
    }
  }

  lemma {:induction false} NoResetAfterLast(k: Key, steps: seq<Step>, maxReorg: nat, j: nat)
    requires LastReset(k, steps, maxReorg) <= j < |steps|
    ensures !ResetAt(k, steps, maxReorg, j)
    ensures steps[j].Block? ==> ValidateState(steps[j].state).Failure?
  {
    if j < |steps| - 1 {
      ResetStays(k, steps, maxReorg, j);
      NoResetAfterLast(k, steps[..|steps| - 1], maxReorg, j);
    }
  }

  lemma BlockNumbersGrow(steps: seq<Step>, i: nat)
    requires i < |steps|
    ensures var last := steps[|steps| - 1];
            BlockNumbers(steps[i..])
            == BlockNumbers(steps[..|steps| - 1][i..]) + match last case Submit(_, _) => [] case Block(number, _) => [number]
  {
    assert steps[i..][..|steps| - 1 - i] == steps[..|steps| - 1][i..];
  }

  lemma StreakStep(k: Key, steps: seq<Step>, maxReorg: nat)
    requires steps != []
    ensures var n, last := |steps| - 1, steps[|steps| - 1];
            Streak(k, steps, maxReorg)
            == if ResetAt(k, steps, maxReorg, n) then []
               else Streak(k, steps[..n], maxReorg) + match last case Submit(_, _) => [] case Block(number, _) => [number]
  {
    assert steps[..|steps|] == steps;
  }

  lemma {:induction false} StreakSinceReset(k: Key, steps: seq<Step>, maxReorg: nat)
    ensures Streak(k, steps, maxReorg) == BlockNumbers(steps[LastReset(k, steps, maxReorg)..])
  {
    if steps != [] {
      StreakStep(k, steps, maxReorg);
      if !ResetAt(k, steps, maxReorg, |steps| - 1) {
        StreakSinceReset(k, steps[..|steps| - 1], maxReorg);
        BlockNumbersGrow(steps, LastReset(k, steps, maxReorg));
      }
    }
  }

  /** The streak is exactly the blocks since the last one that found the order valid or left no row. */
  lemma StreakIsInvalid(k: Key, steps: seq<Step>, maxReorg: nat) returns (i: nat)
    ensures i <= |steps|
    ensures forall j | i <= j < |steps| :: !ResetAt(k, steps, maxReorg, j)
    ensures forall j | i <= j < |steps| && steps[j].Block? :: ValidateState(steps[j].state).Failure?
    ensures i > 0 ==> ResetAt(k, steps, maxReorg, i - 1)
    ensures Streak(k, steps, maxReorg) == BlockNumbers(steps[i..])
  {
    i := LastReset(k, steps, maxReorg);
    LastResetIsOne(k, steps, maxReorg);
    StreakSinceReset(k, steps, maxReorg);
    forall j | i <= j < |steps|
      ensures !ResetAt(k, steps, maxReorg, j) && (steps[j].Block? ==> ValidateState(steps[j].state).Failure?)
    {
      NoResetAfterLast(k, steps, maxReorg, j);
    }
  }

  // ---------- the other columns ----------

  /** The step found the order valid. */
  predicate FoundValid(step: Step) {
    ValidateState(step.state).Success?
  }

  /** Step `i` is the last that found the order valid. */
  predicate LastValid(steps: seq<Step>, i: nat) {
    i < |steps| && FoundValid(steps[i]) && forall j | i < j < |steps| :: !FoundValid(steps[j])
  }

  /** In every run the remaining amount on the row is what was fetched when the order was last found valid,
      by a submission or by a block. */
  lemma {:induction false} RemainingIsOfTheLastValid(k: Key, steps: seq<Step>, maxReorg: nat) returns (i: nat)
    requires Run(k, steps, maxReorg).row.Some?
    ensures LastValid(steps, i) && Run(k, steps, maxReorg).row.value.remaining == steps[i].state.fillable
  {
    var n := |steps| - 1;
    if FoundValid(steps[n]) {
      i := n;
    } else {
      i := RemainingIsOfTheLastValid(k, steps[..n], maxReorg);
      assert forall j | i < j < n :: steps[j] == steps[..n][j];
    }
  }

  /** Step `i` inserted the row. */
  predicate InsertedAt(k: Key, steps: seq<Step>, maxReorg: nat, i: nat)
    requires i < |steps|
  {
    && steps[i].Submit? && Run(k, steps[..i], maxReorg).row.None? && Run(k, steps[..i + 1], maxReorg).row.Some?
  }

  /** In every run the creation time on the row is that of the submission that inserted it, and the row
      has been there since. */
  lemma {:induction false} CreationTimeStays(k: Key, steps: seq<Step>, maxReorg: nat) returns (i: nat)
    requires Run(k, steps, maxReorg).row.Some?
    ensures i < |steps| && InsertedAt(k, steps, maxReorg, i)
    ensures Run(k, steps, maxReorg).row.value.createdAt == steps[i].createdAt
    ensures forall j | i < j <= |steps| :: Run(k, steps[..j], maxReorg).row.Some?
  {
    var n := |steps| - 1;
    assert steps[..n + 1] == steps;
    if Run(k, steps[..n], maxReorg).row.None? {
      i := n;
    } else {
      i := CreationTimeStays(k, steps[..n], maxReorg);
      forall j | 0 <= j <= n
        ensures steps[..n][..j] == steps[..j]
      {
      }
    }
  }

  // ---------- events and table ----------

  predicate Offered(status: OrderStatus) {
    status.Added? || status.Fillable?
  }

  /** The last event about an order offers it exactly when its row is there and not marked invalid, and
      then with the same remaining amount. */
  ghost predicate Agrees(l: Life) {
    var open := l.row.Some? && l.row.value.invalidSince.None?;
    && (open <==> l.log != [] && Offered(l.log[|l.log| - 1].status))
    && (open ==> l.log[|l.log| - 1].remaining == l.row.value.remaining)
  }

  /** The contract does not call an order fillable whose signature it finds invalid. (It never uses
      `Added`, see `DecodeStatus`.) */
  predicate Sane(state: SignedOrderState) {
    !state.status.Added? && (state.status.Fillable? ==> state.isSignatureValid)
  }

  /** Whether a step keeps events and table together, by what can be seen before it. */
  predicate Benign(l: Life, step: Step, maxReorg: nat) {
    match step
    case Submit(_, state) => ValidateState(state).Failure? || l.row.None? || l.row.value.invalidSince.None?
    case Block(number, state) => Purged(l, number - maxReorg).row.None? || Sane(state)
  }

  /** A resubmission of an order that is marked invalid, and a fillable state with an invalid signature,
      are the only two things that drive events and table apart. */
  lemma StepAgreesIffBenign(l: Life, k: Key, step: Step, maxReorg: nat)
    requires Agrees(l) && !step.state.status.Added?
    ensures Agrees(Next(l, k, step, maxReorg)) <==> Benign(l, step, maxReorg)
  {
  }

  /** Events and table agree now and after every earlier step. */
  ghost predicate AlwaysAgrees(k: Key, steps: seq<Step>, maxReorg: nat) {
    && Agrees(Run(k, steps, maxReorg))
    && (steps != [] ==> AlwaysAgrees(k, steps[..|steps| - 1], maxReorg))
  }

  predicate AllBenign(k: Key, steps: seq<Step>, maxReorg: nat) {
    steps != [] ==>
      && AllBenign(k, steps[..|steps| - 1], maxReorg)
      && Benign(Run(k, steps[..|steps| - 1], maxReorg), steps[|steps| - 1], maxReorg)
  }

  /** Over whole runs: events and table agree after every step if and only if every step is benign. */
  lemma {:induction false} RunAgreesIffBenign(k: Key, steps: seq<Step>, maxReorg: nat)
    requires forall i | 0 <= i < |steps| :: !steps[i].state.status.Added?
    ensures AlwaysAgrees(k, steps, maxReorg) <==> AllBenign(k, steps, maxReorg)
  {
    if steps != [] {
      var front := steps[..|steps| - 1];
      RunAgreesIffBenign(k, front, maxReorg);
      if Agrees(Run(k, front, maxReorg)) {
        StepAgreesIffBenign(Run(k, front, maxReorg), k, steps[|steps| - 1], maxReorg);
      }
    }
  }

  /** Deleted orders are known to be gone. */
  lemma DeletedOrdersAreNotOffered(k: Key, steps: seq<Step>, maxReorg: nat)
    requires forall i | 0 <= i < |steps| :: !steps[i].state.status.Added?
    requires AllBenign(k, steps, maxReorg) && Run(k, steps, maxReorg).row.None?
    ensures var log := Run(k, steps, maxReorg).log; log == [] || !Offered(log[|log| - 1].status)
  {
    RunAgreesIffBenign(k, steps, maxReorg);
  }

  /** In a benign run the last event about a marked order tells the state that the first block of its
      streak fetched: the status and the amount with which it became invalid. */
  lemma {:induction false} MarkedOrdersWereTold(k: Key, steps: seq<Step>, maxReorg: nat) returns (i: nat)
    requires forall j | 0 <= j < |steps| :: !steps[j].state.status.Added?
    requires AllBenign(k, steps, maxReorg)
    requires Run(k, steps, maxReorg).row.Some? && Run(k, steps, maxReorg).row.value.invalidSince.Some?
    ensures i < |steps| && steps[i].Block? && steps[i].number == Run(k, steps, maxReorg).row.value.invalidSince.value
    ensures forall j | i <= j < |steps| && steps[j].Block? :: !FoundValid(steps[j])
    ensures var log := Run(k, steps, maxReorg).log;
            log != [] && log[|log| - 1] == OrderEvent(k, steps[i].state.fillable, steps[i].state.status)
  {
    var n := |steps| - 1;
    var front := steps[..n];
    var before := Run(k, front, maxReorg);
    if before.row.Some? && before.row.value.invalidSince.Some? {
      i := MarkedOrdersWereTold(k, front, maxReorg);
      assert before.log + [] == before.log;
      assert forall j | i <= j < n :: steps[j] == front[j];
    } else {
      i := n;
    }
  }

  // ---------- the two hypotheses are needed ----------

  function SomeKey(): Key {
    seq(32, _ => 0)
  }

  function StateOf(status: OrderStatus, fillable: U128, signed: bool): SignedOrderState {
    SignedOrderState(SomeKey(), status, 0, fillable, signed)
  }

  /** An order that is found invalid, and then submitted again when it is fillable once more:
      the event says it is open, and the row keeps its mark. */
  lemma ResubmissionBreaksAgreement()
    ensures var steps := [Submit(0, StateOf(Fillable, 5, true)), Block(20, StateOf(Invalid, 0, true)),
                          Submit(1, StateOf(Fillable, 5, true))];
            var l := Run(SomeKey(), steps, 10);
            && l.row == Some(Entry(0, 5, Some(20)))
            && l.log[|l.log| - 1] == OrderEvent(SomeKey(), 5, Added)
            && !Agrees(l)
  {
    var a, b, c := Submit(0, StateOf(Fillable, 5, true)), Block(20, StateOf(Invalid, 0, true)), Submit(1, StateOf(Fillable, 5, true));
    assert [a, b, c][..2] == [a, b] && [a, b][..1] == [a] && [a][..0] == [];
    assert Run(SomeKey(), [a], 10) == Life(Some(Entry(0, 5, None)), [OrderEvent(SomeKey(), 5, Added)]);
    assert Run(SomeKey(), [a, b], 10) == Life(Some(Entry(0, 5, Some(20))), [OrderEvent(SomeKey(), 5, Added), OrderEvent(SomeKey(), 0, Invalid)]);
  }

  /** A fillable order whose signature became invalid: it is marked, and no event says so. */
  lemma LostSignatureBreaksAgreement()
    ensures var steps := [Submit(0, StateOf(Fillable, 5, true)), Block(20, StateOf(Fillable, 5, false))];
            var l := Run(SomeKey(), steps, 10);
            && l.row == Some(Entry(0, 5, Some(20)))
            && l.log == [OrderEvent(SomeKey(), 5, Added)]
            && !Agrees(l)
  {
  }
}
