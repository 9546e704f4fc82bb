/** When events and table agree although several blocks are dealt with at once. */
module WholeRuns {
  import opened Wrappers
  import opened Orders
  import opened OrderTable
  import opened LifeCycle
  import opened LifeCycleRuns
  import opened Interleaving

  // ---------- one revalidation with an old read ----------

  /** The event and the write of a revalidation that read the row some time ago. */
  function Late(l: Life, k: Key, snap: Snapshot, state: SignedOrderState, block: int): Life {
    Life(WriteOf(l.row, snap, state, block), l.log + EmitOf(k, snap, state))
  }

  predicate IsOpen(row: Option<Entry>) {
    row.Some? && row.value.invalidSince.None?
  }

  /** Whether what was fetched suits what was read and what the row is now. */
  predicate Fits(row: Option<Entry>, snap: Snapshot, state: SignedOrderState) {
    var same := snap.status.Fillable? && snap.remaining == state.fillable;
    if ValidateState(state).Success? then row.Some? || same
    else if !state.status.Fillable? then true
    else if snap.status.Fillable? then same && !IsOpen(row)
    else IsOpen(row) && row.value.remaining == state.fillable
  }

  /** However old the read is, event and write keep events and table together exactly when they fit. */
  lemma LateAgreesIffFits(l: Life, k: Key, snap: Snapshot, state: SignedOrderState, block: int)
    requires Agrees(l) && (snap.status.Fillable? || snap.status.Invalid?) && !state.status.Added?
    ensures Agrees(Late(l, k, snap, state, block)) <==> Fits(l.row, snap, state)
  {
    assert l.log + [] == l.log;
  }

  /** With a fresh read this is the sequential condition. */
  lemma FreshFitsIffSane(row: Entry, state: SignedOrderState)
    requires !state.status.Added?
    ensures Fits(Some(row), OrderTable.Read(row), state) <==> Sane(state)
  {
  }

  lemma NothingFits(row: Option<Entry>, k: Key, snap: Snapshot, state: SignedOrderState, block: int)
    requires (snap.status.Fillable? || snap.status.Invalid?) && !state.status.Added?
    requires EmitOf(k, snap, state) == [] && WriteOf(row, snap, state, block) == row
    ensures Fits(row, snap, state)
  {
  }

  // ---------- runs that do not cut anything in two ----------

  /** The event of this revalidation is out, and its write is still to come. */
  predicate HalfDone(k: Key, task: Task) {
    task.state.Some? && task.emitted && !task.written && EmitOf(k, task.snap, task.state.value) != []
  }

  /** Nothing is half done: no revalidation has sent an event without its write, and no submission has
      written without its event. */
  predicate Calm(k: Key, s: Shared) {
    s.announced == [] && forall i | 0 <= i < |s.tasks| :: !HalfDone(k, s.tasks[i])
  }

  /** Something is half done that this step does not complete. */
  predicate Between(k: Key, s: Shared, step: Action) {
    || (exists i | 0 <= i < |s.tasks| :: HalfDone(k, s.tasks[i]) && step != Write(i))
    || |s.announced| > (if step.Announce? then 1 else 0)
  }

  lemma BetweenUnlessCalm(k: Key, s: Shared, step: Action)
    requires !step.Announce? && (step.Write? && step.task < |s.tasks| ==> !HalfDone(k, s.tasks[step.task]))
    ensures Between(k, s, step) <==> !Calm(k, s)
  {
    if !Calm(k, s) && s.announced == [] {
      var i :| 0 <= i < |s.tasks| && HalfDone(k, s.tasks[i]);
      assert step != Write(i);
    }
  }

  /** While something is half done, other steps leave the row and the events of the order alone, and no
      submission comes in. */
  predicate KeepsWhole(k: Key, s: Shared, step: Action)
    requires Enabled(s, step)
  {
    Between(k, s, step) ==> Do(s, k, step).life == s.life && !step.Insert?
  }

  /** Whether a step fits the row: a write as above, and the event of a submission if the row is open. */
  predicate StepFits(s: Shared, step: Action)
    requires Enabled(s, step)
  {
    match step
    case Write(i) => Fits(s.life.row, s.tasks[i].snap, s.tasks[i].state.value)
    case Announce(_) => IsOpen(s.life.row)
    case _ => true
  }

  predicate Whole(k: Key, steps: seq<Action>)
    requires Exec(k, steps).Some?
  {
    steps != [] ==>
      Whole(k, steps[..|steps| - 1]) && KeepsWhole(k, Exec(k, steps[..|steps| - 1]).value, steps[|steps| - 1])
  }

  predicate AllFit(k: Key, steps: seq<Action>)
    requires Exec(k, steps).Some?
  {
    steps != [] ==>
      AllFit(k, steps[..|steps| - 1]) && StepFits(Exec(k, steps[..|steps| - 1]).value, steps[|steps| - 1])
  }

  /** Events and table agree whenever nothing is half done, now and earlier. */
  ghost predicate AgreesWhenCalm(k: Key, steps: seq<Action>)
    requires Exec(k, steps).Some?
  {
    && (Calm(k, Exec(k, steps).value) ==> Agrees(Exec(k, steps).value.life))
    && (steps != [] ==> AgreesWhenCalm(k, steps[..|steps| - 1]))
  }

  // ---------- the account of what is half done ----------

  predicate TaskInv(task: Task) {
    && (task.snap.status.Fillable? || task.snap.status.Invalid?)
    && (task.emitted ==> task.state.Some?) && (task.written ==> task.emitted)
    && (task.state.Some? ==> !task.state.value.status.Added?)
  }

  /** But for the last event, which task `i` has sent, events and table agree. */
  ghost predicate Owes(k: Key, l: Life, task: Task)
    requires task.state.Some?
  {
    && l.log != []
    && l.log[|l.log| - 1..] == EmitOf(k, task.snap, task.state.value)
    && Agrees(Life(l.row, l.log[..|l.log| - 1]))
  }

  ghost predicate Account(k: Key, s: Shared) {
    && (forall i | 0 <= i < |s.tasks| :: TaskInv(s.tasks[i]))
    && (forall i, j | 0 <= i < |s.tasks| && 0 <= j < |s.tasks| && HalfDone(k, s.tasks[i]) && HalfDone(k, s.tasks[j]) :: i == j)
    && (s.announced != [] ==>
          && |s.announced| == 1 && s.life.row.Some? && s.life.row.value.remaining == s.announced[0]
          && forall i | 0 <= i < |s.tasks| :: !HalfDone(k, s.tasks[i]))
    && (forall i | 0 <= i < |s.tasks| && HalfDone(k, s.tasks[i]) :: Owes(k, s.life, s.tasks[i]))
    && (Calm(k, s) ==> Agrees(s.life))
  }

  /** A step keeps the account if it fits; if not, events and table disagree and nothing is half done. */
  ghost predicate Settles(k: Key, s: Shared, step: Action)
    requires Enabled(s, step)
  {
    var s' := Do(s, k, step);
    if StepFits(s, step) then Account(k, s') else Calm(k, s') && !Agrees(s'.life)
  }

  lemma AccountPurge(k: Key, s: Shared, block: int)
    requires Account(k, s) && KeepsWhole(k, s, Purge(block))
    ensures Settles(k, s, Purge(block))
  {
    BetweenUnlessCalm(k, s, Purge(block));
  }

  lemma AccountRead(k: Key, s: Shared, block: int)
    requires Account(k, s)
    ensures Settles(k, s, Read(block))
  {
    var s' := Do(s, k, Read(block));
    assert forall i | 0 <= i < |s.tasks| :: s'.tasks[i] == s.tasks[i];
  }

  lemma AccountFetch(k: Key, s: Shared, i: nat, state: SignedOrderState)
    requires Account(k, s) && Enabled(s, Fetch(i, state)) && !state.status.Added?
    ensures Settles(k, s, Fetch(i, state))
  {
    var s' := Do(s, k, Fetch(i, state));
    assert TaskInv(s.tasks[i]);
    assert forall j | 0 <= j < |s.tasks| && j != i :: s'.tasks[j] == s.tasks[j];
    assert !HalfDone(k, s'.tasks[i]) && !HalfDone(k, s.tasks[i]);
  }

  lemma AccountQuietEmit(k: Key, s: Shared, i: nat)
    requires Account(k, s) && Enabled(s, Emit(i)) && EmitOf(k, s.tasks[i].snap, s.tasks[i].state.value) == []
    ensures Account(k, Do(s, k, Emit(i)))
  {
    var s', task := Do(s, k, Emit(i)), s.tasks[i];
    assert TaskInv(task) && !HalfDone(k, task) && !HalfDone(k, s'.tasks[i]);
    assert forall j | 0 <= j < |s.tasks| && j != i :: s'.tasks[j] == s.tasks[j];
    assert s'.life.log == s.life.log;
  }

  lemma AccountEmit(k: Key, s: Shared, i: nat)
    requires Account(k, s) && Enabled(s, Emit(i)) && KeepsWhole(k, s, Emit(i))
    ensures Settles(k, s, Emit(i))
  {
    var s', task := Do(s, k, Emit(i)), s.tasks[i];
    var event := EmitOf(k, task.snap, task.state.value);
    if event == [] {
      AccountQuietEmit(k, s, i);
    } else {
      BetweenUnlessCalm(k, s, Emit(i));
      assert |s'.life.log| == |s.life.log| + 1;
      assert Calm(k, s) && TaskInv(task);
      assert forall j | 0 <= j < |s.tasks| && j != i :: s'.tasks[j] == s.tasks[j];
      assert s'.life.log[..|s.life.log|] == s.life.log && s'.life.log[|s.life.log|..] == event;
      assert HalfDone(k, s'.tasks[i]);
    }
  }

  lemma AccountWrite(k: Key, s: Shared, i: nat)
    requires Account(k, s) && Enabled(s, Write(i)) && KeepsWhole(k, s, Write(i))
    ensures Settles(k, s, Write(i))
  {
    var s', task := Do(s, k, Write(i)), s.tasks[i];
    var state := task.state.value;
    assert TaskInv(task) && !HalfDone(k, s'.tasks[i]);
    assert forall j | 0 <= j < |s.tasks| && j != i :: s'.tasks[j] == s.tasks[j];
    if HalfDone(k, task) {
      var before := Life(s.life.row, s.life.log[..|s.life.log| - 1]);
      assert Owes(k, s.life, task);
      LateAgreesIffFits(before, k, task.snap, state, task.block);
      assert s'.life == Late(before, k, task.snap, state, task.block);
    } else if Calm(k, s) {
      LateAgreesIffFits(s.life, k, task.snap, state, task.block);
      assert s'.life == Late(s.life, k, task.snap, state, task.block);
    } else {
      BetweenUnlessCalm(k, s, Write(i));
      NothingFits(s.life.row, k, task.snap, state, task.block);
    }
  }

  lemma AccountInsert(k: Key, s: Shared, createdAt: int, state: SignedOrderState)
    requires Account(k, s) && Enabled(s, Insert(createdAt, state)) && KeepsWhole(k, s, Insert(createdAt, state))
    ensures Settles(k, s, Insert(createdAt, state))
  {
    BetweenUnlessCalm(k, s, Insert(createdAt, state));
  }

  lemma AccountAnnounce(k: Key, s: Shared, n: nat)
    requires Account(k, s) && Enabled(s, Announce(n))
    ensures Settles(k, s, Announce(n))
  {
  }

  lemma AccountStep(k: Key, s: Shared, step: Action)
    requires Account(k, s) && Enabled(s, step) && KeepsWhole(k, s, step)
    requires step.Fetch? ==> !step.state.status.Added?
    ensures Settles(k, s, step)
  {
    match step
    case Purge(block) => AccountPurge(k, s, block);
    case Read(block) => AccountRead(k, s, block);
    case Fetch(i, state) => AccountFetch(k, s, i, state);
    case Emit(i) => AccountEmit(k, s, i);
    case Write(i) => AccountWrite(k, s, i);
    case Insert(createdAt, state) => AccountInsert(k, s, createdAt, state);
    case Announce(n) => AccountAnnounce(k, s, n);
  }

  /** In every interleaving that cuts nothing in two, with any number of blocks in flight and reads of any
      age: events and table agree whenever nothing is half done if and only if every step fits. */
  lemma {:induction false} InterleavedRunAgreesIffFits(k: Key, steps: seq<Action>)
    requires Exec(k, steps).Some? && Whole(k, steps)
    requires forall i | 0 <= i < |steps| && steps[i].Fetch? :: !steps[i].state.status.Added?
    ensures AgreesWhenCalm(k, steps) <==> AllFit(k, steps)
    ensures AllFit(k, steps) ==> Account(k, Exec(k, steps).value)
  {
    if steps != [] {
      var front := steps[..|steps| - 1];
      InterleavedRunAgreesIffFits(k, front);
      if AllFit(k, front) {
        AccountStep(k, Exec(k, front).value, steps[|steps| - 1]);
      }
    }
  }

  /** So an order that is gone when nothing is half done is not offered any more. */
  lemma GoneOrdersAreNotOffered(k: Key, steps: seq<Action>)
    requires Exec(k, steps).Some? && Whole(k, steps) && AllFit(k, steps)
    requires forall i | 0 <= i < |steps| && steps[i].Fetch? :: !steps[i].state.status.Added?
    requires Calm(k, Exec(k, steps).value) && Exec(k, steps).value.life.row.None?
    ensures var log := Exec(k, steps).value.life.log; log == [] || !Offered(log[|log| - 1].status)
  {
    InterleavedRunAgreesIffFits(k, steps);
  }
}
