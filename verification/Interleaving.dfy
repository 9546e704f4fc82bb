/** One order while several blocks are dealt with at once: every database statement, fetch and event is
    a step of its own, and the steps of different blocks may come in any order. */
module Interleaving {
  import opened Wrappers
  import opened Orders
  import opened OrderTable
  import opened LifeCycle
  import opened LifeCycleRuns

  /** A revalidation in flight, from the row it read to what it fetched, sent and wrote. */
  datatype Task = Task(block: int, snap: Snapshot, state: Option<SignedOrderState>, emitted: bool, written: bool)

  /** `marks` are the blocks with which the row was marked since it was inserted or cleared. `announced`
      are the submissions whose event is not sent yet. */
  datatype Shared = Shared(life: Life, tasks: seq<Task>, announced: seq<U128>, marks: seq<int>)

  datatype Action =
    | Purge(block: int)
    | Read(block: int)
    | Fetch(task: nat, state: SignedOrderState)
    | Emit(task: nat)
    | Write(task: nat)
    | Insert(createdAt: int, state: SignedOrderState)
    | Announce(submission: nat)

  predicate Enabled(s: Shared, step: Action) {
    match step
    case Purge(_) => true
    case Read(_) => true
    case Fetch(i, _) => i < |s.tasks| && s.tasks[i].state.None?
    case Emit(i) => i < |s.tasks| && s.tasks[i].state.Some? && !s.tasks[i].emitted
    case Write(i) => i < |s.tasks| && s.tasks[i].state.Some? && s.tasks[i].emitted && !s.tasks[i].written
    case Insert(_, state) => ValidateState(state).Success?
    case Announce(n) => n < |s.announced|
  }

  function Do(s: Shared, k: Key, step: Action): Shared
    requires Enabled(s, step)
  {
    match step
    case Purge(block) =>
      var life := Purged(s.life, block);
      s.(life := life, marks := if life.row.None? then [] else s.marks)
    case Read(block) =>
      if s.life.row.None? then s
      else s.(tasks := s.tasks + [Task(block, OrderTable.Read(s.life.row.value), None, false, false)])
    case Fetch(i, state) => s.(tasks := s.tasks[i := s.tasks[i].(state := Some(state))])
    case Emit(i) =>
      var task := s.tasks[i];
      s.(life := s.life.(log := s.life.log + EmitOf(k, task.snap, task.state.value)),
         tasks := s.tasks[i := task.(emitted := true)])
    case Write(i) =>
      var task := s.tasks[i];
      s.(life := s.life.(row := WriteOf(s.life.row, task.snap, task.state.value, task.block)),
         tasks := s.tasks[i := task.(written := true)],
         marks := if s.life.row.None? then []
                  else if Marks(task) then s.marks + [task.block]
                  else if Clears(task) then []
                  else s.marks)
    case Insert(createdAt, state) =>
      s.(life := s.life.(row := Some(Upsert(s.life.row, createdAt, state.fillable))),
         announced := s.announced + [state.fillable])
    case Announce(n) =>
      s.(life := s.life.(log := s.life.log + [OrderEvent(k, s.announced[n], Added)]),
         announced := s.announced[..n] + s.announced[n + 1..])
  }

  /** The write of this task marks the row. */
  predicate Marks(task: Task)
    requires task.state.Some?
  {
    ValidateState(task.state.value).Failure? && task.snap.status.Fillable?
  }

  predicate Clears(task: Task)
    requires task.state.Some?
  {
    && ValidateState(task.state.value).Success?
    && (!task.snap.status.Fillable? || task.snap.remaining != task.state.value.fillable)
  }

  function Exec(k: Key, steps: seq<Action>): Option<Shared> {
    if steps == [] then Some(Shared(Life(None, []), [], [], []))
    else
      match Exec(k, steps[..|steps| - 1])
      case None => None
      case Some(s) => if Enabled(s, steps[|steps| - 1]) then Some(Do(s, k, steps[|steps| - 1])) else None
  }

  // ---------- marks and deletion ----------

  /** A task that found the order invalid and has marked the row with this block. */
  predicate MarkedBy(task: Task, block: int) {
    task.block == block && task.state.Some? && task.written && Marks(task)
  }

  /** The row carries the lowest of the marks it got since it was inserted or cleared, and every mark is
      from a revalidation that found the order invalid. */
  ghost predicate MarksInv(s: Shared) {
    && (s.life.row.None? ==> s.marks == [])
    && (s.life.row.Some? ==>
          s.life.row.value.invalidSince == MarkAll(s.life.row.value.(invalidSince := None), s.marks).invalidSince)
    && (forall n | 0 <= n < |s.marks| :: exists i | 0 <= i < |s.tasks| :: MarkedBy(s.tasks[i], s.marks[n]))
  }

  lemma MarksStep(s: Shared, k: Key, step: Action)
    requires Enabled(s, step) && MarksInv(s)
    ensures MarksInv(Do(s, k, step))
  {
    var s' := Do(s, k, step);
    if s'.life.row.Some? {
      MarkValue(s, k, step);
    }
    forall n | 0 <= n < |s'.marks|
      ensures exists i | 0 <= i < |s'.tasks| :: MarkedBy(s'.tasks[i], s'.marks[n])
    {
      if n < |s.marks| {
        assert s'.marks[n] == s.marks[n];
        ghost var i :| 0 <= i < |s.tasks| && MarkedBy(s.tasks[i], s.marks[n]);
        assert MarkedBy(s'.tasks[i], s'.marks[n]);
      } else {
        assert MarkedBy(s'.tasks[step.task], s'.marks[n]);
      }
    }
  }

  lemma {:induction false} MarksIgnoreTheRest(e: Entry, f: Entry, marks: seq<int>)
    requires e.invalidSince == f.invalidSince
    ensures MarkAll(e, marks).invalidSince == MarkAll(f, marks).invalidSince
  {
    if marks != [] {
      MarksIgnoreTheRest(e, f, marks[..|marks| - 1]);
    }
  }

  lemma MarkValue(s: Shared, k: Key, step: Action)
    requires Enabled(s, step) && MarksInv(s) && Do(s, k, step).life.row.Some?
    ensures var s' := Do(s, k, step);
            s'.life.row.value.invalidSince == MarkAll(s'.life.row.value.(invalidSince := None), s'.marks).invalidSince
  {
    var s' := Do(s, k, step);
    if s.life.row.Some? {
      MarksIgnoreTheRest(s.life.row.value.(invalidSince := None), s'.life.row.value.(invalidSince := None), s.marks);
      if step.Write? && Marks(s.tasks[step.task]) {
        assert s'.marks[..|s.marks|] == s.marks;
      }
    }
  }

  lemma {:induction false} MarksHold(k: Key, steps: seq<Action>)
    requires Exec(k, steps).Some?
    ensures MarksInv(Exec(k, steps).value)
  {
    if steps != [] {
      var front := steps[..|steps| - 1];
      MarksHold(k, front);
      MarksStep(Exec(k, front).value, k, steps[|steps| - 1]);
    }
  }

  /** In every interleaving: when rows invalid since `block` or before are purged, the order goes exactly
      when it was marked with such a block since it was last inserted or cleared; and then a revalidation
      of such a block did find it invalid. */
  lemma PurgedIffMarked(k: Key, steps: seq<Action>, block: int)
    requires Exec(k, steps).Some? && Exec(k, steps).value.life.row.Some?
    ensures var s := Exec(k, steps).value;
            && (Do(s, k, Purge(block)).life.row.None? <==> exists m | m in s.marks :: m <= block)
            && (Do(s, k, Purge(block)).life.row.None? ==>
                  exists i | 0 <= i < |s.tasks| ::
                    MarkedBy(s.tasks[i], s.life.row.value.invalidSince.value) && s.tasks[i].block <= block)
  {
    var s := Exec(k, steps).value;
    var row := s.life.row.value;
    MarksHold(k, steps);
    MarksLeaveTheLowest(row.(invalidSince := None), s.marks);
    if row.invalidSince.Some? {
      ghost var n :| 0 <= n < |s.marks| && s.marks[n] == row.invalidSince.value;
      ghost var i :| 0 <= i < |s.tasks| && MarkedBy(s.tasks[i], s.marks[n]);
      assert s.tasks[i].block == row.invalidSince.value;
    }
  }

  // ---------- a block that runs alone ----------

  /** The steps of one block, one after the other, are the sequential block of `LifeCycle`. */
  lemma BlockAlone(s: Shared, k: Key, number: int, state: SignedOrderState, maxReorg: nat)
    ensures var purged := Do(s, k, Purge(number - maxReorg));
            var read := Do(purged, k, Read(number));
            if purged.life.row.None? then read == purged && read.life == Processed(s.life, k, state, number, maxReorg)
            else
              var i := |s.tasks|;
              && Enabled(read, Fetch(i, state))
              && var fetched := Do(read, k, Fetch(i, state));
              && Enabled(fetched, Emit(i))
              && var emitted := Do(fetched, k, Emit(i));
              && Enabled(emitted, Write(i))
              && Do(emitted, k, Write(i)).life == Processed(s.life, k, state, number, maxReorg)
  {
  }

  /** The two steps of a submission, one after the other, are the sequential submission, whatever else is
      going on. */
  lemma SubmissionAlone(s: Shared, k: Key, createdAt: int, state: SignedOrderState)
    requires ValidateState(state).Success?
    ensures var inserted := Do(s, k, Insert(createdAt, state));
            && Enabled(inserted, Announce(|s.announced|))
            && Do(inserted, k, Announce(|s.announced|)) == s.(life := Submitted(s.life, k, createdAt, state))
  {
  }

  // ---------- a revalidation that runs alone ----------

  /** From any row, however it came about, one revalidation alone leaves it open exactly when the fetched
      state is valid. Repeating it writes nothing, and sends nothing unless the state is fillable with an
      invalid signature. */
  lemma AloneItSettles(l: Life, k: Key, state: SignedOrderState, block: int, later: int)
    requires l.row.Some? && !state.status.Added?
    ensures var once := Revalidated(l, k, state, block);
            && once.row.Some?
            && (once.row.value.invalidSince.None? <==> ValidateState(state).Success?)
            && Revalidated(once, k, state, later).row == once.row
            && (Revalidated(once, k, state, later).log == once.log <==> Sane(state))
  {
  }

  /** It brings events and table back together exactly when it sends an event, or they agreed already. */
  lemma AloneItRepairsIffItEmits(l: Life, k: Key, state: SignedOrderState, block: int)
    requires l.row.Some? && Sane(state)
    ensures Agrees(Revalidated(l, k, state, block)) <==> Agrees(l) || EmitOf(k, OrderTable.Read(l.row.value), state) != []
  {
  }
}
