/** Runs with blocks in flight after which the events and the table disagree, although every state that
    was fetched is sane, no order was submitted while marked, and all work is done. */
module Races {
  import opened Wrappers
  import opened Orders
  import opened OrderTable
  import opened LifeCycle
  import opened LifeCycleRuns
  import opened Interleaving
  import opened WholeRuns

  predicate AllDone(s: Shared) {
    s.announced == [] && forall i | 0 <= i < |s.tasks| :: s.tasks[i].written
  }

  /** Takes one more step of a concrete run, to the state `t`. */
  lemma GoOn(k: Key, steps: seq<Action>, s: Shared, step: Action, t: Shared) returns (more: seq<Action>)
    requires Exec(k, steps) == Some(s) && Enabled(s, step)
    requires var d := Do(s, k, step);
             && d.life.row == t.life.row && d.life.log == t.life.log
             && d.tasks == t.tasks && d.announced == t.announced && d.marks == t.marks
    ensures Exec(k, more) == Some(t)
    ensures Whole(k, more) <==> Whole(k, steps) && KeepsWhole(k, s, step)
    ensures AllFit(k, more) <==> AllFit(k, steps) && StepFits(s, step)
  {
    more := steps + [step];
    assert more[..|steps|] == steps;
  }

  /** The run is over, nothing was wrong with what was fetched, and still events and table disagree. */
  ghost predicate Broken(steps: seq<Action>, life: Life) {
    && Exec(SomeKey(), steps).Some?
    && var s := Exec(SomeKey(), steps).value;
       && s.life == life && !Agrees(life)
       && AllDone(s) && forall i | 0 <= i < |s.tasks| :: s.tasks[i].state.Some? && Sane(s.tasks[i].state.value)
  }

  /** ... and something was cut in two. */
  ghost predicate Cut(steps: seq<Action>, life: Life) {
    Broken(steps, life) && !Whole(SomeKey(), steps)
  }

  function Good(amount: U128): SignedOrderState {
    StateOf(Fillable, amount, true)
  }

  function Bad(): SignedOrderState {
    StateOf(Invalid, 0, true)
  }

  function Event(amount: U128, status: OrderStatus): OrderEvent {
    OrderEvent(SomeKey(), amount, status)
  }

  /** A block reads the row and fetches the state. */
  lemma GoOnRead(steps: seq<Action>, s: Shared, block: int, state: SignedOrderState) returns (more: seq<Action>)
    requires Exec(SomeKey(), steps) == Some(s) && s.life.row.Some?
    ensures var task := Task(block, OrderTable.Read(s.life.row.value), Some(state), false, false);
            Exec(SomeKey(), more) == Some(s.(tasks := s.tasks + [task]))
    ensures Whole(SomeKey(), more) <==> Whole(SomeKey(), steps)
  {
    var k, n, task := SomeKey(), |s.tasks|, Task(block, OrderTable.Read(s.life.row.value), None, false, false);
    var a, b := s.(tasks := s.tasks + [task]), s.(tasks := s.tasks + [task.(state := Some(state))]);
    more := GoOn(k, steps, s, Read(block), a);
    more := GoOn(k, more, a, Fetch(n, state), b);
  }

  lemma CalmWithOneMore(k: Key, s: Shared, t: Shared, task: Task)
    requires t.tasks == s.tasks + [task] && t.announced == s.announced && !HalfDone(k, task)
    ensures Calm(k, t) <==> Calm(k, s)
  {
    assert forall i | 0 <= i < |s.tasks| :: t.tasks[i] == s.tasks[i];
  }

  /** A whole revalidation, from its read to its write. */
  lemma GoOnBlock(steps: seq<Action>, s: Shared, block: int, state: SignedOrderState, t: Shared) returns (more: seq<Action>)
    requires Exec(SomeKey(), steps) == Some(s) && s.life.row.Some?
    requires var task := Task(block, OrderTable.Read(s.life.row.value), Some(state), true, true);
             && t.life == Revalidated(s.life, SomeKey(), state, block)
             && t.tasks == s.tasks + [task] && t.announced == s.announced
             && t.marks == if Marks(task) then s.marks + [block] else if Clears(task) then [] else s.marks
    ensures Exec(SomeKey(), more) == Some(t)
    ensures Whole(SomeKey(), steps) && Calm(SomeKey(), s) ==> Whole(SomeKey(), more)
    ensures Whole(SomeKey(), more) && t.life.log != s.life.log ==> Calm(SomeKey(), s)
  {
    var k, n, snap := SomeKey(), |s.tasks|, OrderTable.Read(s.life.row.value);
    var task := Task(block, snap, Some(state), false, false);
    var a := s.(tasks := s.tasks + [task]);
    var b := s.(tasks := s.tasks + [task.(emitted := true)], life := s.life.(log := s.life.log + EmitOf(k, snap, state)));
    more := GoOnRead(steps, s, block, state);
    more := GoOn(k, more, a, Emit(n), b);
    more := GoOn(k, more, b, Write(n), t);
    CalmWithOneMore(k, s, a, task);
    BetweenUnlessCalm(k, a, Emit(n));
    assert forall i | 0 <= i < n :: b.tasks[i] == s.tasks[i];
  }

  /** A submitted order. */
  lemma Open() returns (steps: seq<Action>)
    ensures Exec(SomeKey(), steps) == Some(Shared(Life(Some(Entry(0, 5, None)), [Event(5, Added)]), [], [], []))
    ensures Whole(SomeKey(), steps)
  {
    var row := Some(Entry(0, 5, None));
    var s0, s1 := Shared(Life(None, []), [], [], []), Shared(Life(row, []), [], [5], []);
    steps := GoOn(SomeKey(), [], s0, Insert(0, Good(5)), s1);
    steps := GoOn(SomeKey(), steps, s1, Announce(0), Shared(Life(row, [Event(5, Added)]), [], [], []));
  }

  /** An order that block 20 has marked, and whose first submission has not sent its event yet. */
  lemma MarkedUnannounced() returns (steps: seq<Action>)
    ensures Exec(SomeKey(), steps)
            == Some(Shared(Life(Some(Entry(0, 5, Some(20))), [Event(0, Invalid)]),
                           [Task(20, Snapshot(5, Fillable), Some(Bad()), true, true)], [5], [20]))
    ensures !Whole(SomeKey(), steps)
  {
    var task := Task(20, Snapshot(5, Fillable), Some(Bad()), true, true);
    var s0, s1 := Shared(Life(None, []), [], [], []), Shared(Life(Some(Entry(0, 5, None)), []), [], [5], []);
    var s2 := Shared(Life(Some(Entry(0, 5, Some(20))), [Event(0, Invalid)]), [task], [5], [20]);
    steps := GoOn(SomeKey(), [], s0, Insert(0, Good(5)), s1);
    steps := GoOnBlock(steps, s1, 20, Bad(), s2);
  }

  /** One block between the insert and the event of a first submission. When the mark is old enough the
      order goes, and is still on offer. */
  lemma BlockInsideSubmission()
    ensures exists steps :: Cut(steps, Life(Some(Entry(0, 5, Some(20))), [Event(0, Invalid), Event(5, Added)]))
    ensures exists steps :: Cut(steps, Life(None, [Event(0, Invalid), Event(5, Added)]))
  {
    var task := Task(20, Snapshot(5, Fillable), Some(Bad()), true, true);
    var row, log := Some(Entry(0, 5, Some(20))), [Event(0, Invalid), Event(5, Added)];
    var s0 := Shared(Life(row, [Event(0, Invalid)]), [task], [5], [20]);
    var s1, s2 := Shared(Life(row, log), [task], [], [20]), Shared(Life(None, log), [task], [], []);
    var steps := MarkedUnannounced();
    steps := GoOn(SomeKey(), steps, s0, Announce(0), s1);
    assert Cut(steps, s1.life);
    steps := GoOn(SomeKey(), steps, s1, Purge(20), s2);
    assert Cut(steps, s2.life);
  }

  /** Two submissions of the same order whose events come in the other order than their inserts. */
  lemma SubmissionInsideSubmission()
    ensures exists steps :: Cut(steps, Life(Some(Entry(0, 4, None)), [Event(4, Added), Event(5, Added)]))
  {
    var row, later := Some(Entry(0, 5, None)), Some(Entry(0, 4, None));
    var s0, s1 := Shared(Life(None, []), [], [], []), Shared(Life(row, []), [], [5], []);
    var s2, s3 := Shared(Life(later, []), [], [5, 4], []), Shared(Life(later, [Event(4, Added)]), [], [5], []);
    var s4 := Shared(Life(later, [Event(4, Added), Event(5, Added)]), [], [], []);
    var steps := GoOn(SomeKey(), [], s0, Insert(0, Good(5)), s1);
    steps := GoOn(SomeKey(), steps, s1, Insert(1, Good(4)), s2);
    steps := GoOn(SomeKey(), steps, s2, Announce(1), s3);
    steps := GoOn(SomeKey(), steps, s3, Announce(0), s4);
    assert Cut(steps, s4.life);
  }

  /** An open order of which block 20 has said that it is invalid, without having marked it yet. */
  lemma SaidInvalid() returns (steps: seq<Action>)
    ensures Exec(SomeKey(), steps)
            == Some(Shared(Life(Some(Entry(0, 5, None)), [Event(5, Added), Event(0, Invalid)]),
                           [Task(20, Snapshot(5, Fillable), Some(Bad()), true, false)], [], []))
  {
    var task := Task(20, Snapshot(5, Fillable), Some(Bad()), false, false);
    var l := Life(Some(Entry(0, 5, None)), [Event(5, Added)]);
    var s0, s1 := Shared(l, [], [], []), Shared(l, [task], [], []);
    var s2 := Shared(l.(log := [Event(5, Added), Event(0, Invalid)]), [task.(emitted := true)], [], []);
    steps := Open();
    steps := GoOnRead(steps, s0, 20, Bad());
    assert s0.tasks + [task] == [task];
    steps := GoOn(SomeKey(), steps, s1, Emit(0), s2);
  }

  /** A block between the event and the write of another one. */
  lemma BlockInsideBlock()
    ensures exists steps ::
              Cut(steps, Life(Some(Entry(0, 4, Some(20))), [Event(5, Added), Event(0, Invalid), Event(4, Fillable)]))
  {
    var one := Task(20, Snapshot(5, Fillable), Some(Bad()), true, false);
    var two := Task(21, Snapshot(5, Fillable), Some(Good(4)), true, true);
    var log := [Event(5, Added), Event(0, Invalid), Event(4, Fillable)];
    var s0 := Shared(Life(Some(Entry(0, 5, None)), [Event(5, Added), Event(0, Invalid)]), [one], [], []);
    var s1 := Shared(Life(Some(Entry(0, 4, None)), log), [one, two], [], []);
    var s2 := Shared(Life(Some(Entry(0, 4, Some(20))), log), [one.(written := true), two], [], [20]);
    var steps := SaidInvalid();
    steps := GoOnBlock(steps, s0, 21, Good(4), s1);
    steps := GoOn(SomeKey(), steps, s1, Write(0), s2);
    assert Cut(steps, s2.life);
  }

  /** A submission between the event and the write of a block. */
  lemma SubmissionInsideBlock()
    ensures exists steps ::
              Cut(steps, Life(Some(Entry(0, 5, Some(20))), [Event(5, Added), Event(0, Invalid), Event(5, Added)]))
  {
    var task := Task(20, Snapshot(5, Fillable), Some(Bad()), true, false);
    var row, log := Some(Entry(0, 5, None)), [Event(5, Added), Event(0, Invalid), Event(5, Added)];
    var s0 := Shared(Life(row, [Event(5, Added), Event(0, Invalid)]), [task], [], []);
    var s1, s2 := s0.(announced := [5]), Shared(Life(row, log), [task], [], []);
    var s3 := Shared(Life(Some(Entry(0, 5, Some(20))), log), [task.(written := true)], [], [20]);
    var steps := SaidInvalid();
    steps := GoOn(SomeKey(), steps, s0, Insert(1, Good(5)), s1);
    steps := GoOn(SomeKey(), steps, s1, Announce(0), s2);
    steps := GoOn(SomeKey(), steps, s2, Write(0), s3);
    assert Cut(steps, s3.life);
  }

  /** A row that was marked by block 20 and read by block 29, which finds it valid again. */
  lemma MarkedAndRead() returns (steps: seq<Action>)
    ensures Exec(SomeKey(), steps)
            == Some(Shared(Life(Some(Entry(0, 5, Some(20))), [Event(5, Added), Event(0, Invalid)]),
                           [Task(20, Snapshot(5, Fillable), Some(Bad()), true, true),
                            Task(29, Snapshot(5, Invalid), Some(Good(5)), false, false)], [], [20]))
    ensures Whole(SomeKey(), steps)
  {
    var one := Task(20, Snapshot(5, Fillable), Some(Bad()), true, true);
    var two := Task(29, Snapshot(5, Invalid), Some(Good(5)), false, false);
    var s0 := Shared(Life(Some(Entry(0, 5, None)), [Event(5, Added)]), [], [], []);
    var s1 := Shared(Life(Some(Entry(0, 5, Some(20))), [Event(5, Added), Event(0, Invalid)]), [one], [], [20]);
    steps := Open();
    steps := GoOnBlock(steps, s0, 20, Bad(), s1);
    steps := GoOnRead(steps, s1, 29, Good(5));
    assert s1.tasks + [two] == [one, two];
  }

  /** Another block then purges it, and block 29 sends its event. */
  lemma PurgedAndSent() returns (steps: seq<Action>)
    ensures Exec(SomeKey(), steps)
            == Some(Shared(Life(None, [Event(5, Added), Event(0, Invalid), Event(5, Fillable)]),
                           [Task(20, Snapshot(5, Fillable), Some(Bad()), true, true),
                            Task(29, Snapshot(5, Invalid), Some(Good(5)), true, false)], [], []))
    ensures Whole(SomeKey(), steps)
  {
    var one := Task(20, Snapshot(5, Fillable), Some(Bad()), true, true);
    var two := Task(29, Snapshot(5, Invalid), Some(Good(5)), false, false);
    var log := [Event(5, Added), Event(0, Invalid)];
    var s0, s1 := Shared(Life(Some(Entry(0, 5, Some(20))), log), [one, two], [], [20]), Shared(Life(None, log), [one, two], [], []);
    var s2 := Shared(Life(None, [Event(5, Added), Event(0, Invalid), Event(5, Fillable)]), [one, two.(emitted := true)], [], []);
    steps := MarkedAndRead();
    steps := GoOn(SomeKey(), steps, s0, Purge(20), s1);
    steps := GoOn(SomeKey(), steps, s1, Emit(1), s2);
  }

  /** So the row goes between the read and the event of block 29. Nothing is cut in two: it is the write
      that does not fit. */
  lemma PurgeAfterRead()
    ensures exists steps ::
              && Broken(steps, Life(None, [Event(5, Added), Event(0, Invalid), Event(5, Fillable)]))
              && Whole(SomeKey(), steps) && !AllFit(SomeKey(), steps)
  {
    var one := Task(20, Snapshot(5, Fillable), Some(Bad()), true, true);
    var two := Task(29, Snapshot(5, Invalid), Some(Good(5)), true, false);
    var s0 := Shared(Life(None, [Event(5, Added), Event(0, Invalid), Event(5, Fillable)]), [one, two], [], []);
    var s1 := s0.(tasks := [one, two.(written := true)]);
    var steps := PurgedAndSent();
    steps := GoOn(SomeKey(), steps, s0, Write(1), s1);
    assert Broken(steps, s1.life);
  }

  /** The purge comes between the event and the write of block 29. */
  lemma PurgeInsideBlock()
    ensures exists steps :: Cut(steps, Life(None, [Event(5, Added), Event(0, Invalid), Event(5, Fillable)]))
  {
    var one := Task(20, Snapshot(5, Fillable), Some(Bad()), true, true);
    var two := Task(29, Snapshot(5, Invalid), Some(Good(5)), false, false);
    var row, log := Some(Entry(0, 5, Some(20))), [Event(5, Added), Event(0, Invalid)];
    var l := Life(None, [Event(5, Added), Event(0, Invalid), Event(5, Fillable)]);
    var s0, s1 := Shared(Life(row, log), [one, two], [], [20]), Shared(l.(row := row), [one, two.(emitted := true)], [], [20]);
    var s2 := Shared(l, [one, two.(emitted := true)], [], []);
    var s3 := Shared(l, [one, two.(emitted := true, written := true)], [], []);
    var steps := MarkedAndRead();
    steps := GoOn(SomeKey(), steps, s0, Emit(1), s1);
    steps := GoOn(SomeKey(), steps, s1, Purge(20), s2);
    steps := GoOn(SomeKey(), steps, s2, Write(1), s3);
    assert Cut(steps, s3.life);
  }

  /** An open order that blocks 20 and 21 have read. */
  lemma BothBlocksRead() returns (steps: seq<Action>)
    ensures var task := Task(0, Snapshot(5, Fillable), None, false, false);
            Exec(SomeKey(), steps) == Some(Shared(Life(Some(Entry(0, 5, None)), [OrderEvent(SomeKey(), 5, Added)]),
                                          [task.(block := 20), task.(block := 21)], [], []))
  {
    var snap, row := Snapshot(5, Fillable), Some(Entry(0, 5, None));
    var s0, s1 := Shared(Life(None, []), [], [], []), Shared(Life(row, []), [], [5], []);
    var l := Life(row, [OrderEvent(SomeKey(), 5, Added)]);
    var s2, s3 := Shared(l, [], [], []), Shared(l, [Task(20, snap, None, false, false)], [], []);
    var s4 := Shared(l, [Task(20, snap, None, false, false), Task(21, snap, None, false, false)], [], []);
    steps := GoOn(SomeKey(), [], s0, Insert(0, StateOf(Fillable, 5, true)), s1);
    steps := GoOn(SomeKey(), steps, s1, Announce(0), s2);
    steps := GoOn(SomeKey(), steps, s2, Read(20), s3);
    steps := GoOn(SomeKey(), steps, s3, Read(21), s4);
  }

  /** Block 20 found the order invalid and block 21 found less of it left. Block 21 sends its event first
      and writes last. */
  lemma TheRace() returns (steps: seq<Action>)
    ensures var task, log := Task(0, Snapshot(5, Fillable), None, true, true),
                             [OrderEvent(SomeKey(), 5, Added), OrderEvent(SomeKey(), 4, Fillable), OrderEvent(SomeKey(), 0, Invalid)];
            Exec(SomeKey(), steps) == Some(Shared(Life(Some(Entry(0, 4, None)), log),
                                          [task.(block := 20, state := Some(StateOf(Invalid, 0, true))),
                                           task.(block := 21, state := Some(StateOf(Fillable, 4, true)))], [], []))
  {
    var bad, good, snap := StateOf(Invalid, 0, true), StateOf(Fillable, 4, true), Snapshot(5, Fillable);
    var l0 := Life(Some(Entry(0, 5, None)), [OrderEvent(SomeKey(), 5, Added)]);
    var l1 := l0.(log := [OrderEvent(SomeKey(), 5, Added), OrderEvent(SomeKey(), 4, Fillable)]);
    var l2 := l0.(log := [OrderEvent(SomeKey(), 5, Added), OrderEvent(SomeKey(), 4, Fillable), OrderEvent(SomeKey(), 0, Invalid)]);
    var l3, l4 := l2.(row := Some(Entry(0, 5, Some(20)))), l2.(row := Some(Entry(0, 4, None)));
    var one, two := Task(20, snap, None, false, false), Task(21, snap, None, false, false);
    var one', two' := one.(state := Some(bad)), two.(state := Some(good));
    var s0, s1 := Shared(l0, [one, two], [], []), Shared(l0, [one', two], [], []);
    var s2, s3 := Shared(l0, [one', two'], [], []), Shared(l1, [one', two'.(emitted := true)], [], []);
    var s4 := Shared(l2, [one'.(emitted := true), two'.(emitted := true)], [], []);
    var s5 := Shared(l3, [one'.(emitted := true, written := true), two'.(emitted := true)], [], [20]);
    var s6 := Shared(l4, [one'.(emitted := true, written := true), two'.(emitted := true, written := true)], [], []);
    steps := BothBlocksRead();
    steps := GoOn(SomeKey(), steps, s0, Fetch(0, bad), s1);
    steps := GoOn(SomeKey(), steps, s1, Fetch(1, good), s2);
    steps := GoOn(SomeKey(), steps, s2, Emit(1), s3);
    steps := GoOn(SomeKey(), steps, s3, Emit(0), s4);
    steps := GoOn(SomeKey(), steps, s4, Write(0), s5);
    steps := GoOn(SomeKey(), steps, s5, Write(1), s6);
  }

  /** Two blocks in flight can leave an order open in the table and invalid in the events, although both
      found sane states and are done, and no later block that finds the order as the second one did says
      anything about it. */
  lemma RacingBlocksBreakAgreement()
    ensures exists steps ::
              && Exec(SomeKey(), steps).Some?
              && var s := Exec(SomeKey(), steps).value;
                 && AllDone(s) && (forall i | 0 <= i < |s.tasks| :: s.tasks[i].state.Some? && Sane(s.tasks[i].state.value))
                 && s.life.row == Some(Entry(0, 4, None))
                 && s.life.log != [] && s.life.log[|s.life.log| - 1] == OrderEvent(SomeKey(), 0, Invalid)
                 && forall block :: Revalidated(s.life, SomeKey(), StateOf(Fillable, 4, true), block) == s.life
  {
    var steps := TheRace();
    var l := Exec(SomeKey(), steps).value.life;
    assert l.log + [] == l.log;
  }
}
