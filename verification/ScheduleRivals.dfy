/** Any number of `schedule run` processes on one schedule.  Nothing keeps a second one out: the
    persisted cursor alone decides which process fires a slot. */
module ScheduleRivals {
  import opened Common
  import opened Schedule

  /** One row and one history of fired slots; every process has its own runner. */
  datatype Shared = Shared(row: Row, runners: map<nat, Runner>, fired: seq<int>)

  /** `step` taken by one process, or on the row from outside. */
  datatype Move = By(process: nat, step: Step)

  /** The schedule as one process sees it. */
  function View(s: Shared, p: nat): World {
    World(s.row, if p in s.runners then Some(s.runners[p]) else None, s.fired)
  }

  function Put(s: Shared, p: nat, w: World): Shared {
    Shared(w.row, if w.runner.Some? then s.runners[p := w.runner.value] else s.runners - {p}, w.fired)
  }

  function Moved(s: Shared, m: Move): Shared {
    Put(s, m.process, Next(View(s, m.process), m.step))
  }

  function RunAll(s: Shared, moves: seq<Move>): Shared
    decreases |moves|
  {
    if moves == [] then s else RunAll(Moved(s, moves[0]), moves[1..])
  }

  /** Nobody reconfigures the schedule; it may be switched off and on at any time. */
  predicate Unconfigured(moves: seq<Move>) {
    forall i :: 0 <= i < |moves| ==> !moves[i].step.Reconfigure?
  }

  /** Besides, it is enabled whenever a process checks or marks. */
  predicate EnabledWhenUsed(s: Shared, moves: seq<Move>)
    decreases |moves|
  {
    moves == []
    || (!moves[0].step.Reconfigure? && (moves[0].step.Check? || moves[0].step.Mark? ==> s.row.enabled)
        && EnabledWhenUsed(Moved(s, moves[0]), moves[1..]))
  }

  /** The mark is about to fire a slot beyond the cursor: both can be read before it. */
  predicate FiresAhead(w: World, step: Step) {
    Fires(w, step) && w.runner.value.next >= 1
    && w.row.cursor < Slot(w.runner.value.base, w.runner.value.interval, w.runner.value.next)
  }

  predicate NoneFiresAhead(s: Shared, moves: seq<Move>)
    decreases |moves|
  {
    moves == []
    || (!FiresAhead(View(s, moves[0].process), moves[0].step) && NoneFiresAhead(Moved(s, moves[0]), moves[1..]))
  }

  // ------------------------------------------------------------------- invariant

  ghost predicate Aligned(row: Row, origin: int, r: Runner) {
    SameSettings(row, r) && OnGrid(origin, row.interval, r.base) && 1 <= r.next
  }

  /** A process that has not failed is never ahead of what it believes the cursor to be, nor that
      ahead of the cursor. */
  ghost predicate Behind(row: Row, r: Runner) {
    && (r.turn.Some? && !r.turn.value.Entered? ==> !r.failed)
    && (!r.failed && 1 <= r.next ==> Slot(r.base, r.interval, r.next) <= r.expected <= row.cursor)
  }

  /** The row and the history, whoever looks at them. */
  ghost predicate TableOk(w: World, origin: int) {
    w.row.interval > 0 && OnGrid(origin, w.row.interval, w.row.cursor) && FiredOk(w, origin)
  }

  ghost predicate InvAll(s: Shared, origin: int) {
    && TableOk(World(s.row, None, s.fired), origin)
    && forall p {:trigger s.runners[p]} :: p in s.runners ==> Aligned(s.row, origin, s.runners[p])
  }

  ghost predicate NoneAhead(s: Shared) {
    forall p {:trigger s.runners[p]} :: p in s.runners ==> Behind(s.row, s.runners[p])
  }

  // -------------------------------------------------------------- one process's step

  /** No grid point lies strictly between a slot and the next. */
  lemma NotBefore(origin: int, interval: int, a: int, b: int)
    requires interval > 0 && OnGrid(origin, interval, a) && OnGrid(origin, interval, b) && a < b + interval
    ensures a <= b
  {
    var q: int :| b == origin + q * interval;
    GridGap(origin, interval, q, a);
  }

  lemma SlotAligned(row: Row, origin: int, r: Runner)
    requires row.interval > 0 && Aligned(row, origin, r)
    ensures var slot := Slot(r.base, r.interval, r.next);
            && OnGrid(origin, row.interval, slot) && OnGrid(origin, row.interval, slot + row.interval)
            && Slot(r.base, r.interval, r.next + 1) == slot + r.interval
  {
    var slot := Slot(r.base, r.interval, r.next);
    GridStep(origin, r.interval, r.base, r.next - 1);
    GridStep(origin, r.interval, slot, 1);
    MulNext(r.next - 1, r.interval);
  }

  /** A step of a process leaves the configuration alone, moves the cursor forward if at all, and
      fires no slot twice. */
  lemma OwnStep(w: World, origin: int, step: Step)
    requires TableOk(w, origin) && !step.Reconfigure? && (w.runner.Some? ==> Aligned(w.row, origin, w.runner.value))
    ensures var w' := Next(w, step);
            && TableOk(w', origin) && w'.row == w.row.(enabled := w'.row.enabled, cursor := w'.row.cursor)
            && w.row.cursor <= w'.row.cursor
            && (w'.runner.Some? ==> Aligned(w'.row, origin, w'.runner.value))
  {
    if step.Mark? {
      OwnMark(w, origin);
    }
    if step.Start? {
      BaseIsTheRightSlot(w.row.policy, w.row.interval, w.row.cursor, step.now);
      GridTrans(origin, w.row.cursor, Base(w.row.policy, w.row.interval, w.row.cursor, step.now), w.row.interval);
    }
  }

  lemma OwnMark(w: World, origin: int)
    requires TableOk(w, origin) && (w.runner.Some? ==> Aligned(w.row, origin, w.runner.value))
    ensures var w' := Next(w, Mark);
            && TableOk(w', origin) && w'.row == w.row.(cursor := w'.row.cursor) && w.row.cursor <= w'.row.cursor
            && (w'.runner.Some? ==> Aligned(w'.row, origin, w'.runner.value))
  {
    if w.runner.Some? && w.runner.value.turn == Some(Collected) {
      var r := w.runner.value;
      var slot := Slot(r.base, r.interval, r.next);
      SlotAligned(w.row, origin, r);
      if w.row.enabled && w.row.cursor < slot + r.interval {
        NotBefore(origin, r.interval, w.row.cursor, slot);
        MarkFired(w, origin, slot);
      }
    }
  }

  /** Under ALL, a process of an enabled schedule stays behind, and fires the cursor's slot at most. */
  lemma OwnStepBehind(w: World, origin: int, step: Step)
    requires TableOk(w, origin) && !step.Reconfigure? && w.row.policy.All?
    requires step.Check? || step.Mark? ==> w.row.enabled
    requires w.runner.Some? ==> Aligned(w.row, origin, w.runner.value) && Behind(w.row, w.runner.value)
    ensures var w' := Next(w, step);
            && (w'.runner.Some? ==> Behind(w'.row, w'.runner.value))
            && !FiresAhead(w, step)
  {
    if w.runner.Some? && w.runner.value.turn == Some(Collected) && step.Mark? {
      var r := w.runner.value;
      SlotAligned(w.row, origin, r);
      if w.row.cursor < Slot(r.base, r.interval, r.next) + r.interval {
        NotBefore(origin, r.interval, w.row.cursor, Slot(r.base, r.interval, r.next));
      }
    }
  }

  // ------------------------------------------------------------- all the processes

  lemma MoveKeeps(s: Shared, origin: int, m: Move)
    requires InvAll(s, origin) && !m.step.Reconfigure?
    ensures var s' := Moved(s, m);
            InvAll(s', origin) && s'.row.interval == s.row.interval && s'.row.policy == s.row.policy
  {
    OwnStep(View(s, m.process), origin, m.step);
  }

  lemma {:induction false} MovesKeep(s: Shared, origin: int, moves: seq<Move>)
    requires InvAll(s, origin) && Unconfigured(moves)
    ensures var s' := RunAll(s, moves);
            InvAll(s', origin) && s'.row.interval == s.row.interval && s'.row.policy == s.row.policy
    decreases |moves|
  {
    if moves != [] {
      MoveKeeps(s, origin, moves[0]);
      MovesKeep(Moved(s, moves[0]), origin, moves[1..]);
    }
  }

  /** A step opens a gap exactly by firing ahead of the cursor. */
  lemma OwnGap(w: World, origin: int, step: Step)
    requires TableOk(w, origin) && !step.Reconfigure? && (w.runner.Some? ==> Aligned(w.row, origin, w.runner.value))
    ensures NoGap(Next(w, step), origin) <==> NoGap(w, origin) && !FiresAhead(w, step)
  {
    var w' := Next(w, step);
    OwnStep(w, origin, step);
    if w'.fired != w.fired {
      var r := w.runner.value;
      SlotAligned(w.row, origin, r);
      NotBefore(origin, r.interval, w.row.cursor, Slot(r.base, r.interval, r.next));
      assert forall i :: 0 <= i < |w.fired| ==> w'.fired[i] == w.fired[i];
      if w.fired != [] {
        MulNext(|w.fired| - 1, w.row.interval);
      }
    }
  }

  lemma {:induction false} GapMoves(s: Shared, origin: int, moves: seq<Move>)
    requires InvAll(s, origin) && Unconfigured(moves)
    ensures NoGap(World(RunAll(s, moves).row, None, RunAll(s, moves).fired), origin)
            <==> NoGap(World(s.row, None, s.fired), origin) && NoneFiresAhead(s, moves)
    decreases |moves|
  {
    if moves != [] {
      MoveKeeps(s, origin, moves[0]);
      OwnGap(View(s, moves[0].process), origin, moves[0].step);
      GapMoves(Moved(s, moves[0]), origin, moves[1..]);
    }
  }

  lemma BehindMove(s: Shared, origin: int, m: Move)
    requires InvAll(s, origin) && NoneAhead(s) && s.row.policy.All?
    requires !m.step.Reconfigure? && (m.step.Check? || m.step.Mark? ==> s.row.enabled)
    ensures NoneAhead(Moved(s, m)) && !FiresAhead(View(s, m.process), m.step)
  {
    OwnStep(View(s, m.process), origin, m.step);
    OwnStepBehind(View(s, m.process), origin, m.step);
  }

  lemma {:induction false} BehindMoves(s: Shared, origin: int, moves: seq<Move>)
    requires InvAll(s, origin) && NoneAhead(s) && s.row.policy.All? && EnabledWhenUsed(s, moves)
    ensures NoneFiresAhead(s, moves)
    decreases |moves|
  {
    if moves != [] {
      MoveKeeps(s, origin, moves[0]);
      BehindMove(s, origin, moves[0]);
      BehindMoves(Moved(s, moves[0]), origin, moves[1..]);
    }
  }

  // ---------------------------------------------------------------- the main results

  function NewTable(policy: Policy, interval: int, origin: int): Shared {
    Shared(Row(true, policy, interval, 0, origin), map[], [])
  }

  lemma NewTableIsFine(policy: Policy, interval: int, origin: int)
    requires interval > 0
    ensures InvAll(NewTable(policy, interval, origin), origin)
  {
    assert origin == origin + 0 * interval;
  }

  /** Whatever any number of processes do at once, and whenever the schedule is switched off and
      on: no slot is fired twice, not even by two processes, fired slots strictly increase on the
      grid, and the cursor is just past the last one. */
  lemma RivalsFireForward(policy: Policy, interval: int, origin: int, moves: seq<Move>)
    requires interval > 0 && Unconfigured(moves)
    ensures var s := RunAll(NewTable(policy, interval, origin), moves);
            && (forall i, j :: 0 <= i < j < |s.fired| ==> s.fired[i] < s.fired[j])
            && (forall i :: 0 <= i < |s.fired| ==> OnGrid(origin, interval, s.fired[i]))
            && s.row.cursor == (if s.fired == [] then origin else s.fired[|s.fired| - 1] + interval)
  {
    NewTableIsFine(policy, interval, origin);
    MovesKeep(NewTable(policy, interval, origin), origin, moves);
  }

  /** Together the processes leave no gap if and only if none of them ever fires a slot beyond the
      cursor.  Under ALL none does as long as the schedule is enabled whenever one checks or marks:
      a process that lost a slot to another one catches up without firing. */
  lemma RivalsLeaveNoGapIff(policy: Policy, interval: int, origin: int, moves: seq<Move>)
    requires interval > 0 && Unconfigured(moves)
    ensures var s := NewTable(policy, interval, origin);
            var fired := RunAll(s, moves).fired;
            && ((forall i :: 0 <= i < |fired| ==> fired[i] == origin + i * interval) <==> NoneFiresAhead(s, moves))
            && (policy.All? && EnabledWhenUsed(s, moves) ==> NoneFiresAhead(s, moves))
  {
    var s := NewTable(policy, interval, origin);
    NewTableIsFine(policy, interval, origin);
    MovesKeep(s, origin, moves);
    GapMoves(s, origin, moves);
    if policy.All? && EnabledWhenUsed(s, moves) {
      BehindMoves(s, origin, moves);
    }
  }

  function Alone(p: nat, steps: seq<Step>): seq<Move> {
    seq(|steps|, i requires 0 <= i < |steps| => By(p, steps[i]))
  }

  /** With one process the table is the schedule of the one-runner model. */
  lemma {:induction false} AloneIsRun(s: Shared, p: nat, steps: seq<Step>)
    ensures View(RunAll(s, Alone(p, steps)), p) == Run(View(s, p), steps)
    decreases |steps|
  {
    if steps != [] {
      assert Alone(p, steps)[1..] == Alone(p, steps[1..]);
      AloneIsRun(Moved(s, By(p, steps[0])), p, steps[1..]);
    }
  }
}
