/** Periodic collection: catch-up arithmetic in whole microseconds, emission times, and worker
    threads that apply a schedule's events in order across crashes and restarts. */
module Schedule {
  import opened Common

  datatype Policy = All | Latest | Skip  // Skip is the source's NONE

  // ------------------------------------------------------------------- arithmetic

  /** `t` is a whole number of intervals away from `origin`. */
  ghost predicate OnGrid(origin: int, interval: int, t: int) {
    exists k: int :: t == origin + k * interval
  }

  /** `_effective_schedule_base`. */
  function Base(policy: Policy, interval: int, persisted: int, now: int): int
    requires interval > 0
  {
    if persisted >= now then persisted
    else match policy
      case All => persisted
      case Latest => persisted + (now - persisted) / interval * interval
      case Skip => persisted + (now - persisted + interval - 1) / interval * interval
  }

  /** `_post_initial_delay`. */
  function PostInitialDelay(policy: Policy, interval: int, base: int, started: int): int {
    if policy.Latest? && base <= started then (if base + interval - started < 0 then 0 else base + interval - started)
    else interval
  }

  function InitialDelay(base: int, started: int): int {
    if base <= started then 0 else base - started
  }

  /** The instant the trigger emits its `n`th event, as `PeriodicTrigger.output` computes it. */
  function EmittedAt(policy: Policy, interval: int, base: int, started: int, n: nat): int
    requires n >= 1
  {
    started + InitialDelay(base, started)
    + if n == 1 then 0 else PostInitialDelay(policy, interval, base, started) + (n - 2) * interval
  }

  /** `_event_scheduled_for`. */
  function Slot(base: int, interval: int, n: nat): int
    requires n >= 1
  {
    base + (n - 1) * interval
  }

  lemma GridStep(origin: int, interval: int, t: int, k: int)
    requires OnGrid(origin, interval, t)
    ensures OnGrid(origin, interval, t + k * interval)
  {
    var j: int :| t == origin + j * interval;
    assert (j + k) * interval == j * interval + k * interval;
  }

  lemma DivBounds(a: int, b: int)
    requires b > 0
    ensures a / b * b <= a < a / b * b + b
  {
  }

  /** No grid point lies strictly between two neighbours. */
  lemma NoneBetween(interval: int, a: int, k: int)
    requires interval > 0 && a < a + k * interval
    ensures a + interval <= a + k * interval
  {
    if k <= 0 {
      MulSign(k, interval);
    } else {
      MulSign(1 - k, interval);
      assert (1 - k) * interval == interval - k * interval;
    }
  }

  lemma MulSign(k: int, interval: int)
    requires k <= 0 && interval > 0
    ensures k * interval <= 0
  {
  }

  lemma LatestIsGreatest(interval: int, persisted: int, now: int)
    requires interval > 0 && persisted < now
    ensures var base := persisted + (now - persisted) / interval * interval;
            && OnGrid(persisted, interval, base) && persisted <= base <= now
            && forall t :: OnGrid(persisted, interval, t) && t <= now ==> t <= base
  {
    var q := (now - persisted) / interval;
    var base := persisted + q * interval;
    DivBounds(now - persisted, interval);
    forall t | OnGrid(persisted, interval, t) && base < t ensures t > now {
      GridGap(persisted, interval, q, t);
    }
  }

  lemma SkipIsLeast(interval: int, persisted: int, now: int)
    requires interval > 0 && persisted < now
    ensures var base := persisted + (now - persisted + interval - 1) / interval * interval;
            && OnGrid(persisted, interval, base) && persisted <= base && base >= now
            && forall t :: OnGrid(persisted, interval, t) && t >= now ==> t >= base
  {
    var q := (now - persisted + interval - 1) / interval;
    DivBounds(now - persisted + interval - 1, interval);
    forall t | OnGrid(persisted, interval, t) && t < persisted + q * interval ensures t < now {
      GridGap(persisted, interval, q, t);
    }
  }

  /** Grid points other than the `q`th are an interval away from it at least. */
  lemma GridGap(origin: int, interval: int, q: int, t: int)
    requires interval > 0 && OnGrid(origin, interval, t)
    ensures origin + q * interval < t ==> origin + q * interval + interval <= t
    ensures t < origin + q * interval ==> t + interval <= origin + q * interval
  {
    var k: int :| t == origin + k * interval;
    assert (k - q) * interval == k * interval - q * interval;
    assert (q - k) * interval == q * interval - k * interval;
    if origin + q * interval < t {
      NoneBetween(interval, origin + q * interval, k - q);
    }
    if t < origin + q * interval {
      NoneBetween(interval, t, q - k);
    }
  }

  /** A slot persisted at or after now is kept.  Otherwise LATEST starts at the greatest slot
      not after now, NONE at the least slot not before now, and ALL at the earliest missed one;
      all stay on the schedule's grid and never go back. */
  lemma BaseIsTheRightSlot(policy: Policy, interval: int, persisted: int, now: int)
    requires interval > 0
    ensures var base := Base(policy, interval, persisted, now);
            && OnGrid(persisted, interval, base) && persisted <= base
            && (persisted >= now || policy.All? ==> base == persisted)
            && (persisted < now && policy.Latest? ==>
                  (base <= now && forall t :: OnGrid(persisted, interval, t) && t <= now ==> t <= base))
            && (persisted < now && policy.Skip? ==>
                  (base >= now && forall t :: OnGrid(persisted, interval, t) && t >= now ==> t >= base))
  {
    assert persisted == persisted + 0 * interval;
    if persisted < now && policy.Latest? {
      LatestIsGreatest(interval, persisted, now);
    }
    if persisted < now && policy.Skip? {
      SkipIsLeast(interval, persisted, now);
    }
  }

  /** Emission against the clock: NONE and schedules not yet due emit every event exactly at its
      slot; LATEST does from the second event on, the first coming less than an interval late;
      ALL keeps the lag it starts with for ever. */
  lemma EmissionLag(policy: Policy, interval: int, persisted: int, started: int, n: nat)
    requires interval > 0 && n >= 1
    ensures var base := Base(policy, interval, persisted, started);
            var lag := EmittedAt(policy, interval, base, started, n) - Slot(base, interval, n);
            && (base >= started ==> lag == 0)
            && (base < started && policy.Latest? ==> if n == 1 then 0 < lag < interval else lag == 0)
            && (base < started && policy.All? ==> lag == started - persisted)
            && (base < started ==> !policy.Skip?)
  {
    var base := Base(policy, interval, persisted, started);
    BaseIsTheRightSlot(policy, interval, persisted, started);
    DivBounds(started - persisted, interval);
    assert n >= 2 ==> (n - 1) * interval == interval + (n - 2) * interval;
  }

  // -------------------------------------------------------------- the state machine

  /** The schedule's row; `settings` stands for its assignment and time zone. */
  datatype Row = Row(enabled: bool, policy: Policy, interval: int, settings: nat, cursor: int)

  /** The event a worker thread is applying. */
  datatype Turn = Entered | Checked | Collected

  /** A running `schedule run`: its base, the events emitted so far and those worker threads have
      dequeued, the sequence whose turn it is, and what it believes the cursor to be.  `applied`
      counts the events it has marked as fired and `last` is the latest of them. */
  datatype Runner = Runner(base: int, started: int, policy: Policy, interval: int, settings: nat, emitted: nat,
                           waiting: set<nat>, next: nat, turn: Option<Turn>, expected: int, failed: bool,
                           stopping: bool, applied: nat, last: nat)

  /** `fired` is the history of slots marked as fired. */
  datatype World = World(row: Row, runner: Option<Runner>, fired: seq<int>)

  datatype Step =
    | Start(now: int)
    | Emit
    | Dequeue(sequence: nat)
    | Enter(sequence: nat)
    | Check
    | Collect(succeeds: bool)
    | Mark
    | Stop
    | SetEnabled(enabled: bool)
    | Reconfigure(row: Row)

  /** The end of a turn: the next sequence may enter, whether this one failed or not. */
  function Left(r: Runner, failed: bool, stopping: bool): Runner {
    r.(turn := None, next := r.next + 1, failed := r.failed || failed, stopping := r.stopping || failed || stopping)
  }

  /** The configuration a runner compares the row with. */
  predicate SameSettings(row: Row, r: Runner) {
    row.policy == r.policy && row.interval == r.interval && row.settings == r.settings
  }

  function CheckTurn(row: Row, r: Runner): Runner
    requires r.turn == Some(Entered)
  {
    if r.failed then Left(r, true, true)
    else if !row.enabled then Left(r, false, true)
    else if !SameSettings(row, r) || row.cursor != r.expected then Left(r, true, true)
    else r.(turn := Some(Checked))
  }

  /** `mark_schedule_fired`, then the comparison with what it returned. */
  function MarkRow(row: Row, slot: int, interval: int): Row {
    if row.enabled && row.cursor < slot + interval then row.(cursor := slot + interval) else row
  }

  function Next(w: World, step: Step): World {
    match step
    case Start(now) =>
      if w.runner.Some? || !w.row.enabled || w.row.interval <= 0 then w
      else
        var base := Base(w.row.policy, w.row.interval, w.row.cursor, now);
        w.(runner := Some(Runner(base, now, w.row.policy, w.row.interval, w.row.settings, 0, {}, 1, None, w.row.cursor,
                                 false, false, 0, 0)))
    case Emit =>
      if w.runner.None? || w.runner.value.stopping then w
      else w.(runner := Some(w.runner.value.(emitted := w.runner.value.emitted + 1)))
    case Dequeue(n) =>
      if w.runner.None? || n < 1 || n > w.runner.value.emitted || n < w.runner.value.next
          || n in w.runner.value.waiting then w
      else w.(runner := Some(w.runner.value.(waiting := w.runner.value.waiting + {n})))
    case Enter(n) =>
      if w.runner.None? || w.runner.value.turn.Some? || n != w.runner.value.next || n !in w.runner.value.waiting then w
      else w.(runner := Some(w.runner.value.(turn := Some(Entered), waiting := w.runner.value.waiting - {n})))
    case Check =>
      if w.runner.None? || w.runner.value.turn != Some(Entered) then w
      else w.(runner := Some(CheckTurn(w.row, w.runner.value)))
    case Collect(succeeds) =>
      if w.runner.None? || w.runner.value.turn != Some(Checked) || w.runner.value.next < 1 then w
      else
        var r := w.runner.value;
        if !succeeds then w.(runner := Some(Left(r, true, true)))
        else w.(runner := Some(r.(turn := Some(Collected))))
    case Mark =>
      if w.runner.None? || w.runner.value.turn != Some(Collected) || w.runner.value.next < 1 then w
      else
        var r := w.runner.value;
        var slot := Slot(r.base, r.interval, r.next);
        var row := MarkRow(w.row, slot, r.interval);
        var marked := row != w.row;
        var changed := row.enabled && !SameSettings(row, r);
        var r' := if marked then r.(applied := r.applied + 1, last := r.next) else r;
        w.(row := row, fired := if marked then w.fired + [slot] else w.fired,
           runner := Some(Left(r'.(expected := row.cursor), changed, !row.enabled)))
    case Stop => w.(runner := None)
    case SetEnabled(enabled) => w.(row := w.row.(enabled := enabled))
    case Reconfigure(row) => w.(row := row)
  }

  /** Any thread order, crashes, restarts and reconfigurations. */
  function Run(w: World, steps: seq<Step>): World
    decreases |steps|
  {
    if steps == [] then w else Run(Next(w, steps[0]), steps[1..])
  }

  /** Nobody reconfigures the schedule, and it is enabled whenever a runner starts, checks or
      marks; in between it may be off. */
  predicate Steady(w: World, steps: seq<Step>)
    decreases |steps|
  {
    steps == []
    || (!steps[0].Reconfigure? && (steps[0].Start? || steps[0].Check? || steps[0].Mark? ==> w.row.enabled)
        && Steady(Next(w, steps[0]), steps[1..]))
  }

  /** Nobody reconfigures the schedule; it may be switched off and on at any time. */
  predicate Unchanged(steps: seq<Step>) {
    forall i :: 0 <= i < |steps| ==> !steps[i].Reconfigure?
  }

  // ------------------------------------------------------------------- invariant

  ghost predicate FiredOk(w: World, origin: int) {
    && (forall i :: 0 <= i < |w.fired| ==> OnGrid(origin, w.row.interval, w.fired[i]))
    && (forall i, j :: 0 <= i < j < |w.fired| ==> w.fired[i] < w.fired[j])
    && (if w.fired == [] then w.row.cursor == origin else w.fired[|w.fired| - 1] + w.row.interval == w.row.cursor)
  }

  /** A runner that has not failed is in step with the row: the cursor is just past the last
      event it fired. */
  ghost predicate InStep(row: Row, r: Runner) {
    && r.expected == row.cursor
    && (if r.last == 0 then r.base >= row.cursor && (r.policy.All? ==> r.base == row.cursor)
        else row.cursor == r.base + r.last * r.interval)
  }

  ghost predicate RunnerOk(w: World, origin: int, r: Runner) {
    && SameSettings(w.row, r) && OnGrid(origin, w.row.interval, r.base)
    && r.last < r.next && (!r.failed ==> InStep(w.row, r))
    && (r.turn.Some? && !r.turn.value.Entered? ==> !r.failed)
  }

  ghost predicate Inv(w: World, origin: int) {
    && w.row.interval > 0 && OnGrid(origin, w.row.interval, w.row.cursor)
    && FiredOk(w, origin) && (w.runner.Some? ==> RunnerOk(w, origin, w.runner.value))
  }

  /** The slots fired are the first ones of the schedule, one after another. */
  ghost predicate NoGap(w: World, origin: int) {
    forall i :: 0 <= i < |w.fired| ==> w.fired[i] == origin + i * w.row.interval
  }

  /** The last `applied` slots fired are the runner's first `applied` events. */
  ghost predicate AppliedOk(w: World, r: Runner) {
    && r.applied <= |w.fired|
    && forall j :: |w.fired| - r.applied <= j < |w.fired| ==>
         w.fired[j] == Slot(r.base, r.interval, j - (|w.fired| - r.applied) + 1)
  }

  /** What a steady schedule keeps besides: no gap under ALL, and no turn of the runner passed over. */
  ghost predicate SteadyInv(w: World, origin: int) {
    && Inv(w, origin) && (w.row.policy.All? ==> NoGap(w, origin))
    && (w.runner.Some? ==>
          var r := w.runner.value;
          AppliedOk(w, r) && r.last == r.applied < r.next && (!r.failed ==> r.next == r.applied + 1))
  }

  lemma GridTrans(a: int, b: int, c: int, interval: int)
    requires OnGrid(a, interval, b) && OnGrid(b, interval, c)
    ensures OnGrid(a, interval, c)
  {
    var k: int :| c == b + k * interval;
    GridStep(a, interval, b, k);
  }

  lemma StartKeeps(w: World, origin: int, now: int)
    requires Inv(w, origin)
    ensures Inv(Next(w, Start(now)), origin)
  {
    if w.runner.None? && w.row.enabled {
      var base := Base(w.row.policy, w.row.interval, w.row.cursor, now);
      BaseIsTheRightSlot(w.row.policy, w.row.interval, w.row.cursor, now);
      GridTrans(origin, w.row.cursor, base, w.row.interval);
    }
  }

  lemma MulNext(k: int, interval: int)
    ensures (k + 1) * interval == k * interval + interval
  {
  }

  lemma MarkFired(w: World, origin: int, slot: int)
    requires w.row.interval > 0 && FiredOk(w, origin) && slot >= w.row.cursor && OnGrid(origin, w.row.interval, slot)
    ensures FiredOk(w.(row := w.row.(cursor := slot + w.row.interval), fired := w.fired + [slot]), origin)
  {
  }

  /** The slot of the event whose turn it is, seen from the cursor. */
  lemma SlotIsNext(w: World, origin: int)
    requires Inv(w, origin) && w.runner.Some? && !w.runner.value.failed
    ensures var r := w.runner.value;
            var slot := Slot(r.base, r.interval, r.next);
            && slot >= w.row.cursor && OnGrid(origin, w.row.interval, slot)
                 && OnGrid(origin, w.row.interval, slot + w.row.interval)
            && (w.row.policy.All? || r.last > 0 ==> (slot == w.row.cursor <==> r.last == r.next - 1))
            && slot + r.interval == r.base + r.next * r.interval
  {
    var r := w.runner.value;
    var slot := Slot(r.base, r.interval, r.next);
    GridStep(origin, r.interval, r.base, r.next - 1);
    GridStep(origin, r.interval, slot, 1);
    MulNext(r.next - 1, r.interval);
    MulBelow(r.last, r.next - 1, r.interval);
  }

  lemma MulBelow(a: int, b: int, interval: int)
    requires a <= b && interval > 0
    ensures a * interval <= b * interval && (a * interval == b * interval <==> a == b)
  {
    assert (b - a) * interval == b * interval - a * interval;
    if a < b {
      MulSign(1 - (b - a), interval);
      assert (1 - (b - a)) * interval == interval - (b - a) * interval;
    }
  }

  /** Marking the event whose turn it is moves the cursor just past its slot, and never back. */
  lemma MarkKeeps(w: World, origin: int)
    requires Inv(w, origin)
    ensures var w' := Next(w, Mark);
            && Inv(w', origin) && w.row.cursor <= w'.row.cursor
            && (w'.row != w.row ==>
                  var r := w.runner.value;
                  var slot := Slot(r.base, r.interval, r.next);
                  w'.row.cursor == slot + w.row.interval && slot >= w.row.cursor && w'.fired == w.fired + [slot])
  {
    if w.runner.Some? && w.runner.value.turn == Some(Collected) {
      SlotIsNext(w, origin);
      MarkFired(w, origin, Slot(w.runner.value.base, w.runner.value.interval, w.runner.value.next));
    }
  }

  lemma StepKeeps(w: World, origin: int, step: Step)
    requires Inv(w, origin) && !step.Reconfigure?
    ensures Inv(Next(w, step), origin)
  {
    match step
    case Start(now) => StartKeeps(w, origin, now);
    case Mark => MarkKeeps(w, origin);
    case _ =>
  }

  lemma {:induction false} RunKeeps(w: World, origin: int, steps: seq<Step>)
    requires Inv(w, origin) && Unchanged(steps)
    ensures Inv(Run(w, steps), origin)
    decreases |steps|
  {
    if steps != [] {
      StepKeeps(w, origin, steps[0]);
      RunKeeps(Next(w, steps[0]), origin, steps[1..]);
    }
  }

  /** With no gap so far, the cursor is as many slots on as have been fired. */
  lemma CursorCounts(w: World, origin: int)
    requires Inv(w, origin) && NoGap(w, origin)
    ensures w.row.cursor == origin + |w.fired| * w.row.interval
  {
    if w.fired != [] {
      MulNext(|w.fired| - 1, w.row.interval);
    }
  }

  lemma SteadyMarkKeeps(w: World, origin: int)
    requires SteadyInv(w, origin) && w.row.enabled
    ensures SteadyInv(Next(w, Mark), origin)
  {
    MarkKeeps(w, origin);
    if w.runner.Some? && w.runner.value.turn == Some(Collected) {
      SlotIsNext(w, origin);
      if w.row.policy.All? {
        CursorCounts(w, origin);
      }
      MulNext(w.runner.value.applied, w.row.interval);
    }
  }

  lemma SteadyKeeps(w: World, origin: int, step: Step)
    requires SteadyInv(w, origin) && !step.Reconfigure? && (step.Start? || step.Check? || step.Mark? ==> w.row.enabled)
    ensures SteadyInv(Next(w, step), origin)
  {
    StepKeeps(w, origin, step);
    if step.Mark? {
      SteadyMarkKeeps(w, origin);
    }
  }

  lemma {:induction false} SteadyRunKeeps(w: World, origin: int, steps: seq<Step>)
    requires SteadyInv(w, origin) && Steady(w, steps)
    ensures SteadyInv(Run(w, steps), origin)
    decreases |steps|
  {
    if steps != [] {
      SteadyKeeps(w, origin, steps[0]);
      SteadyRunKeeps(Next(w, steps[0]), origin, steps[1..]);
    }
  }

  // ---------------------------------------------------------------- the main results

  function NewSchedule(policy: Policy, interval: int, origin: int): World {
    World(Row(true, policy, interval, 0, origin), None, [])
  }

  /** Over any restarts, crashes and thread orders of a steady schedule: fired slots strictly
      increase, stay on the schedule's grid, and under ALL leave no gap; the events a runner
      has applied are its first ones, and the cursor is that many intervals from its base. */
  lemma FiresInOrder(policy: Policy, interval: int, origin: int, steps: seq<Step>)
    requires interval > 0 && Steady(NewSchedule(policy, interval, origin), steps)
    ensures var w := Run(NewSchedule(policy, interval, origin), steps);
            && w.row.interval == interval && w.row.policy == policy
            && (forall i, j :: 0 <= i < j < |w.fired| ==> w.fired[i] < w.fired[j])
            && (forall i :: 0 <= i < |w.fired| ==> OnGrid(origin, interval, w.fired[i]))
            && (policy.All? ==> forall i :: 0 <= i < |w.fired| ==> w.fired[i] == origin + i * interval)
            && (w.runner.Some? ==>
                  var r := w.runner.value;
                  && r.applied <= |w.fired| && r.applied < r.next && (!r.failed ==> r.applied == r.next - 1)
                  && (forall j :: |w.fired| - r.applied <= j < |w.fired| ==>
                        w.fired[j] == Slot(r.base, interval, j - (|w.fired| - r.applied) + 1))
                  && (!r.failed && r.applied > 0 ==> w.row.cursor == r.base + r.applied * interval))
  {
    var w := NewSchedule(policy, interval, origin);
    assert origin == origin + 0 * interval;
    SteadyRunKeeps(w, origin, steps);
    SteadyIsUnchanged(w, steps);
    SameConfiguration(w, steps);
  }

  lemma {:induction false} SteadyIsUnchanged(w: World, steps: seq<Step>)
    requires Steady(w, steps)
    ensures Unchanged(steps)
    decreases |steps|
  {
    if steps != [] {
      SteadyIsUnchanged(Next(w, steps[0]), steps[1..]);
      assert forall i :: 0 < i < |steps| ==> steps[i] == steps[1..][i - 1];
    }
  }

  /** Even if the schedule is switched off and on at any time: fired slots strictly increase on
      its grid, and the cursor is just past the last one. */
  lemma FiresForward(policy: Policy, interval: int, origin: int, steps: seq<Step>)
    requires interval > 0 && Unchanged(steps)
    ensures var w := Run(NewSchedule(policy, interval, origin), steps);
            && (forall i, j :: 0 <= i < j < |w.fired| ==> w.fired[i] < w.fired[j])
            && (forall i :: 0 <= i < |w.fired| ==> OnGrid(origin, interval, w.fired[i]))
            && w.row.cursor == (if w.fired == [] then origin else w.fired[|w.fired| - 1] + interval)
            && (w.runner.Some? && !w.runner.value.failed && w.runner.value.last > 0 ==>
                  w.row.cursor == w.runner.value.base + w.runner.value.last * interval)
  {
    var w := NewSchedule(policy, interval, origin);
    assert origin == origin + 0 * interval;
    RunKeeps(w, origin, steps);
    SameConfiguration(w, steps);
  }

  /** The mark is about to take effect: a collected event on an enabled schedule. */
  predicate Fires(w: World, step: Step) {
    step.Mark? && w.runner.Some? && w.runner.value.turn == Some(Collected) && w.row.enabled
  }

  /** Turns of the runner passed over since the last event it fired. */
  function Passed(r: Runner): int {
    r.next - 1 - r.last
  }

  /** A turn that does not fail is passed over only while the schedule is off. */
  lemma PassedOnlyWhenOff(w: World, origin: int, step: Step)
    requires Inv(w, origin) && !step.Reconfigure? && w.runner.Some?
    requires var w' := Next(w, step);
             w'.runner.Some? && !w'.runner.value.failed && Passed(w'.runner.value) > Passed(w.runner.value)
    ensures (step.Check? || step.Mark?) && !w.row.enabled
  {
    if step.Mark? && w.runner.value.turn == Some(Collected) {
      SlotIsNext(w, origin);
    }
  }

  /** A mark under ALL fires the schedule's own next slot exactly if no turn of the runner was
      passed over since the last event it fired. */
  lemma MarkFiresTheCursorIff(w: World, origin: int)
    requires Inv(w, origin) && w.row.policy.All? && Fires(w, Mark)
    ensures var w' := Next(w, Mark);
            |w'.fired| == |w.fired| + 1 && (w'.fired[|w.fired|] == w.row.cursor <==> Passed(w.runner.value) == 0)
  {
    SlotIsNext(w, origin);
  }

  /** Whenever an event of the run fires, no turn before it was passed over. */
  predicate NonePassed(w: World, steps: seq<Step>)
    decreases |steps|
  {
    steps == []
    || ((Fires(w, steps[0]) ==> Passed(w.runner.value) == 0) && NonePassed(Next(w, steps[0]), steps[1..]))
  }

  lemma GapStep(w: World, origin: int, step: Step)
    requires Inv(w, origin) && w.row.policy.All? && !step.Reconfigure?
    ensures NoGap(Next(w, step), origin) <==> NoGap(w, origin) && (Fires(w, step) ==> Passed(w.runner.value) == 0)
  {
    var w' := Next(w, step);
    if Fires(w, step) {
      SlotIsNext(w, origin);
      MarkFiresTheCursorIff(w, origin);
      assert forall i :: 0 <= i < |w.fired| ==> w'.fired[i] == w.fired[i];
      if NoGap(w, origin) {
        CursorCounts(w, origin);
      }
    } else {
      assert w'.fired == w.fired;
    }
  }

  lemma {:induction false} GapRun(w: World, origin: int, steps: seq<Step>)
    requires Inv(w, origin) && w.row.policy.All? && Unchanged(steps)
    ensures NoGap(Run(w, steps), origin) <==> NoGap(w, origin) && NonePassed(w, steps)
    decreases |steps|
  {
    if steps != [] {
      StepKeeps(w, origin, steps[0]);
      GapStep(w, origin, steps[0]);
      GapRun(Next(w, steps[0]), origin, steps[1..]);
    }
  }

  /** ALL leaves no gap in a run, restarts and crashes included, if and only if every event it
      fired found no turn of its runner passed over while the schedule was off. */
  lemma AllLeavesNoGapIff(interval: int, origin: int, steps: seq<Step>)
    requires interval > 0 && Unchanged(steps)
    ensures var w := NewSchedule(All, interval, origin);
            NoGap(Run(w, steps), origin) <==> NonePassed(w, steps)
  {
    var w := NewSchedule(All, interval, origin);
    assert origin == origin + 0 * interval;
    GapRun(w, origin, steps);
  }

  lemma {:induction false} SameConfiguration(w: World, steps: seq<Step>)
    requires Unchanged(steps)
    ensures Run(w, steps).row.interval == w.row.interval && Run(w, steps).row.policy == w.row.policy
    decreases |steps|
  {
    if steps != [] {
      SameConfiguration(Next(w, steps[0]), steps[1..]);
    }
  }

  ghost predicate Reaches(w: World, w': World) {
    exists steps :: Run(w, steps) == w'
  }

  lemma ReachNext(w: World, w': World, step: Step)
    requires Reaches(w, w')
    ensures Reaches(w, Next(w', step))
  {
    var steps :| Run(w, steps) == w';
    RunConcat(w, steps, [step]);
    assert [step][1..] == [];
    assert Run(w, steps + [step]) == Next(w', step);
  }

  lemma {:induction false} RunConcat(w: World, a: seq<Step>, b: seq<Step>)
    ensures Run(w, a + b) == Run(Run(w, a), b)
    decreases |a|
  {
    if a == [] {
      assert a + b == b;
    } else {
      assert (a + b)[1..] == a[1..] + b;
      RunConcat(Next(w, a[0]), a[1..], b);
    }
  }

  /** A runner of an ALL schedule of interval 10 from 0, with two events emitted. */
  function Scene(enabled: bool, waiting: set<nat>, next: nat, turn: Option<Turn>, stopping: bool): World {
    var runner := Runner(0, 0, All, 10, 0, 2, waiting, next, turn, 0, false, stopping, 0, 0);
    World(Row(enabled, All, 10, 0, 0), Some(runner), [])
  }

  lemma SceneStarted()
    ensures Reaches(NewSchedule(All, 10, 0), Scene(true, {1, 2}, 1, None, false))
  {
    var w := NewSchedule(All, 10, 0);
    assert Run(w, []) == w;
    ReachNext(w, w, Start(0));
    var w1 := Next(w, Start(0));
    ReachNext(w, w1, Emit);
    var w2 := Next(w1, Emit);
    ReachNext(w, w2, Emit);
    var w3 := Next(w2, Emit);
    ReachNext(w, w3, Dequeue(1));
    var w4 := Next(w3, Dequeue(1));
    ReachNext(w, w4, Dequeue(2));
    assert {} + {1} == {1} && {1} + {2} == {1, 2};
    assert Next(w4, Dequeue(2)) == Scene(true, {1, 2}, 1, None, false);
  }

  /** A schedule switched off for one turn and on again before the next loses that turn's slot:
      the runner goes on without failing, and even under ALL the slot is never fired. */
  lemma DisabledTurnLosesItsSlot()
    ensures exists w ::
              Reaches(NewSchedule(All, 10, 0), w) && w.fired == [10] && w.runner.Some? && !w.runner.value.failed
  {
    var w := NewSchedule(All, 10, 0);
    SceneStarted();
    ReachNext(w, Scene(true, {1, 2}, 1, None, false), SetEnabled(false));
    ReachNext(w, Scene(false, {1, 2}, 1, None, false), Enter(1));
    assert {1, 2} - {1} == {2};
    ReachNext(w, Scene(false, {2}, 1, Some(Entered), false), Check);
    ReachNext(w, Scene(false, {2}, 2, None, true), SetEnabled(true));
    ReachNext(w, Scene(true, {2}, 2, None, true), Enter(2));
    assert {2} - {2} == {};
    ReachNext(w, Scene(true, {}, 2, Some(Entered), true), Check);
    ReachNext(w, Scene(true, {}, 2, Some(Checked), true), Collect(true));
    ReachNext(w, Scene(true, {}, 2, Some(Collected), true), Mark);
    assert Next(Scene(true, {}, 2, Some(Collected), true), Mark).fired == [10];
  }
}
