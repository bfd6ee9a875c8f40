/** Where a schedule runner starts, what that means for the slots it fires, and when a turn fires. */
module ScheduleStarts {
  import opened Common
  import opened Schedule

  /** A start takes effect on an enabled schedule that has no runner.  Its first slot lies on the
      grid.  A cursor at or after now is kept, and so is any under ALL; otherwise LATEST takes the
      greatest slot not after now and NONE the least slot not before now. */
  lemma StartIsOnTheRightSlot(w: World, now: int)
    requires w.runner.None? && w.row.enabled && w.row.interval > 0
    ensures var w' := Next(w, Start(now));
            && w'.runner.Some? && w'.row == w.row && w'.fired == w.fired
            && var r := w'.runner.value;
            && r.started == now && r.next == 1 && r.turn.None? && !r.failed && !r.stopping && r.emitted == 0
            && r.expected == w.row.cursor && r.policy == w.row.policy && r.interval == w.row.interval
            && r.settings == w.row.settings && OnGrid(w.row.cursor, w.row.interval, r.base) && w.row.cursor <= r.base
            && (w.row.cursor >= now || w.row.policy.All? ==> r.base == w.row.cursor)
            && (w.row.cursor < now && w.row.policy.Latest? ==>
                  r.base <= now && forall t :: OnGrid(w.row.cursor, w.row.interval, t) && t <= now ==> t <= r.base)
            && (w.row.cursor < now && w.row.policy.Skip? ==>
                  r.base >= now && forall t :: OnGrid(w.row.cursor, w.row.interval, t) && t >= now ==> t >= r.base)
  {
    BaseIsTheRightSlot(w.row.policy, w.row.interval, w.row.cursor, now);
  }

  /** A history beside the run: when the present runner started, and how many slots had been fired. */
  datatype Opening = Opening(now: int, already: nat)

  function Opened(o: Option<Opening>, w: World, step: Step): Option<Opening> {
    if Next(w, step).runner.None? then None
    else if w.runner.None? && step.Start? then Some(Opening(step.now, |w.fired|))
    else o
  }

  function OpeningOf(w: World, o: Option<Opening>, steps: seq<Step>): Option<Opening>
    decreases |steps|
  {
    if steps == [] then o else OpeningOf(Next(w, steps[0]), Opened(o, w, steps[0]), steps[1..])
  }

  ghost predicate StartedWell(w: World, r: Runner, o: Opening) {
    && SameSettings(w.row, r) && 1 <= r.next && o.already <= |w.fired| && (o.already < |w.fired| ==> 2 <= r.next)
    && (w.row.policy.Skip? ==> r.base >= o.now)
    && (w.row.policy.Latest? ==> r.base + w.row.interval > o.now)
  }

  /** The slots fired since are at or after the base, all but the first of them beyond it. */
  ghost predicate FiredSince(w: World, r: Runner, o: Opening) {
    && (forall i :: o.already <= i < |w.fired| ==> w.fired[i] >= r.base)
    && (forall i :: o.already < i < |w.fired| ==> w.fired[i] >= r.base + w.row.interval)
  }

  ghost predicate OpeningOk(w: World, o: Option<Opening>) {
    && w.row.interval > 0
    && (w.runner.Some? ==> o.Some? && StartedWell(w, w.runner.value, o.value) && FiredSince(w, w.runner.value, o.value))
  }

  lemma StartOpens(w: World, o: Option<Opening>, now: int)
    requires OpeningOk(w, o)
    ensures OpeningOk(Next(w, Start(now)), Opened(o, w, Start(now)))
  {
    if w.runner.None? && w.row.enabled {
      StartIsOnTheRightSlot(w, now);
      if w.row.cursor < now && w.row.policy.Latest? {
        DivBounds(now - w.row.cursor, w.row.interval);
      }
    }
  }

  lemma MarkStaysOpen(w: World, o: Option<Opening>)
    requires OpeningOk(w, o)
    ensures OpeningOk(Next(w, Mark), Opened(o, w, Mark))
  {
    if w.runner.Some? {
      var r := w.runner.value;
      MulBelow(0, r.next - 1, r.interval);
      if r.next >= 2 {
        MulBelow(1, r.next - 1, r.interval);
      }
    }
  }

  lemma StepStaysOpen(w: World, o: Option<Opening>, step: Step)
    requires OpeningOk(w, o) && !step.Reconfigure?
    ensures OpeningOk(Next(w, step), Opened(o, w, step))
    ensures Next(w, step).row.policy == w.row.policy && Next(w, step).row.interval == w.row.interval
  {
    if step.Start? {
      StartOpens(w, o, step.now);
    } else if step.Mark? {
      MarkStaysOpen(w, o);
    }
  }

  lemma {:induction false} RunStaysOpen(w: World, o: Option<Opening>, steps: seq<Step>)
    requires OpeningOk(w, o) && Unchanged(steps)
    ensures OpeningOk(Run(w, steps), OpeningOf(w, o, steps))
    ensures Run(w, steps).row.policy == w.row.policy && Run(w, steps).row.interval == w.row.interval
    decreases |steps|
  {
    if steps != [] {
      StepStaysOpen(w, o, steps[0]);
      RunStaysOpen(Next(w, steps[0]), Opened(o, w, steps[0]), steps[1..]);
    }
  }

  /** In every run that is not reconfigured, however it is switched, crashes and restarts: under
      NONE no slot that the present runner fired lies before its start; under LATEST at most the
      first one does, by less than an interval. */
  lemma FiresNothingMissed(policy: Policy, interval: int, origin: int, steps: seq<Step>)
    requires interval > 0 && Unchanged(steps)
    ensures var w := Run(NewSchedule(policy, interval, origin), steps);
            var o := OpeningOf(NewSchedule(policy, interval, origin), None, steps);
            w.runner.Some? ==>
              && o.Some? && o.value.already <= |w.fired|
              && forall i :: o.value.already <= i < |w.fired| ==>
                   && (policy.Skip? ==> w.fired[i] >= o.value.now)
                   && (policy.Latest? ==> w.fired[i] > o.value.now - interval)
                   && (policy.Latest? && i > o.value.already ==> w.fired[i] >= o.value.now)
  {
    RunStaysOpen(NewSchedule(policy, interval, origin), None, steps);
  }

  /** The turn of the next event, from entering to marking, with no other step between. */
  function WholeTurn(w: World, collects: bool): World
    requires w.runner.Some?
  {
    Next(Next(Next(Next(w, Enter(w.runner.value.next)), Check), Collect(collects)), Mark)
  }

  /** The row is as the runner knows it: the configuration it started with, the cursor it left. */
  predicate RowStands(row: Row, r: Runner) {
    && row.policy == r.policy && row.interval == r.interval && row.settings == r.settings && row.cursor == r.expected
  }

  /** A turn fires its slot exactly if no turn before it failed, the schedule is enabled, its policy,
      interval, assignment, time zone and cursor are those the runner knows, the collection
      succeeds and the cursor is not past the slot.  Then the cursor is one interval past the slot.
      Otherwise row and history are as they were. */
  lemma TurnFiresIff(w: World, collects: bool)
    requires w.runner.Some? && w.runner.value.turn.None? && w.runner.value.next >= 1
    requires w.runner.value.next in w.runner.value.waiting
    ensures var r := w.runner.value;
            var slot := r.base + (r.next - 1) * r.interval;
            var w' := WholeTurn(w, collects);
            && w'.runner.Some? && w'.runner.value.turn.None? && w'.runner.value.next == r.next + 1
            && w'.runner.value.waiting == r.waiting - {r.next}
            && if !r.failed && w.row.enabled && RowStands(w.row, r) && collects && w.row.cursor < slot + r.interval then
                 && w'.fired == w.fired + [slot] && w'.row == w.row.(cursor := slot + r.interval)
                 && w'.runner.value.expected == w'.row.cursor && w'.runner.value.stopping == r.stopping
               else w'.fired == w.fired && w'.row == w.row
  {
  }

  /** And it stops the runner exactly if a turn before it failed, the schedule is off, the row is
      not as the runner knows it, or the collection fails; all but the second count as a failure. */
  lemma TurnStopsIff(w: World, collects: bool)
    requires w.runner.Some? && w.runner.value.turn.None? && w.runner.value.next >= 1
    requires w.runner.value.next in w.runner.value.waiting && !w.runner.value.stopping
    ensures var r := w.runner.value;
            var r' := WholeTurn(w, collects).runner;
            && r'.Some?
            && (r'.value.stopping <==> r.failed || !w.row.enabled || !RowStands(w.row, r) || !collects)
            && (r'.value.failed <==> r.failed || (w.row.enabled && (!RowStands(w.row, r) || !collects)))
  {
  }
}
