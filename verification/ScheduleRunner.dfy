/** `schedule run` as it runs: `handle_due` and the loop that drains a runner's events. */
module ScheduleRunner {
  import opened Common
  import opened Schedule

  /** One whole turn: the event enters, the row is checked, the collection runs, the slot is
      marked; steps after a failed one do nothing. */
  function TurnOf(w: World, sequence: nat, collects: bool): World {
    Next(Next(Next(Next(w, Enter(sequence)), Check), Collect(collects)), Mark)
  }

  class ScheduleRunner {
    var row: Row
    var runner: Option<Runner>
    ghost var fired: seq<int>

    ghost function State(): World reads this {
      World(row, runner, fired)
    }

    constructor (policy: Policy, interval: int, origin: int)
      ensures State() == NewSchedule(policy, interval, origin)
    {
      row, runner, fired := Row(true, policy, interval, 0, origin), None, [];
    }

    method Start(now: int) returns (started: bool)
      requires row.interval > 0
      modifies `runner
      ensures State() == Next(old(State()), Step.Start(now))
      ensures started <==> old(runner).None? && runner.Some?
    {
      started := runner.None? && row.enabled;
      if started {
        var base := row.cursor;
        if base < now {
          var elapsed := now - base;
          match row.policy {
            case All =>
            case Latest => base := base + elapsed / row.interval * row.interval;
            case Skip => base := base + (elapsed + row.interval - 1) / row.interval * row.interval;
          }
        }
        runner := Some(Runner(base, now, row.policy, row.interval, row.settings, 0, {}, 1, None, row.cursor, false,
            false, 0, 0));
      }
    }

    /** `handle_due` for the event whose turn it is. */
    method HandleDue(sequence: nat, collects: bool)
      requires runner.Some? && runner.value.turn.None? && sequence == runner.value.next >= 1
      requires sequence in runner.value.waiting
      modifies this
      ensures State() == TurnOf(old(State()), sequence, collects)
    {
      var r := runner.value.(waiting := runner.value.waiting - {sequence}, turn := Some(Entered));
      if r.failed {
        runner := Some(Left(r, true, true));
        return;
      }
      if !row.enabled {
        runner := Some(Left(r, false, true));
        return;
      }
      if !SameSettings(row, r) || row.cursor != r.expected {
        runner := Some(Left(r, true, true));
        return;
      }
      var slot := r.base + (sequence - 1) * r.interval;
      if !collects {
        runner := Some(Left(r.(turn := Some(Checked)), true, true));
        return;
      }
      r := r.(turn := Some(Collected));
      if row.cursor < slot + r.interval {
        row := row.(cursor := slot + r.interval);
        fired := fired + [slot];
        r := r.(applied := r.applied + 1, last := sequence);
      }
      runner := Some(Left(r.(expected := row.cursor), false, false));
    }

    /** A turn whose collection succeeds, on an enabled schedule nobody else has touched. */
    method Apply(ghost origin: int)
      requires SteadyInv(State(), origin) && row.enabled && runner.Some? && runner.value.turn.None?
      requires !runner.value.failed
      requires runner.value.next in runner.value.waiting
      modifies this
      ensures SteadyInv(State(), origin) && row.enabled && row.interval == old(row).interval && runner.Some?
      ensures runner.value.turn.None? && !runner.value.failed && runner.value.base == old(runner).value.base
      ensures runner.value.emitted == old(runner).value.emitted && runner.value.next == old(runner).value.next + 1
      ensures runner.value.waiting == old(runner).value.waiting - {old(runner).value.next}
      ensures fired == old(fired) + [Slot(old(runner).value.base, old(row).interval, old(runner).value.next)]
    {
      var n := runner.value.next;
      TurnKeeps(State(), origin, n);
      HandleDue(n, true);
    }

    /** Worker threads have dequeued everything that was emitted, in whatever order.  The turns
        come in sequence all the same, and while collections succeed the slots fired are the
        runner's events one after another. */
    method Drain(ghost origin: int)
      requires SteadyInv(State(), origin) && row.enabled && runner.Some? && runner.value.turn.None?
      requires !runner.value.failed
      requires forall n: nat :: runner.value.next <= n <= runner.value.emitted ==> n in runner.value.waiting
      requires runner.value.next <= runner.value.emitted + 1
      modifies this
      ensures SteadyInv(State(), origin) && runner.Some? && !runner.value.failed
      ensures runner.value.base == old(runner).value.base
      ensures runner.value.applied == runner.value.emitted == old(runner).value.emitted
      ensures AppliedOk(State(), runner.value) && old(fired) <= fired
    {
      ghost var before, r0 := fired, runner.value;
      while runner.value.next <= runner.value.emitted
        invariant SteadyInv(State(), origin) && row.enabled && runner.Some? && runner.value.turn.None?
        invariant !runner.value.failed
        invariant runner.value.base == r0.base && runner.value.emitted == r0.emitted
        invariant runner.value.next <= r0.emitted + 1
        invariant forall n: nat :: runner.value.next <= n <= r0.emitted ==> n in runner.value.waiting
        invariant before <= fired
        decreases runner.value.emitted + 1 - runner.value.next
      {
        Apply(origin);
      }
    }
  }

  /** A turn that goes well: the next event's slot is fired and the cursor follows it. */
  lemma TurnKeeps(w: World, origin: int, n: nat)
    requires SteadyInv(w, origin) && w.row.enabled && w.runner.Some? && w.runner.value.turn.None?
    requires !w.runner.value.failed
    requires n == w.runner.value.next && n in w.runner.value.waiting
    ensures var w' := TurnOf(w, n, true);
            && SteadyInv(w', origin) && w'.row.enabled && w'.runner.Some?
            && w'.fired == w.fired + [Slot(w.runner.value.base, w.row.interval, n)]
            && w'.runner.value.(expected := 0) == AfterTurn(w.runner.value, n)
  {
    TurnChecks(w, origin, n);
    var w3 := Next(Next(Next(w, Enter(n)), Check), Collect(true));
    SlotIsNext(w3, origin);
    SteadyMarkKeeps(w3, origin);
  }

  /** The runner after a good turn, whatever it believes the cursor to be. */
  function AfterTurn(r: Runner, n: nat): Runner {
    r.(waiting := r.waiting - {n}, next := n + 1, applied := r.applied + 1, last := n, expected := 0)
  }

  /** Up to the mark, a good turn only moves on. */
  lemma TurnChecks(w: World, origin: int, n: nat)
    requires SteadyInv(w, origin) && w.row.enabled && w.runner.Some? && w.runner.value.turn.None?
    requires !w.runner.value.failed
    requires n == w.runner.value.next && n in w.runner.value.waiting
    ensures var w3 := Next(Next(Next(w, Enter(n)), Check), Collect(true));
            && w3 == w.(runner := Some(w.runner.value.(waiting := w.runner.value.waiting - {n},
                 turn := Some(Collected))))
            && SteadyInv(w3, origin)
  {
    var w1 := Next(w, Enter(n));
    var w2 := Next(w1, Check);
    SteadyKeeps(w, origin, Enter(n));
    SteadyKeeps(w1, origin, Check);
    SteadyKeeps(w2, origin, Collect(true));
  }
}
