/** Fetches into one repository cache under hold labels: what a label pins, whatever the remote,
    the tracking refs and earlier attempts did. */
module FetchHold {
  import opened Common

  type Id = nat  // branches, labels and commits, numbered

  /** A fetch call holding the repository lock.  `base` is the baseline it will report. */
  datatype Phase = Begun | Unheld | MustPin(tip: Id) | Ready(base: Option<Id>) | Fetched(base: Option<Id>)
  datatype Call = Call(hold: Option<Id>, branch: Id, phase: Phase)
  datatype Result = Result(hold: Option<Id>, branch: Id, base: Option<Id>, tip: Id)

  /** History variables: the results returned so far, and the pair
      each label's completing fetch pinned. */
  datatype World = World(remote: map<Id, Id>, tracking: map<Id, Id>, holdOld: map<Id, Id>, holdNew: map<Id, Id>,
                         call: Option<Call>, results: seq<Result>, pinned: map<Id, (Option<Id>, Id)>)

  const EMPTY := World(map[], map[], map[], map[], None, [], map[])

  datatype Step =
    | MoveRemote(branch: Id, tip: Option<Id>)
    | Begin(hold: Option<Id>, branch: Id)
    | ReadHold
    | ReadBaseline
    | PinBaseline
    | Transfer(works: bool)
    | Return
    | Die

  function Lookup(m: map<Id, Id>, k: Id): Option<Id> {
    if k in m then Some(m[k]) else None
  }

  /** The held pair, if the label is complete. */
  function ReadHoldStep(w: World, k: Call): World {
    if k.hold.Some? && k.hold.value in w.holdNew then
      var held := Result(k.hold, k.branch, Lookup(w.holdOld, k.hold.value), w.holdNew[k.hold.value]);
      w.(results := w.results + [held], call := None)
    else w.(call := Some(k.(phase := Unheld)))
  }

  /** The pinned baseline, or the tracking tip, which a labelled fetch pins first. */
  function ReadBaselineStep(w: World, k: Call): World {
    var held := if k.hold.Some? then Lookup(w.holdOld, k.hold.value) else None;
    var tip := Lookup(w.tracking, k.branch);
    var phase := if held.Some? then Ready(held) else if k.hold.Some? && tip.Some? then MustPin(tip.value)
        else Ready(tip);
    w.(call := Some(k.(phase := phase)))
  }

  /** `git fetch --atomic`: tracking ref and hold move together, to the remote's tip. */
  function TransferStep(w: World, k: Call, works: bool): World
    requires k.phase.Ready?
  {
    if !works || k.branch !in w.remote then w.(call := None)
    else
      var tip := w.remote[k.branch];
      var w1 := w.(tracking := w.tracking[k.branch := tip], call := Some(k.(phase := Fetched(k.phase.base))));
      if k.hold.None? then w1
      else w1.(holdNew := w.holdNew[k.hold.value := tip],
               pinned := if k.hold.value in w.pinned then w.pinned else w.pinned[k.hold.value := (k.phase.base, tip)])
  }

  function ReturnStep(w: World, k: Call): World
    requires k.phase.Fetched?
  {
    if k.branch !in w.tracking then w.(call := None)
    else w.(results := w.results + [Result(k.hold, k.branch, k.phase.base, w.tracking[k.branch])], call := None)
  }

  function Next(w: World, step: Step): World {
    match step
    case MoveRemote(branch, tip) => w.(remote := if tip.Some? then w.remote[branch := tip.value]
        else w.remote - {branch})
    case Begin(hold, branch) => if w.call.Some? then w else w.(call := Some(Call(hold, branch, Begun)))
    case ReadHold => if w.call.None? || !w.call.value.phase.Begun? then w else ReadHoldStep(w, w.call.value)
    case ReadBaseline => if w.call.None? || !w.call.value.phase.Unheld? then w else ReadBaselineStep(w, w.call.value)
    case PinBaseline =>
      if w.call.None? || !w.call.value.phase.MustPin? || w.call.value.hold.None? then w
      else
        var k := w.call.value;
        w.(holdOld := w.holdOld[k.hold.value := k.phase.tip], call := Some(k.(phase := Ready(Some(k.phase.tip)))))
    case Transfer(works) => if w.call.None? || !w.call.value.phase.Ready? then w
        else TransferStep(w, w.call.value, works)
    case Return => if w.call.None? || !w.call.value.phase.Fetched? then w else ReturnStep(w, w.call.value)
    case Die => w.(call := None)
  }

  /** Any sequence of fetches, with and without labels, deaths and moves of the remote. */
  function Run(w: World, steps: seq<Step>): World
    decreases |steps|
  {
    if steps == [] then w else Run(Next(w, steps[0]), steps[1..])
  }

  // ------------------------------------------------------------------- invariant

  /** A complete hold is the pair its fetch pinned. */
  ghost predicate HoldOk(w: World, l: Id) {
    l in w.holdNew && l in w.pinned && w.pinned[l] == (Lookup(w.holdOld, l), w.holdNew[l])
  }

  ghost predicate ResultOk(w: World, i: nat) {
    i < |w.results| &&
    var r := w.results[i];
    (r.hold.Some? ==> r.hold.value in w.pinned && (r.base, r.tip) == w.pinned[r.hold.value])
  }

  ghost predicate CallOk(w: World, k: Call) {
    match k.phase
    case Begun => true
    case Unheld => k.hold.Some? ==> k.hold.value !in w.holdNew
    case MustPin(tip) => k.hold.Some? ==> k.hold.value !in w.holdNew && k.hold.value !in w.holdOld
    case Ready(base) => k.hold.Some? ==> k.hold.value !in w.holdNew && base == Lookup(w.holdOld, k.hold.value)
    case Fetched(base) =>
      k.branch in w.tracking
      && (k.hold.Some? ==> k.hold.value in w.holdNew && w.holdNew[k.hold.value] == w.tracking[k.branch]
                            && base == Lookup(w.holdOld, k.hold.value))
  }

  ghost predicate Inv(w: World) {
    && (forall l {:trigger HoldOk(w, l)} :: l in w.holdNew || l in w.pinned ==> HoldOk(w, l))
    && (forall i: nat {:trigger ResultOk(w, i)} :: i < |w.results| ==> ResultOk(w, i))
    && (w.call.Some? ==> CallOk(w, w.call.value))
  }

  /** Pins and returned results are for good. */
  ghost predicate Keeps(w: World, w': World) {
    && (forall l :: l in w.pinned ==> l in w'.pinned && w'.pinned[l] == w.pinned[l])
    && (forall l :: l in w.holdOld ==> l in w'.holdOld && w'.holdOld[l] == w.holdOld[l])
    && w.results <= w'.results
  }

  /** Complete holds and returned results stay as they are. */
  lemma QuietKeeps(w: World, w': World)
    requires Inv(w) && Keeps(w, w') && (w'.call.Some? ==> CallOk(w', w'.call.value))
    requires w'.holdNew == w.holdNew && w'.pinned == w.pinned && w'.results == w.results
    requires forall l :: l in w.holdNew ==> Lookup(w'.holdOld, l) == Lookup(w.holdOld, l)
    ensures Inv(w')
  {
    forall l | l in w'.holdNew || l in w'.pinned ensures HoldOk(w', l) {
      assert HoldOk(w, l);
    }
    forall i: nat | i < |w'.results| ensures ResultOk(w', i) {
      assert ResultOk(w, i);
    }
  }

  lemma ReturnedKeeps(w: World, w': World)
    requires Inv(w) && w'.call.None? && w'.holdNew == w.holdNew && w'.holdOld == w.holdOld && w'.pinned == w.pinned
    requires |w'.results| == |w.results| + 1 && w.results == w'.results[..|w.results|] && ResultOk(w', |w.results|)
    ensures Inv(w') && Keeps(w, w')
  {
    forall l | l in w'.holdNew || l in w'.pinned ensures HoldOk(w', l) {
      assert HoldOk(w, l);
    }
    forall i: nat | i < |w'.results| ensures ResultOk(w', i) {
      if i < |w.results| {
        assert ResultOk(w, i);
        assert w'.results[i] == w.results[i];
      }
    }
  }

  lemma TransferKeeps(w: World, works: bool)
    requires Inv(w) && w.call.Some? && w.call.value.phase.Ready?
    ensures var w' := TransferStep(w, w.call.value, works); Inv(w') && Keeps(w, w')
  {
    var k := w.call.value;
    var w' := TransferStep(w, k, works);
    assert k.hold.Some? && k.hold.value in w.pinned ==> HoldOk(w, k.hold.value);
    forall l | l in w'.holdNew || l in w'.pinned ensures HoldOk(w', l) {
      assert k.hold != Some(l) ==> HoldOk(w, l) || (l !in w.holdNew && l !in w.pinned);
    }
    forall i: nat | i < |w'.results| ensures ResultOk(w', i) {
      assert ResultOk(w, i);
    }
  }

  lemma ReadHoldKeeps(w: World)
    requires Inv(w) && w.call.Some?
    ensures var w' := ReadHoldStep(w, w.call.value); Inv(w') && Keeps(w, w')
  {
    var k := w.call.value;
    if k.hold.Some? && k.hold.value in w.holdNew {
      assert HoldOk(w, k.hold.value);
      ReturnedKeeps(w, ReadHoldStep(w, k));
    } else {
      QuietKeeps(w, ReadHoldStep(w, k));
    }
  }

  lemma PinKeeps(w: World)
    requires Inv(w) && w.call.Some? && w.call.value.phase.MustPin? && w.call.value.hold.Some?
    ensures Inv(Next(w, PinBaseline)) && Keeps(w, Next(w, PinBaseline))
  {
    QuietKeeps(w, Next(w, PinBaseline));
  }

  lemma ReturnKeeps(w: World)
    requires Inv(w) && w.call.Some? && w.call.value.phase.Fetched?
    ensures var w' := ReturnStep(w, w.call.value); Inv(w') && Keeps(w, w')
  {
    var k := w.call.value;
    if k.hold.Some? {
      assert HoldOk(w, k.hold.value);
    }
    ReturnedKeeps(w, ReturnStep(w, k));
  }

  lemma StepKeeps(w: World, step: Step)
    requires Inv(w)
    ensures Inv(Next(w, step)) && Keeps(w, Next(w, step))
  {
    if step.MoveRemote? || step.Begin? || step.ReadBaseline? || step.Die? {
      QuietKeeps(w, Next(w, step));
    } else if w.call.Some? {
      match step
      case ReadHold => ReadHoldKeeps(w);
      case PinBaseline =>
        if w.call.value.phase.MustPin? && w.call.value.hold.Some? {
          PinKeeps(w);
        }
      case Transfer(works) =>
        if w.call.value.phase.Ready? {
          TransferKeeps(w, works);
        }
      case Return =>
        if w.call.value.phase.Fetched? {
          ReturnKeeps(w);
        }
    }
  }

  lemma {:induction false} RunKeeps(w: World, steps: seq<Step>)
    requires Inv(w)
    ensures Inv(Run(w, steps)) && Keeps(w, Run(w, steps))
    decreases |steps|
  {
    if steps != [] {
      StepKeeps(w, steps[0]);
      RunKeeps(Next(w, steps[0]), steps[1..]);
      var w1, w2 := Next(w, steps[0]), Run(Next(w, steps[0]), steps[1..]);
      assert w.results <= w1.results <= w2.results;
    }
  }

  // ---------------------------------------------------------------- the main results

  /** Every fetch that returns under a hold label returns the same pair, whether it fetched it or
      found it held, and the pair is the one the label pins from then on. */
  lemma LabelReturnsOnePair(steps: seq<Step>, after: seq<Step>, i: nat, j: nat)
    requires var w := Run(EMPTY, steps);
             i < |w.results| && w.results[i].hold.Some?
    requires var w' := Run(Run(EMPTY, steps), after);
             j < |w'.results| && w'.results[j].hold == Run(EMPTY, steps).results[i].hold
    ensures var r, q := Run(EMPTY, steps).results[i], Run(Run(EMPTY, steps), after).results[j];
            q.base == r.base && q.tip == r.tip
  {
    RunKeeps(EMPTY, steps);
    var w := Run(EMPTY, steps);
    RunKeeps(w, after);
    assert ResultOk(w, i) && ResultOk(Run(w, after), j);
  }

  /** Once pinned, a hold is what every later fetch under the label returns at once. */
  lemma PinnedIsReturned(steps: seq<Step>, after: seq<Step>, l: Id, branch: Id)
    requires l in Run(EMPTY, steps).holdNew
    ensures var w := Run(EMPTY, steps);
            var w' := Run(w, after);
            && l in w.pinned && w.pinned[l] == (Lookup(w.holdOld, l), w.holdNew[l])
            && (w'.call.None? ==>
                  Next(Next(w', Begin(Some(l), branch)), ReadHold)
                  == w'.(results := w'.results + [Result(Some(l), branch, w.pinned[l].0, w.pinned[l].1)]))
  {
    RunKeeps(EMPTY, steps);
    var w := Run(EMPTY, steps);
    RunKeeps(w, after);
    assert HoldOk(w, l) && HoldOk(Run(w, after), l);
  }

  /** The first baseline pinned under a label is the one it reports for ever; a label completed
      without one reports none for ever. */
  lemma BaselineIsTheFirstPinned(steps: seq<Step>, after: seq<Step>, l: Id)
    requires var w := Run(EMPTY, steps); l in w.holdOld || l in w.holdNew
    ensures var w := Run(EMPTY, steps);
            var w' := Run(w, after);
            l in w'.holdNew ==> l in w'.pinned && w'.pinned[l].0 == Lookup(w.holdOld, l)
  {
    RunKeeps(EMPTY, steps);
    var w := Run(EMPTY, steps);
    RunKeeps(w, after);
    var w' := Run(w, after);
    assert l in w'.holdNew ==> HoldOk(w', l);
    assert l in w.holdNew ==> HoldOk(w, l);
  }

  ghost predicate Reaches(w: World, w': World) {
    exists steps :: Run(w, steps) == w'
  }

  lemma ReachNext(w: World, w': World, step: Step)
    requires Reaches(w, w')
    ensures Reaches(w, Next(w', step))
  {
    var steps :| Run(w, steps) == w';
    RunConcat(w, steps, [step]);
    assert [step][1..] == [];
    assert Run(w, steps + [step]) == Next(w', step);
  }

  lemma {:induction false} RunConcat(w: World, a: seq<Step>, b: seq<Step>)
    ensures Run(w, a + b) == Run(Run(w, a), b)
    decreases |a|
  {
    if a == [] {
      assert a + b == b;
    } else {
      assert (a + b)[1..] == a[1..] + b;
      RunConcat(Next(w, a[0]), a[1..], b);
    }
  }

  // -------------------------------------------------- which tip a label ends up with

  /** A record kept beside a run: under each label, what every attempt that looked for a baseline
      found the tracking ref to be, in order; and the labels under which an attempt died after it
      saw a tip and before it pinned it. */
  datatype Record = Record(seen: map<Id, seq<Option<Id>>>, killed: set<Id>)

  const NOTHING := Record(map[], {})

  function SeenBy(h: Record, l: Id): seq<Option<Id>> {
    if l in h.seen then h.seen[l] else []
  }

  function Observe(w: World, h: Record, step: Step): Record {
    if w.call.None? || w.call.value.hold.None? then h
    else
      var l := w.call.value.hold.value;
      if step.ReadBaseline? && w.call.value.phase.Unheld? && l !in w.holdOld then
        h.(seen := h.seen[l := SeenBy(h, l) + [Lookup(w.tracking, w.call.value.branch)]])
      else if step.Die? && w.call.value.phase.MustPin? then h.(killed := h.killed + {l})
      else h
  }

  function RecordOf(w: World, h: Record, steps: seq<Step>): Record
    decreases |steps|
  {
    if steps == [] then h else RecordOf(Next(w, steps[0]), Observe(w, h, steps[0]), steps[1..])
  }

  /** The first tip anyone saw, if anyone saw one. */
  function FirstTip(seen: seq<Option<Id>>): Option<Id> {
    if seen == [] then None else if seen[0].Some? then seen[0] else FirstTip(seen[1..])
  }

  function LastSeen(seen: seq<Option<Id>>): Option<Id> {
    if seen == [] then None else seen[|seen| - 1]
  }

  /** The label's last look is its pinned baseline, or what the attempt under way will pin, or
      none; and unless someone was killed, only that look found a tip. */
  ghost predicate LabelOk(w: World, h: Record, l: Id) {
    var seen := SeenBy(h, l);
    && (l in w.holdOld ==> LastSeen(seen) == Some(w.holdOld[l]))
    && (l in w.pinned ==> seen != [] && LastSeen(seen) == w.pinned[l].0)
    && (l !in h.killed ==> forall i :: 0 <= i < |seen| - 1 ==> seen[i].None?)
    && (l !in h.killed && LastSeen(seen).Some? ==> l in w.holdOld || Pinning(w, l))
  }

  ghost predicate Pinning(w: World, l: Id) {
    w.call.Some? && w.call.value.hold == Some(l) && w.call.value.phase.MustPin?
  }

  ghost predicate LookOk(w: World, h: Record, k: Call) {
    k.hold.Some? ==>
      var l := k.hold.value;
      match k.phase
      case Begun => true
      case Unheld => true
      case MustPin(tip) => LastSeen(SeenBy(h, l)) == Some(tip)
      case Ready(base) => SeenBy(h, l) != [] && LastSeen(SeenBy(h, l)) == base
      case Fetched(base) => SeenBy(h, l) != [] && LastSeen(SeenBy(h, l)) == base
  }

  ghost predicate RecordOk(w: World, h: Record) {
    && (forall l {:trigger LabelOk(w, h, l)} :: LabelOk(w, h, l))
    && (w.call.Some? ==> LookOk(w, h, w.call.value))
  }

  lemma ObserveKeeps(w: World, h: Record, step: Step)
    requires Inv(w) && RecordOk(w, h)
    ensures RecordOk(Next(w, step), Observe(w, h, step))
  {
    var w', h' := Next(w, step), Observe(w, h, step);
    forall l ensures LabelOk(w', h', l) {
      LabelKeeps(w, h, step, l);
    }
    LookKeeps(w, h, step);
  }

  lemma LookKeeps(w: World, h: Record, step: Step)
    requires RecordOk(w, h) && (w.call.Some? ==> CallOk(w, w.call.value))
    ensures var w' := Next(w, step); w'.call.Some? ==> LookOk(w', Observe(w, h, step), w'.call.value)
  {
    if w.call.Some? && w.call.value.hold.Some? {
      assert LabelOk(w, h, w.call.value.hold.value);
    }
  }

  /** A step of a fetch under another label, or of none, leaves the label's pins alone. */
  lemma OthersPins(w: World, step: Step, l: Id)
    requires w.call.None? || w.call.value.hold != Some(l)
    ensures var w' := Next(w, step);
            Lookup(w'.holdOld, l) == Lookup(w.holdOld, l) && (l in w'.pinned <==> l in w.pinned)
            && (l in w.pinned ==> w'.pinned[l] == w.pinned[l])
  {
  }

  lemma OthersLooks(w: World, h: Record, step: Step, l: Id)
    requires w.call.None? || w.call.value.hold != Some(l)
    ensures var h' := Observe(w, h, step); SeenBy(h', l) == SeenBy(h, l) && (l in h'.killed <==> l in h.killed)
  {
  }

  lemma OthersKeep(w: World, h: Record, step: Step, l: Id)
    requires LabelOk(w, h, l) && (w.call.None? || w.call.value.hold != Some(l))
    ensures LabelOk(Next(w, step), Observe(w, h, step), l)
  {
    OthersPins(w, step, l);
    OthersLooks(w, h, step, l);
    assert !Pinning(w, l);
  }

  lemma LabelKeeps(w: World, h: Record, step: Step, l: Id)
    requires Inv(w) && RecordOk(w, h)
    ensures LabelOk(Next(w, step), Observe(w, h, step), l)
  {
    assert LabelOk(w, h, l);
    assert l in w.pinned ==> HoldOk(w, l);
    if w.call.None? || w.call.value.hold != Some(l) {
      OthersKeep(w, h, step, l);
    } else if step.ReadBaseline? && w.call.value.phase.Unheld? {
      LookKeepsLabel(w, h, l);
    } else if step.Transfer? && w.call.value.phase.Ready? {
      TransferKeepsLabel(w, h, step.works, l);
    } else {
      SmallStepKeepsLabel(w, h, step, l);
    }
  }

  lemma LookKeepsLabel(w: World, h: Record, l: Id)
    requires Inv(w) && LabelOk(w, h, l) && w.call.Some? && w.call.value.hold == Some(l) && w.call.value.phase.Unheld?
    ensures LabelOk(Next(w, ReadBaseline), Observe(w, h, ReadBaseline), l)
  {
    assert l in w.pinned ==> HoldOk(w, l);
    var seen, seen' := SeenBy(h, l), SeenBy(Observe(w, h, ReadBaseline), l);
    if l !in w.holdOld {
      assert seen' == seen + [Lookup(w.tracking, w.call.value.branch)];
      assert forall i :: 0 <= i < |seen| ==> seen'[i] == seen[i];
    }
  }

  lemma TransferKeepsLabel(w: World, h: Record, works: bool, l: Id)
    requires RecordOk(w, h) && LabelOk(w, h, l) && w.call.Some? && w.call.value.hold == Some(l)
    requires w.call.value.phase.Ready?
    ensures LabelOk(Next(w, Transfer(works)), Observe(w, h, Transfer(works)), l)
  {
    assert LookOk(w, h, w.call.value);
    assert SeenBy(Observe(w, h, Transfer(works)), l) == SeenBy(h, l);
  }

  lemma SameLooks(w: World, h: Record, w': World, h': Record, l: Id)
    requires LabelOk(w, h, l) && SeenBy(h', l) == SeenBy(h, l) && w'.pinned == w.pinned
    requires l in w'.holdOld ==> LastSeen(SeenBy(h, l)) == Some(w'.holdOld[l])
    requires l !in h'.killed ==> l !in h.killed
    requires l !in h'.killed && (l in w.holdOld || Pinning(w, l)) ==> l in w'.holdOld || Pinning(w', l)
    ensures LabelOk(w', h', l)
  {
  }

  lemma SmallStepKeepsLabel(w: World, h: Record, step: Step, l: Id)
    requires w.call.Some? && w.call.value.hold == Some(l) && LookOk(w, h, w.call.value) && LabelOk(w, h, l)
    requires !(step.ReadBaseline? && w.call.value.phase.Unheld?) && !(step.Transfer? && w.call.value.phase.Ready?)
    ensures LabelOk(Next(w, step), Observe(w, h, step), l)
  {
    SameLooks(w, h, Next(w, step), Observe(w, h, step), l);
  }

  lemma {:induction false} RecordKeeps(w: World, h: Record, steps: seq<Step>)
    requires Inv(w) && RecordOk(w, h)
    ensures Inv(Run(w, steps)) && RecordOk(Run(w, steps), RecordOf(w, h, steps))
    decreases |steps|
  {
    if steps != [] {
      StepKeeps(w, steps[0]);
      ObserveKeeps(w, h, steps[0]);
      RecordKeeps(Next(w, steps[0]), Observe(w, h, steps[0]), steps[1..]);
    }
  }

  lemma {:induction false} FirstOfQuiet(seen: seq<Option<Id>>)
    requires forall i :: 0 <= i < |seen| - 1 ==> seen[i].None?
    ensures FirstTip(seen) == LastSeen(seen)
    decreases |seen|
  {
    if |seen| > 1 {
      FirstOfQuiet(seen[1..]);
    }
  }

  lemma {:induction false} FirstIsSeen(seen: seq<Option<Id>>)
    ensures FirstTip(seen).None? <==> forall i :: 0 <= i < |seen| ==> seen[i].None?
    decreases |seen|
  {
    if seen != [] {
      FirstIsSeen(seen[1..]);
      if FirstTip(seen).None? {
        forall i | 0 <= i < |seen| ensures seen[i].None? {
          assert i > 0 ==> seen[i] == seen[1..][i - 1];
        }
      }
    }
  }

  lemma {:induction false} FirstOfConcat(a: seq<Option<Id>>, b: seq<Option<Id>>)
    ensures FirstTip(a + b) == if FirstTip(a).Some? then FirstTip(a) else FirstTip(b)
    decreases |a|
  {
    if a == [] {
      assert a + b == b;
    } else {
      assert (a + b)[1..] == a[1..] + b;
      FirstOfConcat(a[1..], b);
    }
  }

  /** The baseline a label reports is what the last attempt to look found: the first tip anyone saw
      under the label as far as that look found it again, and always if nobody was killed between
      looking and pinning. */
  lemma BaselineIsTheLastLook(steps: seq<Step>, l: Id)
    requires l in Run(EMPTY, steps).pinned
    ensures var base := Run(EMPTY, steps).pinned[l].0;
            var h := RecordOf(EMPTY, NOTHING, steps);
            && l in h.seen && h.seen[l] != [] && base == LastSeen(h.seen[l])
            && (l !in h.killed ==> base == FirstTip(h.seen[l]))
  {
    var w, h := Run(EMPTY, steps), RecordOf(EMPTY, NOTHING, steps);
    EmptyRecord();
    RecordKeeps(EMPTY, NOTHING, steps);
    assert LabelOk(w, h, l);
    if l !in h.killed {
      FirstOfQuiet(h.seen[l]);
    }
  }

  lemma EmptyRecord()
    ensures Inv(EMPTY) && RecordOk(EMPTY, NOTHING)
  {
    forall l ensures LabelOk(EMPTY, NOTHING, l) {
      assert SeenBy(NOTHING, l) == [];
    }
  }

  /** Before the fact: an attempt about to look, and then to pin, settles for ever whether the
      label reports the first tip, by what the tracking ref is at that moment. */
  lemma LookDecides(steps: seq<Step>, after: seq<Step>, l: Id, branch: Id)
    requires var w := Run(EMPTY, steps);
             w.call == Some(Call(Some(l), branch, Unheld)) && l !in w.holdOld && branch in w.tracking
    ensures var w := Run(EMPTY, steps);
            var before := FirstTip(SeenBy(RecordOf(EMPTY, NOTHING, steps), l));
            var end := Run(Next(Next(w, ReadBaseline), PinBaseline), after);
            var first := if before.Some? then before else Some(w.tracking[branch]);
            && FirstTip(SeenBy(Observe(w, RecordOf(EMPTY, NOTHING, steps), ReadBaseline), l)) == first
            && (l in end.pinned ==> (end.pinned[l].0 == first <==> before.None? || before == Some(w.tracking[branch])))
  {
    var w, h := Run(EMPTY, steps), RecordOf(EMPTY, NOTHING, steps);
    EmptyRecord();
    RecordKeeps(EMPTY, NOTHING, steps);
    var looked := Next(w, ReadBaseline);
    var pinned := Next(looked, PinBaseline);
    StepKeeps(w, ReadBaseline);
    StepKeeps(looked, PinBaseline);
    RunKeeps(pinned, after);
    FirstOfConcat(SeenBy(h, l), [Some(w.tracking[branch])]);
    assert FirstTip([Some(w.tracking[branch])]) == Some(w.tracking[branch]);
    var end := Run(pinned, after);
    assert l in pinned.holdOld && pinned.holdOld[l] == w.tracking[branch];
    assert l in end.pinned ==> HoldOk(end, l);
  }

  /** The label is used with one branch. */
  ghost predicate OneBranch(steps: seq<Step>, l: Id, branch: Id) {
    forall i :: 0 <= i < |steps| && steps[i].Begin? && steps[i].hold == Some(l) ==> steps[i].branch == branch
  }

  ghost predicate TipsStay(w: World, h: Record, l: Id, branch: Id) {
    var seen := SeenBy(h, l);
    && (w.call.Some? && w.call.value.hold == Some(l) ==> w.call.value.branch == branch)
    && (forall i :: 0 <= i < |seen| && seen[i].Some? ==> branch in w.tracking && seen[|seen| - 1].Some?)
  }

  /** A tracking ref never disappears. */
  lemma TrackingStays(w: World, step: Step, b: Id)
    requires b in w.tracking
    ensures b in Next(w, step).tracking
  {
  }

  /** A call keeps the label and the branch it began with. */
  lemma CallStays(w: World, step: Step)
    requires w.call.Some? && Next(w, step).call.Some?
    ensures Next(w, step).call.value.hold == w.call.value.hold && Next(w, step).call.value.branch == w.call.value.branch
  {
  }

  lemma CallBegins(w: World, step: Step)
    requires w.call.None? && Next(w, step).call.Some?
    ensures step.Begin? && Next(w, step).call.value.hold == step.hold && Next(w, step).call.value.branch == step.branch
  {
  }

  lemma TipsStayInStep(w: World, h: Record, step: Step, l: Id, branch: Id)
    requires TipsStay(w, h, l, branch) && (step.Begin? && step.hold == Some(l) ==> step.branch == branch)
    ensures TipsStay(Next(w, step), Observe(w, h, step), l, branch)
  {
    if Next(w, step).call.Some? {
      if w.call.Some? {
        CallStays(w, step);
      } else {
        CallBegins(w, step);
      }
    }
    if branch in w.tracking {
      TrackingStays(w, step, branch);
    }
    var seen, seen' := SeenBy(h, l), SeenBy(Observe(w, h, step), l);
    if w.call.None? || w.call.value.hold != Some(l) {
      OthersLooks(w, h, step, l);
    } else if seen' != seen {
      assert seen' == seen + [Lookup(w.tracking, branch)];
      assert forall i :: 0 <= i < |seen| ==> seen'[i] == seen[i];
    }
  }

  lemma {:induction false} TipsStayInRun(w: World, h: Record, steps: seq<Step>, l: Id, branch: Id)
    requires TipsStay(w, h, l, branch) && OneBranch(steps, l, branch)
    ensures TipsStay(Run(w, steps), RecordOf(w, h, steps), l, branch)
    decreases |steps|
  {
    if steps != [] {
      TipsStayInStep(w, h, steps[0], l, branch);
      TipsStayInRun(Next(w, steps[0]), Observe(w, h, steps[0]), steps[1..], l, branch);
    }
  }

  /** Under a label used with one branch, the reported baseline is none exactly if no attempt ever
      saw a tip, even where the first to look saw none. */
  lemma NoneIffNobodySaw(steps: seq<Step>, l: Id, branch: Id)
    requires l in Run(EMPTY, steps).pinned && OneBranch(steps, l, branch)
    ensures var seen := SeenBy(RecordOf(EMPTY, NOTHING, steps), l);
            Run(EMPTY, steps).pinned[l].0.None? <==> FirstTip(seen).None?
  {
    BaselineIsTheLastLook(steps, l);
    var seen := SeenBy(RecordOf(EMPTY, NOTHING, steps), l);
    assert SeenBy(NOTHING, l) == [];
    TipsStayInRun(EMPTY, NOTHING, steps, l, branch);
    FirstIsSeen(seen);
  }

  /** The cache after one plain fetch of tip 10. */
  const AT_TEN := EMPTY.(remote := map[1 := 10], tracking := map[1 := 10], results := [Result(None, 1, None, 10)])
  const SEEN_TEN := AT_TEN.(call := Some(Call(Some(5), 1, MustPin(10))))
  const AT_TWENTY := AT_TEN.(remote := map[1 := 20], tracking := map[1 := 20],
                             results := [Result(None, 1, None, 10), Result(None, 1, Some(10), 20)])

  lemma TenIsSeen()
    ensures Reaches(EMPTY, SEEN_TEN)
  {
    assert Run(EMPTY, []) == EMPTY;
    PlainFetch(EMPTY, EMPTY, 1, 10);
    assert EMPTY.results + [Result(None, 1, None, 10)] == [Result(None, 1, None, 10)];
    SeeTip(EMPTY, AT_TEN, 5, 1);
  }

  lemma TwentyIsPinned()
    ensures Reaches(SEEN_TEN, AT_TWENTY.(holdOld := map[5 := 20], call := Some(Call(Some(5), 1, Ready(Some(20))))))
  {
    assert Run(SEEN_TEN, []) == SEEN_TEN;
    ReachNext(SEEN_TEN, SEEN_TEN, Die);
    PlainFetch(SEEN_TEN, AT_TEN, 1, 20);
    assert AT_TEN.remote[1 := 20] == map[1 := 20] == AT_TEN.tracking[1 := 20];
    assert AT_TEN.results + [Result(None, 1, Some(10), 20)] == AT_TWENTY.results;
    SeeTip(SEEN_TEN, AT_TWENTY, 5, 1);
    ReachNext(SEEN_TEN, AT_TWENTY.(call := Some(Call(Some(5), 1, MustPin(20)))), PinBaseline);
  }

  /** What an attempt saw but did not live to pin does not count: an attempt under label 5 reads
      tip 10 and dies, a plain fetch moves the tracking ref to 20, and 20 is pinned. */
  lemma UnpinnedTipIsForgotten()
    ensures exists w, w' :: Reaches(EMPTY, w) && w.call == Some(Call(Some(5), 1, MustPin(10))) && 5 !in w.holdOld
              && Reaches(w, w') && 5 in w'.holdOld && w'.holdOld[5] == 20
  {
    TenIsSeen();
    TwentyIsPinned();
  }

  /** The remote moves to `tip` and a fetch without a label brings it here. */
  lemma PlainFetch(from: World, w: World, branch: Id, tip: Id)
    requires Reaches(from, w) && w.call.None?
    ensures Reaches(from, w.(remote := w.remote[branch := tip], tracking := w.tracking[branch := tip],
                             results := w.results + [Result(None, branch, Lookup(w.tracking, branch), tip)]))
  {
    var w0 := w.(remote := w.remote[branch := tip]);
    ReachNext(from, w, MoveRemote(branch, Some(tip)));
    ReachNext(from, w0, Begin(None, branch));
    ReachNext(from, w0.(call := Some(Call(None, branch, Begun))), ReadHold);
    ReachNext(from, w0.(call := Some(Call(None, branch, Unheld))), ReadBaseline);
    var base := Lookup(w.tracking, branch);
    ReachNext(from, w0.(call := Some(Call(None, branch, Ready(base)))), Transfer(true));
    ReachNext(from, w0.(tracking := w.tracking[branch := tip], call := Some(Call(None, branch, Fetched(base)))),
        Return);
  }

  /** A labelled fetch gets as far as seeing the tracking tip. */
  lemma SeeTip(from: World, w: World, hold: Id, branch: Id)
    requires Reaches(from, w) && w.call.None? && hold !in w.holdNew && hold !in w.holdOld && branch in w.tracking
    ensures Reaches(from, w.(call := Some(Call(Some(hold), branch, MustPin(w.tracking[branch])))))
  {
    ReachNext(from, w, Begin(Some(hold), branch));
    ReachNext(from, w.(call := Some(Call(Some(hold), branch, Begun))), ReadHold);
    ReachNext(from, w.(call := Some(Call(Some(hold), branch, Unheld))), ReadBaseline);
  }

  // ------------------------------------------------------------------ as it runs

  /** One repository's cache and its remote. */
  class Cache {
    var remote: map<Id, Id>
    var tracking: map<Id, Id>
    var holdOld: map<Id, Id>
    var holdNew: map<Id, Id>
    ghost var results: seq<Result>
    ghost var pinned: map<Id, (Option<Id>, Id)>

    ghost function State(): World reads this {
      World(remote, tracking, holdOld, holdNew, None, results, pinned)
    }

    constructor ()
      ensures State() == EMPTY
    {
      remote, tracking, holdOld, holdNew, results, pinned := map[], map[], map[], map[], [], map[];
    }

    /** `fetch`: the held pair if there is one; otherwise pin the baseline, transfer and pin the
        tip.  None where the remote has no such branch or the transfer fails. */
    method Fetch(hold: Option<Id>, branch: Id, works: bool) returns (result: Option<Result>)
      requires Inv(State())
      modifies this
      ensures Inv(State()) && Reaches(old(State()), State())
      ensures match result
              case Some(r) => State().results == old(results) + [r] && r.hold == hold && r.branch == branch
                              && (hold.Some? ==> hold.value in pinned && pinned[hold.value] == (r.base, r.tip))
                              && (hold.None? ==>
                                    r.base == Lookup(old(tracking), branch) && branch in remote
                                    && r.tip == remote[branch])
              case None => results == old(results) && tracking == old(tracking) && holdNew == old(holdNew)
                           && (!works || branch !in remote)
    {
      ghost var start := State();
      assert Run(start, []) == start;
      ghost var k := Call(hold, branch, Begun);
      ReachNext(start, start, Begin(hold, branch));
      ReachNext(start, start.(call := Some(k)), ReadHold);
      StepKeeps(start, Begin(hold, branch));
      StepKeeps(start.(call := Some(k)), ReadHold);
      if hold.Some? && hold.value in holdNew {
        var r := Result(hold, branch, Lookup(holdOld, hold.value), holdNew[hold.value]);
        results := results + [r];
        assert HoldOk(start, hold.value);
        return Some(r);
      }
      var base := FetchBaseline(start, hold, branch);
      result := FetchTip(start, hold, branch, base, works);
    }

    /** The baseline a fetch will report, pinned under its label before anything can move. */
    method FetchBaseline(ghost start: World, hold: Option<Id>, branch: Id) returns (base: Option<Id>)
      requires var w := State().(call := Some(Call(hold, branch, Unheld))); Inv(w) && Reaches(start, w)
      modifies `holdOld
      ensures var w := State().(call := Some(Call(hold, branch, Ready(base)))); Inv(w) && Reaches(start, w)
      ensures hold.None? ==> base == Lookup(tracking, branch)
    {
      ghost var w := State().(call := Some(Call(hold, branch, Unheld)));
      ReachNext(start, w, ReadBaseline);
      StepKeeps(w, ReadBaseline);
      base := None;
      if hold.Some? && hold.value in holdOld {
        base := Some(holdOld[hold.value]);
      }
      if base.None? && branch in tracking {
        base := Some(tracking[branch]);
        if hold.Some? {
          ghost var seen := State().(call := Some(Call(hold, branch, MustPin(tracking[branch]))));
          ReachNext(start, seen, PinBaseline);
          StepKeeps(seen, PinBaseline);
          holdOld := holdOld[hold.value := tracking[branch]];
        }
      }
    }

    method FetchTip(ghost start: World, hold: Option<Id>, branch: Id, base: Option<Id>, works: bool)
      returns (result: Option<Result>)
      requires var w := State().(call := Some(Call(hold, branch, Ready(base)))); Inv(w) && Reaches(start, w)
      modifies `tracking, `holdNew, `results, `pinned
      ensures Inv(State()) && Reaches(start, State())
      ensures match result
              case Some(r) => results == old(results) + [r] && r == Result(hold, branch, base, r.tip)
                              && branch in remote && r.tip == remote[branch]
                              && (hold.Some? ==> hold.value in pinned && pinned[hold.value] == (r.base, r.tip))
              case None => results == old(results) && tracking == old(tracking) && holdNew == old(holdNew)
                           && (!works || branch !in remote)
    {
      WholeTransfer(start, State(), Call(hold, branch, Ready(base)), works);
      if !works || branch !in remote {
        return None;
      }
      var tip := remote[branch];
      tracking := tracking[branch := tip];
      if hold.Some? {
        holdNew := holdNew[hold.value := tip];
        pinned := if hold.value in pinned then pinned else pinned[hold.value := (base, tip)];
      }
      result := Some(Result(hold, branch, base, tip));
      results := results + [result.value];
    }
  }

  /** The transfer and the return of a fetch whose baseline is settled. */
  lemma WholeTransfer(start: World, w: World, k: Call, works: bool)
    requires k.phase.Ready? && w.call.None? && Inv(w.(call := Some(k))) && Reaches(start, w.(call := Some(k)))
    ensures var end := if !works || k.branch !in w.remote then w
                       else ReturnStep(TransferStep(w.(call := Some(k)), k, works), k.(phase := Fetched(k.phase.base)));
            Inv(end) && Reaches(start, end)
    ensures k.hold.Some? ==> k.hold.value !in w.pinned
  {
    var ready := w.(call := Some(k));
    var moved := TransferStep(ready, k, works);
    ReachNext(start, ready, Transfer(works));
    TransferKeeps(ready, works);
    if works && k.branch in w.remote {
      ReachNext(start, moved, Return);
      ReturnKeeps(moved);
    }
    assert k.hold.Some? && k.hold.value in w.pinned ==> HoldOk(ready, k.hold.value);
  }
}
