/** What it takes for a release to be shown: in every run, its latest check passed. */
module AssignmentShown {
  import opened Common
  import opened AssignmentAdmin

  /** What one step may do to a release that is ready after it: it was ready and its checks have not
      been taken back or followed by others, or it had passed its latest check. */
  ghost predicate ReadyFate(w: World, w': World, a: Id) {
    a in w'.releases && w'.releases[a].ready ==>
      && a in w.releases
      && if w.releases[a].ready then ChecksStand(w.checks, w'.checks, a)
         else && a in w.checks && a in w'.checks && w'.checks[a] == w.checks[a] && |w.checks[a]| > 0
              && w.checks[a][|w.checks[a]| - 1].status.Passed?
  }

  ghost predicate ChecksStand(c: map<Id, seq<Check>>, c': map<Id, seq<Check>>, a: Id) {
    a in c ==>
      && a in c' && |c'[a]| == |c[a]|
      && forall i :: 0 <= i < |c[a]| && c[a][i].status.Passed? ==> c'[a][i].status.Passed?
  }

  ghost predicate Untouched(w: World, w': World) {
    w'.releases == w.releases && w'.checks == w.checks
  }

  // ------------------------------------------------------------------- step by step

  lemma CreateUntouched(w: World, s: Step)
    requires s.CreateDraft?
    ensures Untouched(w, CreateStep(w, s))
  {
  }

  lemma CopyUntouched(w: World, s: Step)
    requires s.CopyRelease?
    ensures Untouched(w, CopyStep(w, s))
  {
  }

  lemma QueueUntouched(w: World, s: Step)
    requires s.QueueCheck?
    ensures Untouched(w, QueueStep(w, s))
  {
  }

  lemma EditsUntouched(w: World, step: Step)
    requires step.UpdateDraft? || step.Upload? || step.ImportTemplate? || step.DeleteDraft?
    ensures Untouched(w, DraftNext(w, step))
  {
  }

  lemma DraftFate(w: World, step: Step, a: Id)
    requires EditsDrafts(step)
    ensures ReadyFate(w, DraftNext(w, step), a)
  {
    match step
    case CreateDraft(_, _, _, _) => CreateUntouched(w, step);
    case CopyRelease(_, _, _, _) => CopyUntouched(w, step);
    case QueueCheck(_, _, _, _, _) => QueueUntouched(w, step);
    case _ => EditsUntouched(w, step);
  }

  lemma RegisterFate(w: World, worker: Id, b: Id, a: Id)
    ensures ReadyFate(w, RegisterStep(w, worker, b), a)
  {
  }

  lemma BeginCheckFate(w: World, worker: Id, a: Id)
    ensures ReadyFate(w, BeginCheckStep(w, worker), a)
  {
  }

  lemma FinishCheckFate(w: World, worker: Id, passed: bool, a: Id)
    ensures ReadyFate(w, FinishCheckStep(w, worker, passed), a)
  {
  }

  lemma RestartFate(w: World, a: Id)
    ensures ReadyFate(w, RestartStep(w), a)
  {
  }

  lemma ClosedUntouched(w: World, worker: Id, status: JobStatus, a: Option<Id>)
    requires worker in w.workers
    ensures Untouched(w, Closed(w, worker, status, a))
  {
  }

  lemma FinishJobUntouched(w: World, worker: Id, stopping: bool)
    ensures Untouched(w, FinishJobStep(w, worker, stopping))
  {
    if worker in w.workers && w.workers[worker].phase.Judged? {
      ClosedUntouched(w, worker, if stopping then Interrupted else Succeeded,
                      Some(w.workers[worker].phase.assignment));
    }
  }

  lemma FailJobUntouched(w: World, worker: Id, stopping: bool)
    ensures Untouched(w, FailJobStep(w, worker, stopping))
  {
    if worker in w.workers {
      var j := w.workers[worker].job;
      ClosedUntouched(w, worker, if stopping then Interrupted else Unsuccessful,
                      if j in w.jobs then w.jobs[j].assignment else None);
    }
  }

  lemma ReadsUntouched(w: World, step: Step)
    requires step.Claim? || step.ReadDocument? || step.ReadUploads? || step.Attach? || step.Vanish?
    ensures Untouched(w, WorkerNext(w, step))
  {
  }

  lemma WorkerFate(w: World, step: Step, a: Id)
    requires Validates(step)
    ensures ReadyFate(w, WorkerNext(w, step), a)
  {
    match step
    case Register(worker, b) => RegisterFate(w, worker, b, a);
    case BeginCheck(worker) => BeginCheckFate(w, worker, a);
    case FinishCheck(worker, passed) => FinishCheckFate(w, worker, passed, a);
    case Restart => RestartFate(w, a);
    case FinishJob(worker, stopping) => FinishJobUntouched(w, worker, stopping);
    case FailJob(worker, stopping) => FailJobUntouched(w, worker, stopping);
    case _ => ReadsUntouched(w, step);
  }

  /** Archiving and deleting: no release becomes ready, and no check changes. */
  ghost predicate NoneReadier(w: World, w': World) {
    && w'.checks == w.checks
    && forall b :: b in w'.releases && w'.releases[b].ready ==> b in w.releases && w.releases[b].ready
  }

  lemma AlteredNoneReadier(w: World, action: Action, a: Id)
    requires a in w.releases && Altered(w, action, a).Some?
    ensures var w' := Altered(w, action, a).value;
            NoneReadier(w, w') && forall b :: b in w.releases ==> b in w'.releases
  {
    if action.Archive? {
      assert Altered(w, action, a).value == Archived(w, a);
    } else {
      assert Altered(w, action, a).value.releases == w.releases;
    }
  }

  lemma NoneReadierOn(a: World, b: World, c: World)
    requires NoneReadier(a, b) && NoneReadier(b, c)
    ensures NoneReadier(a, c)
  {
  }

  lemma {:induction false} AllAlteredNoneReadier(w: World, action: Action, ids: seq<Id>)
    requires (forall i :: 0 <= i < |ids| ==> ids[i] in w.releases) && AllAltered(w, action, ids).Some?
    ensures NoneReadier(w, AllAltered(w, action, ids).value)
    decreases |ids|
  {
    if ids != [] {
      var w1 := Altered(w, action, ids[0]).value;
      AlteredNoneReadier(w, action, ids[0]);
      AllAlteredNoneReadier(w1, action, ids[1..]);
      NoneReadierOn(w, w1, AllAltered(w1, action, ids[1..]).value);
    }
  }

  lemma BatchFate(w: World, action: Action, course: Id, ids: seq<Id>, confirmed: bool, a: Id)
    ensures ReadyFate(w, BatchStep(w, action, course, ids, confirmed), a)
  {
    if forall i :: 0 <= i < |ids| ==> Selectable(w, course, action, ids[i]) {
      assert forall i :: 0 <= i < |ids| ==> ids[i] in w.releases;
      if AllAltered(w, action, ids).Some? {
        AllAlteredNoneReadier(w, action, ids);
      }
    }
  }

  lemma AlterFate(w: World, action: Action, b: Id, course: Id, a: Id)
    ensures ReadyFate(w, AlterStep(w, action, b, course), a)
  {
    if InCourse(w, course, b) && Altered(w, action, b).Some? {
      AlteredNoneReadier(w, action, b);
    }
  }

  lemma PublishFate(w: World, s: Step, a: Id)
    requires s.Publish?
    ensures ReadyFate(w, PublishStep(w, s), a)
  {
  }

  lemma PublishValidatedFate(w: World, b: Id, course: Id, a: Id)
    ensures ReadyFate(w, PublishValidatedStep(w, b, course), a)
  {
  }

  lemma OutsideCheckFate(w: World, b: Id, passed: bool, a: Id)
    ensures ReadyFate(w, OutsideCheckStep(w, b, passed), a)
  {
  }

  lemma ShowingFate(w: World, step: Step, a: Id)
    requires step.OutsideCheck? || step.Publish? || step.PublishValidated?
    ensures ReadyFate(w, ReleaseNext(w, step), a)
  {
    match step
    case OutsideCheck(b, passed) => OutsideCheckFate(w, b, passed, a);
    case Publish(_, _, _, _) => PublishFate(w, step, a);
    case PublishValidated(b, course) => PublishValidatedFate(w, b, course, a);
  }

  lemma HideFate(w: World, b: Id, course: Id, used: bool, a: Id)
    ensures ReadyFate(w, HideStep(w, b, course, used), a)
  {
  }

  lemma RestoreFate(w: World, b: Id, course: Id, a: Id)
    ensures ReadyFate(w, RestoreStep(w, b, course), a)
  {
  }

  lemma HidingFate(w: World, step: Step, a: Id)
    requires step.Hide? || step.Alter? || step.Batch? || step.Restore?
    ensures ReadyFate(w, ReleaseNext(w, step), a)
  {
    match step
    case Alter(action, b, course) => AlterFate(w, action, b, course, a);
    case Batch(action, course, ids, confirmed) => BatchFate(w, action, course, ids, confirmed, a);
    case Hide(b, course, used) => HideFate(w, b, course, used, a);
    case Restore(b, course) => RestoreFate(w, b, course, a);
  }

  lemma StepFate(w: World, step: Step, a: Id)
    ensures ReadyFate(w, Next(w, step), a)
  {
    if EditsDrafts(step) {
      DraftFate(w, step, a);
    } else if Validates(step) {
      WorkerFate(w, step, a);
    } else if step.OutsideCheck? || step.Publish? || step.PublishValidated? {
      ShowingFate(w, step, a);
    } else {
      HidingFate(w, step, a);
    }
  }

  // ---------------------------------------------------------------- the main results

  /** Whatever the state and the step: a release that becomes ready was there, and the check with
      the greatest index among its checks had passed.  So one whose latest check is pending or
      failed, or that was never checked, is never made ready. */
  lemma ReadyOnlyAfterLatestPassed(w: World, step: Step, a: Id)
    requires a in Next(w, step).releases && Next(w, step).releases[a].ready
    ensures a in w.releases
    ensures !w.releases[a].ready ==>
              a in w.checks && |w.checks[a]| > 0 && w.checks[a][|w.checks[a]| - 1].status.Passed?
  {
    StepFate(w, step, a);
  }

  ghost predicate ReadyOk(w: World, a: Id) {
    a in w.releases && w.releases[a].ready ==>
      a in w.checks && |w.checks[a]| > 0 && w.checks[a][|w.checks[a]| - 1].status.Passed?
  }

  lemma {:induction false} ReadyRun(w: World, steps: seq<Step>, a: Id)
    requires ReadyOk(w, a)
    ensures ReadyOk(Run(w, steps), a)
    decreases |steps|
  {
    if steps != [] {
      StepFate(w, steps[0], a);
      FateKeeps(w, Next(w, steps[0]), a);
      ReadyRun(Next(w, steps[0]), steps[1..], a);
    }
  }

  lemma FateKeeps(w: World, w': World, a: Id)
    requires ReadyOk(w, a) && ReadyFate(w, w', a)
    ensures ReadyOk(w', a)
  {
  }

  /** In every run, whoever made it ready and whatever was checked, restarted or settled since, the
      latest check of a ready release has passed. */
  lemma ReadyReleasesPassedTheirLatestCheck(steps: seq<Step>, a: Id)
    requires a in Run(EMPTY, steps).releases && Run(EMPTY, steps).releases[a].ready
    ensures var checks := Run(EMPTY, steps).checks;
            a in checks && |checks[a]| > 0 && checks[a][|checks[a]| - 1].status.Passed?
  {
    ReadyRun(EMPTY, steps, a);
  }
}
