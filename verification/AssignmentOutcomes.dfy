/** When each act of an instructor takes effect, exactly, and what it then changes. */
module AssignmentOutcomes {
  import opened Common
  import opened AssignmentAdmin

  // ----------------------------------------------------------------------- drafts

  /** The draft is there for this course, at this revision, not deleted, not published, and no job
      of it waits or runs. */
  ghost predicate OpenForEdits(w: World, course: Id, draft: Id, revision: nat) {
    && draft in w.drafts && w.drafts[draft].course == course && !w.drafts[draft].deleted
    && w.drafts[draft].revision == revision && w.drafts[draft].published == None
    && forall j :: j in w.jobs && w.jobs[j].draft == draft ==> w.jobs[j].status !in {Queued, Running}
  }

  /** One draft moves to its next revision with material `m`; all else is as it was. */
  ghost predicate DraftRevised(w: World, w': World, draft: Id, m: Material, deleted: bool) {
    && draft in w.drafts && draft in w'.drafts
    && w'.drafts == w.drafts[draft := Draft(w.drafts[draft].course, w.drafts[draft].revision + 1, m, None, deleted)]
    && w' == w.(drafts := w'.drafts, hist := w'.hist)
  }

  lemma EditableIff(w: World, course: Id, draft: Id, revision: nat)
    ensures Editable(w, course, draft, revision) <==> OpenForEdits(w, course, draft, revision)
  {
  }

  /** A new document takes effect exactly on an open draft.  Uploads stay if and only if language and
      mode stay; otherwise all of them go. */
  lemma UpdateOutcome(w: World, draft: Id, course: Id, revision: nat, doc: Doc)
    ensures var w' := Next(w, UpdateDraft(draft, course, revision, doc));
            if OpenForEdits(w, course, draft, revision) then
              var m := w.drafts[draft].material;
              && (doc.language == m.doc.language && doc.mode == m.doc.mode ==>
                    DraftRevised(w, w', draft, Material(doc, m.uploads), false))
              && (doc.language != m.doc.language || doc.mode != m.doc.mode ==>
                    DraftRevised(w, w', draft, Material(doc, map[]), false))
            else w' == w
  {
    EditableIff(w, course, draft, revision);
  }

  /** An upload takes effect exactly on an open draft, and replaces the file of its role alone. */
  lemma UploadOutcome(w: World, draft: Id, course: Id, revision: nat, role: Role, archive: Id)
    ensures var w' := Next(w, Upload(draft, course, revision, role, archive));
            if OpenForEdits(w, course, draft, revision) then
              exists m :: DraftRevised(w, w', draft, m, false)
                && m.doc == w.drafts[draft].material.doc && role in m.uploads && m.uploads[role] == archive
                && forall r :: r != role ==>
                     && (r in m.uploads <==> r in w.drafts[draft].material.uploads)
                     && (r in m.uploads ==> m.uploads[r] == w.drafts[draft].material.uploads[r])
            else w' == w
  {
    EditableIff(w, course, draft, revision);
    if OpenForEdits(w, course, draft, revision) {
      var m := w.drafts[draft].material;
      assert DraftRevised(w, Next(w, Upload(draft, course, revision, role, archive)), draft,
                          m.(uploads := m.uploads[role := archive]), false);
    }
  }

  /** A template's solution and counterexample come with its document; a starter stays as it is. */
  lemma ImportOutcome(w: World, s: Step)
    requires s.ImportTemplate?
    ensures var w' := Next(w, s);
            if OpenForEdits(w, s.course, s.draft, s.revision) then
              exists m :: DraftRevised(w, w', s.draft, m, false) && m.doc == s.doc
                && Solution in m.uploads && m.uploads[Solution] == s.solution
                && Negative in m.uploads && m.uploads[Negative] == s.negative
                && (Starter in m.uploads <==> Starter in w.drafts[s.draft].material.uploads)
                && (Starter in m.uploads ==> m.uploads[Starter] == w.drafts[s.draft].material.uploads[Starter])
            else w' == w
  {
    EditableIff(w, s.course, s.draft, s.revision);
    if OpenForEdits(w, s.course, s.draft, s.revision) {
      var m := w.drafts[s.draft].material;
      assert DraftRevised(w, Next(w, s), s.draft,
                          Material(s.doc, m.uploads[Solution := s.solution][Negative := s.negative]), false);
    }
  }

  /** Deletion takes effect exactly on an open draft, which keeps its material. */
  lemma DeleteDraftOutcome(w: World, draft: Id, course: Id, revision: nat)
    ensures var w' := Next(w, DeleteDraft(draft, course, revision));
            if OpenForEdits(w, course, draft, revision)
            then DraftRevised(w, w', draft, w.drafts[draft].material, true)
            else w' == w
  {
    EditableIff(w, course, draft, revision);
  }

  /** Drafts that count: not deleted, and not published as a release on the deleted list. */
  function Counting(w: World): set<Id> {
    set d | d in w.drafts && !w.drafts[d].deleted
            && (w.drafts[d].published.Some? ==> w.drafts[d].published.value !in w.deletions)
  }

  function CountingIn(w: World, course: Id): set<Id> {
    set d | d in Counting(w) && w.drafts[d].course == course
  }

  /** The limits leave room for one more. */
  ghost predicate Room(w: World, course: Id) {
    |CountingIn(w, course)| < 100 && |Counting(w)| < 500
  }

  lemma CountsAgree(w: World, course: Id)
    ensures Full(w, course) <==> !Room(w, course)
  {
    assert Live(w) == Counting(w) && LiveIn(w, course) == CountingIn(w, course);
  }

  /** A draft appears at revision 1 with material `m`. */
  ghost predicate DraftAppears(w: World, w': World, id: Id, course: Id, m: Material) {
    && w'.drafts == w.drafts[id := Draft(course, 1, m, None, false)]
    && w' == w.(drafts := w'.drafts, hist := w'.hist, requests := w'.requests, origins := w'.origins)
  }

  /** A new draft appears exactly if its request key is new and both limits leave room; it has no
      uploads, and its key is taken. */
  lemma CreateOutcome(w: World, s: Step)
    requires s.CreateDraft? && s.id !in w.drafts && s.id !in w.hist
    ensures var w' := CreateStep(w, s);
            if (s.requestKey.Some? ==> (s.course, s.requestKey.value) !in w.requests) && Room(w, s.course) then
              && DraftAppears(w, w', s.id, s.course, Material(s.doc, map[])) && w'.origins == w.origins
              && (s.requestKey.None? ==> w'.requests == w.requests)
              && (s.requestKey.Some? ==> w'.requests == w.requests[(s.course, s.requestKey.value) := (s.id, s.doc)])
            else w' == w
  {
    CountsAgree(w, s.course);
  }

  /** The release is of the course and not deleted, its source's language and mode are kept, and
      both limits leave room. */
  ghost predicate MayCopy(w: World, s: Step, m: Material)
    requires s.CopyRelease?
  {
    && s.assignment in w.releases && w.releases[s.assignment].course == s.course && s.assignment !in w.deletions
    && s.doc.mode == m.doc.mode && s.doc.language == m.doc.language && Room(w, s.course)
  }

  lemma ChosenSource(w: World, s: Step, d: Id)
    requires s.CopyRelease? && s.id !in w.drafts && s.id !in w.hist && SourceOf(w, s.course, s.assignment, d)
    requires forall e :: SourceOf(w, s.course, s.assignment, e) ==> e == d
    ensures MayCopy(w, s, w.drafts[d].material) ==>
              CopyStep(w, s) == Added(w, s.id, s.course, w.drafts[d].material.(doc := s.doc))
                .(origins := w.origins[s.id := w.releases[s.assignment].key])
    ensures !MayCopy(w, s, w.drafts[d].material) ==> CopyStep(w, s) == w
  {
    CountsAgree(w, s.course);
  }

  /** A copy appears exactly of a release that is not deleted and has a source draft in the course,
      with language and mode kept, if both limits leave room.  It has the source's uploads, the new
      document and the key of the release. */
  lemma CopyOutcome(w: World, s: Step, d: Id)
    requires Inv(w) && s.CopyRelease? && s.id !in w.drafts && s.id !in w.hist
    requires d in w.drafts && w.drafts[d].course == s.course && w.drafts[d].published == Some(s.assignment)
    ensures var w' := CopyStep(w, s);
            var m := w.drafts[d].material;
            if MayCopy(w, s, m) then
              && DraftAppears(w, w', s.id, s.course, Material(s.doc, m.uploads)) && w'.requests == w.requests
              && w'.origins == w.origins[s.id := w.releases[s.assignment].key]
            else w' == w
  {
    forall e | SourceOf(w, s.course, s.assignment, e) ensures e == d {
      OneSource(w, e, d, s.assignment);
    }
    ChosenSource(w, s, d);
  }

  /** Without such a draft there is nothing to copy. */
  lemma CopyNeedsSource(w: World, s: Step)
    requires s.CopyRelease?
    requires forall d :: d in w.drafts && w.drafts[d].course == s.course ==>
               w.drafts[d].published != Some(s.assignment)
    ensures CopyStep(w, s) == w
  {
    forall d ensures !SourceOf(w, s.course, s.assignment, d) {
    }
  }

  // ------------------------------------------------------------------------- jobs

  /** A check is queued exactly if the draft is there, at this revision and unpublished, nothing of
      this revision waits, runs or has succeeded, the materials are ready, and fewer than 10 jobs
      wait, fewer than 50 are of the draft and fewer than 1000 are there at all. */
  lemma QueueOutcome(w: World, s: Step)
    requires s.QueueCheck? && s.job !in w.jobs
    ensures var w' := QueueStep(w, s);
            if && s.draft in w.drafts && w.drafts[s.draft].course == s.course && !w.drafts[s.draft].deleted
               && w.drafts[s.draft].revision == s.revision && w.drafts[s.draft].published == None && s.ready
               && (forall j :: j in w.jobs && w.jobs[j].draft == s.draft && w.jobs[j].revision == s.revision ==>
                     w.jobs[j].status !in {Queued, Running, Succeeded})
               && |set j | j in w.jobs && w.jobs[j].status == Queued| < 10
               && |set j | j in w.jobs && w.jobs[j].draft == s.draft| < 50 && |w.jobs| < 1000 then
              && w'.jobs == w.jobs[s.job := Job(s.draft, s.course, s.revision, Queued, None, |w.jobs|)]
              && w' == w.(jobs := w'.jobs)
            else w' == w
  {
    assert QueuedJobs(w) == set j | j in w.jobs && w.jobs[j].status == Queued;
    assert JobsOf(w, s.draft) == set j | j in w.jobs && w.jobs[j].draft == s.draft;
  }

  /** A free worker gets a job exactly if it waits and none that waits came before it. */
  lemma ClaimOutcome(w: World, worker: Id, job: Id)
    requires worker !in w.workers
    ensures var w' := ClaimStep(w, worker, job);
            if job in w.jobs && w.jobs[job].status == Queued
               && (forall j :: j in w.jobs && w.jobs[j].status == Queued ==> w.jobs[job].row <= w.jobs[j].row) then
              && w' == w.(jobs := w'.jobs, workers := w'.workers)
              && w'.jobs == w.jobs[job := w.jobs[job].(status := Running)]
              && w'.workers == w.workers[worker := Flight(job, Claimed)]
            else w' == w
  {
  }

  /** A restart interrupts exactly the running jobs, keeps all else about them, and fails exactly the
      pending checks of their releases. */
  lemma RestartOutcome(w: World, j: Id, a: Id, i: nat)
    ensures var w' := Next(w, Restart);
            && w' == w.(jobs := w'.jobs, checks := w'.checks)
            && (j in w'.jobs <==> j in w.jobs)
            && (j in w.jobs ==> w'.jobs[j] == if w.jobs[j].status == Running then w.jobs[j].(status := Interrupted)
                                              else w.jobs[j])
            && (a in w'.checks <==> a in w.checks)
            && (a in w.checks ==> |w'.checks[a]| == |w.checks[a]|)
            && (a in w.checks && i < |w.checks[a]| ==>
                  w'.checks[a][i] ==
                  if w.checks[a][i].status == CheckStatus.Pending
                     && exists k :: k in w.jobs && w.jobs[k].status == Running && w.jobs[k].assignment == Some(a)
                  then w.checks[a][i].(status := NotPassed) else w.checks[a][i])
  {
  }

  // ----------------------------------------------------------------- checks of releases

  /** A worker's check begins exactly on an unready release that is not deleted, and is pending. */
  lemma BeginCheckOutcome(w: World, worker: Id)
    requires worker in w.workers && w.workers[worker].phase.Registered?
    ensures var f := w.workers[worker];
            var a := f.phase.assignment;
            var w' := Next(w, BeginCheck(worker));
            if a in w.releases && a in w.checks && a !in w.deletions && !w.releases[a].ready then
              && w'.checks == w.checks[a := w.checks[a] + [Check(CheckStatus.Pending, Some(f.phase.material))]]
              && w'.workers == w.workers[worker := Flight(f.job, Checking(f.phase.material, a, |w.checks[a]|))]
              && w' == w.(checks := w'.checks, workers := w'.workers)
            else w' == w
  {
  }

  /** It is settled exactly once, with the verdict it got; only a worker whose check passed goes on. */
  lemma FinishCheckOutcome(w: World, worker: Id, passed: bool)
    requires worker in w.workers && w.workers[worker].phase.Checking?
    ensures var f := w.workers[worker];
            var a, i := f.phase.assignment, f.phase.check;
            var w' := FinishCheckStep(w, worker, passed);
            if a in w.checks && i < |w.checks[a]| && w.checks[a][i].status == CheckStatus.Pending then
              && w' == w.(checks := w'.checks, workers := w'.workers)
              && w'.checks == w.checks[a := w.checks[a][i := Check(if passed then Passed else NotPassed,
                                                                   w.checks[a][i].content)]]
              && w'.workers == (if passed then w.workers[worker := Flight(f.job, Judged(f.phase.material, a))]
                                else w.workers)
            else w' == w
  {
  }

  /** A worker that fails leaves the release it attached to the job, if the job is still running. */
  lemma FailOutcome(w: World, worker: Id, stopping: bool)
    requires worker in w.workers && w.workers[worker].job in w.jobs
    ensures var j := w.workers[worker].job;
            var w' := FailJobStep(w, worker, stopping);
            && w' == w.(jobs := w'.jobs, workers := w.workers - {worker})
            && (w.jobs[j].status != Running ==> w'.jobs == w.jobs)
            && (w.jobs[j].status == Running ==>
                  w'.jobs == w.jobs[j := Job(w.jobs[j].draft, w.jobs[j].course, w.jobs[j].revision,
                                             if stopping then Interrupted else Unsuccessful,
                                             w.jobs[j].assignment, w.jobs[j].row)])
  {
    var j := w.workers[worker].job;
    var status := if stopping then Interrupted else Unsuccessful;
    assert FailJobStep(w, worker, stopping) == Closed(w, worker, status, w.jobs[j].assignment);
  }

  /** A release is registered active and unready, with what the worker holds, for the job's course,
      and under the key its draft was copied from or, for want of one, the draft's own. */
  lemma RegisterOutcome(w: World, worker: Id, a: Id)
    requires worker in w.workers && w.workers[worker].phase.HasAll? && w.workers[worker].job in w.jobs
    requires a !in w.releases && a !in w.maker && a !in w.deletions && a !in w.checks
    ensures var job := w.jobs[w.workers[worker].job];
            var w' := RegisterStep(w, worker, a);
            && a in w'.releases && a in w'.checks && w'.checks[a] == [] && a in w'.maker
            && w'.maker[a] == w.workers[worker].job
            && w'.releases[a].course == job.course && w'.releases[a].active && !w'.releases[a].ready
            && w'.releases[a].content == w.workers[worker].phase.material
            && (job.draft in w.origins ==> w'.releases[a].key == w.origins[job.draft])
            && (job.draft !in w.origins ==> w'.releases[a].key == job.draft)
            && w'.drafts == w.drafts && w'.jobs == w.jobs && w'.deletions == w.deletions
            && (forall b :: b != a ==> (b in w'.releases <==> b in w.releases))
            && (forall b :: b != a && b in w.releases ==> w'.releases[b] == w.releases[b])
  {
  }

  // --------------------------------------------------------------------- publication

  /** No other release of the key is shown in the course. */
  ghost predicate KeyIsFree(w: World, course: Id, a: Id)
    requires a in w.releases
  {
    forall q :: q in w.releases && q != a && w.releases[q].course == course && w.releases[q].active ==>
      w.releases[q].ready ==> w.releases[q].key != w.releases[a].key
  }

  ghost predicate PassedLast(w: World, a: Id) {
    a in w.checks && |w.checks[a]| > 0 && w.checks[a][|w.checks[a]| - 1].status == Passed
  }

  /** The command line shows a release exactly if it is of the course, not deleted, active, passed
      its latest check, and no other release of its key is shown. */
  lemma PublishValidatedOutcome(w: World, a: Id, course: Id)
    ensures var w' := Next(w, PublishValidated(a, course));
            if a in w.releases && w.releases[a].course == course && a !in w.deletions && w.releases[a].active
               && PassedLast(w, a) && KeyIsFree(w, course, a)
            then w' == w.(releases := w.releases[a := w.releases[a].(ready := true)])
            else w' == w
  {
  }

  /** A draft is published exactly if it is there, at this revision and unpublished, its last job of
      the revision succeeded with a release of the course, and that release is not deleted, active,
      passed its latest check, and no other of its key is shown. */
  lemma PublishOutcome(w: World, s: Step, j: Id)
    requires s.Publish? && j in w.jobs && w.jobs[j].draft == s.draft && w.jobs[j].revision == s.revision
    requires forall k :: k in w.jobs && k != j && w.jobs[k].draft == s.draft && w.jobs[k].revision == s.revision ==>
               w.jobs[k].row < w.jobs[j].row
    ensures var w' := Next(w, s);
            if && s.allowed && s.draft in w.drafts && w.drafts[s.draft].course == s.course && !w.drafts[s.draft].deleted
               && w.drafts[s.draft].revision == s.revision && w.drafts[s.draft].published == None
               && w.jobs[j].status == Succeeded && w.jobs[j].assignment.Some?
               && var a := w.jobs[j].assignment.value;
               && a in w.releases && w.releases[a].course == s.course && a !in w.deletions && w.releases[a].active
               && PassedLast(w, a) && KeyIsFree(w, s.course, a) then
              var a := w.jobs[j].assignment.value;
              w' == w.(releases := w.releases[a := w.releases[a].(ready := true)],
                       drafts := w.drafts[s.draft := w.drafts[s.draft].(published := Some(a))])
            else w' == w
  {
    PublishChoosesLast(w, s, j);
  }

  lemma PublishChoosesLast(w: World, s: Step, j: Id)
    requires s.Publish? && j in w.jobs && w.jobs[j].draft == s.draft && w.jobs[j].revision == s.revision
    requires forall k :: k in w.jobs && k != j && w.jobs[k].draft == s.draft && w.jobs[k].revision == s.revision ==>
               w.jobs[k].row < w.jobs[j].row
    ensures forall k :: MayPublish(w, s, k) ==> k == j
    ensures PublishStep(w, s) == if MayPublish(w, s, j) then Published(w, s.draft, w.jobs[j].assignment.value) else w
  {
    forall k | MayPublish(w, s, k) ensures k == j {
      assert NewestJob(w, s.draft, s.revision, k);
    }
  }

  // ------------------------------------------------------------- hiding, archiving, deleting

  ghost predicate NonePending(w: World, a: Id) {
    a in w.checks ==> forall i :: 0 <= i < |w.checks[a]| ==> w.checks[a][i].status != CheckStatus.Pending
  }

  /** Hiding takes a release that nobody used off the shelf; archiving closes one for good. */
  lemma HideOutcome(w: World, a: Id, course: Id, used: bool)
    ensures Next(w, Hide(a, course, used)) ==
            if a in w.releases && w.releases[a].course == course && a !in w.deletions && !used
            then w.(releases := w.releases[a := w.releases[a].(ready := false)]) else w
  {
  }

  lemma ArchiveOutcome(w: World, a: Id, course: Id)
    ensures Next(w, Alter(Archive, a, course)) ==
            if a in w.releases && w.releases[a].course == course && a !in w.deletions
            then w.(releases := w.releases[a := w.releases[a].(active := false, ready := false)]) else w
  {
  }

  /** Only what is inactive, unready and not under check is put on the deleted list. */
  lemma DeleteOutcome(w: World, a: Id, course: Id)
    ensures Next(w, Alter(Delete, a, course)) ==
            if a in w.releases && w.releases[a].course == course && !w.releases[a].active && !w.releases[a].ready
               && NonePending(w, a)
            then w.(deletions := w.deletions + {a}) else w
  {
    assert a in w.deletions ==> w.deletions + {a} == w.deletions;
  }

  /** It comes off the list exactly if it is on it and, where a draft that is not deleted was
      published as it, both limits leave room for one more. */
  lemma RestoreOutcome(w: World, a: Id, course: Id)
    ensures Next(w, Restore(a, course)) ==
            if a in w.releases && w.releases[a].course == course && !w.releases[a].active && !w.releases[a].ready
               && a in w.deletions
               && ((exists d :: d in w.drafts && w.drafts[d].course == course && w.drafts[d].published == Some(a)
                                && !w.drafts[d].deleted) ==>
                     Room(w, course))
            then w.(deletions := w.deletions - {a}) else w
  {
    CountsAgree(w, course);
    assert (exists d :: SourceOf(w, course, a, d) && !w.drafts[d].deleted) <==>
             (exists d :: d in w.drafts && w.drafts[d].course == course && w.drafts[d].published == Some(a)
                          && !w.drafts[d].deleted);
  }

  /** What a batch asks of every release in it: of the course, not deleted, from a draft that is not
      deleted or from no job at all, with no check pending and no job under way. */
  lemma SelectableIff(w: World, course: Id, action: Action, a: Id)
    ensures Selectable(w, course, action, a) <==>
              && a in w.releases && w.releases[a].course == course && a !in w.deletions
              && ((exists d :: d in w.drafts && w.drafts[d].course == course && w.drafts[d].published == Some(a)
                               && !w.drafts[d].deleted)
                  || (forall j :: j in w.jobs ==> w.jobs[j].assignment != Some(a)))
              && NonePending(w, a)
              && (forall j :: j in w.jobs && w.jobs[j].status in {Queued, Running} ==>
                    && w.jobs[j].assignment != Some(a)
                    && !(w.jobs[j].draft in w.drafts && w.drafts[w.jobs[j].draft].course == course
                         && w.drafts[w.jobs[j].draft].published == Some(a)))
              && (action == Delete ==> !w.releases[a].active && !w.releases[a].ready)
  {
    assert (exists d :: SourceOf(w, course, a, d) && !w.drafts[d].deleted) <==>
             (exists d :: d in w.drafts && w.drafts[d].course == course && w.drafts[d].published == Some(a)
                          && !w.drafts[d].deleted);
    assert HasJob(w, a) <==> !(forall j :: j in w.jobs ==> w.jobs[j].assignment != Some(a));
  }

  /** A batch changes its one to twenty distinct, confirmed releases together or nothing. */
  lemma BatchRefusedUnless(w: World, action: Action, course: Id, ids: seq<Id>, confirmed: bool)
    requires Next(w, Batch(action, course, ids, confirmed)) != w
    ensures confirmed && 1 <= |ids| <= 20 && (forall i, j :: 0 <= i < j < |ids| ==> ids[i] != ids[j])
    ensures forall i :: 0 <= i < |ids| ==> Selectable(w, course, action, ids[i])
  {
  }

  /** A check run from the command line is recorded, with its verdict, exactly on an unready release
      that is not deleted. */
  lemma OutsideCheckOutcome(w: World, a: Id, passed: bool)
    ensures var w' := OutsideCheckStep(w, a, passed);
            if a in w.releases && a in w.checks && a !in w.deletions && !w.releases[a].ready
            then w' == w.(checks := w.checks[a := w.checks[a] + [Check(if passed then Passed else NotPassed, None)]])
            else w' == w
  {
  }
}
