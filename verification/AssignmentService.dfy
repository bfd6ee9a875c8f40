/** The assignment service as it runs: rows updated in place, one method per transaction of the
    web service and of its validation worker, each proved to take the protocol's step. */
module AssignmentService {
  import opened Common
  import opened AssignmentAdmin
  import opened AssignmentRuns

  class AssignmentService {
    var drafts: map<Id, Draft>
    var origins: map<Id, Id>
    var requests: map<(Id, Id), (Id, Doc)>
    var jobs: map<Id, Job>
    var releases: map<Id, Release>
    var checks: map<Id, seq<Check>>
    var deletions: set<Id>
    var workers: map<Id, Flight>
    ghost var hist: map<Id, seq<Material>>
    ghost var maker: map<Id, Id>

    ghost function State(): World reads this {
      World(drafts, origins, requests, jobs, releases, checks, deletions, workers, hist, maker)
    }

    constructor ()
      ensures State() == EMPTY
    {
      drafts, origins, requests, jobs, releases, checks := map[], map[], map[], map[], map[], map[];
      deletions, workers, hist, maker := {}, map[], map[], map[];
    }

    // -------------------------------------------------------------------- queries

    method CapacityFull(course: Id) returns (full: bool)
      ensures full == Full(State(), course)
    {
      var live := set d | d in drafts
          && !(drafts[d].deleted || (drafts[d].published.Some? && drafts[d].published.value in deletions));
      var here := set d | d in live && drafts[d].course == course;
      assert live == Live(State()) && here == LiveIn(State(), course);
      full := |here| >= COURSE_DRAFTS || |live| >= ALL_DRAFTS;
    }

    /** `_editable`. */
    method MayEdit(course: Id, draft: Id, revision: nat) returns (ok: bool)
      ensures ok == Editable(State(), course, draft, revision)
    {
      if draft !in drafts || drafts[draft].course != course || drafts[draft].deleted {
        return false;
      }
      if drafts[draft].revision != revision || drafts[draft].published.Some? {
        return false;
      }
      var rest := jobs.Keys;
      while rest != {}
        invariant rest <= jobs.Keys
        invariant forall j :: j in jobs && j !in rest ==> !(jobs[j].draft == draft && Busy(jobs[j].status))
        decreases |rest|
      {
        var j :| j in rest;
        rest := rest - {j};
        if jobs[j].draft == draft && Busy(jobs[j].status) {
          return false;
        }
      }
      return true;
    }

    /** The newest job of a draft at a revision. */
    method FindNewest(draft: Id, revision: nat) returns (newest: Option<Id>)
      ensures match newest
              case Some(j) => NewestJob(State(), draft, revision, j)
              case None => forall j :: j in jobs ==> !(jobs[j].draft == draft && jobs[j].revision == revision)
    {
      newest := None;
      var rest := jobs.Keys;
      while rest != {}
        invariant rest <= jobs.Keys
        invariant newest.Some? ==>
                    newest.value in jobs && jobs[newest.value].draft == draft && jobs[newest.value].revision == revision
        invariant forall j :: j in jobs && j !in rest && jobs[j].draft == draft && jobs[j].revision == revision ==>
                                (newest.Some? && jobs[j].row <= jobs[newest.value].row)
        decreases |rest|
      {
        var j :| j in rest;
        rest := rest - {j};
        if jobs[j].draft == draft && jobs[j].revision == revision
            && (newest.None? || jobs[newest.value].row <= jobs[j].row) {
          newest := Some(j);
        }
      }
    }

    method AnotherShown(course: Id, key: Id, a: Id) returns (found: bool)
      ensures found == OtherShown(State(), course, key, a)
    {
      var rest := releases.Keys;
      while rest != {}
        invariant rest <= releases.Keys
        invariant forall q ::
                    q in releases && q !in rest && q != a && releases[q].course == course && releases[q].key == key ==>
                    !Shown(releases[q])
        decreases |rest|
      {
        var q :| q in rest;
        rest := rest - {q};
        if q != a && releases[q].course == course && releases[q].key == key && releases[q].active && releases[q].ready {
          return true;
        }
      }
      return false;
    }

    method FindSource(course: Id, a: Id) returns (source: Option<Id>)
      ensures match source
              case Some(d) => SourceOf(State(), course, a, d)
              case None => forall d :: !SourceOf(State(), course, a, d)
    {
      var rest := drafts.Keys;
      while rest != {}
        invariant rest <= drafts.Keys
        invariant forall d :: d in drafts && d !in rest ==> !SourceOf(State(), course, a, d)
        decreases |rest|
      {
        var d :| d in rest;
        rest := rest - {d};
        if drafts[d].course == course && drafts[d].published == Some(a) {
          return Some(d);
        }
      }
      return None;
    }

    method PendingCheck(a: Id) returns (pending: bool)
      ensures pending == CheckPending(State(), a)
    {
      if a !in checks {
        return false;
      }
      var i := 0;
      while i < |checks[a]|
        invariant 0 <= i <= |checks[a]|
        invariant forall k :: 0 <= k < i ==> !checks[a][k].status.Pending?
      {
        if checks[a][i].status.Pending? {
          return true;
        }
        i := i + 1;
      }
      return false;
    }

    // -------------------------------------------------------------------- drafts

    method InsertDraft(id: Id, course: Id, m: Material)
      modifies `drafts, `hist
      ensures State() == Added(old(State()), id, course, m)
    {
      drafts := drafts[id := Draft(course, 1, m, None, false)];
      hist := hist[id := [m]];
    }

    /** `create_draft`; a request key already used returns the draft it made. */
    method CreateDraft(s: Step) returns (draft: Option<Id>)
      requires s.CreateDraft? && s.id !in drafts && s.id !in hist
      modifies `drafts, `hist, `requests
      ensures State() == CreateStep(old(State()), s)
      ensures if s.requestKey.Some? && (s.course, s.requestKey.value) in old(requests) then
                var (known, doc) := old(requests)[(s.course, s.requestKey.value)];
                State() == old(State()) && draft == if doc == s.doc then Some(known) else None
              else if s.id in drafts then draft == Some(s.id) else State() == old(State()) && draft == None
    {
      if s.requestKey.Some? && (s.course, s.requestKey.value) in requests {
        var known := requests[(s.course, s.requestKey.value)];
        draft := if known.1 == s.doc then Some(known.0) else None;
        return;
      }
      var full := CapacityFull(s.course);
      if full {
        return None;
      }
      InsertDraft(s.id, s.course, Material(s.doc, map[]));
      if s.requestKey.Some? {
        requests := requests[(s.course, s.requestKey.value) := (s.id, s.doc)];
      }
      draft := Some(s.id);
    }

    method Save(draft: Id, m: Material)
      requires draft in drafts
      modifies `drafts, `hist
      ensures State() == Edited(old(State()), draft, m)
    {
      drafts := drafts[draft := drafts[draft].(material := m, revision := drafts[draft].revision + 1)];
      hist := hist[draft := (if draft in hist then hist[draft] else []) + [m]];
    }

    method UpdateDraft(draft: Id, course: Id, revision: nat, doc: Doc)
      modifies `drafts, `hist
      ensures State() == UpdateStep(old(State()), draft, course, revision, doc)
    {
      var ok := MayEdit(course, draft, revision);
      if ok {
        var m := drafts[draft].material;
        var kept := m.uploads;
        if doc.language != m.doc.language || doc.mode != m.doc.mode {
          kept := map[];
        }
        Save(draft, Material(doc, kept));
      }
    }

    method Upload(draft: Id, course: Id, revision: nat, role: Role, archive: Id)
      modifies `drafts, `hist
      ensures State() == UploadStep(old(State()), draft, course, revision, role, archive)
    {
      var ok := MayEdit(course, draft, revision);
      if ok {
        var m := drafts[draft].material;
        Save(draft, m.(uploads := m.uploads[role := archive]));
      }
    }

    method DeleteDraft(draft: Id, course: Id, revision: nat)
      modifies `drafts, `hist
      ensures State() == DeleteDraftStep(old(State()), draft, course, revision)
    {
      var ok := MayEdit(course, draft, revision);
      if ok {
        Save(draft, drafts[draft].material);
        drafts := drafts[draft := drafts[draft].(deleted := true)];
      }
    }

    // ---------------------------------------------------------------- validation

    method QueueCheck(s: Step)
      requires s.QueueCheck? && s.job !in jobs
      modifies `jobs
      ensures State() == QueueStep(old(State()), s)
    {
      if s.draft !in drafts || drafts[s.draft].course != s.course || drafts[s.draft].deleted
        || drafts[s.draft].revision != s.revision || drafts[s.draft].published.Some? {
        return;
      }
      var rest := jobs.Keys;
      while rest != {}
        invariant rest <= jobs.Keys
        invariant forall j :: j in jobs && j !in rest ==> !Blocks(jobs[j], s.draft, s.revision)
        decreases |rest|
      {
        var j :| j in rest;
        rest := rest - {j};
        if Blocks(jobs[j], s.draft, s.revision) {
          return;
        }
      }
      var queued := set j | j in jobs && jobs[j].status.Queued?;
      var own := set j | j in jobs && jobs[j].draft == s.draft;
      assert queued == QueuedJobs(State()) && own == JobsOf(State(), s.draft);
      if s.ready && |queued| < MAX_QUEUED && |own| < DRAFT_JOBS && |jobs| < ALL_JOBS {
        jobs := jobs[s.job := Job(s.draft, s.course, s.revision, Queued, None, |jobs|)];
      }
    }

    /** The claim of `run_one`: the queued job that was inserted first. */
    method Claim(worker: Id) returns (claimed: Option<Id>)
      requires worker !in workers
      modifies `jobs, `workers
      ensures match claimed
              case Some(j) => State() == ClaimStep(old(State()), worker, j) && worker in workers
                  && workers[worker] == Flight(j, Claimed)
              case None => State() == old(State()) && forall j :: j in jobs ==> !jobs[j].status.Queued?
    {
      claimed := None;
      var rest := jobs.Keys;
      while rest != {}
        invariant rest <= jobs.Keys
        invariant claimed.Some? ==> claimed.value in jobs && jobs[claimed.value].status.Queued?
        invariant forall j :: j in jobs && j !in rest && jobs[j].status.Queued? ==>
                                (claimed.Some? && jobs[claimed.value].row <= jobs[j].row)
        decreases |rest|
      {
        var j :| j in rest;
        rest := rest - {j};
        if jobs[j].status.Queued? && (claimed.None? || jobs[j].row < jobs[claimed.value].row) {
          claimed := Some(j);
        }
      }
      if claimed.Some? {
        jobs := jobs[claimed.value := jobs[claimed.value].(status := Running)];
        workers := workers[worker := Flight(claimed.value, Claimed)];
      }
    }

    method ReadDocument(worker: Id) returns (ok: bool)
      requires worker in workers && workers[worker].phase.Claimed? && workers[worker].job in jobs
      modifies `workers
      ensures State() == ReadDocumentStep(old(State()), worker)
      ensures ok <==> worker in workers && workers[worker].phase.HasDoc?
    {
      var f := workers[worker];
      var job := jobs[f.job];
      ok := job.draft in drafts && drafts[job.draft].course == job.course && !drafts[job.draft].deleted
            && drafts[job.draft].revision == job.revision;
      if ok {
        workers := workers[worker := f.(phase := HasDoc(drafts[job.draft].material.doc))];
      }
    }

    method ReadUploads(worker: Id)
      requires worker in workers && workers[worker].phase.HasDoc? && workers[worker].job in jobs
      requires jobs[workers[worker].job].draft in drafts
      modifies `workers
      ensures State() == ReadUploadsStep(old(State()), worker)
    {
      var f := workers[worker];
      var uploads := drafts[jobs[f.job].draft].material.uploads;
      if f.phase.doc.mode.Template? {
        uploads := map[];
      }
      workers := workers[worker := f.(phase := HasAll(Material(f.phase.doc, uploads)))];
    }

    method Register(worker: Id, a: Id)
      requires worker in workers && workers[worker].phase.HasAll? && workers[worker].job in jobs
      requires a !in releases && a !in maker && a !in deletions && a !in checks
      modifies this
      ensures State() == RegisterStep(old(State()), worker, a)
    {
      var f := workers[worker];
      var job := jobs[f.job];
      var key := job.draft;
      if job.draft in origins {
        key := origins[job.draft];
      }
      releases := releases[a := Release(job.course, key, true, false, f.phase.material)];
      checks := checks[a := []];
      maker := maker[a := f.job];
      workers := workers[worker := f.(phase := Stored(f.phase.material, a))];
    }

    /** The release's number is written to the job, whatever the job's status is by now. */
    method Attach(worker: Id)
      requires worker in workers && workers[worker].phase.Stored? && workers[worker].job in jobs
      modifies `jobs, `workers
      ensures State() == AttachStep(old(State()), worker)
    {
      var f := workers[worker];
      jobs := jobs[f.job := jobs[f.job].(assignment := Some(f.phase.assignment))];
      workers := workers[worker := f.(phase := Registered(f.phase.material, f.phase.assignment))];
    }

    /** The last transaction of `run_one`. */
    method CloseJob(worker: Id, status: JobStatus, a: Option<Id>)
      requires worker in workers
      modifies `jobs, `workers
      ensures State() == Closed(old(State()), worker, status, a)
    {
      var j := workers[worker].job;
      workers := workers - {worker};
      if j in jobs && jobs[j].status.Running? {
        jobs := jobs[j := jobs[j].(status := status, assignment := a)];
      }
    }

    // ------------------------------------------------------------------ releases

    method Publish(s: Step)
      requires s.Publish? && UniqueRows(jobs)
      modifies `releases, `drafts
      ensures State() == PublishStep(old(State()), s)
    {
      ghost var w := State();
      if s.draft !in drafts || drafts[s.draft].course != s.course || drafts[s.draft].deleted
        || drafts[s.draft].revision != s.revision || drafts[s.draft].published.Some? || !s.allowed {
        return;
      }
      var newest := FindNewest(s.draft, s.revision);
      if newest.None? {
        return;
      }
      forall k | MayPublish(w, s, k) ensures k == newest.value {
        assert jobs[k].row == jobs[newest.value].row;
      }
      var job := jobs[newest.value];
      if !job.status.Succeeded? || job.assignment.None? {
        return;
      }
      var a := job.assignment.value;
      if a !in releases || releases[a].course != s.course || a in deletions || !releases[a].active {
        return;
      }
      if a !in checks || checks[a] == [] || !checks[a][|checks[a]| - 1].status.Passed? {
        return;
      }
      var taken := AnotherShown(s.course, releases[a].key, a);
      if taken {
        return;
      }
      assert MayPublish(w, s, newest.value);
      releases := releases[a := releases[a].(ready := true)];
      drafts := drafts[s.draft := drafts[s.draft].(published := Some(a))];
    }

    method CopyRelease(s: Step)
      requires s.CopyRelease? && s.id !in drafts && s.id !in hist && OneSourceEach(State())
      modifies `drafts, `hist, `origins
      ensures State() == CopyStep(old(State()), s)
    {
      if s.assignment !in releases || releases[s.assignment].course != s.course || s.assignment in deletions {
        return;
      }
      var source := FindSource(s.course, s.assignment);
      if source.None? {
        return;
      }
      var m := drafts[source.value].material;
      var full := CapacityFull(s.course);
      if full || s.doc.mode != m.doc.mode || s.doc.language != m.doc.language {
        return;
      }
      var key := releases[s.assignment].key;
      InsertDraft(s.id, s.course, m.(doc := s.doc));
      origins := origins[s.id := key];
    }

    /** `_archive_release` or `_delete_release`; false where it raises. */
    method Change(action: Action, a: Id) returns (ok: bool)
      requires a in releases
      modifies `releases, `deletions
      ensures match Altered(old(State()), action, a)
              case Some(w) => ok && State() == w
              case None => !ok && State() == old(State())
    {
      ok := true;
      if action.Archive? {
        releases := releases[a := releases[a].(active := false, ready := false)];
      } else {
        var pending := PendingCheck(a);
        if releases[a].active || releases[a].ready || (a !in deletions && pending) {
          ok := false;
        } else {
          ghost var before := deletions;
          deletions := deletions + {a};
          assert a in before ==> deletions == before;
        }
      }
    }

    /** The loop of `apply_release_batch`, up to the first change that raises. */
    method ChangeEach(action: Action, ids: seq<Id>) returns (ok: bool)
      requires CanAlter(State(), ids)
      modifies `releases, `deletions
      ensures match AlteredFrom(old(State()), action, ids, 0)
              case Some(w) => ok && State() == w
              case None => !ok
    {
      ghost var goal := AlteredFrom(State(), action, ids, 0);
      var i := 0;
      ok := true;
      while i < |ids| && ok
        invariant 0 <= i <= |ids| && CanAlter(State(), ids)
        invariant goal == if ok then AlteredFrom(State(), action, ids, i) else None
      {
        ok := Change(action, ids[i]);
        i := i + 1;
      }
    }

    /** The transaction around it: if one change raises, all of them are rolled back. */
    method ChangeAll(action: Action, ids: seq<Id>) returns (ok: bool)
      requires CanAlter(State(), ids)
      modifies `releases, `deletions
      ensures match AllAltered(old(State()), action, ids)
              case Some(w) => ok && State() == w
              case None => !ok && State() == old(State())
    {
      var savedReleases, savedDeletions := releases, deletions;
      AlteredFromIsAll(State(), action, ids, 0);
      assert ids[0..] == ids;
      ok := ChangeEach(action, ids);
      if !ok {
        releases, deletions := savedReleases, savedDeletions;
      }
    }

    method Restore(a: Id, course: Id)
      requires OneSourceEach(State())
      modifies `deletions
      ensures State() == RestoreStep(old(State()), a, course)
    {
      if a !in releases || releases[a].course != course || releases[a].active || releases[a].ready || a !in deletions {
        return;
      }
      var source := FindSource(course, a);
      var full := CapacityFull(course);
      if source.Some? && !drafts[source.value].deleted && full {
        return;
      }
      deletions := deletions - {a};
    }
  }

  ghost predicate CanAlter(w: World, ids: seq<Id>) {
    forall i :: 0 <= i < |ids| ==> ids[i] in w.releases
  }

  /** The changes of a batch from its `i`th on. */
  ghost function AlteredFrom(w: World, action: Action, ids: seq<Id>, i: nat): Option<World>
    requires i <= |ids| && CanAlter(w, ids)
    decreases |ids| - i
  {
    if i == |ids| then Some(w)
    else match Altered(w, action, ids[i])
      case None => None
      case Some(w') => AlteredFrom(w', action, ids, i + 1)
  }

  lemma {:induction false} AlteredFromIsAll(w: World, action: Action, ids: seq<Id>, i: nat)
    requires i <= |ids| && CanAlter(w, ids)
    ensures AlteredFrom(w, action, ids, i) == AllAltered(w, action, ids[i..])
    decreases |ids| - i
  {
    if i < |ids| && Altered(w, action, ids[i]).Some? {
      assert ids[i..][1..] == ids[i + 1..];
      AlteredFromIsAll(Altered(w, action, ids[i]).value, action, ids, i + 1);
    }
  }

  /** A release is the published version of one draft. */
  ghost predicate OneSourceEach(w: World) {
    forall course, a, d, e {:trigger SourceOf(w, course, a, d), SourceOf(w, course, a, e)} ::
      SourceOf(w, course, a, d) && SourceOf(w, course, a, e) ==> d == e
  }

  lemma SourcesAreUnique(steps: seq<Step>)
    ensures OneSourceEach(Run(EMPTY, steps))
  {
    EmptyIsFine();
    RunKeeps(EMPTY, steps);
    var w := Run(EMPTY, steps);
    forall course, a, d, e | SourceOf(w, course, a, d) && SourceOf(w, course, a, e) ensures d == e {
      OneSource(w, d, e, a);
    }
  }
}
