/** Instructor drafts, their validation by workers that may die or outlive a restart, and the
    releases made from them. */
module AssignmentAdmin {
  import opened Common

  type Id = nat

  const MAX_QUEUED := 10
  const COURSE_DRAFTS := 100
  const ALL_DRAFTS := 500
  const DRAFT_JOBS := 50
  const ALL_JOBS := 1000
  const MAX_BATCH := 20

  datatype Mode = Template | Direct
  datatype Role = Starter | Solution | Negative
  /** The settings of an assignment; their text is opaque here. */
  datatype Doc = Doc(mode: Mode, language: Id, tests: nat, text: Id)
  datatype Material = Material(doc: Doc, uploads: map<Role, Id>)
  datatype Draft = Draft(course: Id, revision: nat, material: Material, published: Option<Id>, deleted: bool)

  datatype JobStatus = Queued | Running | Succeeded | Unsuccessful | Interrupted
  datatype Job = Job(draft: Id, course: Id, revision: nat, status: JobStatus, assignment: Option<Id>, row: nat)
  datatype Release = Release(course: Id, key: Id, active: bool, ready: bool, content: Material)
  datatype CheckStatus = Pending | Passed | NotPassed
  /** `content` is what a worker's check was run on; checks started elsewhere have none here. */
  datatype Check = Check(status: CheckStatus, content: Option<Material>)

  /** A worker in `_validate`, between its reads and writes. */
  datatype Phase =
    | Claimed
    | HasDoc(doc: Doc)
    | HasAll(material: Material)
    | Stored(material: Material, assignment: Id)
    | Registered(material: Material, assignment: Id)
    | Checking(material: Material, assignment: Id, check: nat)
    | Judged(material: Material, assignment: Id)
  datatype Flight = Flight(job: Id, phase: Phase)

  /** History variables: the material at every revision of a draft, and the job each worker
      release was registered for. */
  datatype World = World(drafts: map<Id, Draft>, origins: map<Id, Id>, requests: map<(Id, Id), (Id, Doc)>,
                         jobs: map<Id, Job>, releases: map<Id, Release>, checks: map<Id, seq<Check>>,
                         deletions: set<Id>, workers: map<Id, Flight>,
                         hist: map<Id, seq<Material>>, maker: map<Id, Id>)

  const EMPTY := World(map[], map[], map[], map[], map[], map[], {}, map[], map[], map[])

  datatype Action = Archive | Delete

  datatype Step =
    | CreateDraft(id: Id, course: Id, requestKey: Option<Id>, doc: Doc)
    | UpdateDraft(draft: Id, course: Id, revision: nat, doc: Doc)
    | Upload(draft: Id, course: Id, revision: nat, role: Role, archive: Id)
    | ImportTemplate(draft: Id, course: Id, revision: nat, doc: Doc, solution: Id, negative: Id)
    | DeleteDraft(draft: Id, course: Id, revision: nat)
    | QueueCheck(job: Id, draft: Id, course: Id, revision: nat, ready: bool)
    | Claim(worker: Id, job: Id)
    | ReadDocument(worker: Id)
    | ReadUploads(worker: Id)
    | Register(worker: Id, assignment: Id)
    | Attach(worker: Id)
    | BeginCheck(worker: Id)
    | FinishCheck(worker: Id, passed: bool)
    | FinishJob(worker: Id, stopping: bool)
    | FailJob(worker: Id, stopping: bool)
    | Vanish(worker: Id)
    | Restart
    | OutsideCheck(assignment: Id, passed: bool)
    | Publish(draft: Id, course: Id, revision: nat, allowed: bool)
    | PublishValidated(assignment: Id, course: Id)
    | CopyRelease(id: Id, course: Id, assignment: Id, doc: Doc)
    | Hide(assignment: Id, course: Id, used: bool)
    | Alter(action: Action, assignment: Id, course: Id)
    | Batch(action: Action, course: Id, assignments: seq<Id>, confirmed: bool)
    | Restore(assignment: Id, course: Id)

  // ---------------------------------------------------------------------- drafts

  /** What a release is built from: a template's files follow from its document. */
  function Packed(m: Material): Material {
    if m.doc.mode.Template? then m.(uploads := map[]) else m
  }

  predicate Hidden(w: World, d: Draft) {
    d.deleted || (d.published.Some? && d.published.value in w.deletions)
  }

  function Live(w: World): set<Id> {
    set d | d in w.drafts && !Hidden(w, w.drafts[d])
  }

  function LiveIn(w: World, course: Id): set<Id> {
    set d | d in w.drafts && !Hidden(w, w.drafts[d]) && w.drafts[d].course == course
  }

  /** `_draft_capacity_full`. */
  predicate Full(w: World, course: Id) {
    |LiveIn(w, course)| >= COURSE_DRAFTS || |Live(w)| >= ALL_DRAFTS
  }

  predicate Known(w: World, course: Id, draft: Id) {
    draft in w.drafts && w.drafts[draft].course == course && !w.drafts[draft].deleted
  }

  predicate Busy(s: JobStatus) { s.Queued? || s.Running? }

  ghost predicate UnderCheck(w: World, draft: Id) {
    exists j :: j in w.jobs && w.jobs[j].draft == draft && Busy(w.jobs[j].status)
  }

  /** `_editable`. */
  ghost predicate Editable(w: World, course: Id, draft: Id, revision: nat) {
    && Known(w, course, draft) && w.drafts[draft].revision == revision && w.drafts[draft].published.None?
    && !UnderCheck(w, draft)
  }

  ghost function Added(w: World, id: Id, course: Id, m: Material): World {
    w.(drafts := w.drafts[id := Draft(course, 1, m, None, false)], hist := w.hist[id := [m]])
  }

  ghost function CreateStep(w: World, s: Step): World
    requires s.CreateDraft?
  {
    if s.requestKey.Some? && (s.course, s.requestKey.value) in w.requests then w
    else if Full(w, s.course) || s.id in w.drafts || s.id in w.hist then w
    else
      var requests := if s.requestKey.None? then w.requests
          else w.requests[(s.course, s.requestKey.value) := (s.id, s.doc)];
      Added(w, s.id, s.course, Material(s.doc, map[])).(requests := requests)
  }

  ghost function Edited(w: World, draft: Id, m: Material): World
    requires draft in w.drafts
  {
    var d := w.drafts[draft];
    w.(drafts := w.drafts[draft := d.(material := m, revision := d.revision + 1)],
       hist := w.hist[draft := (if draft in w.hist then w.hist[draft] else []) + [m]])
  }

  ghost function UpdateStep(w: World, draft: Id, course: Id, revision: nat, doc: Doc): World {
    if !Editable(w, course, draft, revision) then w
    else
      var m := w.drafts[draft].material;
      var kept := if doc.language != m.doc.language || doc.mode != m.doc.mode then map[] else m.uploads;
      Edited(w, draft, Material(doc, kept))
  }

  ghost function UploadStep(w: World, draft: Id, course: Id, revision: nat, role: Role, archive: Id): World {
    if !Editable(w, course, draft, revision) then w
    else
      var m := w.drafts[draft].material;
      Edited(w, draft, m.(uploads := m.uploads[role := archive]))
  }

  ghost function ImportStep(w: World, s: Step): World
    requires s.ImportTemplate?
  {
    if !Editable(w, s.course, s.draft, s.revision) then w
    else
      var m := w.drafts[s.draft].material;
      Edited(w, s.draft, Material(s.doc, m.uploads[Solution := s.solution][Negative := s.negative]))
  }

  ghost function DeleteDraftStep(w: World, draft: Id, course: Id, revision: nat): World {
    if !Editable(w, course, draft, revision) then w
    else
      var w1 := Edited(w, draft, w.drafts[draft].material);
      w1.(drafts := w1.drafts[draft := w1.drafts[draft].(deleted := true)])
  }

  // ------------------------------------------------------------------------ jobs

  predicate Blocks(job: Job, draft: Id, revision: nat) {
    job.draft == draft && job.revision == revision && (Busy(job.status) || job.status.Succeeded?)
  }

  function QueuedJobs(w: World): set<Id> {
    set j | j in w.jobs && w.jobs[j].status.Queued?
  }

  function JobsOf(w: World, draft: Id): set<Id> {
    set j | j in w.jobs && w.jobs[j].draft == draft
  }

  /** `queue_check`; `ready` says that materials and sources are as they must be. */
  ghost function QueueStep(w: World, s: Step): World
    requires s.QueueCheck?
  {
    if !Known(w, s.course, s.draft) || w.drafts[s.draft].revision != s.revision
        || w.drafts[s.draft].published.Some? then w
    else if exists j :: j in w.jobs && Blocks(w.jobs[j], s.draft, s.revision) then w
    else if !s.ready || s.job in w.jobs then w
    else if |QueuedJobs(w)| >= MAX_QUEUED || |JobsOf(w, s.draft)| >= DRAFT_JOBS || |w.jobs| >= ALL_JOBS then w
    else w.(jobs := w.jobs[s.job := Job(s.draft, s.course, s.revision, Queued, None, |w.jobs|)])
  }

  ghost function ClaimStep(w: World, worker: Id, job: Id): World {
    if worker in w.workers || job !in w.jobs || !w.jobs[job].status.Queued? then w
    else if exists j :: j in w.jobs && w.jobs[j].status.Queued? && w.jobs[j].row < w.jobs[job].row then w
    else w.(jobs := w.jobs[job := w.jobs[job].(status := Running)],
        workers := w.workers[worker := Flight(job, Claimed)])
  }

  /** The first read of `_validate`: document and revision, whoever owns the job by now. */
  ghost function ReadDocumentStep(w: World, worker: Id): World {
    if worker !in w.workers || !w.workers[worker].phase.Claimed? || w.workers[worker].job !in w.jobs then w
    else
      var f := w.workers[worker];
      var job := w.jobs[f.job];
      if !Known(w, job.course, job.draft) || w.drafts[job.draft].revision != job.revision then w
      else w.(workers := w.workers[worker := f.(phase := HasDoc(w.drafts[job.draft].material.doc))])
  }

  /** The second read, in another transaction, of whatever uploads there are then. */
  ghost function ReadUploadsStep(w: World, worker: Id): World {
    if worker !in w.workers || !w.workers[worker].phase.HasDoc? || w.workers[worker].job !in w.jobs then w
    else
      var f := w.workers[worker];
      var job := w.jobs[f.job];
      if job.draft !in w.drafts then w
      else
        var material := Packed(Material(f.phase.doc, w.drafts[job.draft].material.uploads));
        w.(workers := w.workers[worker := f.(phase := HasAll(material))])
  }

  function KeyOf(w: World, draft: Id): Id {
    if draft in w.origins then w.origins[draft] else draft
  }

  /** `_add_bundle_assignment`. */
  ghost function RegisterStep(w: World, worker: Id, a: Id): World {
    if worker !in w.workers || !w.workers[worker].phase.HasAll? || w.workers[worker].job !in w.jobs then w
    else if a in w.releases || a in w.maker || a in w.deletions || a in w.checks then w
    else
      var f := w.workers[worker];
      var job := w.jobs[f.job];
      w.(releases := w.releases[a := Release(job.course, KeyOf(w, job.draft), true, false, f.phase.material)],
         checks := w.checks[a := []], maker := w.maker[a := f.job],
         workers := w.workers[worker := f.(phase := Stored(f.phase.material, a))])
  }

  /** The job's assignment column, in a transaction of its own and without a status guard. */
  ghost function AttachStep(w: World, worker: Id): World {
    if worker !in w.workers || !w.workers[worker].phase.Stored? || w.workers[worker].job !in w.jobs then w
    else
      var f := w.workers[worker];
      w.(jobs := w.jobs[f.job := w.jobs[f.job].(assignment := Some(f.phase.assignment))],
         workers := w.workers[worker := f.(phase := Registered(f.phase.material, f.phase.assignment))])
  }

  ghost function BeginCheckStep(w: World, worker: Id): World {
    if worker !in w.workers || !w.workers[worker].phase.Registered? then w
    else
      var f := w.workers[worker];
      var a := f.phase.assignment;
      if a !in w.releases || a !in w.checks || a in w.deletions || w.releases[a].ready then w
      else w.(checks := w.checks[a := w.checks[a] + [Check(Pending, Some(f.phase.material))]],
              workers := w.workers[worker := f.(phase := Checking(f.phase.material, a, |w.checks[a]|))])
  }

  /** The check's row is settled only while it is pending. */
  ghost function FinishCheckStep(w: World, worker: Id, passed: bool): World {
    if worker !in w.workers || !w.workers[worker].phase.Checking? then w
    else
      var f := w.workers[worker];
      var a, i := f.phase.assignment, f.phase.check;
      if a !in w.checks || i >= |w.checks[a]| || !w.checks[a][i].status.Pending? then w
      else w.(checks := w.checks[a := w.checks[a][i :=
                                    w.checks[a][i].(status := if passed then Passed else NotPassed)]],
              workers := if passed then w.workers[worker := f.(phase := Judged(f.phase.material, a))] else w.workers)
  }

  /** The last update of `run_one`, which takes effect only on a job that is still running. */
  ghost function Closed(w: World, worker: Id, status: JobStatus, a: Option<Id>): World
    requires worker in w.workers
  {
    var j := w.workers[worker].job;
    var w1 := w.(workers := w.workers - {worker});
    if j !in w.jobs || !w.jobs[j].status.Running? then w1
    else w1.(jobs := w.jobs[j := w.jobs[j].(status := status, assignment := a)])
  }

  ghost function FinishJobStep(w: World, worker: Id, stopping: bool): World {
    if worker !in w.workers || !w.workers[worker].phase.Judged? then w
    else Closed(w, worker, if stopping then Interrupted else Succeeded, Some(w.workers[worker].phase.assignment))
  }

  ghost function FailJobStep(w: World, worker: Id, stopping: bool): World {
    if worker !in w.workers then w
    else
      var j := w.workers[worker].job;
      Closed(w, worker, if stopping then Interrupted else Unsuccessful,
             if j in w.jobs then w.jobs[j].assignment else None)
  }

  /** `start`: running jobs are interrupted and their pending checks failed; workers of other
      processes live on. */
  ghost function RestartStep(w: World): World {
    w.(jobs := map j | j in w.jobs ::
        if w.jobs[j].status.Running? then w.jobs[j].(status := Interrupted) else w.jobs[j],
       checks := map a | a in w.checks ::
         if exists j :: j in w.jobs && w.jobs[j].status.Running? && w.jobs[j].assignment == Some(a)
         then Settled(w.checks[a]) else w.checks[a])
  }

  function Settled(checks: seq<Check>): seq<Check> {
    seq(|checks|, i requires 0 <= i < |checks| => if checks[i].status.Pending? then checks[i].(status := NotPassed)
        else checks[i])
  }

  // -------------------------------------------------------------------- releases

  predicate Shown(r: Release) { r.active && r.ready }

  ghost predicate OtherShown(w: World, course: Id, key: Id, a: Id) {
    exists q :: q in w.releases && q != a && w.releases[q].course == course && w.releases[q].key == key
        && Shown(w.releases[q])
  }

  predicate InCourse(w: World, course: Id, a: Id) {
    a in w.releases && w.releases[a].course == course
  }

  predicate LastPassed(w: World, a: Id) {
    a in w.checks && w.checks[a] != [] && w.checks[a][|w.checks[a]| - 1].status.Passed?
  }

  /** The newest job of a draft at a revision. */
  ghost predicate NewestJob(w: World, draft: Id, revision: nat, j: Id) {
    && j in w.jobs && w.jobs[j].draft == draft && w.jobs[j].revision == revision
    && forall k :: k in w.jobs && w.jobs[k].draft == draft && w.jobs[k].revision == revision ==>
         w.jobs[k].row <= w.jobs[j].row
  }

  /** `publish` of a draft that is not published yet, with `j` its newest job. */
  ghost predicate MayPublish(w: World, s: Step, j: Id)
    requires s.Publish?
  {
    && Known(w, s.course, s.draft) && w.drafts[s.draft].revision == s.revision && w.drafts[s.draft].published.None?
         && s.allowed
    && NewestJob(w, s.draft, s.revision, j) && w.jobs[j].status.Succeeded? && w.jobs[j].assignment.Some?
    && var a := w.jobs[j].assignment.value;
    && InCourse(w, s.course, a) && a !in w.deletions && w.releases[a].active && LastPassed(w, a)
    && !OtherShown(w, s.course, w.releases[a].key, a)
  }

  function Published(w: World, draft: Id, a: Id): World
    requires draft in w.drafts && a in w.releases
  {
    w.(releases := w.releases[a := w.releases[a].(ready := true)],
       drafts := w.drafts[draft := w.drafts[draft].(published := Some(a))])
  }

  ghost function PublishStep(w: World, s: Step): World
    requires s.Publish?
  {
    if j :| MayPublish(w, s, j) then Published(w, s.draft, w.jobs[j].assignment.value) else w
  }

  /** `publish_validated_bundle_assignment`, the command line's way to publish. */
  ghost function PublishValidatedStep(w: World, a: Id, course: Id): World {
    if !InCourse(w, course, a) || a in w.deletions || !LastPassed(w, a) || !w.releases[a].active then w
    else if OtherShown(w, course, w.releases[a].key, a) then w
    else w.(releases := w.releases[a := w.releases[a].(ready := true)])
  }

  ghost predicate SourceOf(w: World, course: Id, a: Id, d: Id) {
    d in w.drafts && w.drafts[d].course == course && w.drafts[d].published == Some(a)
  }

  /** `copy_release`: a new draft with the source's files, filed under the same key. */
  ghost function CopyStep(w: World, s: Step): World
    requires s.CopyRelease?
  {
    if !InCourse(w, s.course, s.assignment) || s.assignment in w.deletions then w
    else if d :| SourceOf(w, s.course, s.assignment, d) then
      var m := w.drafts[d].material;
      if Full(w, s.course) || s.id in w.drafts || s.id in w.hist || s.doc.mode != m.doc.mode
          || s.doc.language != m.doc.language then w
      else Added(w, s.id, s.course, m.(doc := s.doc)).(origins := w.origins[s.id := w.releases[s.assignment].key])
    else w
  }

  ghost function HideStep(w: World, a: Id, course: Id, used: bool): World {
    if !InCourse(w, course, a) || a in w.deletions || used then w
    else w.(releases := w.releases[a := w.releases[a].(ready := false)])
  }

  ghost predicate CheckPending(w: World, a: Id) {
    a in w.checks && exists i :: 0 <= i < |w.checks[a]| && w.checks[a][i].status.Pending?
  }

  function Archived(w: World, a: Id): World
    requires a in w.releases
  {
    w.(releases := w.releases[a := w.releases[a].(active := false, ready := false)])
  }

  /** `_archive_release` and `_delete_release`; None where they raise. */
  ghost function Altered(w: World, action: Action, a: Id): Option<World>
    requires a in w.releases
  {
    match action
    case Archive => Some(Archived(w, a))
    case Delete =>
      if w.releases[a].active || w.releases[a].ready then None
      else if a in w.deletions then Some(w)
      else if CheckPending(w, a) then None
      else Some(w.(deletions := w.deletions + {a}))
  }

  ghost function AlterStep(w: World, action: Action, a: Id, course: Id): World {
    if !InCourse(w, course, a) || (action.Archive? && a in w.deletions) then w
    else match Altered(w, action, a) case Some(w') => w' case None => w
  }

  ghost predicate HasJob(w: World, a: Id) {
    exists j :: j in w.jobs && w.jobs[j].assignment == Some(a)
  }

  ghost predicate UnderWork(w: World, course: Id, a: Id) {
    exists j :: j in w.jobs && Busy(w.jobs[j].status)
        && (w.jobs[j].assignment == Some(a) || SourceOf(w, course, a, w.jobs[j].draft))
  }

  /** What the batch's snapshot demands of every release. */
  ghost predicate Selectable(w: World, course: Id, action: Action, a: Id) {
    && InCourse(w, course, a) && a !in w.deletions
    && ((exists d :: SourceOf(w, course, a, d) && !w.drafts[d].deleted) || !HasJob(w, a))
    && !CheckPending(w, a) && !UnderWork(w, course, a)
    && (action.Delete? ==> !w.releases[a].active && !w.releases[a].ready)
  }

  /** The changes of a batch, one after another; None where one raises. */
  ghost function AllAltered(w: World, action: Action, ids: seq<Id>): Option<World>
    requires forall i :: 0 <= i < |ids| ==> ids[i] in w.releases
    decreases |ids|
  {
    if ids == [] then Some(w)
    else match Altered(w, action, ids[0])
      case None => None
      case Some(w') => AllAltered(w', action, ids[1..])
  }

  predicate Distinct(ids: seq<Id>) {
    forall i, j :: 0 <= i < j < |ids| ==> ids[i] != ids[j]
  }

  /** `apply_release_batch`: one transaction. */
  ghost function BatchStep(w: World, action: Action, course: Id, ids: seq<Id>, confirmed: bool): World {
    if !(1 <= |ids| <= MAX_BATCH) || !Distinct(ids) || !confirmed then w
    else if exists i :: 0 <= i < |ids| && !Selectable(w, course, action, ids[i]) then w
    else
      assert forall i :: 0 <= i < |ids| ==> Selectable(w, course, action, ids[i]);
      match AllAltered(w, action, ids) case Some(w') => w' case None => w
  }

  ghost function RestoreStep(w: World, a: Id, course: Id): World {
    if !InCourse(w, course, a) || w.releases[a].active || w.releases[a].ready || a !in w.deletions then w
    else if (exists d :: SourceOf(w, course, a, d) && !w.drafts[d].deleted) && Full(w, course) then w
    else w.(deletions := w.deletions - {a})
  }

  ghost function OutsideCheckStep(w: World, a: Id, passed: bool): World {
    if a !in w.releases || a !in w.checks || a in w.deletions || w.releases[a].ready then w
    else w.(checks := w.checks[a := w.checks[a] + [Check(if passed then Passed else NotPassed, None)]])
  }

  predicate EditsDrafts(s: Step) {
    s.CreateDraft? || s.UpdateDraft? || s.Upload? || s.ImportTemplate? || s.DeleteDraft? || s.QueueCheck?
        || s.CopyRelease?
  }

  predicate Validates(s: Step) {
    s.Claim? || s.ReadDocument? || s.ReadUploads? || s.Register? || s.Attach? || s.BeginCheck? || s.FinishCheck?
        || s.FinishJob? || s.FailJob?
    || s.Vanish? || s.Restart?
  }

  ghost function DraftNext(w: World, step: Step): World
    requires EditsDrafts(step)
  {
    match step
    case CreateDraft(_, _, _, _) => CreateStep(w, step)
    case UpdateDraft(draft, course, revision, doc) => UpdateStep(w, draft, course, revision, doc)
    case Upload(draft, course, revision, role, archive) => UploadStep(w, draft, course, revision, role, archive)
    case ImportTemplate(_, _, _, _, _, _) => ImportStep(w, step)
    case DeleteDraft(draft, course, revision) => DeleteDraftStep(w, draft, course, revision)
    case QueueCheck(_, _, _, _, _) => QueueStep(w, step)
    case CopyRelease(_, _, _, _) => CopyStep(w, step)
  }

  ghost function WorkerNext(w: World, step: Step): World
    requires Validates(step)
  {
    match step
    case Claim(worker, job) => ClaimStep(w, worker, job)
    case ReadDocument(worker) => ReadDocumentStep(w, worker)
    case ReadUploads(worker) => ReadUploadsStep(w, worker)
    case Register(worker, a) => RegisterStep(w, worker, a)
    case Attach(worker) => AttachStep(w, worker)
    case BeginCheck(worker) => BeginCheckStep(w, worker)
    case FinishCheck(worker, passed) => FinishCheckStep(w, worker, passed)
    case FinishJob(worker, stopping) => FinishJobStep(w, worker, stopping)
    case FailJob(worker, stopping) => FailJobStep(w, worker, stopping)
    case Vanish(worker) => w.(workers := w.workers - {worker})
    case Restart => RestartStep(w)
  }

  ghost function ReleaseNext(w: World, step: Step): World
    requires !EditsDrafts(step) && !Validates(step)
  {
    match step
    case OutsideCheck(a, passed) => OutsideCheckStep(w, a, passed)
    case Publish(_, _, _, _) => PublishStep(w, step)
    case PublishValidated(a, course) => PublishValidatedStep(w, a, course)
    case Hide(a, course, used) => HideStep(w, a, course, used)
    case Alter(action, a, course) => AlterStep(w, action, a, course)
    case Batch(action, course, ids, confirmed) => BatchStep(w, action, course, ids, confirmed)
    case Restore(a, course) => RestoreStep(w, a, course)
  }

  ghost function Next(w: World, step: Step): World {
    if EditsDrafts(step) then DraftNext(w, step) else if Validates(step) then WorkerNext(w, step)
        else ReleaseNext(w, step)
  }

  /** Any interleaving of instructors, workers, restarts and the command line. */
  ghost function Run(w: World, steps: seq<Step>): World
    decreases |steps|
  {
    if steps == [] then w else Run(Next(w, steps[0]), steps[1..])
  }

  // ------------------------------------------------------------------- invariant

  ghost predicate HasRevision(w: World, draft: Id, revision: nat) {
    draft in w.drafts && draft in w.hist && 1 <= revision <= |w.hist[draft]|
  }

  /** A draft's history ends with what it holds. */
  ghost predicate DraftOk(w: World, d: Id) {
    && d in w.drafts && HasRevision(w, d, w.drafts[d].revision) && |w.hist[d]| == w.drafts[d].revision
    && w.hist[d][w.drafts[d].revision - 1] == w.drafts[d].material
  }

  /** A draft is published as the release of a job that succeeded at its very revision. */
  ghost predicate PublishedOk(w: World, d: Id) {
    d in w.drafts &&
    (w.drafts[d].published.Some? ==>
       !w.drafts[d].deleted
       && exists j :: j in w.jobs && w.jobs[j].draft == d && w.jobs[j].status.Succeeded?
                      && w.jobs[j].revision == w.drafts[d].revision && w.jobs[j].assignment == w.drafts[d].published)
  }

  ghost predicate CheckedOn(w: World, a: Id, m: Material) {
    a in w.checks && exists i :: 0 <= i < |w.checks[a]| && w.checks[a][i] == Check(Passed, Some(m))
  }

  /** What a job was queued for; while it waits or runs its draft stays as it was. */
  ghost predicate JobOk(w: World, j: Id) {
    j in w.jobs &&
    var job := w.jobs[j];
    && HasRevision(w, job.draft, job.revision) && w.drafts[job.draft].course == job.course
    && (Busy(job.status) ==> w.drafts[job.draft].revision == job.revision && !w.drafts[job.draft].deleted)
    && (job.assignment.Some? ==> job.assignment.value in w.maker && w.maker[job.assignment.value] == j)
    && (job.status.Succeeded? ==> job.assignment.Some? && Good(w, j, job.assignment.value))
  }

  /** A release built and checked from exactly the material its job was queued for. */
  ghost predicate Good(w: World, j: Id, a: Id) {
    j in w.jobs && HasRevision(w, w.jobs[j].draft, w.jobs[j].revision) && a in w.releases &&
    var m := Packed(w.hist[w.jobs[j].draft][w.jobs[j].revision - 1]);
    w.releases[a].course == w.jobs[j].course && w.releases[a].content == m && CheckedOn(w, a, m)
  }

  /** One job at most of a draft and revision waits, runs or has succeeded. */
  ghost predicate OneJob(w: World, j: Id, k: Id) {
    j in w.jobs && k in w.jobs &&
    var job := w.jobs[j];
    (Blocks(job, job.draft, job.revision) && Blocks(w.jobs[k], job.draft, job.revision) ==> j == k)
  }

  ghost predicate WorkerOk(w: World, x: Id) {
    x in w.workers && w.workers[x].job in w.jobs &&
    var f := w.workers[x];
    var job := w.jobs[f.job];
    && (job.status.Running? || job.status.Interrupted?) && HasRevision(w, job.draft, job.revision)
    && var m := w.hist[job.draft][job.revision - 1];
    match f.phase
    case Claimed => true
    case HasDoc(doc) => doc == m.doc
    case HasAll(material) => job.status.Running? ==> material == Packed(m)
    case Stored(material, a) => Made(w, f.job, a, material) && (job.status.Running? ==> material == Packed(m))
    case Registered(material, a) => Made(w, f.job, a, material) && (job.status.Running? ==> material == Packed(m))
    case Checking(material, a, i) =>
      && Made(w, f.job, a, material) && (job.status.Running? ==> material == Packed(m))
      && i < |w.checks[a]| && w.checks[a][i].content == Some(material)
    case Judged(material, a) =>
      Made(w, f.job, a, material) && (job.status.Running? ==> material == Packed(m)) && CheckedOn(w, a, material)
  }

  /** A job is in the hands of one worker at most. */
  ghost predicate OneWorker(w: World, x: Id, y: Id) {
    x in w.workers && y in w.workers && (w.workers[x].job == w.workers[y].job ==> x == y)
  }

  ghost predicate Made(w: World, j: Id, a: Id, m: Material) {
    && a in w.maker && w.maker[a] == j && a in w.releases && a in w.checks && w.releases[a].content == m
    && j in w.jobs && w.releases[a].course == w.jobs[j].course
  }

  ghost predicate KeyOk(w: World, a: Id, q: Id) {
    a in w.releases && q in w.releases &&
    (Shown(w.releases[a]) && Shown(w.releases[q]) && w.releases[a].course == w.releases[q].course
       && w.releases[a].key == w.releases[q].key
     ==> a == q)
  }

  ghost predicate DeletedOk(w: World, a: Id) {
    a in w.releases && !w.releases[a].active && !w.releases[a].ready
  }

  ghost predicate CapsOk(w: World) {
    |QueuedJobs(w)| <= MAX_QUEUED && |Live(w)| <= ALL_DRAFTS && forall course {:trigger LiveIn(w, course)} ::
        |LiveIn(w, course)| <= COURSE_DRAFTS
  }

  ghost predicate InvDrafts(w: World) {
    && (forall d {:trigger DraftOk(w, d)} :: d in w.drafts || d in w.hist ==> DraftOk(w, d))
    && (forall d {:trigger PublishedOk(w, d)} :: d in w.drafts ==> PublishedOk(w, d))
  }

  ghost predicate InvJobs(w: World) {
    && (forall j {:trigger JobOk(w, j)} :: j in w.jobs ==> JobOk(w, j))
    && (forall j, k {:trigger OneJob(w, j, k)} :: j in w.jobs && k in w.jobs ==> OneJob(w, j, k))
    && (forall x {:trigger WorkerOk(w, x)} :: x in w.workers ==> WorkerOk(w, x))
    && (forall x, y {:trigger OneWorker(w, x, y)} :: x in w.workers && y in w.workers ==> OneWorker(w, x, y))
  }

  ghost predicate InvReleases(w: World) {
    && (forall a, q {:trigger KeyOk(w, a, q)} :: a in w.releases && q in w.releases ==> KeyOk(w, a, q))
    && (forall a {:trigger DeletedOk(w, a)} :: a in w.deletions ==> DeletedOk(w, a))
  }

  ghost predicate Inv(w: World) {
    InvDrafts(w) && InvJobs(w) && InvReleases(w) && CapsOk(w)
  }

  // ---------------------------------------------------------- what no step takes back

  ghost predicate SameChecks(a: seq<Check>, b: seq<Check>) {
    |a| <= |b| && forall i :: 0 <= i < |a| ==> b[i].content == a[i].content && (!a[i].status.Pending? ==> b[i] == a[i])
  }

  /** Histories grow, published drafts stay as they are, releases keep their content, checks
      their outcome and jobs their errand. */
  ghost predicate Extends(w: World, w': World) {
    && (forall d :: d in w.hist ==> d in w'.hist && w.hist[d] <= w'.hist[d])
    && (forall d :: d in w.drafts ==> d in w'.drafts && w'.drafts[d].course == w.drafts[d].course
                                      && (w.drafts[d].published.Some? ==> w'.drafts[d] == w.drafts[d]))
    && (forall a :: a in w.releases ==> a in w'.releases && w'.releases[a].content == w.releases[a].content
                                        && w'.releases[a].course == w.releases[a].course
                                             && w'.releases[a].key == w.releases[a].key)
    && (forall a :: a in w.maker ==> a in w'.maker && w'.maker[a] == w.maker[a])
    && (forall a :: a in w.checks ==> a in w'.checks && SameChecks(w.checks[a], w'.checks[a]))
    && (forall j :: j in w.jobs ==>
          j in w'.jobs && w'.jobs[j].draft == w.jobs[j].draft && w'.jobs[j].course == w.jobs[j].course
                                    && w'.jobs[j].revision == w.jobs[j].revision)
  }

  lemma RevisionStays(w: World, w': World, draft: Id, revision: nat)
    requires Extends(w, w') && HasRevision(w, draft, revision)
    ensures HasRevision(w', draft, revision) && w'.hist[draft][revision - 1] == w.hist[draft][revision - 1]
  {
    assert w.hist[draft] <= w'.hist[draft];
  }

  lemma CheckStays(w: World, w': World, a: Id, m: Material)
    requires Extends(w, w') && CheckedOn(w, a, m)
    ensures CheckedOn(w', a, m)
  {
    var i :| 0 <= i < |w.checks[a]| && w.checks[a][i] == Check(Passed, Some(m));
    assert SameChecks(w.checks[a], w'.checks[a]);
    assert w'.checks[a][i] == Check(Passed, Some(m));
  }

  lemma GoodStays(w: World, w': World, j: Id, a: Id)
    requires Extends(w, w') && Good(w, j, a)
    ensures Good(w', j, a)
  {
    RevisionStays(w, w', w.jobs[j].draft, w.jobs[j].revision);
    CheckStays(w, w', a, w.releases[a].content);
  }

  /** A job that is as it was, of a draft that is as it was if the job is under way. */
  lemma JobStays(w: World, w': World, j: Id)
    requires Extends(w, w') && JobOk(w, j) && w'.jobs[j] == w.jobs[j]
    requires Busy(w.jobs[j].status) ==> w'.drafts[w.jobs[j].draft].revision == w.drafts[w.jobs[j].draft].revision
                                        && !w'.drafts[w.jobs[j].draft].deleted
    ensures JobOk(w', j)
  {
    RevisionStays(w, w', w.jobs[j].draft, w.jobs[j].revision);
    if w.jobs[j].status.Succeeded? {
      GoodStays(w, w', j, w.jobs[j].assignment.value);
    }
  }

  /** A worker in the phase it was in, of a job that has not been started again. */
  lemma WorkerStays(w: World, w': World, x: Id)
    requires Extends(w, w') && WorkerOk(w, x) && x in w'.workers && w'.workers[x] == w.workers[x]
    requires var j := w.workers[x].job;
             (w'.jobs[j].status.Running? && w.jobs[j].status.Running?) || w'.jobs[j].status.Interrupted?
    ensures WorkerOk(w', x)
  {
    var f := w.workers[x];
    RevisionStays(w, w', w.jobs[f.job].draft, w.jobs[f.job].revision);
    if f.phase.Judged? {
      CheckStays(w, w', f.phase.assignment, f.phase.material);
    }
    if f.phase.Checking? {
      assert SameChecks(w.checks[f.phase.assignment], w'.checks[f.phase.assignment]);
    }
  }

  /** Drafts published as before, by jobs that are as before. */
  lemma PublicationStays(w: World, w': World, d: Id)
    requires PublishedOk(w, d) && d in w'.drafts && w'.drafts[d].published == w.drafts[d].published
    requires w.drafts[d].published.Some? ==> w'.drafts[d].revision == w.drafts[d].revision && !w'.drafts[d].deleted
    requires forall j :: j in w.jobs && w.jobs[j].status.Succeeded? ==> j in w'.jobs && w'.jobs[j] == w.jobs[j]
    ensures PublishedOk(w', d)
  {
  }

  lemma SubsetSize<T>(a: set<T>, b: set<T>)
    requires a <= b
    ensures |a| <= |b|
  {
    assert b == a + (b - a);
  }

  lemma OneMore<T>(before: set<T>, after: set<T>, x: T)
    requires forall c :: c in after ==> c in before || c == x
    ensures |after| <= |before| + 1
    ensures x !in after ==> |after| <= |before|
  {
    if x in after {
      SubsetSize(after - {x}, before);
    } else {
      SubsetSize(after, before);
    }
  }

  /** Nothing new came alive. */
  lemma CapsShrink(w: World, w': World)
    requires CapsOk(w)
    requires forall j :: j in QueuedJobs(w') ==> j in QueuedJobs(w)
    requires forall d :: d in Live(w') ==> d in Live(w) && w'.drafts[d].course == w.drafts[d].course
    ensures CapsOk(w')
  {
    SubsetSize(QueuedJobs(w'), QueuedJobs(w));
    SubsetSize(Live(w'), Live(w));
    forall course ensures |LiveIn(w', course)| <= COURSE_DRAFTS {
      assert |LiveIn(w, course)| <= COURSE_DRAFTS;
      forall d | d in LiveIn(w', course) ensures d in LiveIn(w, course) {
        assert d in Live(w');
      }
      SubsetSize(LiveIn(w', course), LiveIn(w, course));
    }
  }

  /** One draft came alive where there was room. */
  lemma CapsGrow(w: World, w': World, id: Id, home: Id)
    requires CapsOk(w) && |LiveIn(w, home)| < COURSE_DRAFTS && |Live(w)| < ALL_DRAFTS
    requires QueuedJobs(w') == QueuedJobs(w)
    requires forall d :: d in Live(w') ==> (d == id && w'.drafts[d].course == home)
                                           || (d in Live(w) && w'.drafts[d].course == w.drafts[d].course)
    ensures CapsOk(w')
  {
    OneMore(Live(w), Live(w'), id);
    forall course ensures |LiveIn(w', course)| <= COURSE_DRAFTS {
      assert |LiveIn(w, course)| <= COURSE_DRAFTS;
      forall d | d in LiveIn(w', course) ensures d in LiveIn(w, course) || (d == id && course == home) {
        assert d in Live(w');
      }
      if course == home {
        OneMore(LiveIn(w, course), LiveIn(w', course), id);
      } else {
        SubsetSize(LiveIn(w', course), LiveIn(w, course));
      }
    }
  }

  // ------------------------------------------------------------- drafts keep it

  /** Everything but drafts, their histories, origins and requests is as it was. */
  ghost predicate OnlyDrafts(w: World, w': World) {
    && w'.jobs == w.jobs && w'.releases == w.releases && w'.checks == w.checks && w'.deletions == w.deletions
    && w'.workers == w.workers && w'.maker == w.maker
  }

  /** The draft of a job under way is at the job's revision still. */
  ghost predicate DraftWaits(w: World, w': World, j: Id) {
    && j in w.jobs && w.jobs[j].draft in w'.drafts && w'.drafts[w.jobs[j].draft].revision == w.jobs[j].revision
    && !w'.drafts[w.jobs[j].draft].deleted
  }

  lemma OnlyDraftsKeeps(w: World, w': World)
    requires Inv(w) && OnlyDrafts(w, w') && Extends(w, w')
    requires forall j {:trigger DraftWaits(w, w', j)} :: j in w.jobs && Busy(w.jobs[j].status) ==> DraftWaits(w, w', j)
    ensures InvJobs(w') && InvReleases(w')
  {
    forall j | j in w'.jobs ensures JobOk(w', j) {
      assert JobOk(w, j);
      assert Busy(w.jobs[j].status) ==> DraftWaits(w, w', j);
      JobStays(w, w', j);
    }
    forall j, k | j in w'.jobs && k in w'.jobs ensures OneJob(w', j, k) {
      assert OneJob(w, j, k);
    }
    forall x | x in w'.workers ensures WorkerOk(w', x) {
      assert WorkerOk(w, x);
      WorkerStays(w, w', x);
    }
    forall x, y | x in w'.workers && y in w'.workers ensures OneWorker(w', x, y) {
      assert OneWorker(w, x, y);
    }
    SameReleases(w, w');
  }

  lemma SameReleases(w: World, w': World)
    requires InvReleases(w) && w'.releases == w.releases && w'.deletions == w.deletions
    ensures InvReleases(w')
  {
    forall a, q | a in w'.releases && q in w'.releases ensures KeyOk(w', a, q) {
      assert KeyOk(w, a, q);
    }
    forall a | a in w'.deletions ensures DeletedOk(w', a) {
      assert DeletedOk(w, a);
    }
  }

  /** `w'` is `w` with the draft `id` added. */
  ghost predicate IsAdded(w: World, w': World, id: Id, course: Id, m: Material) {
    && OnlyDrafts(w, w') && id !in w.drafts && id !in w.hist
    && w'.drafts == w.drafts[id := Draft(course, 1, m, None, false)] && w'.hist == w.hist[id := [m]]
  }

  lemma AddedDrafts(w: World, w': World, id: Id, course: Id, m: Material)
    requires Inv(w) && IsAdded(w, w', id, course, m)
    ensures InvDrafts(w')
  {
    forall d | d in w'.drafts || d in w'.hist ensures DraftOk(w', d) {
      assert d != id ==> DraftOk(w, d);
    }
    forall d | d in w'.drafts ensures PublishedOk(w', d) {
      if d != id {
        assert PublishedOk(w, d);
        PublicationStays(w, w', d);
      }
    }
  }

  lemma AddedKeeps(w: World, w': World, id: Id, course: Id, m: Material)
    requires Inv(w) && !Full(w, course) && IsAdded(w, w', id, course, m)
    ensures Inv(w') && Extends(w, w')
  {
    AddedDrafts(w, w', id, course, m);
    assert Extends(w, w');
    forall j | j in w.jobs && Busy(w.jobs[j].status) ensures DraftWaits(w, w', j) {
      assert JobOk(w, j);
    }
    OnlyDraftsKeeps(w, w');
    assert QueuedJobs(w') == QueuedJobs(w);
    CapsGrow(w, w', id, course);
  }

  /** `w'` is `w` with the draft moved to its next revision, or deleted. */
  ghost predicate IsEdited(w: World, w': World, draft: Id, m: Material) {
    && OnlyDrafts(w, w') && draft in w.drafts && draft in w.hist && draft in w'.drafts
    && w'.drafts == w.drafts[draft := w'.drafts[draft]] && w'.hist == w.hist[draft := w.hist[draft] + [m]]
    && w'.drafts[draft].(deleted := false)
       == w.drafts[draft].(material := m, revision := w.drafts[draft].revision + 1, deleted := false)
  }

  lemma EditedDrafts(w: World, w': World, draft: Id, m: Material)
    requires Inv(w) && IsEdited(w, w', draft, m) && w.drafts[draft].published.None?
    ensures InvDrafts(w')
  {
    forall d | d in w'.drafts || d in w'.hist ensures DraftOk(w', d) {
      assert DraftOk(w, d);
    }
    forall d | d in w'.drafts ensures PublishedOk(w', d) {
      if d != draft {
        assert PublishedOk(w, d);
        PublicationStays(w, w', d);
      }
    }
  }

  lemma EditedKeeps(w: World, w': World, draft: Id, course: Id, revision: nat, m: Material)
    requires Inv(w) && Editable(w, course, draft, revision) && IsEdited(w, w', draft, m)
    ensures Inv(w') && Extends(w, w')
  {
    EditedDrafts(w, w', draft, m);
    assert Extends(w, w');
    forall j | j in w.jobs && Busy(w.jobs[j].status) ensures DraftWaits(w, w', j) {
      assert JobOk(w, j);
    }
    OnlyDraftsKeeps(w, w');
    CapsShrink(w, w');
  }

  /** Remembering the request changes nothing else. */
  lemma AddedWithRequests(w: World, id: Id, course: Id, m: Material, requests: map<(Id, Id), (Id, Doc)>)
    requires Inv(w) && !Full(w, course) && id !in w.drafts && id !in w.hist
    ensures var w' := Added(w, id, course, m).(requests := requests); Inv(w') && Extends(w, w')
  {
    AddedKeeps(w, Added(w, id, course, m).(requests := requests), id, course, m);
  }

  lemma CreateKeeps(w: World, s: Step)
    requires Inv(w) && s.CreateDraft?
    ensures Inv(CreateStep(w, s)) && Extends(w, CreateStep(w, s))
  {
    if !Full(w, s.course) && s.id !in w.drafts && s.id !in w.hist {
      AddedWithRequests(w, s.id, s.course, Material(s.doc, map[]), CreateStep(w, s).requests);
    }
  }

  lemma CopyKeeps(w: World, s: Step)
    requires Inv(w) && s.CopyRelease?
    ensures Inv(CopyStep(w, s)) && Extends(w, CopyStep(w, s))
  {
    var w' := CopyStep(w, s);
    if w' != w {
      AddedKeeps(w, w', s.id, s.course, w'.drafts[s.id].material);
    }
  }

  lemma UpdateKeeps(w: World, draft: Id, course: Id, revision: nat, doc: Doc)
    requires Inv(w)
    ensures Inv(UpdateStep(w, draft, course, revision, doc)) && Extends(w, UpdateStep(w, draft, course, revision, doc))
  {
    if Editable(w, course, draft, revision) {
      var w' := UpdateStep(w, draft, course, revision, doc);
      assert DraftOk(w, draft);
      EditedKeeps(w, w', draft, course, revision, w'.drafts[draft].material);
    }
  }

  lemma UploadKeeps(w: World, draft: Id, course: Id, revision: nat, role: Role, archive: Id)
    requires Inv(w)
    ensures Inv(UploadStep(w, draft, course, revision, role, archive))
    ensures Extends(w, UploadStep(w, draft, course, revision, role, archive))
  {
    if Editable(w, course, draft, revision) {
      var w' := UploadStep(w, draft, course, revision, role, archive);
      assert DraftOk(w, draft);
      EditedKeeps(w, w', draft, course, revision, w'.drafts[draft].material);
    }
  }

  lemma ImportKeeps(w: World, s: Step)
    requires Inv(w) && s.ImportTemplate?
    ensures Inv(ImportStep(w, s)) && Extends(w, ImportStep(w, s))
  {
    if Editable(w, s.course, s.draft, s.revision) {
      var w' := ImportStep(w, s);
      assert DraftOk(w, s.draft);
      EditedKeeps(w, w', s.draft, s.course, s.revision, w'.drafts[s.draft].material);
    }
  }

  lemma DeleteDraftKeeps(w: World, draft: Id, course: Id, revision: nat)
    requires Inv(w)
    ensures Inv(DeleteDraftStep(w, draft, course, revision)) && Extends(w, DeleteDraftStep(w, draft, course, revision))
  {
    if Editable(w, course, draft, revision) {
      var w' := DeleteDraftStep(w, draft, course, revision);
      assert DraftOk(w, draft);
      EditedKeeps(w, w', draft, course, revision, w'.drafts[draft].material);
    }
  }

  // ----------------------------------------------------- jobs and workers keep it

  /** Drafts, their histories, the deleted list and releases that were there are as they were. */
  lemma SameDrafts(w: World, w': World)
    requires Inv(w) && w'.drafts == w.drafts && w'.hist == w.hist && w'.deletions == w.deletions
    requires forall j :: j in w.jobs && w.jobs[j].status.Succeeded? ==> j in w'.jobs && w'.jobs[j] == w.jobs[j]
    requires forall j :: j in QueuedJobs(w') ==> j in QueuedJobs(w)
    ensures InvDrafts(w') && CapsOk(w')
  {
    forall d | d in w'.drafts || d in w'.hist ensures DraftOk(w', d) {
      assert DraftOk(w, d);
    }
    forall d | d in w'.drafts ensures PublishedOk(w', d) {
      assert PublishedOk(w, d);
      PublicationStays(w, w', d);
    }
    CapsShrink(w, w');
  }

  /** A job that asks for a draft's present revision, when none blocks it. */
  ghost predicate IsNewJob(w: World, w': World, j: Id) {
    && j !in w.jobs && j in w'.jobs && w' == w.(jobs := w.jobs[j := w'.jobs[j]])
    && w'.jobs[j].status.Queued? && w'.jobs[j].assignment.None? && Known(w, w'.jobs[j].course, w'.jobs[j].draft)
    && w'.jobs[j].revision == w.drafts[w'.jobs[j].draft].revision
    && forall k :: k in w.jobs ==> !Blocks(w.jobs[k], w'.jobs[j].draft, w'.jobs[j].revision)
  }

  lemma NewJobJobs(w: World, w': World, j: Id)
    requires Inv(w) && IsNewJob(w, w', j) && Extends(w, w')
    ensures forall k {:trigger JobOk(w', k)} :: k in w'.jobs ==> JobOk(w', k)
    ensures forall k, l {:trigger OneJob(w', k, l)} :: k in w'.jobs && l in w'.jobs ==> OneJob(w', k, l)
  {
    assert DraftOk(w, w'.jobs[j].draft);
    forall k | k in w'.jobs ensures JobOk(w', k) {
      if k != j {
        assert JobOk(w, k);
        JobStays(w, w', k);
      }
    }
    forall k, l | k in w'.jobs && l in w'.jobs ensures OneJob(w', k, l) {
      assert k != j && l != j ==> OneJob(w, k, l);
    }
  }

  /** A job that asks for a draft's present revision, when none blocks it. */
  lemma NewJob(w: World, w': World, j: Id)
    requires Inv(w) && IsNewJob(w, w', j)
    ensures InvJobs(w') && Extends(w, w')
  {
    NewJobJobs(w, w', j);
    forall x | x in w'.workers ensures WorkerOk(w', x) {
      assert WorkerOk(w, x);
      WorkerStays(w, w', x);
    }
    forall x, y | x in w'.workers && y in w'.workers ensures OneWorker(w', x, y) {
      assert OneWorker(w, x, y);
    }
  }

  lemma QueueCaps(w: World, s: Step)
    requires Inv(w) && s.QueueCheck? && QueueStep(w, s) != w
    ensures InvDrafts(QueueStep(w, s)) && CapsOk(QueueStep(w, s))
  {
    var w' := QueueStep(w, s);
    forall d | d in w'.drafts || d in w'.hist ensures DraftOk(w', d) {
      assert DraftOk(w, d);
    }
    forall d | d in w'.drafts ensures PublishedOk(w', d) {
      assert PublishedOk(w, d);
      PublicationStays(w, w', d);
    }
    OneMore(QueuedJobs(w), QueuedJobs(w'), s.job);
    assert Live(w') == Live(w);
    forall course ensures |LiveIn(w', course)| <= COURSE_DRAFTS {
      assert LiveIn(w', course) == LiveIn(w, course) && |LiveIn(w, course)| <= COURSE_DRAFTS;
    }
  }

  lemma QueueKeeps(w: World, s: Step)
    requires Inv(w) && s.QueueCheck?
    ensures Inv(QueueStep(w, s)) && Extends(w, QueueStep(w, s))
  {
    if QueueStep(w, s) != w {
      NewJob(w, QueueStep(w, s), s.job);
      QueueCaps(w, s);
      SameReleases(w, QueueStep(w, s));
    }
  }

  /** One job moves on and its worker with it; no other job or worker changes. */
  ghost predicate OneMoves(w: World, w': World, j: Id, x: Id) {
    && j in w.jobs && j in w'.jobs && w'.jobs == w.jobs[j := w'.jobs[j]]
    && w'.drafts == w.drafts && w'.hist == w.hist && w'.deletions == w.deletions
    && w'.jobs[j].(status := w.jobs[j].status, assignment := w.jobs[j].assignment) == w.jobs[j]
    && !w.jobs[j].status.Succeeded? && !w'.jobs[j].status.Queued?
    && (Busy(w'.jobs[j].status) || w'.jobs[j].status.Succeeded? ==> Busy(w.jobs[j].status))
    && (forall y :: y in w'.workers && y != x ==>
          y in w.workers && w'.workers[y] == w.workers[y] && w.workers[y].job != j)
    && (x in w'.workers ==> w'.workers[x].job == j)
  }

  lemma OneMovesJobs(w: World, w': World, j: Id, x: Id)
    requires Inv(w) && Extends(w, w') && OneMoves(w, w', j, x) && JobOk(w', j)
    ensures forall k {:trigger JobOk(w', k)} :: k in w'.jobs ==> JobOk(w', k)
    ensures forall k, l {:trigger OneJob(w', k, l)} :: k in w'.jobs && l in w'.jobs ==> OneJob(w', k, l)
  {
    forall k | k in w'.jobs ensures JobOk(w', k) {
      if k != j {
        assert JobOk(w, k);
        JobStays(w, w', k);
      }
    }
    forall k, l | k in w'.jobs && l in w'.jobs ensures OneJob(w', k, l) {
      assert OneJob(w, k, l);
    }
  }

  lemma OneMovesWorkers(w: World, w': World, j: Id, x: Id)
    requires InvJobs(w) && Extends(w, w') && OneMoves(w, w', j, x) && (x in w'.workers ==> WorkerOk(w', x))
    ensures forall y {:trigger WorkerOk(w', y)} :: y in w'.workers ==> WorkerOk(w', y)
    ensures forall y, z {:trigger OneWorker(w', y, z)} :: y in w'.workers && z in w'.workers ==> OneWorker(w', y, z)
  {
    forall y | y in w'.workers ensures WorkerOk(w', y) {
      if y != x {
        assert WorkerOk(w, y);
        WorkerStays(w, w', y);
      }
    }
    forall y, z | y in w'.workers && z in w'.workers ensures OneWorker(w', y, z) {
      assert y != x && z != x ==> OneWorker(w, y, z);
    }
  }

  lemma OneMovesKeeps(w: World, w': World, j: Id, x: Id)
    requires Inv(w) && Extends(w, w') && OneMoves(w, w', j, x) && InvReleases(w')
    requires JobOk(w', j) && (x in w'.workers ==> WorkerOk(w', x))
    ensures Inv(w')
  {
    OneMovesJobs(w, w', j, x);
    OneMovesWorkers(w, w', j, x);
    SameDrafts(w, w');
  }

  lemma ClaimIsOneMove(w: World, worker: Id, job: Id)
    requires Inv(w) && ClaimStep(w, worker, job) != w
    ensures var w' := ClaimStep(w, worker, job);
            Extends(w, w') && OneMoves(w, w', job, worker) && JobOk(w', job) && WorkerOk(w', worker)
  {
    assert JobOk(w, job);
    forall y | y in w.workers ensures w.workers[y].job != job {
      assert WorkerOk(w, y);
    }
  }

  lemma ClaimKeeps(w: World, worker: Id, job: Id)
    requires Inv(w)
    ensures Inv(ClaimStep(w, worker, job)) && Extends(w, ClaimStep(w, worker, job))
  {
    var w' := ClaimStep(w, worker, job);
    if w' != w {
      ClaimIsOneMove(w, worker, job);
      SameReleases(w, w');
      OneMovesKeeps(w, w', job, worker);
    }
  }

  /** A worker that moves leaves all other workers' jobs alone. */
  lemma Others(w: World, worker: Id)
    requires Inv(w) && worker in w.workers
    ensures forall y :: y in w.workers && y != worker ==> w.workers[y].job != w.workers[worker].job
  {
    forall y | y in w.workers && y != worker ensures w.workers[y].job != w.workers[worker].job {
      assert OneWorker(w, worker, y);
    }
  }

  /** Releases, checks and makers are as they were. */
  lemma SameTables(w: World, w': World, j: Id, x: Id)
    requires InvReleases(w) && OneMoves(w, w', j, x) && w'.releases == w.releases && w'.maker == w.maker
    requires w'.checks == w.checks
    ensures Extends(w, w') && InvReleases(w')
  {
    SameReleases(w, w');
  }

  lemma ReadDocumentMoves(w: World, worker: Id)
    requires Inv(w) && ReadDocumentStep(w, worker) != w
    ensures worker in w.workers && OneMoves(w, ReadDocumentStep(w, worker), w.workers[worker].job, worker)
    ensures Extends(w, ReadDocumentStep(w, worker)) && InvReleases(ReadDocumentStep(w, worker))
  {
    var j := w.workers[worker].job;
    assert WorkerOk(w, worker);
    Others(w, worker);
    assert OneMoves(w, ReadDocumentStep(w, worker), j, worker);
    SameTables(w, ReadDocumentStep(w, worker), j, worker);
  }

  lemma ReadDocumentFlight(w: World, worker: Id)
    requires Inv(w) && ReadDocumentStep(w, worker) != w && Extends(w, ReadDocumentStep(w, worker))
    requires worker in w.workers
    ensures var w' := ReadDocumentStep(w, worker);
            JobOk(w', w.workers[worker].job) && (worker in w'.workers ==> WorkerOk(w', worker))
  {
    var w', j := ReadDocumentStep(w, worker), w.workers[worker].job;
    assert WorkerOk(w, worker) && JobOk(w, j);
    RevisionStays(w, w', w.jobs[j].draft, w.jobs[j].revision);
    assert DraftOk(w, w.jobs[j].draft);
    JobStays(w, w', j);
  }

  lemma ReadDocumentKeeps(w: World, worker: Id)
    requires Inv(w)
    ensures Inv(ReadDocumentStep(w, worker)) && Extends(w, ReadDocumentStep(w, worker))
  {
    if ReadDocumentStep(w, worker) != w {
      ReadDocumentMoves(w, worker);
      ReadDocumentFlight(w, worker);
      OneMovesKeeps(w, ReadDocumentStep(w, worker), w.workers[worker].job, worker);
    }
  }

  /** While the job runs its draft cannot change, so the two reads see one revision. */
  lemma ReadUploadsMoves(w: World, worker: Id)
    requires Inv(w) && ReadUploadsStep(w, worker) != w
    ensures worker in w.workers && OneMoves(w, ReadUploadsStep(w, worker), w.workers[worker].job, worker)
    ensures Extends(w, ReadUploadsStep(w, worker)) && InvReleases(ReadUploadsStep(w, worker))
  {
    var j := w.workers[worker].job;
    assert WorkerOk(w, worker);
    Others(w, worker);
    assert OneMoves(w, ReadUploadsStep(w, worker), j, worker);
    SameTables(w, ReadUploadsStep(w, worker), j, worker);
  }

  lemma ReadUploadsFlight(w: World, worker: Id)
    requires Inv(w) && ReadUploadsStep(w, worker) != w && Extends(w, ReadUploadsStep(w, worker)) && worker in w.workers
    ensures var w' := ReadUploadsStep(w, worker);
            JobOk(w', w.workers[worker].job) && (worker in w'.workers ==> WorkerOk(w', worker))
  {
    var w', j := ReadUploadsStep(w, worker), w.workers[worker].job;
    assert WorkerOk(w, worker) && JobOk(w, j);
    RevisionStays(w, w', w.jobs[j].draft, w.jobs[j].revision);
    assert DraftOk(w, w.jobs[j].draft);
    JobStays(w, w', j);
  }

  lemma ReadUploadsKeeps(w: World, worker: Id)
    requires Inv(w)
    ensures Inv(ReadUploadsStep(w, worker)) && Extends(w, ReadUploadsStep(w, worker))
  {
    if ReadUploadsStep(w, worker) != w {
      ReadUploadsMoves(w, worker);
      ReadUploadsFlight(w, worker);
      OneMovesKeeps(w, ReadUploadsStep(w, worker), w.workers[worker].job, worker);
    }
  }

  /** One more or one settled check. */
  lemma ChecksGrow(w: World, w': World, j: Id, x: Id)
    requires InvReleases(w) && OneMoves(w, w', j, x) && w'.releases == w.releases && w'.maker == w.maker
    requires forall a :: a in w.checks ==> a in w'.checks && SameChecks(w.checks[a], w'.checks[a])
    ensures Extends(w, w') && InvReleases(w')
  {
    SameReleases(w, w');
  }

  lemma RegisterReleases(w: World, w': World, j: Id, x: Id, a: Id)
    requires InvReleases(w) && OneMoves(w, w', j, x) && a !in w.releases && a !in w.maker && a !in w.checks
    requires a !in w.deletions
    requires a in w'.releases && w'.releases == w.releases[a := w'.releases[a]] && !w'.releases[a].ready
    requires w'.maker == w.maker[a := j] && w'.checks == w.checks[a := []]
    ensures Extends(w, w') && InvReleases(w')
  {
    forall q, r | q in w'.releases && r in w'.releases ensures KeyOk(w', q, r) {
      assert q != a && r != a ==> KeyOk(w, q, r);
    }
    forall q | q in w'.deletions ensures DeletedOk(w', q) {
      assert DeletedOk(w, q);
    }
  }

  lemma RegisterMoves(w: World, worker: Id, a: Id)
    requires Inv(w) && RegisterStep(w, worker, a) != w
    ensures worker in w.workers && OneMoves(w, RegisterStep(w, worker, a), w.workers[worker].job, worker)
    ensures Extends(w, RegisterStep(w, worker, a)) && InvReleases(RegisterStep(w, worker, a))
  {
    var j := w.workers[worker].job;
    assert WorkerOk(w, worker);
    Others(w, worker);
    assert OneMoves(w, RegisterStep(w, worker, a), j, worker);
    RegisterReleases(w, RegisterStep(w, worker, a), j, worker, a);
  }

  lemma RegisterFlight(w: World, worker: Id, a: Id)
    requires Inv(w) && RegisterStep(w, worker, a) != w && Extends(w, RegisterStep(w, worker, a)) && worker in w.workers
    ensures var w' := RegisterStep(w, worker, a);
            JobOk(w', w.workers[worker].job) && (worker in w'.workers ==> WorkerOk(w', worker))
  {
    var w', j := RegisterStep(w, worker, a), w.workers[worker].job;
    assert WorkerOk(w, worker) && JobOk(w, j);
    RevisionStays(w, w', w.jobs[j].draft, w.jobs[j].revision);
    JobStays(w, w', j);
  }

  lemma RegisterKeeps(w: World, worker: Id, a: Id)
    requires Inv(w)
    ensures Inv(RegisterStep(w, worker, a)) && Extends(w, RegisterStep(w, worker, a))
  {
    if RegisterStep(w, worker, a) != w {
      RegisterMoves(w, worker, a);
      RegisterFlight(w, worker, a);
      OneMovesKeeps(w, RegisterStep(w, worker, a), w.workers[worker].job, worker);
    }
  }

  lemma AttachMoves(w: World, worker: Id)
    requires Inv(w) && AttachStep(w, worker) != w
    ensures worker in w.workers && OneMoves(w, AttachStep(w, worker), w.workers[worker].job, worker)
    ensures Extends(w, AttachStep(w, worker)) && InvReleases(AttachStep(w, worker))
  {
    var j := w.workers[worker].job;
    assert WorkerOk(w, worker);
    Others(w, worker);
    assert OneMoves(w, AttachStep(w, worker), j, worker);
    SameTables(w, AttachStep(w, worker), j, worker);
  }

  lemma AttachFlight(w: World, worker: Id)
    requires Inv(w) && AttachStep(w, worker) != w && Extends(w, AttachStep(w, worker)) && worker in w.workers
    ensures var w' := AttachStep(w, worker);
            JobOk(w', w.workers[worker].job) && (worker in w'.workers ==> WorkerOk(w', worker))
  {
    var w', j := AttachStep(w, worker), w.workers[worker].job;
    assert WorkerOk(w, worker) && JobOk(w, j);
    RevisionStays(w, w', w.jobs[j].draft, w.jobs[j].revision);
  }

  lemma AttachKeeps(w: World, worker: Id)
    requires Inv(w)
    ensures Inv(AttachStep(w, worker)) && Extends(w, AttachStep(w, worker))
  {
    if AttachStep(w, worker) != w {
      AttachMoves(w, worker);
      AttachFlight(w, worker);
      OneMovesKeeps(w, AttachStep(w, worker), w.workers[worker].job, worker);
    }
  }

  lemma BeginCheckMoves(w: World, worker: Id)
    requires Inv(w) && BeginCheckStep(w, worker) != w
    ensures worker in w.workers && OneMoves(w, BeginCheckStep(w, worker), w.workers[worker].job, worker)
    ensures Extends(w, BeginCheckStep(w, worker)) && InvReleases(BeginCheckStep(w, worker))
  {
    var j := w.workers[worker].job;
    assert WorkerOk(w, worker);
    Others(w, worker);
    assert OneMoves(w, BeginCheckStep(w, worker), j, worker);
    ChecksGrow(w, BeginCheckStep(w, worker), j, worker);
  }

  lemma BeginCheckFlight(w: World, worker: Id)
    requires Inv(w) && BeginCheckStep(w, worker) != w && Extends(w, BeginCheckStep(w, worker)) && worker in w.workers
    ensures var w' := BeginCheckStep(w, worker);
            JobOk(w', w.workers[worker].job) && (worker in w'.workers ==> WorkerOk(w', worker))
  {
    var w', j := BeginCheckStep(w, worker), w.workers[worker].job;
    assert WorkerOk(w, worker) && JobOk(w, j);
    RevisionStays(w, w', w.jobs[j].draft, w.jobs[j].revision);
    JobStays(w, w', j);
  }

  lemma BeginCheckKeeps(w: World, worker: Id)
    requires Inv(w)
    ensures Inv(BeginCheckStep(w, worker)) && Extends(w, BeginCheckStep(w, worker))
  {
    if BeginCheckStep(w, worker) != w {
      BeginCheckMoves(w, worker);
      BeginCheckFlight(w, worker);
      OneMovesKeeps(w, BeginCheckStep(w, worker), w.workers[worker].job, worker);
    }
  }

  lemma FinishCheckMoves(w: World, worker: Id, passed: bool)
    requires Inv(w) && FinishCheckStep(w, worker, passed) != w
    ensures worker in w.workers && OneMoves(w, FinishCheckStep(w, worker, passed), w.workers[worker].job, worker)
    ensures Extends(w, FinishCheckStep(w, worker, passed)) && InvReleases(FinishCheckStep(w, worker, passed))
  {
    var j := w.workers[worker].job;
    assert WorkerOk(w, worker);
    Others(w, worker);
    assert OneMoves(w, FinishCheckStep(w, worker, passed), j, worker);
    ChecksGrow(w, FinishCheckStep(w, worker, passed), j, worker);
  }

  lemma FinishCheckFlight(w: World, worker: Id, passed: bool)
    requires Inv(w) && FinishCheckStep(w, worker, passed) != w && Extends(w, FinishCheckStep(w, worker, passed))
    requires worker in w.workers
    ensures var w' := FinishCheckStep(w, worker, passed);
            JobOk(w', w.workers[worker].job) && (worker in w'.workers ==> WorkerOk(w', worker))
  {
    var w', j := FinishCheckStep(w, worker, passed), w.workers[worker].job;
    assert WorkerOk(w, worker) && JobOk(w, j);
    RevisionStays(w, w', w.jobs[j].draft, w.jobs[j].revision);
    JobStays(w, w', j);
    if passed {
      var f := w.workers[worker].phase;
      assert w'.checks[f.assignment][f.check] == Check(Passed, Some(f.material));
    } else {
      WorkerStays(w, w', worker);
    }
  }

  lemma FinishCheckKeeps(w: World, worker: Id, passed: bool)
    requires Inv(w)
    ensures Inv(FinishCheckStep(w, worker, passed)) && Extends(w, FinishCheckStep(w, worker, passed))
  {
    if FinishCheckStep(w, worker, passed) != w {
      FinishCheckMoves(w, worker, passed);
      FinishCheckFlight(w, worker, passed);
      OneMovesKeeps(w, FinishCheckStep(w, worker, passed), w.workers[worker].job, worker);
    }
  }

  /** A worker is gone; its job stays as it is. */
  lemma GoneKeeps(w: World, worker: Id)
    requires Inv(w) && worker in w.workers
    ensures Inv(w.(workers := w.workers - {worker})) && Extends(w, w.(workers := w.workers - {worker}))
  {
    var w', j := w.(workers := w.workers - {worker}), w.workers[worker].job;
    assert WorkerOk(w, worker) && JobOk(w, j);
    Others(w, worker);
    SameTables(w, w', j, worker);
    JobStays(w, w', j);
    OneMovesKeeps(w, w', j, worker);
  }

  lemma EndedJob(w: World, w': World, j: Id)
    requires Inv(w) && Extends(w, w') && j in w.jobs
    requires w'.jobs[j].(status := w.jobs[j].status, assignment := w.jobs[j].assignment) == w.jobs[j]
    requires w'.hist == w.hist && w'.drafts == w.drafts && !Busy(w'.jobs[j].status)
    requires w'.jobs[j].assignment.Some? ==>
               w'.jobs[j].assignment.value in w'.maker && w'.maker[w'.jobs[j].assignment.value] == j
    requires w'.jobs[j].status.Succeeded? ==> w'.jobs[j].assignment.Some? && Good(w, j, w'.jobs[j].assignment.value)
    ensures JobOk(w', j)
  {
    assert JobOk(w, j);
    if w'.jobs[j].status.Succeeded? {
      GoodStays(w, w', j, w'.jobs[j].assignment.value);
    }
  }

  lemma ClosedKeeps(w: World, worker: Id, status: JobStatus, a: Option<Id>)
    requires Inv(w) && worker in w.workers && !Busy(status)
    requires a.Some? ==> a.value in w.maker && w.maker[a.value] == w.workers[worker].job
    requires status.Succeeded? && w.workers[worker].job in w.jobs && w.jobs[w.workers[worker].job].status.Running? ==>
               a.Some? && Good(w, w.workers[worker].job, a.value)
    ensures Inv(Closed(w, worker, status, a)) && Extends(w, Closed(w, worker, status, a))
  {
    var w', j := Closed(w, worker, status, a), w.workers[worker].job;
    assert WorkerOk(w, worker);
    if w.jobs[j].status.Running? {
      Others(w, worker);
      SameTables(w, w', j, worker);
      EndedJob(w, w', j);
      OneMovesKeeps(w, w', j, worker);
    } else {
      GoneKeeps(w, worker);
    }
  }

  /** A worker whose job was interrupted closes nothing; one whose job still runs ends it, as a
      success exactly if it judged the release and is not stopping. */
  lemma FinishJobCloses(w: World, worker: Id, stopping: bool)
    requires Inv(w) && worker in w.workers && w.workers[worker].phase.Judged?
    ensures var f := w.workers[worker];
            var w' := FinishJobStep(w, worker, stopping);
            && f.job in w.jobs && f.job in w'.jobs
            && (w.jobs[f.job].status.Interrupted? ==> w'.jobs == w.jobs)
            && (w.jobs[f.job].status.Running? && !stopping ==>
                  w'.jobs[f.job].status.Succeeded? && Good(w', f.job, f.phase.assignment))
            && (w.jobs[f.job].status.Running? && stopping ==> w'.jobs[f.job].status.Interrupted?)
  {
    assert WorkerOk(w, worker);
    FinishJobKeeps(w, worker, stopping);
    assert JobOk(FinishJobStep(w, worker, stopping), w.workers[worker].job);
  }

  /** A job that ends as succeeded was running, so what its worker built and checked is what
      the job was queued for. */
  lemma FinishJobKeeps(w: World, worker: Id, stopping: bool)
    requires Inv(w)
    ensures Inv(FinishJobStep(w, worker, stopping)) && Extends(w, FinishJobStep(w, worker, stopping))
  {
    if worker in w.workers && w.workers[worker].phase.Judged? {
      assert WorkerOk(w, worker);
      ClosedKeeps(w, worker, if stopping then Interrupted else Succeeded, Some(w.workers[worker].phase.assignment));
    }
  }

  lemma FailJobKeeps(w: World, worker: Id, stopping: bool)
    requires Inv(w)
    ensures Inv(FailJobStep(w, worker, stopping)) && Extends(w, FailJobStep(w, worker, stopping))
  {
    if worker in w.workers {
      var j := w.workers[worker].job;
      assert WorkerOk(w, worker) && JobOk(w, j);
      ClosedKeeps(w, worker, if stopping then Interrupted else Unsuccessful, w.jobs[j].assignment);
    }
  }

  lemma VanishKeeps(w: World, worker: Id)
    requires Inv(w)
    ensures Inv(w.(workers := w.workers - {worker})) && Extends(w, w.(workers := w.workers - {worker}))
  {
    if worker in w.workers {
      GoneKeeps(w, worker);
    } else {
      assert w.workers - {worker} == w.workers;
      assert w.(workers := w.workers - {worker}) == w;
    }
  }

  lemma SettledSame(checks: seq<Check>)
    ensures SameChecks(checks, Settled(checks))
  {
  }

  lemma RestartExtends(w: World)
    requires Inv(w)
    ensures Extends(w, RestartStep(w)) && InvReleases(RestartStep(w))
  {
    var w' := RestartStep(w);
    forall a | a in w.checks ensures a in w'.checks && SameChecks(w.checks[a], w'.checks[a]) {
      SettledSame(w.checks[a]);
    }
    SameReleases(w, w');
  }

  lemma RestartJob(w: World, j: Id)
    requires Inv(w) && Extends(w, RestartStep(w)) && j in w.jobs
    ensures JobOk(RestartStep(w), j)
  {
    assert JobOk(w, j);
    if w.jobs[j].status.Running? {
      RevisionStays(w, RestartStep(w), w.jobs[j].draft, w.jobs[j].revision);
    } else {
      JobStays(w, RestartStep(w), j);
    }
  }

  lemma RestartWorkers(w: World)
    requires InvJobs(w) && Extends(w, RestartStep(w))
    ensures var w' := RestartStep(w);
            && (forall x {:trigger WorkerOk(w', x)} :: x in w'.workers ==> WorkerOk(w', x))
            && (forall x, y {:trigger OneWorker(w', x, y)} ::
                  x in w'.workers && y in w'.workers ==> OneWorker(w', x, y))
  {
    var w' := RestartStep(w);
    forall x | x in w'.workers ensures WorkerOk(w', x) {
      assert WorkerOk(w, x);
      WorkerStays(w, w', x);
    }
    forall x, y | x in w'.workers && y in w'.workers ensures OneWorker(w', x, y) {
      assert OneWorker(w, x, y);
    }
  }

  lemma RestartJobs(w: World)
    requires Inv(w) && Extends(w, RestartStep(w))
    ensures InvJobs(RestartStep(w))
  {
    var w' := RestartStep(w);
    RestartWorkers(w);
    forall j | j in w'.jobs ensures JobOk(w', j) {
      RestartJob(w, j);
    }
    forall j, k | j in w'.jobs && k in w'.jobs ensures OneJob(w', j, k) {
      assert OneJob(w, j, k);
    }
  }

  lemma RestartKeeps(w: World)
    requires Inv(w)
    ensures Inv(RestartStep(w)) && Extends(w, RestartStep(w))
  {
    RestartExtends(w);
    RestartJobs(w);
    SameDrafts(w, RestartStep(w));
  }

  // ----------------------------------------------------------- releases keep it

  /** Only flags of releases, the deleted list and checks change, and drafts' publication. */
  ghost predicate OnlyReleases(w: World, w': World) {
    && w'.jobs == w.jobs && w'.workers == w.workers && w'.hist == w.hist && w'.maker == w.maker
    && (forall d :: d in w.drafts <==> d in w'.drafts)
    && (forall d :: d in w.drafts ==> w'.drafts[d].(published := w.drafts[d].published) == w.drafts[d]
                                      && (w.drafts[d].published.Some? ==> w'.drafts[d] == w.drafts[d]))
    && (forall a :: a in w.releases <==> a in w'.releases)
    && (forall a :: a in w.releases ==>
          w'.releases[a].(active := w.releases[a].active, ready := w.releases[a].ready) == w.releases[a])
    && (forall a :: a in w.checks ==> a in w'.checks && SameChecks(w.checks[a], w'.checks[a]))
  }

  lemma OnlyReleasesKeeps(w: World, w': World)
    requires Inv(w) && OnlyReleases(w, w')
    ensures Extends(w, w') && InvJobs(w')
    ensures forall d {:trigger DraftOk(w', d)} :: d in w'.drafts || d in w'.hist ==> DraftOk(w', d)
  {
    assert Extends(w, w');
    forall j | j in w'.jobs ensures JobOk(w', j) {
      assert JobOk(w, j);
      JobStays(w, w', j);
    }
    forall j, k | j in w'.jobs && k in w'.jobs ensures OneJob(w', j, k) {
      assert OneJob(w, j, k);
    }
    forall x | x in w'.workers ensures WorkerOk(w', x) {
      assert WorkerOk(w, x);
      WorkerStays(w, w', x);
    }
    forall x, y | x in w'.workers && y in w'.workers ensures OneWorker(w', x, y) {
      assert OneWorker(w, x, y);
    }
    forall d | d in w'.drafts || d in w'.hist ensures DraftOk(w', d) {
      assert DraftOk(w, d);
    }
  }

  lemma SamePublications(w: World, w': World)
    requires Inv(w) && OnlyReleases(w, w') && w'.drafts == w.drafts
    ensures forall d {:trigger PublishedOk(w', d)} :: d in w'.drafts ==> PublishedOk(w', d)
  {
    forall d | d in w'.drafts ensures PublishedOk(w', d) {
      assert PublishedOk(w, d);
      PublicationStays(w, w', d);
    }
  }

  /** One release is hidden, shown or archived. */
  ghost predicate Flagged(w: World, w': World, a: Id) {
    && a in w.releases && a in w'.releases && w' == w.(releases := w.releases[a := w'.releases[a]])
    && w'.releases[a].(active := w.releases[a].active, ready := w.releases[a].ready) == w.releases[a]
  }

  lemma FlaggedReleases(w: World, w': World, a: Id)
    requires InvReleases(w) && a in w.releases && a in w'.releases && w'.releases == w.releases[a := w'.releases[a]]
    requires w'.releases[a].(active := w.releases[a].active, ready := w.releases[a].ready) == w.releases[a]
    requires w'.deletions == w.deletions
    requires Shown(w'.releases[a]) && !Shown(w.releases[a]) ==>
               !OtherShown(w, w.releases[a].course, w.releases[a].key, a)
    requires a in w.deletions ==> !w'.releases[a].active && !w'.releases[a].ready
    ensures InvReleases(w')
  {
    forall q, r | q in w'.releases && r in w'.releases ensures KeyOk(w', q, r) {
      assert KeyOk(w, q, r);
    }
    forall q | q in w'.deletions ensures DeletedOk(w', q) {
      assert DeletedOk(w, q);
    }
  }

  lemma FlaggedKeeps(w: World, w': World, a: Id)
    requires Inv(w) && Flagged(w, w', a)
    requires Shown(w'.releases[a]) && !Shown(w.releases[a]) ==>
               !OtherShown(w, w.releases[a].course, w.releases[a].key, a)
    requires a in w.deletions ==> !w'.releases[a].active && !w'.releases[a].ready
    ensures Inv(w') && Extends(w, w')
  {
    FlaggedReleases(w, w', a);
    OnlyReleasesKeeps(w, w');
    SamePublications(w, w');
    CapsShrink(w, w');
  }

  lemma PublishValidatedKeeps(w: World, a: Id, course: Id)
    requires Inv(w)
    ensures Inv(PublishValidatedStep(w, a, course)) && Extends(w, PublishValidatedStep(w, a, course))
  {
    if PublishValidatedStep(w, a, course) != w {
      FlaggedKeeps(w, PublishValidatedStep(w, a, course), a);
    }
  }

  lemma HideKeeps(w: World, a: Id, course: Id, used: bool)
    requires Inv(w)
    ensures Inv(HideStep(w, a, course, used)) && Extends(w, HideStep(w, a, course, used))
  {
    if HideStep(w, a, course, used) != w {
      FlaggedKeeps(w, HideStep(w, a, course, used), a);
    }
  }

  lemma NewCheckKeeps(w: World, w': World, a: Id)
    requires Inv(w) && a in w.checks && a in w'.checks && w' == w.(checks := w.checks[a := w'.checks[a]])
    requires SameChecks(w.checks[a], w'.checks[a])
    ensures Inv(w') && Extends(w, w')
  {
    OnlyReleasesKeeps(w, w');
    SamePublications(w, w');
    SameReleases(w, w');
    CapsShrink(w, w');
  }

  lemma OutsideCheckKeeps(w: World, a: Id, passed: bool)
    requires Inv(w)
    ensures Inv(OutsideCheckStep(w, a, passed)) && Extends(w, OutsideCheckStep(w, a, passed))
  {
    var w' := OutsideCheckStep(w, a, passed);
    if w' != w {
      assert SameChecks(w.checks[a], w'.checks[a]);
      NewCheckKeeps(w, w', a);
    }
  }

  lemma DeletionKeeps(w: World, a: Id)
    requires Inv(w) && a in w.releases && !w.releases[a].active && !w.releases[a].ready
    ensures var w' := w.(deletions := w.deletions + {a}); Inv(w') && Extends(w, w')
  {
    var w' := w.(deletions := w.deletions + {a});
    OnlyReleasesKeeps(w, w');
    SamePublications(w, w');
    forall q, r | q in w'.releases && r in w'.releases ensures KeyOk(w', q, r) {
      assert KeyOk(w, q, r);
    }
    forall q | q in w'.deletions ensures DeletedOk(w', q) {
      assert q != a ==> DeletedOk(w, q);
    }
    CapsShrink(w, w');
  }

  lemma AlteredKeeps(w: World, action: Action, a: Id)
    requires Inv(w) && a in w.releases && Altered(w, action, a).Some?
    ensures Inv(Altered(w, action, a).value) && Extends(w, Altered(w, action, a).value)
  {
    match action
    case Archive => FlaggedKeeps(w, Archived(w, a), a);
    case Delete =>
      if a !in w.deletions {
        DeletionKeeps(w, a);
      }
  }

  lemma ExtendsOn(a: World, b: World, c: World)
    requires Extends(a, b) && Extends(b, c)
    ensures Extends(a, c)
  {
    forall d | d in a.hist ensures d in c.hist && a.hist[d] <= c.hist[d] {
      assert a.hist[d] <= b.hist[d];
    }
    forall x | x in a.checks ensures x in c.checks && SameChecks(a.checks[x], c.checks[x]) {
      assert SameChecks(a.checks[x], b.checks[x]);
    }
  }

  lemma {:induction false} AllAlteredKeeps(w: World, action: Action, ids: seq<Id>)
    requires Inv(w) && (forall i :: 0 <= i < |ids| ==> ids[i] in w.releases) && AllAltered(w, action, ids).Some?
    ensures Inv(AllAltered(w, action, ids).value) && Extends(w, AllAltered(w, action, ids).value)
    decreases |ids|
  {
    if ids != [] {
      AlteredKeeps(w, action, ids[0]);
      var w' := Altered(w, action, ids[0]).value;
      AllAlteredKeeps(w', action, ids[1..]);
      ExtendsOn(w, w', AllAltered(w', action, ids[1..]).value);
    }
  }

  /** A release is the published version of one draft at most. */
  lemma OneSource(w: World, d: Id, e: Id, a: Id)
    requires Inv(w) && d in w.drafts && e in w.drafts && w.drafts[d].published == Some(a) == w.drafts[e].published
    ensures d == e && a in w.releases && w.releases[a].course == w.drafts[d].course
  {
    assert PublishedOk(w, d) && PublishedOk(w, e);
    var j :| j in w.jobs && w.jobs[j].draft == d && w.jobs[j].status.Succeeded? && w.jobs[j].assignment == Some(a);
    var k :| k in w.jobs && w.jobs[k].draft == e && w.jobs[k].status.Succeeded? && w.jobs[k].assignment == Some(a);
    assert JobOk(w, j) && JobOk(w, k);
  }

  lemma SourceKnown(w: World, course: Id, a: Id, d: Id)
    requires Inv(w) && InCourse(w, course, a) && d in w.drafts && w.drafts[d].published == Some(a)
    ensures SourceOf(w, course, a, d)
  {
    OneSource(w, d, d, a);
  }

  /** Restoring brings back the one draft the release came from, for which room is made sure. */
  lemma RestoreCaps(w: World, a: Id, course: Id)
    requires Inv(w) && RestoreStep(w, a, course) != w
    ensures CapsOk(RestoreStep(w, a, course))
    ensures forall d, e ::
              d in Live(RestoreStep(w, a, course)) - Live(w) && e in Live(RestoreStep(w, a, course)) - Live(w) ==>
              d == e
  {
    var w' := RestoreStep(w, a, course);
    assert QueuedJobs(w') == QueuedJobs(w);
    forall d, e | d in Live(w') - Live(w) && e in Live(w') - Live(w) ensures d == e {
      assert w.drafts[d].published == Some(a) == w.drafts[e].published;
      OneSource(w, d, e, a);
    }
    if d :| SourceOf(w, course, a, d) && !w.drafts[d].deleted {
      forall e | e in Live(w') && e !in Live(w) ensures e == d {
        OneSource(w, e, d, a);
      }
      CapsGrow(w, w', d, course);
    } else {
      forall e | e in Live(w') ensures e in Live(w) {
        if w.drafts[e].published == Some(a) {
          SourceKnown(w, course, a, e);
        }
      }
      CapsShrink(w, w');
    }
  }

  lemma RestoreKeeps(w: World, a: Id, course: Id)
    requires Inv(w)
    ensures Inv(RestoreStep(w, a, course)) && Extends(w, RestoreStep(w, a, course))
  {
    var w' := RestoreStep(w, a, course);
    if w' != w {
      RestoreCaps(w, a, course);
      OnlyReleasesKeeps(w, w');
      SamePublications(w, w');
      forall q, r | q in w'.releases && r in w'.releases ensures KeyOk(w', q, r) {
        assert KeyOk(w, q, r);
      }
      forall q | q in w'.deletions ensures DeletedOk(w', q) {
        assert DeletedOk(w, q);
      }
    }
  }

  lemma PublishedDrafts(w: World, s: Step, j: Id)
    requires Inv(w) && s.Publish? && MayPublish(w, s, j)
    ensures InvDrafts(Published(w, s.draft, w.jobs[j].assignment.value))
  {
    var w' := Published(w, s.draft, w.jobs[j].assignment.value);
    forall d | d in w'.drafts || d in w'.hist ensures DraftOk(w', d) {
      assert DraftOk(w, d);
    }
    forall d | d in w'.drafts ensures PublishedOk(w', d) {
      assert PublishedOk(w, d);
    }
  }

  lemma PublishedReleases(w: World, s: Step, j: Id)
    requires Inv(w) && s.Publish? && MayPublish(w, s, j)
    ensures InvReleases(Published(w, s.draft, w.jobs[j].assignment.value))
  {
    FlaggedReleases(w, Published(w, s.draft, w.jobs[j].assignment.value), w.jobs[j].assignment.value);
  }

  lemma PublishedCaps(w: World, draft: Id, a: Id)
    requires CapsOk(w) && draft in w.drafts && w.drafts[draft].published.None? && a in w.releases
    ensures CapsOk(Published(w, draft, a))
  {
    CapsShrink(w, Published(w, draft, a));
  }

  lemma PublishedKeeps(w: World, s: Step, j: Id)
    requires Inv(w) && s.Publish? && MayPublish(w, s, j)
    ensures var w' := Published(w, s.draft, w.jobs[j].assignment.value); Inv(w') && Extends(w, w')
  {
    PublishedDrafts(w, s, j);
    PublishedReleases(w, s, j);
    PublishedCaps(w, s.draft, w.jobs[j].assignment.value);
    OnlyReleasesKeeps(w, Published(w, s.draft, w.jobs[j].assignment.value));
  }

  lemma PublishKeeps(w: World, s: Step)
    requires Inv(w) && s.Publish?
    ensures Inv(PublishStep(w, s)) && Extends(w, PublishStep(w, s))
  {
    forall j | MayPublish(w, s, j)
      ensures var w' := Published(w, s.draft, w.jobs[j].assignment.value); Inv(w') && Extends(w, w')
    {
      PublishedKeeps(w, s, j);
    }
  }

  lemma AlterKeeps(w: World, action: Action, a: Id, course: Id)
    requires Inv(w)
    ensures Inv(AlterStep(w, action, a, course)) && Extends(w, AlterStep(w, action, a, course))
  {
    if InCourse(w, course, a) && Altered(w, action, a).Some? {
      AlteredKeeps(w, action, a);
    }
  }

  lemma BatchKeeps(w: World, action: Action, course: Id, ids: seq<Id>, confirmed: bool)
    requires Inv(w)
    ensures Inv(BatchStep(w, action, course, ids, confirmed))
    ensures Extends(w, BatchStep(w, action, course, ids, confirmed))
  {
    if forall i :: 0 <= i < |ids| ==> Selectable(w, course, action, ids[i]) {
      assert forall i :: 0 <= i < |ids| ==> ids[i] in w.releases;
      if AllAltered(w, action, ids).Some? {
        AllAlteredKeeps(w, action, ids);
      }
    }
  }

  lemma DraftNextKeeps(w: World, step: Step)
    requires Inv(w) && EditsDrafts(step)
    ensures Inv(DraftNext(w, step)) && Extends(w, DraftNext(w, step))
  {
    match step
    case CreateDraft(_, _, _, _) => CreateKeeps(w, step);
    case UpdateDraft(draft, course, revision, doc) => UpdateKeeps(w, draft, course, revision, doc);
    case Upload(draft, course, revision, role, archive) => UploadKeeps(w, draft, course, revision, role, archive);
    case ImportTemplate(_, _, _, _, _, _) => ImportKeeps(w, step);
    case DeleteDraft(draft, course, revision) => DeleteDraftKeeps(w, draft, course, revision);
    case QueueCheck(_, _, _, _, _) => QueueKeeps(w, step);
    case CopyRelease(_, _, _, _) => CopyKeeps(w, step);
  }

  lemma WorkerNextKeeps(w: World, step: Step)
    requires Inv(w) && Validates(step)
    ensures Inv(WorkerNext(w, step)) && Extends(w, WorkerNext(w, step))
  {
    match step
    case Claim(worker, job) => ClaimKeeps(w, worker, job);
    case ReadDocument(worker) => ReadDocumentKeeps(w, worker);
    case ReadUploads(worker) => ReadUploadsKeeps(w, worker);
    case Register(worker, a) => RegisterKeeps(w, worker, a);
    case Attach(worker) => AttachKeeps(w, worker);
    case BeginCheck(worker) => BeginCheckKeeps(w, worker);
    case FinishCheck(worker, passed) => FinishCheckKeeps(w, worker, passed);
    case FinishJob(worker, stopping) => FinishJobKeeps(w, worker, stopping);
    case FailJob(worker, stopping) => FailJobKeeps(w, worker, stopping);
    case Vanish(worker) => VanishKeeps(w, worker);
    case Restart => RestartKeeps(w);
  }

  lemma ReleaseNextKeeps(w: World, step: Step)
    requires Inv(w) && !EditsDrafts(step) && !Validates(step)
    ensures Inv(ReleaseNext(w, step)) && Extends(w, ReleaseNext(w, step))
  {
    match step
    case OutsideCheck(a, passed) => OutsideCheckKeeps(w, a, passed);
    case Publish(_, _, _, _) => PublishKeeps(w, step);
    case PublishValidated(a, course) => PublishValidatedKeeps(w, a, course);
    case Hide(a, course, used) => HideKeeps(w, a, course, used);
    case Alter(action, a, course) => AlterKeeps(w, action, a, course);
    case Batch(action, course, ids, confirmed) => BatchKeeps(w, action, course, ids, confirmed);
    case Restore(a, course) => RestoreKeeps(w, a, course);
  }

  lemma StepKeeps(w: World, step: Step)
    requires Inv(w)
    ensures Inv(Next(w, step)) && Extends(w, Next(w, step))
  {
    if EditsDrafts(step) {
      DraftNextKeeps(w, step);
    } else if Validates(step) {
      WorkerNextKeeps(w, step);
    } else {
      ReleaseNextKeeps(w, step);
    }
  }

  lemma {:induction false} RunKeeps(w: World, steps: seq<Step>)
    requires Inv(w)
    ensures Inv(Run(w, steps)) && Extends(w, Run(w, steps))
    decreases |steps|
  {
    if steps != [] {
      StepKeeps(w, steps[0]);
      RunKeeps(Next(w, steps[0]), steps[1..]);
      ExtendsOn(w, Next(w, steps[0]), Run(Next(w, steps[0]), steps[1..]));
    }
  }

  lemma EmptyIsFine()
    ensures Inv(EMPTY)
  {
    assert QueuedJobs(EMPTY) == {} && Live(EMPTY) == {};
    forall course ensures LiveIn(EMPTY, course) == {} {
    }
  }

  // ---------------------------------------------------------------- the main results

  lemma PublishedIsGood(w: World, d: Id)
    requires Inv(w) && d in w.drafts && w.drafts[d].published.Some?
    ensures var a := w.drafts[d].published.value;
            && a in w.releases && w.releases[a].content == Packed(w.drafts[d].material)
            && w.releases[a].course == w.drafts[d].course && CheckedOn(w, a, Packed(w.drafts[d].material))
  {
    assert PublishedOk(w, d) && DraftOk(w, d);
    var j :| j in w.jobs && w.jobs[j].draft == d && w.jobs[j].status.Succeeded?
             && w.jobs[j].revision == w.drafts[d].revision && w.jobs[j].assignment == w.drafts[d].published;
    assert JobOk(w, j);
  }

  /** However edits, restarts and left-over workers interleave: a published draft's release was
      built from, and passed its check on, exactly the document and uploads the draft holds,
      then and ever after. */
  lemma PublishedIsWhatWasChecked(before: seq<Step>, after: seq<Step>, d: Id)
    requires d in Run(EMPTY, before).drafts && Run(EMPTY, before).drafts[d].published.Some?
    ensures var w := Run(EMPTY, before);
            var w' := Run(w, after);
            var a := w.drafts[d].published.value;
            && d in w'.drafts && w'.drafts[d] == w.drafts[d]
            && a in w'.releases && w'.releases[a].content == Packed(w'.drafts[d].material)
            && CheckedOn(w', a, Packed(w'.drafts[d].material))
  {
    EmptyIsFine();
    RunKeeps(EMPTY, before);
    var w := Run(EMPTY, before);
    RunKeeps(w, after);
    PublishedIsGood(Run(w, after), d);
  }

  /** The service's limits, in every run. */
  lemma LimitsHold(steps: seq<Step>, course: Id)
    ensures var w := Run(EMPTY, steps);
            |QueuedJobs(w)| <= MAX_QUEUED && |Live(w)| <= ALL_DRAFTS && |LiveIn(w, course)| <= COURSE_DRAFTS
  {
    EmptyIsFine();
    RunKeeps(EMPTY, steps);
  }

  /** At most one release of an assignment key is active and ready. */
  lemma OneShownPerKey(steps: seq<Step>, a: Id, q: Id)
    requires var w := Run(EMPTY, steps);
             && a in w.releases && q in w.releases && Shown(w.releases[a]) && Shown(w.releases[q])
             && w.releases[a].course == w.releases[q].course && w.releases[a].key == w.releases[q].key
    ensures a == q
  {
    EmptyIsFine();
    RunKeeps(EMPTY, steps);
    assert KeyOk(Run(EMPTY, steps), a, q);
  }

  /** Every release on the deleted list is inactive and unready. */
  lemma DeletedAreHidden(steps: seq<Step>, a: Id)
    requires a in Run(EMPTY, steps).deletions
    ensures var w := Run(EMPTY, steps); a in w.releases && !w.releases[a].active && !w.releases[a].ready
  {
    EmptyIsFine();
    RunKeeps(EMPTY, steps);
    assert DeletedOk(Run(EMPTY, steps), a);
  }

  ghost predicate AlteredAs(w: World, w': World, action: Action, ids: seq<Id>) {
    && w' == w.(releases := w'.releases, deletions := w'.deletions)
    && (forall a :: a in w'.releases <==> a in w.releases)
    && (forall a :: a in w.releases ==>
          w'.releases[a] == if action.Archive? && a in ids then w.releases[a].(active := false, ready := false)
              else w.releases[a])
    && (forall a :: a in w'.deletions <==> a in w.deletions || (action.Delete? && a in ids))
  }

  lemma {:induction false} AllAlteredTogether(w: World, action: Action, ids: seq<Id>)
    requires forall i :: 0 <= i < |ids| ==> ids[i] in w.releases
    requires action.Delete? ==> forall i :: 0 <= i < |ids| ==>
               !w.releases[ids[i]].active && !w.releases[ids[i]].ready && !CheckPending(w, ids[i])
    ensures AllAltered(w, action, ids).Some? && AlteredAs(w, AllAltered(w, action, ids).value, action, ids)
    decreases |ids|
  {
    if ids != [] {
      var w' := Altered(w, action, ids[0]).value;
      AllAlteredTogether(w', action, ids[1..]);
      assert forall a :: a in ids <==> a == ids[0] || a in ids[1..];
    }
  }

  /** A confirmed batch changes all of its releases, and nothing else, or nothing at all:
      selected releases never make it fail half way. */
  lemma BatchIsAllOrNothing(w: World, action: Action, course: Id, ids: seq<Id>, confirmed: bool)
    requires 1 <= |ids| <= MAX_BATCH && Distinct(ids)
    ensures var w' := BatchStep(w, action, course, ids, confirmed);
            if confirmed && (forall i :: 0 <= i < |ids| ==> Selectable(w, course, action, ids[i]))
            then AlteredAs(w, w', action, ids) else w' == w
  {
    if forall i :: 0 <= i < |ids| ==> Selectable(w, course, action, ids[i]) {
      forall i | 0 <= i < |ids| ensures ids[i] in w.releases && !CheckPending(w, ids[i])
                                        && (action.Delete? ==>
                                              !w.releases[ids[i]].active && !w.releases[ids[i]].ready) {
        assert Selectable(w, course, action, ids[i]);
      }
      AllAlteredTogether(w, action, ids);
    }
  }
}
