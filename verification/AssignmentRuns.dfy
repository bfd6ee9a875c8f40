/** What the releases of validation workers are made of, in every run: when a release is one
    revision of its draft, and when a worker that outlived a restart has mixed two. */
module AssignmentRuns {
  import opened Common
  import opened AssignmentAdmin

  // ------------------------------------------------------- what one step may change

  /** Jobs keep their place, and an interrupted one stays interrupted; a new job comes last. */
  ghost predicate JobsMove(w: World, w': World, step: Step) {
    && (forall j :: j in w.jobs ==> j in w'.jobs && w'.jobs[j].row == w.jobs[j].row
                                    && (w.jobs[j].status.Interrupted? ==> w'.jobs[j].status.Interrupted?))
    && ((forall j :: j in w'.jobs ==> j in w.jobs) || NewJobComes(w, w', step))
  }

  ghost predicate NewJobComes(w: World, w': World, step: Step) {
    && step.QueueCheck? && step.job !in w.jobs && step.job in w'.jobs && w'.jobs[step.job].row == |w.jobs|
    && forall j :: j in w'.jobs ==> j in w.jobs || j == step.job
  }

  /** A release is new only as the material a worker holds. */
  ghost predicate MakersMove(w: World, w': World, step: Step) {
    forall a :: a in w'.maker && a !in w.maker ==>
      && step.Register? && a == step.assignment && step.worker in w.workers
      && w.workers[step.worker].phase.HasAll? && w'.maker[a] == w.workers[step.worker].job
      && a in w'.releases && w'.releases[a].content == w.workers[step.worker].phase.material
  }

  /** A worker gets its material only by reading uploads, and no step moves another's worker. */
  ghost predicate WorkersMove(w: World, w': World, step: Step) {
    && (forall x :: x in w'.workers && w'.workers[x].phase.HasAll? ==>
          || (x in w.workers && w'.workers[x] == w.workers[x])
          || (step == ReadUploads(x) && ReadsUploads(w, x)
                && w'.workers[x] == Flight(w.workers[x].job, HasAll(ReadNow(w, x)))))
    && (forall x :: x in w.workers && Actor(step) != Some(x) ==> x in w'.workers && w'.workers[x] == w.workers[x])
  }

  ghost predicate Moves(w: World, w': World, step: Step) {
    JobsMove(w, w', step) && MakersMove(w, w', step) && WorkersMove(w, w', step)
  }

  /** The worker a step belongs to. */
  function Actor(step: Step): Option<Id> {
    if step.Claim? || step.ReadDocument? || step.ReadUploads? || step.Register? || step.Attach? || step.BeginCheck?
       || step.FinishCheck? || step.FinishJob? || step.FailJob? || step.Vanish?
    then Some(step.worker) else None
  }

  /** The worker is about to read its draft's uploads. */
  predicate ReadsUploads(w: World, x: Id) {
    && x in w.workers && w.workers[x].phase.HasDoc? && w.workers[x].job in w.jobs
    && w.jobs[w.workers[x].job].draft in w.drafts
  }

  /** What it will hold then. */
  function ReadNow(w: World, x: Id): Material
    requires ReadsUploads(w, x)
  {
    Packed(Material(w.workers[x].phase.doc, w.drafts[w.jobs[w.workers[x].job].draft].material.uploads))
  }

  /** Jobs, makers and workers are as they were. */
  ghost predicate Still(w: World, w': World) {
    w'.jobs == w.jobs && w'.maker == w.maker && w'.workers == w.workers
  }

  lemma StillMoves(w: World, w': World, step: Step)
    requires Still(w, w')
    ensures Moves(w, w', step)
  {
  }

  lemma UpdateIsStill(w: World, draft: Id, course: Id, revision: nat, doc: Doc)
    ensures Still(w, UpdateStep(w, draft, course, revision, doc))
  {
  }

  lemma UploadIsStill(w: World, draft: Id, course: Id, revision: nat, role: Role, archive: Id)
    ensures Still(w, UploadStep(w, draft, course, revision, role, archive))
  {
  }

  lemma ImportIsStill(w: World, s: Step)
    requires s.ImportTemplate?
    ensures Still(w, ImportStep(w, s))
  {
  }

  lemma DeleteDraftIsStill(w: World, draft: Id, course: Id, revision: nat)
    ensures Still(w, DeleteDraftStep(w, draft, course, revision))
  {
  }

  lemma CreateIsStill(w: World, s: Step)
    requires s.CreateDraft?
    ensures Still(w, CreateStep(w, s))
  {
    var w' := CreateStep(w, s);
    if w' != w {
      var added := Added(w, s.id, s.course, Material(s.doc, map[]));
      assert Still(w, added) && w' == added.(requests := w'.requests);
    }
  }

  lemma CopyIsStill(w: World, s: Step)
    requires s.CopyRelease?
    ensures Still(w, CopyStep(w, s))
  {
  }

  lemma QueueMoves(w: World, s: Step)
    requires s.QueueCheck?
    ensures Moves(w, QueueStep(w, s), s)
  {
    var w' := QueueStep(w, s);
    if w' == w {
      StillMoves(w, w', s);
    } else {
      assert w'.maker == w.maker && w'.workers == w.workers;
    }
  }

  lemma DraftIsStill(w: World, step: Step)
    requires EditsDrafts(step) && !step.QueueCheck?
    ensures Still(w, DraftNext(w, step))
  {
    match step
    case CreateDraft(_, _, _, _) => CreateIsStill(w, step);
    case UpdateDraft(draft, course, revision, doc) => UpdateIsStill(w, draft, course, revision, doc);
    case Upload(draft, course, revision, role, archive) => UploadIsStill(w, draft, course, revision, role, archive);
    case ImportTemplate(_, _, _, _, _, _) => ImportIsStill(w, step);
    case DeleteDraft(draft, course, revision) => DeleteDraftIsStill(w, draft, course, revision);
    case CopyRelease(_, _, _, _) => CopyIsStill(w, step);
  }

  /** Jobs keep their places, and interrupted ones stay so. */
  ghost predicate JobsFrame(a: map<Id, Job>, b: map<Id, Job>) {
    && (forall k :: k in a <==> k in b)
    && (forall k :: k in a ==> b[k].row == a[k].row && (a[k].status.Interrupted? ==> b[k].status.Interrupted?))
  }

  /** Only worker `x` moves. */
  ghost predicate FlightsFrame(a: map<Id, Flight>, b: map<Id, Flight>, x: Id) {
    forall y :: y != x ==> (y in a <==> y in b) && (y in a ==> b[y] == a[y])
  }

  lemma OneJobMoves(a: map<Id, Job>, j: Id, job: Job)
    requires j in a && job.row == a[j].row && (a[j].status.Interrupted? ==> job.status.Interrupted?)
    ensures JobsFrame(a, a[j := job])
  {
  }

  lemma OneFlightMoves(a: map<Id, Flight>, x: Id, f: Flight)
    ensures FlightsFrame(a, a[x := f], x) && FlightsFrame(a, a - {x}, x)
  {
  }

  lemma ActMoves(w: World, w': World, step: Step, x: Id)
    requires Actor(step) == Some(x) && JobsFrame(w.jobs, w'.jobs) && FlightsFrame(w.workers, w'.workers, x)
    requires MakersMove(w, w', step)
    requires x in w'.workers && w'.workers[x].phase.HasAll? ==>
               || (x in w.workers && w'.workers[x] == w.workers[x])
               || (step == ReadUploads(x) && ReadsUploads(w, x)
                     && w'.workers[x] == Flight(w.workers[x].job, HasAll(ReadNow(w, x))))
    ensures Moves(w, w', step)
  {
  }

  lemma ClaimMoves(w: World, worker: Id, job: Id)
    ensures Moves(w, ClaimStep(w, worker, job), Claim(worker, job))
  {
    var w' := ClaimStep(w, worker, job);
    if w' == w {
      StillMoves(w, w', Claim(worker, job));
    } else {
      OneJobMoves(w.jobs, job, w.jobs[job].(status := Running));
      OneFlightMoves(w.workers, worker, Flight(job, Claimed));
      assert w' == w.(jobs := w.jobs[job := w.jobs[job].(status := Running)],
                      workers := w.workers[worker := Flight(job, Claimed)]);
      ActMoves(w, w', Claim(worker, job), worker);
    }
  }

  /** A step that gives its worker a new phase and touches no job and no maker. */
  lemma PhaseMoves(w: World, w': World, step: Step, x: Id, phase: Phase)
    requires Actor(step) == Some(x) && x in w.workers && w'.jobs == w.jobs && w'.maker == w.maker
    requires w'.workers == w.workers[x := w.workers[x].(phase := phase)] || w'.workers == w.workers
    requires phase.HasAll? ==> step == ReadUploads(x) && ReadsUploads(w, x) && phase == HasAll(ReadNow(w, x))
    ensures Moves(w, w', step)
  {
    OneFlightMoves(w.workers, x, w.workers[x].(phase := phase));
    ActMoves(w, w', step, x);
  }

  lemma ReadDocumentMoves(w: World, worker: Id)
    ensures Moves(w, ReadDocumentStep(w, worker), ReadDocument(worker))
  {
    var w' := ReadDocumentStep(w, worker);
    if w' == w {
      StillMoves(w, w', ReadDocument(worker));
    } else {
      PhaseMoves(w, w', ReadDocument(worker), worker,
          HasDoc(w.drafts[w.jobs[w.workers[worker].job].draft].material.doc));
    }
  }

  lemma ReadUploadsMoves(w: World, worker: Id)
    ensures Moves(w, ReadUploadsStep(w, worker), ReadUploads(worker))
  {
    var w' := ReadUploadsStep(w, worker);
    if w' == w {
      StillMoves(w, w', ReadUploads(worker));
    } else {
      PhaseMoves(w, w', ReadUploads(worker), worker, HasAll(ReadNow(w, worker)));
    }
  }

  lemma RegisterMoves(w: World, worker: Id, a: Id)
    ensures Moves(w, RegisterStep(w, worker, a), Register(worker, a))
  {
    var w' := RegisterStep(w, worker, a);
    if w' == w {
      StillMoves(w, w', Register(worker, a));
    } else {
      var f := w.workers[worker];
      OneFlightMoves(w.workers, worker, f.(phase := Stored(f.phase.material, a)));
      assert w'.workers == w.workers[worker := f.(phase := Stored(f.phase.material, a))] && w'.jobs == w.jobs;
      assert w'.maker == w.maker[a := f.job] && w'.releases[a].content == f.phase.material;
      ActMoves(w, w', Register(worker, a), worker);
    }
  }

  lemma AttachMoves(w: World, worker: Id)
    ensures Moves(w, AttachStep(w, worker), Attach(worker))
  {
    var w' := AttachStep(w, worker);
    if w' == w {
      StillMoves(w, w', Attach(worker));
    } else {
      var f := w.workers[worker];
      var job, f' := w.jobs[f.job].(assignment := Some(f.phase.assignment)),
                     f.(phase := Registered(f.phase.material, f.phase.assignment));
      OneJobMoves(w.jobs, f.job, job);
      OneFlightMoves(w.workers, worker, f');
      assert w' == w.(jobs := w.jobs[f.job := job], workers := w.workers[worker := f']);
      ActMoves(w, w', Attach(worker), worker);
    }
  }

  lemma BeginCheckMoves(w: World, worker: Id)
    ensures Moves(w, BeginCheckStep(w, worker), BeginCheck(worker))
  {
    var w' := BeginCheckStep(w, worker);
    if w' == w {
      StillMoves(w, w', BeginCheck(worker));
    } else {
      PhaseMoves(w, w', BeginCheck(worker), worker, w'.workers[worker].phase);
    }
  }

  lemma FinishCheckMoves(w: World, worker: Id, passed: bool)
    ensures Moves(w, FinishCheckStep(w, worker, passed), FinishCheck(worker, passed))
  {
    var w' := FinishCheckStep(w, worker, passed);
    if w' == w {
      StillMoves(w, w', FinishCheck(worker, passed));
    } else {
      PhaseMoves(w, w', FinishCheck(worker, passed), worker, w'.workers[worker].phase);
    }
  }

  lemma ClosedFrames(w: World, worker: Id, status: JobStatus, a: Option<Id>)
    requires worker in w.workers
    ensures var w' := Closed(w, worker, status, a);
            && JobsFrame(w.jobs, w'.jobs) && FlightsFrame(w.workers, w'.workers, worker)
            && worker !in w'.workers && w'.maker == w.maker
  {
    var w', j := Closed(w, worker, status, a), w.workers[worker].job;
    OneFlightMoves(w.workers, worker, w.workers[worker]);
    assert w'.workers == w.workers - {worker};
    if w'.jobs != w.jobs {
      OneJobMoves(w.jobs, j, w.jobs[j].(status := status, assignment := a));
      assert w'.jobs == w.jobs[j := w.jobs[j].(status := status, assignment := a)];
    }
  }

  lemma ClosedMoves(w: World, worker: Id, status: JobStatus, a: Option<Id>, step: Step)
    requires worker in w.workers && Actor(step) == Some(worker)
    ensures Moves(w, Closed(w, worker, status, a), step)
  {
    ClosedFrames(w, worker, status, a);
    ActMoves(w, Closed(w, worker, status, a), step, worker);
  }

  lemma FinishJobMoves(w: World, worker: Id, stopping: bool)
    ensures Moves(w, FinishJobStep(w, worker, stopping), FinishJob(worker, stopping))
  {
    if worker in w.workers && w.workers[worker].phase.Judged? {
      ClosedMoves(w, worker, if stopping then Interrupted else Succeeded, Some(w.workers[worker].phase.assignment),
                  FinishJob(worker, stopping));
    } else {
      StillMoves(w, w, FinishJob(worker, stopping));
    }
  }

  lemma FailJobMoves(w: World, worker: Id, stopping: bool)
    ensures Moves(w, FailJobStep(w, worker, stopping), FailJob(worker, stopping))
  {
    if worker in w.workers {
      var j := w.workers[worker].job;
      ClosedMoves(w, worker, if stopping then Interrupted else Unsuccessful,
                  if j in w.jobs then w.jobs[j].assignment else None, FailJob(worker, stopping));
    } else {
      StillMoves(w, w, FailJob(worker, stopping));
    }
  }

  lemma VanishMoves(w: World, worker: Id)
    ensures Moves(w, w.(workers := w.workers - {worker}), Vanish(worker))
  {
    if worker in w.workers {
      OneFlightMoves(w.workers, worker, w.workers[worker]);
      ActMoves(w, w.(workers := w.workers - {worker}), Vanish(worker), worker);
    } else {
      assert w.workers - {worker} == w.workers;
      StillMoves(w, w.(workers := w.workers - {worker}), Vanish(worker));
    }
  }

  lemma RestartMoves(w: World)
    ensures Moves(w, RestartStep(w), Restart)
  {
    var w' := RestartStep(w);
    assert w'.maker == w.maker && w'.workers == w.workers;
  }

  lemma ReadingMoves(w: World, step: Step)
    requires step.Claim? || step.ReadDocument? || step.ReadUploads? || step.Register? || step.Attach?
    ensures Moves(w, Next(w, step), step)
  {
    match step
    case Claim(worker, job) => ClaimMoves(w, worker, job);
    case ReadDocument(worker) => ReadDocumentMoves(w, worker);
    case ReadUploads(worker) => ReadUploadsMoves(w, worker);
    case Register(worker, a) => RegisterMoves(w, worker, a);
    case Attach(worker) => AttachMoves(w, worker);
  }

  lemma CheckMoves(w: World, step: Step)
    requires step.BeginCheck? || step.FinishCheck?
    ensures Moves(w, Next(w, step), step)
  {
    match step
    case BeginCheck(worker) => BeginCheckMoves(w, worker);
    case FinishCheck(worker, passed) => FinishCheckMoves(w, worker, passed);
  }

  lemma EndingMoves(w: World, step: Step)
    requires step.FinishJob? || step.FailJob? || step.Vanish? || step.Restart?
    ensures Moves(w, Next(w, step), step)
  {
    match step
    case FinishJob(worker, stopping) => FinishJobMoves(w, worker, stopping);
    case FailJob(worker, stopping) => FailJobMoves(w, worker, stopping);
    case Vanish(worker) => VanishMoves(w, worker);
    case Restart => RestartMoves(w);
  }

  lemma AlteredIsStill(w: World, action: Action, a: Id)
    requires a in w.releases && Altered(w, action, a).Some?
    ensures var w' := Altered(w, action, a).value;
            Still(w, w') && forall b :: b in w.releases ==> b in w'.releases
  {
    if action.Delete? {
      assert Altered(w, action, a).value == w || Altered(w, action, a).value == w.(deletions := w.deletions + {a});
    } else {
      assert Altered(w, action, a).value == Archived(w, a);
    }
  }

  lemma {:induction false} AllAlteredIsStill(w: World, action: Action, ids: seq<Id>)
    requires (forall i :: 0 <= i < |ids| ==> ids[i] in w.releases) && AllAltered(w, action, ids).Some?
    ensures Still(w, AllAltered(w, action, ids).value)
    decreases |ids|
  {
    if ids != [] {
      AlteredIsStill(w, action, ids[0]);
      AllAlteredIsStill(Altered(w, action, ids[0]).value, action, ids[1..]);
    }
  }

  lemma BatchIsStill(w: World, action: Action, course: Id, ids: seq<Id>, confirmed: bool)
    ensures Still(w, BatchStep(w, action, course, ids, confirmed))
  {
    if forall i :: 0 <= i < |ids| ==> Selectable(w, course, action, ids[i]) {
      assert forall i :: 0 <= i < |ids| ==> ids[i] in w.releases;
      if AllAltered(w, action, ids).Some? {
        AllAlteredIsStill(w, action, ids);
      }
    }
  }

  lemma AlterIsStill(w: World, action: Action, a: Id, course: Id)
    ensures Still(w, AlterStep(w, action, a, course))
  {
    if InCourse(w, course, a) && Altered(w, action, a).Some? {
      AlteredIsStill(w, action, a);
    }
  }

  lemma PublishIsStill(w: World, s: Step)
    requires s.Publish?
    ensures Still(w, PublishStep(w, s))
  {
  }

  lemma OutsideCheckIsStill(w: World, a: Id, passed: bool)
    ensures Still(w, OutsideCheckStep(w, a, passed))
  {
  }

  lemma PublishValidatedIsStill(w: World, a: Id, course: Id)
    ensures Still(w, PublishValidatedStep(w, a, course))
  {
  }

  lemma HideIsStill(w: World, a: Id, course: Id, used: bool)
    ensures Still(w, HideStep(w, a, course, used))
  {
  }

  lemma RestoreIsStill(w: World, a: Id, course: Id)
    ensures Still(w, RestoreStep(w, a, course))
  {
  }

  lemma ReleaseIsStill(w: World, step: Step)
    requires !EditsDrafts(step) && !Validates(step)
    ensures Still(w, ReleaseNext(w, step))
  {
    match step
    case OutsideCheck(a, passed) => OutsideCheckIsStill(w, a, passed);
    case Publish(_, _, _, _) => PublishIsStill(w, step);
    case PublishValidated(a, course) => PublishValidatedIsStill(w, a, course);
    case Hide(a, course, used) => HideIsStill(w, a, course, used);
    case Alter(action, a, course) => AlterIsStill(w, action, a, course);
    case Batch(action, course, ids, confirmed) => BatchIsStill(w, action, course, ids, confirmed);
    case Restore(a, course) => RestoreIsStill(w, a, course);
  }

  lemma StepMoves(w: World, step: Step)
    ensures Moves(w, Next(w, step), step)
  {
    if step.QueueCheck? {
      QueueMoves(w, step);
    } else if EditsDrafts(step) {
      DraftIsStill(w, step);
      StillMoves(w, Next(w, step), step);
    } else if Validates(step) {
      if step.Claim? || step.ReadDocument? || step.ReadUploads? || step.Register? || step.Attach? {
        ReadingMoves(w, step);
      } else if step.BeginCheck? || step.FinishCheck? {
        CheckMoves(w, step);
      } else {
        EndingMoves(w, step);
      }
    } else {
      ReleaseIsStill(w, step);
      StillMoves(w, Next(w, step), step);
    }
  }

  // ---------------------------------------------------------------------- row numbers

  /** Row numbers are the database's, which gives none twice. */
  ghost predicate UniqueRows(jobs: map<Id, Job>) {
    forall j, k :: j in jobs && k in jobs && jobs[j].row == jobs[k].row ==> j == k
  }

  ghost predicate RowsOk(jobs: map<Id, Job>) {
    UniqueRows(jobs) && forall j :: j in jobs ==> jobs[j].row < |jobs|
  }

  lemma RowsSame(a: map<Id, Job>, b: map<Id, Job>)
    requires RowsOk(a) && forall j :: j in a ==> j in b && b[j].row == a[j].row
    requires forall j :: j in b ==> j in a
    ensures RowsOk(b)
  {
    assert b.Keys == a.Keys;
    assert |b| == |b.Keys| == |a.Keys| == |a|;
  }

  lemma RowsGrow(a: map<Id, Job>, b: map<Id, Job>, id: Id)
    requires RowsOk(a) && forall j :: j in a ==> j in b && b[j].row == a[j].row
    requires id !in a && id in b && b[id].row == |a| && forall j :: j in b ==> j in a || j == id
    ensures RowsOk(b)
  {
    assert b.Keys == a.Keys + {id};
    assert |b| == |b.Keys| == |a.Keys| + 1 == |a| + 1;
    forall j, k | j in b && k in b && b[j].row == b[k].row ensures j == k {
      assert j == id || (j in a && b[j].row == a[j].row < |a|);
      assert k == id || (k in a && b[k].row == a[k].row < |a|);
    }
  }

  lemma RowsStep(w: World, step: Step)
    requires RowsOk(w.jobs)
    ensures RowsOk(Next(w, step).jobs)
  {
    StepMoves(w, step);
    var w' := Next(w, step);
    if forall j :: j in w'.jobs ==> j in w.jobs {
      RowsSame(w.jobs, w'.jobs);
    } else {
      RowsGrow(w.jobs, w'.jobs, step.job);
    }
  }

  lemma {:induction false} RowsRun(w: World, steps: seq<Step>)
    requires RowsOk(w.jobs)
    ensures RowsOk(Run(w, steps).jobs)
    decreases |steps|
  {
    if steps != [] {
      RowsStep(w, steps[0]);
      RowsRun(Next(w, steps[0]), steps[1..]);
    }
  }

  lemma RowsAreUnique(steps: seq<Step>)
    ensures UniqueRows(Run(EMPTY, steps).jobs)
  {
    RowsRun(EMPTY, steps);
  }

  // ------------------------------------------------------------ what releases are made of

  /** The material a job was queued for. */
  ghost function Errand(w: World, j: Id): Material
    requires j in w.jobs && HasRevision(w, w.jobs[j].draft, w.jobs[j].revision)
  {
    w.hist[w.jobs[j].draft][w.jobs[j].revision - 1]
  }

  /** The document of the job's revision with the uploads of revision `q`, the same or a later one. */
  ghost predicate MadeAt(w: World, j: Id, m: Material, q: nat) {
    && j in w.jobs && HasRevision(w, w.jobs[j].draft, w.jobs[j].revision)
    && w.jobs[j].revision <= q <= |w.hist[w.jobs[j].draft]|
    && m == Packed(Material(Errand(w, j).doc, w.hist[w.jobs[j].draft][q - 1].uploads))
  }

  ghost predicate MadeFrom(w: World, j: Id, m: Material) {
    exists q: nat :: MadeAt(w, j, m, q)
  }

  ghost predicate MakerOk(w: World, a: Id) {
    && a in w.maker && a in w.releases && MadeFrom(w, w.maker[a], w.releases[a].content)
    && (!w.jobs[w.maker[a]].status.Interrupted? ==> w.releases[a].content == Packed(Errand(w, w.maker[a])))
  }

  ghost predicate HolderOk(w: World, x: Id) {
    x in w.workers && (w.workers[x].phase.HasAll? ==> MadeFrom(w, w.workers[x].job, w.workers[x].phase.material))
  }

  ghost predicate InvMade(w: World) {
    && (forall a {:trigger MakerOk(w, a)} :: a in w.maker ==> MakerOk(w, a))
    && (forall x {:trigger HolderOk(w, x)} :: x in w.workers ==> HolderOk(w, x))
  }

  lemma MadeStays(w: World, w': World, j: Id, m: Material)
    requires Extends(w, w') && MadeFrom(w, j, m)
    ensures MadeFrom(w', j, m) && Errand(w', j) == Errand(w, j)
  {
    var q: nat :| MadeAt(w, j, m, q);
    RevisionStays(w, w', w.jobs[j].draft, w.jobs[j].revision);
    RevisionStays(w, w', w.jobs[j].draft, q);
    assert MadeAt(w', j, m, q);
  }

  /** What a worker reads is its job's document, as it was, with the uploads as they are. */
  lemma ReadIsMade(w: World, x: Id)
    requires Inv(w) && ReadsUploads(w, x)
    ensures MadeFrom(w, w.workers[x].job, ReadNow(w, x))
  {
    var job := w.jobs[w.workers[x].job];
    assert WorkerOk(w, x) && DraftOk(w, job.draft);
    assert MadeAt(w, w.workers[x].job, ReadNow(w, x), w.drafts[job.draft].revision);
  }

  lemma MakerStep(w: World, w': World, step: Step, a: Id)
    requires Inv(w) && InvMade(w) && Extends(w, w') && JobsMove(w, w', step) && MakersMove(w, w', step) && a in w'.maker
    ensures MakerOk(w', a)
  {
    if a in w.maker {
      assert MakerOk(w, a);
      MadeStays(w, w', w.maker[a], w.releases[a].content);
    } else {
      assert HolderOk(w, step.worker) && WorkerOk(w, step.worker);
      MadeStays(w, w', w.workers[step.worker].job, w.workers[step.worker].phase.material);
    }
  }

  lemma HolderStep(w: World, w': World, step: Step, x: Id)
    requires Inv(w) && InvMade(w) && Extends(w, w') && WorkersMove(w, w', step) && x in w'.workers
    ensures HolderOk(w', x)
  {
    if w'.workers[x].phase.HasAll? {
      if x in w.workers && w'.workers[x] == w.workers[x] {
        assert HolderOk(w, x);
        MadeStays(w, w', w.workers[x].job, w.workers[x].phase.material);
      } else {
        ReadIsMade(w, x);
        MadeStays(w, w', w.workers[x].job, ReadNow(w, x));
      }
    }
  }

  lemma MadeStep(w: World, step: Step)
    requires Inv(w) && InvMade(w)
    ensures InvMade(Next(w, step))
  {
    var w' := Next(w, step);
    StepKeeps(w, step);
    StepMoves(w, step);
    forall a | a in w'.maker ensures MakerOk(w', a) {
      MakerStep(w, w', step, a);
    }
    forall x | x in w'.workers ensures HolderOk(w', x) {
      HolderStep(w, w', step, x);
    }
  }

  lemma {:induction false} MadeRun(w: World, steps: seq<Step>)
    requires Inv(w) && InvMade(w)
    ensures Inv(Run(w, steps)) && InvMade(Run(w, steps))
    decreases |steps|
  {
    if steps != [] {
      StepKeeps(w, steps[0]);
      MadeStep(w, steps[0]);
      MadeRun(Next(w, steps[0]), steps[1..]);
    }
  }

  lemma MadeIff(w: World, j: Id, m: Material)
    requires MadeFrom(w, j, m)
    ensures m == Packed(Errand(w, j)) <==> m.doc.mode.Template? || m.uploads == Errand(w, j).uploads
    ensures m.doc == Errand(w, j).doc
  {
  }

  /** In every run, a release a worker registered is the document of its job's revision with the
      uploads of that revision or a later one: that revision itself exactly if the document is a
      template or the uploads agree, and always unless the job was interrupted.  The job's status
      can be looked up before the release is shown. */
  lemma ReleaseIsJobRevisionIff(steps: seq<Step>, a: Id)
    requires a in Run(EMPTY, steps).maker
    ensures var w := Run(EMPTY, steps);
            var j := w.maker[a];
            && a in w.releases && MadeFrom(w, j, w.releases[a].content)
            && (w.releases[a].content == Packed(Errand(w, j))
                <==> w.releases[a].content.doc.mode.Template? || w.releases[a].content.uploads == Errand(w, j).uploads)
            && (!w.jobs[j].status.Interrupted? ==> w.releases[a].content == Packed(Errand(w, j)))
  {
    EmptyIsFine();
    MadeRun(EMPTY, steps);
    var w := Run(EMPTY, steps);
    assert MakerOk(w, a);
    MadeIff(w, w.maker[a], w.releases[a].content);
  }

  // ----------------------------------------------------------- decided by the second read

  /** At the second read: the worker ends up with its job's revision exactly if the document is a
      template or the draft's uploads are those of that revision. */
  lemma SecondReadIff(w: World, x: Id)
    requires Inv(w) && ReadsUploads(w, x)
    ensures var j := w.workers[x].job;
            && HasRevision(w, w.jobs[j].draft, w.jobs[j].revision)
            && Next(w, ReadUploads(x)).workers[x] == Flight(j, HasAll(ReadNow(w, x)))
            && (ReadNow(w, x) == Packed(Errand(w, j))
                <==> w.workers[x].phase.doc.mode.Template?
                     || w.drafts[w.jobs[j].draft].material.uploads == Errand(w, j).uploads)
  {
    ReadIsMade(w, x);
    assert WorkerOk(w, x);
  }

  predicate NotBy(steps: seq<Step>, x: Id) {
    forall i :: 0 <= i < |steps| ==> Actor(steps[i]) != Some(x)
  }

  lemma OthersLeave(w: World, step: Step, x: Id)
    requires x in w.workers && Actor(step) != Some(x)
    ensures x in Next(w, step).workers && Next(w, step).workers[x] == w.workers[x]
  {
    StepMoves(w, step);
  }

  lemma {:induction false} OthersLeaveInRun(w: World, steps: seq<Step>, x: Id)
    requires Inv(w) && x in w.workers && NotBy(steps, x)
    ensures Inv(Run(w, steps)) && Extends(w, Run(w, steps)) && x in Run(w, steps).workers
    ensures Run(w, steps).workers[x] == w.workers[x]
    decreases |steps|
  {
    RunKeeps(w, steps);
    if steps != [] {
      OthersLeave(w, steps[0], x);
      StepKeeps(w, steps[0]);
      OthersLeaveInRun(Next(w, steps[0]), steps[1..], x);
    }
  }

  /** And so for the release it registers, whatever happens before and after: what is known at the
      second read decides for ever whether the release is its job's revision. */
  lemma ReleaseIsDecidedAtSecondRead(before: seq<Step>, mid: seq<Step>, after: seq<Step>, x: Id, a: Id)
    requires ReadsUploads(Run(EMPTY, before), x) && NotBy(mid, x)
    requires var w2 := Run(Next(Run(EMPTY, before), ReadUploads(x)), mid);
             a !in w2.releases && a in Next(w2, Register(x, a)).releases
    ensures var w := Run(EMPTY, before);
            var end := Run(Next(Run(Next(w, ReadUploads(x)), mid), Register(x, a)), after);
            var j := w.workers[x].job;
            && HasRevision(w, w.jobs[j].draft, w.jobs[j].revision) && a in end.releases
            && (end.releases[a].content == Packed(Errand(w, j))
                <==> w.workers[x].phase.doc.mode.Template?
                     || w.drafts[w.jobs[j].draft].material.uploads == Errand(w, j).uploads)
  {
    EmptyIsFine();
    RunKeeps(EMPTY, before);
    var w := Run(EMPTY, before);
    SecondReadIff(w, x);
    HeldUntilRegistered(w, mid, x);
    RegisteredForEver(Run(Next(w, ReadUploads(x)), mid), after, x, a);
  }

  /** What the draft was at one of its revisions, packed. */
  ghost predicate RevisionAt(w: World, d: Id, m: Material, q: nat) {
    d in w.hist && q < |w.hist[d]| && m == Packed(w.hist[d][q])
  }

  ghost predicate IsSomeRevision(w: World, d: Id, m: Material) {
    exists q: nat :: RevisionAt(w, d, m, q)
  }

  /** At the second read the worker ends up with what the draft holds then exactly if the draft
      still has the document of the first read; so if it has, whatever was uploaded meanwhile, the
      release it registers is a revision of the draft for ever, its job's or a later one. */
  lemma ReleaseIsSomeRevision(before: seq<Step>, mid: seq<Step>, after: seq<Step>, x: Id, a: Id)
    requires ReadsUploads(Run(EMPTY, before), x) && NotBy(mid, x)
    requires var w2 := Run(Next(Run(EMPTY, before), ReadUploads(x)), mid);
             a !in w2.releases && a in Next(w2, Register(x, a)).releases
    ensures var w := Run(EMPTY, before);
            var end := Run(Next(Run(Next(w, ReadUploads(x)), mid), Register(x, a)), after);
            var d := w.jobs[w.workers[x].job].draft;
            && a in end.releases
            && (end.releases[a].content == Packed(w.drafts[d].material)
                <==> w.drafts[d].material.doc == w.workers[x].phase.doc)
            && (w.drafts[d].material.doc == w.workers[x].phase.doc
                ==> IsSomeRevision(end, d, end.releases[a].content))
  {
    EmptyIsFine();
    RunKeeps(EMPTY, before);
    var w := Run(EMPTY, before);
    HeldUntilRegistered(w, mid, x);
    RegisteredForEver(Run(Next(w, ReadUploads(x)), mid), after, x, a);
    TwoRuns(w, ReadUploads(x), mid, Register(x, a), after);
    assert DraftOk(w, w.jobs[w.workers[x].job].draft);
    MaterialStays(w, Run(Next(Run(Next(w, ReadUploads(x)), mid), Register(x, a)), after),
                  w.jobs[w.workers[x].job].draft);
  }

  /** What a draft holds stays in its history. */
  lemma MaterialStays(w: World, w': World, d: Id)
    requires DraftOk(w, d) && Extends(w, w')
    ensures IsSomeRevision(w', d, Packed(w.drafts[d].material))
  {
    RevisionStays(w, w', d, w.drafts[d].revision);
    assert RevisionAt(w', d, Packed(w.drafts[d].material), w.drafts[d].revision - 1);
  }

  lemma StepThenRun(w: World, step: Step, steps: seq<Step>)
    requires Inv(w)
    ensures Inv(Run(Next(w, step), steps)) && Extends(w, Run(Next(w, step), steps))
  {
    StepKeeps(w, step);
    RunKeeps(Next(w, step), steps);
    ExtendsOn(w, Next(w, step), Run(Next(w, step), steps));
  }

  lemma TwoRuns(w: World, first: Step, mid: seq<Step>, second: Step, after: seq<Step>)
    requires Inv(w)
    ensures Extends(w, Run(Next(Run(Next(w, first), mid), second), after))
  {
    var w2 := Run(Next(w, first), mid);
    StepThenRun(w, first, mid);
    StepThenRun(w2, second, after);
    ExtendsOn(w, w2, Run(Next(w2, second), after));
  }

  lemma HeldUntilRegistered(w: World, mid: seq<Step>, x: Id)
    requires Inv(w) && ReadsUploads(w, x) && NotBy(mid, x)
    ensures var w2 := Run(Next(w, ReadUploads(x)), mid);
            Inv(w2) && x in w2.workers && w2.workers[x] == Flight(w.workers[x].job, HasAll(ReadNow(w, x)))
  {
    SecondReadIff(w, x);
    StepKeeps(w, ReadUploads(x));
    OthersLeaveInRun(Next(w, ReadUploads(x)), mid, x);
  }

  lemma RegisteredForEver(w: World, after: seq<Step>, x: Id, a: Id)
    requires Inv(w) && x in w.workers && w.workers[x].phase.HasAll? && a !in w.releases
    requires a in Next(w, Register(x, a)).releases
    ensures var end := Run(Next(w, Register(x, a)), after);
            a in end.releases && end.releases[a].content == w.workers[x].phase.material
  {
    var w' := Next(w, Register(x, a));
    assert w' == RegisterStep(w, x, a);
    StepKeeps(w, Register(x, a));
    RunKeeps(w', after);
  }

  // ------------------------------------------------ what a left-over worker can leave behind

  const DOC_A := Doc(Direct, 0, 1, 100)
  const DOC_B := Doc(Direct, 0, 1, 200)
  const REVISIONS: seq<Material> := [Material(DOC_A, map[]), Material(DOC_A, map[Starter := 10]),
                                     Material(DOC_B, map[Starter := 10]), Material(DOC_B, map[Starter := 20])]
  const MIXED := Material(DOC_A, map[Starter := 20])

  ghost predicate Reaches(w: World, w': World) {
    exists steps :: Run(w, steps) == w'
  }

  lemma ReachNext(w: World, w': World, step: Step)
    requires Reaches(w, w')
    ensures Reaches(w, Next(w', step))
  {
    var steps :| Run(w, steps) == w';
    RunConcat(w, steps, [step]);
    assert [step][1..] == [];
    assert Run(w, steps + [step]) == Next(w', step);
  }

  lemma {:induction false} RunConcat(w: World, a: seq<Step>, b: seq<Step>)
    ensures Run(w, a + b) == Run(Run(w, a), b)
    decreases |a|
  {
    if a == [] {
      assert a + b == b;
    } else {
      assert (a + b)[1..] == a[1..] + b;
      RunConcat(Next(w, a[0]), a[1..], b);
    }
  }

  /** One draft at revision `n`, a job asked for at revision 2 and a worker. */
  function Scene(n: nat, jobs: map<Id, Job>, workers: map<Id, Flight>): World
    requires 1 <= n <= 4
  {
    EMPTY.(drafts := map[1 := Draft(1, n, REVISIONS[n - 1], None, false)], jobs := jobs, workers := workers,
        hist := map[1 := REVISIONS[..n]])
  }

  function TheJob(status: JobStatus): map<Id, Job> { map[1 := Job(1, 1, 2, status, None, 0)] }

  function TheWorker(phase: Phase): map<Id, Flight> { map[1 := Flight(1, phase)] }

  lemma SceneCreated()
    ensures Next(EMPTY, CreateDraft(1, 1, None, DOC_A)) == Scene(1, map[], map[])
  {
    assert Live(EMPTY) == {} && LiveIn(EMPTY, 1) == {};
    assert REVISIONS[..1] == [REVISIONS[0]];
  }

  lemma SceneUploaded()
    ensures Next(Scene(1, map[], map[]), Upload(1, 1, 1, Starter, 10)) == Scene(2, map[], map[])
  {
    assert REVISIONS[..2] == REVISIONS[..1] + [REVISIONS[1]];
    assert Edited(Scene(1, map[], map[]), 1, REVISIONS[1]) == Scene(2, map[], map[]);
  }

  lemma SceneQueued()
    ensures Next(Scene(2, map[], map[]), QueueCheck(1, 1, 1, 2, true)) == Scene(2, TheJob(Queued), map[])
  {
    assert QueuedJobs(Scene(2, map[], map[])) == {} && JobsOf(Scene(2, map[], map[]), 1) == {};
  }

  lemma SceneClaimed()
    ensures Next(Scene(2, TheJob(Queued), map[]), Claim(1, 1)) == Scene(2, TheJob(Running), TheWorker(Claimed))
  {
  }

  lemma SceneRead()
    ensures Next(Scene(2, TheJob(Running), TheWorker(Claimed)), ReadDocument(1))
            == Scene(2, TheJob(Running), TheWorker(HasDoc(DOC_A)))
  {
  }

  lemma SceneRestarted()
    ensures Next(Scene(2, TheJob(Running), TheWorker(HasDoc(DOC_A))), Restart)
            == Scene(2, TheJob(Interrupted), TheWorker(HasDoc(DOC_A)))
  {
    var w := Scene(2, TheJob(Running), TheWorker(HasDoc(DOC_A)));
    assert RestartStep(w).jobs == TheJob(Interrupted);
    assert RestartStep(w).checks == map[];
  }

  lemma SceneUpdated()
    ensures Next(Scene(2, TheJob(Interrupted), TheWorker(HasDoc(DOC_A))), UpdateDraft(1, 1, 2, DOC_B))
            == Scene(3, TheJob(Interrupted), TheWorker(HasDoc(DOC_A)))
  {
    assert REVISIONS[..3] == REVISIONS[..2] + [REVISIONS[2]];
    assert Edited(Scene(2, TheJob(Interrupted), TheWorker(HasDoc(DOC_A))), 1, REVISIONS[2])
           == Scene(3, TheJob(Interrupted), TheWorker(HasDoc(DOC_A)));
  }

  lemma SceneReplaced()
    ensures Next(Scene(3, TheJob(Interrupted), TheWorker(HasDoc(DOC_A))), Upload(1, 1, 3, Starter, 20))
            == Scene(4, TheJob(Interrupted), TheWorker(HasDoc(DOC_A)))
  {
    assert REVISIONS[..4] == REVISIONS[..3] + [REVISIONS[3]];
    assert REVISIONS[2].uploads[Starter := 20] == REVISIONS[3].uploads;
    assert Edited(Scene(3, TheJob(Interrupted), TheWorker(HasDoc(DOC_A))), 1, REVISIONS[3])
           == Scene(4, TheJob(Interrupted), TheWorker(HasDoc(DOC_A)));
  }

  lemma SceneMixed()
    ensures Next(Scene(4, TheJob(Interrupted), TheWorker(HasDoc(DOC_A))), ReadUploads(1))
            == Scene(4, TheJob(Interrupted), TheWorker(HasAll(MIXED)))
  {
  }

  /** The mixed release, registered as number 7. */
  function Shelved(phase: Phase, checks: seq<Check>, ready: bool): World {
    Scene(4, map[1 := Job(1, 1, 2, Interrupted, if phase.Stored? then None else Some(7), 0)], TheWorker(phase))
      .(releases := map[7 := Release(1, 1, true, ready, MIXED)], checks := map[7 := checks], maker := map[7 := 1])
  }

  lemma SceneRegistered()
    ensures Next(Scene(4, TheJob(Interrupted), TheWorker(HasAll(MIXED))), Register(1, 7))
            == Shelved(Stored(MIXED, 7), [], false)
  {
  }

  lemma SceneAttached()
    ensures Next(Shelved(Stored(MIXED, 7), [], false), Attach(1)) == Shelved(Registered(MIXED, 7), [], false)
  {
  }

  lemma SceneChecking()
    ensures Next(Shelved(Registered(MIXED, 7), [], false), BeginCheck(1))
            == Shelved(Checking(MIXED, 7, 0), [Check(CheckStatus.Pending, Some(MIXED))], false)
  {
    var w := Shelved(Registered(MIXED, 7), [], false);
    var begun := [] + [Check(CheckStatus.Pending, Some(MIXED))];
    assert begun == [Check(CheckStatus.Pending, Some(MIXED))];
    assert BeginCheckStep(w, 1) == w.(checks := w.checks[7 := begun],
        workers := w.workers[1 := Flight(1, Checking(MIXED, 7, 0))]);
  }

  lemma SceneJudged()
    ensures Next(Shelved(Checking(MIXED, 7, 0), [Check(CheckStatus.Pending, Some(MIXED))], false), FinishCheck(1, true))
            == Shelved(Judged(MIXED, 7), [Check(Passed, Some(MIXED))], false)
  {
    assert [Check(CheckStatus.Pending, Some(MIXED))][0 := Check(Passed, Some(MIXED))] == [Check(Passed, Some(MIXED))];
  }

  lemma SceneShown()
    ensures Next(Shelved(Judged(MIXED, 7), [Check(Passed, Some(MIXED))], false), PublishValidated(7, 1))
            == Shelved(Judged(MIXED, 7), [Check(Passed, Some(MIXED))], true)
  {
  }

  lemma NotARevision(i: nat)
    requires i < 4
    ensures REVISIONS[..4][i] == REVISIONS[i] && MIXED != Packed(REVISIONS[i])
  {
    assert REVISIONS[i].doc == DOC_A ==> Starter !in REVISIONS[i].uploads || REVISIONS[i].uploads[Starter] == 10;
    assert MIXED.uploads[Starter] == 20;
  }

  lemma SceneIsReached()
    ensures Reaches(EMPTY, Shelved(Judged(MIXED, 7), [Check(Passed, Some(MIXED))], true))
  {
    assert Run(EMPTY, []) == EMPTY;
    SceneCreated(); SceneUploaded(); SceneQueued(); SceneClaimed(); SceneRead(); SceneRestarted(); SceneUpdated();
    SceneReplaced(); SceneMixed(); SceneRegistered(); SceneAttached(); SceneChecking(); SceneJudged(); SceneShown();
    ReachNext(EMPTY, EMPTY, CreateDraft(1, 1, None, DOC_A));
    ReachNext(EMPTY, Scene(1, map[], map[]), Upload(1, 1, 1, Starter, 10));
    ReachNext(EMPTY, Scene(2, map[], map[]), QueueCheck(1, 1, 1, 2, true));
    ReachNext(EMPTY, Scene(2, TheJob(Queued), map[]), Claim(1, 1));
    ReachNext(EMPTY, Scene(2, TheJob(Running), TheWorker(Claimed)), ReadDocument(1));
    ReachNext(EMPTY, Scene(2, TheJob(Running), TheWorker(HasDoc(DOC_A))), Restart);
    ReachNext(EMPTY, Scene(2, TheJob(Interrupted), TheWorker(HasDoc(DOC_A))), UpdateDraft(1, 1, 2, DOC_B));
    ReachNext(EMPTY, Scene(3, TheJob(Interrupted), TheWorker(HasDoc(DOC_A))), Upload(1, 1, 3, Starter, 20));
    ReachNext(EMPTY, Scene(4, TheJob(Interrupted), TheWorker(HasDoc(DOC_A))), ReadUploads(1));
    ReachNext(EMPTY, Scene(4, TheJob(Interrupted), TheWorker(HasAll(MIXED))), Register(1, 7));
    ReachNext(EMPTY, Shelved(Stored(MIXED, 7), [], false), Attach(1));
    ReachNext(EMPTY, Shelved(Registered(MIXED, 7), [], false), BeginCheck(1));
    ReachNext(EMPTY, Shelved(Checking(MIXED, 7, 0), [Check(CheckStatus.Pending, Some(MIXED))], false),
        FinishCheck(1, true));
    ReachNext(EMPTY, Shelved(Judged(MIXED, 7), [Check(Passed, Some(MIXED))], false), PublishValidated(7, 1));
  }

  /** A worker that outlives a restart can register, and pass the check of, a release mixed from
      two revisions.  No draft is ever published as it, but the command line may show it. */
  lemma LeftOverWorkerMixesRevisions()
    ensures exists w :: Reaches(EMPTY, w) && 7 in w.releases && Shown(w.releases[7])
              && forall d, i: nat :: d in w.hist && i < |w.hist[d]| ==> w.releases[7].content != Packed(w.hist[d][i])
  {
    SceneIsReached();
    var w := Shelved(Judged(MIXED, 7), [Check(Passed, Some(MIXED))], true);
    forall d, i: nat | d in w.hist && i < |w.hist[d]| ensures w.releases[7].content != Packed(w.hist[d][i]) {
      NotARevision(i);
    }
    assert Reaches(EMPTY, w);
  }
}
