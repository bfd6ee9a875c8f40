/** Immutable, idempotent publication of teaching content with optimistic concurrency:
    the database rows, the private Git refs and the publish lock of one course. */
module ContentStore {
  import opened Common
  import opened ContentContract

  type Id = nat  // opaque identifiers, numbered

  datatype Draft = Draft(title: string, instructions: string, note: string, opensAt: int, closesAt: Option<int>,
                         students: Option<seq<nat>>, files: seq<File>)
  datatype Status = Drafted | Published | Withdrawn
  datatype Collection = Collection(draft: Draft, revision: nat, generation: nat, current: Option<Id>, status: Status)

  /** Git objects stand for their own ids: equal contents, equal id. */
  datatype GitTree = GitTree(collection: Id, title: string, instructions: string, note: string, files: seq<File>)
  datatype Commit = Commit(tree: GitTree, parent: Option<Commit>, release: Id, date: int)

  datatype Release = Release(collection: Id, generation: nat, policyRevision: nat, sourceRevision: nat, draft: Draft,
                             commit: Commit, actor: Id, publishedAt: int)
  datatype JobState = Preparing | Done | Failed
  datatype Job = Job(revision: nat, actor: Id, release: Id, state: JobState, createdAt: int)

  type JobKey = (Id, Id)  // collection, idempotency key
  datatype Db = Db(collections: map<Id, Collection>, releases: map<Id, Release>, jobs: map<JobKey, Job>)

  /** A publish call between its transactions, holding the course's publish lock. */
  datatype Phase = Claimed | Prepared(commit: Commit) | Finished
  datatype Flight = Flight(job: JobKey, revision: nat, actor: Id, snapshot: Collection, release: Id, createdAt: int,
                           phase: Phase)

  /** History variables: the draft and generation at every revision of a collection, its
      releases in order of generation, and the job every release id was drawn for. */
  datatype Version = Version(draft: Draft, generation: nat)
  datatype CourseStatus = Preparation | Active | Archived
  datatype World = World(course: CourseStatus, db: Db, refs: map<Id, Commit>, flight: Option<Flight>,
                         hist: map<Id, seq<Version>>, line: map<Id, seq<Id>>, owner: map<Id, JobKey>)

  const EMPTY := World(Preparation, Db(map[], map[], map[]), map[], None, map[], map[], map[])

  /** `allowed`: every named student is active and enrolled at that moment. */
  datatype Step =
    | SetCourse(status: CourseStatus)
    | Create(collection: Id, draft: Draft, allowed: bool)
    | Update(collection: Id, revision: nat, draft: Draft, allowed: bool)
    | Upload(collection: Id, revision: nat, file: File)
    | Remove(collection: Id, revision: nat, path: string)
    | Withdraw(collection: Id, revision: nat)
    | Begin(collection: Id, revision: nat, key: Id, actor: Id, drawn: Id, now: int, allowed: bool)
    | Prepare(latest: Option<Id>)
    | Finish(now: int, allowed: bool)
    | Fail
    | Leave

  datatype Reply = Accepted | Denied | Conflict | Invalid | NotFound | Corrupt | Replayed(release: Id)

  function TreeOf(c: Id, d: Draft): GitTree {
    GitTree(c, d.title, d.instructions, d.note, d.files)
  }

  function Without(files: seq<File>, path: string): seq<File> {
    if files == [] then []
    else (if files[0].path == path then [] else [files[0]]) + Without(files[1..], path)
  }

  predicate HasPath(files: seq<File>, path: string) {
    exists i :: 0 <= i < |files| && files[i].path == path
  }

  /** A new collection: revision 1, no files, nothing published. */
  function Created(w: World, c: Id, draft: Draft): World {
    w.(db := w.db.(collections := w.db.collections[c := Collection(draft, 1, 0, None, Drafted)]),
       hist := w.hist[c := [Version(draft, 0)]], line := w.line[c := []])
  }

  /** Every edit writes the draft and raises the revision by one. */
  function Edited(w: World, c: Id, draft: Draft): World
    requires c in w.db.collections && c in w.hist
  {
    var row := w.db.collections[c];
    var row' := row.(draft := draft, revision := row.revision + 1);
    w.(db := w.db.(collections := w.db.collections[c := row']),
       hist := w.hist[c := w.hist[c] + [Version(draft, row.generation)]])
  }

  function EditStep(accepts: seq<File> -> bool, w: World, c: Id, revision: nat, step: Step): (World, Reply)
    requires step.Update? || step.Upload? || step.Remove?
  {
    if w.course.Archived? then (w, Denied)
    else if c !in w.db.collections || c !in w.hist then (w, NotFound)
    else if w.db.collections[c].revision != revision then (w, Conflict)
    else
      var draft := w.db.collections[c].draft;
      match step
      case Update(_, _, fields, allowed) =>
        if !allowed then (w, Denied) else (Edited(w, c, fields.(files := draft.files)), Accepted)
      case Upload(_, _, file) =>
        var files := Without(draft.files, file.path) + [file];
        if !accepts(files) then (w, Invalid) else (Edited(w, c, draft.(files := files)), Accepted)
      case Remove(_, _, path) =>
        if !HasPath(draft.files, path) then (w, NotFound)
        else (Edited(w, c, draft.(files := Without(draft.files, path))), Accepted)
  }

  function WithdrawStep(w: World, c: Id, revision: nat): (World, Reply) {
    if !w.course.Active? then (w, Denied)
    else if c !in w.db.collections || c !in w.hist then (w, NotFound)
    else
      var row := w.db.collections[c];
      if row.revision != revision || row.current.None? then (w, Conflict)
      else
        var row' := row.(current := None, status := Withdrawn, revision := row.revision + 1);
        (w.(db := w.db.(collections := w.db.collections[c := row']),
            hist := w.hist[c := w.hist[c] + [Version(row.draft, row.generation)]]), Accepted)
  }

  /** The lock and the first transaction of a publish call.  Whether the course is open is asked
      before the job is looked up: not even a replay gets past a closed course. */
  function BeginStep(accepts: seq<File> -> bool, w: World, s: Step): (World, Reply)
    requires s.Begin?
  {
    var jk := (s.collection, s.key);
    var prior := if jk in w.db.jobs then Some(w.db.jobs[jk]) else None;
    if w.flight.Some? then (w, Conflict)
    else if !w.course.Active? then (w, Denied)
    else if s.collection !in w.db.collections then (w, NotFound)
    else if prior.Some? && (prior.value.revision != s.revision || prior.value.actor != s.actor) then (w, Conflict)
    else if prior.Some? && prior.value.state.Done? then (w, Replayed(prior.value.release))
    else
      var row := w.db.collections[s.collection];
      if row.revision != s.revision then (w, Conflict)
      else if row.draft.files == [] || row.draft.opensAt > s.now then (w, Invalid)
      else if row.draft.closesAt.Some? && row.draft.closesAt.value <= s.now then (w, Invalid)
      else if !s.allowed then (w, Denied)
      else if !accepts(row.draft.files) || (prior.None? && s.drawn in w.owner) then (w, Invalid)
      else
        var job := if prior.Some? then prior.value.(state := Preparing)
                   else Job(s.revision, s.actor, s.drawn, Preparing, s.now);
        (w.(db := w.db.(jobs := w.db.jobs[jk := job]),
            owner := w.owner[job.release := jk],
            flight := Some(Flight(jk, s.revision, s.actor, row, job.release, job.createdAt, Claimed))), Accepted)
  }

  /** `latest` is the collection's release of the greatest generation, if it has any. */
  predicate IsLatest(db: Db, c: Id, latest: Option<Id>) {
    match latest
    case None => forall r :: r in db.releases ==> db.releases[r].collection != c
    case Some(l) =>
      && l in db.releases && db.releases[l].collection == c
      && forall r :: r in db.releases && db.releases[r].collection == c ==>
           db.releases[r].generation <= db.releases[l].generation
  }

  /** `_prepare_git`, outside any transaction; the parent is read from the database then. */
  function PrepareStep(w: World, latest: Option<Id>): (World, Reply) {
    if w.flight.None? || !w.flight.value.phase.Claimed? then (w, Invalid)
    else
      var f := w.flight.value;
      if f.snapshot.generation > 0 && (latest.None? || latest.value !in w.db.releases) then (w, Corrupt)
      else
        var parent := if f.snapshot.generation == 0 then None else Some(w.db.releases[latest.value].commit);
        var commit := Commit(TreeOf(f.job.0, f.snapshot.draft), parent, f.release, f.createdAt);
        if f.release in w.refs && w.refs[f.release] != commit then (w, Corrupt)
        else (w.(refs := w.refs[f.release := commit], flight := Some(f.(phase := Prepared(commit)))), Accepted)
  }

  /** The second transaction of a publish call. */
  function FinishStep(w: World, now: int, allowed: bool): (World, Reply) {
    if w.flight.None? || !w.flight.value.phase.Prepared? then (w, Invalid)
    else
      var f := w.flight.value;
      var c := f.job.0;
      if !w.course.Active? then (w, Denied)
      else if c !in w.db.collections || c !in w.hist || c !in w.line || f.job !in w.db.jobs then (w, NotFound)
      else
        var row := w.db.collections[c];
        if row.revision != f.revision then (w, Conflict)
        else if !allowed then (w, Denied)
        else if f.snapshot.draft.closesAt.Some? && f.snapshot.draft.closesAt.value <= now then (w, Conflict)
        else if f.release in w.db.releases then (w, Corrupt)
        else
          var g := row.generation + 1;
          var release := Release(c, g, g, f.revision, f.snapshot.draft, f.phase.commit, f.actor, now);
          var row' := row.(current := Some(f.release), generation := g, status := Published,
              revision := row.revision + 1);
          (w.(db := Db(w.db.collections[c := row'], w.db.releases[f.release := release],
                       w.db.jobs[f.job := w.db.jobs[f.job].(state := Done)]),
              flight := Some(f.(phase := Finished)),
              hist := w.hist[c := w.hist[c] + [Version(row.draft, g)]],
              line := w.line[c := w.line[c] + [f.release]]), Accepted)
  }

  /** The exception handler of a publish call. */
  function FailStep(w: World): (World, Reply) {
    if w.flight.None? || w.flight.value.job !in w.db.jobs then (w, Invalid)
    else
      var jk := w.flight.value.job;
      var job := w.db.jobs[jk];
      (w.(db := if job.state.Done? then w.db
         else w.db.(jobs := w.db.jobs[jk := job.(state := Failed)]), flight := None), Accepted)
  }

  function Next(accepts: seq<File> -> bool, w: World, step: Step): (World, Reply) {
    match step
    case SetCourse(status) =>
      if status.Preparation? && !w.course.Preparation? then (w, Conflict) else (w.(course := status), Accepted)
    case Create(c, draft, allowed) =>
      if w.course.Archived? || !allowed then (w, Denied)
      else if c in w.db.collections then (w, Invalid)
      else (Created(w, c, draft.(files := [], note := "")), Accepted)
    case Update(c, revision, _, _) => EditStep(accepts, w, c, revision, step)
    case Upload(c, revision, _) => EditStep(accepts, w, c, revision, step)
    case Remove(c, revision, _) => EditStep(accepts, w, c, revision, step)
    case Withdraw(c, revision) => WithdrawStep(w, c, revision)
    case Begin(_, _, _, _, _, _, _) => BeginStep(accepts, w, step)
    case Prepare(latest) =>
      if w.flight.Some? && !IsLatest(w.db, w.flight.value.job.0, latest) then (w, Invalid) else PrepareStep(w, latest)
    case Finish(now, allowed) => FinishStep(w, now, allowed)
    case Fail => FailStep(w)
    case Leave => (w.(flight := None), Accepted)  // return, or death of the process
  }

  /** Any interleaving of atomic steps, failures and crashes. */
  function Run(accepts: seq<File> -> bool, w: World, steps: seq<Step>): World
    decreases |steps|
  {
    if steps == [] then w else Run(accepts, Next(accepts, w, steps[0]).0, steps[1..])
  }

  // ------------------------------------------------------------------- invariant

  /** A collection, its history and its current release. */
  ghost predicate RowOk(w: World, c: Id) {
    c in w.db.collections && c in w.hist && c in w.line &&
    var row := w.db.collections[c];
    && 1 <= row.revision == |w.hist[c]| && |w.line[c]| == row.generation
    && w.hist[c][row.revision - 1] == Version(row.draft, row.generation)
    && (row.status.Published? <==> row.current.Some?)
    && (row.current.Some? ==> w.line[c] != [] && row.current.value == w.line[c][|w.line[c]| - 1])
  }

  /** The release of generation g + 1. */
  ghost predicate LineOk(w: World, c: Id, g: nat) {
    c in w.line && g < |w.line[c]| &&
    var r := w.line[c][g];
    r in w.db.releases && w.db.releases[r].collection == c && w.db.releases[r].generation == g + 1
  }

  /** At every revision the collection had no more releases than it has now. */
  ghost predicate VersionOk(w: World, c: Id, i: nat) {
    c in w.hist && i < |w.hist[c]| && c in w.line && w.hist[c][i].generation <= |w.line[c]|
  }

  /** A job names a past revision and owns its release id; it is done when that is published. */
  ghost predicate JobOk(w: World, jk: JobKey) {
    HasVersion(w, jk) &&
    var job := w.db.jobs[jk];
    job.release in w.owner && w.owner[job.release] == jk && (job.state.Done? <==> job.release in w.db.releases)
  }

  ghost predicate OwnerOk(w: World, r: Id) {
    r in w.owner && w.owner[r] in w.db.jobs && w.db.jobs[w.owner[r]].release == r
  }

  ghost predicate HasVersion(w: World, jk: JobKey) {
    jk in w.db.jobs && jk.0 in w.hist && 1 <= w.db.jobs[jk].revision <= |w.hist[jk.0]|
  }

  /** The commit that revision `rev` of a collection has under a release id and date:
      contents and parent are both functions of the revision. */
  ghost function CommitAt(w: World, c: Id, rev: nat, r: Id, date: int): Commit
    requires c in w.hist && 1 <= rev <= |w.hist[c]|
  {
    var v := w.hist[c][rev - 1];
    var parent := if v.generation == 0 || c !in w.line || v.generation > |w.line[c]|
                     || w.line[c][v.generation - 1] !in w.db.releases then None
                  else Some(w.db.releases[w.line[c][v.generation - 1]].commit);
    Commit(TreeOf(c, v.draft), parent, r, date)
  }

  ghost function JobCommit(w: World, jk: JobKey): Commit
    requires HasVersion(w, jk)
  {
    CommitAt(w, jk.0, w.db.jobs[jk].revision, w.db.jobs[jk].release, w.db.jobs[jk].createdAt)
  }

  /** A release has its place in the line, and is its job's revision, contents and commit. */
  ghost predicate ReleaseOk(accepts: seq<File> -> bool, w: World, r: Id) {
    r in w.db.releases && r in w.owner && HasVersion(w, w.owner[r]) &&
    var rel := w.db.releases[r];
    var jk := w.owner[r];
    && jk.0 == rel.collection && w.db.jobs[jk].revision == rel.sourceRevision && w.db.jobs[jk].actor == rel.actor
    && rel.collection in w.line && 1 <= rel.policyRevision == rel.generation <= |w.line[rel.collection]|
    && w.line[rel.collection][rel.generation - 1] == r
    && w.hist[rel.collection][rel.sourceRevision - 1] == Version(rel.draft, rel.generation - 1)
    && rel.commit == JobCommit(w, jk)
    && rel.draft.files != [] && accepts(rel.draft.files)
  }

  ghost predicate RefOk(w: World, r: Id) {
    r in w.refs && r in w.owner && HasVersion(w, w.owner[r]) && w.refs[r] == JobCommit(w, w.owner[r])
  }

  ghost predicate FlightOk(accepts: seq<File> -> bool, w: World, f: Flight) {
    && HasVersion(w, f.job) && f.job.0 in w.db.collections
    && var job := w.db.jobs[f.job];
    && job.revision == f.revision && job.actor == f.actor && job.release == f.release && job.createdAt == f.createdAt
    && (!f.phase.Finished? ==>
          && job.state.Preparing?
          && w.hist[f.job.0][f.revision - 1] == Version(f.snapshot.draft, f.snapshot.generation)
          && w.db.collections[f.job.0].generation == f.snapshot.generation
          && f.snapshot.draft.files != [] && accepts(f.snapshot.draft.files))
    && (f.phase.Prepared? ==> f.phase.commit == JobCommit(w, f.job))
  }

  ghost predicate InvRows(w: World) {
    && (forall c {:trigger RowOk(w, c)} :: c in w.db.collections || c in w.hist || c in w.line ==> RowOk(w, c))
    && (forall c, g: nat {:trigger LineOk(w, c, g)} :: c in w.line && g < |w.line[c]| ==> LineOk(w, c, g))
    && (forall c, i: nat {:trigger VersionOk(w, c, i)} :: c in w.hist && i < |w.hist[c]| ==> VersionOk(w, c, i))
  }

  ghost predicate InvJobs(w: World) {
    && (forall jk {:trigger JobOk(w, jk)} :: jk in w.db.jobs ==> JobOk(w, jk))
    && (forall r {:trigger OwnerOk(w, r)} :: r in w.owner ==> OwnerOk(w, r))
  }

  ghost predicate InvReleases(accepts: seq<File> -> bool, w: World) {
    && (forall r {:trigger ReleaseOk(accepts, w, r)} :: r in w.db.releases ==> ReleaseOk(accepts, w, r))
    && (forall r {:trigger RefOk(w, r)} :: r in w.refs ==> RefOk(w, r))
  }

  ghost predicate InvFlight(accepts: seq<File> -> bool, w: World) {
    w.flight.Some? ==> FlightOk(accepts, w, w.flight.value)
  }

  ghost predicate Inv(accepts: seq<File> -> bool, w: World) {
    InvRows(w) && InvJobs(w) && InvReleases(accepts, w) && InvFlight(accepts, w)
  }

  // ------------------------------------------------------- every step keeps it

  /** History only grows and releases never change. */
  ghost predicate Grows(w: World, w': World) {
    && (forall c :: c in w.hist ==> c in w'.hist && w.hist[c] <= w'.hist[c])
    && (forall c :: c in w.line ==> c in w'.line && w.line[c] <= w'.line[c])
    && (forall r :: r in w.db.releases ==> r in w'.db.releases && w'.db.releases[r] == w.db.releases[r])
  }

  /** What a revision commits to never changes. */
  lemma CommitStable(w: World, w': World, c: Id, rev: nat, r: Id, date: int)
    requires InvRows(w) && Grows(w, w')
    requires c in w.hist && 1 <= rev <= |w.hist[c]|
    ensures c in w'.hist && rev <= |w'.hist[c]| && CommitAt(w', c, rev, r, date) == CommitAt(w, c, rev, r, date)
  {
    var v := w.hist[c][rev - 1];
    assert w'.hist[c][rev - 1] == v;
    assert VersionOk(w, c, rev - 1);
    if v.generation > 0 {
      assert LineOk(w, c, v.generation - 1);
      assert w.line[c][v.generation - 1] == w'.line[c][v.generation - 1];
    }
  }

  lemma JobCommitStable(w: World, w': World, jk: JobKey)
    requires InvRows(w) && Grows(w, w') && HasVersion(w, jk)
    requires jk in w'.db.jobs && w'.db.jobs[jk].(state := w.db.jobs[jk].state) == w.db.jobs[jk]
    ensures HasVersion(w', jk) && JobCommit(w', jk) == JobCommit(w, jk)
    ensures w'.hist[jk.0][w.db.jobs[jk].revision - 1] == w.hist[jk.0][w.db.jobs[jk].revision - 1]
  {
    var job := w.db.jobs[jk];
    CommitStable(w, w', jk.0, job.revision, job.release, job.createdAt);
  }

  /** Jobs keep everything but their state, and release ids their owners. */
  ghost predicate JobsKept(w: World, w': World) {
    && (forall jk :: jk in w.db.jobs ==>
          jk in w'.db.jobs && w'.db.jobs[jk].(state := w.db.jobs[jk].state) == w.db.jobs[jk])
    && (forall r :: r in w.owner ==> r in w'.owner && w'.owner[r] == w.owner[r])
  }

  /** Whatever grows, releases and refs that were right stay right. */
  lemma ReleasesKept(accepts: seq<File> -> bool, w: World, w': World)
    requires InvRows(w) && InvReleases(accepts, w) && Grows(w, w') && JobsKept(w, w')
    ensures forall r {:trigger ReleaseOk(accepts, w', r)} :: r in w.db.releases ==> ReleaseOk(accepts, w', r)
    ensures forall r {:trigger RefOk(w', r)} :: r in w.refs && r in w'.refs && w'.refs[r] == w.refs[r] ==> RefOk(w', r)
  {
    forall r | r in w.db.releases ensures ReleaseOk(accepts, w', r) {
      assert ReleaseOk(accepts, w, r);
      JobCommitStable(w, w', w.owner[r]);
    }
    forall r | r in w.refs && r in w'.refs && w'.refs[r] == w.refs[r] ensures RefOk(w', r) {
      assert RefOk(w, r);
      JobCommitStable(w, w', w.owner[r]);
    }
  }

  lemma JobsStayOk(w: World, w': World)
    requires InvRows(w) && InvJobs(w) && Grows(w, w')
    requires w'.db.jobs == w.db.jobs && w'.owner == w.owner && w'.db.releases == w.db.releases
    ensures InvJobs(w')
  {
    forall jk | jk in w'.db.jobs ensures JobOk(w', jk) {
      assert JobOk(w, jk);
      JobCommitStable(w, w', jk);
    }
    forall r | r in w'.owner ensures OwnerOk(w', r) {
      assert OwnerOk(w, r);
    }
  }

  /** Growing history, with jobs, releases, refs and flight as they are, keeps the rest. */
  lemma GrowthKeeps(accepts: seq<File> -> bool, w: World, w': World)
    requires Inv(accepts, w) && Grows(w, w')
    requires w'.db.jobs == w.db.jobs && w'.owner == w.owner && w'.refs == w.refs && w'.db.releases == w.db.releases
    requires w'.flight == w.flight
    requires forall c :: c in w.db.collections ==>
               c in w'.db.collections && w'.db.collections[c].generation == w.db.collections[c].generation
    ensures InvJobs(w') && InvReleases(accepts, w') && InvFlight(accepts, w')
  {
    JobsStayOk(w, w');
    ReleasesKept(accepts, w, w');
    if w.flight.Some? {
      JobCommitStable(w, w', w.flight.value.job);
    }
  }

  /** Edits and withdrawals: one row moves to its next revision. */
  ghost predicate RowStep(w: World, w': World, c: Id, row': Collection) {
    && c in w.db.collections && c in w.hist
    && var row := w.db.collections[c];
    && row'.revision == row.revision + 1 && row'.generation == row.generation
    && ((row'.current == row.current && row'.status == row.status) || (row'.current.None? && row'.status.Withdrawn?))
    && w' == w.(db := w.db.(collections := w.db.collections[c := row']),
                hist := w.hist[c := w.hist[c] + [Version(row'.draft, row.generation)]])
  }

  lemma RowStepKeeps(accepts: seq<File> -> bool, w: World, w': World, c: Id, row': Collection)
    requires Inv(accepts, w) && RowStep(w, w', c, row')
    ensures Inv(accepts, w') && Grows(w, w')
  {
    RowStepRows(w, w', c, row');
    GrowthKeeps(accepts, w, w');
  }

  lemma RowStepRows(w: World, w': World, c: Id, row': Collection)
    requires InvRows(w) && RowStep(w, w', c, row')
    ensures InvRows(w') && Grows(w, w')
  {
    assert RowOk(w, c);
    forall x | x in w'.db.collections || x in w'.hist || x in w'.line ensures RowOk(w', x) {
      assert RowOk(w, x);
    }
    forall x, g: nat | x in w'.line && g < |w'.line[x]| ensures LineOk(w', x, g) {
      assert LineOk(w, x, g);
    }
    forall x, i: nat | x in w'.hist && i < |w'.hist[x]| ensures VersionOk(w', x, i) {
      if i < |w.hist[x]| {
        assert VersionOk(w, x, i);
      }
    }
  }

  lemma EditKeeps(accepts: seq<File> -> bool, w: World, c: Id, revision: nat, step: Step)
    requires Inv(accepts, w) && (step.Update? || step.Upload? || step.Remove?)
    ensures Inv(accepts, EditStep(accepts, w, c, revision, step).0)
    ensures Grows(w, EditStep(accepts, w, c, revision, step).0)
    ensures !EditStep(accepts, w, c, revision, step).1.Corrupt?
  {
    var w' := EditStep(accepts, w, c, revision, step).0;
    if w' != w {
      RowStepKeeps(accepts, w, w', c, w'.db.collections[c]);
    }
  }

  lemma WithdrawKeeps(accepts: seq<File> -> bool, w: World, c: Id, revision: nat)
    requires Inv(accepts, w)
    ensures Inv(accepts, WithdrawStep(w, c, revision).0) && Grows(w, WithdrawStep(w, c, revision).0)
  {
    var w' := WithdrawStep(w, c, revision).0;
    if w' != w {
      RowStepKeeps(accepts, w, w', c, w'.db.collections[c]);
    }
  }

  lemma CreatedKeeps(accepts: seq<File> -> bool, w: World, c: Id, draft: Draft)
    requires Inv(accepts, w) && c !in w.db.collections
    ensures Inv(accepts, Created(w, c, draft)) && Grows(w, Created(w, c, draft))
  {
    CreatedRows(w, c, draft);
    GrowthKeeps(accepts, w, Created(w, c, draft));
  }

  lemma CreatedRows(w: World, c: Id, draft: Draft)
    requires InvRows(w) && c !in w.db.collections
    ensures InvRows(Created(w, c, draft)) && Grows(w, Created(w, c, draft))
  {
    var w' := Created(w, c, draft);
    forall x | x in w.hist || x in w.line ensures x in w.db.collections {
      assert RowOk(w, x);
    }
    forall x | x in w'.db.collections || x in w'.hist || x in w'.line ensures RowOk(w', x) {
      assert x != c ==> RowOk(w, x);
    }
    forall x, g: nat | x in w'.line && g < |w'.line[x]| ensures LineOk(w', x, g) {
      assert LineOk(w, x, g);
    }
    forall x, i: nat | x in w'.hist && i < |w'.hist[x]| ensures VersionOk(w', x, i) {
      assert x != c ==> VersionOk(w, x, i);
    }
  }

  lemma SameRows(w: World, w': World)
    requires InvRows(w) && w'.db.collections == w.db.collections && w'.hist == w.hist && w'.line == w.line
    requires w'.db.releases == w.db.releases
    ensures InvRows(w') && Grows(w, w')
  {
    forall x | x in w'.db.collections || x in w'.hist || x in w'.line ensures RowOk(w', x) {
      assert RowOk(w, x);
    }
    forall x, g: nat | x in w'.line && g < |w'.line[x]| ensures LineOk(w', x, g) {
      assert LineOk(w, x, g);
    }
    forall x, i: nat | x in w'.hist && i < |w'.hist[x]| ensures VersionOk(w', x, i) {
      assert VersionOk(w, x, i);
    }
  }

  lemma BeginJobs(accepts: seq<File> -> bool, w: World, s: Step)
    requires Inv(accepts, w) && s.Begin? && BeginStep(accepts, w, s).0 != w
    ensures var w' := BeginStep(accepts, w, s).0;
            InvJobs(w') && JobsKept(w, w') && InvFlight(accepts, w')
  {
    var w' := BeginStep(accepts, w, s).0;
    var jk := (s.collection, s.key);
    assert RowOk(w, s.collection);
    assert jk in w.db.jobs ==> JobOk(w, jk);
    forall r | r in w.db.releases ensures r in w.owner {
      assert ReleaseOk(accepts, w, r);
    }
    forall k | k in w'.db.jobs ensures JobOk(w', k) {
      assert k in w.db.jobs ==> JobOk(w, k);
    }
    forall r | r in w'.owner ensures OwnerOk(w', r) {
      assert r in w.owner ==> OwnerOk(w, r);
    }
  }

  lemma BeginKeeps(accepts: seq<File> -> bool, w: World, s: Step)
    requires Inv(accepts, w) && s.Begin?
    ensures Inv(accepts, BeginStep(accepts, w, s).0) && Grows(w, BeginStep(accepts, w, s).0)
  {
    var w' := BeginStep(accepts, w, s).0;
    if w' != w {
      SameRows(w, w');
      BeginJobs(accepts, w, s);
      ReleasesKept(accepts, w, w');
    }
  }

  /** The row SQL finds by greatest generation is the last of the line. */
  lemma LatestIsLast(accepts: seq<File> -> bool, w: World, c: Id, latest: Option<Id>)
    requires InvRows(w) && InvReleases(accepts, w) && c in w.db.collections && IsLatest(w.db, c, latest)
    ensures c in w.line
    ensures latest == if w.line[c] == [] then None else Some(w.line[c][|w.line[c]| - 1])
  {
    assert RowOk(w, c);
    if w.line[c] != [] {
      assert LineOk(w, c, |w.line[c]| - 1);
    }
    if latest.Some? {
      assert ReleaseOk(accepts, w, latest.value);
    }
  }

  /** Pointing the ref at the job's commit keeps everything, whether or not it stood there before. */
  lemma PreparedKeeps(accepts: seq<File> -> bool, w: World, f: Flight, commit: Commit)
    requires Inv(accepts, w) && w.flight == Some(f) && f.phase.Claimed?
    requires HasVersion(w, f.job) && commit == JobCommit(w, f.job)
    ensures var w' := w.(refs := w.refs[f.release := commit], flight := Some(f.(phase := Prepared(commit))));
            Inv(accepts, w') && Grows(w, w')
  {
    var w' := w.(refs := w.refs[f.release := commit], flight := Some(f.(phase := Prepared(commit))));
    assert JobOk(w, f.job);
    SameRows(w, w');
    JobsStayOk(w, w');
    ReleasesKept(accepts, w, w');
    JobCommitStable(w, w', f.job);
    forall r | r in w'.refs ensures RefOk(w', r) {
      assert r != f.release ==> r in w.refs && w'.refs[r] == w.refs[r];
    }
  }

  lemma PrepareKeeps(accepts: seq<File> -> bool, w: World, latest: Option<Id>)
    requires Inv(accepts, w)
    ensures var n := Next(accepts, w, Prepare(latest));
            Inv(accepts, n.0) && Grows(w, n.0) && !n.1.Corrupt?
  {
    if w.flight.Some? && w.flight.value.phase.Claimed? && IsLatest(w.db, w.flight.value.job.0, latest) {
      var f := w.flight.value;
      PreparedIsJobCommit(accepts, w, latest);
      assert JobOk(w, f.job);
      assert f.release in w.refs ==> RefOk(w, f.release);
      PreparedKeeps(accepts, w, f, JobCommit(w, f.job));
    }
  }

  /** Preparing recomputes the commit of the job's revision, whatever happened in between. */
  lemma PreparedIsJobCommit(accepts: seq<File> -> bool, w: World, latest: Option<Id>)
    requires Inv(accepts, w) && w.flight.Some? && w.flight.value.phase.Claimed?
    requires IsLatest(w.db, w.flight.value.job.0, latest)
    ensures var f := w.flight.value;
            && HasVersion(w, f.job)
            && (f.snapshot.generation > 0 ==> latest.Some? && latest.value in w.db.releases)
            && Commit(TreeOf(f.job.0, f.snapshot.draft),
                      if f.snapshot.generation == 0 then None else Some(w.db.releases[latest.value].commit),
                      f.release, f.createdAt) == JobCommit(w, f.job)
  {
    var f := w.flight.value;
    LatestIsLast(accepts, w, f.job.0, latest);
    assert RowOk(w, f.job.0);
    if f.snapshot.generation > 0 {
      assert LineOk(w, f.job.0, f.snapshot.generation - 1);
    }
  }

  lemma FinishGrows(accepts: seq<File> -> bool, w: World, now: int, allowed: bool)
    requires Inv(accepts, w) && FinishStep(w, now, allowed).0 != w
    ensures Grows(w, FinishStep(w, now, allowed).0)
  {
  }

  lemma FinishRow(accepts: seq<File> -> bool, w: World, now: int, allowed: bool, c: Id)
    requires Inv(accepts, w) && FinishStep(w, now, allowed).0 != w
    requires var w' := FinishStep(w, now, allowed).0;
             c in w'.db.collections || c in w'.hist || c in w'.line
    ensures RowOk(FinishStep(w, now, allowed).0, c)
  {
    assert RowOk(w, w.flight.value.job.0);
    assert RowOk(w, c);
  }

  lemma FinishLine(accepts: seq<File> -> bool, w: World, now: int, allowed: bool, c: Id, g: nat)
    requires Inv(accepts, w) && FinishStep(w, now, allowed).0 != w
    requires var w' := FinishStep(w, now, allowed).0; c in w'.line && g < |w'.line[c]|
    ensures LineOk(FinishStep(w, now, allowed).0, c, g)
  {
    assert RowOk(w, w.flight.value.job.0);
    if g < |w.line[c]| {
      assert LineOk(w, c, g);
    }
  }

  lemma FinishVersion(accepts: seq<File> -> bool, w: World, now: int, allowed: bool, c: Id, i: nat)
    requires Inv(accepts, w) && FinishStep(w, now, allowed).0 != w
    requires var w' := FinishStep(w, now, allowed).0; c in w'.hist && i < |w'.hist[c]|
    ensures VersionOk(FinishStep(w, now, allowed).0, c, i)
  {
    assert RowOk(w, w.flight.value.job.0);
    if i < |w.hist[c]| {
      assert VersionOk(w, c, i);
    }
  }

  lemma FinishRows(accepts: seq<File> -> bool, w: World, now: int, allowed: bool)
    requires Inv(accepts, w) && FinishStep(w, now, allowed).0 != w
    ensures Grows(w, FinishStep(w, now, allowed).0) && InvRows(FinishStep(w, now, allowed).0)
  {
    var w' := FinishStep(w, now, allowed).0;
    FinishGrows(accepts, w, now, allowed);
    forall x | x in w'.db.collections || x in w'.hist || x in w'.line ensures RowOk(w', x) {
      FinishRow(accepts, w, now, allowed, x);
    }
    forall x, g: nat | x in w'.line && g < |w'.line[x]| ensures LineOk(w', x, g) {
      FinishLine(accepts, w, now, allowed, x, g);
    }
    forall x, i: nat | x in w'.hist && i < |w'.hist[x]| ensures VersionOk(w', x, i) {
      FinishVersion(accepts, w, now, allowed, x, i);
    }
  }

  lemma FinishJobs(accepts: seq<File> -> bool, w: World, now: int, allowed: bool)
    requires Inv(accepts, w) && FinishStep(w, now, allowed).0 != w
    ensures InvJobs(FinishStep(w, now, allowed).0) && JobsKept(w, FinishStep(w, now, allowed).0)
  {
    var w' := FinishStep(w, now, allowed).0;
    FinishGrows(accepts, w, now, allowed);
    assert JobOk(w, w.flight.value.job);
    forall jk | jk in w'.db.jobs ensures JobOk(w', jk) {
      assert JobOk(w, jk);
      JobCommitStable(w, w', jk);
    }
    forall r | r in w'.owner ensures OwnerOk(w', r) {
      assert OwnerOk(w, r);
    }
  }

  /** The release just made is its job's revision. */
  lemma FinishRelease(accepts: seq<File> -> bool, w: World, now: int, allowed: bool)
    requires Inv(accepts, w) && FinishStep(w, now, allowed).0 != w
    ensures w.flight.Some? && ReleaseOk(accepts, FinishStep(w, now, allowed).0, w.flight.value.release)
    ensures InvFlight(accepts, FinishStep(w, now, allowed).0)
  {
    var w' := FinishStep(w, now, allowed).0;
    FinishGrows(accepts, w, now, allowed);
    assert RowOk(w, w.flight.value.job.0);
    assert JobOk(w, w.flight.value.job);
    JobCommitStable(w, w', w.flight.value.job);
  }

  lemma FinishKeeps(accepts: seq<File> -> bool, w: World, now: int, allowed: bool)
    requires Inv(accepts, w)
    ensures Inv(accepts, FinishStep(w, now, allowed).0) && Grows(w, FinishStep(w, now, allowed).0)
    ensures !FinishStep(w, now, allowed).1.Corrupt?
  {
    if w.flight.Some? {
      assert JobOk(w, w.flight.value.job);
    }
    if FinishStep(w, now, allowed).0 != w {
      FinishRows(accepts, w, now, allowed);
      FinishJobs(accepts, w, now, allowed);
      FinishRelease(accepts, w, now, allowed);
      ReleasesKept(accepts, w, FinishStep(w, now, allowed).0);
    }
  }

  lemma FailJobs(accepts: seq<File> -> bool, w: World)
    requires Inv(accepts, w)
    ensures InvJobs(FailStep(w).0) && JobsKept(w, FailStep(w).0)
  {
    var w' := FailStep(w).0;
    forall jk | jk in w'.db.jobs ensures JobOk(w', jk) {
      assert JobOk(w, jk);
    }
    forall r | r in w'.owner ensures OwnerOk(w', r) {
      assert OwnerOk(w, r);
    }
  }

  lemma FailKeeps(accepts: seq<File> -> bool, w: World)
    requires Inv(accepts, w)
    ensures Inv(accepts, FailStep(w).0) && Grows(w, FailStep(w).0)
  {
    SameRows(w, FailStep(w).0);
    FailJobs(accepts, w);
    ReleasesKept(accepts, w, FailStep(w).0);
  }

  /** The course changes, or a call ends: no row and no ref is touched. */
  lemma AsideKeeps(accepts: seq<File> -> bool, w: World, w': World)
    requires Inv(accepts, w) && (w'.flight.None? || w'.flight == w.flight)
    requires w' == w.(course := w'.course, flight := w'.flight)
    ensures Inv(accepts, w') && Grows(w, w')
  {
    SameRows(w, w');
    JobsStayOk(w, w');
    ReleasesKept(accepts, w, w');
    if w'.flight.Some? {
      JobCommitStable(w, w', w.flight.value.job);
    }
  }

  predicate Publishes(step: Step) {
    step.Begin? || step.Prepare? || step.Finish? || step.Fail? || step.Leave?
  }

  lemma PublishStepKeeps(accepts: seq<File> -> bool, w: World, step: Step)
    requires Inv(accepts, w) && Publishes(step)
    ensures Inv(accepts, Next(accepts, w, step).0) && Grows(w, Next(accepts, w, step).0)
    ensures !Next(accepts, w, step).1.Corrupt?
  {
    match step
    case Begin(_, _, _, _, _, _, _) => BeginKeeps(accepts, w, step);
    case Prepare(latest) => PrepareKeeps(accepts, w, latest);
    case Finish(now, allowed) => FinishKeeps(accepts, w, now, allowed);
    case Fail => FailKeeps(accepts, w);
    case Leave => AsideKeeps(accepts, w, w.(flight := None));
  }

  lemma DraftStepKeeps(accepts: seq<File> -> bool, w: World, step: Step)
    requires Inv(accepts, w) && !Publishes(step)
    ensures Inv(accepts, Next(accepts, w, step).0) && Grows(w, Next(accepts, w, step).0)
    ensures !Next(accepts, w, step).1.Corrupt?
  {
    match step
    case SetCourse(_) => AsideKeeps(accepts, w, Next(accepts, w, step).0);
    case Create(c, draft, _) =>
      if c !in w.db.collections {
        CreatedKeeps(accepts, w, c, draft.(files := [], note := ""));
      }
    case Update(c, revision, _, _) => EditKeeps(accepts, w, c, revision, step);
    case Upload(c, revision, _) => EditKeeps(accepts, w, c, revision, step);
    case Remove(c, revision, _) => EditKeeps(accepts, w, c, revision, step);
    case Withdraw(c, revision) => WithdrawKeeps(accepts, w, c, revision);
  }

  lemma StepKeeps(accepts: seq<File> -> bool, w: World, step: Step)
    requires Inv(accepts, w)
    ensures Inv(accepts, Next(accepts, w, step).0) && Grows(w, Next(accepts, w, step).0)
    ensures !Next(accepts, w, step).1.Corrupt?
  {
    if Publishes(step) {
      PublishStepKeeps(accepts, w, step);
    } else {
      DraftStepKeeps(accepts, w, step);
    }
  }

  lemma {:induction false} RunKeeps(accepts: seq<File> -> bool, w: World, steps: seq<Step>)
    requires Inv(accepts, w)
    ensures Inv(accepts, Run(accepts, w, steps)) && Grows(w, Run(accepts, w, steps))
    decreases |steps|
  {
    if steps != [] {
      var w' := Next(accepts, w, steps[0]).0;
      StepKeeps(accepts, w, steps[0]);
      RunKeeps(accepts, w', steps[1..]);
      GrowsOn(w, w', Run(accepts, w', steps[1..]));
    }
  }

  lemma GrowsOn(a: World, b: World, c: World)
    requires Grows(a, b) && Grows(b, c)
    ensures Grows(a, c)
  {
    forall x | x in a.hist ensures x in c.hist && a.hist[x] <= c.hist[x] {
      assert a.hist[x] <= b.hist[x];
    }
    forall x | x in a.line ensures x in c.line && a.line[x] <= c.line[x] {
      assert a.line[x] <= b.line[x];
    }
  }

  lemma EmptyIsFine(accepts: seq<File> -> bool)
    ensures Inv(accepts, EMPTY)
  {
  }

  // ---------------------------------------------------------------- the main results

  /** Whatever interleaving of edits, withdrawals, failed and crashed publishes: a release is
      exactly the draft at its source revision, with an accepted, non-empty file list. */
  lemma ReleaseIsItsRevision(accepts: seq<File> -> bool, steps: seq<Step>, r: Id)
    requires r in Run(accepts, EMPTY, steps).db.releases
    ensures var w := Run(accepts, EMPTY, steps);
            var rel := w.db.releases[r];
            && rel.collection in w.hist && 1 <= rel.sourceRevision <= |w.hist[rel.collection]|
            && w.hist[rel.collection][rel.sourceRevision - 1].draft == rel.draft
            && rel.draft.files != [] && accepts(rel.draft.files)
  {
    EmptyIsFine(accepts);
    RunKeeps(accepts, EMPTY, steps);
    assert ReleaseOk(accepts, Run(accepts, EMPTY, steps), r);
  }

  ghost predicate HasGeneration(db: Db, c: Id, g: nat) {
    exists r :: r in db.releases && db.releases[r].collection == c && db.releases[r].generation == g
  }

  ghost predicate SameGeneration(db: Db, r: Id, q: Id) {
    && r in db.releases && q in db.releases
    && db.releases[r].collection == db.releases[q].collection && db.releases[r].generation == db.releases[q].generation
  }

  /** Generations of a collection are exactly 1..n, one release each, and a current release is
      the release of generation n. */
  lemma GenerationsHaveNoGap(accepts: seq<File> -> bool, steps: seq<Step>, c: Id)
    requires c in Run(accepts, EMPTY, steps).db.collections
    ensures var db := Run(accepts, EMPTY, steps).db;
            var n := db.collections[c].generation;
            && (forall g: nat {:trigger HasGeneration(db, c, g)} :: HasGeneration(db, c, g) <==> 1 <= g <= n)
            && (forall r, q :: SameGeneration(db, r, q) ==> r == q)
            && (db.collections[c].current.Some? ==>
                  var r := db.collections[c].current.value;
                  r in db.releases && db.releases[r].collection == c && db.releases[r].generation == n)
  {
    EmptyIsFine(accepts);
    RunKeeps(accepts, EMPTY, steps);
    var w := Run(accepts, EMPTY, steps);
    var n := w.db.collections[c].generation;
    assert RowOk(w, c);
    forall g: nat ensures HasGeneration(w.db, c, g) <==> 1 <= g <= n {
      GenerationIsInLine(accepts, w, c, g);
    }
    forall r, q | SameGeneration(w.db, r, q) ensures r == q {
      assert ReleaseOk(accepts, w, r) && ReleaseOk(accepts, w, q);
    }
    if w.db.collections[c].current.Some? {
      assert LineOk(w, c, n - 1);
    }
  }

  lemma GenerationIsInLine(accepts: seq<File> -> bool, w: World, c: Id, g: nat)
    requires Inv(accepts, w) && RowOk(w, c)
    ensures HasGeneration(w.db, c, g) <==> 1 <= g <= w.db.collections[c].generation
  {
    if HasGeneration(w.db, c, g) {
      var r :| r in w.db.releases && w.db.releases[r].collection == c && w.db.releases[r].generation == g;
      assert ReleaseOk(accepts, w, r);
    }
    if 1 <= g <= w.db.collections[c].generation {
      assert LineOk(w, c, g - 1);
    }
  }

  /** An idempotency key yields at most one release, which never changes.  Once it has, no later
      use of the key has any effect, and it returns that release if and only if the publish lock
      is free, the course is open and the request is the same. */
  lemma KeyYieldsOneRelease(accepts: seq<File> -> bool, before: seq<Step>, after: seq<Step>, retry: Step, jk: JobKey)
    requires retry.Begin? && (retry.collection, retry.key) == jk
    requires var w := Run(accepts, EMPTY, before);
             jk in w.db.jobs && w.db.jobs[jk].state.Done?
    ensures var w := Run(accepts, EMPTY, before);
            var w' := Run(accepts, w, after);
            var r := w.db.jobs[jk].release;
            && r in w.db.releases && r in w'.db.releases && w'.db.releases[r] == w.db.releases[r]
            && jk in w'.db.jobs && w'.db.jobs[jk].release == r && w'.db.jobs[jk].state.Done?
            && Next(accepts, w', retry).0 == w'
            && (Next(accepts, w', retry).1 == Replayed(r)
                <==> w'.flight.None? && w'.course.Active?
                     && retry.revision == w.db.jobs[jk].revision && retry.actor == w.db.jobs[jk].actor)
            && (forall k :: k in w'.db.jobs && w'.db.jobs[k].release == r ==> k == jk)
  {
    EmptyIsFine(accepts);
    RunKeeps(accepts, EMPTY, before);
    var w := Run(accepts, EMPTY, before);
    DoneStays(accepts, w, after, jk);
    RunKeeps(accepts, w, after);
    var w' := Run(accepts, w, after);
    assert JobOk(w, jk) && JobOk(w', jk);
    assert ReleaseOk(accepts, w, w.db.jobs[jk].release);
    assert RowOk(w', jk.0) by {
      assert ReleaseOk(accepts, w', w.db.jobs[jk].release);
    }
    forall k | k in w'.db.jobs && w'.db.jobs[k].release == w.db.jobs[jk].release ensures k == jk {
      assert JobOk(w', k);
    }
  }

  /** A job that is done keeps its row, whatever step comes next. */
  lemma DoneStep(accepts: seq<File> -> bool, w: World, step: Step, jk: JobKey)
    requires jk in w.db.jobs && w.db.jobs[jk].state.Done?
    ensures var w' := Next(accepts, w, step).0; jk in w'.db.jobs && w'.db.jobs[jk] == w.db.jobs[jk]
  {
    if step.Update? || step.Upload? || step.Remove? {
      assert EditStep(accepts, w, step.collection, step.revision, step).0.db.jobs == w.db.jobs;
    }
  }

  lemma {:induction false} DoneStays(accepts: seq<File> -> bool, w: World, steps: seq<Step>, jk: JobKey)
    requires jk in w.db.jobs && w.db.jobs[jk].state.Done?
    ensures var w' := Run(accepts, w, steps); jk in w'.db.jobs && w'.db.jobs[jk] == w.db.jobs[jk]
    decreases |steps|
  {
    if steps != [] {
      DoneStep(accepts, w, steps[0], jk);
      DoneStays(accepts, Next(accepts, w, steps[0]).0, steps[1..], jk);
    }
  }

  /** A step that does not end in a storage conflict moves no ref. */
  lemma RefsStay(accepts: seq<File> -> bool, w: World, step: Step, r: Id)
    requires r in w.refs && !Next(accepts, w, step).1.Corrupt?
    ensures var w' := Next(accepts, w, step).0; r in w'.refs && w'.refs[r] == w.refs[r]
  {
    if step.Update? || step.Upload? || step.Remove? {
      assert EditStep(accepts, w, step.collection, step.revision, step).0.refs == w.refs;
    }
  }

  /** Retries recompute the identical commit, so preparing never finds its ref moved, and no
      step ever ends in a storage conflict. */
  lemma RefIsNeverMoved(accepts: seq<File> -> bool, steps: seq<Step>, step: Step)
    ensures var w := Run(accepts, EMPTY, steps);
            var n := Next(accepts, w, step);
            !n.1.Corrupt? && forall r :: r in w.refs ==> r in n.0.refs && n.0.refs[r] == w.refs[r]
  {
    var w := Run(accepts, EMPTY, steps);
    EmptyIsFine(accepts);
    RunKeeps(accepts, EMPTY, steps);
    NoConflict(accepts, w, step);
    forall r | r in w.refs ensures var w' := Next(accepts, w, step).0; r in w'.refs && w'.refs[r] == w.refs[r] {
      RefsStay(accepts, w, step, r);
    }
  }

  lemma NoConflict(accepts: seq<File> -> bool, w: World, step: Step)
    requires Inv(accepts, w)
    ensures !Next(accepts, w, step).1.Corrupt?
  {
    StepKeeps(accepts, w, step);
  }

  function Depth(c: Commit): nat {
    match c.parent
    case None => 1
    case Some(p) => 1 + Depth(p)
  }

  /** Commits form one line per collection: the first release has no parent, every later one
      has the release before it. */
  lemma CommitsFormOneLine(accepts: seq<File> -> bool, steps: seq<Step>, r: Id)
    requires r in Run(accepts, EMPTY, steps).db.releases
    ensures var db := Run(accepts, EMPTY, steps).db;
            var rel := db.releases[r];
            && rel.commit.tree == GitTree(rel.collection, rel.draft.title, rel.draft.instructions, rel.draft.note,
                                          rel.draft.files)
            && rel.commit.release == r
            && (rel.generation == 1 ==> rel.commit.parent.None?)
            && (rel.generation > 1 ==>
                  exists q :: q in db.releases && db.releases[q].collection == rel.collection
                    && db.releases[q].generation == rel.generation - 1
                         && rel.commit.parent == Some(db.releases[q].commit))
            && Depth(rel.commit) == rel.generation
  {
    EmptyIsFine(accepts);
    RunKeeps(accepts, EMPTY, steps);
    CommitLine(accepts, Run(accepts, EMPTY, steps), r);
  }

  lemma {:induction false} CommitLine(accepts: seq<File> -> bool, w: World, r: Id)
    requires Inv(accepts, w) && r in w.db.releases
    ensures var db := w.db;
            var rel := db.releases[r];
            && rel.commit.tree == GitTree(rel.collection, rel.draft.title, rel.draft.instructions, rel.draft.note,
                                          rel.draft.files)
            && rel.commit.release == r
            && (rel.generation == 1 ==> rel.commit.parent.None?)
            && (rel.generation > 1 ==>
                  exists q :: q in db.releases && db.releases[q].collection == rel.collection
                    && db.releases[q].generation == rel.generation - 1
                         && rel.commit.parent == Some(db.releases[q].commit))
            && Depth(rel.commit) == rel.generation
    decreases w.db.releases[r].generation
  {
    assert ReleaseOk(accepts, w, r) && OwnerOk(w, r);
    var rel := w.db.releases[r];
    if rel.generation > 1 {
      assert LineOk(w, rel.collection, rel.generation - 2);
      var q := w.line[rel.collection][rel.generation - 2];
      CommitLine(accepts, w, q);
    }
  }

  /** A revision number determines the draft: two moments of one run at which a collection has
      the same revision see the same draft and the same number of releases. */
  lemma RevisionDeterminesDraft(accepts: seq<File> -> bool, before: seq<Step>, after: seq<Step>, c: Id)
    requires c in Run(accepts, EMPTY, before).db.collections
    ensures var w := Run(accepts, EMPTY, before);
            var w' := Run(accepts, w, after);
            && c in w'.db.collections && w'.db.collections[c].revision >= w.db.collections[c].revision
            && (w'.db.collections[c].revision == w.db.collections[c].revision ==>
                  w'.db.collections[c].draft == w.db.collections[c].draft
                  && w'.db.collections[c].generation == w.db.collections[c].generation)
  {
    EmptyIsFine(accepts);
    RunKeeps(accepts, EMPTY, before);
    RunKeeps(accepts, Run(accepts, EMPTY, before), after);
    SameRevisionSameDraft(Run(accepts, EMPTY, before), Run(accepts, Run(accepts, EMPTY, before), after), c);
  }

  lemma SameRevisionSameDraft(w: World, w': World, c: Id)
    requires InvRows(w) && InvRows(w') && Grows(w, w') && c in w.db.collections
    ensures c in w'.db.collections && w'.db.collections[c].revision >= w.db.collections[c].revision
    ensures w'.db.collections[c].revision == w.db.collections[c].revision ==>
              (w'.db.collections[c].draft == w.db.collections[c].draft
               && w'.db.collections[c].generation == w.db.collections[c].generation)
  {
    assert RowOk(w, c);
    assert RowOk(w', c);
    assert w.hist[c] <= w'.hist[c];
  }

  /** With the real file check: every release's Git tree is exactly its list of text files. */
  lemma ReleaseTreesAreTheirFiles(u: Unicode, steps: seq<Step>, r: Id, text: File -> bool)
    requires u.Sane() && r in Run((files: seq<File>) => FileSetOk(u, files), EMPTY, steps).db.releases
    ensures var files := Run((files: seq<File>) => FileSetOk(u, files), EMPTY, steps).db.releases[r].draft.files;
            Build(files, text).Some?
            && forall parts, oid :: Lookup(Build(files, text).value, parts) == Some(oid) <==>
                 Holds(files, text, parts, oid)
  {
    var accepts := (files: seq<File>) => FileSetOk(u, files);
    ReleaseIsItsRevision(accepts, steps, r);
    TreeIsTheFileMap(u, Run(accepts, EMPTY, steps).db.releases[r].draft.files, text);
  }
}
