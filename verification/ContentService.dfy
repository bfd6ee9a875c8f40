/** The content service itself: rows and refs updated in place, one method per transaction or
    stage, each proved to take exactly the protocol's step and to keep its invariant. */
module ContentService {
  import opened Common
  import opened ContentContract
  import opened ContentStore
  import opened ContentEdits

  function Check(u: Unicode): seq<File> -> bool {
    files => FileSetOk(u, files)
  }

  method FilesWithout(files: seq<File>, path: string) returns (kept: seq<File>)
    ensures kept == Without(files, path)
    ensures OnePerPath(files) ==> TakenOut(files, path, kept)
  {
    if OnePerPath(files) {
      WithoutTakesOut(files, path);
    }
    kept := [];
    var i := |files|;
    while i > 0
      invariant 0 <= i <= |files|
      invariant kept == Without(files[i..], path)
    {
      i := i - 1;
      assert files[i..][1..] == files[i + 1..];
      if files[i].path != path {
        kept := [files[i]] + kept;
      }
    }
  }

  method FindPath(files: seq<File>, path: string) returns (found: bool)
    ensures found == HasPath(files, path)
  {
    var i := 0;
    while i < |files|
      invariant 0 <= i <= |files|
      invariant !HasPath(files[..i], path)
    {
      if files[i].path == path {
        return true;
      }
      i := i + 1;
    }
    assert files[..i] == files;
    return false;
  }

  /** The parent query: the release of a collection with the greatest generation. */
  method Latest(db: Db, c: Id) returns (latest: Option<Id>)
    ensures IsLatest(db, c, latest)
  {
    latest := None;
    var rest := db.releases.Keys;
    while rest != {}
      invariant rest <= db.releases.Keys
      invariant latest.Some? ==> latest.value in db.releases && db.releases[latest.value].collection == c
      invariant forall r :: r in db.releases && r !in rest && db.releases[r].collection == c ==>
                              (latest.Some? && db.releases[r].generation <= db.releases[latest.value].generation)
      decreases |rest|
    {
      var r :| r in rest;
      rest := rest - {r};
      var row := db.releases[r];
      if row.collection == c && (latest.None? || db.releases[latest.value].generation <= row.generation) {
        latest := Some(r);
      }
    }
  }

  class ContentService {
    const u: Unicode
    var course: CourseStatus
    var collections: map<Id, Collection>
    var releases: map<Id, Release>
    var jobs: map<JobKey, Job>
    var refs: map<Id, Commit>
    var flight: Option<Flight>
    ghost var hist: map<Id, seq<Version>>
    ghost var line: map<Id, seq<Id>>
    ghost var owner: map<Id, JobKey>

    ghost function State(): World reads this {
      World(course, Db(collections, releases, jobs), refs, flight, hist, line, owner)
    }

    ghost predicate Valid() reads this {
      u.Sane() && Inv(Check(u), State())
    }

    constructor (u: Unicode)
      requires u.Sane()
      ensures Valid() && State() == EMPTY && this.u == u
    {
      this.u := u;
      course := Preparation;
      collections, releases, jobs, refs, flight := map[], map[], map[], map[], None;
      hist, line, owner := map[], map[], map[];
      new;
      EmptyIsFine(Check(u));
    }

    /** The course's own status, set by its administration at any time. */
    method SetStatus(status: CourseStatus) returns (reply: Reply)
      requires Valid()
      modifies `course
      ensures Valid() && (State(), reply) == Next(Check(u), old(State()), SetCourse(status))
    {
      StepKeeps(Check(u), State(), SetCourse(status));
      if status.Preparation? && !course.Preparation? {
        return Conflict;
      }
      course := status;
      return Accepted;
    }

    method Create(c: Id, draft: Draft, allowed: bool) returns (reply: Reply)
      requires Valid()
      modifies this
      ensures Valid() && (State(), reply) == Next(Check(u), old(State()), Step.Create(c, draft, allowed))
    {
      StepKeeps(Check(u), State(), Step.Create(c, draft, allowed));
      if course.Archived? || !allowed {
        return Denied;
      }
      if c in collections {
        return Invalid;
      }
      var fresh' := draft.(files := [], note := "");
      collections := collections[c := Collection(fresh', 1, 0, None, Drafted)];
      hist := hist[c := [Version(fresh', 0)]];
      line := line[c := []];
      return Accepted;
    }

    /** Write a draft back under the next revision. */
    method Save(c: Id, draft: Draft)
      requires c in collections && c in hist
      modifies `collections, `hist
      ensures State() == Edited(old(State()), c, draft)
    {
      var row := collections[c];
      collections := collections[c := row.(draft := draft, revision := row.revision + 1)];
      hist := hist[c := hist[c] + [Version(draft, row.generation)]];
    }

    method Update(c: Id, revision: nat, fields: Draft, allowed: bool) returns (reply: Reply)
      requires Valid()
      modifies this
      ensures Valid() && (State(), reply) == Next(Check(u), old(State()), Step.Update(c, revision, fields, allowed))
    {
      StepKeeps(Check(u), State(), Step.Update(c, revision, fields, allowed));
      if course.Archived? {
        return Denied;
      }
      if c !in collections {
        assert c in hist ==> RowOk(State(), c);
        return NotFound;
      }
      assert RowOk(State(), c);
      if collections[c].revision != revision {
        return Conflict;
      }
      if !allowed {
        return Denied;
      }
      Save(c, fields.(files := collections[c].draft.files));
      return Accepted;
    }

    method Upload(c: Id, revision: nat, file: File) returns (reply: Reply)
      requires Valid()
      modifies this
      ensures Valid() && (State(), reply) == Next(Check(u), old(State()), Step.Upload(c, revision, file))
    {
      StepKeeps(Check(u), State(), Step.Upload(c, revision, file));
      if course.Archived? {
        return Denied;
      }
      if c !in collections {
        return NotFound;
      }
      assert RowOk(State(), c);
      if collections[c].revision != revision {
        return Conflict;
      }
      var draft := collections[c].draft;
      var files := FilesWithout(draft.files, file.path);
      files := files + [file];
      var ok := CheckFileSet(u, files);
      if !ok {
        return Invalid;
      }
      Save(c, draft.(files := files));
      return Accepted;
    }

    method RemoveFile(c: Id, revision: nat, path: string) returns (reply: Reply)
      requires Valid()
      modifies this
      ensures Valid() && (State(), reply) == Next(Check(u), old(State()), Step.Remove(c, revision, path))
    {
      StepKeeps(Check(u), State(), Step.Remove(c, revision, path));
      if course.Archived? {
        return Denied;
      }
      if c !in collections {
        return NotFound;
      }
      assert RowOk(State(), c);
      if collections[c].revision != revision {
        return Conflict;
      }
      var draft := collections[c].draft;
      var found := FindPath(draft.files, path);
      if !found {
        return NotFound;
      }
      var files := FilesWithout(draft.files, path);
      Save(c, draft.(files := files));
      return Accepted;
    }

    method Withdraw(c: Id, revision: nat) returns (reply: Reply)
      requires Valid()
      modifies this
      ensures Valid() && (State(), reply) == Next(Check(u), old(State()), Step.Withdraw(c, revision))
    {
      StepKeeps(Check(u), State(), Step.Withdraw(c, revision));
      if !course.Active? {
        return Denied;
      }
      if c !in collections {
        return NotFound;
      }
      assert RowOk(State(), c);
      var row := collections[c];
      if row.revision != revision || row.current.None? {
        return Conflict;
      }
      collections := collections[c := row.(current := None, status := Withdrawn, revision := row.revision + 1)];
      hist := hist[c := hist[c] + [Version(row.draft, row.generation)]];
      return Accepted;
    }

    /** The lock, the checks and the first transaction of a publish call. */
    method BeginPublish(c: Id, revision: nat, key: Id, actor: Id, drawn: Id, now: int, allowed: bool)
      returns (reply: Reply)
      requires Valid() && drawn !in owner
      modifies `jobs, `flight, `owner
      ensures Valid()
      ensures (State(), reply) == Next(Check(u), old(State()), Begin(c, revision, key, actor, drawn, now, allowed))
    {
      StepKeeps(Check(u), State(), Begin(c, revision, key, actor, drawn, now, allowed));
      reply := Claim(c, revision, key, actor, drawn, now, allowed);
    }

    method Claim(c: Id, revision: nat, key: Id, actor: Id, drawn: Id, now: int, allowed: bool)
      returns (reply: Reply)
      requires drawn !in owner
      modifies `jobs, `flight, `owner
      ensures (State(), reply)
              == BeginStep(Check(u), old(State()), Begin(c, revision, key, actor, drawn, now, allowed))
    {
      var jk := (c, key);
      if flight.Some? {
        return Conflict;
      }
      if !course.Active? {
        return Denied;
      }
      if c !in collections {
        return NotFound;
      }
      var row := collections[c];
      var prior := None;
      if jk in jobs {
        prior := Some(jobs[jk]);
        if jobs[jk].revision != revision || jobs[jk].actor != actor {
          return Conflict;
        }
        if jobs[jk].state.Done? {
          return Replayed(jobs[jk].release);
        }
      }
      if row.revision != revision {
        return Conflict;
      }
      if row.draft.files == [] || row.draft.opensAt > now
          || (row.draft.closesAt.Some? && row.draft.closesAt.value <= now) {
        return Invalid;
      }
      if !allowed {
        return Denied;
      }
      var ok := CheckFileSet(u, row.draft.files);
      if !ok {
        return Invalid;
      }
      var job := Job(revision, actor, drawn, Preparing, now);
      if prior.Some? {
        job := prior.value.(state := Preparing);
      }
      jobs := jobs[jk := job];
      owner := owner[job.release := jk];
      flight := Some(Flight(jk, revision, actor, row, job.release, job.createdAt, Claimed));
      return Accepted;
    }

    /** Build the Git tree and commit, and point the release's ref at it.  Neither the tree
        builder nor the ref can find anything in the way. */
    method PrepareGit(text: File -> bool) returns (reply: Reply, tree: Tree)
      requires Valid() && flight.Some? && flight.value.phase.Claimed?
      modifies `refs, `flight
      ensures Valid() && reply.Accepted?
      ensures exists latest :: IsLatest(State().db, old(flight).value.job.0, latest)
                && (State(), reply) == Next(Check(u), old(State()), Prepare(latest))
      ensures forall parts, oid ::
                Lookup(tree, parts) == Some(oid) <==> Holds(old(flight).value.snapshot.draft.files, text, parts, oid)
    {
      var files := flight.value.snapshot.draft.files;
      TreeIsTheFileMap(u, files, text);
      var grown := Grow(files, text);
      tree := grown.value;
      reply := MakeCommit();
    }

    /** Commit the snapshot on top of the latest release and create the ref, or find it there. */
    method MakeCommit() returns (reply: Reply)
      requires Valid() && flight.Some? && flight.value.phase.Claimed?
      modifies `refs, `flight
      ensures Valid() && reply.Accepted?
      ensures exists latest :: IsLatest(State().db, old(flight).value.job.0, latest)
                && (State(), reply) == Next(Check(u), old(State()), Prepare(latest))
    {
      var latest := Latest(Db(collections, releases, jobs), flight.value.job.0);
      PreparedIsJobCommit(Check(u), State(), latest);
      StepKeeps(Check(u), State(), Prepare(latest));
      reply := PointRef(latest);
    }

    method PointRef(latest: Option<Id>) returns (reply: Reply)
      requires flight.Some? && flight.value.phase.Claimed?
      requires IsLatest(State().db, flight.value.job.0, latest)
      requires flight.value.snapshot.generation > 0 ==> latest.Some? && latest.value in releases
      modifies `refs, `flight
      ensures (State(), reply) == PrepareStep(old(State()), latest)
      ensures reply.Accepted? || reply.Corrupt?
    {
      var f := flight.value;
      var parent := None;
      if f.snapshot.generation > 0 {
        parent := Some(releases[latest.value].commit);
      }
      var commit := Commit(TreeOf(f.job.0, f.snapshot.draft), parent, f.release, f.createdAt);
      if f.release in refs && refs[f.release] != commit {
        return Corrupt;
      }
      refs := refs[f.release := commit];
      flight := Some(f.(phase := Prepared(commit)));
      return Accepted;
    }

    /** The second transaction: the release appears only if the revision has not moved. */
    method FinishPublish(now: int, allowed: bool) returns (reply: Reply)
      requires Valid() && flight.Some? && flight.value.phase.Prepared?
      modifies this
      ensures Valid() && (State(), reply) == Next(Check(u), old(State()), Finish(now, allowed))
    {
      StepKeeps(Check(u), State(), Finish(now, allowed));
      assert RowOk(State(), flight.value.job.0) && JobOk(State(), flight.value.job);
      reply := Expose(now, allowed);
    }

    method Expose(now: int, allowed: bool) returns (reply: Reply)
      requires flight.Some? && flight.value.phase.Prepared? && flight.value.job in jobs
      requires flight.value.job.0 in collections && flight.value.job.0 in hist && flight.value.job.0 in line
      requires flight.value.release !in releases
      modifies this
      ensures (State(), reply) == FinishStep(old(State()), now, allowed)
    {
      if !course.Active? {
        return Denied;
      }
      var f := flight.value;
      var c := f.job.0;
      var row := collections[c];
      if row.revision != f.revision {
        return Conflict;
      }
      if !allowed {
        return Denied;
      }
      if f.snapshot.draft.closesAt.Some? && f.snapshot.draft.closesAt.value <= now {
        return Conflict;
      }
      var g := row.generation + 1;
      releases := releases[f.release := Release(c, g, g, f.revision, f.snapshot.draft, f.phase.commit, f.actor, now)];
      collections := collections[c := row.(current := Some(f.release), generation := g, status := Published,
                                          revision := row.revision + 1)];
      jobs := jobs[f.job := jobs[f.job].(state := Done)];
      flight := Some(f.(phase := Finished));
      hist := hist[c := hist[c] + [Version(row.draft, g)]];
      line := line[c := line[c] + [f.release]];
      return Accepted;
    }

    /** The exception handler: mark the job failed unless it was published, and give up the lock. */
    method FailPublish() returns (reply: Reply)
      requires Valid() && flight.Some?
      modifies `jobs, `flight
      ensures Valid() && (State(), reply) == Next(Check(u), old(State()), Fail)
    {
      StepKeeps(Check(u), State(), Fail);
      var jk := flight.value.job;
      if !jobs[jk].state.Done? {
        jobs := jobs[jk := jobs[jk].(state := Failed)];
      }
      flight := None;
      return Accepted;
    }
  }
}
