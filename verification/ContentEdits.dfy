/** What the edits of a draft do to its files, path by path, in every run. */
module ContentEdits {
  import opened Common
  import opened ContentContract
  import opened ContentStore

  ghost predicate OnePerPath(files: seq<File>) {
    forall i, j :: 0 <= i < j < |files| ==> files[i].path != files[j].path
  }

  ghost predicate NoneAt(files: seq<File>, path: string) {
    forall i :: 0 <= i < |files| ==> files[i].path != path
  }

  /** The list without its one file at the path, if there is one; the others stand in order. */
  ghost predicate TakenOut(files: seq<File>, path: string, rest: seq<File>) {
    if NoneAt(files, path) then rest == files
    else exists i :: 0 <= i < |files| && files[i].path == path && rest == files[..i] + files[i + 1..]
  }

  lemma {:induction false} WithoutNone(files: seq<File>, path: string)
    requires NoneAt(files, path)
    ensures Without(files, path) == files
    decreases |files|
  {
    if files != [] {
      assert files[0].path != path;
      forall i | 0 <= i < |files[1..]| ensures files[1..][i].path != path {
        assert files[1..][i] == files[i + 1];
      }
      WithoutNone(files[1..], path);
    }
  }

  lemma {:induction false} WithoutOne(files: seq<File>, path: string, i: nat)
    requires OnePerPath(files) && i < |files| && files[i].path == path
    ensures Without(files, path) == files[..i] + files[i + 1..]
    decreases |files|
  {
    if i == 0 {
      forall k | 0 <= k < |files[1..]| ensures files[1..][k].path != path {
        assert files[1..][k] == files[k + 1];
      }
      WithoutNone(files[1..], path);
      assert files[..0] + files[1..] == files[1..];
    } else {
      assert files[1..][i - 1] == files[i];
      WithoutOne(files[1..], path, i - 1);
      assert files[..i] == [files[0]] + files[1..][..i - 1] && files[1..][i..] == files[i + 1..];
    }
  }

  lemma WithoutTakesOut(files: seq<File>, path: string)
    requires OnePerPath(files)
    ensures TakenOut(files, path, Without(files, path))
  {
    if NoneAt(files, path) {
      WithoutNone(files, path);
    } else {
      var i :| 0 <= i < |files| && files[i].path == path;
      WithoutOne(files, path, i);
    }
  }

  lemma OneLess(files: seq<File>, i: nat)
    requires OnePerPath(files) && i < |files|
    ensures OnePerPath(files[..i] + files[i + 1..]) && NoneAt(files[..i] + files[i + 1..], files[i].path)
  {
    var rest := files[..i] + files[i + 1..];
    forall k | 0 <= k < |rest| ensures rest[k] == files[if k < i then k else k + 1] {
    }
    forall k, l | 0 <= k < l < |rest| ensures rest[k].path != rest[l].path {
      assert rest[k] == files[if k < i then k else k + 1] && rest[l] == files[if l < i then l else l + 1];
    }
  }

  lemma OneMore(files: seq<File>, file: File)
    requires OnePerPath(files) && NoneAt(files, file.path)
    ensures OnePerPath(files + [file])
  {
    var more := files + [file];
    forall k, l | 0 <= k < l < |more| ensures more[k].path != more[l].path {
      assert more[k] == files[k];
    }
  }

  lemma TakenOutStays(files: seq<File>, path: string, rest: seq<File>, file: File)
    requires OnePerPath(files) && TakenOut(files, path, rest)
    ensures OnePerPath(rest) && NoneAt(rest, path) && (file.path == path ==> OnePerPath(rest + [file]))
  {
    if !NoneAt(files, path) {
      var i :| 0 <= i < |files| && files[i].path == path && rest == files[..i] + files[i + 1..];
      OneLess(files, i);
    }
    if file.path == path {
      OneMore(rest, file);
    }
  }

  // ------------------------------------------------------------ one file to a path, always

  ghost predicate DraftsOk(w: World) {
    forall c {:trigger w.db.collections[c]} :: c in w.db.collections ==> OnePerPath(w.db.collections[c].draft.files)
  }

  lemma EditFiles(accepts: seq<File> -> bool, w: World, c: Id, revision: nat, step: Step)
    requires DraftsOk(w) && (step.Update? || step.Upload? || step.Remove?)
    ensures DraftsOk(EditStep(accepts, w, c, revision, step).0)
  {
    var w' := EditStep(accepts, w, c, revision, step).0;
    if w' != w && !step.Update? {
      var files := w.db.collections[c].draft.files;
      var path := if step.Upload? then step.file.path else step.path;
      assert OnePerPath(w.db.collections[c].draft.files);
      WithoutTakesOut(files, path);
      TakenOutStays(files, path, Without(files, path), if step.Upload? then step.file else files[0]);
    }
  }

  lemma OtherStepFiles(accepts: seq<File> -> bool, w: World, step: Step)
    requires DraftsOk(w) && !(step.Update? || step.Upload? || step.Remove?)
    ensures DraftsOk(Next(accepts, w, step).0)
  {
  }

  lemma {:induction false} RunFiles(accepts: seq<File> -> bool, w: World, steps: seq<Step>)
    requires DraftsOk(w)
    ensures DraftsOk(Run(accepts, w, steps))
    decreases |steps|
  {
    if steps != [] {
      match steps[0] {
        case Update(c, revision, _, _) => EditFiles(accepts, w, c, revision, steps[0]);
        case Upload(c, revision, _) => EditFiles(accepts, w, c, revision, steps[0]);
        case Remove(c, revision, _) => EditFiles(accepts, w, c, revision, steps[0]);
        case _ => OtherStepFiles(accepts, w, steps[0]);
      }
      RunFiles(accepts, Next(accepts, w, steps[0]).0, steps[1..]);
    }
  }

  /** In every run, no two files of a draft have one path. */
  lemma DraftHasOneFilePerPath(accepts: seq<File> -> bool, steps: seq<Step>, c: Id)
    requires c in Run(accepts, EMPTY, steps).db.collections
    ensures OnePerPath(Run(accepts, EMPTY, steps).db.collections[c].draft.files)
  {
    RunFiles(accepts, EMPTY, steps);
    assert c in Run(accepts, EMPTY, steps).db.collections ==>
             OnePerPath(Run(accepts, EMPTY, steps).db.collections[c].draft.files);
  }

  // ------------------------------------------------------------------- what edits do

  /** Nothing but one row changes; its revision was the expected one and has risen by one. */
  ghost predicate OneRowEdited(w: World, w': World, c: Id, revision: nat) {
    && c in w.db.collections && c in w'.db.collections
    && w.db.collections[c].revision == revision && w'.db.collections[c].revision == revision + 1
    && w'.db.collections[c].generation == w.db.collections[c].generation
    && (forall x :: x != c ==> (x in w'.db.collections <==> x in w.db.collections))
    && (forall x :: x != c && x in w.db.collections ==> w'.db.collections[x] == w.db.collections[x])
    && w'.db.releases == w.db.releases && w'.db.jobs == w.db.jobs && w'.refs == w.refs && w'.flight == w.flight
    && w'.course == w.course
  }

  /** What is published stays published. */
  ghost predicate PublicationStands(a: Collection, b: Collection) {
    b.current == a.current && b.status == a.status
  }

  lemma Known(accepts: seq<File> -> bool, steps: seq<Step>, c: Id) returns (w: World)
    ensures w == Run(accepts, EMPTY, steps) && Inv(accepts, w)
    ensures c in w.db.collections ==> RowOk(w, c) && OnePerPath(w.db.collections[c].draft.files)
  {
    w := Run(accepts, EMPTY, steps);
    EmptyIsFine(accepts);
    RunKeeps(accepts, EMPTY, steps);
    if c in w.db.collections {
      assert RowOk(w, c);
      DraftHasOneFilePerPath(accepts, steps, c);
    }
  }

  /** In every run: an accepted upload changes the files at its path alone.  The others stand, in
      order, and the path holds exactly the new file, which comes last.  A refused one changes
      nothing. */
  lemma UploadChangesOnePath(accepts: seq<File> -> bool, steps: seq<Step>, c: Id, revision: nat, file: File)
    ensures var w := Run(accepts, EMPTY, steps);
            var n := Next(accepts, w, Upload(c, revision, file));
            if n.1.Accepted? then
              && OneRowEdited(w, n.0, c, revision) && !w.course.Archived?
              && PublicationStands(w.db.collections[c], n.0.db.collections[c])
              && var before, after := w.db.collections[c].draft, n.0.db.collections[c].draft;
              && after == before.(files := after.files) && accepts(after.files)
              && exists rest :: TakenOut(before.files, file.path, rest) && after.files == rest + [file]
            else n.0 == w
  {
    var w := Known(accepts, steps, c);
    if c in w.db.collections {
      WithoutTakesOut(w.db.collections[c].draft.files, file.path);
    }
  }

  /** It is accepted exactly on a course that is not archived, at the expected revision, if the
      resulting list is acceptable. */
  lemma UploadAcceptedIff(accepts: seq<File> -> bool, steps: seq<Step>, c: Id, revision: nat, file: File)
    ensures var w := Run(accepts, EMPTY, steps);
            Next(accepts, w, Upload(c, revision, file)).1.Accepted? <==>
              && c in w.db.collections && !w.course.Archived? && w.db.collections[c].revision == revision
              && exists rest :: TakenOut(w.db.collections[c].draft.files, file.path, rest) && accepts(rest + [file])
  {
    var w := Known(accepts, steps, c);
    if c in w.db.collections {
      var files := w.db.collections[c].draft.files;
      WithoutTakesOut(files, file.path);
      forall rest | TakenOut(files, file.path, rest) ensures rest == Without(files, file.path) {
        TakenOutOnce(files, file.path, rest, Without(files, file.path));
      }
    }
  }

  lemma TakenOutOnce(files: seq<File>, path: string, a: seq<File>, b: seq<File>)
    requires OnePerPath(files) && TakenOut(files, path, a) && TakenOut(files, path, b)
    ensures a == b
  {
    if !NoneAt(files, path) {
      var i :| 0 <= i < |files| && files[i].path == path && a == files[..i] + files[i + 1..];
      var j :| 0 <= j < |files| && files[j].path == path && b == files[..j] + files[j + 1..];
      assert i == j;
    }
  }

  /** In every run: a removal is accepted exactly on a course that is not archived, at the expected
      revision, if some file has the path.  Then that one file goes and the others stand, in order. */
  lemma RemoveTakesOnePath(accepts: seq<File> -> bool, steps: seq<Step>, c: Id, revision: nat, path: string)
    ensures var w := Run(accepts, EMPTY, steps);
            var n := Next(accepts, w, Remove(c, revision, path));
            if n.1.Accepted? then
              && OneRowEdited(w, n.0, c, revision)
              && PublicationStands(w.db.collections[c], n.0.db.collections[c])
              && var before, after := w.db.collections[c].draft, n.0.db.collections[c].draft;
              && after == before.(files := after.files) && TakenOut(before.files, path, after.files)
            else n.0 == w
    ensures var w := Run(accepts, EMPTY, steps);
            Next(accepts, w, Remove(c, revision, path)).1.Accepted? <==>
              && c in w.db.collections && !w.course.Archived? && w.db.collections[c].revision == revision
              && !NoneAt(w.db.collections[c].draft.files, path)
  {
    var w := Known(accepts, steps, c);
    if c in w.db.collections {
      WithoutTakesOut(w.db.collections[c].draft.files, path);
    }
  }

  /** New fields leave the files alone. */
  lemma UpdateLeavesFiles(accepts: seq<File> -> bool, steps: seq<Step>, c: Id, revision: nat, fields: Draft,
                          allowed: bool)
    ensures var w := Run(accepts, EMPTY, steps);
            var n := Next(accepts, w, Update(c, revision, fields, allowed));
            if n.1.Accepted? then
              && OneRowEdited(w, n.0, c, revision)
              && PublicationStands(w.db.collections[c], n.0.db.collections[c])
              && n.0.db.collections[c].draft == fields.(files := w.db.collections[c].draft.files)
            else n.0 == w
    ensures var w := Run(accepts, EMPTY, steps);
            Next(accepts, w, Update(c, revision, fields, allowed)).1.Accepted? <==>
              c in w.db.collections && !w.course.Archived? && w.db.collections[c].revision == revision && allowed
  {
    var w := Known(accepts, steps, c);
  }

  /** Taking a release back leaves the draft and the release, and needs a current one. */
  lemma WithdrawLeavesDraft(accepts: seq<File> -> bool, steps: seq<Step>, c: Id, revision: nat)
    ensures var w := Run(accepts, EMPTY, steps);
            var n := Next(accepts, w, Withdraw(c, revision));
            if n.1.Accepted? then
              && OneRowEdited(w, n.0, c, revision)
              && n.0.db.collections[c].draft == w.db.collections[c].draft && n.0.db.collections[c].current.None?
            else n.0 == w
    ensures var w := Run(accepts, EMPTY, steps);
            Next(accepts, w, Withdraw(c, revision)).1.Accepted? <==>
              && c in w.db.collections && w.course.Active? && w.db.collections[c].revision == revision
              && w.db.collections[c].current.Some?
  {
    var w := Known(accepts, steps, c);
  }

  /** Removing what was uploaded at a fresh path brings the draft back as it was. */
  lemma RemoveUndoesUpload(accepts: seq<File> -> bool, steps: seq<Step>, c: Id, revision: nat, file: File)
    requires var w := Run(accepts, EMPTY, steps);
             && Next(accepts, w, Upload(c, revision, file)).1.Accepted?
             && c in w.db.collections && NoneAt(w.db.collections[c].draft.files, file.path)
    ensures var w := Run(accepts, EMPTY, steps);
            var n := Next(accepts, Next(accepts, w, Upload(c, revision, file)).0, Remove(c, revision + 1, file.path));
            && n.1.Accepted? && c in n.0.db.collections
            && n.0.db.collections[c].draft == w.db.collections[c].draft
  {
    var w := Known(accepts, steps, c);
    var files := w.db.collections[c].draft.files;
    WithoutNone(files, file.path);
    var after := files + [file];
    OneMore(files, file);
    WithoutOne(after, file.path, |files|);
    assert after[..|files|] + after[|files| + 1..] == files;
    assert after[|files|].path == file.path;
  }

  /** A new collection appears exactly under a new id, on a course that is not archived, with allowed
      students.  It starts without files, note or releases, at revision 1, and all else stays. */
  lemma CreateStartsEmpty(accepts: seq<File> -> bool, steps: seq<Step>, c: Id, draft: Draft, allowed: bool)
    ensures var w := Run(accepts, EMPTY, steps);
            var n := Next(accepts, w, Create(c, draft, allowed));
            && (n.1.Accepted? <==> c !in w.db.collections && !w.course.Archived? && allowed)
            && if n.1.Accepted? then
                 n.0.db == w.db.(collections := w.db.collections[c := Collection(
                   Draft(draft.title, draft.instructions, "", draft.opensAt, draft.closesAt, draft.students, []),
                   1, 0, None, Drafted)])
                 && n.0.refs == w.refs && n.0.flight == w.flight && n.0.course == w.course
               else n.0 == w
  {
  }

  /** An activated or archived course never returns to preparation; nothing but the status changes. */
  lemma NoWayBackToPreparation(accepts: seq<File> -> bool, w: World, status: CourseStatus)
    ensures var n := Next(accepts, w, SetCourse(status));
            && n.0 == w.(course := n.0.course)
            && (n.1.Accepted? <==> n.0.course == status)
            && (!n.1.Accepted? <==> status == Preparation && w.course != Preparation)
  {
  }
}
