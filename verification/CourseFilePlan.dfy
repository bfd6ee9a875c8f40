/** `CourseFilePlan` and `_finish` as they run, one disk operation after another, on a
    machine that may stop anywhere.  Their operation lists are those of
    CourseDeletionFiles; CourseDeletionRecovery proves what the lists achieve. */
module CourseFilePlan {
  import opened Common
  import opened CourseDeletionFiles
  import opened CourseDeletionRecovery

  /** What a run does next after `o`: a dead process performs nothing. */
  function Resume(o: Outcome, ops: seq<Op>): Outcome {
    if o.crashed then o else Cut(o.disk, o.budget, ops)
  }

  /** Performing a list in two parts is performing it. */
  lemma ResumeConcat(o: Outcome, a: seq<Op>, b: seq<Op>)
    ensures Resume(o, a + b) == Resume(Resume(o, a), b)
  {
    if !o.crashed && |a| <= o.budget {
      ExecConcat(o.disk, a, b);
      if |a + b| > o.budget {
        assert (a + b)[..o.budget] == a + b[..o.budget - |a|];
        ExecConcat(o.disk, a, b[..o.budget - |a|]);
      }
    } else if !o.crashed {
      assert (a + b)[..o.budget] == a[..o.budget];
    }
  }

  class Machine {
    var disk: Disk
    var budget: nat
    var crashed: bool

    constructor (disk: Disk, budget: nat)
      ensures Now() == Outcome(disk, budget, false)
    {
      this.disk, this.budget, this.crashed := disk, budget, false;
    }

    ghost function Now(): Outcome
      reads this
    {
      Outcome(disk, budget, crashed)
    }

    method Do(op: Op)
      modifies this
      ensures Now() == Resume(old(Now()), [op])
    {
      assert [op][..0] == [] && [op][1..] == [];
      assert Exec(Apply(disk, op), []) == Apply(disk, op) == Exec(disk, [op]);
      if !crashed {
        if budget == 0 {
          crashed := true;
        } else {
          disk, budget := Apply(disk, op), budget - 1;
        }
      }
    }

    method DoTwo(a: Op, b: Op)
      modifies this
      ensures Now() == Resume(old(Now()), [a, b])
    {
      ResumeConcat(Now(), [a], [b]);
      assert [a] + [b] == [a, b];
      Do(a);
      Do(b);
    }

    method DoThree(a: Op, b: Op, c: Op)
      modifies this
      ensures Now() == Resume(old(Now()), [a, b, c])
    {
      ResumeConcat(Now(), [a, b], [c]);
      assert [a, b] + [c] == [a, b, c];
      DoTwo(a, b);
      Do(c);
    }
  }

  class CourseFilePlan {
    const manifest: Manifest

    constructor (manifest: Manifest)
      ensures this.manifest == manifest
    {
      this.manifest := manifest;
    }

    /** Writes the whole intent, then moves every listed root into staging. */
    method Stage(machine: Machine) returns (ok: bool)
      modifies machine
      ensures machine.Now() == Resume(old(machine.Now()), StageProgram(old(machine.disk), manifest).ops)
      ensures !machine.crashed ==> ok == StageProgram(old(machine.disk), manifest).ok
    {
      ghost var d := machine.disk;
      ghost var program := StageProgram(d, manifest);
      ghost var goal := Resume(machine.Now(), program.ops);
      if machine.disk.folder.Present? {
        assert Resume(machine.Now(), []) == machine.Now();
        return false;
      }
      var es := manifest.entries;
      ghost var rest := StageFrom(Exec(d, Intent(manifest)), es, 0);
      ResumeConcat(machine.Now(), Intent(manifest), rest.ops);
      ResumeConcat(machine.Now(), [MakeFolder, MakeFilesDir], [WriteTemporary, PublishManifest(manifest)]);
      assert [MakeFolder, MakeFilesDir] + [WriteTemporary, PublishManifest(manifest)] == Intent(manifest);
      machine.DoTwo(MakeFolder, MakeFilesDir);
      machine.DoTwo(WriteTemporary, PublishManifest(manifest));
      var i := 0;
      while i < |es|
        invariant 0 <= i <= |es|
        invariant goal == Resume(machine.Now(), rest.ops) && program.ok == rest.ok
        invariant !machine.crashed ==> rest == StageFrom(machine.disk, es, i)
      {
        if machine.crashed {
          return false;
        }
        var e := es[i];
        if e.path.Root? || e.path !in machine.disk.tree || e.path.parent !in machine.disk.tree
          || machine.disk.tree[e.path].id != e.id {
          return false;
        }
        ghost var ops := StashOps(machine.disk, e.path, i);
        ghost var next := StageFrom(Exec(machine.disk, ops), es, i + 1);
        assert rest == Program(ops + next.ops, next.ok);
        ResumeConcat(machine.Now(), ops, next.ops);
        MoveOut(machine, e.path, i);
        rest := next;
        i := i + 1;
      }
      ok := true;
    }

    /** `_move` into staging, under a parent made writable and then restored. */
    static method MoveOut(machine: Machine, path: Path, i: nat)
      requires path.In? && path in machine.disk.tree && path.parent in machine.disk.tree
      modifies machine
      ensures machine.Now() == Resume(old(machine.Now()), StashOps(old(machine.disk), path, i))
    {
      ghost var start := machine.Now();
      var n, up := machine.disk.tree[path], machine.disk.tree[path.parent].mode;
      machine.Do(Chmod(path.parent, Widen(up)));
      ghost var move := [Stash(path, i)];
      if n.dir {
        machine.DoThree(Chmod(path, Widen(n.mode)), Stash(path, i), ChmodStaged(i, n.mode));
        move := [Chmod(path, Widen(n.mode)), Stash(path, i), ChmodStaged(i, n.mode)];
      } else {
        machine.Do(Stash(path, i));
      }
      machine.Do(Chmod(path.parent, up));
      ResumeConcat(start, [Chmod(path.parent, Widen(up))], move);
      ResumeConcat(start, [Chmod(path.parent, Widen(up))] + move, [Chmod(path.parent, up)]);
    }

    /** `rollback` (not committed) and `purge` (committed): both are `_finish`. */
    method Close(machine: Machine, committed: bool, manifestFirst: bool) returns (ok: bool)
      modifies machine
      ensures machine.Now() == Resume(old(machine.Now()),
                FinishProgram(old(machine.disk), committed, manifestFirst).ops)
      ensures !machine.crashed ==> ok == FinishProgram(old(machine.disk), committed, manifestFirst).ok
    {
      ok := Finish(machine, committed, manifestFirst);
    }
  }

  method MoveBack(machine: Machine, path: Path, i: nat)
    requires path.In? && machine.disk.folder.Present? && i in machine.disk.folder.staged
    modifies machine
    ensures machine.Now() == Resume(old(machine.Now()), RestoreOps(old(machine.disk), path, i))
  {
    ghost var start := machine.Now();
    var n := machine.disk.folder.staged[i];
    var up := OWNER_ONLY;
    ghost var make: seq<Op> := [];
    if path.parent in machine.disk.tree {
      up := machine.disk.tree[path.parent].mode;
    } else {
      machine.Do(MakeDir(path.parent));
      make := [MakeDir(path.parent)];
    }
    ResumeConcat(start, make, [Chmod(path.parent, Widen(up))]);
    assert Resume(start, []) == start;
    machine.Do(Chmod(path.parent, Widen(up)));
    ghost var move := [Restore(i, path)];
    if n.dir {
      machine.DoThree(ChmodStaged(i, Widen(n.mode)), Restore(i, path), Chmod(path, n.mode));
      move := [ChmodStaged(i, Widen(n.mode)), Restore(i, path), Chmod(path, n.mode)];
    } else {
      machine.Do(Restore(i, path));
    }
    machine.Do(Chmod(path.parent, up));
    ghost var a := make + [Chmod(path.parent, Widen(up))];
    ResumeConcat(start, a, move);
    ResumeConcat(start, a + move, [Chmod(path.parent, up)]);
  }

  method Remove(machine: Machine, i: nat)
    requires machine.disk.folder.Present? && i in machine.disk.folder.staged
    modifies machine
    ensures machine.Now() == Resume(old(machine.Now()), DiscardOps(old(machine.disk).folder.staged[i], i))
  {
    ghost var start := machine.Now();
    ResumeConcat(start, [ChmodStaged(i, OWNER_ONLY), Shred(i)], [Discard(i)]);
    assert Resume(start, []) == start && [] + [Discard(i)] == [Discard(i)];
    if machine.disk.folder.staged[i].dir {
      machine.DoTwo(ChmodStaged(i, OWNER_ONLY), Shred(i));
    }
    machine.Do(Discard(i));
  }

  /** One turn of the first loop of `_finish`. */
  method TakeOutEntry(machine: Machine, e: Entry, i: nat, committed: bool) returns (ok: bool)
    modifies machine
    ensures machine.Now() == Resume(old(machine.Now()), FinishEntry(old(machine.disk), e, i, committed).ops)
    ensures ok == FinishEntry(old(machine.disk), e, i, committed).ok
  {
    assert Resume(machine.Now(), []) == machine.Now();
    if machine.disk.folder.Present? && i in machine.disk.folder.staged {
      if machine.disk.folder.staged[i].id != e.id {
        return false;
      }
      if committed {
        Remove(machine, i);
      } else if e.path.Root? || e.path in machine.disk.tree {
        return false;
      } else {
        MoveBack(machine, e.path, i);
      }
    }
    ok := true;
  }

  /** First loop of `_finish`: put back or destroy, last entry first. */
  method TakeOut(machine: Machine, es: seq<Entry>, committed: bool) returns (ok: bool)
    modifies machine
    ensures machine.Now() == Resume(old(machine.Now()), FinishDown(old(machine.disk), es, |es|, committed).ops)
    ensures !machine.crashed ==> ok == FinishDown(old(machine.disk), es, |es|, committed).ok
  {
    ghost var program := FinishDown(machine.disk, es, |es|, committed);
    ghost var goal, rest := Resume(machine.Now(), program.ops), program;
    var i := |es|;
    while i > 0
      invariant 0 <= i <= |es|
      invariant goal == Resume(machine.Now(), rest.ops) && program.ok == rest.ok
      invariant !machine.crashed ==> rest == FinishDown(machine.disk, es, i, committed)
    {
      if machine.crashed {
        return false;
      }
      i := i - 1;
      ghost var turn := FinishEntry(machine.disk, es[i], i, committed);
      ghost var next := FinishDown(Exec(machine.disk, turn.ops), es, i, committed);
      ResumeConcat(machine.Now(), turn.ops, next.ops);
      ok := TakeOutEntry(machine, es[i], i, committed);
      if !ok {
        return;
      }
      rest := next;
    }
    ok := true;
  }

  /** One turn of the second loop of `_finish`. */
  method RepairOne(machine: Machine, e: Entry, committed: bool) returns (ok: bool)
    modifies machine
    ensures machine.Now() == Resume(old(machine.Now()), RepairEntry(old(machine.disk), e, committed).ops)
    ensures ok == RepairEntry(old(machine.disk), e, committed).ok
  {
    assert Resume(machine.Now(), []) == machine.Now();
    if e.path.Root? {
      return false;
    }
    var stranger := e.path.parent !in machine.disk.tree || machine.disk.tree[e.path.parent].id != e.parentId;
    ghost var own: seq<Op> := [];
    ghost var start := machine.Now();
    if !committed && e.path in machine.disk.tree && machine.disk.tree[e.path].id == e.id {
      machine.Do(Chmod(e.path, e.mode));
      own := [Chmod(e.path, e.mode)];
    }
    if stranger {
      return false;
    }
    ResumeConcat(start, own, [Chmod(e.path.parent, e.parentMode)]);
    machine.Do(Chmod(e.path.parent, e.parentMode));
    ok := true;
  }

  /** Second loop of `_finish`: permission bits of entries and parents. */
  method Repair(machine: Machine, es: seq<Entry>, committed: bool) returns (ok: bool)
    modifies machine
    ensures machine.Now() == Resume(old(machine.Now()), RepairFrom(old(machine.disk), es, 0, committed).ops)
    ensures !machine.crashed ==> ok == RepairFrom(old(machine.disk), es, 0, committed).ok
  {
    ghost var program := RepairFrom(machine.disk, es, 0, committed);
    ghost var goal, rest := Resume(machine.Now(), program.ops), program;
    var i := 0;
    while i < |es|
      invariant 0 <= i <= |es|
      invariant goal == Resume(machine.Now(), rest.ops) && program.ok == rest.ok
      invariant !machine.crashed ==> rest == RepairFrom(machine.disk, es, i, committed)
    {
      if machine.crashed {
        return false;
      }
      ghost var turn := RepairEntry(machine.disk, es[i], committed);
      ghost var next := RepairFrom(Exec(machine.disk, turn.ops), es, i + 1, committed);
      ResumeConcat(machine.Now(), turn.ops, next.ops);
      ok := RepairOne(machine, es[i], committed);
      if !ok {
        return;
      }
      rest := next;
      i := i + 1;
    }
    ok := true;
  }

  method Finish(machine: Machine, committed: bool, manifestFirst: bool) returns (ok: bool)
    modifies machine
    ensures machine.Now() == Resume(old(machine.Now()), FinishProgram(old(machine.disk), committed, manifestFirst).ops)
    ensures !machine.crashed ==> ok == FinishProgram(old(machine.disk), committed, manifestFirst).ok
  {
    ghost var start, d := machine.Now(), machine.disk;
    assert Resume(start, []) == start;
    if machine.disk.folder.Absent? {
      return true;
    }
    if machine.disk.folder.manifest.None? {
      if !committed && machine.disk.folder.staged == map[] {
        machine.DoThree(DropFiles, DropTemporary, DropFolder);
        return true;
      }
      return false;
    }
    var m := machine.disk.folder.manifest.value;
    if m.bytes > MAX_MANIFEST_BYTES {
      return false;
    }
    if committed && m.purpose.Deletion? && !machine.disk.marked {
      machine.Do(Mark);
    }
    ghost var a := MarkOps(d, m, committed);
    ghost var p1 := FinishDown(Exec(d, a), m.entries, |m.entries|, committed);
    ghost var p2 := RepairFrom(Exec(Exec(d, a), p1.ops), m.entries, 0, committed);
    ghost var e := RemoveFolder(manifestFirst);
    ghost var tail := Then(p1, Then(p2, Program(e, true)));
    assert FinishProgram(d, committed, manifestFirst) == Program(a + tail.ops, tail.ok);
    ResumeConcat(start, a, tail.ops);
    if machine.crashed {
      return false;
    }
    ok := TakeOut(machine, m.entries, committed);
    ResumeConcat(Resume(start, a), p1.ops, Then(p2, Program(e, true)).ops);
    if machine.crashed || !ok {
      return false;
    }
    ok := Repair(machine, m.entries, committed);
    ResumeConcat(Resume(Resume(start, a), p1.ops), p2.ops, e);
    if machine.crashed || !ok {
      return false;
    }
    if manifestFirst {
      machine.DoThree(DropManifest, DropFiles, DropFolder);
    } else {
      machine.DoThree(DropFiles, DropManifest, DropFolder);
    }
    assert e == if manifestFirst then [DropManifest, DropFiles, DropFolder] else [DropFiles, DropManifest, DropFolder];
  }

  /** A course deletion: stage inside the transaction, then purge if it committed, roll back
      if it failed or staging refused.  The journal row exists exactly when it committed. */
  method Delete(machine: Machine, manifest: Manifest, databaseCommits: bool, manifestFirst: bool)
    returns (committed: bool)
    requires !machine.crashed
    modifies machine
    ensures var staged := Resume(old(machine.Now()), StageProgram(old(machine.disk), manifest).ops);
            && committed == (databaseCommits && !staged.crashed && StageProgram(old(machine.disk), manifest).ok)
            && machine.Now() == Resume(staged, FinishProgram(staged.disk, committed, manifestFirst).ops)
  {
    var plan := new CourseFilePlan(manifest);
    var ok := plan.Stage(machine);
    committed := ok && databaseCommits && !machine.crashed;
    ok := plan.Close(machine, committed, manifestFirst);
  }

  /** What `Delete` leaves is one of the lifetimes CourseDeletionRecovery reasons about, so
      a deletion that returns has erased exactly the listed roots or restored all of them. */
  lemma DeleteRestoresOrErases(d: Disk, m: Manifest, budget: nat, databaseCommits: bool, manifestFirst: bool)
    requires Listed(d.tree, m.entries) && d.folder.Absent? && m.bytes <= MAX_MANIFEST_BYTES
    ensures var staged := Cut(d, budget, StageProgram(d, m).ops);
            var committed := databaseCommits && !staged.crashed && StageProgram(d, m).ok;
            var end := Resume(staged, FinishProgram(staged.disk, committed, manifestFirst).ops);
            !end.crashed ==>
              && end.disk.folder.Absent?
              && end.disk.tree == (if committed then (map p | p in d.tree && !IsListed(m.entries, p) :: d.tree[p])
                   else d.tree)
              && end.disk.marked == (d.marked || (committed && m.purpose.Deletion?))
  {
    StageKeeps(d, m);
    var staged := Cut(d, budget, StageProgram(d, m).ops);
    var c := Committed(d, m, budget, databaseCommits);
    var p := FinishProgram(staged.disk, c, manifestFirst);
    var end := Resume(staged, p.ops);
    if !end.crashed {
      var only := Attempt(staged.budget, manifestFirst);
      RecoveryCompletes(d, m, budget, databaseCommits, [], only);
      assert Believed(staged.disk, m.purpose, c) == c ==>
          Restart(staged.disk, m.purpose, c, [only]) == Restart(end.disk, m.purpose, c, []);
      if c && staged.disk.folder.Present? && staged.disk.folder.manifest.None? {
        ManifestDurable(d, m, budget);
      }
      CrashSafety(d, m, budget, databaseCommits, [only]);
    }
  }
}
