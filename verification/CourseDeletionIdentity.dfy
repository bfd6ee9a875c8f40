/** Only the files that were listed are moved or removed: a file that was put in the place of
    another one after the listing is never touched. */
module CourseDeletionIdentity {
  import opened Common
  import opened CourseDeletionFiles
  import opened CourseDeletionRecovery

  /** What is in staging at a slot is the very file that was listed for it. */
  ghost predicate SlotsTrue(d: Disk, es: seq<Entry>) {
    d.folder.Present? ==> forall i :: i in d.folder.staged ==> i < |es| && d.folder.staged[i].id == es[i].id
  }

  /** No file has appeared, and those left are the ones there were. */
  ghost predicate NoNewFiles(d: Disk, d': Disk) {
    forall p :: p in d'.tree ==> p in d.tree && d'.tree[p].id == d.tree[p].id
  }

  /** An operation of staging that can only put the listed file of its slot there. */
  ghost predicate Careful(d: Disk, es: seq<Entry>, op: Op) {
    match op
    case Stash(p, i) => i < |es| && (p in d.tree ==> d.tree[p].id == es[i].id)
    case Chmod(_, _) => true
    case ChmodStaged(_, _) => true
    case _ => false
  }

  lemma CarefulKeeps(d: Disk, es: seq<Entry>, op: Op)
    requires SlotsTrue(d, es) && Careful(d, es, op)
    ensures SlotsTrue(Apply(d, op), es) && NoNewFiles(d, Apply(d, op))
  {
  }

  /** Every prefix of the operations keeps the slots true. */
  ghost predicate AllTrue(d: Disk, es: seq<Entry>, ops: seq<Op>)
    decreases |ops|
  {
    SlotsTrue(d, es) && (ops != [] ==> AllTrue(Apply(d, ops[0]), es, ops[1..]))
  }

  lemma {:induction false} AllTrueAt(d: Disk, es: seq<Entry>, ops: seq<Op>, k: nat)
    requires AllTrue(d, es, ops) && k <= |ops|
    ensures SlotsTrue(Exec(d, ops[..k]), es)
    decreases k
  {
    if k > 0 {
      assert ops[..k][0] == ops[0] && ops[..k][1..] == ops[1..][..k - 1];
      AllTrueAt(Apply(d, ops[0]), es, ops[1..], k - 1);
    }
  }

  lemma {:induction false} AllTrueConcat(d: Disk, es: seq<Entry>, a: seq<Op>, b: seq<Op>)
    requires AllTrue(d, es, a) && AllTrue(Exec(d, a), es, b)
    ensures AllTrue(d, es, a + b)
    decreases |a|
  {
    if a == [] {
      assert a + b == b;
    } else {
      assert (a + b)[0] == a[0] && (a + b)[1..] == a[1..] + b;
      AllTrueConcat(Apply(d, a[0]), es, a[1..], b);
    }
  }

  lemma CarefulStep(d: Disk, es: seq<Entry>, op: Op, rest: seq<Op>)
    requires SlotsTrue(d, es) && Careful(d, es, op) && AllTrue(Apply(d, op), es, rest)
    ensures AllTrue(d, es, [op] + rest) && Exec(d, [op] + rest) == Exec(Apply(d, op), rest)
  {
    assert ([op] + rest)[0] == op && ([op] + rest)[1..] == rest;
  }

  lemma CarefulOne(d: Disk, es: seq<Entry>, op: Op, rest: seq<Op>)
    requires SlotsTrue(d, es) && Careful(d, es, op)
    requires AllTrue(Apply(d, op), es, rest) && NoNewFiles(Apply(d, op), Exec(Apply(d, op), rest))
    ensures AllTrue(d, es, [op] + rest) && NoNewFiles(d, Exec(d, [op] + rest))
  {
    CarefulKeeps(d, es, op);
    CarefulStep(d, es, op, rest);
  }

  lemma ChmodIsTrue(d: Disk, es: seq<Entry>, p: Path, mode: Mode)
    requires SlotsTrue(d, es)
    ensures AllTrue(d, es, [Chmod(p, mode)]) && NoNewFiles(d, Exec(d, [Chmod(p, mode)]))
  {
    CarefulKeeps(d, es, Chmod(p, mode));
    CarefulOne(d, es, Chmod(p, mode), []);
    assert [Chmod(p, mode)] + [] == [Chmod(p, mode)];
  }

  /** The middle of a move: what lies between opening the parent and closing it. */
  lemma StashInside(d: Disk, es: seq<Entry>, p: Path, i: nat, widened: Mode, mode: Mode, c: Op)
    requires SlotsTrue(d, es) && i < |es| && (p in d.tree ==> d.tree[p].id == es[i].id) && c.Chmod?
    ensures AllTrue(d, es, [Stash(p, i)] + [c]) && NoNewFiles(d, Exec(d, [Stash(p, i)] + [c]))
    ensures var ops := [Chmod(p, widened)] + ([Stash(p, i)] + ([ChmodStaged(i, mode)] + [c]));
            AllTrue(d, es, ops) && NoNewFiles(d, Exec(d, ops))
  {
    var b1, b2, b3 := Chmod(p, widened), Stash(p, i), ChmodStaged(i, mode);
    CarefulKeeps(d, es, b2);
    ChmodIsTrue(Apply(d, b2), es, c.path, c.mode);
    CarefulOne(d, es, b2, [c]);
    var d1 := Apply(d, b1);
    CarefulKeeps(d, es, b1);
    CarefulKeeps(d1, es, b2);
    CarefulKeeps(Apply(d1, b2), es, b3);
    ChmodIsTrue(Apply(Apply(d1, b2), b3), es, c.path, c.mode);
    CarefulOne(Apply(d1, b2), es, b3, [c]);
    CarefulOne(d1, es, b2, [b3] + [c]);
    CarefulOne(d, es, b1, [b2] + ([b3] + [c]));
  }

  /** One move into staging. */
  lemma StashIsTrue(d: Disk, es: seq<Entry>, i: nat)
    requires SlotsTrue(d, es) && i < |es| && StageEntry(d, es[i], i).ok
    ensures var ops := StageEntry(d, es[i], i).ops;
            AllTrue(d, es, ops) && NoNewFiles(d, Exec(d, ops))
  {
    var p := es[i].path;
    var n, up := d.tree[p], d.tree[p.parent].mode;
    var a, c := Chmod(p.parent, Widen(up)), Chmod(p.parent, up);
    CarefulKeeps(d, es, a);
    StashInside(Apply(d, a), es, p, i, Widen(n.mode), n.mode, c);
    if n.dir {
      var inside := [Chmod(p, Widen(n.mode))] + ([Stash(p, i)] + ([ChmodStaged(i, n.mode)] + [c]));
      CarefulOne(d, es, a, inside);
      assert StashOps(d, p, i) == [a] + inside;
    } else {
      CarefulOne(d, es, a, [Stash(p, i)] + [c]);
      assert StashOps(d, p, i) == [a] + ([Stash(p, i)] + [c]);
    }
  }

  lemma {:induction false} StageIsTrue(d: Disk, es: seq<Entry>, i: nat)
    requires SlotsTrue(d, es) && i <= |es|
    ensures AllTrue(d, es, StageFrom(d, es, i).ops)
    ensures StageFrom(d, es, i).ok ==>
              forall j :: i <= j < |es| ==> es[j].path in d.tree && d.tree[es[j].path].id == es[j].id
    decreases |es| - i
  {
    if i < |es| {
      var p := StageEntry(d, es[i], i);
      if p.ok {
        StashIsTrue(d, es, i);
        var d' := Exec(d, p.ops);
        var rest := StageFrom(d', es, i + 1);
        AllTrueAt(d, es, p.ops, |p.ops|);
        assert p.ops[..|p.ops|] == p.ops;
        StageIsTrue(d', es, i + 1);
        AllTrueConcat(d, es, p.ops, rest.ops);
        assert StageFrom(d, es, i) == Then(p, rest);
      }
    }
  }

  // ---------------------------------------------------------------- the main results

  lemma IntentIsTrue(d: Disk, m: Manifest)
    requires d.folder.Absent?
    ensures AllTrue(d, m.entries, Intent(m))
    ensures Exec(d, Intent(m)).tree == d.tree && SlotsTrue(Exec(d, Intent(m)), m.entries)
  {
    var a := Intent(m);
    var d1 := Apply(d, MakeFolder);
    var d2 := Apply(d1, MakeFilesDir);
    var d3 := Apply(d2, WriteTemporary);
    var d4 := Apply(d3, PublishManifest(m));
    assert a[1..] == [MakeFilesDir, WriteTemporary, PublishManifest(m)];
    assert a[1..][1..] == [WriteTemporary, PublishManifest(m)] && a[1..][1..][1..] == [PublishManifest(m)];
    assert a[1..][1..][1..][1..] == [];
    assert Exec(d4, []) == d4 && AllTrue(d4, m.entries, []);
    assert AllTrue(d3, m.entries, a[1..][1..][1..]) && Exec(d3, a[1..][1..][1..]) == d4;
    assert AllTrue(d2, m.entries, a[1..][1..]) && Exec(d2, a[1..][1..]) == d4;
    assert AllTrue(d1, m.entries, a[1..]) && Exec(d1, a[1..]) == d4;
  }

  /** Whatever happened to the tree since the listing, and wherever staging is cut: what lies in
      staging is the listed file of its slot, never one put in its place. */
  lemma StagingTakesNoStranger(d: Disk, m: Manifest, budget: nat, i: nat)
    requires d.folder.Absent?
    ensures var d' := Cut(d, budget, StageProgram(d, m).ops).disk;
            d'.folder.Present? && i in d'.folder.staged ==>
              i < |m.entries| && d'.folder.staged[i].id == m.entries[i].id
  {
    var d4 := Exec(d, Intent(m));
    var rest := StageFrom(d4, m.entries, 0);
    IntentIsTrue(d, m);
    StageIsTrue(d4, m.entries, 0);
    AllTrueConcat(d, m.entries, Intent(m), rest.ops);
    var ops := StageProgram(d, m).ops;
    assert ops == Intent(m) + rest.ops;
    AllTrueAt(d, m.entries, ops, if budget < |ops| then budget else |ops|);
    assert ops[..|ops|] == ops;
  }

  /** If a listed file is missing or another one is in its place, staging is refused. */
  lemma StagingRefusesStrangers(d: Disk, m: Manifest, i: nat)
    requires d.folder.Absent? && i < |m.entries|
    requires m.entries[i].path !in d.tree || d.tree[m.entries[i].path].id != m.entries[i].id
    ensures !StageProgram(d, m).ok
  {
    IntentIsTrue(d, m);
    StageIsTrue(Exec(d, Intent(m)), m.entries, 0);
  }

  // --------------------------------------------------------------------- recovery

  /** Operations that take nothing out of staging but slot `i`, and nothing out of the tree. */
  predicate OnlySlot(op: Op, i: nat) {
    match op
    case Chmod(_, _) => true
    case MakeDir(_) => true
    case ChmodStaged(_, _) => true
    case Shred(_) => true
    case Restore(k, _) => k == i
    case Discard(k) => k == i
    case _ => false
  }

  /** Slot `j` still holds what it held, and every place that was taken still is. */
  ghost predicate SlotStands(d: Disk, d': Disk, j: nat) {
    && (forall p :: p in d.tree ==> p in d'.tree)
    && (d.folder.Present? ==>
          && d'.folder.Present? && (j in d.folder.staged <==> j in d'.folder.staged)
          && (j in d.folder.staged ==> d'.folder.staged[j].id == d.folder.staged[j].id))
  }

  lemma {:induction false} OthersStand(d: Disk, ops: seq<Op>, i: nat, j: nat)
    requires i != j && forall k :: 0 <= k < |ops| ==> OnlySlot(ops[k], i)
    ensures SlotStands(d, Exec(d, ops), j)
    decreases |ops|
  {
    if ops != [] {
      assert OnlySlot(ops[0], i);
      OthersStand(Apply(d, ops[0]), ops[1..], i, j);
    }
  }

  lemma EntryTakesItsSlot(d: Disk, e: Entry, i: nat, committed: bool)
    ensures var ops := FinishEntry(d, e, i, committed).ops;
            forall k :: 0 <= k < |ops| ==> OnlySlot(ops[k], i)
  {
  }

  /** Slot `j` holds the listed file, and its place is free if it is to go back. */
  ghost predicate MayFinish(d: Disk, e: Entry, j: nat, committed: bool) {
    d.folder.Present? && j in d.folder.staged ==>
      d.folder.staged[j].id == e.id && (!committed ==> e.path !in d.tree)
  }

  /** Recovery, on whatever disk it finds, finishes its first loop only if every slot it takes up
      holds the file that was listed for it and, to be put back, finds its place free. */
  lemma {:induction false} RecoveryRefusesStrangers(d: Disk, es: seq<Entry>, i: nat, committed: bool, j: nat)
    requires j < i <= |es| && FinishDown(d, es, i, committed).ok
    ensures MayFinish(d, es[j], j, committed)
    decreases i
  {
    var p := FinishEntry(d, es[i - 1], i - 1, committed);
    if j < i - 1 {
      EntryTakesItsSlot(d, es[i - 1], i - 1, committed);
      OthersStand(d, p.ops, i - 1, j);
      RecoveryRefusesStrangers(Exec(d, p.ops), es, i - 1, committed, j);
    }
  }

  lemma {:induction false} RepairsKeepFiles(d: Disk, ops: seq<Op>)
    requires forall k :: 0 <= k < |ops| ==> ops[k].Chmod?
    ensures forall p :: p in Exec(d, ops).tree <==> p in d.tree
    ensures forall p :: p in d.tree ==> Exec(d, ops).tree[p].id == d.tree[p].id
    decreases |ops|
  {
    if ops != [] {
      RepairsKeepFiles(Apply(d, ops[0]), ops[1..]);
    }
  }

  /** And its second loop finishes only if every folder that held a listed file is the one it was. */
  lemma {:induction false} RepairRefusesStrangers(d: Disk, es: seq<Entry>, i: nat, committed: bool, j: nat)
    requires i <= j < |es| && RepairFrom(d, es, i, committed).ok
    ensures es[j].path.In? && es[j].path.parent in d.tree && d.tree[es[j].path.parent].id == es[j].parentId
    decreases |es| - i
  {
    if i < j {
      var p := RepairEntry(d, es[i], committed);
      RepairsKeepFiles(d, p.ops);
      RepairRefusesStrangers(Exec(d, p.ops), es, i + 1, committed, j);
    }
  }

  /** A job whose folder is there already is never staged again. */
  lemma StagedOnce(d: Disk, m: Manifest, budget: nat)
    requires d.folder.Present?
    ensures !StageProgram(d, m).ok && Cut(d, budget, StageProgram(d, m).ops).disk == d
  {
  }

  /** The file of slot `i` stands at `path` as it was in the slot, under a folder that is there,
      and the slot is empty. */
  ghost predicate Back(before: Disk, after: Disk, path: Path, i: nat)
    requires before.folder.Present? && i in before.folder.staged
  {
    && path.In? && path in after.tree && after.tree[path] == before.folder.staged[i]
    && path.parent in after.tree
    && after.folder.Present? && i !in after.folder.staged
  }

  /** The moves between making the folder above writable and giving it its permission bits back. */
  function Moves(n: Node, path: Path, i: nat): seq<Op> {
    if n.dir then [ChmodStaged(i, Widen(n.mode)), Restore(i, path), Chmod(path, n.mode)] else [Restore(i, path)]
  }

  /** A folder is made writable for the move and gets its permission bits back after it. */
  lemma MovesBringBack(d: Disk, path: Path, i: nat)
    requires d.folder.Present? && i in d.folder.staged && path.In? && path.parent in d.tree
    ensures Back(d, Exec(d, Moves(d.folder.staged[i], path, i)), path, i)
  {
    var n := d.folder.staged[i];
    if n.dir {
      ExecThree(d, ChmodStaged(i, Widen(n.mode)), Restore(i, path), Chmod(path, n.mode));
    } else {
      ExecTwo(d, Restore(i, path), []);
      assert [Restore(i, path)] + [] == [Restore(i, path)];
    }
  }

  /** The folder above is widened before the moves and gets its permission bits back after them. */
  lemma WrappedMovesBringBack(d: Disk, path: Path, i: nat, wide: Mode, mode: Mode)
    requires d.folder.Present? && i in d.folder.staged && path.In? && path.parent in d.tree
    ensures Back(d, Exec(d, [Chmod(path.parent, wide)] + (Moves(d.folder.staged[i], path, i)
                                                          + [Chmod(path.parent, mode)])), path, i)
  {
    var moves, last := Moves(d.folder.staged[i], path, i), Chmod(path.parent, mode);
    var d1 := Apply(d, Chmod(path.parent, wide));
    ExecTwo(d, Chmod(path.parent, wide), moves + [last]);
    MovesBringBack(d1, path, i);
    ExecConcat(d1, moves, [last]);
    ExecTwo(Exec(d1, moves), last, []);
    assert [last] + [] == [last] && path.parent != path;
  }

  /** A file that goes back is in its place as it lay in its slot, under a folder that was there or was
      made for it, and its slot is empty. */
  lemma FileComesBack(d: Disk, e: Entry, i: nat)
    requires d.folder.Present? && i in d.folder.staged && FinishEntry(d, e, i, false).ok
    ensures d.folder.staged[i].id == e.id
    ensures Back(d, Exec(d, FinishEntry(d, e, i, false).ops), e.path, i)
  {
    var n, path := d.folder.staged[i], e.path;
    var made := if path.parent in d.tree then d else Apply(d, MakeDir(path.parent));
    var up := made.tree[path.parent].mode;
    WrappedMovesBringBack(made, path, i, Widen(up), up);
    var wrapped := [Chmod(path.parent, Widen(up))] + (Moves(n, path, i) + [Chmod(path.parent, up)]);
    if path.parent in d.tree {
      assert RestoreOps(d, path, i) == wrapped;
    } else {
      ExecTwo(d, MakeDir(path.parent), wrapped);
      assert RestoreOps(d, path, i) == [MakeDir(path.parent)] + wrapped;
    }
  }
}
