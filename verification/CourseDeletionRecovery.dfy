/** Crash safety of course erasure: whatever prefix of staging ran, and however often
    recovery itself is cut short, a completed recovery restores or erases exactly. */
module CourseDeletionRecovery {
  import opened Common
  import opened CourseDeletionFiles

  // ------------------------------------------------------------- what is kept

  /** What one job was planned on: the tree and marker before it, its manifest, the entry
      number of every listed path, a child of every folder that holds one, and the commit decision. */
  datatype Plan = Plan(
    tree: map<Path, Node>, m: Manifest, index: map<Path, nat>, homes: map<Path, nat>, committed: bool, marked: bool)
  {
    function At(i: nat): Path
      requires i < |m.entries|
    {
      m.entries[i].path
    }
  }

  /** The manifest is what `CourseFilePlan.__init__` records about the tree: distinct roots,
      none of them the folder that holds another one. */
  ghost predicate Planned(pl: Plan) {
    Numbered(pl) && Homed(pl) && Described(pl)
  }

  ghost predicate Numbered(pl: Plan) {
    && (forall i {:trigger pl.At(i)} :: 0 <= i < |pl.m.entries| ==>
          pl.At(i) in pl.index && pl.index[pl.At(i)] == i && pl.At(i) in pl.tree)
    && (forall p :: p in pl.index ==> pl.index[p] < |pl.m.entries| && pl.At(pl.index[p]) == p)
  }

  ghost predicate Homed(pl: Plan) {
    && (forall i {:trigger pl.At(i)} :: 0 <= i < |pl.m.entries| ==>
          pl.At(i).In? && pl.At(i).parent in pl.homes && pl.At(i).parent in pl.tree)
    && (forall p :: p in pl.homes ==>
          && p !in pl.index && pl.homes[p] < |pl.m.entries|
          && pl.At(pl.homes[p]).In? && pl.At(pl.homes[p]).parent == p)
  }

  ghost predicate Described(pl: Plan) {
    forall i {:trigger pl.At(i)} ::
      (0 <= i < |pl.m.entries| && pl.At(i).In? && pl.At(i) in pl.tree && pl.At(i).parent in pl.tree) ==>
      && Recorded(pl.tree[pl.At(i)], pl.m.entries[i].id, pl.m.entries[i].mode)
      && Recorded(pl.tree[pl.At(i).parent], pl.m.entries[i].parentId, pl.m.entries[i].parentMode)
  }

  ghost predicate Recorded(n: Node, id: nat, mode: Mode) { n.id == id && n.mode == mode }

  ghost predicate SameButMode(a: Node, b: Node) { a.id == b.id && a.dir == b.dir && a.body == b.body }

  /** Nothing but the entries is missing or new, and only permission bits of parents differ. */
  ghost predicate Frame(pl: Plan, t: map<Path, Node>) {
    && (forall p :: p in t ==> p in pl.tree)
    && (forall p :: p in pl.tree && p !in pl.index ==>
          p in t && SameButMode(t[p], pl.tree[p]) && (p !in pl.homes ==> t[p] == pl.tree[p]))
  }

  ghost function Without(pl: Plan): map<Path, Node> {
    map p | p in pl.tree && p !in pl.index :: pl.tree[p]
  }

  /** No file of a deleted course is destroyed before its marker keeps writers out. */
  ghost predicate Fenced(pl: Plan, d: Disk) {
    pl.committed && pl.m.purpose.Deletion? ==> d.marked
  }

  /** Entry `i` is in its place or in staging; once committed, it is in staging, whole or
      partly removed, or gone behind the fence. */
  ghost predicate Kept(pl: Plan, d: Disk, i: nat)
    requires i < |pl.m.entries| && d.folder.Present?
  {
    var p := pl.At(i);
    if p !in pl.tree then false
    else if pl.committed then
      p !in d.tree && if i in d.folder.staged then d.folder.staged[i].id == pl.tree[p].id else Fenced(pl, d)
    else if i in d.folder.staged then p !in d.tree && SameButMode(d.folder.staged[i], pl.tree[p])
    else p in d.tree && SameButMode(d.tree[p], pl.tree[p])
  }

  /** The state while the manifest is on disk. */
  ghost predicate Mid(pl: Plan, d: Disk)
  {
    && d.folder.Present? && d.folder.manifest == Some(pl.m)
    && Frame(pl, d.tree)
    && (forall i :: i in d.folder.staged ==> i < |pl.m.entries|)
    && (forall i {:trigger Kept(pl, d, i)} :: 0 <= i < |pl.m.entries| ==> Kept(pl, d, i))
    && (pl.marked ==> d.marked)
    && (!(pl.committed && pl.m.purpose.Deletion?) ==> d.marked == pl.marked)
  }

  /** The only two outcomes. */
  ghost predicate Settled(pl: Plan, d: Disk) {
    && d.tree == (if pl.committed then Without(pl) else pl.tree)
    && d.marked == (pl.marked || (pl.committed && pl.m.purpose.Deletion?))
  }

  /** Everything a crash can leave behind. */
  ghost predicate Inv(pl: Plan, d: Disk) {
    if d.folder.Present? && d.folder.manifest.Some? then Mid(pl, d)
    else Settled(pl, d) && (d.folder.Present? ==> d.folder.staged == map[])
  }

  /** The invariant holds before, between and after the operations. */
  ghost predicate Keeps(pl: Plan, d: Disk, ops: seq<Op>)
    decreases |ops|
  {
    Inv(pl, d) && (ops != [] ==> Keeps(pl, Apply(d, ops[0]), ops[1..]))
  }

  lemma {:induction false} ExecConcat(d: Disk, a: seq<Op>, b: seq<Op>)
    ensures Exec(d, a + b) == Exec(Exec(d, a), b)
    decreases |a|
  {
    if a == [] {
      assert a + b == b;
    } else {
      assert (a + b)[1..] == a[1..] + b;
      ExecConcat(Apply(d, a[0]), a[1..], b);
    }
  }

  lemma {:induction false} KeepsConcat(pl: Plan, d: Disk, a: seq<Op>, b: seq<Op>)
    requires Keeps(pl, d, a) && Keeps(pl, Exec(d, a), b)
    ensures Keeps(pl, d, a + b)
    ensures Exec(d, a + b) == Exec(Exec(d, a), b)
    decreases |a|
  {
    ExecConcat(d, a, b);
    if a == [] {
      assert a + b == b;
    } else {
      assert (a + b)[0] == a[0] && (a + b)[1..] == a[1..] + b;
      KeepsConcat(pl, Apply(d, a[0]), a[1..], b);
    }
  }

  /** Crashing after any number of operations leaves the invariant. */
  lemma {:induction false} KeepsAtEveryCut(pl: Plan, d: Disk, ops: seq<Op>, k: nat)
    requires Keeps(pl, d, ops) && k <= |ops|
    ensures Inv(pl, Exec(d, ops[..k]))
    decreases k
  {
    if k > 0 {
      assert ops[..k][0] == ops[0] && ops[..k][1..] == ops[1..][..k - 1];
      KeepsAtEveryCut(pl, Apply(d, ops[0]), ops[1..], k - 1);
    }
  }

  lemma KeepsOne(pl: Plan, d: Disk, op: Op)
    requires Inv(pl, d) && Inv(pl, Apply(d, op))
    ensures Keeps(pl, d, [op]) && Exec(d, [op]) == Apply(d, op)
  {
    assert [op][1..] == [];
    assert Exec(Apply(d, op), []) == Apply(d, op);
    assert Keeps(pl, Apply(d, op), []);
  }

  lemma KeepsStep(pl: Plan, d: Disk, op: Op, rest: seq<Op>)
    requires Inv(pl, d) && Keeps(pl, Apply(d, op), rest)
    ensures Keeps(pl, d, [op] + rest) && Exec(d, [op] + rest) == Exec(Apply(d, op), rest)
  {
    assert ([op] + rest)[0] == op && ([op] + rest)[1..] == rest;
  }

  // ------------------------------------------------------ one operation at a time

  lemma ChmodMid(pl: Plan, d: Disk, p: Path, mode: Mode)
    requires Mid(pl, d)
    requires p in pl.index || p in pl.homes
    ensures Mid(pl, Apply(d, Chmod(p, mode)))
  {
    var d' := Apply(d, Chmod(p, mode));
    forall j | 0 <= j < |pl.m.entries| ensures Kept(pl, d', j) {
      assert Kept(pl, d, j);
    }
  }

  lemma ChmodStagedMid(pl: Plan, d: Disk, i: nat, mode: Mode)
    requires Mid(pl, d)
    ensures Mid(pl, Apply(d, ChmodStaged(i, mode)))
  {
    var d' := Apply(d, ChmodStaged(i, mode));
    forall j | 0 <= j < |pl.m.entries| ensures Kept(pl, d', j) {
      assert Kept(pl, d, j);
    }
  }

  lemma StashMid(pl: Plan, d: Disk, i: nat)
    requires Numbered(pl) && Mid(pl, d) && !pl.committed
    requires i < |pl.m.entries| && i !in d.folder.staged
    ensures Mid(pl, Apply(d, Stash(pl.At(i), i)))
  {
    var d' := Apply(d, Stash(pl.At(i), i));
    assert Kept(pl, d, i);
    forall j | 0 <= j < |pl.m.entries| ensures Kept(pl, d', j) {
      assert Kept(pl, d, j);
    }
  }

  lemma RestoreMid(pl: Plan, d: Disk, i: nat)
    requires Numbered(pl) && Mid(pl, d) && !pl.committed
    requires i in d.folder.staged
    ensures Mid(pl, Apply(d, Restore(i, pl.At(i))))
  {
    var d' := Apply(d, Restore(i, pl.At(i)));
    assert Kept(pl, d, i);
    forall j | 0 <= j < |pl.m.entries| ensures Kept(pl, d', j) {
      assert Kept(pl, d, j);
    }
  }

  lemma RemoveStagedMid(pl: Plan, d: Disk, op: Op)
    requires Mid(pl, d) && pl.committed && Fenced(pl, d)
    requires op.Shred? || op.Discard?
    ensures Mid(pl, Apply(d, op))
  {
    var d' := Apply(d, op);
    forall j | 0 <= j < |pl.m.entries| ensures Kept(pl, d', j) {
      assert Kept(pl, d, j);
    }
  }

  // ------------------------------------------------------------ whole procedures

  /** The operations lead from `d` to `d'`, with the manifest on disk all the way. */
  ghost predicate Leads(pl: Plan, d: Disk, ops: seq<Op>, d': Disk)
  {
    Keeps(pl, d, ops) && Exec(d, ops) == d' && Mid(pl, d) && Mid(pl, d')
  }

  ghost predicate Gained(d: Disk, d': Disk, i: nat) {
    && d.folder.Present? && d'.folder.Present?
    && forall j: nat :: j in d'.folder.staged <==> j in d.folder.staged || j == i
  }

  ghost predicate Lost(d: Disk, d': Disk, i: nat) {
    && d.folder.Present? && d'.folder.Present?
    && forall j: nat :: j in d'.folder.staged <==> j in d.folder.staged && j != i
  }

  lemma LeadsOne(pl: Plan, d: Disk, op: Op)
    requires Mid(pl, d) && Mid(pl, Apply(d, op))
    ensures Leads(pl, d, [op], Apply(d, op))
  {
    KeepsOne(pl, d, op);
  }

  lemma LeadsNone(pl: Plan, d: Disk)
    requires Mid(pl, d)
    ensures Leads(pl, d, [], Exec(d, []))
  {
    assert Keeps(pl, d, []);
  }

  lemma LeadsConcat(pl: Plan, d: Disk, a: seq<Op>, d': Disk, b: seq<Op>, d'': Disk)
    requires Leads(pl, d, a, d') && Leads(pl, d', b, d'')
    ensures Leads(pl, d, a + b, d'')
  {
    KeepsConcat(pl, d, a, b);
  }

  lemma LeadsTwo(pl: Plan, d: Disk, a: Op, b: Op)
    requires Mid(pl, d) && Mid(pl, Apply(d, a)) && Mid(pl, Apply(Apply(d, a), b))
    ensures Leads(pl, d, [a, b], Apply(Apply(d, a), b))
  {
    LeadsOne(pl, d, a);
    LeadsOne(pl, Apply(d, a), b);
    LeadsConcat(pl, d, [a], Apply(d, a), [b], Apply(Apply(d, a), b));
    assert [a] + [b] == [a, b];
  }

  lemma LeadsThree(pl: Plan, d: Disk, a: Op, b: Op, c: Op)
    requires Mid(pl, d) && Mid(pl, Apply(d, a)) && Mid(pl, Apply(Apply(d, a), b))
    requires Mid(pl, Apply(Apply(Apply(d, a), b), c))
    ensures Leads(pl, d, [a, b, c], Apply(Apply(Apply(d, a), b), c))
  {
    var d1 := Apply(d, a);
    var d2 := Apply(d1, b);
    LeadsOne(pl, d, a);
    LeadsOne(pl, d1, b);
    LeadsOne(pl, d2, c);
    LeadsConcat(pl, d, [a], d1, [b], d2);
    LeadsConcat(pl, d, [a] + [b], d2, [c], Apply(d2, c));
    assert [a] + [b] + [c] == [a, b, c];
  }

  // What the move lists do to the set of staged entries.

  lemma ExecTwo(d: Disk, a: Op, ops: seq<Op>)
    ensures Exec(d, [a] + ops) == Exec(Apply(d, a), ops)
  {
    assert ([a] + ops)[1..] == ops;
  }

  lemma ExecThree(d: Disk, a: Op, b: Op, c: Op)
    ensures Exec(d, [a, b, c]) == Apply(Apply(Apply(d, a), b), c)
  {
    assert [a, b, c] == [a] + [b, c] && [b, c] == [b] + [c] && [c] == [c] + [];
    ExecTwo(d, a, [b, c]);
    ExecTwo(Apply(d, a), b, [c]);
    ExecTwo(Apply(Apply(d, a), b), c, []);
  }

  lemma StashGains(d: Disk, path: Path, i: nat)
    requires path.In? && path in d.tree && path.parent in d.tree && d.folder.Present?
    ensures Gained(d, Exec(d, StashOps(d, path, i)), i)
  {
    var n, up := d.tree[path], d.tree[path.parent].mode;
    var a, c := Chmod(path.parent, Widen(up)), Chmod(path.parent, up);
    var b := if n.dir then [Chmod(path, Widen(n.mode)), Stash(path, i), ChmodStaged(i, n.mode)] else [Stash(path, i)];
    ExecConcat(d, [a] + b, [c]);
    ExecTwo(d, a, b);
    if n.dir {
      ExecThree(Apply(d, a), Chmod(path, Widen(n.mode)), Stash(path, i), ChmodStaged(i, n.mode));
    } else {
      ExecTwo(Apply(d, a), Stash(path, i), []);
      assert b == [Stash(path, i)] + [];
    }
    ExecTwo(Exec(d, [a] + b), c, []);
    assert [c] == [c] + [];
  }

  lemma RestoreShape(d: Disk, path: Path, i: nat, b: seq<Op>)
    requires path.In? && path.parent in d.tree && d.folder.Present? && i in d.folder.staged
    requires var n := d.folder.staged[i];
             b == if n.dir then [ChmodStaged(i, Widen(n.mode)), Restore(i, path), Chmod(path, n.mode)]
                 else [Restore(i, path)]
    ensures var up := d.tree[path.parent].mode;
            RestoreOps(d, path, i) == [Chmod(path.parent, Widen(up))] + b + [Chmod(path.parent, up)]
  {
  }

  lemma RestoreLoses(d: Disk, path: Path, i: nat)
    requires path.In? && path.parent in d.tree && d.folder.Present? && i in d.folder.staged
    ensures Lost(d, Exec(d, RestoreOps(d, path, i)), i)
  {
    var n, up := d.folder.staged[i], d.tree[path.parent].mode;
    var a, c := Chmod(path.parent, Widen(up)), Chmod(path.parent, up);
    var b := if n.dir then [ChmodStaged(i, Widen(n.mode)), Restore(i, path), Chmod(path, n.mode)]
        else [Restore(i, path)];
    RestoreShape(d, path, i, b);
    ExecConcat(d, [a] + b, [c]);
    ExecTwo(d, a, b);
    if n.dir {
      ExecThree(Apply(d, a), ChmodStaged(i, Widen(n.mode)), Restore(i, path), Chmod(path, n.mode));
    } else {
      ExecTwo(Apply(d, a), Restore(i, path), []);
      assert b == [Restore(i, path)] + [];
    }
    ExecTwo(Exec(d, [a] + b), c, []);
    assert [c] == [c] + [];
  }

  lemma DiscardLoses(d: Disk, i: nat)
    requires d.folder.Present? && i in d.folder.staged
    ensures Lost(d, Exec(d, DiscardOps(d.folder.staged[i], i)), i)
  {
    if d.folder.staged[i].dir {
      assert DiscardOps(d.folder.staged[i], i) == [ChmodStaged(i, OWNER_ONLY), Shred(i), Discard(i)];
      ExecThree(d, ChmodStaged(i, OWNER_ONLY), Shred(i), Discard(i));
    } else {
      assert DiscardOps(d.folder.staged[i], i) == [Discard(i)] + [];
      ExecTwo(d, Discard(i), []);
    }
  }

  /** `_writable_parent` around any operations. */
  lemma BracketLeads(pl: Plan, d: Disk, home: Path, during: Mode, after: Mode, b: seq<Op>, d2: Disk)
    requires Mid(pl, d) && home in pl.homes
    requires Leads(pl, Apply(d, Chmod(home, during)), b, d2)
    ensures var ops := [Chmod(home, during)] + b + [Chmod(home, after)];
            Leads(pl, d, ops, Exec(d, ops))
  {
    var a, c := Chmod(home, during), Chmod(home, after);
    LeadsOne(pl, d, a);
    ChmodMid(pl, d2, home, after);
    LeadsOne(pl, d2, c);
    LeadsConcat(pl, d, [a], Apply(d, a), b, d2);
    LeadsConcat(pl, d, [a] + b, d2, [c], Apply(d2, c));
  }

  /** Moving an entry out under a widened parent. */
  lemma StashLeads(pl: Plan, d: Disk, i: nat)
    requires Planned(pl) && Mid(pl, d) && !pl.committed
    requires i < |pl.m.entries| && i !in d.folder.staged
    ensures var p := StageEntry(d, pl.m.entries[i], i);
            p.ok && Leads(pl, d, p.ops, Exec(d, p.ops)) && Gained(d, Exec(d, p.ops), i)
  {
    assert Kept(pl, d, i);
    var path, home := pl.At(i), pl.At(i).parent;
    var n, up := d.tree[path], d.tree[home].mode;
    var a, c := Chmod(home, Widen(up)), Chmod(home, up);
    ChmodMid(pl, d, home, Widen(up));
    var b, d2 := StashBare(pl, Apply(d, a), i);
    BracketLeads(pl, d, home, Widen(up), up, b, d2);
    assert StageEntry(d, pl.m.entries[i], i).ops == [a] + b + [c];
    StashGains(d, path, i);
  }

  lemma StashBare(pl: Plan, d: Disk, i: nat) returns (ops: seq<Op>, d': Disk)
    requires Numbered(pl) && Mid(pl, d) && !pl.committed
    requires i < |pl.m.entries| && i !in d.folder.staged
    ensures pl.At(i) in d.tree
    ensures var n := d.tree[pl.At(i)];
            ops == if n.dir
                   then [Chmod(pl.At(i), Widen(n.mode)), Stash(pl.At(i), i), ChmodStaged(i, n.mode)]
                   else [Stash(pl.At(i), i)]
    ensures Leads(pl, d, ops, d')
  {
    assert Kept(pl, d, i);
    var n := d.tree[pl.At(i)];
    if n.dir {
      var d1 := Apply(d, Chmod(pl.At(i), Widen(n.mode)));
      ChmodMid(pl, d, pl.At(i), Widen(n.mode));
      StashMid(pl, d1, i);
      var d2 := Apply(d1, Stash(pl.At(i), i));
      ChmodStagedMid(pl, d2, i, n.mode);
      LeadsThree(pl, d, Chmod(pl.At(i), Widen(n.mode)), Stash(pl.At(i), i), ChmodStaged(i, n.mode));
      ops := [Chmod(pl.At(i), Widen(n.mode)), Stash(pl.At(i), i), ChmodStaged(i, n.mode)];
      d' := Apply(d2, ChmodStaged(i, n.mode));
    } else {
      StashMid(pl, d, i);
      LeadsOne(pl, d, Stash(pl.At(i), i));
      ops, d' := [Stash(pl.At(i), i)], Apply(d, Stash(pl.At(i), i));
    }
  }

  lemma RestoreBare(pl: Plan, d: Disk, i: nat) returns (ops: seq<Op>, d': Disk)
    requires Numbered(pl) && Mid(pl, d) && !pl.committed && i in d.folder.staged
    ensures var n := d.folder.staged[i];
            ops == if n.dir
                   then [ChmodStaged(i, Widen(n.mode)), Restore(i, pl.At(i)), Chmod(pl.At(i), n.mode)]
                   else [Restore(i, pl.At(i))]
    ensures Leads(pl, d, ops, d')
  {
    var n := d.folder.staged[i];
    if n.dir {
      var d1 := Apply(d, ChmodStaged(i, Widen(n.mode)));
      ChmodStagedMid(pl, d, i, Widen(n.mode));
      RestoreMid(pl, d1, i);
      var d2 := Apply(d1, Restore(i, pl.At(i)));
      ChmodMid(pl, d2, pl.At(i), n.mode);
      LeadsThree(pl, d, ChmodStaged(i, Widen(n.mode)), Restore(i, pl.At(i)), Chmod(pl.At(i), n.mode));
      ops := [ChmodStaged(i, Widen(n.mode)), Restore(i, pl.At(i)), Chmod(pl.At(i), n.mode)];
      d' := Apply(d2, Chmod(pl.At(i), n.mode));
    } else {
      RestoreMid(pl, d, i);
      LeadsOne(pl, d, Restore(i, pl.At(i)));
      ops, d' := [Restore(i, pl.At(i))], Apply(d, Restore(i, pl.At(i)));
    }
  }

  lemma DiscardLeads(pl: Plan, d: Disk, i: nat)
    requires Mid(pl, d) && pl.committed && Fenced(pl, d) && i in d.folder.staged
    ensures var ops := DiscardOps(d.folder.staged[i], i);
            Leads(pl, d, ops, Exec(d, ops))
  {
    if d.folder.staged[i].dir {
      var d1 := Apply(d, ChmodStaged(i, OWNER_ONLY));
      ChmodStagedMid(pl, d, i, OWNER_ONLY);
      RemoveStagedMid(pl, d1, Shred(i));
      RemoveStagedMid(pl, Apply(d1, Shred(i)), Discard(i));
      LeadsThree(pl, d, ChmodStaged(i, OWNER_ONLY), Shred(i), Discard(i));
      assert DiscardOps(d.folder.staged[i], i) == [ChmodStaged(i, OWNER_ONLY), Shred(i), Discard(i)];
    } else {
      RemoveStagedMid(pl, d, Discard(i));
      LeadsOne(pl, d, Discard(i));
      assert DiscardOps(d.folder.staged[i], i) == [Discard(i)];
    }
  }

  /** Moving an entry back under a widened parent. */
  lemma RestoreLeads(pl: Plan, d: Disk, i: nat)
    requires Numbered(pl) && Homed(pl) && Mid(pl, d) && !pl.committed && i in d.folder.staged
    ensures pl.At(i).In? && pl.At(i).parent in d.tree
    ensures Leads(pl, d, RestoreOps(d, pl.At(i), i), Exec(d, RestoreOps(d, pl.At(i), i)))
  {
    assert Kept(pl, d, i);
    var home := pl.At(i).parent;
    var up := d.tree[home].mode;
    var a, c := Chmod(home, Widen(up)), Chmod(home, up);
    ChmodMid(pl, d, home, Widen(up));
    var b, d2 := RestoreBare(pl, Apply(d, a), i);
    BracketLeads(pl, d, home, Widen(up), up, b, d2);
    RestoreShape(d, pl.At(i), i, b);
  }

  lemma FinishEntryIs(pl: Plan, d: Disk, i: nat)
    requires Planned(pl) && Mid(pl, d) && i < |pl.m.entries|
    ensures pl.At(i).In?
    ensures i in d.folder.staged && !pl.committed ==> pl.At(i).parent in d.tree
    ensures FinishEntry(d, pl.m.entries[i], i, pl.committed)
            == Program(if i !in d.folder.staged then []
                       else if pl.committed then DiscardOps(d.folder.staged[i], i)
                       else RestoreOps(d, pl.At(i), i), true)
  {
    assert Kept(pl, d, i);
  }

  lemma FinishOpsLead(pl: Plan, d: Disk, i: nat)
    requires Numbered(pl) && Homed(pl) && Mid(pl, d) && i in d.folder.staged && Fenced(pl, d)
    ensures pl.At(i).In?
    ensures var ops := if pl.committed then DiscardOps(d.folder.staged[i], i) else RestoreOps(d, pl.At(i), i);
            Leads(pl, d, ops, Exec(d, ops))
  {
    if pl.committed {
      DiscardLeads(pl, d, i);
    } else {
      RestoreLeads(pl, d, i);
    }
  }

  /** One turn of the first loop of `_finish`: never refuses, and empties one slot. */
  lemma FinishEntryLeads(pl: Plan, d: Disk, i: nat)
    requires Planned(pl) && Mid(pl, d) && i < |pl.m.entries| && Fenced(pl, d)
    ensures var p := FinishEntry(d, pl.m.entries[i], i, pl.committed);
            p.ok && Leads(pl, d, p.ops, Exec(d, p.ops)) && Lost(d, Exec(d, p.ops), i)
  {
    FinishEntryIs(pl, d, i);
    if i !in d.folder.staged {
      LeadsNone(pl, d);
    } else {
      FinishOpsLead(pl, d, i);
      if pl.committed {
        DiscardLoses(d, i);
      } else {
        RestoreLoses(d, pl.At(i), i);
      }
    }
  }

  // ---------------------------------------------------------------- the loops

  ghost predicate StagedBelow(d: Disk, i: nat) {
    d.folder.Present? && forall j: nat :: j in d.folder.staged <==> j < i
  }

  /** The staging loop never refuses and moves every entry. */
  lemma {:induction false} StageFromLeads(pl: Plan, d: Disk, i: nat)
    requires Planned(pl) && Mid(pl, d) && !pl.committed
    requires i <= |pl.m.entries| && StagedBelow(d, i)
    ensures var p := StageFrom(d, pl.m.entries, i);
            p.ok && Leads(pl, d, p.ops, Exec(d, p.ops)) && StagedBelow(Exec(d, p.ops), |pl.m.entries|)
    decreases |pl.m.entries| - i
  {
    if i == |pl.m.entries| {
      LeadsNone(pl, d);
    } else {
      StashLeads(pl, d, i);
      var p := StageEntry(d, pl.m.entries[i], i);
      var d' := Exec(d, p.ops);
      StageFromLeads(pl, d', i + 1);
      var q := StageFrom(d', pl.m.entries, i + 1);
      assert StageFrom(d, pl.m.entries, i) == Program(p.ops + q.ops, true);
      LeadsConcat(pl, d, p.ops, d', q.ops, Exec(d', q.ops));
    }
  }

  ghost predicate AtMostBelow(d: Disk, i: nat) {
    d.folder.Present? && forall j: nat :: j in d.folder.staged ==> j < i
  }

  /** The first loop of `_finish` never refuses and empties staging. */
  lemma {:induction false} FinishDownLeads(pl: Plan, d: Disk, i: nat)
    requires Planned(pl) && Mid(pl, d) && Fenced(pl, d)
    requires i <= |pl.m.entries| && AtMostBelow(d, i)
    ensures var p := FinishDown(d, pl.m.entries, i, pl.committed);
            p.ok && Leads(pl, d, p.ops, Exec(d, p.ops)) && AtMostBelow(Exec(d, p.ops), 0)
    decreases i
  {
    if i == 0 {
      LeadsNone(pl, d);
    } else {
      FinishEntryLeads(pl, d, i - 1);
      var p := FinishEntry(d, pl.m.entries[i - 1], i - 1, pl.committed);
      var d' := Exec(d, p.ops);
      MarkStays(d, p.ops);
      FinishDownLeads(pl, d', i - 1);
      var q := FinishDown(d', pl.m.entries, i - 1, pl.committed);
      assert FinishDown(d, pl.m.entries, i, pl.committed) == Program(p.ops + q.ops, true);
      LeadsConcat(pl, d, p.ops, d', q.ops, Exec(d', q.ops));
    }
  }

  /** Entry `j` and its parent have their recorded permission bits again. */
  ghost predicate Exact(pl: Plan, t: map<Path, Node>, j: nat)
    requires j < |pl.m.entries| && pl.At(j).In?
  {
    && (!pl.committed ==> pl.At(j) in t && pl.At(j) in pl.tree && t[pl.At(j)] == pl.tree[pl.At(j)])
    && pl.At(j).parent in t && pl.At(j).parent in pl.tree
    && t[pl.At(j).parent] == pl.tree[pl.At(j).parent]
  }

  ghost predicate ExactBelow(pl: Plan, t: map<Path, Node>, i: nat) {
    i <= |pl.m.entries| && forall j {:trigger pl.At(j)} :: 0 <= j < i ==> pl.At(j).In? && Exact(pl, t, j)
  }

  /** Setting one node to its recorded bits makes it the planned node, and keeps the
      planned nodes planned. */
  lemma RepairNode(pl: Plan, t: map<Path, Node>, p: Path, mode: Mode, i: nat)
    requires p in t && p in pl.tree && SameButMode(t[p], pl.tree[p]) && pl.tree[p].mode == mode
    requires ExactBelow(pl, t, i)
    ensures var t' := t[p := t[p].(mode := mode)];
            ExactBelow(pl, t', i) && t'[p] == pl.tree[p]
  {
    var t' := t[p := t[p].(mode := mode)];
    assert t'[p] == pl.tree[p];
    forall j | 0 <= j < i ensures pl.At(j).In? && Exact(pl, t', j) {
      assert pl.At(j).In? && Exact(pl, t, j);
    }
  }

  function Repairs(pl: Plan, i: nat): seq<Op>
    requires i < |pl.m.entries| && pl.At(i).In?
  {
    var e := pl.m.entries[i];
    (if pl.committed then [] else [Chmod(e.path, e.mode)]) + [Chmod(e.path.parent, e.parentMode)]
  }

  lemma RepairEntryIs(pl: Plan, d: Disk, i: nat)
    requires Planned(pl) && Mid(pl, d) && AtMostBelow(d, 0) && i < |pl.m.entries|
    ensures RepairEntry(d, pl.m.entries[i], pl.committed) == Program(Repairs(pl, i), true)
  {
    assert Kept(pl, d, i);
  }

  lemma RepairsLead(pl: Plan, d: Disk, i: nat)
    requires Mid(pl, d) && i < |pl.m.entries|
    requires pl.At(i) in pl.index && pl.At(i).In? && pl.At(i).parent in pl.homes
    ensures Leads(pl, d, Repairs(pl, i), Exec(d, Repairs(pl, i)))
  {
    var e := pl.m.entries[i];
    var a, b := Chmod(e.path, e.mode), Chmod(pl.At(i).parent, e.parentMode);
    if pl.committed {
      ChmodMid(pl, d, pl.At(i).parent, e.parentMode);
      LeadsOne(pl, d, b);
      assert Repairs(pl, i) == [b];
    } else {
      ChmodMid(pl, d, pl.At(i), e.mode);
      ChmodMid(pl, Apply(d, a), pl.At(i).parent, e.parentMode);
      LeadsTwo(pl, d, a, b);
      assert Repairs(pl, i) == [a, b];
    }
  }

  lemma RepairsExact(pl: Plan, d: Disk, i: nat)
    requires Described(pl) && i < |pl.m.entries| && pl.At(i).In? && ExactBelow(pl, d.tree, i)
    requires pl.At(i).parent != pl.At(i) && pl.At(i).parent in pl.tree && pl.At(i) in pl.tree
    requires pl.At(i).parent in d.tree && SameButMode(d.tree[pl.At(i).parent], pl.tree[pl.At(i).parent])
    requires !pl.committed ==> pl.At(i) in d.tree && SameButMode(d.tree[pl.At(i)], pl.tree[pl.At(i)])
    ensures ExactBelow(pl, Exec(d, Repairs(pl, i)).tree, i + 1) && Exec(d, Repairs(pl, i)).folder == d.folder
  {
    var e := pl.m.entries[i];
    var a, b := Chmod(e.path, e.mode), Chmod(e.path.parent, e.parentMode);
    var d1 := if pl.committed then d else Apply(d, a);
    ExecTwo(d1, b, []);
    if pl.committed {
      assert Repairs(pl, i) == [b] + [];
    } else {
      RepairNode(pl, d.tree, e.path, e.mode, i);
      ExecTwo(d, a, [b]);
      assert Repairs(pl, i) == [a] + [b] && [b] == [b] + [];
    }
    RepairNode(pl, d1.tree, e.path.parent, e.parentMode, i);
    var t := Apply(d1, b).tree;
    assert Exact(pl, t, i);
    forall j | 0 <= j < i + 1 ensures pl.At(j).In? && Exact(pl, t, j) {
      assert j < i ==> pl.At(j).In? && Exact(pl, t, j);
    }
  }

  lemma RepairEntryLeads(pl: Plan, d: Disk, i: nat)
    requires Planned(pl) && Mid(pl, d) && AtMostBelow(d, 0)
    requires i < |pl.m.entries| && ExactBelow(pl, d.tree, i)
    ensures var p := RepairEntry(d, pl.m.entries[i], pl.committed);
            p.ok && Leads(pl, d, p.ops, Exec(d, p.ops))
            && AtMostBelow(Exec(d, p.ops), 0) && ExactBelow(pl, Exec(d, p.ops).tree, i + 1)
  {
    assert Kept(pl, d, i);
    RepairEntryIs(pl, d, i);
    RepairsLead(pl, d, i);
    RepairsExact(pl, d, i);
  }

  /** The second loop of `_finish` never refuses and restores every permission bit. */
  lemma {:induction false} RepairFromLeads(pl: Plan, d: Disk, i: nat)
    requires Planned(pl) && Mid(pl, d) && AtMostBelow(d, 0)
    requires i <= |pl.m.entries| && ExactBelow(pl, d.tree, i)
    ensures var p := RepairFrom(d, pl.m.entries, i, pl.committed);
            p.ok && Leads(pl, d, p.ops, Exec(d, p.ops))
            && AtMostBelow(Exec(d, p.ops), 0) && ExactBelow(pl, Exec(d, p.ops).tree, |pl.m.entries|)
    decreases |pl.m.entries| - i
  {
    if i == |pl.m.entries| {
      LeadsNone(pl, d);
    } else {
      RepairEntryLeads(pl, d, i);
      var p := RepairEntry(d, pl.m.entries[i], pl.committed);
      var d' := Exec(d, p.ops);
      RepairFromLeads(pl, d', i + 1);
      var q := RepairFrom(d', pl.m.entries, i + 1, pl.committed);
      assert RepairFrom(d, pl.m.entries, i, pl.committed) == Program(p.ops + q.ops, true);
      LeadsConcat(pl, d, p.ops, d', q.ops, Exec(d', q.ops));
    }
  }

  /** With staging empty and every bit repaired, the tree is exactly the promised one. */
  lemma RepairedIsSettled(pl: Plan, d: Disk)
    requires Planned(pl) && Mid(pl, d) && AtMostBelow(d, 0) && ExactBelow(pl, d.tree, |pl.m.entries|)
    ensures d.tree == if pl.committed then Without(pl) else pl.tree
  {
    var goal := if pl.committed then Without(pl) else pl.tree;
    forall p
      ensures p in d.tree <==> p in goal
      ensures p in goal ==> d.tree[p] == goal[p]
    {
      if p in pl.index {
        assert Kept(pl, d, pl.index[p]) && Exact(pl, d.tree, pl.index[p]);
      } else if p in pl.homes {
        assert Exact(pl, d.tree, pl.homes[p]);
      }
    }
  }

  // ------------------------------------------------------- recovery as a whole

  /** What a restart takes the job for.  The manifest's purpose tells which journal to look
      in; without a manifest only the journal of deletions is asked. */
  predicate Believed(d: Disk, purpose: Purpose, committed: bool) {
    committed && (purpose.Deletion? || (d.folder.Present? && d.folder.manifest.Some?))
  }

  /** The one state from which a restart cannot finish: a committed deletion, emptied and
      fenced, whose manifest was removed before its folder. */
  predicate Orphaned(d: Disk, purpose: Purpose, committed: bool) {
    committed && purpose.Deletion? && d.folder.Present? && d.folder.manifest.None?
  }

  lemma MarkLeads(pl: Plan, d: Disk)
    requires Mid(pl, d)
    ensures var ops := MarkOps(d, pl.m, pl.committed);
            Leads(pl, d, ops, Exec(d, ops)) && Exec(d, ops).folder == d.folder
    ensures var ops := MarkOps(d, pl.m, pl.committed);
            Exec(d, ops).marked == (pl.marked || (pl.committed && pl.m.purpose.Deletion?))
  {
    if MarkOps(d, pl.m, pl.committed) == [Mark] {
      var d' := Apply(d, Mark);
      forall j | 0 <= j < |pl.m.entries| ensures Kept(pl, d', j) {
        assert Kept(pl, d, j);
      }
      LeadsOne(pl, d, Mark);
    } else {
      LeadsNone(pl, d);
    }
  }

  lemma {:induction false} MarkStays(d: Disk, ops: seq<Op>)
    ensures d.marked ==> Exec(d, ops).marked
    decreases |ops|
  {
    if ops != [] {
      MarkStays(Apply(d, ops[0]), ops[1..]);
    }
  }

  /** Removing the emptied folder keeps the promised state at every step. */
  lemma RemoveFolderKeeps(pl: Plan, d: Disk, manifestFirst: bool)
    requires Mid(pl, d) && Settled(pl, d) && AtMostBelow(d, 0)
    ensures var ops := RemoveFolder(manifestFirst);
            Keeps(pl, d, ops) && Exec(d, ops).folder.Absent? && Settled(pl, Exec(d, ops))
  {
    var a, b := if manifestFirst then DropManifest else DropFiles, if manifestFirst then DropFiles else DropManifest;
    var d1 := Apply(d, a);
    var d2 := Apply(d1, b);
    assert d.folder.staged == map[];
    assert Inv(pl, d1) by {
      forall j | 0 <= j < |pl.m.entries| ensures Kept(pl, d1, j) {
        assert Kept(pl, d, j);
      }
    }
    KeepsOne(pl, d2, DropFolder);
    KeepsStep(pl, d1, b, [DropFolder]);
    KeepsStep(pl, d, a, [b] + [DropFolder]);
    assert RemoveFolder(manifestFirst) == [a] + ([b] + [DropFolder]);
  }

  /** From any state a crash can leave, recovery runs to the end without refusing, keeps the
      invariant at every step and ends settled; unless the manifest is oversized or gone. */
  lemma FinishCompletes(pl: Plan, d: Disk, manifestFirst: bool)
    requires Planned(pl) && Inv(pl, d) && pl.m.bytes <= MAX_MANIFEST_BYTES && !Orphaned(d, pl.m.purpose, pl.committed)
    ensures var p := FinishProgram(d, Believed(d, pl.m.purpose, pl.committed), manifestFirst);
            p.ok && Keeps(pl, d, p.ops) && Exec(d, p.ops).folder.Absent? && Settled(pl, Exec(d, p.ops))
  {
    if d.folder.Absent? {
      assert Keeps(pl, d, []);
    } else if d.folder.manifest.None? {
      var d1 := Apply(d, DropFiles);
      KeepsOne(pl, Apply(d1, DropTemporary), DropFolder);
      KeepsStep(pl, d1, DropTemporary, [DropFolder]);
      KeepsStep(pl, d, DropFiles, [DropTemporary] + [DropFolder]);
      assert [DropFiles, DropTemporary, DropFolder] == [DropFiles] + ([DropTemporary] + [DropFolder]);
    } else {
      FinishWithManifest(pl, d, manifestFirst);
    }
  }

  /** With a manifest that fits, recovery marks, moves back, repairs and removes, in this order. */
  lemma FinishIsItsParts(d: Disk, m: Manifest, committed: bool, manifestFirst: bool, a: seq<Op>, b: Program, c: Program)
    requires d.folder.Present? && d.folder.manifest == Some(m) && m.bytes <= MAX_MANIFEST_BYTES
    requires a == MarkOps(d, m, committed)
    requires b == FinishDown(Exec(d, a), m.entries, |m.entries|, committed)
    requires c == RepairFrom(Exec(Exec(d, a), b.ops), m.entries, 0, committed)
    ensures var p := FinishProgram(d, committed, manifestFirst);
            (p.ok <==> b.ok && c.ok)
            && (p.ok ==> p.ops == a + (b.ops + c.ops) + RemoveFolder(manifestFirst))
  {
    var e := Program(RemoveFolder(manifestFirst), true);
    assert FinishProgram(d, committed, manifestFirst) == Then(Program(a, true), Then(b, Then(c, e)));
    assert a + (b.ops + (c.ops + e.ops)) == a + (b.ops + c.ops) + e.ops;
  }

  /** Moving back and repairing, from a state a crash can leave, never refuse. */
  lemma PartsLead(pl: Plan, d: Disk) returns (a: seq<Op>, b: Program, c: Program, d3: Disk)
    requires Planned(pl) && Mid(pl, d)
    ensures a == MarkOps(d, pl.m, pl.committed)
    ensures b == FinishDown(Exec(d, a), pl.m.entries, |pl.m.entries|, pl.committed) && b.ok
    ensures c == RepairFrom(Exec(Exec(d, a), b.ops), pl.m.entries, 0, pl.committed) && c.ok
    ensures Leads(pl, d, a + (b.ops + c.ops), d3) && Settled(pl, d3) && AtMostBelow(d3, 0)
  {
    a := MarkOps(d, pl.m, pl.committed);
    var d1 := Exec(d, a);
    MarkLeads(pl, d);
    FinishDownLeads(pl, d1, |pl.m.entries|);
    b := FinishDown(d1, pl.m.entries, |pl.m.entries|, pl.committed);
    var d2 := Exec(d1, b.ops);
    RepairFromLeads(pl, d2, 0);
    c := RepairFrom(d2, pl.m.entries, 0, pl.committed);
    d3 := Exec(d2, c.ops);
    RepairedIsSettled(pl, d3);
    MarkStays(d1, b.ops);
    MarkStays(d2, c.ops);
    LeadsConcat(pl, d1, b.ops, d2, c.ops, d3);
    LeadsConcat(pl, d, a, d1, b.ops + c.ops, d3);
  }

  lemma FinishWithManifest(pl: Plan, d: Disk, manifestFirst: bool)
    requires Planned(pl) && Mid(pl, d) && pl.m.bytes <= MAX_MANIFEST_BYTES
    ensures var p := FinishProgram(d, pl.committed, manifestFirst);
            p.ok && Keeps(pl, d, p.ops) && Exec(d, p.ops).folder.Absent? && Settled(pl, Exec(d, p.ops))
  {
    var a, b, c, d3 := PartsLead(pl, d);
    FinishIsItsParts(d, pl.m, pl.committed, manifestFirst, a, b, c);
    RemoveFolderKeeps(pl, d3, manifestFirst);
    KeepsConcat(pl, d, a + (b.ops + c.ops), RemoveFolder(manifestFirst));
  }

  // ------------------------------------------------------------- the main results

  /** A plan in the source's own terms: what was read from the tree under the write lock. */
  ghost predicate Listed(t: map<Path, Node>, es: seq<Entry>) {
    && (forall i {:trigger es[i]} :: 0 <= i < |es| ==>
          && es[i].path.In? && es[i].path in t && es[i].path.parent in t
          && Recorded(t[es[i].path], es[i].id, es[i].mode)
          && Recorded(t[es[i].path.parent], es[i].parentId, es[i].parentMode))
    && (forall i, j :: 0 <= i < j < |es| ==> es[i].path != es[j].path)
    && (forall i, j :: 0 <= i < |es| && 0 <= j < |es| ==> es[i].path != es[j].path.parent)
  }

  ghost predicate IsListed(es: seq<Entry>, p: Path) {
    exists i :: 0 <= i < |es| && es[i].path == p
  }

  ghost function HomeOf(es: seq<Entry>, p: Path): (i: nat)
    requires exists i :: 0 <= i < |es| && es[i].path.In? && es[i].path.parent == p
    ensures i < |es| && es[i].path.In? && es[i].path.parent == p
  {
    var i :| 0 <= i < |es| && es[i].path.In? && es[i].path.parent == p;
    i
  }

  ghost function PlanFor(d: Disk, m: Manifest, committed: bool): Plan
    requires Listed(d.tree, m.entries)
  {
    var index := map i | 0 <= i < |m.entries| :: m.entries[i].path := i;
    var parents := set i | 0 <= i < |m.entries| && m.entries[i].path.In? :: m.entries[i].path.parent;
    var homes := map p | p in parents :: HomeOf(m.entries, p);
    Plan(d.tree, m, index, homes, committed, d.marked)
  }

  lemma PlanForIsPlanned(d: Disk, m: Manifest, committed: bool)
    requires Listed(d.tree, m.entries)
    ensures Planned(PlanFor(d, m, committed))
    ensures forall p :: p in PlanFor(d, m, committed).index <==> IsListed(m.entries, p)
  {
    PlanForNumbers(d, m, committed);
    PlanForHomes(d, m, committed);
    PlanForDescribes(d, m, committed);
  }

  lemma PlanForNumbers(d: Disk, m: Manifest, committed: bool)
    requires Listed(d.tree, m.entries)
    ensures Numbered(PlanFor(d, m, committed))
    ensures forall p :: p in PlanFor(d, m, committed).index <==> IsListed(m.entries, p)
  {
    var pl := PlanFor(d, m, committed);
    forall i | 0 <= i < |m.entries|
      ensures pl.At(i) in pl.index && pl.index[pl.At(i)] == i
    {
      assert m.entries[i].path in pl.index;
    }
  }

  lemma PlanForHomes(d: Disk, m: Manifest, committed: bool)
    requires Listed(d.tree, m.entries) && Numbered(PlanFor(d, m, committed))
    ensures Homed(PlanFor(d, m, committed))
  {
    var pl := PlanFor(d, m, committed);
    forall i | 0 <= i < |m.entries|
      ensures pl.At(i).In? && pl.At(i).parent in pl.homes && pl.At(i).parent in pl.tree
    {
      assert m.entries[i].path.In?;
    }
  }

  lemma PlanForDescribes(d: Disk, m: Manifest, committed: bool)
    requires Listed(d.tree, m.entries)
    ensures Described(PlanFor(d, m, committed))
  {
  }

  /** One life of the recovery process: how long it lives and how its file system lists. */
  datatype Attempt = Attempt(budget: nat, manifestFirst: bool)

  /** `recover_course_files` on one job, again and again. */
  function Restart(d: Disk, purpose: Purpose, committed: bool, attempts: seq<Attempt>): Disk
    decreases |attempts|
  {
    if attempts == [] then d
    else
      var p := FinishProgram(d, Believed(d, purpose, committed), attempts[0].manifestFirst);
      Restart(Cut(d, attempts[0].budget, p.ops).disk, purpose, committed, attempts[1..])
  }

  lemma CutKeeps(pl: Plan, d: Disk, budget: nat, ops: seq<Op>)
    requires Planned(pl) && Keeps(pl, d, ops)
    ensures Inv(pl, Cut(d, budget, ops).disk)
  {
    KeepsAtEveryCut(pl, d, ops, |ops|);
    assert ops[..|ops|] == ops;
    if budget < |ops| {
      KeepsAtEveryCut(pl, d, ops, budget);
    }
  }

  lemma {:induction false} RestartKeeps(pl: Plan, d: Disk, attempts: seq<Attempt>)
    requires Planned(pl) && Inv(pl, d) && pl.m.bytes <= MAX_MANIFEST_BYTES
    ensures Inv(pl, Restart(d, pl.m.purpose, pl.committed, attempts))
    decreases |attempts|
  {
    if attempts != [] {
      var p := FinishProgram(d, Believed(d, pl.m.purpose, pl.committed), attempts[0].manifestFirst);
      if Orphaned(d, pl.m.purpose, pl.committed) {
        assert Keeps(pl, d, p.ops);
      } else {
        FinishCompletes(pl, d, attempts[0].manifestFirst);
      }
      CutKeeps(pl, d, attempts[0].budget, p.ops);
      RestartKeeps(pl, Cut(d, attempts[0].budget, p.ops).disk, attempts[1..]);
    }
  }

  /** Writing down the intent moves nothing, and leaves the manifest on disk. */
  lemma IntentKeeps(pl: Plan, d: Disk)
    requires Planned(pl) && !pl.committed && pl.tree == d.tree && pl.marked == d.marked && d.folder.Absent?
    ensures Keeps(pl, d, Intent(pl.m))
    ensures Mid(pl, Exec(d, Intent(pl.m))) && StagedBelow(Exec(d, Intent(pl.m)), 0)
  {
    var d1 := Apply(d, MakeFolder);
    var d2 := Apply(d1, MakeFilesDir);
    var d3 := Apply(d2, WriteTemporary);
    PublishedIsMid(pl, Apply(d3, PublishManifest(pl.m)));
    KeepsOne(pl, d3, PublishManifest(pl.m));
    KeepsStep(pl, d2, WriteTemporary, [PublishManifest(pl.m)]);
    KeepsStep(pl, d1, MakeFilesDir, [WriteTemporary] + [PublishManifest(pl.m)]);
    KeepsStep(pl, d, MakeFolder, [MakeFilesDir] + ([WriteTemporary] + [PublishManifest(pl.m)]));
    assert Intent(pl.m) == [MakeFolder] + ([MakeFilesDir] + ([WriteTemporary] + [PublishManifest(pl.m)]));
  }

  lemma PublishedIsMid(pl: Plan, d: Disk)
    requires Planned(pl) && !pl.committed && pl.tree == d.tree && pl.marked == d.marked
    requires d.folder.Present? && d.folder.manifest == Some(pl.m) && d.folder.staged == map[]
    ensures Mid(pl, d) && StagedBelow(d, 0)
  {
    forall j | 0 <= j < |pl.m.entries| ensures Kept(pl, d, j) {
      assert pl.At(j) in pl.tree;
    }
  }

  /** Staging a fresh job performs every step and can be cut anywhere. */
  lemma StageKeeps(d: Disk, m: Manifest)
    requires Listed(d.tree, m.entries) && d.folder.Absent?
    ensures var p := StageProgram(d, m);
            p.ok && Keeps(PlanFor(d, m, false), d, p.ops)
            && Mid(PlanFor(d, m, false), Exec(d, p.ops)) && StagedBelow(Exec(d, p.ops), |m.entries|)
  {
    PlanForIsPlanned(d, m, false);
    PlanStageKeeps(PlanFor(d, m, false), d);
  }

  lemma PlanStageKeeps(pl: Plan, d: Disk)
    requires Planned(pl) && !pl.committed && pl.tree == d.tree && pl.marked == d.marked && d.folder.Absent?
    ensures var p := StageProgram(d, pl.m);
            p.ok && Keeps(pl, d, p.ops) && Mid(pl, Exec(d, p.ops)) && StagedBelow(Exec(d, p.ops), |pl.m.entries|)
  {
    IntentKeeps(pl, d);
    var d4 := Exec(d, Intent(pl.m));
    StageFromLeads(pl, d4, 0);
    KeepsConcat(pl, d, Intent(pl.m), StageFrom(d4, pl.m.entries, 0).ops);
  }

  /** The journal row may be committed exactly when staging completed. */
  lemma CommitKeeps(pl: Plan, d: Disk)
    requires Planned(pl) && Mid(pl, d) && !pl.committed && StagedBelow(d, |pl.m.entries|)
    ensures Planned(pl.(committed := true)) && Mid(pl.(committed := true), d)
  {
    var pl' := pl.(committed := true);
    forall j | 0 <= j < |pl.m.entries| ensures Kept(pl', d, j) {
      assert Kept(pl, d, j) && pl.At(j) == pl'.At(j);
    }
    forall j | 0 <= j < |pl.m.entries| ensures pl.At(j) == pl'.At(j) {
    }
  }

  /** All a deletion can leave after any crash: staging cut at `budget`, the row committed or
      not, and any number of recoveries, each cut anywhere. */
  function Lifetime(d: Disk, m: Manifest, budget: nat, commit: bool, attempts: seq<Attempt>): Disk {
    var staged := Cut(d, budget, StageProgram(d, m).ops);
    Restart(staged.disk, m.purpose, commit && !staged.crashed, attempts)
  }

  function Committed(d: Disk, m: Manifest, budget: nat, commit: bool): bool {
    commit && !Cut(d, budget, StageProgram(d, m).ops).crashed
  }

  lemma LifetimeKeeps(d: Disk, m: Manifest, budget: nat, commit: bool, attempts: seq<Attempt>)
    requires Listed(d.tree, m.entries) && d.folder.Absent? && m.bytes <= MAX_MANIFEST_BYTES
    ensures Planned(PlanFor(d, m, Committed(d, m, budget, commit)))
    ensures Inv(PlanFor(d, m, Committed(d, m, budget, commit)), Lifetime(d, m, budget, commit, attempts))
  {
    var c := Committed(d, m, budget, commit);
    var ops := StageProgram(d, m).ops;
    var pl := PlanFor(d, m, c);
    PlanForIsPlanned(d, m, false);
    PlanForIsPlanned(d, m, c);
    StageKeeps(d, m);
    if c {
      CommitKeeps(PlanFor(d, m, false), Exec(d, ops));
    } else {
      CutKeeps(pl, d, budget, ops);
    }
    RestartKeeps(pl, Cut(d, budget, ops).disk, attempts);
  }

  /** Crash anywhere, any number of times: once the job folder is gone, either every node is
      back with its identity and mode and the marker is as before, or exactly the listed
      nodes are gone and a deleted course is marked; nothing else has changed. */
  lemma CrashSafety(d: Disk, m: Manifest, budget: nat, commit: bool, attempts: seq<Attempt>)
    requires Listed(d.tree, m.entries) && d.folder.Absent? && m.bytes <= MAX_MANIFEST_BYTES
    ensures var d' := Lifetime(d, m, budget, commit, attempts);
            d'.folder.Absent? ==>
              if Committed(d, m, budget, commit)
              then d'.tree == (map p | p in d.tree && !IsListed(m.entries, p) :: d.tree[p])
                   && d'.marked == (d.marked || m.purpose.Deletion?)
              else d'.tree == d.tree && d'.marked == d.marked
  {
    LifetimeKeeps(d, m, budget, commit, attempts);
    PlanForIsPlanned(d, m, Committed(d, m, budget, commit));
  }

  /** Nothing outside the listed roots ever changes, except permission bits of the folders
      that hold them while a job is unfinished. */
  lemma OthersUntouched(d: Disk, m: Manifest, budget: nat, commit: bool, attempts: seq<Attempt>, p: Path)
    requires Listed(d.tree, m.entries) && d.folder.Absent? && m.bytes <= MAX_MANIFEST_BYTES
    requires !IsListed(m.entries, p)
    ensures var t := Lifetime(d, m, budget, commit, attempts).tree;
            (p in t <==> p in d.tree) && (p in t ==> SameButMode(t[p], d.tree[p]))
  {
    LifetimeKeeps(d, m, budget, commit, attempts);
    PlanForIsPlanned(d, m, Committed(d, m, budget, commit));
  }

  /** While a deleted course is not marked, every listed root still exists in staging. */
  lemma FencedBeforeErased(d: Disk, m: Manifest, budget: nat, commit: bool, attempts: seq<Attempt>)
    requires Listed(d.tree, m.entries) && d.folder.Absent? && m.bytes <= MAX_MANIFEST_BYTES
    requires m.purpose.Deletion? && Committed(d, m, budget, commit)
    ensures var d' := Lifetime(d, m, budget, commit, attempts);
            !d'.marked ==>
              d'.folder.Present? && forall i {:trigger m.entries[i]} :: 0 <= i < |m.entries| ==>
                i in d'.folder.staged && d'.folder.staged[i].id == m.entries[i].id
  {
    var pl, d' := PlanFor(d, m, true), Lifetime(d, m, budget, commit, attempts);
    LifetimeKeeps(d, m, budget, commit, attempts);
    if !d'.marked {
      forall i | 0 <= i < |m.entries|
        ensures i in d'.folder.staged && d'.folder.staged[i].id == m.entries[i].id
      {
        assert Kept(pl, d', i) && Recorded(d.tree[m.entries[i].path], m.entries[i].id, m.entries[i].mode);
      }
    }
  }

  /** One more restart that is not cut short finishes the job, unless it is orphaned. */
  lemma RecoveryCompletes(d: Disk, m: Manifest, budget: nat, commit: bool, attempts: seq<Attempt>, last: Attempt)
    requires Listed(d.tree, m.entries) && d.folder.Absent? && m.bytes <= MAX_MANIFEST_BYTES
    ensures var c := Committed(d, m, budget, commit);
            var d' := Lifetime(d, m, budget, commit, attempts);
            var p := FinishProgram(d', Believed(d', m.purpose, c), last.manifestFirst);
            (p.ok <==> !Orphaned(d', m.purpose, c))
            && (p.ok && |p.ops| <= last.budget ==> Restart(d', m.purpose, c, [last]).folder.Absent?)
            && (!p.ok ==> p.ops == [])
  {
    var c := Committed(d, m, budget, commit);
    var d' := Lifetime(d, m, budget, commit, attempts);
    LifetimeKeeps(d, m, budget, commit, attempts);
    if !Orphaned(d', m.purpose, c) {
      FinishCompletes(PlanFor(d, m, c), d', last.manifestFirst);
      var after := Cut(d', last.budget, FinishProgram(d', Believed(d', m.purpose, c), last.manifestFirst).ops).disk;
      assert Restart(d', m.purpose, c, [last]) == Restart(after, m.purpose, c, []);
    }
  }

  /** A privacy archive has no such exception: without a manifest its folder counts as not
      committed, holds nothing and is removed. */
  lemma ArchiveRecoveryCompletes(d: Disk, m: Manifest, budget: nat, commit: bool, attempts: seq<Attempt>, last: Attempt)
    requires Listed(d.tree, m.entries) && d.folder.Absent? && m.bytes <= MAX_MANIFEST_BYTES && m.purpose.PrivacyArchive?
    ensures var c := Committed(d, m, budget, commit);
            var d' := Lifetime(d, m, budget, commit, attempts);
            var p := FinishProgram(d', Believed(d', m.purpose, c), last.manifestFirst);
            p.ok && (|p.ops| <= last.budget ==> Restart(d', m.purpose, c, [last]).folder.Absent?)
  {
    RecoveryCompletes(d, m, budget, commit, attempts, last);
  }

  // ------------------------------------------------- when recovery cannot finish

  /** Operations that neither make nor remove a job folder or its manifest. */
  predicate Quiet(ops: seq<Op>) {
    forall i :: 0 <= i < |ops| ==>
      !ops[i].MakeFolder? && !ops[i].DropFolder? && !ops[i].PublishManifest? && !ops[i].DropManifest?
  }

  lemma {:induction false} QuietKeepsManifest(d: Disk, ops: seq<Op>, k: nat)
    requires d.folder.Present? && Quiet(ops) && k <= |ops|
    ensures var d' := Exec(d, ops[..k]); d'.folder.Present? && d'.folder.manifest == d.folder.manifest
    decreases k
  {
    if k > 0 {
      assert ops[..k][1..] == ops[1..][..k - 1];
      QuietKeepsManifest(Apply(d, ops[0]), ops[1..], k - 1);
    }
  }

  lemma {:induction false} StageFromQuiet(d: Disk, es: seq<Entry>, i: nat)
    requires i <= |es|
    ensures Quiet(StageFrom(d, es, i).ops)
    decreases |es| - i
  {
    if i < |es| {
      StageFromQuiet(Exec(d, StageEntry(d, es[i], i).ops), es, i + 1);
    }
  }

  lemma QuietConcat(a: seq<Op>, b: seq<Op>)
    requires Quiet(a) && Quiet(b)
    ensures Quiet(a + b)
  {
  }

  lemma QuietThen(a: Program, b: Program)
    requires Quiet(a.ops) && Quiet(b.ops)
    ensures Quiet(Then(a, b).ops)
  {
    QuietConcat(a.ops, b.ops);
  }

  lemma FinishEntryQuiet(d: Disk, e: Entry, i: nat, committed: bool)
    ensures Quiet(FinishEntry(d, e, i, committed).ops)
  {
  }

  lemma {:induction false} FinishDownQuiet(d: Disk, es: seq<Entry>, i: nat, committed: bool)
    requires i <= |es|
    ensures Quiet(FinishDown(d, es, i, committed).ops)
    decreases i
  {
    if i > 0 {
      var turn := FinishEntry(d, es[i - 1], i - 1, committed);
      FinishEntryQuiet(d, es[i - 1], i - 1, committed);
      FinishDownQuiet(Exec(d, turn.ops), es, i - 1, committed);
      var rest := FinishDown(Exec(d, turn.ops), es, i - 1, committed);
      QuietThen(turn, rest);
    }
  }

  lemma {:induction false} RepairFromQuiet(d: Disk, es: seq<Entry>, i: nat, committed: bool)
    requires i <= |es|
    ensures Quiet(RepairFrom(d, es, i, committed).ops)
    decreases |es| - i
  {
    if i < |es| {
      RepairFromQuiet(Exec(d, RepairEntry(d, es[i], committed).ops), es, i + 1, committed);
    }
  }

  lemma PartsQuiet(d: Disk, m: Manifest, committed: bool, a: seq<Op>, b: Program, c: Program)
    requires a == MarkOps(d, m, committed)
    requires b == FinishDown(Exec(d, a), m.entries, |m.entries|, committed)
    requires c == RepairFrom(Exec(Exec(d, a), b.ops), m.entries, 0, committed)
    ensures Quiet(a + (b.ops + c.ops))
  {
    FinishDownQuiet(Exec(d, a), m.entries, |m.entries|, committed);
    RepairFromQuiet(Exec(Exec(d, a), b.ops), m.entries, 0, committed);
    QuietConcat(b.ops, c.ops);
    QuietConcat(a, b.ops + c.ops);
  }

  /** Recovery is quiet until its last three operations remove the folder. */
  lemma FinishShape(d: Disk, committed: bool, manifestFirst: bool) returns (quiet: seq<Op>)
    requires d.folder.Present? && d.folder.manifest.Some? && FinishProgram(d, committed, manifestFirst).ok
    ensures Quiet(quiet) && FinishProgram(d, committed, manifestFirst).ops == quiet + RemoveFolder(manifestFirst)
  {
    var m := d.folder.manifest.value;
    var a := MarkOps(d, m, committed);
    var d1 := Exec(d, a);
    var b := FinishDown(d1, m.entries, |m.entries|, committed);
    var c := RepairFrom(Exec(d1, b.ops), m.entries, 0, committed);
    FinishIsItsParts(d, m, committed, manifestFirst, a, b, c);
    PartsQuiet(d, m, committed, a, b, c);
    quiet := a + (b.ops + c.ops);
  }

  /** A committed clean-up leaves an orphaned folder exactly when it dies after removing the
      manifest and before removing the folder: one or two operations, by directory order. */
  lemma OrphanWindow(pl: Plan, d: Disk, manifestFirst: bool, k: nat)
    requires Planned(pl) && Mid(pl, d) && pl.committed && pl.m.purpose.Deletion? && pl.m.bytes <= MAX_MANIFEST_BYTES
    requires k <= |FinishProgram(d, true, manifestFirst).ops|
    ensures var ops := FinishProgram(d, true, manifestFirst).ops;
            |ops| >= 3 &&
            (Orphaned(Exec(d, ops[..k]), Deletion, true)
             <==> (if manifestFirst then |ops| - 2 else |ops| - 1) <= k < |ops|)
  {
    FinishCompletes(pl, d, manifestFirst);
    var quiet := FinishShape(d, true, manifestFirst);
    OrphanCuts(d, quiet, manifestFirst, k);
  }

  lemma OrphanCuts(d: Disk, quiet: seq<Op>, manifestFirst: bool, k: nat)
    requires d.folder.Present? && d.folder.manifest.Some? && Quiet(quiet)
    requires k <= |quiet| + 3
    ensures var ops := quiet + RemoveFolder(manifestFirst);
            |ops| == |quiet| + 3 &&
            (Orphaned(Exec(d, ops[..k]), Deletion, true)
             <==> (if manifestFirst then |ops| - 2 else |ops| - 1) <= k < |ops|)
  {
    var e := RemoveFolder(manifestFirst);
    var ops := quiet + e;
    if k <= |quiet| {
      assert ops[..k] == quiet[..k];
      QuietKeepsManifest(d, quiet, k);
    } else {
      QuietKeepsManifest(d, quiet, |quiet|);
      assert quiet[..|quiet|] == quiet && ops[..k] == quiet + e[..k - |quiet|];
      ExecConcat(d, quiet, e[..k - |quiet|]);
      RemoveFolderCuts(Exec(d, quiet), manifestFirst, k - |quiet|);
    }
  }

  lemma RemoveFolderCuts(d: Disk, manifestFirst: bool, k: nat)
    requires d.folder.Present? && d.folder.manifest.Some? && 1 <= k <= 3
    ensures |RemoveFolder(manifestFirst)| == 3
    ensures Orphaned(Exec(d, RemoveFolder(manifestFirst)[..k]), Deletion, true) <==>
              (if manifestFirst then 1 else 2) <= k < 3
  {
    var e := RemoveFolder(manifestFirst);
    ExecTwo(d, e[0], []);
    ExecTwo(d, e[0], [e[1]]);
    ExecTwo(Apply(d, e[0]), e[1], []);
    ExecThree(d, e[0], e[1], e[2]);
    assert e[..1] == [e[0]] + [] && e[..2] == [e[0]] + [e[1]] && [e[1]] == [e[1]] + [] && e[..3] == [e[0], e[1], e[2]];
  }

  /** The manifest is on disk exactly after the fourth operation of staging. */
  lemma ManifestDurable(d: Disk, m: Manifest, budget: nat)
    requires Listed(d.tree, m.entries) && d.folder.Absent?
    ensures var d' := Cut(d, budget, StageProgram(d, m).ops).disk;
            (d'.folder.Present? && d'.folder.manifest == Some(m)) <==> budget >= |Intent(m)|
    ensures var d' := Cut(d, budget, StageProgram(d, m).ops).disk;
            budget < |Intent(m)| ==> d'.folder.Absent? || d'.folder.manifest.None?
  {
    StageKeeps(d, m);
    var a, d4 := Intent(m), Exec(d, Intent(m));
    var b := StageFrom(d4, m.entries, 0).ops;
    var ops := StageProgram(d, m).ops;
    IntentCuts(d, m);
    if budget < |a| {
      assert ops[..budget] == a[..budget];
    } else {
      var k := if |ops| <= budget then |b| else budget - |a|;
      StageFromQuiet(d4, m.entries, 0);
      QuietKeepsManifest(d4, b, k);
      assert (if |ops| <= budget then ops else ops[..budget]) == a + b[..k];
      ExecConcat(d, a, b[..k]);
    }
  }

  lemma IntentCuts(d: Disk, m: Manifest)
    requires d.folder.Absent?
    ensures Exec(d, Intent(m)) == d.(folder := Present(true, false, Some(m), map[]))
    ensures forall k :: 0 <= k < |Intent(m)| ==>
              var f := Exec(d, Intent(m)[..k]).folder; f.Absent? || f.manifest.None?
  {
    var a := Intent(m);
    ExecThree(d, a[0], a[1], a[2]);
    ExecConcat(d, a[..3], [a[3]]);
    ExecTwo(Exec(d, a[..3]), a[3], []);
    assert a[..3] == [a[0], a[1], a[2]] && a == a[..3] + [a[3]] && [a[3]] == [a[3]] + [];
    ExecTwo(d, a[0], []);
    ExecTwo(d, a[0], [a[1]]);
    ExecTwo(Apply(d, a[0]), a[1], []);
    assert a[..1] == [a[0]] + [] && a[..2] == [a[0]] + [a[1]] && [a[1]] == [a[1]] + [];
    forall k | 0 <= k < 4
      ensures var f := Exec(d, a[..k]).folder; f.Absent? || f.manifest.None?
    {
      assert k == 0 ==> a[..k] == [];
    }
  }

  /** `_finish` refuses a manifest above its size limit, which `_write_manifest` does not
      check: staging and a full restart leave no job behind if and only if the manifest fits
      or was never published. */
  lemma RecoveryIffManifestFits(d: Disk, m: Manifest, budget: nat, commit: bool, last: Attempt)
    requires Listed(d.tree, m.entries) && d.folder.Absent?
    requires var d1 := Cut(d, budget, StageProgram(d, m).ops).disk;
             |FinishProgram(d1, Believed(d1, m.purpose, Committed(d, m, budget, commit)),
                 last.manifestFirst).ops| <= last.budget
    ensures Lifetime(d, m, budget, commit, [last]).folder.Absent?
            <==> m.bytes <= MAX_MANIFEST_BYTES || budget < |Intent(m)|
  {
    var c := Committed(d, m, budget, commit);
    var ops := StageProgram(d, m).ops;
    var d1 := Cut(d, budget, ops).disk;
    var p := FinishProgram(d1, Believed(d1, m.purpose, c), last.manifestFirst);
    ManifestDurable(d, m, budget);
    assert Restart(d1, m.purpose, c, [last]) == Restart(Exec(d1, p.ops), m.purpose, c, []) == Exec(d1, p.ops);
    if budget < |Intent(m)| {
      StageKeeps(d, m);
      PlanForIsPlanned(d, m, false);
      assert ops[..|Intent(m)|] == Intent(m);
      CutKeeps(PlanFor(d, m, false), d, budget, ops);
      if d1.folder.Present? {
        DropThree(d1);
      }
    } else if m.bytes <= MAX_MANIFEST_BYTES {
      LifetimeKeeps(d, m, budget, commit, []);
      FinishCompletes(PlanFor(d, m, c), d1, last.manifestFirst);
    }
  }

  lemma DropThree(d: Disk)
    ensures Exec(d, [DropFiles, DropTemporary, DropFolder]).folder.Absent?
  {
    ExecThree(d, DropFiles, DropTemporary, DropFolder);
  }

  /** No number of recoveries changes anything about an orphaned folder. */
  lemma {:induction false} OrphanedForever(d: Disk, committed: bool, attempts: seq<Attempt>)
    requires Orphaned(d, Deletion, committed)
    ensures Restart(d, Deletion, committed, attempts) == d
    decreases |attempts|
  {
    if attempts != [] {
      OrphanedForever(d, committed, attempts[1..]);
    }
  }

  /** A plan with one listed file and a manifest one byte over the limit: rolled back after a
      failed transaction, the file stays out of its place however often recovery runs. */
  lemma {:induction false} OversizedManifestStrandsFile(attempts: seq<Attempt>)
    ensures var path := In(In(Root, "workspaces"), "sub_1");
            var file, home := Node(7, OWNER_ONLY, false, 42), Node(3, OWNER_ONLY, true, 0);
            var d := Disk(map[In(Root, "workspaces") := home, path := file], Absent, false);
            var m := Manifest([Entry(path, 7, OWNER_ONLY, 3, OWNER_ONLY)], Deletion, MAX_MANIFEST_BYTES + 1);
            Listed(d.tree, m.entries) && path !in Lifetime(d, m, 100, false, attempts).tree
  {
    var path := In(In(Root, "workspaces"), "sub_1");
    var file, home := Node(7, OWNER_ONLY, false, 42), Node(3, OWNER_ONLY, true, 0);
    var d := Disk(map[In(Root, "workspaces") := home, path := file], Absent, false);
    var m := Manifest([Entry(path, 7, OWNER_ONLY, 3, OWNER_ONLY)], Deletion, MAX_MANIFEST_BYTES + 1);
    assert m.entries[0].path == path && Listed(d.tree, m.entries);
    StageKeeps(d, m);
    var pl := PlanFor(d, m, false);
    PlanForIsPlanned(d, m, false);
    var ops := StageProgram(d, m).ops;
    var d1 := Exec(d, ops);
    assert Kept(pl, d1, 0);
    IntentCuts(d, m);
    var d4 := Exec(d, Intent(m));
    assert StageFrom(Exec(d4, StageEntry(d4, m.entries[0], 0).ops), m.entries, 1).ops == [];
    assert |ops| <= 100;
    RefusedForever(d1, m, false, attempts);
  }

  lemma {:induction false} RefusedForever(d: Disk, m: Manifest, committed: bool, attempts: seq<Attempt>)
    requires d.folder.Present? && d.folder.manifest == Some(m) && m.bytes > MAX_MANIFEST_BYTES
    ensures Restart(d, m.purpose, committed, attempts) == d
    decreases |attempts|
  {
    if attempts != [] {
      RefusedForever(d, m, committed, attempts[1..]);
    }
  }
}
