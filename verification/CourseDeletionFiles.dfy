/** The move journal that makes the erasure of a course's files recoverable.

    A run of the program is a list of primitive disk operations.  The process may die
    between any two of them, so "crash anywhere" is "execute a prefix of the list". */
module CourseDeletionFiles {
  import opened Common

  /** Permission bits: the owner's write and execute bits, and all the others. */
  datatype Mode = Mode(write: bool, enter: bool, rest: nat)
  /** A place below the data root. */
  datatype Path = Root | In(parent: Path, name: string)

  /** A file, or a directory with everything below it; `body` is that content. */
  datatype Node = Node(id: nat, mode: Mode, dir: bool, body: nat)

  datatype Entry = Entry(path: Path, id: nat, mode: Mode, parentId: nat, parentMode: Mode)
  datatype Purpose = Deletion | PrivacyArchive
  datatype Manifest = Manifest(entries: seq<Entry>, purpose: Purpose, bytes: nat)

  /** The private staging folder of one job. */
  datatype Folder =
    | Absent
    | Present(files: bool, tmp: bool, manifest: Option<Manifest>, staged: map<nat, Node>)

  datatype Disk = Disk(tree: map<Path, Node>, folder: Folder, marked: bool)

  const MAX_MANIFEST_BYTES := 4 * 1024 * 1024
  const OWNER_ONLY := Mode(true, true, 0x100)

  function Widen(mode: Mode): Mode { mode.(write := true, enter := true) }

  datatype Op =
    | MakeFolder
    | MakeFilesDir
    | WriteTemporary
    | PublishManifest(manifest: Manifest)
    | MakeDir(path: Path)
    | Chmod(path: Path, mode: Mode)
    | ChmodStaged(index: nat, mode: Mode)
    | Stash(path: Path, index: nat)
    | Restore(index: nat, path: Path)
    | Shred(index: nat)
    | Discard(index: nat)
    | Mark
    | DropManifest
    | DropFiles
    | DropTemporary
    | DropFolder

  function Apply(d: Disk, op: Op): Disk {
    if op.MakeFolder? then
      if d.folder.Absent? then d.(folder := Present(false, false, None, map[])) else d
    else if op.Mark? then d.(marked := true)
    else if op.Chmod? then
      if op.path in d.tree then d.(tree := d.tree[op.path := d.tree[op.path].(mode := op.mode)]) else d
    else if op.MakeDir? then
      if op.path in d.tree then d else d.(tree := d.tree[op.path := Node(0, OWNER_ONLY, true, 0)])
    else if d.folder.Absent? then d
    else
      var f := d.folder;
      match op
      case MakeFilesDir => d.(folder := f.(files := true))
      case WriteTemporary => d.(folder := f.(tmp := true))
      case PublishManifest(m) => d.(folder := f.(manifest := Some(m), tmp := false))
      case ChmodStaged(i, mode) =>
        if i in f.staged then d.(folder := f.(staged := f.staged[i := f.staged[i].(mode := mode)])) else d
      case Stash(p, i) =>
        if p in d.tree then d.(tree := d.tree - {p}, folder := f.(staged := f.staged[i := d.tree[p]])) else d
      case Restore(i, p) =>
        if i in f.staged then d.(tree := d.tree[p := f.staged[i]], folder := f.(staged := f.staged - {i})) else d
      case Shred(i) =>
        if i in f.staged then d.(folder := f.(staged := f.staged[i := f.staged[i].(body := 0)])) else d
      case Discard(i) => d.(folder := f.(staged := f.staged - {i}))
      case DropManifest => d.(folder := f.(manifest := None))
      case DropFiles => d.(folder := f.(files := false))
      case DropTemporary => d.(folder := f.(tmp := false))
      case DropFolder => d.(folder := Absent)
  }

  function Exec(d: Disk, ops: seq<Op>): Disk
    decreases |ops|
  {
    if ops == [] then d else Exec(Apply(d, ops[0]), ops[1..])
  }

  /** Operations a procedure performs, and whether it then returns or refuses. */
  datatype Program = Program(ops: seq<Op>, ok: bool)

  function Then(a: Program, b: Program): Program {
    if a.ok then Program(a.ops + b.ops, b.ok) else a
  }

  // ------------------------------------------------------------------ staging

  /** `_move` under `_writable_parent`: into staging. */
  function StashOps(d: Disk, path: Path, i: nat): seq<Op>
    requires path.In? && path in d.tree && path.parent in d.tree
  {
    var n, up := d.tree[path], d.tree[path.parent].mode;
    [Chmod(path.parent, Widen(up))]
    + (if n.dir then [Chmod(path, Widen(n.mode)), Stash(path, i), ChmodStaged(i, n.mode)] else [Stash(path, i)])
    + [Chmod(path.parent, up)]
  }

  function StageEntry(d: Disk, e: Entry, i: nat): Program {
    if e.path.Root? || e.path !in d.tree || e.path.parent !in d.tree || d.tree[e.path].id != e.id
    then Program([], false)
    else Program(StashOps(d, e.path, i), true)
  }

  function StageFrom(d: Disk, entries: seq<Entry>, i: nat): Program
    requires i <= |entries|
    decreases |entries| - i
  {
    if i == |entries| then Program([], true)
    else
      var p := StageEntry(d, entries[i], i);
      if !p.ok then p else Then(p, StageFrom(Exec(d, p.ops), entries, i + 1))
  }

  function Intent(m: Manifest): seq<Op> {
    [MakeFolder, MakeFilesDir, WriteTemporary, PublishManifest(m)]
  }

  function StageProgram(d: Disk, m: Manifest): Program {
    if d.folder.Present? then Program([], false)
    else Then(Program(Intent(m), true), StageFrom(Exec(d, Intent(m)), m.entries, 0))
  }

  // --------------------------------------------------- recovery, rollback, purge

  /** `_move` under `_writable_parent`: back out of staging. */
  function RestoreOps(d: Disk, path: Path, i: nat): seq<Op>
    requires path.In? && d.folder.Present? && i in d.folder.staged
  {
    var n := d.folder.staged[i];
    var up := if path.parent in d.tree then d.tree[path.parent].mode else OWNER_ONLY;
    (if path.parent in d.tree then [] else [MakeDir(path.parent)])
    + [Chmod(path.parent, Widen(up))]
    + (if n.dir then [ChmodStaged(i, Widen(n.mode)), Restore(i, path), Chmod(path, n.mode)] else [Restore(i, path)])
    + [Chmod(path.parent, up)]
  }

  function DiscardOps(n: Node, i: nat): seq<Op> {
    (if n.dir then [ChmodStaged(i, OWNER_ONLY), Shred(i)] else []) + [Discard(i)]
  }

  function FinishEntry(d: Disk, e: Entry, i: nat, committed: bool): Program {
    if d.folder.Absent? || i !in d.folder.staged then Program([], true)
    else if d.folder.staged[i].id != e.id then Program([], false)
    else if committed then Program(DiscardOps(d.folder.staged[i], i), true)
    else if e.path.Root? || e.path in d.tree then Program([], false)
    else Program(RestoreOps(d, e.path, i), true)
  }

  /** The first loop of `_finish`, last entry first. */
  function FinishDown(d: Disk, entries: seq<Entry>, i: nat, committed: bool): Program
    requires i <= |entries|
    decreases i
  {
    if i == 0 then Program([], true)
    else
      var p := FinishEntry(d, entries[i - 1], i - 1, committed);
      if !p.ok then p else Then(p, FinishDown(Exec(d, p.ops), entries, i - 1, committed))
  }

  function RepairEntry(d: Disk, e: Entry, committed: bool): Program {
    if e.path.Root? then Program([], false)
    else
      var own := if !committed && e.path in d.tree && d.tree[e.path].id == e.id then [Chmod(e.path, e.mode)] else [];
      if e.path.parent !in d.tree || d.tree[e.path.parent].id != e.parentId then Program(own, false)
      else Program(own + [Chmod(e.path.parent, e.parentMode)], true)
  }

  /** The second loop of `_finish`: permission bits of the entries and their parents. */
  function RepairFrom(d: Disk, entries: seq<Entry>, i: nat, committed: bool): Program
    requires i <= |entries|
    decreases |entries| - i
  {
    if i == |entries| then Program([], true)
    else
      var p := RepairEntry(d, entries[i], committed);
      if !p.ok then p else Then(p, RepairFrom(Exec(d, p.ops), entries, i + 1, committed))
  }

  /** `shutil.rmtree` of the job folder; the file system decides which child goes first. */
  function RemoveFolder(manifestFirst: bool): seq<Op> {
    (if manifestFirst then [DropManifest, DropFiles] else [DropFiles, DropManifest]) + [DropFolder]
  }

  function MarkOps(d: Disk, m: Manifest, committed: bool): seq<Op> {
    if committed && m.purpose.Deletion? && !d.marked then [Mark] else []
  }

  function FinishProgram(d: Disk, committed: bool, manifestFirst: bool): Program {
    if d.folder.Absent? then Program([], true)
    else if d.folder.manifest.None? then
      if !committed && d.folder.staged == map[] then Program([DropFiles, DropTemporary, DropFolder], true)
      else Program([], false)
    else
      var m := d.folder.manifest.value;
      if m.bytes > MAX_MANIFEST_BYTES then Program([], false)
      else
        var p0 := Program(MarkOps(d, m, committed), true);
        var d1 := Exec(d, p0.ops);
        var p1 := FinishDown(d1, m.entries, |m.entries|, committed);
        var d2 := Exec(d1, p1.ops);
        var p2 := RepairFrom(d2, m.entries, 0, committed);
        Then(p0, Then(p1, Then(p2, Program(RemoveFolder(manifestFirst), true))))
  }

  /** The disk, what is left of the budget and whether the process died, after performing
      `ops` on a machine that survives exactly `budget` more operations. */
  datatype Outcome = Outcome(disk: Disk, budget: nat, crashed: bool)

  function Cut(d: Disk, budget: nat, ops: seq<Op>): Outcome {
    if |ops| <= budget then Outcome(Exec(d, ops), budget - |ops|, false)
    else Outcome(Exec(d, ops[..budget]), 0, true)
  }
}
