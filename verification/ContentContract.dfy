/** Paths a teaching-content collection may hold, and the Git tree built from them. */
module ContentContract {
  import opened Common

  /** The parts of Unicode the checks rely on.  Case folding works character by character
      and neither makes nor removes a slash. */
  datatype Unicode = Unicode(fold: char -> string, nfc: string -> bool, space: char -> bool, width: char -> nat)
  {
    ghost predicate Sane() {
      fold('/') == "/"
    }
  }

  datatype File = File(path: string, sha256: string, size: nat, media: string)

  const MAX_FILES := 1000
  const MAX_RELEASE_BYTES := 100 * 1024 * 1024
  const SUFFIXES := [".txt", ".md", ".csv", ".json", ".pdf", ".zip", ".c", ".h", ".cpp", ".hpp", ".cc", ".cxx",
                     ".png", ".jpg", ".jpeg"]
  const RESERVED := ["con", "prn", "aux", "nul",
                     "com1", "com2", "com3", "com4", "com5", "com6", "com7", "com8", "com9",
                     "lpt1", "lpt2", "lpt3", "lpt4", "lpt5", "lpt6", "lpt7", "lpt8", "lpt9"]
  const FORBIDDEN: string := "\\:*?\"<>|"

  // ---------------------------------------------------------------------- strings

  /** `value.split("/")`. */
  function Split(s: string): (parts: seq<string>)
    ensures |parts| > 0
  {
    if s == "" then [""]
    else
      var rest := Split(s[1..]);
      if s[0] == '/' then [""] + rest else [[s[0]] + rest[0]] + rest[1..]
  }

  function Join(parts: seq<string>): string {
    if parts == [] then "" else if |parts| == 1 then parts[0] else parts[0] + "/" + Join(parts[1..])
  }

  predicate OneOf(s: string, names: seq<string>) {
    names != [] && (s == names[0] || OneOf(s, names[1..]))
  }

  function Lower(s: string): string {
    if s == "" then "" else [if 'A' <= s[0] <= 'Z' then s[0] - 'A' + 'a' else s[0]] + Lower(s[1..])
  }

  function Fold(u: Unicode, s: string): string {
    if s == "" then "" else u.fold(s[0]) + Fold(u, s[1..])
  }

  function Width(u: Unicode, s: string): nat {
    if s == "" then 0 else u.width(s[0]) + Width(u, s[1..])
  }

  function BeforeDot(s: string): string {
    if s == "" || s[0] == '.' then "" else [s[0]] + BeforeDot(s[1..])
  }

  function LastDot(s: string): (i: int)
    ensures -1 <= i < |s|
  {
    if s == "" then -1 else if s[|s| - 1] == '.' then |s| - 1 else LastDot(s[..|s| - 1])
  }

  /** From the last dot on, unless the name starts or ends there. */
  function Suffix(name: string): string {
    var i := LastDot(name);
    if 0 < i < |name| - 1 then name[i..] else ""
  }

  predicate PartOk(u: Unicode, p: string) {
    && p != "" && p[0] != '.' && p[|p| - 1] != '.' && p[|p| - 1] != ' '
    && !u.space(p[0]) && !u.space(p[|p| - 1])
    && !OneOf(Lower(BeforeDot(p)), RESERVED)
  }

  predicate CharsOk(s: string) {
    s == "" || (s[0] as int >= 32 && s[0] as int != 127 && s[0] !in FORBIDDEN && CharsOk(s[1..]))
  }

  predicate PartsOk(u: Unicode, parts: seq<string>) {
    parts == [] || (PartOk(u, parts[0]) && PartsOk(u, parts[1..]))
  }

  /** `content_path` accepts the value. */
  predicate ContentPath(u: Unicode, value: string) {
    var parts := Split(value);
    && value != "" && u.nfc(value) && Width(u, value) <= 240
    && CharsOk(value) && |parts| <= 12 && PartsOk(u, parts)
    && OneOf(Lower(Suffix(parts[|parts| - 1])), SUFFIXES)
  }

  /** Two folded paths name the same place, or one needs the other to be a folder. */
  predicate Clash(a: string, b: string) {
    a == b || a + "/" <= b || b + "/" <= a
  }

  function Bytes(files: seq<File>): nat {
    if files == [] then 0 else Bytes(files[..|files| - 1]) + files[|files| - 1].size
  }

  /** Two files that may lie side by side. */
  predicate Clear(u: Unicode, a: File, b: File) {
    !Clash(Fold(u, a.path), Fold(u, b.path))
  }

  /** File `j` has an acceptable path that clashes with none before it. */
  predicate AdmittedAt(u: Unicode, files: seq<File>, j: nat)
    requires j < |files|
  {
    ContentPath(u, files[j].path) && forall i :: 0 <= i < j ==> Clear(u, files[i], files[j])
  }

  /** Every path is acceptable, and no two of them clash. */
  predicate PathsOk(u: Unicode, files: seq<File>) {
    forall j: nat {:trigger AdmittedAt(u, files, j)} :: j < |files| ==> AdmittedAt(u, files, j)
  }

  /** What `check_file_set` accepts. */
  predicate FileSetOk(u: Unicode, files: seq<File>) {
    |files| <= MAX_FILES && Bytes(files) <= MAX_RELEASE_BYTES && PathsOk(u, files)
  }

  method CheckFileSet(u: Unicode, files: seq<File>) returns (ok: bool)
    ensures ok == FileSetOk(u, files)
  {
    var total := TotalBytes(files);
    if |files| > MAX_FILES || total > MAX_RELEASE_BYTES {
      return false;
    }
    ok := CheckPaths(u, files);
  }

  method CheckPaths(u: Unicode, files: seq<File>) returns (ok: bool)
    ensures ok == PathsOk(u, files)
  {
    var i := 0;
    while i < |files|
      invariant 0 <= i <= |files|
      invariant forall j: nat {:trigger AdmittedAt(u, files, j)} :: j < i ==> AdmittedAt(u, files, j)
    {
      ok := ClearOfSeen(u, files, i);
      if !ok || !ContentPath(u, files[i].path) {
        assert !AdmittedAt(u, files, i);
        return false;
      }
      i := i + 1;
    }
    ok := true;
  }

  /** Any two accepted files are clear of each other. */
  lemma AcceptedAreClear(u: Unicode, files: seq<File>, i: nat, j: nat)
    requires PathsOk(u, files) && i < j < |files|
    ensures Clear(u, files[i], files[j])
  {
    assert AdmittedAt(u, files, j);
  }

  lemma AcceptedPrefix(u: Unicode, files: seq<File>, n: nat)
    requires n <= |files| && PathsOk(u, files)
    ensures PathsOk(u, files[..n])
  {
    forall j: nat | j < n ensures AdmittedAt(u, files[..n], j) {
      assert AdmittedAt(u, files, j);
    }
  }

  method TotalBytes(files: seq<File>) returns (total: nat)
    ensures total == Bytes(files)
  {
    total := 0;
    var n := 0;
    while n < |files|
      invariant 0 <= n <= |files| && total == Bytes(files[..n])
    {
      assert files[..n + 1][..n] == files[..n];
      total := total + files[n].size;
      n := n + 1;
    }
    assert files[..n] == files;
  }

  method ClearOfSeen(u: Unicode, files: seq<File>, n: nat) returns (clear: bool)
    requires n < |files|
    ensures clear <==> forall i :: 0 <= i < n ==> Clear(u, files[i], files[n])
  {
    var folded := Fold(u, files[n].path);
    var k := 0;
    while k < n
      invariant 0 <= k <= n && forall i :: 0 <= i < k ==> Clear(u, files[i], files[n])
    {
      if Clash(Fold(u, files[k].path), folded) {
        assert !Clear(u, files[k], files[n]);
        return false;
      }
      k := k + 1;
    }
    clear := true;
  }

  lemma {:induction false} JoinSplit(s: string)
    ensures Join(Split(s)) == s
  {
    if s != "" {
      var rest := Split(s[1..]);
      JoinSplit(s[1..]);
      if s[0] == '/' {
        assert ([""] + rest)[1..] == rest;
      } else {
        var parts := [[s[0]] + rest[0]] + rest[1..];
        assert parts[1..] == rest[1..];
        assert |rest| > 1 ==> Join(parts) == [s[0]] + (rest[0] + "/" + Join(rest[1..]));
      }
    }
  }

  lemma {:induction false} JoinConcat(a: seq<string>, b: seq<string>)
    requires a != [] && b != []
    ensures Join(a + b) == Join(a) + "/" + Join(b)
  {
    if |a| > 1 {
      JoinConcat(a[1..], b);
      assert (a + b)[1..] == a[1..] + b;
    } else {
      assert (a + b)[1..] == b;
    }
  }

  lemma {:induction false} FoldConcat(u: Unicode, a: string, b: string)
    ensures Fold(u, a + b) == Fold(u, a) + Fold(u, b)
  {
    if a == "" {
      assert a + b == b;
    } else {
      FoldConcat(u, a[1..], b);
      assert (a + b)[1..] == a[1..] + b;
    }
  }

  /** If one split path is a prefix of the other, the folded paths clash. */
  lemma PrefixClashes(u: Unicode, p: string, q: string)
    requires u.Sane() && Split(p) <= Split(q)
    ensures Clash(Fold(u, p), Fold(u, q))
  {
    JoinSplit(p);
    JoinSplit(q);
    var rest := Split(q)[|Split(p)|..];
    assert Split(q) == Split(p) + rest;
    if rest == [] {
      assert Split(p) == Split(q);
    } else {
      JoinConcat(Split(p), rest);
      assert q == p + "/" + Join(rest);
      FoldConcat(u, p + "/", Join(rest));
      FoldConcat(u, p, "/");
      assert Fold(u, "/") == u.fold('/') + Fold(u, "");
    }
  }

  // ------------------------------------------------------------------------ the tree

  datatype Tree = Blob(oid: string) | Dir(entries: map<string, Tree>)

  /** Walk `parts[:-1]` with `setdefault`, then set the last name.  None where Python would
      use a file as a folder; a file put where something is already takes its place. */
  function Insert(t: Tree, parts: seq<string>, oid: string): Option<Tree>
    requires t.Dir? && parts != []
    decreases |parts|
  {
    var name := parts[0];
    if |parts| == 1 then Some(Dir(t.entries[name := Blob(oid)]))
    else
      var below := if name in t.entries then t.entries[name] else Dir(map[]);
      if below.Blob? then None
      else
        match Insert(below, parts[1..], oid)
        case None => None
        case Some(below') => Some(Dir(t.entries[name := below']))
  }

  /** The blob at a path of the finished tree: flattening, one path at a time. */
  function Lookup(t: Tree, parts: seq<string>): Option<string>
    decreases |parts|
  {
    if parts == [] then (if t.Blob? then Some(t.oid) else None)
    else if t.Blob? || parts[0] !in t.entries then None
    else Lookup(t.entries[parts[0]], parts[1..])
  }

  /** No empty folder anywhere. */
  ghost predicate Full(t: Tree) {
    t.Dir? ==> forall name :: name in t.entries ==>
      Full(t.entries[name]) && exists parts :: Lookup(t.entries[name], parts).Some?
  }

  predicate Comparable(p: seq<string>, q: seq<string>) { p <= q || q <= p }

  lemma NameTaken(t: Tree, name: string)
    requires t.Dir? && Full(t)
    ensures name in t.entries ==> exists p :: Lookup(t, p).Some? && [name] <= p
  {
    if name in t.entries {
      var p :| Lookup(t.entries[name], p).Some?;
      assert ([name] + p)[1..] == p;
      assert Lookup(t, [name] + p).Some? && [name] <= [name] + p;
    }
  }

  /** Hanging a non-empty tree under a name changes the paths below that name only. */
  lemma Graft(t: Tree, name: string, below: Tree)
    requires t.Dir? && Full(t) && Full(below) && exists p :: Lookup(below, p).Some?
    ensures var t' := Dir(t.entries[name := below]);
            Full(t') && forall p ::
                Lookup(t', p) == if p != [] && p[0] == name then Lookup(below, p[1..]) else Lookup(t, p)
  {
    var t' := Dir(t.entries[name := below]);
    forall other | other in t'.entries
      ensures Full(t'.entries[other]) && exists p :: Lookup(t'.entries[other], p).Some?
    {
      assert other != name ==> t'.entries[other] == t.entries[other];
    }
  }

  lemma BelowIsClear(t: Tree, parts: seq<string>)
    requires t.Dir? && |parts| > 1
    requires forall p :: Lookup(t, p).Some? ==> !Comparable(p, parts)
    ensures var below := if parts[0] in t.entries then t.entries[parts[0]] else Dir(map[]);
            below.Dir? && forall p :: Lookup(below, p).Some? ==> !Comparable(p, parts[1..])
  {
    var name, rest := parts[0], parts[1..];
    var below := if name in t.entries then t.entries[name] else Dir(map[]);
    assert parts == [name] + rest;
    forall p | Lookup(below, p).Some? ensures !Comparable(p, rest) {
      assert ([name] + p)[1..] == p;
      assert Lookup(t, [name] + p).Some?;
      assert Comparable(p, rest) ==> Comparable([name] + p, [name] + rest);
    }
    assert Comparable([], rest);
    assert below.Blob? ==> Lookup(below, []).Some?;
  }

  lemma HeadAndTail(name: string, rest: seq<string>, p: seq<string>)
    ensures p == [name] + rest <==> p != [] && p[0] == name && p[1..] == rest
  {
    assert p != [] ==> p == [p[0]] + p[1..];
  }

  /** Setting a free path to a blob succeeds and changes the flattened tree at that path only. */
  ghost predicate Inserted(t: Tree, parts: seq<string>, oid: string)
    requires t.Dir? && parts != []
  {
    match Insert(t, parts, oid)
    case None => false
    case Some(t') => t'.Dir? && Full(t') && forall p :: Lookup(t', p) == if p == parts then Some(oid) else Lookup(t, p)
  }

  lemma InsertGrafted(t: Tree, parts: seq<string>, oid: string, below: Tree, below': Tree)
    requires t.Dir? && Full(t) && parts != [] && Full(below')
    requires forall p :: p != [] && p[0] == parts[0] ==> Lookup(t, p) == Lookup(below, p[1..])
    requires forall p :: Lookup(below', p) == if p == parts[1..] then Some(oid) else Lookup(below, p)
    requires Insert(t, parts, oid) == Some(Dir(t.entries[parts[0] := below']))
    ensures Inserted(t, parts, oid)
  {
    assert Lookup(below', parts[1..]).Some?;
    Graft(t, parts[0], below');
    var t' := Dir(t.entries[parts[0] := below']);
    forall p ensures Lookup(t', p) == if p == parts then Some(oid) else Lookup(t, p) {
      HeadAndTail(parts[0], parts[1..], p);
      HeadAndTail(parts[0], parts[1..], parts);
    }
  }

  lemma {:induction false} InsertLookup(t: Tree, parts: seq<string>, oid: string)
    requires t.Dir? && Full(t) && parts != []
    requires forall p :: Lookup(t, p).Some? ==> !Comparable(p, parts)
    ensures Inserted(t, parts, oid)
    decreases |parts|
  {
    var name, rest := parts[0], parts[1..];
    if |parts| == 1 {
      NameTaken(t, name);
      assert parts == [name];
      InsertGrafted(t, parts, oid, Dir(map[]), Blob(oid));
    } else {
      BelowIsClear(t, parts);
      var below := if name in t.entries then t.entries[name] else Dir(map[]);
      InsertLookup(below, rest, oid);
      InsertGrafted(t, parts, oid, below, Insert(below, rest, oid).value);
    }
  }

  /** The nested dictionaries of `_prepare_git`: the content objects at their paths, in any
      order; `text` tells which files go into Git. */
  method Grow(files: seq<File>, text: File -> bool) returns (t: Option<Tree>)
    ensures t == Build(files, text)
  {
    var tree := Dir(map[]);
    var i := 0;
    while i < |files|
      invariant 0 <= i <= |files|
      invariant Build(files[..i], text) == Some(tree) && tree.Dir?
    {
      assert files[..i + 1][..i] == files[..i];
      if text(files[i]) {
        var next := Insert(tree, Split(files[i].path), files[i].sha256);
        if next.None? {
          BuildFails(files, text, i + 1);
          return None;
        }
        tree := next.value;
      }
      i := i + 1;
    }
    assert files[..i] == files;
    t := Some(tree);
  }

  function Build(files: seq<File>, text: File -> bool): (t: Option<Tree>)
    ensures t.Some? ==> t.value.Dir?
  {
    if files == [] then Some(Dir(map[]))
    else
      var last := files[|files| - 1];
      match Build(files[..|files| - 1], text)
      case None => None
      case Some(tree) => if text(last) then Insert(tree, Split(last.path), last.sha256) else Some(tree)
  }

  lemma {:induction false} BuildFails(files: seq<File>, text: File -> bool, n: nat)
    requires n <= |files| && Build(files[..n], text).None?
    ensures Build(files, text).None?
    decreases |files| - n
  {
    if n == |files| {
      assert files[..n] == files;
    } else {
      assert files[..n + 1][..n] == files[..n];
      BuildFails(files, text, n + 1);
    }
  }

  ghost predicate Holds(files: seq<File>, text: File -> bool, parts: seq<string>, oid: string) {
    exists i :: 0 <= i < |files| && text(files[i]) && Split(files[i].path) == parts && files[i].sha256 == oid
  }

  /** For every accepted list, in any order: building never meets a file where a folder is
      needed or the reverse, and flattening the tree gives back exactly the listed blobs. */
  lemma {:induction false} TreeIsTheFileMap(u: Unicode, files: seq<File>, text: File -> bool)
    requires u.Sane() && FileSetOk(u, files)
    ensures Build(files, text).Some? && Full(Build(files, text).value)
    ensures forall parts, oid :: Lookup(Build(files, text).value, parts) == Some(oid) <==>
              Holds(files, text, parts, oid)
    decreases |files|
  {
    if files == [] {
      assert forall parts :: Lookup(Dir(map[]), parts) == None;
    } else {
      var n := |files| - 1;
      var front, last := files[..n], files[n];
      assert files == front + [last];
      AcceptedPrefix(u, files, n);
      TreeIsTheFileMap(u, front, text);
      var tree := Build(front, text).value;
      if text(last) {
        forall p | Lookup(tree, p).Some? ensures !Comparable(p, Split(last.path)) {
          assert Holds(front, text, p, Lookup(tree, p).value);
          var i :| 0 <= i < |front| && Split(front[i].path) == p;
          assert files[i] == front[i];
          IncomparableIfAccepted(u, files, i, n);
        }
        InsertLookup(tree, Split(last.path), last.sha256);
      }
      forall parts, oid
        ensures Lookup(Build(files, text).value, parts) == Some(oid) <==> Holds(files, text, parts, oid)
      {
        HoldsLast(u, front, last, text, parts, oid);
      }
    }
  }

  lemma IncomparableIfAccepted(u: Unicode, files: seq<File>, i: nat, j: nat)
    requires u.Sane() && PathsOk(u, files) && i < j < |files|
    ensures !Comparable(Split(files[i].path), Split(files[j].path))
  {
    AcceptedAreClear(u, files, i, j);
    if Split(files[i].path) <= Split(files[j].path) {
      PrefixClashes(u, files[i].path, files[j].path);
    }
    if Split(files[j].path) <= Split(files[i].path) {
      PrefixClashes(u, files[j].path, files[i].path);
    }
  }

  lemma HoldsLast(u: Unicode, front: seq<File>, last: File, text: File -> bool, parts: seq<string>, oid: string)
    ensures Holds(front + [last], text, parts, oid)
            <==> Holds(front, text, parts, oid) || (text(last) && Split(last.path) == parts && last.sha256 == oid)
  {
    var files := front + [last];
    if Holds(front, text, parts, oid) {
      var i :| 0 <= i < |front| && text(front[i]) && Split(front[i].path) == parts && front[i].sha256 == oid;
      assert files[i] == front[i];
    }
    assert files[|front|] == last;
  }
}
