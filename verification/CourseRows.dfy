/** Which database rows the erasure of a course takes: a least fixpoint over foreign keys,
    grown by a loop in a temporary table, for permanent deletion and for privacy archival. */
module CourseRows {
  import opened Common

  datatype Value = Null | Text(text: string)
  type Columns = map<string, Value>
  datatype RowId = RowId(table: string, rowid: nat)
  type Database = map<RowId, Columns>

  /** A (possibly composite) foreign key with its target columns resolved. */
  datatype ForeignKey = ForeignKey(child: string, parent: string, pairs: seq<(string, string)>)

  const COURSE := "course_key"

  /** The columns agree in SQL's sense: NULL agrees with nothing. */
  predicate Agree(c: Columns, p: Columns, pair: (string, string)) {
    pair.0 in c && pair.1 in p && c[pair.0].Text? && c[pair.0] == p[pair.1]
  }

  predicate Refers(db: Database, fk: ForeignKey, c: RowId, p: RowId) {
    && c in db && p in db && c.table == fk.child && p.table == fk.parent && fk.pairs != []
    && forall i :: 0 <= i < |fk.pairs| ==> Agree(db[c], db[p], fk.pairs[i])
  }

  predicate Tagged(db: Database, r: RowId, course: string) {
    r in db && COURSE in db[r] && db[r][COURSE] == Text(course)
  }

  // ---------------------------------------------------------------- the set sought

  ghost predicate Closed(db: Database, fks: set<ForeignKey>, s: set<RowId>) {
    forall fk, c, p :: fk in fks && p in s && Refers(db, fk, c, p) ==> c in s
  }

  /** `s` contains the seeds, is closed under children, and is the least such set. */
  ghost predicate LeastClosed(db: Database, fks: set<ForeignKey>, seeds: set<RowId>, s: set<RowId>) {
    && seeds <= s && Closed(db, fks, s)
    && forall t: set<RowId> {:trigger Closed(db, fks, t)} :: seeds <= t && Closed(db, fks, t) ==> s <= t
  }

  /** Hence the result does not depend on the order in which tables were visited. */
  lemma LeastClosedIsUnique(db: Database, fks: set<ForeignKey>, seeds: set<RowId>, s: set<RowId>, t: set<RowId>)
    requires LeastClosed(db, fks, seeds, s) && LeastClosed(db, fks, seeds, t)
    ensures s == t
  {
    assert Closed(db, fks, s) && Closed(db, fks, t);
  }

  /** The rows no closed set around the seeds can avoid. */
  ghost function Closure(db: Database, fks: set<ForeignKey>, seeds: set<RowId>): set<RowId> {
    set r | r in db && forall t: set<RowId> {:trigger Closed(db, fks, t)} :: seeds <= t && Closed(db, fks, t) ==> r in t
  }

  lemma ClosureIsLeast(db: Database, fks: set<ForeignKey>, seeds: set<RowId>)
    requires seeds <= db.Keys
    ensures LeastClosed(db, fks, seeds, Closure(db, fks, seeds))
  {
  }

  lemma LeastIsClosure(db: Database, fks: set<ForeignKey>, seeds: set<RowId>, s: set<RowId>)
    requires s <= db.Keys && LeastClosed(db, fks, seeds, s)
    ensures s == Closure(db, fks, seeds)
  {
    ClosureIsLeast(db, fks, seeds);
    LeastClosedIsUnique(db, fks, seeds, s, Closure(db, fks, seeds));
  }

  /** Closing, adding rows and closing again is closing once over everything. */
  lemma ClosureInTwoRounds(db: Database, fks: set<ForeignKey>, a: set<RowId>, b: set<RowId>, s: set<RowId>,
                           t: set<RowId>)
    requires LeastClosed(db, fks, a, s) && LeastClosed(db, fks, s + b, t)
    ensures LeastClosed(db, fks, a + b, t)
  {
    forall u: set<RowId> | a + b <= u && Closed(db, fks, u)
      ensures t <= u
    {
      assert s <= u;
    }
  }

  // --------------------------------------------------------------------- the loops

  ghost function Fks(keys: map<string, seq<ForeignKey>>, tables: seq<string>): set<ForeignKey> {
    set i, j | 0 <= i < |tables| && tables[i] in keys && 0 <= j < |keys[tables[i]]| :: keys[tables[i]][j]
  }

  /** One `INSERT OR IGNORE`: the children of chosen rows through one foreign key. */
  function Children(db: Database, fk: ForeignKey, chosen: set<RowId>): set<RowId> {
    set c, p | p in chosen && c in db && Refers(db, fk, c, p) :: c
  }

  /** One pass over all tables and their foreign keys. */
  method Pass(db: Database, tables: seq<string>, keys: map<string, seq<ForeignKey>>,
              ghost seeds: set<RowId>, chosen: set<RowId>) returns (more: set<RowId>)
    requires chosen <= db.Keys
    requires forall t: set<RowId> {:trigger Closed(db, Fks(keys, tables), t)} ::
               seeds <= t && Closed(db, Fks(keys, tables), t) ==> chosen <= t
    ensures chosen <= more <= db.Keys
    ensures forall t: set<RowId> {:trigger Closed(db, Fks(keys, tables), t)} ::
              seeds <= t && Closed(db, Fks(keys, tables), t) ==> more <= t
    ensures more == chosen ==> Closed(db, Fks(keys, tables), chosen)
  {
    more := chosen;
    ghost var fks := Fks(keys, tables);
    var i := 0;
    while i < |tables|
      invariant 0 <= i <= |tables|
      invariant chosen <= more <= db.Keys
      invariant forall t: set<RowId> {:trigger Closed(db, fks, t)} :: seeds <= t && Closed(db, fks, t) ==> more <= t
      invariant more == chosen ==> forall k, l :: 0 <= k < i && tables[k] in keys && 0 <= l < |keys[tables[k]]| ==>
                  Children(db, keys[tables[k]][l], chosen) <= chosen
    {
      var own := if tables[i] in keys then keys[tables[i]] else [];
      var j := 0;
      while j < |own|
        invariant 0 <= j <= |own|
        invariant chosen <= more <= db.Keys
        invariant forall t: set<RowId> {:trigger Closed(db, fks, t)} :: seeds <= t && Closed(db, fks, t) ==> more <= t
        invariant more == chosen ==> forall k, l :: 0 <= k < i && tables[k] in keys && 0 <= l < |keys[tables[k]]| ==>
                    Children(db, keys[tables[k]][l], chosen) <= chosen
        invariant more == chosen ==> forall l :: 0 <= l < j ==> Children(db, own[l], chosen) <= chosen
      {
        assert own[j] in fks;
        more := more + Children(db, own[j], more);
        j := j + 1;
      }
      i := i + 1;
    }
    if more == chosen {
      forall fk, c, p | fk in fks && p in chosen && Refers(db, fk, c, p)
        ensures c in chosen
      {
        assert c in Children(db, fk, chosen);
      }
    }
  }

  /** `while previous != count`: passes until the count stands still. */
  method Close(db: Database, tables: seq<string>, keys: map<string, seq<ForeignKey>>, seeds: set<RowId>)
    returns (chosen: set<RowId>)
    requires seeds <= db.Keys
    ensures chosen <= db.Keys && LeastClosed(db, Fks(keys, tables), seeds, chosen)
  {
    chosen := seeds;
    var previous := -1;
    ghost var before := chosen;
    while previous != |chosen|
      invariant before <= chosen <= db.Keys && seeds <= chosen
      invariant previous == -1 || previous == |before|
      invariant forall t: set<RowId> {:trigger Closed(db, Fks(keys, tables), t)} ::
                  seeds <= t && Closed(db, Fks(keys, tables), t) ==> chosen <= t
      invariant previous != -1 && before == chosen ==> Closed(db, Fks(keys, tables), chosen)
      decreases |db.Keys| - |chosen|, previous != |chosen|
    {
      previous := |chosen|;
      before := chosen;
      chosen := Pass(db, tables, keys, seeds, chosen);
      SubsetSizes(before, chosen);
      SubsetSizes(chosen, db.Keys);
    }
    SubsetSizes(before, chosen);
  }

  lemma SubsetSizes<T>(a: set<T>, b: set<T>)
    requires a <= b
    ensures |a| <= |b| && (|a| == |b| ==> a == b)
  {
    assert b == a + (b - a);
  }

  // -------------------------------------------------------- permanent course deletion

  datatype Refusal = ForeignRow | ForeignOrigin
  datatype Targets = Rows(rows: set<RowId>) | Refused(refusal: Refusal)

  function Seeds(db: Database, tables: set<string>, course: string): set<RowId> {
    set r | r in db && r.table in tables && Tagged(db, r, course)
  }

  /** A chosen row carries the tag of another course, or an empty tag. */
  ghost predicate TakesForeignRow(db: Database, s: set<RowId>, course: string) {
    exists r :: r in s && r in db && COURSE in db[r] && db[r][COURSE] != Text(course)
  }

  /** A chosen row points at a row of another course. */
  ghost predicate CutsForeignOrigin(db: Database, fks: set<ForeignKey>, s: set<RowId>, course: string) {
    exists fk, c, p {:trigger Refers(db, fk, c, p)} :: fk in fks && c in s && Refers(db, fk, c, p)
      && COURSE in db[p] && db[p][COURSE].Text? && db[p][COURSE] != Text(course)
  }

  ghost function Decide(db: Database, fks: set<ForeignKey>, s: set<RowId>, course: string): Targets {
    if TakesForeignRow(db, s, course) then Refused(ForeignRow)
    else if CutsForeignOrigin(db, fks, s, course) then Refused(ForeignOrigin)
    else Rows(s)
  }

  /** The rows a course's key is written on, table by table. */
  method TaggedRows(db: Database, tables: seq<string>, course: string) returns (seeds: set<RowId>)
    ensures seeds == Seeds(db, (set t | t in tables), course)
  {
    seeds := {};
    var i := 0;
    while i < |tables|
      invariant 0 <= i <= |tables|
      invariant seeds == Seeds(db, (set t | t in tables[..i]), course)
    {
      seeds := seeds + set r | r in db && r.table == tables[i] && Tagged(db, r, course);
      i := i + 1;
    }
    assert tables[..i] == tables;
  }

  /** `_targets` of permanent deletion. */
  method CourseTargets(db: Database, tables: seq<string>, keys: map<string, seq<ForeignKey>>, course: string)
    returns (targets: Targets)
    ensures targets == Decide(db, Fks(keys, tables), CourseClosure(db, tables, keys, course), course)
    ensures var s := CourseClosure(db, tables, keys, course);
            s <= db.Keys && LeastClosed(db, Fks(keys, tables), Seeds(db, (set t | t in tables), course), s)
  {
    var seeds := TaggedRows(db, tables, course);
    var rows := Close(db, tables, keys, seeds);
    LeastIsClosure(db, Fks(keys, tables), seeds, rows);
    targets := Screen(db, tables, keys, rows, course);
  }

  ghost function CourseClosure(db: Database, tables: seq<string>, keys: map<string, seq<ForeignKey>>,
                               course: string): set<RowId> {
    Closure(db, Fks(keys, tables), Seeds(db, (set t | t in tables), course))
  }

  method Screen(db: Database, tables: seq<string>, keys: map<string, seq<ForeignKey>>, rows: set<RowId>, course: string)
    returns (targets: Targets)
    ensures targets == Decide(db, Fks(keys, tables), rows, course)
  {
    var foreign := set r | r in rows && r in db && COURSE in db[r] && db[r][COURSE] != Text(course);
    if foreign != {} {
      var r :| r in foreign;
      return Refused(ForeignRow);
    }
    forall r | r in rows && r in db && COURSE in db[r] ensures db[r][COURSE] == Text(course) {
      assert r !in foreign;
    }
    var i := 0;
    while i < |tables|
      invariant 0 <= i <= |tables|
      invariant forall k, l :: 0 <= k < i && tables[k] in keys && 0 <= l < |keys[tables[k]]| ==>
                  !CutsForeignOrigin(db, {keys[tables[k]][l]}, rows, course)
    {
      var own := if tables[i] in keys then keys[tables[i]] else [];
      var j := 0;
      while j < |own|
        invariant 0 <= j <= |own|
        invariant forall l :: 0 <= l < j ==> !CutsForeignOrigin(db, {own[l]}, rows, course)
      {
        var origins := set c, p | c in rows && p in db && Refers(db, own[j], c, p)
                           && COURSE in db[p] && db[p][COURSE].Text? && db[p][COURSE] != Text(course) :: (c, p);
        if origins != {} {
          var cp :| cp in origins;
          assert own[j] in Fks(keys, tables) && Refers(db, own[j], cp.0, cp.1);
          return Refused(ForeignOrigin);
        }
        forall c, p | c in rows && Refers(db, own[j], c, p) && COURSE in db[p] && db[p][COURSE].Text?
          ensures db[p][COURSE] == Text(course)
        {
          assert (c, p) !in origins;
        }
        j := j + 1;
      }
      i := i + 1;
    }
    forall fk, c, p | fk in Fks(keys, tables) && c in rows && Refers(db, fk, c, p)
        && COURSE in db[p] && db[p][COURSE].Text?
      ensures db[p][COURSE] == Text(course)
    {
      assert fk in {fk} && !CutsForeignOrigin(db, {fk}, rows, course);
    }
    targets := Rows(rows);
  }

  // -------------------------------------------------------------- after the deletion

  predicate Keyed(row: Columns, fk: ForeignKey) {
    fk.pairs != [] && forall i :: 0 <= i < |fk.pairs| ==> fk.pairs[i].0 in row && row[fk.pairs[i].0].Text?
  }

  /** `PRAGMA foreign_key_check` reports nothing. */
  ghost predicate Sound(db: Database, fks: set<ForeignKey>) {
    forall fk, c :: fk in fks && c in db && c.table == fk.child && Keyed(db[c], fk) ==>
      exists p :: Refers(db, fk, c, p)
  }

  /** A parent key is unique, as SQLite demands. */
  ghost predicate UniqueParents(db: Database, fks: set<ForeignKey>) {
    forall fk, c, p, q :: fk in fks && Refers(db, fk, c, p) && Refers(db, fk, c, q) ==> p == q
  }

  ghost function Minus(db: Database, s: set<RowId>): Database {
    map r | r in db && r !in s :: db[r]
  }

  /** A surviving row, of a table the closure did not look at, points at an erased row. */
  ghost predicate Dangles(db: Database, unseen: set<ForeignKey>, s: set<RowId>) {
    exists fk, c, p {:trigger Refers(db, fk, c, p)} :: fk in unseen && c !in s && p in s && Refers(db, fk, c, p)
  }

  /** The final integrity check passes exactly when no unseen table keeps a reference into
      the erased set; rows of the scanned tables never do. */
  lemma SoundAfterDeletion(db: Database, fks: set<ForeignKey>, scanned: set<ForeignKey>, s: set<RowId>)
    requires scanned <= fks && Closed(db, scanned, s)
    requires Sound(db, fks) && UniqueParents(db, fks)
    ensures Sound(Minus(db, s), fks) <==> !Dangles(db, fks - scanned, s)
  {
    var after: Database := Minus(db, s);
    if !Dangles(db, fks - scanned, s) {
      forall fk, c | fk in fks && c in after && c.table == fk.child && Keyed(after[c], fk)
        ensures exists p :: Refers(after, fk, c, p)
      {
        var p :| Refers(db, fk, c, p);
        assert p !in s;
        assert Refers(after, fk, c, p);
      }
    }
    if Sound(after, fks) {
      forall fk, c, p | fk in fks && c !in s && Refers(db, fk, c, p)
        ensures p !in s
      {
        var q := SurvivingParent(db, fks, s, fk, c, p);
        assert p == q;
      }
    }
  }

  lemma SurvivingParent(db: Database, fks: set<ForeignKey>, s: set<RowId>, fk: ForeignKey, c: RowId, p: RowId)
    returns (q: RowId)
    requires Sound(Minus(db, s), fks) && fk in fks && c !in s && Refers(db, fk, c, p)
    ensures q !in s && Refers(db, fk, c, q)
  {
    var after: Database := Minus(db, s);
    forall i | 0 <= i < |fk.pairs| ensures fk.pairs[i].0 in after[c] && after[c][fk.pairs[i].0].Text? {
      assert Agree(db[c], db[p], fk.pairs[i]);
    }
    assert Keyed(after[c], fk);
    q :| Refers(after, fk, c, q);
    forall i | 0 <= i < |fk.pairs| ensures Agree(db[c], db[q], fk.pairs[i]) {
      assert Agree(after[c], after[q], fk.pairs[i]);
    }
  }

  ghost predicate ChildOf(db: Database, fks: set<ForeignKey>, c: RowId, p: RowId) {
    exists fk :: fk in fks && Refers(db, fk, c, p)
  }

  /** The path an `ON DELETE CASCADE` of every declared key would follow from `s`. */
  ghost predicate Cascade(db: Database, fks: set<ForeignKey>, s: set<RowId>, path: seq<RowId>)
    decreases |path|
  {
    && path != []
    && if |path| == 1 then path[0] in s
       else ChildOf(db, fks, path[|path| - 1], path[|path| - 2]) && Cascade(db, fks, s, path[..|path| - 1])
  }

  lemma {:induction false} CascadesAddNothing(db: Database, fks: set<ForeignKey>, s: set<RowId>, path: seq<RowId>)
    requires Closed(db, fks, s) && Cascade(db, fks, s, path)
    ensures path[|path| - 1] in s
    decreases |path|
  {
    if |path| > 1 {
      CascadesAddNothing(db, fks, s, path[..|path| - 1]);
    }
  }

  /** Every chosen row is there for a reason: a chain of references leads to a row of the
      course.  (The other half of being least: nothing is erased without cause.) */
  lemma ChosenForAReason(db: Database, fks: set<ForeignKey>, seeds: set<RowId>, s: set<RowId>, r: RowId)
    requires s <= db.Keys && LeastClosed(db, fks, seeds, s) && r in s
    ensures exists path :: Cascade(db, fks, seeds, path) && path[|path| - 1] == r
  {
    var reached := set x | x in s && exists path :: Cascade(db, fks, seeds, path) && path[|path| - 1] == x;
    forall x | x in seeds ensures x in reached {
      assert Cascade(db, fks, seeds, [x]) && [x][|[x]| - 1] == x;
    }
    forall fk, c, p | fk in fks && p in reached && Refers(db, fk, c, p)
      ensures c in reached
    {
      var path :| Cascade(db, fks, seeds, path) && path[|path| - 1] == p;
      var longer := path + [c];
      assert longer[..|longer| - 1] == path;
      assert Cascade(db, fks, seeds, longer) && longer[|longer| - 1] == c;
    }
    assert Closed(db, fks, reached);
  }

  /** A permanent deletion that is not refused takes rows of this course and untagged rows
      only, and leaves every reference in the database intact. */
  lemma DeletionIsIsolated(db: Database, fks: set<ForeignKey>, seeds: set<RowId>, s: set<RowId>, course: string)
    requires LeastClosed(db, fks, seeds, s) && s <= db.Keys
    requires Sound(db, fks) && UniqueParents(db, fks)
    requires Decide(db, fks, s, course) == Rows(s)
    ensures Sound(Minus(db, s), fks)
    ensures forall r :: r in db && COURSE in db[r] && db[r][COURSE] != Text(course) ==>
              r in Minus(db, s) && Minus(db, s)[r] == db[r]
  {
    SoundAfterDeletion(db, fks, fks, s);
    forall r | r in db && COURSE in db[r] && db[r][COURSE] != Text(course)
      ensures r !in s
    {
      assert !TakesForeignRow(db, s, course);
    }
  }

  // -------------------------------------------------------------- the privacy archive

  const KEPT := {"admin_courses", "admin_course_deletions", "admin_course_privacy_archives",
                 "bundle_assignment_releases", "bundle_release_checks", "bundle_deadline_changes",
                 "assignment_document_revisions", "exam_papers", "exam_paper_audit",
                 "instructor_assignment_create_requests", "instructor_assignment_deletions",
                 "instructor_assignment_drafts", "instructor_assignment_events", "instructor_assignment_jobs",
                 "instructor_assignment_origins", "instructor_assignment_uploads",
                 "ide_extension_releases", "ide_extension_desired", "ide_extension_audit"}
  const CONTENT := {"content_collections", "content_releases", "content_release_files",
                    "content_draft_files", "content_audit", "content_publish_jobs"}
  /** Tables of student activity, with the preserved parent that ties a row to its course. */
  const ACTIVITY := [("bundle_submission_requests", "bundle_assignment_releases", "assignment_id"),
                     ("bundle_download_events", "bundle_assignment_releases", "assignment_id"),
                     ("exam_paper_requests", "exam_papers", "paper_id")]

  predicate Given(row: Columns, column: string) {
    column in row && row[column].Text?
  }

  /** Some release of the collection was for named students. */
  predicate WasTargeted(db: Database, c: RowId) {
    c in db
    && exists r :: r in db && r.table == "content_releases"
                   && Agree(db[r], db[c], ("collection_id", "collection_id")) && Given(db[r], "student_ids_json")
  }

  /** Collections of the course that are, or were in some release, for named students. */
  function TargetedCollections(db: Database, course: string): set<RowId> {
    set c | c in db && c.table == "content_collections" && Tagged(db, c, course)
      && (Given(db[c], "student_ids_json") || WasTargeted(db, c))
  }

  /** Activity under one kind of preserved parent of the course. */
  function ActivityOf(db: Database, link: (string, string, string), course: string): set<RowId> {
    set c, p | c in db && p in db && c.table == link.0 && p.table == link.1 && Tagged(db, p, course)
      && Agree(db[c], db[p], (link.2, link.2)) :: c
  }

  function PersonalRows(db: Database, tables: seq<string>, course: string): set<RowId> {
    Seeds(db, (set t | t in Scanned(tables, KEPT + CONTENT)), course) + TargetedCollections(db, course)
  }

  function ActivityRows(db: Database, course: string): set<RowId> {
    set c, i | 0 <= i < |ACTIVITY| && c in ActivityOf(db, ACTIVITY[i], course) :: c
  }

  ghost function PrivacyClosure(db: Database, tables: seq<string>, keys: map<string, seq<ForeignKey>>,
                                course: string): set<RowId> {
    Closure(db, Fks(keys, Scanned(tables, KEPT)), PersonalRows(db, tables, course) + ActivityRows(db, course))
  }

  /** The source records under preserved parents, one kind after another. */
  method CollectActivity(db: Database, course: string) returns (activity: set<RowId>)
    ensures activity == ActivityRows(db, course) && activity <= db.Keys
  {
    activity := {};
    var i := 0;
    while i < |ACTIVITY|
      invariant 0 <= i <= |ACTIVITY| && activity <= db.Keys
      invariant activity == set c, j | 0 <= j < i && c in ActivityOf(db, ACTIVITY[j], course) :: c
    {
      activity := activity + ActivityOf(db, ACTIVITY[i], course);
      i := i + 1;
    }
  }

  /** `_targets` of the privacy archive: two rounds, over the tables that are not preserved. */
  method PrivacyTargets(db: Database, tables: seq<string>, keys: map<string, seq<ForeignKey>>, course: string)
    returns (targets: Targets)
    ensures var s := PrivacyClosure(db, tables, keys, course);
            && s <= db.Keys && targets == Decide(db, Fks(keys, tables), s, course)
            && LeastClosed(db, Fks(keys, Scanned(tables, KEPT)),
                 PersonalRows(db, tables, course) + ActivityRows(db, course), s)
  {
    var scanned := Scanned(tables, KEPT);
    var personal := TaggedRows(db, Scanned(tables, KEPT + CONTENT), course);
    personal := personal + TargetedCollections(db, course);
    var first := Close(db, scanned, keys, personal);
    var activity := CollectActivity(db, course);
    var rows := Close(db, scanned, keys, first + activity);
    ClosureInTwoRounds(db, Fks(keys, scanned), personal, activity, first, rows);
    LeastIsClosure(db, Fks(keys, scanned), personal + activity, rows);
    targets := Screen(db, tables, keys, rows, course);
  }

  function Scanned(tables: seq<string>, preserved: set<string>): seq<string> {
    if tables == [] then []
    else (if tables[0] in preserved then [] else [tables[0]]) + Scanned(tables[1..], preserved)
  }

  lemma {:induction false} ScannedAre(tables: seq<string>, preserved: set<string>)
    ensures forall t :: t in Scanned(tables, preserved) <==> t in tables && t !in preserved
  {
    if tables != [] {
      ScannedAre(tables[1..], preserved);
    }
  }

  /** The archive's integrity check succeeds exactly when no preserved row still points at
      an erased one. */
  lemma ArchiveCommitsIff(db: Database, tables: seq<string>, preserved: set<string>, keys: map<string, seq<ForeignKey>>,
                          seeds: set<RowId>, s: set<RowId>)
    requires forall t, i :: t in tables && t in keys && 0 <= i < |keys[t]| ==> keys[t][i].child == t
    requires Sound(db, Fks(keys, tables)) && UniqueParents(db, Fks(keys, tables))
    requires LeastClosed(db, Fks(keys, Scanned(tables, preserved)), seeds, s)
    ensures Sound(Minus(db, s), Fks(keys, tables))
            <==> !exists fk: ForeignKey, c: RowId, p: RowId {:trigger Refers(db, fk, c, p)} ::
                   fk in Fks(keys, tables) && c.table in preserved && c !in s && p in s && Refers(db, fk, c, p)
  {
    var all, scanned := Fks(keys, tables), Fks(keys, Scanned(tables, preserved));
    ScannedAre(tables, preserved);
    assert scanned <= all by {
      forall fk | fk in scanned ensures fk in all {
        FkOfTable(keys, Scanned(tables, preserved), fk);
        FkIn(keys, tables, fk);
      }
    }
    SoundAfterDeletion(db, all, scanned, s);
    forall fk | fk in all ensures fk in scanned <==> fk.child !in preserved {
      FkOfTable(keys, tables, fk);
      if fk in scanned {
        FkOfTable(keys, Scanned(tables, preserved), fk);
      }
      if fk.child !in preserved {
        FkIn(keys, Scanned(tables, preserved), fk);
      }
    }
  }

  /** Nothing preserved is ever among the rows to erase. */
  lemma KeptIsNeverErased(db: Database, tables: seq<string>, kept: set<string>, keys: map<string, seq<ForeignKey>>,
                          seeds: set<RowId>, s: set<RowId>)
    requires forall t, i :: t in tables && t in keys && 0 <= i < |keys[t]| ==> keys[t][i].child == t
    requires LeastClosed(db, Fks(keys, Scanned(tables, kept)), seeds, s)
    requires forall r :: r in seeds ==> r.table !in kept
    ensures forall r :: r in s ==> r.table !in kept
  {
    var fks := Fks(keys, Scanned(tables, kept));
    var free := set r | r in s && r.table !in kept;
    ScannedAre(tables, kept);
    assert Closed(db, fks, free) by {
      forall fk, c, p | fk in fks && p in free && Refers(db, fk, c, p) ensures c in free {
        FkOfTable(keys, Scanned(tables, kept), fk);
      }
    }
  }

  lemma SeedsAreNotKept(db: Database, tables: seq<string>, course: string, r: RowId)
    requires r in PersonalRows(db, tables, course) + ActivityRows(db, course)
    ensures r in db && r.table !in KEPT
  {
    if r in ActivityRows(db, course) {
      var i :| 0 <= i < |ACTIVITY| && r in ActivityOf(db, ACTIVITY[i], course);
      ActivityIsNotKept(i);
    } else if r !in TargetedCollections(db, course) {
      ScannedAre(tables, KEPT + CONTENT);
    } else {
      CollectionsAreNotKept();
    }
  }

  lemma ActivityIsNotKept(i: nat)
    requires i < |ACTIVITY|
    ensures ACTIVITY[i].0 !in KEPT
  {
    var t := ACTIVITY[i].0;
    assert |t| == 26 || |t| == 22 || |t| == 19;
    forall k | k in KEPT ensures k != t {
      assert |k| == 26 ==> k[7] != 's';
      assert |k| == 22 ==> k[0] != 'b';
      assert |k| == 19 ==> k[0] != 'e';
    }
  }

  lemma CollectionsAreNotKept()
    ensures "content_collections" !in KEPT
  {
    forall k | k in KEPT ensures k != "content_collections" {
      assert k[0] != 'c';
    }
  }

  /** Where preserved tables refer to preserved tables only, as in the server's own schema, the
      archive's integrity check always succeeds. */
  lemma ArchiveAlwaysCommits(db: Database, tables: seq<string>, keys: map<string, seq<ForeignKey>>, course: string)
    requires forall t, i :: t in tables && t in keys && 0 <= i < |keys[t]| ==> keys[t][i].child == t
    requires forall fk :: fk in Fks(keys, tables) && fk.child in KEPT ==> fk.parent in KEPT
    requires Sound(db, Fks(keys, tables)) && UniqueParents(db, Fks(keys, tables))
    ensures Sound(Minus(db, PrivacyClosure(db, tables, keys, course)), Fks(keys, tables))
  {
    var seeds := PersonalRows(db, tables, course) + ActivityRows(db, course);
    forall r | r in seeds ensures r in db && r.table !in KEPT {
      SeedsAreNotKept(db, tables, course, r);
    }
    ClosureIsLeast(db, Fks(keys, Scanned(tables, KEPT)), seeds);
    KeptStaysSound(db, tables, KEPT, keys, seeds, PrivacyClosure(db, tables, keys, course));
  }

  lemma KeptStaysSound(db: Database, tables: seq<string>, kept: set<string>, keys: map<string, seq<ForeignKey>>,
                       seeds: set<RowId>, s: set<RowId>)
    requires forall t, i :: t in tables && t in keys && 0 <= i < |keys[t]| ==> keys[t][i].child == t
    requires forall fk :: fk in Fks(keys, tables) && fk.child in kept ==> fk.parent in kept
    requires Sound(db, Fks(keys, tables)) && UniqueParents(db, Fks(keys, tables))
    requires LeastClosed(db, Fks(keys, Scanned(tables, kept)), seeds, s)
    requires forall r :: r in seeds ==> r.table !in kept
    ensures Sound(Minus(db, s), Fks(keys, tables))
  {
    KeptIsNeverErased(db, tables, kept, keys, seeds, s);
    ArchiveCommitsIff(db, tables, kept, keys, seeds, s);
  }

  lemma FkOfTable(keys: map<string, seq<ForeignKey>>, tables: seq<string>, fk: ForeignKey)
    requires fk in Fks(keys, tables)
    requires forall t, i :: t in tables && t in keys && 0 <= i < |keys[t]| ==> keys[t][i].child == t
    ensures fk.child in tables && fk.child in keys && fk in keys[fk.child]
  {
  }

  lemma FkIn(keys: map<string, seq<ForeignKey>>, tables: seq<string>, fk: ForeignKey)
    requires fk.child in tables && fk.child in keys && fk in keys[fk.child]
    ensures fk in Fks(keys, tables)
  {
  }

  // ------------------------------------------------------------------ the transaction

  datatype Trigger = Trigger(table: string, sql: string)

  /** The rows a preview showed, with their contents; its digest is taken to be injective. */
  function Shown(db: Database, s: set<RowId>): Database {
    map r | r in db && r in s :: db[r]
  }

  class CourseDatabase {
    var rows: Database
    var triggers: map<string, Trigger>
    var journal: map<string, string>

    constructor (rows: Database, triggers: map<string, Trigger>)
      ensures this.rows == rows && this.triggers == triggers && this.journal == map[]
    {
      this.rows, this.triggers, this.journal := rows, triggers, map[];
    }

    /** Permanent deletion: guards are lifted only inside the transaction, exactly the
        previewed rows go, and any failure restores everything. */
    method Delete(tables: seq<string>, keys: map<string, seq<ForeignKey>>, course: string, job: string,
                  expected: Database)
      returns (done: bool)
      modifies this
      ensures var chosen := CourseClosure(old(rows), tables, keys, course);
              && (done <==> && Decide(old(rows), Fks(keys, tables), chosen, course) == Rows(chosen)
                            && Shown(old(rows), chosen) == expected
                            && Sound(Minus(old(rows), chosen), Fks(keys, tables)))
              && (done ==> rows == Minus(old(rows), chosen) && journal == old(journal)[job := course])
      ensures !done ==> rows == old(rows) && journal == old(journal)
      ensures triggers == old(triggers)
    {
      var before, guards := rows, triggers;
      var targets := CourseTargets(rows, tables, keys, course);
      if targets.Refused? || Shown(rows, targets.rows) != expected {
        return false;
      }
      var erased := set r | r in targets.rows :: r.table;
      LiftTriggers(erased);
      EraseTables(erased, targets.rows);
      RestoreTriggers(guards, erased);
      var ok := Intact(rows, tables, keys);
      if !ok {
        rows := before;
        return false;
      }
      journal := journal[job := course];
      done := true;
    }

    method LiftTriggers(tables: set<string>)
      modifies this`triggers
      ensures triggers == map n | n in old(triggers) && old(triggers)[n].table !in tables :: old(triggers)[n]
    {
      var affected := set n | n in triggers && triggers[n].table in tables;
      while affected != {}
        invariant affected <= triggers.Keys
        invariant forall n :: n in affected ==> triggers[n].table in tables
        invariant forall n :: n in triggers ==> n in old(triggers) && triggers[n] == old(triggers)[n]
        invariant forall n :: n in old(triggers) && n !in triggers ==> old(triggers)[n].table in tables
        invariant forall n :: n in triggers && triggers[n].table in tables ==> n in affected
        decreases |affected|
      {
        var n :| n in affected;
        triggers := triggers - {n};
        affected := affected - {n};
      }
    }

    method RestoreTriggers(guards: map<string, Trigger>, tables: set<string>)
      requires triggers == map n | n in guards && guards[n].table !in tables :: guards[n]
      modifies this`triggers
      ensures triggers == guards
    {
      var affected := set n | n in guards && guards[n].table in tables;
      while affected != {}
        invariant affected <= guards.Keys
        invariant forall n :: n in triggers ==> n in guards && triggers[n] == guards[n]
        invariant forall n :: n in guards && n !in triggers ==> n in affected
        decreases |affected|
      {
        var n :| n in affected;
        triggers := triggers[n := guards[n]];
        affected := affected - {n};
      }
    }

    /** `DELETE FROM table`, table by table; an immutability trigger would abort it. */
    method EraseTables(tables: set<string>, chosen: set<RowId>)
      requires forall n :: n in triggers ==> triggers[n].table !in tables
      requires forall r :: r in chosen ==> r.table in tables
      modifies this`rows
      ensures rows == Minus(old(rows), chosen)
    {
      var left := tables;
      while left != {}
        invariant left <= tables
        invariant forall r :: r in rows <==> r in old(rows) && (r !in chosen || r.table in left)
        invariant forall r :: r in rows ==> rows[r] == old(rows)[r]
        decreases |left|
      {
        var t :| t in left;
        rows := map r | r in rows && !(r in chosen && r.table == t) :: rows[r];
        left := left - {t};
      }
    }
  }

  /** `PRAGMA foreign_key_check`. */
  method Intact(db: Database, tables: seq<string>, keys: map<string, seq<ForeignKey>>) returns (ok: bool)
    ensures ok == Sound(db, Fks(keys, tables))
  {
    ok := true;
    var i := 0;
    while i < |tables|
      invariant 0 <= i <= |tables|
      invariant ok == Sound(db, Fks(keys, tables[..i]))
    {
      var own := if tables[i] in keys then keys[tables[i]] else [];
      var fks := set j | 0 <= j < |own| :: own[j];
      var bad := set fk, c | fk in fks && c in db && c.table == fk.child && Keyed(db[c], fk)
                     && !(exists p | p in db :: Refers(db, fk, c, p)) :: (fk, c);
      assert Fks(keys, tables[..i + 1]) == Fks(keys, tables[..i]) + fks;
      if bad != {} {
        ghost var w :| w in bad;
        ok := false;
      } else {
        forall fk, c | fk in fks && c in db && c.table == fk.child && Keyed(db[c], fk)
          ensures exists p :: Refers(db, fk, c, p)
        {
          assert (fk, c) !in bad;
        }
      }
      i := i + 1;
    }
    assert tables[..|tables|] == tables;
  }
}
