/** Who and what an erasure reaches, in terms of rows, tables and columns alone. */
module CourseErasure {
  import opened Common
  import opened CourseRows

  predicate HasText(db: Database, r: RowId, column: string, text: string) {
    r in db && column in db[r] && db[r][column] == Text(text)
  }

  predicate HasValue(db: Database, r: RowId, column: string) {
    r in db && column in db[r] && db[r][column] != Null
  }

  /** Two rows hold the same value in a column, and it is not NULL. */
  predicate SameValue(db: Database, c: RowId, p: RowId, column: string) {
    HasValue(db, c, column) && HasValue(db, p, column) && db[c][column] == db[p][column]
  }

  /** NULL in any column of a key refers to nothing, and every column counts. */
  lemma RefersByEveryColumn(db: Database, fk: ForeignKey, c: RowId, p: RowId, i: nat)
    requires Refers(db, fk, c, p) && i < |fk.pairs|
    ensures c.table == fk.child && p.table == fk.parent
    ensures HasValue(db, c, fk.pairs[i].0) && HasValue(db, p, fk.pairs[i].1)
    ensures db[c][fk.pairs[i].0] == db[p][fk.pairs[i].1]
  {
    assert Agree(db[c], db[p], fk.pairs[i]);
  }

  lemma RefersIfEveryColumn(db: Database, fk: ForeignKey, c: RowId, p: RowId)
    requires fk.pairs != [] && c.table == fk.child && p.table == fk.parent
    requires forall i {:trigger fk.pairs[i]} :: 0 <= i < |fk.pairs| ==>
               && HasValue(db, c, fk.pairs[i].0) && HasValue(db, p, fk.pairs[i].1)
               && db[c][fk.pairs[i].0] == db[p][fk.pairs[i].1]
    ensures Refers(db, fk, c, p)
  {
    assert HasValue(db, c, fk.pairs[0].0);
  }

  // ------------------------------------------------------------------- a whole course

  /** Every row that carries the course's key goes, in whatever table it is. */
  lemma CourseRowGoes(db: Database, tables: seq<string>, keys: map<string, seq<ForeignKey>>, course: string, r: RowId)
    requires HasText(db, r, "course_key", course) && r.table in tables
    ensures r in CourseClosure(db, tables, keys, course)
  {
    ClosureIsLeast(db, Fks(keys, tables), Seeds(db, (set t | t in tables), course));
  }

  /** And so does every row that refers to a row that goes. */
  lemma ReferringRowGoes(db: Database, tables: seq<string>, keys: map<string, seq<ForeignKey>>, course: string,
                         fk: ForeignKey, c: RowId, p: RowId)
    requires fk.child in tables && fk.child in keys && fk in keys[fk.child] && Refers(db, fk, c, p)
    requires p in CourseClosure(db, tables, keys, course)
    ensures c in CourseClosure(db, tables, keys, course)
  {
    ClosureIsLeast(db, Fks(keys, tables), Seeds(db, (set t | t in tables), course));
    FkIn(keys, tables, fk);
  }

  /** The choice is taken exactly if every chosen row that has the column carries the course's key,
      and no chosen row refers to a row that carries another course's. */
  lemma ChoiceStandsIff(db: Database, fks: set<ForeignKey>, s: set<RowId>, course: string)
    requires s <= db.Keys
    ensures Decide(db, fks, s, course) == Rows(s) <==>
              && (forall r :: r in s && "course_key" in db[r] ==> HasText(db, r, "course_key", course))
              && (forall fk, c, p {:trigger Refers(db, fk, c, p)} :: fk in fks && c in s && Refers(db, fk, c, p) ==>
                    (HasValue(db, p, "course_key") ==> HasText(db, p, "course_key", course)))
    ensures Decide(db, fks, s, course) != Rows(s) ==> Decide(db, fks, s, course).Refused?
  {
  }

  // -------------------------------------------------------------- the privacy archive

  /** A collection that is, or was in some release, for named students. */
  ghost predicate ForNamedStudents(db: Database, c: RowId) {
    HasValue(db, c, "student_ids_json")
    || exists r :: r in db && r.table == "content_releases" && SameValue(db, r, c, "collection_id")
         && HasValue(db, r, "student_ids_json")
  }

  /** A student's request, download or exam paper request, and the assignment or paper it is of. */
  predicate IsActivityOn(db: Database, c: RowId, p: RowId) {
    || (c.table == "bundle_submission_requests" && p.table == "bundle_assignment_releases"
          && SameValue(db, c, p, "assignment_id"))
    || (c.table == "bundle_download_events" && p.table == "bundle_assignment_releases"
          && SameValue(db, c, p, "assignment_id"))
    || (c.table == "exam_paper_requests" && p.table == "exam_papers" && SameValue(db, c, p, "paper_id"))
  }

  ghost predicate UnderCourse(db: Database, c: RowId, course: string) {
    exists p :: p in db && HasText(db, p, "course_key", course) && IsActivityOn(db, c, p)
  }

  lemma CollectionTargetedIff(db: Database, c: RowId, course: string)
    requires c in db && c.table == "content_collections"
    ensures c in TargetedCollections(db, course) <==>
              HasText(db, c, "course_key", course) && ForNamedStudents(db, c)
  {
    if ForNamedStudents(db, c) && !HasValue(db, c, "student_ids_json") {
      var r :| r in db && r.table == "content_releases" && SameValue(db, r, c, "collection_id")
        && HasValue(db, r, "student_ids_json");
      assert Agree(db[r], db[c], ("collection_id", "collection_id")) && Given(db[r], "student_ids_json");
    }
    if WasTargeted(db, c) {
      var r :| r in db && r.table == "content_releases"
        && Agree(db[r], db[c], ("collection_id", "collection_id")) && Given(db[r], "student_ids_json");
      assert SameValue(db, r, c, "collection_id");
    }
  }

  lemma ActivityIff(db: Database, c: RowId, course: string)
    requires c in db
    ensures c in ActivityRows(db, course) <==> UnderCourse(db, c, course)
  {
    if c in ActivityRows(db, course) {
      var i :| 0 <= i < |ACTIVITY| && c in ActivityOf(db, ACTIVITY[i], course);
      var p :| p in db && c.table == ACTIVITY[i].0 && p.table == ACTIVITY[i].1 && Tagged(db, p, course)
        && Agree(db[c], db[p], (ACTIVITY[i].2, ACTIVITY[i].2));
      assert SameValue(db, c, p, ACTIVITY[i].2);
      assert HasText(db, p, "course_key", course) && IsActivityOn(db, c, p);
    }
    if UnderCourse(db, c, course) {
      var p :| p in db && HasText(db, p, "course_key", course) && IsActivityOn(db, c, p);
      var i := if c.table == "bundle_submission_requests" then 0 else if c.table == "bundle_download_events" then 1
               else 2;
      assert Agree(db[c], db[p], (ACTIVITY[i].2, ACTIVITY[i].2));
      assert c in ActivityOf(db, ACTIVITY[i], course);
    }
  }

  /** The rows the archive starts from, both ways. */
  lemma SeedIff(db: Database, tables: seq<string>, course: string, r: RowId)
    requires r in db
    ensures r in PersonalRows(db, tables, course) + ActivityRows(db, course) <==>
              || (HasText(db, r, "course_key", course) && r.table in tables && r.table !in KEPT && r.table !in CONTENT)
              || (r.table == "content_collections" && HasText(db, r, "course_key", course) && ForNamedStudents(db, r))
              || UnderCourse(db, r, course)
  {
    ScannedAre(tables, KEPT + CONTENT);
    ActivityIff(db, r, course);
    if r.table == "content_collections" {
      CollectionTargetedIff(db, r, course);
    }
  }

  /** So a collection that never was for named students is none of them. */
  lemma OpenCollectionIsNoSeed(db: Database, tables: seq<string>, course: string, c: RowId)
    requires c in db && c.table == "content_collections" && !ForNamedStudents(db, c)
    ensures c !in PersonalRows(db, tables, course) + ActivityRows(db, course)
  {
    SeedIff(db, tables, course, c);
    assert "content_collections" in CONTENT && c.table[0] == 'c';
  }

  lemma ReleasesAreNotKept()
    ensures "content_releases" !in KEPT
  {
    forall k | k in KEPT ensures k != "content_releases" {
      assert k[0] != 'c';
    }
  }

  lemma SeedsAreRows(db: Database, tables: seq<string>, course: string)
    ensures PersonalRows(db, tables, course) + ActivityRows(db, course) <= db.Keys
  {
    forall r | r in PersonalRows(db, tables, course) + ActivityRows(db, course) ensures r in db {
      SeedsAreNotKept(db, tables, course, r);
    }
  }

  /** A privacy archive erases every collection of the course that is or ever was for named students. */
  lemma TargetedCollectionGoes(db: Database, tables: seq<string>, keys: map<string, seq<ForeignKey>>, course: string,
                               c: RowId)
    requires c in db && c.table == "content_collections"
    requires HasText(db, c, "course_key", course) && ForNamedStudents(db, c)
    ensures c in PrivacyClosure(db, tables, keys, course)
  {
    CollectionTargetedIff(db, c, course);
    SeedsGo(db, tables, keys, course, c);
  }

  /** With it go the releases that refer to it, whoever they were for. */
  lemma ItsReleaseGoes(db: Database, tables: seq<string>, keys: map<string, seq<ForeignKey>>, course: string,
                       fk: ForeignKey, r: RowId, c: RowId)
    requires "content_releases" in tables && "content_releases" in keys && fk in keys["content_releases"]
    requires fk.child == "content_releases" && Refers(db, fk, r, c)
    requires c in PrivacyClosure(db, tables, keys, course)
    ensures r in PrivacyClosure(db, tables, keys, course)
  {
    ReleasesAreNotKept();
    ScannedAre(tables, KEPT);
    FkIn(keys, Scanned(tables, KEPT), fk);
    SeedsAreRows(db, tables, course);
    ClosureIsLeast(db, Fks(keys, Scanned(tables, KEPT)),
                   PersonalRows(db, tables, course) + ActivityRows(db, course));
  }

  /** Every request, download and exam paper request under an assignment or paper of the course goes. */
  lemma ActivityGoes(db: Database, tables: seq<string>, keys: map<string, seq<ForeignKey>>, course: string, c: RowId)
    requires c in db && UnderCourse(db, c, course)
    ensures c in PrivacyClosure(db, tables, keys, course)
  {
    ActivityIff(db, c, course);
    SeedsGo(db, tables, keys, course, c);
  }

  lemma SeedsGo(db: Database, tables: seq<string>, keys: map<string, seq<ForeignKey>>, course: string, r: RowId)
    requires r in PersonalRows(db, tables, course) + ActivityRows(db, course)
    ensures r in PrivacyClosure(db, tables, keys, course)
  {
    SeedsAreRows(db, tables, course);
    ClosureIsLeast(db, Fks(keys, Scanned(tables, KEPT)),
                   PersonalRows(db, tables, course) + ActivityRows(db, course));
  }

  /** And every row that carries the course's key, outside the preserved tables and the teaching
      content. */
  lemma TaggedRowsGo(db: Database, tables: seq<string>, keys: map<string, seq<ForeignKey>>, course: string, r: RowId)
    requires HasText(db, r, "course_key", course) && r.table in tables && r.table !in KEPT && r.table !in CONTENT
    ensures r in PrivacyClosure(db, tables, keys, course)
  {
    ScannedAre(tables, KEPT + CONTENT);
    SeedsGo(db, tables, keys, course, r);
  }
}
