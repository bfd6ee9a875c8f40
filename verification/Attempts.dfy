/** The classroom read model of one student's attempts: twenty newest rows and the one SQL
    chose, read as if they were the whole history. */
module Attempts {
  import opened Common

  const NEWEST := 20

  datatype Number = Finite(value: real) | Infinite | NotANumber
  datatype AttemptState = Graded | Published | OtherState
  datatype Attempt = Attempt(state: AttemptState, publishedAt: Option<string>, score: Number, maxScore: Number)

  /** Score and maximum are numbers, in range, with a finite positive maximum. */
  predicate Scored(a: Attempt) {
    a.score.Finite? && a.maxScore.Finite? && 0.0 <= a.score.value <= a.maxScore.value && a.maxScore.value > 0.0
  }

  /** What SQL counts as a previous result: a published row with a publication date. */
  predicate SqlCounts(a: Attempt) {
    a.state.Published? && a.publishedAt.Some? && Scored(a)
  }

  /** What Python counts: it also drops an empty date. */
  predicate PythonCounts(a: Attempt) {
    a.state.Published? && a.publishedAt.Some? && a.publishedAt.value != "" && Scored(a)
  }

  /** A history lists attempts newest first; the newest is never a previous result. */
  ghost predicate BestAt(h: seq<Attempt>, counts: Attempt -> bool, i: nat) {
    && 0 < i < |h| && counts(h[i]) && Scored(h[i])
    && forall j :: 0 < j < |h| && counts(h[j]) && Scored(h[j]) ==>
         h[j].score.value < h[i].score.value || (h[j].score.value == h[i].score.value && i <= j)
  }

  ghost predicate NoneCounts(h: seq<Attempt>, counts: Attempt -> bool) {
    forall j :: 0 < j < |h| ==> !(counts(h[j]) && Scored(h[j]))
  }

  /** `best` is the previous best of the history: highest score, newest among equals. */
  ghost predicate IsPreviousBest(h: seq<Attempt>, counts: Attempt -> bool, best: Option<Attempt>) {
    match best
    case None => NoneCounts(h, counts)
    case Some(a) => exists i: nat :: BestAt(h, counts, i) && h[i] == a
  }

  /** The row numbered first by the window query; without a counting row it may be any. */
  ghost predicate SqlBest(h: seq<Attempt>, pick: nat) {
    pick < |h| && (BestAt(h, SqlCounts, pick) || NoneCounts(h, SqlCounts))
  }

  /** The rows that enter Python, in order of position. */
  function Fetched(h: seq<Attempt>, pick: nat): seq<Attempt>
    requires pick < |h|
  {
    if |h| <= NEWEST then h else if pick < NEWEST then h[..NEWEST] else h[..NEWEST] + [h[pick]]
  }

  /** The selection in `snapshot`: the first maximum among the rows after the newest. */
  method PreviousBest(rows: seq<Attempt>) returns (best: Option<Attempt>)
    ensures IsPreviousBest(rows, PythonCounts, best)
  {
    best := None;
    var i := 1;
    ghost var at := 0;
    while i < |rows|
      invariant 1 <= i
      invariant best.None? ==> forall j :: 0 < j < i && j < |rows| ==> !PythonCounts(rows[j])
      invariant best.Some? ==> 0 < at < i && at < |rows| && rows[at] == best.value && PythonCounts(rows[at])
      invariant best.Some? ==> forall j :: 0 < j < i && j < |rows| && PythonCounts(rows[j]) ==>
                  rows[j].score.value < rows[at].score.value || (rows[j].score.value == rows[at].score.value && at <= j)
    {
      if PythonCounts(rows[i]) && (best.None? || rows[i].score.value > best.value.score.value) {
        best := Some(rows[i]);
        at := i;
      }
      i := i + 1;
    }
    assert best.Some? ==> BestAt(rows, PythonCounts, at);
  }

  lemma BestIsUnique(h: seq<Attempt>, counts: Attempt -> bool, i: nat, j: nat)
    requires BestAt(h, counts, i) && BestAt(h, counts, j)
    ensures i == j
  {
  }

  /** SQL's choice has an empty date, and what really is best is older than the newest rows. */
  ghost predicate Misled(h: seq<Attempt>, pick: nat)
    requires pick < |h|
  {
    h[pick].publishedAt == Some("") && SqlCounts(h[pick]) && exists i: nat :: BestAt(h, PythonCounts, i) && i >= NEWEST
  }

  /** Among finitely many counting rows one is best. */
  lemma BestExists(h: seq<Attempt>, counts: Attempt -> bool) returns (i: nat)
    requires !NoneCounts(h, counts)
    ensures BestAt(h, counts, i)
  {
    i := BestBelow(h, counts, |h|);
  }

  lemma {:induction false} BestBelow(h: seq<Attempt>, counts: Attempt -> bool, n: nat) returns (i: nat)
    requires n <= |h| && exists j :: 0 < j < n && counts(h[j]) && Scored(h[j])
    ensures BestAt(h[..n], counts, i)
    decreases n
  {
    var m := n - 1;
    assert h[..n][..m] == h[..m];
    if exists j :: 0 < j < m && counts(h[j]) && Scored(h[j]) {
      i := BestBelow(h, counts, m);
      if counts(h[m]) && Scored(h[m]) && h[m].score.value > h[i].score.value {
        i := m;
      }
    } else {
      i := m;
    }
  }

  /** The place in the history of a fetched row. */
  function PlaceOf(h: seq<Attempt>, pick: nat, r: nat): (i: nat)
    requires pick < |h| && r < |Fetched(h, pick)|
    ensures i < |h| && Fetched(h, pick)[r] == h[i] && (r < NEWEST ==> i == r)
              && (r >= NEWEST ==> i == pick && pick >= NEWEST)
  {
    if r < NEWEST || |h| <= NEWEST then r else pick
  }

  /** A best row that was fetched is best among the fetched rows. */
  lemma BestStaysBest(h: seq<Attempt>, pick: nat, counts: Attempt -> bool, i: nat, r: nat)
    requires pick < |h| && BestAt(h, counts, i) && r < |Fetched(h, pick)| && PlaceOf(h, pick, r) == i
    ensures BestAt(Fetched(h, pick), counts, r)
  {
    var rows := Fetched(h, pick);
    forall j | 0 < j < |rows| && counts(rows[j]) && Scored(rows[j])
      ensures rows[j].score.value < rows[r].score.value || (rows[j].score.value == rows[r].score.value && r <= j)
    {
      assert rows[j] == h[PlaceOf(h, pick, j)];
    }
  }

  lemma NoneFetched(h: seq<Attempt>, pick: nat)
    requires pick < |h| && NoneCounts(h, PythonCounts)
    ensures NoneCounts(Fetched(h, pick), PythonCounts)
  {
    var rows := Fetched(h, pick);
    forall j | 0 < j < |rows| ensures !(PythonCounts(rows[j]) && Scored(rows[j])) {
      assert rows[j] == h[PlaceOf(h, pick, j)];
    }
  }

  /** Unless misled, the row that is best was fetched. */
  lemma BestIsFetched(h: seq<Attempt>, pick: nat, i: nat) returns (r: nat)
    requires SqlBest(h, pick) && BestAt(h, PythonCounts, i) && !Misled(h, pick)
    ensures r < |Fetched(h, pick)| && PlaceOf(h, pick, r) == i
  {
    if i < NEWEST {
      r := i;
    } else {
      assert SqlCounts(h[i]);
      assert BestAt(h, SqlCounts, pick);
      assert PythonCounts(h[pick]);
      assert BestAt(h, PythonCounts, pick);
      BestIsUnique(h, PythonCounts, i, pick);
      r := NEWEST;
    }
  }

  lemma OtherRow(h: seq<Attempt>, pick: nat, i: nat, r: nat)
    requires pick < |h| && h[pick].publishedAt == Some("") && BestAt(h, PythonCounts, i) && i >= NEWEST
    requires BestAt(Fetched(h, pick), PythonCounts, r)
    ensures Fetched(h, pick)[r] != h[i]
  {
    assert Fetched(h, pick)[r] == h[PlaceOf(h, pick, r)];
    assert PythonCounts(h[PlaceOf(h, pick, r)]);
  }

  lemma PickIsDropped(h: seq<Attempt>, pick: nat, best: Option<Attempt>, i: nat)
    requires pick < |h| && h[pick].publishedAt == Some("") && BestAt(h, PythonCounts, i) && i >= NEWEST
    requires IsPreviousBest(Fetched(h, pick), PythonCounts, best)
    ensures !IsPreviousBest(h, PythonCounts, best)
  {
    if best.Some? {
      var r: nat :| BestAt(Fetched(h, pick), PythonCounts, r) && Fetched(h, pick)[r] == best.value;
      OtherRow(h, pick, i, r);
      forall k: nat | BestAt(h, PythonCounts, k) ensures h[k] != best.value {
        BestIsUnique(h, PythonCounts, i, k);
      }
    }
  }

  /** The latest attempt is that of the whole history, always; the previous best is, exactly
      unless SQL was misled by an empty date. */
  lemma TruncationAgrees(h: seq<Attempt>, pick: nat, best: Option<Attempt>)
    requires SqlBest(h, pick) && IsPreviousBest(Fetched(h, pick), PythonCounts, best)
    ensures Fetched(h, pick) != [] && Fetched(h, pick)[0] == h[0]
    ensures IsPreviousBest(h, PythonCounts, best) <==> !Misled(h, pick)
  {
    if NoneCounts(h, PythonCounts) {
      NoneFetched(h, pick);
    } else {
      var i := BestExists(h, PythonCounts);
      if Misled(h, pick) {
        var m: nat :| BestAt(h, PythonCounts, m) && m >= NEWEST;
        PickIsDropped(h, pick, best, m);
      } else {
        var r := BestIsFetched(h, pick, i);
        BestStaysBest(h, pick, PythonCounts, i, r);
        assert best.Some?;
        var q: nat :| BestAt(Fetched(h, pick), PythonCounts, q) && Fetched(h, pick)[q] == best.value;
        BestIsUnique(Fetched(h, pick), PythonCounts, q, r);
      }
    }
  }

  /** If no row has an empty publication date, the truncated history always agrees. */
  lemma DatedHistoriesAgree(h: seq<Attempt>, pick: nat, best: Option<Attempt>)
    requires SqlBest(h, pick) && IsPreviousBest(Fetched(h, pick), PythonCounts, best)
    requires forall i :: 0 <= i < |h| ==> h[i].publishedAt != Some("")
    ensures Fetched(h, pick)[0] == h[0] && IsPreviousBest(h, PythonCounts, best)
  {
    TruncationAgrees(h, pick, best);
  }

  /** A result that counts: published, dated, with a score in range of a finite positive maximum. */
  predicate IsResult(a: Attempt) {
    && a.state == Published && a.publishedAt != None && a.publishedAt != Some("")
    && match (a.score, a.maxScore)
       case (Finite(score), Finite(most)) => 0.0 <= score && score <= most && 0.0 < most
       case _ => false
  }

  ghost predicate IsBestResult(h: seq<Attempt>, i: nat) {
    && 0 < i < |h| && IsResult(h[i])
    && forall j :: 0 < j < |h| && IsResult(h[j]) ==>
         h[j].score.value <= h[i].score.value && (h[j].score == h[i].score ==> i <= j)
  }

  /** Read off the rows: the previous best is an earlier result, none scored higher, none newer
      scored the same; and there is none exactly if no earlier attempt is a result. */
  lemma PreviousBestReads(h: seq<Attempt>, best: Option<Attempt>)
    requires IsPreviousBest(h, PythonCounts, best)
    ensures best == None <==> forall j :: 0 < j < |h| ==> !IsResult(h[j])
    ensures best.Some? ==> exists i: nat :: IsBestResult(h, i) && h[i] == best.value
  {
    forall a: Attempt ensures IsResult(a) <==> PythonCounts(a) {
    }
    if best.Some? {
      var i: nat :| BestAt(h, PythonCounts, i) && h[i] == best.value;
      assert IsBestResult(h, i);
    }
  }

  const UNDATED := Attempt(Published, Some(""), Finite(5.0), Finite(10.0))
  const DATED := Attempt(Published, Some("2026-03-02"), Finite(1.0), Finite(10.0))
  const UNGRADED := Attempt(OtherState, None, NotANumber, NotANumber)

  /** Twenty-two attempts: an undated result among the newest hides the only dated one. */
  function HiddenBest(): seq<Attempt> {
    seq(22, i => if i == 1 then UNDATED else if i == 21 then DATED else UNGRADED)
  }

  /** Here SQL chooses the undated row, and the real previous best never reaches Python. */
  lemma UndatedRowHidesTheBest()
    ensures var h := HiddenBest();
            SqlBest(h, 1) && Misled(h, 1) && IsPreviousBest(h, PythonCounts, Some(DATED))
            && forall best :: IsPreviousBest(Fetched(h, 1), PythonCounts, best) ==> best == None
  {
    var h := HiddenBest();
    assert BestAt(h, SqlCounts, 1);
    assert BestAt(h, PythonCounts, 21) && h[21] == DATED;
    assert NoneCounts(Fetched(h, 1), PythonCounts);
  }

  /** `snapshot` on the fetched rows: the latest attempt of the history and, unless SQL was
      misled, its previous best. */
  method LatestAndBest(h: seq<Attempt>, pick: nat) returns (latest: Attempt, best: Option<Attempt>)
    requires SqlBest(h, pick)
    ensures latest == h[0] && (IsPreviousBest(h, PythonCounts, best) <==> !Misled(h, pick))
  {
    var rows := Fetched(h, pick);
    latest := rows[0];
    best := PreviousBest(rows);
    TruncationAgrees(h, pick, best);
  }
}
