/** The published gradebook of one course: drafts made from workbooks, publication under a
    revision fence, hiding, deletion of drafts. */
module Gradebook {
  import opened Common

  type Id = nat

  datatype Status = Draft | Published | Superseded | Hidden
  datatype Book = Book(status: Status, revision: nat, baseRevision: nat, version: nat)

  /** `line` is the history of publications: the book of version v is line[v - 1]. */
  datatype World = World(books: map<Id, Book>, publication: Option<Id>, revision: nat, version: nat, line: seq<Id>)

  const EMPTY := World(map[], None, 0, 0, [])

  datatype Step =
    | Import(draft: Id)
    | Publish(draft: Id, revision: nat, complete: bool)
    | Hide(draft: Id, revision: nat)
    | DeleteDraft(draft: Id, revision: nat)

  predicate At(w: World, d: Id, revision: nat) {
    d in w.books && w.books[d].revision == revision
  }

  /** `publish`; `complete` says that columns are chosen and every row matches the roster. */
  function PublishStep(w: World, d: Id, revision: nat, complete: bool): World {
    if !At(w, d, revision) || !w.books[d].status.Draft? || w.books[d].baseRevision != w.revision || !complete then w
    else
      var books := if w.publication.Some? && w.publication.value in w.books then
                     var p := w.books[w.publication.value];
                     w.books[w.publication.value := p.(status := Superseded, revision := p.revision + 1)]
                   else w.books;
      var b := books[d];
      World(books[d := b.(status := Published, revision := b.revision + 1, version := w.version + 1)],
            Some(d), w.revision + 1, w.version + 1, w.line + [d])
  }

  function HideStep(w: World, d: Id, revision: nat): World {
    if !At(w, d, revision) || !w.books[d].status.Published? || w.publication != Some(d) then w
    else
      var b := w.books[d];
      w.(books := w.books[d := b.(status := Hidden, revision := b.revision + 1)], publication := None,
          revision := w.revision + 1)
  }

  function Next(w: World, step: Step): World {
    match step
    case Import(d) => if d in w.books || d in w.line then w
        else w.(books := w.books[d := Book(Draft, 1, w.revision, 0)])
    case Publish(d, revision, complete) => PublishStep(w, d, revision, complete)
    case Hide(d, revision) => HideStep(w, d, revision)
    case DeleteDraft(d, revision) => if At(w, d, revision) && w.books[d].status.Draft? then w.(books := w.books - {d})
        else w
  }

  function Run(w: World, steps: seq<Step>): World
    decreases |steps|
  {
    if steps == [] then w else Run(Next(w, steps[0]), steps[1..])
  }

  /** A book that was ever published has its place in the line, and its fence is spent. */
  ghost predicate BookOk(w: World, d: Id) {
    d in w.books &&
    var b := w.books[d];
    && b.baseRevision <= w.revision
    && (!b.status.Draft? ==> 1 <= b.version <= |w.line| && w.line[b.version - 1] == d && b.baseRevision < w.revision)
    && (b.status.Draft? ==> b.version == 0 && d !in w.line)
    && (b.status.Published? <==> w.publication == Some(d))
  }

  ghost predicate LineOk(w: World, i: nat) {
    i < |w.line| && w.line[i] in w.books && w.books[w.line[i]].version == i + 1 && !w.books[w.line[i]].status.Draft?
  }

  /** Books published from one state revision are one book. */
  ghost predicate FenceOk(w: World, d: Id, e: Id) {
    d in w.books && e in w.books &&
    (!w.books[d].status.Draft? && !w.books[e].status.Draft? && w.books[d].baseRevision == w.books[e].baseRevision ==>
       d == e)
  }

  ghost predicate Inv(w: World) {
    && w.version == |w.line|
    && (w.publication.Some? ==>
          w.publication.value in w.books && w.line != [] && w.line[|w.line| - 1] == w.publication.value)
    && (forall d {:trigger BookOk(w, d)} :: d in w.books ==> BookOk(w, d))
    && (forall i: nat {:trigger LineOk(w, i)} :: i < |w.line| ==> LineOk(w, i))
    && (forall d, e {:trigger FenceOk(w, d, e)} :: d in w.books && e in w.books ==> FenceOk(w, d, e))
  }

  lemma PublishedBook(w: World, d: Id, x: Id)
    requires Inv(w) && d in w.books && w.books[d].status.Draft? && w.books[d].baseRevision == w.revision && x in w.books
    ensures BookOk(PublishStep(w, d, w.books[d].revision, true), x)
  {
    assert BookOk(w, x) && BookOk(w, d);
  }

  lemma PublishKeeps(w: World, d: Id, revision: nat, complete: bool)
    requires Inv(w)
    ensures Inv(PublishStep(w, d, revision, complete))
  {
    var w' := PublishStep(w, d, revision, complete);
    if w' != w {
      assert w.publication.Some? ==> BookOk(w, w.publication.value);
      assert BookOk(w, d);
      forall x | x in w'.books ensures BookOk(w', x) {
        PublishedBook(w, d, x);
      }
      forall i: nat | i < |w'.line| ensures LineOk(w', i) {
        if i < |w.line| {
          assert LineOk(w, i) && BookOk(w, w.line[i]);
        }
      }
      forall x, y | x in w'.books && y in w'.books ensures FenceOk(w', x, y) {
        assert FenceOk(w, x, y) && BookOk(w, x) && BookOk(w, y);
      }
    }
  }

  lemma StepKeeps(w: World, step: Step)
    requires Inv(w)
    ensures Inv(Next(w, step))
  {
    if step.Publish? {
      PublishKeeps(w, step.draft, step.revision, step.complete);
    } else {
      var w' := Next(w, step);
      assert w.publication.Some? ==> BookOk(w, w.publication.value);
      forall d | d in w'.books ensures BookOk(w', d) {
        assert d in w.books ==> BookOk(w, d);
      }
      forall i: nat | i < |w'.line| ensures LineOk(w', i) {
        assert LineOk(w, i) && BookOk(w, w.line[i]);
      }
      forall d, e | d in w'.books && e in w'.books ensures FenceOk(w', d, e) {
        assert d in w.books && e in w.books ==> FenceOk(w, d, e);
      }
    }
  }

  lemma {:induction false} RunKeeps(w: World, steps: seq<Step>)
    requires Inv(w)
    ensures Inv(Run(w, steps))
    decreases |steps|
  {
    if steps != [] {
      StepKeeps(w, steps[0]);
      RunKeeps(Next(w, steps[0]), steps[1..]);
    }
  }

  ghost predicate HasVersion(w: World, v: nat) {
    exists d :: d in w.books && !w.books[d].status.Draft? && w.books[d].version == v
  }

  /** In every run: the state points to a book exactly when that book is the one published; the
      versions of ever-published books are exactly 1 to n, each once, and the published one is
      version n; of the drafts imported at one state revision at most one was ever published. */
  lemma PublicationsFormALine(steps: seq<Step>, d: Id, e: Id, v: nat)
    requires d in Run(EMPTY, steps).books && e in Run(EMPTY, steps).books
    ensures var w := Run(EMPTY, steps);
            var a, b := w.books[d], w.books[e];
            && (w.publication == Some(d) <==> a.status.Published?)
            && (HasVersion(w, v) <==> 1 <= v <= w.version)
            && (!a.status.Draft? && !b.status.Draft? && (a.version == b.version || a.baseRevision == b.baseRevision) ==>
                  d == e)
            && (a.status.Published? ==> a.version == w.version)
  {
    RunKeeps(EMPTY, steps);
    var w := Run(EMPTY, steps);
    assert BookOk(w, d) && BookOk(w, e) && FenceOk(w, d, e);
    if HasVersion(w, v) {
      var x :| x in w.books && !w.books[x].status.Draft? && w.books[x].version == v;
      assert BookOk(w, x);
    }
    if 1 <= v <= w.version {
      assert LineOk(w, v - 1);
    }
    if w.books[d].status.Published? {
      assert LineOk(w, |w.line| - 1);
    }
  }

  /** In every run, a draft is published exactly if it is complete, at the expected revision, and
      nothing was published or hidden since it was imported.  It becomes the next version; the book
      published before is superseded, and every other book stays as it was.  Otherwise nothing
      changes. */
  lemma PublishedIff(steps: seq<Step>, d: Id, revision: nat, complete: bool)
    ensures var w := Run(EMPTY, steps);
            var w' := Next(w, Publish(d, revision, complete));
            if d in w.books && w.books[d].status == Draft && w.books[d].revision == revision
               && w.books[d].baseRevision == w.revision && complete then
              && w'.publication == Some(d) && w'.version == w.version + 1 && w'.revision == w.revision + 1
              && w'.books.Keys == w.books.Keys
              && w'.books[d] == Book(Published, revision + 1, w.books[d].baseRevision, w.version + 1)
              && (w.publication.Some? ==>
                    && w.publication.value in w.books && w.publication.value != d
                    && var b := w.books[w.publication.value];
                    w'.books[w.publication.value] == Book(Superseded, b.revision + 1, b.baseRevision, b.version))
              && (forall e :: e in w.books && e != d && w.publication != Some(e) ==> w'.books[e] == w.books[e])
            else w' == w
  {
    RunKeeps(EMPTY, steps);
    var w := Run(EMPTY, steps);
    if w.publication.Some? {
      assert BookOk(w, w.publication.value);
    }
    assert d in w.books && w.books[d].status == Draft ==> BookOk(w, d);
  }

  /** The published book is hidden exactly at its revision, and nothing is published then; a draft is
      deleted exactly at its revision.  Nothing else changes. */
  lemma HiddenAndDeletedIff(steps: seq<Step>, d: Id, revision: nat)
    ensures var w := Run(EMPTY, steps);
            var w' := Next(w, Hide(d, revision));
            if w.publication == Some(d) && d in w.books && w.books[d].revision == revision then
              && w'.publication.None? && w'.revision == w.revision + 1 && w'.version == w.version
              && w'.books == w.books[d := w.books[d].(status := Hidden, revision := revision + 1)]
            else w' == w
    ensures var w := Run(EMPTY, steps);
            var w' := Next(w, DeleteDraft(d, revision));
            if d in w.books && w.books[d].status == Draft && w.books[d].revision == revision then
              && d !in w'.books && w' == w.(books := w'.books)
              && (forall e :: e != d ==> (e in w'.books <==> e in w.books))
              && (forall e :: e != d && e in w.books ==> w'.books[e] == w.books[e])
            else w' == w
    ensures var w := Run(EMPTY, steps);
            d !in w.books && d !in w.line ==>
              Next(w, Import(d)) == w.(books := w.books[d := Book(Draft, 1, w.revision, 0)])
  {
    RunKeeps(EMPTY, steps);
    var w := Run(EMPTY, steps);
    assert d in w.books ==> BookOk(w, d);
  }

  class Gradebook {
    var books: map<Id, Book>
    var publication: Option<Id>
    var revision: nat
    var version: nat
    ghost var line: seq<Id>

    ghost function State(): World reads this {
      World(books, publication, revision, version, line)
    }

    constructor ()
      ensures State() == EMPTY && Inv(State())
    {
      books, publication, revision, version, line := map[], None, 0, 0, [];
    }

    method Import(d: Id)
      requires Inv(State()) && d !in books && d !in line
      modifies `books
      ensures Inv(State()) && State() == Next(old(State()), Step.Import(d))
    {
      StepKeeps(State(), Step.Import(d));
      books := books[d := Book(Draft, 1, revision, 0)];
    }

    method Publish(d: Id, revision: nat, complete: bool) returns (done: bool)
      requires Inv(State())
      modifies this
      ensures Inv(State()) && State() == Next(old(State()), Step.Publish(d, revision, complete))
      ensures done <==> version == old(version) + 1
      ensures done ==> publication == Some(d)
    {
      StepKeeps(State(), Step.Publish(d, revision, complete));
      if d !in books || books[d].revision != revision || !books[d].status.Draft? {
        return false;
      }
      if books[d].baseRevision != this.revision || !complete {
        return false;
      }
      if publication.Some? {
        var p := books[publication.value];
        books := books[publication.value := p.(status := Superseded, revision := p.revision + 1)];
      }
      version := version + 1;
      var b := books[d];
      books := books[d := b.(status := Published, revision := b.revision + 1, version := version)];
      publication, this.revision, line := Some(d), this.revision + 1, line + [d];
      done := true;
    }

    method Hide(d: Id, revision: nat) returns (done: bool)
      requires Inv(State())
      modifies this
      ensures Inv(State()) && State() == Next(old(State()), Step.Hide(d, revision))
      ensures done <==> this.revision == old(this.revision) + 1
      ensures done ==> publication.None?
    {
      StepKeeps(State(), Step.Hide(d, revision));
      if d !in books || books[d].revision != revision || !books[d].status.Published? || publication != Some(d) {
        return false;
      }
      var b := books[d];
      books := books[d := b.(status := Hidden, revision := b.revision + 1)];
      publication, this.revision := None, this.revision + 1;
      done := true;
    }

    method DeleteDraft(d: Id, revision: nat) returns (done: bool)
      requires Inv(State())
      modifies `books
      ensures Inv(State()) && State() == Next(old(State()), Step.DeleteDraft(d, revision))
      ensures done <==> d in old(books) && d !in books
    {
      StepKeeps(State(), Step.DeleteDraft(d, revision));
      done := d in books && books[d].revision == revision && books[d].status.Draft?;
      if done {
        books := books - {d};
      }
    }
  }
}
