/** When each transaction of a publish call takes effect, exactly, and what it then changes. */
module ContentPublish {
  import opened Common
  import opened ContentContract
  import opened ContentStore

  lemma Reached(accepts: seq<File> -> bool, steps: seq<Step>) returns (w: World)
    ensures w == Run(accepts, EMPTY, steps) && Inv(accepts, w)
  {
    w := Run(accepts, EMPTY, steps);
    EmptyIsFine(accepts);
    RunKeeps(accepts, EMPTY, steps);
  }

  /** The key is new, or belongs to the same request and has not been published. */
  predicate KeyIsOpen(w: World, s: Step)
    requires s.Begin?
  {
    var jk := (s.collection, s.key);
    if jk in w.db.jobs then
      w.db.jobs[jk].revision == s.revision && w.db.jobs[jk].actor == s.actor && w.db.jobs[jk].state != Done
    else s.drawn !in w.owner
  }

  /** What stands in the draft may be published now. */
  ghost predicate DraftIsReady(accepts: seq<File> -> bool, d: Draft, now: int) {
    && d.files != [] && accepts(d.files) && d.opensAt <= now
    && (d.closesAt.Some? ==> now < d.closesAt.value)
  }

  /** In every run, a publish call gets the lock exactly if nobody has it, the course is active, the
      key is open, the collection is at the expected revision, its draft may be published at that
      moment and its students are allowed.  Otherwise nothing changes. */
  lemma ClaimedIff(accepts: seq<File> -> bool, steps: seq<Step>, s: Step)
    requires s.Begin?
    ensures var w := Run(accepts, EMPTY, steps);
            Next(accepts, w, s).1.Accepted? <==>
              && w.flight.None? && w.course == Active && s.allowed && KeyIsOpen(w, s)
              && s.collection in w.db.collections && w.db.collections[s.collection].revision == s.revision
              && DraftIsReady(accepts, w.db.collections[s.collection].draft, s.now)
    ensures var w := Run(accepts, EMPTY, steps);
            !Next(accepts, w, s).1.Accepted? ==> Next(accepts, w, s).0 == w
  {
    var w := Reached(accepts, steps);
    if s.collection in w.db.collections {
      assert RowOk(w, s.collection);
    }
  }

  /** Then the call holds the row as it stands, under the release id and date of the key's first
      use, and nothing but the job's state is written. */
  lemma ClaimHoldsTheRow(accepts: seq<File> -> bool, steps: seq<Step>, s: Step)
    requires s.Begin? && Next(accepts, Run(accepts, EMPTY, steps), s).1.Accepted?
    ensures var w := Run(accepts, EMPTY, steps);
            var w' := Next(accepts, w, s).0;
            var jk := (s.collection, s.key);
            && w'.flight.Some? && s.collection in w.db.collections && jk in w'.db.jobs
            && var f, job := w'.flight.value, w'.db.jobs[jk];
            && f.job == jk && f.revision == s.revision && f.actor == s.actor && f.phase.Claimed?
            && f.snapshot == w.db.collections[s.collection] && f.release == job.release && f.createdAt == job.createdAt
            && job.state.Preparing? && job.revision == s.revision && job.actor == s.actor
            && (if jk in w.db.jobs then job == w.db.jobs[jk].(state := Preparing)
                else job.release == s.drawn && job.createdAt == s.now)
            && w'.db == w.db.(jobs := w.db.jobs[jk := job]) && w'.refs == w.refs && w'.course == w.course
  {
    var w := Reached(accepts, steps);
  }

  /** In every run, the second transaction publishes exactly if the course is active, the collection
      is still at the revision the call began with, its students are allowed and the period is not
      over.  Otherwise nothing changes. */
  lemma PublishedIff(accepts: seq<File> -> bool, steps: seq<Step>, now: int, allowed: bool)
    requires var w := Run(accepts, EMPTY, steps); w.flight.Some? && w.flight.value.phase.Prepared?
    ensures var w := Run(accepts, EMPTY, steps);
            var f := w.flight.value;
            && f.job.0 in w.db.collections
            && (Next(accepts, w, Finish(now, allowed)).1.Accepted? <==>
                  && w.course == Active && allowed && w.db.collections[f.job.0].revision == f.revision
                  && (w.db.collections[f.job.0].draft.closesAt.Some? ==>
                        now < w.db.collections[f.job.0].draft.closesAt.value))
            && (!Next(accepts, w, Finish(now, allowed)).1.Accepted? ==> Next(accepts, w, Finish(now, allowed)).0 == w)
  {
    var w := Reached(accepts, steps);
    assert RowOk(w, w.flight.value.job.0) && JobOk(w, w.flight.value.job);
  }

  /** What appears is the draft as it stands at that very moment, as the next generation; the draft
      itself, other rows, other releases, other jobs and all refs stay as they were. */
  lemma PublishedIsTheDraft(accepts: seq<File> -> bool, steps: seq<Step>, now: int, allowed: bool)
    requires Next(accepts, Run(accepts, EMPTY, steps), Finish(now, allowed)).1.Accepted?
    ensures var w := Run(accepts, EMPTY, steps);
            var w' := Next(accepts, w, Finish(now, allowed)).0;
            && w.flight.Some? && w.flight.value.job.0 in w.db.collections && w.flight.value.job in w.db.jobs
            && var f := w.flight.value;
            var row := w.db.collections[f.job.0];
            && f.release !in w.db.releases && w'.db.releases.Keys == w.db.releases.Keys + {f.release}
            && (forall r :: r in w.db.releases ==> w'.db.releases[r] == w.db.releases[r])
            && var release := w'.db.releases[f.release];
            && release.collection == f.job.0 && release.draft == row.draft && release.sourceRevision == row.revision
            && release.generation == row.generation + 1 && release.policyRevision == row.generation + 1
            && release.actor == f.actor && release.publishedAt == now
            && w'.db.collections
               == w.db.collections[f.job.0 := Collection(row.draft, row.revision + 1, row.generation + 1,
                                                         Some(f.release), Published)]
            && w'.db.jobs == w.db.jobs[f.job := w.db.jobs[f.job].(state := Done)]
            && w'.refs == w.refs && w'.course == w.course
  {
    var w := Reached(accepts, steps);
    assert RowOk(w, w.flight.value.job.0) && JobOk(w, w.flight.value.job);
  }

  /** A call that fails leaves its job failed unless it was published, and gives up the lock. */
  lemma FailedGivesUp(accepts: seq<File> -> bool, steps: seq<Step>)
    requires Run(accepts, EMPTY, steps).flight.Some?
    ensures var w := Run(accepts, EMPTY, steps);
            var n := Next(accepts, w, Fail);
            var jk := w.flight.value.job;
            && n.1.Accepted? && n.0.flight.None? && jk in w.db.jobs && jk in n.0.db.jobs
            && n.0.db.jobs[jk].state == (if w.db.jobs[jk].state.Done? then Done else Failed)
            && n.0.db == w.db.(jobs := w.db.jobs[jk := w.db.jobs[jk].(state := n.0.db.jobs[jk].state)])
            && n.0.refs == w.refs && n.0.course == w.course
  {
    var w := Reached(accepts, steps);
  }

  /** A call that returns or dies gives up the lock and changes nothing else. */
  lemma LeavingGivesUp(accepts: seq<File> -> bool, w: World)
    ensures Next(accepts, w, Leave).0 == w.(flight := None)
  {
  }
}
