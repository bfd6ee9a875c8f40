/** What the archives of the snapshot store really are: a ledger kept beside every run notes what
    each call exported and when its archive appeared, and the store is compared with it. */
module SnapshotLedger {
  import opened Common
  import opened SnapshotStore

  /** Bytes and digest of the export under way or done at a slot. */
  datatype Export = Export(size: nat, digest: Id)
  datatype Ledger = Ledger(exports: map<Slot, Export>, linked: map<Slot, int>)

  const BLANK := Ledger(map[], map[])

  /** The call brings an archive that is not there yet under the quota lock. */
  predicate Exports(w: World, step: Step) {
    && step.Measure? && step.repo in w.flights && w.flights[step.repo].phase.Checked? && w.quotaLock.Nobody?
    && w.flights[step.repo].slot !in w.archives
  }

  /** Exports are noted from the arguments of the step; an archive's time when it is first seen. */
  ghost function Noted(l: Ledger, w: World, step: Step, w': World): Ledger {
    Ledger(if Exports(w, step) then l.exports[w.flights[step.repo].slot := Export(step.size, step.digest)]
           else l.exports,
           map s | s in w'.archives :: if s in w.archives && s in l.linked then l.linked[s] else w.clock)
  }

  ghost function LedgerOf(cfg: Config, w: World, l: Ledger, steps: seq<Step>): Ledger
    decreases |steps|
  {
    if steps == [] then l
    else
      var w' := Next(cfg, w, steps[0]);
      LedgerOf(cfg, w', Noted(l, w, steps[0], w'), steps[1..])
  }

  ghost predicate ArchiveTrue(w: World, l: Ledger, s: Slot) {
    && s in w.archives && s in l.exports && s in l.linked
    && w.archives[s].size == l.exports[s].size && w.archives[s].digest == l.exports[s].digest
    && w.archives[s].mtime == l.linked[s]
  }

  ghost predicate FlightTrue(w: World, l: Ledger, repo: Id) {
    repo in w.flights && (w.flights[repo].phase.Measured? ==>
      var f := w.flights[repo];
      f.slot in l.exports && l.exports[f.slot] == Export(f.phase.size, f.phase.digest))
  }

  ghost predicate LedgerTrue(w: World, l: Ledger) {
    && (forall s {:trigger ArchiveTrue(w, l, s)} :: s in w.archives ==> ArchiveTrue(w, l, s))
    && (forall r {:trigger FlightTrue(w, l, r)} :: r in w.flights ==> FlightTrue(w, l, r))
  }

  // ------------------------------------------------------------------- every step

  /** Apart from measuring and linking, archives only go, and no flight becomes measured. */
  ghost predicate Lessens(w: World, w': World) {
    && (forall s :: s in w'.archives ==> s in w.archives && w'.archives[s] == w.archives[s])
    && (forall r :: r in w'.flights && w'.flights[r].phase.Measured? ==>
          r in w.flights && w'.flights[r] == w.flights[r])
  }

  lemma OtherSnapshotStep(cfg: Config, w: World, step: Step)
    requires !Collects(step) && !step.Measure? && !step.Link?
    ensures Lessens(w, Next(cfg, w, step))
  {
  }

  lemma CollectorStep(cfg: Config, w: World, step: Step)
    requires Collects(step)
    ensures Lessens(w, Next(cfg, w, step))
  {
  }

  lemma LessensTrue(w: World, w': World, l: Ledger, step: Step)
    requires LedgerTrue(w, l) && Lessens(w, w') && !step.Measure?
    ensures LedgerTrue(w', Noted(l, w, step, w'))
  {
    var l' := Noted(l, w, step, w');
    forall s | s in w'.archives ensures ArchiveTrue(w', l', s) {
      assert ArchiveTrue(w, l, s);
    }
    forall r | r in w'.flights ensures FlightTrue(w', l', r) {
      assert r in w.flights ==> FlightTrue(w, l, r);
    }
  }

  lemma MeasuredFlight(w: World, l: Ledger, repo: Id, digest: Id, size: nat, r: Id)
    requires FlightTrue(w, l, r) && FlightOk(w, r) && (repo in w.flights ==> FlightOk(w, repo))
    requires r in MeasureStep(w, repo, digest, size).flights
    ensures var w' := MeasureStep(w, repo, digest, size);
            FlightTrue(w', Noted(l, w, Measure(repo, digest, size), w'), r)
  {
  }

  lemma MeasuredArchive(w: World, l: Ledger, repo: Id, digest: Id, size: nat, s: Slot)
    requires LedgerTrue(w, l) && s in MeasureStep(w, repo, digest, size).archives
    ensures var w' := MeasureStep(w, repo, digest, size);
            ArchiveTrue(w', Noted(l, w, Measure(repo, digest, size), w'), s)
  {
    assert ArchiveTrue(w, l, s);
  }

  lemma MeasureTrue(cfg: Config, w: World, l: Ledger, repo: Id, digest: Id, size: nat)
    requires Inv(cfg, w) && LedgerTrue(w, l)
    ensures var w' := MeasureStep(w, repo, digest, size);
            LedgerTrue(w', Noted(l, w, Measure(repo, digest, size), w'))
  {
    var w' := MeasureStep(w, repo, digest, size);
    var l' := Noted(l, w, Measure(repo, digest, size), w');
    forall s | s in w'.archives ensures ArchiveTrue(w', l', s) {
      MeasuredArchive(w, l, repo, digest, size, s);
    }
    assert repo in w.flights ==> FlightOk(w, repo);
    forall r | r in w'.flights ensures FlightTrue(w', l', r) {
      assert FlightTrue(w, l, r) && FlightOk(w, r);
      MeasuredFlight(w, l, repo, digest, size, r);
    }
  }

  lemma LinkTrue(cfg: Config, w: World, l: Ledger, repo: Id)
    requires Inv(cfg, w) && LedgerTrue(w, l)
    ensures var w' := LinkStep(cfg, w, repo);
            LedgerTrue(w', Noted(l, w, Link(repo), w'))
  {
    var w' := LinkStep(cfg, w, repo);
    var l' := Noted(l, w, Link(repo), w');
    assert repo in w.flights ==> FlightTrue(w, l, repo) && FlightOk(w, repo);
    forall s | s in w'.archives ensures ArchiveTrue(w', l', s) {
      assert s in w.archives ==> ArchiveTrue(w, l, s);
    }
    forall r | r in w'.flights ensures FlightTrue(w', l', r) {
      assert FlightTrue(w, l, r);
    }
  }

  lemma StepTrue(cfg: Config, w: World, l: Ledger, step: Step)
    requires Inv(cfg, w) && LedgerTrue(w, l)
    ensures LedgerTrue(Next(cfg, w, step), Noted(l, w, step, Next(cfg, w, step)))
  {
    if step.Measure? {
      MeasureTrue(cfg, w, l, step.repo, step.digest, step.size);
    } else if step.Link? {
      LinkTrue(cfg, w, l, step.repo);
    } else {
      if Collects(step) {
        CollectorStep(cfg, w, step);
      } else {
        OtherSnapshotStep(cfg, w, step);
      }
      LessensTrue(w, Next(cfg, w, step), l, step);
    }
  }

  lemma {:induction false} RunTrue(cfg: Config, w: World, l: Ledger, steps: seq<Step>)
    requires Inv(cfg, w) && LedgerTrue(w, l)
    ensures LedgerTrue(Run(cfg, w, steps), LedgerOf(cfg, w, l, steps))
    decreases |steps|
  {
    if steps != [] {
      var w' := Next(cfg, w, steps[0]);
      StepTrue(cfg, w, l, steps[0]);
      StepKeeps(cfg, w, steps[0]);
      RunTrue(cfg, w', Noted(l, w, steps[0], w'), steps[1..]);
    }
  }

  // ------------------------------------------------------- which files a pass may take

  /** Inodes are never given twice, and what a pass has condemned is that very, old file. */
  ghost predicate FileOk(w: World, s: Slot) {
    && (s in w.archives ==> w.archives[s].inode < w.inodes)
    && (w.pass.Some? && s in w.pass.value.archives ==>
          && w.pass.value.archives[s] < w.inodes
          && (s in w.archives && w.archives[s].inode == w.pass.value.archives[s] ==>
                w.archives[s].mtime <= w.pass.value.cutoff))
  }

  ghost predicate FilesOk(w: World) {
    forall s {:trigger FileOk(w, s)} :: FileOk(w, s)
  }

  lemma SnapshotFile(cfg: Config, w: World, step: Step, s: Slot)
    requires FileOk(w, s) && !Collects(step)
    ensures FileOk(Next(cfg, w, step), s)
  {
    if !step.Measure? && !step.Link? {
      OtherSnapshotStep(cfg, w, step);
    }
  }

  lemma CollectorFile(cfg: Config, w: World, step: Step, s: Slot)
    requires FileOk(w, s) && Collects(step)
    ensures FileOk(Next(cfg, w, step), s)
  {
  }

  lemma {:induction false} RunFiles(cfg: Config, w: World, steps: seq<Step>)
    requires FilesOk(w)
    ensures FilesOk(Run(cfg, w, steps))
    decreases |steps|
  {
    if steps != [] {
      var w' := Next(cfg, w, steps[0]);
      forall s ensures FileOk(w', s) {
        assert FileOk(w, s);
        if Collects(steps[0]) {
          CollectorFile(cfg, w, steps[0], s);
        } else {
          SnapshotFile(cfg, w, steps[0], s);
        }
      }
      RunFiles(cfg, w', steps[1..]);
    }
  }

  // ---------------------------------------------------------------- the main results

  /** In every run, an archive has the bytes and the digest its call exported, and the time at
      which it appeared. */
  lemma ArchivesAreWhatWasExported(cfg: Config, clock: int, steps: seq<Step>, s: Slot)
    requires s in Run(cfg, Empty(clock), steps).archives
    ensures var a := Run(cfg, Empty(clock), steps).archives[s];
            var l := LedgerOf(cfg, Empty(clock), BLANK, steps);
            && s in l.exports && a.size == l.exports[s].size && a.digest == l.exports[s].digest
            && s in l.linked && a.mtime == l.linked[s]
  {
    EmptyIsFine(cfg, clock);
    RunTrue(cfg, Empty(clock), BLANK, steps);
    assert ArchiveTrue(Run(cfg, Empty(clock), steps), LedgerOf(cfg, Empty(clock), BLANK, steps), s);
  }

  predicate Distinct(listing: seq<Slot>) {
    forall i, j :: 0 <= i < j < |listing| ==> listing[i] != listing[j]
  }

  /** The bytes exported at the listed slots. */
  function Bytes(exports: map<Slot, Export>, listing: seq<Slot>): nat
    requires forall i :: 0 <= i < |listing| ==> listing[i] in exports
  {
    if listing == [] then 0 else exports[listing[0]].size + Bytes(exports, listing[1..])
  }

  lemma {:induction false} ListedBytes(archives: map<Slot, Archive>, exports: map<Slot, Export>, listing: seq<Slot>)
    requires Distinct(listing)
    requires forall i {:trigger listing[i]} :: 0 <= i < |listing| ==>
               && listing[i] in archives && listing[i] in exports
               && archives[listing[i]].size == exports[listing[i]].size
    ensures Bytes(exports, listing) <= Total(archives)
    decreases |listing|
  {
    if listing != [] {
      TotalWithout(archives, listing[0]);
      forall i | 0 <= i < |listing[1..]|
        ensures && listing[1..][i] in archives - {listing[0]} && listing[1..][i] in exports
                && (archives - {listing[0]})[listing[1..][i]].size == exports[listing[1..][i]].size
      {
        assert listing[1..][i] == listing[i + 1];
      }
      ListedBytes(archives - {listing[0]}, exports, listing[1..]);
    }
  }

  /** In every run, whichever archives are listed, the bytes that were exported for them stay within
      the quota, although measuring and linking are two steps and other repositories remove
      archives in between. */
  lemma QuotaHolds(cfg: Config, clock: int, steps: seq<Step>, listing: seq<Slot>)
    requires cfg.quota.Some? && Distinct(listing)
    requires forall i :: 0 <= i < |listing| ==> listing[i] in Run(cfg, Empty(clock), steps).archives
    ensures var l := LedgerOf(cfg, Empty(clock), BLANK, steps);
            (forall i :: 0 <= i < |listing| ==> listing[i] in l.exports) && Bytes(l.exports, listing) <= cfg.quota.value
  {
    var w, l := Run(cfg, Empty(clock), steps), LedgerOf(cfg, Empty(clock), BLANK, steps);
    forall i | 0 <= i < |listing|
      ensures listing[i] in l.exports && w.archives[listing[i]].size == l.exports[listing[i]].size
    {
      ArchivesAreWhatWasExported(cfg, clock, steps, listing[i]);
    }
    ListedBytes(w.archives, l.exports, listing);
    RunWithinQuota(cfg, clock, steps);
  }

  /** In every run, an archive a collector pass removes appeared at least the grace period before
      the pass began: never one put in the place of an old one meanwhile, and never one that a
      receipt names or a ref still needs. */
  lemma CollectorTakesOldArchives(cfg: Config, clock: int, steps: seq<Step>, step: Step, s: Slot)
    requires var w := Run(cfg, Empty(clock), steps);
             Collects(step) && s in w.archives && s !in Next(cfg, w, step).archives
    ensures var w := Run(cfg, Empty(clock), steps);
            var l := LedgerOf(cfg, Empty(clock), BLANK, steps);
            && w.pass.Some? && s in l.linked && l.linked[s] <= w.pass.value.now - cfg.grace
            && !Named(w.pass.value.latest, s.key) && s.key !in w.refs
  {
    var w := Run(cfg, Empty(clock), steps);
    ArchivesAreWhatWasExported(cfg, clock, steps, s);
    EmptyIsFine(cfg, clock);
    RunKeeps(cfg, Empty(clock), steps);
    RunFiles(cfg, Empty(clock), steps);
    assert FileOk(w, s);
    assert PassOk(cfg, w);
  }

  /** A pass that has just locked a repository or read the receipts again deletes no ref and no
      archive that a receipt names. */
  lemma FreshReceiptsProtect(cfg: Config, w: World, look: Step, drop: Step, s: Slot)
    requires look.LockRepo? || look.Reload?
    requires look.LockRepo? ==> w.pass.Some? && w.pass.value.locked.None?
    requires Named(w.receipts, s.key) && Collects(drop)
    ensures var w1 := Next(cfg, w, look);
            var w2 := Next(cfg, w1, drop);
            && (s.key in w1.refs ==> s.key in w2.refs) && (s in w1.archives ==> s in w2.archives)
  {
  }
}
