/** The Git collector's snapshot call and the artifact garbage collector as they run: stores
    and locks updated in place, each stage one step of the protocol in SnapshotStore. */
module SnapshotService {
  import opened Common
  import opened SnapshotStore

  /** What a pass looks at. */
  datatype View = View(refs: map<Key, Id>, touched: map<Key, int>, archives: map<Slot, Archive>, receipts: set<Slot>)

  function ViewOf(w: World): View {
    View(w.refs, w.touched, w.archives, w.receipts)
  }

  /** The ref is older than the cutoff by its directory, and no receipt names it. */
  ghost predicate DeadRef(w: View, cutoff: int, key: Key) {
    key in w.refs && key in w.touched && w.touched[key] <= cutoff && !Named(w.receipts, key)
  }

  /** The archive is older than the cutoff, no receipt names it, and no ref will keep it. */
  ghost predicate DeadArchive(w: View, cutoff: int, s: Slot) {
    && s in w.archives && w.archives[s].mtime <= cutoff && !Named(w.receipts, s.key)
    && (s.key in w.refs ==> DeadRef(w, cutoff, s.key))
  }

  /** A lone snapshot call succeeds exactly when the ref is free or already right, the source
      exports, its archive is new and fits or is the one there, and Git takes a new ref. */
  ghost predicate Accepted(cfg: Config, w: World, slot: Slot, exported: Option<(Id, nat)>, pointed: bool) {
    && (if slot.key in w.refs then w.refs[slot.key] == slot.commit else pointed)
    && exported.Some?
    && (if slot in w.archives then w.archives[slot].digest == exported.value.0
        else cfg.quota.Some? ==> Total(w.archives) + exported.value.1 <= cfg.quota.value)
  }

  /** What a finished call leaves behind. */
  ghost predicate CallDone(cfg: Config, w: World, w': World, slot: Slot, exported: Option<(Id, nat)>, ok: bool) {
    && (if ok then
          && w'.refs == w.refs[slot.key := slot.commit] && slot in w'.archives && exported.Some?
          && w'.archives[slot].digest == exported.value.0
          && (slot !in w.archives ==> w'.archives[slot].size == exported.value.1 && w'.archives[slot].mtime == w.clock)
          && slot.key in w'.touched && w'.touched[slot.key] == w.clock
          && (!Condemned(w, slot) ==> slot in w'.until && w'.until[slot] == w.clock + cfg.grace)
          && w'.archives == (if slot in w.archives then w.archives else w.archives[slot := w'.archives[slot]])
        else w'.refs == w.refs && w'.archives == w.archives)
    && w'.flights == w.flights && w'.quotaLock == w.quotaLock && w'.receipts == w.receipts
  }

  /** What a pass condemns: nothing a receipt names, nothing younger than the cutoff. */
  ghost predicate OldRef(refs: map<Key, Id>, touched: map<Key, int>, p: Pass, key: Key) {
    key in refs && key in touched && touched[key] <= p.cutoff && !Named(p.first, key)
  }

  ghost predicate OldArchive(archives: map<Slot, Archive>, p: Pass, s: Slot) {
    s in archives && archives[s].mtime <= p.cutoff && !Named(p.first, s.key)
  }

  /** What it then deletes: still the condemned commit or file, and still without a receipt. */
  ghost predicate DropsRef(refs: map<Key, Id>, p: Pass, s: Slot) {
    s.key in refs && refs[s.key] == s.commit && s in p.refs && !Named(p.latest, s.key)
  }

  ghost predicate DropsArchive(archives: map<Slot, Archive>, refs: map<Key, Id>, p: Pass, s: Slot) {
    && s in archives && s in p.archives && p.archives[s] == archives[s].inode
    && !Named(p.latest, s.key) && s.key !in refs
  }

  /** The pass has condemned all that is dead so far, and archives a ref may still save. */
  ghost predicate Condemns(w: View, p: Pass) {
    && (forall s :: s in p.refs <==> DeadRef(w, p.cutoff, s.key) && s.commit == w.refs[s.key])
    && (forall s :: s in p.archives <==>
          s in w.archives && w.archives[s].mtime <= p.cutoff && !Named(w.receipts, s.key))
    && (forall s :: s in p.archives ==> s in w.archives && p.archives[s] == w.archives[s].inode)
  }

  /** What is left of `w` when the dead of all repositories but `rest` are gone. */
  ghost predicate Remaining(w: View, cutoff: int, rest: set<Id>, refs: map<Key, Id>, archives: map<Slot, Archive>) {
    && (forall k {:trigger k in refs} :: k in refs <==> k in w.refs && (DeadRef(w, cutoff, k) ==> k.repo in rest))
    && (forall k :: k in refs ==> refs[k] == w.refs[k])
    && (forall s {:trigger s in archives} :: s in archives <==>
          s in w.archives && (DeadArchive(w, cutoff, s) ==> s.key.repo in rest))
    && (forall s :: s in archives ==> archives[s] == w.archives[s])
  }

  lemma RemainingAtFirst(w: View, p: Pass, rest: set<Id>)
    requires Condemns(w, p)
    requires forall s :: s in p.refs ==> s.key.repo in rest
    requires forall s :: s in p.archives ==> s.key.repo in rest
    ensures Remaining(w, p.cutoff, rest, w.refs, w.archives)
  {
    forall k | k in w.refs && DeadRef(w, p.cutoff, k) ensures k.repo in rest {
      assert Slot(k, w.refs[k]) in p.refs;
    }
    forall s | s in w.archives && DeadArchive(w, p.cutoff, s) ensures s.key.repo in rest {
      assert s in p.archives;
    }
  }

  /** One repository's turn. */
  lemma RemainingAfter(w: View, p: Pass, rest: set<Id>, repo: Id, before: World, after: World)
    requires Condemns(w, p) && Remaining(w, p.cutoff, rest, before.refs, before.archives)
    requires p.latest == w.receipts
    requires forall k :: k in after.refs <==>
               k in before.refs && !(k.repo == repo && DropsRef(before.refs, p, Slot(k, before.refs[k])))
    requires forall k :: k in after.refs ==> after.refs[k] == before.refs[k]
    requires forall s :: s in after.archives <==>
               s in before.archives && !(s.key.repo == repo && DropsArchive(before.archives, after.refs, p, s))
    requires forall s :: s in after.archives ==> after.archives[s] == before.archives[s]
    ensures Remaining(w, p.cutoff, rest - {repo}, after.refs, after.archives)
  {
    forall k ensures k in after.refs <==> k in w.refs && (DeadRef(w, p.cutoff, k) ==> k.repo in rest - {repo}) {
      if k in before.refs && k.repo == repo {
        assert Slot(k, w.refs[k]) in p.refs <==> DeadRef(w, p.cutoff, k);
      }
    }
    forall s ensures s in after.archives <==>
        s in w.archives && (DeadArchive(w, p.cutoff, s) ==> s.key.repo in rest - {repo}) {
      if s in before.archives && s.key.repo == repo {
        assert DropsArchive(before.archives, after.refs, p, s) <==> DeadArchive(w, p.cutoff, s);
      }
    }
  }

  /** Measuring under the quota lock, and linking if there was something to link. */
  ghost function ExportStep(cfg: Config, w: World, repo: Id, digest: Id, size: nat): World {
    var w1 := MeasureStep(w, repo, digest, size);
    if repo in w1.flights && w1.flights[repo].phase.Measured? then LinkStep(cfg, w1, repo) else w1
  }

  /** The archive is there afterwards, at most as many bytes as the quota allows, or the call is over. */
  ghost predicate ExportDone(cfg: Config, w: World, w': World, repo: Id, digest: Id, size: nat)
    requires repo in w.flights
  {
    var slot := w.flights[repo].slot;
    && w'.refs == w.refs && w'.receipts == w.receipts && w'.quotaLock == w.quotaLock
    && w'.clock == w.clock && w'.pass == w.pass
    && if (if slot in w.archives then w.archives[slot].digest == digest
           else cfg.quota.Some? ==> Total(w.archives) + size <= cfg.quota.value) then
         && slot in w'.archives && w'.archives[slot].digest == digest
         && (slot !in w.archives ==> w'.archives[slot].size == size && w'.archives[slot].mtime == w.clock)
         && slot.key in w'.touched && w'.touched[slot.key] == w.clock
         && w'.archives == (if slot in w.archives then w.archives else w.archives[slot := w'.archives[slot]])
         && w'.flights == w.flights[repo := Flight(slot, Exported(slot !in w.archives))]
       else w'.archives == w.archives && w'.flights == w.flights - {repo}
  }

  lemma ReachExport(cfg: Config, w: World, repo: Id, digest: Id, size: nat)
    ensures Reaches(cfg, w, ExportStep(cfg, w, repo, digest, size))
  {
    var w1 := MeasureStep(w, repo, digest, size);
    ReachMeasure(cfg, w, repo, digest, size);
    ReachLink(cfg, w1, repo);
    ReachTrans(cfg, w, w1, LinkStep(cfg, w1, repo));
  }

  lemma ExportIsDone(cfg: Config, w: World, repo: Id, digest: Id, size: nat)
    requires repo in w.flights && w.flights[repo].phase.Checked? && w.quotaLock.Nobody?
    ensures ExportDone(cfg, w, ExportStep(cfg, w, repo, digest, size), repo, digest, size)
  {
  }

  class SnapshotService {
    const cfg: Config
    var refs: map<Key, Id>
    var archives: map<Slot, Archive>
    var touched: map<Key, int>
    var receipts: set<Slot>
    var flights: map<Id, Flight>
    var quotaLock: Holder
    var pass: Option<Pass>
    var clock: int
    var inodes: nat
    ghost var until: map<Slot, int>
    ghost var kept: set<Slot>

    ghost function State(): World reads this {
      World(refs, archives, touched, receipts, flights, quotaLock, pass, clock, inodes, until, kept)
    }

    ghost predicate Valid() reads this {
      Inv(cfg, State())
    }

    constructor (cfg: Config, clock: int)
      ensures this.cfg == cfg && State() == Empty(clock) && Valid()
    {
      this.cfg, this.clock := cfg, clock;
      refs, archives, touched, receipts, flights := map[], map[], map[], {}, map[];
      quotaLock, pass, inodes, until, kept := Nobody, None, 0, map[], {};
    }

    // ------------------------------------------------------------- snapshot stages

    /** Sum of the sizes of the archives in the store. */
    method ManagedBytes() returns (total: nat)
      ensures total == Total(archives)
    {
      total := 0;
      var rest := archives;
      while rest != map[]
        invariant total + Total(rest) == Total(archives)
        decreases |rest|
      {
        var s :| s in rest;
        TotalWithout(rest, s);
        total := total + rest[s].size;
        rest := rest - {s};
      }
    }

    /** Remove the snapshot's directory if nothing is left in it. */
    method Tidy(key: Key)
      modifies `touched
      ensures touched == Tidied(old(State()), archives, key)
    {
      if key in set s | s in archives :: s.key {
        touched := touched[key := clock];
      } else {
        touched := touched - {key};
      }
    }

    method Land(repo: Id)
      modifies `flights, `quotaLock
      ensures State() == Landed(old(State()), repo)
    {
      flights := flights - {repo};
      quotaLock := if quotaLock == Snapshot(repo) then Nobody else quotaLock;
    }

    method Begin(slot: Slot)
      modifies this
      ensures State() == BeginStep(old(State()), slot)
    {
      var busy := slot.key.repo in flights || (pass.Some? && pass.value.locked == Some(slot.key.repo));
      if !busy && (slot.key !in refs || refs[slot.key] == slot.commit) {
        flights := flights[slot.key.repo := Flight(slot, Checked)];
        touched := touched[slot.key := clock];
      }
    }

    method Reject(repo: Id)
      requires repo in flights && flights[repo].phase.Checked?
      modifies this
      ensures State() == RejectStep(old(State()), repo)
    {
      var key := flights[repo].slot.key;
      Land(repo);
      Tidy(key);
    }

    method Measure(repo: Id, digest: Id, size: nat)
      requires repo in flights && flights[repo].phase.Checked? && quotaLock.Nobody?
      modifies this
      ensures State() == MeasureStep(old(State()), repo, digest, size)
    {
      var f := flights[repo];
      if f.slot !in archives {
        var bytes := ManagedBytes();
        quotaLock := Snapshot(repo);
        flights := flights[repo := f.(phase := Measured(bytes, digest, size))];
      } else if archives[f.slot].digest != digest {
        Land(repo);
        Tidy(f.slot.key);
      } else {
        flights := flights[repo := f.(phase := Exported(false))];
        touched := touched[f.slot.key := clock];
      }
    }

    method Link(repo: Id)
      requires repo in flights && flights[repo].phase.Measured?
      modifies this
      ensures State() == LinkStep(cfg, old(State()), repo)
    {
      var f := flights[repo];
      if cfg.quota.Some? && f.phase.bytes + f.phase.size > cfg.quota.value {
        Land(repo);
        Tidy(f.slot.key);
        return;
      }
      archives := archives[f.slot := Archive(f.phase.digest, f.phase.size, clock, inodes)];
      inodes, quotaLock := inodes + 1, Nobody;
      flights := flights[repo := f.(phase := Exported(true))];
      touched := touched[f.slot.key := clock];
    }

    method PointRef(repo: Id, succeeds: bool)
      requires repo in flights && flights[repo].phase.Exported?
      modifies this
      ensures State() == PointRefStep(cfg, old(State()), repo, succeeds)
    {
      var f := flights[repo];
      var key := f.slot.key;
      var done := succeeds;
      if key in refs {
        done := refs[key] == f.slot.commit;
      }
      if done {
        until := if Condemned(State(), f.slot) || key !in touched then until
            else until[f.slot := touched[key] + cfg.grace];
        refs := refs[key := f.slot.commit];
        Land(repo);
      } else if f.phase.created {
        flights := flights[repo := f.(phase := Undoing)];
      } else {
        Land(repo);
      }
    }

    method Undo(repo: Id)
      requires repo in flights && flights[repo].phase.Undoing?
      modifies this
      ensures State() == UndoStep(old(State()), repo)
    {
      var slot := flights[repo].slot;
      archives := archives - {slot};
      Land(repo);
      Tidy(slot.key);
    }

    /** Take the repository's lock, check the ref and export into the directory. */
    method Enter(slot: Slot, exports: bool)
      requires RepoFree(State(), slot.key.repo) && quotaLock.Nobody?
                 && (slot.key in refs ==> refs[slot.key] == slot.commit)
      modifies this
      ensures Reaches(cfg, old(State()), State())
      ensures flights == if exports then old(flights)[slot.key.repo := Flight(slot, Checked)] else old(flights)
      ensures refs == old(refs) && archives == old(archives) && receipts == old(receipts) && quotaLock == old(quotaLock)
      ensures clock == old(clock) && pass == old(pass)
    {
      ghost var w := State();
      ReachBegin(cfg, w, slot);
      Begin(slot);
      if !exports {
        ghost var w1 := State();
        ReachReject(cfg, w1, slot.key.repo);
        Reject(slot.key.repo);
        ReachTrans(cfg, w, w1, State());
      }
    }

    /** Export under the quota lock: the archive is there afterwards, or the call is over. */
    method Publish(repo: Id, digest: Id, size: nat)
      requires repo in flights && flights[repo].phase.Checked? && quotaLock.Nobody?
      modifies this
      ensures Reaches(cfg, old(State()), State())
      ensures ExportDone(cfg, old(State()), State(), repo, digest, size)
    {
      ghost var w := State();
      ReachExport(cfg, w, repo, digest, size);
      ExportIsDone(cfg, w, repo, digest, size);
      Measure(repo, digest, size);
      if repo in flights && flights[repo].phase.Measured? {
        Link(repo);
      }
    }

    /** Create the ref, or take back the archive this call made. */
    method Pin(repo: Id, pointed: bool) returns (ok: bool)
      requires repo in flights && flights[repo].phase.Exported? && quotaLock.Nobody?
      modifies this
      ensures Reaches(cfg, old(State()), State())
      ensures var f := old(flights)[repo];
              && ok == (if f.slot.key in old(refs) then old(refs)[f.slot.key] == f.slot.commit else pointed)
              && flights == old(flights) - {repo} && quotaLock == old(quotaLock) && receipts == old(receipts)
              && refs == (if ok then old(refs)[f.slot.key := f.slot.commit] else old(refs))
              && archives == (if !ok && f.phase.created then old(archives) - {f.slot} else old(archives))
              && (ok ==> touched == old(touched)
                         && (!Condemned(old(State()), f.slot) && f.slot.key in old(touched) ==>
                               f.slot in until && until[f.slot] == old(touched)[f.slot.key] + cfg.grace))
    {
      ok := pointed;
      var f := flights[repo];
      if f.slot.key in refs {
        ok := refs[f.slot.key] == f.slot.commit;
      }
      ghost var w := State();
      ReachPointRef(cfg, w, repo, pointed);
      PointRef(repo, pointed);
      if repo in flights {
        ghost var w1 := State();
        ReachUndo(cfg, w1, repo);
        Undo(repo);
        ReachTrans(cfg, w, w1, State());
      }
    }

    /** A whole snapshot call that meets no other process: checks, export, archive, ref. */
    method TakeSnapshot(slot: Slot, exported: Option<(Id, nat)>, pointed: bool) returns (ok: bool)
      requires Valid() && RepoFree(State(), slot.key.repo) && quotaLock.Nobody?
      modifies this
      ensures Valid() && Reaches(cfg, old(State()), State())
      ensures ok == Accepted(cfg, old(State()), slot, exported, pointed)
      ensures CallDone(cfg, old(State()), State(), slot, exported, ok)
    {
      ghost var w := State();
      assert slot.key in refs ==> RefOk(State(), slot.key);
      ok := SnapshotStages(slot, exported, pointed);
      ReachKeeps(cfg, w, State());
    }

    /** Export and ref of a call that has passed its first check. */
    method Store(repo: Id, digest: Id, size: nat, pointed: bool) returns (ok: bool)
      requires repo in flights && flights[repo].phase.Checked? && quotaLock.Nobody?
      requires var slot := flights[repo].slot;
               slot.key in refs ==> refs[slot.key] == slot.commit && slot in archives
      modifies this
      ensures Reaches(cfg, old(State()), State())
      ensures ok == Accepted(cfg, old(State()), old(flights)[repo].slot, Some((digest, size)), pointed)
      ensures CallDone(cfg, old(State()).(flights := old(flights) - {repo}), State(), old(flights)[repo].slot,
                       Some((digest, size)), ok)
    {
      ghost var w := State();
      Publish(repo, digest, size);
      if repo !in flights {
        return false;
      }
      ghost var w1 := State();
      ok := Pin(repo, pointed);
      ReachTrans(cfg, w, w1, State());
    }

    method SnapshotStages(slot: Slot, exported: Option<(Id, nat)>, pointed: bool) returns (ok: bool)
      requires RepoFree(State(), slot.key.repo) && quotaLock.Nobody?
      requires slot.key in refs ==> Slot(slot.key, refs[slot.key]) in archives
      modifies this
      ensures Reaches(cfg, old(State()), State())
      ensures ok == Accepted(cfg, old(State()), slot, exported, pointed)
      ensures CallDone(cfg, old(State()), State(), slot, exported, ok)
    {
      ghost var w := State();
      var repo := slot.key.repo;
      ReachSelf(cfg, w);
      if slot.key in refs && refs[slot.key] != slot.commit {
        return false;
      }
      Enter(slot, exported.Some?);
      if exported.None? {
        return false;
      }
      ghost var w1 := State();
      ok := Store(repo, exported.value.0, exported.value.1, pointed);
      ReachTrans(cfg, w, w1, State());
      assert flights == w.flights;
    }

    // ------------------------------------------------------------ garbage collection

    method StartPass(now: int)
      requires pass.None? && now <= clock
      modifies `pass
      ensures Reaches(cfg, old(State()), State())
      ensures pass == Some(Pass(now, now - cfg.grace, receipts, receipts, {}, map[], None))
    {
      ReachStartPass(cfg, State(), now);
      pass := Some(Pass(now, now - cfg.grace, receipts, receipts, {}, map[], None));
    }

    method ScanArchive(s: Slot)
      requires pass.Some? && s in archives
      modifies `pass
      ensures Reaches(cfg, old(State()), State()) && pass.Some?
      ensures pass.value == old(pass).value.(archives := pass.value.archives)
      ensures pass.value.archives
              == if OldArchive(archives, pass.value, s) then old(pass).value.archives[s := archives[s].inode]
                  else old(pass).value.archives
    {
      ReachScanArchive(cfg, State(), s);
      var named := set r | r in pass.value.first :: r.key;
      if s.key !in named && archives[s].mtime <= pass.value.cutoff {
        pass := Some(pass.value.(archives := pass.value.archives[s := archives[s].inode]));
      }
    }

    /** Archives no receipt names and older than the cutoff. */
    method ScanArchives()
      requires pass.Some? && pass.value.archives == map[]
      modifies `pass
      ensures Reaches(cfg, old(State()), State()) && pass.Some?
      ensures pass.value == old(pass).value.(archives := pass.value.archives)
      ensures forall s :: s in pass.value.archives <==> OldArchive(archives, pass.value, s)
      ensures forall s :: s in pass.value.archives ==> s in archives && pass.value.archives[s] == archives[s].inode
    {
      ghost var start := State();
      ReachSelf(cfg, start);
      var rest := archives.Keys;
      while rest != {}
        invariant rest <= archives.Keys && pass.Some?
        invariant pass.value == start.pass.value.(archives := pass.value.archives)
        invariant forall s :: s in pass.value.archives <==> s !in rest && OldArchive(archives, start.pass.value, s)
        invariant forall s :: s in pass.value.archives ==> s in archives && pass.value.archives[s] == archives[s].inode
        invariant Reaches(cfg, start, State())
        decreases |rest|
      {
        var s :| s in rest;
        rest := rest - {s};
        ghost var before := State();
        ScanArchive(s);
        ReachTrans(cfg, start, before, State());
      }
    }

    method ScanRef(key: Key)
      requires pass.Some? && key in refs
      modifies `pass
      ensures Reaches(cfg, old(State()), State()) && pass.Some?
      ensures pass.value == old(pass).value.(refs := pass.value.refs)
      ensures pass.value.refs
              == if OldRef(refs, touched, pass.value, key) then old(pass).value.refs + {Slot(key, refs[key])}
                  else old(pass).value.refs
    {
      ReachScanRef(cfg, State(), key);
      var named := set r | r in pass.value.first :: r.key;
      if key !in named && key in touched && touched[key] <= pass.value.cutoff {
        pass := Some(pass.value.(refs := pass.value.refs + {Slot(key, refs[key])}));
      }
    }

    /** Snapshot refs no receipt names, in directories older than the cutoff. */
    method ScanRefs()
      requires pass.Some? && pass.value.refs == {}
      modifies `pass
      ensures Reaches(cfg, old(State()), State()) && pass.Some?
      ensures pass.value == old(pass).value.(refs := pass.value.refs)
      ensures forall s :: s in pass.value.refs <==> OldRef(refs, touched, pass.value, s.key) && s.commit == refs[s.key]
    {
      ghost var start := State();
      ReachSelf(cfg, start);
      var rest := refs.Keys;
      while rest != {}
        invariant rest <= refs.Keys && pass.Some?
        invariant pass.value == start.pass.value.(refs := pass.value.refs)
        invariant forall s :: s in pass.value.refs <==>
                    s.key !in rest && OldRef(refs, touched, start.pass.value, s.key) && s.commit == refs[s.key]
        invariant Reaches(cfg, start, State())
        decreases |rest|
      {
        var key :| key in rest;
        rest := rest - {key};
        ghost var before := State();
        ScanRef(key);
        ReachTrans(cfg, start, before, State());
      }
    }

    method DeleteRef(s: Slot)
      requires pass.Some? && pass.value.locked == Some(s.key.repo) && s in pass.value.refs
      modifies `refs
      ensures Reaches(cfg, old(State()), State())
      ensures refs == if DropsRef(old(refs), pass.value, s) then old(refs) - {s.key} else old(refs)
    {
      ReachDeleteRef(cfg, State(), s);
      var named := set r | r in pass.value.latest :: r.key;
      if s.key !in named && s.key in refs && refs[s.key] == s.commit {
        refs := refs - {s.key};
      }
    }

    /** Delete the condemned refs of the locked repository that no receipt names by now. */
    method DeleteRefs(repo: Id)
      requires pass.Some? && pass.value.locked == Some(repo)
      modifies `refs
      ensures Reaches(cfg, old(State()), State())
      ensures forall k :: k in refs <==>
                k in old(refs) && !(k.repo == repo && DropsRef(old(refs), pass.value, Slot(k, old(refs)[k])))
      ensures forall k :: k in refs ==> refs[k] == old(refs)[k]
    {
      ghost var start := State();
      ReachSelf(cfg, start);
      var rest := set s | s in pass.value.refs && s.key.repo == repo;
      while rest != {}
        invariant forall s :: s in rest ==> s in pass.value.refs && s.key.repo == repo
        invariant forall k :: k in refs <==>
                    k in start.refs
                        && (k.repo == repo && DropsRef(start.refs, pass.value, Slot(k, start.refs[k])) ==>
                        Slot(k, start.refs[k]) in rest)
        invariant forall k :: k in refs ==> refs[k] == start.refs[k]
        invariant Reaches(cfg, start, State())
        decreases |rest|
      {
        var s :| s in rest;
        rest := rest - {s};
        ghost var before := State();
        DeleteRef(s);
        ReachTrans(cfg, start, before, State());
      }
    }

    method DeleteArchive(s: Slot)
      requires pass.Some? && pass.value.locked == Some(s.key.repo) && s in pass.value.archives
      modifies `archives, `touched
      ensures Reaches(cfg, old(State()), State())
      ensures archives == if DropsArchive(old(archives), refs, pass.value, s) then old(archives) - {s}
                else old(archives)
    {
      ReachDeleteArchive(cfg, State(), s);
      var named := set r | r in pass.value.latest :: r.key;
      if s.key !in named && s.key !in refs && s in archives && pass.value.archives[s] == archives[s].inode {
        archives := archives - {s};
        Tidy(s.key);
      }
    }

    /** Delete the condemned archives of the locked repository that are still the same file,
        no receipt names by now and no ref needs. */
    method DeleteArchives(repo: Id)
      requires pass.Some? && pass.value.locked == Some(repo)
      modifies `archives, `touched
      ensures Reaches(cfg, old(State()), State())
      ensures forall s :: s in archives <==>
                s in old(archives) && !(s.key.repo == repo && DropsArchive(old(archives), refs, pass.value, s))
      ensures forall s :: s in archives ==> archives[s] == old(archives)[s]
    {
      ghost var start := State();
      ReachSelf(cfg, start);
      var rest := set s | s in pass.value.archives && s.key.repo == repo;
      while rest != {}
        invariant forall s :: s in rest ==> s in pass.value.archives && s.key.repo == repo
        invariant forall s :: s in archives <==>
                    s in start.archives
                        && (s.key.repo == repo && DropsArchive(start.archives, refs, pass.value, s) ==> s in rest)
        invariant forall s :: s in archives ==> archives[s] == start.archives[s]
        invariant Reaches(cfg, start, State())
        decreases |rest|
      {
        var s :| s in rest;
        rest := rest - {s};
        ghost var before := State();
        DeleteArchive(s);
        ReachTrans(cfg, start, before, State());
      }
    }

    method LockRepo(repo: Id)
      requires pass.Some? && pass.value.locked.None? && RepoFree(State(), repo) && quotaLock.Nobody?
      modifies `quotaLock, `pass
      ensures Reaches(cfg, old(State()), State())
      ensures quotaLock.Collector? && pass == Some(old(pass).value.(locked := Some(repo), latest := receipts))
    {
      ReachLockRepo(cfg, State(), repo);
      quotaLock := Collector;
      pass := Some(pass.value.(locked := Some(repo), latest := receipts));
    }

    method Reload()
      requires pass.Some?
      modifies `pass
      ensures Reaches(cfg, old(State()), State())
      ensures pass == Some(old(pass).value.(latest := receipts))
    {
      ReachReload(cfg, State());
      pass := Some(pass.value.(latest := receipts));
    }

    method UnlockRepo()
      requires pass.Some? && pass.value.locked.Some?
      modifies `quotaLock, `pass
      ensures Reaches(cfg, old(State()), State())
      ensures quotaLock.Nobody? && pass == Some(old(pass).value.(locked := None))
    {
      ReachUnlockRepo(cfg, State());
      quotaLock := Nobody;
      pass := Some(pass.value.(locked := None));
    }

    method EndPass()
      requires pass.Some? && pass.value.locked.None?
      modifies `pass
      ensures Reaches(cfg, old(State()), State()) && pass.None?
    {
      ReachEndPass(cfg, State());
      pass := None;
    }

    /** One repository of `_apply_snapshot_candidates`: under both locks, refs before archives. */
    method ApplyRepo(repo: Id)
      requires pass.Some? && pass.value.locked.None? && RepoFree(State(), repo) && quotaLock.Nobody?
      modifies this
      ensures Reaches(cfg, old(State()), State())
      ensures pass == Some(old(pass).value.(latest := receipts)) && quotaLock.Nobody?
      ensures receipts == old(receipts) && flights == old(flights) && clock == old(clock)
      ensures forall k :: k in refs <==>
                k in old(refs) && !(k.repo == repo && DropsRef(old(refs), pass.value, Slot(k, old(refs)[k])))
      ensures forall k :: k in refs ==> refs[k] == old(refs)[k]
      ensures forall s :: s in archives <==>
                s in old(archives) && !(s.key.repo == repo && DropsArchive(old(archives), refs, pass.value, s))
      ensures forall s :: s in archives ==> archives[s] == old(archives)[s]
    {
      ghost var w0 := State();
      LockRepo(repo);
      ghost var w1 := State();
      DeleteRefs(repo);
      ReachTrans(cfg, w0, w1, State());
      ghost var w2 := State();
      Reload();
      ReachTrans(cfg, w0, w2, State());
      ghost var w4 := State();
      DeleteArchives(repo);
      ReachTrans(cfg, w0, w4, State());
      ghost var w3 := State();
      UnlockRepo();
      ReachTrans(cfg, w0, w3, State());
    }

    /** The scans of a pass. */
    method Scan(now: int)
      requires pass.None? && now <= clock
      modifies `pass
      ensures Reaches(cfg, old(State()), State())
      ensures pass.Some? && pass.value.locked.None? && pass.value.cutoff == now - cfg.grace
      ensures pass.value.latest == receipts
      ensures Condemns(ViewOf(State()), pass.value)
    {
      ghost var start := State();
      StartPass(now);
      ghost var w1 := State();
      ScanArchives();
      ReachTrans(cfg, start, w1, State());
      ghost var w2 := State();
      ScanRefs();
      ReachTrans(cfg, start, w2, State());
    }

    /** `_apply_snapshot_candidates`: every repository that has a candidate. */
    method Apply()
      requires pass.Some? && pass.value.locked.None? && flights == map[] && quotaLock.Nobody?
      requires pass.value.latest == receipts && Condemns(ViewOf(State()), pass.value)
      modifies this
      ensures Reaches(cfg, old(State()), State()) && pass.Some? && receipts == old(receipts)
      ensures pass.value.locked.None? && quotaLock.Nobody?
      ensures Remaining(ViewOf(old(State())), old(pass).value.cutoff, {}, refs, archives)
    {
      ghost var start, p := State(), pass.value;
      ReachSelf(cfg, start);
      var rest := (set s | s in pass.value.refs :: s.key.repo) + (set s | s in pass.value.archives :: s.key.repo);
      RemainingAtFirst(ViewOf(start), p, rest);
      while rest != {}
        invariant pass == Some(p) && receipts == start.receipts
        invariant flights == map[] && quotaLock.Nobody?
        invariant Remaining(ViewOf(start), p.cutoff, rest, refs, archives)
        invariant Reaches(cfg, start, State())
        decreases |rest|
      {
        var repo :| repo in rest;
        ghost var before := State();
        ApplyRepo(repo);
        ReachTrans(cfg, start, before, State());
        RemainingAfter(ViewOf(start), p, rest, repo, before, State());
        rest := rest - {repo};
      }
    }

    method RunPass(now: int)
      requires pass.None? && flights == map[] && quotaLock.Nobody? && now <= clock
      modifies this
      ensures Reaches(cfg, old(State()), State()) && pass.None? && receipts == old(receipts)
      ensures Remaining(ViewOf(old(State())), now - cfg.grace, {}, refs, archives)
    {
      ghost var start := State();
      Scan(now);
      ghost var scanned := State();
      Apply();
      ReachTrans(cfg, start, scanned, State());
      ghost var applied := State();
      EndPass();
      ReachTrans(cfg, start, applied, State());
    }

    /** A whole applied pass that meets no other process: exactly the dead refs and archives
        go, so what is left is named by a receipt, young, or an archive its ref still needs. */
    method CollectGarbage(now: int)
      requires Valid() && pass.None? && flights == map[] && quotaLock.Nobody? && now <= clock
      modifies this
      ensures Valid() && Reaches(cfg, old(State()), State()) && pass.None? && receipts == old(receipts)
      ensures Remaining(ViewOf(old(State())), now - cfg.grace, {}, refs, archives)
    {
      ghost var start := State();
      RunPass(now);
      ReachKeeps(cfg, start, State());
    }
  }
}
