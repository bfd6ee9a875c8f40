/** Immutable snapshots of fetched commits: the refs, the archive store under its quota, the
    receipts that make a snapshot durable, and the garbage collector, under one lock order. */
module SnapshotStore {
  import opened Common

  type Id = nat

  /** One snapshot ref and one archive directory. */
  datatype Key = Key(assignment: Id, storage: Id, repo: Id)
  /** One archive path: `<assignment>/<repository>/<storage>/<commit>.tar.gz`. */
  datatype Slot = Slot(key: Key, commit: Id)
  datatype Archive = Archive(digest: Id, size: nat, mtime: int, inode: nat)

  /** A snapshot call, holding its repository's lock. */
  datatype Phase = Checked | Measured(bytes: nat, digest: Id, size: nat) | Exported(created: bool) | Undoing
  datatype Flight = Flight(slot: Slot, phase: Phase)

  /** A collector pass: the receipts it read first, those it read last, the refs and archives
      it found dead, and the repository it is working on. */
  datatype Pass = Pass(now: int, cutoff: int, first: set<Slot>, latest: set<Slot>,
                       refs: set<Slot>, archives: map<Slot, nat>, locked: Option<Id>)

  datatype Holder = Nobody | Snapshot(repo: Id) | Collector
  datatype Config = Config(quota: Option<nat>, grace: int)

  /** History variables: `until` gives the instant before which a snapshot, taken outside any
      pass that already condemned it, is under grace; `kept` are the receipts written before it. */
  datatype World = World(refs: map<Key, Id>, archives: map<Slot, Archive>, touched: map<Key, int>, receipts: set<Slot>,
                         flights: map<Id, Flight>, quotaLock: Holder, pass: Option<Pass>, clock: int, inodes: nat,
                         until: map<Slot, int>, kept: set<Slot>)

  function Empty(clock: int): World {
    World(map[], map[], map[], {}, map[], Nobody, None, clock, 0, map[], {})
  }

  datatype Step =
    | Tick(elapsed: nat)
    | Begin(slot: Slot)
    | Reject(repo: Id)
    | Measure(repo: Id, digest: Id, size: nat)
    | Link(repo: Id)
    | PointRef(repo: Id, succeeds: bool)
    | Undo(repo: Id)
    | Die(repo: Id)
    | Record(slot: Slot)
    | StartPass(now: int)
    | ScanArchive(slot: Slot)
    | ScanRef(key: Key)
    | LockRepo(repo: Id)
    | Reload
    | DeleteRef(slot: Slot)
    | DeleteArchive(slot: Slot)
    | UnlockRepo
    | EndPass

  /** Sum of the archive sizes. */
  ghost function Total(archives: map<Slot, Archive>): nat {
    if archives == map[] then 0
    else
      var s :| s in archives;
      archives[s].size + Total(archives - {s})
  }

  ghost predicate Named(receipts: set<Slot>, key: Key) {
    exists s :: s in receipts && s.key == key
  }

  ghost predicate HasArchive(archives: map<Slot, Archive>, key: Key) {
    exists s :: s in archives && s.key == key
  }

  /** A running pass has found the ref dead, at this very commit. */
  predicate Condemned(w: World, s: Slot) {
    w.pass.Some? && s in w.pass.value.refs
  }

  /** The directory's time after something in it was removed; empty directories go. */
  ghost function Tidied(w: World, archives: map<Slot, Archive>, key: Key): map<Key, int> {
    if HasArchive(archives, key) then w.touched[key := w.clock] else w.touched - {key}
  }

  ghost function Landed(w: World, repo: Id): World {
    w.(flights := w.flights - {repo}, quotaLock := if w.quotaLock == Snapshot(repo) then Nobody else w.quotaLock)
  }

  predicate RepoFree(w: World, repo: Id) {
    repo !in w.flights && (w.pass.Some? ==> w.pass.value.locked != Some(repo))
  }

  /** `_snapshot_locked` up to the temporary archive in the snapshot's directory. */
  ghost function BeginStep(w: World, slot: Slot): World {
    if !RepoFree(w, slot.key.repo) || (slot.key in w.refs && w.refs[slot.key] != slot.commit) then w
    else w.(flights := w.flights[slot.key.repo := Flight(slot, Checked)], touched := w.touched[slot.key := w.clock])
  }

  /** `_publish_archive`: the quota lock, the digest comparison, the measurement. */
  ghost function MeasureStep(w: World, repo: Id, digest: Id, size: nat): World {
    if repo !in w.flights || !w.flights[repo].phase.Checked? || !w.quotaLock.Nobody? then w
    else
      var f := w.flights[repo];
      if f.slot !in w.archives then
        w.(quotaLock := Snapshot(repo),
           flights := w.flights[repo := f.(phase := Measured(Total(w.archives), digest, size))])
      else if w.archives[f.slot].digest != digest then Landed(w, repo).(touched := Tidied(w, w.archives, f.slot.key))
      else w.(flights := w.flights[repo := f.(phase := Exported(false))], touched := w.touched[f.slot.key := w.clock])
  }

  ghost function LinkStep(cfg: Config, w: World, repo: Id): World {
    if repo !in w.flights || !w.flights[repo].phase.Measured? then w
    else
      var f := w.flights[repo];
      if cfg.quota.Some? && f.phase.bytes + f.phase.size > cfg.quota.value then
        Landed(w, repo).(touched := Tidied(w, w.archives, f.slot.key))
      else
        w.(quotaLock := Nobody, inodes := w.inodes + 1,
           archives := w.archives[f.slot := Archive(f.phase.digest, f.phase.size, w.clock, w.inodes)],
           flights := w.flights[repo := f.(phase := Exported(true))],
           touched := w.touched[f.slot.key := w.clock])
  }

  /** `_create_immutable_ref`, and the clean-up that follows its failure. */
  ghost function PointRefStep(cfg: Config, w: World, repo: Id, succeeds: bool): World {
    if repo !in w.flights || !w.flights[repo].phase.Exported? then w
    else
      var f := w.flights[repo];
      var key := f.slot.key;
      if (if key in w.refs then w.refs[key] == f.slot.commit else succeeds) then
        Landed(w, repo).(refs := w.refs[key := f.slot.commit],
                         until := if Condemned(w, f.slot) || key !in w.touched then w.until
                                  else w.until[f.slot := w.touched[key] + cfg.grace])
      else if f.phase.created then w.(flights := w.flights[repo := f.(phase := Undoing)])
      else Landed(w, repo)
  }

  ghost function UndoStep(w: World, repo: Id): World {
    if repo !in w.flights || !w.flights[repo].phase.Undoing? then w
    else
      var slot := w.flights[repo].slot;
      Landed(w, repo).(archives := w.archives - {slot}, touched := Tidied(w, w.archives - {slot}, slot.key))
  }

  ghost function RecordStep(w: World, slot: Slot): World {
    w.(receipts := w.receipts + {slot},
       kept := if slot in w.until && w.clock < w.until[slot] then w.kept + {slot} else w.kept)
  }

  ghost function ScanArchiveStep(w: World, slot: Slot): World {
    if w.pass.None? || slot !in w.archives then w
    else
      var p := w.pass.value;
      if Named(p.first, slot.key) || w.archives[slot].mtime > p.cutoff then w
      else w.(pass := Some(p.(archives := p.archives[slot := w.archives[slot].inode])))
  }

  ghost function ScanRefStep(w: World, key: Key): World {
    if w.pass.None? || key !in w.refs || key !in w.touched then w
    else
      var p := w.pass.value;
      if Named(p.first, key) || w.touched[key] > p.cutoff then w
      else w.(pass := Some(p.(refs := p.refs + {Slot(key, w.refs[key])})))
  }

  /** `update-ref -d` with the condemned commit as the expected value. */
  ghost function DeleteRefStep(w: World, s: Slot): World {
    if w.pass.None? || w.pass.value.locked != Some(s.key.repo) || s.key !in w.refs || w.refs[s.key] != s.commit then w
    else if s !in w.pass.value.refs || Named(w.pass.value.latest, s.key) then w
    else w.(refs := w.refs - {s.key})
  }

  ghost function DeleteArchiveStep(w: World, slot: Slot): World {
    if w.pass.None? || w.pass.value.locked != Some(slot.key.repo) || slot !in w.archives then w
    else
      var p := w.pass.value;
      if slot !in p.archives || p.archives[slot] != w.archives[slot].inode then w
      else if Named(p.latest, slot.key) || slot.key in w.refs then w
      else w.(archives := w.archives - {slot}, touched := Tidied(w, w.archives - {slot}, slot.key))
  }

  ghost function RejectStep(w: World, repo: Id): World {
    if repo !in w.flights || !w.flights[repo].phase.Checked? then w
    else Landed(w, repo).(touched := Tidied(w, w.archives, w.flights[repo].slot.key))
  }

  ghost function StartPassStep(cfg: Config, w: World, now: int): World {
    if w.pass.Some? || now > w.clock then w
    else w.(pass := Some(Pass(now, now - cfg.grace, w.receipts, w.receipts, {}, map[], None)))
  }

  ghost function LockRepoStep(w: World, repo: Id): World {
    if w.pass.None? || w.pass.value.locked.Some? || !RepoFree(w, repo) || !w.quotaLock.Nobody? then w
    else w.(quotaLock := Collector, pass := Some(w.pass.value.(locked := Some(repo), latest := w.receipts)))
  }

  ghost function ReloadStep(w: World): World {
    if w.pass.None? then w else w.(pass := Some(w.pass.value.(latest := w.receipts)))
  }

  ghost function UnlockRepoStep(w: World): World {
    if w.pass.None? || w.pass.value.locked.None? then w
    else w.(quotaLock := Nobody, pass := Some(w.pass.value.(locked := None)))
  }

  ghost function EndPassStep(w: World): World {
    if w.pass.None? then w
    else w.(quotaLock := if w.pass.value.locked.Some? then Nobody else w.quotaLock, pass := None)
  }

  ghost function Next(cfg: Config, w: World, step: Step): World {
    match step
    case Tick(elapsed) => w.(clock := w.clock + elapsed)
    case Begin(slot) => BeginStep(w, slot)
    case Reject(repo) => RejectStep(w, repo)
    case Measure(repo, digest, size) => MeasureStep(w, repo, digest, size)
    case Link(repo) => LinkStep(cfg, w, repo)
    case PointRef(repo, succeeds) => PointRefStep(cfg, w, repo, succeeds)
    case Undo(repo) => UndoStep(w, repo)
    case Die(repo) => Landed(w, repo)
    case Record(slot) => RecordStep(w, slot)
    case ScanArchive(slot) => ScanArchiveStep(w, slot)
    case ScanRef(key) => ScanRefStep(w, key)
    case DeleteRef(slot) => DeleteRefStep(w, slot)
    case DeleteArchive(slot) => DeleteArchiveStep(w, slot)
    case StartPass(now) => StartPassStep(cfg, w, now)
    case LockRepo(repo) => LockRepoStep(w, repo)
    case Reload => ReloadStep(w)
    case UnlockRepo => UnlockRepoStep(w)
    case EndPass => EndPassStep(w)
  }

  /** Any interleaving of snapshots, receipts, collector passes, failures and deaths. */
  ghost function Run(cfg: Config, w: World, steps: seq<Step>): World
    decreases |steps|
  {
    if steps == [] then w else Run(cfg, Next(cfg, w, steps[0]), steps[1..])
  }

  // ------------------------------------------------------------------ the total

  lemma {:induction false} TotalWithout(archives: map<Slot, Archive>, s: Slot)
    requires s in archives
    ensures Total(archives) == archives[s].size + Total(archives - {s})
    decreases |archives|
  {
    var t :| t in archives && Total(archives) == archives[t].size + Total(archives - {t});
    if t != s {
      TotalWithout(archives - {t}, s);
      TotalWithout(archives - {s}, t);
      assert archives - {t} - {s} == archives - {s} - {t};
    }
  }

  lemma TotalWith(archives: map<Slot, Archive>, s: Slot, a: Archive)
    requires s !in archives
    ensures Total(archives[s := a]) == Total(archives) + a.size
  {
    TotalWithout(archives[s := a], s);
    assert archives[s := a] - {s} == archives;
  }

  // ------------------------------------------------------------------- invariant

  /** A snapshot ref has its archive, in a directory that is there. */
  ghost predicate RefOk(w: World, key: Key) {
    key in w.refs && Slot(key, w.refs[key]) in w.archives && key in w.touched
  }

  ghost predicate FlightOk(w: World, repo: Id) {
    repo in w.flights &&
    var f := w.flights[repo];
    && f.slot.key.repo == repo && f.slot.key in w.touched
    && (f.slot.key in w.refs ==> w.refs[f.slot.key] == f.slot.commit)
    && (w.pass.Some? ==> w.pass.value.locked != Some(repo))
    && (w.quotaLock == Snapshot(repo) <==> f.phase.Measured?)
    && match f.phase
       case Checked => true
       case Measured(bytes, _, _) => f.slot !in w.archives && Total(w.archives) <= bytes
       case Exported(created) => f.slot in w.archives && (created ==> f.slot.key !in w.refs)
       case Undoing => f.slot in w.archives && f.slot.key !in w.refs
  }

  ghost predicate LocksOk(w: World) {
    match w.quotaLock
    case Nobody => w.pass.Some? ==> w.pass.value.locked.None?
    case Snapshot(repo) => repo in w.flights && (w.pass.Some? ==> w.pass.value.locked.None?)
    case Collector => w.pass.Some? && w.pass.value.locked.Some?
  }

  /** A snapshot under grace, or with a receipt written under grace, stands and is safe from
      the pass that may be running. */
  ghost predicate FreshOk(w: World, s: Slot) {
    s in w.until && (w.clock < w.until[s] || s in w.kept ==> Standing(w, s))
  }

  ghost predicate Standing(w: World, s: Slot) {
    && s in w.until && s.key in w.refs && w.refs[s.key] == s.commit && s in w.archives
    && !Condemned(w, s)
    && (w.pass.Some? ==> Named(w.pass.value.first, s.key) || w.pass.value.now < w.until[s])
  }

  ghost predicate DeadlineOk(cfg: Config, w: World, s: Slot) {
    && s in w.until && w.until[s] <= w.clock + cfg.grace
    && (s.key in w.touched ==> w.until[s] <= w.touched[s.key] + cfg.grace)
  }

  ghost predicate PassOk(cfg: Config, w: World) {
    w.pass.Some? ==> w.pass.value.cutoff == w.pass.value.now - cfg.grace && w.pass.value.now <= w.clock
  }

  ghost predicate InvStore(cfg: Config, w: World) {
    && (forall k {:trigger RefOk(w, k)} :: k in w.refs ==> RefOk(w, k))
    && (forall r {:trigger FlightOk(w, r)} :: r in w.flights ==> FlightOk(w, r))
    && LocksOk(w)
    && (cfg.quota.Some? ==> Total(w.archives) <= cfg.quota.value)
    && PassOk(cfg, w)
    && (forall k :: k in w.touched ==> w.touched[k] <= w.clock)
  }

  ghost predicate InvFresh(cfg: Config, w: World) {
    && (forall s {:trigger FreshOk(w, s)} :: s in w.until ==> FreshOk(w, s))
    && (forall s {:trigger DeadlineOk(cfg, w, s)} :: s in w.until ==> DeadlineOk(cfg, w, s))
    && (forall s :: s in w.kept ==> s in w.until && s in w.receipts)
  }

  ghost predicate Inv(cfg: Config, w: World) {
    InvStore(cfg, w) && InvFresh(cfg, w)
  }

  // ------------------------------------------------------- every step keeps it

  lemma TickKeeps(cfg: Config, w: World, elapsed: nat)
    requires Inv(cfg, w)
    ensures Inv(cfg, w.(clock := w.clock + elapsed))
  {
    var w' := w.(clock := w.clock + elapsed);
    forall k | k in w'.refs ensures RefOk(w', k) {
      assert k in w.refs ==> RefOk(w, k);
    }
    forall r | r in w'.flights ensures FlightOk(w', r) {
      assert r in w.flights ==> FlightOk(w, r);
    }
    forall s | s in w'.until ensures FreshOk(w', s) && DeadlineOk(cfg, w', s) {
      assert s in w.until ==> FreshOk(w, s) && DeadlineOk(cfg, w, s);
    }
  }

  lemma BeginStore(cfg: Config, w: World, slot: Slot)
    requires Inv(cfg, w)
    ensures InvStore(cfg, BeginStep(w, slot))
  {
    var w' := BeginStep(w, slot);
    forall k | k in w'.refs ensures RefOk(w', k) {
      assert RefOk(w, k);
    }
    forall r | r in w'.flights ensures FlightOk(w', r) {
      assert r in w.flights ==> FlightOk(w, r);
    }
  }

  lemma BeginFresh(cfg: Config, w: World, slot: Slot)
    requires Inv(cfg, w)
    ensures InvFresh(cfg, BeginStep(w, slot))
  {
    var w' := BeginStep(w, slot);
    forall s | s in w'.until ensures FreshOk(w', s) && DeadlineOk(cfg, w', s) {
      assert FreshOk(w, s) && DeadlineOk(cfg, w, s);
    }
  }

  lemma RejectKeeps(cfg: Config, w: World, repo: Id)
    requires Inv(cfg, w)
    ensures Inv(cfg, RejectStep(w, repo))
  {
    var w' := RejectStep(w, repo);
    assert repo in w.flights ==> FlightOk(w, repo);
    forall k | k in w'.refs ensures RefOk(w', k) {
      assert k in w.refs ==> RefOk(w, k);
    }
    forall r | r in w'.flights ensures FlightOk(w', r) {
      assert r in w.flights ==> FlightOk(w, r);
    }
    forall s | s in w'.until ensures FreshOk(w', s) && DeadlineOk(cfg, w', s) {
      assert s in w.until ==> FreshOk(w, s) && DeadlineOk(cfg, w, s);
    }
  }

  lemma MeasureFlight(w: World, repo: Id, digest: Id, size: nat, r: Id)
    requires FlightOk(w, r) && (repo in w.flights ==> FlightOk(w, repo))
    requires r in MeasureStep(w, repo, digest, size).flights
    ensures FlightOk(MeasureStep(w, repo, digest, size), r)
  {
  }

  lemma MeasureRef(cfg: Config, w: World, repo: Id, digest: Id, size: nat, key: Key)
    requires Inv(cfg, w) && key in w.refs
    ensures RefOk(MeasureStep(w, repo, digest, size), key)
  {
    assert RefOk(w, key);
  }

  lemma MeasureFlights(cfg: Config, w: World, repo: Id, digest: Id, size: nat)
    requires Inv(cfg, w)
    ensures var w' := MeasureStep(w, repo, digest, size);
            forall r {:trigger FlightOk(w', r)} :: r in w'.flights ==> FlightOk(w', r)
  {
    var w' := MeasureStep(w, repo, digest, size);
    assert repo in w.flights ==> FlightOk(w, repo);
    forall r | r in w'.flights ensures FlightOk(w', r) {
      assert FlightOk(w, r);
      MeasureFlight(w, repo, digest, size, r);
    }
  }

  lemma MeasureStore(cfg: Config, w: World, repo: Id, digest: Id, size: nat)
    requires Inv(cfg, w)
    ensures InvStore(cfg, MeasureStep(w, repo, digest, size))
  {
    var w' := MeasureStep(w, repo, digest, size);
    assert repo in w.flights ==> FlightOk(w, repo);
    forall k | k in w'.refs ensures RefOk(w', k) {
      MeasureRef(cfg, w, repo, digest, size, k);
    }
    MeasureFlights(cfg, w, repo, digest, size);
  }

  lemma MeasureFresh(cfg: Config, w: World, repo: Id, digest: Id, size: nat)
    requires Inv(cfg, w)
    ensures InvFresh(cfg, MeasureStep(w, repo, digest, size))
  {
    var w' := MeasureStep(w, repo, digest, size);
    assert repo in w.flights ==> FlightOk(w, repo);
    forall s | s in w'.until ensures FreshOk(w', s) && DeadlineOk(cfg, w', s) {
      assert s in w.until ==> FreshOk(w, s) && DeadlineOk(cfg, w, s);
    }
  }

  lemma LinkFlight(cfg: Config, w: World, repo: Id, r: Id)
    requires FlightOk(w, r) && (repo in w.flights ==> FlightOk(w, repo)) && r in LinkStep(cfg, w, repo).flights
    requires repo in w.flights && w.flights[repo].slot.key in w.refs ==> RefOk(w, w.flights[repo].slot.key)
    ensures FlightOk(LinkStep(cfg, w, repo), r)
  {
  }

  lemma LinkRef(cfg: Config, w: World, repo: Id, key: Key)
    requires Inv(cfg, w) && key in w.refs
    ensures RefOk(LinkStep(cfg, w, repo), key)
  {
    assert RefOk(w, key);
  }

  lemma LinkFlights(cfg: Config, w: World, repo: Id)
    requires Inv(cfg, w)
    ensures var w' := LinkStep(cfg, w, repo);
            forall r {:trigger FlightOk(w', r)} :: r in w'.flights ==> FlightOk(w', r)
  {
    var w' := LinkStep(cfg, w, repo);
    assert repo in w.flights ==> FlightOk(w, repo);
    assert repo in w.flights && w.flights[repo].slot.key in w.refs ==> RefOk(w, w.flights[repo].slot.key);
    forall r | r in w'.flights ensures FlightOk(w', r) {
      assert FlightOk(w, r);
      LinkFlight(cfg, w, repo, r);
    }
  }

  /** The archive fits: nothing was added since the bytes were measured under the lock. */
  lemma LinkTotal(cfg: Config, w: World, repo: Id)
    requires cfg.quota.Some? ==> Total(w.archives) <= cfg.quota.value
    requires repo in w.flights ==> FlightOk(w, repo)
    ensures cfg.quota.Some? ==> Total(LinkStep(cfg, w, repo).archives) <= cfg.quota.value
  {
    if repo in w.flights && w.flights[repo].phase.Measured? {
      var f := w.flights[repo];
      TotalWith(w.archives, f.slot, Archive(f.phase.digest, f.phase.size, w.clock, w.inodes));
    }
  }

  lemma LinkStore(cfg: Config, w: World, repo: Id)
    requires Inv(cfg, w)
    ensures InvStore(cfg, LinkStep(cfg, w, repo))
  {
    var w' := LinkStep(cfg, w, repo);
    assert repo in w.flights ==> FlightOk(w, repo);
    LinkTotal(cfg, w, repo);
    forall k | k in w'.refs ensures RefOk(w', k) {
      LinkRef(cfg, w, repo, k);
    }
    LinkFlights(cfg, w, repo);
  }

  lemma LinkFresh(cfg: Config, w: World, repo: Id)
    requires Inv(cfg, w)
    ensures InvFresh(cfg, LinkStep(cfg, w, repo))
  {
    var w' := LinkStep(cfg, w, repo);
    assert repo in w.flights ==> FlightOk(w, repo);
    forall s | s in w'.until ensures FreshOk(w', s) && DeadlineOk(cfg, w', s) {
      assert s in w.until ==> FreshOk(w, s) && DeadlineOk(cfg, w, s);
    }
  }

  lemma PointRefFlight(cfg: Config, w: World, repo: Id, succeeds: bool, r: Id)
    requires Inv(cfg, w) && r in PointRefStep(cfg, w, repo, succeeds).flights
    ensures FlightOk(PointRefStep(cfg, w, repo, succeeds), r)
  {
    assert repo in w.flights ==> FlightOk(w, repo);
    assert FlightOk(w, r);
  }

  lemma PointRefStore(cfg: Config, w: World, repo: Id, succeeds: bool)
    requires Inv(cfg, w)
    ensures InvStore(cfg, PointRefStep(cfg, w, repo, succeeds))
  {
    var w' := PointRefStep(cfg, w, repo, succeeds);
    assert repo in w.flights ==> FlightOk(w, repo);
    forall k | k in w'.refs ensures RefOk(w', k) {
      assert k in w.refs ==> RefOk(w, k);
    }
    forall r | r in w'.flights ensures FlightOk(w', r) {
      PointRefFlight(cfg, w, repo, succeeds, r);
    }
  }

  lemma PointRefFresh(cfg: Config, w: World, repo: Id, succeeds: bool)
    requires Inv(cfg, w)
    ensures InvFresh(cfg, PointRefStep(cfg, w, repo, succeeds))
  {
    var w' := PointRefStep(cfg, w, repo, succeeds);
    assert repo in w.flights ==> FlightOk(w, repo);
    forall s | s in w'.until ensures FreshOk(w', s) && DeadlineOk(cfg, w', s) {
      assert s in w.until ==> FreshOk(w, s) && DeadlineOk(cfg, w, s);
    }
  }

  lemma UndoKeeps(cfg: Config, w: World, repo: Id)
    requires Inv(cfg, w)
    ensures Inv(cfg, UndoStep(w, repo))
  {
    var w' := UndoStep(w, repo);
    if repo in w.flights && w.flights[repo].phase.Undoing? {
      assert FlightOk(w, repo);
      TotalWithout(w.archives, w.flights[repo].slot);
    }
    assert repo in w.flights ==> FlightOk(w, repo);
    forall k | k in w'.refs ensures RefOk(w', k) {
      assert k in w.refs ==> RefOk(w, k);
    }
    forall r | r in w'.flights ensures FlightOk(w', r) {
      assert r in w.flights ==> FlightOk(w, r);
    }
    forall s | s in w'.until ensures FreshOk(w', s) && DeadlineOk(cfg, w', s) {
      assert s in w.until ==> FreshOk(w, s) && DeadlineOk(cfg, w, s);
    }
  }

  lemma DieKeeps(cfg: Config, w: World, repo: Id)
    requires Inv(cfg, w)
    ensures Inv(cfg, Landed(w, repo))
  {
    var w' := Landed(w, repo);
    forall k | k in w'.refs ensures RefOk(w', k) {
      assert k in w.refs ==> RefOk(w, k);
    }
    forall r | r in w'.flights ensures FlightOk(w', r) {
      assert r in w.flights ==> FlightOk(w, r);
    }
    forall s | s in w'.until ensures FreshOk(w', s) && DeadlineOk(cfg, w', s) {
      assert s in w.until ==> FreshOk(w, s) && DeadlineOk(cfg, w, s);
    }
  }

  lemma RecordKeeps(cfg: Config, w: World, slot: Slot)
    requires Inv(cfg, w)
    ensures Inv(cfg, RecordStep(w, slot))
  {
    var w' := RecordStep(w, slot);
    forall k | k in w'.refs ensures RefOk(w', k) {
      assert k in w.refs ==> RefOk(w, k);
    }
    forall r | r in w'.flights ensures FlightOk(w', r) {
      assert r in w.flights ==> FlightOk(w, r);
    }
    forall s | s in w'.until ensures FreshOk(w', s) && DeadlineOk(cfg, w', s) {
      assert s in w.until ==> FreshOk(w, s) && DeadlineOk(cfg, w, s);
    }
  }

  lemma ScanArchiveKeeps(cfg: Config, w: World, slot: Slot)
    requires Inv(cfg, w)
    ensures Inv(cfg, ScanArchiveStep(w, slot))
  {
    var w' := ScanArchiveStep(w, slot);
    forall k | k in w'.refs ensures RefOk(w', k) {
      assert k in w.refs ==> RefOk(w, k);
    }
    forall r | r in w'.flights ensures FlightOk(w', r) {
      assert r in w.flights ==> FlightOk(w, r);
    }
    forall s | s in w'.until ensures FreshOk(w', s) && DeadlineOk(cfg, w', s) {
      assert s in w.until ==> FreshOk(w, s) && DeadlineOk(cfg, w, s);
    }
  }

  lemma ScanRefKeeps(cfg: Config, w: World, key: Key)
    requires Inv(cfg, w)
    ensures Inv(cfg, ScanRefStep(w, key))
  {
    var w' := ScanRefStep(w, key);
    forall k | k in w'.refs ensures RefOk(w', k) {
      assert k in w.refs ==> RefOk(w, k);
    }
    forall r | r in w'.flights ensures FlightOk(w', r) {
      assert r in w.flights ==> FlightOk(w, r);
    }
    forall s | s in w'.until ensures FreshOk(w', s) && DeadlineOk(cfg, w', s) {
      assert s in w.until ==> FreshOk(w, s) && DeadlineOk(cfg, w, s);
    }
  }

  lemma DeleteRefKeeps(cfg: Config, w: World, slot: Slot)
    requires Inv(cfg, w)
    ensures Inv(cfg, DeleteRefStep(w, slot))
  {
    var w' := DeleteRefStep(w, slot);
    forall k | k in w'.refs ensures RefOk(w', k) {
      assert k in w.refs ==> RefOk(w, k);
    }
    forall r | r in w'.flights ensures FlightOk(w', r) {
      assert r in w.flights ==> FlightOk(w, r);
    }
    forall s | s in w'.until ensures FreshOk(w', s) && DeadlineOk(cfg, w', s) {
      assert s in w.until ==> FreshOk(w, s) && DeadlineOk(cfg, w, s);
    }
  }

  lemma DeleteArchiveStore(cfg: Config, w: World, slot: Slot)
    requires Inv(cfg, w)
    ensures InvStore(cfg, DeleteArchiveStep(w, slot))
  {
    var w' := DeleteArchiveStep(w, slot);
    if slot in w.archives {
      TotalWithout(w.archives, slot);
    }
    forall k | k in w'.refs ensures RefOk(w', k) {
      assert k in w.refs ==> RefOk(w, k);
    }
    forall r | r in w'.flights ensures FlightOk(w', r) {
      assert r in w.flights ==> FlightOk(w, r);
    }
  }

  lemma DeleteArchiveFresh(cfg: Config, w: World, slot: Slot)
    requires Inv(cfg, w)
    ensures InvFresh(cfg, DeleteArchiveStep(w, slot))
  {
    var w' := DeleteArchiveStep(w, slot);
    forall s | s in w'.until ensures FreshOk(w', s) && DeadlineOk(cfg, w', s) {
      assert s in w.until ==> FreshOk(w, s) && DeadlineOk(cfg, w, s);
    }
  }

  /** Starting, locking, reloading, unlocking and ending change the pass and the quota lock. */
  ghost predicate PassOnly(w: World, w': World) {
    w' == w.(pass := w'.pass, quotaLock := w'.quotaLock)
  }

  lemma PassStepKeeps(cfg: Config, w: World, w': World)
    requires Inv(cfg, w) && PassOnly(w, w') && LocksOk(w') && PassOk(cfg, w')
    requires forall r :: r in w.flights ==>
               (w'.quotaLock == Snapshot(r) <==> w.quotaLock == Snapshot(r))
                  && (w'.pass.Some? ==> w'.pass.value.locked != Some(r))
    requires w'.pass.Some? ==>
               (if w.pass.Some? then w'.pass.value.refs == w.pass.value.refs
                  && w'.pass.value.first == w.pass.value.first
                                     && w'.pass.value.now == w.pass.value.now
                else w'.pass.value.refs == {} && w'.pass.value.first == w.receipts)
    ensures Inv(cfg, w')
  {
    forall k | k in w'.refs ensures RefOk(w', k) {
      assert RefOk(w, k);
    }
    forall r | r in w'.flights ensures FlightOk(w', r) {
      assert FlightOk(w, r);
    }
    forall s | s in w'.until ensures FreshOk(w', s) && DeadlineOk(cfg, w', s) {
      assert FreshOk(w, s) && DeadlineOk(cfg, w, s);
    }
  }

  lemma StartPassKeeps(cfg: Config, w: World, now: int)
    requires Inv(cfg, w)
    ensures Inv(cfg, StartPassStep(cfg, w, now))
  {
    forall r | r in w.flights ensures FlightOk(w, r) {
    }
    PassStepKeeps(cfg, w, StartPassStep(cfg, w, now));
  }

  lemma LockRepoKeeps(cfg: Config, w: World, repo: Id)
    requires Inv(cfg, w)
    ensures Inv(cfg, LockRepoStep(w, repo))
  {
    forall r | r in w.flights ensures FlightOk(w, r) {
    }
    PassStepKeeps(cfg, w, LockRepoStep(w, repo));
  }

  lemma ReloadKeeps(cfg: Config, w: World)
    requires Inv(cfg, w)
    ensures Inv(cfg, ReloadStep(w))
  {
    forall r | r in w.flights ensures FlightOk(w, r) {
    }
    PassStepKeeps(cfg, w, ReloadStep(w));
  }

  lemma UnlockRepoKeeps(cfg: Config, w: World)
    requires Inv(cfg, w)
    ensures Inv(cfg, UnlockRepoStep(w))
  {
    forall r | r in w.flights ensures FlightOk(w, r) {
    }
    PassStepKeeps(cfg, w, UnlockRepoStep(w));
  }

  lemma EndPassKeeps(cfg: Config, w: World)
    requires Inv(cfg, w)
    ensures Inv(cfg, EndPassStep(w))
  {
    forall r | r in w.flights ensures FlightOk(w, r) {
    }
    PassStepKeeps(cfg, w, EndPassStep(w));
  }

  predicate Collects(step: Step) {
    || step.StartPass? || step.ScanArchive? || step.ScanRef? || step.LockRepo? || step.Reload?
    || step.DeleteRef? || step.DeleteArchive? || step.UnlockRepo? || step.EndPass?
  }

  lemma SnapshotStepKeeps(cfg: Config, w: World, step: Step)
    requires Inv(cfg, w) && !Collects(step)
    ensures Inv(cfg, Next(cfg, w, step))
  {
    match step
    case Tick(elapsed) => TickKeeps(cfg, w, elapsed);
    case Begin(slot) => BeginStore(cfg, w, slot); BeginFresh(cfg, w, slot);
    case Reject(repo) => RejectKeeps(cfg, w, repo);
    case Measure(repo, digest, size) =>
      MeasureStore(cfg, w, repo, digest, size);
      MeasureFresh(cfg, w, repo, digest, size);
    case Link(repo) => LinkStore(cfg, w, repo); LinkFresh(cfg, w, repo);
    case PointRef(repo, succeeds) => PointRefStore(cfg, w, repo, succeeds); PointRefFresh(cfg, w, repo, succeeds);
    case Undo(repo) => UndoKeeps(cfg, w, repo);
    case Die(repo) => DieKeeps(cfg, w, repo);
    case Record(slot) => RecordKeeps(cfg, w, slot);
  }

  lemma CollectorStepKeeps(cfg: Config, w: World, step: Step)
    requires Inv(cfg, w) && Collects(step)
    ensures Inv(cfg, Next(cfg, w, step))
  {
    match step
    case ScanArchive(slot) => ScanArchiveKeeps(cfg, w, slot);
    case ScanRef(key) => ScanRefKeeps(cfg, w, key);
    case DeleteRef(slot) => DeleteRefKeeps(cfg, w, slot);
    case DeleteArchive(slot) => DeleteArchiveStore(cfg, w, slot); DeleteArchiveFresh(cfg, w, slot);
    case StartPass(now) => StartPassKeeps(cfg, w, now);
    case LockRepo(repo) => LockRepoKeeps(cfg, w, repo);
    case Reload => ReloadKeeps(cfg, w);
    case UnlockRepo => UnlockRepoKeeps(cfg, w);
    case EndPass => EndPassKeeps(cfg, w);
  }

  lemma StepKeeps(cfg: Config, w: World, step: Step)
    requires Inv(cfg, w)
    ensures Inv(cfg, Next(cfg, w, step))
  {
    if Collects(step) {
      CollectorStepKeeps(cfg, w, step);
    } else {
      SnapshotStepKeeps(cfg, w, step);
    }
  }

  lemma {:induction false} RunKeeps(cfg: Config, w: World, steps: seq<Step>)
    requires Inv(cfg, w)
    ensures Inv(cfg, Run(cfg, w, steps))
    decreases |steps|
  {
    if steps != [] {
      StepKeeps(cfg, w, steps[0]);
      RunKeeps(cfg, Next(cfg, w, steps[0]), steps[1..]);
    }
  }

  /** Deadlines are only ever put off, and a receipt written under grace counts for good. */
  lemma StepAdds(cfg: Config, w: World, step: Step, s: Slot)
    requires Inv(cfg, w) && s in w.until
    ensures var w' := Next(cfg, w, step);
            s in w'.until && w'.until[s] >= w.until[s] && (s in w.kept ==> s in w'.kept)
  {
    assert DeadlineOk(cfg, w, s);
  }

  lemma {:induction false} RunAdds(cfg: Config, w: World, steps: seq<Step>, s: Slot)
    requires Inv(cfg, w) && s in w.until
    ensures var w' := Run(cfg, w, steps);
            s in w'.until && w'.until[s] >= w.until[s] && (s in w.kept ==> s in w'.kept)
    decreases |steps|
  {
    if steps != [] {
      StepKeeps(cfg, w, steps[0]);
      StepAdds(cfg, w, steps[0], s);
      RunAdds(cfg, Next(cfg, w, steps[0]), steps[1..], s);
    }
  }

  // ---------------------------------------------------------------- reachable states

  /** Some interleaving leads from one state to the other. */
  ghost predicate Reaches(cfg: Config, w: World, w': World) {
    exists trace :: Run(cfg, w, trace) == w'
  }

  lemma ReachSelf(cfg: Config, w: World)
    ensures Reaches(cfg, w, w)
  {
    assert Run(cfg, w, []) == w;
  }

  lemma {:induction false} RunConcat(cfg: Config, w: World, a: seq<Step>, b: seq<Step>)
    ensures Run(cfg, w, a + b) == Run(cfg, Run(cfg, w, a), b)
    decreases |a|
  {
    if a == [] {
      assert a + b == b;
    } else {
      assert (a + b)[1..] == a[1..] + b;
      RunConcat(cfg, Next(cfg, w, a[0]), a[1..], b);
    }
  }

  lemma ReachTrans(cfg: Config, a: World, b: World, c: World)
    requires Reaches(cfg, a, b) && Reaches(cfg, b, c)
    ensures Reaches(cfg, a, c)
  {
    var first :| Run(cfg, a, first) == b;
    var second :| Run(cfg, b, second) == c;
    RunConcat(cfg, a, first, second);
    assert Run(cfg, a, first + second) == c;
  }

  lemma ReachStep(cfg: Config, w: World, step: Step)
    ensures Reaches(cfg, w, Next(cfg, w, step))
  {
    assert [step][1..] == [];
    assert Run(cfg, w, [step]) == Next(cfg, w, step);
  }

  lemma ReachKeeps(cfg: Config, w: World, w': World)
    requires Inv(cfg, w) && Reaches(cfg, w, w')
    ensures Inv(cfg, w')
  {
    var trace :| Run(cfg, w, trace) == w';
    RunKeeps(cfg, w, trace);
  }

  lemma ReachTick(cfg: Config, w: World, elapsed: nat)
    ensures Reaches(cfg, w, w.(clock := w.clock + elapsed))
  {
    ReachStep(cfg, w, Tick(elapsed));
  }

  lemma ReachBegin(cfg: Config, w: World, slot: Slot)
    ensures Reaches(cfg, w, BeginStep(w, slot))
  {
    ReachStep(cfg, w, Begin(slot));
  }

  lemma ReachReject(cfg: Config, w: World, repo: Id)
    ensures Reaches(cfg, w, RejectStep(w, repo))
  {
    ReachStep(cfg, w, Reject(repo));
  }

  lemma ReachMeasure(cfg: Config, w: World, repo: Id, digest: Id, size: nat)
    ensures Reaches(cfg, w, MeasureStep(w, repo, digest, size))
  {
    ReachStep(cfg, w, Measure(repo, digest, size));
  }

  lemma ReachLink(cfg: Config, w: World, repo: Id)
    ensures Reaches(cfg, w, LinkStep(cfg, w, repo))
  {
    ReachStep(cfg, w, Link(repo));
  }

  lemma ReachPointRef(cfg: Config, w: World, repo: Id, succeeds: bool)
    ensures Reaches(cfg, w, PointRefStep(cfg, w, repo, succeeds))
  {
    ReachStep(cfg, w, PointRef(repo, succeeds));
  }

  lemma ReachUndo(cfg: Config, w: World, repo: Id)
    ensures Reaches(cfg, w, UndoStep(w, repo))
  {
    ReachStep(cfg, w, Undo(repo));
  }

  lemma ReachDie(cfg: Config, w: World, repo: Id)
    ensures Reaches(cfg, w, Landed(w, repo))
  {
    ReachStep(cfg, w, Die(repo));
  }

  lemma ReachScanArchive(cfg: Config, w: World, slot: Slot)
    ensures Reaches(cfg, w, ScanArchiveStep(w, slot))
  {
    ReachStep(cfg, w, ScanArchive(slot));
  }

  lemma ReachScanRef(cfg: Config, w: World, key: Key)
    ensures Reaches(cfg, w, ScanRefStep(w, key))
  {
    ReachStep(cfg, w, ScanRef(key));
  }

  lemma ReachDeleteRef(cfg: Config, w: World, slot: Slot)
    ensures Reaches(cfg, w, DeleteRefStep(w, slot))
  {
    ReachStep(cfg, w, DeleteRef(slot));
  }

  lemma ReachDeleteArchive(cfg: Config, w: World, slot: Slot)
    ensures Reaches(cfg, w, DeleteArchiveStep(w, slot))
  {
    ReachStep(cfg, w, DeleteArchive(slot));
  }

  lemma ReachStartPass(cfg: Config, w: World, now: int)
    ensures Reaches(cfg, w, StartPassStep(cfg, w, now))
  {
    ReachStep(cfg, w, StartPass(now));
  }

  lemma ReachLockRepo(cfg: Config, w: World, repo: Id)
    ensures Reaches(cfg, w, LockRepoStep(w, repo))
  {
    ReachStep(cfg, w, LockRepo(repo));
  }

  lemma ReachReload(cfg: Config, w: World)
    ensures Reaches(cfg, w, ReloadStep(w))
  {
    ReachStep(cfg, w, Reload);
  }

  lemma ReachUnlockRepo(cfg: Config, w: World)
    ensures Reaches(cfg, w, UnlockRepoStep(w))
  {
    ReachStep(cfg, w, UnlockRepo);
  }

  lemma ReachEndPass(cfg: Config, w: World)
    ensures Reaches(cfg, w, EndPassStep(w))
  {
    ReachStep(cfg, w, EndPass);
  }

  // ---------------------------------------------------------------- the main results

  /** The service starts with an empty store, at any time. */
  lemma EmptyIsFine(cfg: Config, clock: int)
    ensures Inv(cfg, Empty(clock))
  {
  }

  /** A snapshot ref always has its commit's archive on disk. */
  lemma RefHasArchive(cfg: Config, clock: int, steps: seq<Step>, key: Key)
    ensures var w := Run(cfg, Empty(clock), steps);
            key in w.refs ==> Slot(key, w.refs[key]) in w.archives
  {
    EmptyIsFine(cfg, clock);
    RunKeeps(cfg, Empty(clock), steps);
    var w := Run(cfg, Empty(clock), steps);
    assert key in w.refs ==> RefOk(w, key);
  }

  /** The recorded sizes together never exceed the quota. */
  lemma RunWithinQuota(cfg: Config, clock: int, steps: seq<Step>)
    requires cfg.quota.Some?
    ensures Total(Run(cfg, Empty(clock), steps).archives) <= cfg.quota.value
  {
    EmptyIsFine(cfg, clock);
    RunKeeps(cfg, Empty(clock), steps);
  }

  /** No step moves a ref; only a collector pass holding the repository's lock removes one. */
  lemma RefNeverMoves(cfg: Config, clock: int, steps: seq<Step>, step: Step, key: Key)
    requires key in Run(cfg, Empty(clock), steps).refs
    ensures var w := Run(cfg, Empty(clock), steps);
            var w' := Next(cfg, w, step);
            if key in w'.refs then w'.refs[key] == w.refs[key]
            else
              && step == DeleteRef(Slot(key, w.refs[key]))
              && w.pass.Some? && w.pass.value.locked == Some(key.repo) && key.repo !in w.flights
              && Condemned(w, Slot(key, w.refs[key])) && !Named(w.pass.value.latest, key)
  {
    EmptyIsFine(cfg, clock);
    RunKeeps(cfg, Empty(clock), steps);
    var w := Run(cfg, Empty(clock), steps);
    if step.PointRef? && step.repo in w.flights {
      assert FlightOk(w, step.repo);
    }
    assert key.repo in w.flights ==> FlightOk(w, key.repo);
  }

  /** Taking a snapshot again at the same commit succeeds and changes no ref and no archive,
      even if Git refuses to create the ref; taking it at another commit is refused. */
  lemma RetryIsIdempotent(cfg: Config, w: World, s: Slot, size: nat, succeeds: bool, other: Id)
    requires Inv(cfg, w) && Stands(w, s) && RepoFree(w, s.key.repo) && w.quotaLock.Nobody? && other != s.commit
    ensures var repo := s.key.repo;
            var measured := MeasureStep(BeginStep(w, s), repo, w.archives[s].digest, size);
            var w' := PointRefStep(cfg, measured, repo, succeeds);
            && repo in measured.flights && repo !in w'.flights
            && w' == w.(touched := w'.touched, until := w'.until) && w'.touched == w.touched[s.key := w.clock]
            && BeginStep(w, Slot(s.key, other)) == w
  {
  }

  ghost predicate Stands(w: World, s: Slot) {
    s.key in w.refs && w.refs[s.key] == s.commit && s in w.archives
  }

  /** A receipt for `s` is written in `then`, and whatever happens next leads to `end`. */
  ghost predicate Outcome(cfg: Config, s: Slot, mid: World, end: World) {
    Reaches(cfg, RecordStep(mid, s), end)
  }

  /** A receipt for `s` written at instant `t`, however `w` goes on until then, keeps ref and
      archive however it goes on after that. */
  ghost predicate Durable(cfg: Config, w: World, s: Slot, t: int) {
    forall mid, end {:trigger Outcome(cfg, s, mid, end)} ::
      Reaches(cfg, w, mid) && mid.clock == t && Outcome(cfg, s, mid, end) ==> Stands(end, s)
  }

  /** A snapshot call of slot `s` is about to succeed in `w`. */
  ghost predicate AboutToPin(w: World, s: Slot, succeeds: bool) {
    && s.key.repo in w.flights && w.flights[s.key.repo].slot == s && w.flights[s.key.repo].phase.Exported?
    && (s.key in w.refs || succeeds)
  }

  /** When the receipt of a snapshot makes it durable: exactly when no pass that is running
      has condemned the ref, and the receipt is written less than the grace period after the
      snapshot call last wrote to its directory. */
  lemma DurableIff(cfg: Config, clock: int, steps: seq<Step>, s: Slot, succeeds: bool, t: int)
    requires cfg.grace >= 0
    requires var w0 := Run(cfg, Empty(clock), steps);
             AboutToPin(w0, s, succeeds) && !Named(w0.receipts, s.key) && w0.clock <= t
    ensures var w0 := Run(cfg, Empty(clock), steps);
            var w := Next(cfg, w0, PointRef(s.key.repo, succeeds));
            && Stands(w, s) && s.key in w.touched
            && (Durable(cfg, w, s, t) <==> !Condemned(w, s) && t < w.touched[s.key] + cfg.grace)
  {
    EmptyIsFine(cfg, clock);
    RunKeeps(cfg, Empty(clock), steps);
    DurableFrom(cfg, Run(cfg, Empty(clock), steps), s, succeeds, t);
  }

  lemma DurableFrom(cfg: Config, w0: World, s: Slot, succeeds: bool, t: int)
    requires Inv(cfg, w0) && cfg.grace >= 0
    requires AboutToPin(w0, s, succeeds) && !Named(w0.receipts, s.key) && w0.clock <= t
    ensures var w := PointRefStep(cfg, w0, s.key.repo, succeeds);
            && Stands(w, s) && s.key in w.touched
            && (Durable(cfg, w, s, t) <==> !Condemned(w, s) && t < w.touched[s.key] + cfg.grace)
  {
    var w := PointRefStep(cfg, w0, s.key.repo, succeeds);
    assert FlightOk(w0, s.key.repo);
    PointRefStore(cfg, w0, s.key.repo, succeeds);
    PointRefFresh(cfg, w0, s.key.repo, succeeds);
    if !Condemned(w, s) && t < w.touched[s.key] + cfg.grace {
      forall mid, end | Reaches(cfg, w, mid) && mid.clock == t && Outcome(cfg, s, mid, end) ensures Stands(end, s) {
        ReceiptLasts(cfg, w, s, mid, end);
      }
    } else {
      var lost := Loss(cfg, w, s, t);
      ReachSelf(cfg, RecordStep(lost, s));
      assert Outcome(cfg, s, lost, RecordStep(lost, s));
    }
  }

  /** A receipt written under grace keeps ref and archive through everything that follows. */
  lemma ReceiptLasts(cfg: Config, w: World, s: Slot, mid: World, end: World)
    requires Inv(cfg, w) && s in w.until && Reaches(cfg, w, mid) && mid.clock < w.until[s]
    requires Outcome(cfg, s, mid, end)
    ensures Stands(end, s)
  {
    var middle :| Run(cfg, w, middle) == mid;
    RunKeeps(cfg, w, middle);
    RunAdds(cfg, w, middle, s);
    RecordKeeps(cfg, mid, s);
    var recorded := RecordStep(mid, s);
    var after :| Run(cfg, recorded, after) == end;
    RunKeeps(cfg, recorded, after);
    RunAdds(cfg, recorded, after, s);
    assert FreshOk(end, s);
  }

  /** Free the quota lock: its holder lets go or dies. */
  lemma FreeQuotaLock(cfg: Config, w: World) returns (w': World)
    requires Inv(cfg, w)
    ensures Reaches(cfg, w, w') && w'.quotaLock.Nobody? && (w'.pass.Some? ==> w'.pass.value.locked.None?)
    ensures w' == w.(quotaLock := w'.quotaLock, flights := w'.flights, pass := w'.pass)
    ensures w'.flights.Keys <= w.flights.Keys
    ensures if w.pass.Some? then w'.pass == Some(w.pass.value.(locked := None)) else w'.pass.None?
  {
    match w.quotaLock
    case Nobody =>
      ReachSelf(cfg, w);
      w' := w;
    case Snapshot(repo) =>
      ReachDie(cfg, w, repo);
      w' := Landed(w, repo);
    case Collector =>
      ReachUnlockRepo(cfg, w);
      w' := UnlockRepoStep(w);
  }

  /** With the lock free, a pass that has condemned the ref removes it. */
  lemma RemovedIsGone(w: World, s: Slot)
    requires w.quotaLock.Nobody? && w.pass.Some? && w.pass.value.locked.None? && s.key.repo !in w.flights
    requires Condemned(w, s) && s.key in w.refs && w.refs[s.key] == s.commit && !Named(w.receipts, s.key)
    ensures var w' := DeleteRefStep(LockRepoStep(w, s.key.repo), s);
            s.key !in w'.refs && w'.clock == w.clock
  {
  }

  lemma RemoveCondemned(cfg: Config, w: World, s: Slot) returns (w': World)
    requires w.quotaLock.Nobody? && w.pass.Some? && w.pass.value.locked.None? && s.key.repo !in w.flights
    requires Condemned(w, s) && s.key in w.refs && w.refs[s.key] == s.commit && !Named(w.receipts, s.key)
    ensures Reaches(cfg, w, w') && s.key !in w'.refs && w'.clock == w.clock
  {
    RemovedIsGone(w, s);
    w' := ReachLockedDelete(cfg, w, s);
  }

  lemma ReachLockedDelete(cfg: Config, w: World, s: Slot) returns (w': World)
    ensures w' == DeleteRefStep(LockRepoStep(w, s.key.repo), s) && Reaches(cfg, w, w')
  {
    var locked := LockRepoStep(w, s.key.repo);
    w' := DeleteRefStep(locked, s);
    ReachLockRepo(cfg, w, s.key.repo);
    ReachDeleteRef(cfg, locked, s);
    ReachTrans(cfg, w, locked, w');
  }

  /** Once grace is over, a new pass may start and condemn the ref. */
  lemma Condemn(cfg: Config, w: World, s: Slot) returns (w': World)
    requires w.quotaLock.Nobody? && (w.pass.Some? ==> w.pass.value.locked.None?)
    requires s.key in w.refs && w.refs[s.key] == s.commit && !Named(w.receipts, s.key)
    requires s.key in w.touched && w.touched[s.key] + cfg.grace <= w.clock
    ensures Reaches(cfg, w, w') && w' == w.(pass := w'.pass)
    ensures w'.pass.Some? && w'.pass.value.locked.None? && Condemned(w', s)
  {
    var ended := EndPassStep(w);
    var started := StartPassStep(cfg, ended, w.clock);
    w' := ScanRefStep(started, s.key);
    ReachEndPass(cfg, w);
    ReachStartPass(cfg, ended, w.clock);
    ReachScanRef(cfg, started, s.key);
    ReachTrans(cfg, w, ended, started);
    ReachTrans(cfg, w, started, w');
  }

  /** Otherwise some continuation loses the ref before the receipt is written at `t`. */
  lemma Loss(cfg: Config, w: World, s: Slot, t: int) returns (lost: World)
    requires Inv(cfg, w) && s.key.repo !in w.flights && w.clock <= t
    requires s.key in w.refs && w.refs[s.key] == s.commit && !Named(w.receipts, s.key) && s.key in w.touched
    requires Condemned(w, s) || w.touched[s.key] + cfg.grace <= t
    ensures Reaches(cfg, w, lost) && lost.clock == t && s.key !in lost.refs
  {
    var late := w.(clock := w.clock + (t - w.clock));
    ReachTick(cfg, w, t - w.clock);
    TickKeeps(cfg, w, t - w.clock);
    var free := FreeQuotaLock(cfg, late);
    ReachTrans(cfg, w, late, free);
    var condemned := free;
    if !Condemned(w, s) {
      condemned := Condemn(cfg, free, s);
      ReachTrans(cfg, w, free, condemned);
    }
    lost := RemoveCondemned(cfg, condemned, s);
    ReachTrans(cfg, w, condemned, lost);
  }
}
