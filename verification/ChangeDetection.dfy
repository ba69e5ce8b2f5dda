/** Two-phase change detection (tools/repo_index.py, _fast_changed, _confirm_changed,
    _build_manifest): a stat probe picks candidates, hashing confirms them. */
module ChangeDetection {
  import opened RepoTree

  datatype File = File(text: string, size: nat, mtime: int)
  type Disk = map<Path, File>

  datatype Entry = Entry(sha: string, size: nat, mtime: int)
  type Manifest = map<Path, Entry>

  type Hash = string -> string

  ghost predicate Injective(hash: Hash) {
    forall a, b | hash(a) == hash(b) :: a == b
  }

  function EntryFor(hash: Hash, f: File): Entry {
    Entry(hash(f.text), f.size, f.mtime)
  }

  /** What a full hashing pass writes. */
  function BuildManifest(hash: Hash, paths: set<Path>, disk: Disk): Manifest {
    map p | p in paths && p in disk :: EntryFor(hash, disk[p])
  }

  predicate StatDirty(m: Manifest, disk: Disk, p: Path) {
    if p in disk
    then p !in m || m[p].size != disk[p].size || m[p].mtime != disk[p].mtime
    else p in m
  }

  function Candidates(m: Manifest, paths: set<Path>, disk: Disk): set<Path> {
    (set p | p in paths && StatDirty(m, disk, p)) + (m.Keys - paths)
  }

  predicate ContentDirty(hash: Hash, m: Manifest, disk: Disk, p: Path) {
    if p in disk then p !in m || m[p].sha != hash(disk[p].text) else p in m
  }

  function Confirmed(hash: Hash, m: Manifest, candidates: set<Path>, disk: Disk): set<Path> {
    set p | p in candidates && ContentDirty(hash, m, disk, p)
  }

  function Restamped(hash: Hash, m: Manifest, candidates: set<Path>, disk: Disk): Manifest {
    (map p | p in m && p !in candidates :: m[p])
    + (map p | p in candidates && p in disk :: EntryFor(hash, disk[p]))
  }

  /** `_fast_changed` */
  method FastChanged(m: Manifest, paths: set<Path>, disk: Disk) returns (changed: set<Path>)
    ensures changed == Candidates(m, paths, disk)
  {
    changed := {};
    var rest := paths;
    while rest != {}
      invariant rest <= paths
      invariant changed == set p | p in paths - rest && StatDirty(m, disk, p)
      decreases rest
    {
      var p :| p in rest;
      if p !in disk {
        if p in m {
          changed := changed + {p};
        }
      } else if p !in m || m[p].size != disk[p].size || m[p].mtime != disk[p].mtime {
        changed := changed + {p};
      }
      rest := rest - {p};
    }
    changed := changed + (m.Keys - paths);
  }

  /** One candidate: drop a vanished file, restamp a present one. */
  method ConfirmOne(hash: Hash, m: Manifest, disk: Disk, p: Path) returns (dirty: bool, refreshed: Manifest)
    ensures dirty == ContentDirty(hash, m, disk, p)
    ensures refreshed == if p in disk then m[p := EntryFor(hash, disk[p])] else m - {p}
  {
    dirty, refreshed := false, m;
    if p !in disk {
      if p in refreshed {
        refreshed := refreshed - {p};
        dirty := true;
      }
    } else {
      var sha := hash(disk[p].text);
      dirty := p !in refreshed || refreshed[p].sha != sha;
      refreshed := refreshed[p := Entry(sha, disk[p].size, disk[p].mtime)];
    }
  }

  /** `_confirm_changed` */
  method ConfirmChanged(hash: Hash, m: Manifest, candidates: set<Path>, disk: Disk)
    returns (changed: set<Path>, refreshed: Manifest)
    ensures changed == Confirmed(hash, m, candidates, disk)
    ensures refreshed == Restamped(hash, m, candidates, disk)
  {
    changed, refreshed := {}, m;
    var rest := candidates;
    ghost var done: set<Path> := {};
    while rest != {}
      invariant done + rest == candidates && done !! rest
      invariant changed == Confirmed(hash, m, done, disk)
      invariant refreshed == Restamped(hash, m, done, disk)
      decreases rest
    {
      var p :| p in rest;
      OneMoreCandidate(hash, m, done, disk, p);
      OneMoreConfirmed(hash, m, done, disk, p);
      var dirty, refreshed' := ConfirmOne(hash, refreshed, disk, p);
      changed, refreshed := if dirty then changed + {p} else changed, refreshed';
      rest, done := rest - {p}, done + {p};
    }
    assert done == candidates;
  }

  lemma OneMoreCandidate(hash: Hash, m: Manifest, done: set<Path>, disk: Disk, p: Path)
    requires p !in done
    ensures var before := Restamped(hash, m, done, disk);
            Restamped(hash, m, done + {p}, disk)
            == if p in disk then before[p := EntryFor(hash, disk[p])] else before - {p}
  {
    var before, after := Restamped(hash, m, done, disk), Restamped(hash, m, done + {p}, disk);
    var want := if p in disk then before[p := EntryFor(hash, disk[p])] else before - {p};
    forall q ensures (q in after <==> q in want) && (q in want ==> after[q] == want[q]) {
      RestampedAt(hash, m, done, disk, q);
      RestampedAt(hash, m, done + {p}, disk, q);
    }
  }

  lemma OneMoreConfirmed(hash: Hash, m: Manifest, done: set<Path>, disk: Disk, p: Path)
    requires p !in done
    ensures var dirty := ContentDirty(hash, Restamped(hash, m, done, disk), disk, p);
            Confirmed(hash, m, done + {p}, disk)
            == if dirty then Confirmed(hash, m, done, disk) + {p} else Confirmed(hash, m, done, disk)
  {
    RestampedAt(hash, m, done, disk, p);
  }

  /** The refreshed manifest, path by path. */
  lemma RestampedAt(hash: Hash, m: Manifest, done: set<Path>, disk: Disk, q: Path)
    ensures var r := Restamped(hash, m, done, disk);
            && (q in r <==> if q in done then q in disk else q in m)
            && (q in r ==> r[q] == if q in done then EntryFor(hash, disk[q]) else m[q])
  {
  }

  /** A file whose size and mtime match its manifest entry still has the hashed content. */
  ghost predicate StatsIdentify(hash: Hash, m: Manifest, disk: Disk) {
    forall p | p in m && p in disk && !StatDirty(m, disk, p) :: m[p].sha == hash(disk[p].text)
  }

  /** Paths added, deleted or modified since the manifest was written, by content alone. */
  ghost predicate Moved(hash: Hash, m: Manifest, paths: set<Path>, disk: Disk, p: Path) {
    || (p in m && p !in disk)
    || (p !in m && p in paths && p in disk)
    || (p in m && p in disk && m[p].sha != hash(disk[p].text))
  }

  /** The stat probe loses nothing: the confirmed candidates are the content changes. */
  lemma TwoPhasesFindContentChanges(hash: Hash, m: Manifest, paths: set<Path>, disk: Disk)
    requires StatsIdentify(hash, m, disk)
    ensures forall p :: p in Confirmed(hash, m, Candidates(m, paths, disk), disk) <==> Moved(hash, m, paths, disk, p)
  {
  }

  /** The refreshed manifest is that of a full hashing pass exactly when every file of the old
      manifest that is still on disk is still a manifest path. */
  lemma TwoPhasesRefreshManifest(hash: Hash, m: Manifest, paths: set<Path>, disk: Disk)
    requires StatsIdentify(hash, m, disk)
    ensures Restamped(hash, m, Candidates(m, paths, disk), disk) == BuildManifest(hash, paths, disk)
            <==> forall p | p in m && p in disk :: p in paths
  {
    var refreshed, full := Restamped(hash, m, Candidates(m, paths, disk), disk), BuildManifest(hash, paths, disk);
    forall p | p in m && p in disk ensures p in refreshed {
    }
    if forall p | p in m && p in disk :: p in paths {
      assert refreshed.Keys == full.Keys;
      forall p | p in full ensures refreshed[p] == full[p] {
        assert p !in Candidates(m, paths, disk) ==> !StatDirty(m, disk, p);
      }
    }
  }

  /** Against the manifest of an earlier disk, the detected changes are the paths whose presence
      or text differs. */
  lemma DetectedChangesAreTextChanges(
    hash: Hash, oldPaths: set<Path>, old': Disk, paths: set<Path>, disk: Disk, p: Path)
    requires Injective(hash)
    requires StatsIdentify(hash, BuildManifest(hash, oldPaths, old'), disk)
    ensures var m := BuildManifest(hash, oldPaths, old');
            p in Confirmed(hash, m, Candidates(m, paths, disk), disk)
            <==> || (p in oldPaths && p in old' && (p !in disk || disk[p].text != old'[p].text))
                 || (!(p in oldPaths && p in old') && p in paths && p in disk)
  {
    TwoPhasesFindContentChanges(hash, BuildManifest(hash, oldPaths, old'), paths, disk);
  }
}
