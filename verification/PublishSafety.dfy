/** Interrupted publishes and the freshness probe (tools/repo_index.py, _publish, freshness). */
module PublishSafety {
  import opened Wrappers
  import opened RepoTree
  import opened RepoGraph
  import opened RepoIndex
  import opened ChangeDetection
  import opened Refresh

  datatype Status = READY | STALE | REBUILD_REQUIRED | INVALID

  /** `freshness`: a read-only probe of the stored files against the disk. */
  function Freshness(t: Tools, store: Store, disk: Disk): Status {
    if store.state.None? || store.manifest.None? || store.lookup.NoLookup? || store.graph.None? then INVALID
    else
      var g, state := store.graph.value, store.state.value;
      var candidates := Probe(t, store, disk);
      if g.header.inputsHash != state.inputsHash then REBUILD_REQUIRED
      else if t.w.roots(disk.Keys) != ExpectedRoots(ModulesOf(g)) then REBUILD_REQUIRED
      else if candidates * t.w.canonicalPaths != {} then REBUILD_REQUIRED
      else if candidates != {} then STALE
      else if store.lookup.Corrupt? then INVALID
      else if t.digest(g) != state.graphSha then INVALID
      else READY
  }

  /** The stored files after the first `k` replaces of a publish from `a` to `b`. */
  function Cut(a: Store, b: Store, k: nat): Store {
    Store(if k >= 1 then b.lookup else a.lookup,
          if k >= 2 then b.graph else a.graph,
          if k >= 3 then b.manifest else a.manifest,
          if k >= 4 then b.filemeta else a.filemeta,
          if k >= 5 then b.state else a.state)
  }

  lemma CleanManifest(hash: Hash, paths: set<Path>, disk: Disk)
    ensures Candidates(BuildManifest(hash, paths, disk), paths, disk) == {}
  {
  }

  // ---- What the probe answers ----

  /** A file appeared, vanished, or has another size or time stamp. */
  predicate Differs(last: Disk, disk: Disk, p: Path) {
    || (p in last && p !in disk)
    || (p !in last && p in disk)
    || (p in last && p in disk && (last[p].size != disk[p].size || last[p].mtime != disk[p].mtime))
  }

  ghost predicate DocumentsDiffer(w: World, last: Disk, disk: Disk) {
    exists p :: p in w.canonicalPaths && Differs(last, disk, p)
  }

  /** Some other file that the index covers differs. */
  ghost predicate SourcesDiffer(w: World, modules: seq<ModuleId>, last: Disk, disk: Disk) {
    exists p ::
      && p !in w.canonicalPaths && Indexable(w, p) && OwningModule(p, modules).Some?
      && Differs(last, disk, p)
  }

  lemma CandidateDiffers(t: Tools, modules: seq<ModuleId>, last: Disk, disk: Disk, p: Path)
    ensures p in Candidates(ManifestAt(t, modules, last), ManifestPaths(t.w, modules, disk), disk) <==>
              && (p in t.w.canonicalPaths || (Indexable(t.w, p) && OwningModule(p, modules).Some?))
              && Differs(last, disk, p)
  {
  }

  lemma CandidatesDiffer(t: Tools, modules: seq<ModuleId>, last: Disk, disk: Disk)
    ensures var candidates := Candidates(ManifestAt(t, modules, last), ManifestPaths(t.w, modules, disk), disk);
            && (candidates * t.w.canonicalPaths != {} <==> DocumentsDiffer(t.w, last, disk))
            && (candidates != {} <==> DocumentsDiffer(t.w, last, disk) || SourcesDiffer(t.w, modules, last, disk))
  {
    var candidates := Candidates(ManifestAt(t, modules, last), ManifestPaths(t.w, modules, disk), disk);
    forall p ensures p in candidates <==>
                       && (p in t.w.canonicalPaths || (Indexable(t.w, p) && OwningModule(p, modules).Some?))
                       && Differs(last, disk, p)
    {
      CandidateDiffers(t, modules, last, disk, p);
    }
    if DocumentsDiffer(t.w, last, disk) {
      var p :| p in t.w.canonicalPaths && Differs(last, disk, p);
      assert p in candidates * t.w.canonicalPaths;
    }
    if SourcesDiffer(t.w, modules, last, disk) {
      var p :|
        && p !in t.w.canonicalPaths && Indexable(t.w, p) && OwningModule(p, modules).Some?
        && Differs(last, disk, p);
      assert p in candidates;
    }
  }

  /** A store that attests its own graph, and the manifest of an earlier disk. */
  ghost predicate Attests(t: Tools, store: Store, modules: seq<ModuleId>, last: Disk) {
    && Probed(store) && ModulesOf(store.graph.value) == modules
    && store.manifest.value == ManifestAt(t, modules, last) && store.state.value == StateFor(t, store.graph.value)
  }

  lemma AttestedFreshness(t: Tools, store: Store, modules: seq<ModuleId>, last: Disk, disk: Disk)
    requires Attests(t, store, modules, last)
    ensures var rebuild := t.w.roots(disk.Keys) != ExpectedRoots(modules) || DocumentsDiffer(t.w, last, disk);
            var stale := SourcesDiffer(t.w, modules, last, disk);
            var answer := Freshness(t, store, disk);
            && (answer == REBUILD_REQUIRED <==> rebuild)
            && (answer == STALE <==> !rebuild && stale)
            && (answer == INVALID <==> !rebuild && !stale && store.lookup.Corrupt?)
            && (answer == READY <==> !rebuild && !stale && !store.lookup.Corrupt?)
  {
    CandidatesDiffer(t, modules, last, disk);
  }

  lemma StoredAttests(t: Tools, store: Store, last: Disk)
    requires ToolsOk(t) && Stored(t, store, last) && !store.lookup.NoLookup?
    ensures Attests(t, store, CanonAt(t.w, last).modules, last)
  {
    StoredModules(t, store, last);
  }

  /** The answer about a stored index and any later disk: a rebuild exactly if the roots moved or
      a canonical document differs; else stale exactly if another covered file differs; else
      invalid exactly if the payload cannot be read; else ready. */
  lemma FreshnessExactly(t: Tools, store: Store, last: Disk, disk: Disk)
    requires ToolsOk(t) && Stored(t, store, last) && !store.lookup.NoLookup?
    ensures var modules := CanonAt(t.w, last).modules;
            var rebuild := t.w.roots(disk.Keys) != ExpectedRoots(modules) || DocumentsDiffer(t.w, last, disk);
            var stale := SourcesDiffer(t.w, modules, last, disk);
            var answer := Freshness(t, store, disk);
            && (answer == REBUILD_REQUIRED <==> rebuild)
            && (answer == STALE <==> !rebuild && stale)
            && (answer == INVALID <==> !rebuild && !stale && store.lookup.Corrupt?)
            && (answer == READY <==> !rebuild && !stale && !store.lookup.Corrupt?)
  {
    StoredAttests(t, store, last);
    AttestedFreshness(t, store, CanonAt(t.w, last).modules, last, disk);
  }

  /** A stored index in which a file is missing, or the state no longer attests the graph, never
      reads READY: a missing file and another graph are INVALID, another inputs hash asks for a
      rebuild. */
  lemma DamageIsSeen(t: Tools, store: Store, disk: Disk)
    ensures store.state.None? || store.manifest.None? || store.lookup.NoLookup? || store.graph.None? ==>
              Freshness(t, store, disk) == INVALID
    ensures Probed(store) && store.graph.value.header.inputsHash != store.state.value.inputsHash ==>
              Freshness(t, store, disk) == REBUILD_REQUIRED
    ensures Probed(store) && store.graph.value.header.inputsHash == store.state.value.inputsHash
            && t.w.roots(disk.Keys) == ExpectedRoots(ModulesOf(store.graph.value)) && Probe(t, store, disk) == {}
            && t.digest(store.graph.value) != store.state.value.graphSha ==>
              Freshness(t, store, disk) == INVALID
  {
    if Probed(store) {
      assert Probe(t, store, disk) == {} ==> Probe(t, store, disk) * t.w.canonicalPaths == {};
    }
  }

  /** A completed publish leaves an index that reads READY. */
  lemma PublishedIsReady(t: Tools, store: Store, disk: Disk)
    requires ToolsOk(t) && Stored(t, store, disk) && store.lookup.Warm?
    requires t.w.roots(disk.Keys) == ExpectedRoots(CanonAt(t.w, disk).modules)
    ensures Freshness(t, store, disk) == READY
  {
    StoredModules(t, store, disk);
    CleanManifest(t.hash, ManifestPaths(t.w, CanonAt(t.w, disk).modules, disk), disk);
    var candidates := Probe(t, store, disk);
    assert candidates == {} && candidates * t.w.canonicalPaths == {};
  }

  /** What READY says about the parts of the store. */
  lemma ReadyMeans(t: Tools, store: Store, disk: Disk)
    requires Freshness(t, store, disk) == READY && HasIndex(store)
    ensures store.lookup.Warm? && Probe(t, store, disk) == {}
    ensures t.w.roots(disk.Keys) == ExpectedRoots(ModulesOf(store.graph.value))
    ensures t.digest(store.graph.value) == store.state.value.graphSha
  {
  }

  /** A stored index that reads READY for a disk is the full rebuild of that disk. */
  lemma ReadyIsStored(t: Tools, store: Store, last: Disk, disk: Disk)
    requires ToolsOk(t) && HasIndex(store) && Stored(t, store, last) && Trusted(t, last, disk)
    requires Freshness(t, store, disk) == READY
    ensures Stored(t, store, disk)
  {
    ReadyMeans(t, store, disk);
    ProbeIsRight(t, store, last, disk);
    NothingRestamped(t.hash, store.manifest.value, disk);
    UnchangedIsStored(t, store, last, disk);
    assert store.(manifest := store.manifest) == store;
  }

  lemma CutServes(a: Store, b: Store, k: nat)
    ensures Cut(a, b, 0) == a
    ensures k >= 1 ==> Cut(a, b, k).lookup == b.lookup
  {
  }

  /** The files that the probe looks at are all there; the file cache is not one of them. */
  predicate Probed(store: Store) {
    store.state.Some? && store.manifest.Some? && !store.lookup.NoLookup? && store.graph.Some?
  }

  /** The store with the file cache of a full rebuild. */
  function WithCache(t: Tools, store: Store, last: Disk): Store {
    store.(filemeta := Some(BuildFileMeta(t.w, CanonAt(t.w, last).modules, Texts(last))))
  }

  /** What the probe may call READY is stored, as far as it looks. */
  ghost predicate Served(t: Tools, store: Store, last: Disk) {
    Probed(store) ==> Stored(t, WithCache(t, store, last), last)
  }

  lemma StoredIsServed(t: Tools, store: Store, last: Disk)
    requires Stored(t, store, last)
    ensures Served(t, store, last)
  {
    FullCacheDescribes(t.w, CanonAt(t.w, last).modules, Texts(last));
  }

  lemma ReadyIsProbed(t: Tools, store: Store, last: Disk, disk: Disk)
    requires Freshness(t, store, disk) == READY
    ensures Probed(store) && Freshness(t, WithCache(t, store, last), disk) == READY
  {
  }

  /** What reads READY serves the full rebuild of the disk, with or without a file cache. */
  lemma ReadyServes(t: Tools, store: Store, last: Disk, disk: Disk)
    requires ToolsOk(t) && Served(t, store, last) && Trusted(t, last, disk)
    requires Freshness(t, store, disk) == READY
    ensures store.lookup == Warm(Build(t.w, CanonAt(t.w, disk), Texts(disk)))
  {
    ReadyIsProbed(t, store, last, disk);
    var full := WithCache(t, store, last);
    ReadyMeans(t, full, disk);
    ReadyIsStored(t, full, last, disk);
  }

  /** A publish that stops after any number of its replaces is safe while the tree is still:
      whatever reads READY then serves the full rebuild of the tree. This holds for a first
      publish, where nothing is stored, as for any other; the disk need only be trusted where
      the refresh builds on the stored index, or where no replace happened. */
  lemma InterruptedPublishIsSafe(t: Tools, store: Store, last: Disk, disk: Disk, full: bool, k: nat)
    requires ToolsOk(t) && Index(t, store, last) && (!HasIndex(store) ==> Served(t, store, last))
    requires Relies(t, store, disk, full) || (k == 0 && Probed(store)) ==> Trusted(t, last, disk)
    requires Refreshed(t, store, disk, full).1 == Published
    requires Freshness(t, Cut(store, Refreshed(t, store, disk, full).0, k), disk) == READY
    ensures Cut(store, Refreshed(t, store, disk, full).0, k).lookup
            == Warm(Build(t.w, CanonAt(t.w, disk), Texts(disk)))
  {
    var store' := Refreshed(t, store, disk, full).0;
    RefreshKeepsIndex(t, store, last, disk, full);
    CutServes(store, store', k);
    if k == 0 {
      if HasIndex(store) { StoredIsServed(t, store, last); }
      ReadyIsProbed(t, store, last, disk);
      ReadyServes(t, store, last, disk);
    }
  }

  const EMPTY := Store(NoLookup, None, None, None, None)

  /** A first publish that stops early never reads READY: the state file comes last. */
  lemma FirstPublishIsInvalidUntilDone(t: Tools, disk: Disk, b: Store, k: nat)
    requires k < 5
    ensures Freshness(t, Cut(EMPTY, b, k), disk) == INVALID
    ensures forall last :: Index(t, EMPTY, last) && Served(t, EMPTY, last)
  {
  }

  // ---- Serving ----

  /** `_load_lookup`: the warm payload, if it can be read. */
  function Payload(store: Store): Option<Graph> {
    if store.lookup.Warm? then Some(store.lookup.graph) else None
  }

  /** `ensure_fresh`: the stored files it leaves, and the graph it serves. It fails when the
      refresh is rejected, or leaves no readable payload. */
  ghost function EnsureFresh(t: Tools, store: Store, disk: Disk): (Store, Option<Graph>) {
    if Freshness(t, store, disk) == READY && Payload(store).Some? then (store, Payload(store))
    else
      var (store', outcome) := Refreshed(t, store, disk, false);
      (store', if outcome == Invalid then None else Payload(store'))
  }

  /** What is on disk is an index, or lacks a file that the probe looks at. */
  ghost predicate Servable(t: Tools, store: Store, last: Disk) {
    Index(t, store, last) && (!HasIndex(store) ==> Served(t, store, last))
  }

  /** Whatever is served is the full rebuild of the disk, on the READY path and after a refresh. */
  lemma ServedIsRebuilt(t: Tools, store: Store, last: Disk, disk: Disk)
    requires ToolsOk(t) && Servable(t, store, last)
    requires Relies(t, store, disk, false) || Freshness(t, store, disk) == READY ==> Trusted(t, last, disk)
    ensures var (store', served) := EnsureFresh(t, store, disk);
            served.Some? ==> served.value == Build(t.w, CanonAt(t.w, disk), Texts(disk))
  {
    if Freshness(t, store, disk) == READY && Payload(store).Some? {
      if HasIndex(store) { StoredIsServed(t, store, last); }
      ReadyServes(t, store, last, disk);
    } else {
      RefreshKeepsIndex(t, store, last, disk, false);
    }
  }

  lemma PublishCompletes(t: Tools, store: Store, disk: Disk, g: Graph, m: Manifest, fm: FileMeta, unique: bool)
    ensures Settles(Publish(t, store, disk, g, m, fm, unique))
  {
  }

  /** Published with a warm payload, or rejected. */
  ghost predicate Settles(after: (Store, Outcome)) {
    if after.1 == Published then after.0.lookup.Warm? else after.1 == Invalid
  }

  lemma RebuildCompletes(t: Tools, store: Store, disk: Disk)
    ensures Settles(FullRefresh(t, store, disk))
  {
    var c := CanonAt(t.w, disk);
    PublishCompletes(t, store, disk, Build(t.w, c, Texts(disk)), ManifestAt(t, c.modules, disk),
                     BuildFileMeta(t.w, c.modules, Texts(disk)), NamesUnique(t.w, c.modules, Texts(disk)));
  }

  lemma PatchCompletes(t: Tools, store: Store, disk: Disk, changed: set<Path>, restamped: Manifest)
    requires HasIndex(store)
    ensures Settles(PatchOrRebuild(t, store, disk, changed, restamped))
  {
    var g, fm, tree := store.graph.value, store.filemeta.value, Texts(disk);
    var modules := ModulesOf(g);
    if NeedsFull(t.w, modules, changed, tree) {
      RebuildCompletes(t, store, disk);
    } else {
      PublishCompletes(t, store, disk, Patch(t.w, CanonAt(t.w, disk).policy, g, fm, changed, tree), restamped,
                       PatchFileMeta(t.w, modules, fm, changed, Touched(changed, tree), tree), NamesUnique(t.w, modules, tree));
    }
  }

  /** How an incremental refresh may end. */
  ghost predicate Completes(store: Store, store': Store, outcome: Outcome) {
    match outcome
    case NoOp => store' == store && store.lookup.Warm?
    case StatOnly => store'.manifest.Some? && store' == store.(manifest := store'.manifest)
    case Published => store'.lookup.Warm?
    case Invalid => true
  }

  lemma SettledCompletes(store: Store, after: (Store, Outcome))
    requires Settles(after)
    ensures Completes(store, after.0, after.1)
  {
  }

  lemma ConfirmedCompletes(t: Tools, store: Store, disk: Disk, changed: set<Path>, restamped: Manifest)
    requires HasIndex(store)
    ensures var (store', outcome) := FromConfirmed(t, store, disk, changed, restamped); Completes(store, store', outcome)
  {
    if changed != {} {
      PatchCompletes(t, store, disk, changed, restamped);
      SettledCompletes(store, PatchOrRebuild(t, store, disk, changed, restamped));
    }
  }

  lemma CandidatesComplete(t: Tools, store: Store, disk: Disk, m: Manifest, candidates: set<Path>)
    requires HasIndex(store)
    ensures var (store', outcome) := FromCandidates(t, store, disk, m, candidates); Completes(store, store', outcome)
  {
    if candidates == {} {
      RebuildCompletes(t, store, disk);
      SettledCompletes(store, FullRefresh(t, store, disk));
    } else {
      ConfirmedCompletes(t, store, disk, Confirmed(t.hash, m, candidates, disk), Restamped(t.hash, m, candidates, disk));
    }
  }

  lemma RefreshCompletes(t: Tools, store: Store, disk: Disk)
    ensures var (store', outcome) := Refreshed(t, store, disk, false); Completes(store, store', outcome)
  {
    RebuildCompletes(t, store, disk);
    if Relies(t, store, disk, false) {
      CandidatesComplete(t, store, disk, store.manifest.value, Probe(t, store, disk));
    }
  }

  /** Nothing is served exactly if the refresh is rejected, or only stats have moved and the
      payload cannot be read: the stat-only path does not look at it. */
  lemma ServesExactly(t: Tools, store: Store, disk: Disk)
    ensures EnsureFresh(t, store, disk).1.None? <==>
            && Freshness(t, store, disk) != READY
            && var outcome := Refreshed(t, store, disk, false).1;
               outcome == Invalid || (outcome == StatOnly && !store.lookup.Warm?)
  {
    RefreshCompletes(t, store, disk);
    if Freshness(t, store, disk) == READY {
      ReadyIsWarm(t, store, disk);
    }
  }

  lemma ReadyIsWarm(t: Tools, store: Store, disk: Disk)
    requires Freshness(t, store, disk) == READY
    ensures store.lookup.Warm?
  {
  }

  /** Where only stats have moved and the payload cannot be read, nothing is served. */
  lemma StatOnlyOverCorrupt(t: Tools, store: Store, disk: Disk)
    requires HasIndex(store) && store.lookup.Corrupt? && t.w.roots(disk.Keys) == ExpectedRoots(ModulesOf(store.graph.value))
    requires Probe(t, store, disk) != {} && Confirmed(t.hash, store.manifest.value, Probe(t, store, disk), disk) == {}
    ensures Refreshed(t, store, disk, false).1 == StatOnly && EnsureFresh(t, store, disk).1.None?
  {
    ServesExactly(t, store, disk);
    if Freshness(t, store, disk) == READY {
      ReadyIsWarm(t, store, disk);
      assert false;
    }
  }

  /** A stored index of this very disk with an unreadable payload is rebuilt. */
  lemma CorruptPayloadIsRebuilt(t: Tools, store: Store, disk: Disk)
    requires ToolsOk(t) && HasIndex(store) && Stored(t, store, disk) && store.lookup.Corrupt?
    requires t.w.roots(disk.Keys) == ExpectedRoots(CanonAt(t.w, disk).modules)
    ensures Freshness(t, store, disk) != READY
    ensures Refreshed(t, store, disk, false) == FullRefresh(t, store, disk)
  {
    StoredModules(t, store, disk);
    CleanManifest(t.hash, ManifestPaths(t.w, CanonAt(t.w, disk).modules, disk), disk);
    assert Probe(t, store, disk) == {};
    if Freshness(t, store, disk) == READY {
      ReadyIsWarm(t, store, disk);
      assert false;
    }
  }

  /** The call after a stat-only refresh that could serve nothing finds no change and an
      unreadable payload, and rebuilds: it serves exactly if the rebuild is accepted. */
  lemma NextCallHeals(t: Tools, store: Store, last: Disk, disk: Disk)
    requires ToolsOk(t) && HasIndex(store) && Stored(t, store, last) && Trusted(t, last, disk)
    requires t.w.roots(disk.Keys) == ExpectedRoots(ModulesOf(store.graph.value))
    requires Refreshed(t, store, disk, false).1 == StatOnly && store.lookup.Corrupt?
    ensures var store' := Refreshed(t, store, disk, false).0;
            EnsureFresh(t, store', disk).1.Some? <==> FullRefresh(t, store', disk).1 == Published
  {
    var store' := Refreshed(t, store, disk, false).0;
    RefreshKeepsIndex(t, store, last, disk, false);
    RefreshCompletes(t, store, disk);
    StoredModules(t, store', disk);
    CorruptPayloadIsRebuilt(t, store', disk);
    RebuildCompletes(t, store', disk);
  }

  /** Over any run: whatever is served after it is the full rebuild of the disk as it is then. */
  lemma {:induction false} RunsServeTheRebuild(t: Tools, s: Workspace, events: seq<Event>)
    requires ToolsOk(t) && Servable(t, s.store, s.last) && RunTrusted(t, s, events)
    requires var e := Run(t, s, events);
             Relies(t, e.store, e.disk, false) || Freshness(t, e.store, e.disk) == READY ==> Trusted(t, e.last, e.disk)
    ensures var e := Run(t, s, events);
            var served := EnsureFresh(t, e.store, e.disk).1;
            served.Some? ==> served.value == Build(t.w, CanonAt(t.w, e.disk), Texts(e.disk))
    decreases |events|
  {
    if events == [] {
      ServedIsRebuilt(t, s.store, s.last, s.disk);
    } else {
      if events[0].Refresh? {
        RefreshKeepsIndex(t, s.store, s.last, s.disk, events[0].full);
      }
      RunsServeTheRebuild(t, After(t, s, events[0]), events[1..]);
    }
  }
}
