/** Refreshing the stored index (tools/repo_index.py, refresh, _full_rebuild, _publish), as a
    function of the stored files and the disk. */
module Refresh {
  import opened Wrappers
  import opened Ordering
  import opened RepoTree
  import opened RepoGraph
  import opened RepoIndex
  import opened ChangeDetection
  import opened PatchSetting
  import opened IncrementalIsFull

  /** Hashes and the validator checks that are not modelled, as arbitrary functions. */
  datatype Tools = Tools(w: World, hash: Hash, digest: Graph -> string, accepts: (Graph, Disk) -> bool)

  /** `lookup.pkl`: absent, unreadable, or the warm payload. */
  datatype Lookup = NoLookup | Corrupt | Warm(graph: Graph)

  datatype State = State(inputsHash: string, graphSha: string)

  /** The five stored files; a missing or unreadable one is None. */
  datatype Store = Store(
    lookup: Lookup, graph: Option<Graph>, manifest: Option<Manifest>, filemeta: Option<FileMeta>, state: Option<State>)

  datatype Outcome = NoOp | StatOnly | Published | Invalid

  function Texts(disk: Disk): Tree {
    map p | p in disk :: disk[p].text
  }

  function CanonAt(w: World, disk: Disk): Canon {
    CanonOf(w, Texts(disk))
  }

  function ManifestPaths(w: World, modules: seq<ModuleId>, disk: Disk): set<Path> {
    w.canonicalPaths + Indexed(w, modules, Texts(disk))
  }

  function ManifestAt(t: Tools, modules: seq<ModuleId>, disk: Disk): Manifest {
    BuildManifest(t.hash, ManifestPaths(t.w, modules, disk), disk)
  }

  function StateFor(t: Tools, g: Graph): State {
    State(g.header.inputsHash, t.digest(g))
  }

  /** `_publish`: everything or nothing, as far as validation goes. */
  ghost function Publish(t: Tools, store: Store, disk: Disk, g: Graph, m: Manifest, fm: FileMeta, unique: bool)
    : (Store, Outcome)
  {
    if unique && t.accepts(g, disk)
    then (Store(Warm(g), Some(g), Some(m), Some(fm), Some(StateFor(t, g))), Published)
    else (store, Invalid)
  }

  /** `_full_rebuild` and publish. */
  ghost function FullRefresh(t: Tools, store: Store, disk: Disk): (Store, Outcome) {
    var c := CanonAt(t.w, disk);
    Publish(t, store, disk, Build(t.w, c, Texts(disk)), ManifestAt(t, c.modules, disk),
            BuildFileMeta(t.w, c.modules, Texts(disk)), NamesUnique(t.w, c.modules, Texts(disk)))
  }

  predicate HasIndex(store: Store) {
    store.state.Some? && store.manifest.Some? && store.filemeta.Some? && store.graph.Some? && !store.lookup.NoLookup?
  }

  ghost function PatchOrRebuild(t: Tools, store: Store, disk: Disk, changed: set<Path>, restamped: Manifest): (Store, Outcome)
    requires HasIndex(store)
  {
    var g, fm, tree := store.graph.value, store.filemeta.value, Texts(disk);
    var modules := ModulesOf(g);
    if NeedsFull(t.w, modules, changed, tree) then FullRefresh(t, store, disk)
    else
      Publish(t, store, disk, Patch(t.w, CanonAt(t.w, disk).policy, g, fm, changed, tree), restamped,
              PatchFileMeta(t.w, modules, fm, changed, Touched(changed, tree), tree), NamesUnique(t.w, modules, tree))
  }

  /** The incremental path, once the candidates are hashed. */
  ghost function FromConfirmed(t: Tools, store: Store, disk: Disk, changed: set<Path>, restamped: Manifest): (Store, Outcome)
    requires HasIndex(store)
  {
    if changed == {} then (store.(manifest := Some(restamped)), StatOnly)
    else PatchOrRebuild(t, store, disk, changed, restamped)
  }

  /** The incremental path, once the stat probe has run. */
  ghost function FromCandidates(t: Tools, store: Store, disk: Disk, m: Manifest, candidates: set<Path>): (Store, Outcome)
    requires HasIndex(store)
  {
    if candidates == {} then
      if store.lookup.Warm? then (store, NoOp) else FullRefresh(t, store, disk)
    else
      FromConfirmed(t, store, disk, Confirmed(t.hash, m, candidates, disk), Restamped(t.hash, m, candidates, disk))
  }

  ghost function IncrementalRefresh(t: Tools, store: Store, disk: Disk): (Store, Outcome)
    requires HasIndex(store)
  {
    FromCandidates(t, store, disk, store.manifest.value, Probe(t, store, disk))
  }

  /** The stat-dirty paths of the stored index. */
  function Probe(t: Tools, store: Store, disk: Disk): set<Path>
    requires store.manifest.Some? && store.graph.Some?
  {
    Candidates(store.manifest.value, ManifestPaths(t.w, ModulesOf(store.graph.value), disk), disk)
  }

  /** Whether a refresh builds on the stored index; otherwise it rebuilds everything. */
  predicate Relies(t: Tools, store: Store, disk: Disk, full: bool) {
    !full && HasIndex(store) && t.w.roots(disk.Keys) == ExpectedRoots(ModulesOf(store.graph.value))
  }

  /** `refresh` */
  ghost function Refreshed(t: Tools, store: Store, disk: Disk, full: bool): (Store, Outcome) {
    if Relies(t, store, disk, full)
    then IncrementalRefresh(t, store, disk)
    else FullRefresh(t, store, disk)
  }

  /** The changes a refresh detects since an earlier disk. */
  ghost function DetectedBy(t: Tools, modules: seq<ModuleId>, last: Disk, disk: Disk): set<Path> {
    var m := ManifestAt(t, modules, last);
    Confirmed(t.hash, m, Candidates(m, ManifestPaths(t.w, modules, disk), disk), disk)
  }

  // ---- What the store promises ----

  /** The stored files are those of a full rebuild of the given disk. */
  ghost predicate Stored(t: Tools, store: Store, disk: Disk) {
    match t case Tools(w, _, _, _) =>
      var c, tree := CanonAt(w, disk), Texts(disk);
      && NamesUnique(w, c.modules, tree)
      && store.graph == Some(Build(w, c, tree))
      && (store.lookup.Warm? ==> store.lookup.graph == store.graph.value)
      && store.manifest == Some(ManifestAt(t, c.modules, disk))
      && store.filemeta.Some?
      && DescribesAll(w, c.modules, tree, Cached(w, c.modules, tree), store.filemeta.value)
      && store.state == Some(StateFor(t, store.graph.value))
  }

  /** Nothing stored yet, or the index of some disk. */
  ghost predicate Index(t: Tools, store: Store, last: Disk) {
    HasIndex(store) ==> Stored(t, store, last)
  }

  /** Hashes do not collide, and the canonical documents yield the discovered, sorted modules
      and findings that name no indexable file. */
  ghost predicate ToolsOk(t: Tools) {
    match t case Tools(w, hash, _, _) =>
      && Injective(hash)
      && (forall texts, modules :: w.load(texts, modules).modules == modules)
      && (forall texts, modules, n | n in w.load(texts, modules).notes :: !Indexable(w, n.ref))
      && forall files, texts :: Increasing(w.discover(files, texts))
  }

  /** What the index takes on trust between two refreshes: content changes show in size or
      mtime; with unchanged canonical documents and module roots the module list is unchanged;
      and the patch misses nothing of what changed. */
  ghost predicate Trusted(t: Tools, last: Disk, disk: Disk) {
    match t case Tools(w, hash, _, _) =>
      var c := CanonAt(w, last);
      && StatsIdentify(hash, ManifestAt(t, c.modules, last), disk)
      && ModulesStay(t, last, disk)
      && (SameCanon(t, last, disk) ==>
            PatchMissesNothing(w, c, Texts(last), Texts(disk), DetectedBy(t, c.modules, last, disk)))
  }

  /** Canonical documents and module roots are as they were: all that the code looks at. */
  ghost predicate SameCanon(t: Tools, last: Disk, disk: Disk) {
    && CanonicalTexts(t.w, Texts(disk)) == CanonicalTexts(t.w, Texts(last))
    && t.w.roots(disk.Keys) == ExpectedRoots(CanonAt(t.w, last).modules)
  }

  ghost predicate ModulesStay(t: Tools, last: Disk, disk: Disk) {
    SameCanon(t, last, disk) ==> CanonAt(t.w, disk).modules == CanonAt(t.w, last).modules
  }

  // ---- One refresh ----

  lemma SectionsReadFiles(w: World, c: Canon, a: Tree, b: Tree, indexed: set<Path>)
    requires forall p | p in indexed :: TextOf(a, p) == TextOf(b, p)
    ensures ImportRows(w, c, a, indexed) == ImportRows(w, c, b, indexed)
    ensures FileNotes(w, c, a, indexed) == FileNotes(w, c, b, indexed)
  {
  }

  lemma CallsReadFiles(w: World, files: map<Path, FileRecord>, a: Tree, b: Tree, sites: set<Site>)
    requires Recorded(files, sites) && forall s | s in sites :: TextOf(a, s.file) == TextOf(b, s.file)
    ensures WithCalls(w, files, a, sites) == WithCalls(w, files, b, sites)
  {
  }

  lemma SymbolsReadFiles(w: World, c: Canon, a: Tree, b: Tree, indexed: set<Path>)
    requires forall p | p in indexed :: TextOf(a, p) == TextOf(b, p)
    ensures BuildSymbols(w, c, a, indexed) == BuildSymbols(w, c, b, indexed)
  {
    SitesReadFiles(w, a, b, indexed);
    CallsReadFiles(w, FileRecords(w, c, indexed), a, b, Sites(w, a, indexed));
  }

  /** The graph depends on the tree only through the indexed files. */
  lemma BuildReadsIndexedFiles(w: World, c: Canon, a: Tree, b: Tree, indexed: set<Path>)
    requires forall p | p in indexed :: TextOf(a, p) == TextOf(b, p)
    ensures BuildOver(w, c, a, indexed) == BuildOver(w, c, b, indexed)
  {
    SectionsReadFiles(w, c, a, b, indexed);
    SymbolsReadFiles(w, c, a, b, indexed);
  }

  lemma DetectedAt(t: Tools, modules: seq<ModuleId>, last: Disk, disk: Disk, p: Path)
    requires Injective(t.hash) && StatsIdentify(t.hash, ManifestAt(t, modules, last), disk)
    ensures p in DetectedBy(t, modules, last, disk) <==>
            || (p in ManifestPaths(t.w, modules, last) && p in last && (p !in disk || disk[p].text != last[p].text))
            || (!(p in ManifestPaths(t.w, modules, last) && p in last) && p in ManifestPaths(t.w, modules, disk) && p in disk)
  {
    DetectedChangesAreTextChanges(t.hash, ManifestPaths(t.w, modules, last), last, ManifestPaths(t.w, modules, disk), disk, p);
  }

  /** If no canonical input is among the detected changes, the canonical texts are the same,
      and the detected changes cover all indexed files. */
  lemma DetectedCover(t: Tools, c: Canon, last: Disk, disk: Disk)
    requires Injective(t.hash) && StatsIdentify(t.hash, ManifestAt(t, c.modules, last), disk)
    requires DetectedBy(t, c.modules, last, disk) !! t.w.canonicalPaths
    ensures CanonicalTexts(t.w, Texts(disk)) == CanonicalTexts(t.w, Texts(last))
    ensures CoversChanges(t.w, c, Texts(last), Texts(disk), DetectedBy(t, c.modules, last, disk))
  {
    var changed := DetectedBy(t, c.modules, last, disk);
    var before, after := Indexed(t.w, c.modules, Texts(last)), Indexed(t.w, c.modules, Texts(disk));
    forall p | p in t.w.canonicalPaths
      ensures p in last <==> p in disk
      ensures p in last ==> last[p].text == disk[p].text
    {
      DetectedAt(t, c.modules, last, disk, p);
    }
    forall p | p in changed ensures p in before + after {
      DetectedAt(t, c.modules, last, disk, p);
    }
    forall p | p in before + after && p !in changed ensures p in last && p in disk && last[p].text == disk[p].text {
      DetectedAt(t, c.modules, last, disk, p);
    }
  }

  lemma ManifestFollows(t: Tools, modules: seq<ModuleId>, last: Disk, disk: Disk)
    requires StatsIdentify(t.hash, ManifestAt(t, modules, last), disk)
    ensures var m := ManifestAt(t, modules, last);
            Restamped(t.hash, m, Candidates(m, ManifestPaths(t.w, modules, disk), disk), disk)
            == ManifestAt(t, modules, disk)
  {
    var m, paths := ManifestAt(t, modules, last), ManifestPaths(t.w, modules, disk);
    forall p | p in m && p in disk ensures p in paths {
      assert p in ManifestPaths(t.w, modules, last);
    }
    TwoPhasesRefreshManifest(t.hash, m, paths, disk);
  }

  /** Nothing detected: the indexed files and the canonical documents are as they were. */
  lemma UnchangedFiles(t: Tools, c: Canon, last: Disk, disk: Disk)
    requires Injective(t.hash) && StatsIdentify(t.hash, ManifestAt(t, c.modules, last), disk)
    requires DetectedBy(t, c.modules, last, disk) == {}
    ensures CanonicalTexts(t.w, Texts(disk)) == CanonicalTexts(t.w, Texts(last))
    ensures Indexed(t.w, c.modules, Texts(disk)) == Indexed(t.w, c.modules, Texts(last))
    ensures forall p | p in Indexed(t.w, c.modules, Texts(disk)) :: TextOf(Texts(disk), p) == TextOf(Texts(last), p)
  {
    DetectedCover(t, c, last, disk);
    var before, after := Indexed(t.w, c.modules, Texts(last)), Indexed(t.w, c.modules, Texts(disk));
    forall p ensures p in before <==> p in after {
      if p in before + after { assert p in Texts(last) && p in Texts(disk); }
    }
  }

  /** The graph and the file cache of the earlier disk are those of the disk as it is. */
  lemma UnchangedStaysStored(t: Tools, c: Canon, a: Tree, b: Tree, fm: FileMeta)
    requires Indexed(t.w, c.modules, b) == Indexed(t.w, c.modules, a)
    requires forall p | p in Indexed(t.w, c.modules, b) :: TextOf(b, p) == TextOf(a, p)
    ensures Build(t.w, c, b) == Build(t.w, c, a)
    ensures NamesUnique(t.w, c.modules, b) == NamesUnique(t.w, c.modules, a)
    ensures DescribesAll(t.w, c.modules, a, Cached(t.w, c.modules, a), fm)
            ==> DescribesAll(t.w, c.modules, b, Cached(t.w, c.modules, b), fm)
  {
    var indexed := Indexed(t.w, c.modules, b);
    BuildReadsIndexedFiles(t.w, c, b, a, indexed);
    SitesReadFiles(t.w, b, a, indexed);
  }

  lemma SitesReadFiles(w: World, a: Tree, b: Tree, files: set<Path>)
    requires forall p | p in files :: TextOf(a, p) == TextOf(b, p)
    ensures Sites(w, a, files) == Sites(w, b, files)
  {
  }

  lemma CanonStays(t: Tools, last: Disk, disk: Disk)
    requires ToolsOk(t) && ModulesStay(t, last, disk) && SameCanon(t, last, disk)
    ensures CanonAt(t.w, disk) == CanonAt(t.w, last)
  {
    var texts := CanonicalTexts(t.w, Texts(disk));
    assert CanonAt(t.w, disk).modules == t.w.discover(Texts(disk).Keys, texts);
    assert CanonAt(t.w, last).modules == t.w.discover(Texts(last).Keys, texts);
  }

  lemma FullCacheDescribes(w: World, modules: seq<ModuleId>, tree: Tree)
    ensures DescribesAll(w, modules, tree, Cached(w, modules, tree), BuildFileMeta(w, modules, tree))
  {
  }

  /** Validation accepts the full rebuild of the disk. */
  ghost predicate Acceptable(t: Tools, disk: Disk) {
    var c := CanonAt(t.w, disk);
    NamesUnique(t.w, c.modules, Texts(disk)) && t.accepts(Build(t.w, c, Texts(disk)), disk)
  }

  lemma FullIsStored(t: Tools, store: Store, disk: Disk)
    ensures var (store', outcome) := FullRefresh(t, store, disk);
            && outcome in {Published, Invalid} && (outcome == Published <==> Acceptable(t, disk))
            && (outcome == Invalid ==> store' == store)
            && (outcome != Invalid ==> Stored(t, store', disk) && store'.lookup.Warm?)
  {
    FullCacheDescribes(t.w, CanonAt(t.w, disk).modules, Texts(disk));
  }

  /** A refresh rejects only what is not acceptable, and then changes nothing; whatever else it
      does leaves the index of the disk, and it publishes only what is acceptable. */
  ghost predicate Outcomes(t: Tools, store: Store, store': Store, outcome: Outcome, disk: Disk) {
    && (outcome == Invalid ==> store' == store && !Acceptable(t, disk))
    && (outcome != Invalid ==> HasIndex(store') && Stored(t, store', disk))
    && (outcome == Published ==> store'.lookup.Warm? && Acceptable(t, disk))
  }

  lemma PatchIsStored(t: Tools, store: Store, last: Disk, disk: Disk, changed: set<Path>)
    requires ToolsOk(t) && HasIndex(store) && Stored(t, store, last) && Trusted(t, last, disk)
    requires changed == DetectedBy(t, CanonAt(t.w, last).modules, last, disk)
    requires t.w.roots(disk.Keys) == ExpectedRoots(CanonAt(t.w, last).modules)
    ensures var (store', outcome) :=
              PatchOrRebuild(t, store, disk, changed, ManifestAt(t, CanonAt(t.w, last).modules, disk));
            Outcomes(t, store, store', outcome, disk)
  {
    FullIsStored(t, store, disk);
    StoredModules(t, store, last);
    if !NeedsFull(t.w, CanonAt(t.w, last).modules, changed, Texts(disk)) {
      PatchedIsBuilt(t, store.filemeta.value, last, disk, changed);
    }
  }

  /** Where the patch does not refuse, it yields what a full rebuild of the disk yields. */
  lemma PatchedIsBuilt(t: Tools, fm: FileMeta, last: Disk, disk: Disk, changed: set<Path>)
    requires ToolsOk(t) && Trusted(t, last, disk) && NamesUnique(t.w, CanonAt(t.w, last).modules, Texts(last))
    requires DescribesAll(t.w, CanonAt(t.w, last).modules, Texts(last),
                          Cached(t.w, CanonAt(t.w, last).modules, Texts(last)), fm)
    requires changed == DetectedBy(t, CanonAt(t.w, last).modules, last, disk)
    requires t.w.roots(disk.Keys) == ExpectedRoots(CanonAt(t.w, last).modules)
    requires !NeedsFull(t.w, CanonAt(t.w, last).modules, changed, Texts(disk))
    ensures CanonAt(t.w, disk) == CanonAt(t.w, last)
    ensures NamesUnique(t.w, CanonAt(t.w, last).modules, Texts(disk)) ==>
              var c, tree := CanonAt(t.w, disk), Texts(disk);
              && Patch(t.w, c.policy, Build(t.w, c, Texts(last)), fm, changed, tree) == Build(t.w, c, tree)
              && DescribesAll(t.w, c.modules, tree, Cached(t.w, c.modules, tree),
                              PatchFileMeta(t.w, c.modules, fm, changed, Touched(changed, tree), tree))
  {
    var c := CanonAt(t.w, last);
    ModulesAreSorted(t, last);
    DetectedCover(t, c, last, disk);
    CanonStays(t, last, disk);
    if NamesUnique(t.w, c.modules, Texts(disk)) {
      NotesAreElsewhere(t, last, disk, changed);
      IncrementalEqualsFull(t.w, c, Texts(last), Texts(disk), fm, changed);
    }
  }

  /** The patch's own assumptions, without the one about the module list. */
  ghost predicate PatchTrusted(t: Tools, last: Disk, disk: Disk) {
    match t case Tools(w, hash, _, _) =>
      var c := CanonAt(w, last);
      && StatsIdentify(hash, ManifestAt(t, c.modules, last), disk)
      && PatchMissesNothing(w, c, Texts(last), Texts(disk), DetectedBy(t, c.modules, last, disk))
  }

  /** The patch yields the graph over the old module list. */
  lemma PatchedOverOldModules(t: Tools, fm: FileMeta, last: Disk, disk: Disk, changed: set<Path>)
    requires ToolsOk(t) && PatchTrusted(t, last, disk)
    requires NamesUnique(t.w, CanonAt(t.w, last).modules, Texts(last))
    requires NamesUnique(t.w, CanonAt(t.w, last).modules, Texts(disk))
    requires DescribesAll(t.w, CanonAt(t.w, last).modules, Texts(last),
                          Cached(t.w, CanonAt(t.w, last).modules, Texts(last)), fm)
    requires changed == DetectedBy(t, CanonAt(t.w, last).modules, last, disk) && changed !! t.w.canonicalPaths
    ensures var c := CanonAt(t.w, last);
            Patch(t.w, c.policy, Build(t.w, c, Texts(last)), fm, changed, Texts(disk)) == Build(t.w, c, Texts(disk))
  {
    var c := CanonAt(t.w, last);
    ModulesAreSorted(t, last);
    DetectedCover(t, c, last, disk);
    NotesAreElsewhere(t, last, disk, changed);
    IncrementalEqualsFull(t.w, c, Texts(last), Texts(disk), fm, changed);
  }

  lemma BuildsAgreeOnSameModules(t: Tools, last: Disk, disk: Disk)
    requires ToolsOk(t) && SameCanon(t, last, disk)
    ensures Build(t.w, CanonAt(t.w, last), Texts(disk)) == Build(t.w, CanonAt(t.w, disk), Texts(disk))
            <==> CanonAt(t.w, disk).modules == CanonAt(t.w, last).modules
  {
    ModulesAreSorted(t, last);
    ModulesAreSorted(t, disk);
    if CanonAt(t.w, disk).modules == CanonAt(t.w, last).modules {
      CanonStays(t, last, disk);
    } else if Build(t.w, CanonAt(t.w, last), Texts(disk)) == Build(t.w, CanonAt(t.w, disk), Texts(disk)) {
      GraphTellsModules(t.w, CanonAt(t.w, last), CanonAt(t.w, disk), Texts(disk));
    }
  }

  /** Where the patch runs although the discovered module list has moved, with the roots that
      the code looks at unchanged, it still yields the graph over the old list. So it is right
      exactly if the list has not moved. */
  lemma PatchNeedsSameModules(t: Tools, fm: FileMeta, last: Disk, disk: Disk, changed: set<Path>)
    requires ToolsOk(t) && PatchTrusted(t, last, disk) && SameCanon(t, last, disk)
    requires NamesUnique(t.w, CanonAt(t.w, last).modules, Texts(last))
    requires NamesUnique(t.w, CanonAt(t.w, last).modules, Texts(disk))
    requires DescribesAll(t.w, CanonAt(t.w, last).modules, Texts(last),
                          Cached(t.w, CanonAt(t.w, last).modules, Texts(last)), fm)
    requires changed == DetectedBy(t, CanonAt(t.w, last).modules, last, disk) && changed !! t.w.canonicalPaths
    ensures var c := CanonAt(t.w, last);
            Patch(t.w, c.policy, Build(t.w, c, Texts(last)), fm, changed, Texts(disk))
            == Build(t.w, CanonAt(t.w, disk), Texts(disk))
            <==> CanonAt(t.w, disk).modules == c.modules
  {
    PatchedOverOldModules(t, fm, last, disk, changed);
    BuildsAgreeOnSameModules(t, last, disk);
  }

  lemma GraphTellsModules(w: World, a: Canon, b: Canon, tree: Tree)
    requires Increasing(a.modules) && Increasing(b.modules) && Build(w, a, tree) == Build(w, b, tree)
    ensures a.modules == b.modules
  {
    assert Build(w, a, tree).modules.Keys == ModuleSet(a) && Build(w, b, tree).modules.Keys == ModuleSet(b);
    forall m ensures m in a.modules <==> m in b.modules {
      assert m in a.modules <==> m in ModuleSet(a);
      assert m in b.modules <==> m in ModuleSet(b);
    }
    IncreasingUnique(a.modules, b.modules);
  }

  lemma ModulesAreSorted(t: Tools, disk: Disk)
    requires ToolsOk(t)
    ensures Increasing(CanonAt(t.w, disk).modules)
  {
    var texts := CanonicalTexts(t.w, Texts(disk));
    assert CanonAt(t.w, disk).modules == t.w.discover(Texts(disk).Keys, texts);
  }

  lemma NotesAreElsewhere(t: Tools, last: Disk, disk: Disk, changed: set<Path>)
    requires ToolsOk(t)
    requires CoversChanges(t.w, CanonAt(t.w, last), Texts(last), Texts(disk), changed)
    ensures forall n | n in CanonAt(t.w, last).notes :: n.ref !in changed
  {
    forall n | n in CanonAt(t.w, last).notes ensures n.ref !in changed {
      assert !Indexable(t.w, n.ref);
    }
  }

  /** One refresh: a completed one stores the index of the disk as it is, whichever path it
      takes; a rejected one changes nothing. */
  lemma RefreshKeepsIndex(t: Tools, store: Store, last: Disk, disk: Disk, full: bool)
    requires ToolsOk(t) && Index(t, store, last)
    requires Relies(t, store, disk, full) ==> Trusted(t, last, disk)
    ensures var (store', outcome) := Refreshed(t, store, disk, full);
            Outcomes(t, store, store', outcome, disk)
  {
    FullIsStored(t, store, disk);
    if Relies(t, store, disk, full) {
      IncrementalIsStored(t, store, last, disk);
    }
  }

  lemma IncrementalIsStored(t: Tools, store: Store, last: Disk, disk: Disk)
    requires ToolsOk(t) && HasIndex(store) && Stored(t, store, last) && Trusted(t, last, disk)
    requires t.w.roots(disk.Keys) == ExpectedRoots(ModulesOf(store.graph.value))
    ensures var (store', outcome) := IncrementalRefresh(t, store, disk);
            Outcomes(t, store, store', outcome, disk)
  {
    ProbeIsRight(t, store, last, disk);
    DetectedIsStored(t, store, last, disk, store.manifest.value, Probe(t, store, disk));
  }

  lemma StoredModules(t: Tools, store: Store, last: Disk)
    requires ToolsOk(t) && Stored(t, store, last)
    ensures ModulesOf(store.graph.value) == CanonAt(t.w, last).modules
  {
    var c := CanonAt(t.w, last);
    ModulesAreSorted(t, last);
    BuildCarries(t.w, c, Texts(last), Indexed(t.w, c.modules, Texts(last)));
  }

  lemma ProbeIsRight(t: Tools, store: Store, last: Disk, disk: Disk)
    requires ToolsOk(t) && HasIndex(store) && Stored(t, store, last)
    requires StatsIdentify(t.hash, ManifestAt(t, CanonAt(t.w, last).modules, last), disk)
    ensures ModulesOf(store.graph.value) == CanonAt(t.w, last).modules
    ensures Confirmed(t.hash, store.manifest.value, Probe(t, store, disk), disk)
            == DetectedBy(t, CanonAt(t.w, last).modules, last, disk)
    ensures Restamped(t.hash, store.manifest.value, Probe(t, store, disk), disk)
            == ManifestAt(t, CanonAt(t.w, last).modules, disk)
  {
    StoredModules(t, store, last);
    ManifestFollows(t, CanonAt(t.w, last).modules, last, disk);
  }

  lemma DetectedIsStored(t: Tools, store: Store, last: Disk, disk: Disk, m: Manifest, candidates: set<Path>)
    requires ToolsOk(t) && HasIndex(store) && Stored(t, store, last) && Trusted(t, last, disk)
    requires t.w.roots(disk.Keys) == ExpectedRoots(CanonAt(t.w, last).modules)
    requires m == ManifestAt(t, CanonAt(t.w, last).modules, last)
    requires Confirmed(t.hash, m, candidates, disk) == DetectedBy(t, CanonAt(t.w, last).modules, last, disk)
    requires Restamped(t.hash, m, candidates, disk) == ManifestAt(t, CanonAt(t.w, last).modules, disk)
    ensures var (store', outcome) := FromCandidates(t, store, disk, m, candidates);
            Outcomes(t, store, store', outcome, disk)
  {
    FullIsStored(t, store, disk);
    var changed := Confirmed(t.hash, m, candidates, disk);
    NothingRestamped(t.hash, m, disk);
    if changed == {} {
      UnchangedIsStored(t, store, last, disk);
      assert candidates == {} ==> store.(manifest := Some(m)) == store;
    } else {
      PatchIsStored(t, store, last, disk, changed);
    }
  }

  lemma NothingRestamped(hash: Hash, m: Manifest, disk: Disk)
    ensures Restamped(hash, m, {}, disk) == m && Confirmed(hash, m, {}, disk) == {}
  {
  }

  lemma UnchangedIsStored(t: Tools, store: Store, last: Disk, disk: Disk)
    requires ToolsOk(t) && HasIndex(store) && Stored(t, store, last) && Trusted(t, last, disk)
    requires t.w.roots(disk.Keys) == ExpectedRoots(CanonAt(t.w, last).modules)
    requires DetectedBy(t, CanonAt(t.w, last).modules, last, disk) == {}
    ensures Stored(t, store.(manifest := Some(ManifestAt(t, CanonAt(t.w, last).modules, disk))), disk)
  {
    var c := CanonAt(t.w, last);
    UnchangedFiles(t, c, last, disk);
    CanonStays(t, last, disk);
    UnchangedStaysStored(t, c, Texts(last), Texts(disk), store.filemeta.value);
  }

  // ---- Whole runs ----

  /** What can happen to a working tree and its index. */
  datatype Event = Edit(disk: Disk) | Refresh(full: bool)

  /** The stored files, the disk, and the disk as last refreshed. */
  datatype Workspace = Workspace(store: Store, disk: Disk, last: Disk)

  ghost function After(t: Tools, s: Workspace, e: Event): Workspace {
    match e
    case Edit(disk) => s.(disk := disk)
    case Refresh(full) =>
      var (store, outcome) := Refreshed(t, s.store, s.disk, full);
      Workspace(store, s.disk, if outcome == Invalid then s.last else s.disk)
  }

  ghost function Run(t: Tools, s: Workspace, events: seq<Event>): Workspace
    decreases |events|
  {
    if events == [] then s else Run(t, After(t, s, events[0]), events[1..])
  }

  /** Every refresh of the run that builds on the stored index finds a disk it may trust. */
  ghost predicate RunTrusted(t: Tools, s: Workspace, events: seq<Event>)
    decreases |events|
  {
    events == []
    || (&& (events[0].Refresh? && Relies(t, s.store, s.disk, events[0].full) ==> Trusted(t, s.last, s.disk))
        && RunTrusted(t, After(t, s, events[0]), events[1..]))
  }

  /** Over any run of edits and refreshes the stored index is the full rebuild of the disk as
      last refreshed: graph, warm payload, manifest and file cache. */
  lemma {:induction false} RunsKeepIndex(t: Tools, s: Workspace, events: seq<Event>)
    requires ToolsOk(t) && Index(t, s.store, s.last) && RunTrusted(t, s, events)
    ensures Index(t, Run(t, s, events).store, Run(t, s, events).last)
    decreases |events|
  {
    if events != [] {
      if events[0].Refresh? {
        RefreshKeepsIndex(t, s.store, s.last, s.disk, events[0].full);
      }
      RunsKeepIndex(t, After(t, s, events[0]), events[1..]);
    }
  }

  /** Whatever is stored and whatever happened to the disk, a completed full refresh leaves the
      index of the disk as it is. */
  lemma FullRefreshHeals(t: Tools, store: Store, disk: Disk)
    ensures var (store', outcome) := Refreshed(t, store, disk, true);
            Outcomes(t, store, store', outcome, disk)
  {
    FullIsStored(t, store, disk);
  }
}
