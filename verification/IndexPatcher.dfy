/** The surgical patch as it runs (tools/repo_index.py, _patch_incremental). */
module IndexPatcher {
  import opened Wrappers
  import opened Ordering
  import opened RepoTree
  import opened RepoGraph
  import opened RepoIndex
  import opened PatchSetting
  import opened ReverseInvalidation
  import opened PatchFindings
  import opened PatchedSymbols
  import opened IncrementalIsFull
  import opened CallResolution
  import opened GraphBuilder

  datatype PatchError = NeedsFullRebuild | NameClash

  /** The index the patch starts from: graph and file cache of an old tree, and changed paths
      that cover what differs, unless they hold a canonical input. */
  ghost predicate Consistent(w: World, c: Canon, g: Graph, fm: FileMeta, old': Tree, changed: set<Path>, tree: Tree) {
    && Increasing(c.modules)
    && NamesUnique(w, c.modules, old') && g == Build(w, c, old')
    && DescribesAll(w, c.modules, old', Cached(w, c.modules, old'), fm)
    && (changed !! w.canonicalPaths ==> CoversChanges(w, c, old', tree, changed))
  }

  /** Names are unique after the change exactly when the fresh definitions clash neither among
      themselves nor with a kept symbol. */
  lemma ClashMeansDuplicate(w: World, ch: Change, oldFiles: Files, symbols: Symbols)
    requires ch.Consistent() && UniqueNames(w, ch.OldSites(w)) && Lists(w, oldFiles, ch.OldSites(w), symbols)
    ensures Clashes(w, KeptSymbols(symbols, ch.changed), ch.FreshSites(w)) <==> !UniqueNames(w, ch.NewSites(w))
  {
    SitesOutside(w, ch.old', ch.new', ch.before, ch.after, ch.changed, ch.touched);
    var kept := KeptSymbols(symbols, ch.changed);
    if Clashes(w, kept, ch.FreshSites(w)) && UniqueNames(w, ch.FreshSites(w)) {
      var s :| s in ch.FreshSites(w) && NameOf(w, s) in kept;
      var t := SiteNamed(w, ch.OldSites(w), NameOf(w, s));
      assert Core(symbols[NameOf(w, s)]).file == t.file;
      assert t in ch.NewSites(w) && s in ch.NewSites(w) && s != t;
    }
    if !Clashes(w, kept, ch.FreshSites(w)) {
      forall s, t | s in ch.NewSites(w) && t in ch.NewSites(w) && NameOf(w, s) == NameOf(w, t) ensures s == t {
        KeptUnlessFresh(w, ch, oldFiles, symbols, s);
        KeptUnlessFresh(w, ch, oldFiles, symbols, t);
      }
    }
  }

  lemma KeptUnlessFresh(w: World, ch: Change, oldFiles: Files, symbols: Symbols, s: Site)
    requires ch.Consistent() && Lists(w, oldFiles, ch.OldSites(w), symbols) && s in ch.NewSites(w)
    ensures s in ch.FreshSites(w) || (s in ch.OldSites(w) && NameOf(w, s) in KeptSymbols(symbols, ch.changed))
  {
    SitesOutside(w, ch.old', ch.new', ch.before, ch.after, ch.changed, ch.touched);
    if s.file !in ch.changed {
      assert Core(symbols[NameOf(w, s)]).file == s.file;
    }
  }

  function TouchedRecords(
    w: World, policy: Policy, modules: seq<ModuleId>, records: map<ModuleId, ModuleRecord>, touched: set<Path>): Files
  {
    map p | p in touched ::
      var m := ModuleOf(modules, p);
      RecordFor(w, policy, p, m, InfoOf(records, m))
  }

  /** File records of the touched files. */
  method CollectTouchedRecords(
    w: World, policy: Policy, modules: seq<ModuleId>, records: map<ModuleId, ModuleRecord>, touched: set<Path>)
    returns (r: Files)
    ensures r == TouchedRecords(w, policy, modules, records, touched)
  {
    r := map[];
    var rest := touched;
    ghost var done: set<Path> := {};
    while rest != {}
      invariant done + rest == touched && done !! rest
      invariant r == TouchedRecords(w, policy, modules, records, done)
      decreases rest
    {
      var p :| p in rest;
      var m := ModuleOf(modules, p);
      var record := RecordFor(w, policy, p, m, InfoOf(records, m));
      assert TouchedRecords(w, policy, modules, records, done + {p})
          == TouchedRecords(w, policy, modules, records, done)[p := record];
      r := r[p := record];
      rest, done := rest - {p}, done + {p};
    }
    assert done == touched;
  }

  function TouchedMeta(w: World, modules: seq<ModuleId>, touched: set<Path>, tree: Tree): FileMeta {
    map p | p in touched :: PatchedMetaFor(w, modules, p, ModuleOf(modules, p), TextOf(tree, p))
  }

  /** File cache entries of the touched files. */
  method CollectTouchedMeta(w: World, modules: seq<ModuleId>, touched: set<Path>, tree: Tree) returns (r: FileMeta)
    ensures r == TouchedMeta(w, modules, touched, tree)
  {
    r := map[];
    var rest := touched;
    ghost var done: set<Path> := {};
    while rest != {}
      invariant done + rest == touched && done !! rest
      invariant r == TouchedMeta(w, modules, done, tree)
      decreases rest
    {
      var p :| p in rest;
      var entry := PatchedMetaFor(w, modules, p, ModuleOf(modules, p), TextOf(tree, p));
      assert TouchedMeta(w, modules, done + {p}, tree) == TouchedMeta(w, modules, done, tree)[p := entry];
      r := r[p := entry];
      rest, done := rest - {p}, done + {p};
    }
    assert done == touched;
  }

  /** Symbols: recompute the calls of touched and reverse-affected files, rebuild the inverse
      lists, attach the tests of the affected modules. */
  method PatchSymbolEdges(
    w: World, bare: Symbols, tests: map<Path, TestRecord>, affected: set<ModuleId>, recompute: set<Path>, tree: Tree)
    returns (symbols: Symbols)
    requires DottedUnique(bare) && CallsDistinct(bare) && OneTarget(tests)
    requires UniqueNames(w, Sites(w, tree, recompute)) && forall p | p in recompute :: IsPython(w, p)
    ensures symbols == PatchSymbolTests(
              WithCallers(PatchCalls(w, bare, ByDotted(bare), tree, Sites(w, tree, recompute))), tests, affected)
  {
    var byDotted := DottedIndex(bare);
    CallsAreDistinct(w, bare, byDotted, tree, Sites(w, tree, recompute));
    symbols := ResolveFiles(w, byDotted, tree, recompute, bare);
    symbols := RebuildCalledBy(symbols);
    symbols := AttachTests(symbols, tests, affected);
  }

  /** Drift of all modules: an unaffected one keeps its actual imports. */
  method PatchedDrift(
    modules: map<ModuleId, ModuleRecord>, ghost table: ImportTable, actual: Actuals, ghost evidence: Evidences,
    affected: set<ModuleId>) returns (drift: set<Edge>)
    requires RecordsRows(table, actual, evidence)
    ensures drift == PatchDrift(modules, table, affected)
  {
    var imports := map m | m in modules :: if m in affected then ActualIn(actual, m) else set t | t in modules[m].actual;
    assert forall m | m in modules :: imports[m] == PatchActual(modules, table, affected, m);
    drift := set m, e | m in modules && e in DriftOf(modules[m].info.declared, imports[m], m) :: e;
  }

  method PatchedModules(
    modules: map<ModuleId, ModuleRecord>, files: map<Path, FileRecord>, ghost table: ImportTable, actual: Actuals,
    ghost evidence: Evidences, dependencies: map<Edge, seq<string>>, affected: set<ModuleId>)
    returns (records: map<ModuleId, ModuleRecord>)
    requires RecordsRows(table, actual, evidence)
    ensures records == PatchModules(modules, files, table, dependencies, affected)
  {
    var dependents := InvertDependencies(dependencies, modules.Keys);
    records := map m | m in modules ::
      if m in affected
      then ModuleRecord(modules[m].info, Sorted(FilesOf(files, m)), Sorted(ActualIn(actual, m)), Sorted(dependents[m]))
      else modules[m].(dependedOnBy := Sorted(dependents[m]));
  }

  /** Edges, drift and module records: only the affected modules are derived again. */
  method PatchModuleSections(g: Graph, files: map<Path, FileRecord>, table: ImportTable, affected: set<ModuleId>)
    returns (dependencies: map<Edge, seq<string>>, drift: set<Edge>, records: map<ModuleId, ModuleRecord>)
    ensures dependencies == PatchDependencies(g.dependencies, table, affected)
    ensures drift == PatchDrift(g.modules, table, affected)
    ensures records == PatchModules(g.modules, files, table, dependencies, affected)
  {
    var actual, evidence := CollectActual(table);
    var edges := EdgesFrom(table, actual, evidence, affected);
    dependencies := (map e | e in g.dependencies && !(e.source in affected && e.kind == ACTUAL) :: g.dependencies[e]) + edges;
    drift := PatchedDrift(g.modules, table, actual, evidence, affected);
    records := PatchedModules(g.modules, files, table, actual, evidence, dependencies, affected);
  }

  lemma BuiltCallsAreDistinct(w: World, files: Files, tree: Tree, sites: set<Site>, tests: map<Path, TestRecord>, symbols: Symbols)
    requires BuiltSymbols(w, files, tree, sites, tests, symbols)
    ensures CallsDistinct(symbols)
  {
    forall q | q in symbols ensures NoDuplicates(symbols[q].calls) {
      var s := SiteNamed(w, sites, q);
      SortedDistinct(CallTargets(w, ByDotted(symbols), TextOf(tree, s.file), s));
    }
  }

  lemma TestsHaveOneTarget(w: World, files: Files)
    ensures OneTarget(TestRecords(w, files))
  {
  }

  lemma KeptTestsHaveOneTarget(w: World, files: Files, tests: map<Path, TestRecord>, affected: set<ModuleId>)
    requires OneTarget(tests)
    ensures OneTarget(PatchTests(w, files, tests, affected))
  {
  }

  /** Kept and fresh symbols can be resolved: dotted names and call lists are in order. */
  lemma MergedIsTidy(w: World, c: Canon, ch: Change, files: Files, symbols: Symbols, recompute: set<Path>)
    requires ch.Consistent() && ch.NamesUnique(w)
    requires files == FileRecords(w, c, ch.after) && symbols == BuildSymbols(w, c, ch.old', ch.before)
    requires InModules(c.modules, ch.after) && recompute <= ch.after
    ensures var bare := PatchBare(w, files, symbols, ch.changed, ch.FreshSites(w));
            && DottedUnique(bare) && CallsDistinct(bare)
    ensures UniqueNames(w, Sites(w, ch.new', recompute))
  {
    var bare := PatchBare(w, files, symbols, ch.changed, ch.FreshSites(w));
    BuildSymbolsAreBuilt(w, c, ch.old', ch.before);
    BuiltCallsAreDistinct(w, FileRecords(w, c, ch.before), ch.old', ch.OldSites(w),
                          TestRecords(w, FileRecords(w, c, ch.before)), symbols);
    ChangedRecordsAreAffected(w, c, ch);
    PatchBareIsMerged(w, ch, FileRecords(w, c, ch.before), files, symbols);
    ListsDottedUnique(w, files, ch.NewSites(w), bare);
    FewerSitesUnique(w, ch.new', recompute, ch.after);
  }

  lemma PatchIsFullExactly(w: World, c: Canon, g: Graph, fm: FileMeta, old': Tree, changed: set<Path>, tree: Tree)
    requires Consistent(w, c, g, fm, old', changed, tree) && changed !! w.canonicalPaths
    requires NamesUnique(w, c.modules, tree)
    ensures Patch(w, c.policy, g, fm, changed, tree) == Build(w, c, tree)
            <==> Elsewhere(c.notes, changed) && PatchMissesNothing(w, c, old', tree, changed)
    ensures DescribesAll(w, c.modules, tree, Cached(w, c.modules, tree),
                         PatchFileMeta(w, c.modules, fm, changed, Touched(changed, tree), tree))
  {
    IncrementalEqualsFullExactly(w, c, old', tree, fm, changed);
    ChangeIsSetting(w, c, old', tree, fm, changed);
  }

  /** `_patch_incremental`: refuses what only a full rebuild can handle, and otherwise returns
      the patched graph, and the file cache of the new tree. The graph is the full build of the
      new tree exactly if the patch misses nothing. */
  method PatchIncremental(
    w: World, ghost c: Canon, policy: Policy, g: Graph, fm: FileMeta, changed: set<Path>, ghost old': Tree, tree: Tree)
    returns (r: Result<(Graph, FileMeta), PatchError>)
    requires Consistent(w, c, g, fm, old', changed, tree)
    requires !NeedsFull(w, c.modules, changed, tree) ==> policy == c.policy
    ensures r == Err(NeedsFullRebuild) <==> NeedsFull(w, c.modules, changed, tree)
    ensures !NeedsFull(w, c.modules, changed, tree) ==> (r == Err(NameClash) <==> !NamesUnique(w, c.modules, tree))
    ensures r.Ok? ==>
              && r.value.0 == Patch(w, policy, g, fm, changed, tree)
              && r.value.1 == PatchFileMeta(w, c.modules, fm, changed, Touched(changed, tree), tree)
    ensures r.Ok? ==>
              && DescribesAll(w, c.modules, tree, Cached(w, c.modules, tree), r.value.1)
              && (r.value.0 == Build(w, c, tree)
                  <==> Elsewhere(c.notes, changed) && PatchMissesNothing(w, c, old', tree, changed))
  {
    BuildCarries(w, c, old', Indexed(w, c.modules, old'));
    var modules := ModulesOf(g);
    if NeedsFull(w, modules, changed, tree) {
      return Err(NeedsFullRebuild);
    }
    if NamesUnique(w, c.modules, tree) {
      PatchIsFullExactly(w, c, g, fm, old', changed, tree);
    }
    r := PatchKnown(w, c, policy, g, modules, fm, changed, old', tree);
  }

  /** Symbols of the patched graph, unless a fresh definition clashes with another name. */
  method PatchSymbolSection(
    w: World, ghost c: Canon, ghost ch: Change, g: Graph, fm: FileMeta, patched: FileMeta, files: Files,
    changed: set<Path>, touched: set<Path>, affected: set<ModuleId>, tests: map<Path, TestRecord>, tree: Tree)
    returns (clash: bool, symbols: Symbols, recompute: set<Path>)
    requires ch.Consistent() && ch.changed == changed && ch.touched == touched && ch.new' == tree
    requires UniqueNames(w, ch.OldSites(w)) && InModules(c.modules, ch.after)
    requires g.symbols == BuildSymbols(w, c, ch.old', ch.before) && files == FileRecords(w, c, ch.after)
    requires patched.Keys <= ch.after && OneTarget(tests)
    ensures clash <==> !UniqueNames(w, ch.NewSites(w))
    ensures recompute == Recompute(w, patched, touched, MovedNames(w, fm, changed, Sites(w, tree, touched)))
    ensures !clash ==>
              var bare := PatchBare(w, files, g.symbols, changed, Sites(w, tree, touched));
              symbols == PatchSymbolTests(
                WithCallers(PatchCalls(w, bare, ByDotted(bare), tree, Sites(w, tree, recompute))), tests, affected)
  {
    BuildSymbolsAreBuilt(w, c, ch.old', ch.before);
    ClashMeansDuplicate(w, ch, FileRecords(w, c, ch.before), g.symbols);
    recompute := Recompute(w, patched, touched, MovedNames(w, fm, changed, Sites(w, tree, touched)));
    clash, symbols := AddSymbols(w, files, Sites(w, tree, touched), KeptSymbols(g.symbols, changed));
    if !clash {
      MergedIsTidy(w, c, ch, files, g.symbols, recompute);
      symbols := PatchSymbolEdges(w, symbols, tests, affected, recompute, tree);
    }
  }

  /** What the symbol section needs of the old graph. */
  lemma PatchIsReady(
    w: World, c: Canon, g: Graph, fm: FileMeta, old': Tree, changed: set<Path>, tree: Tree, ch: Change)
    requires Consistent(w, c, g, fm, old', changed, tree) && changed !! w.canonicalPaths && Carries(c, g)
    requires ch == ChangeOf(w, c, old', tree, changed)
    ensures ch.Consistent() && ch.changed == changed && ch.touched == Touched(changed, tree) && ch.new' == tree
    ensures UniqueNames(w, ch.OldSites(w)) && InModules(c.modules, ch.after)
    ensures g.symbols == BuildSymbols(w, c, ch.old', ch.before) && OneTarget(g.tests)
    ensures PatchFiles(w, c.policy, ModulesOf(g), g.modules, g.files, changed, ch.touched) == FileRecords(w, c, ch.after)
    ensures PatchFileMeta(w, ModulesOf(g), fm, changed, ch.touched, tree).Keys <= ch.after
  {
    ChangeIsConsistent(w, c, old', tree, changed);
    FilesAgree(w, c, g.modules, ch.before, ch.after, changed, ch.touched);
    FileMetaAgrees(w, ModulesOf(g), fm, old', tree, ch.before, ch.after, changed, ch.touched);
    TestsHaveOneTarget(w, FileRecords(w, c, ch.before));
  }

  /** Kept records and cache entries, and those of the touched files. */
  method PatchRecords(w: World, policy: Policy, g: Graph, modules: seq<ModuleId>, fm: FileMeta, changed: set<Path>,
                      touched: set<Path>, tree: Tree) returns (files: Files, patched: FileMeta)
    ensures files == PatchFiles(w, policy, modules, g.modules, g.files, changed, touched)
    ensures patched == PatchFileMeta(w, modules, fm, changed, touched, tree)
  {
    var records := CollectTouchedRecords(w, policy, modules, g.modules, touched);
    files := (map p | p in g.files && p !in changed :: g.files[p]) + records;
    var entries := CollectTouchedMeta(w, modules, touched, tree);
    patched := (map p | p in fm && p !in changed :: fm[p]) + entries;
  }

  method PatchKnown(
    w: World, ghost c: Canon, policy: Policy, g: Graph, modules: seq<ModuleId>, fm: FileMeta, changed: set<Path>,
    ghost old': Tree, tree: Tree)
    returns (r: Result<(Graph, FileMeta), PatchError>)
    requires Consistent(w, c, g, fm, old', changed, tree) && policy == c.policy
    requires changed !! w.canonicalPaths && Carries(c, g) && modules == ModulesOf(g)
    ensures r == Err(NameClash) <==> !NamesUnique(w, c.modules, tree)
    ensures r.Err? ==> r == Err(NameClash)
    ensures r.Ok? ==>
              && r.value.0 == Patch(w, policy, g, fm, changed, tree)
              && r.value.1 == PatchFileMeta(w, modules, fm, changed, Touched(changed, tree), tree)
  {
    var touched := Touched(changed, tree);
    ghost var ch := ChangeOf(w, c, old', tree, changed);
    PatchIsReady(w, c, g, fm, old', changed, tree, ch);
    var files, patched := PatchRecords(w, policy, g, modules, fm, changed, touched, tree);
    var affected := Affected(modules, changed);
    KeptTestsHaveOneTarget(w, files, g.tests, affected);
    var tests := AddTests(w, files, g.tests, affected);
    var clash, symbols, recompute :=
      PatchSymbolSection(w, c, ch, g, fm, patched, files, changed, touched, affected, tests, tree);
    if clash {
      return Err(NameClash);
    }
    var graph := PatchRest(w, policy, g, files, symbols, AffectedImports(patched, affected), tests, changed, touched,
                           recompute, affected, tree);
    r := Ok((graph, patched));
  }

  /** The sections that only need the patched files, symbols and tests. */
  method PatchRest(
    w: World, policy: Policy, g: Graph, files: Files, symbols: Symbols, table: ImportTable, tests: map<Path, TestRecord>,
    changed: set<Path>, touched: set<Path>, recompute: set<Path>, affected: set<ModuleId>, tree: Tree)
    returns (graph: Graph)
    ensures var dependencies := PatchDependencies(g.dependencies, table, affected);
            graph == Assemble(
              g.header, PatchModules(g.modules, files, table, dependencies, affected), files, symbols, dependencies,
              PatchDrift(g.modules, table, affected), tests, Validators(w, files.Keys),
              PatchNotes(w, policy, g, changed, touched, recompute, tree))
  {
    var dependencies, drift, records := PatchModuleSections(g, files, table, affected);
    graph := AssembleGraph(g.header, records, files, symbols, dependencies, drift, tests, Validators(w, files.Keys),
                           PatchNotes(w, policy, g, changed, touched, recompute, tree));
  }
}
