/** Every graph a full build derives passes the referential validation, whatever the tree
    holds (tools/repo_graph.py, build_graph, against tools/validate_repo_graph.py). */
module GraphSoundness {
  import opened Ordering
  import opened RepoTree
  import opened RepoGraph
  import opened GraphDocument
  import opened GraphQueries
  import opened GraphValidator
  import opened ReportedProblems
  import opened CallGraph

  /** Declared dependencies name discovered modules and carry their sources. */
  ghost predicate CanonOk(c: Canon) {
    forall m, d | m in c.modules && d in c.info(m).declared :: GoodDeclaration(c, m, d)
  }

  predicate GoodDeclaration(c: Canon, m: ModuleId, d: ModuleId) {
    d in c.modules && c.declaredSources(m, d) != []
  }

  lemma ActualIsKnown(w: World, c: Canon, tree: Tree, indexed: set<Path>, m: ModuleId)
    ensures forall t | t in Actual(ImportRows(w, c, tree, indexed), m) :: t in c.modules
  {
    var table := ImportRows(w, c, tree, indexed);
    forall t | t in Actual(table, m) ensures t in c.modules {
      var p :| p in table && table[p].source == m && t in table[p].targets;
      assert t in FileImports(w, c.modules, p, TextOf(tree, p));
    }
  }

  // ---- Soundness of the maps ----

  ghost predicate SoundModule(modules: set<ModuleId>, files: map<Path, FileRecord>, m: ModuleId, r: ModuleRecord) {
    && r.info.declared <= modules
    && (forall t | t in r.actual :: t in modules)
    && forall f :: f in r.files <==> f in files && files[f].moduleId == m
  }

  ghost predicate SoundFile(modules: set<ModuleId>, p: Path, r: FileRecord) {
    r.moduleId in modules && Owns(r.moduleId, p)
  }

  ghost predicate SoundSymbol(files: map<Path, FileRecord>, s: Symbol) {
    s.file in files && s.moduleId == files[s.file].moduleId && s.language == files[s.file].owner.language
  }

  ghost predicate SoundEdge(modules: set<ModuleId>, e: Edge, sources: seq<string>) {
    e.source in modules && e.target in modules && e.kind in {DECLARED, ACTUAL} && sources != []
  }

  ghost predicate SoundDrift(modules: set<ModuleId>, e: Edge) {
    e.source in modules && e.target in modules && e.kind in {UNDECLARED, UNUSED}
  }

  ghost predicate SoundTest(modules: set<ModuleId>, files: set<Path>, r: TestRecord) {
    r.moduleId in modules && (forall t | t in r.targets :: t in files) && r.granularity in {"file", "module"}
  }

  ghost predicate SoundModules(records: map<ModuleId, ModuleRecord>, modules: set<ModuleId>, files: map<Path, FileRecord>) {
    forall m | m in records :: SoundModule(modules, files, m, records[m])
  }

  ghost predicate SoundFiles(files: map<Path, FileRecord>, modules: set<ModuleId>) {
    forall p | p in files :: SoundFile(modules, p, files[p])
  }

  ghost predicate SoundSymbols(symbols: Symbols, files: map<Path, FileRecord>) {
    forall q | q in symbols :: SoundSymbol(files, symbols[q])
  }

  ghost predicate SoundEdges(dependencies: map<Edge, seq<string>>, drift: set<Edge>, modules: set<ModuleId>) {
    && (forall e | e in dependencies :: SoundEdge(modules, e, dependencies[e]))
    && forall e | e in drift :: SoundDrift(modules, e)
  }

  ghost predicate SoundTests(tests: map<Path, TestRecord>, modules: set<ModuleId>, files: set<Path>) {
    forall t | t in tests :: SoundTest(modules, files, tests[t])
  }

  /** Every reference of a graph leads somewhere, and calls mirror callers. */
  ghost predicate SoundGraph(g: Graph) {
    && SoundModules(g.modules, g.modules.Keys, g.files)
    && SoundFiles(g.files, g.modules.Keys)
    && SoundSymbols(g.symbols, g.files)
    && Mirrored(g.symbols)
    && SoundEdges(g.dependencies, g.drift, g.modules.Keys)
    && SoundTests(g.tests, g.modules.Keys, g.files.Keys)
  }

  lemma BuiltModule(c: Canon, files: map<Path, FileRecord>, table: ImportTable, deps: map<Edge, seq<string>>, m: ModuleId)
    requires CanonOk(c) && m in c.modules && forall t | t in Actual(table, m) :: t in c.modules
    ensures SoundModule(ModuleSet(c), files, m, BuildModules(c, files, table, deps)[m])
  {
    SortedListing(Actual(table, m));
    SortedListing(FilesOf(files, m));
  }

  lemma BuiltFile(w: World, c: Canon, tree: Tree, p: Path)
    requires p in Indexed(w, c.modules, tree)
    ensures SoundFile(ModuleSet(c), p, FileRecords(w, c, Indexed(w, c.modules, tree))[p])
  {
    OwningModuleIsLongest(p, c.modules);
  }

  lemma BuiltSymbol(w: World, c: Canon, tree: Tree, indexed: set<Path>, q: string)
    requires q in BuildSymbols(w, c, tree, indexed)
    ensures SoundSymbol(FileRecords(w, c, indexed), BuildSymbols(w, c, tree, indexed)[q])
  {
    var sites := Sites(w, tree, indexed);
    var s := SiteNamed(w, sites, q);
    assert s.file in indexed;
  }

  lemma BuiltEdge(w: World, c: Canon, tree: Tree, indexed: set<Path>, e: Edge)
    requires CanonOk(c) && e in BuildDependencies(c, ImportRows(w, c, tree, indexed))
    ensures SoundEdge(ModuleSet(c), e, BuildDependencies(c, ImportRows(w, c, tree, indexed))[e])
  {
    var table := ImportRows(w, c, tree, indexed);
    ActualIsKnown(w, c, tree, indexed, e.source);
    if e in ActualEdges(table, ModuleSet(c)) {
      var p :| p in table && table[p].source == e.source && e.target in table[p].targets;
      assert p in Evidence(table, e.source, e.target);
      SortedListing(Evidence(table, e.source, e.target));
    }
  }

  lemma BuiltDrift(w: World, c: Canon, tree: Tree, indexed: set<Path>, e: Edge)
    requires CanonOk(c) && e in BuildDrift(c, ImportRows(w, c, tree, indexed))
    ensures SoundDrift(ModuleSet(c), e)
  {
    ActualIsKnown(w, c, tree, indexed, e.source);
  }

  lemma BuiltTest(w: World, c: Canon, tree: Tree, t: Path)
    requires t in TestRecords(w, FileRecords(w, c, Indexed(w, c.modules, tree)))
    ensures var files := FileRecords(w, c, Indexed(w, c.modules, tree));
            SoundTest(ModuleSet(c), files.Keys, TestRecords(w, files)[t])
  {
    BuiltFile(w, c, tree, t);
  }

  lemma BuiltModules(w: World, c: Canon, tree: Tree, indexed: set<Path>, files: map<Path, FileRecord>, deps: map<Edge, seq<string>>)
    requires CanonOk(c)
    ensures var records := BuildModules(c, files, ImportRows(w, c, tree, indexed), deps);
            records.Keys == ModuleSet(c) && SoundModules(records, ModuleSet(c), files)
  {
    var table := ImportRows(w, c, tree, indexed);
    var records := BuildModules(c, files, table, deps);
    forall m | m in records ensures SoundModule(ModuleSet(c), files, m, records[m]) {
      ActualIsKnown(w, c, tree, indexed, m);
      BuiltModule(c, files, table, deps, m);
    }
  }

  lemma BuiltFiles(w: World, c: Canon, tree: Tree)
    ensures var files := FileRecords(w, c, Indexed(w, c.modules, tree));
            SoundFiles(files, ModuleSet(c)) && SoundTests(TestRecords(w, files), ModuleSet(c), files.Keys)
  {
    var files := FileRecords(w, c, Indexed(w, c.modules, tree));
    forall p | p in files ensures SoundFile(ModuleSet(c), p, files[p]) {
      BuiltFile(w, c, tree, p);
    }
    var tests := TestRecords(w, files);
    forall t | t in tests ensures SoundTest(ModuleSet(c), files.Keys, tests[t]) {
      BuiltTest(w, c, tree, t);
    }
  }

  lemma BuiltSymbols(w: World, c: Canon, tree: Tree, indexed: set<Path>)
    ensures SoundSymbols(BuildSymbols(w, c, tree, indexed), FileRecords(w, c, indexed))
  {
    forall q | q in BuildSymbols(w, c, tree, indexed)
      ensures SoundSymbol(FileRecords(w, c, indexed), BuildSymbols(w, c, tree, indexed)[q])
    {
      BuiltSymbol(w, c, tree, indexed, q);
    }
  }

  lemma BuiltEdges(w: World, c: Canon, tree: Tree, indexed: set<Path>)
    requires CanonOk(c)
    ensures var table := ImportRows(w, c, tree, indexed);
            SoundEdges(BuildDependencies(c, table), BuildDrift(c, table), ModuleSet(c))
  {
    var table := ImportRows(w, c, tree, indexed);
    var deps := BuildDependencies(c, table);
    forall e | e in deps ensures SoundEdge(ModuleSet(c), e, deps[e]) {
      BuiltEdge(w, c, tree, indexed, e);
    }
    forall e | e in BuildDrift(c, table) ensures SoundDrift(ModuleSet(c), e) {
      BuiltDrift(w, c, tree, indexed, e);
    }
  }

  /** Every built graph is sound. */
  lemma BuildIsSound(w: World, c: Canon, tree: Tree)
    requires CanonOk(c)
    ensures SoundGraph(Build(w, c, tree))
  {
    var indexed := Indexed(w, c.modules, tree);
    var g := Build(w, c, tree);
    BuiltModules(w, c, tree, indexed, FileRecords(w, c, indexed), g.dependencies);
    BuiltFiles(w, c, tree);
    BuiltSymbols(w, c, tree, indexed);
    BuiltEdges(w, c, tree, indexed);
    InverseCallsExact(w, c, tree);
  }

  // ---- Sound graphs pass, and only they ----

  /** Callees and callers are known symbols, and every callee lists its caller. */
  ghost predicate SoundCalls(symbols: Symbols) {
    forall q | q in symbols ::
      && (forall t | t in symbols[q].calls :: t in symbols && q in symbols[t].calledBy)
      && forall t | t in symbols[q].calledBy :: t in symbols
  }

  /** What validation asks of a graph: order, and calls to oneself, it does not look at. */
  ghost predicate Referential(g: Graph) {
    && SoundModules(g.modules, g.modules.Keys, g.files)
    && SoundFiles(g.files, g.modules.Keys)
    && SoundSymbols(g.symbols, g.files)
    && SoundCalls(g.symbols)
    && SoundEdges(g.dependencies, g.drift, g.modules.Keys)
    && SoundTests(g.tests, g.modules.Keys, g.files.Keys)
  }

  lemma SoundIsReferential(g: Graph)
    requires SoundGraph(g)
    ensures Referential(g)
  {
  }

  lemma NothingWrongExactly(g: Graph)
    ensures (forall p :: !Wrong(g, p)) <==> Referential(g)
  {
    if Referential(g) {
      forall p ensures !Wrong(g, p) {
      }
    }
    if forall p :: !Wrong(g, p) {
      NoWrongModule(g);
      NoWrongFile(g);
      NoWrongSymbol(g);
      NoWrongCall(g);
      NoWrongEdge(g);
      NoWrongTest(g);
    }
  }

  lemma NoWrongModule(g: Graph)
    requires forall p :: !Wrong(g, p)
    ensures SoundModules(g.modules, g.modules.Keys, g.files)
  {
    forall m | m in g.modules ensures SoundModule(g.modules.Keys, g.files, m, g.modules[m]) {
      assert !Wrong(g, FilesDisagree(m));
      forall t | t in g.modules[m].info.declared || t in g.modules[m].actual ensures t in g.modules {
        assert !Wrong(g, UnknownDependency(m, t));
      }
    }
  }

  lemma NoWrongFile(g: Graph)
    requires forall p :: !Wrong(g, p)
    ensures SoundFiles(g.files, g.modules.Keys)
  {
    forall f | f in g.files ensures SoundFile(g.modules.Keys, f, g.files[f]) {
      assert !Wrong(g, UnknownModule(f)) && !Wrong(g, OutsideModule(f));
    }
  }

  lemma NoWrongSymbol(g: Graph)
    requires forall p :: !Wrong(g, p)
    ensures SoundSymbols(g.symbols, g.files)
  {
    forall q | q in g.symbols ensures SoundSymbol(g.files, g.symbols[q]) {
      assert !Wrong(g, FileNotIndexed(q)) && !Wrong(g, ModuleDisagrees(q)) && !Wrong(g, LanguageDisagrees(q));
    }
  }

  lemma NoWrongCall(g: Graph)
    requires SoundSymbols(g.symbols, g.files) && forall p :: !Wrong(g, p)
    ensures SoundCalls(g.symbols)
  {
    forall q, t | q in g.symbols && t in g.symbols[q].calls ensures t in g.symbols && q in g.symbols[t].calledBy {
      assert SoundSymbol(g.files, g.symbols[q]);
      assert !Wrong(g, UnknownCallee(q, t)) && !Wrong(g, Asymmetric(q, t));
    }
    forall q, t | q in g.symbols && t in g.symbols[q].calledBy ensures t in g.symbols {
      assert !Wrong(g, UnknownCaller(q, t));
    }
  }

  lemma NoWrongEdge(g: Graph)
    requires forall p :: !Wrong(g, p)
    ensures SoundEdges(g.dependencies, g.drift, g.modules.Keys)
  {
    forall e | e in g.dependencies ensures SoundEdge(g.modules.Keys, e, g.dependencies[e]) {
      assert !Wrong(g, UnknownSource(e)) && !Wrong(g, UnknownTarget(e));
      assert !Wrong(g, InvalidKind(e)) && !Wrong(g, NoSources(e));
    }
    forall e | e in g.drift ensures SoundDrift(g.modules.Keys, e) {
      assert !Wrong(g, DriftUnknown(e)) && !Wrong(g, DriftKind(e));
    }
  }

  lemma NoWrongTest(g: Graph)
    requires forall p :: !Wrong(g, p)
    ensures SoundTests(g.tests, g.modules.Keys, g.files.Keys)
  {
    forall t | t in g.tests ensures SoundTest(g.modules.Keys, g.files.Keys, g.tests[t]) {
      assert !Wrong(g, TestUnknownModule(t)) && !Wrong(g, TestGranularity(t));
      forall f | f in g.tests[t].targets ensures f in g.files {
        assert !Wrong(g, TestUnknownTarget(t, f));
      }
    }
  }

  /** Nothing at all is reported. */
  ghost predicate Clean(doc: Document) {
    forall p :: !Reports(doc, p)
  }

  /** Nothing is reported about the document of a graph exactly if the graph is referentially
      sound. */
  lemma CleanExactly(doc: Document, g: Graph)
    requires Renders(doc, g)
    ensures Clean(doc) <==> Referential(g)
  {
    forall p ensures Reports(doc, p) <==> Wrong(g, p) {
      ReportedExactly(doc, g, p);
    }
    NothingWrongExactly(g);
  }

  /** A sound graph passes every check. */
  lemma SoundGraphPasses(doc: Document, g: Graph)
    requires Renders(doc, g) && SoundGraph(g)
    ensures Clean(doc)
  {
    SoundIsReferential(g);
    CleanExactly(doc, g);
  }

  /** Declarations reach the graph as they are. */
  lemma BuiltDeclaration(w: World, c: Canon, tree: Tree, m: ModuleId, d: ModuleId)
    requires m in c.modules && d in c.info(m).declared
    ensures var g := Build(w, c, tree);
            && g.modules.Keys == ModuleSet(c) && d in g.modules[m].info.declared
            && Edge(m, d, DECLARED) in g.dependencies && g.dependencies[Edge(m, d, DECLARED)] == c.declaredSources(m, d)
  {
  }

  lemma UnknownDeclarationIsReported(doc: Document, g: Graph, m: ModuleId, d: ModuleId)
    requires Renders(doc, g) && m in g.modules && d in g.modules[m].info.declared && d !in g.modules
    ensures Reports(doc, UnknownDependency(m, d))
  {
    ReportedExactly(doc, g, UnknownDependency(m, d));
  }

  lemma UnsourcedEdgeIsReported(doc: Document, g: Graph, e: Edge)
    requires Renders(doc, g) && e in g.dependencies && g.dependencies[e] == []
    ensures Reports(doc, NoSources(e))
  {
    ReportedExactly(doc, g, NoSources(e));
  }

  /** A declared dependency on no module, or without sources, is reported. */
  lemma BadDeclarationIsReported(w: World, c: Canon, tree: Tree, doc: Document, m: ModuleId, d: ModuleId)
    requires Renders(doc, Build(w, c, tree)) && m in c.modules && d in c.info(m).declared
    requires !GoodDeclaration(c, m, d)
    ensures Reports(doc, if d in c.modules then NoSources(Edge(m, d, DECLARED)) else UnknownDependency(m, d))
  {
    BuiltDeclaration(w, c, tree, m, d);
    if d !in c.modules {
      UnknownDeclarationIsReported(doc, Build(w, c, tree), m, d);
    } else {
      UnsourcedEdgeIsReported(doc, Build(w, c, tree), Edge(m, d, DECLARED));
    }
  }

  /** Nothing is reported about the document of a built graph exactly if all declared
      dependencies name modules and carry sources: whatever else the tree holds. */
  lemma BuiltGraphPasses(w: World, c: Canon, tree: Tree, doc: Document)
    requires Renders(doc, Build(w, c, tree))
    ensures Clean(doc) <==> CanonOk(c)
  {
    if CanonOk(c) {
      BuildIsSound(w, c, tree);
      SoundGraphPasses(doc, Build(w, c, tree));
    } else {
      var m, d :| m in c.modules && d in c.info(m).declared && !GoodDeclaration(c, m, d);
      BadDeclarationIsReported(w, c, tree, doc, m, d);
    }
  }
}
