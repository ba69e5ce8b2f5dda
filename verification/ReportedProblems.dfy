/** What referential validation reports about the document of a graph, problem by problem, in
    terms of the graph (tools/validate_repo_graph.py, validate_graph). */
module ReportedProblems {
  import opened Ordering
  import opened RepoTree
  import opened RepoGraph
  import opened GraphDocument
  import opened GraphQueries
  import opened GraphValidator

  // ---- The problems of a graph ----

  ghost predicate WrongModule(g: Graph, p: Problem) {
    match p
    case UnknownDependency(m, t) =>
      m in g.modules && (t in g.modules[m].info.declared || t in g.modules[m].actual) && t !in g.modules
    case FilesDisagree(m) =>
      m in g.modules && !forall f :: f in g.modules[m].files <==> f in g.files && g.files[f].moduleId == m
    case _ => false
  }

  ghost predicate WrongFile(g: Graph, p: Problem) {
    match p
    case UnknownModule(f) => f in g.files && g.files[f].moduleId !in g.modules
    case OutsideModule(f) =>
      && f in g.files && g.files[f].moduleId in g.modules
      && f != g.files[f].moduleId && !(g.files[f].moduleId + "/" <= f)
    case _ => false
  }

  ghost predicate WrongSymbol(g: Graph, p: Problem) {
    match p
    case FileNotIndexed(q) => q in g.symbols && g.symbols[q].file !in g.files
    case ModuleDisagrees(q) =>
      && q in g.symbols && g.symbols[q].file in g.files
      && g.symbols[q].moduleId != g.files[g.symbols[q].file].moduleId
    case LanguageDisagrees(q) =>
      && q in g.symbols && g.symbols[q].file in g.files
      && g.symbols[q].language != g.files[g.symbols[q].file].owner.language
    case UnknownCallee(q, t) =>
      q in g.symbols && g.symbols[q].file in g.files && t in g.symbols[q].calls && t !in g.symbols
    case _ => false
  }

  ghost predicate WrongCall(symbols: Symbols, p: Problem) {
    match p
    case UnknownCaller(q, t) => q in symbols && t in symbols[q].calledBy && t !in symbols
    case Asymmetric(q, t) => q in symbols && t in symbols[q].calls && t in symbols && q !in symbols[t].calledBy
    case _ => false
  }

  ghost predicate WrongDependency(g: Graph, p: Problem) {
    match p
    case UnknownSource(e) => e in g.dependencies && e.source !in g.modules
    case UnknownTarget(e) => e in g.dependencies && e.target !in g.modules
    case InvalidKind(e) => e in g.dependencies && e.kind != "declared" && e.kind != "actual"
    case NoSources(e) => e in g.dependencies && g.dependencies[e] == []
    case _ => false
  }

  ghost predicate WrongDrift(g: Graph, p: Problem) {
    match p
    case DriftUnknown(e) => e in g.drift && (e.source !in g.modules || e.target !in g.modules)
    case DriftKind(e) => e in g.drift && e.kind != "actual-without-declared" && e.kind != "declared-without-actual"
    case _ => false
  }

  ghost predicate WrongTest(g: Graph, p: Problem) {
    match p
    case TestUnknownModule(t) => t in g.tests && g.tests[t].moduleId !in g.modules
    case TestUnknownTarget(t, f) => t in g.tests && f in g.tests[t].targets && f !in g.files
    case TestGranularity(t) => t in g.tests && g.tests[t].granularity != "file" && g.tests[t].granularity != "module"
    case _ => false
  }

  /** What is wrong with a graph. */
  ghost predicate Wrong(g: Graph, p: Problem) {
    || WrongModule(g, p) || WrongFile(g, p) || WrongSymbol(g, p) || WrongCall(g.symbols, p)
    || WrongDependency(g, p) || WrongDrift(g, p) || WrongTest(g, p)
  }

  // ---- Row by row ----

  lemma ListedAt<T>(m: map<string, T>, k: string) returns (i: nat)
    requires k in m
    ensures i < |Listing(m)| && Listing(m)[i] == Row(k, m[k])
  {
    ListingIds(m);
    ListingRows(m);
    assert k in Ids(Listing(m));
    i :| 0 <= i < |Listing(m)| && Listing(m)[i].key == k;
  }

  lemma RowIsListed<T>(m: map<string, T>, i: nat)
    requires i < |Listing(m)|
    ensures Listing(m)[i].key in m && Listing(m)[i] == Row(Listing(m)[i].key, m[Listing(m)[i].key])
  {
    ListingRows(m);
  }

  lemma ListedFiles(files: map<Path, FileRecord>, m: ModuleId, f: Path)
    ensures f in FilesUnder(Listing(files), m) <==> f in files && files[f].moduleId == m
  {
    ListingRows(files);
    if f in files {
      var i := ListedAt(files, f);
    }
  }

  ghost predicate ModuleWrong(g: Graph, m: ModuleId, r: ModuleRecord, p: Problem) {
    match p
    case UnknownDependency(k, t) => k == m && (t in r.info.declared || t in r.actual) && t !in g.modules
    case FilesDisagree(k) => k == m && !(forall f :: f in r.files <==> f in g.files && g.files[f].moduleId == m)
    case _ => false
  }

  lemma ModuleRow(doc: Document, g: Graph, m: ModuleId, r: ModuleRecord, p: Problem)
    requires Ids(doc.modules) == g.modules.Keys && doc.files == Listing(g.files)
    ensures p in ModuleProblems(doc, Row(m, r)) <==> ModuleWrong(g, m, r, p)
  {
    forall f ensures f in FilesUnder(doc.files, m) <==> f in g.files && g.files[f].moduleId == m {
      ListedFiles(g.files, m, f);
    }
  }

  lemma ModulesReported(doc: Document, g: Graph, p: Problem)
    requires Renders(doc, g)
    ensures ReportsModules(doc, p) <==> WrongModule(g, p)
  {
    ListingIds(g.modules);
    if ReportsModules(doc, p) {
      var i :| 0 <= i < |doc.modules| && p in ModuleProblems(doc, doc.modules[i]);
      RowIsListed(g.modules, i);
      ModuleRow(doc, g, doc.modules[i].key, doc.modules[i].value, p);
    }
    if WrongModule(g, p) {
      var i := ListedAt(g.modules, p.key);
      ModuleRow(doc, g, p.key, g.modules[p.key], p);
      assert p in ModuleProblems(doc, doc.modules[i]);
    }
  }

  lemma FilesReported(doc: Document, g: Graph, p: Problem)
    requires Renders(doc, g)
    ensures ReportsFiles(doc, p) <==> WrongFile(g, p)
  {
    ListingIds(g.modules);
    if ReportsFiles(doc, p) {
      var i :| 0 <= i < |doc.files| && p in FileProblems(doc, doc.files[i]);
      RowIsListed(g.files, i);
    }
    if WrongFile(g, p) {
      var i := ListedAt(g.files, p.key);
      assert p in FileProblems(doc, doc.files[i]);
    }
  }

  lemma SymbolRow(doc: Document, g: Graph, byPath: map<string, Row<FileRecord>>, q: string, p: Problem)
    requires q in g.symbols && Ids(doc.symbols) == g.symbols.Keys && byPath.Keys == g.files.Keys
    requires forall f | f in g.files :: byPath[f] == Row(f, g.files[f])
    ensures p in SymbolProblems(doc, byPath, Row(q, g.symbols[q])) ==> WrongSymbol(g, p)
    ensures WrongSymbol(g, p) && p.key == q ==> p in SymbolProblems(doc, byPath, Row(q, g.symbols[q]))
  {
  }

  lemma SymbolsReported(doc: Document, g: Graph, p: Problem)
    requires Renders(doc, g)
    ensures ReportsSymbols(doc, p) <==> WrongSymbol(g, p)
  {
    ListingIds(g.symbols);
    ListingLookup(g.files);
    if ReportsSymbols(doc, p) {
      var i :| 0 <= i < |doc.symbols| && p in SymbolProblems(doc, LastByKey(doc.files), doc.symbols[i]);
      RowIsListed(g.symbols, i);
      SymbolRow(doc, g, LastByKey(doc.files), doc.symbols[i].key, p);
    }
    if WrongSymbol(g, p) {
      var i := ListedAt(g.symbols, p.key);
      SymbolRow(doc, g, LastByKey(doc.files), p.key, p);
      assert p in SymbolProblems(doc, LastByKey(doc.files), doc.symbols[i]);
    }
  }

  lemma CallRow(doc: Document, symbols: Symbols, byQual: map<string, Row<Symbol>>, q: string, p: Problem)
    requires q in symbols && Ids(doc.symbols) == symbols.Keys == byQual.Keys
    requires forall t | t in symbols :: byQual[t] == Row(t, symbols[t])
    ensures p in CallProblems(doc, byQual, Row(q, symbols[q])) ==> WrongCall(symbols, p)
    ensures WrongCall(symbols, p) && p.key == q ==> p in CallProblems(doc, byQual, Row(q, symbols[q]))
  {
  }

  lemma CallsReported(doc: Document, symbols: Symbols, p: Problem)
    requires doc.symbols == Listing(symbols)
    ensures ReportsCalls(doc, p) <==> WrongCall(symbols, p)
  {
    ListingIds(symbols);
    ListingLookup(symbols);
    if ReportsCalls(doc, p) {
      var i :| 0 <= i < |doc.symbols| && p in CallProblems(doc, LastByKey(doc.symbols), doc.symbols[i]);
      RowIsListed(symbols, i);
      CallRow(doc, symbols, LastByKey(doc.symbols), doc.symbols[i].key, p);
    }
    if WrongCall(symbols, p) {
      var i := ListedAt(symbols, p.key);
      CallRow(doc, symbols, LastByKey(doc.symbols), p.key, p);
      assert p in CallProblems(doc, LastByKey(doc.symbols), doc.symbols[i]);
    }
  }

  lemma DependencyRow(doc: Document, g: Graph, e: Edge, p: Problem)
    requires e in g.dependencies && Ids(doc.modules) == g.modules.Keys
    ensures p in EdgeProblems(doc, e, g.dependencies[e]) ==> WrongDependency(g, p)
    ensures WrongDependency(g, p) && p.edge == e ==> p in EdgeProblems(doc, e, g.dependencies[e])
  {
  }

  lemma DependenciesReported(doc: Document, g: Graph, p: Problem)
    requires Renders(doc, g) && Ids(doc.modules) == g.modules.Keys
    ensures ReportsEdges(doc, p) <==> WrongDependency(g, p)
  {
    if ReportsEdges(doc, p) {
      var i :| 0 <= i < |doc.dependencies| && p in EdgeProblems(doc, doc.dependencies[i].0, doc.dependencies[i].1);
      DependencyRow(doc, g, doc.dependencies[i].0, p);
    }
    if WrongDependency(g, p) {
      DependencyRow(doc, g, p.edge, p);
      var i :| 0 <= i < |doc.dependencies| && doc.dependencies[i] == (p.edge, g.dependencies[p.edge]);
      assert p in EdgeProblems(doc, doc.dependencies[i].0, doc.dependencies[i].1);
    }
  }

  lemma DriftReported(doc: Document, g: Graph, p: Problem)
    requires Renders(doc, g) && Ids(doc.modules) == g.modules.Keys
    ensures ReportsDrift(doc, p) <==> WrongDrift(g, p)
  {
    if WrongDrift(g, p) {
      var i :| 0 <= i < |doc.drift| && doc.drift[i] == p.edge;
      assert p in DriftProblems(doc, doc.drift[i]);
    }
  }

  lemma TestRow(doc: Document, g: Graph, t: Path, p: Problem)
    requires t in g.tests && Ids(doc.modules) == g.modules.Keys && Ids(doc.files) == g.files.Keys
    ensures p in TestProblems(doc, Row(t, g.tests[t])) ==> WrongTest(g, p)
    ensures WrongTest(g, p) && p.key == t ==> p in TestProblems(doc, Row(t, g.tests[t]))
  {
  }

  lemma TestsReported(doc: Document, g: Graph, p: Problem)
    requires Renders(doc, g)
    ensures ReportsTests(doc, p) <==> WrongTest(g, p)
  {
    ListingIds(g.modules);
    ListingIds(g.files);
    if ReportsTests(doc, p) {
      var i :| 0 <= i < |doc.tests| && p in TestProblems(doc, doc.tests[i]);
      RowIsListed(g.tests, i);
      TestRow(doc, g, doc.tests[i].key, p);
    }
    if WrongTest(g, p) {
      var i := ListedAt(g.tests, p.key);
      TestRow(doc, g, p.key, p);
      assert p in TestProblems(doc, doc.tests[i]);
    }
  }

  lemma NothingRepeats(doc: Document, g: Graph, p: Problem)
    requires Renders(doc, g)
    ensures !ReportsDuplicate(doc, p)
  {
    ListingRows(g.modules);
    ListingRows(g.files);
    ListingRows(g.symbols);
  }

  /** Validation reports exactly what is wrong with the graph, as exactly that problem. */
  lemma ReportedExactly(doc: Document, g: Graph, p: Problem)
    requires Renders(doc, g)
    ensures Reports(doc, p) <==> Wrong(g, p)
  {
    NothingRepeats(doc, g, p);
    ModulesReported(doc, g, p);
    FilesReported(doc, g, p);
    SymbolsReported(doc, g, p);
    CallsReported(doc, g.symbols, p);
    ListingIds(g.modules);
    DependenciesReported(doc, g, p);
    DriftReported(doc, g, p);
    TestsReported(doc, g, p);
  }

  /** Over any document: a repeated key is reported, and only that. */
  lemma DuplicatesReportedExactly(doc: Document)
    ensures (forall p :: !ReportsDuplicate(doc, p))
            <==> UniqueKeys(doc.modules) && UniqueKeys(doc.files) && UniqueKeys(doc.symbols)
    ensures forall k :: ReportsDuplicate(doc, DuplicateModule(k)) <==> Twice(doc.modules, k)
    ensures forall k :: ReportsDuplicate(doc, DuplicateFile(k)) <==> Twice(doc.files, k)
    ensures forall k :: ReportsDuplicate(doc, DuplicateSymbol(k)) <==> Twice(doc.symbols, k)
  {
    forall k ensures ReportsDuplicate(doc, DuplicateModule(k)) <==> Twice(doc.modules, k) { RepeatsTwice(doc.modules, k); }
    forall k ensures ReportsDuplicate(doc, DuplicateFile(k)) <==> Twice(doc.files, k) { RepeatsTwice(doc.files, k); }
    forall k ensures ReportsDuplicate(doc, DuplicateSymbol(k)) <==> Twice(doc.symbols, k) { RepeatsTwice(doc.symbols, k); }
    UniqueMeansOnce(doc.modules);
    UniqueMeansOnce(doc.files);
    UniqueMeansOnce(doc.symbols);
    forall p | ReportsDuplicate(doc, p)
      ensures p.DuplicateModule? || p.DuplicateFile? || p.DuplicateSymbol?
    {
    }
  }

  /** How many rows carry a key. */
  function Occurrences<T>(rows: seq<Row<T>>, k: string): nat {
    if rows == [] then 0
    else Occurrences(rows[..|rows| - 1], k) + if rows[|rows| - 1].key == k then 1 else 0
  }

  predicate Twice<T>(rows: seq<Row<T>>, k: string) { Occurrences(rows, k) >= 2 }

  lemma {:induction false} OccurrencesSeen<T>(rows: seq<Row<T>>, k: string)
    ensures Occurrences(rows, k) > 0 <==> exists i :: 0 <= i < |rows| && rows[i].key == k
  {
    if rows != [] {
      var init := rows[..|rows| - 1];
      OccurrencesSeen(init, k);
      if i :| 0 <= i < |init| && init[i].key == k { assert rows[i].key == k; }
      if i :| 0 <= i < |rows| && rows[i].key == k && i < |init| { assert init[i].key == k; }
    }
  }

  lemma {:induction false} RepeatsTwice<T>(rows: seq<Row<T>>, k: string)
    ensures Repeats(rows, k) <==> Twice(rows, k)
  {
    if rows != [] {
      var init := rows[..|rows| - 1];
      RepeatsTwice(init, k);
      OccurrencesSeen(init, k);
      assert forall i | 0 <= i < |init| :: init[i] == rows[i];
      if Repeats(init, k) {
        var i, j :| 0 <= i < j < |init| && init[i].key == k && init[j].key == k;
        assert rows[i].key == k && rows[j].key == k;
      }
      if Repeats(rows, k) && !Repeats(init, k) {
        var i, j :| 0 <= i < j < |rows| && rows[i].key == k && rows[j].key == k;
        assert j == |init| && init[i].key == k;
      }
      if rows[|init|].key == k && Occurrences(init, k) > 0 {
        var i :| 0 <= i < |init| && init[i].key == k;
        assert rows[i].key == k && rows[|init|].key == k;
      }
    }
  }

  lemma UniqueMeansOnce<T>(rows: seq<Row<T>>)
    ensures UniqueKeys(rows) <==> forall k :: !Twice(rows, k)
  {
    if !UniqueKeys(rows) {
      var i, j :| 0 <= i < j < |rows| && rows[i].key == rows[j].key;
      RepeatsTwice(rows, rows[i].key);
    }
    if k :| Twice(rows, k) {
      RepeatsTwice(rows, k);
      var i, j :| 0 <= i < j < |rows| && rows[i].key == k && rows[j].key == k;
    }
  }
}
