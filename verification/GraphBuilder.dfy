/** The loops that build the graph (tools/repo_graph.py, build_graph), each proved against
    what the graph must contain. The patch of the index runs several of them too. */
module GraphBuilder {
  import opened Wrappers
  import opened Ordering
  import opened RepoTree
  import opened RepoGraph
  import opened RepoIndex
  import opened CallResolution

  // ---- Files ----

  method CollectFiles(w: World, c: Canon, tree: Tree) returns (files: map<Path, FileRecord>)
    ensures files == FileRecords(w, c, Indexed(w, c.modules, tree))
  {
    files := map[];
    var rest := tree.Keys;
    ghost var done: set<Path> := {};
    while rest != {}
      invariant rest <= tree.Keys && done == tree.Keys - rest
      invariant files == FileRecords(w, c, Indexed(w, c.modules, tree) * done)
      decreases rest
    {
      var p :| p in rest;
      ghost var files' := files;
      if Indexable(w, p) {
        var owner := OwningModule(p, c.modules);
        if owner.Some? {
          files := files[p := RecordFor(w, c.policy, p, owner.value, c.info(owner.value))];
        }
      }
      OneMoreFile(w, c, tree, done, p, files', files);
      rest, done := rest - {p}, done + {p};
    }
    assert Indexed(w, c.modules, tree) * done == Indexed(w, c.modules, tree);
  }

  lemma OneMoreFile(
    w: World, c: Canon, tree: Tree, done: set<Path>, p: Path, a: map<Path, FileRecord>, b: map<Path, FileRecord>)
    requires p in tree && a == FileRecords(w, c, Indexed(w, c.modules, tree) * done)
    requires b == if p in Indexed(w, c.modules, tree)
                  then a[p := RecordFor(w, c.policy, p, ModuleOf(c.modules, p), c.info(ModuleOf(c.modules, p)))]
                  else a
    ensures b == FileRecords(w, c, Indexed(w, c.modules, tree) * (done + {p}))
  {
    if p !in Indexed(w, c.modules, tree) {
      assert Indexed(w, c.modules, tree) * (done + {p}) == Indexed(w, c.modules, tree) * done;
    }
  }

  // ---- Symbols ----

  ghost predicate Clashes(w: World, known: Symbols, sites: set<Site>) {
    !UniqueNames(w, sites) || exists s :: s in sites && NameOf(w, s) in known
  }

  /** Adds the symbols of freshly parsed definitions; fails as soon as a qualified name
      clashes, as the graph validator does before anything is published. */
  method AddSymbols(w: World, records: map<Path, FileRecord>, sites: set<Site>, known: Symbols)
    returns (clash: bool, symbols: Symbols)
    requires Recorded(records, sites)
    ensures clash <==> Clashes(w, known, sites)
    ensures !clash ==> symbols == known + BareSymbols(w, records, sites)
  {
    symbols := known;
    clash := false;
    var rest := sites;
    ghost var done: set<Site> := {};
    while rest != {}
      invariant done + rest == sites && done !! rest
      invariant Added(w, records, known, done, symbols)
      decreases rest
    {
      var s :| s in rest;
      var q := NameOf(w, s);
      if q in symbols {
        ClashIsReal(w, known, done, s, sites);
        return true, symbols;
      }
      OneMoreSite(w, records, known, done, symbols, s);
      symbols := symbols[q := SymbolFor(w, records[s.file], s)];
      rest, done := rest - {s}, done + {s};
    }
    assert done == sites;
  }

  ghost predicate Added(w: World, records: map<Path, FileRecord>, known: Symbols, done: set<Site>, symbols: Symbols) {
    && Recorded(records, done)
    && !Clashes(w, known, done)
    && symbols == known + BareSymbols(w, records, done)
  }

  lemma ClashIsReal(w: World, known: Symbols, done: set<Site>, s: Site, sites: set<Site>)
    requires done <= sites && s in sites && s !in done
    requires NameOf(w, s) in known || NameOf(w, s) in Names(w, done)
    ensures Clashes(w, known, sites)
  {
    if NameOf(w, s) !in known {
      var t := SiteNamed(w, done, NameOf(w, s));
      assert t in sites && t != s;
    }
  }

  lemma OneMoreSite(
    w: World, records: map<Path, FileRecord>, known: Symbols, done: set<Site>, symbols: Symbols, s: Site)
    requires Added(w, records, known, done, symbols)
    requires s.file in records && NameOf(w, s) !in symbols
    ensures Added(w, records, known, done + {s}, symbols[NameOf(w, s) := SymbolFor(w, records[s.file], s)])
  {
    var bare := BareSymbols(w, records, done);
    OneMoreName(w, records, done, s);
    UnionUpdate(known, bare, NameOf(w, s), SymbolFor(w, records[s.file], s));
  }

  lemma UnionUpdate<K, V>(a: map<K, V>, b: map<K, V>, k: K, v: V)
    ensures (a + b)[k := v] == a + b[k := v]
  {
  }

  lemma OneMoreName(w: World, records: map<Path, FileRecord>, done: set<Site>, s: Site)
    requires Recorded(records, done + {s}) && UniqueNames(w, done) && NameOf(w, s) !in Names(w, done)
    ensures UniqueNames(w, done + {s})
    ensures Names(w, done + {s}) == Names(w, done) + {NameOf(w, s)}
    ensures BareSymbols(w, records, done + {s})
            == BareSymbols(w, records, done)[NameOf(w, s) := SymbolFor(w, records[s.file], s)]
  {
    forall t | t in done ensures NameOf(w, t) != NameOf(w, s) {
      assert NameOf(w, t) in Names(w, done);
    }
    forall q | q in Names(w, done) ensures SiteNamed(w, done + {s}, q) == SiteNamed(w, done, q) {
    }
    assert SiteNamed(w, done + {s}, NameOf(w, s)) == s;
  }

  // ---- Calls ----

  /** Lookup from dotted to qualified names. */
  method DottedIndex(symbols: Symbols) returns (byDotted: map<string, string>)
    requires DottedUnique(symbols)
    ensures byDotted == ByDotted(symbols)
  {
    byDotted := map[];
    var rest := symbols.Keys;
    while rest != {}
      invariant rest <= symbols.Keys
      invariant forall d | d in byDotted :: byDotted[d] in symbols.Keys - rest && symbols[byDotted[d]].dotted == d
      invariant forall q | q in symbols && q !in rest :: symbols[q].dotted in byDotted
      decreases rest
    {
      var q :| q in rest;
      byDotted := byDotted[symbols[q].dotted := q];
      rest := rest - {q};
    }
    assert byDotted.Keys == DottedSet(symbols);
  }

  function RawRefs(w: World, p: Path, text: string): map<string, set<string>>
    requires UniqueNames(w, FileSites(w, p, text))
  {
    map s | s in FileSites(w, p, text) :: NameOf(w, s) := s.definition.refs
  }

  /** Resolves the calls of one more Python file into the symbol records. */
  method ResolveFile(
    w: World, byDotted: map<string, string>, tree: Tree, p: Path, symbols: Symbols,
    ghost bare: Symbols, ghost done: set<Path>)
    returns (r: Symbols)
    requires IsPython(w, p) && UniqueNames(w, Sites(w, tree, done + {p}))
    requires symbols == PatchCalls(w, bare, byDotted, tree, Sites(w, tree, done))
    ensures r == PatchCalls(w, bare, byDotted, tree, Sites(w, tree, done + {p}))
  {
    var text := TextOf(tree, p);
    SitesGrow(w, tree, done, p);
    var resolved := ResolveFileCalls(byDotted, Aliases(w, p, text), RawRefs(w, p, text), LocalMap(w, p, text));
    forall s | s in FileSites(w, p, text) ensures resolved[NameOf(w, s)] == CallsAt(w, byDotted, text, s) {
      CallTargetsAreResolved(w, byDotted, text, s);
    }
    OneMoreResolved(w, bare, byDotted, tree, done, p, resolved);
    r := map q | q in symbols :: if q in resolved then symbols[q].(calls := resolved[q]) else symbols[q];
  }

  /** Resolves the calls of the given Python files, in any order. */
  method ResolveFiles(w: World, byDotted: map<string, string>, tree: Tree, files: set<Path>, symbols: Symbols) returns (r: Symbols)
    requires UniqueNames(w, Sites(w, tree, files))
    requires forall p | p in files :: IsPython(w, p)
    ensures r == PatchCalls(w, symbols, byDotted, tree, Sites(w, tree, files))
  {
    r := symbols;
    var rest := files;
    ghost var done: set<Path> := {};
    assert r == PatchCalls(w, symbols, byDotted, tree, Sites(w, tree, done));
    while rest != {}
      invariant done + rest == files && done !! rest
      invariant r == PatchCalls(w, symbols, byDotted, tree, Sites(w, tree, done))
      decreases rest
    {
      var p :| p in rest;
      FewerSitesUnique(w, tree, done + {p}, files);
      r := ResolveFile(w, byDotted, tree, p, r, symbols, done);
      rest, done := rest - {p}, done + {p};
    }
    assert done == files;
  }

  lemma FewerSitesUnique(w: World, tree: Tree, some: set<Path>, files: set<Path>)
    requires some <= files && UniqueNames(w, Sites(w, tree, files))
    ensures UniqueNames(w, Sites(w, tree, some))
  {
    assert Sites(w, tree, some) <= Sites(w, tree, files);
  }

  lemma SitesGrow(w: World, tree: Tree, files: set<Path>, p: Path)
    ensures Sites(w, tree, files + {p}) == Sites(w, tree, files) + FileSites(w, p, TextOf(tree, p))
  {
  }

  lemma OneMoreResolved(
    w: World, symbols: Symbols, byDotted: map<string, string>, tree: Tree, done: set<Path>, p: Path,
    resolved: map<string, seq<string>>)
    requires UniqueNames(w, Sites(w, tree, done + {p}))
    requires Sites(w, tree, done + {p}) == Sites(w, tree, done) + FileSites(w, p, TextOf(tree, p))
    requires resolved.Keys == Names(w, FileSites(w, p, TextOf(tree, p)))
    requires forall s | s in FileSites(w, p, TextOf(tree, p)) ::
               resolved[NameOf(w, s)] == CallsAt(w, byDotted, TextOf(tree, p), s)
    ensures var before := PatchCalls(w, symbols, byDotted, tree, Sites(w, tree, done));
            PatchCalls(w, symbols, byDotted, tree, Sites(w, tree, done + {p}))
            == map q | q in before :: if q in resolved then before[q].(calls := resolved[q]) else before[q]
  {
    var sites, sites' := Sites(w, tree, done), Sites(w, tree, done + {p});
    forall q | q in Names(w, sites')
      ensures q in Names(w, sites) ==> SiteNamed(w, sites, q) == SiteNamed(w, sites', q)
      ensures q in resolved ==> resolved[q] == CallsAt(w, byDotted, TextOf(tree, p), SiteNamed(w, sites', q))
                                && SiteNamed(w, sites', q).file == p
      ensures q in Names(w, sites) || q in resolved
    {
      var s := SiteNamed(w, sites', q);
      if q in resolved {
        var t := SiteNamed(w, FileSites(w, p, TextOf(tree, p)), q);
        assert t == s;
      }
    }
  }

  // ---- Tests ----

  /** `test_targets`: the first known sibling source decides, else the module. */
  method TestTargets(w: World, p: Path, m: ModuleId, known: set<Path>) returns (r: TestRecord)
    ensures r == TestFor(w, p, m, known)
  {
    var candidates := w.siblings(p, m);
    for i := 0 to |candidates|
      invariant FirstHit(candidates, p, known) == FirstHit(candidates[i..], p, known)
    {
      if candidates[i] in known && candidates[i] != p {
        return TestRecord(m, [candidates[i]], "file");
      }
    }
    r := TestRecord(m, [], "module");
  }

  function TestsAt(w: World, files: map<Path, FileRecord>, ps: set<Path>): map<Path, TestRecord> {
    map p | p in ps && p in files :: TestFor(w, p, files[p].moduleId, files.Keys)
  }

  /** Test records of the given test files. */
  method CollectTests(w: World, files: map<Path, FileRecord>, ps: set<Path>) returns (tests: map<Path, TestRecord>)
    requires ps <= files.Keys
    ensures tests == TestsAt(w, files, ps)
  {
    tests := map[];
    var rest := ps;
    ghost var done: set<Path> := {};
    while rest != {}
      invariant done + rest == ps && done !! rest
      invariant tests == TestsAt(w, files, done)
      decreases rest
    {
      var p :| p in rest;
      var test := TestTargets(w, p, files[p].moduleId, files.Keys);
      assert TestsAt(w, files, done + {p}) == TestsAt(w, files, done)[p := test];
      tests := tests[p := test];
      rest, done := rest - {p}, done + {p};
    }
    assert done == ps;
  }

  /** Adds the test records of the given modules to the ones that are kept. */
  method AddTests(w: World, files: map<Path, FileRecord>, kept: map<Path, TestRecord>, affected: set<ModuleId>)
    returns (tests: map<Path, TestRecord>)
    ensures tests == PatchTests(w, files, kept, affected)
  {
    var more := CollectTests(w, files, set p | p in files && files[p].isTest && files[p].moduleId in affected);
    tests := (map t | t in kept && kept[t].moduleId !in affected :: kept[t]) + more;
  }

  ghost predicate OneTarget(tests: map<Path, TestRecord>) {
    forall t | t in tests :: |tests[t].targets| <= 1
  }

  /** The lists built so far name, for every file, the processed tests that target it. */
  ghost predicate ListsTests(tests: map<Path, TestRecord>, done: set<Path>, index: map<Path, seq<Path>>) {
    && (forall p | p in index :: NoDuplicates(index[p]))
    && (forall p, t | p in index :: t in index[p] <==> t in done && t in tests && p in tests[t].targets)
    && forall p, t | t in done && t in tests && p in tests[t].targets :: p in index
  }

  /** `file_test_map`: per target file, the tests that name it. */
  method FileTestMap(tests: map<Path, TestRecord>) returns (index: map<Path, seq<Path>>)
    requires OneTarget(tests)
    ensures ListsTests(tests, tests.Keys, index)
  {
    index := map[];
    var rest := tests.Keys;
    ghost var done: set<Path> := {};
    while rest != {}
      invariant done + rest == tests.Keys && done !! rest
      invariant ListsTests(tests, done, index)
      decreases rest
    {
      var t :| t in rest;
      if tests[t].targets != [] {
        var p := tests[t].targets[0];
        assert tests[t].targets == [p];
        index := index[p := (if p in index then index[p] else []) + [t]];
      }
      rest, done := rest - {t}, done + {t};
    }
    assert done == tests.Keys;
  }

  lemma ListedTests(tests: map<Path, TestRecord>, index: map<Path, seq<Path>>, p: Path)
    requires ListsTests(tests, tests.Keys, index)
    ensures Sort(if p in index then index[p] else []) == Sorted(TestsOf(tests, p))
  {
    var list: seq<Path> := if p in index then index[p] else [];
    SortIsSorted(list);
    assert TestsOf(tests, p) == set t | t in list;
  }

  /** Attaches the direct tests to the symbols of the given modules. */
  method AttachTests(symbols: Symbols, tests: map<Path, TestRecord>, affected: set<ModuleId>) returns (r: Symbols)
    requires OneTarget(tests)
    ensures r == PatchSymbolTests(symbols, tests, affected)
  {
    var index := FileTestMap(tests);
    forall p ensures Sort(if p in index then index[p] else []) == Sorted(TestsOf(tests, p)) {
      ListedTests(tests, index, p);
    }
    r := map q | q in symbols ::
      var p := symbols[q].file;
      if symbols[q].moduleId in affected
      then symbols[q].(tests := Sort(if p in index then index[p] else []))
      else symbols[q];
  }

  // ---- Dependencies ----

  type Actuals = map<ModuleId, set<ModuleId>>
  type Evidences = map<(ModuleId, ModuleId), set<Path>>

  function ActualIn(actual: Actuals, m: ModuleId): set<ModuleId> {
    if m in actual then actual[m] else {}
  }

  function EvidenceIn(evidence: Evidences, m: ModuleId, t: ModuleId): set<Path> {
    if (m, t) in evidence then evidence[(m, t)] else {}
  }

  /** `record_actual_edge` */
  method RecordActualEdge(actual: Actuals, evidence: Evidences, source: ModuleId, target: ModuleId, p: Path)
    returns (actual': Actuals, evidence': Evidences)
    ensures forall m :: ActualIn(actual', m) ==
              ActualIn(actual, m) + if m == source && target != source then {target} else {}
    ensures forall m, t :: EvidenceIn(evidence', m, t) ==
              EvidenceIn(evidence, m, t) + if m == source && t == target && target != source then {p} else {}
  {
    actual', evidence' := actual, evidence;
    if target != source {
      actual' := actual[source := ActualIn(actual, source) + {target}];
      evidence' := evidence[(source, target) := EvidenceIn(evidence, source, target) + {p}];
    }
  }

  /** The edges recorded so far are those of the given rows. */
  ghost predicate RecordsRows(table: ImportTable, actual: Actuals, evidence: Evidences) {
    && (forall m :: ActualIn(actual, m) == Actual(table, m))
    && forall m, t | t != m :: EvidenceIn(evidence, m, t) == Evidence(table, m, t)
  }

  /** One file's imports join the recorded edges. */
  method RecordRow(ghost table: ImportTable, actual: Actuals, evidence: Evidences, p: Path, row: ImportRow)
    returns (actual': Actuals, evidence': Evidences)
    requires RecordsRows(table, actual, evidence) && p !in table
    ensures RecordsRows(table[p := row], actual', evidence')
  {
    actual', evidence' := actual, evidence;
    var rest := row.targets;
    ghost var done: set<ModuleId> := {};
    OneMoreRow(table, p, ImportRow(row.source, {}));
    while rest != {}
      invariant done + rest == row.targets && done !! rest
      invariant RecordsRows(table[p := ImportRow(row.source, done)], actual', evidence')
      decreases rest
    {
      var target :| target in rest;
      ghost var a, e := actual', evidence';
      actual', evidence' := RecordActualEdge(actual', evidence', row.source, target, p);
      OneMoreTarget(table, p, row.source, done, target, a, e, actual', evidence');
      rest, done := rest - {target}, done + {target};
    }
    assert done == row.targets;
  }

  lemma OneMoreTarget(
    table: ImportTable, p: Path, source: ModuleId, done: set<ModuleId>, target: ModuleId,
    actual: Actuals, evidence: Evidences, actual': Actuals, evidence': Evidences)
    requires p !in table && RecordsRows(table[p := ImportRow(source, done)], actual, evidence)
    requires forall m :: ActualIn(actual', m) ==
               ActualIn(actual, m) + if m == source && target != source then {target} else {}
    requires forall m, t :: EvidenceIn(evidence', m, t) ==
               EvidenceIn(evidence, m, t) + if m == source && t == target && target != source then {p} else {}
    ensures RecordsRows(table[p := ImportRow(source, done + {target})], actual', evidence')
  {
    var row, row' := ImportRow(source, done), ImportRow(source, done + {target});
    OneMoreRow(table, p, row);
    OneMoreRow(table, p, row');
    forall m ensures ActualIn(actual', m) == Actual(table[p := row'], m) {
      assert ActualIn(actual, m) == Actual(table[p := row], m);
      OneMoreElement(Actual(table, m), done, target, m);
    }
    forall m, t | t != m ensures EvidenceIn(evidence', m, t) == Evidence(table[p := row'], m, t) {
      assert EvidenceIn(evidence, m, t) == Evidence(table[p := row], m, t);
    }
  }

  lemma OneMoreElement(a: set<ModuleId>, done: set<ModuleId>, t: ModuleId, m: ModuleId)
    ensures a + (done + {t} - {m}) == a + (done - {m}) + if t != m then {t} else {}
  {
  }

  lemma OneMoreRow(table: ImportTable, p: Path, row: ImportRow)
    requires p !in table
    ensures forall m :: Actual(table[p := row], m) == Actual(table, m) + if m == row.source then row.targets - {m} else {}
    ensures forall m, t :: Evidence(table[p := row], m, t) ==
              Evidence(table, m, t) + if m == row.source && t in row.targets then {p} else {}
  {
    var table' := table[p := row];
    forall m ensures Actual(table', m) == Actual(table, m) + if m == row.source then row.targets - {m} else {} {
      forall t ensures t in Actual(table', m) <==> t in Actual(table, m) + if m == row.source then row.targets - {m} else {} {
        if t in Actual(table, m) {
          var f :| f in table && table[f].source == m && t in table[f].targets;
          assert f in table';
        }
        if t in Actual(table', m) {
          var f :| f in table' && table'[f].source == m && t in table'[f].targets;
        }
        if m == row.source && t in row.targets {
          assert p in table';
        }
      }
    }
  }

  /** Actual edges with their evidence, from the import rows of the files. */
  method CollectActual(table: ImportTable) returns (actual: Actuals, evidence: Evidences)
    ensures RecordsRows(table, actual, evidence)
  {
    actual, evidence := map[], map[];
    var rest := table.Keys;
    ghost var seen: ImportTable := map[];
    while rest != {}
      invariant rest <= table.Keys
      invariant seen == map p | p in table && p !in rest :: table[p]
      invariant RecordsRows(seen, actual, evidence)
      decreases rest
    {
      var p :| p in rest;
      actual, evidence := RecordRow(seen, actual, evidence, p, table[p]);
      seen := seen[p := table[p]];
      rest := rest - {p};
    }
    assert seen == table;
  }

  /** Sorted, evidenced actual edges of the given modules. */
  method EdgesFrom(ghost table: ImportTable, actual: Actuals, evidence: Evidences, modules: set<ModuleId>)
    returns (edges: map<Edge, seq<string>>)
    requires RecordsRows(table, actual, evidence)
    ensures edges == ActualEdges(table, modules)
  {
    edges := map m, t | m in modules && t in ActualIn(actual, m) :: Edge(m, t, ACTUAL) := Sorted(EvidenceIn(evidence, m, t));
    forall m, t | t in Actual(table, m) ensures t != m && EvidenceIn(evidence, m, t) == Evidence(table, m, t) {
    }
  }

  /** `depended_on_by`: the inverse of the edges, per module. */
  method InvertDependencies(dependencies: map<Edge, seq<string>>, modules: set<ModuleId>)
    returns (dependents: map<ModuleId, set<ModuleId>>)
    ensures dependents.Keys == modules
    ensures forall m | m in modules :: dependents[m] == DependedOnBy(dependencies, m)
  {
    dependents := map m | m in modules :: {};
    var rest := dependencies.Keys;
    ghost var done: set<Edge> := {};
    while rest != {}
      invariant done + rest == dependencies.Keys && done !! rest
      invariant dependents.Keys == modules
      invariant forall m | m in modules :: dependents[m] == set e | e in done && e.target == m :: e.source
      decreases rest
    {
      var e :| e in rest;
      if e.target in dependents {
        dependents := dependents[e.target := dependents[e.target] + {e.source}];
      }
      rest, done := rest - {e}, done + {e};
    }
    assert done == dependencies.Keys;
  }

  // ---- Counts ----

  /** `graph_counts`, second half: the degree sums, summed record by record. */
  method CountRelationships(modules: map<ModuleId, ModuleRecord>, symbols: Symbols) returns (n: nat)
    ensures n == ModuleDegrees(modules, Sorted(modules.Keys)) + SymbolDegrees(symbols, Sorted(symbols.Keys))
  {
    var keys := Sorted(modules.Keys);
    var total := 0;
    for i := 0 to |keys|
      invariant total == ModuleDegrees(modules, keys[..i])
    {
      assert keys[..i + 1][..i] == keys[..i];
      total := total + if keys[i] in modules then ModuleDegree(modules[keys[i]]) else 0;
    }
    assert keys[..|keys|] == keys;
    var names := Sorted(symbols.Keys);
    n := 0;
    for i := 0 to |names|
      invariant n == SymbolDegrees(symbols, names[..i])
    {
      assert names[..i + 1][..i] == names[..i];
      n := n + if names[i] in symbols then SymbolDegree(symbols[names[i]]) else 0;
    }
    assert names[..|names|] == names;
    n := total + n;
  }

  method AssembleGraph(
    header: Header, modules: map<ModuleId, ModuleRecord>, files: map<Path, FileRecord>, symbols: Symbols,
    dependencies: map<Edge, seq<string>>, drift: set<Edge>, tests: map<Path, TestRecord>,
    validators: set<Path>, unresolved: Notes)
    returns (g: Graph)
    ensures g == Assemble(header, modules, files, symbols, dependencies, drift, tests, validators, unresolved)
  {
    var relationships := CountRelationships(modules, symbols);
    g := Graph(header, modules, files, symbols, dependencies, drift, tests, validators, unresolved,
      |header.domains| + |header.owners| + |header.languages|
        + |modules| + |files| + |symbols| + |tests| + |validators|,
      relationships);
  }

  // ---- The full build ----

  datatype BuildError = DuplicateName

  lemma CallsAreDistinct(w: World, symbols: Symbols, byDotted: map<string, string>, tree: Tree, sites: set<Site>)
    requires CallsDistinct(symbols)
    ensures CallsDistinct(PatchCalls(w, symbols, byDotted, tree, sites))
  {
    forall q | q in symbols && q in Names(w, sites)
      ensures NoDuplicates(CallsAt(w, byDotted, TextOf(tree, SiteNamed(w, sites, q).file), SiteNamed(w, sites, q)))
    {
      var s := SiteNamed(w, sites, q);
      SortedListing(CallTargets(w, byDotted, TextOf(tree, s.file), s));
      SortedDistinct(CallTargets(w, byDotted, TextOf(tree, s.file), s));
    }
  }

  lemma SortedDistinct(s: set<string>)
    ensures NoDuplicates(Sorted(s))
  {
    SortedListing(s);
    forall i, j | 0 <= i < j < |Sorted(s)| ensures Sorted(s)[i] != Sorted(s)[j] {
      BelowAsymmetric(Sorted(s)[i], Sorted(s)[j]);
    }
  }

  lemma PythonSiteAt(w: World, tree: Tree, files: set<Path>, python: set<Path>, q: string)
    requires UniqueNames(w, Sites(w, tree, files)) && q in Names(w, Sites(w, tree, files))
    requires python == set p | p in files && IsPython(w, p)
    ensures var sites, some := Sites(w, tree, files), Sites(w, tree, python);
            && (q in Names(w, some) <==> IsPython(w, SiteNamed(w, sites, q).file))
            && (q in Names(w, some) ==> SiteNamed(w, some, q) == SiteNamed(w, sites, q))
  {
    var sites, some := Sites(w, tree, files), Sites(w, tree, python);
    var s := SiteNamed(w, sites, q);
    if IsPython(w, s.file) { assert s in some; }
  }

  /** Resolving the Python files resolves everything: other files have no calls. */
  lemma PythonSitesSuffice(w: World, files: map<Path, FileRecord>, tree: Tree, python: set<Path>)
    requires UniqueNames(w, Sites(w, tree, files.Keys))
    requires python == set p | p in files && IsPython(w, p)
    ensures var sites := Sites(w, tree, files.Keys);
            var bare := BareSymbols(w, files, sites);
            PatchCalls(w, bare, ByDotted(bare), tree, Sites(w, tree, python)) == WithCalls(w, files, tree, sites)
  {
    var sites := Sites(w, tree, files.Keys);
    forall q | q in Names(w, sites)
      ensures q in Names(w, Sites(w, tree, python)) <==> IsPython(w, SiteNamed(w, sites, q).file)
      ensures q in Names(w, Sites(w, tree, python)) ==> SiteNamed(w, Sites(w, tree, python), q) == SiteNamed(w, sites, q)
    {
      PythonSiteAt(w, tree, files.Keys, python, q);
    }
  }

  /** `resolve_symbol_calls`: resolve every Python file, then rebuild the inverse lists. */
  method ResolveSymbolCalls(w: World, tree: Tree, files: map<Path, FileRecord>, bare: Symbols) returns (symbols: Symbols)
    requires UniqueNames(w, Sites(w, tree, files.Keys))
    requires bare == BareSymbols(w, files, Sites(w, tree, files.Keys))
    ensures symbols == WithCallers(WithCalls(w, files, tree, Sites(w, tree, files.Keys)))
  {
    BareDottedUnique(w, files, Sites(w, tree, files.Keys));
    var byDotted := DottedIndex(bare);
    var python := set p | p in files && IsPython(w, p);
    FewerSitesUnique(w, tree, python, files.Keys);
    PythonSitesSuffice(w, files, tree, python);
    CallsAreDistinct(w, bare, byDotted, tree, Sites(w, tree, python));
    symbols := ResolveFiles(w, byDotted, tree, python, bare);
    symbols := RebuildCalledBy(symbols);
  }

  /** Attaches the direct tests to every symbol. */
  method AttachAllTests(symbols: Symbols, tests: map<Path, TestRecord>) returns (r: Symbols)
    requires OneTarget(tests)
    ensures r == WithTests(symbols, tests)
  {
    r := AttachTests(symbols, tests, set q | q in symbols :: symbols[q].moduleId);
  }

  method CollectDrift(c: Canon, ghost table: ImportTable, actual: Actuals, ghost evidence: Evidences) returns (drift: set<Edge>)
    requires RecordsRows(table, actual, evidence)
    ensures drift == BuildDrift(c, table)
  {
    drift := set m, e | m in c.modules && e in DriftOf(c.info(m).declared, ActualIn(actual, m), m) :: e;
  }

  method CollectModules(
    c: Canon, files: map<Path, FileRecord>, ghost table: ImportTable, actual: Actuals, ghost evidence: Evidences,
    dependencies: map<Edge, seq<string>>) returns (records: map<ModuleId, ModuleRecord>)
    requires RecordsRows(table, actual, evidence)
    ensures records == BuildModules(c, files, table, dependencies)
  {
    var dependents := InvertDependencies(dependencies, ModuleSet(c));
    records := map m | m in c.modules ::
      ModuleRecord(c.info(m), Sorted(FilesOf(files, m)), Sorted(ActualIn(actual, m)), Sorted(dependents[m]));
  }

  /** Edges, drift and module records of a full build. */
  method BuildModuleSections(c: Canon, files: map<Path, FileRecord>, table: ImportTable)
    returns (dependencies: map<Edge, seq<string>>, drift: set<Edge>, records: map<ModuleId, ModuleRecord>)
    ensures dependencies == BuildDependencies(c, table)
    ensures drift == BuildDrift(c, table)
    ensures records == BuildModules(c, files, table, dependencies)
  {
    var actual, evidence := CollectActual(table);
    var edges := EdgesFrom(table, actual, evidence, ModuleSet(c));
    dependencies := DeclaredEdges(c) + edges;
    drift := CollectDrift(c, table, actual, evidence);
    records := CollectModules(c, files, table, actual, evidence, dependencies);
  }

  /** Symbols with calls, callers and tests, unless two definitions share a qualified name. */
  method CollectSymbols(w: World, tree: Tree, files: map<Path, FileRecord>, tests: map<Path, TestRecord>)
    returns (clash: bool, symbols: Symbols)
    requires OneTarget(tests)
    ensures clash <==> !UniqueNames(w, Sites(w, tree, files.Keys))
    ensures !clash ==> symbols == WithTests(WithCallers(WithCalls(w, files, tree, Sites(w, tree, files.Keys))), tests)
  {
    clash, symbols := AddSymbols(w, files, Sites(w, tree, files.Keys), map[]);
    if !clash {
      symbols := ResolveSymbolCalls(w, tree, files, symbols);
      symbols := AttachAllTests(symbols, tests);
    }
  }

  /** `build_graph` */
  method BuildGraph(w: World, c: Canon, tree: Tree) returns (r: Result<Graph, BuildError>)
    ensures r.Ok? <==> NamesUnique(w, c.modules, tree)
    ensures r.Ok? ==> r.value == Build(w, c, tree)
  {
    var files := CollectFiles(w, c, tree);
    assert files.Keys == Indexed(w, c.modules, tree);
    var tests := CollectTests(w, files, set p | p in files && files[p].isTest);
    assert tests == TestRecords(w, files);
    var clash, symbols := CollectSymbols(w, tree, files, tests);
    if clash {
      return Err(DuplicateName);
    }
    var table := ImportRows(w, c, tree, files.Keys);
    var dependencies, drift, records := BuildModuleSections(c, files, table);
    var g := AssembleGraph(c.header, records, files, symbols, dependencies, drift, tests, Validators(w, files.Keys),
                           AddNotes(c.notes, FileNotes(w, c, tree, files.Keys)));
    r := Ok(g);
  }
}
