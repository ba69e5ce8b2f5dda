/** The imports, edges, module records, drift and tests of every built graph
    (tools/repo_graph.py, build_graph), in terms of the tree and the canonical documents. */
module EdgeFacts {
  import opened Wrappers
  import opened Ordering
  import opened RepoTree
  import opened RepoGraph
  import opened FileFacts

  // ---- Imports ----

  ghost predicate Heads(w: World, m: ModuleId, name: string) {
    name == w.moduleBase(m) || w.moduleBase(m) + "." <= name
  }

  /** Module `i` has the longest dotted base that heads the name, and is the first such. */
  ghost predicate Meant(w: World, modules: seq<ModuleId>, name: string, i: nat)
    requires i < |modules|
  {
    && Heads(w, modules[i], name)
    && (forall j | 0 <= j < |modules| && Heads(w, modules[j], name) ::
          |w.moduleBase(modules[j])| <= |w.moduleBase(modules[i])|)
    && (forall j | 0 <= j < i && Heads(w, modules[j], name) ::
          |w.moduleBase(modules[j])| < |w.moduleBase(modules[i])|)
  }

  lemma OneMoreModule(w: World, name: string, modules: seq<ModuleId>, m: ModuleId, i: nat)
    requires i < |modules| && Meant(w, modules, name, i)
    ensures Meant(w, modules + [m], name,
                  if Heads(w, m, name) && |w.moduleBase(m)| > |w.moduleBase(modules[i])| then |modules| else i)
  {
  }

  ghost predicate NoneMeant(w: World, modules: seq<ModuleId>, name: string) {
    forall j | 0 <= j < |modules| :: !Heads(w, modules[j], name)
  }

  lemma FirstModule(w: World, name: string, modules: seq<ModuleId>, m: ModuleId)
    requires NoneMeant(w, modules, name)
    ensures if Heads(w, m, name) then Meant(w, modules + [m], name, |modules|) else NoneMeant(w, modules + [m], name)
  {
  }

  lemma {:induction false} DottedModule(w: World, name: string, modules: seq<ModuleId>) returns (i: nat)
    ensures match ModuleForDotted(w, name, modules)
            case None => NoneMeant(w, modules, name)
            case Some(m) => i < |modules| && modules[i] == m && Meant(w, modules, name, i)
  {
    if modules == [] {
      i := 0;
    } else {
      var init, m := modules[..|modules| - 1], modules[|modules| - 1];
      assert modules == init + [m];
      i := DottedModule(w, name, init);
      if ModuleForDotted(w, name, init).None? {
        FirstModule(w, name, init, m);
        i := |init|;
      } else {
        OneMoreModule(w, name, init, m, i);
        if Heads(w, m, name) && |w.moduleBase(m)| > |w.moduleBase(init[i])| {
          i := |init|;
        }
      }
    }
  }

  lemma MeantOnce(w: World, modules: seq<ModuleId>, name: string, i: nat, j: nat)
    requires i < |modules| && j < |modules| && Meant(w, modules, name, i) && Meant(w, modules, name, j)
    ensures i == j
  {
  }

  /** A Python import reaches the module with the longest heading base; a Rust one names it. */
  ghost predicate Reaches(w: World, modules: seq<ModuleId>, p: Path, name: string, t: ModuleId) {
    match w.suffix(p)
    case PY => exists i :: 0 <= i < |modules| && modules[i] == t && Meant(w, modules, name, i)
    case RS => name == t && t in modules
    case _ => false
  }

  lemma ReachedExactly(w: World, modules: seq<ModuleId>, p: Path, name: string, t: ModuleId)
    ensures Reaches(w, modules, p, name, t) <==> ImportTarget(w, modules, p, name) == Some(t)
  {
    if w.suffix(p) == PY {
      var i := DottedModule(w, name, modules);
      if ModuleForDotted(w, name, modules).Some? {
        if j :| 0 <= j < |modules| && modules[j] == t && Meant(w, modules, name, j) {
          MeantOnce(w, modules, name, i, j);
        }
      }
    }
  }

  ghost predicate Imports(w: World, modules: seq<ModuleId>, p: Path, text: string, t: ModuleId) {
    && w.parse(p, text).Parsed?
    && exists name :: name in w.parse(p, text).imports && Reaches(w, modules, p, name, t)
  }

  lemma ImportedExactly(w: World, modules: seq<ModuleId>, p: Path, text: string, t: ModuleId)
    ensures t in FileImports(w, modules, p, text) <==> Imports(w, modules, p, text, t)
  {
    if w.parse(p, text).Parsed? {
      forall name ensures Reaches(w, modules, p, name, t) <==> ImportTarget(w, modules, p, name) == Some(t) {
        ReachedExactly(w, modules, p, name, t);
      }
      if name :| name in w.parse(p, text).imports && ImportTarget(w, modules, p, name) == Some(t) {
        assert Reaches(w, modules, p, name, t);
      }
    }
  }

  // ---- Edges ----

  /** A file that is no test lies in one module and imports another one. */
  ghost predicate Witness(w: World, modules: seq<ModuleId>, tree: Tree, files: map<Path, FileRecord>, e: Edge, p: Path) {
    && p in files && p in tree && !files[p].isTest && files[p].moduleId == e.source != e.target
    && Imports(w, modules, p, tree[p], e.target)
  }

  /** What justifies an edge: a declaration, or a file that imports. */
  ghost predicate Justified(w: World, c: Canon, tree: Tree, files: map<Path, FileRecord>, e: Edge) {
    && e.source in c.modules
    && (|| (e.kind == "declared" && e.target in c.info(e.source).declared)
        || (e.kind == "actual" && exists p :: Witness(w, c.modules, tree, files, e, p)))
  }

  lemma BuiltTable(w: World, c: Canon, tree: Tree)
    ensures var table := ImportRows(w, c, tree, Indexed(w, c.modules, tree));
            Build(w, c, tree).dependencies == BuildDependencies(c, table) && Build(w, c, tree).drift == BuildDrift(c, table)
  {
  }

  lemma WitnessedExactly(w: World, c: Canon, tree: Tree, e: Edge, p: Path)
    requires e.source != e.target
    ensures var indexed := Indexed(w, c.modules, tree);
            p in Evidence(ImportRows(w, c, tree, indexed), e.source, e.target)
            <==> Witness(w, c.modules, tree, FileRecords(w, c, indexed), e, p)
  {
    ImportedExactly(w, c.modules, p, TextOf(tree, p), e.target);
  }

  lemma ActualExactly(table: ImportTable, m: ModuleId, t: ModuleId)
    ensures t in Actual(table, m) <==> t != m && exists p :: p in Evidence(table, m, t)
  {
    if p :| p in Evidence(table, m, t) {
      assert p in table && table[p].source == m && t in table[p].targets;
    }
    if t in Actual(table, m) {
      var p :| p in table && table[p].source == m && t in table[p].targets && t != m;
      assert p in Evidence(table, m, t);
    }
  }

  lemma ReachedExactlyByFiles(w: World, c: Canon, tree: Tree, m: ModuleId, t: ModuleId)
    ensures var indexed := Indexed(w, c.modules, tree);
            t in Actual(ImportRows(w, c, tree, indexed), m)
            <==> exists p :: Witness(w, c.modules, tree, FileRecords(w, c, indexed), Edge(m, t, "actual"), p)
  {
    var indexed := Indexed(w, c.modules, tree);
    var table, files := ImportRows(w, c, tree, indexed), FileRecords(w, c, indexed);
    var e := Edge(m, t, "actual");
    ActualExactly(table, m, t);
    if t != m {
      forall p ensures p in Evidence(table, m, t) <==> Witness(w, c.modules, tree, files, e, p) {
        WitnessedExactly(w, c, tree, e, p);
      }
    }
  }

  lemma EdgeKeys(c: Canon, table: ImportTable, e: Edge)
    ensures e in BuildDependencies(c, table) <==>
              && e.source in c.modules
              && (|| (e.kind == "declared" && e.target in c.info(e.source).declared)
                  || (e.kind == "actual" && e.target in Actual(table, e.source)))
  {
    if e in DeclaredEdges(c) { assert e.kind == DECLARED; }
    if e in ActualEdges(table, ModuleSet(c)) { assert e.kind == ACTUAL; }
    if e.source in c.modules && e.kind == "declared" && e.target in c.info(e.source).declared {
      assert e == Edge(e.source, e.target, DECLARED);
      assert e in DeclaredEdges(c);
    }
    if e.source in c.modules && e.kind == "actual" && e.target in Actual(table, e.source) {
      assert e == Edge(e.source, e.target, ACTUAL);
      assert e in ActualEdges(table, ModuleSet(c));
    }
  }

  lemma EdgeSources(c: Canon, table: ImportTable, e: Edge)
    requires e in BuildDependencies(c, table)
    ensures BuildDependencies(c, table)[e] ==
              if e.kind == "declared" then c.declaredSources(e.source, e.target)
              else Sorted(Evidence(table, e.source, e.target))
  {
  }

  /** The edges are the declared ones and those between modules whose files import each other;
      an actual edge lists exactly the importing files, in order. */
  lemma EdgesExactly(w: World, c: Canon, tree: Tree, e: Edge)
    ensures var g := Build(w, c, tree);
            && (e in g.dependencies <==> Justified(w, c, tree, g.files, e))
            && (e in g.dependencies && e.kind == "declared" ==>
                  g.dependencies[e] == c.declaredSources(e.source, e.target))
            && (e in g.dependencies && e.kind == "actual" ==>
                  && Increasing(g.dependencies[e])
                  && forall p :: p in g.dependencies[e] <==> Witness(w, c.modules, tree, g.files, e, p))
  {
    var table := ImportRows(w, c, tree, Indexed(w, c.modules, tree));
    BuiltTable(w, c, tree);
    BuiltFiles(w, c, tree);
    EdgeKeys(c, table, e);
    ReachedExactlyByFiles(w, c, tree, e.source, e.target);
    if e in BuildDependencies(c, table) {
      EdgeSources(c, table, e);
      SortedListing(Evidence(table, e.source, e.target));
      if e.kind == "actual" {
        ActualExactly(table, e.source, e.target);
        forall p ensures p in Evidence(table, e.source, e.target)
                         <==> Witness(w, c.modules, tree, FileRecords(w, c, Indexed(w, c.modules, tree)), e, p) {
          WitnessedExactly(w, c, tree, e, p);
        }
      }
    }
  }

  // ---- Modules and drift ----

  /** A module record lists the files of the module, and the edges from and to it. */
  ghost predicate Summarises(g: Graph, m: ModuleId, r: ModuleRecord) {
    && Enumerates(r.files, iset p | p in g.files && g.files[p].moduleId == m)
    && Enumerates(r.actual, iset t | Edge(m, t, "actual") in g.dependencies)
    && Enumerates(r.dependedOnBy, iset n | Edge(n, m, "declared") in g.dependencies || Edge(n, m, "actual") in g.dependencies)
  }

  lemma BuiltModules(w: World, c: Canon, tree: Tree)
    ensures var g := Build(w, c, tree);
            g.modules == BuildModules(c, g.files, ImportRows(w, c, tree, Indexed(w, c.modules, tree)), g.dependencies)
  {
  }

  lemma ModuleExactly(w: World, c: Canon, tree: Tree, m: ModuleId)
    ensures var g := Build(w, c, tree);
            && (m in g.modules <==> m in c.modules)
            && (m in g.modules ==> g.modules[m].info == c.info(m) && Summarises(g, m, g.modules[m]))
  {
    var g := Build(w, c, tree);
    var table := ImportRows(w, c, tree, Indexed(w, c.modules, tree));
    BuiltTable(w, c, tree);
    BuiltModules(w, c, tree);
    if m in c.modules {
      SummaryOf(c, g, table, m);
    }
  }

  lemma SummaryOf(c: Canon, g: Graph, table: ImportTable, m: ModuleId)
    requires m in c.modules && g.dependencies == BuildDependencies(c, table)
    requires g.modules == BuildModules(c, g.files, table, g.dependencies)
    ensures m in g.modules && g.modules[m].info == c.info(m) && Summarises(g, m, g.modules[m])
  {
    var r := g.modules[m];
    SortedEnumerates(FilesOf(g.files, m), iset p | p in g.files && g.files[p].moduleId == m);
    forall t ensures t in Actual(table, m) <==> Edge(m, t, "actual") in g.dependencies {
      EdgeKeys(c, table, Edge(m, t, "actual"));
    }
    SortedEnumerates(Actual(table, m), iset t | Edge(m, t, "actual") in g.dependencies);
    forall n ensures n in DependedOnBy(g.dependencies, m) <==>
                       Edge(n, m, "declared") in g.dependencies || Edge(n, m, "actual") in g.dependencies {
      DependentOf(c, table, m, n);
    }
    SortedEnumerates(DependedOnBy(g.dependencies, m),
                iset n | Edge(n, m, "declared") in g.dependencies || Edge(n, m, "actual") in g.dependencies);
  }

  lemma DependentOf(c: Canon, table: ImportTable, m: ModuleId, n: ModuleId)
    ensures var deps := BuildDependencies(c, table);
            n in DependedOnBy(deps, m) <==> Edge(n, m, "declared") in deps || Edge(n, m, "actual") in deps
  {
    var deps := BuildDependencies(c, table);
    if n in DependedOnBy(deps, m) {
      var e :| e in deps && e.target == m && e.source == n;
      EdgeKeys(c, table, e);
      assert e == Edge(n, m, e.kind);
    }
    if Edge(n, m, "declared") in deps {
      assert Edge(n, m, "declared").source in DependedOnBy(deps, m);
    } else if Edge(n, m, "actual") in deps {
      assert Edge(n, m, "actual").source in DependedOnBy(deps, m);
    }
  }

  /** Drift is where declared and actual edges part, each side under its own kind. */
  lemma DriftExactly(w: World, c: Canon, tree: Tree, e: Edge)
    ensures var g := Build(w, c, tree);
            var declared, actual := Edge(e.source, e.target, "declared") in g.dependencies,
                                    Edge(e.source, e.target, "actual") in g.dependencies;
            e in g.drift <==>
              || (e.kind == "actual-without-declared" && actual && !declared)
              || (e.kind == "declared-without-actual" && declared && !actual)
  {
    var table := ImportRows(w, c, tree, Indexed(w, c.modules, tree));
    BuiltTable(w, c, tree);
    EdgeKeys(c, table, Edge(e.source, e.target, "declared"));
    EdgeKeys(c, table, Edge(e.source, e.target, "actual"));
    DriftKeys(c, table, e);
  }

  lemma DriftKeys(c: Canon, table: ImportTable, e: Edge)
    ensures e in BuildDrift(c, table) <==>
              && e.source in c.modules
              && (|| (e.kind == "actual-without-declared" && e.target in Actual(table, e.source) - c.info(e.source).declared)
                  || (e.kind == "declared-without-actual" && e.target in c.info(e.source).declared - Actual(table, e.source)))
  {
    if e in BuildDrift(c, table) {
      var m :| m in c.modules && e in DriftOf(c.info(m).declared, Actual(table, m), m);
      assert e.source == m;
    }
    if e.source in c.modules {
      assert e == Edge(e.source, e.target, e.kind);
      assert e in DriftOf(c.info(e.source).declared, Actual(table, e.source), e.source) ==> e in BuildDrift(c, table);
    }
  }

  // ---- Tests ----

  /** A test targets the first of its possible siblings that is another indexed file. */
  ghost predicate Targeted(w: World, files: map<Path, FileRecord>, p: Path, r: TestRecord) {
    && p in files && r.moduleId == files[p].moduleId
    && var candidates := w.siblings(p, r.moduleId);
       || (&& r.granularity == "file"
           && exists i :: && 0 <= i < |candidates| && r.targets == [candidates[i]] && Sibling(files, p, candidates[i])
                          && forall j | 0 <= j < i :: !Sibling(files, p, candidates[j]))
       || (&& r.granularity == "module" && r.targets == []
           && forall j | 0 <= j < |candidates| :: !Sibling(files, p, candidates[j]))
  }

  ghost predicate Sibling(files: map<Path, FileRecord>, p: Path, s: Path) {
    s in files && s != p
  }

  lemma {:induction false} FirstSibling(files: map<Path, FileRecord>, p: Path, candidates: seq<Path>)
    ensures match FirstHit(candidates, p, files.Keys)
            case None => forall j | 0 <= j < |candidates| :: !Sibling(files, p, candidates[j])
            case Some(s) => exists i :: && 0 <= i < |candidates| && candidates[i] == s && Sibling(files, p, s)
                                        && forall j | 0 <= j < i :: !Sibling(files, p, candidates[j])
  {
    if candidates != [] && !Sibling(files, p, candidates[0]) {
      FirstSibling(files, p, candidates[1..]);
      var hit := FirstHit(candidates[1..], p, files.Keys);
      if hit.Some? {
        var i :| && 0 <= i < |candidates[1..]| && candidates[1..][i] == hit.value
                 && forall j | 0 <= j < i :: !Sibling(files, p, candidates[1..][j]);
        assert candidates[i + 1] == hit.value;
        forall j | 0 <= j < i + 1 ensures !Sibling(files, p, candidates[j]) {
          assert j > 0 ==> candidates[j] == candidates[1..][j - 1];
        }
      } else {
        assert forall j | 0 < j < |candidates| :: candidates[j] == candidates[1..][j - 1];
      }
    }
  }

  lemma BuiltTests(w: World, c: Canon, tree: Tree)
    ensures var g := Build(w, c, tree);
            && g.tests == TestRecords(w, g.files)
            && g.validators == Validators(w, g.files.Keys) && g.header == c.header
  {
  }

  /** Tests and validators are found among the indexed files; the header is that of the
      canonical documents. */
  lemma TestsExactly(w: World, c: Canon, tree: Tree, p: Path)
    ensures var g := Build(w, c, tree);
            && (p in g.tests <==> p in g.files && w.isTest(p))
            && (p in g.tests ==> Targeted(w, g.files, p, g.tests[p]))
            && (p in g.validators <==> p in g.files && w.isValidator(p))
            && g.header == c.header
  {
    var g := Build(w, c, tree);
    BuiltFiles(w, c, tree);
    BuiltTests(w, c, tree);
    if p in g.files {
      TestMarks(w, c, Indexed(w, c.modules, tree), p);
    }
    if p in g.tests {
      TestIsTargeted(w, g.files, p);
    }
  }

  lemma TestIsTargeted(w: World, files: map<Path, FileRecord>, p: Path)
    requires p in files && files[p].isTest
    ensures Targeted(w, files, p, TestRecords(w, files)[p])
  {
    FirstSibling(files, p, w.siblings(p, files[p].moduleId));
  }

  lemma TestMarks(w: World, c: Canon, indexed: set<Path>, p: Path)
    requires p in FileRecords(w, c, indexed)
    ensures FileRecords(w, c, indexed)[p].isTest == w.isTest(p)
  {
  }
}
