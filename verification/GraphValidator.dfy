/** Referential validation of a published graph (tools/validate_repo_graph.py, validate_graph):
    what it reports. GraphSoundness proves what a built graph passes. */
module GraphValidator {
  import opened Ordering
  import opened RepoTree
  import opened RepoGraph
  import opened GraphDocument
  import opened GraphQueries

  datatype Problem =
    | DuplicateModule(key: string) | DuplicateFile(key: string) | DuplicateSymbol(key: string)
    | UnknownDependency(key: string, target: string) | FilesDisagree(key: string)
    | UnknownModule(key: string) | OutsideModule(key: string)
    | FileNotIndexed(key: string) | ModuleDisagrees(key: string) | LanguageDisagrees(key: string)
    | UnknownCallee(key: string, target: string) | UnknownCaller(key: string, target: string)
    | Asymmetric(key: string, target: string)
    | UnknownSource(edge: Edge) | UnknownTarget(edge: Edge) | InvalidKind(edge: Edge) | NoSources(edge: Edge)
    | DriftUnknown(edge: Edge) | DriftKind(edge: Edge)
    | TestUnknownModule(key: string) | TestUnknownTarget(key: string, target: string) | TestGranularity(key: string)

  function Ids<T>(rows: seq<Row<T>>): set<string> {
    set i | 0 <= i < |rows| :: rows[i].key
  }

  // ---- What is reported, row by row ----

  ghost predicate Repeats<T>(rows: seq<Row<T>>, key: string) {
    exists i, j :: 0 <= i < j < |rows| && rows[i].key == key && rows[j].key == key
  }

  function FilesUnder(files: seq<Row<FileRecord>>, m: ModuleId): set<Path> {
    set i | 0 <= i < |files| && files[i].value.moduleId == m :: files[i].key
  }

  function ModuleProblems(doc: Document, r: Row<ModuleRecord>): set<Problem> {
    (set d | d in r.value.info.declared && d !in Ids(doc.modules) :: UnknownDependency(r.key, d))
    + (set d | d in r.value.actual && d !in Ids(doc.modules) :: UnknownDependency(r.key, d))
    + if (set p | p in r.value.files) != FilesUnder(doc.files, r.key) then {FilesDisagree(r.key)} else {}
  }

  function FileProblems(doc: Document, r: Row<FileRecord>): set<Problem> {
    if r.value.moduleId !in Ids(doc.modules) then {UnknownModule(r.key)}
    else if !Owns(r.value.moduleId, r.key) then {OutsideModule(r.key)}
    else {}
  }

  /** A symbol of an unknown file is not examined further, but its callers still are. */
  function SymbolProblems(doc: Document, files: map<string, Row<FileRecord>>, r: Row<Symbol>): set<Problem> {
    var s := r.value;
    if s.file !in files then {FileNotIndexed(r.key)}
    else
      (if s.moduleId != files[s.file].value.moduleId then {ModuleDisagrees(r.key)} else {})
      + (if s.language != files[s.file].value.owner.language then {LanguageDisagrees(r.key)} else {})
      + set t | t in s.calls && t !in Ids(doc.symbols) :: UnknownCallee(r.key, t)
  }

  function CallProblems(doc: Document, byQual: map<string, Row<Symbol>>, r: Row<Symbol>): set<Problem> {
    (set p | p in r.value.calledBy && p !in Ids(doc.symbols) :: UnknownCaller(r.key, p))
    + set t | t in r.value.calls && t in byQual && r.key !in byQual[t].value.calledBy :: Asymmetric(r.key, t)
  }

  function EdgeProblems(doc: Document, edge: Edge, sources: seq<string>): set<Problem> {
    (if edge.source !in Ids(doc.modules) then {UnknownSource(edge)} else {})
    + (if edge.target !in Ids(doc.modules) then {UnknownTarget(edge)} else {})
    + (if edge.kind != DECLARED && edge.kind != ACTUAL then {InvalidKind(edge)} else {})
    + if sources == [] then {NoSources(edge)} else {}
  }

  function DriftProblems(doc: Document, edge: Edge): set<Problem> {
    (if edge.source !in Ids(doc.modules) || edge.target !in Ids(doc.modules) then {DriftUnknown(edge)} else {})
    + if edge.kind != UNDECLARED && edge.kind != UNUSED then {DriftKind(edge)} else {}
  }

  function TestProblems(doc: Document, r: Row<TestRecord>): set<Problem> {
    (if r.value.moduleId !in Ids(doc.modules) then {TestUnknownModule(r.key)} else {})
    + (set p | p in r.value.targets && p !in Ids(doc.files) :: TestUnknownTarget(r.key, p))
    + if r.value.granularity != "file" && r.value.granularity != "module" then {TestGranularity(r.key)} else {}
  }

  // ---- The validator ----

  /** `check_unique` */
  method CheckUnique<T>(rows: seq<Row<T>>) returns (repeated: set<string>)
    ensures forall key :: key in repeated <==> Repeats(rows, key)
    ensures repeated == {} <==> UniqueKeys(rows)
  {
    var seen: set<string> := {};
    repeated := {};
    for i := 0 to |rows|
      invariant forall key :: key in seen <==> key in Ids(rows[..i])
      invariant forall key :: key in repeated <==> Repeats(rows[..i], key)
    {
      if rows[i].key in seen {
        repeated := repeated + {rows[i].key};
      }
      seen := seen + {rows[i].key};
      OneMoreKey(rows, i);
    }
    assert rows[..|rows|] == rows;
    if !UniqueKeys(rows) {
      var i, j :| 0 <= i < j < |rows| && rows[i].key == rows[j].key;
      assert Repeats(rows, rows[i].key);
    }
  }

  lemma OneMoreKey<T>(rows: seq<Row<T>>, i: nat)
    requires i < |rows|
    ensures Ids(rows[..i + 1]) == Ids(rows[..i]) + {rows[i].key}
    ensures forall key :: Repeats(rows[..i + 1], key) <==>
              Repeats(rows[..i], key) || (key == rows[i].key && key in Ids(rows[..i]))
  {
    var before, after := rows[..i], rows[..i + 1];
    assert after == before + [rows[i]];
    forall key | Repeats(before, key) ensures Repeats(after, key) {
      var a, b :| 0 <= a < b < |before| && before[a].key == key && before[b].key == key;
      assert after[a].key == key && after[b].key == key;
    }
    if rows[i].key in Ids(before) {
      var a :| 0 <= a < |before| && before[a].key == rows[i].key;
      assert after[a].key == rows[i].key && after[i].key == rows[i].key;
    }
  }

  /** The problems of all rows, collected row by row. */
  method Collect<T>(rows: seq<T>, problems: T -> set<Problem>) returns (found: set<Problem>)
    ensures forall p :: p in found <==> exists i :: 0 <= i < |rows| && p in problems(rows[i])
  {
    found := {};
    for i := 0 to |rows|
      invariant forall p :: p in found <==> exists j :: 0 <= j < i && p in problems(rows[j])
    {
      found := found + problems(rows[i]);
    }
  }

  ghost predicate ReportsDuplicate(doc: Document, p: Problem) {
    || (p.DuplicateModule? && Repeats(doc.modules, p.key))
    || (p.DuplicateFile? && Repeats(doc.files, p.key))
    || (p.DuplicateSymbol? && Repeats(doc.symbols, p.key))
  }

  method CheckDuplicates(doc: Document) returns (errors: set<Problem>)
    ensures forall p :: p in errors <==> ReportsDuplicate(doc, p)
  {
    var modules := CheckUnique(doc.modules);
    var files := CheckUnique(doc.files);
    var symbols := CheckUnique(doc.symbols);
    errors := (set k | k in modules :: DuplicateModule(k)) + (set k | k in files :: DuplicateFile(k))
              + (set k | k in symbols :: DuplicateSymbol(k));
  }

  ghost predicate ReportsModules(doc: Document, p: Problem) {
    exists i :: 0 <= i < |doc.modules| && p in ModuleProblems(doc, doc.modules[i])
  }

  method CheckModules(doc: Document) returns (errors: set<Problem>)
    ensures forall p :: p in errors <==> ReportsModules(doc, p)
  {
    errors := Collect(doc.modules, (r: Row<ModuleRecord>) => ModuleProblems(doc, r));
  }

  ghost predicate ReportsFiles(doc: Document, p: Problem) {
    exists i :: 0 <= i < |doc.files| && p in FileProblems(doc, doc.files[i])
  }

  method CheckFiles(doc: Document) returns (errors: set<Problem>)
    ensures forall p :: p in errors <==> ReportsFiles(doc, p)
  {
    errors := Collect(doc.files, (r: Row<FileRecord>) => FileProblems(doc, r));
  }

  ghost predicate ReportsSymbols(doc: Document, p: Problem) {
    exists i :: 0 <= i < |doc.symbols| && p in SymbolProblems(doc, LastByKey(doc.files), doc.symbols[i])
  }

  method CheckSymbols(doc: Document) returns (errors: set<Problem>)
    ensures forall p :: p in errors <==> ReportsSymbols(doc, p)
  {
    var fileOf := LastByKey(doc.files);
    errors := Collect(doc.symbols, (r: Row<Symbol>) => SymbolProblems(doc, fileOf, r));
  }

  ghost predicate ReportsCalls(doc: Document, p: Problem) {
    exists i :: 0 <= i < |doc.symbols| && p in CallProblems(doc, LastByKey(doc.symbols), doc.symbols[i])
  }

  method CheckCalls(doc: Document) returns (errors: set<Problem>)
    ensures forall p :: p in errors <==> ReportsCalls(doc, p)
  {
    var byQual := LastByKey(doc.symbols);
    errors := Collect(doc.symbols, (r: Row<Symbol>) => CallProblems(doc, byQual, r));
  }

  ghost predicate ReportsEdges(doc: Document, p: Problem) {
    exists i :: 0 <= i < |doc.dependencies| && p in EdgeProblems(doc, doc.dependencies[i].0, doc.dependencies[i].1)
  }

  method CheckEdges(doc: Document) returns (errors: set<Problem>)
    ensures forall p :: p in errors <==> ReportsEdges(doc, p)
  {
    errors := Collect(doc.dependencies, (e: (Edge, seq<string>)) => EdgeProblems(doc, e.0, e.1));
  }

  ghost predicate ReportsDrift(doc: Document, p: Problem) {
    exists i :: 0 <= i < |doc.drift| && p in DriftProblems(doc, doc.drift[i])
  }

  method CheckDrift(doc: Document) returns (errors: set<Problem>)
    ensures forall p :: p in errors <==> ReportsDrift(doc, p)
  {
    errors := Collect(doc.drift, (e: Edge) => DriftProblems(doc, e));
  }

  ghost predicate ReportsTests(doc: Document, p: Problem) {
    exists i :: 0 <= i < |doc.tests| && p in TestProblems(doc, doc.tests[i])
  }

  method CheckTests(doc: Document) returns (errors: set<Problem>)
    ensures forall p :: p in errors <==> ReportsTests(doc, p)
  {
    errors := Collect(doc.tests, (r: Row<TestRecord>) => TestProblems(doc, r));
  }

  /** What is reported about a document. */
  ghost predicate Reports(doc: Document, p: Problem) {
    || ReportsDuplicate(doc, p)
    || ReportsModules(doc, p)
    || ReportsFiles(doc, p)
    || ReportsSymbols(doc, p)
    || ReportsCalls(doc, p)
    || ReportsEdges(doc, p)
    || ReportsDrift(doc, p)
    || ReportsTests(doc, p)
  }

  /** `validate_graph`, the referential checks: exactly the problems of the document. */
  method ValidateGraph(doc: Document) returns (errors: set<Problem>)
    ensures forall p :: p in errors <==> Reports(doc, p)
  {
    var duplicates := CheckDuplicates(doc);
    var modules := CheckModules(doc);
    var files := CheckFiles(doc);
    var symbols := CheckSymbols(doc);
    var calls := CheckCalls(doc);
    var edges := CheckEdges(doc);
    var drift := CheckDrift(doc);
    var tests := CheckTests(doc);
    errors := duplicates + modules + files + symbols + calls + edges + drift + tests;
  }

  // ---- The document of a graph ----

  /** The rows of a section, sorted by key. */
  function Listing<T>(m: map<string, T>): seq<Row<T>> {
    var keys := Sorted(m.Keys);
    ListingOf(m, keys)
  }

  function ListingOf<T>(m: map<string, T>, keys: seq<string>): seq<Row<T>> {
    if keys == [] then []
    else ListingOf(m, keys[..|keys| - 1])
         + if keys[|keys| - 1] in m then [Row(keys[|keys| - 1], m[keys[|keys| - 1]])] else []
  }

  lemma {:induction false} ListingOfKeys<T>(m: map<string, T>, keys: seq<string>)
    requires forall k | k in keys :: k in m
    ensures |ListingOf(m, keys)| == |keys|
    ensures forall i | 0 <= i < |keys| :: ListingOf(m, keys)[i] == Row(keys[i], m[keys[i]])
  {
    if keys != [] {
      ListingOfKeys(m, keys[..|keys| - 1]);
    }
  }

  /** One row per record, in key order. */
  lemma ListingRows<T>(m: map<string, T>)
    ensures var rows := Listing(m);
            && UniqueKeys(rows) && Keys(rows) == Sorted(m.Keys)
            && (forall i | 0 <= i < |rows| :: rows[i].key in m && rows[i].value == m[rows[i].key])
  {
    var keys, rows := Sorted(m.Keys), Listing(m);
    SortedListing(m.Keys);
    ListingOfKeys(m, keys);
    forall i, j | 0 <= i < j < |rows| ensures rows[i].key != rows[j].key {
      BelowAsymmetric(keys[i], keys[j]);
    }
    assert forall i | 0 <= i < |rows| :: keys[i] in m;
  }

  lemma ListingIds<T>(m: map<string, T>)
    ensures Ids(Listing(m)) == m.Keys
  {
    ListingRows(m);
    SortedListing(m.Keys);
    forall k | k in m ensures k in Ids(Listing(m)) {
      assert k in Sorted(m.Keys);
      var i :| 0 <= i < |Sorted(m.Keys)| && Sorted(m.Keys)[i] == k;
      assert Keys(Listing(m))[i] == Listing(m)[i].key;
    }
  }

  lemma ListedRow<T>(m: map<string, T>, r: Row<T>)
    requires r in Listing(m)
    ensures r.key in m && r == Row(r.key, m[r.key])
  {
    ListingRows(m);
  }

  lemma ListingKeys<T>(m: map<string, T>)
    ensures forall k :: k in Keys(Listing(m)) <==> k in m
  {
    ListingRows(m);
    SortedListing(m.Keys);
  }

  lemma ListingLookup<T>(m: map<string, T>)
    ensures LastByKey(Listing(m)).Keys == m.Keys
    ensures forall k | k in m :: LastByKey(Listing(m))[k] == Row(k, m[k])
  {
    var byKey := LastByKey(Listing(m));
    ListingKeys(m);
    LastByKeyHolds(Listing(m));
    forall k | k in m ensures byKey[k] == Row(k, m[k]) {
      ListedRow(m, byKey[k]);
    }
  }

  /** The document of a graph: every section listed by key, edges and drift in some order. */
  ghost predicate Renders(doc: Document, g: Graph) {
    && doc.modules == Listing(g.modules) && doc.files == Listing(g.files)
    && doc.symbols == Listing(g.symbols) && doc.tests == Listing(g.tests)
    && (forall i | 0 <= i < |doc.dependencies| ::
          doc.dependencies[i].0 in g.dependencies && doc.dependencies[i].1 == g.dependencies[doc.dependencies[i].0])
    && (forall e | e in g.dependencies :: (e, g.dependencies[e]) in doc.dependencies)
    && forall e :: e in doc.drift <==> e in g.drift
  }

  /** A listing of some edges with their sources. */
  ghost function EdgeRows(dependencies: map<Edge, seq<string>>, edges: set<Edge>): (rows: seq<(Edge, seq<string>)>)
    requires edges <= dependencies.Keys
    ensures forall i | 0 <= i < |rows| :: rows[i].0 in dependencies && rows[i].1 == dependencies[rows[i].0]
    ensures forall e | e in edges :: (e, dependencies[e]) in rows
    decreases |edges|
  {
    if edges == {} then []
    else
      var e :| e in edges;
      [(e, dependencies[e])] + EdgeRows(dependencies, edges - {e})
  }

  /** A listing of a set of drift edges. */
  ghost function EdgesOf(edges: set<Edge>): (rows: seq<Edge>)
    ensures forall e :: e in rows <==> e in edges
    decreases |edges|
  {
    if edges == {} then []
    else
      var e :| e in edges;
      [e] + EdgesOf(edges - {e})
  }

  ghost function DocumentOf(g: Graph): Document {
    Document(Listing(g.modules), Listing(g.files), Listing(g.symbols), [], Listing(g.tests),
             EdgeRows(g.dependencies, g.dependencies.Keys), EdgesOf(g.drift))
  }

  /** Every graph has a document. */
  lemma DocumentRenders(g: Graph)
    ensures Renders(DocumentOf(g), g)
  {
  }
}
