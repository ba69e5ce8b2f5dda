/** The graph as the published document holds it: lists of keyed records
    (tools/repo_graph.py, build_graph, run_query and the query functions). */
module GraphDocument {
  import opened Wrappers
  import opened Ordering
  import opened RepoTree
  import opened RepoGraph

  /** One record of a list, with the field that identifies it. */
  datatype Row<T> = Row(key: string, value: T)

  datatype Document = Document(
    modules: seq<Row<ModuleRecord>>,
    files: seq<Row<FileRecord>>,
    symbols: seq<Row<Symbol>>,
    owners: seq<Owner>,
    tests: seq<Row<TestRecord>>,
    dependencies: seq<(Edge, seq<string>)>,
    drift: seq<Edge>)

  function Keys<T>(rows: seq<Row<T>>): seq<string> {
    seq(|rows|, i requires 0 <= i < |rows| => rows[i].key)
  }

  function Filter<T>(rows: seq<Row<T>>, wanted: Row<T> -> bool): seq<Row<T>> {
    if rows == [] then []
    else
      var rest := Filter(rows[..|rows| - 1], wanted);
      if wanted(rows[|rows| - 1]) then rest + [rows[|rows| - 1]] else rest
  }

  /** First row with a key, as a loop that returns early finds it. */
  function Find<T>(rows: seq<Row<T>>, key: string): Option<Row<T>> {
    if rows == [] then None
    else if rows[0].key == key then Some(rows[0])
    else Find(rows[1..], key)
  }

  /** `sorted(rows, key=...)` */
  function SortRows<T>(rows: seq<Row<T>>): seq<Row<T>> {
    SortBy(rows, (r: Row<T>) => r.key)
  }

  // ---- Queries ----

  datatype Kind = MODULE | FILE | SYMBOL | OWNER | DEPS | DEPENDENTS | TESTS | CONTRACT

  datatype Answer =
    | Nothing
    | OneModule(module_: Row<ModuleRecord>)
    | OneFile(file: Row<FileRecord>)
    | Symbols(symbols: seq<Row<Symbol>>)
    | OneOwner(owner: Owner, modules: seq<ModuleId>, files: seq<Path>)
    | Deps(name: string, declared: set<ModuleId>, actual: seq<ModuleId>)
    | Dependents(name: string, dependedOnBy: seq<ModuleId>)
    | ModuleTests(name: string, tests: seq<Row<TestRecord>>)
    | SymbolTests(name: string, direct: seq<Path>, inherited: seq<Path>)
    | FileTests(name: string, tests: seq<Row<TestRecord>>)
    | Contract(name: string, contract: string, routes: seq<string>)

  function QuerySymbol(doc: Document, name: string): seq<Row<Symbol>> {
    var exact := Filter(doc.symbols, (r: Row<Symbol>) => r.key == name);
    if exact != [] then exact
    else SortRows(Filter(doc.symbols, (r: Row<Symbol>) => r.value.name == name))
  }

  function FindOwner(owners: seq<Owner>, name: string): Option<Owner> {
    if owners == [] then None else if owners[0].id == name then Some(owners[0]) else FindOwner(owners[1..], name)
  }

  function QueryOwner(doc: Document, name: string): Answer {
    match FindOwner(doc.owners, name)
    case None => Nothing
    case Some(owner) =>
      OneOwner(owner,
        Sort(Keys(Filter(doc.modules, (r: Row<ModuleRecord>) => r.value.info.owner.id == name))),
        Sort(Keys(Filter(doc.files, (r: Row<FileRecord>) => r.value.owner.id == name))))
  }

  function DirectTests(hits: seq<Row<Symbol>>): set<Path> {
    set s, t | s in hits && t in s.value.tests :: t
  }

  function InheritedTests(tests: seq<Row<TestRecord>>, hits: seq<Row<Symbol>>): set<Path> {
    set s, t | s in hits && t in tests && t.value.moduleId == s.value.moduleId :: t.key
  }

  /** `query_tests`, given what the symbol query found. */
  function QueryTests(doc: Document, name: string, hits: seq<Row<Symbol>>): Answer {
    if Find(doc.modules, name).Some? then
      ModuleTests(name, Filter(doc.tests, (t: Row<TestRecord>) => t.value.moduleId == name))
    else if hits != [] then
      SymbolTests(name, Sorted(DirectTests(hits)), Sorted(InheritedTests(doc.tests, hits)))
    else if Find(doc.files, name).None? then Nothing
    else FileTests(name, Filter(doc.tests, (t: Row<TestRecord>) => t.key == name || name in t.value.targets))
  }

  /** `run_query` */
  function RunQuery(doc: Document, kind: Kind, name: string): Answer {
    match kind
    case MODULE => (match Find(doc.modules, name) case Some(r) => OneModule(r) case None => Nothing)
    case FILE => (match Find(doc.files, name) case Some(r) => OneFile(r) case None => Nothing)
    case SYMBOL => Symbols(QuerySymbol(doc, name))
    case OWNER => QueryOwner(doc, name)
    case DEPS =>
      (match Find(doc.modules, name)
       case Some(r) => Deps(name, r.value.info.declared, r.value.actual)
       case None => Nothing)
    case DEPENDENTS =>
      (match Find(doc.modules, name) case Some(r) => Dependents(name, r.value.dependedOnBy) case None => Nothing)
    case TESTS => QueryTests(doc, name, QuerySymbol(doc, name))
    case CONTRACT =>
      (match Find(doc.modules, name)
       case Some(r) => Contract(name, r.value.info.contract, r.value.info.routeKeys)
       case None => Nothing)
  }
}
