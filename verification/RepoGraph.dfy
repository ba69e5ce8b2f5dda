/** What a full build of the repository graph contains (tools/repo_graph.py, build_graph).
    A list that the artifact keeps sorted by a unique key is a map from that key here. */
module RepoGraph {
  import opened Wrappers
  import opened Ordering
  import opened RepoTree

  datatype FileRecord = FileRecord(
    moduleId: ModuleId, isTest: bool, owner: Owner, ownerSource: string, retention: Option<string>)

  datatype Symbol = Symbol(
    name: string, dotted: string, file: Path, line: nat, kind: string, public: bool,
    moduleId: ModuleId, language: string, callersComplete: bool,
    calls: seq<string>, calledBy: seq<string>, tests: seq<Path>)

  type Symbols = map<string, Symbol>

  datatype TestRecord = TestRecord(moduleId: ModuleId, targets: seq<Path>, granularity: string)

  datatype Edge = Edge(source: ModuleId, target: ModuleId, kind: string)

  datatype ModuleRecord = ModuleRecord(
    info: ModuleInfo, files: seq<Path>, actual: seq<ModuleId>, dependedOnBy: seq<ModuleId>)

  datatype Graph = Graph(
    header: Header,
    modules: map<ModuleId, ModuleRecord>,
    files: map<Path, FileRecord>,
    symbols: Symbols,
    dependencies: map<Edge, seq<string>>,
    drift: set<Edge>,
    tests: map<Path, TestRecord>,
    validators: set<Path>,
    unresolved: Notes,
    entityCount: nat,
    relationshipCount: nat)

  const UNKNOWN := Owner("UNKNOWN", "UNKNOWN", "UNKNOWN")

  // ---- Files ----

  function RecordFor(w: World, policy: Policy, p: Path, m: ModuleId, info: ModuleInfo): FileRecord {
    if w.isTest(p) then FileRecord(m, true, info.owner, info.ownerSource, None)
    else
      match policy.rule(p)
      case Some(owner) => FileRecord(m, false, owner, "policy", policy.retention(p))
      case None =>
        if info.ownerSource != "unknown"
        then FileRecord(m, false, info.owner, info.ownerSource, policy.retention(p))
        else FileRecord(m, false, UNKNOWN, "unknown", policy.retention(p))
  }

  function FileRecords(w: World, c: Canon, indexed: set<Path>): map<Path, FileRecord> {
    map p | p in indexed ::
      var m := ModuleOf(c.modules, p);
      RecordFor(w, c.policy, p, m, c.info(m))
  }

  // ---- Symbols ----

  /** One definition at its place in the tree. */
  datatype Site = Site(file: Path, definition: Definition)

  function FileSites(w: World, p: Path, text: string): set<Site> {
    set d | d in Definitions(w, p, text) :: Site(p, d)
  }

  function Sites(w: World, tree: Tree, files: set<Path>): set<Site> {
    set p, s | p in files && s in FileSites(w, p, TextOf(tree, p)) :: s
  }

  function NameOf(w: World, s: Site): string {
    Qualified(w, s.file, s.definition.name)
  }

  /** No two definitions share a qualified name. The graph validator rejects every graph for
      which this fails, before anything is published. */
  ghost predicate UniqueNames(w: World, sites: set<Site>) {
    forall s, t | s in sites && t in sites && NameOf(w, s) == NameOf(w, t) :: s == t
  }

  function SymbolFor(w: World, r: FileRecord, s: Site): Symbol {
    var d := s.definition;
    Symbol(d.name, Dotted(w, s.file, d.name), s.file, d.line, d.kind, d.public, r.moduleId, r.owner.language,
           IsPython(w, s.file), [], [], [])
  }

  ghost predicate Recorded(files: map<Path, FileRecord>, sites: set<Site>) {
    forall s | s in sites :: s.file in files
  }

  function Names(w: World, sites: set<Site>): set<string> {
    set s | s in sites :: NameOf(w, s)
  }

  /** The definition behind a qualified name (some one of them, while names still clash). */
  ghost function SiteNamed(w: World, sites: set<Site>, q: string): (s: Site)
    requires q in Names(w, sites)
    ensures s in sites && NameOf(w, s) == q
  {
    var s :| s in sites && NameOf(w, s) == q;
    s
  }

  /** The symbols at some sites, before any edge is resolved. */
  ghost function BareSymbols(w: World, files: map<Path, FileRecord>, sites: set<Site>): Symbols
    requires Recorded(files, sites)
  {
    map q | q in Names(w, sites) ::
      var s := SiteNamed(w, sites, q);
      SymbolFor(w, files[s.file], s)
  }

  ghost predicate DottedUnique(symbols: Symbols) {
    forall q, r | q in symbols && r in symbols && symbols[q].dotted == symbols[r].dotted :: q == r
  }

  lemma BareDottedUnique(w: World, files: map<Path, FileRecord>, sites: set<Site>)
    requires Recorded(files, sites)
    ensures DottedUnique(BareSymbols(w, files, sites))
  {
    var bare := BareSymbols(w, files, sites);
    forall q, r | q in bare && r in bare && bare[q].dotted == bare[r].dotted ensures q == r {
      var s, t := SiteNamed(w, sites, q), SiteNamed(w, sites, r);
      DottedDeterminesQualified(w, s.file, s.definition.name, t.file, t.definition.name);
    }
  }

  function DottedSet(symbols: Symbols): set<string> {
    set q | q in symbols :: symbols[q].dotted
  }

  /** Lookup from dotted to qualified names. */
  ghost function ByDotted(symbols: Symbols): (r: map<string, string>)
    ensures r.Keys == DottedSet(symbols)
    ensures forall d | d in r :: r[d] in symbols && symbols[r[d]].dotted == d
  {
    map d | d in DottedSet(symbols) :: (var q :| q in symbols && symbols[q].dotted == d; q)
  }

  function LocalNames(ds: set<Definition>): set<string> {
    set d | d in ds :: d.name
  }

  /** Callees of one definition: a name bound in the file, else an alias of a known symbol. */
  function CallTargets(w: World, byDotted: map<string, string>, text: string, s: Site): set<string> {
    var p := s.file;
    var refs := s.definition.refs;
    var names := LocalNames(Definitions(w, p, text));
    var aliases := Aliases(w, p, text);
    (set r | r in refs && r in names :: Qualified(w, p, r))
    + (set r | r in refs && r !in names && r in aliases && aliases[r] in byDotted :: byDotted[aliases[r]])
    - {NameOf(w, s)}
  }

  /** Calls of the symbol at one site; only Python files have any. */
  function CallsAt(w: World, byDotted: map<string, string>, text: string, s: Site): seq<string> {
    if IsPython(w, s.file) then Sorted(CallTargets(w, byDotted, text, s)) else []
  }

  ghost function WithCalls(w: World, files: map<Path, FileRecord>, tree: Tree, sites: set<Site>): Symbols
    requires Recorded(files, sites)
  {
    var bare := BareSymbols(w, files, sites);
    map q | q in bare ::
      var s := SiteNamed(w, sites, q);
      bare[q].(calls := CallsAt(w, ByDotted(bare), TextOf(tree, s.file), s))
  }

  function Callers(symbols: Symbols, q: string): set<string> {
    set p | p in symbols && q in symbols[p].calls
  }

  function WithCallers(symbols: Symbols): Symbols {
    map q | q in symbols :: symbols[q].(calledBy := Sorted(Callers(symbols, q)))
  }

  // ---- Tests ----

  /** First known sibling source of a test file. */
  function FirstHit(candidates: seq<Path>, p: Path, known: set<Path>): (r: Option<Path>)
    ensures r.Some? ==> r.value in candidates && r.value in known && r.value != p
  {
    if candidates == [] then None
    else if candidates[0] in known && candidates[0] != p then Some(candidates[0])
    else FirstHit(candidates[1..], p, known)
  }

  function TestFor(w: World, p: Path, m: ModuleId, known: set<Path>): TestRecord {
    match FirstHit(w.siblings(p, m), p, known)
    case Some(sibling) => TestRecord(m, [sibling], "file")
    case None => TestRecord(m, [], "module")
  }

  function TestRecords(w: World, files: map<Path, FileRecord>): map<Path, TestRecord> {
    map p | p in files && files[p].isTest :: TestFor(w, p, files[p].moduleId, files.Keys)
  }

  function TestsOf(tests: map<Path, TestRecord>, p: Path): set<Path> {
    set t | t in tests && p in tests[t].targets
  }

  function WithTests(symbols: Symbols, tests: map<Path, TestRecord>): Symbols {
    map q | q in symbols :: symbols[q].(tests := Sorted(TestsOf(tests, symbols[q].file)))
  }

  // ---- Dependencies ----

  /** What one non-test file contributes to the actual edges. */
  datatype ImportRow = ImportRow(source: ModuleId, targets: set<ModuleId>)

  type ImportTable = map<Path, ImportRow>

  function ImportRows(w: World, c: Canon, tree: Tree, indexed: set<Path>): ImportTable {
    map p | p in indexed && !w.isTest(p)
      :: ImportRow(ModuleOf(c.modules, p), FileImports(w, c.modules, p, TextOf(tree, p)))
  }

  function Actual(table: ImportTable, m: ModuleId): set<ModuleId> {
    set p, t | p in table && table[p].source == m && t in table[p].targets && t != m :: t
  }

  function Evidence(table: ImportTable, m: ModuleId, t: ModuleId): set<Path> {
    set p | p in table && table[p].source == m && t in table[p].targets
  }

  const DECLARED := "declared"
  const ACTUAL := "actual"

  function DeclaredEdges(c: Canon): map<Edge, seq<string>> {
    map m, d | m in c.modules && d in c.info(m).declared :: Edge(m, d, DECLARED) := c.declaredSources(m, d)
  }

  function ActualEdges(table: ImportTable, modules: set<ModuleId>): map<Edge, seq<string>> {
    map m, t | m in modules && t in Actual(table, m) :: Edge(m, t, ACTUAL) := Sorted(Evidence(table, m, t))
  }

  function DependedOnBy(dependencies: map<Edge, seq<string>>, m: ModuleId): set<ModuleId> {
    set e | e in dependencies && e.target == m :: e.source
  }

  const UNDECLARED := "actual-without-declared"
  const UNUSED := "declared-without-actual"

  function DriftOf(declared: set<ModuleId>, actual: set<ModuleId>, m: ModuleId): set<Edge> {
    (set t | t in actual - declared :: Edge(m, t, UNDECLARED))
    + (set t | t in declared - actual :: Edge(m, t, UNUSED))
  }

  function FilesOf(files: map<Path, FileRecord>, m: ModuleId): set<Path> {
    set p | p in files && files[p].moduleId == m
  }

  // ---- Unresolved findings ----

  function OwnerNote(p: Path): Note {
    Note("owner-unknown", p, "no policy rule and module owner unknown")
  }

  function SyntaxNote(p: Path): Note {
    Note("parse-failed", p, "SyntaxError")
  }

  /** Findings about one file, each recorded once. */
  function NotesFor(w: World, policy: Policy, p: Path, info: ModuleInfo, text: string): set<Note> {
    (if !w.isTest(p) && policy.rule(p).None? && info.ownerSource == "unknown" then {OwnerNote(p)} else {})
    + (if IsPython(w, p) && w.parse(p, text).SyntaxError? then {SyntaxNote(p)} else {})
  }

  function FileNotes(w: World, c: Canon, tree: Tree, files: set<Path>): set<Note> {
    set p, n | p in files && n in NotesFor(w, c.policy, p, c.info(ModuleOf(c.modules, p)), TextOf(tree, p)) :: n
  }

  function Count(notes: Notes, n: Note): nat {
    if n in notes then notes[n] else 0
  }

  function AddNotes(notes: Notes, more: set<Note>): Notes {
    map n | n in notes.Keys + more :: Count(notes, n) + if n in more then 1 else 0
  }

  // ---- Counts ----

  function ModuleDegree(r: ModuleRecord): nat {
    |r.info.declared| + |r.actual| + |r.dependedOnBy|
  }

  function SymbolDegree(s: Symbol): nat {
    |s.calls| + |s.calledBy| + |s.tests|
  }

  function ModuleDegrees(modules: map<ModuleId, ModuleRecord>, keys: seq<ModuleId>): nat {
    if keys == [] then 0
    else
      var m := keys[|keys| - 1];
      ModuleDegrees(modules, keys[..|keys| - 1]) + if m in modules then ModuleDegree(modules[m]) else 0
  }

  function SymbolDegrees(symbols: Symbols, keys: seq<string>): nat {
    if keys == [] then 0
    else
      var q := keys[|keys| - 1];
      SymbolDegrees(symbols, keys[..|keys| - 1]) + if q in symbols then SymbolDegree(symbols[q]) else 0
  }

  // ---- The graph ----

  function Assemble(
    header: Header, modules: map<ModuleId, ModuleRecord>, files: map<Path, FileRecord>, symbols: Symbols,
    dependencies: map<Edge, seq<string>>, drift: set<Edge>, tests: map<Path, TestRecord>,
    validators: set<Path>, unresolved: Notes): Graph
  {
    Graph(header, modules, files, symbols, dependencies, drift, tests, validators, unresolved,
      |header.domains| + |header.owners| + |header.languages|
        + |modules| + |files| + |symbols| + |tests| + |validators|,
      ModuleDegrees(modules, Sorted(modules.Keys)) + SymbolDegrees(symbols, Sorted(symbols.Keys)))
  }

  function Validators(w: World, indexed: set<Path>): set<Path> {
    set p | p in indexed && w.isValidator(p)
  }

  ghost function BuildSymbols(w: World, c: Canon, tree: Tree, indexed: set<Path>): Symbols {
    var files := FileRecords(w, c, indexed);
    var symbols := WithCalls(w, files, tree, Sites(w, tree, indexed));
    WithTests(WithCallers(symbols), TestRecords(w, files))
  }

  function ModuleSet(c: Canon): set<ModuleId> {
    set m | m in c.modules
  }

  function BuildDependencies(c: Canon, table: ImportTable): map<Edge, seq<string>> {
    DeclaredEdges(c) + ActualEdges(table, ModuleSet(c))
  }

  function BuildDrift(c: Canon, table: ImportTable): set<Edge> {
    set m, e | m in c.modules && e in DriftOf(c.info(m).declared, Actual(table, m), m) :: e
  }

  function BuildModules(
    c: Canon, files: map<Path, FileRecord>, table: ImportTable, dependencies: map<Edge, seq<string>>)
    : map<ModuleId, ModuleRecord>
  {
    map m | m in c.modules ::
      ModuleRecord(c.info(m), Sorted(FilesOf(files, m)), Sorted(Actual(table, m)), Sorted(DependedOnBy(dependencies, m)))
  }

  ghost function BuildOver(w: World, c: Canon, tree: Tree, indexed: set<Path>): Graph {
    var files := FileRecords(w, c, indexed);
    var table := ImportRows(w, c, tree, indexed);
    var dependencies := BuildDependencies(c, table);
    Assemble(
      c.header,
      BuildModules(c, files, table, dependencies),
      files,
      BuildSymbols(w, c, tree, indexed),
      dependencies,
      BuildDrift(c, table),
      TestRecords(w, files),
      Validators(w, files.Keys),
      AddNotes(c.notes, FileNotes(w, c, tree, indexed)))
  }

  /** The graph a full build derives from a tree. */
  ghost function Build(w: World, c: Canon, tree: Tree): Graph {
    BuildOver(w, c, tree, Indexed(w, c.modules, tree))
  }

  /** Every definition of the tree has its own qualified name; `validate_graph` demands it. */
  ghost predicate NamesUnique(w: World, modules: seq<ModuleId>, tree: Tree) {
    UniqueNames(w, Sites(w, tree, Indexed(w, modules, tree)))
  }
}
