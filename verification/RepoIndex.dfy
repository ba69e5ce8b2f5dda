/** The per-file cache of the warm index and the surgical patch of an old graph
    (tools/repo_index.py, build_filemeta and _patch_incremental), as functions. */
module RepoIndex {
  import opened Ordering
  import opened RepoTree
  import opened RepoGraph

  datatype Meta = Meta(
    moduleId: ModuleId, isTest: bool, dotted: set<string>, aliasTargets: set<DottedPath>, imports: set<ModuleId>)

  type FileMeta = map<Path, Meta>

  // ---- The file cache ----

  function DottedNames(w: World, p: Path, text: string): set<string> {
    set s | s in FileSites(w, p, text) :: Dotted(w, p, s.definition.name)
  }

  function AliasTargets(w: World, p: Path, text: string): set<DottedPath> {
    if IsPython(w, p) then Aliases(w, p, text).Values else {}
  }

  /** Cache entry written by a full rebuild: only Python files list their dotted names. */
  function MetaFor(w: World, modules: seq<ModuleId>, p: Path, m: ModuleId, text: string): Meta {
    Meta(m, w.isTest(p), if IsPython(w, p) then DottedNames(w, p, text) else {},
         AliasTargets(w, p, text), FileImports(w, modules, p, text))
  }

  /** Cache entry written by the patch: every language lists its dotted names. */
  function PatchedMetaFor(w: World, modules: seq<ModuleId>, p: Path, m: ModuleId, text: string): Meta {
    MetaFor(w, modules, p, m, text).(dotted := DottedNames(w, p, text))
  }

  /** The files the cache covers: indexed files that are no canonical input. */
  function Cached(w: World, modules: seq<ModuleId>, tree: Tree): set<Path> {
    Indexed(w, modules, tree) - w.canonicalPaths
  }

  function BuildFileMeta(w: World, modules: seq<ModuleId>, tree: Tree): FileMeta {
    map p | p in Cached(w, modules, tree) :: MetaFor(w, modules, p, ModuleOf(modules, p), TextOf(tree, p))
  }

  /** A cache entry describes a file: exactly for Python files, and for other files up to the
      dotted names, which the full rebuild leaves out. */
  ghost predicate Describes(w: World, modules: seq<ModuleId>, p: Path, text: string, meta: Meta) {
    || meta == MetaFor(w, modules, p, ModuleOf(modules, p), text)
    || (!IsPython(w, p) && meta == PatchedMetaFor(w, modules, p, ModuleOf(modules, p), text))
  }

  ghost predicate DescribesAll(w: World, modules: seq<ModuleId>, tree: Tree, cached: set<Path>, fm: FileMeta) {
    fm.Keys == cached && forall p | p in cached :: Describes(w, modules, p, TextOf(tree, p), fm[p])
  }

  // ---- The patch ----

  function ModulesOf(g: Graph): seq<ModuleId> {
    Sorted(g.modules.Keys)
  }

  function InfoOf(records: map<ModuleId, ModuleRecord>, m: ModuleId): ModuleInfo {
    if m in records then records[m].info else ModuleInfo(UNKNOWN, "unknown", {}, "", [])
  }

  function Touched(changed: set<Path>, tree: Tree): set<Path> {
    set p | p in changed && p in tree
  }

  function PatchFiles(
    w: World, policy: Policy, modules: seq<ModuleId>, records: map<ModuleId, ModuleRecord>,
    files: map<Path, FileRecord>, changed: set<Path>, touched: set<Path>): map<Path, FileRecord>
  {
    (map p | p in files && p !in changed :: files[p])
    + (map p | p in touched ::
         var m := ModuleOf(modules, p);
         RecordFor(w, policy, p, m, InfoOf(records, m)))
  }

  /** The cases the patch refuses, so that a full rebuild runs instead. */
  predicate NeedsFull(w: World, modules: seq<ModuleId>, changed: set<Path>, tree: Tree) {
    || w.roots(tree.Keys) != ExpectedRoots(modules)
    || exists p :: p in changed && (p in w.canonicalPaths || (p in tree && OwningModule(p, modules).None?))
  }

  function KeptSymbols(symbols: Symbols, changed: set<Path>): Symbols {
    map q | q in symbols && symbols[q].file !in changed :: symbols[q]
  }

  /** Kept symbols with their old edges, and the freshly parsed ones. */
  ghost function PatchBare(
    w: World, files: map<Path, FileRecord>, symbols: Symbols, changed: set<Path>, sites: set<Site>): Symbols
    requires Recorded(files, sites)
  {
    KeptSymbols(symbols, changed) + BareSymbols(w, files, sites)
  }

  function PatchFileMeta(
    w: World, modules: seq<ModuleId>, fm: FileMeta, changed: set<Path>, touched: set<Path>, tree: Tree): FileMeta
  {
    (map p | p in fm && p !in changed :: fm[p])
    + (map p | p in touched :: PatchedMetaFor(w, modules, p, ModuleOf(modules, p), TextOf(tree, p)))
  }

  /** Dotted names the changed files had or have. */
  function MovedNames(w: World, fm: FileMeta, changed: set<Path>, sites: set<Site>): set<string> {
    (set p, d | p in changed && p in fm && d in fm[p].dotted :: d)
    + (set s | s in sites :: Dotted(w, s.file, s.definition.name))
  }

  /** Python files to resolve again: touched ones, and those whose aliases hit a moved name. */
  function Recompute(w: World, patched: FileMeta, touched: set<Path>, moved: set<string>): set<Path> {
    (set p | p in touched && IsPython(w, p))
    + (set p | p in patched && IsPython(w, p) && patched[p].aliasTargets * moved != {})
  }

  /** Calls of the recomputed definitions replace the old ones. */
  ghost function PatchCalls(w: World, symbols: Symbols, byDotted: map<string, string>, tree: Tree, sites: set<Site>): Symbols {
    map q | q in symbols ::
      if q in Names(w, sites)
      then
        var s := SiteNamed(w, sites, q);
        symbols[q].(calls := CallsAt(w, byDotted, TextOf(tree, s.file), s))
      else symbols[q]
  }

  function Affected(modules: seq<ModuleId>, changed: set<Path>): set<ModuleId> {
    set p | p in changed && OwningModule(p, modules).Some? :: ModuleOf(modules, p)
  }

  function PatchTests(
    w: World, files: map<Path, FileRecord>, tests: map<Path, TestRecord>, affected: set<ModuleId>): map<Path, TestRecord>
  {
    (map t | t in tests && tests[t].moduleId !in affected :: tests[t])
    + (map p | p in files && files[p].isTest && files[p].moduleId in affected ::
         TestFor(w, p, files[p].moduleId, files.Keys))
  }

  function PatchSymbolTests(symbols: Symbols, tests: map<Path, TestRecord>, affected: set<ModuleId>): Symbols {
    map q | q in symbols ::
      if symbols[q].moduleId in affected
      then symbols[q].(tests := Sorted(TestsOf(tests, symbols[q].file)))
      else symbols[q]
  }

  function AffectedImports(patched: FileMeta, affected: set<ModuleId>): ImportTable {
    map p | p in patched && !patched[p].isTest && patched[p].moduleId in affected
      :: ImportRow(patched[p].moduleId, patched[p].imports)
  }

  function PatchDependencies(
    dependencies: map<Edge, seq<string>>, table: ImportTable, affected: set<ModuleId>): map<Edge, seq<string>>
  {
    (map e | e in dependencies && !(e.source in affected && e.kind == ACTUAL) :: dependencies[e])
    + ActualEdges(table, affected)
  }

  function PatchActual(
    modules: map<ModuleId, ModuleRecord>, table: ImportTable, affected: set<ModuleId>, m: ModuleId): set<ModuleId>
    requires m in modules
  {
    if m in affected then Actual(table, m) else set t | t in modules[m].actual
  }

  function PatchDrift(modules: map<ModuleId, ModuleRecord>, table: ImportTable, affected: set<ModuleId>): set<Edge> {
    set m, e | m in modules && e in DriftOf(modules[m].info.declared, PatchActual(modules, table, affected, m), m) :: e
  }

  function PatchModules(
    modules: map<ModuleId, ModuleRecord>, files: map<Path, FileRecord>, table: ImportTable,
    dependencies: map<Edge, seq<string>>, affected: set<ModuleId>): map<ModuleId, ModuleRecord>
  {
    map m | m in modules ::
      var dependents := Sorted(DependedOnBy(dependencies, m));
      if m in affected
      then ModuleRecord(modules[m].info, Sorted(FilesOf(files, m)), Sorted(Actual(table, m)), dependents)
      else modules[m].(dependedOnBy := dependents)
  }

  function TouchedNotes(
    w: World, policy: Policy, modules: seq<ModuleId>, records: map<ModuleId, ModuleRecord>,
    touched: set<Path>, tree: Tree): set<Note>
  {
    set p, n |
      && p in touched
      && n in NotesFor(w, policy, p, InfoOf(records, ModuleOf(modules, p)), TextOf(tree, p))
      :: n
  }

  /** Findings of parsing the untouched files of the recompute set once more. */
  function ReparseNotes(w: World, recompute: set<Path>, touched: set<Path>, tree: Tree): set<Note> {
    set p | p in recompute && p !in touched && w.parse(p, TextOf(tree, p)).SyntaxError? :: SyntaxNote(p)
  }

  function KeptNotes(notes: Notes, changed: set<Path>): Notes {
    map n | n in notes && n.ref !in changed :: notes[n]
  }

  ghost function PatchSymbols(
    w: World, files: map<Path, FileRecord>, g: Graph, changed: set<Path>, touched: set<Path>,
    recompute: set<Path>, tests: map<Path, TestRecord>, tree: Tree): Symbols
    requires touched <= files.Keys
  {
    var bare := PatchBare(w, files, g.symbols, changed, Sites(w, tree, touched));
    var called := PatchCalls(w, bare, ByDotted(bare), tree, Sites(w, tree, recompute));
    PatchSymbolTests(WithCallers(called), tests, Affected(ModulesOf(g), changed))
  }

  function PatchNotes(
    w: World, policy: Policy, g: Graph, changed: set<Path>, touched: set<Path>, recompute: set<Path>, tree: Tree): Notes
  {
    AddNotes(AddNotes(KeptNotes(g.unresolved, changed), TouchedNotes(w, policy, ModulesOf(g), g.modules, touched, tree)),
             ReparseNotes(w, recompute, touched, tree))
  }

  function PatchRecompute(
    w: World, g: Graph, fm: FileMeta, changed: set<Path>, touched: set<Path>, tree: Tree): set<Path>
  {
    var patched := PatchFileMeta(w, ModulesOf(g), fm, changed, touched, tree);
    Recompute(w, patched, touched, MovedNames(w, fm, changed, Sites(w, tree, touched)))
  }

  /** The graph the patch derives from an old graph, the old file cache and the tree. */
  ghost function Patch(w: World, policy: Policy, g: Graph, fm: FileMeta, changed: set<Path>, tree: Tree): Graph {
    var touched := Touched(changed, tree);
    var files := PatchFiles(w, policy, ModulesOf(g), g.modules, g.files, changed, touched);
    var affected := Affected(ModulesOf(g), changed);
    var patched := PatchFileMeta(w, ModulesOf(g), fm, changed, touched, tree);
    var recompute := PatchRecompute(w, g, fm, changed, touched, tree);
    var table := AffectedImports(patched, affected);
    var dependencies := PatchDependencies(g.dependencies, table, affected);
    var tests := PatchTests(w, files, g.tests, affected);
    Assemble(
      g.header,
      PatchModules(g.modules, files, table, dependencies, affected),
      files,
      PatchSymbols(w, files, g, changed, touched, recompute, tests, tree),
      dependencies,
      PatchDrift(g.modules, table, affected),
      tests,
      Validators(w, files.Keys),
      PatchNotes(w, policy, g, changed, touched, recompute, tree))
  }
}
