/** The repository tree as the index sees it: paths, file texts, what parsing a text yields,
    and what the canonical documents say. Parsing itself is a parameter. */
module RepoTree {
  import opened Wrappers

  type Path = string
  type ModuleId = string
  type Tree = map<Path, string>

  /** A Python identifier: it never holds the separators of qualified names. */
  type Identifier = s: string | ':' !in s && '.' !in s
  /** A Python dotted path. */
  type DottedPath = s: string | ':' !in s

  /** One top-level definition; `refs` are the names its body loads (Python only). Two
      definitions of a file differ at least in their line. */
  datatype Definition = Definition(name: Identifier, line: nat, kind: string, public: bool, refs: set<string>)

  /** Outcome of parsing one text. `imports` are the absolute dotted paths (Python) or crate
      directories (Rust) the text imports. */
  datatype Parse =
    | SyntaxError
    | Parsed(definitions: set<Definition>, aliases: map<string, DottedPath>, imports: set<string>)

  datatype Owner = Owner(id: string, domain: string, language: string)

  datatype ModuleInfo = ModuleInfo(
    owner: Owner, ownerSource: string, declared: set<ModuleId>, contract: string, routeKeys: seq<string>)

  datatype Note = Note(kind: string, ref: string, reason: string)

  datatype Header = Header(inputsHash: string, domains: seq<string>, owners: seq<string>, languages: seq<string>)

  /** Ownership rule and retention state of one file. */
  datatype Policy = Policy(rule: Path -> Option<Owner>, retention: Path -> Option<string>)

  type Times = n: nat | 0 < n witness 1

  /** A list of findings, as how often each one occurs. */
  type Notes = map<Note, Times>

  /** Everything derived from the canonical documents and the discovered module list. */
  datatype Canon = Canon(
    modules: seq<ModuleId>,
    info: ModuleId -> ModuleInfo,
    declaredSources: (ModuleId, ModuleId) -> seq<string>,
    policy: Policy,
    notes: Notes,
    header: Header)

  /** File suffix; only `.py`, `.rs` and `.slint` files are indexed. */
  datatype Suffix = PY | RS | SLINT | OTHER

  /** The parts of the tool chain that are not modelled, as arbitrary functions. */
  datatype World = World(
    suffix: Path -> Suffix,
    parse: (Path, string) -> Parse,
    pythonBase: Path -> DottedPath,
    itemBase: Path -> string,
    moduleBase: ModuleId -> string,
    isTest: Path -> bool,
    siblings: (Path, ModuleId) -> seq<Path>,
    excluded: Path -> bool,
    isValidator: Path -> bool,
    canonicalPaths: set<Path>,
    roots: set<Path> -> set<ModuleId>,
    discover: (set<Path>, Tree) -> seq<ModuleId>,
    load: (Tree, seq<ModuleId>) -> Canon)

  predicate IsPython(w: World, p: Path) { w.suffix(p) == PY }

  predicate Indexable(w: World, p: Path) {
    w.suffix(p) != OTHER && !w.excluded(p)
  }

  predicate Owns(m: ModuleId, p: Path) {
    p == m || m + "/" <= p
  }

  /** Longest module prefix wins: the loop over the module list, last module last. */
  function OwningModule(p: Path, modules: seq<ModuleId>): (best: Option<ModuleId>)
    ensures best.Some? ==> best.value in modules
  {
    if modules == [] then None
    else
      var m := modules[|modules| - 1];
      var sofar := OwningModule(p, modules[..|modules| - 1]);
      if Owns(m, p) && (sofar.None? || |m| > |sofar.value|) then Some(m) else sofar
  }

  lemma {:induction false} OwningModuleIsLongest(p: Path, modules: seq<ModuleId>)
    ensures var best := OwningModule(p, modules);
            && (best.Some? ==> Owns(best.value, p))
            && forall m | m in modules && Owns(m, p) :: best.Some? && |m| <= |best.value|
  {
    if modules != [] {
      var m := modules[|modules| - 1];
      OwningModuleIsLongest(p, modules[..|modules| - 1]);
      assert modules == modules[..|modules| - 1] + [m];
    }
  }

  /** The owner does not depend on the order of the module list. */
  lemma OwningModuleOrderFree(p: Path, xs: seq<ModuleId>, ys: seq<ModuleId>)
    requires forall m :: m in xs <==> m in ys
    ensures OwningModule(p, xs) == OwningModule(p, ys)
  {
    OwningModuleIsLongest(p, xs);
    OwningModuleIsLongest(p, ys);
    var a, b := OwningModule(p, xs), OwningModule(p, ys);
    if a.Some? && b.Some? {
      assert a.value in ys && b.value in xs;
      assert |a.value| == |b.value|;
      assert a.value == p[..|a.value|] && b.value == p[..|b.value|];
    }
  }

  /** Modules that lie inside no other module. */
  function ExpectedRoots(modules: seq<ModuleId>): set<ModuleId> {
    set m | m in modules && !exists n :: n in modules && n + "/" <= m
  }

  /** The roots lie in no other root, and every module lies in one of them. */
  lemma RootsCover(modules: seq<ModuleId>)
    ensures forall r, q | r in ExpectedRoots(modules) && q in ExpectedRoots(modules) :: !(r + "/" <= q)
    ensures forall r | r in ExpectedRoots(modules) :: r in modules
    ensures forall m | m in modules :: exists r :: r in ExpectedRoots(modules) && (m == r || r + "/" <= m)
  {
    forall m | m in modules ensures exists r :: r in ExpectedRoots(modules) && (m == r || r + "/" <= m) {
      var r := RootOf(modules, m);
    }
  }

  lemma {:induction false} RootOf(modules: seq<ModuleId>, m: ModuleId) returns (r: ModuleId)
    requires m in modules
    ensures r in ExpectedRoots(modules) && (m == r || r + "/" <= m)
    decreases |m|
  {
    if m in ExpectedRoots(modules) {
      r := m;
    } else {
      var n :| n in modules && n + "/" <= m;
      r := RootOf(modules, n);
      if r != n {
        assert r + "/" <= n <= m;
      }
    }
  }

  /** Longest dotted module base that prefixes an imported dotted path; first wins a tie. */
  function ModuleForDotted(w: World, dotted: string, modules: seq<ModuleId>): (best: Option<ModuleId>)
    ensures best.Some? ==> best.value in modules
  {
    if modules == [] then None
    else
      var m := modules[|modules| - 1];
      var base := w.moduleBase(m);
      var sofar := ModuleForDotted(w, dotted, modules[..|modules| - 1]);
      if (dotted == base || base + "." <= dotted) && (sofar.None? || |base| > |w.moduleBase(sofar.value)|)
      then Some(m) else sofar
  }

  function ImportTarget(w: World, modules: seq<ModuleId>, p: Path, name: string): (target: Option<ModuleId>)
    ensures target.Some? ==> target.value in modules
  {
    if IsPython(w, p) then ModuleForDotted(w, name, modules)
    else if w.suffix(p) == RS && name in modules then Some(name)
    else None
  }

  /** Modules one file imports. */
  function FileImports(w: World, modules: seq<ModuleId>, p: Path, text: string): (r: set<ModuleId>)
    ensures forall m | m in r :: m in modules
  {
    match w.parse(p, text)
    case SyntaxError => {}
    case Parsed(_, _, imports) =>
      set name | name in imports && ImportTarget(w, modules, p, name).Some?
        :: ImportTarget(w, modules, p, name).value
  }

  function CanonicalTexts(w: World, tree: Tree): Tree {
    map p | p in tree && p in w.canonicalPaths :: tree[p]
  }

  function CanonOf(w: World, tree: Tree): Canon {
    w.load(CanonicalTexts(w, tree), w.discover(tree.Keys, CanonicalTexts(w, tree)))
  }

  /** The files the graph indexes. */
  function Indexed(w: World, modules: seq<ModuleId>, tree: Tree): set<Path> {
    set p | p in tree && Indexable(w, p) && OwningModule(p, modules).Some?
  }

  /** Owning module of an indexed file. */
  function ModuleOf(modules: seq<ModuleId>, p: Path): ModuleId {
    match OwningModule(p, modules)
    case Some(m) => m
    case None => ""
  }

  function TextOf(tree: Tree, p: Path): string {
    if p in tree then tree[p] else ""
  }

  function Definitions(w: World, p: Path, text: string): set<Definition> {
    match w.parse(p, text)
    case SyntaxError => {}
    case Parsed(definitions, _, _) => definitions
  }

  function Aliases(w: World, p: Path, text: string): map<string, DottedPath> {
    match w.parse(p, text)
    case SyntaxError => map[]
    case Parsed(_, aliases, _) => aliases
  }

  function Qualified(w: World, p: Path, name: string): string {
    if IsPython(w, p) then w.pythonBase(p) + ":" + name else w.itemBase(p) + "::" + name
  }

  function Dotted(w: World, p: Path, name: string): string {
    if IsPython(w, p) then w.pythonBase(p) + "." + name else w.itemBase(p) + "::" + name
  }

  lemma LastSeparator(a: string, x: string, sep: char)
    requires sep !in x
    ensures forall k | |a| < k <= |a| + |x| :: (a + [sep] + x)[k] != sep
  {
    forall k | |a| < k <= |a| + |x| ensures (a + [sep] + x)[k] != sep {
      assert (a + [sep] + x)[k] == x[k - |a| - 1];
    }
  }

  lemma SplitAtSeparator(a: string, x: string, b: string, y: string, sep: char)
    requires sep !in x && sep !in y
    requires a + [sep] + x == b + [sep] + y
    ensures a == b && x == y
  {
    var s := a + [sep] + x;
    assert s[|a|] == sep && s[|b|] == sep;
    LastSeparator(a, x, sep);
    LastSeparator(b, y, sep);
    assert |a| == |b|;
    assert a == s[..|a|] == b;
    assert x == s[|a| + 1..] == y;
  }

  /** The dotted name determines the qualified name, across all files and languages. */
  lemma DottedDeterminesQualified(w: World, p: Path, x: Identifier, q: Path, y: Identifier)
    requires Dotted(w, p, x) == Dotted(w, q, y)
    ensures Qualified(w, p, x) == Qualified(w, q, y)
  {
    if IsPython(w, p) && IsPython(w, q) {
      SplitAtSeparator(w.pythonBase(p), x, w.pythonBase(q), y, '.');
    } else if IsPython(w, p) {
      ColonInItemName(w.pythonBase(p) + "." + x, w.itemBase(q), y);
    } else if IsPython(w, q) {
      ColonInItemName(w.pythonBase(q) + "." + y, w.itemBase(p), x);
    }
  }

  /** And the qualified name determines the dotted name. */
  lemma QualifiedDeterminesDotted(w: World, p: Path, x: Identifier, q: Path, y: Identifier)
    requires Qualified(w, p, x) == Qualified(w, q, y)
    ensures Dotted(w, p, x) == Dotted(w, q, y)
  {
    if IsPython(w, p) && IsPython(w, q) {
      SplitAtSeparator(w.pythonBase(p), x, w.pythonBase(q), y, ':');
    } else if IsPython(w, p) {
      PythonNameIsNoItem(w.pythonBase(p), x, w.itemBase(q), y);
    } else if IsPython(w, q) {
      PythonNameIsNoItem(w.pythonBase(q), y, w.itemBase(p), x);
    }
  }

  lemma PythonNameIsNoItem(base: DottedPath, x: Identifier, itemBase: string, y: Identifier)
    ensures base + ":" + x != itemBase + "::" + y
  {
    if base + ":" + x == itemBase + "::" + y {
      assert itemBase + "::" + y == (itemBase + ":") + ":" + y;
      assert (itemBase + ":")[|itemBase|] == ':';
      SplitAtSeparator(base, x, itemBase + ":", y, ':');
    }
  }

  lemma ColonInItemName(s: string, base: string, name: string)
    ensures s == base + "::" + name ==> ':' in s
  {
    assert (base + "::" + name)[|base|] == ':';
  }
}
