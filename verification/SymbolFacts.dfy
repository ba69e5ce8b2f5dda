/** The symbols, calls and symbol tests of every built graph (tools/repo_graph.py, build_graph,
    resolve_file_calls), in terms of the definitions of the tree. */
module SymbolFacts {
  import opened Wrappers
  import opened Ordering
  import opened RepoTree
  import opened RepoGraph
  import opened CallGraph
  import opened FileFacts

  /** The file defines `d`, under the qualified name `q`. */
  ghost predicate Defines(w: World, tree: Tree, p: Path, d: Definition, q: string) {
    && p in tree && w.parse(p, tree[p]).Parsed? && d in w.parse(p, tree[p]).definitions
    && q == if w.suffix(p) == PY then w.pythonBase(p) + ":" + d.name else w.itemBase(p) + "::" + d.name
  }

  /** All of a symbol but its edges. */
  ghost predicate Carries(w: World, r: FileRecord, p: Path, d: Definition, s: Symbol) {
    && s.name == d.name && s.line == d.line && s.kind == d.kind && s.public == d.public
    && s.dotted == (if w.suffix(p) == PY then w.pythonBase(p) + "." + d.name else w.itemBase(p) + "::" + d.name)
    && s.file == p && s.moduleId == r.moduleId && s.language == r.owner.language
    && (s.callersComplete <==> w.suffix(p) == PY)
  }

  ghost function Finished(w: World, files: map<Path, FileRecord>, tree: Tree, tests: map<Path, TestRecord>): Symbols {
    WithTests(WithCallers(WithCalls(w, files, tree, Sites(w, tree, files.Keys))), tests)
  }

  lemma BuiltSymbols(w: World, c: Canon, tree: Tree)
    ensures var g := Build(w, c, tree);
            g.files.Keys == Indexed(w, c.modules, tree) <= tree.Keys && g.symbols == Finished(w, g.files, tree, g.tests)
  {
    BuiltFiles(w, c, tree);
    SymbolSection(w, c, tree, Indexed(w, c.modules, tree));
  }

  lemma SymbolSection(w: World, c: Canon, tree: Tree, indexed: set<Path>)
    ensures var files := FileRecords(w, c, indexed);
            files.Keys == indexed && BuildSymbols(w, c, tree, indexed) == Finished(w, files, tree, TestRecords(w, files))
  {
    assert FileRecords(w, c, indexed).Keys == indexed;
  }

  lemma SiteExactly(w: World, tree: Tree, files: set<Path>, p: Path, d: Definition, q: string)
    requires files <= tree.Keys && p in files
    ensures Defines(w, tree, p, d, q) <==> Site(p, d) in Sites(w, tree, files) && NameOf(w, Site(p, d)) == q
  {
    assert Site(p, d) in FileSites(w, p, TextOf(tree, p)) <==> d in Definitions(w, p, TextOf(tree, p));
    if Site(p, d) in Sites(w, tree, files) {
      var f :| f in files && Site(p, d) in FileSites(w, f, TextOf(tree, f));
      assert f == p;
    }
  }

  lemma FinishedKeys(w: World, files: map<Path, FileRecord>, tree: Tree, tests: map<Path, TestRecord>)
    ensures Finished(w, files, tree, tests).Keys == Names(w, Sites(w, tree, files.Keys))
  {
  }

  /** The edges of a symbol come from the call resolution; all else stays as first recorded. */
  lemma FinishedKeeps(w: World, files: map<Path, FileRecord>, tree: Tree, tests: map<Path, TestRecord>, q: string)
    requires q in Names(w, Sites(w, tree, files.Keys))
    ensures var sites := Sites(w, tree, files.Keys);
            var s := SiteNamed(w, sites, q);
            && s.file in files && q in Finished(w, files, tree, tests)
            && Edged(Finished(w, files, tree, tests)[q], SymbolFor(w, files[s.file], s),
                     CallsAt(w, ByDotted(BareSymbols(w, files, sites)), TextOf(tree, s.file), s), Sorted(TestsOf(tests, s.file)))
  {
    var sites := Sites(w, tree, files.Keys);
    ResolutionKeeps(w, files, tree, sites, q);
    InversionKeeps(WithCalls(w, files, tree, sites), tests, q);
  }

  ghost predicate Edged(s: Symbol, bare: Symbol, calls: seq<string>, tests: seq<Path>) {
    s == bare.(calls := calls, calledBy := s.calledBy, tests := tests)
  }

  lemma ResolutionKeeps(w: World, files: map<Path, FileRecord>, tree: Tree, sites: set<Site>, q: string)
    requires Recorded(files, sites) && q in Names(w, sites)
    ensures var bare, symbols, s := BareSymbols(w, files, sites), WithCalls(w, files, tree, sites), SiteNamed(w, sites, q);
            symbols[q] == SymbolFor(w, files[s.file], s).(calls := CallsAt(w, ByDotted(bare), TextOf(tree, s.file), s))
  {
  }

  lemma InversionKeeps(symbols: Symbols, tests: map<Path, TestRecord>, q: string)
    requires q in symbols
    ensures WithTests(WithCallers(symbols), tests)[q]
            == symbols[q].(calledBy := Sorted(Callers(symbols, q)), tests := Sorted(TestsOf(tests, symbols[q].file)))
  {
  }

  /** Some definition of the indexed files has this name, and the symbol carries it. */
  ghost predicate Stands(w: World, tree: Tree, files: map<Path, FileRecord>, q: string, s: Symbol) {
    exists p, d :: p in files && Defines(w, tree, p, d, q) && Carries(w, files[p], p, d, s)
  }

  ghost predicate Named(w: World, tree: Tree, files: map<Path, FileRecord>, q: string) {
    exists p, d :: p in files && Defines(w, tree, p, d, q)
  }

  /** `q` names a symbol exactly if it names a definition of an indexed file. */
  ghost predicate Holds(w: World, tree: Tree, files: map<Path, FileRecord>, symbols: Symbols, q: string) {
    && (q in symbols <==> Named(w, tree, files, q))
    && (q in symbols ==> Stands(w, tree, files, q, symbols[q]))
  }

  /** The symbols are the definitions of the indexed files. */
  lemma SymbolsExactly(w: World, c: Canon, tree: Tree, q: string)
    ensures Holds(w, tree, Build(w, c, tree).files, Build(w, c, tree).symbols, q)
  {
    BuiltSymbols(w, c, tree);
    FinishedExactly(w, Build(w, c, tree).files, tree, Build(w, c, tree).tests, q);
  }

  lemma FinishedExactly(w: World, files: map<Path, FileRecord>, tree: Tree, tests: map<Path, TestRecord>, q: string)
    requires files.Keys <= tree.Keys
    ensures Holds(w, tree, files, Finished(w, files, tree, tests), q)
  {
    var sites := Sites(w, tree, files.Keys);
    FinishedKeys(w, files, tree, tests);
    if q in Names(w, sites) {
      FinishedKeeps(w, files, tree, tests, q);
      var s := SiteNamed(w, sites, q);
      SiteExactly(w, tree, files.Keys, s.file, s.definition, q);
      RecordCarries(w, files[s.file], s);
      assert Carries(w, files[s.file], s.file, s.definition, Finished(w, files, tree, tests)[q]);
    }
    if p, d :| p in files && Defines(w, tree, p, d, q) {
      SiteExactly(w, tree, files.Keys, p, d, q);
      assert q in Names(w, sites);
    }
  }

  lemma RecordCarries(w: World, r: FileRecord, s: Site)
    ensures Carries(w, r, s.file, s.definition, SymbolFor(w, r, s))
  {
  }

  // ---- Calls ----

  /** What one name in the body of a definition stands for: a definition of the same file, else
      the symbol that an import of the file names. */
  ghost predicate Means(w: World, tree: Tree, symbols: Symbols, p: Path, r: string, t: string) {
    && p in tree && w.parse(p, tree[p]).Parsed?
    && if exists d :: d in w.parse(p, tree[p]).definitions && d.name == r
       then t == w.pythonBase(p) + ":" + r
       else r in w.parse(p, tree[p]).aliases && t in symbols && symbols[t].dotted == w.parse(p, tree[p]).aliases[r]
  }

  /** Python definitions call what the names in their bodies mean, other than themselves. */
  ghost predicate Calls(w: World, tree: Tree, symbols: Symbols, p: Path, d: Definition, q: string, t: string) {
    w.suffix(p) == PY && t != q && exists r :: r in d.refs && Means(w, tree, symbols, p, r, t)
  }

  ghost predicate Resolves(w: World, byDotted: map<string, string>, text: string, p: Path, r: string, t: string) {
    var names, aliases := LocalNames(Definitions(w, p, text)), Aliases(w, p, text);
    || (r in names && t == Qualified(w, p, r))
    || (r !in names && r in aliases && aliases[r] in byDotted && t == byDotted[aliases[r]])
  }

  lemma MeaningExactly(w: World, tree: Tree, bare: Symbols, symbols: Symbols, p: Path, r: string, t: string)
    requires p in tree && w.parse(p, tree[p]).Parsed? && IsPython(w, p) && DottedUnique(bare)
    requires symbols.Keys == bare.Keys && forall q | q in bare :: symbols[q].dotted == bare[q].dotted
    ensures Means(w, tree, symbols, p, r, t) <==> Resolves(w, ByDotted(bare), tree[p], p, r, t)
  {
    assert r in LocalNames(Definitions(w, p, tree[p])) <==> exists d :: d in w.parse(p, tree[p]).definitions && d.name == r;
    var aliases := Aliases(w, p, tree[p]);
    if r in aliases && t in symbols && symbols[t].dotted == aliases[r] {
      assert bare[t].dotted in DottedSet(bare);
    }
  }

  lemma CalledExactly(w: World, tree: Tree, bare: Symbols, symbols: Symbols, s: Site, t: string)
    requires s.file in tree && w.parse(s.file, tree[s.file]).Parsed? && DottedUnique(bare)
    requires symbols.Keys == bare.Keys && forall q | q in bare :: symbols[q].dotted == bare[q].dotted
    ensures t in CallsAt(w, ByDotted(bare), tree[s.file], s)
            <==> Calls(w, tree, symbols, s.file, s.definition, NameOf(w, s), t)
  {
    if IsPython(w, s.file) {
      ResolvedExactly(w, ByDotted(bare), tree[s.file], s, t);
      forall r ensures Means(w, tree, symbols, s.file, r, t) <==> Resolves(w, ByDotted(bare), tree[s.file], s.file, r, t) {
        MeaningExactly(w, tree, bare, symbols, s.file, r, t);
      }
    }
  }

  lemma ResolvedExactly(w: World, byDotted: map<string, string>, text: string, s: Site, t: string)
    requires IsPython(w, s.file)
    ensures t in CallsAt(w, byDotted, text, s)
            <==> t != NameOf(w, s) && exists r :: r in s.definition.refs && Resolves(w, byDotted, text, s.file, r, t)
  {
    SortedListing(CallTargets(w, byDotted, text, s));
    TargetsExactly(w, byDotted, text, s, t);
  }

  lemma TargetsExactly(w: World, byDotted: map<string, string>, text: string, s: Site, t: string)
    ensures t in CallTargets(w, byDotted, text, s)
            <==> t != NameOf(w, s) && exists r :: r in s.definition.refs && Resolves(w, byDotted, text, s.file, r, t)
  {
    var names, aliases := LocalNames(Definitions(w, s.file, text)), Aliases(w, s.file, text);
    if r :| r in s.definition.refs && Resolves(w, byDotted, text, s.file, r, t) {
      assert r in names || (r in aliases && aliases[r] in byDotted);
    }
    if t in CallTargets(w, byDotted, text, s) {
      if r :| r in s.definition.refs && r in names && t == Qualified(w, s.file, r) {
        assert Resolves(w, byDotted, text, s.file, r, t);
      } else {
        var r :| r in s.definition.refs && r !in names && r in aliases && aliases[r] in byDotted && byDotted[aliases[r]] == t;
        assert Resolves(w, byDotted, text, s.file, r, t);
      }
    }
  }

  /** The symbol of a definition, with exactly the callees of its body and the tests that target
      its file, in order. */
  ghost predicate Records(
    w: World, tree: Tree, symbols: Symbols, tests: map<Path, TestRecord>, p: Path, d: Definition, q: string, t: string)
  {
    && q in symbols && Increasing(symbols[q].calls) && Increasing(symbols[q].tests)
    && (t in symbols[q].calls <==> Calls(w, tree, symbols, p, d, q, t))
    && (t in symbols[q].tests <==> t in tests && p in tests[t].targets)
  }

  /** In a graph without clashing names, every definition of an indexed file has its symbol. */
  lemma CallsExactly(w: World, c: Canon, tree: Tree, p: Path, d: Definition, q: string, t: string)
    requires NamesUnique(w, c.modules, tree)
    requires p in Build(w, c, tree).files && Defines(w, tree, p, d, q)
    ensures Records(w, tree, Build(w, c, tree).symbols, Build(w, c, tree).tests, p, d, q, t)
    ensures Carries(w, Build(w, c, tree).files[p], p, d, Build(w, c, tree).symbols[q])
  {
    BuiltSymbols(w, c, tree);
    FinishedCalls(w, Build(w, c, tree).files, tree, Build(w, c, tree).tests, p, d, q, t);
  }

  lemma FinishedCalls(
    w: World, files: map<Path, FileRecord>, tree: Tree, tests: map<Path, TestRecord>,
    p: Path, d: Definition, q: string, t: string)
    requires files.Keys <= tree.Keys && UniqueNames(w, Sites(w, tree, files.Keys))
    requires p in files && Defines(w, tree, p, d, q)
    ensures Records(w, tree, Finished(w, files, tree, tests), tests, p, d, q, t)
    ensures Carries(w, files[p], p, d, Finished(w, files, tree, tests)[q])
  {
    var sites := Sites(w, tree, files.Keys);
    var bare, symbols := BareSymbols(w, files, sites), Finished(w, files, tree, tests);
    var s := Site(p, d);
    SiteExactly(w, tree, files.Keys, p, d, q);
    assert q in Names(w, sites) && SiteNamed(w, sites, q) == s;
    FinishedKeeps(w, files, tree, tests, q);
    RecordCarries(w, files[p], s);
    SortedListing(TestsOf(tests, p));
    if IsPython(w, p) {
      SortedListing(CallTargets(w, ByDotted(bare), TextOf(tree, p), s));
    }
    BareDottedUnique(w, files, sites);
    DottedStays(w, files, tree, tests);
    CalledExactly(w, tree, bare, symbols, s, t);
  }

  lemma DottedStays(w: World, files: map<Path, FileRecord>, tree: Tree, tests: map<Path, TestRecord>)
    ensures var bare, symbols := BareSymbols(w, files, Sites(w, tree, files.Keys)), Finished(w, files, tree, tests);
            symbols.Keys == bare.Keys && forall q | q in bare :: symbols[q].dotted == bare[q].dotted
  {
  }
}
