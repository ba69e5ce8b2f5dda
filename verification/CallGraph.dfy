/** Inverse call lists are exact (tools/repo_graph.py, resolve_symbol_calls and
    rebuild_called_by, against the call checks of tools/validate_repo_graph.py). */
module CallGraph {
  import opened Ordering
  import opened RepoTree
  import opened RepoGraph

  /** Calls and callers mirror each other, in sorted lists, among known symbols, never within
      one symbol. */
  ghost predicate Mirrored(symbols: Symbols) {
    && (forall q | q in symbols :: Increasing(symbols[q].calls) && Increasing(symbols[q].calledBy))
    && (forall q, t | q in symbols && t in symbols[q].calls :: t in symbols && t != q)
    && (forall q, p | q in symbols :: p in symbols[q].calledBy <==> p in symbols && q in symbols[p].calls)
  }

  /** What resolution yields for the symbol at one site: known symbols, and not itself. */
  lemma TargetsAreKnown(w: World, sites: set<Site>, byDotted: map<string, string>, tree: Tree, files: set<Path>, s: Site)
    requires sites == Sites(w, tree, files) && s in sites
    requires forall d | d in byDotted :: byDotted[d] in Names(w, sites)
    ensures forall t | t in CallTargets(w, byDotted, TextOf(tree, s.file), s) :: t in Names(w, sites) && t != NameOf(w, s)
  {
    var text := TextOf(tree, s.file);
    forall r | r in LocalNames(Definitions(w, s.file, text)) ensures Qualified(w, s.file, r) in Names(w, sites) {
      var d :| d in Definitions(w, s.file, text) && d.name == r;
      assert Site(s.file, d) in FileSites(w, s.file, text);
      assert Site(s.file, d) in sites;
      assert NameOf(w, Site(s.file, d)) == Qualified(w, s.file, r);
    }
  }

  /** The call lists of a full resolution. */
  ghost predicate CallsKnown(symbols: Symbols) {
    forall q | q in symbols ::
      && Increasing(symbols[q].calls)
      && forall t | t in symbols[q].calls :: t in symbols && t != q
  }

  lemma ResolvedCallsKnown(w: World, files: map<Path, FileRecord>, tree: Tree)
    ensures CallsKnown(WithCalls(w, files, tree, Sites(w, tree, files.Keys)))
  {
    var sites := Sites(w, tree, files.Keys);
    var bare := BareSymbols(w, files, sites);
    var symbols := WithCalls(w, files, tree, sites);
    forall q | q in symbols
      ensures Increasing(symbols[q].calls)
      ensures forall t | t in symbols[q].calls :: t in symbols && t != q
    {
      var s := SiteNamed(w, sites, q);
      TargetsAreKnown(w, sites, ByDotted(bare), tree, files.Keys, s);
      SortedListing(CallTargets(w, ByDotted(bare), TextOf(tree, s.file), s));
    }
  }

  lemma CallersMirror(symbols: Symbols)
    requires CallsKnown(symbols)
    ensures Mirrored(WithCallers(symbols))
  {
    var built := WithCallers(symbols);
    forall q | q in built
      ensures Increasing(built[q].calledBy)
      ensures forall p :: p in built[q].calledBy <==> p in built && q in built[p].calls
    {
      SortedListing(Callers(symbols, q));
    }
  }

  lemma TestsKeepMirror(symbols: Symbols, tests: map<Path, TestRecord>)
    requires Mirrored(symbols)
    ensures Mirrored(WithTests(symbols, tests))
  {
  }

  /** In every built graph q is among p's callers exactly if p is among q's callees; lists are
      sorted and free of duplicates, and no symbol calls itself or an unknown name. */
  lemma InverseCallsExact(w: World, c: Canon, tree: Tree)
    ensures Mirrored(Build(w, c, tree).symbols)
  {
    var files := FileRecords(w, c, Indexed(w, c.modules, tree));
    assert files.Keys == Indexed(w, c.modules, tree);
    var symbols := WithCalls(w, files, tree, Sites(w, tree, files.Keys));
    ResolvedCallsKnown(w, files, tree);
    CallersMirror(symbols);
    TestsKeepMirror(WithCallers(symbols), TestRecords(w, files));
  }
}
