/** The whole symbol section of the surgical patch: names, calls, callers and tests
    (tools/repo_index.py, _patch_incremental). */
module PatchedSymbols {
  import opened Ordering
  import opened RepoTree
  import opened RepoGraph
  import opened RepoIndex
  import opened PatchSetting
  import opened ReverseInvalidation
  import opened PatchTestRecords

  /** Both maps list the same definitions, with the same calls. */
  ghost predicate SameCalls(a: Symbols, b: Symbols) {
    && a.Keys == b.Keys
    && forall q | q in a :: Core(a[q]) == Core(b[q]) && a[q].calls == b[q].calls
  }

  lemma SameCallers(a: Symbols, b: Symbols, q: string)
    requires SameCalls(a, b)
    ensures Callers(a, q) == Callers(b, q)
  {
  }

  /** The calls of a definition agree, and so do its tests where the patch keeps them. */
  ghost predicate EdgesAgree(
    w: World, files: Files, a: Symbols, b: Symbols, tests: map<Path, TestRecord>, affected: set<ModuleId>, s: Site)
    requires s.file in files && NameOf(w, s) in a && NameOf(w, s) in b
  {
    && a[NameOf(w, s)].calls == b[NameOf(w, s)].calls
    && (files[s.file].moduleId !in affected ==> a[NameOf(w, s)].tests == Sorted(TestsOf(tests, s.file)))
  }

  /** Callers and tests on top of two listings of the same definitions: the results agree
      exactly if the calls agree, and the kept tests are the right ones. */
  lemma SymbolsAgreeExactly(
    w: World, files: Files, sites: set<Site>, a: Symbols, b: Symbols, tests: map<Path, TestRecord>, affected: set<ModuleId>)
    requires Lists(w, files, sites, a) && Lists(w, files, sites, b)
    ensures PatchSymbolTests(WithCallers(a), tests, affected) == WithTests(WithCallers(b), tests)
            <==> forall s | s in sites :: EdgesAgree(w, files, a, b, tests, affected, s)
  {
    if forall s | s in sites :: EdgesAgree(w, files, a, b, tests, affected, s) {
      AgreeingEdgesSuffice(w, files, sites, a, b, tests, affected);
    } else {
      var s :| s in sites && !EdgesAgree(w, files, a, b, tests, affected, s);
      DifferentEdgeIsSeen(w, files, sites, a, b, tests, affected, s);
    }
  }

  lemma AgreeingEdgesSuffice(
    w: World, files: Files, sites: set<Site>, a: Symbols, b: Symbols, tests: map<Path, TestRecord>, affected: set<ModuleId>)
    requires Lists(w, files, sites, a) && Lists(w, files, sites, b)
    requires forall s | s in sites :: EdgesAgree(w, files, a, b, tests, affected, s)
    ensures PatchSymbolTests(WithCallers(a), tests, affected) == WithTests(WithCallers(b), tests)
  {
    var x, y := PatchSymbolTests(WithCallers(a), tests, affected), WithTests(WithCallers(b), tests);
    forall q | q in a
      ensures Core(a[q]) == Core(b[q]) && a[q].calls == b[q].calls
      ensures a[q].moduleId !in affected ==> a[q].tests == Sorted(TestsOf(tests, a[q].file))
    {
      var s := SiteNamed(w, sites, q);
      assert EdgesAgree(w, files, a, b, tests, affected, s);
      CoreKeepsNames(a[q], SymbolFor(w, files[s.file], s));
    }
    forall q | q in x ensures x[q] == y[q] {
      SymbolsAgreeAt(a, b, tests, affected, q);
    }
    SameMaps(x, y);
  }

  lemma DifferentEdgeIsSeen(
    w: World, files: Files, sites: set<Site>, a: Symbols, b: Symbols, tests: map<Path, TestRecord>,
    affected: set<ModuleId>, s: Site)
    requires Lists(w, files, sites, a) && Lists(w, files, sites, b)
    requires s in sites && !EdgesAgree(w, files, a, b, tests, affected, s)
    ensures PatchSymbolTests(WithCallers(a), tests, affected) != WithTests(WithCallers(b), tests)
  {
    var x, y := PatchSymbolTests(WithCallers(a), tests, affected), WithTests(WithCallers(b), tests);
    var q := NameOf(w, s);
    CoreKeepsNames(a[q], SymbolFor(w, files[s.file], s));
    CoreKeepsNames(b[q], SymbolFor(w, files[s.file], s));
    assert x[q].calls == a[q].calls && y[q].calls == b[q].calls;
    assert y[q].tests == Sorted(TestsOf(tests, s.file));
    assert a[q].moduleId !in affected ==> x[q].tests == a[q].tests;
  }

  lemma SameMaps<K, V>(a: map<K, V>, b: map<K, V>)
    requires a.Keys == b.Keys && forall k | k in a :: a[k] == b[k]
    ensures a == b
  {
  }

  lemma SymbolsAgreeAt(a: Symbols, b: Symbols, tests: map<Path, TestRecord>, affected: set<ModuleId>, q: string)
    requires SameCalls(a, b) && q in a
    requires a[q].moduleId !in affected ==> a[q].tests == Sorted(TestsOf(tests, a[q].file))
    ensures PatchSymbolTests(WithCallers(a), tests, affected)[q] == WithTests(WithCallers(b), tests)[q]
  {
    SameCallers(a, b, q);
    SymbolAgrees(a[q], b[q], Sorted(Callers(a, q)), Sorted(TestsOf(tests, a[q].file)));
  }

  lemma SymbolAgrees(a: Symbol, b: Symbol, callers: seq<string>, tests: seq<Path>)
    requires Core(a) == Core(b) && a.calls == b.calls
    ensures a.file == b.file && a.(calledBy := callers, tests := tests) == b.(calledBy := callers, tests := tests)
  {
    assert Core(a).(calls := a.calls, calledBy := callers, tests := tests) == a.(calledBy := callers, tests := tests);
    assert Core(b).(calls := b.calls, calledBy := callers, tests := tests) == b.(calledBy := callers, tests := tests);
    assert Core(a).file == Core(b).file;
  }

  /** What a full build stores for the symbols of some sites. */
  ghost predicate BuiltSymbols(
    w: World, files: Files, tree: Tree, sites: set<Site>, tests: map<Path, TestRecord>, symbols: Symbols)
  {
    && Lists(w, files, sites, symbols)
    && forall s | s in sites ::
         && symbols[NameOf(w, s)].calls == CallsAt(w, ByDotted(symbols), TextOf(tree, s.file), s)
         && symbols[NameOf(w, s)].tests == Sorted(TestsOf(tests, s.file))
  }

  lemma WithCallsLists(w: World, files: Files, tree: Tree, sites: set<Site>)
    requires UniqueNames(w, sites) && Recorded(files, sites)
    ensures var called := WithCalls(w, files, tree, sites);
            && Lists(w, files, sites, called)
            && forall s | s in sites ::
                 called[NameOf(w, s)].calls == CallsAt(w, ByDotted(BareSymbols(w, files, sites)), TextOf(tree, s.file), s)
  {
    BareLists(w, files, sites);
    forall s | s in sites ensures SiteNamed(w, sites, NameOf(w, s)) == s {
      SiteNamedIs(w, sites, s);
    }
  }

  lemma BuildSymbolsAreBuilt(w: World, c: Canon, tree: Tree, indexed: set<Path>)
    requires UniqueNames(w, Sites(w, tree, indexed))
    ensures var files := FileRecords(w, c, indexed);
            BuiltSymbols(w, files, tree, Sites(w, tree, indexed), TestRecords(w, files), BuildSymbols(w, c, tree, indexed))
  {
    var files, sites := FileRecords(w, c, indexed), Sites(w, tree, indexed);
    WithCallsLists(w, files, tree, sites);
    BareLists(w, files, sites);
    BareDottedUnique(w, files, sites);
    EdgesKeepLists(w, files, sites, BareSymbols(w, files, sites), WithCalls(w, files, tree, sites), TestRecords(w, files));
  }

  /** Adding callers and tests changes no definition, no dotted name and no call. */
  lemma EdgesKeepCores(w: World, files: Files, sites: set<Site>, called: Symbols, tests: map<Path, TestRecord>)
    requires Lists(w, files, sites, called)
    ensures var built := WithTests(WithCallers(called), tests);
            && Lists(w, files, sites, built)
            && forall s | s in sites ::
                 && built[NameOf(w, s)].calls == called[NameOf(w, s)].calls
                 && built[NameOf(w, s)].tests == Sorted(TestsOf(tests, s.file))
  {
    var built := WithTests(WithCallers(called), tests);
    forall s | s in sites ensures Core(built[NameOf(w, s)]) == SymbolFor(w, files[s.file], s) {
      CoreKeepsNames(built[NameOf(w, s)], called[NameOf(w, s)]);
    }
  }

  lemma EdgesKeepLists(
    w: World, files: Files, sites: set<Site>, bare: Symbols, called: Symbols, tests: map<Path, TestRecord>)
    requires Lists(w, files, sites, called) && Lists(w, files, sites, bare) && DottedUnique(bare)
    ensures var built := WithTests(WithCallers(called), tests);
            && Lists(w, files, sites, built)
            && ByDotted(built) == ByDotted(bare)
            && forall s | s in sites ::
                 && built[NameOf(w, s)].calls == called[NameOf(w, s)].calls
                 && built[NameOf(w, s)].tests == Sorted(TestsOf(tests, s.file))
  {
    var built := WithTests(WithCallers(called), tests);
    EdgesKeepCores(w, files, sites, called, tests);
    forall q | q in built ensures built[q].dotted == bare[q].dotted {
      var s := SiteNamed(w, sites, q);
      CoreKeepsNames(built[q], bare[q]);
    }
    ByDottedAgrees(built, bare);
  }

  lemma CoreKeepsNames(a: Symbol, b: Symbol)
    ensures Core(a) == Core(b) ==> a.dotted == b.dotted && a.file == b.file && a.moduleId == b.moduleId
  {
    assert Core(a).dotted == a.dotted && Core(b).dotted == b.dotted;
    assert Core(a).moduleId == a.moduleId && Core(b).moduleId == b.moduleId;
    assert Core(a).file == a.file && Core(b).file == b.file;
  }

  /** The symbol tables of an old build and of the patch resolve the old and the new sites. */
  lemma PatchedNamesResolve(
    w: World, oldFiles: Files, newFiles: Files, symbols: Symbols, before: set<Site>, after: set<Site>, bare: Symbols)
    requires UniqueNames(w, after) && Recorded(newFiles, after)
    requires Lists(w, oldFiles, before, symbols) && Lists(w, newFiles, after, bare)
    ensures Resolves(w, before, ByDotted(symbols)) && Resolves(w, after, ByDotted(bare))
    ensures ByDotted(bare) == ByDotted(BareSymbols(w, newFiles, after))
  {
    ByDottedResolves(w, oldFiles, before, symbols);
    ByDottedResolves(w, newFiles, after, bare);
    BareLists(w, newFiles, after);
    BareDottedUnique(w, newFiles, after);
    var full := BareSymbols(w, newFiles, after);
    forall q | q in bare ensures bare[q].dotted == full[q].dotted {
      var s := SiteNamed(w, after, q);
      CoreKeepsNames(bare[q], full[q]);
    }
    ByDottedAgrees(bare, full);
  }

  /** One change of the tree: both trees, their indexed files, the changed and the touched paths. */
  datatype Change = Change(
    old': Tree, new': Tree, before: set<Path>, after: set<Path>, changed: set<Path>, touched: set<Path>)
  {
    ghost predicate Consistent() {
      SameOutside(old', new', before, after, changed, touched)
    }

    ghost predicate NamesUnique(w: World) {
      UniqueNames(w, OldSites(w)) && UniqueNames(w, NewSites(w))
    }

    function OldSites(w: World): set<Site> { Sites(w, old', before) }

    function NewSites(w: World): set<Site> { Sites(w, new', after) }

    function FreshSites(w: World): set<Site> { Sites(w, new', touched) }
  }

  /** The kept and fresh symbols before the calls are recomputed. */
  ghost predicate Merged(w: World, ch: Change, newFiles: Files, symbols: Symbols, bare: Symbols) {
    && Lists(w, newFiles, ch.NewSites(w), bare)
    && (forall s | s in ch.NewSites(w) && s.file !in ch.changed ::
          NameOf(w, s) in symbols && bare[NameOf(w, s)] == symbols[NameOf(w, s)])
    && (forall s | s in ch.NewSites(w) && s.file in ch.changed :: bare[NameOf(w, s)].calls == [])
  }

  lemma PatchBareIsMerged(w: World, ch: Change, oldFiles: Files, newFiles: Files, symbols: Symbols)
    requires ch.Consistent() && ch.NamesUnique(w)
    requires oldFiles.Keys == ch.before && newFiles.Keys == ch.after
    requires forall p | p in newFiles && p !in ch.changed :: oldFiles[p] == newFiles[p]
    requires Lists(w, oldFiles, ch.OldSites(w), symbols)
    ensures Merged(w, ch, newFiles, symbols, PatchBare(w, newFiles, symbols, ch.changed, ch.FreshSites(w)))
  {
    SitesOutside(w, ch.old', ch.new', ch.before, ch.after, ch.changed, ch.touched);
    PatchBareLists(w, oldFiles, newFiles, symbols, ch.OldSites(w), ch.NewSites(w), ch.changed, ch.FreshSites(w));
  }

  /** The touched Python files are resolved again, and other files of the tree perhaps. */
  ghost predicate ResolvesTouched(w: World, ch: Change, recompute: set<Path>) {
    && recompute <= ch.after
    && forall p | p in ch.touched && IsPython(w, p) :: p in recompute
  }

  /** A definition is resolved anew, or no dotted name that it loads appeared or disappeared. */
  ghost predicate CallStays(w: World, ch: Change, recompute: set<Path>, s: Site) {
    || s.file in ch.changed
    || s.file in recompute
    || LoadsStay(w, ch.OldSites(w), ch.NewSites(w), TextOf(ch.new', s.file), s)
  }

  /** The calls that a build stores, as the old symbols hold them. */
  ghost predicate OldCalls(w: World, ch: Change, symbols: Symbols, oldNames: map<string, string>) {
    forall t | t in ch.OldSites(w) ::
      NameOf(w, t) in symbols && symbols[NameOf(w, t)].calls == CallsAt(w, oldNames, TextOf(ch.old', t.file), t)
  }

  /** A definition of an unchanged file was there before, with all others of its file. */
  lemma UnchangedSiteStays(w: World, ch: Change, s: Site)
    requires ch.Consistent() && s in ch.NewSites(w) && s.file !in ch.changed
    ensures s in ch.OldSites(w) && TextOf(ch.old', s.file) == TextOf(ch.new', s.file)
    ensures Holds(w, ch.OldSites(w), s.file, TextOf(ch.new', s.file))
    ensures Holds(w, ch.NewSites(w), s.file, TextOf(ch.new', s.file))
  {
    assert s.file in ch.before && s.file in ch.after;
    SitesHold(w, ch.old', ch.before, s.file);
    SitesHold(w, ch.new', ch.after, s.file);
    assert s.definition in Definitions(w, s.file, TextOf(ch.new', s.file));
  }

  lemma SitesHold(w: World, tree: Tree, files: set<Path>, p: Path)
    requires p in files
    ensures Holds(w, Sites(w, tree, files), p, TextOf(tree, p))
  {
    forall d | d in Definitions(w, p, TextOf(tree, p)) ensures Site(p, d) in Sites(w, tree, files) {
      assert Site(p, d) in FileSites(w, p, TextOf(tree, p));
    }
  }

  lemma SiteCallsAreFull(
    w: World, ch: Change, newFiles: Files, symbols: Symbols, bare: Symbols, recompute: set<Path>,
    oldNames: map<string, string>, newNames: map<string, string>, s: Site)
    requires ch.Consistent() && ch.NamesUnique(w) && ResolvesTouched(w, ch, recompute)
    requires Merged(w, ch, newFiles, symbols, bare) && s in ch.NewSites(w)
    requires Resolves(w, ch.OldSites(w), oldNames) && Resolves(w, ch.NewSites(w), newNames)
    requires OldCalls(w, ch, symbols, oldNames)
    ensures PatchCalls(w, bare, newNames, ch.new', Sites(w, ch.new', recompute))[NameOf(w, s)].calls
            == CallsAt(w, newNames, TextOf(ch.new', s.file), s)
            <==> CallStays(w, ch, recompute, s)
  {
    if s.file in ch.changed {
      SitesOutside(w, ch.old', ch.new', ch.before, ch.after, ch.changed, ch.touched);
    } else {
      UnchangedSiteStays(w, ch, s);
    }
    PatchCallsAgree(w, bare, ch.old', ch.new', ch.OldSites(w), ch.NewSites(w), ch.changed, recompute,
                    oldNames, newNames, s);
  }

  /** The patched symbols, before callers and tests, list the new definitions, and each has the
      calls of a full build exactly if it was resolved anew or its loads stay. */
  lemma PatchedCallsAreFull(
    w: World, ch: Change, oldFiles: Files, newFiles: Files, symbols: Symbols, bare: Symbols, recompute: set<Path>,
    tests: map<Path, TestRecord>)
    requires ch.Consistent() && ch.NamesUnique(w) && ResolvesTouched(w, ch, recompute)
    requires newFiles.Keys == ch.after
    requires BuiltSymbols(w, oldFiles, ch.old', ch.OldSites(w), tests, symbols)
    requires Merged(w, ch, newFiles, symbols, bare)
    ensures var called := PatchCalls(w, bare, ByDotted(bare), ch.new', Sites(w, ch.new', recompute));
            var full := WithCalls(w, newFiles, ch.new', ch.NewSites(w));
            && Lists(w, newFiles, ch.NewSites(w), called) && Lists(w, newFiles, ch.NewSites(w), full)
            && forall s | s in ch.NewSites(w) ::
                 called[NameOf(w, s)].calls == full[NameOf(w, s)].calls <==> CallStays(w, ch, recompute, s)
  {
    var oldNames, newNames := ByDotted(symbols), ByDotted(bare);
    PatchedNamesResolve(w, oldFiles, newFiles, symbols, ch.OldSites(w), ch.NewSites(w), bare);
    CalledLists(w, newFiles, ch.new', ch.NewSites(w), bare, newNames, Sites(w, ch.new', recompute));
    assert OldCalls(w, ch, symbols, oldNames);
    forall s | s in ch.NewSites(w)
      ensures PatchCalls(w, bare, newNames, ch.new', Sites(w, ch.new', recompute))[NameOf(w, s)].calls
              == CallsAt(w, newNames, TextOf(ch.new', s.file), s)
              <==> CallStays(w, ch, recompute, s)
    {
      SiteCallsAreFull(w, ch, newFiles, symbols, bare, recompute, oldNames, newNames, s);
    }
  }

  /** Patched and full calls list the same definitions; the full ones are resolved by `names`. */
  lemma CalledLists(
    w: World, files: Files, tree: Tree, sites: set<Site>, bare: Symbols, names: map<string, string>, recomputed: set<Site>)
    requires UniqueNames(w, sites) && Recorded(files, sites) && Lists(w, files, sites, bare)
    requires names == ByDotted(BareSymbols(w, files, sites))
    ensures Lists(w, files, sites, PatchCalls(w, bare, names, tree, recomputed))
    ensures var full := WithCalls(w, files, tree, sites);
            && Lists(w, files, sites, full)
            && forall s | s in sites :: full[NameOf(w, s)].calls == CallsAt(w, names, TextOf(tree, s.file), s)
  {
    WithCallsLists(w, files, tree, sites);
    PatchCallsKeepCore(w, bare, names, tree, recomputed);
  }

  lemma PatchCallsKeepCore(w: World, symbols: Symbols, names: map<string, string>, tree: Tree, sites: set<Site>)
    ensures var called := PatchCalls(w, symbols, names, tree, sites);
            && called.Keys == symbols.Keys
            && forall q | q in symbols ::
                 Core(called[q]) == Core(symbols[q]) && called[q].tests == symbols[q].tests
  {
  }

  /** What the patch does not look at again stays right: the calls it does not resolve, and the
      tests of symbols outside the affected modules. */
  ghost predicate KeptEdgesStay(
    w: World, ch: Change, oldFiles: Files, newFiles: Files, recompute: set<Path>, affected: set<ModuleId>)
    requires newFiles.Keys == ch.after
  {
    forall s | s in ch.NewSites(w) ::
      && CallStays(w, ch, recompute, s)
      && (newFiles[s.file].moduleId !in affected ==> TargetsStay(w, oldFiles, newFiles, s.file))
  }

  /** The symbol section of the patch is that of a full build exactly if every definition whose
      calls were kept loads no name that appeared or disappeared, and no test began or ceased to
      target a file with definitions in an unaffected module. */
  lemma SymbolSectionAgrees(
    w: World, ch: Change, oldFiles: Files, newFiles: Files, symbols: Symbols, recompute: set<Path>,
    affected: set<ModuleId>)
    requires ch.Consistent() && ch.NamesUnique(w) && ResolvesTouched(w, ch, recompute)
    requires oldFiles.Keys == ch.before && newFiles.Keys == ch.after
    requires forall p | p in newFiles && p !in ch.changed :: oldFiles[p] == newFiles[p]
    requires forall p | p in newFiles && p in ch.changed :: newFiles[p].moduleId in affected
    requires BuiltSymbols(w, oldFiles, ch.old', ch.OldSites(w), TestRecords(w, oldFiles), symbols)
    ensures var bare := PatchBare(w, newFiles, symbols, ch.changed, ch.FreshSites(w));
            var called := PatchCalls(w, bare, ByDotted(bare), ch.new', Sites(w, ch.new', recompute));
            PatchSymbolTests(WithCallers(called), TestRecords(w, newFiles), affected)
            == WithTests(WithCallers(WithCalls(w, newFiles, ch.new', ch.NewSites(w))), TestRecords(w, newFiles))
            <==> KeptEdgesStay(w, ch, oldFiles, newFiles, recompute, affected)
  {
    var bare := PatchBare(w, newFiles, symbols, ch.changed, ch.FreshSites(w));
    PatchBareIsMerged(w, ch, oldFiles, newFiles, symbols);
    PatchedCallsAreFull(w, ch, oldFiles, newFiles, symbols, bare, recompute, TestRecords(w, oldFiles));
    PatchCallsKeepCore(w, bare, ByDotted(bare), ch.new', Sites(w, ch.new', recompute));
    var called := PatchCalls(w, bare, ByDotted(bare), ch.new', Sites(w, ch.new', recompute));
    var full := WithCalls(w, newFiles, ch.new', ch.NewSites(w));
    forall s | s in ch.NewSites(w)
      ensures EdgesAgree(w, newFiles, called, full, TestRecords(w, newFiles), affected, s) <==>
              && CallStays(w, ch, recompute, s)
              && (newFiles[s.file].moduleId !in affected ==> TargetsStay(w, oldFiles, newFiles, s.file))
    {
      KeptTestsAreFull(w, ch, oldFiles, newFiles, symbols, bare, affected, s);
    }
    SymbolsAgreeExactly(w, newFiles, ch.NewSites(w), called, full, TestRecords(w, newFiles), affected);
  }

  lemma KeptTestsAreFull(
    w: World, ch: Change, oldFiles: Files, newFiles: Files, symbols: Symbols, bare: Symbols, affected: set<ModuleId>,
    s: Site)
    requires newFiles.Keys == ch.after && s in ch.NewSites(w)
    requires forall p | p in newFiles && p in ch.changed :: newFiles[p].moduleId in affected
    requires BuiltSymbols(w, oldFiles, ch.old', ch.OldSites(w), TestRecords(w, oldFiles), symbols)
    requires Merged(w, ch, newFiles, symbols, bare)
    ensures newFiles[s.file].moduleId !in affected ==>
              (bare[NameOf(w, s)].tests == Sorted(TestsOf(TestRecords(w, newFiles), s.file))
               <==> TargetsStay(w, oldFiles, newFiles, s.file))
  {
    if newFiles[s.file].moduleId !in affected {
      var q := NameOf(w, s);
      var t := SiteNamed(w, ch.OldSites(w), q);
      assert Core(symbols[q]).file == t.file && Core(bare[q]).file == s.file;
      TestsOfStayExactly(w, oldFiles, newFiles, s.file);
    }
  }
}
