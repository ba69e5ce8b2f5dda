/** Symbols and their calls in the surgical patch: reverse invalidation is sufficient
    (tools/repo_index.py, _patch_incremental). */
module ReverseInvalidation {
  import opened Ordering
  import opened RepoTree
  import opened RepoGraph
  import opened RepoIndex
  import opened PatchSetting

  /** A symbol without the edges that other files decide. */
  function Core(s: Symbol): Symbol {
    s.(calls := [], calledBy := [], tests := [])
  }

  /** Sites outside the changed files are the same before and after. */
  lemma SitesOutside(w: World, old': Tree, new': Tree, before: set<Path>, after: set<Path>,
                     changed: set<Path>, touched: set<Path>)
    requires SameOutside(old', new', before, after, changed, touched)
    ensures forall s: Site | s.file !in changed :: s in Sites(w, old', before) <==> s in Sites(w, new', after)
    ensures forall s: Site | s.file in changed :: s in Sites(w, new', touched) <==> s in Sites(w, new', after)
  {
    forall s: Site | s.file !in changed
      ensures s in Sites(w, old', before) <==> s in Sites(w, new', after)
    {
    }
  }

  /** The symbols are those of the sites, up to their edges. */
  ghost predicate Lists(w: World, files: map<Path, FileRecord>, sites: set<Site>, symbols: Symbols) {
    && symbols.Keys == Names(w, sites)
    && forall s | s in sites :: s.file in files && Core(symbols[NameOf(w, s)]) == SymbolFor(w, files[s.file], s)
  }

  lemma SiteNamedIs(w: World, sites: set<Site>, s: Site)
    requires UniqueNames(w, sites) && s in sites
    ensures NameOf(w, s) in Names(w, sites) && SiteNamed(w, sites, NameOf(w, s)) == s
  {
  }

  lemma BareLists(w: World, files: map<Path, FileRecord>, sites: set<Site>)
    requires UniqueNames(w, sites) && Recorded(files, sites)
    ensures Lists(w, files, sites, BareSymbols(w, files, sites))
  {
    forall s | s in sites ensures BareSymbols(w, files, sites)[NameOf(w, s)] == SymbolFor(w, files[s.file], s) {
      SiteNamedIs(w, sites, s);
    }
  }

  /** Kept and freshly parsed symbols together are the symbols of the new sites. */
  lemma PatchBareLists(
    w: World, old': map<Path, FileRecord>, new': map<Path, FileRecord>, symbols: Symbols,
    before: set<Site>, after: set<Site>, changed: set<Path>, fresh': set<Site>)
    requires UniqueNames(w, before) && UniqueNames(w, after)
    requires Recorded(new', after)
    requires Lists(w, old', before, symbols)
    requires forall p | p in new' && p !in changed :: p in old' && old'[p] == new'[p]
    requires forall s | s in before && s.file !in changed :: s in after
    requires forall s | s in after :: s in if s.file in changed then fresh' else before
    requires forall s | s in fresh' :: s in after && s.file in changed
    ensures var bare := PatchBare(w, new', symbols, changed, fresh');
            && Lists(w, new', after, bare)
            && (forall s | s in after && s.file !in changed ::
                  NameOf(w, s) in symbols && bare[NameOf(w, s)] == symbols[NameOf(w, s)])
            && (forall s | s in after && s.file in changed :: bare[NameOf(w, s)].calls == [])
  {
    var bare := PatchBare(w, new', symbols, changed, fresh');
    BareLists(w, new', fresh');
    forall s | s in after
      ensures NameOf(w, s) in bare
      ensures s.file in changed ==> bare[NameOf(w, s)] == SymbolFor(w, new'[s.file], s)
      ensures s.file !in changed ==> NameOf(w, s) in symbols && bare[NameOf(w, s)] == symbols[NameOf(w, s)]
    {
      PatchBareAt(w, new', symbols, changed, fresh', after, s);
    }
    forall q | q in bare ensures q in Names(w, after) {
      if q !in Names(w, fresh') {
        var s := SiteNamed(w, before, q);
        assert Core(symbols[q]).file == s.file;
      }
    }
  }

  lemma PatchBareAt(
    w: World, new': map<Path, FileRecord>, symbols: Symbols, changed: set<Path>, fresh': set<Site>,
    after: set<Site>, s: Site)
    requires UniqueNames(w, after) && Recorded(new', after) && s in after
    requires fresh' <= after && forall t | t in fresh' :: t.file in changed
    requires s.file in changed ==> s in fresh'
    requires s.file !in changed ==> NameOf(w, s) in symbols && symbols[NameOf(w, s)].file == s.file
    ensures var bare := PatchBare(w, new', symbols, changed, fresh');
            && NameOf(w, s) in bare
            && bare[NameOf(w, s)] ==
               if s.file in changed then SymbolFor(w, new'[s.file], s) else symbols[NameOf(w, s)]
  {
    if s.file in changed {
      SiteNamedIs(w, fresh', s);
    }
  }

  lemma ByDottedAgrees(a: Symbols, b: Symbols)
    requires a.Keys == b.Keys && forall q | q in a :: a[q].dotted == b[q].dotted
    requires DottedUnique(b)
    ensures ByDotted(a) == ByDotted(b)
  {
    assert DottedSet(a) == DottedSet(b);
  }

  // ---- Calls ----

  lemma ListsDottedUnique(w: World, files: map<Path, FileRecord>, sites: set<Site>, symbols: Symbols)
    requires Lists(w, files, sites, symbols)
    ensures DottedUnique(symbols)
  {
    forall q, r | q in symbols && r in symbols && symbols[q].dotted == symbols[r].dotted ensures q == r {
      var s, t := SiteNamed(w, sites, q), SiteNamed(w, sites, r);
      assert Core(symbols[q]).dotted == Core(symbols[r]).dotted;
      DottedDeterminesQualified(w, s.file, s.definition.name, t.file, t.definition.name);
    }
  }

  function DottedAt(w: World, s: Site): string {
    Dotted(w, s.file, s.definition.name)
  }

  /** Some site has the dotted name. */
  ghost predicate Defines(w: World, sites: set<Site>, d: string) {
    exists s :: s in sites && DottedAt(w, s) == d
  }

  /** The dotted lookup finds exactly the definitions of the sites. */
  ghost predicate Resolves(w: World, sites: set<Site>, byDotted: map<string, string>) {
    && (forall s | s in sites :: DottedAt(w, s) in byDotted && byDotted[DottedAt(w, s)] == NameOf(w, s))
    && forall d | d in byDotted :: Defines(w, sites, d)
  }

  lemma ByDottedResolves(w: World, files: map<Path, FileRecord>, sites: set<Site>, symbols: Symbols)
    requires Lists(w, files, sites, symbols)
    ensures Resolves(w, sites, ByDotted(symbols))
  {
    ListsDottedUnique(w, files, sites, symbols);
    var byDotted := ByDotted(symbols);
    forall s | s in sites
      ensures DottedAt(w, s) in byDotted && byDotted[DottedAt(w, s)] == NameOf(w, s)
    {
      assert NameOf(w, s) in symbols && Core(symbols[NameOf(w, s)]).dotted == DottedAt(w, s);
    }
    forall d | d in byDotted ensures Defines(w, sites, d) {
      var q := byDotted[d];
      var s := SiteNamed(w, sites, q);
      assert Core(symbols[q]).dotted == DottedAt(w, s);
    }
  }

  lemma ResolvesIsDefines(w: World, sites: set<Site>, byDotted: map<string, string>, d: string)
    requires Resolves(w, sites, byDotted)
    ensures d in byDotted <==> Defines(w, sites, d)
    ensures d in byDotted ==> exists s :: s in sites && DottedAt(w, s) == d && NameOf(w, s) == byDotted[d]
  {
    if d in byDotted {
      var s :| s in sites && DottedAt(w, s) == d;
    }
  }

  /** A name that both lookups know resolves the same way. */
  lemma LookupsAgree(
    w: World, before: set<Site>, old': map<string, string>, after: set<Site>, new': map<string, string>, d: string)
    requires Resolves(w, before, old') && Resolves(w, after, new') && d in old' && d in new'
    ensures old'[d] == new'[d]
  {
    ResolvesIsDefines(w, before, old', d);
    ResolvesIsDefines(w, after, new', d);
    var s :| s in before && DottedAt(w, s) == d && NameOf(w, s) == old'[d];
    var t :| t in after && DottedAt(w, t) == d && NameOf(w, t) == new'[d];
    DottedDeterminesQualified(w, s.file, s.definition.name, t.file, t.definition.name);
  }

  /** The definition loads the name, does not find it in its own file, and has an alias for it. */
  predicate LoadsAlias(w: World, text: string, s: Site, name: string) {
    && name in s.definition.refs
    && name !in LocalNames(Definitions(w, s.file, text))
    && name in Aliases(w, s.file, text)
  }

  /** No dotted name that the definition loads through an alias appeared or disappeared. */
  ghost predicate LoadsStay(w: World, before: set<Site>, after: set<Site>, text: string, s: Site) {
    IsPython(w, s.file) ==>
      forall name | LoadsAlias(w, text, s, name) ::
        Defines(w, before, Aliases(w, s.file, text)[name]) <==> Defines(w, after, Aliases(w, s.file, text)[name])
  }

  lemma StayingLoadsKeepTargets(
    w: World, before: set<Site>, old': map<string, string>, after: set<Site>, new': map<string, string>,
    text: string, s: Site)
    requires Resolves(w, before, old') && Resolves(w, after, new')
    requires IsPython(w, s.file) && LoadsStay(w, before, after, text, s)
    ensures CallTargets(w, old', text, s) == CallTargets(w, new', text, s)
  {
    var aliases := Aliases(w, s.file, text);
    forall r | LoadsAlias(w, text, s, r)
      ensures aliases[r] in old' <==> aliases[r] in new'
      ensures aliases[r] in old' ==> old'[aliases[r]] == new'[aliases[r]]
    {
      ResolvesIsDefines(w, before, old', aliases[r]);
      ResolvesIsDefines(w, after, new', aliases[r]);
      if aliases[r] in old' { LookupsAgree(w, before, old', after, new', aliases[r]); }
    }
    TargetsReadLoads(w, old', new', text, s);
  }

  /** Call targets look up the aliases that the definition loads, and nothing else. */
  lemma TargetsReadLoads(w: World, a: map<string, string>, b: map<string, string>, text: string, s: Site)
    requires var aliases := Aliases(w, s.file, text);
             forall r | LoadsAlias(w, text, s, r) ::
               (aliases[r] in a <==> aliases[r] in b) && (aliases[r] in a ==> a[aliases[r]] == b[aliases[r]])
    ensures CallTargets(w, a, text, s) == CallTargets(w, b, text, s)
  {
    TargetsAmong(w, a, b, text, s);
    TargetsAmong(w, b, a, text, s);
  }

  lemma TargetsAmong(w: World, a: map<string, string>, b: map<string, string>, text: string, s: Site)
    requires var aliases := Aliases(w, s.file, text);
             forall r | LoadsAlias(w, text, s, r) && aliases[r] in a :: aliases[r] in b && a[aliases[r]] == b[aliases[r]]
    ensures CallTargets(w, a, text, s) <= CallTargets(w, b, text, s)
  {
    var aliases := Aliases(w, s.file, text);
    var names := LocalNames(Definitions(w, s.file, text));
    forall q | q in CallTargets(w, a, text, s) ensures q in CallTargets(w, b, text, s) {
      if !exists r :: r in s.definition.refs && r in names && q == Qualified(w, s.file, r) {
        var r :| r in s.definition.refs && r !in names && r in aliases && aliases[r] in a && q == a[aliases[r]];
        assert LoadsAlias(w, text, s, r);
      }
    }
  }

  /** All definitions of a file are among the sites. */
  ghost predicate Holds(w: World, sites: set<Site>, p: Path, text: string) {
    forall d | d in Definitions(w, p, text) :: Site(p, d) in sites
  }

  lemma TargetsAreNames(w: World, sites: set<Site>, byDotted: map<string, string>, text: string, s: Site, q: string)
    requires Resolves(w, sites, byDotted) && Holds(w, sites, s.file, text) && q in CallTargets(w, byDotted, text, s)
    ensures q in Names(w, sites) && q != NameOf(w, s)
  {
    var names := LocalNames(Definitions(w, s.file, text));
    if r :| r in s.definition.refs && r in names && q == Qualified(w, s.file, r) {
      var d :| d in Definitions(w, s.file, text) && d.name == r;
      assert NameOf(w, Site(s.file, d)) == q;
    } else {
      var aliases := Aliases(w, s.file, text);
      var r :| r in s.definition.refs && r !in names && r in aliases && aliases[r] in byDotted && q == byDotted[aliases[r]];
      ResolvesIsDefines(w, sites, byDotted, aliases[r]);
    }
  }

  /** A load that resolves on one side only is a callee on that side only. */
  lemma OneSidedLoadIsSeen(
    w: World, here: set<Site>, x: map<string, string>, there: set<Site>, y: map<string, string>,
    text: string, s: Site, name: string)
    requires Resolves(w, here, x) && Resolves(w, there, y) && s in there && Holds(w, there, s.file, text)
    requires LoadsAlias(w, text, s, name)
    requires Aliases(w, s.file, text)[name] in x && Aliases(w, s.file, text)[name] !in y
    ensures x[Aliases(w, s.file, text)[name]] in CallTargets(w, x, text, s)
    ensures x[Aliases(w, s.file, text)[name]] !in CallTargets(w, y, text, s)
  {
    var d := Aliases(w, s.file, text)[name];
    OneSidedName(w, here, x, there, y, d);
    assert NameOf(w, s) in Names(w, there);
    if x[d] in CallTargets(w, y, text, s) {
      TargetsAreNames(w, there, y, text, s, x[d]);
    }
  }

  lemma OneSidedName(
    w: World, here: set<Site>, x: map<string, string>, there: set<Site>, y: map<string, string>, d: string)
    requires Resolves(w, here, x) && Resolves(w, there, y) && d in x && d !in y
    ensures x[d] !in Names(w, there)
  {
    ResolvesIsDefines(w, here, x, d);
    var h :| h in here && DottedAt(w, h) == d && NameOf(w, h) == x[d];
    if x[d] in Names(w, there) {
      var t := SiteNamed(w, there, x[d]);
      QualifiedDeterminesDotted(w, h.file, h.definition.name, t.file, t.definition.name);
    }
  }

  /** A definition that stays in the tree keeps its calls exactly if no dotted name that it
      loads through an alias appeared or disappeared. */
  lemma CallsStayExactly(
    w: World, before: set<Site>, old': map<string, string>, after: set<Site>, new': map<string, string>,
    text: string, s: Site)
    requires Resolves(w, before, old') && Resolves(w, after, new')
    requires s in before && s in after && Holds(w, before, s.file, text) && Holds(w, after, s.file, text)
    ensures CallsAt(w, old', text, s) == CallsAt(w, new', text, s) <==> LoadsStay(w, before, after, text, s)
  {
    if IsPython(w, s.file) {
      SortedListing(CallTargets(w, old', text, s));
      SortedListing(CallTargets(w, new', text, s));
      if LoadsStay(w, before, after, text, s) {
        StayingLoadsKeepTargets(w, before, old', after, new', text, s);
      } else {
        var aliases := Aliases(w, s.file, text);
        var r :| LoadsAlias(w, text, s, r) && (Defines(w, before, aliases[r]) != Defines(w, after, aliases[r]));
        ResolvesIsDefines(w, before, old', aliases[r]);
        ResolvesIsDefines(w, after, new', aliases[r]);
        if aliases[r] in old' {
          OneSidedLoadIsSeen(w, before, old', after, new', text, s, r);
        } else {
          OneSidedLoadIsSeen(w, after, new', before, old', text, s, r);
        }
      }
    }
  }

  ghost predicate NamesDefinedIn(w: World, sites: set<Site>, files: set<Path>, d: string) {
    exists s :: s in sites && s.file in files && DottedAt(w, s) == d
  }

  /** No alias target of a file is a dotted name that a changed file had or has. */
  ghost predicate AvoidsMoved(w: World, before: set<Site>, after: set<Site>, changed: set<Path>, targets: set<DottedPath>) {
    forall d | d in targets :: !NamesDefinedIn(w, before, changed, d) && !NamesDefinedIn(w, after, changed, d)
  }

  lemma AvoidingIsStaying(w: World, before: set<Site>, after: set<Site>, changed: set<Path>, text: string, s: Site)
    requires forall t: Site | t.file !in changed :: t in before <==> t in after
    requires AvoidsMoved(w, before, after, changed, AliasTargets(w, s.file, text))
    ensures LoadsStay(w, before, after, text, s)
  {
    if IsPython(w, s.file) {
      var aliases := Aliases(w, s.file, text);
      forall r | LoadsAlias(w, text, s, r) ensures Defines(w, before, aliases[r]) <==> Defines(w, after, aliases[r]) {
        assert aliases[r] in AliasTargets(w, s.file, text);
        UnmovedNameStays(w, before, after, changed, aliases[r]);
      }
    }
  }

  lemma UnmovedNameStays(w: World, before: set<Site>, after: set<Site>, changed: set<Path>, d: string)
    requires forall t: Site | t.file !in changed :: t in before <==> t in after
    requires !NamesDefinedIn(w, before, changed, d) && !NamesDefinedIn(w, after, changed, d)
    ensures Defines(w, before, d) <==> Defines(w, after, d)
  {
  }

  /** Reverse invalidation is sufficient: a definition whose file is untouched, and has no
      alias target among the dotted names the changed files had or have, keeps its calls. */
  lemma UntouchedCallsStay(
    w: World, before: set<Site>, old': map<string, string>, after: set<Site>, new': map<string, string>,
    changed: set<Path>, text: string, s: Site)
    requires Resolves(w, before, old') && Resolves(w, after, new')
    requires forall t: Site | t.file !in changed :: t in before <==> t in after
    requires AvoidsMoved(w, before, after, changed, AliasTargets(w, s.file, text))
    ensures CallsAt(w, old', text, s) == CallsAt(w, new', text, s)
  {
    AvoidingIsStaying(w, before, after, changed, text, s);
    if IsPython(w, s.file) {
      StayingLoadsKeepTargets(w, before, old', after, new', text, s);
    }
  }

  /** The cached and freshly parsed names cover all names that moved, as far as Python aliases
      can reach them. */
  lemma MovedNamesSuffice(
    w: World, modules: seq<ModuleId>, fm: FileMeta, old': Tree, before: set<Path>, after: set<Site>,
    changed: set<Path>, fresh': set<Site>, targets: set<DottedPath>)
    requires DescribesAll(w, modules, old', before - w.canonicalPaths, fm) && changed !! w.canonicalPaths
    requires forall s | s in after && s.file in changed :: s in fresh'
    requires targets * MovedNames(w, fm, changed, fresh') == {}
    ensures AvoidsMoved(w, Sites(w, old', before), after, changed, targets)
  {
    forall d | d in targets
      ensures !NamesDefinedIn(w, Sites(w, old', before), changed, d)
    {
      assert d !in targets * MovedNames(w, fm, changed, fresh');
      forall s | s in Sites(w, old', before) && s.file in changed ensures DottedAt(w, s) != d {
        if IsPython(w, s.file) {
          assert Describes(w, modules, s.file, TextOf(old', s.file), fm[s.file]);
          assert DottedAt(w, s) in fm[s.file].dotted;
        } else {
          ColonInItemName(d, w.itemBase(s.file), s.definition.name);
        }
      }
    }
    forall d | d in targets ensures !NamesDefinedIn(w, after, changed, d) {
      assert d !in targets * MovedNames(w, fm, changed, fresh');
    }
  }

  /** After the patch a definition has the calls a full resolution gives it, exactly if it was
      resolved again or its loads stay. */
  lemma PatchCallsAgree(
    w: World, bare: Symbols, old': Tree, new': Tree, before: set<Site>, after: set<Site>,
    changed: set<Path>, recompute: set<Path>, oldNames: map<string, string>, newNames: map<string, string>, s: Site)
    requires UniqueNames(w, after) && s in after && NameOf(w, s) in bare
    requires Resolves(w, before, oldNames) && Resolves(w, after, newNames)
    requires Sites(w, new', recompute) <= after
    requires s.file in recompute ==> s in Sites(w, new', recompute)
    requires s.file in changed && IsPython(w, s.file) ==> s.file in recompute
    requires s.file in changed ==> bare[NameOf(w, s)].calls == []
    requires s.file !in changed ==>
               && s in before && TextOf(old', s.file) == TextOf(new', s.file)
               && Holds(w, before, s.file, TextOf(new', s.file)) && Holds(w, after, s.file, TextOf(new', s.file))
               && bare[NameOf(w, s)].calls == CallsAt(w, oldNames, TextOf(old', s.file), s)
    ensures PatchCalls(w, bare, newNames, new', Sites(w, new', recompute))[NameOf(w, s)].calls
            == CallsAt(w, newNames, TextOf(new', s.file), s)
            <==> s.file in changed || s.file in recompute || LoadsStay(w, before, after, TextOf(new', s.file), s)
  {
    var sites := Sites(w, new', recompute);
    if s.file in recompute {
      SiteNamedIs(w, sites, s);
    } else {
      assert NameOf(w, s) !in Names(w, sites);
      if s.file !in changed {
        CallsStayExactly(w, before, oldNames, after, newNames, TextOf(new', s.file), s);
      }
    }
  }
}
