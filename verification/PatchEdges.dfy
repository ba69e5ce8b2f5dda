/** Dependency edges, drift and module records in the surgical patch
    (tools/repo_index.py, _patch_incremental). */
module PatchEdges {
  import opened Ordering
  import opened RepoTree
  import opened RepoGraph
  import opened RepoIndex
  import opened PatchSetting

  /** The rows of affected modules that the file cache covers; `hidden` files are not cached. */
  function Visible(table: ImportTable, hidden: set<Path>, affected: set<ModuleId>): ImportTable {
    map p | p in table && p !in hidden && table[p].source in affected :: table[p]
  }

  lemma CachedRowsAreVisible(
    w: World, c: Canon, tree: Tree, files: set<Path>, fm: FileMeta, affected: set<ModuleId>)
    requires DescribesAll(w, c.modules, tree, files - w.canonicalPaths, fm)
    ensures AffectedImports(fm, affected) == Visible(ImportRows(w, c, tree, files), w.canonicalPaths, affected)
  {
    var rows := ImportRows(w, c, tree, files);
    forall p | p in fm
      ensures fm[p].isTest == w.isTest(p)
      ensures !w.isTest(p) ==> p in rows && rows[p] == ImportRow(fm[p].moduleId, fm[p].imports)
    {
      EntryRow(w, c.modules, p, TextOf(tree, p), fm[p]);
    }
  }

  lemma EntryRow(w: World, modules: seq<ModuleId>, p: Path, text: string, meta: Meta)
    requires Describes(w, modules, p, text, meta)
    ensures meta.isTest == w.isTest(p) && meta.moduleId == ModuleOf(modules, p)
    ensures meta.imports == FileImports(w, modules, p, text)
  {
  }

  /** Rows of unaffected modules are the same before and after. */
  ghost predicate CalmRows(old': ImportTable, new': ImportTable, affected: set<ModuleId>) {
    && (forall p | p in old' && old'[p].source !in affected :: p in new' && new'[p] == old'[p])
    && (forall p | p in new' && new'[p].source !in affected :: p in old' && old'[p] == new'[p])
  }

  lemma UnaffectedRowsAreCalm(
    w: World, c: Canon, old': Tree, new': Tree, before: set<Path>, after: set<Path>, changed: set<Path>, touched: set<Path>)
    requires SameOutside(old', new', before, after, changed, touched)
    requires InModules(c.modules, before) && InModules(c.modules, after)
    ensures CalmRows(ImportRows(w, c, old', before), ImportRows(w, c, new', after), Affected(c.modules, changed))
  {
    var affected := Affected(c.modules, changed);
    forall p | p in before + after && ModuleOf(c.modules, p) !in affected
      ensures p in before && p in after && TextOf(old', p) == TextOf(new', p)
    {
      assert OwningModule(p, c.modules).Some?;
      assert p !in changed;
    }
  }

  lemma ActualIsEvidence(table: ImportTable, m: ModuleId, t: ModuleId)
    ensures t in Actual(table, m) <==> t != m && Evidence(table, m, t) != {}
  {
    if t in Actual(table, m) {
      var p :| p in table && table[p].source == m && t in table[p].targets;
      assert p in Evidence(table, m, t);
    }
  }

  /** Hidden files of affected modules import nothing outside their own module. */
  ghost predicate HiddenImportNothing(table: ImportTable, hidden: set<Path>, affected: set<ModuleId>) {
    forall p, t | p in table && p in hidden && table[p].source in affected && t in table[p].targets ::
      t == table[p].source
  }

  lemma EvidenceAgrees(old': ImportTable, new': ImportTable, hidden: set<Path>, affected: set<ModuleId>, m: ModuleId, t: ModuleId)
    requires CalmRows(old', new', affected) && t != m
    requires m in affected ==> HiddenImportNothing(new', hidden, affected)
    ensures Evidence(if m in affected then Visible(new', hidden, affected) else old', m, t) == Evidence(new', m, t)
    ensures t in Actual(if m in affected then Visible(new', hidden, affected) else old', m) <==> t in Actual(new', m)
  {
    ActualIsEvidence(if m in affected then Visible(new', hidden, affected) else old', m, t);
    ActualIsEvidence(new', m, t);
  }

  lemma ActualAgrees(old': ImportTable, new': ImportTable, hidden: set<Path>, affected: set<ModuleId>, m: ModuleId)
    requires CalmRows(old', new', affected) && HiddenImportNothing(new', hidden, affected)
    ensures Actual(if m in affected then Visible(new', hidden, affected) else old', m) == Actual(new', m)
  {
    forall t ensures t in Actual(if m in affected then Visible(new', hidden, affected) else old', m) <==> t in Actual(new', m) {
      if t != m { EvidenceAgrees(old', new', hidden, affected, m, t); }
    }
  }

  lemma DependenciesAgree(c: Canon, old': ImportTable, new': ImportTable, hidden: set<Path>, affected: set<ModuleId>)
    requires CalmRows(old', new', affected) && HiddenImportNothing(new', hidden, affected)
    requires affected <= ModuleSet(c)
    ensures PatchDependencies(BuildDependencies(c, old'), Visible(new', hidden, affected), affected)
            == BuildDependencies(c, new')
  {
    var patched := PatchDependencies(BuildDependencies(c, old'), Visible(new', hidden, affected), affected);
    var full := BuildDependencies(c, new');
    forall e: Edge
      ensures e in patched <==> e in full
      ensures e in patched ==> patched[e] == full[e]
    {
      EdgeAgrees(c, old', new', hidden, affected, e);
    }
  }

  lemma EdgeAgrees(c: Canon, old': ImportTable, new': ImportTable, hidden: set<Path>, affected: set<ModuleId>, e: Edge)
    requires CalmRows(old', new', affected) && HiddenImportNothing(new', hidden, affected)
    requires affected <= ModuleSet(c)
    ensures var patched := PatchDependencies(BuildDependencies(c, old'), Visible(new', hidden, affected), affected);
            var full := BuildDependencies(c, new');
            && (e in patched <==> e in full)
            && (e in patched ==> patched[e] == full[e])
  {
    if e.kind == ACTUAL && e.source != e.target {
      EvidenceAgrees(old', new', hidden, affected, e.source, e.target);
    }
  }

  /** The patched edges are those of a full build exactly when the uncached (canonical) files
      of the affected modules import nothing outside their own module. */
  lemma DependenciesAgreeExactly(c: Canon, old': ImportTable, new': ImportTable, hidden: set<Path>, affected: set<ModuleId>)
    requires CalmRows(old', new', affected)
    requires affected <= ModuleSet(c)
    ensures PatchDependencies(BuildDependencies(c, old'), Visible(new', hidden, affected), affected)
            == BuildDependencies(c, new')
            <==> HiddenImportNothing(new', hidden, affected)
  {
    if HiddenImportNothing(new', hidden, affected) {
      DependenciesAgree(c, old', new', hidden, affected);
    } else {
      var p, t :| p in new' && p in hidden && new'[p].source in affected && t in new'[p].targets && t != new'[p].source;
      var m := new'[p].source;
      var e := Edge(m, t, ACTUAL);
      var full := BuildDependencies(c, new');
      var patched := PatchDependencies(BuildDependencies(c, old'), Visible(new', hidden, affected), affected);
      assert p in Evidence(new', m, t);
      SortedListing(Evidence(new', m, t));
      SortedListing(Evidence(Visible(new', hidden, affected), m, t));
      assert e in full && p in full[e];
      assert p !in Evidence(Visible(new', hidden, affected), m, t);
      assert e in patched ==> p !in patched[e];
    }
  }

  // ---- Drift and module records ----

  lemma SortedElements(s: set<string>)
    ensures (set t | t in Sorted(s)) == s
  {
    SortedListing(s);
  }

  lemma DriftAgrees(
    c: Canon, records: map<ModuleId, ModuleRecord>, old': ImportTable, new': ImportTable,
    hidden: set<Path>, affected: set<ModuleId>)
    requires CalmRows(old', new', affected) && HiddenImportNothing(new', hidden, affected)
    requires records.Keys == ModuleSet(c)
    requires forall m | m in records :: records[m].info == c.info(m) && records[m].actual == Sorted(Actual(old', m))
    ensures PatchDrift(records, Visible(new', hidden, affected), affected) == BuildDrift(c, new')
  {
    var table := Visible(new', hidden, affected);
    forall m | m in records ensures PatchActual(records, table, affected, m) == Actual(new', m) {
      ActualAgrees(old', new', hidden, affected, m);
      SortedElements(Actual(old', m));
    }
  }

  lemma ModulesAgree(
    c: Canon, records: map<ModuleId, ModuleRecord>, oldFiles: Files, newFiles: Files,
    old': ImportTable, new': ImportTable, dependencies: map<Edge, seq<string>>,
    hidden: set<Path>, affected: set<ModuleId>)
    requires CalmRows(old', new', affected) && HiddenImportNothing(new', hidden, affected)
    requires Calm(oldFiles, newFiles, affected)
    requires records.Keys == ModuleSet(c)
    requires forall m | m in records ::
               && records[m].info == c.info(m) && records[m].actual == Sorted(Actual(old', m))
               && records[m].files == Sorted(FilesOf(oldFiles, m))
    ensures PatchModules(records, newFiles, Visible(new', hidden, affected), dependencies, affected)
            == BuildModules(c, newFiles, new', dependencies)
  {
    var table := Visible(new', hidden, affected);
    var patched := PatchModules(records, newFiles, table, dependencies, affected);
    var full := BuildModules(c, newFiles, new', dependencies);
    forall m | m in records ensures patched[m] == full[m] {
      ActualAgrees(old', new', hidden, affected, m);
      assert m !in affected ==> FilesOf(oldFiles, m) == FilesOf(newFiles, m);
    }
  }
}
