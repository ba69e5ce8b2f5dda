/** Incremental equals full: patching the graph of an old tree gives the graph a full build
    derives from the new tree (tools/repo_index.py, _patch_incremental). */
module IncrementalIsFull {
  import opened Ordering
  import opened RepoTree
  import opened RepoGraph
  import opened RepoIndex
  import opened PatchSetting
  import opened ReverseInvalidation
  import opened PatchTestRecords
  import opened PatchEdges
  import opened PatchFindings
  import opened PatchedSymbols

  /** `changed` holds every indexed path whose text differs between the trees (it may hold
      more), only indexed paths, and no canonical input. */
  ghost predicate CoversChanges(w: World, c: Canon, old': Tree, new': Tree, changed: set<Path>) {
    && changed <= Indexed(w, c.modules, old') + Indexed(w, c.modules, new')
    && changed !! w.canonicalPaths
    && forall p | p in Indexed(w, c.modules, old') + Indexed(w, c.modules, new') && p !in changed ::
         p in old' && p in new' && old'[p] == new'[p]
  }

  function ChangeOf(w: World, c: Canon, old': Tree, new': Tree, changed: set<Path>): Change {
    Change(old', new', Indexed(w, c.modules, old'), Indexed(w, c.modules, new'), changed, Touched(changed, new'))
  }

  /** Definitions of canonical files, whose calls the patch never resolves again, load no name
      that appeared or disappeared. */
  ghost predicate HiddenLoadsStay(w: World, ch: Change) {
    forall s | s in ch.NewSites(w) && s.file in w.canonicalPaths ::
      LoadsStay(w, ch.OldSites(w), ch.NewSites(w), TextOf(ch.new', s.file), s)
  }

  /** No test began or ceased to target a file with definitions in an unaffected module. */
  ghost predicate OtherTargetsStay(w: World, ch: Change, old': Files, new': Files, affected: set<ModuleId>) {
    forall s | s in ch.NewSites(w) && s.file in new' && new'[s.file].moduleId !in affected ::
      TargetsStay(w, old', new', s.file)
  }

  /** What the patch does not look at did not move: first hits of tests in unaffected modules,
      imports and loads of canonical files, tests that target files of unaffected modules. */
  ghost predicate NothingMissed(w: World, c: Canon, ch: Change, affected: set<ModuleId>) {
    var old', new' := FileRecords(w, c, ch.before), FileRecords(w, c, ch.after);
    && TestsSettled(w, old', new', affected)
    && HiddenImportNothing(ImportRows(w, c, ch.new', ch.after), w.canonicalPaths, affected)
    && HiddenLoadsStay(w, ch)
    && OtherTargetsStay(w, ch, old', new', affected)
  }

  ghost predicate PatchMissesNothing(w: World, c: Canon, old': Tree, new': Tree, changed: set<Path>) {
    NothingMissed(w, c, ChangeOf(w, c, old', new', changed), Affected(c.modules, changed))
  }

  /** What the patch relies on beyond its inputs. The canonical documents, and with them the
      module list, are those of both trees. */
  ghost predicate PatchIsSafe(w: World, c: Canon, old': Tree, new': Tree, changed: set<Path>) {
    && Increasing(c.modules)
    && NamesUnique(w, c.modules, old') && NamesUnique(w, c.modules, new')
    && Elsewhere(c.notes, changed)
    && PatchMissesNothing(w, c, old', new', changed)
  }

  lemma ChangeIsConsistent(w: World, c: Canon, old': Tree, new': Tree, changed: set<Path>)
    requires CoversChanges(w, c, old', new', changed)
    ensures ChangeOf(w, c, old', new', changed).Consistent()
    ensures InModules(c.modules, Indexed(w, c.modules, old')) && InModules(c.modules, Indexed(w, c.modules, new'))
  {
    var before, after := Indexed(w, c.modules, old'), Indexed(w, c.modules, new');
    forall p | p !in changed ensures p in before <==> p in after {
      if p in before + after { assert p in old' && p in new'; }
    }
    forall p ensures p in Touched(changed, new') <==> p in after && p in changed {
      if p in Touched(changed, new') { assert p in before + after; }
    }
  }

  /** Everything the section lemmas need of one patch. */
  ghost predicate Setting(w: World, c: Canon, ch: Change, fm: FileMeta, affected: set<ModuleId>) {
    && ch.Consistent() && ch.NamesUnique(w)
    && InModules(c.modules, ch.before) && InModules(c.modules, ch.after)
    && ch.changed <= ch.before + ch.after && ch.changed !! w.canonicalPaths
    && affected == Affected(c.modules, ch.changed)
    && DescribesAll(w, c.modules, ch.old', ch.before - w.canonicalPaths, fm)
  }

  // ---- Which files are resolved again ----

  ghost function PatchedMeta(w: World, c: Canon, ch: Change, fm: FileMeta): FileMeta {
    PatchFileMeta(w, c.modules, fm, ch.changed, ch.touched, ch.new')
  }

  ghost function Recomputed(w: World, c: Canon, ch: Change, fm: FileMeta): set<Path> {
    Recompute(w, PatchedMeta(w, c, ch, fm), ch.touched, MovedNames(w, fm, ch.changed, ch.FreshSites(w)))
  }

  lemma PatchedMetaDescribes(w: World, c: Canon, ch: Change, fm: FileMeta, affected: set<ModuleId>)
    requires Setting(w, c, ch, fm, affected)
    ensures DescribesAll(w, c.modules, ch.new', ch.after - w.canonicalPaths, PatchedMeta(w, c, ch, fm))
  {
    FileMetaAgrees(w, c.modules, fm, ch.old', ch.new', ch.before, ch.after, ch.changed, ch.touched);
  }

  /** Touched Python files are resolved again, canonical files never. */
  lemma RecomputedAreCached(w: World, c: Canon, ch: Change, fm: FileMeta, affected: set<ModuleId>)
    requires Setting(w, c, ch, fm, affected)
    ensures ResolvesTouched(w, ch, Recomputed(w, c, ch, fm))
    ensures Recomputed(w, c, ch, fm) !! w.canonicalPaths
  {
    PatchedMetaDescribes(w, c, ch, fm, affected);
  }

  /** A cached file that the patch does not resolve again aliases no name that moved. */
  lemma CachedLoadsStay(w: World, c: Canon, ch: Change, fm: FileMeta, affected: set<ModuleId>, s: Site)
    requires Setting(w, c, ch, fm, affected)
    requires s in ch.NewSites(w) && s.file !in w.canonicalPaths
    ensures CallStays(w, ch, Recomputed(w, c, ch, fm), s)
  {
    if s.file !in ch.changed && s.file !in Recomputed(w, c, ch, fm) {
      var text := TextOf(ch.new', s.file);
      PatchedMetaDescribes(w, c, ch, fm, affected);
      SitesOutside(w, ch.old', ch.new', ch.before, ch.after, ch.changed, ch.touched);
      assert Describes(w, c.modules, s.file, text, PatchedMeta(w, c, ch, fm)[s.file]);
      MovedNamesSuffice(w, c.modules, fm, ch.old', ch.before, ch.NewSites(w), ch.changed, ch.FreshSites(w),
                        AliasTargets(w, s.file, text));
      AvoidingIsStaying(w, ch.OldSites(w), ch.NewSites(w), ch.changed, text, s);
    }
  }

  lemma KeptCallsStay(w: World, c: Canon, ch: Change, fm: FileMeta, affected: set<ModuleId>)
    requires Setting(w, c, ch, fm, affected)
    ensures (forall s | s in ch.NewSites(w) :: CallStays(w, ch, Recomputed(w, c, ch, fm), s)) <==> HiddenLoadsStay(w, ch)
  {
    RecomputedAreCached(w, c, ch, fm, affected);
    forall s | s in ch.NewSites(w)
      ensures CallStays(w, ch, Recomputed(w, c, ch, fm), s) <==>
              (s.file in w.canonicalPaths ==> LoadsStay(w, ch.OldSites(w), ch.NewSites(w), TextOf(ch.new', s.file), s))
    {
      if s.file !in w.canonicalPaths { CachedLoadsStay(w, c, ch, fm, affected, s); }
    }
  }

  // ---- Section by section ----

  lemma PatchedTableIsVisible(w: World, c: Canon, ch: Change, fm: FileMeta, affected: set<ModuleId>)
    requires Setting(w, c, ch, fm, affected)
    ensures AffectedImports(PatchedMeta(w, c, ch, fm), affected)
            == Visible(ImportRows(w, c, ch.new', ch.after), w.canonicalPaths, affected)
    ensures CalmRows(ImportRows(w, c, ch.old', ch.before), ImportRows(w, c, ch.new', ch.after), affected)
    ensures Calm(FileRecords(w, c, ch.before), FileRecords(w, c, ch.after), affected)
    ensures affected <= ModuleSet(c)
  {
    PatchedMetaDescribes(w, c, ch, fm, affected);
    CachedRowsAreVisible(w, c, ch.new', ch.after, PatchedMeta(w, c, ch, fm), affected);
    UnaffectedRowsAreCalm(w, c, ch.old', ch.new', ch.before, ch.after, ch.changed, ch.touched);
    UnaffectedIsCalm(w, c, ch.before, ch.after, ch.changed, ch.touched);
  }

  /** The edges agree exactly if canonical files of affected modules import nothing foreign. */
  lemma EdgesOfBuildAgree(w: World, c: Canon, ch: Change, fm: FileMeta, affected: set<ModuleId>)
    requires Setting(w, c, ch, fm, affected)
    ensures PatchDependencies(BuildDependencies(c, ImportRows(w, c, ch.old', ch.before)),
                              AffectedImports(PatchedMeta(w, c, ch, fm), affected), affected)
            == BuildDependencies(c, ImportRows(w, c, ch.new', ch.after))
            <==> HiddenImportNothing(ImportRows(w, c, ch.new', ch.after), w.canonicalPaths, affected)
  {
    PatchedTableIsVisible(w, c, ch, fm, affected);
    DependenciesAgreeExactly(c, ImportRows(w, c, ch.old', ch.before), ImportRows(w, c, ch.new', ch.after),
                             w.canonicalPaths, affected);
  }

  /** And then so do drift and module records. */
  lemma ModuleSectionsAgree(
    w: World, c: Canon, ch: Change, fm: FileMeta, affected: set<ModuleId>, records: map<ModuleId, ModuleRecord>)
    requires Setting(w, c, ch, fm, affected)
    requires HiddenImportNothing(ImportRows(w, c, ch.new', ch.after), w.canonicalPaths, affected)
    requires records == BuildModules(c, FileRecords(w, c, ch.before), ImportRows(w, c, ch.old', ch.before),
                                     BuildDependencies(c, ImportRows(w, c, ch.old', ch.before)))
    ensures var rows := ImportRows(w, c, ch.new', ch.after);
            var files := FileRecords(w, c, ch.after);
            var table := AffectedImports(PatchedMeta(w, c, ch, fm), affected);
            && PatchDrift(records, table, affected) == BuildDrift(c, rows)
            && PatchModules(records, files, table, BuildDependencies(c, rows), affected)
               == BuildModules(c, files, rows, BuildDependencies(c, rows))
  {
    PatchedTableIsVisible(w, c, ch, fm, affected);
    var oldRows, rows := ImportRows(w, c, ch.old', ch.before), ImportRows(w, c, ch.new', ch.after);
    assert records.Keys == ModuleSet(c);
    DriftAgrees(c, records, oldRows, rows, w.canonicalPaths, affected);
    ModulesAgree(c, records, FileRecords(w, c, ch.before), FileRecords(w, c, ch.after), oldRows, rows,
                 BuildDependencies(c, rows), w.canonicalPaths, affected);
  }

  lemma ChangedRecordsAreAffected(w: World, c: Canon, ch: Change)
    requires ch.Consistent() && InModules(c.modules, ch.after)
    ensures var oldFiles, files := FileRecords(w, c, ch.before), FileRecords(w, c, ch.after);
            && oldFiles.Keys == ch.before && files.Keys == ch.after
            && (forall p | p in files && p !in ch.changed :: oldFiles[p] == files[p])
            && forall p | p in files && p in ch.changed :: files[p].moduleId in Affected(c.modules, ch.changed)
  {
    forall p | p in ch.after && p in ch.changed ensures ModuleOf(c.modules, p) in Affected(c.modules, ch.changed) {
      assert OwningModule(p, c.modules).Some?;
    }
  }

  /** The symbols agree exactly if loads of canonical files and targets elsewhere stay. */
  lemma SymbolsOfBuildAgree(
    w: World, c: Canon, ch: Change, fm: FileMeta, affected: set<ModuleId>,
    oldFiles: Files, files: Files, symbols: Symbols)
    requires Setting(w, c, ch, fm, affected)
    requires oldFiles == FileRecords(w, c, ch.before) && files == FileRecords(w, c, ch.after)
    requires symbols == BuildSymbols(w, c, ch.old', ch.before)
    ensures var bare := PatchBare(w, files, symbols, ch.changed, ch.FreshSites(w));
            var called := PatchCalls(w, bare, ByDotted(bare), ch.new', Sites(w, ch.new', Recomputed(w, c, ch, fm)));
            PatchSymbolTests(WithCallers(called), TestRecords(w, files), affected)
            == WithTests(WithCallers(WithCalls(w, files, ch.new', ch.NewSites(w))), TestRecords(w, files))
            <==> HiddenLoadsStay(w, ch) && OtherTargetsStay(w, ch, oldFiles, files, affected)
  {
    RecomputedAreCached(w, c, ch, fm, affected);
    KeptCallsStay(w, c, ch, fm, affected);
    BuildSymbolsAreBuilt(w, c, ch.old', ch.before);
    ChangedRecordsAreAffected(w, c, ch);
    SymbolSectionAgrees(w, ch, oldFiles, files, symbols, Recomputed(w, c, ch, fm), affected);
    KeptEdgesSplit(w, ch, oldFiles, files, Recomputed(w, c, ch, fm), affected);
  }

  lemma KeptEdgesSplit(
    w: World, ch: Change, oldFiles: Files, files: Files, recompute: set<Path>, affected: set<ModuleId>)
    requires files.Keys == ch.after
    ensures KeptEdgesStay(w, ch, oldFiles, files, recompute, affected) <==>
            && (forall s | s in ch.NewSites(w) :: CallStays(w, ch, recompute, s))
            && OtherTargetsStay(w, ch, oldFiles, files, affected)
  {
  }

  lemma TestsOfBuildAgree(w: World, c: Canon, ch: Change, fm: FileMeta, affected: set<ModuleId>)
    requires Setting(w, c, ch, fm, affected)
    ensures var old', new' := FileRecords(w, c, ch.before), FileRecords(w, c, ch.after);
            PatchTests(w, new', TestRecords(w, old'), affected) == TestRecords(w, new')
            <==> TestsSettled(w, old', new', affected)
  {
    PatchedTableIsVisible(w, c, ch, fm, affected);
    TestsAgreeExactly(w, FileRecords(w, c, ch.before), FileRecords(w, c, ch.after), affected);
  }

  lemma NoteSectionAgrees(
    w: World, c: Canon, ch: Change, fm: FileMeta, affected: set<ModuleId>, records: map<ModuleId, ModuleRecord>)
    requires Setting(w, c, ch, fm, affected) && SameInfo(c, records)
    ensures AddNotes(AddNotes(KeptNotes(AddNotes(c.notes, FileNotes(w, c, ch.old', ch.before)), ch.changed),
                              TouchedNotes(w, c.policy, c.modules, records, ch.touched, ch.new')),
                     ReparseNotes(w, Recomputed(w, c, ch, fm), ch.touched, ch.new'))
            == AddNotes(c.notes, FileNotes(w, c, ch.new', ch.after))
            <==> Elsewhere(c.notes, ch.changed)
  {
    NotesAgree(w, c, records, ch.old', ch.new', ch.before, ch.after, ch.changed, ch.touched);
    PatchedMetaDescribes(w, c, ch, fm, affected);
    ReparseFindsNothing(w, c.modules, ch.new', ch.after - w.canonicalPaths, PatchedMeta(w, c, ch, fm), ch.touched,
                        MovedNames(w, fm, ch.changed, ch.FreshSites(w)));
    AddNothing(AddNotes(KeptNotes(AddNotes(c.notes, FileNotes(w, c, ch.old', ch.before)), ch.changed),
                        TouchedNotes(w, c.policy, c.modules, records, ch.touched, ch.new')));
  }

  lemma AddNothing(notes: Notes)
    ensures AddNotes(notes, {}) == notes
  {
  }

  // ---- The whole graph ----

  /** The patch of a build, over one setting. */
  ghost predicate PatchesBuild(w: World, c: Canon, ch: Change, fm: FileMeta, g: Graph) {
    && Setting(w, c, ch, fm, Affected(c.modules, ch.changed))
    && g == BuildOver(w, c, ch.old', ch.before) && Increasing(c.modules)
    && ch.touched == Touched(ch.changed, ch.new')
  }

  /** The module list, the file records and the recomputed files that the patch works on. */
  lemma PatchOverBuild(w: World, c: Canon, ch: Change, fm: FileMeta, g: Graph)
    requires PatchesBuild(w, c, ch, fm, g)
    ensures ModulesOf(g) == c.modules && SameInfo(c, g.modules)
    ensures PatchFiles(w, c.policy, c.modules, g.modules, g.files, ch.changed, ch.touched) == FileRecords(w, c, ch.after)
    ensures PatchRecompute(w, g, fm, ch.changed, ch.touched, ch.new') == Recomputed(w, c, ch, fm)
  {
    BuildKeepsInfo(w, c, ch.old', ch.before);
    FilesAgree(w, c, g.modules, ch.before, ch.after, ch.changed, ch.touched);
  }

  lemma BuildKeepsInfo(w: World, c: Canon, tree: Tree, indexed: set<Path>)
    requires Increasing(c.modules)
    ensures var g := BuildOver(w, c, tree, indexed);
            ModulesOf(g) == c.modules && SameInfo(c, g.modules) && g.files == FileRecords(w, c, indexed)
  {
    BuildCarries(w, c, tree, indexed);
  }

  /** If nothing is missed all sections agree. */
  lemma SectionsAgree(w: World, c: Canon, ch: Change, fm: FileMeta, g: Graph)
    requires PatchesBuild(w, c, ch, fm, g)
    requires Elsewhere(c.notes, ch.changed) && NothingMissed(w, c, ch, Affected(c.modules, ch.changed))
    ensures Patch(w, c.policy, g, fm, ch.changed, ch.new') == BuildOver(w, c, ch.new', ch.after)
  {
    var affected := Affected(c.modules, ch.changed);
    PatchOverBuild(w, c, ch, fm, g);
    EdgesOfBuildAgree(w, c, ch, fm, affected);
    ModuleSectionsAgree(w, c, ch, fm, affected, g.modules);
    TestsOfBuildAgree(w, c, ch, fm, affected);
    SymbolsOfBuildAgree(w, c, ch, fm, affected, FileRecords(w, c, ch.before), FileRecords(w, c, ch.after), g.symbols);
    NoteSectionAgrees(w, c, ch, fm, affected, g.modules);
  }

  /** And if all sections agree nothing was missed. */
  lemma SectionsTell(w: World, c: Canon, ch: Change, fm: FileMeta, g: Graph)
    requires PatchesBuild(w, c, ch, fm, g)
    requires Patch(w, c.policy, g, fm, ch.changed, ch.new') == BuildOver(w, c, ch.new', ch.after)
    ensures Elsewhere(c.notes, ch.changed) && NothingMissed(w, c, ch, Affected(c.modules, ch.changed))
  {
    var affected := Affected(c.modules, ch.changed);
    PatchOverBuild(w, c, ch, fm, g);
    var full := BuildOver(w, c, ch.new', ch.after);
    TestsOfBuildAgree(w, c, ch, fm, affected);
    EdgesOfBuildAgree(w, c, ch, fm, affected);
    NoteSectionAgrees(w, c, ch, fm, affected, g.modules);
    SymbolsOfBuildAgree(w, c, ch, fm, affected, FileRecords(w, c, ch.before), FileRecords(w, c, ch.after), g.symbols);
  }

  lemma ChangeIsSetting(w: World, c: Canon, old': Tree, new': Tree, fm: FileMeta, changed: set<Path>)
    requires CoversChanges(w, c, old', new', changed) && Increasing(c.modules)
    requires NamesUnique(w, c.modules, old') && NamesUnique(w, c.modules, new')
    requires DescribesAll(w, c.modules, old', Cached(w, c.modules, old'), fm)
    ensures PatchesBuild(w, c, ChangeOf(w, c, old', new', changed), fm, Build(w, c, old'))
    ensures DescribesAll(w, c.modules, new', Cached(w, c.modules, new'),
                         PatchFileMeta(w, c.modules, fm, changed, Touched(changed, new'), new'))
  {
    var ch := ChangeOf(w, c, old', new', changed);
    ChangeIsConsistent(w, c, old', new', changed);
    PatchedMetaDescribes(w, c, ch, fm, Affected(c.modules, changed));
  }

  /** The patched graph is the graph of a full build exactly if the canonical findings lie
      elsewhere and nothing that the patch does not look at has moved. */
  lemma IncrementalEqualsFullExactly(w: World, c: Canon, old': Tree, new': Tree, fm: FileMeta, changed: set<Path>)
    requires CoversChanges(w, c, old', new', changed) && Increasing(c.modules)
    requires NamesUnique(w, c.modules, old') && NamesUnique(w, c.modules, new')
    requires DescribesAll(w, c.modules, old', Cached(w, c.modules, old'), fm)
    ensures Patch(w, c.policy, Build(w, c, old'), fm, changed, new') == Build(w, c, new')
            <==> Elsewhere(c.notes, changed) && PatchMissesNothing(w, c, old', new', changed)
  {
    var ch := ChangeOf(w, c, old', new', changed);
    ChangeIsSetting(w, c, old', new', fm, changed);
    if Elsewhere(c.notes, changed) && PatchMissesNothing(w, c, old', new', changed) {
      SectionsAgree(w, c, ch, fm, Build(w, c, old'));
    }
    if Patch(w, c.policy, Build(w, c, old'), fm, changed, new') == Build(w, c, new') {
      SectionsTell(w, c, ch, fm, Build(w, c, old'));
    }
  }

  /** The patched graph is the graph of a full build, and the patched cache describes the tree. */
  lemma IncrementalEqualsFull(w: World, c: Canon, old': Tree, new': Tree, fm: FileMeta, changed: set<Path>)
    requires CoversChanges(w, c, old', new', changed) && PatchIsSafe(w, c, old', new', changed)
    requires DescribesAll(w, c.modules, old', Cached(w, c.modules, old'), fm)
    ensures Patch(w, c.policy, Build(w, c, old'), fm, changed, new') == Build(w, c, new')
    ensures DescribesAll(w, c.modules, new', Cached(w, c.modules, new'),
                         PatchFileMeta(w, c.modules, fm, changed, Touched(changed, new'), new'))
  {
    ChangeIsSetting(w, c, old', new', fm, changed);
    IncrementalEqualsFullExactly(w, c, old', new', fm, changed);
  }

  // ---- What suffices ----

  /** Canonical files import no other module and alias no name that a changed file had or has. */
  ghost predicate CanonicalFilesAreQuiet(w: World, c: Canon, ch: Change) {
    && HiddenImportNothing(ImportRows(w, c, ch.new', ch.after), w.canonicalPaths, Affected(c.modules, ch.changed))
    && forall p | p in ch.after && p in w.canonicalPaths ::
         AvoidsMoved(w, ch.OldSites(w), ch.NewSites(w), ch.changed, AliasTargets(w, p, TextOf(ch.new', p)))
  }

  /** The patch misses nothing if tests have their siblings in their own modules and canonical
      files are quiet. */
  lemma HomeAndQuietSuffice(w: World, c: Canon, old': Tree, new': Tree, changed: set<Path>)
    requires CoversChanges(w, c, old', new', changed)
    requires AllHome(w, FileRecords(w, c, Indexed(w, c.modules, old')), FileRecords(w, c, Indexed(w, c.modules, new')))
    requires CanonicalFilesAreQuiet(w, c, ChangeOf(w, c, old', new', changed))
    ensures PatchMissesNothing(w, c, old', new', changed)
  {
    var ch := ChangeOf(w, c, old', new', changed);
    ChangeIsConsistent(w, c, old', new', changed);
    UnaffectedIsCalm(w, c, ch.before, ch.after, ch.changed, ch.touched);
    HomeSuffices(w, FileRecords(w, c, ch.before), FileRecords(w, c, ch.after), Affected(c.modules, changed));
    QuietLoadsStay(w, c, ch);
  }

  lemma QuietLoadsStay(w: World, c: Canon, ch: Change)
    requires ch.Consistent() && CanonicalFilesAreQuiet(w, c, ch)
    ensures HiddenLoadsStay(w, ch)
  {
    SitesOutside(w, ch.old', ch.new', ch.before, ch.after, ch.changed, ch.touched);
    forall s | s in ch.NewSites(w) && s.file in w.canonicalPaths
      ensures LoadsStay(w, ch.OldSites(w), ch.NewSites(w), TextOf(ch.new', s.file), s)
    {
      AvoidingIsStaying(w, ch.OldSites(w), ch.NewSites(w), ch.changed, TextOf(ch.new', s.file), s);
    }
  }
}
