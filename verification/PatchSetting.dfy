/** The file section of the surgical patch, and the file cache (tools/repo_index.py,
    _patch_incremental against tools/repo_graph.py, build_graph). `before` and `after` are the
    indexed files of the old and the new tree. */
module PatchSetting {
  import opened Ordering
  import opened RepoTree
  import opened RepoGraph
  import opened RepoIndex

  ghost predicate SameFilesOutside(before: set<Path>, after: set<Path>, changed: set<Path>, touched: set<Path>) {
    && (forall p | p !in changed :: p in before <==> p in after)
    && (forall p :: p in touched <==> p in after && p in changed)
  }

  /** Outside the changed paths nothing moved; the touched paths are the changed ones left. */
  ghost predicate SameOutside(
    old': Tree, new': Tree, before: set<Path>, after: set<Path>, changed: set<Path>, touched: set<Path>)
  {
    && SameFilesOutside(before, after, changed, touched)
    && forall p | p in after && p !in changed :: TextOf(old', p) == TextOf(new', p)
  }

  /** Static facts a graph carries from the canonical documents. */
  ghost predicate Carries(c: Canon, g: Graph) {
    && g.header == c.header
    && ModulesOf(g) == c.modules
    && g.modules.Keys == ModuleSet(c)
    && forall m | m in g.modules :: InfoOf(g.modules, m) == c.info(m)
  }

  lemma BuildCarries(w: World, c: Canon, tree: Tree, indexed: set<Path>)
    requires Increasing(c.modules)
    ensures Carries(c, BuildOver(w, c, tree, indexed))
  {
    var g := BuildOver(w, c, tree, indexed);
    assert g.modules.Keys == ModuleSet(c);
    SortedListing(g.modules.Keys);
    IncreasingUnique(ModulesOf(g), c.modules);
  }

  type Files = map<Path, FileRecord>

  ghost predicate InModules(modules: seq<ModuleId>, files: set<Path>) {
    forall p | p in files :: OwningModule(p, modules).Some?
  }

  ghost predicate SameInfo(c: Canon, records: map<ModuleId, ModuleRecord>) {
    forall m | m in c.modules :: InfoOf(records, m) == c.info(m)
  }

  lemma FilesAgree(
    w: World, c: Canon, records: map<ModuleId, ModuleRecord>,
    before: set<Path>, after: set<Path>, changed: set<Path>, touched: set<Path>)
    requires SameFilesOutside(before, after, changed, touched)
    requires SameInfo(c, records) && InModules(c.modules, after)
    ensures PatchFiles(w, c.policy, c.modules, records, FileRecords(w, c, before), changed, touched)
            == FileRecords(w, c, after)
  {
    forall p | p in touched ensures InfoOf(records, ModuleOf(c.modules, p)) == c.info(ModuleOf(c.modules, p)) {
      assert OwningModule(p, c.modules).Some?;
    }
  }

  lemma FileMetaAgrees(
    w: World, modules: seq<ModuleId>, fm: FileMeta, old': Tree, new': Tree,
    before: set<Path>, after: set<Path>, changed: set<Path>, touched: set<Path>)
    requires SameOutside(old', new', before, after, changed, touched)
    requires changed !! w.canonicalPaths
    requires DescribesAll(w, modules, old', before - w.canonicalPaths, fm)
    ensures DescribesAll(w, modules, new', after - w.canonicalPaths,
                         PatchFileMeta(w, modules, fm, changed, touched, new'))
  {
    var patched := PatchFileMeta(w, modules, fm, changed, touched, new');
    assert patched.Keys == after - w.canonicalPaths;
    forall p | p in patched ensures Describes(w, modules, p, TextOf(new', p), patched[p]) {
      if p in changed {
        PatchedEntryDescribes(w, modules, p, TextOf(new', p));
      } else {
        assert patched[p] == fm[p];
      }
    }
  }

  lemma PatchedEntryDescribes(w: World, modules: seq<ModuleId>, p: Path, text: string)
    ensures Describes(w, modules, p, text, PatchedMetaFor(w, modules, p, ModuleOf(modules, p), text))
  {
  }

  /** Files of unaffected modules are the same before and after. */
  ghost predicate Calm(old': Files, new': Files, affected: set<ModuleId>) {
    && (forall p | p in old' && old'[p].moduleId !in affected :: p in new' && new'[p] == old'[p])
    && (forall p | p in new' && new'[p].moduleId !in affected :: p in old' && old'[p] == new'[p])
  }
}
