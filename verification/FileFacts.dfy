/** The files, owners and findings of every built graph (tools/repo_graph.py, build_graph), in
    terms of the tree and the canonical documents. */
module FileFacts {
  import opened Wrappers
  import opened Ordering
  import opened RepoTree
  import opened RepoGraph
  import opened ChangeDetection
  import opened Refresh

  // ---- Files and their owners ----

  /** The file lies in the module, and in no module with a longer path. */
  ghost predicate Home(modules: seq<ModuleId>, p: Path, m: ModuleId) {
    && m in modules && (p == m || m + "/" <= p)
    && forall n | n in modules && (p == n || n + "/" <= p) :: |n| <= |m|
  }

  ghost predicate Inside(modules: seq<ModuleId>, p: Path) {
    exists m :: m in modules && (p == m || m + "/" <= p)
  }

  lemma HomeIsOwner(modules: seq<ModuleId>, p: Path)
    ensures Inside(modules, p) <==> OwningModule(p, modules).Some?
    ensures Inside(modules, p) ==> Home(modules, p, ModuleOf(modules, p))
  {
    OwningModuleIsLongest(p, modules);
    if m :| m in modules && (p == m || m + "/" <= p) {
      assert Owns(m, p);
    }
  }

  lemma BuiltFiles(w: World, c: Canon, tree: Tree)
    ensures Build(w, c, tree).files == FileRecords(w, c, Indexed(w, c.modules, tree))
  {
  }

  /** Exactly the source files inside some module are indexed, each under its innermost one. */
  lemma IndexedExactly(w: World, c: Canon, tree: Tree, p: Path)
    ensures var files := Build(w, c, tree).files;
            && (p in files <==> p in tree && w.suffix(p) in {PY, RS, SLINT} && !w.excluded(p) && Inside(c.modules, p))
            && (p in files ==> Home(c.modules, p, files[p].moduleId))
  {
    HomeIsOwner(c.modules, p);
    BuiltFiles(w, c, tree);
    RecordedExactly(w, c, tree, p);
  }

  lemma RecordedExactly(w: World, c: Canon, tree: Tree, p: Path)
    ensures var files := FileRecords(w, c, Indexed(w, c.modules, tree));
            && (p in files <==>
                  p in tree && w.suffix(p) in {PY, RS, SLINT} && !w.excluded(p) && OwningModule(p, c.modules).Some?)
            && (p in files ==> files[p].moduleId == ModuleOf(c.modules, p))
  {
  }

  /** A rule of the ownership policy outranks the owner of the module; a test has the owner of
      its module and no retention state. */
  ghost predicate OwnedAsWritten(w: World, c: Canon, p: Path, r: FileRecord) {
    var info := c.info(r.moduleId);
    && r.isTest == w.isTest(p)
    && (r.isTest ==> r.owner == info.owner && r.ownerSource == info.ownerSource && r.retention == None)
    && (!r.isTest ==> r.retention == c.policy.retention(p))
    && (!r.isTest && c.policy.rule(p).Some? ==> r.owner == c.policy.rule(p).value && r.ownerSource == "policy")
    && (!r.isTest && c.policy.rule(p).None? && info.ownerSource != "unknown" ==>
          r.owner == info.owner && r.ownerSource == info.ownerSource)
    && (!r.isTest && c.policy.rule(p).None? && info.ownerSource == "unknown" ==>
          r.owner == Owner("UNKNOWN", "UNKNOWN", "UNKNOWN") && r.ownerSource == "unknown")
  }

  lemma OwnersAreAsWritten(w: World, c: Canon, tree: Tree, p: Path)
    requires p in Build(w, c, tree).files
    ensures OwnedAsWritten(w, c, p, Build(w, c, tree).files[p])
  {
    BuiltFiles(w, c, tree);
    RecordIsAsWritten(w, c, p, ModuleOf(c.modules, p));
  }

  lemma RecordIsAsWritten(w: World, c: Canon, p: Path, m: ModuleId)
    ensures OwnedAsWritten(w, c, p, RecordFor(w, c.policy, p, m, c.info(m)))
  {
  }

  /** Whatever the other canonical documents say of the modules, a rule decides alone. */
  lemma RulesDecideAlone(w: World, a: Canon, b: Canon, tree: Tree, p: Path)
    requires a.policy == b.policy && a.policy.rule(p).Some? && !w.isTest(p)
    requires p in Build(w, a, tree).files && p in Build(w, b, tree).files
    ensures Build(w, a, tree).files[p].owner == Build(w, b, tree).files[p].owner == a.policy.rule(p).value
    ensures Build(w, a, tree).files[p].ownerSource == Build(w, b, tree).files[p].ownerSource == "policy"
  {
    OwnersAreAsWritten(w, a, tree, p);
    OwnersAreAsWritten(w, b, tree, p);
  }

  /** Over any trusted run of edits and refreshes, the stored files are those of the disk as last
      refreshed, with the owners that its policy and modules give them. */
  lemma RunsKeepOwners(t: Tools, s: Workspace, events: seq<Event>, p: Path)
    requires ToolsOk(t) && Index(t, s.store, s.last) && RunTrusted(t, s, events)
    requires HasIndex(Run(t, s, events).store)
    ensures var end := Run(t, s, events);
            var c, files := CanonAt(t.w, end.last), end.store.graph.value.files;
            && (p in files <==>
                  p in end.last && t.w.suffix(p) in {PY, RS, SLINT} && !t.w.excluded(p) && Inside(c.modules, p))
            && (p in files ==> Home(c.modules, p, files[p].moduleId) && OwnedAsWritten(t.w, c, p, files[p]))
  {
    RunsKeepIndex(t, s, events);
    var end := Run(t, s, events);
    StoredOwners(t, end.store, end.last, p);
  }

  lemma StoredOwners(t: Tools, store: Store, last: Disk, p: Path)
    requires Stored(t, store, last)
    ensures var c, files := CanonAt(t.w, last), store.graph.value.files;
            && (p in files <==>
                  p in last && t.w.suffix(p) in {PY, RS, SLINT} && !t.w.excluded(p) && Inside(c.modules, p))
            && (p in files ==> Home(c.modules, p, files[p].moduleId) && OwnedAsWritten(t.w, c, p, files[p]))
  {
    var c := CanonAt(t.w, last);
    IndexedExactly(t.w, c, Texts(last), p);
    if p in Build(t.w, c, Texts(last)).files {
      OwnersAreAsWritten(t.w, c, Texts(last), p);
    }
  }

  // ---- Findings ----

  /** A file that is no test, under nobody's rule and in a module that nobody owns. */
  ghost predicate Ownerless(files: map<Path, FileRecord>, n: Note) {
    && n.ref in files && !files[n.ref].isTest && files[n.ref].ownerSource == "unknown"
    && n == Note("owner-unknown", n.ref, "no policy rule and module owner unknown")
  }

  ghost predicate Unparsed(w: World, tree: Tree, files: map<Path, FileRecord>, n: Note) {
    && n.ref in files && n.ref in tree && w.suffix(n.ref) == PY && w.parse(n.ref, tree[n.ref]).SyntaxError?
    && n == Note("parse-failed", n.ref, "SyntaxError")
  }

  lemma BuiltNotes(w: World, c: Canon, tree: Tree)
    ensures Build(w, c, tree).unresolved == AddNotes(c.notes, FileNotes(w, c, tree, Indexed(w, c.modules, tree)))
  {
  }

  /** A finding is listed once more than the canonical documents say exactly if its file has no
      owner, or does not parse. */
  lemma FindingsExactly(w: World, c: Canon, tree: Tree, n: Note)
    ensures var g := Build(w, c, tree);
            Count(g.unresolved, n)
            == Count(c.notes, n) + if Ownerless(g.files, n) || Unparsed(w, tree, g.files, n) then 1 else 0
  {
    BuiltFiles(w, c, tree);
    BuiltNotes(w, c, tree);
    NotedExactly(w, c, tree, Indexed(w, c.modules, tree), n);
    AddedOnce(c.notes, FileNotes(w, c, tree, Indexed(w, c.modules, tree)), n);
  }

  lemma AddedOnce(notes: Notes, more: set<Note>, n: Note)
    ensures Count(AddNotes(notes, more), n) == Count(notes, n) + if n in more then 1 else 0
  {
  }

  lemma NotedExactly(w: World, c: Canon, tree: Tree, indexed: set<Path>, n: Note)
    requires indexed <= tree.Keys
    ensures var files := FileRecords(w, c, indexed);
            n in FileNotes(w, c, tree, indexed) <==> Ownerless(files, n) || Unparsed(w, tree, files, n)
  {
    var files := FileRecords(w, c, indexed);
    if n in FileNotes(w, c, tree, indexed) {
      var p :| p in indexed && n in NotesFor(w, c.policy, p, c.info(ModuleOf(c.modules, p)), TextOf(tree, p));
      NotedFile(w, c, tree, indexed, p, n);
    }
    if n.ref in indexed {
      NotedFile(w, c, tree, indexed, n.ref, n);
    }
  }

  lemma NotedFile(w: World, c: Canon, tree: Tree, indexed: set<Path>, p: Path, n: Note)
    requires indexed <= tree.Keys && p in indexed
    ensures var files := FileRecords(w, c, indexed);
            n in NotesFor(w, c.policy, p, c.info(ModuleOf(c.modules, p)), TextOf(tree, p))
            <==> n.ref == p && (Ownerless(files, n) || Unparsed(w, tree, files, n))
  {
  }
}
