/** Unresolved findings in the surgical patch (tools/repo_index.py, _patch_incremental). */
module PatchFindings {
  import opened RepoTree
  import opened RepoGraph
  import opened RepoIndex
  import opened PatchSetting

  /** No finding about the canonical documents names a changed path. */
  ghost predicate Elsewhere(notes: Notes, changed: set<Path>) {
    forall n | n in notes :: n.ref !in changed
  }

  lemma NoteBagsAgree(notes: Notes, before: set<Note>, after: set<Note>, fresh': set<Note>, changed: set<Path>)
    requires forall n: Note | n.ref in changed :: n in after <==> n in fresh'
    requires forall n: Note | n.ref !in changed :: (n in after <==> n in before) && n !in fresh'
    ensures AddNotes(KeptNotes(AddNotes(notes, before), changed), fresh') == AddNotes(notes, after)
            <==> Elsewhere(notes, changed)
  {
    var patched, full := AddNotes(KeptNotes(AddNotes(notes, before), changed), fresh'), AddNotes(notes, after);
    if n :| n in notes && n.ref in changed {
      assert n in full && full[n] == notes[n] + if n in after then 1 else 0;
      assert n in patched ==> patched[n] == 1 && n in after;
    }
  }

  /** Kept and fresh findings are those of a full build, each as often, exactly if no finding
      about the canonical documents names a changed path. */
  lemma NotesAgree(
    w: World, c: Canon, records: map<ModuleId, ModuleRecord>, old': Tree, new': Tree,
    before: set<Path>, after: set<Path>, changed: set<Path>, touched: set<Path>)
    requires SameOutside(old', new', before, after, changed, touched)
    requires SameInfo(c, records) && InModules(c.modules, after)
    ensures AddNotes(KeptNotes(AddNotes(c.notes, FileNotes(w, c, old', before)), changed),
                     TouchedNotes(w, c.policy, c.modules, records, touched, new'))
            == AddNotes(c.notes, FileNotes(w, c, new', after))
            <==> Elsewhere(c.notes, changed)
  {
    var fresh' := TouchedNotes(w, c.policy, c.modules, records, touched, new');
    forall n: Note
      ensures n.ref in changed ==> (n in FileNotes(w, c, new', after) <==> n in fresh')
      ensures n.ref !in changed ==>
                (n in FileNotes(w, c, new', after) <==> n in FileNotes(w, c, old', before)) && n !in fresh'
    {
      NoteAgrees(w, c, records, old', new', before, after, changed, touched, n);
    }
    NoteBagsAgree(c.notes, FileNotes(w, c, old', before), FileNotes(w, c, new', after), fresh', changed);
  }

  lemma NotesNameTheirFile(w: World, policy: Policy, p: Path, info: ModuleInfo, text: string)
    ensures forall n | n in NotesFor(w, policy, p, info, text) :: n.ref == p
  {
  }

  lemma NoteAgrees(
    w: World, c: Canon, records: map<ModuleId, ModuleRecord>, old': Tree, new': Tree,
    before: set<Path>, after: set<Path>, changed: set<Path>, touched: set<Path>, n: Note)
    requires SameOutside(old', new', before, after, changed, touched)
    requires SameInfo(c, records) && InModules(c.modules, after)
    ensures n.ref in changed ==>
              (n in FileNotes(w, c, new', after) <==> n in TouchedNotes(w, c.policy, c.modules, records, touched, new'))
    ensures n.ref !in changed ==>
              && (n in FileNotes(w, c, new', after) <==> n in FileNotes(w, c, old', before))
              && n !in TouchedNotes(w, c.policy, c.modules, records, touched, new')
  {
    FileNoteAt(w, c, new', after, n);
    FileNoteAt(w, c, old', before, n);
    TouchedNoteAt(w, c, records, touched, new', n);
    if n.ref in after { assert OwningModule(n.ref, c.modules).Some?; }
  }

  lemma FileNoteAt(w: World, c: Canon, tree: Tree, files: set<Path>, n: Note)
    ensures n in FileNotes(w, c, tree, files) <==>
            n.ref in files && n in NotesFor(w, c.policy, n.ref, c.info(ModuleOf(c.modules, n.ref)), TextOf(tree, n.ref))
  {
    if n in FileNotes(w, c, tree, files) {
      var p :| p in files && n in NotesFor(w, c.policy, p, c.info(ModuleOf(c.modules, p)), TextOf(tree, p));
      NotesNameTheirFile(w, c.policy, p, c.info(ModuleOf(c.modules, p)), TextOf(tree, p));
    }
  }

  lemma TouchedNoteAt(w: World, c: Canon, records: map<ModuleId, ModuleRecord>, touched: set<Path>, tree: Tree, n: Note)
    ensures n in TouchedNotes(w, c.policy, c.modules, records, touched, tree) <==>
            n.ref in touched
            && n in NotesFor(w, c.policy, n.ref, InfoOf(records, ModuleOf(c.modules, n.ref)), TextOf(tree, n.ref))
  {
    if n in TouchedNotes(w, c.policy, c.modules, records, touched, tree) {
      var p :| p in touched
               && n in NotesFor(w, c.policy, p, InfoOf(records, ModuleOf(c.modules, p)), TextOf(tree, p));
      NotesNameTheirFile(w, c.policy, p, InfoOf(records, ModuleOf(c.modules, p)), TextOf(tree, p));
    }
  }

  /** Parsing the untouched files of the recompute set again finds nothing: a file that does
      not parse has no aliases. */
  lemma ReparseFindsNothing(
    w: World, modules: seq<ModuleId>, tree: Tree, cached: set<Path>, patched: FileMeta, touched: set<Path>, moved: set<string>)
    requires DescribesAll(w, modules, tree, cached, patched)
    ensures ReparseNotes(w, Recompute(w, patched, touched, moved), touched, tree) == {}
  {
    forall p | p in Recompute(w, patched, touched, moved) && p !in touched
      ensures !w.parse(p, TextOf(tree, p)).SyntaxError?
    {
      assert Describes(w, modules, p, TextOf(tree, p), patched[p]);
    }
  }
}
