/** Tests in the surgical patch: only the affected modules are looked at again
    (tools/repo_index.py, _patch_incremental). */
module PatchTestRecords {
  import opened Wrappers
  import opened Ordering
  import opened RepoTree
  import opened RepoGraph
  import opened RepoIndex
  import opened PatchSetting

  /** The first candidate indexed before or after the change was neither added nor deleted. */
  predicate Settled(candidates: seq<Path>, p: Path, before: set<Path>, after: set<Path>) {
    var hit := FirstHit(candidates, p, before + after);
    hit.Some? ==> hit.value in before && hit.value in after
  }

  lemma {:induction false} FirstHitAgrees(candidates: seq<Path>, p: Path, before: set<Path>, after: set<Path>)
    ensures FirstHit(candidates, p, before) == FirstHit(candidates, p, after) <==> Settled(candidates, p, before, after)
  {
    if candidates != [] && (candidates[0] !in before + after || candidates[0] == p) {
      FirstHitAgrees(candidates[1..], p, before, after);
    }
  }

  /** A changed indexed file makes its module affected, so unaffected modules are calm. */
  lemma UnaffectedIsCalm(
    w: World, c: Canon, before: set<Path>, after: set<Path>, changed: set<Path>, touched: set<Path>)
    requires SameFilesOutside(before, after, changed, touched)
    requires InModules(c.modules, before) && InModules(c.modules, after)
    ensures Calm(FileRecords(w, c, before), FileRecords(w, c, after), Affected(c.modules, changed))
  {
    var affected := Affected(c.modules, changed);
    forall p | p in before + after && ModuleOf(c.modules, p) !in affected ensures p !in changed {
      assert OwningModule(p, c.modules).Some?;
    }
  }

  ghost predicate SettledTest(w: World, new': Files, before: set<Path>, p: Path)
    requires p in new'
  {
    Settled(w.siblings(p, new'[p].moduleId), p, before, new'.Keys)
  }

  lemma TestAgreesAt(w: World, old': Files, new': Files, affected: set<ModuleId>, p: Path)
    requires Calm(old', new', affected) && p in new' && new'[p].isTest
    ensures p in PatchTests(w, new', TestRecords(w, old'), affected)
    ensures PatchTests(w, new', TestRecords(w, old'), affected)[p] == TestRecords(w, new')[p]
            <==> (new'[p].moduleId !in affected ==> SettledTest(w, new', old'.Keys, p))
  {
    FirstHitAgrees(w.siblings(p, new'[p].moduleId), p, old'.Keys, new'.Keys);
  }

  /** Every test of an unaffected module is settled. */
  ghost predicate TestsSettled(w: World, old': Files, new': Files, affected: set<ModuleId>) {
    forall p | p in new' && new'[p].isTest && new'[p].moduleId !in affected :: SettledTest(w, new', old'.Keys, p)
  }

  /** The patched test records are those of a full build exactly when every test of an
      unaffected module is settled. */
  lemma TestsAgreeExactly(w: World, old': Files, new': Files, affected: set<ModuleId>)
    requires Calm(old', new', affected)
    ensures PatchTests(w, new', TestRecords(w, old'), affected) == TestRecords(w, new')
            <==> TestsSettled(w, old', new', affected)
  {
    var patched, full := PatchTests(w, new', TestRecords(w, old'), affected), TestRecords(w, new');
    forall p | p in new' && new'[p].isTest
      ensures p in patched
      ensures patched[p] == full[p] <==> (new'[p].moduleId !in affected ==> SettledTest(w, new', old'.Keys, p))
    {
      TestAgreesAt(w, old', new', affected, p);
    }
    assert patched.Keys == full.Keys;
  }

  // ---- Tests of a symbol's file ----

  /** The first known sibling of the test is the file. */
  predicate Targets(w: World, files: Files, t: Path, f: Path) {
    t in files && files[t].isTest && FirstHit(w.siblings(t, files[t].moduleId), t, files.Keys) == Some(f)
  }

  lemma TestsOfAreTargets(w: World, files: Files, t: Path, f: Path)
    ensures t in TestsOf(TestRecords(w, files), f) <==> Targets(w, files, t, f)
  {
  }

  /** No test began or ceased to target the file. */
  ghost predicate TargetsStay(w: World, old': Files, new': Files, f: Path) {
    forall t | t in old' || t in new' :: Targets(w, old', t, f) <==> Targets(w, new', t, f)
  }

  /** The sorted tests of a file stay exactly if no test began or ceased to target it. */
  lemma TestsOfStayExactly(w: World, old': Files, new': Files, f: Path)
    ensures Sorted(TestsOf(TestRecords(w, old'), f)) == Sorted(TestsOf(TestRecords(w, new'), f))
            <==> TargetsStay(w, old', new', f)
  {
    var x, y := TestsOf(TestRecords(w, old'), f), TestsOf(TestRecords(w, new'), f);
    SortedListing(x);
    SortedListing(y);
    TestsOfAgreeExactly(w, old', new', f);
  }

  lemma TestsOfAgreeExactly(w: World, old': Files, new': Files, f: Path)
    ensures TestsOf(TestRecords(w, old'), f) == TestsOf(TestRecords(w, new'), f) <==> TargetsStay(w, old', new', f)
  {
    var x, y := TestsOf(TestRecords(w, old'), f), TestsOf(TestRecords(w, new'), f);
    forall t
      ensures t in x <==> Targets(w, old', t, f)
      ensures t in y <==> Targets(w, new', t, f)
    {
      TestsOfAreTargets(w, old', t, f);
      TestsOfAreTargets(w, new', t, f);
    }
  }

  /** Every test's sibling source lies in the test's own module. */
  ghost predicate TestsStayHome(w: World, files: Files, known: Files) {
    forall p, s | p in files && files[p].isTest && s in w.siblings(p, files[p].moduleId) && s in known ::
      known[s].moduleId == files[p].moduleId
  }

  ghost predicate AllHome(w: World, old': Files, new': Files) {
    && TestsStayHome(w, old', old') && TestsStayHome(w, new', new')
    && TestsStayHome(w, old', new') && TestsStayHome(w, new', old')
  }

  lemma HomeIsSettled(w: World, old': Files, new': Files, affected: set<ModuleId>, p: Path)
    requires Calm(old', new', affected) && AllHome(w, old', new')
    requires p in new' && new'[p].isTest && new'[p].moduleId !in affected
    ensures SettledTest(w, new', old'.Keys, p)
  {
    var hit := FirstHit(w.siblings(p, new'[p].moduleId), p, old'.Keys + new'.Keys);
    assert hit.Some? ==> hit.value in old' ==> old'[hit.value].moduleId == new'[p].moduleId;
  }

  /** Tests that stay in their modules are settled, and target a file of an unaffected module
      as before. */
  lemma HomeSuffices(w: World, old': Files, new': Files, affected: set<ModuleId>)
    requires Calm(old', new', affected) && AllHome(w, old', new')
    ensures TestsSettled(w, old', new', affected)
    ensures forall f | f in new' && new'[f].moduleId !in affected :: TargetsStay(w, old', new', f)
  {
    forall p | p in new' && new'[p].isTest && new'[p].moduleId !in affected
      ensures SettledTest(w, new', old'.Keys, p)
    {
      HomeIsSettled(w, old', new', affected, p);
    }
    forall f, t | f in new' && new'[f].moduleId !in affected && (t in old' || t in new')
      ensures Targets(w, old', t, f) <==> Targets(w, new', t, f)
    {
      HomeTargetStays(w, old', new', affected, f, t);
    }
  }

  lemma HomeTargetStays(w: World, old': Files, new': Files, affected: set<ModuleId>, f: Path, t: Path)
    requires Calm(old', new', affected) && AllHome(w, old', new')
    requires f in new' && new'[f].moduleId !in affected
    ensures Targets(w, old', t, f) <==> Targets(w, new', t, f)
  {
    if Targets(w, old', t, f) {
      assert f in w.siblings(t, old'[t].moduleId);
      HomeTestStays(w, old', new', affected, t);
    }
    if Targets(w, new', t, f) {
      assert f in w.siblings(t, new'[t].moduleId);
      HomeTestStays(w, old', new', affected, t);
    }
  }

  lemma HomeTestStays(w: World, old': Files, new': Files, affected: set<ModuleId>, t: Path)
    requires Calm(old', new', affected) && AllHome(w, old', new')
    requires t in new' && new'[t].isTest && new'[t].moduleId !in affected
    ensures t in old' && forall f :: Targets(w, old', t, f) <==> Targets(w, new', t, f)
  {
    HomeIsSettled(w, old', new', affected, t);
    FirstHitAgrees(w.siblings(t, new'[t].moduleId), t, old'.Keys, new'.Keys);
  }
}
