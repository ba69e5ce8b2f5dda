/** The assumptions of the index theorems can be met: a module with one source and its test,
    of which the source is edited. */
module PatchExample {
  import opened Wrappers
  import opened RepoTree
  import opened RepoGraph
  import opened RepoIndex
  import opened PatchTestRecords
  import opened IncrementalIsFull

  const SOURCE: Path := "m/a"
  const TEST: Path := "m/t"

  function ExampleWorld(): World {
    World(
      p => if p in {SOURCE, TEST} then PY else OTHER,
      (p: Path, text: string) => Parsed(if p == SOURCE then {Definition("f", |text|, "function", true, {})} else {}, map[], {}),
      p => "base",
      p => "item",
      m => "m",
      p => p == TEST,
      (p: Path, m: ModuleId) => [SOURCE],
      p => false,
      p => false,
      {},
      files => {"m"},
      (files: set<Path>, texts: Tree) => ["m"],
      (texts: Tree, modules: seq<ModuleId>) => ExampleCanon())
  }

  function ExampleCanon(): Canon {
    Canon(["m"], m => ModuleInfo(UNKNOWN, "unknown", {}, "", []), (m: ModuleId, d: ModuleId) => [],
          Policy(p => None, p => None), map[], Header("", [], [], []))
  }

  lemma IndexedExample(tree: Tree)
    requires tree.Keys == {SOURCE, TEST}
    ensures Indexed(ExampleWorld(), ["m"], tree) == {SOURCE, TEST}
  {
    OwningModuleIsLongest(SOURCE, ["m"]);
    OwningModuleIsLongest(TEST, ["m"]);
    assert "m" + "/" <= SOURCE && "m" + "/" <= TEST;
    assert "m" in ["m"];
  }

  lemma NamesUniqueExample(tree: Tree)
    requires tree.Keys == {SOURCE, TEST}
    ensures NamesUnique(ExampleWorld(), ["m"], tree)
  {
    var w := ExampleWorld();
    IndexedExample(tree);
    forall s, t | s in Sites(w, tree, {SOURCE, TEST}) && t in Sites(w, tree, {SOURCE, TEST}) ensures s == t {
    }
  }

  const BEFORE: Tree := map[SOURCE := "", TEST := ""]
  const AFTER: Tree := map[SOURCE := "x", TEST := ""]

  lemma EditIsCovered()
    ensures CoversChanges(ExampleWorld(), ExampleCanon(), BEFORE, AFTER, {SOURCE})
  {
    IndexedExample(BEFORE);
    IndexedExample(AFTER);
  }

  lemma EditIsAccepted()
    ensures !NeedsFull(ExampleWorld(), ["m"], {SOURCE}, AFTER)
  {
    OwningModuleIsLongest(SOURCE, ["m"]);
    assert "m" in ["m"] && "m" + "/" <= SOURCE;
    assert !("m" + "/" <= "m");
    assert ExpectedRoots(["m"]) == {"m"};
  }

  lemma RecordedExample(p: Path)
    requires p in {SOURCE, TEST}
    ensures FileRecords(ExampleWorld(), ExampleCanon(), {SOURCE, TEST})[p].moduleId == "m"
  {
    OwningModuleIsLongest(p, ["m"]);
    assert "m" in ["m"] && "m" + "/" <= p;
  }

  lemma TestsAreHome()
    ensures var files := FileRecords(ExampleWorld(), ExampleCanon(), {SOURCE, TEST});
            AllHome(ExampleWorld(), files, files)
  {
    RecordedExample(SOURCE);
    RecordedExample(TEST);
  }

  lemma NoCanonicalFiles()
    ensures CanonicalFilesAreQuiet(ExampleWorld(), ExampleCanon(), ChangeOf(ExampleWorld(), ExampleCanon(), BEFORE, AFTER, {SOURCE}))
  {
  }

  /** The edit of the source is covered and safe, and the patch does not refuse it. */
  lemma EditIsSafe()
    ensures CoversChanges(ExampleWorld(), ExampleCanon(), BEFORE, AFTER, {SOURCE})
    ensures PatchIsSafe(ExampleWorld(), ExampleCanon(), BEFORE, AFTER, {SOURCE})
    ensures !NeedsFull(ExampleWorld(), ["m"], {SOURCE}, AFTER)
  {
    EditIsCovered();
    EditIsAccepted();
    IndexedExample(BEFORE);
    IndexedExample(AFTER);
    NamesUniqueExample(BEFORE);
    NamesUniqueExample(AFTER);
    TestsAreHome();
    NoCanonicalFiles();
    HomeAndQuietSuffice(ExampleWorld(), ExampleCanon(), BEFORE, AFTER, {SOURCE});
  }
}
