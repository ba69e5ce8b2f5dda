/** Inputs on which an exact condition of the index fails, with what then goes wrong. */
module FailingInputs {
  import opened Wrappers
  import opened Ordering
  import opened RepoTree
  import opened RepoGraph
  import opened RepoIndex
  import opened ChangeDetection
  import opened PatchSetting
  import opened PatchTestRecords
  import opened PatchEdges
  import opened PatchFindings
  import opened ReverseInvalidation
  import opened IncrementalIsFull
  import opened Refresh
  import opened PublishSafety
  import opened GraphDocument
  import opened GraphValidator
  import opened GraphSoundness

  // ---- One file in nested modules, then a second one ----

  /** A test of module `m` whose sibling source lies in the inner module. */
  const TEST: Path := "m/tests/n/test_x.py"
  const SOURCE: Path := "m/n/x.py"
  /** A canonical input that is indexed too, and a file beside it. */
  const CANONICAL: Path := "m/c.py"
  const NEIGHBOUR: Path := "m/b.py"
  /** A Rust file that is called as the finding about dependency `b.rs` of route `m/a` is. */
  const NOTED: Path := "m/a:b.rs"

  const MODULES: seq<ModuleId> := ["m", "m/n"]

  function NoInfo(): ModuleInfo {
    ModuleInfo(UNKNOWN, "unknown", {}, "", [])
  }

  function PlainCanon(modules: seq<ModuleId>, notes: Notes): Canon {
    Canon(modules, m => NoInfo(), (m: ModuleId, d: ModuleId) => [], Policy(p => None, p => None), notes,
          Header("", [], [], []))
  }

  function Base(p: Path): DottedPath {
    if p == SOURCE then "m.n.x" else if p == CANONICAL then "m.c" else if p == NEIGHBOUR then "m.b" else "m.tests.n.test_x"
  }

  /** The sibling of the test without its `tests` directory, then the flat one of its module. */
  function Siblings(p: Path, m: ModuleId): seq<Path> {
    if p == TEST then [SOURCE, m + "/x.py"] else []
  }

  function Nested(canonical: set<Path>, notes: Notes, parse: Path -> Parse): World {
    World(
      p => if p == NOTED then RS else PY,
      (p: Path, text: string) => parse(p),
      Base,
      p => p,
      m => if m == "m" then "m" else "m.n",
      p => p == TEST,
      Siblings,
      p => false,
      p => false,
      canonical,
      files => {"m"},
      (files: set<Path>, texts: Tree) => MODULES,
      (texts: Tree, modules: seq<ModuleId>) => PlainCanon(modules, notes))
  }

  function Before(first: Path): Tree {
    map[first := ""]
  }

  function Grown(first: Path, added: Path): Tree {
    map[first := "", added := ""]
  }

  lemma OnlyOwner(p: Path, modules: seq<ModuleId>, m: ModuleId)
    requires m in modules && Owns(m, p) && forall n | n in modules && n != m :: !Owns(n, p)
    ensures OwningModule(p, modules) == Some(m)
  {
    OwningModuleIsLongest(p, modules);
  }

  lemma OuterOwner(p: Path)
    requires |p| > 3 && p[..2] == "m/" && p[2] != 'n'
    ensures OwningModule(p, MODULES) == Some("m")
  {
    assert MODULES[0] == "m" && MODULES[1] == "m/n";
    assert "m" + "/" <= p;
    assert ("m/n" + "/")[2] == 'n';
    OnlyOwner(p, MODULES, "m");
  }

  lemma InnerOwner(p: Path)
    requires |p| > 4 && p[..4] == "m/n/"
    ensures OwningModule(p, MODULES) == Some("m/n")
  {
    OwningModuleIsLongest(p, MODULES);
    assert MODULES[1] == "m/n" && "m/n" + "/" <= p;
    assert forall m | m in MODULES :: m == "m" || m == "m/n";
  }

  /** The module that owns one of the files. */
  function OwnerOf(p: Path): ModuleId {
    if p == SOURCE then "m/n" else "m"
  }

  const FILES: set<Path> := {TEST, SOURCE, CANONICAL, NEIGHBOUR, NOTED}

  lemma Owners(p: Path)
    requires p in FILES
    ensures OwningModule(p, MODULES) == Some(OwnerOf(p)) && ModuleOf(MODULES, p) == OwnerOf(p)
  {
    if p == SOURCE { InnerOwner(p); } else { OuterOwner(p); }
  }

  lemma OneRoot()
    ensures ExpectedRoots(MODULES) == {"m"} && Increasing(MODULES)
  {
    assert MODULES[0] == "m" && MODULES[1] == "m/n";
    assert "m" + "/" <= "m/n";
    assert forall n | n in MODULES :: |n + "/"| > |"m"|;
    assert Below("m", "m/n");
  }

  /** Every file is indexed. */
  ghost predicate AllIndexed(w: World) {
    forall p :: Indexable(w, p)
  }

  lemma BothIndexed(w: World, first: Path, added: Path)
    requires first in FILES && added in FILES && AllIndexed(w)
    ensures Indexed(w, MODULES, Before(first)) == {first} && Indexed(w, MODULES, Grown(first, added)) == {first, added}
  {
    Owners(first);
    Owners(added);
  }

  /** Both are Python files with names of their own, and each holds one definition at most. */
  ghost predicate Apart(w: World, first: Path, added: Path) {
    && IsPython(w, first) && IsPython(w, added) && w.pythonBase(first) != w.pythonBase(added)
    && forall p, text, d, e | d in Definitions(w, p, text) && e in Definitions(w, p, text) :: d == e
  }

  lemma NamesAreApart(w: World, tree: Tree, files: set<Path>, first: Path, added: Path)
    requires Apart(w, first, added) && files <= {first, added}
    ensures UniqueNames(w, Sites(w, tree, files))
  {
    forall s, t | s in Sites(w, tree, files) && t in Sites(w, tree, files) && NameOf(w, s) == NameOf(w, t) ensures s == t {
      SplitAtSeparator(w.pythonBase(s.file), s.definition.name, w.pythonBase(t.file), t.definition.name, ':');
      assert s.file == t.file;
    }
  }

  /** All that the patch demands of the new file, and it does not refuse. */
  ghost predicate Accepted(w: World, c: Canon, first: Path, added: Path) {
    && c.modules == MODULES && Increasing(MODULES)
    && CoversChanges(w, c, Before(first), Grown(first, added), {added})
    && NamesUnique(w, MODULES, Before(first)) && NamesUnique(w, MODULES, Grown(first, added))
    && !NeedsFull(w, MODULES, {added}, Grown(first, added))
  }

  ghost function Patched(w: World, c: Canon, first: Path, added: Path): Graph {
    Patch(w, c.policy, Build(w, c, Before(first)), BuildFileMeta(w, MODULES, Before(first)), {added}, Grown(first, added))
  }

  /** The patch accepts the new file, and its graph is not the built one. */
  ghost predicate GoesWrong(w: World, c: Canon, first: Path, added: Path) {
    Accepted(w, c, first, added) && Patched(w, c, first, added) != Build(w, c, Grown(first, added))
  }

  lemma AdditionIsAccepted(w: World, c: Canon, first: Path, added: Path)
    requires first in FILES && added in FILES && first != added && AllIndexed(w) && w.canonicalPaths <= {first}
    requires c.modules == MODULES && w.roots({first, added}) == {"m"}
    requires NamesUnique(w, MODULES, Before(first)) && NamesUnique(w, MODULES, Grown(first, added))
    ensures Accepted(w, c, first, added)
  {
    OneRoot();
    Owners(added);
    BothIndexed(w, first, added);
    assert Grown(first, added).Keys == {first, added};
  }

  lemma ApartIsAccepted(w: World, c: Canon, first: Path, added: Path)
    requires first in FILES && added in FILES && first != added && AllIndexed(w) && w.canonicalPaths <= {first}
    requires c.modules == MODULES && w.roots({first, added}) == {"m"} && Apart(w, first, added)
    ensures Accepted(w, c, first, added)
  {
    BothIndexed(w, first, added);
    NamesAreApart(w, Before(first), {first}, first, added);
    NamesAreApart(w, Grown(first, added), {first, added}, first, added);
    AdditionIsAccepted(w, c, first, added);
  }

  lemma MissedGoesWrong(w: World, c: Canon, first: Path, added: Path)
    requires Accepted(w, c, first, added)
    requires !(Elsewhere(c.notes, {added}) && PatchMissesNothing(w, c, Before(first), Grown(first, added), {added}))
    ensures GoesWrong(w, c, first, added)
  {
    FullCacheDescribes(w, MODULES, Before(first));
    IncrementalEqualsFullExactly(w, c, Before(first), Grown(first, added), BuildFileMeta(w, MODULES, Before(first)), {added});
  }

  ghost function RowsAfter(w: World, c: Canon, first: Path, added: Path): ImportTable {
    ImportRows(w, c, Grown(first, added), {first, added})
  }

  /** What the patch misses if it misses nothing, over these two trees. */
  lemma MissesNothingMeans(w: World, c: Canon, first: Path, added: Path)
    requires first in FILES && added in FILES && AllIndexed(w) && c.modules == MODULES
    requires PatchMissesNothing(w, c, Before(first), Grown(first, added), {added})
    ensures var old', new' := FileRecords(w, c, {first}), FileRecords(w, c, {first, added});
            var before, after := Sites(w, Before(first), {first}), Sites(w, Grown(first, added), {first, added});
            && TestsSettled(w, old', new', {OwnerOf(added)})
            && HiddenImportNothing(RowsAfter(w, c, first, added), w.canonicalPaths, {OwnerOf(added)})
            && (forall s | s in after && s.file in w.canonicalPaths ::
                  LoadsStay(w, before, after, TextOf(Grown(first, added), s.file), s))
            && forall s | s in after && s.file in new' && new'[s.file].moduleId !in {OwnerOf(added)} ::
                 TargetsStay(w, old', new', s.file)
  {
    BothIndexed(w, first, added);
    AffectedOwner(added);
    var ch := ChangeOf(w, c, Before(first), Grown(first, added), {added});
    assert ch.before == {first} && ch.after == {first, added};
    assert NothingMissed(w, c, ch, {OwnerOf(added)});
  }

  lemma AffectedOwner(added: Path)
    requires added in FILES
    ensures Affected(MODULES, {added}) == {OwnerOf(added)}
  {
    Owners(added);
  }

  lemma RecordedModule(w: World, c: Canon, files: set<Path>, p: Path)
    requires p in FILES && p in files && c.modules == MODULES
    ensures p in FileRecords(w, c, files) && FileRecords(w, c, files)[p].moduleId == OwnerOf(p)
    ensures FileRecords(w, c, files)[p].isTest == w.isTest(p)
  {
    Owners(p);
  }

  const EMPTY := Parsed({}, map[], {})
  const CALLER := Definition("g", 1, "function", true, {"f"})
  const CALLEE := Definition("f", 1, "function", true, {})

  function DefinesNothing(p: Path): Parse { EMPTY }

  /** The inner source defines `f`, and nothing else is defined. */
  function DefinesF(p: Path): Parse {
    if p == SOURCE then Parsed({CALLEE}, map[], {}) else EMPTY
  }

  /** The canonical file calls the `f` of the inner source through an alias. */
  function CallsF(p: Path): Parse {
    if p == CANONICAL then Parsed({CALLER}, map["f" := "m.n.x.f"], {})
    else if p == SOURCE then Parsed({CALLEE}, map[], {})
    else EMPTY
  }

  /** The canonical file imports the inner module. */
  function ImportsInner(p: Path): Parse {
    if p == CANONICAL then Parsed({}, map[], {"m.n"}) else EMPTY
  }

  ghost predicate Single(parse: Path -> Parse) {
    forall p, d, e | parse(p).Parsed? && d in parse(p).definitions && e in parse(p).definitions :: d == e
  }

  lemma NestedIsAccepted(canonical: set<Path>, parse: Path -> Parse, first: Path, added: Path)
    requires first in FILES - {NOTED} && added in FILES - {NOTED} && first != added && canonical <= {first}
    requires Single(parse) && Base(first) != Base(added)
    ensures var w, c := Nested(canonical, map[], parse), PlainCanon(MODULES, map[]);
            AllIndexed(w) && Accepted(w, c, first, added)
  {
    var w, c := Nested(canonical, map[], parse), PlainCanon(MODULES, map[]);
    assert Apart(w, first, added);
    ApartIsAccepted(w, c, first, added);
  }

  lemma Bases()
    ensures CANONICAL != SOURCE && Base(CANONICAL) == "m.c" && Base(SOURCE) == "m.n.x"
  {
    assert CANONICAL[2] == 'c' && SOURCE[2] == 'n';
  }

  // ---- A test whose sibling appears ----

  lemma UnsettledTest(w: World, c: Canon)
    requires c.modules == MODULES && w.isTest(TEST)
    requires |w.siblings(TEST, "m")| > 0 && w.siblings(TEST, "m")[0] == SOURCE
    ensures !TestsSettled(w, FileRecords(w, c, {TEST}), FileRecords(w, c, {TEST, SOURCE}), {"m/n"})
  {
    RecordedModule(w, c, {TEST, SOURCE}, TEST);
    var new' := FileRecords(w, c, {TEST, SOURCE});
    assert new'[TEST].moduleId == "m" && |"m"| != |"m/n"|;
    assert FirstHit(w.siblings(TEST, "m"), TEST, {TEST} + new'.Keys) == Some(SOURCE);
    assert !SettledTest(w, new', {TEST}, TEST);
  }

  lemma UnsettledGoesWrong(w: World, c: Canon)
    requires Accepted(w, c, TEST, SOURCE) && AllIndexed(w) && w.isTest(TEST)
    requires |w.siblings(TEST, "m")| > 0 && w.siblings(TEST, "m")[0] == SOURCE
    ensures GoesWrong(w, c, TEST, SOURCE)
  {
    UnsettledTest(w, c);
    if PatchMissesNothing(w, c, Before(TEST), Grown(TEST, SOURCE), {SOURCE}) {
      MissesNothingMeans(w, c, TEST, SOURCE);
      assert false;
    }
    MissedGoesWrong(w, c, TEST, SOURCE);
  }

  /** The sibling source of a test appears in the inner module. The test belongs to the outer
      one, which is not affected: it keeps its old targets. */
  lemma UnsettledTestExample()
    ensures GoesWrong(Nested({}, map[], DefinesNothing), PlainCanon(MODULES, map[]), TEST, SOURCE)
  {
    NestedIsAccepted({}, DefinesNothing, TEST, SOURCE);
    UnsettledGoesWrong(Nested({}, map[], DefinesNothing), PlainCanon(MODULES, map[]));
  }

  // ---- A test that appears ----

  lemma TargetAppears(w: World, old': Files, new': Files)
    requires TEST in new' && TEST !in old' && SOURCE in new' && new'[TEST].isTest
    requires |w.siblings(TEST, new'[TEST].moduleId)| > 0 && w.siblings(TEST, new'[TEST].moduleId)[0] == SOURCE
    ensures !TargetsStay(w, old', new', SOURCE)
  {
    assert FirstHit(w.siblings(TEST, new'[TEST].moduleId), TEST, new'.Keys) == Some(SOURCE);
    assert Targets(w, new', TEST, SOURCE) && !Targets(w, old', TEST, SOURCE);
  }

  lemma SourceDefines(w: World)
    requires w.parse(SOURCE, "") == Parsed({CALLEE}, map[], {})
    ensures Site(SOURCE, CALLEE) in Sites(w, Grown(SOURCE, TEST), {SOURCE, TEST})
  {
    assert Site(SOURCE, CALLEE) in FileSites(w, SOURCE, "") && TextOf(Grown(SOURCE, TEST), SOURCE) == "";
  }

  lemma ForeignTargetGoesWrong(w: World, c: Canon)
    requires Accepted(w, c, SOURCE, TEST) && AllIndexed(w) && w.isTest(TEST)
    requires |w.siblings(TEST, "m")| > 0 && w.siblings(TEST, "m")[0] == SOURCE
    requires w.parse(SOURCE, "") == Parsed({CALLEE}, map[], {})
    ensures GoesWrong(w, c, SOURCE, TEST)
  {
    RecordedModule(w, c, {SOURCE, TEST}, SOURCE);
    RecordedModule(w, c, {SOURCE, TEST}, TEST);
    SourceDefines(w);
    TargetAppears(w, FileRecords(w, c, {SOURCE}), FileRecords(w, c, {SOURCE, TEST}));
    assert OwnerOf(SOURCE) != OwnerOf(TEST) by { assert |"m"| != |"m/n"|; }
    if PatchMissesNothing(w, c, Before(SOURCE), Grown(SOURCE, TEST), {TEST}) {
      MissesNothingMeans(w, c, SOURCE, TEST);
      assert false;
    }
    MissedGoesWrong(w, c, SOURCE, TEST);
  }

  /** The test appears in the outer module. The symbols of the inner one, which is not affected,
      keep their old test lists. */
  lemma ForeignTargetExample()
    ensures GoesWrong(Nested({}, map[], DefinesF), PlainCanon(MODULES, map[]), SOURCE, TEST)
  {
    NestedIsAccepted({}, DefinesF, SOURCE, TEST);
    ForeignTargetGoesWrong(Nested({}, map[], DefinesF), PlainCanon(MODULES, map[]));
  }

  // ---- A canonical file that imports, and one that loads ----

  lemma ImportLeadsTo(w: World)
    requires w.moduleBase("m") == "m" && w.moduleBase("m/n") == "m.n"
    ensures ModuleForDotted(w, "m.n", MODULES) == Some("m/n")
  {
    assert MODULES[..1] == ["m"] && MODULES[1] == "m/n";
  }

  lemma HiddenImport(w: World, c: Canon)
    requires c.modules == MODULES && IsPython(w, CANONICAL) && !w.isTest(CANONICAL)
    requires w.moduleBase("m") == "m" && w.moduleBase("m/n") == "m.n"
    requires w.parse(CANONICAL, "") == Parsed({}, map[], {"m.n"})
    ensures !HiddenImportNothing(RowsAfter(w, c, CANONICAL, NEIGHBOUR), {CANONICAL}, {"m"})
  {
    Owners(CANONICAL);
    ImportLeadsTo(w);
    var targets := FileImports(w, MODULES, CANONICAL, "");
    assert ImportTarget(w, MODULES, CANONICAL, "m.n").value in targets;
    var rows := RowsAfter(w, c, CANONICAL, NEIGHBOUR);
    assert rows[CANONICAL] == ImportRow("m", targets) && "m/n" in rows[CANONICAL].targets;
    assert |"m"| != |"m/n"|;
  }

  lemma HiddenImportGoesWrong(w: World, c: Canon)
    requires Accepted(w, c, CANONICAL, NEIGHBOUR) && AllIndexed(w) && w.canonicalPaths == {CANONICAL}
    requires IsPython(w, CANONICAL) && !w.isTest(CANONICAL)
    requires w.moduleBase("m") == "m" && w.moduleBase("m/n") == "m.n"
    requires w.parse(CANONICAL, "") == Parsed({}, map[], {"m.n"})
    ensures GoesWrong(w, c, CANONICAL, NEIGHBOUR)
  {
    HiddenImport(w, c);
    if PatchMissesNothing(w, c, Before(CANONICAL), Grown(CANONICAL, NEIGHBOUR), {NEIGHBOUR}) {
      MissesNothingMeans(w, c, CANONICAL, NEIGHBOUR);
      assert false;
    }
    MissedGoesWrong(w, c, CANONICAL, NEIGHBOUR);
  }

  /** A canonical file imports the inner module, and a file appears beside it: the edge is
      derived again from cached files only, and lost. */
  lemma HiddenImportExample()
    ensures GoesWrong(Nested({CANONICAL}, map[], ImportsInner), PlainCanon(MODULES, map[]), CANONICAL, NEIGHBOUR)
  {
    NestedIsAccepted({CANONICAL}, ImportsInner, CANONICAL, NEIGHBOUR);
    HiddenImportGoesWrong(Nested({CANONICAL}, map[], ImportsInner), PlainCanon(MODULES, map[]));
  }

  lemma LoadMoves(w: World)
    requires IsPython(w, CANONICAL) && IsPython(w, SOURCE)
    requires w.pythonBase(CANONICAL) == "m.c" && w.pythonBase(SOURCE) == "m.n.x"
    requires w.parse(CANONICAL, "") == Parsed({CALLER}, map["f" := "m.n.x.f"], {})
    requires w.parse(SOURCE, "") == Parsed({CALLEE}, map[], {})
    ensures var before, after := Sites(w, Before(CANONICAL), {CANONICAL}), Sites(w, Grown(CANONICAL, SOURCE), {CANONICAL, SOURCE});
            Site(CANONICAL, CALLER) in after && !LoadsStay(w, before, after, "", Site(CANONICAL, CALLER))
  {
    var before, after := Sites(w, Before(CANONICAL), {CANONICAL}), Sites(w, Grown(CANONICAL, SOURCE), {CANONICAL, SOURCE});
    var s, t := Site(CANONICAL, CALLER), Site(SOURCE, CALLEE);
    assert s in FileSites(w, CANONICAL, "") && t in FileSites(w, SOURCE, "");
    assert TextOf(Grown(CANONICAL, SOURCE), CANONICAL) == TextOf(Grown(CANONICAL, SOURCE), SOURCE) == "";
    assert s in after && t in after;
    assert DottedAt(w, t) == "m.n.x.f" && Defines(w, after, "m.n.x.f");
    assert LoadsAlias(w, "", s, "f");
    forall u | u in before ensures DottedAt(w, u) != "m.n.x.f" {
      assert DottedAt(w, u)[2] == 'c';
    }
    assert !Defines(w, before, "m.n.x.f");
  }

  lemma HiddenLoadGoesWrong(w: World, c: Canon)
    requires Accepted(w, c, CANONICAL, SOURCE) && AllIndexed(w) && w.canonicalPaths == {CANONICAL}
    requires IsPython(w, CANONICAL) && IsPython(w, SOURCE)
    requires w.pythonBase(CANONICAL) == "m.c" && w.pythonBase(SOURCE) == "m.n.x"
    requires w.parse(CANONICAL, "") == Parsed({CALLER}, map["f" := "m.n.x.f"], {})
    requires w.parse(SOURCE, "") == Parsed({CALLEE}, map[], {})
    ensures GoesWrong(w, c, CANONICAL, SOURCE)
  {
    LoadMoves(w);
    assert TextOf(Grown(CANONICAL, SOURCE), CANONICAL) == "";
    if PatchMissesNothing(w, c, Before(CANONICAL), Grown(CANONICAL, SOURCE), {SOURCE}) {
      MissesNothingMeans(w, c, CANONICAL, SOURCE);
      assert false;
    }
    MissedGoesWrong(w, c, CANONICAL, SOURCE);
  }

  /** A canonical file loads `f` through an alias, and the inner source appears and defines it:
      the file is not cached, so its calls are not resolved again. */
  lemma HiddenLoadExample()
    ensures GoesWrong(Nested({CANONICAL}, map[], CallsF), PlainCanon(MODULES, map[]), CANONICAL, SOURCE)
  {
    Bases();
    assert CallsF(SOURCE) == Parsed({CALLEE}, map[], {});
    NestedIsAccepted({CANONICAL}, CallsF, CANONICAL, SOURCE);
    HiddenLoadGoesWrong(Nested({CANONICAL}, map[], CallsF), PlainCanon(MODULES, map[]));
  }

  // ---- A canonical finding that names a file ----

  const FINDING := Note("dep-normalize", NOTED, "route dependency maps to no known module")

  /** A route `m/a` depends on `b.rs`, which is no module, and a file of the name of that finding
      appears: the patch drops the finding. */
  lemma NamedFindingExample()
    ensures GoesWrong(Nested({}, map[FINDING := 1], DefinesNothing), PlainCanon(MODULES, map[FINDING := 1]), SOURCE, NOTED)
  {
    var w, c := Nested({}, map[FINDING := 1], DefinesNothing), PlainCanon(MODULES, map[FINDING := 1]);
    NothingClashes(w, MODULES, Before(SOURCE));
    NothingClashes(w, MODULES, Grown(SOURCE, NOTED));
    AdditionIsAccepted(w, c, SOURCE, NOTED);
    assert FINDING in c.notes && !Elsewhere(c.notes, {NOTED});
    MissedGoesWrong(w, c, SOURCE, NOTED);
  }

  lemma NothingClashes(w: World, modules: seq<ModuleId>, tree: Tree)
    requires forall p, text :: w.parse(p, text) == EMPTY
    ensures NamesUnique(w, modules, tree)
  {
    assert Sites(w, tree, Indexed(w, modules, tree)) == {};
  }

  // ---- A module list that moves under unchanged roots ----

  const INNER: Path := SOURCE

  function GrowingModules(): Tools {
    Tools(
      Nested({}, map[], DefinesNothing).(
        isTest := p => false,
        discover := (files: set<Path>, texts: Tree) => if INNER in files then ["m", "m/n"] else ["m"]),
      text => text, g => "", (g: Graph, disk: Disk) => true)
  }

  const LAST: Disk := map[NEIGHBOUR := File("", 0, 0)]
  const LATER: Disk := map[NEIGHBOUR := File("", 0, 0), INNER := File("", 0, 0)]

  lemma GrowingToolsOk()
    ensures ToolsOk(GrowingModules())
    ensures CanonAt(GrowingModules().w, LAST) == PlainCanon(["m"], map[])
    ensures CanonAt(GrowingModules().w, LATER) == PlainCanon(["m", "m/n"], map[])
    ensures ExpectedRoots(["m"]) == {"m"}
  {
    var t := GrowingModules();
    assert Below("m", "m/n");
    assert !("m" + "/" <= "m");
    assert Texts(LAST).Keys == {NEIGHBOUR} && Texts(LATER).Keys == {NEIGHBOUR, INNER};
    forall files, texts ensures Increasing(t.w.discover(files, texts)) {
    }
  }

  lemma GrowthIndexed(w: World)
    requires AllIndexed(w)
    ensures Indexed(w, ["m"], Texts(LAST)) == {NEIGHBOUR} && Indexed(w, ["m"], Texts(LATER)) == {NEIGHBOUR, INNER}
  {
    assert ["m"][0] == "m" && "m" + "/" <= NEIGHBOUR && "m" + "/" <= INNER;
    OnlyOwner(NEIGHBOUR, ["m"], "m");
    OnlyOwner(INNER, ["m"], "m");
  }

  /** Only the new file is detected, and the unchanged one is rightly taken as unchanged. */
  lemma GrowthConfirmed(hash: Hash)
    ensures var m := BuildManifest(hash, {NEIGHBOUR}, LAST);
            && Confirmed(hash, m, Candidates(m, {NEIGHBOUR, INNER}, LATER), LATER) == {INNER}
            && StatsIdentify(hash, m, LATER)
  {
    var m := BuildManifest(hash, {NEIGHBOUR}, LAST);
    assert m == map[NEIGHBOUR := Entry(hash(""), 0, 0)];
    assert NEIGHBOUR !in Candidates(m, {NEIGHBOUR, INNER}, LATER) && INNER in Candidates(m, {NEIGHBOUR, INNER}, LATER);
  }

  lemma GrowthIsDetected(t: Tools)
    requires AllIndexed(t.w) && t.w.canonicalPaths == {}
    ensures DetectedBy(t, ["m"], LAST, LATER) == {INNER}
    ensures StatsIdentify(t.hash, ManifestAt(t, ["m"], LAST), LATER)
  {
    GrowthIndexed(t.w);
    GrowthConfirmed(t.hash);
    assert ManifestPaths(t.w, ["m"], LAST) == {NEIGHBOUR} && ManifestPaths(t.w, ["m"], LATER) == {NEIGHBOUR, INNER};
  }

  /** Without tests and canonical files there is nothing to miss. */
  lemma PlainFilesAreSafe(w: World, c: Canon, old': Tree, new': Tree, changed: set<Path>)
    requires w.canonicalPaths == {} && forall p :: !w.isTest(p)
    ensures PatchMissesNothing(w, c, old', new', changed)
  {
    var ch := ChangeOf(w, c, old', new', changed);
    var before, after := FileRecords(w, c, ch.before), FileRecords(w, c, ch.after);
    NoTests(w, c, ch.before);
    NoTests(w, c, ch.after);
    forall f ensures TargetsStay(w, before, after, f) {
    }
    assert NothingMissed(w, c, ch, Affected(c.modules, changed));
  }

  lemma NoTests(w: World, c: Canon, files: set<Path>)
    requires forall p :: !w.isTest(p)
    ensures forall p | p in FileRecords(w, c, files) :: !FileRecords(w, c, files)[p].isTest
  {
  }

  lemma GrowthIsTrusted(t: Tools)
    requires CanonAt(t.w, LAST) == PlainCanon(["m"], map[]) && AllIndexed(t.w)
    requires t.w.canonicalPaths == {} && forall p :: !t.w.isTest(p)
    ensures PatchTrusted(t, LAST, LATER)
  {
    GrowthIsDetected(t);
    PlainFilesAreSafe(t.w, PlainCanon(["m"], map[]), Texts(LAST), Texts(LATER), {INNER});
  }

  lemma GrowthIsPatched(w: World)
    requires w.roots(Texts(LATER).Keys) == {"m"} && w.canonicalPaths == {} && ExpectedRoots(["m"]) == {"m"}
    ensures !NeedsFull(w, ["m"], {INNER}, Texts(LATER))
  {
    assert ["m"][0] == "m" && "m" + "/" <= INNER;
    OnlyOwner(INNER, ["m"], "m");
  }

  lemma GrowthGoesWrong(t: Tools)
    requires ToolsOk(t) && SameCanon(t, LAST, LATER) && AllIndexed(t.w)
    requires CanonAt(t.w, LAST) == PlainCanon(["m"], map[]) && CanonAt(t.w, LATER) == PlainCanon(["m", "m/n"], map[])
    requires t.w.canonicalPaths == {} && (forall p :: !t.w.isTest(p)) && forall p, text :: t.w.parse(p, text) == EMPTY
    ensures PatchTrusted(t, LAST, LATER) && DetectedBy(t, ["m"], LAST, LATER) == {INNER}
    ensures var c := CanonAt(t.w, LAST);
            Patch(t.w, c.policy, Build(t.w, c, Texts(LAST)), BuildFileMeta(t.w, c.modules, Texts(LAST)), {INNER}, Texts(LATER))
            != Build(t.w, CanonAt(t.w, LATER), Texts(LATER))
  {
    GrowthIsTrusted(t);
    GrowthIsDetected(t);
    NothingClashes(t.w, ["m"], Texts(LAST));
    NothingClashes(t.w, ["m"], Texts(LATER));
    FullCacheDescribes(t.w, ["m"], Texts(LAST));
    var a, b := PlainCanon(["m"], map[]), PlainCanon(["m", "m/n"], map[]);
    assert |a.modules| != |b.modules|;
    PatchNeedsSameModules(t, BuildFileMeta(t.w, ["m"], Texts(LAST)), LAST, LATER, {INNER});
  }

  /** A file of a new inner module appears. The roots and the documents are as before, so the
      patch does not refuse; but a rebuild lists the inner module, and the patch does not. */
  lemma GrowingModulesExample()
    ensures var t := GrowingModules();
            var c := CanonAt(t.w, LAST);
            && ToolsOk(t) && PatchTrusted(t, LAST, LATER) && SameCanon(t, LAST, LATER)
            && DetectedBy(t, ["m"], LAST, LATER) == {INNER} && !NeedsFull(t.w, c.modules, {INNER}, Texts(LATER))
            && Patch(t.w, c.policy, Build(t.w, c, Texts(LAST)), BuildFileMeta(t.w, c.modules, Texts(LAST)), {INNER}, Texts(LATER))
               != Build(t.w, CanonAt(t.w, LATER), Texts(LATER))
  {
    var t := GrowingModules();
    GrowingToolsOk();
    GrowthIsPatched(t.w);
    assert forall p, text :: t.w.parse(p, text) == DefinesNothing(p);
    GrowthGoesWrong(t);
  }

  // ---- A manifest path that is no longer listed ----

  /** The manifest holds a file that is still on disk, unchanged, but listed no more: it is no
      detected change, and the refreshed manifest keeps it. */
  lemma UnlistedPathExample()
    ensures var hash, m, disk := (text: string) => text, map[NEIGHBOUR := Entry("", 0, 0)], map[NEIGHBOUR := File("", 0, 0)];
            && StatsIdentify(hash, m, disk)
            && Confirmed(hash, m, Candidates(m, {}, disk), disk) == {}
            && NEIGHBOUR in Restamped(hash, m, Candidates(m, {}, disk), disk)
            && NEIGHBOUR !in BuildManifest(hash, {}, disk)
  {
  }

  // ---- A payload that cannot be read, and a new time stamp ----

  const STAMPED: Disk := map[NEIGHBOUR := File("", 0, 1)]

  function PlainTools(): Tools {
    Tools(Nested({}, map[], DefinesNothing), text => text, g => "", (g: Graph, disk: Disk) => true)
  }

  /** The index of a disk, with an unreadable payload. */
  ghost function CorruptIndex(t: Tools, disk: Disk): Store {
    var c := CanonAt(t.w, disk);
    var g := Build(t.w, c, Texts(disk));
    Store(Corrupt, Some(g), Some(ManifestAt(t, c.modules, disk)), Some(BuildFileMeta(t.w, c.modules, Texts(disk))),
          Some(StateFor(t, g)))
  }

  lemma CorruptIsStored(t: Tools, disk: Disk)
    requires forall p, text :: t.w.parse(p, text) == EMPTY
    ensures var store := CorruptIndex(t, disk);
            HasIndex(store) && Stored(t, store, disk) && store.lookup.Corrupt?
  {
    NothingClashes(t.w, CanonAt(t.w, disk).modules, Texts(disk));
    FullCacheDescribes(t.w, CanonAt(t.w, disk).modules, Texts(disk));
  }

  lemma StampIsNoChange(hash: Hash)
    ensures var m := BuildManifest(hash, {NEIGHBOUR}, LAST);
            var candidates := Candidates(m, {NEIGHBOUR}, STAMPED);
            candidates == {NEIGHBOUR} && Confirmed(hash, m, candidates, STAMPED) == {}
  {
    var m := BuildManifest(hash, {NEIGHBOUR}, LAST);
    assert m == map[NEIGHBOUR := Entry(hash(""), 0, 0)];
  }

  lemma NeighbourIsListed(w: World, disk: Disk)
    requires AllIndexed(w) && w.canonicalPaths == {} && disk.Keys == {NEIGHBOUR}
    ensures ManifestPaths(w, MODULES, disk) == {NEIGHBOUR}
  {
    Owners(NEIGHBOUR);
    assert Texts(disk).Keys == {NEIGHBOUR};
  }

  lemma StampIsProbed(t: Tools, store: Store)
    requires store.graph.Some? && ModulesOf(store.graph.value) == MODULES
    requires store.manifest == Some(ManifestAt(t, MODULES, LAST)) && AllIndexed(t.w) && t.w.canonicalPaths == {}
    ensures Probe(t, store, STAMPED) == {NEIGHBOUR}
    ensures Confirmed(t.hash, store.manifest.value, Probe(t, store, STAMPED), STAMPED) == {}
  {
    NeighbourIsListed(t.w, LAST);
    NeighbourIsListed(t.w, STAMPED);
    StampIsNoChange(t.hash);
  }

  lemma StampedServesNothing(t: Tools, store: Store)
    requires HasIndex(store) && store.lookup.Corrupt? && ModulesOf(store.graph.value) == MODULES
    requires store.manifest == Some(ManifestAt(t, MODULES, LAST)) && AllIndexed(t.w) && t.w.canonicalPaths == {}
    requires t.w.roots({NEIGHBOUR}) == {"m"}
    ensures Refreshed(t, store, STAMPED, false).1 == StatOnly && EnsureFresh(t, store, STAMPED).1.None?
  {
    OneRoot();
    StampIsProbed(t, store);
    assert STAMPED.Keys == {NEIGHBOUR};
    StatOnlyOverCorrupt(t, store, STAMPED);
  }

  lemma CorruptParts(t: Tools)
    requires ToolsOk(t) && CanonAt(t.w, LAST).modules == MODULES && forall p, text :: t.w.parse(p, text) == EMPTY
    ensures var store := CorruptIndex(t, LAST);
            && HasIndex(store) && Stored(t, store, LAST) && store.lookup.Corrupt?
            && ModulesOf(store.graph.value) == MODULES && store.manifest == Some(ManifestAt(t, MODULES, LAST))
  {
    CorruptIsStored(t, LAST);
    StoredModules(t, CorruptIndex(t, LAST), LAST);
  }

  lemma PlainToolsOk()
    ensures var t := PlainTools();
            && ToolsOk(t) && CanonAt(t.w, LAST).modules == MODULES && t.w.roots({NEIGHBOUR}) == {"m"}
            && AllIndexed(t.w) && t.w.canonicalPaths == {} && forall p, text :: t.w.parse(p, text) == EMPTY
  {
    OneRoot();
    assert forall p, text :: PlainTools().w.parse(p, text) == DefinesNothing(p);
  }

  /** The payload of the index cannot be read, and a file has a new time stamp: the refresh is
      stat-only, and nothing is served. */
  lemma CorruptPayloadExample()
    ensures var t := PlainTools();
            var store := CorruptIndex(t, LAST);
            && ToolsOk(t) && Stored(t, store, LAST)
            && Refreshed(t, store, STAMPED, false).1 == StatOnly
            && EnsureFresh(t, store, STAMPED).1.None?
  {
    PlainToolsOk();
    CorruptParts(PlainTools());
    StampedServesNothing(PlainTools(), CorruptIndex(PlainTools(), LAST));
  }

  // ---- A declared dependency on no module ----

  function DeclaresNoModule(): Canon {
    PlainCanon(["m"], map[]).(info := m => NoInfo().(declared := {"z"}), declaredSources := (m: ModuleId, d: ModuleId) => ["doc"])
  }

  lemma UnknownDeclarationFails(w: World, c: Canon, tree: Tree, m: ModuleId, d: ModuleId)
    requires m in c.modules && d in c.info(m).declared && d !in c.modules
    ensures var g := Build(w, c, tree);
            Renders(DocumentOf(g), g) && Reports(DocumentOf(g), UnknownDependency(m, d))
  {
    DocumentRenders(Build(w, c, tree));
    BadDeclarationIsReported(w, c, tree, DocumentOf(Build(w, c, tree)), m, d);
  }

  /** Module `m` declares that it depends on `z`, which is no module: validation rejects the
      graph of any tree. */
  lemma UnknownDeclarationExample(w: World, tree: Tree)
    ensures var g := Build(w, DeclaresNoModule(), tree);
            Renders(DocumentOf(g), g) && Reports(DocumentOf(g), UnknownDependency("m", "z"))
  {
    var c := DeclaresNoModule();
    assert c.modules == ["m"] && "z" in c.info("m").declared;
    UnknownDeclarationFails(w, c, tree, "m", "z");
  }
}
