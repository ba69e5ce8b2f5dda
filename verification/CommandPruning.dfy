/** Pruning of the assembled validation commands (tools/validate_scope.py,
    _commands_for_levels): fewer processes, the same tests. A command is its list of words. */
module CommandPruning {
  import opened Wrappers
  import opened Ordering
  import opened Strings

  type Words = seq<string>

  function StripSlashes(path: string): string {
    if path != "" && path[|path| - 1] == '/' then StripSlashes(path[..|path| - 1]) else path
  }

  predicate Under(path: string, dir: string) {
    StripSlashes(dir) + "/" <= path
  }

  predicate EndsInPy(path: string) {
    |path| >= 3 && path[|path| - 3..] == ".py"
  }

  predicate IsPytest(c: Words) {
    |c| >= 2 && c[0] == "pytest"
  }

  /** `cargo test -p ...` with ` --lib` somewhere behind it. */
  predicate IsCargoLib(c: Words) {
    |c| >= 4 && c[0] == "cargo" && c[1] == "test" && c[2] == "-p" && exists i :: 3 <= i < |c| && "--lib" <= c[i]
  }

  function Partitions(commands: seq<Words>): set<string> {
    set c | c in commands && IsPytest(c) && |c| > 2 :: c[1]
  }

  /** A single test file inside the path of another pytest command. */
  predicate Covered(commands: seq<Words>, c: Words) {
    IsPytest(c) && |c| == 3 && EndsInPy(c[1]) && exists d :: d in Partitions(commands) && Under(c[1], d)
  }

  function LibRuns(commands: seq<Words>, package: string): nat {
    if commands == [] then 0
    else
      var c := commands[|commands| - 1];
      LibRuns(commands[..|commands| - 1], package) + if IsCargoLib(c) && c[3] == package then 1 else 0
  }

  function Collapsed(package: string): Words {
    ["cargo", "test", "-p", package, "--lib"]
  }

  /** What becomes of one command: dropped, collapsed into its package's run, or kept. */
  function Replacement(commands: seq<Words>, c: Words): Option<Words> {
    if Covered(commands, c) then None
    else if IsCargoLib(c) && LibRuns(commands, c[3]) > 1 then Some(Collapsed(c[3]))
    else Some(c)
  }

  /** The pruned form of the first commands of the list. */
  function Pruned(commands: seq<Words>, done: seq<Words>): seq<Words> {
    if done == [] then []
    else
      var c := done[|done| - 1];
      var rest := Pruned(commands, done[..|done| - 1]);
      match Replacement(commands, c)
      case Some(r) => if IsCargoLib(c) && LibRuns(commands, c[3]) > 1 && r in rest then rest else rest + [r]
      case None => rest
  }

  /** The counting loop. */
  method CountLibs(commands: seq<Words>) returns (counts: map<string, nat>)
    ensures forall package :: (if package in counts then counts[package] else 0) == LibRuns(commands, package)
  {
    counts := map[];
    for i := 0 to |commands|
      invariant forall package :: (if package in counts then counts[package] else 0) == LibRuns(commands[..i], package)
    {
      var c := commands[i];
      assert commands[..i + 1][..i] == commands[..i];
      if IsCargoLib(c) {
        counts := counts[c[3] := (if c[3] in counts then counts[c[3]] else 0) + 1];
      }
    }
    assert commands[..|commands|] == commands;
  }

  /** The pruning loop: drops covered test files, runs each package's library tests once. */
  method Prune(commands: seq<Words>) returns (pruned: seq<Words>)
    ensures pruned == Pruned(commands, commands)
    ensures NoDuplicates(commands) ==> NoDuplicates(pruned)
  {
    if NoDuplicates(commands) {
      PrunedHasNoDuplicates(commands, commands);
    }
    var partitions := Partitions(commands);
    var counts := CountLibs(commands);
    var seen: set<string> := {};
    pruned := [];
    for i := 0 to |commands|
      invariant pruned == Pruned(commands, commands[..i])
      invariant forall p :: p in seen ==> Collapsed(p) in pruned
      invariant forall p :: Collapsed(p) in pruned && LibRuns(commands, p) > 1 ==> p in seen
    {
      var c := commands[i];
      assert commands[..i + 1][..i] == commands[..i];
      if IsPytest(c) && |c| == 3 && EndsInPy(c[1]) && exists d :: d in partitions && Under(c[1], d) {
        continue;
      }
      if IsCargoLib(c) && c[3] in counts && counts[c[3]] > 1 {
        if c[3] !in seen {
          seen := seen + {c[3]};
          pruned := pruned + [Collapsed(c[3])];
        }
        continue;
      }
      KeptIsNotCollapsed(commands, c);
      pruned := pruned + [c];
    }
    assert commands[..|commands|] == commands;
  }

  /** A kept command is no collapsed one. */
  lemma KeptIsNotCollapsed(commands: seq<Words>, c: Words)
    requires Replacement(commands, c) == Some(c)
    requires !(IsCargoLib(c) && LibRuns(commands, c[3]) > 1)
    ensures forall p :: c == Collapsed(p) ==> LibRuns(commands, p) <= 1
  {
    forall p | c == Collapsed(p) ensures LibRuns(commands, p) <= 1 {
      CollapsedIsLib(p);
    }
  }

  lemma CollapsedIsLib(p: string)
    ensures IsCargoLib(Collapsed(p)) && Collapsed(p)[3] == p
  {
    assert "--lib" <= Collapsed(p)[4];
  }

  // ---- No duplicates ----

  lemma {:induction false} PrunedComesFrom(commands: seq<Words>, done: seq<Words>)
    ensures forall x :: x in Pruned(commands, done) <==> exists c :: c in done && Replacement(commands, c) == Some(x)
  {
    if done != [] {
      var init := done[..|done| - 1];
      PrunedComesFrom(commands, init);
      assert done == init + [done[|done| - 1]];
    }
  }

  /** Distinct commands stay distinct. */
  lemma {:induction false} PrunedHasNoDuplicates(commands: seq<Words>, done: seq<Words>)
    requires NoDuplicates(done)
    ensures NoDuplicates(Pruned(commands, done))
  {
    if done != [] {
      var init, c := done[..|done| - 1], done[|done| - 1];
      PrunedHasNoDuplicates(commands, init);
      PrunedComesFrom(commands, init);
      if Replacement(commands, c) == Some(c) && !(IsCargoLib(c) && LibRuns(commands, c[3]) > 1) {
        KeptIsNotCollapsed(commands, c);
        forall d | d in init ensures Replacement(commands, d) != Some(c) {
          assert d != c;
        }
      }
    }
  }

  // ---- What stays ----

  /** A pytest command for one file, in the directory of another pytest command. */
  ghost predicate Redundant(commands: seq<Words>, c: Words) {
    && |c| == 3 && c[0] == "pytest" && EndsInPy(c[1])
    && exists d :: d in commands && |d| > 2 && d[0] == "pytest" && StripSlashes(d[1]) + "/" <= c[1]
  }

  /** One of several library runs of its package. */
  predicate Repeated(commands: seq<Words>, c: Words) {
    IsCargoLib(c) && LibRuns(commands, c[3]) > 1
  }

  lemma RedundantIsCovered(commands: seq<Words>, c: Words)
    ensures Redundant(commands, c) <==> Covered(commands, c)
  {
    if Redundant(commands, c) {
      var d :| d in commands && |d| > 2 && d[0] == "pytest" && StripSlashes(d[1]) + "/" <= c[1];
      assert d[1] in Partitions(commands) && Under(c[1], d[1]);
    }
  }

  lemma OneMoreCommand(commands: seq<Words>, init: seq<Words>, c: Words)
    ensures var rest, collapsed := Pruned(commands, init), Repeated(commands, c);
            Pruned(commands, init + [c]) ==
              if Redundant(commands, c) then rest
              else if collapsed then (if Collapsed(c[3]) in rest then rest else rest + [Collapsed(c[3])])
              else rest + [c]
  {
    assert (init + [c])[..|init|] == init;
    RedundantIsCovered(commands, c);
  }

  lemma LibRunsAppend(init: seq<Words>, c: Words, package: string)
    ensures LibRuns(init + [c], package) == LibRuns(init, package) + if IsCargoLib(c) && c[3] == package then 1 else 0
  {
    assert (init + [c])[..|init|] == init;
  }

  lemma {:induction false} LibRunsSoFar(commands: seq<Words>, done: seq<Words>, package: string)
    ensures LibRuns(Pruned(commands, done), package)
            == if LibRuns(commands, package) > 1 && LibRuns(done, package) > 0 then 1 else LibRuns(done, package)
    ensures LibRuns(commands, package) > 1 ==> (Collapsed(package) in Pruned(commands, done) <==> LibRuns(done, package) > 0)
  {
    if done != [] {
      var init, c := done[..|done| - 1], done[|done| - 1];
      var rest := Pruned(commands, init);
      assert done == init + [c];
      LibRunsSoFar(commands, init, package);
      OneMoreCommand(commands, init, c);
      LibRunsAppend(init, c, package);
      LibRunsAppend(rest, c, package);
      CollapsedIsLib(package);
      if Repeated(commands, c) {
        CollapsedIsLib(c[3]);
        LibRunsAppend(rest, Collapsed(c[3]), package);
      }
    }
  }

  /** Whatever was assembled, the library tests of each package run once if at all. */
  lemma LibrariesRunOnce(commands: seq<Words>, package: string)
    ensures LibRuns(Pruned(commands, commands), package) == if LibRuns(commands, package) > 0 then 1 else 0
  {
    LibRunsSoFar(commands, commands, package);
  }

  /** Places of the commands that stay, in order. */
  ghost predicate Origins(commands: seq<Words>, done: seq<Words>, at: seq<nat>) {
    && |at| == |Pruned(commands, done)|
    && (forall i, j | 0 <= i < j < |at| :: at[i] < at[j])
    && (forall i | 0 <= i < |at| ::
          && at[i] < |done| && !Redundant(commands, done[at[i]])
          && Pruned(commands, done)[i] == if Repeated(commands, done[at[i]]) then Collapsed(done[at[i]][3]) else done[at[i]])
    && (forall j | 0 <= j < |done| && !Redundant(commands, done[j]) && !Repeated(commands, done[j]) :: j in at)
  }

  lemma NothingAdded(commands: seq<Words>, init: seq<Words>, c: Words, at: seq<nat>)
    requires Origins(commands, init, at) && Pruned(commands, init + [c]) == Pruned(commands, init)
    requires Redundant(commands, c) || Repeated(commands, c)
    ensures Origins(commands, init + [c], at)
  {
  }

  lemma OneAdded(commands: seq<Words>, init: seq<Words>, c: Words, at: seq<nat>, r: Words)
    requires Origins(commands, init, at) && Pruned(commands, init + [c]) == Pruned(commands, init) + [r]
    requires !Redundant(commands, c) && r == if Repeated(commands, c) then Collapsed(c[3]) else c
    ensures Origins(commands, init + [c], at + [|init|])
  {
    var longer := at + [|init|];
    forall j | 0 <= j < |init + [c]| && !Redundant(commands, (init + [c])[j]) && !Repeated(commands, (init + [c])[j])
      ensures j in longer
    {
      if j < |init| {
        assert j in at;
      } else {
        assert longer[|at|] == j;
      }
    }
  }

  /** Pruning keeps the order, keeps every command that is neither redundant nor repeated, and
      keeps nothing that is redundant. */
  lemma {:induction false} PruningKeepsOrder(commands: seq<Words>, done: seq<Words>) returns (at: seq<nat>)
    ensures Origins(commands, done, at)
  {
    at := [];
    if done != [] {
      var init, c := done[..|done| - 1], done[|done| - 1];
      assert done == init + [c];
      var before := PruningKeepsOrder(commands, init);
      OneMoreCommand(commands, init, c);
      if Pruned(commands, done) == Pruned(commands, init) {
        NothingAdded(commands, init, c, before);
        at := before;
      } else {
        OneAdded(commands, init, c, before, if Repeated(commands, c) then Collapsed(c[3]) else c);
        at := before + [|init|];
      }
    }
  }

  // ---- Coverage ----

  /** One test: of a Python file, or of a crate, in its library or beside it. */
  datatype Test = PyTest(file: string, name: string) | CrateTest(package: string, inLibrary: bool, name: string)

  /** `pytest <path> -q`, possibly with a `-k` filter; `cargo test -p <pkg>` alone or with
      `--lib` and at most one filter; and commands that run no tests. */
  predicate Shaped(c: Words) {
    || Unfiltered(c)
    || (|c| == 5 && c[0] == "pytest" && c[2] == "-k" && c[3] != "" && c[4] == "-q")
    || (|c| >= 4 && c[0] == "cargo" && c[1] == "test" && c[2] == "-p"
        && (|| |c| == 4
            || (|c| == 5 && c[4] == "--lib")
            || (|c| == 6 && c[4] == "--lib" && !("-" <= c[5]))
            || (|c| == 6 && c[5] == "--lib" && !("-" <= c[4])))
        && !("-" <= c[3]))
    || (c != [] && c[0] != "pytest" && c[0] != "cargo")
  }

  predicate Unfiltered(c: Words) {
    |c| == 3 && c[0] == "pytest" && c[2] == "-q"
  }

  function FilterOf(c: Words): string
    requires |c| >= 3
  {
    if c[0] == "pytest" then (if |c| == 5 then c[3] else "")
    else if |c| == 6 then (if c[4] == "--lib" then c[5] else c[4])
    else ""
  }

  function BaseName(path: string): string {
    if path == "" || path[|path| - 1] == '/' then "" else BaseName(path[..|path| - 1]) + [path[|path| - 1]]
  }

  predicate EndsIn(s: string, suffix: string) {
    |suffix| <= |s| && s[|s| - |suffix|..] == suffix
  }

  /** pytest collects a file of a directory by its name: `test_*.py` or `*_test.py`. */
  predicate Collected(file: string) {
    ("test_" <= BaseName(file) && EndsIn(BaseName(file), ".py")) || EndsIn(BaseName(file), "_test.py")
  }

  /** A path given to pytest is a file, which is run whatever its name, or a directory. */
  predicate Reaches(file: string, path: string) {
    file == StripSlashes(path) || (Under(file, path) && Collected(file))
  }

  /** Which tests a shaped command runs. */
  predicate Runs(c: Words, t: Test)
    requires Shaped(c)
  {
    match t
    case PyTest(file, name) => c[0] == "pytest" && Reaches(file, c[1]) && Within(FilterOf(c), name)
    case CrateTest(package, inLibrary, name) =>
      c[0] == "cargo" && c[3] == package && (inLibrary || "--lib" !in c) && Within(FilterOf(c), name)
  }

  ghost predicate RunsSome(commands: seq<Words>, t: Test)
    requires forall c | c in commands :: Shaped(c)
  {
    exists c :: c in commands && Runs(c, t)
  }

  lemma {:induction false} StripSlashesShortens(path: string)
    ensures StripSlashes(path) <= path
    ensures StripSlashes(path) == "" || StripSlashes(path)[|StripSlashes(path)| - 1] != '/'
  {
    if path != "" && path[|path| - 1] == '/' {
      StripSlashesShortens(path[..|path| - 1]);
    }
  }

  lemma ReachesOn(file: string, path: string, dir: string)
    requires Reaches(file, path) && Under(path, dir) && StripSlashes(path) == path && Collected(path)
    ensures Reaches(file, dir)
  {
  }

  /** Another command runs all tests of a single test file. */
  predicate RunsAllOf(x: Words, c: Words) {
    Unfiltered(x) && |c| >= 2 && x[1] != c[1] && Reaches(c[1], x[1])
  }

  /** Every file that pruning drops is run whole by another, unfiltered command. */
  predicate Backed(commands: seq<Words>) {
    forall c | c in commands && Covered(commands, c) :: exists x :: x in commands && RunsAllOf(x, c)
  }

  lemma SlashesAreNoPy(path: string)
    ensures EndsInPy(path) ==> StripSlashes(path) == path
  {
    if EndsInPy(path) { assert path[|path| - 1] == 'y'; }
  }

  /** A dropped test file's tests are run by a kept command. */
  lemma CoveredIsRun(commands: seq<Words>, c: Words, t: Test)
    requires (forall x | x in commands :: Shaped(x)) && Backed(commands)
    requires c in commands && Runs(c, t) && t.PyTest?
    ensures exists x :: x in commands && Replacement(commands, x) == Some(x) && Runs(x, t)
    decreases |StripSlashes(c[1])|
  {
    if Covered(commands, c) {
      var x :| x in commands && RunsAllOf(x, c);
      SlashesAreNoPy(c[1]);
      SlashesAreNoPy(x[1]);
      WithinAnything(t.name);
      if StripSlashes(x[1]) == c[1] {
        assert Replacement(commands, x) == Some(x);
      } else {
        ReachesOn(t.file, c[1], x[1]);
        CoveredIsRun(commands, x, t);
      }
    } else {
      assert Replacement(commands, c) == Some(c);
    }
  }

  lemma PrunedIsShaped(commands: seq<Words>)
    requires forall c | c in commands :: Shaped(c)
    ensures forall x | x in Pruned(commands, commands) :: Shaped(x)
  {
    PrunedComesFrom(commands, commands);
    forall x | x in Pruned(commands, commands) ensures Shaped(x) {
      var c :| c in commands && Replacement(commands, c) == Some(x);
    }
  }

  /** Crate tests survive collapsing, whatever the filters. */
  lemma CrateTestsSurvive(commands: seq<Words>, t: Test)
    requires (forall c | c in commands :: Shaped(c)) && forall x | x in Pruned(commands, commands) :: Shaped(x)
    requires RunsSome(commands, t) && t.CrateTest?
    ensures RunsSome(Pruned(commands, commands), t)
  {
    PrunedComesFrom(commands, commands);
    var c :| c in commands && Runs(c, t);
    var r := Replacement(commands, c).value;
    WithinAnything(t.name);
    assert r in Pruned(commands, commands) && Runs(r, t);
  }

  /** For Python tests pruning keeps exactly what the commands run, if every dropped file is
      backed. */
  lemma PythonTestsStay(commands: seq<Words>, t: Test)
    requires (forall c | c in commands :: Shaped(c)) && forall x | x in Pruned(commands, commands) :: Shaped(x)
    requires t.PyTest?
    ensures RunsSome(Pruned(commands, commands), t) ==> RunsSome(commands, t)
    ensures Backed(commands) && RunsSome(commands, t) ==> RunsSome(Pruned(commands, commands), t)
  {
    PrunedComesFrom(commands, commands);
    if RunsSome(Pruned(commands, commands), t) {
      var x :| x in Pruned(commands, commands) && Runs(x, t);
      var c :| c in commands && Replacement(commands, c) == Some(x);
      assert c == x;
    }
    if Backed(commands) && RunsSome(commands, t) {
      var c :| c in commands && Runs(c, t);
      CoveredIsRun(commands, c, t);
      var x :| x in commands && Replacement(commands, x) == Some(x) && Runs(x, t);
      assert x in Pruned(commands, commands);
    }
  }

  /** A test name that no pytest filter of the list selects. */
  ghost predicate Unselected(commands: seq<Words>, name: string) {
    name != "" && forall c | c in commands && Shaped(c) && c[0] == "pytest" && !Unfiltered(c) :: !Within(FilterOf(c), name)
  }

  /** Only unfiltered commands run a test that no filter selects. */
  lemma RunnersRunAll(commands: seq<Words>, y: Words, c: Words, name: string)
    requires Unselected(commands, name) && y in commands
    requires Shaped(y) && Unfiltered(c) && y != c && Runs(y, PyTest(c[1], name))
    ensures RunsAllOf(y, c)
  {
    assert Unfiltered(y);
    assert y == ["pytest", y[1], "-q"] && c == ["pytest", c[1], "-q"];
  }

  lemma DroppedIsOther(commands: seq<Words>, c: Words, x: Words)
    requires (forall y | y in commands :: Shaped(y)) && Covered(commands, c)
    requires x in Pruned(commands, commands) && Shaped(x) && x[0] == "pytest"
    ensures x in commands && x != c
  {
    PrunedComesFrom(commands, commands);
    var y :| y in commands && Replacement(commands, y) == Some(x);
  }

  /** If such a test of a dropped file is still run, the file is backed. */
  lemma SurvivorBacks(commands: seq<Words>, c: Words, x: Words, name: string)
    requires (forall y | y in commands :: Shaped(y)) && c in commands && Covered(commands, c)
    requires Unselected(commands, name)
    requires x in Pruned(commands, commands) && Shaped(x) && Runs(x, PyTest(c[1], name))
    ensures x in commands && RunsAllOf(x, c)
  {
    DroppedIsOther(commands, c, x);
    RunnersRunAll(commands, x, c, name);
  }

  lemma RunsItsOwnFile(c: Words, name: string)
    requires Unfiltered(c) && EndsInPy(c[1])
    ensures Runs(c, PyTest(c[1], name))
  {
    SlashesAreNoPy(c[1]);
    WithinAnything(name);
    assert FilterOf(c) == "" && c[1] == StripSlashes(c[1]);
  }

  /** Every named test that some command runs is run after pruning. */
  ghost predicate KeepsTests(commands: seq<Words>)
    requires (forall c | c in commands :: Shaped(c)) && forall x | x in Pruned(commands, commands) :: Shaped(x)
  {
    forall t: Test | t.name != "" :: RunsSome(commands, t) ==> RunsSome(Pruned(commands, commands), t)
  }

  lemma BackedKeepsTests(commands: seq<Words>)
    requires (forall c | c in commands :: Shaped(c)) && forall x | x in Pruned(commands, commands) :: Shaped(x)
    requires Backed(commands)
    ensures KeepsTests(commands)
  {
    forall t: Test | RunsSome(commands, t) ensures RunsSome(Pruned(commands, commands), t) {
      if t.PyTest? {
        PythonTestsStay(commands, t);
      } else {
        CrateTestsSurvive(commands, t);
      }
    }
  }

  /** A dropped file that is not backed loses every test that no filter selects. */
  lemma UnbackedLosesTest(commands: seq<Words>, c: Words, name: string)
    requires (forall c | c in commands :: Shaped(c)) && forall x | x in Pruned(commands, commands) :: Shaped(x)
    requires c in commands && Covered(commands, c) && (forall x | x in commands :: !RunsAllOf(x, c))
    requires Unselected(commands, name)
    ensures RunsSome(commands, PyTest(c[1], name)) && !RunsSome(Pruned(commands, commands), PyTest(c[1], name))
  {
    var t := PyTest(c[1], name);
    RunsItsOwnFile(c, name);
    if RunsSome(Pruned(commands, commands), t) {
      var x :| x in Pruned(commands, commands) && Runs(x, t);
      SurvivorBacks(commands, c, x, name);
    }
  }

  /** Pruning loses no test if every file it drops is run whole by an unfiltered command; and
      only then, as long as some test name is selected by no filter. */
  lemma PruningIsExact(commands: seq<Words>)
    requires forall c | c in commands :: Shaped(c)
    ensures forall x | x in Pruned(commands, commands) :: Shaped(x)
    ensures Backed(commands) ==> KeepsTests(commands)
    ensures (exists name :: Unselected(commands, name)) ==> (KeepsTests(commands) <==> Backed(commands))
  {
    PrunedIsShaped(commands);
    if Backed(commands) {
      BackedKeepsTests(commands);
    } else if name :| Unselected(commands, name) {
      var c :| c in commands && Covered(commands, c) && forall x | x in commands :: !RunsAllOf(x, c);
      UnbackedLosesTest(commands, c, name);
    }
  }

  /** Any character that occurs in no filter makes such a name. */
  lemma RareNamesAreUnselected(commands: seq<Words>, rare: char)
    requires forall c | c in commands && Shaped(c) && c[0] == "pytest" && !Unfiltered(c) :: rare !in FilterOf(c)
    ensures Unselected(commands, [rare])
  {
    forall c | c in commands && Shaped(c) && c[0] == "pytest" && !Unfiltered(c) ensures !Within(FilterOf(c), [rare]) {
      assert FilterOf(c)[0] in FilterOf(c);
    }
  }

  /** A dropped file that pytest collects by name, or that another command names too. */
  ghost predicate StillReached(commands: seq<Words>, c: Words)
    requires |c| >= 2
  {
    Collected(c[1]) || exists x :: x in commands && IsPytest(x) && |x| > 2 && x[1] != c[1] && StripSlashes(x[1]) == c[1]
  }

  lemma UnfilteredBacks(commands: seq<Words>, c: Words)
    requires forall x | x in commands :: Shaped(x) && (x[0] == "pytest" ==> Unfiltered(x))
    requires c in commands && Covered(commands, c)
    ensures (exists x :: x in commands && RunsAllOf(x, c)) <==> StillReached(commands, c)
  {
    if Collected(c[1]) {
      var d :| d in Partitions(commands) && Under(c[1], d);
      var x :| x in commands && IsPytest(x) && |x| > 2 && x[1] == d;
      StripSlashesShortens(d);
      SlashesAreNoPy(c[1]);
      assert RunsAllOf(x, c);
    } else if StillReached(commands, c) {
      var x :| x in commands && IsPytest(x) && |x| > 2 && x[1] != c[1] && StripSlashes(x[1]) == c[1];
      assert RunsAllOf(x, c);
    }
  }

  /** Without filters, as the assembly writes its pytest commands, nothing is lost exactly if
      every dropped file is one that pytest collects by its name, or is named once more. */
  lemma PruningLosesNoTests(commands: seq<Words>)
    requires forall c | c in commands :: Shaped(c) && (c[0] == "pytest" ==> Unfiltered(c))
    ensures forall x | x in Pruned(commands, commands) :: Shaped(x)
    ensures KeepsTests(commands) <==> forall c | c in commands && Covered(commands, c) :: StillReached(commands, c)
  {
    PruningIsExact(commands);
    assert Unselected(commands, "x");
    forall c | c in commands && Covered(commands, c)
      ensures (exists x :: x in commands && RunsAllOf(x, c)) <==> StillReached(commands, c)
    {
      UnfilteredBacks(commands, c);
    }
  }

  // ---- Lists that lose a test ----

  const HELPER := "t/helpers.py"
  const WITH_HELPER: seq<Words> := [["pytest", "t", "-q"], ["pytest", HELPER, "-q"]]

  lemma HelperIsNotCollected()
    ensures !Collected(HELPER)
  {
    var base := "helpers.py";
    BaseNameAppends("t/", base);
    assert HELPER == "t/" + base;
    assert base[0] == 'h' && base[|base| - 8..][0] == 'l';
  }

  lemma {:induction false} BaseNameAppends(dir: string, base: string)
    requires '/' !in base && dir != "" && dir[|dir| - 1] == '/'
    ensures BaseName(dir + base) == base
  {
    if base == "" {
      assert dir + base == dir;
    } else {
      BaseNameAppends(dir, base[..|base| - 1]);
      assert (dir + base)[..|dir + base| - 1] == dir + base[..|base| - 1];
    }
  }

  lemma HelperIsShaped()
    ensures forall c | c in WITH_HELPER :: Shaped(c) && Unfiltered(c)
    ensures Covered(WITH_HELPER, WITH_HELPER[1]) && !StillReached(WITH_HELPER, WITH_HELPER[1])
  {
    assert WITH_HELPER[0] in WITH_HELPER && "t" in Partitions(WITH_HELPER);
    assert StripSlashes("t") + "/" == "t/";
    assert HELPER[|HELPER| - 3..] == ".py" && "t/" <= HELPER;
    HelperIsNotCollected();
    assert StripSlashes(HELPER) == HELPER;
  }

  /** A file of a test directory whose name pytest does not collect: its tests are lost. */
  lemma UncollectedFileLosesTests()
    ensures (forall c | c in WITH_HELPER :: Shaped(c)) && forall x | x in Pruned(WITH_HELPER, WITH_HELPER) :: Shaped(x)
    ensures RunsSome(WITH_HELPER, PyTest(HELPER, "test_a"))
    ensures !RunsSome(Pruned(WITH_HELPER, WITH_HELPER), PyTest(HELPER, "test_a"))
  {
    HelperIsShaped();
    PrunedIsShaped(WITH_HELPER);
    UnfilteredBacks(WITH_HELPER, WITH_HELPER[1]);
    UnbackedLosesTest(WITH_HELPER, WITH_HELPER[1], "test_a");
  }

  const FILTERED: seq<Words> := [["pytest", "t", "-k", "x", "-q"], ["pytest", "t/test_a.py", "-q"]]

  lemma FilteredIsShaped()
    ensures (forall c | c in FILTERED :: Shaped(c)) && Covered(FILTERED, FILTERED[1])
    ensures forall x | x in FILTERED :: !RunsAllOf(x, FILTERED[1])
  {
    assert FILTERED[0] in FILTERED && "t" in Partitions(FILTERED);
    assert StripSlashes("t") + "/" == "t/";
    assert "t/test_a.py"[8..] == ".py" && "t/" <= "t/test_a.py";
  }

  /** A filtered partition drops a file it does not run whole: the list below loses test `y` of
      that file. */
  lemma FilteredPartitionLosesTests()
    ensures (forall c | c in FILTERED :: Shaped(c)) && forall x | x in Pruned(FILTERED, FILTERED) :: Shaped(x)
    ensures RunsSome(FILTERED, PyTest("t/test_a.py", "y")) && !RunsSome(Pruned(FILTERED, FILTERED), PyTest("t/test_a.py", "y"))
    ensures !KeepsTests(FILTERED)
  {
    FilteredIsShaped();
    PrunedIsShaped(FILTERED);
    RareNamesAreUnselected(FILTERED, 'y');
    UnbackedLosesTest(FILTERED, FILTERED[1], "y");
  }
}
