/** The files that pin one test command: its roots, their modules, and everything those import
    (tools/validate_scope.py, _transitive_closure). */
module ImportClosure {
  import opened Wrappers
  import opened RepoTree

  /** What the file cache says about one file. */
  datatype Imports = Imports(owner: ModuleId, targets: set<ModuleId>)

  type ImportTable = map<Path, Imports>

  /** Some cached file of `m` imports the known module `t`. */
  predicate ImportsModule(table: ImportTable, known: set<ModuleId>, m: ModuleId, t: ModuleId) {
    t in known && exists p :: p in table && table[p].owner == m && t in table[p].targets
  }

  ghost predicate Closed(table: ImportTable, known: set<ModuleId>, s: set<ModuleId>) {
    forall p, t | p in table && table[p].owner in s && t in table[p].targets && t in known :: t in s
  }

  /** The least set that holds the seeds and is closed under imports. */
  ghost predicate IsClosure(table: ImportTable, known: set<ModuleId>, seeds: set<ModuleId>, s: set<ModuleId>) {
    && seeds <= s && Closed(table, known, s)
    && forall r | seeds <= r && Closed(table, known, r) :: s <= r
  }

  /** One pass over the cached files, adding what the modules found so far import. */
  method Sweep(table: ImportTable, known: set<ModuleId>, start: set<ModuleId>)
    returns (modules: set<ModuleId>, changed: bool)
    ensures start <= modules <= start + known
    ensures changed <==> modules != start
    ensures !changed ==> Closed(table, known, start)
    ensures forall r | start <= r && Closed(table, known, r) :: modules <= r
  {
    modules, changed := start, false;
    var rest := table.Keys;
    while rest != {}
      invariant rest <= table.Keys
      invariant start <= modules <= start + known
      invariant changed <==> modules != start
      invariant forall p, t |
        p in table && p !in rest && !changed && table[p].owner in start && t in table[p].targets && t in known :: t in start
      invariant forall r | start <= r && Closed(table, known, r) :: modules <= r
      decreases rest
    {
      var p :| p in rest;
      if table[p].owner in modules {
        var found := set t | t in table[p].targets && t !in modules && t in known;
        modules, changed := modules + found, changed || found != {};
      }
      rest := rest - {p};
    }
  }

  /** Sweeps until nothing changes: terminates, with the least closed set, in whatever order
      the files are visited. */
  method Reach(table: ImportTable, known: set<ModuleId>, seeds: set<ModuleId>) returns (modules: set<ModuleId>)
    ensures IsClosure(table, known, seeds, modules)
  {
    modules := seeds;
    var changed := true;
    while changed
      invariant seeds <= modules
      invariant !changed ==> Closed(table, known, modules)
      invariant forall r | seeds <= r && Closed(table, known, r) :: modules <= r
      decreases known - modules, changed
    {
      ghost var before := modules;
      modules, changed := Sweep(table, known, modules);
      if changed {
        ghost var m :| m in modules && m !in before;
        assert m in known - before && m !in known - modules;
      }
    }
  }

  /** A chain of imports from a seed. */
  ghost predicate Chain(table: ImportTable, known: set<ModuleId>, seeds: set<ModuleId>, path: seq<ModuleId>) {
    && path != [] && path[0] in seeds
    && forall i | 0 < i < |path| :: ImportsModule(table, known, path[i - 1], path[i])
  }

  ghost predicate Reachable(table: ImportTable, known: set<ModuleId>, seeds: set<ModuleId>, m: ModuleId) {
    exists path :: Chain(table, known, seeds, path) && path[|path| - 1] == m
  }

  lemma {:induction false} ChainStaysInside(
    table: ImportTable, known: set<ModuleId>, seeds: set<ModuleId>, s: set<ModuleId>, path: seq<ModuleId>)
    requires seeds <= s && Closed(table, known, s) && Chain(table, known, seeds, path)
    ensures path[|path| - 1] in s
    decreases |path|
  {
    if |path| > 1 {
      var init := path[..|path| - 1];
      assert Chain(table, known, seeds, init);
      ChainStaysInside(table, known, seeds, s, init);
      assert ImportsModule(table, known, path[|path| - 2], path[|path| - 1]);
    }
  }

  lemma OneMoreImport(table: ImportTable, known: set<ModuleId>, seeds: set<ModuleId>, m: ModuleId, t: ModuleId)
    requires Reachable(table, known, seeds, m) && ImportsModule(table, known, m, t)
    ensures Reachable(table, known, seeds, t)
  {
    var path :| Chain(table, known, seeds, path) && path[|path| - 1] == m;
    var longer := path + [t];
    assert Chain(table, known, seeds, longer);
    assert longer[|longer| - 1] == t;
  }

  /** The closure holds exactly the modules that a chain of imports reaches. */
  lemma ClosureIsReachability(
    table: ImportTable, known: set<ModuleId>, seeds: set<ModuleId>, s: set<ModuleId>, m: ModuleId)
    requires IsClosure(table, known, seeds, s)
    ensures m in s <==> Reachable(table, known, seeds, m)
  {
    if Reachable(table, known, seeds, m) {
      var path :| Chain(table, known, seeds, path) && path[|path| - 1] == m;
      ChainStaysInside(table, known, seeds, s, path);
    }
    var reached := set x | x in s && Reachable(table, known, seeds, x);
    forall x | x in seeds ensures x in reached {
      assert Chain(table, known, seeds, [x]);
    }
    forall p, t | p in table && table[p].owner in reached && t in table[p].targets && t in known
      ensures t in reached
    {
      assert ImportsModule(table, known, table[p].owner, t);
      OneMoreImport(table, known, seeds, table[p].owner, t);
    }
    assert Closed(table, known, reached);
  }

  // ---- The files ----

  type ModuleFiles = map<ModuleId, set<Path>>

  /** The module that lists a file; the last one, should several do. */
  function ListedIn(files: ModuleFiles, modules: seq<ModuleId>, p: Path): Option<ModuleId> {
    if modules == [] then None
    else
      var m := modules[|modules| - 1];
      if m in files && p in files[m] then Some(m) else ListedIn(files, modules[..|modules| - 1], p)
  }

  /** Modules the roots belong to: by the graph's file lists, and by path prefix. */
  function Seeds(files: ModuleFiles, modules: seq<ModuleId>, roots: set<Path>): set<ModuleId> {
    (set p | p in roots && ListedIn(files, modules, p).Some? :: ListedIn(files, modules, p).value)
    + (set p | p in roots && OwningModule(p, modules).Some? :: ModuleOf(modules, p))
  }

  /** The last module that lists the root, or the module with the longest path around it. */
  ghost predicate Holds(files: ModuleFiles, modules: seq<ModuleId>, root: Path, m: ModuleId) {
    || (exists i :: && 0 <= i < |modules| && modules[i] == m && m in files && root in files[m]
                    && forall j | i < j < |modules| && modules[j] in files :: root !in files[modules[j]])
    || (&& m in modules && (root == m || m + "/" <= root)
        && forall n | n in modules && (root == n || n + "/" <= root) :: |n| <= |m|)
  }

  lemma {:induction false} LastListing(files: ModuleFiles, modules: seq<ModuleId>, p: Path)
    ensures match ListedIn(files, modules, p)
            case None => forall j | 0 <= j < |modules| && modules[j] in files :: p !in files[modules[j]]
            case Some(m) =>
              exists i :: && 0 <= i < |modules| && modules[i] == m && m in files && p in files[m]
                          && forall j | i < j < |modules| && modules[j] in files :: p !in files[modules[j]]
  {
    if modules != [] {
      var init := modules[..|modules| - 1];
      LastListing(files, init, p);
      assert forall j | 0 <= j < |init| :: init[j] == modules[j];
    }
  }

  lemma SeedExactly(files: ModuleFiles, modules: seq<ModuleId>, roots: set<Path>, m: ModuleId)
    ensures m in Seeds(files, modules, roots) <==> exists root :: root in roots && Holds(files, modules, root, m)
  {
    forall root | root in roots
      ensures Holds(files, modules, root, m) <==>
                ListedIn(files, modules, root) == Some(m) || OwningModule(root, modules) == Some(m)
    {
      HeldExactly(files, modules, root, m);
    }
  }

  lemma HeldExactly(files: ModuleFiles, modules: seq<ModuleId>, root: Path, m: ModuleId)
    ensures Holds(files, modules, root, m) <==>
              ListedIn(files, modules, root) == Some(m) || OwningModule(root, modules) == Some(m)
  {
    LastListing(files, modules, root);
    OwningModuleIsLongest(root, modules);
    var best := OwningModule(root, modules);
    if m in modules && Owns(m, root) && forall n | n in modules && Owns(n, root) :: |n| <= |m| {
      assert |best.value| == |m| && best.value == root[..|m|] == m;
    }
  }

  function FilesIn(files: ModuleFiles, modules: set<ModuleId>): set<Path> {
    set m, p | m in modules && m in files && p in files[m] :: p
  }

  /** A chain of imports leads from a module that holds a root to `m`. */
  ghost predicate Pinned(table: ImportTable, files: ModuleFiles, modules: seq<ModuleId>, roots: set<Path>, m: ModuleId) {
    exists path: seq<ModuleId>, root ::
      && path != [] && root in roots && Holds(files, modules, root, path[0]) && path[|path| - 1] == m
      && forall i | 0 < i < |path| :: ImportsModule(table, files.Keys, path[i - 1], path[i])
  }

  lemma PinnedExactly(table: ImportTable, files: ModuleFiles, modules: seq<ModuleId>, roots: set<Path>, m: ModuleId)
    ensures Pinned(table, files, modules, roots, m) <==> Reachable(table, files.Keys, Seeds(files, modules, roots), m)
  {
    var seeds := Seeds(files, modules, roots);
    if Reachable(table, files.Keys, seeds, m) {
      var path :| Chain(table, files.Keys, seeds, path) && path[|path| - 1] == m;
      SeedExactly(files, modules, roots, path[0]);
    }
    if path: seq<ModuleId>, root :|
      && path != [] && root in roots && Holds(files, modules, root, path[0]) && path[|path| - 1] == m
      && forall i | 0 < i < |path| :: ImportsModule(table, files.Keys, path[i - 1], path[i]) {
      SeedExactly(files, modules, roots, path[0]);
      assert Chain(table, files.Keys, seeds, path);
    }
  }

  /** `_transitive_closure`: existing files among the roots and the files of all modules that a
      chain of imports reaches from the roots' modules. */
  method TransitiveClosure(
    table: ImportTable, files: ModuleFiles, modules: seq<ModuleId>, roots: set<Path>, onDisk: set<Path>)
    returns (relevant: set<Path>)
    requires forall m :: m in modules <==> m in files
    ensures forall p :: p in relevant <==>
              p in onDisk &&
              (p in roots || exists m :: m in files && p in files[m] && Pinned(table, files, modules, roots, m))
  {
    var seeds := Seeds(files, modules, roots);
    var reached := Reach(table, files.Keys, seeds);
    forall m ensures m in reached <==> Pinned(table, files, modules, roots, m) {
      ClosureIsReachability(table, files.Keys, seeds, reached, m);
      PinnedExactly(table, files, modules, roots, m);
    }
    relevant := (roots + FilesIn(files, reached)) * onDisk;
  }
}
