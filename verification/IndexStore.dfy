/** The stored index as an object that refreshes itself (tools/repo_index.py, refresh). */
module IndexStore {
  import opened Wrappers
  import opened RepoTree
  import opened RepoGraph
  import opened RepoIndex
  import opened ChangeDetection
  import opened IndexPatcher
  import opened GraphBuilder
  import opened Refresh
  import opened PublishSafety

  lemma PatchMayRun(t: Tools, store: Store, last: Disk, disk: Disk, changed: set<Path>)
    requires ToolsOk(t) && HasIndex(store) && Stored(t, store, last)
    requires StatsIdentify(t.hash, ManifestAt(t, CanonAt(t.w, last).modules, last), disk)
    requires changed == DetectedBy(t, CanonAt(t.w, last).modules, last, disk)
    ensures Consistent(t.w, CanonAt(t.w, last), store.graph.value, store.filemeta.value, Texts(last), changed, Texts(disk))
  {
    ModulesAreSorted(t, last);
    if changed !! t.w.canonicalPaths {
      DetectedCover(t, CanonAt(t.w, last), last, disk);
    }
  }

  lemma PolicyStays(t: Tools, last: Disk, disk: Disk, changed: set<Path>)
    requires ToolsOk(t) && ModulesStay(t, last, disk)
    requires StatsIdentify(t.hash, ManifestAt(t, CanonAt(t.w, last).modules, last), disk)
    requires changed == DetectedBy(t, CanonAt(t.w, last).modules, last, disk)
    requires !NeedsFull(t.w, CanonAt(t.w, last).modules, changed, Texts(disk))
    ensures CanonAt(t.w, disk).policy == CanonAt(t.w, last).policy
  {
    DetectedCover(t, CanonAt(t.w, last), last, disk);
    assert Texts(disk).Keys == disk.Keys;
    CanonStays(t, last, disk);
  }

  /** All five files are there, or one that the probe looks at is missing: what is left without
      a publish that was cut. */
  predicate Whole(store: Store) {
    HasIndex(store) || !Probed(store)
  }

  lemma RefreshedIsIndex(t: Tools, store: Store, last: Disk, disk: Disk, full: bool)
    requires ToolsOk(t) && Index(t, store, last) && Whole(store) && (Relies(t, store, disk, full) ==> Trusted(t, last, disk))
    ensures var (store', outcome) := Refreshed(t, store, disk, full);
            && Index(t, store', if outcome == Invalid then last else disk) && Whole(store')
            && (outcome != Invalid ==> Stored(t, store', disk))
  {
    RefreshKeepsIndex(t, store, last, disk, full);
  }

  class RepoIndexStore {
    var lookup: Lookup
    var graph: Option<Graph>
    var manifest: Option<Manifest>
    var filemeta: Option<FileMeta>
    var state: Option<State>
    /** The disk as last refreshed. */
    ghost var last: Disk

    constructor ()
      ensures Contents() == Store(NoLookup, None, None, None, None)
    {
      lookup, graph, manifest, filemeta, state := NoLookup, None, None, None, None;
      last := map[];
    }

    function Contents(): Store
      reads this
    {
      Store(lookup, graph, manifest, filemeta, state)
    }

    /** Nothing stored yet, or the full rebuild of the disk as last refreshed. */
    ghost predicate Valid(t: Tools)
      reads this
    {
      ToolsOk(t) && Index(t, Contents(), last) && Whole(Contents())
    }

    /** `_publish`: after validation the five files are replaced one by one. The trail holds the
        files before the first replace and after each of them. */
    method PublishAll(t: Tools, disk: Disk, g: Graph, m: Manifest, fm: FileMeta, unique: bool)
      returns (outcome: Outcome, ghost trail: seq<Store>)
      modifies this
      ensures (Contents(), outcome) == Publish(t, old(Contents()), disk, g, m, fm, unique)
      ensures last == old(last)
      ensures outcome == Published ==>
                |trail| == 6 && forall k | 0 <= k < 6 :: trail[k] == Cut(old(Contents()), Contents(), k)
    {
      trail := [Contents()];
      if !unique || !t.accepts(g, disk) {
        outcome := Invalid;
        return;
      }
      lookup := Warm(g);
      trail := trail + [Contents()];
      graph := Some(g);
      trail := trail + [Contents()];
      manifest := Some(m);
      trail := trail + [Contents()];
      filemeta := Some(fm);
      trail := trail + [Contents()];
      state := Some(StateFor(t, g));
      trail := trail + [Contents()];
      outcome := Published;
    }

    /** `_full_rebuild`, then publish. */
    method Rebuild(t: Tools, disk: Disk) returns (outcome: Outcome)
      modifies this
      ensures (Contents(), outcome) == FullRefresh(t, old(Contents()), disk)
      ensures last == old(last)
    {
      var c := CanonAt(t.w, disk);
      var built := BuildGraph(t.w, c, Texts(disk));
      if built.Err? {
        return Invalid;
      }
      ghost var trail;
      outcome, trail := PublishAll(t, disk, built.value, ManifestAt(t, c.modules, disk),
                            BuildFileMeta(t.w, c.modules, Texts(disk)), true);
    }

    /** The patch, or a full rebuild where the patch refuses. */
    method PatchOrRebuildIndex(t: Tools, disk: Disk, changed: set<Path>, restamped: Manifest) returns (outcome: Outcome)
      requires Valid(t) && HasIndex(Contents()) && Trusted(t, last, disk)
      requires changed == DetectedBy(t, CanonAt(t.w, last).modules, last, disk)
      modifies this
      ensures (Contents(), outcome) == PatchOrRebuild(t, old(Contents()), disk, changed, restamped)
      ensures last == old(last)
    {
      ghost var c := CanonAt(t.w, last);
      StoredModules(t, Contents(), last);
      PatchMayRun(t, Contents(), last, disk, changed);
      if !NeedsFull(t.w, ModulesOf(graph.value), changed, Texts(disk)) {
        PolicyStays(t, last, disk, changed);
      }
      var patched := PatchIncremental(t.w, c, CanonAt(t.w, disk).policy, graph.value, filemeta.value, changed,
                                      Texts(last), Texts(disk));
      match patched
      case Err(NeedsFullRebuild) =>
        outcome := Rebuild(t, disk);
      case Err(NameClash) =>
        outcome := Invalid;
      case Ok((g, fm)) =>
        ghost var trail;
        outcome, trail := PublishAll(t, disk, g, restamped, fm, true);
    }

    /** `refresh`: probe, confirm, then take the cheapest path that is sound. A completed
        refresh leaves the full rebuild of the disk, a rejected one leaves everything. */
    method RefreshIndex(t: Tools, disk: Disk, full: bool) returns (outcome: Outcome)
      requires Valid(t) && (Relies(t, Contents(), disk, full) ==> Trusted(t, last, disk))
      modifies this
      ensures (Contents(), outcome) == Refreshed(t, old(Contents()), disk, full)
      ensures Valid(t) && last == if outcome == Invalid then old(last) else disk
      ensures outcome != Invalid ==> Stored(t, Contents(), disk)
    {
      RefreshedIsIndex(t, Contents(), last, disk, full);
      outcome := RefreshFiles(t, disk, full);
      if outcome != Invalid {
        last := disk;
      }
    }

    /** `ensure_fresh`: the warm payload if the index reads READY, else that of a refresh. */
    method EnsureFreshIndex(t: Tools, disk: Disk) returns (served: Option<Graph>)
      requires Valid(t)
      requires Relies(t, Contents(), disk, false) || Freshness(t, Contents(), disk) == READY ==> Trusted(t, last, disk)
      modifies this
      ensures Valid(t) && (Contents(), served) == EnsureFresh(t, old(Contents()), disk)
      ensures served.Some? ==> served.value == Build(t.w, CanonAt(t.w, disk), Texts(disk))
    {
      ServedIsRebuilt(t, Contents(), last, disk);
      if Freshness(t, Contents(), disk) == READY && Payload(Contents()).Some? {
        return Payload(Contents());
      }
      var outcome := RefreshIndex(t, disk, false);
      served := if outcome == Invalid then None else Payload(Contents());
    }

    method RefreshFiles(t: Tools, disk: Disk, full: bool) returns (outcome: Outcome)
      requires Valid(t) && (Relies(t, Contents(), disk, full) ==> Trusted(t, last, disk))
      modifies this
      ensures (Contents(), outcome) == Refreshed(t, old(Contents()), disk, full)
      ensures last == old(last)
    {
      if Relies(t, Contents(), disk, full) {
        outcome := RefreshIncrementally(t, disk);
      } else {
        outcome := Rebuild(t, disk);
      }
    }

    method RefreshIncrementally(t: Tools, disk: Disk) returns (outcome: Outcome)
      requires Valid(t) && HasIndex(Contents()) && Trusted(t, last, disk)
      modifies this
      ensures (Contents(), outcome) == IncrementalRefresh(t, old(Contents()), disk)
      ensures last == old(last)
    {
      ProbeIsRight(t, Contents(), last, disk);
      var paths := ManifestPaths(t.w, ModulesOf(graph.value), disk);
      var candidates := FastChanged(manifest.value, paths, disk);
      if candidates != {} {
        var changed, restamped := ConfirmChanged(t.hash, manifest.value, candidates, disk);
        outcome := ApplyConfirmed(t, disk, changed, restamped);
      } else if lookup.Warm? {
        outcome := NoOp;
      } else {
        outcome := Rebuild(t, disk);
      }
    }

    /** Only stats moved: the manifest alone is rewritten. */
    method Restamp(restamped: Manifest)
      modifies this
      ensures Contents() == old(Contents()).(manifest := Some(restamped))
      ensures last == old(last)
    {
      manifest := Some(restamped);
    }

    method ApplyConfirmed(t: Tools, disk: Disk, changed: set<Path>, restamped: Manifest) returns (outcome: Outcome)
      requires Valid(t) && HasIndex(Contents()) && Trusted(t, last, disk)
      requires changed == DetectedBy(t, CanonAt(t.w, last).modules, last, disk)
      modifies this
      ensures (Contents(), outcome) == FromConfirmed(t, old(Contents()), disk, changed, restamped)
      ensures last == old(last)
    {
      if changed == {} {
        Restamp(restamped);
        outcome := StatOnly;
      } else {
        outcome := PatchOrRebuildIndex(t, disk, changed, restamped);
      }
    }
  }
}
