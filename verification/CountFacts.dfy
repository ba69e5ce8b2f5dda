/** The counts of every built graph (tools/repo_graph.py, graph_counts): the relationship count
    is the number of distinct links, and every call is counted from both of its ends. */
module CountFacts {
  import opened Ordering
  import opened RepoTree
  import opened RepoGraph
  import opened CallGraph
  import opened FileFacts
  import opened EdgeFacts
  import opened SymbolFacts

  /** One entry of some list in the graph. */
  datatype Link =
    | Declares(m: ModuleId, d: ModuleId) | Uses(m: ModuleId, t: ModuleId) | UsedBy(m: ModuleId, n: ModuleId)
    | CallTo(q: string, t: string) | CallFrom(q: string, p: string) | TestedBy(q: string, test: Path)

  ghost function ModuleLinks(m: ModuleId, r: ModuleRecord): set<Link> {
    (set d | d in r.info.declared :: Declares(m, d))
    + (set t | t in r.actual :: Uses(m, t)) + (set n | n in r.dependedOnBy :: UsedBy(m, n))
  }

  ghost function SymbolLinks(q: string, s: Symbol): set<Link> {
    (set t | t in s.calls :: CallTo(q, t)) + (set p | p in s.calledBy :: CallFrom(q, p))
    + (set t | t in s.tests :: TestedBy(q, t))
  }

  type Rows = map<string, set<Link>>

  ghost function ModuleRows(modules: map<ModuleId, ModuleRecord>): Rows {
    map m | m in modules :: ModuleLinks(m, modules[m])
  }

  ghost function SymbolRows(symbols: Symbols): Rows {
    map q | q in symbols :: SymbolLinks(q, symbols[q])
  }

  ghost function Links(rows: Rows): set<Link> {
    set k, l | k in rows && l in rows[k] :: l
  }

  lemma {:induction false} ImageSize<A>(xs: set<A>, f: A -> Link, image: set<Link>)
    requires forall x, y | x in xs && y in xs && f(x) == f(y) :: x == y
    requires image == set x | x in xs :: f(x)
    ensures |image| == |xs|
  {
    if xs == {} {
      assert image == {};
    } else {
      var x :| x in xs;
      ImageSize(xs - {x}, f, image - {f(x)});
    }
  }

  lemma {:induction false} ListSize(xs: seq<string>, s: set<string>)
    requires Increasing(xs) && forall x :: x in xs <==> x in s
    ensures |s| == |xs|
  {
    SortedListing(s);
    IncreasingUnique(xs, Sorted(s));
  }

  lemma ListImage(xs: seq<string>, f: string -> Link, image: set<Link>)
    requires Increasing(xs) && forall x, y | f(x) == f(y) :: x == y
    requires image == set x | x in xs :: f(x)
    ensures |image| == |xs|
  {
    var s := set x | x in xs;
    ListSize(xs, s);
    ImageSize(s, f, image);
  }

  lemma ModuleLinkCount(m: ModuleId, r: ModuleRecord)
    requires Increasing(r.actual) && Increasing(r.dependedOnBy)
    ensures |ModuleLinks(m, r)| == ModuleDegree(r)
  {
    var a, b, c := set d | d in r.info.declared :: Declares(m, d), set t | t in r.actual :: Uses(m, t),
                   set n | n in r.dependedOnBy :: UsedBy(m, n);
    ImageSize(r.info.declared, d => Declares(m, d), a);
    ListImage(r.actual, t => Uses(m, t), b);
    ListImage(r.dependedOnBy, n => UsedBy(m, n), c);
    DisjointSizes(a, b, c);
  }

  lemma SymbolLinkCount(q: string, s: Symbol)
    requires Increasing(s.calls) && Increasing(s.calledBy) && Increasing(s.tests)
    ensures |SymbolLinks(q, s)| == SymbolDegree(s)
  {
    var a, b, c := set t | t in s.calls :: CallTo(q, t), set p | p in s.calledBy :: CallFrom(q, p),
                   set t | t in s.tests :: TestedBy(q, t);
    ListImage(s.calls, t => CallTo(q, t), a);
    ListImage(s.calledBy, p => CallFrom(q, p), b);
    ListImage(s.tests, t => TestedBy(q, t), c);
    DisjointSizes(a, b, c);
  }

  lemma DisjointSizes(a: set<Link>, b: set<Link>, c: set<Link>)
    requires a !! b && (a + b) !! c
    ensures |a + b + c| == |a| + |b| + |c|
  {
  }

  // ---- Sums over rows ----

  ghost function KeyOf(l: Link): string {
    match l
    case Declares(m, _) => m
    case Uses(m, _) => m
    case UsedBy(m, _) => m
    case CallTo(q, _) => q
    case CallFrom(q, _) => q
    case TestedBy(q, _) => q
  }

  ghost predicate Keyed(rows: Rows) {
    forall k, l | k in rows && l in rows[k] :: KeyOf(l) == k
  }

  ghost function Row(rows: Rows, k: string): set<Link> {
    if k in rows then rows[k] else {}
  }

  ghost function LinksOf(rows: Rows, keys: seq<string>): set<Link> {
    if keys == [] then {} else LinksOf(rows, keys[..|keys| - 1]) + Row(rows, keys[|keys| - 1])
  }

  lemma {:induction false} LinksOfElements(rows: Rows, keys: seq<string>, l: Link)
    ensures l in LinksOf(rows, keys) <==> exists k :: k in keys && l in Row(rows, k)
  {
    if keys != [] {
      LinksOfElements(rows, keys[..|keys| - 1], l);
      assert keys == keys[..|keys| - 1] + [keys[|keys| - 1]];
    }
  }

  lemma OneMoreRow(rows: Rows, init: seq<string>, k: string)
    requires Keyed(rows) && k !in init
    ensures |LinksOf(rows, init) + Row(rows, k)| == |LinksOf(rows, init)| + |Row(rows, k)|
  {
    forall l | l in Row(rows, k) ensures l !in LinksOf(rows, init) {
      LinksOfElements(rows, init, l);
      assert KeyOf(l) == k;
      forall j | j in init ensures l !in Row(rows, j) {
      }
    }
    assert LinksOf(rows, init) !! Row(rows, k);
  }

  ghost function Sizes(rows: Rows, keys: seq<string>): nat {
    if keys == [] then 0 else Sizes(rows, keys[..|keys| - 1]) + |Row(rows, keys[|keys| - 1])|
  }

  lemma {:induction false} SizesCount(rows: Rows, keys: seq<string>)
    requires Keyed(rows) && NoDuplicates(keys)
    ensures Sizes(rows, keys) == |LinksOf(rows, keys)|
  {
    if keys != [] {
      SizesCount(rows, keys[..|keys| - 1]);
      OneMoreRow(rows, keys[..|keys| - 1], keys[|keys| - 1]);
    }
  }

  lemma AllLinks(rows: Rows)
    requires Keyed(rows)
    ensures Sizes(rows, Sorted(rows.Keys)) == |Links(rows)|
  {
    var keys := Sorted(rows.Keys);
    SortedListing(rows.Keys);
    DistinctIfIncreasing(keys);
    SizesCount(rows, keys);
    forall l ensures l in LinksOf(rows, keys) <==> l in Links(rows) {
      LinksOfElements(rows, keys, l);
    }
    assert LinksOf(rows, keys) == Links(rows);
  }

  lemma DistinctIfIncreasing(xs: seq<string>)
    requires Increasing(xs)
    ensures NoDuplicates(xs)
  {
    forall i, j | 0 <= i < j < |xs| ensures xs[i] != xs[j] {
      BelowAsymmetric(xs[i], xs[j]);
    }
  }

  lemma {:induction false} ModuleSum(modules: map<ModuleId, ModuleRecord>, rows: Rows, keys: seq<ModuleId>)
    requires forall m :: |Row(rows, m)| == if m in modules then ModuleDegree(modules[m]) else 0
    ensures ModuleDegrees(modules, keys) == Sizes(rows, keys)
  {
    if keys != [] {
      ModuleSum(modules, rows, keys[..|keys| - 1]);
    }
  }

  lemma {:induction false} SymbolSum(symbols: Symbols, rows: Rows, keys: seq<string>)
    requires forall q :: |Row(rows, q)| == if q in symbols then SymbolDegree(symbols[q]) else 0
    ensures SymbolDegrees(symbols, keys) == Sizes(rows, keys)
  {
    if keys != [] {
      SymbolSum(symbols, rows, keys[..|keys| - 1]);
    }
  }

  // ---- The counts of a built graph ----

  /** What is related in a graph: modules by edges, symbols by calls and tests, each from both
      ends where both ends keep a list. */
  ghost predicate Related(g: Graph, l: Link) {
    match l
    case Declares(m, d) => m in g.modules && Edge(m, d, "declared") in g.dependencies
    case Uses(m, t) => m in g.modules && Edge(m, t, "actual") in g.dependencies
    case UsedBy(m, n) =>
      m in g.modules && (Edge(n, m, "declared") in g.dependencies || Edge(n, m, "actual") in g.dependencies)
    case CallTo(q, t) => q in g.symbols && t in g.symbols[q].calls
    case CallFrom(q, p) => q in g.symbols && p in g.symbols && q in g.symbols[p].calls
    case TestedBy(q, t) => q in g.symbols && t in g.tests && g.symbols[q].file in g.tests[t].targets
  }

  ghost function GraphLinks(g: Graph): set<Link> {
    Links(ModuleRows(g.modules)) + Links(SymbolRows(g.symbols))
  }

  /** The lists of a graph hold what is related, in order. */
  ghost predicate ListsRelated(g: Graph) {
    && (forall m | m in g.modules :: ModuleListed(g, m))
    && Mirrored(g.symbols)
    && forall q | q in g.symbols :: TestsListed(g, q)
  }

  ghost predicate ModuleListed(g: Graph, m: ModuleId)
    requires m in g.modules
  {
    && Summarises(g, m, g.modules[m])
    && forall d :: d in g.modules[m].info.declared <==> Edge(m, d, "declared") in g.dependencies
  }

  ghost predicate TestsListed(g: Graph, q: string)
    requires q in g.symbols
  {
    Enumerates(g.symbols[q].tests, iset t | t in g.tests && g.symbols[q].file in g.tests[t].targets)
  }

  lemma RowOfLink(rows: Rows, l: Link)
    requires Keyed(rows)
    ensures l in Links(rows) <==> l in Row(rows, KeyOf(l))
  {
  }

  lemma ModuleLinkRelated(g: Graph, l: Link)
    requires ListsRelated(g) && !l.CallTo? && !l.CallFrom? && !l.TestedBy?
    ensures l in Row(ModuleRows(g.modules), KeyOf(l)) <==> Related(g, l)
  {
    var m := KeyOf(l);
    if m in g.modules {
      assert Row(ModuleRows(g.modules), m) == ModuleLinks(m, g.modules[m]);
      assert ModuleListed(g, m);
    }
  }

  lemma SymbolLinkRelated(g: Graph, l: Link)
    requires ListsRelated(g) && (l.CallTo? || l.CallFrom? || l.TestedBy?)
    ensures l in Row(SymbolRows(g.symbols), KeyOf(l)) <==> Related(g, l)
  {
    var q := KeyOf(l);
    if q in g.symbols {
      assert TestsListed(g, q);
      assert Row(SymbolRows(g.symbols), q) == SymbolLinks(q, g.symbols[q]);
    }
  }

  lemma RowsAreKeyed(g: Graph)
    ensures Keyed(ModuleRows(g.modules)) && Keyed(SymbolRows(g.symbols))
    ensures forall l | l in Links(ModuleRows(g.modules)) :: !l.CallTo? && !l.CallFrom? && !l.TestedBy?
    ensures forall l | l in Links(SymbolRows(g.symbols)) :: l.CallTo? || l.CallFrom? || l.TestedBy?
  {
  }

  lemma LinksAreRelated(g: Graph, l: Link)
    requires ListsRelated(g)
    ensures l in GraphLinks(g) <==> Related(g, l)
  {
    RowsAreKeyed(g);
    if l.CallTo? || l.CallFrom? || l.TestedBy? {
      RowOfLink(SymbolRows(g.symbols), l);
      SymbolLinkRelated(g, l);
    } else {
      RowOfLink(ModuleRows(g.modules), l);
      ModuleLinkRelated(g, l);
    }
  }

  lemma ModuleTotal(modules: map<ModuleId, ModuleRecord>)
    requires forall m | m in modules :: Increasing(modules[m].actual) && Increasing(modules[m].dependedOnBy)
    requires Keyed(ModuleRows(modules))
    ensures ModuleDegrees(modules, Sorted(modules.Keys)) == |Links(ModuleRows(modules))|
  {
    var rows := ModuleRows(modules);
    assert rows.Keys == modules.Keys;
    forall m ensures |Row(rows, m)| == if m in modules then ModuleDegree(modules[m]) else 0 {
      if m in modules { ModuleLinkCount(m, modules[m]); }
    }
    ModuleSum(modules, rows, Sorted(modules.Keys));
    AllLinks(rows);
  }

  lemma SymbolTotal(symbols: Symbols)
    requires forall q | q in symbols ::
               Increasing(symbols[q].calls) && Increasing(symbols[q].calledBy) && Increasing(symbols[q].tests)
    requires Keyed(SymbolRows(symbols))
    ensures SymbolDegrees(symbols, Sorted(symbols.Keys)) == |Links(SymbolRows(symbols))|
  {
    var rows := SymbolRows(symbols);
    assert rows.Keys == symbols.Keys;
    forall q ensures |Row(rows, q)| == if q in symbols then SymbolDegree(symbols[q]) else 0 {
      if q in symbols { SymbolLinkCount(q, symbols[q]); }
    }
    SymbolSum(symbols, rows, Sorted(symbols.Keys));
    AllLinks(rows);
  }

  lemma DegreesCountLinks(g: Graph)
    requires ListsRelated(g)
    ensures ModuleDegrees(g.modules, Sorted(g.modules.Keys)) + SymbolDegrees(g.symbols, Sorted(g.symbols.Keys))
            == |GraphLinks(g)|
  {
    RowsAreKeyed(g);
    ModuleTotal(g.modules);
    SymbolTotal(g.symbols);
    assert Links(ModuleRows(g.modules)) !! Links(SymbolRows(g.symbols));
  }

  function Flip(l: Link): Link {
    if l.CallTo? then CallFrom(l.t, l.q) else l
  }

  ghost predicate Paired(links: set<Link>) {
    forall q, t :: CallTo(q, t) in links <==> CallFrom(t, q) in links
  }

  lemma BothEnds(links: set<Link>)
    requires Paired(links)
    ensures |set l | l in links && l.CallTo?| == |set l | l in links && l.CallFrom?|
  {
    var to, from := set l | l in links && l.CallTo?, set l | l in links && l.CallFrom?;
    forall l | l in from ensures exists k :: k in to && Flip(k) == l {
      assert CallTo(l.p, l.q) in to && Flip(CallTo(l.p, l.q)) == l;
    }
    forall k | k in to ensures Flip(k) in from {
      assert k == CallTo(k.q, k.t);
    }
    assert from == set k | k in to :: Flip(k);
    ImageSize(to, Flip, from);
  }

  /** Every call is counted twice: at its caller and at its callee. */
  lemma CallsCountTwice(g: Graph, links: set<Link>)
    requires Mirrored(g.symbols) && forall l :: l in links <==> Related(g, l)
    ensures |set l | l in links && l.CallTo?| == |set l | l in links && l.CallFrom?|
  {
    forall q, t ensures CallTo(q, t) in links <==> CallFrom(t, q) in links {
      assert Related(g, CallTo(q, t)) <==> Related(g, CallFrom(t, q));
    }
    BothEnds(links);
  }

  lemma BuiltSymbolTests(w: World, c: Canon, tree: Tree, q: string)
    requires q in Build(w, c, tree).symbols
    ensures TestsListed(Build(w, c, tree), q)
  {
    var g := Build(w, c, tree);
    BuiltSymbols(w, c, tree);
    FinishedTests(w, g.files, tree, g.tests, q);
  }

  lemma FinishedTests(w: World, files: map<Path, FileRecord>, tree: Tree, tests: map<Path, TestRecord>, q: string)
    requires q in Finished(w, files, tree, tests)
    ensures var s := Finished(w, files, tree, tests)[q];
            Enumerates(s.tests, iset t | t in tests && s.file in tests[t].targets)
  {
    var symbols := WithCalls(w, files, tree, Sites(w, tree, files.Keys));
    InversionKeeps(symbols, tests, q);
    SortedEnumerates(TestsOf(tests, symbols[q].file), iset t | t in tests && symbols[q].file in tests[t].targets);
  }

  lemma BuiltModuleLists(w: World, c: Canon, tree: Tree, m: ModuleId)
    requires m in Build(w, c, tree).modules
    ensures ModuleListed(Build(w, c, tree), m)
  {
    var table := ImportRows(w, c, tree, Indexed(w, c.modules, tree));
    BuiltTable(w, c, tree);
    ModuleExactly(w, c, tree, m);
    forall d ensures d in c.info(m).declared <==> Edge(m, d, "declared") in BuildDependencies(c, table) {
      EdgeKeys(c, table, Edge(m, d, "declared"));
    }
  }

  lemma BuiltListsRelated(w: World, c: Canon, tree: Tree)
    ensures ListsRelated(Build(w, c, tree))
  {
    var g := Build(w, c, tree);
    forall m | m in g.modules ensures ModuleListed(g, m) {
      BuiltModuleLists(w, c, tree, m);
    }
    InverseCallsExact(w, c, tree);
    forall q | q in g.symbols ensures TestsListed(g, q) {
      BuiltSymbolTests(w, c, tree, q);
    }
  }

  lemma BuiltCounts(w: World, c: Canon, tree: Tree)
    ensures var g := Build(w, c, tree);
            && g.entityCount == |c.header.domains| + |c.header.owners| + |c.header.languages|
                                + |g.modules| + |g.files| + |g.symbols| + |g.tests| + |g.validators|
            && g.relationshipCount
               == ModuleDegrees(g.modules, Sorted(g.modules.Keys)) + SymbolDegrees(g.symbols, Sorted(g.symbols.Keys))
  {
  }

  /** The relationship count of a built graph is the number of its links, where every call counts
      at both ends; the entity count is the size of its sections. */
  lemma CountsExactly(w: World, c: Canon, tree: Tree)
    ensures var g := Build(w, c, tree);
            && (forall l :: l in GraphLinks(g) <==> Related(g, l))
            && g.relationshipCount == |GraphLinks(g)|
            && |set l | l in GraphLinks(g) && l.CallTo?| == |set l | l in GraphLinks(g) && l.CallFrom?|
            && g.entityCount == |c.header.domains| + |c.header.owners| + |c.header.languages|
                                + |g.modules| + |g.files| + |g.symbols| + |g.tests| + |g.validators|
  {
    var g := Build(w, c, tree);
    BuiltListsRelated(w, c, tree);
    BuiltCounts(w, c, tree);
    GraphCounts(g);
  }

  lemma GraphCounts(g: Graph)
    requires ListsRelated(g)
    ensures forall l :: l in GraphLinks(g) <==> Related(g, l)
    ensures |set l | l in GraphLinks(g) && l.CallTo?| == |set l | l in GraphLinks(g) && l.CallFrom?|
    ensures ModuleDegrees(g.modules, Sorted(g.modules.Keys)) + SymbolDegrees(g.symbols, Sorted(g.symbols.Keys))
            == |GraphLinks(g)|
  {
    forall l ensures l in GraphLinks(g) <==> Related(g, l) {
      LinksAreRelated(g, l);
    }
    CallsCountTwice(g, GraphLinks(g));
    DegreesCountLinks(g);
  }
}
