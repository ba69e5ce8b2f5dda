/** What every query answers about the document of a graph, in terms of the graph
    (tools/repo_graph.py, run_query and the query functions). */
module QueryAnswers {
  import opened Wrappers
  import opened Ordering
  import opened RepoTree
  import opened RepoGraph
  import opened GraphDocument
  import opened GraphQueries
  import opened GraphValidator
  import opened ReportedProblems

  /** The wanted records of one section, in order of their keys. */
  ghost predicate Chosen<T(!new)>(rows: seq<Row<T>>, m: map<string, T>, wanted: iset<string>) {
    && Increasing(Keys(rows))
    && forall r :: r in rows <==> r.key in wanted && r.key in m && r.value == m[r.key]
  }

  /** The symbol of that qualified name, else all symbols of that name. */
  ghost predicate Found(symbols: RepoGraph.Symbols, name: string, q: string) {
    q in symbols && if name in symbols then q == name else symbols[q].name == name
  }

  ghost predicate OwnerAnswers(owners: seq<Owner>, g: Graph, name: string, a: Answer) {
    if exists o :: o in owners && o.id == name
    then
      && a.OneOwner?
      && (exists i :: && 0 <= i < |owners| && owners[i] == a.owner && owners[i].id == name
                      && forall j | 0 <= j < i :: owners[j].id != name)
      && Enumerates(a.modules, iset m | m in g.modules && g.modules[m].info.owner.id == name)
      && Enumerates(a.files, iset p | p in g.files && g.files[p].owner.id == name)
    else a == Nothing
  }

  /** Tests of a module, else of the symbols of that name, else of a file. */
  ghost predicate TestAnswers(g: Graph, name: string, a: Answer) {
    if name in g.modules then
      a.ModuleTests? && a.name == name && Chosen(a.tests, g.tests, iset t | t in g.tests && g.tests[t].moduleId == name)
    else if exists q :: Found(g.symbols, name, q) then
      && a.SymbolTests? && a.name == name
      && Enumerates(a.direct, iset q, t | Found(g.symbols, name, q) && t in g.symbols[q].tests :: t)
      && Enumerates(a.inherited, iset t |
                      t in g.tests && exists q :: Found(g.symbols, name, q) && g.symbols[q].moduleId == g.tests[t].moduleId)
    else if name in g.files then
      a.FileTests? && a.name == name && Chosen(a.tests, g.tests, iset t | t in g.tests && (t == name || name in g.tests[t].targets))
    else a == Nothing
  }

  /** What a query is for. */
  ghost predicate Answers(owners: seq<Owner>, g: Graph, kind: Kind, name: string, a: Answer) {
    match kind
    case MODULE => a == if name in g.modules then OneModule(Row(name, g.modules[name])) else Nothing
    case FILE => a == if name in g.files then OneFile(Row(name, g.files[name])) else Nothing
    case SYMBOL => a.Symbols? && Chosen(a.symbols, g.symbols, iset q | Found(g.symbols, name, q))
    case OWNER => OwnerAnswers(owners, g, name, a)
    case DEPS =>
      a == if name in g.modules then Deps(name, g.modules[name].info.declared, g.modules[name].actual) else Nothing
    case DEPENDENTS => a == if name in g.modules then Dependents(name, g.modules[name].dependedOnBy) else Nothing
    case TESTS => TestAnswers(g, name, a)
    case CONTRACT =>
      a == if name in g.modules
           then Contract(name, g.modules[name].info.contract, g.modules[name].info.routeKeys) else Nothing
  }

  // ---- Listings ----

  lemma {:induction false} FindExactly<T>(rows: seq<Row<T>>, key: string)
    ensures match Find(rows, key)
            case None => forall r | r in rows :: r.key != key
            case Some(r) => r in rows && r.key == key
  {
    if rows != [] && rows[0].key != key {
      FindExactly(rows[1..], key);
      assert rows == [rows[0]] + rows[1..];
    }
  }

  lemma FindListed<T(!new)>(m: map<string, T>, key: string)
    ensures Find(Listing(m), key) == if key in m then Some(Row(key, m[key])) else None
  {
    FindExactly(Listing(m), key);
    var found := Find(Listing(m), key);
    if found.Some? {
      ListedRow(m, found.value);
    }
    if key in m {
      var i := ListedAt(m, key);
      assert Listing(m)[i] in Listing(m);
    }
  }

  lemma {:induction false} FilterInOrder<T>(rows: seq<Row<T>>, wanted: Row<T> -> bool)
    requires Increasing(Keys(rows))
    ensures Increasing(Keys(Filter(rows, wanted)))
  {
    if rows != [] {
      var init, last := rows[..|rows| - 1], rows[|rows| - 1];
      assert Keys(init) == Keys(rows)[..|rows| - 1];
      FilterInOrder(init, wanted);
      var rest := Filter(init, wanted);
      forall i | 0 <= i < |rest| ensures Below(rest[i].key, last.key) {
        var j := FilterOrigin(init, wanted, i);
        assert Keys(rows)[j] == rest[i].key && Keys(rows)[|rows| - 1] == last.key;
      }
      assert Keys(rest + [last]) == Keys(rest) + [last.key];
      OneMoreInOrder(Keys(rest), last.key);
    }
  }

  lemma {:induction false} FilterOrigin<T>(rows: seq<Row<T>>, wanted: Row<T> -> bool, i: nat) returns (j: nat)
    requires i < |Filter(rows, wanted)|
    ensures j < |rows| && rows[j] == Filter(rows, wanted)[i]
  {
    var init := rows[..|rows| - 1];
    if i < |Filter(init, wanted)| {
      j := FilterOrigin(init, wanted, i);
    } else {
      j := |init|;
    }
  }

  lemma OneMoreInOrder(xs: seq<string>, x: string)
    requires Increasing(xs) && forall i | 0 <= i < |xs| :: Below(xs[i], x)
    ensures Increasing(xs + [x])
  {
  }

  lemma FilterListed<T(!new)>(m: map<string, T>, wanted: Row<T> -> bool, keys: iset<string>)
    requires forall k | k in m :: wanted(Row(k, m[k])) <==> k in keys
    ensures Chosen(Filter(Listing(m), wanted), m, keys)
  {
    var rows := Listing(m);
    ListingRows(m);
    SortedListing(m.Keys);
    FilterInOrder(rows, wanted);
    FilterIsPart(rows, wanted);
    forall r ensures r in Filter(rows, wanted) <==> r.key in keys && r.key in m && r.value == m[r.key] {
      ListedExactly(m, r);
      WantedExactly(m, wanted, keys, r);
    }
  }

  lemma WantedExactly<T(!new)>(m: map<string, T>, wanted: Row<T> -> bool, keys: iset<string>, r: Row<T>)
    requires forall k | k in m :: wanted(Row(k, m[k])) <==> k in keys
    ensures r.key in m && r.value == m[r.key] ==> (wanted(r) <==> r.key in keys)
  {
    if r.key in m && r.value == m[r.key] {
      assert r == Row(r.key, m[r.key]);
    }
  }

  lemma ListedExactly<T(!new)>(m: map<string, T>, r: Row<T>)
    ensures r in Listing(m) <==> r.key in m && r.value == m[r.key]
  {
    if r in Listing(m) {
      ListedRow(m, r);
    }
    if r.key in m && r.value == m[r.key] {
      var i := ListedAt(m, r.key);
    }
  }

  lemma DistinctKeys<T>(rows: seq<Row<T>>)
    requires Increasing(Keys(rows))
    ensures NoDuplicates(Keys(rows))
  {
    forall i, j | 0 <= i < j < |rows| ensures Keys(rows)[i] != Keys(rows)[j] {
      BelowAsymmetric(Keys(rows)[i], Keys(rows)[j]);
    }
  }

  lemma ChosenKeys<T(!new)>(rows: seq<Row<T>>, m: map<string, T>, keys: iset<string>)
    requires Chosen(rows, m, keys)
    ensures Enumerates(Sort(Keys(rows)), iset k | k in m && k in keys)
  {
    DistinctKeys(rows);
    SortIsSorted(Keys(rows));
    var s := set k | k in Keys(rows);
    forall k ensures k in s <==> k in m && k in keys {
      if k in s {
        var i :| 0 <= i < |rows| && Keys(rows)[i] == k;
        assert rows[i] in rows;
      }
      if k in m && k in keys {
        InKeys(rows, Row(k, m[k]));
      }
    }
    SortedEnumerates(s, iset k | k in m && k in keys);
  }

  lemma ChosenSorted<T(!new)>(rows: seq<Row<T>>, m: map<string, T>, keys: iset<string>)
    requires Chosen(rows, m, keys)
    ensures Chosen(SortRows(rows), m, keys)
  {
    SortRowsKeys(rows);
    DistinctKeys(rows);
    SortIncreasing(Keys(rows));
  }

  lemma SomeChosen<T(!new)>(rows: seq<Row<T>>, m: map<string, T>, keys: iset<string>)
    requires Chosen(rows, m, keys) && rows != []
    ensures exists k :: k in keys && k in m
  {
    assert rows[0] in rows;
  }

  // ---- The queries ----

  lemma SymbolHits(doc: Document, symbols: RepoGraph.Symbols, name: string)
    requires doc.symbols == Listing(symbols)
    ensures Chosen(QuerySymbol(doc, name), symbols, iset q | Found(symbols, name, q))
  {
    var exact := (r: Row<Symbol>) => r.key == name;
    var named := (r: Row<Symbol>) => r.value.name == name;
    FilterListed(symbols, exact, iset q | q in symbols && q == name);
    FilterListed(symbols, named, iset q | q in symbols && symbols[q].name == name);
    var hits := Filter(doc.symbols, exact);
    if name in symbols {
      assert Row(name, symbols[name]) in hits;
    } else {
      if hits != [] {
        SomeChosen(hits, symbols, iset q | q in symbols && q == name);
      }
      ChosenSorted(Filter(doc.symbols, named), symbols, iset q | q in symbols && symbols[q].name == name);
    }
  }

  lemma {:induction false} OwnerFound(owners: seq<Owner>, name: string)
    ensures match FindOwner(owners, name)
            case None => forall o | o in owners :: o.id != name
            case Some(o) =>
              exists i :: && 0 <= i < |owners| && owners[i] == o && owners[i].id == name
                          && forall j | 0 <= j < i :: owners[j].id != name
  {
    if owners != [] && owners[0].id != name {
      OwnerFound(owners[1..], name);
      assert owners == [owners[0]] + owners[1..];
      var found := FindOwner(owners[1..], name);
      if found.Some? {
        var i :| && 0 <= i < |owners[1..]| && owners[1..][i] == found.value && owners[1..][i].id == name
                 && forall j | 0 <= j < i :: owners[1..][j].id != name;
        assert owners[i + 1] == found.value;
        assert forall j | 0 < j < i + 1 :: owners[j] == owners[1..][j - 1];
      }
    }
  }

  lemma ModulesOwned(modules: map<ModuleId, ModuleRecord>, name: string)
    ensures Enumerates(Sort(Keys(Filter(Listing(modules), (r: Row<ModuleRecord>) => r.value.info.owner.id == name))),
                       iset m | m in modules && modules[m].info.owner.id == name)
  {
    var owned := iset m | m in modules && modules[m].info.owner.id == name;
    var wanted := (r: Row<ModuleRecord>) => r.value.info.owner.id == name;
    FilterListed(modules, wanted, owned);
    ChosenKeys(Filter(Listing(modules), wanted), modules, owned);
    assert owned == iset m | m in modules && m in owned;
  }

  lemma FilesOwned(files: map<Path, FileRecord>, name: string)
    ensures Enumerates(Sort(Keys(Filter(Listing(files), (r: Row<FileRecord>) => r.value.owner.id == name))),
                       iset p | p in files && files[p].owner.id == name)
  {
    var owned := iset p | p in files && files[p].owner.id == name;
    var wanted := (r: Row<FileRecord>) => r.value.owner.id == name;
    FilterListed(files, wanted, owned);
    ChosenKeys(Filter(Listing(files), wanted), files, owned);
    assert owned == iset p | p in files && p in owned;
  }

  lemma OwnerQuery(doc: Document, g: Graph, name: string)
    requires doc.modules == Listing(g.modules) && doc.files == Listing(g.files)
    ensures OwnerAnswers(doc.owners, g, name, QueryOwner(doc, name))
  {
    OwnerFound(doc.owners, name);
    ModulesOwned(g.modules, name);
    FilesOwned(g.files, name);
  }

  lemma HitsAnswer(g: Graph, name: string, hits: seq<Row<Symbol>>, tests: seq<Row<TestRecord>>)
    requires Chosen(hits, g.symbols, iset q | Found(g.symbols, name, q)) && tests == Listing(g.tests)
    ensures hits != [] <==> exists q :: Found(g.symbols, name, q)
    ensures Enumerates(Sorted(DirectTests(hits)), iset q, t | Found(g.symbols, name, q) && t in g.symbols[q].tests :: t)
    ensures Enumerates(Sorted(InheritedTests(tests, hits)),
                       iset t | t in g.tests && exists q :: Found(g.symbols, name, q) && g.symbols[q].moduleId == g.tests[t].moduleId)
  {
    if hits != [] { assert hits[0] in hits; }
    forall q | Found(g.symbols, name, q) ensures Row(q, g.symbols[q]) in hits {
    }
    SortedEnumerates(DirectTests(hits), iset q, t | Found(g.symbols, name, q) && t in g.symbols[q].tests :: t);
    forall t ensures t in InheritedTests(tests, hits) <==>
                       t in g.tests && exists q :: Found(g.symbols, name, q) && g.symbols[q].moduleId == g.tests[t].moduleId {
      InheritedExactly(g, name, hits, tests, t);
    }
    SortedEnumerates(InheritedTests(tests, hits),
                     iset t | t in g.tests && exists q :: Found(g.symbols, name, q) && g.symbols[q].moduleId == g.tests[t].moduleId);
  }

  lemma InheritedExactly(g: Graph, name: string, hits: seq<Row<Symbol>>, tests: seq<Row<TestRecord>>, t: Path)
    requires Chosen(hits, g.symbols, iset q | Found(g.symbols, name, q)) && tests == Listing(g.tests)
    ensures t in InheritedTests(tests, hits) <==>
              t in g.tests && exists q :: Found(g.symbols, name, q) && g.symbols[q].moduleId == g.tests[t].moduleId
  {
    if t in InheritedTests(tests, hits) {
      var s, r :| s in hits && r in tests && r.value.moduleId == s.value.moduleId && r.key == t;
      ListedExactly(g.tests, r);
      assert Found(g.symbols, name, s.key);
    }
    if t in g.tests {
      ListedExactly(g.tests, Row(t, g.tests[t]));
      if q :| Found(g.symbols, name, q) && g.symbols[q].moduleId == g.tests[t].moduleId {
        assert Row(q, g.symbols[q]) in hits;
      }
    }
  }

  lemma TestQuery(doc: Document, g: Graph, name: string)
    requires Renders(doc, g)
    ensures TestAnswers(g, name, QueryTests(doc, name, QuerySymbol(doc, name)))
  {
    SymbolHits(doc, g.symbols, name);
    HitsAnswer(g, name, QuerySymbol(doc, name), doc.tests);
    FindListed(g.modules, name);
    FindListed(g.files, name);
    FilterListed(g.tests, (t: Row<TestRecord>) => t.value.moduleId == name, iset t | t in g.tests && g.tests[t].moduleId == name);
    FilterListed(g.tests, (t: Row<TestRecord>) => t.key == name || name in t.value.targets,
                 iset t | t in g.tests && (t == name || name in g.tests[t].targets));
  }

  /** Every query about the document of a graph answers from the graph: the record of that name,
      the symbols and tests that are meant, all of them, and in order. */
  lemma QueriesAnswer(doc: Document, g: Graph, kind: Kind, name: string)
    requires Renders(doc, g)
    ensures Answers(doc.owners, g, kind, name, RunQuery(doc, kind, name))
  {
    FindListed(g.modules, name);
    FindListed(g.files, name);
    match kind
    case SYMBOL => SymbolHits(doc, g.symbols, name);
    case OWNER => OwnerQuery(doc, g, name);
    case TESTS => TestQuery(doc, g, name);
    case _ =>
  }

  // ---- The maps ----

  /** Each group lists the keys of its records in order, and there is no empty group. */
  ghost predicate GroupsBy<T(!new)>(groups: Groups, m: map<string, T>, field: Row<T> -> string) {
    && (forall g :: g in groups <==> exists k :: k in m && field(Row(k, m[k])) == g)
    && forall g | g in groups :: Enumerates(groups[g], iset k | k in m && field(Row(k, m[k])) == g)
  }

  lemma GroupNamesExactly<T(!new)>(m: map<string, T>, field: Row<T> -> string, g: string)
    ensures g in GroupNames(Listing(m), field) <==> exists k :: k in m && field(Row(k, m[k])) == g
  {
    var rows := Listing(m);
    if i :| 0 <= i < |rows| && field(rows[i]) == g {
      RowIsListed(m, i);
    }
    if k :| k in m && field(Row(k, m[k])) == g {
      var i := ListedAt(m, k);
      assert field(rows[i]) == g;
    }
  }

  lemma GroupedExactly<T(!new)>(m: map<string, T>, field: Row<T> -> string)
    ensures GroupsBy(SortedGroups(Listing(m), field), m, field)
  {
    var rows, groups := Listing(m), SortedGroups(Listing(m), field);
    forall g ensures g in groups <==> exists k :: k in m && field(Row(k, m[k])) == g {
      GroupNamesExactly(m, field, g);
    }
    forall g | g in groups ensures Enumerates(groups[g], iset k | k in m && field(Row(k, m[k])) == g) {
      GroupExactly(m, field, g);
    }
  }

  lemma GroupExactly<T(!new)>(m: map<string, T>, field: Row<T> -> string, g: string)
    ensures Enumerates(Sort(Group(Listing(m), field, g)), iset k | k in m && field(Row(k, m[k])) == g)
  {
    var wanted := (r: Row<T>) => field(r) == g;
    var keys := iset k | k in m && field(Row(k, m[k])) == g;
    GroupIsFilter(Listing(m), field, wanted, g);
    FilterListed(m, wanted, keys);
    ChosenKeys(Filter(Listing(m), wanted), m, keys);
    assert keys == iset k | k in m && k in keys;
  }

  lemma GroupedBy<T(!new)>(m: map<string, T>, field: Row<T> -> string, value: Row<T> -> string)
    requires forall k | k in m :: field(Row(k, m[k])) == value(Row(k, m[k]))
    ensures GroupsBy(SortedGroups(Listing(m), field), m, value)
  {
    GroupedExactly(m, field);
    var groups := SortedGroups(Listing(m), field);
    forall g | g in groups ensures Enumerates(groups[g], iset k | k in m && value(Row(k, m[k])) == g) {
      assert (iset k | k in m && value(Row(k, m[k])) == g) == iset k | k in m && field(Row(k, m[k])) == g;
    }
  }

  /** The maps hold every symbol under its qualified name, and group symbols and tests by name,
      file and module. */
  lemma MapsExactly(doc: Document, g: Graph)
    requires Renders(doc, g)
    ensures var maps := MapsFor(doc);
            && maps.byQual.Keys == g.symbols.Keys && (forall q | q in g.symbols :: maps.byQual[q] == Row(q, g.symbols[q]))
            && GroupsBy(maps.byName, g.symbols, (r: Row<Symbol>) => r.value.name)
            && GroupsBy(maps.byFile, g.symbols, (r: Row<Symbol>) => r.value.file)
            && GroupsBy(maps.byModule, g.symbols, (r: Row<Symbol>) => r.value.moduleId)
            && GroupsBy(maps.testsByModule, g.tests, (r: Row<TestRecord>) => r.value.moduleId)
  {
    ListingLookup(g.symbols);
    GroupedBy(g.symbols, SymbolName, (r: Row<Symbol>) => r.value.name);
    GroupedBy(g.symbols, SymbolFile, (r: Row<Symbol>) => r.value.file);
    GroupedBy(g.symbols, SymbolModule, (r: Row<Symbol>) => r.value.moduleId);
    GroupedBy(g.tests, TestModule, (r: Row<TestRecord>) => r.value.moduleId);
  }
}
