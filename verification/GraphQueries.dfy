/** Map-accelerated lookups (tools/repo_index.py, build_maps, query_with_maps): they answer as
    the linear queries do. */
module GraphQueries {
  import opened Ordering
  import opened RepoGraph
  import opened GraphDocument

  type Groups = map<string, seq<string>>

  datatype Maps = Maps(byQual: map<string, Row<Symbol>>, byName: Groups, byFile: Groups, byModule: Groups, testsByModule: Groups)

  // ---- What the maps hold ----

  /** Keys of the rows of one group, in document order. */
  function Group<T>(rows: seq<Row<T>>, field: Row<T> -> string, g: string): seq<string> {
    if rows == [] then []
    else
      var rest := Group(rows[..|rows| - 1], field, g);
      if field(rows[|rows| - 1]) == g then rest + [rows[|rows| - 1].key] else rest
  }

  function GroupNames<T>(rows: seq<Row<T>>, field: Row<T> -> string): set<string> {
    set i | 0 <= i < |rows| :: field(rows[i])
  }

  function SortedGroups<T>(rows: seq<Row<T>>, field: Row<T> -> string): Groups {
    map g | g in GroupNames(rows, field) :: Sort(Group(rows, field, g))
  }

  /** Later rows override earlier ones of the same key. */
  function LastByKey<T>(rows: seq<Row<T>>): map<string, Row<T>> {
    if rows == [] then map[] else LastByKey(rows[..|rows| - 1])[rows[|rows| - 1].key := rows[|rows| - 1]]
  }

  function SymbolName(r: Row<Symbol>): string { r.value.name }
  function SymbolFile(r: Row<Symbol>): string { r.value.file }
  function SymbolModule(r: Row<Symbol>): string { r.value.moduleId }
  function TestModule(r: Row<TestRecord>): string { r.value.moduleId }

  function MapsFor(doc: Document): Maps {
    Maps(LastByKey(doc.symbols), SortedGroups(doc.symbols, SymbolName), SortedGroups(doc.symbols, SymbolFile),
         SortedGroups(doc.symbols, SymbolModule), SortedGroups(doc.tests, TestModule))
  }

  /** `setdefault(...).append(...)` over the rows, then every list sorted. */
  method CollectGroups<T>(rows: seq<Row<T>>, field: Row<T> -> string) returns (groups: Groups)
    ensures groups == SortedGroups(rows, field)
  {
    groups := map[];
    for i := 0 to |rows|
      invariant groups.Keys == GroupNames(rows[..i], field)
      invariant forall g | g in groups :: groups[g] == Group(rows[..i], field, g)
    {
      var g := field(rows[i]);
      assert rows[..i + 1][..i] == rows[..i];
      NoSuchGroup(rows[..i], field, g);
      groups := groups[g := (if g in groups then groups[g] else []) + [rows[i].key]];
    }
    assert rows[..|rows|] == rows;
    groups := map g | g in groups :: Sort(groups[g]);
  }

  lemma {:induction false} NoSuchGroup<T>(rows: seq<Row<T>>, field: Row<T> -> string, g: string)
    ensures g !in GroupNames(rows, field) ==> Group(rows, field, g) == []
  {
    if rows != [] {
      NoSuchGroup(rows[..|rows| - 1], field, g);
      assert forall i | 0 <= i < |rows| - 1 :: rows[..|rows| - 1][i] == rows[i];
    }
  }

  /** `build_maps` */
  method BuildMaps(doc: Document) returns (maps: Maps)
    ensures maps == MapsFor(doc)
  {
    var byQual: map<string, Row<Symbol>> := map[];
    for i := 0 to |doc.symbols|
      invariant byQual == LastByKey(doc.symbols[..i])
    {
      assert doc.symbols[..i + 1][..i] == doc.symbols[..i];
      byQual := byQual[doc.symbols[i].key := doc.symbols[i]];
    }
    assert doc.symbols[..|doc.symbols|] == doc.symbols;
    var byName := CollectGroups(doc.symbols, SymbolName);
    var byFile := CollectGroups(doc.symbols, SymbolFile);
    var byModule := CollectGroups(doc.symbols, SymbolModule);
    var testsByModule := CollectGroups(doc.tests, TestModule);
    maps := Maps(byQual, byName, byFile, byModule, testsByModule);
  }

  // ---- Queries over the maps ----

  function Lookup(byQual: map<string, Row<Symbol>>, quals: seq<string>): seq<Row<Symbol>>
    requires forall q | q in quals :: q in byQual
  {
    seq(|quals|, i requires 0 <= i < |quals| => byQual[quals[i]])
  }

  ghost predicate MapsOk(maps: Maps) {
    forall n, q | n in maps.byName && q in maps.byName[n] :: q in maps.byQual
  }

  function QuerySymbolWithMaps(maps: Maps, name: string): seq<Row<Symbol>>
    requires MapsOk(maps)
  {
    if name in maps.byQual then [maps.byQual[name]]
    else Lookup(maps.byQual, if name in maps.byName then maps.byName[name] else [])
  }

  /** `query_with_maps` */
  function QueryWithMaps(doc: Document, maps: Maps, kind: Kind, name: string): Answer
    requires MapsOk(maps)
  {
    match kind
    case SYMBOL => Symbols(QuerySymbolWithMaps(maps, name))
    case TESTS => QueryTests(doc, name, QuerySymbolWithMaps(maps, name))
    case _ => RunQuery(doc, kind, name)
  }

  // ---- The maps are right ----

  ghost predicate UniqueKeys<T>(rows: seq<Row<T>>) {
    forall i, j | 0 <= i < j < |rows| :: rows[i].key != rows[j].key
  }

  lemma {:induction false} LastByKeyHolds<T>(rows: seq<Row<T>>)
    ensures forall k :: k in LastByKey(rows) <==> k in Keys(rows)
    ensures forall k | k in LastByKey(rows) :: LastByKey(rows)[k].key == k && LastByKey(rows)[k] in rows
  {
    if rows != [] {
      LastByKeyHolds(rows[..|rows| - 1]);
      assert Keys(rows) == Keys(rows[..|rows| - 1]) + [rows[|rows| - 1].key];
    }
  }

  lemma {:induction false} GroupIsFilter<T>(rows: seq<Row<T>>, field: Row<T> -> string, wanted: Row<T> -> bool, g: string)
    requires forall r :: wanted(r) <==> field(r) == g
    ensures Group(rows, field, g) == Keys(Filter(rows, wanted))
  {
    if rows != [] {
      GroupIsFilter(rows[..|rows| - 1], field, wanted, g);
    }
  }

  lemma {:induction false} FilterIsPart<T>(rows: seq<Row<T>>, wanted: Row<T> -> bool)
    ensures forall r :: r in Filter(rows, wanted) <==> r in rows && wanted(r)
  {
    if rows != [] {
      FilterIsPart(rows[..|rows| - 1], wanted);
      assert rows == rows[..|rows| - 1] + [rows[|rows| - 1]];
    }
  }

  lemma {:induction false} InsertByKeys<T>(r: Row<T>, rows: seq<Row<T>>, key: Row<T> -> string)
    requires forall x :: key(x) == x.key
    ensures Keys(InsertBy(r, rows, key)) == Insert(r.key, Keys(rows))
    ensures forall x :: x in InsertBy(r, rows, key) <==> x == r || x in rows
  {
    if rows != [] && Below(rows[0].key, r.key) {
      InsertByKeys(r, rows[1..], key);
      assert Keys(rows)[1..] == Keys(rows[1..]);
      assert rows == [rows[0]] + rows[1..];
    }
  }

  lemma {:induction false} SortByKeys<T>(rows: seq<Row<T>>, key: Row<T> -> string)
    requires forall x :: key(x) == x.key
    ensures Keys(SortBy(rows, key)) == Sort(Keys(rows))
    ensures forall x :: x in SortBy(rows, key) <==> x in rows
  {
    if rows != [] {
      SortByKeys(rows[1..], key);
      InsertByKeys(rows[0], SortBy(rows[1..], key), key);
      assert Keys(rows)[1..] == Keys(rows[1..]);
      assert rows == [rows[0]] + rows[1..];
    }
  }

  /** Sorting rows by key sorts the keys. */
  lemma SortRowsKeys<T>(rows: seq<Row<T>>)
    ensures Keys(SortRows(rows)) == Sort(Keys(rows))
    ensures forall x :: x in SortRows(rows) <==> x in rows
  {
    SortByKeys(rows, (r: Row<T>) => r.key);
  }

  lemma KeyDeterminesRow<T>(rows: seq<Row<T>>, a: Row<T>, b: Row<T>)
    requires UniqueKeys(rows) && a in rows && b in rows && a.key == b.key
    ensures a == b
  {
  }

  lemma InKeys<T>(rows: seq<Row<T>>, r: Row<T>)
    requires r in rows
    ensures r.key in Keys(rows)
  {
    var i :| 0 <= i < |rows| && rows[i] == r;
    assert Keys(rows)[i] == r.key;
  }

  lemma NameGroupExists(rows: seq<Row<Symbol>>, name: string)
    ensures name !in SortedGroups(rows, SymbolName) ==> Group(rows, SymbolName, name) == []
  {
    NoSuchGroup(rows, SymbolName, name);
  }

  lemma SortedQualsKnown(rows: seq<Row<Symbol>>, name: string)
    ensures forall q | q in Sort(Group(rows, SymbolName, name)) :: q in LastByKey(rows)
  {
    var wanted := (r: Row<Symbol>) => r.value.name == name;
    GroupIsFilter(rows, SymbolName, wanted, name);
    FilterIsPart(rows, wanted);
    SortRowsKeys(Filter(rows, wanted));
    LastByKeyHolds(rows);
    forall q | q in Sort(Group(rows, SymbolName, name)) ensures q in LastByKey(rows) {
      var i :| 0 <= i < |Keys(SortRows(Filter(rows, wanted)))| && Keys(SortRows(Filter(rows, wanted)))[i] == q;
      InKeys(rows, SortRows(Filter(rows, wanted))[i]);
    }
  }

  lemma MapsForOk(doc: Document)
    ensures MapsOk(MapsFor(doc))
  {
    forall n, q | n in MapsFor(doc).byName && q in MapsFor(doc).byName[n] ensures q in MapsFor(doc).byQual {
      SortedQualsKnown(doc.symbols, n);
    }
  }

  /** By name: the sorted qualified names, looked up, are the sorted rows. */
  lemma NamedAgree(rows: seq<Row<Symbol>>, name: string)
    requires UniqueKeys(rows)
    requires forall q | q in Sort(Group(rows, SymbolName, name)) :: q in LastByKey(rows)
    ensures Lookup(LastByKey(rows), Sort(Group(rows, SymbolName, name)))
            == SortRows(Filter(rows, (r: Row<Symbol>) => r.value.name == name))
  {
    var wanted := (r: Row<Symbol>) => r.value.name == name;
    var found := SortRows(Filter(rows, wanted));
    GroupIsFilter(rows, SymbolName, wanted, name);
    FilterIsPart(rows, wanted);
    SortRowsKeys(Filter(rows, wanted));
    LastByKeyHolds(rows);
    forall i | 0 <= i < |found| ensures LastByKey(rows)[Keys(found)[i]] == found[i] {
      KeyDeterminesRow(rows, LastByKey(rows)[Keys(found)[i]], found[i]);
    }
  }

  lemma {:induction false} UniqueFilter(rows: seq<Row<Symbol>>, name: string)
    requires UniqueKeys(rows)
    ensures var exact := Filter(rows, (r: Row<Symbol>) => r.key == name);
            exact == if name in LastByKey(rows) then [LastByKey(rows)[name]] else []
  {
    if rows != [] {
      var init := rows[..|rows| - 1];
      UniqueFilter(init, name);
      LastByKeyHolds(init);
      if rows[|rows| - 1].key == name {
        assert name !in Keys(init);
      }
    }
  }

  lemma SymbolQueriesAgree(doc: Document, name: string)
    requires UniqueKeys(doc.symbols) && MapsOk(MapsFor(doc))
    ensures QuerySymbolWithMaps(MapsFor(doc), name) == QuerySymbol(doc, name)
  {
    UniqueFilter(doc.symbols, name);
    SortedQualsKnown(doc.symbols, name);
    NamedAgree(doc.symbols, name);
    NameGroupExists(doc.symbols, name);
  }

  /** Every query kind and every name gets the same answer, order included. */
  lemma MapsAnswerAsLinear(doc: Document, kind: Kind, name: string)
    requires UniqueKeys(doc.symbols)
    ensures MapsOk(MapsFor(doc)) && QueryWithMaps(doc, MapsFor(doc), kind, name) == RunQuery(doc, kind, name)
  {
    MapsForOk(doc);
    SymbolQueriesAgree(doc, name);
  }

  lemma {:induction false} FilterKeepsBoth(rows: seq<Row<Symbol>>, wanted: Row<Symbol> -> bool, i: nat, j: nat)
    requires i < j < |rows| && wanted(rows[i]) && wanted(rows[j])
    ensures |Filter(rows, wanted)| >= 2
  {
    var init := rows[..|rows| - 1];
    if j < |init| {
      FilterKeepsBoth(init, wanted, i, j);
    } else {
      FilterIsPart(init, wanted);
      assert init[i] in init && init[i] in Filter(init, wanted);
    }
  }

  /** Two rows of one qualified name: the linear query finds both, the maps hold the last. */
  lemma ClashingNameIsAnsweredOnce(doc: Document, i: nat, j: nat)
    requires i < j < |doc.symbols| && doc.symbols[i].key == doc.symbols[j].key
    ensures MapsOk(MapsFor(doc))
    ensures |QuerySymbolWithMaps(MapsFor(doc), doc.symbols[i].key)| == 1
    ensures |QuerySymbol(doc, doc.symbols[i].key)| >= 2
  {
    MapsForOk(doc);
    FilterKeepsBoth(doc.symbols, (r: Row<Symbol>) => r.key == doc.symbols[i].key, i, j);
    LastByKeyHolds(doc.symbols);
    InKeys(doc.symbols, doc.symbols[i]);
  }

  /** And unique qualified names are needed: the maps answer all symbol queries as the linear
      form does exactly if no two symbols share a qualified name. */
  lemma MapsNeedUniqueNames(doc: Document)
    ensures MapsOk(MapsFor(doc))
    ensures UniqueKeys(doc.symbols)
            <==> forall name :: QueryWithMaps(doc, MapsFor(doc), SYMBOL, name) == RunQuery(doc, SYMBOL, name)
  {
    MapsForOk(doc);
    if UniqueKeys(doc.symbols) {
      forall name ensures QueryWithMaps(doc, MapsFor(doc), SYMBOL, name) == RunQuery(doc, SYMBOL, name) {
        MapsAnswerAsLinear(doc, SYMBOL, name);
      }
    } else {
      var i, j :| 0 <= i < j < |doc.symbols| && doc.symbols[i].key == doc.symbols[j].key;
      ClashingNameIsAnsweredOnce(doc, i, j);
      assert QueryWithMaps(doc, MapsFor(doc), SYMBOL, doc.symbols[i].key) != RunQuery(doc, SYMBOL, doc.symbols[i].key);
    }
  }

  /** Two symbols `f` that both call themselves "a:f". */
  lemma ClashingNameExample(f: Symbol, g: Symbol)
    ensures var doc := Document([], [], [Row("a:f", f), Row("a:f", g)], [], [], [], []);
            && MapsOk(MapsFor(doc))
            && |QuerySymbolWithMaps(MapsFor(doc), "a:f")| == 1
            && |QuerySymbol(doc, "a:f")| >= 2
  {
    ClashingNameIsAnsweredOnce(Document([], [], [Row("a:f", f), Row("a:f", g)], [], [], [], []), 0, 1);
  }
}
