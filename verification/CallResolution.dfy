/** Call edges: resolution per file and the inverse lists (tools/repo_graph.py,
    resolve_file_calls, rebuild_called_by, resolve_symbol_calls). */
module CallResolution {
  import opened Wrappers
  import opened Ordering
  import opened RepoTree
  import opened RepoGraph

  /** One reference: a name bound in the file, else an alias of a known symbol. */
  function ResolveRef(byDotted: map<string, string>, aliases: map<string, DottedPath>, local: map<string, string>, r: string)
    : Option<string>
  {
    if r in local then Some(local[r])
    else if r in aliases && aliases[r] in byDotted then Some(byDotted[aliases[r]])
    else None
  }

  function Resolved(
    byDotted: map<string, string>, aliases: map<string, DottedPath>, local: map<string, string>, refs: set<string>)
    : set<string>
  {
    set r | r in refs && ResolveRef(byDotted, aliases, local, r).Some? :: ResolveRef(byDotted, aliases, local, r).value
  }

  /** `resolve_file_calls`: the callees of every caller of one file, sorted, never itself. */
  method ResolveFileCalls(
    byDotted: map<string, string>, aliases: map<string, DottedPath>, raw: map<string, set<string>>, local: map<string, string>)
    returns (resolved: map<string, seq<string>>)
    ensures resolved.Keys == raw.Keys
    ensures forall q | q in raw :: resolved[q] == Sorted(Resolved(byDotted, aliases, local, raw[q]) - {q})
  {
    resolved := map[];
    var callers := raw.Keys;
    while callers != {}
      invariant callers <= raw.Keys
      invariant resolved.Keys == raw.Keys - callers
      invariant forall q | q in resolved :: resolved[q] == Sorted(Resolved(byDotted, aliases, local, raw[q]) - {q})
      decreases callers
    {
      var caller :| caller in callers;
      var targets: set<string> := {};
      var refs := raw[caller];
      while refs != {}
        invariant refs <= raw[caller]
        invariant targets == Resolved(byDotted, aliases, local, raw[caller] - refs)
        decreases refs
      {
        var r :| r in refs;
        if r in local {
          targets := targets + {local[r]};
        } else if r in aliases && aliases[r] in byDotted {
          targets := targets + {byDotted[aliases[r]]};
        }
        refs := refs - {r};
        ResolvedGrows(byDotted, aliases, local, raw[caller] - refs - {r}, r);
        assert raw[caller] - refs == raw[caller] - refs - {r} + {r};
      }
      assert raw[caller] - refs == raw[caller];
      resolved := resolved[caller := Sorted(targets - {caller})];
      callers := callers - {caller};
    }
  }

  lemma ResolvedGrows(
    byDotted: map<string, string>, aliases: map<string, DottedPath>, local: map<string, string>, refs: set<string>, r: string)
    ensures Resolved(byDotted, aliases, local, refs + {r})
            == Resolved(byDotted, aliases, local, refs)
               + match ResolveRef(byDotted, aliases, local, r) { case Some(q) => {q} case None => {} }
  {
  }

  // ---- The inverse lists ----

  ghost predicate CallsDistinct(symbols: Symbols) {
    forall q | q in symbols :: NoDuplicates(symbols[q].calls)
  }

  /** Who lists `q` among the callers processed so far. */
  function CallersAmong(symbols: Symbols, done: seq<string>, q: string): seq<string> {
    if done == [] then []
    else
      var p := done[|done| - 1];
      var rest := CallersAmong(symbols, done[..|done| - 1], q);
      if p in symbols && q in symbols[p].calls then rest + [p] else rest
  }

  lemma {:induction false} CallersAmongElements(symbols: Symbols, done: seq<string>, q: string)
    requires NoDuplicates(done)
    ensures forall p :: p in CallersAmong(symbols, done, q) <==> p in done && p in symbols && q in symbols[p].calls
    ensures NoDuplicates(CallersAmong(symbols, done, q))
  {
    if done != [] {
      var init := done[..|done| - 1];
      CallersAmongElements(symbols, init, q);
      assert done == init + [done[|done| - 1]];
    }
  }

  /** Inner loop of `rebuild_called_by`: one caller joins the lists of its callees. */
  method AppendCaller(index: map<string, seq<string>>, p: string, calls: seq<string>) returns (r: map<string, seq<string>>)
    requires NoDuplicates(calls)
    ensures r.Keys == index.Keys
    ensures forall q | q in index :: r[q] == index[q] + if q in calls then [p] else []
  {
    r := index;
    for j := 0 to |calls|
      invariant r.Keys == index.Keys
      invariant forall q | q in index :: r[q] == index[q] + if q in calls[..j] then [p] else []
    {
      if calls[j] in r {
        r := r[calls[j] := r[calls[j]] + [p]];
      }
    }
    assert calls[..|calls|] == calls;
  }

  /** The index lists exactly the callers processed so far. */
  ghost predicate ListsCallers(symbols: Symbols, done: seq<string>, index: map<string, seq<string>>) {
    index.Keys == symbols.Keys && forall q | q in index :: index[q] == CallersAmong(symbols, done, q)
  }

  lemma OneMoreCaller(
    symbols: Symbols, done: seq<string>, p: string, index: map<string, seq<string>>, index': map<string, seq<string>>)
    requires ListsCallers(symbols, done, index) && p in symbols
    requires index'.Keys == index.Keys
    requires forall q | q in index :: index'[q] == index[q] + if q in symbols[p].calls then [p] else []
    ensures ListsCallers(symbols, done + [p], index')
  {
    assert (done + [p])[..|done|] == done;
  }

  /** First loop of `rebuild_called_by`: append every caller to its callees, in any order. */
  method IndexCallers(symbols: Symbols) returns (index: map<string, seq<string>>, ghost done: seq<string>)
    requires CallsDistinct(symbols)
    ensures NoDuplicates(done) && forall p :: p in done <==> p in symbols
    ensures ListsCallers(symbols, done, index)
  {
    index := map q | q in symbols :: [];
    var rest := symbols.Keys;
    done := [];
    while rest != {}
      invariant rest <= symbols.Keys
      invariant NoDuplicates(done) && forall p :: p in done <==> p in symbols && p !in rest
      invariant ListsCallers(symbols, done, index)
      decreases rest
    {
      var p :| p in rest;
      var index' := AppendCaller(index, p, symbols[p].calls);
      OneMoreCaller(symbols, done, p, index, index');
      index, rest, done := index', rest - {p}, done + [p];
    }
  }

  /** `rebuild_called_by`: the inverse of all call lists, each sorted. */
  method RebuildCalledBy(symbols: Symbols) returns (r: Symbols)
    requires CallsDistinct(symbols)
    ensures r == WithCallers(symbols)
  {
    var index, done := IndexCallers(symbols);
    forall q | q in symbols ensures Sort(index[q]) == Sorted(Callers(symbols, q)) {
      CallersListed(symbols, done, q);
    }
    r := map q | q in symbols :: symbols[q].(calledBy := Sort(index[q]));
  }

  lemma CallersListed(symbols: Symbols, done: seq<string>, q: string)
    requires NoDuplicates(done) && forall p :: p in done <==> p in symbols
    ensures Sort(CallersAmong(symbols, done, q)) == Sorted(Callers(symbols, q))
  {
    CallersAmongElements(symbols, done, q);
    SortIsSorted(CallersAmong(symbols, done, q));
    assert Callers(symbols, q) == set p | p in CallersAmong(symbols, done, q);
  }

  // ---- The full resolution ----

  function LocalMap(w: World, p: Path, text: string): map<string, string> {
    map n | n in LocalNames(Definitions(w, p, text)) :: Qualified(w, p, n)
  }

  lemma CallTargetsAreResolved(w: World, byDotted: map<string, string>, text: string, s: Site)
    ensures CallTargets(w, byDotted, text, s)
            == Resolved(byDotted, Aliases(w, s.file, text), LocalMap(w, s.file, text), s.definition.refs) - {NameOf(w, s)}
  {
    var local := LocalMap(w, s.file, text);
    forall r | r in local ensures ResolveRef(byDotted, Aliases(w, s.file, text), local, r) == Some(Qualified(w, s.file, r)) {
    }
  }
}
