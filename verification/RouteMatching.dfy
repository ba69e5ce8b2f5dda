/** The two route matchers (tools/route.py, match_route; tools/patch_surface.py,
    candidate_scores and detect_ambiguity) and why they agree. */
module RouteMatching {
  import opened Wrappers
  import opened Ordering
  import opened Strings

  datatype Route = Route(key: string, aliases: seq<string>, owner: string)

  /** How well a route matches; an exact key beats an exact alias beats a part of one, and
      within one level the longer text wins. */
  datatype Score = Score(level: nat, width: nat)

  datatype How = ExactKey | ExactAlias | AliasSubstring | Unknown

  type Lowering = string -> string

  predicate Better(a: Score, b: Score) {
    a.level > b.level || (a.level == b.level && a.width > b.width)
  }

  /** The non-empty aliases, in lower case. */
  function Aliases(lower: Lowering, aliases: seq<string>): seq<string> {
    if aliases == [] then []
    else
      var rest := Aliases(lower, aliases[..|aliases| - 1]);
      var a := aliases[|aliases| - 1];
      if a != "" then rest + [lower(a)] else rest
  }

  /** Widest alias that holds the text or lies in it. */
  function WidestHit(want: string, aliases: seq<string>): (r: Option<nat>)
    ensures r.Some? <==> exists a :: a in aliases && a != "" && (Within(want, a) || Within(a, want))
    ensures r.Some? ==> forall a | a in aliases && a != "" && (Within(want, a) || Within(a, want)) :: |a| <= r.value
    ensures r.Some? ==> exists a :: a in aliases && a != "" && (Within(want, a) || Within(a, want)) && |a| == r.value
  {
    if aliases == [] then None
    else
      var a := aliases[0];
      assert aliases == [a] + aliases[1..];
      var rest := WidestHit(want, aliases[1..]);
      if a != "" && (Within(want, a) || Within(a, want)) && (rest.None? || |a| > rest.value) then Some(|a|) else rest
  }

  /** The score of one route, if it matches at all. */
  function ScoreOf(lower: Lowering, want: string, r: Route): Option<Score> {
    var aliases := Aliases(lower, r.aliases);
    if want == lower(r.key) then Some(Score(3, |lower(r.key)|))
    else if want in aliases then Some(Score(2, |want|))
    else
      match WidestHit(want, aliases)
      case Some(width) => Some(Score(1, width))
      case None => None
  }

  /** All matching routes with their scores, in file order. */
  function Scores(lower: Lowering, want: string, routes: seq<Route>): seq<(Route, Score)> {
    if routes == [] || want == "" then []
    else
      var r := routes[|routes| - 1];
      var rest := Scores(lower, want, routes[..|routes| - 1]);
      match ScoreOf(lower, want, r)
      case Some(score) => rest + [(r, score)]
      case None => rest
  }

  /** `i` is the first place that attains the greatest score. */
  ghost predicate FirstBest(scored: seq<(Route, Score)>, i: int) {
    && 0 <= i < |scored|
    && (forall j | 0 <= j < |scored| :: !Better(scored[j].1, scored[i].1))
    && forall j | 0 <= j < i :: Better(scored[i].1, scored[j].1)
  }

  /** `candidate_scores` */
  method CandidateScores(lower: Lowering, want: string, routes: seq<Route>) returns (scored: seq<(Route, Score)>)
    ensures scored == Scores(lower, want, routes)
  {
    scored := [];
    if want == "" {
      return;
    }
    for i := 0 to |routes|
      invariant scored == Scores(lower, want, routes[..i])
    {
      var route := routes[i];
      assert routes[..i + 1][..i] == routes[..i];
      var key, aliases := lower(route.key), Aliases(lower, route.aliases);
      if want == key {
        scored := scored + [(route, Score(3, |key|))];
      } else if want in aliases {
        scored := scored + [(route, Score(2, |want|))];
      } else {
        var hits := WidestHit(want, aliases);
        if hits.Some? {
          scored := scored + [(route, Score(1, hits.value))];
        }
      }
    }
    assert routes[..|routes|] == routes;
  }

  /** Lexicographic order on the triples the loop compares. */
  predicate Above(a: (nat, nat, int), b: (nat, nat, int)) {
    a.0 > b.0 || (a.0 == b.0 && (a.1 > b.1 || (a.1 == b.1 && a.2 > b.2)))
  }

  /** The best so far is the first best of the routes seen so far. */
  ghost predicate Leads(scored: seq<(Route, Score)>, seen: int, best: Option<Route>, bestKey: (nat, nat, int)) {
    match best
    case None => scored == [] && bestKey == (0, 0, 0)
    case Some(route) =>
      && bestKey.0 > 0 && -seen < bestKey.2
      && exists i ::
           FirstBest(scored, i) && scored[i].0 == route && scored[i].1 == Score(bestKey.0, bestKey.1)
  }

  lemma NewLeader(scored: seq<(Route, Score)>, seen: int, best: Option<Route>, bestKey: (nat, nat, int), r: Route, s: Score)
    requires Leads(scored, seen, best, bestKey) && s.level > 0
    ensures Above((s.level, s.width, -seen), bestKey)
            ==> Leads(scored + [(r, s)], seen + 1, Some(r), (s.level, s.width, -seen))
    ensures !Above((s.level, s.width, -seen), bestKey) ==> Leads(scored + [(r, s)], seen + 1, best, bestKey)
  {
    var longer := scored + [(r, s)];
    if Above((s.level, s.width, -seen), bestKey) {
      assert FirstBest(longer, |scored|);
    } else {
      var i :| FirstBest(scored, i) && scored[i].0 == best.value && scored[i].1 == Score(bestKey.0, bestKey.1);
      assert FirstBest(longer, i);
    }
  }

  /** Which rule a route matched by. */
  function HowOf(lower: Lowering, want: string, best: Option<Route>): How {
    match best
    case None => Unknown
    case Some(r) =>
      if want == lower(r.key) then ExactKey
      else if want in Aliases(lower, r.aliases) then ExactAlias
      else AliasSubstring
  }

  // ---- Which route that is ----

  predicate ByKey(lower: Lowering, want: string, r: Route) {
    want == lower(r.key)
  }

  ghost predicate ByAlias(lower: Lowering, want: string, r: Route) {
    exists a :: a in r.aliases && a != "" && want == lower(a)
  }

  /** The alias, in lower case, holds the text or lies in it. */
  ghost predicate Touches(lower: Lowering, want: string, r: Route, a: string) {
    && a in r.aliases && a != "" && lower(a) != ""
    && (Within(want, lower(a)) || Within(lower(a), want))
  }

  /** The route has a touching alias of that length, and no longer one. */
  ghost predicate Reach(lower: Lowering, want: string, r: Route, width: nat) {
    && (exists a :: Touches(lower, want, r, a) && |lower(a)| == width)
    && forall a | Touches(lower, want, r, a) :: |lower(a)| <= width
  }

  /** Place `k` holds the first route with that key; where no key fits, the first with that alias;
      where no alias fits either, the first with the longest touching alias. */
  ghost predicate Wins(lower: Lowering, want: string, routes: seq<Route>, k: nat, how: How)
    requires k < |routes|
  {
    match how
    case ExactKey => ByKey(lower, want, routes[k]) && forall j | 0 <= j < k :: !ByKey(lower, want, routes[j])
    case ExactAlias =>
      && ByAlias(lower, want, routes[k])
      && (forall j | 0 <= j < |routes| :: !ByKey(lower, want, routes[j]))
      && forall j | 0 <= j < k :: !ByAlias(lower, want, routes[j])
    case AliasSubstring =>
      && (forall j | 0 <= j < |routes| :: !ByKey(lower, want, routes[j]) && !ByAlias(lower, want, routes[j]))
      && exists width ::
           && Reach(lower, want, routes[k], width)
           && (forall j, a | 0 <= j < |routes| && Touches(lower, want, routes[j], a) :: |lower(a)| <= width)
           && forall j, a | 0 <= j < k && Touches(lower, want, routes[j], a) :: |lower(a)| < width
    case Unknown => false
  }

  lemma {:induction false} AliasesHold(lower: Lowering, aliases: seq<string>, a: string)
    ensures a in Aliases(lower, aliases) <==> exists b :: b in aliases && b != "" && lower(b) == a
  {
    if aliases != [] {
      AliasesHold(lower, aliases[..|aliases| - 1], a);
      assert aliases == aliases[..|aliases| - 1] + [aliases[|aliases| - 1]];
    }
  }

  /** What the numbers of a score say of its route. */
  ghost predicate Explains(lower: Lowering, want: string, r: Route, score: Option<Score>) {
    match score
    case None => !ByKey(lower, want, r) && !ByAlias(lower, want, r) && forall a :: !Touches(lower, want, r, a)
    case Some(s) =>
      || (s == Score(3, |want|) && ByKey(lower, want, r))
      || (s == Score(2, |want|) && !ByKey(lower, want, r) && ByAlias(lower, want, r))
      || (s.level == 1 && !ByKey(lower, want, r) && !ByAlias(lower, want, r) && Reach(lower, want, r, s.width))
  }

  lemma ScoreExplains(lower: Lowering, want: string, r: Route)
    ensures Explains(lower, want, r, ScoreOf(lower, want, r))
  {
    var aliases := Aliases(lower, r.aliases);
    AliasesHold(lower, r.aliases, want);
    if !ByKey(lower, want, r) && !ByAlias(lower, want, r) {
      TouchingHits(lower, want, r);
    }
  }

  lemma TouchingHits(lower: Lowering, want: string, r: Route)
    ensures match WidestHit(want, Aliases(lower, r.aliases))
            case None => forall a :: !Touches(lower, want, r, a)
            case Some(width) => Reach(lower, want, r, width)
  {
    var aliases := Aliases(lower, r.aliases);
    forall a | Touches(lower, want, r, a) ensures lower(a) in aliases {
      AliasesHold(lower, r.aliases, lower(a));
    }
    var hit := WidestHit(want, aliases);
    if hit.Some? {
      var b :| b in aliases && b != "" && (Within(want, b) || Within(b, want)) && |b| == hit.value;
      AliasesHold(lower, r.aliases, b);
      var a :| a in r.aliases && a != "" && lower(a) == b;
      assert Touches(lower, want, r, a);
    }
  }

  predicate AtMost(score: Option<Score>, best: Score) {
    score.None? || !Better(score.value, best)
  }

  predicate LessThan(score: Option<Score>, best: Score) {
    score.None? || Better(best, score.value)
  }

  /** The first best score is that of the first route no other one beats. */
  ghost predicate Unbeaten(lower: Lowering, want: string, routes: seq<Route>, k: nat, score: Score)
    requires k < |routes|
  {
    && ScoreOf(lower, want, routes[k]) == Some(score)
    && (forall j | 0 <= j < |routes| :: AtMost(ScoreOf(lower, want, routes[j]), score))
    && forall j | 0 <= j < k :: LessThan(ScoreOf(lower, want, routes[j]), score)
  }

  lemma OneMoreScore(lower: Lowering, want: string, init: seq<Route>, r: Route)
    requires want != ""
    ensures Scores(lower, want, init + [r]) ==
              Scores(lower, want, init) + match ScoreOf(lower, want, r) { case Some(score) => [(r, score)] case None => [] }
  {
    assert (init + [r])[..|init|] == init;
  }

  lemma {:induction false} ScoresAreOfRoutes(lower: Lowering, want: string, routes: seq<Route>, j: nat, score: Score) returns (i: nat)
    requires want != "" && j < |routes| && ScoreOf(lower, want, routes[j]) == Some(score)
    ensures i < |Scores(lower, want, routes)| && Scores(lower, want, routes)[i] == (routes[j], score)
    decreases |routes|
  {
    var init, r := routes[..|routes| - 1], routes[|routes| - 1];
    assert routes == init + [r];
    OneMoreScore(lower, want, init, r);
    if j < |init| {
      i := ScoresAreOfRoutes(lower, want, init, j, score);
    } else {
      i := |Scores(lower, want, init)|;
    }
  }

  lemma {:induction false} OriginOf(lower: Lowering, want: string, routes: seq<Route>, i: nat) returns (k: nat)
    requires i < |Scores(lower, want, routes)|
    ensures var scored := Scores(lower, want, routes);
            && want != "" && k < |routes| && routes[k] == scored[i].0 && ScoreOf(lower, want, routes[k]) == Some(scored[i].1)
            && forall j | 0 <= j < k && ScoreOf(lower, want, routes[j]).Some? ::
                 exists at :: 0 <= at < i && scored[at] == (routes[j], ScoreOf(lower, want, routes[j]).value)
  {
    var init := routes[..|routes| - 1];
    var rest := Scores(lower, want, init);
    if i < |rest| {
      k := OriginOf(lower, want, init, i);
      forall j | 0 <= j < k && ScoreOf(lower, want, routes[j]).Some?
        ensures exists at :: 0 <= at < i && Scores(lower, want, routes)[at] == (routes[j], ScoreOf(lower, want, routes[j]).value)
      {
        var at :| 0 <= at < i && rest[at] == (init[j], ScoreOf(lower, want, init[j]).value);
        assert Scores(lower, want, routes)[at] == rest[at];
      }
    } else {
      k := |init|;
      forall j | 0 <= j < k && ScoreOf(lower, want, routes[j]).Some?
        ensures exists at :: 0 <= at < i && Scores(lower, want, routes)[at] == (routes[j], ScoreOf(lower, want, routes[j]).value)
      {
        var at := ScoresAreOfRoutes(lower, want, init, j, ScoreOf(lower, want, init[j]).value);
        assert rest[at] == Scores(lower, want, routes)[at];
      }
    }
  }

  lemma FirstBestIsUnbeaten(lower: Lowering, want: string, routes: seq<Route>, i: nat) returns (k: nat)
    requires FirstBest(Scores(lower, want, routes), i)
    ensures k < |routes| && routes[k] == Scores(lower, want, routes)[i].0
    ensures Unbeaten(lower, want, routes, k, Scores(lower, want, routes)[i].1)
  {
    k := OriginOf(lower, want, routes, i);
    var scored := Scores(lower, want, routes);
    forall j | 0 <= j < |routes| ensures AtMost(ScoreOf(lower, want, routes[j]), scored[i].1) {
      if ScoreOf(lower, want, routes[j]).Some? {
        var at := ScoresAreOfRoutes(lower, want, routes, j, ScoreOf(lower, want, routes[j]).value);
      }
    }
    forall j | 0 <= j < k ensures LessThan(ScoreOf(lower, want, routes[j]), scored[i].1) {
      if ScoreOf(lower, want, routes[j]).Some? {
        var at :| 0 <= at < i && scored[at] == (routes[j], ScoreOf(lower, want, routes[j]).value);
      }
    }
  }

  lemma UnbeatenWins(lower: Lowering, want: string, routes: seq<Route>, k: nat, score: Score)
    requires k < |routes| && Unbeaten(lower, want, routes, k, score)
    ensures Wins(lower, want, routes, k, HowOf(lower, want, Some(routes[k])))
  {
    forall j | 0 <= j < |routes| ensures Explains(lower, want, routes[j], ScoreOf(lower, want, routes[j])) {
      ScoreExplains(lower, want, routes[j]);
    }
    AliasesHold(lower, routes[k].aliases, want);
  }

  /** No key and no alias of the route has to do with the text. */
  ghost predicate Apart(lower: Lowering, want: string, r: Route) {
    !ByKey(lower, want, r) && !ByAlias(lower, want, r) && forall a :: !Touches(lower, want, r, a)
  }

  lemma NothingScores(lower: Lowering, want: string, routes: seq<Route>)
    ensures Scores(lower, want, routes) == [] <==> want == "" || forall r | r in routes :: Apart(lower, want, r)
  {
    if want != "" {
      forall j | 0 <= j < |routes| ensures Apart(lower, want, routes[j]) <==> ScoreOf(lower, want, routes[j]).None? {
        ScoreExplains(lower, want, routes[j]);
      }
      if j :| 0 <= j < |routes| && !Apart(lower, want, routes[j]) {
        var i := ScoresAreOfRoutes(lower, want, routes, j, ScoreOf(lower, want, routes[j]).value);
      }
      if Scores(lower, want, routes) != [] {
        var k := OriginOf(lower, want, routes, 0);
        assert !Apart(lower, want, routes[k]);
      }
    }
  }

  /** The winner and its rule; none exactly if no route has to do with the text. */
  ghost predicate Picked(lower: Lowering, want: string, routes: seq<Route>, best: Option<Route>, how: How) {
    match best
    case None => how == Unknown && (want == "" || forall r | r in routes :: Apart(lower, want, r))
    case Some(route) => exists k :: 0 <= k < |routes| && routes[k] == route && Wins(lower, want, routes, k, how)
  }

  lemma LeaderIsPicked(lower: Lowering, want: string, routes: seq<Route>, best: Option<Route>)
    requires best.None? ==> Scores(lower, want, routes) == []
    requires best.Some? ==> exists i :: FirstBest(Scores(lower, want, routes), i) && Scores(lower, want, routes)[i].0 == best.value
    ensures Picked(lower, want, routes, best, HowOf(lower, want, best))
  {
    NothingScores(lower, want, routes);
    if best.Some? {
      var i :| FirstBest(Scores(lower, want, routes), i) && Scores(lower, want, routes)[i].0 == best.value;
      var k := FirstBestIsUnbeaten(lower, want, routes, i);
      UnbeatenWins(lower, want, routes, k, Scores(lower, want, routes)[i].1);
    }
  }

  /** `match_route`: the route that wins, none exactly if no route has to do with the text. */
  method MatchRoute(lower: Lowering, want: string, routes: seq<Route>) returns (best: Option<Route>, how: How)
    ensures best.None? <==> Scores(lower, want, routes) == []
    ensures best.Some? ==>
              exists i :: FirstBest(Scores(lower, want, routes), i) && Scores(lower, want, routes)[i].0 == best.value
    ensures how == HowOf(lower, want, best)
    ensures Picked(lower, want, routes, best, how)
  {
    best, how := None, Unknown;
    if want == "" {
      return;
    }
    var bestKey: (nat, nat, int) := (0, 0, 0);
    for index := 0 to |routes|
      invariant Leads(Scores(lower, want, routes[..index]), index, best, bestKey)
      invariant how == HowOf(lower, want, best)
    {
      var route := routes[index];
      assert routes[..index + 1][..index] == routes[..index];
      var key, aliases := lower(route.key), Aliases(lower, route.aliases);
      var score, kind, width := 0, Unknown, 0;
      if want == key {
        score, kind, width := 3, ExactKey, |key|;
      } else if want in aliases {
        score, kind, width := 2, ExactAlias, |want|;
      } else {
        var hits := WidestHit(want, aliases);
        if hits.None? {
          continue;
        }
        score, kind, width := 1, AliasSubstring, hits.value;
      }
      NewLeader(Scores(lower, want, routes[..index]), index, best, bestKey, route, Score(score, width));
      if Above((score, width, -index), bestKey) {
        best, bestKey, how := Some(route), (score, width, -index), kind;
      }
    }
    assert routes[..|routes|] == routes;
    LeaderIsPicked(lower, want, routes, best);
  }

  // ---- Ambiguity ----

  function Tied(scored: seq<(Route, Score)>, top: Score): seq<Route> {
    if scored == [] then []
    else
      var rest := Tied(scored[..|scored| - 1], top);
      if scored[|scored| - 1].1 == top then rest + [scored[|scored| - 1].0] else rest
  }

  function KeyOf(r: Route): string { r.key }

  lemma {:induction false} TiedElements(scored: seq<(Route, Score)>, top: Score)
    ensures forall r :: r in Tied(scored, top) <==> (r, top) in scored
  {
    if scored != [] {
      TiedElements(scored[..|scored| - 1], top);
      assert scored == scored[..|scored| - 1] + [scored[|scored| - 1]];
    }
  }

  /** Two routes fit equally well: both by key, both by alias, or by touching aliases of one
      length. */
  ghost predicate SameRank(lower: Lowering, want: string, r: Route, s: Route) {
    && (ByKey(lower, want, r) <==> ByKey(lower, want, s))
    && (ByKey(lower, want, r) || (ByAlias(lower, want, r) <==> ByAlias(lower, want, s)))
    && (ByKey(lower, want, r) || ByAlias(lower, want, r)
        || exists width :: Reach(lower, want, r, width) && Reach(lower, want, s, width))
  }

  /** The routes tied at the top are exactly those that fit as well as the winner. */
  lemma TiedExactly(lower: Lowering, want: string, routes: seq<Route>, i: int, r: Route)
    requires FirstBest(Scores(lower, want, routes), i)
    ensures var scored := Scores(lower, want, routes);
            r in Tied(scored, scored[i].1) <==> r in routes && SameRank(lower, want, r, scored[i].0)
  {
    var scored := Scores(lower, want, routes);
    TiedElements(scored, scored[i].1);
    var k := OriginOf(lower, want, routes, i);
    ScoreExplains(lower, want, routes[k]);
    ScoreExplains(lower, want, r);
    SameRankSameScore(lower, want, r, routes[k]);
    if (r, scored[i].1) in scored {
      var at :| 0 <= at < |scored| && scored[at] == (r, scored[i].1);
      var j := OriginOf(lower, want, routes, at);
    }
    if r in routes && ScoreOf(lower, want, r).Some? {
      var j :| 0 <= j < |routes| && routes[j] == r;
      var at := ScoresAreOfRoutes(lower, want, routes, j, ScoreOf(lower, want, routes[j]).value);
    }
  }

  lemma ReachOnce(lower: Lowering, want: string, r: Route, a: nat, b: nat)
    requires Reach(lower, want, r, a) && Reach(lower, want, r, b)
    ensures a == b
  {
  }

  lemma SameRankSameScore(lower: Lowering, want: string, r: Route, s: Route)
    requires ScoreOf(lower, want, s).Some?
    ensures SameRank(lower, want, r, s) <==> ScoreOf(lower, want, r) == ScoreOf(lower, want, s)
  {
    ScoreExplains(lower, want, r);
    ScoreExplains(lower, want, s);
    var a, b := ScoreOf(lower, want, r), ScoreOf(lower, want, s);
    ExplainedRank(lower, want, r, s, a, b);
  }

  lemma ExplainedRank(lower: Lowering, want: string, r: Route, s: Route, a: Option<Score>, b: Option<Score>)
    requires Explains(lower, want, r, a) && Explains(lower, want, s, b) && b.Some?
    ensures SameRank(lower, want, r, s) <==> a == b
  {
    if ByKey(lower, want, r) || ByKey(lower, want, s) {
    } else if ByAlias(lower, want, r) || ByAlias(lower, want, s) {
    } else {
      if width :| Reach(lower, want, r, width) && Reach(lower, want, s, width) {
        ReachOnce(lower, want, s, width, b.value.width);
        TouchedIsReached(lower, want, r, a, width);
      }
    }
  }

  lemma TouchedIsReached(lower: Lowering, want: string, r: Route, a: Option<Score>, width: nat)
    requires Explains(lower, want, r, a) && !ByKey(lower, want, r) && !ByAlias(lower, want, r)
    requires Reach(lower, want, r, width)
    ensures a == Some(Score(1, width))
  {
    if a.Some? {
      ReachOnce(lower, want, r, width, a.value.width);
    }
  }

  function Owners(routes: seq<Route>): set<string> {
    set r | r in routes :: r.owner
  }

  method TopScore(scored: seq<(Route, Score)>) returns (top: Score)
    requires scored != []
    ensures exists i :: FirstBest(scored, i) && scored[i].1 == top
    ensures forall i | FirstBest(scored, i) :: scored[i].1 == top
  {
    top := scored[0].1;
    ghost var best := 0;
    for i := 1 to |scored|
      invariant 0 <= best < i && scored[best].1 == top
      invariant forall j | 0 <= j < i :: !Better(scored[j].1, top)
      invariant forall j | 0 <= j < best :: Better(top, scored[j].1)
    {
      if Better(scored[i].1, top) {
        top, best := scored[i].1, i;
      }
    }
    assert FirstBest(scored, best);
  }

  /** All routes tied at the top, under two owners at least; in whatever order. */
  ghost predicate Ambiguous(scored: seq<(Route, Score)>, tied: seq<Route>) {
    && (exists i :: FirstBest(scored, i) && multiset(tied) == multiset(Tied(scored, scored[i].1)))
    && (exists r, s :: r in tied && s in tied && r.owner != s.owner)
  }

  lemma TwoOwners(routes: seq<Route>)
    requires |Owners(routes)| > 1
    ensures exists r, s :: r in routes && s in routes && r.owner != s.owner
  {
    var a :| a in Owners(routes);
    assert |Owners(routes) - {a}| == |Owners(routes)| - 1;
    var b :| b in Owners(routes) - {a};
    var r :| r in routes && r.owner == a;
    var s :| s in routes && s.owner == b;
  }

  lemma SortedIsAmbiguous(scored: seq<(Route, Score)>, i: int)
    requires FirstBest(scored, i) && |Owners(Tied(scored, scored[i].1))| > 1
    ensures Ambiguous(scored, SortBy(Tied(scored, scored[i].1), KeyOf))
  {
    var tied := Tied(scored, scored[i].1);
    SortByElements(tied, KeyOf);
    TwoOwners(tied);
    forall r ensures r in SortBy(tied, KeyOf) <==> r in tied {
      assert r in multiset(SortBy(tied, KeyOf)) <==> r in multiset(tied);
    }
  }

  /** `detect_ambiguity`: either nothing, or all routes tied at the greatest score. */
  method DetectAmbiguity(lower: Lowering, want: string, routes: seq<Route>, winner: Option<Route>) returns (tied: seq<Route>)
    ensures winner.None? ==> tied == []
    ensures tied != [] ==> Ambiguous(Scores(lower, want, routes), tied)
    ensures winner.Some? && tied == [] ==>
              forall i | FirstBest(Scores(lower, want, routes), i) ::
                |Owners(Tied(Scores(lower, want, routes), Scores(lower, want, routes)[i].1))| <= 1
  {
    var scored := CandidateScores(lower, want, routes);
    if scored == [] || winner.None? {
      return [];
    }
    var top := TopScore(scored);
    tied := Tied(scored, top);
    if |tied| > 1 && |Owners(tied)| > 1 {
      ghost var i :| FirstBest(scored, i) && scored[i].1 == top;
      SortedIsAmbiguous(scored, i);
      tied := SortBy(tied, KeyOf);
    } else {
      FewOwners(tied);
      tied := [];
    }
  }

  lemma FewOwners(routes: seq<Route>)
    ensures |routes| <= 1 ==> |Owners(routes)| <= 1
  {
    if |routes| == 1 {
      assert Owners(routes) == {routes[0].owner};
    } else if |routes| == 0 {
      assert Owners(routes) == {};
    }
  }

  /** The matchers agree: an ambiguity holds the route `match_route` picks. */
  lemma AmbiguityHoldsTheWinner(scored: seq<(Route, Score)>, tied: seq<Route>, i: int)
    requires Ambiguous(scored, tied) && FirstBest(scored, i)
    ensures scored[i].0 in tied
  {
    var j :| FirstBest(scored, j) && multiset(tied) == multiset(Tied(scored, scored[j].1));
    TiedElements(scored, scored[j].1);
    assert i == j;
    assert (scored[i].0, scored[j].1) in scored;
    assert scored[i].0 in multiset(tied);
  }
}
