/** The validation result cache (tools/validate_scope.py, cache_lookup, cache_store, run_cached,
    purge_cache): what it replays is what running would have given. */
module ResultCache {
  import opened Wrappers
  import opened CacheKey
  import opened Strings

  datatype Outcome = PASS | FAIL | UNAVAILABLE | TIMEOUT | ENV_FAIL | INTERRUPTED

  /** What the runner reports for one command. */
  datatype Report =
    | Unverified(reason: string)
    | RunnerError(text: string)
    | Finished(rc: Option<int>, noteText: string, output: string)

  datatype Verdict = Verdict(outcome: Outcome, rc: Option<int>, note: string, tail: string)

  function LowerChar(c: char): char {
    if 'A' <= c <= 'Z' then ((c as int - 'A' as int) + 'a' as int) as char else c
  }

  function Lower(text: string): string {
    seq(|text|, i requires 0 <= i < |text| => LowerChar(text[i]))
  }

  const CAPITALS := "ABCDEFGHIJKLMNOPQRSTUVWXYZ"
  const SMALLS := "abcdefghijklmnopqrstuvwxyz"

  lemma LettersAt(k: nat)
    requires k < 26
    ensures CAPITALS[k] as int == 'A' as int + k && SMALLS[k] as int == 'a' as int + k
  {
  }

  /** Exactly the 26 capital letters change, each into its small one. */
  lemma LowerExactly(c: char)
    ensures forall k | 0 <= k < 26 && CAPITALS[k] == c :: LowerChar(c) == SMALLS[k]
    ensures (forall k | 0 <= k < 26 :: CAPITALS[k] != c) ==> LowerChar(c) == c
  {
    forall k | 0 <= k < 26 && CAPITALS[k] == c ensures LowerChar(c) == SMALLS[k] {
      LettersAt(k);
    }
    if 'A' <= c <= 'Z' {
      LettersAt(c as int - 'A' as int);
    }
  }

  /** Outcome of a run that was not answered from the cache. */
  function Classify(r: Report): Verdict {
    match r
    case Unverified(reason) => Verdict(UNAVAILABLE, None, reason, "")
    case RunnerError(text) => Verdict(ENV_FAIL, None, "runner error: " + text, "")
    case Finished(None, note, output) =>
      if Within("skipped", note) || Within("unavailable", Lower(note)) then Verdict(UNAVAILABLE, None, note, output)
      else if Within("imeout", note) || Within("timed out", Lower(note)) then Verdict(TIMEOUT, None, note, output)
      else Verdict(ENV_FAIL, None, note, output)
    case Finished(Some(rc), note, output) => Verdict(if rc == 0 then PASS else FAIL, Some(rc), note, output)
  }

  predicate Replayable(o: Outcome) {
    o in {PASS, FAIL, UNAVAILABLE}
  }

  const TAIL_CHARS := 2000

  function Cut(text: string): string {
    if |text| <= TAIL_CHARS then text else text[|text| - TAIL_CHARS..]
  }

  /** Equal, except that a replayed tail holds the last characters only. */
  predicate Same(a: Verdict, b: Verdict) {
    a.outcome == b.outcome && a.rc == b.rc && a.note == b.note && Cut(a.tail) == Cut(b.tail)
  }

  datatype Entry = Entry(key: string, material: Material, verdict: Verdict)

  type Files = map<string, Entry>

  /** One `run_cached`: its material while the tree is still, and what running would report. */
  datatype Request = Request(material: Material, useCache: bool, report: Report)

  /** File name of an entry; different material may share one. */
  type KeyOf = Material -> string

  function Lookup(keyOf: KeyOf, files: Files, m: Material): Option<Verdict> {
    var key := keyOf(m);
    if key in files && files[key].key == key && files[key].material == m && Replayable(files[key].verdict.outcome)
    then Some(files[key].verdict) else None
  }

  function Stored(keyOf: KeyOf, files: Files, m: Material, v: Verdict): Files {
    if v.outcome in {TIMEOUT, ENV_FAIL, INTERRUPTED} then files
    else files[keyOf(m) := Entry(keyOf(m), m, v.(tail := Cut(v.tail)))]
  }

  /** `run_cached` */
  function RunCached(keyOf: KeyOf, files: Files, q: Request): (Files, Verdict) {
    var hit := if q.useCache then Lookup(keyOf, files, q.material) else None;
    match hit
    case Some(v) => (files, v)
    case None =>
      var v := Classify(q.report);
      (if q.useCache then Stored(keyOf, files, q.material, v) else files, v)
  }

  /** Between requests entries may vanish: purged, or unreadable. */
  datatype Event = Run(request: Request) | Drop(keys: set<string>)

  function After(keyOf: KeyOf, files: Files, e: Event): Files {
    match e
    case Run(q) => RunCached(keyOf, files, q).0
    case Drop(keys) => files - keys
  }

  function Session(keyOf: KeyOf, files: Files, events: seq<Event>): Files {
    if events == [] then files
    else After(keyOf, Session(keyOf, files, events[..|events| - 1]), events[|events| - 1])
  }

  /** The outcome of a command is a function of the key material, as far as it is replayable:
      whenever a run of the material gave such an outcome, every later run gives the same. */
  ghost predicate Determined(events: seq<Event>) {
    forall i, j |
      && 0 <= i < j < |events| && events[i].Run? && events[j].Run?
      && events[i].request.material == events[j].request.material
      && Replayable(Classify(events[i].request.report).outcome) ::
      Same(Classify(events[i].request.report), Classify(events[j].request.report))
  }

  /** Some run of the entry's material gave its verdict. */
  ghost predicate FromRun(events: seq<Event>, entry: Entry) {
    exists i ::
      && 0 <= i < |events| && events[i].Run?
      && events[i].request.material == entry.material
      && Same(entry.verdict, Classify(events[i].request.report))
  }

  /** Every entry is what some earlier run of its material gave. */
  ghost predicate Backed(keyOf: KeyOf, files: Files, events: seq<Event>) {
    forall key | key in files :: Replayable(files[key].verdict.outcome) && FromRun(events, files[key])
  }

  lemma FromRunGrows(events: seq<Event>, e: Event, entry: Entry)
    requires FromRun(events, entry)
    ensures FromRun(events + [e], entry)
  {
    var i :|
      && 0 <= i < |events| && events[i].Run?
      && events[i].request.material == entry.material
      && Same(entry.verdict, Classify(events[i].request.report));
    assert (events + [e])[i] == events[i];
  }

  lemma CutTwice(text: string)
    ensures Cut(Cut(text)) == Cut(text)
  {
  }

  lemma StoredIsFromRun(events: seq<Event>, q: Request, key: string)
    ensures var v := Classify(q.report);
            FromRun(events + [Run(q)], Entry(key, q.material, v.(tail := Cut(v.tail))))
  {
    CutTwice(Classify(q.report).tail);
    assert (events + [Run(q)])[|events|] == Run(q);
  }

  lemma AfterIsBacked(keyOf: KeyOf, files: Files, events: seq<Event>, e: Event)
    requires Backed(keyOf, files, events)
    ensures Backed(keyOf, After(keyOf, files, e), events + [e])
  {
    var after := After(keyOf, files, e);
    forall key | key in after ensures Replayable(after[key].verdict.outcome) && FromRun(events + [e], after[key]) {
      if key in files && after[key] == files[key] {
        FromRunGrows(events, e, files[key]);
      } else {
        StoredIsFromRun(events, e.request, key);
      }
    }
  }

  lemma {:induction false} SessionIsBacked(keyOf: KeyOf, events: seq<Event>)
    ensures Backed(keyOf, Session(keyOf, map[], events), events)
  {
    if events != [] {
      var init := events[..|events| - 1];
      SessionIsBacked(keyOf, init);
      AfterIsBacked(keyOf, Session(keyOf, map[], init), init, events[|events| - 1]);
      assert events == init + [events[|events| - 1]];
    }
  }

  /** The cache is transparent: over any run of requests, purges and tree edits, every request
      gives what running it without a cache would give, whatever keys collide. */
  lemma CacheIsTransparent(keyOf: KeyOf, events: seq<Event>, q: Request)
    requires Determined(events + [Run(q)])
    ensures Same(RunCached(keyOf, Session(keyOf, map[], events), q).1, Classify(q.report))
  {
    var files := Session(keyOf, map[], events);
    SessionIsBacked(keyOf, events);
    if q.useCache && Lookup(keyOf, files, q.material).Some? {
      var entry := files[keyOf(q.material)];
      var i :|
        && 0 <= i < |events| && events[i].Run?
        && events[i].request.material == entry.material
        && Same(entry.verdict, Classify(events[i].request.report));
      var all := events + [Run(q)];
      assert all[i] == events[i] && all[|events|] == Run(q);
    }
  }

  // ---- Reports, not verdicts ----

  /** The run was skipped: no return code, and a note that says so. */
  predicate Skipped(r: Report) {
    && r.Finished? && r.rc.None?
    && (Within("skipped", r.noteText) || Within("unavailable", Lower(r.noteText)))
  }

  /** The run gave no answer: the runner failed, or there is no return code and no word of
      skipping. */
  predicate NoAnswer(r: Report) {
    r.RunnerError? || (r.Finished? && r.rc.None? && !Skipped(r))
  }

  predicate NamesTimeout(note: string) {
    Within("imeout", note) || Within("timed out", Lower(note))
  }

  predicate Returned(r: Report, code: int) {
    r.Finished? && r.rc == Some(code)
  }

  /** What a verdict says about the report it stands for. */
  ghost predicate Tells(v: Verdict, r: Report) {
    && (v.outcome == PASS <==> Returned(r, 0))
    && (v.outcome == FAIL <==> exists code :: code != 0 && Returned(r, code))
    && (v.outcome == UNAVAILABLE <==> r.Unverified? || Skipped(r))
    && (v.outcome == TIMEOUT <==> NoAnswer(r) && r.Finished? && NamesTimeout(r.noteText))
    && (v.outcome == ENV_FAIL <==> NoAnswer(r) && (r.Finished? ==> !NamesTimeout(r.noteText)))
    && v.outcome != INTERRUPTED
    && v.rc == (if r.Finished? then r.rc else None)
    && v.note == (match r
                  case Unverified(reason) => reason
                  case RunnerError(text) => "runner error: " + text
                  case Finished(_, note, _) => note)
    && Cut(v.tail) == (if r.Finished? then Cut(r.output) else "")
  }

  lemma VerdictsTell(r: Report)
    ensures Tells(Classify(r), r)
  {
    match r
    case Unverified(_) =>
    case RunnerError(_) =>
    case Finished(None, _, _) =>
    case Finished(Some(rc), _, _) => assert Returned(r, rc);
  }

  /** A replayed tail is cut, and nothing else changes what a verdict says. */
  lemma SameTells(a: Verdict, b: Verdict, r: Report)
    requires Same(a, b) && Tells(b, r)
    ensures Tells(a, r)
  {
  }

  /** The answer to a request tells of its own run, or of an earlier run of the same material
      that gave an answer. */
  ghost predicate AnswersTell(events: seq<Event>, q: Request, v: Verdict) {
    || Tells(v, q.report)
    || exists i ::
         && 0 <= i < |events| && events[i].Run? && events[i].request.material == q.material
         && !NoAnswer(events[i].request.report) && Tells(v, events[i].request.report)
  }

  /** The entry tells of a run of its material that gave an answer: one that was unverified,
      skipped, or returned a code. */
  ghost predicate Rests(events: seq<Event>, entry: Entry) {
    exists i ::
      && 0 <= i < |events| && events[i].Run? && events[i].request.material == entry.material
      && !NoAnswer(events[i].request.report) && Tells(entry.verdict, events[i].request.report)
  }

  lemma EntryTells(keyOf: KeyOf, events: seq<Event>, key: string)
    requires key in Session(keyOf, map[], events)
    ensures Rests(events, Session(keyOf, map[], events)[key])
  {
    SessionIsBacked(keyOf, events);
    var entry := Session(keyOf, map[], events)[key];
    var i :|
      && 0 <= i < |events| && events[i].Run?
      && events[i].request.material == entry.material
      && Same(entry.verdict, Classify(events[i].request.report));
    VerdictsTell(events[i].request.report);
    SameTells(entry.verdict, Classify(events[i].request.report), events[i].request.report);
  }

  /** Over any run every answer is what its own run reported, or what an earlier run of the same
      material reported: a PASS always rests on return code 0. Without the cache it is the former,
      and the files stay as they are. */
  lemma AnswersTellOfRuns(keyOf: KeyOf, events: seq<Event>, q: Request)
    ensures AnswersTell(events, q, RunCached(keyOf, Session(keyOf, map[], events), q).1)
    ensures !q.useCache ==>
              var files := Session(keyOf, map[], events);
              RunCached(keyOf, files, q).0 == files && Tells(RunCached(keyOf, files, q).1, q.report)
  {
    VerdictsTell(q.report);
    var files := Session(keyOf, map[], events);
    if q.useCache && Lookup(keyOf, files, q.material).Some? {
      EntryTells(keyOf, events, keyOf(q.material));
    }
  }

  /** The run itself answers the request: nothing of its material is stored, or not asked for. */
  ghost predicate AnswersItself(files: Files, q: Request) {
    !q.useCache || forall key | key in files :: files[key].material != q.material
  }

  lemma NoAnswerIsKept(keyOf: KeyOf, files: Files, q: Request)
    requires NoAnswer(q.report)
    ensures RunCached(keyOf, files, q).0 == files
    ensures AnswersItself(files, q) ==>
              RunCached(keyOf, files, q).1.outcome
              == if q.report.Finished? && NamesTimeout(q.report.noteText) then TIMEOUT else ENV_FAIL
  {
    VerdictsTell(q.report);
  }

  /** Over any run, runs that gave no answer are neither stored nor replayed. Such a run leaves
      the cache as it is, and where it is what answers the request, the answer is TIMEOUT if its
      note names one and ENV_FAIL otherwise. */
  lemma FailuresAreNeverReplayed(keyOf: KeyOf, events: seq<Event>, q: Request)
    ensures var files := Session(keyOf, map[], events);
            && (NoAnswer(q.report) ==> Session(keyOf, map[], events + [Run(q)]) == files)
            && (NoAnswer(q.report) && AnswersItself(files, q) ==>
                  RunCached(keyOf, files, q).1.outcome
                  == if q.report.Finished? && NamesTimeout(q.report.noteText) then TIMEOUT else ENV_FAIL)
            && forall key | key in files :: Rests(events, files[key])
  {
    var files := Session(keyOf, map[], events);
    if NoAnswer(q.report) {
      NoAnswerIsKept(keyOf, files, q);
      SessionAppend(keyOf, events, Run(q));
    }
    forall key | key in files ensures Rests(events, files[key]) {
      EntryTells(keyOf, events, key);
    }
  }

  lemma SessionAppend(keyOf: KeyOf, events: seq<Event>, e: Event)
    ensures Session(keyOf, map[], events + [e]) == After(keyOf, Session(keyOf, map[], events), e)
  {
    assert (events + [e])[..|events|] == events;
  }

  /** And a run that gave an answer is stored: the next request of its material gets it, however
      that run would end, unless another entry took its place. */
  lemma AnswersAreReplayed(keyOf: KeyOf, files: Files, q: Request, next: Request)
    requires q.useCache && next.useCache && q.material == next.material && !NoAnswer(q.report)
    ensures var (files', v) := RunCached(keyOf, files, q);
            var (files'', again) := RunCached(keyOf, files', next);
            files'' == files' && Same(again, v)
  {
    VerdictsTell(q.report);
    CutTwice(Classify(q.report).tail);
  }

  /** Of a long output the last 2000 characters are kept. */
  lemma ReplayedTailIsTheEnd(keyOf: KeyOf, q: Request, next: Request)
    requires q.useCache && next.useCache && q.material == next.material && !NoAnswer(q.report) && q.report.Finished?
    ensures var (files, v) := RunCached(keyOf, map[], q);
            var tail := RunCached(keyOf, files, next).1.tail;
            && v.tail == q.report.output
            && if |v.tail| <= 2000 then tail == v.tail else |tail| == 2000 && tail == v.tail[|v.tail| - 2000..]
  {
    VerdictsTell(q.report);
  }

  // ---- One command at several states of the tree ----

  /** Runs of one command at several states of the tree. */
  function Runs(k: Keying, command: string, level: string, lives: seq<Live>, reports: seq<Report>): seq<Event>
    requires |lives| == |reports|
  {
    seq(|lives|, i requires 0 <= i < |lives| => Run(Request(MaterialFor(k, command, level, lives[i]), true, reports[i])))
  }

  /** A command is run again as long as some file it pins differs from every earlier run. */
  lemma EditedPinIsRunAgain(
    k: Keying, keyOf: KeyOf, command: string, level: string, lives: seq<Live>, reports: seq<Report>, live: Live, report: Report)
    requires |lives| == |reports| && KeyingOk(k) && PinsNameable(k)
    requires LiveOk(live) && forall i | 0 <= i < |lives| :: LiveOk(lives[i])
    requires forall i | 0 <= i < |lives| :: exists pin :: pin in k.pins(command, lives[i]) && !SamePinned(k, lives[i], live, pin)
    ensures var q := Request(MaterialFor(k, command, level, live), true, report);
            RunCached(keyOf, Session(keyOf, map[], Runs(k, command, level, lives, reports)), q).1 == Classify(report)
  {
    var events := Runs(k, command, level, lives, reports);
    SessionIsBacked(keyOf, events);
    forall i | 0 <= i < |events| ensures events[i].request.material != MaterialFor(k, command, level, live) {
      MaterialPinsContents(k, command, level, lives[i], live);
    }
  }

  /** A command as a function of the tree. */
  type Execution = Live -> Report

  function RequestAt(k: Keying, command: string, level: string, run: Execution, live: Live): Request {
    Request(MaterialFor(k, command, level, live), true, run(live))
  }

  function Executions(k: Keying, command: string, level: string, run: Execution, lives: seq<Live>): seq<Event> {
    seq(|lives|, i requires 0 <= i < |lives| => Run(RequestAt(k, command, level, run, lives[i])))
  }

  /** What the command does depends on nothing but the files its key pins. */
  ghost predicate OutcomeIsPinned(k: Keying, command: string, run: Execution) {
    forall a, b | LiveOk(a) && LiveOk(b) && PinsAgree(k, command, a, b) && Replayable(Classify(run(a)).outcome) ::
      Same(Classify(run(a)), Classify(run(b)))
  }

  /** Whatever states the tree goes through, each cached answer is that of running. */
  ghost predicate AlwaysTransparent(k: Keying, keyOf: KeyOf, command: string, level: string, run: Execution) {
    forall lives, live | LiveOk(live) && forall i | 0 <= i < |lives| :: LiveOk(lives[i]) ::
      AnswersAsRunning(k, keyOf, command, level, run, lives, live)
  }

  predicate AnswersAsRunning(k: Keying, keyOf: KeyOf, command: string, level: string, run: Execution, lives: seq<Live>, live: Live) {
    Same(RunCached(keyOf, Session(keyOf, map[], Executions(k, command, level, run, lives)),
                   RequestAt(k, command, level, run, live)).1,
         Classify(run(live)))
  }

  lemma PinnedIsTransparent(
    k: Keying, keyOf: KeyOf, command: string, level: string, run: Execution, lives: seq<Live>, live: Live)
    requires KeyingOk(k) && PinsNameable(k) && OutcomeIsPinned(k, command, run)
    requires LiveOk(live) && forall i | 0 <= i < |lives| :: LiveOk(lives[i])
    ensures AnswersAsRunning(k, keyOf, command, level, run, lives, live)
  {
    var events, q := Executions(k, command, level, run, lives), RequestAt(k, command, level, run, live);
    var all := lives + [live];
    assert events + [Run(q)] == Executions(k, command, level, run, all);
    forall i, j |
      && 0 <= i < j < |all|
      && MaterialFor(k, command, level, all[i]) == MaterialFor(k, command, level, all[j])
      && Replayable(Classify(run(all[i])).outcome)
      ensures Same(Classify(run(all[i])), Classify(run(all[j])))
    {
      MaterialPinsContents(k, command, level, all[i], all[j]);
    }
    CacheIsTransparent(keyOf, events, q);
  }

  /** After a replayable run, equal material is answered from the cache. */
  lemma SecondRunIsReplayed(k: Keying, keyOf: KeyOf, command: string, level: string, run: Execution, a: Live, b: Live)
    requires MaterialFor(k, command, level, a) == MaterialFor(k, command, level, b)
    requires Replayable(Classify(run(a)).outcome)
    ensures var files := Session(keyOf, map[], Executions(k, command, level, run, [a]));
            Same(RunCached(keyOf, files, RequestAt(k, command, level, run, b)).1, Classify(run(a)))
  {
    var events := Executions(k, command, level, run, [a]);
    assert events == [Run(RequestAt(k, command, level, run, a))] && events[..0] == [];
    CutTwice(Classify(run(a)).tail);
  }

  /** The cache answers a command as running it would, through all edits of the tree, exactly if
      what the command does depends on nothing but the files its key pins. */
  lemma TransparentExactlyIfPinned(k: Keying, keyOf: KeyOf, command: string, level: string, run: Execution)
    requires KeyingOk(k) && PinsNameable(k)
    ensures AlwaysTransparent(k, keyOf, command, level, run) <==> OutcomeIsPinned(k, command, run)
  {
    if OutcomeIsPinned(k, command, run) {
      forall lives, live | LiveOk(live) && forall i | 0 <= i < |lives| :: LiveOk(lives[i])
        ensures AnswersAsRunning(k, keyOf, command, level, run, lives, live)
      {
        PinnedIsTransparent(k, keyOf, command, level, run, lives, live);
      }
    }
    if AlwaysTransparent(k, keyOf, command, level, run) {
      forall a, b | LiveOk(a) && LiveOk(b) && PinsAgree(k, command, a, b) && Replayable(Classify(run(a)).outcome)
        ensures Same(Classify(run(a)), Classify(run(b)))
      {
        MaterialPinsContents(k, command, level, a, b);
        SecondRunIsReplayed(k, keyOf, command, level, run, a, b);
        assert AnswersAsRunning(k, keyOf, command, level, run, [a], b);
      }
    }
  }

  // ---- An unpinned file ----

  const COMMAND := "pytest t.py -q"
  const UNPINNED := "conftest.py"

  /** Only the test file itself is pinned. */
  function OnePin(hash: string -> string): Keying {
    Keying(hash, (command: string, live: Live) => [Single("t.py")], (command: string) => None, [])
  }

  function LiveWith(setting: string): Live {
    Live(map["t.py" := "", UNPINNED := setting], None, MISSING, "")
  }

  /** The test passes or fails by a file that its key does not pin. */
  function ByConfiguration(live: Live): Report {
    Finished(Some(if UNPINNED in live.texts && live.texts[UNPINNED] == "good" then 0 else 1), "", "")
  }

  lemma UnpinnedEditKeepsMaterial(hash: string -> string)
    ensures MaterialFor(OnePin(hash), COMMAND, "L1", LiveWith("good")) == MaterialFor(OnePin(hash), COMMAND, "L1", LiveWith("bad"))
  {
    var k, good, bad := OnePin(hash), LiveWith("good"), LiveWith("bad");
    assert [Single("t.py")][1..] == [];
    assert PinLines(k, good, [Single("t.py")]) == PinLines(k, bad, [Single("t.py")]);
  }

  /** An edit of that file is answered with the old outcome: PASS, where running would FAIL. So
      the command is not transparent, with any hash that meets the assumptions on keys. */
  lemma UnpinnedEditIsReplayedWrongly(hash: string -> string, keyOf: KeyOf)
    requires KeyingOk(OnePin(hash))
    ensures var good, bad, k := LiveWith("good"), LiveWith("bad"), OnePin(hash);
            var files := Session(keyOf, map[], Executions(k, COMMAND, "L1", ByConfiguration, [good]));
            && RunCached(keyOf, files, RequestAt(k, COMMAND, "L1", ByConfiguration, bad)).1.outcome == PASS
            && Classify(ByConfiguration(bad)).outcome == FAIL
    ensures !AlwaysTransparent(OnePin(hash), keyOf, COMMAND, "L1", ByConfiguration)
  {
    var k, good, bad := OnePin(hash), LiveWith("good"), LiveWith("bad");
    UnpinnedEditKeepsMaterial(hash);
    assert Classify(ByConfiguration(good)).outcome == PASS && Classify(ByConfiguration(bad)).outcome == FAIL;
    SecondRunIsReplayed(k, keyOf, COMMAND, "L1", ByConfiguration, good, bad);
    assert !AnswersAsRunning(k, keyOf, COMMAND, "L1", ByConfiguration, [good], bad);
  }

  /** There is such a hash, so this is a case the exact condition speaks of. */
  lemma UnpinnedEditExample(keyOf: KeyOf)
    ensures KeyingOk(OnePin(Marked)) && PinsNameable(OnePin(Marked))
    ensures !OutcomeIsPinned(OnePin(Marked), COMMAND, ByConfiguration)
  {
    MarkedKeyingIsOk(OnePin(Marked));
    UnpinnedEditIsReplayedWrongly(Marked, keyOf);
    TransparentExactlyIfPinned(OnePin(Marked), keyOf, COMMAND, "L1", ByConfiguration);
  }

  // ---- The cache as an object ----

  class ValidationCache {
    var files: Files
    const keyOf: KeyOf

    constructor (keyOf: KeyOf)
      ensures files == map[] && this.keyOf == keyOf
    {
      files := map[];
      this.keyOf := keyOf;
    }

    method Store(m: Material, v: Verdict) returns (stored: bool)
      modifies this
      ensures files == Stored(keyOf, old(files), m, v)
      ensures stored == (v.outcome !in {TIMEOUT, ENV_FAIL, INTERRUPTED})
    {
      if v.outcome in {TIMEOUT, ENV_FAIL, INTERRUPTED} {
        return false;
      }
      files := files[keyOf(m) := Entry(keyOf(m), m, v.(tail := Cut(v.tail)))];
      stored := true;
    }

    /** `run_cached`, under the lock of its key. The past is what happened to this cache so far. */
    method Run(q: Request, ghost past: seq<Event>) returns (v: Verdict)
      requires files == Session(keyOf, map[], past) && Determined(past + [Event.Run(q)])
      modifies this
      ensures (files, v) == RunCached(keyOf, old(files), q)
      ensures files == Session(keyOf, map[], past + [Event.Run(q)])
      ensures Same(v, Classify(q.report))
    {
      CacheIsTransparent(keyOf, past, q);
      assert (past + [Event.Run(q)])[..|past|] == past;
      if q.useCache {
        var hit := Lookup(keyOf, files, q.material);
        if hit.Some? {
          return hit.value;
        }
      }
      v := Classify(q.report);
      if q.useCache {
        var _ := Store(q.material, v);
      }
    }

    /** `purge_cache` */
    method Purge(ghost past: seq<Event>) returns (removed: nat)
      requires files == Session(keyOf, map[], past)
      modifies this
      ensures files == map[] && removed == |old(files)|
      ensures files == Session(keyOf, map[], past + [Drop(old(files).Keys)])
    {
      removed := |files|;
      assert (past + [Drop(files.Keys)])[..|past|] == past;
      files := map[];
    }
  }
}
