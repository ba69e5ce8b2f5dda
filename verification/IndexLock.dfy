/** The directory lock around every refresh (tools/repo_index.py, _locked), as interleaved
    steps of any number of processes. */
module IndexLock {
  import opened Wrappers

  const LOCK_STALE_S := 120.0
  const LOCK_TIMEOUT_S := 10.0

  /** Where one process is in `_locked`. */
  datatype Phase =
    | Outside
    | Trying(deadline: real)
    /** `mkdir` found the directory; the clock is not read yet. */
    | Blocked(deadline: real)
    /** The clock read `t`; the directory is not examined yet. */
    | Probing(deadline: real, t: real)
    /** The directory looked stale; it is not removed yet. */
    | Removing(deadline: real)
    | Sleeping(deadline: real)
    /** Holds the lock since `since`, whether or not its pid file is written. */
    | Inside(since: real)
    /** Done; the pid file is gone, the directory is not removed yet. */
    | Leaving(since: real)
    | Crashed

  /** The lock directory's modification time, if it exists, the clock, and every process. */
  datatype State = State(dir: Option<real>, now: real, phases: seq<Phase>)

  datatype Event =
    | Begin(p: nat) | Mkdir(p: nat) | ReadClock(p: nat) | Stat(p: nat) | Remove(p: nat) | Wake(p: nat)
    | WritePid(p: nat) | Unlink(p: nat) | Rmdir(p: nat) | Crash(p: nat) | Tick(d: real)

  function Touch(dir: Option<real>, now: real): Option<real> {
    if dir.Some? then Some(now) else None
  }

  /** Seconds since the directory was last modified; an absent one counts as fresh. */
  function Age(dir: Option<real>, t: real): real {
    match dir case Some(mtime) => t - mtime case None => 0.0
  }

  /** One step of one process; None if it cannot happen. */
  function Step(s: State, e: Event): Option<State> {
    if e.Tick? then (if e.d < 0.0 then None else Some(s.(now := s.now + e.d)))
    else if e.p >= |s.phases| then None
    else
      var phases := s.phases;
      match (e, phases[e.p])
      case (Begin(p), Outside) => Some(s.(phases := phases[p := Trying(s.now + LOCK_TIMEOUT_S)]))
      case (Mkdir(p), Trying(deadline)) =>
        if s.dir.None? then Some(State(Some(s.now), s.now, phases[p := Inside(s.now)]))
        else Some(s.(phases := phases[p := Blocked(deadline)]))
      case (ReadClock(p), Blocked(deadline)) => Some(s.(phases := phases[p := Probing(deadline, s.now)]))
      case (Stat(p), Probing(deadline, t)) =>
        Some(s.(phases := phases[p :=
          if Age(s.dir, t) > LOCK_STALE_S then Removing(deadline)
          else if s.now > deadline then Outside
          else Sleeping(deadline)]))
      case (Remove(p), Removing(deadline)) => Some(State(None, s.now, phases[p := Trying(deadline)]))
      case (Wake(p), Sleeping(deadline)) => Some(s.(phases := phases[p := Trying(deadline)]))
      case (WritePid(p), Inside(since)) =>
        Some(if s.dir.Some? then s.(dir := Some(s.now)) else s.(phases := phases[p := Leaving(since)]))
      case (Unlink(p), Inside(since)) => Some(State(Touch(s.dir, s.now), s.now, phases[p := Leaving(since)]))
      case (Rmdir(p), Leaving(_)) => Some(State(None, s.now, phases[p := Outside]))
      case (Crash(p), Inside(_)) => Some(s.(phases := phases[p := Crashed]))
      case (Crash(p), Leaving(_)) => Some(s.(phases := phases[p := Crashed]))
      case _ => None
  }

  /** The state after a run; None if some step of it cannot happen. */
  function Run(s: State, events: seq<Event>): Option<State>
    decreases |events|
  {
    if events == [] then Some(s)
    else
      match Step(s, events[0])
      case Some(s') => Run(s', events[1..])
      case None => None
  }

  predicate Holds(s: State, p: nat) {
    p < |s.phases| && (s.phases[p].Inside? || s.phases[p].Leaving?)
  }

  ghost predicate Exclusive(s: State) {
    forall p: nat, q: nat | Holds(s, p) && Holds(s, q) :: p == q
  }

  ghost predicate Free(s: State) {
    s.dir.None? && forall p: nat | p < |s.phases| :: s.phases[p].Outside?
  }

  /** A removal that takes the directory away from a process that holds the lock. */
  ghost predicate Steals(s: State, e: Event) {
    e.Remove? && Step(s, e).Some? && exists p: nat :: Holds(s, p)
  }

  ghost predicate RunSteals(s: State, events: seq<Event>)
    decreases |events|
  {
    events != []
    && (Steals(s, events[0]) || (Step(s, events[0]).Some? && RunSteals(Step(s, events[0]).value, events[1..])))
  }

  // ---- Exactly the stolen locks break exclusion ----

  /** A live holder's directory exists, and it is the only holder. */
  ghost predicate Owned(s: State) {
    Exclusive(s) && forall p: nat | Holds(s, p) :: s.dir.Some?
  }

  lemma HoldersComeByMkdir(s: State, e: Event, p: nat)
    requires Step(s, e).Some? && Holds(Step(s, e).value, p)
    ensures (e == Mkdir(p) && s.dir.None?) || Holds(s, p)
    ensures e.Rmdir? ==> Holds(s, e.p) && e.p != p
  {
  }

  lemma StepKeepsOwned(s: State, e: Event)
    requires Owned(s) && Step(s, e).Some? && !Steals(s, e)
    ensures Owned(Step(s, e).value)
  {
    var s' := Step(s, e).value;
    forall p: nat | Holds(s', p) ensures s'.dir.Some? {
      HoldersComeByMkdir(s, e, p);
      assert e.Remove? ==> !Holds(s, p);
    }
    forall p: nat, q: nat | Holds(s', p) && Holds(s', q) ensures p == q {
      HoldersComeByMkdir(s, e, p);
      HoldersComeByMkdir(s, e, q);
    }
  }

  /** As long as no removal hits a live lock, at most one process holds it: crashes and slow
      holders included. */
  lemma {:induction false} NoStealNoHarm(s: State, events: seq<Event>)
    requires Owned(s) && Run(s, events).Some? && !RunSteals(s, events)
    ensures Owned(Run(s, events).value)
    decreases |events|
  {
    if events != [] {
      StepKeepsOwned(s, events[0]);
      NoStealNoHarm(Step(s, events[0]).value, events[1..]);
    }
  }

  /** And every removal of a live lock lets its remover in beside the holder. */
  lemma StealBreaksExclusion(s: State, e: Event)
    requires Steals(s, e)
    ensures Run(s, [e, Mkdir(e.p)]).Some? && !Exclusive(Run(s, [e, Mkdir(e.p)]).value)
  {
    var s1 := Step(s, e).value;
    var s2 := Step(s1, Mkdir(e.p)).value;
    assert Run(s1, [Mkdir(e.p)]) == Some(s2) by {
      assert [Mkdir(e.p)][1..] == [];
    }
    assert [e, Mkdir(e.p)][1..] == [Mkdir(e.p)];
    var p: nat :| Holds(s, p);
    assert Holds(s2, p) && Holds(s2, e.p) && p != e.p;
  }

  // ---- No crash, no slow holder ----

  /** No holder has held for longer than the staleness limit. */
  ghost predicate Prompt(s: State) {
    forall p: nat | Holds(s, p) :: s.now - s.phases[p].since <= LOCK_STALE_S
  }

  /** No process crashes and every holder stays prompt. */
  ghost predicate RunPrompt(s: State, events: seq<Event>)
    decreases |events|
  {
    Prompt(s) && (events != [] ==>
      !events[0].Crash? && (Step(s, events[0]).Some? ==> RunPrompt(Step(s, events[0]).value, events[1..])))
  }

  /** An existing directory belongs to a holder and is no older than its hold, so nobody takes
      it for stale. */
  ghost predicate Tended(s: State) {
    && Owned(s)
    && (s.dir.Some? ==> exists p: nat :: Holds(s, p))
    && (forall p: nat | Holds(s, p) && s.dir.Some? :: s.phases[p].since <= s.dir.value <= s.now)
    && forall p: nat | p < |s.phases| :: !s.phases[p].Removing? && (s.phases[p].Probing? ==> s.phases[p].t <= s.now)
  }

  lemma NobodyLooksStale(s: State, t: real)
    requires Tended(s) && Prompt(s) && t <= s.now
    ensures Age(s.dir, t) <= LOCK_STALE_S
  {
    if s.dir.Some? {
      var p: nat :| Holds(s, p);
    }
  }

  lemma StepKeepsTended(s: State, e: Event)
    requires Tended(s) && Prompt(s) && Step(s, e).Some? && !e.Crash?
    ensures Tended(Step(s, e).value) && !Steals(s, e)
  {
    StepKeepsOwned(s, e);
    var s' := Step(s, e).value;
    if e.Stat? {
      NobodyLooksStale(s, s.phases[e.p].t);
    }
    if e.Mkdir? && s.dir.None? {
      assert Holds(s', e.p);
    }
    if s'.dir.Some? && s.dir.Some? {
      var p: nat :| Holds(s, p);
      assert Holds(s', p);
    }
  }

  lemma {:induction false} RunKeepsTended(s: State, events: seq<Event>)
    requires Tended(s) && Run(s, events).Some? && RunPrompt(s, events)
    ensures Tended(Run(s, events).value) && !RunSteals(s, events)
    decreases |events|
  {
    if events != [] {
      StepKeepsTended(s, events[0]);
      RunKeepsTended(Step(s, events[0]).value, events[1..]);
    }
  }

  /** Mutual exclusion over every interleaving of any number of processes in which no holder
      crashes or outstays the staleness limit. */
  lemma MutualExclusion(s: State, events: seq<Event>)
    requires Free(s) && Run(s, events).Some? && RunPrompt(s, events)
    ensures Exclusive(Run(s, events).value)
  {
    RunKeepsTended(s, events);
  }

  // ---- Waiting is bounded ----

  /** If the process waits, then until that time. */
  predicate WaitsUntil(s: State, p: nat, deadline: real) {
    p < |s.phases| ==>
      match s.phases[p]
      case Trying(d) => d == deadline
      case Blocked(d) => d == deadline
      case Probing(d, _) => d == deadline
      case Removing(d) => d == deadline
      case Sleeping(d) => d == deadline
      case _ => true
  }

  lemma StepKeepsDeadline(s: State, e: Event, p: nat, deadline: real)
    requires Step(s, e).Some? && e != Begin(p) && WaitsUntil(s, p, deadline)
    ensures WaitsUntil(Step(s, e).value, p, deadline)
  {
  }

  lemma {:induction false} RunKeepsDeadline(s: State, events: seq<Event>, p: nat, deadline: real)
    requires Run(s, events).Some? && Begin(p) !in events && WaitsUntil(s, p, deadline)
    ensures WaitsUntil(Run(s, events).value, p, deadline)
    decreases |events|
  {
    if events != [] {
      StepKeepsDeadline(s, events[0], p, deadline);
      RunKeepsDeadline(Step(s, events[0]).value, events[1..], p, deadline);
    }
  }

  /** Whatever happens meanwhile, a process that looks at the directory removes it exactly if it
      read an age above two minutes, and else gives up exactly if it began more than ten seconds
      ago. */
  lemma GivesUpExactly(s: State, events: seq<Event>, p: nat)
    requires Step(s, Begin(p)).Some? && Begin(p) !in events
    requires Run(Step(s, Begin(p)).value, events).Some? && Step(Run(Step(s, Begin(p)).value, events).value, Stat(p)).Some?
    ensures var end := Run(Step(s, Begin(p)).value, events).value;
            var next := Step(end, Stat(p)).value;
            && p < |end.phases| && end.phases[p].Probing?
            && var age := if end.dir.Some? then end.phases[p].t - end.dir.value else 0.0;
               && (next.phases[p].Removing? <==> age > 120.0)
               && (next.phases[p].Outside? <==> age <= 120.0 && end.now > s.now + 10.0)
               && (next.phases[p].Sleeping? <==> age <= 120.0 && end.now <= s.now + 10.0)
  {
    RunKeepsDeadline(Step(s, Begin(p)).value, events, p, s.now + 10.0);
  }

  // ---- After a crash ----

  lemma {:induction false} TraceRuns(states: seq<State>, events: seq<Event>)
    requires |states| == |events| + 1
    requires forall i | 0 <= i < |events| :: Step(states[i], events[i]) == Some(states[i + 1])
    ensures Run(states[0], events) == Some(states[|events|])
    decreases |events|
  {
    if events != [] {
      assert Step(states[0], events[0]) == Some(states[1]);
      forall i | 0 <= i < |events[1..]| ensures Step(states[1..][i], events[1..][i]) == Some(states[1..][i + 1]) {
        assert Step(states[i + 1], events[i + 1]) == Some(states[i + 2]);
      }
      TraceRuns(states[1..], events[1..]);
    }
  }

  /** Two processes judge a crashed holder's directory stale; the second removal takes away the
      lock the first has just acquired. */
  const CRASH_RUN: seq<Event> :=
    [Begin(0), Mkdir(0), Crash(0), Tick(121.0),
     Begin(1), Mkdir(1), ReadClock(1), Stat(1), Begin(2), Mkdir(2), ReadClock(2), Stat(2),
     Remove(1), Mkdir(1), Remove(2), Mkdir(2)]

  function At(dir: Option<real>, now: real, a: Phase, b: Phase, c: Phase): State {
    State(dir, now, [a, b, c])
  }

  const CRASH_STATES := [
    At(None, 0.0, Outside, Outside, Outside),
    At(None, 0.0, Trying(10.0), Outside, Outside),
    At(Some(0.0), 0.0, Inside(0.0), Outside, Outside),
    At(Some(0.0), 0.0, Crashed, Outside, Outside),
    At(Some(0.0), 121.0, Crashed, Outside, Outside),
    At(Some(0.0), 121.0, Crashed, Trying(131.0), Outside),
    At(Some(0.0), 121.0, Crashed, Blocked(131.0), Outside),
    At(Some(0.0), 121.0, Crashed, Probing(131.0, 121.0), Outside),
    At(Some(0.0), 121.0, Crashed, Removing(131.0), Outside),
    At(Some(0.0), 121.0, Crashed, Removing(131.0), Trying(131.0)),
    At(Some(0.0), 121.0, Crashed, Removing(131.0), Blocked(131.0)),
    At(Some(0.0), 121.0, Crashed, Removing(131.0), Probing(131.0, 121.0)),
    At(Some(0.0), 121.0, Crashed, Removing(131.0), Removing(131.0)),
    At(None, 121.0, Crashed, Trying(131.0), Removing(131.0)),
    At(Some(121.0), 121.0, Crashed, Inside(121.0), Removing(131.0)),
    At(None, 121.0, Crashed, Inside(121.0), Trying(131.0)),
    At(Some(121.0), 121.0, Crashed, Inside(121.0), Inside(121.0))]

  lemma HolderCrashes(i: nat)
    requires 0 <= i < 6
    ensures Step(CRASH_STATES[i], CRASH_RUN[i]) == Some(CRASH_STATES[i + 1])
  {
    assert Step(CRASH_STATES[i], CRASH_RUN[i]).Some?;
    assert Step(CRASH_STATES[i], CRASH_RUN[i]).value.phases == CRASH_STATES[i + 1].phases;
  }

  lemma BothLookStale(i: nat)
    requires 6 <= i < 12
    ensures Step(CRASH_STATES[i], CRASH_RUN[i]) == Some(CRASH_STATES[i + 1])
  {
    assert Step(CRASH_STATES[i], CRASH_RUN[i]).Some?;
    assert Step(CRASH_STATES[i], CRASH_RUN[i]).value.phases == CRASH_STATES[i + 1].phases;
  }

  lemma BothEnter(i: nat)
    requires 12 <= i < 16
    ensures Step(CRASH_STATES[i], CRASH_RUN[i]) == Some(CRASH_STATES[i + 1])
  {
    assert Step(CRASH_STATES[i], CRASH_RUN[i]).Some?;
    assert Step(CRASH_STATES[i], CRASH_RUN[i]).value.phases == CRASH_STATES[i + 1].phases;
  }

  lemma CrashStep(i: nat)
    requires i < 16
    ensures Step(CRASH_STATES[i], CRASH_RUN[i]) == Some(CRASH_STATES[i + 1])
  {
    if i < 6 {
      HolderCrashes(i);
    } else if i < 12 {
      BothLookStale(i);
    } else {
      BothEnter(i);
    }
  }

  lemma TwoHold()
    ensures !Exclusive(CRASH_STATES[16])
  {
    assert Holds(CRASH_STATES[16], 1) && Holds(CRASH_STATES[16], 2);
  }

  /** Exclusion fails after a crash: two processes hold the lock at once. */
  lemma CrashedHolderBreaksExclusion()
    ensures Free(CRASH_STATES[0]) && Run(CRASH_STATES[0], CRASH_RUN) == Some(CRASH_STATES[16])
    ensures !Exclusive(CRASH_STATES[16])
  {
    CrashRuns(CRASH_STATES, CRASH_RUN);
    TwoHold();
  }

  lemma CrashRuns(states: seq<State>, events: seq<Event>)
    requires states == CRASH_STATES && events == CRASH_RUN
    ensures Run(states[0], events) == Some(states[16])
  {
    assert |states| == 17 && |events| == 16;
    forall i | 0 <= i < |events| ensures Step(states[i], events[i]) == Some(states[i + 1]) {
      CrashStep(i);
    }
    TraceRuns(states, events);
  }
}
