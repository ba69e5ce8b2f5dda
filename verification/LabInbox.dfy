/** The stdin inbox and the deferred queue (src/app/headless.py, _ensure_stdin_reader,
    _pump_while_running, _requeue_deferred and the run_backtest hand-off), as interleaved steps
    of the reader, the main loop and the run worker, before end of input. */
module LabInbox {
  import opened Wrappers

  const DEFERRED_MAX := 200

  /** One line: nothing usable (blank, no JSON, no object), a cancel, or a command. Commands
      carry their place in the order of arrival. */
  datatype Line = Noise | Cancel | Command(id: nat, isRun: bool)

  /** Where the main loop is: waiting for a line, pumping for a run (between two looks at the
      finished flag or inside one read of the inbox), or re-queueing what it parked. */
  datatype Phase = Idle | Pumping(polling: bool) | Requeueing

  /** `parked` lists what the current run has parked so far, `lost` what it pushed out, and
      `returning` what is being re-queued; they only record history. */
  datatype State = State(
    inbox: seq<Line>, deferred: seq<Line>, dropped: nat, cancel: bool, finished: bool, phase: Phase,
    arrived: nat, handled: seq<Line>, lost: seq<Line>, parked: seq<Line>, returning: seq<Line>)

  const START := State([], [], 0, false, false, Idle, 0, [], [], [], [])

  datatype Event =
    /** The reader puts a line. */
    | ReadNoise | ReadCancel | ReadCommand(isRun: bool)
    /** The idle main loop takes a line. */
    | Take
    /** The worker is done. */
    | Finish
    /** The pump looks at the finished flag, then reads a line or times out. */
    | Check | Pump | Timeout
    /** One parked command goes back; or none is left. */
    | Requeue | Resume

  function Put(s: State, l: Line): State {
    s.(inbox := s.inbox + [l])
  }

  /** `_LAB_DEFERRED.append` on a deque of bounded length. */
  function Park(s: State, l: Line): State {
    if |s.deferred| >= DEFERRED_MAX
    then s.(deferred := s.deferred[1..] + [l], dropped := s.dropped + 1, lost := s.lost + [s.deferred[0]],
            parked := s.parked + [l])
    else s.(deferred := s.deferred + [l], parked := s.parked + [l])
  }

  /** The idle main loop handles the oldest line. */
  function TakeLine(s: State): State
    requires s.inbox != []
  {
    var rest := s.(inbox := s.inbox[1..]);
    match s.inbox[0]
    case Command(_, isRun) =>
      var taken := rest.(handled := s.handled + [s.inbox[0]]);
      if isRun then taken.(phase := Pumping(false), cancel := false, finished := false, parked := []) else taken
    case _ => rest
  }

  /** The pump sorts the oldest line: cancel sets the flag, a command is parked. */
  function PumpLine(s: State): State
    requires s.inbox != []
  {
    var rest := s.(inbox := s.inbox[1..], phase := Pumping(false));
    match s.inbox[0]
    case Noise => rest
    case Cancel => rest.(cancel := true)
    case Command(_, _) => Park(rest, s.inbox[0])
  }

  function RequeueOne(s: State): State
    requires s.deferred != []
  {
    s.(inbox := s.inbox + [s.deferred[0]], deferred := s.deferred[1..])
  }

  function Step(s: State, e: Event): Option<State> {
    match e
    case ReadNoise => Some(Put(s, Noise))
    case ReadCancel => Some(Put(s, Cancel))
    case ReadCommand(isRun) => Some(Put(s, Command(s.arrived, isRun)).(arrived := s.arrived + 1))
    case Take => if s.phase.Idle? && s.inbox != [] then Some(TakeLine(s)) else None
    case Finish => if s.phase.Pumping? then Some(s.(finished := true)) else None
    case Check =>
      if s.phase != Pumping(false) then None
      else if s.finished then Some(s.(phase := Requeueing, returning := s.deferred))
      else Some(s.(phase := Pumping(true)))
    case Timeout => if s.phase == Pumping(true) then Some(s.(phase := Pumping(false))) else None
    case Pump => if s.phase == Pumping(true) && s.inbox != [] then Some(PumpLine(s)) else None
    case Requeue => if s.phase.Requeueing? && s.deferred != [] then Some(RequeueOne(s)) else None
    case Resume =>
      if s.phase.Requeueing? && s.deferred == [] then Some(s.(phase := Idle, cancel := false)) else None
  }

  function Run(s: State, events: seq<Event>): Option<State> {
    if events == [] then Some(s)
    else
      match Run(s, events[..|events| - 1])
      case Some(s') => Step(s', events[|events| - 1])
      case None => None
  }

  // ---- Conservation ----

  /** How often a command occurs in some lines. */
  function Count(lines: seq<Line>, id: nat): nat {
    if lines == [] then 0 else Count(lines[..|lines| - 1], id) + One(lines[|lines| - 1], id)
  }

  function One(l: Line, id: nat): nat {
    match l case Command(i, _) => (if i == id then 1 else 0) case _ => 0
  }

  /** How often a command occurs anywhere: handled, waiting, parked, or dropped. */
  function Places(s: State, id: nat): nat {
    Count(s.handled, id) + Count(s.inbox, id) + Count(s.deferred, id) + Count(s.lost, id)
  }

  lemma {:induction false} CountAppend(a: seq<Line>, b: seq<Line>, id: nat)
    ensures Count(a + b, id) == Count(a, id) + Count(b, id)
  {
    if b == [] {
      assert a + b == a;
    } else {
      CountAppend(a, b[..|b| - 1], id);
      assert (a + b)[..|a + b| - 1] == a + b[..|b| - 1];
    }
  }

  lemma CountPut(lines: seq<Line>, l: Line, id: nat)
    ensures Count(lines + [l], id) == Count(lines, id) + One(l, id)
  {
    assert (lines + [l])[..|lines|] == lines;
  }

  lemma CountHead(lines: seq<Line>, id: nat)
    requires lines != []
    ensures Count(lines, id) == One(lines[0], id) + Count(lines[1..], id)
  {
    assert lines == [lines[0]] + lines[1..];
    CountAppend([lines[0]], lines[1..], id);
    CountPut([], lines[0], id);
    assert [] + [lines[0]] == [lines[0]];
  }

  lemma ParkConserves(s: State, l: Line, id: nat)
    ensures Places(Park(s, l), id) == Places(s, id) + One(l, id)
  {
    if |s.deferred| >= DEFERRED_MAX {
      CountHead(s.deferred, id);
      CountPut(s.deferred[1..], l, id);
      CountPut(s.lost, s.deferred[0], id);
    } else {
      CountPut(s.deferred, l, id);
    }
  }

  lemma PumpConserves(s: State, id: nat)
    requires s.inbox != []
    ensures Places(PumpLine(s), id) == Places(s, id)
  {
    CountHead(s.inbox, id);
    ParkConserves(s.(inbox := s.inbox[1..], phase := Pumping(false)), s.inbox[0], id);
  }

  lemma ReadConserves(s: State, e: Event, id: nat)
    requires e.ReadNoise? || e.ReadCancel? || e.ReadCommand?
    ensures Step(s, e).value.arrived == s.arrived + if e.ReadCommand? then 1 else 0
    ensures Places(Step(s, e).value, id) == Places(s, id) + if e.ReadCommand? && id == s.arrived then 1 else 0
  {
    match e
    case ReadNoise => CountPut(s.inbox, Noise, id);
    case ReadCancel => CountPut(s.inbox, Cancel, id);
    case ReadCommand(isRun) => CountPut(s.inbox, Command(s.arrived, isRun), id);
  }

  lemma TakeConserves(s: State, id: nat)
    requires s.inbox != []
    ensures TakeLine(s).arrived == s.arrived && Places(TakeLine(s), id) == Places(s, id)
  {
    CountHead(s.inbox, id);
    CountPut(s.handled, s.inbox[0], id);
  }

  lemma RequeueConserves(s: State, id: nat)
    requires s.deferred != []
    ensures RequeueOne(s).arrived == s.arrived && Places(RequeueOne(s), id) == Places(s, id)
  {
    CountHead(s.deferred, id);
    CountPut(s.inbox, s.deferred[0], id);
  }

  lemma MoveConserves(s: State, e: Event, id: nat)
    requires Step(s, e).Some? && !e.ReadNoise? && !e.ReadCancel? && !e.ReadCommand?
    ensures Step(s, e).value.arrived == s.arrived && Places(Step(s, e).value, id) == Places(s, id)
  {
    match e
    case Take => TakeConserves(s, id);
    case Pump => PumpConserves(s, id);
    case Requeue => RequeueConserves(s, id);
    case _ =>
  }

  /** Over every interleaving, each command that arrived is in exactly one place, once:
      handled, in the inbox, parked, or dropped. */
  lemma {:induction false} EveryCommandIsSomewhere(events: seq<Event>, id: nat)
    requires Run(START, events).Some?
    ensures var s := Run(START, events).value;
            Places(s, id) == if id < s.arrived then 1 else 0
  {
    if events != [] {
      EveryCommandIsSomewhere(events[..|events| - 1], id);
      var s, e := Run(START, events[..|events| - 1]).value, events[|events| - 1];
      if e.ReadNoise? || e.ReadCancel? || e.ReadCommand? {
        ReadConserves(s, e, id);
      } else {
        MoveConserves(s, e, id);
      }
    }
  }

  // ---- The parked commands ----

  function Newest(lines: seq<Line>): seq<Line> {
    if |lines| <= DEFERRED_MAX then lines else lines[|lines| - DEFERRED_MAX..]
  }

  ghost predicate AllCommands(lines: seq<Line>) {
    forall l | l in lines :: l.Command?
  }

  /** What each phase promises about the parked commands. */
  ghost predicate Parking(s: State) {
    && s.dropped == |s.lost| && AllCommands(s.deferred)
    && (s.phase.Idle? ==> s.deferred == [])
    && (s.phase.Pumping? ==> s.deferred == Newest(s.parked))
    && (s.phase.Requeueing? ==>
          && s.returning == Newest(s.parked)
          && |s.deferred| <= |s.returning|
          && s.deferred == s.returning[|s.returning| - |s.deferred|..]
          && Subsequence(Back(s), s.inbox))
  }

  /** What is already back in the inbox. */
  function Back(s: State): seq<Line>
    requires |s.deferred| <= |s.returning|
  {
    s.returning[..|s.returning| - |s.deferred|]
  }

  /** `xs` occurs in `ys` in its own order. */
  ghost predicate Subsequence(xs: seq<Line>, ys: seq<Line>)
    decreases |ys|
  {
    xs == []
    || (ys != [] && (Subsequence(xs, ys[..|ys| - 1])
                     || (xs[|xs| - 1] == ys[|ys| - 1] && Subsequence(xs[..|xs| - 1], ys[..|ys| - 1]))))
  }

  lemma SubsequenceGrows(xs: seq<Line>, ys: seq<Line>, l: Line)
    requires Subsequence(xs, ys)
    ensures Subsequence(xs, ys + [l]) && Subsequence(xs + [l], ys + [l])
  {
    assert (ys + [l])[..|ys|] == ys && (xs + [l])[..|xs|] == xs;
  }

  lemma ParkKeepsNewest(s: State, l: Line)
    requires s.deferred == Newest(s.parked) && s.dropped == |s.lost|
    ensures Park(s, l).deferred == Newest(Park(s, l).parked) && Park(s, l).dropped == |Park(s, l).lost|
  {
  }

  lemma PutKeepsParking(s: State, l: Line)
    requires Parking(s)
    ensures Parking(Put(s, l))
  {
    if s.phase.Requeueing? {
      SubsequenceGrows(Back(s), s.inbox, l);
    }
  }

  lemma RequeueKeepsParking(s: State)
    requires Parking(s) && s.phase.Requeueing? && s.deferred != []
    ensures Parking(RequeueOne(s))
  {
    var s', l := RequeueOne(s), s.deferred[0];
    SubsequenceGrows(Back(s), s.inbox, l);
    assert s'.inbox == s.inbox + [l];
    assert Back(s') == Back(s) + [l];
    assert AllCommands(s'.deferred);
  }

  lemma PumpKeepsParking(s: State)
    requires Parking(s) && s.phase == Pumping(true) && s.inbox != []
    ensures Parking(PumpLine(s))
  {
    if s.inbox[0].Command? {
      ParkKeepsNewest(s.(inbox := s.inbox[1..], phase := Pumping(false)), s.inbox[0]);
    }
  }

  lemma ReadKeepsParking(s: State, e: Event)
    requires Parking(s) && (e.ReadNoise? || e.ReadCancel? || e.ReadCommand?)
    ensures Parking(Step(s, e).value)
  {
    match e
    case ReadNoise => PutKeepsParking(s, Noise);
    case ReadCancel => PutKeepsParking(s, Cancel);
    case ReadCommand(isRun) => PutKeepsParking(s, Command(s.arrived, isRun));
  }

  lemma LoopKeepsParking(s: State, e: Event)
    requires Parking(s) && Step(s, e).Some? && (e.Take? || e.Finish? || e.Check? || e.Timeout? || e.Resume?)
    ensures Parking(Step(s, e).value)
  {
    if e.Check? && s.finished {
      assert Back(Step(s, e).value) == [];
    }
  }

  lemma StepKeepsParking(s: State, e: Event)
    requires Parking(s) && Step(s, e).Some?
    ensures Parking(Step(s, e).value)
  {
    if e.ReadNoise? || e.ReadCancel? || e.ReadCommand? {
      ReadKeepsParking(s, e);
    } else if e.Pump? {
      PumpKeepsParking(s);
    } else if e.Requeue? {
      RequeueKeepsParking(s);
    } else {
      LoopKeepsParking(s, e);
    }
  }

  lemma {:induction false} RunKeepsParking(events: seq<Event>)
    requires Run(START, events).Some?
    ensures Parking(Run(START, events).value)
  {
    if events != [] {
      RunKeepsParking(events[..|events| - 1]);
      StepKeepsParking(Run(START, events[..|events| - 1]).value, events[|events| - 1]);
    }
  }

  /** While a run owns the worker the parked commands are the newest ones in the order they
      were parked; when the main loop resumes, all of them are back in the inbox in that order,
      and the counter tells how many were pushed out. */
  lemma ParkedCommandsReturnInOrder(events: seq<Event>)
    requires Run(START, events).Some?
    ensures var s := Run(START, events).value;
            && s.dropped == |s.lost| && |s.deferred| <= DEFERRED_MAX
            && (s.phase.Pumping? ==> s.deferred == Newest(s.parked))
            && (Step(s, Resume).Some? ==> Subsequence(Newest(s.parked), Step(s, Resume).value.inbox))
  {
    RunKeepsParking(events);
    var s := Run(START, events).value;
    if Step(s, Resume).Some? {
      assert Back(s) == s.returning;
    }
  }

  // ---- The cancel and finished flags ----

  predicate TakesCancel(before: Option<State>, e: Event) {
    e.Pump? && before.Some? && before.value.inbox != [] && before.value.inbox[0] == Cancel
  }

  predicate TakesRun(before: Option<State>, e: Event) {
    && e.Take? && before.Some? && before.value.inbox != []
    && before.value.inbox[0].Command? && before.value.inbox[0].isRun
  }

  /** At place `k` of a run the pump takes a cancel line. */
  predicate Cancels(events: seq<Event>, k: nat)
    requires k < |events|
  {
    TakesCancel(Run(START, events[..k]), events[k])
  }

  /** At place `k` the idle loop takes a command that starts a run. */
  predicate Starts(events: seq<Event>, k: nat)
    requires k < |events|
  {
    TakesRun(Run(START, events[..k]), events[k])
  }

  /** No run starts from place `k` on. */
  ghost predicate NoStart(events: seq<Event>, k: nat) {
    forall j | k <= j < |events| :: !Starts(events, j)
  }

  ghost predicate NoResume(events: seq<Event>, k: nat) {
    forall j | k <= j < |events| :: !events[j].Resume?
  }

  /** A cancel line was taken since the last run started or ended. */
  ghost predicate Canceled(events: seq<Event>) {
    exists k :: 0 <= k < |events| && Cancels(events, k) && NoStart(events, k + 1) && NoResume(events, k + 1)
  }

  /** The worker was done since the last run started. */
  ghost predicate Finished(events: seq<Event>) {
    exists k :: 0 <= k < |events| && events[k].Finish? && NoStart(events, k + 1)
  }

  lemma MarksStay(init: seq<Event>, e: Event, k: nat)
    requires k < |init|
    ensures Cancels(init + [e], k) == Cancels(init, k) && Starts(init + [e], k) == Starts(init, k)
  {
    assert (init + [e])[..k] == init[..k];
  }

  lemma LastMarks(init: seq<Event>, e: Event)
    ensures Cancels(init + [e], |init|) == TakesCancel(Run(START, init), e)
    ensures Starts(init + [e], |init|) == TakesRun(Run(START, init), e)
  {
    assert (init + [e])[..|init|] == init;
  }

  lemma NoStartStep(init: seq<Event>, e: Event, k: nat)
    requires k <= |init|
    ensures NoStart(init + [e], k) <==> NoStart(init, k) && !TakesRun(Run(START, init), e)
  {
    var events := init + [e];
    LastMarks(init, e);
    if NoStart(events, k) {
      assert !Starts(events, |init|);
      forall j | k <= j < |init| ensures !Starts(init, j) {
        MarksStay(init, e, j);
        assert !Starts(events, j);
      }
    }
    if NoStart(init, k) && !TakesRun(Run(START, init), e) {
      forall j | k <= j < |events| ensures !Starts(events, j) {
        if j < |init| {
          MarksStay(init, e, j);
          assert !Starts(init, j);
        }
      }
    }
  }

  lemma CanceledStep(init: seq<Event>, e: Event)
    ensures Canceled(init + [e]) <==>
              TakesCancel(Run(START, init), e) || (Canceled(init) && !TakesRun(Run(START, init), e) && !e.Resume?)
  {
    var events := init + [e];
    LastMarks(init, e);
    if k :| 0 <= k < |events| && Cancels(events, k) && NoStart(events, k + 1) && NoResume(events, k + 1) {
      if k < |init| {
        MarksStay(init, e, k);
        NoStartStep(init, e, k + 1);
        assert events[|init|] == e;
        assert forall j | k + 1 <= j < |init| :: init[j] == events[j];
        assert NoResume(init, k + 1);
      }
    }
    if TakesCancel(Run(START, init), e) {
      assert NoStart(events, |events|) && NoResume(events, |events|);
      assert Cancels(events, |init|);
    } else if Canceled(init) && !TakesRun(Run(START, init), e) && !e.Resume? {
      var k :| 0 <= k < |init| && Cancels(init, k) && NoStart(init, k + 1) && NoResume(init, k + 1);
      MarksStay(init, e, k);
      NoStartStep(init, e, k + 1);
      assert NoResume(events, k + 1);
    }
  }

  lemma FinishedStep(init: seq<Event>, e: Event)
    ensures Finished(init + [e]) <==> e.Finish? || (Finished(init) && !TakesRun(Run(START, init), e))
  {
    var events := init + [e];
    if k :| 0 <= k < |events| && events[k].Finish? && NoStart(events, k + 1) {
      if k < |init| {
        NoStartStep(init, e, k + 1);
        assert init[k].Finish?;
      }
    }
    if e.Finish? {
      assert events[|init|].Finish? && NoStart(events, |init| + 1);
    } else if Finished(init) && !TakesRun(Run(START, init), e) {
      var k :| 0 <= k < |init| && init[k].Finish? && NoStart(init, k + 1);
      NoStartStep(init, e, k + 1);
      assert events[k].Finish?;
    }
  }

  /** The cancel flag is up exactly if a run has taken a cancel line and neither ended nor been
      followed by another; the finished flag exactly if the worker of the last run is done. So no
      run starts out canceled, and no run is resumed from before its worker is done. */
  lemma {:induction false} FlagsExactly(events: seq<Event>)
    requires Run(START, events).Some?
    ensures var s := Run(START, events).value;
            && (s.cancel <==> Canceled(events)) && (s.finished <==> Finished(events))
            && (s.phase.Idle? ==> !s.cancel) && (s.phase.Requeueing? ==> s.finished)
  {
    if events != [] {
      var init, e := events[..|events| - 1], events[|events| - 1];
      assert events == init + [e];
      FlagsExactly(init);
      CanceledStep(init, e);
      FinishedStep(init, e);
    }
  }
}
