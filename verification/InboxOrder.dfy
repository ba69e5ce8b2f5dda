/** The order of arrival across a run (src/app/headless.py, _pump_while_running and
    _requeue_deferred): when re-queueing keeps it. */
module InboxOrder {
  import opened Wrappers
  import opened LabInbox

  ghost predicate InOrder(lines: seq<Line>) {
    forall i, j | 0 <= i < j < |lines| && lines[i].Command? && lines[j].Command? :: lines[i].id < lines[j].id
  }

  /** Some command is waiting. */
  predicate Waiting(inbox: seq<Line>) {
    exists l :: l in inbox && l.Command?
  }

  predicate Reads(events: seq<Event>) {
    exists e :: e in events && e.ReadCommand?
  }

  /** The reader puts a command before the last parked one is back. */
  predicate Overtakes(events: seq<Event>) {
    exists i, j :: 0 <= i < j < |events| && events[i].ReadCommand? && events[j].Requeue?
  }

  predicate Requeues(events: seq<Event>) {
    exists e :: e in events && e.Requeue?
  }

  /** Commands are numbered by arrival, so each one that is somewhere has a smaller number than
      the next to come. */
  ghost predicate Numbered(s: State) {
    (forall l | l in s.inbox && l.Command? :: l.id < s.arrived) && forall l | l in s.deferred && l.Command? :: l.id < s.arrived
  }

  lemma {:induction false} CountPresent(lines: seq<Line>, l: Line)
    requires l in lines && l.Command?
    ensures Count(lines, l.id) > 0
  {
    var n := |lines| - 1;
    assert lines == lines[..n] + [lines[n]];
    if lines[n] != l {
      CountPresent(lines[..n], l);
    }
  }

  lemma RunsAreNumbered(events: seq<Event>)
    requires Run(START, events).Some?
    ensures Numbered(Run(START, events).value)
  {
    var s := Run(START, events).value;
    forall l | l in s.inbox + s.deferred && l.Command? ensures l.id < s.arrived {
      if l in s.inbox { CountPresent(s.inbox, l); } else { CountPresent(s.deferred, l); }
      EveryCommandIsSomewhere(events, l.id);
    }
    assert forall l | l in s.inbox || l in s.deferred :: l in s.inbox + s.deferred;
  }

  lemma AppendInOrder(lines: seq<Line>, l: Line)
    ensures InOrder(lines + [l]) <==> InOrder(lines) && (l.Command? ==> forall x | x in lines && x.Command? :: x.id < l.id)
  {
    var all := lines + [l];
    assert all[|lines|] == l && forall i | 0 <= i < |lines| :: all[i] == lines[i];
    if InOrder(all) {
      assert forall i, j | 0 <= i < j < |lines| && lines[i].Command? && lines[j].Command? :: all[i].id < all[j].id;
      forall x | x in lines && x.Command? && l.Command? ensures x.id < l.id {
        var i :| 0 <= i < |lines| && lines[i] == x;
        assert all[i].id < all[|lines|].id;
      }
    }
  }

  /** A command that belongs behind everything that was parked. */
  ghost predicate Late(parked: seq<Line>, l: Line) {
    l.Command? && forall d | d in parked && d.Command? :: d.id < l.id
  }

  ghost predicate SomeLate(parked: seq<Line>, inbox: seq<Line>) {
    exists l :: l in inbox && Late(parked, l)
  }

  /** Every other command of the inbox is older than all that is still parked. */
  ghost predicate Placed(parked: seq<Line>, inbox: seq<Line>, back: nat) {
    forall l, i | l in inbox && l.Command? && !Late(parked, l) && back <= i < |parked| && parked[i].Command? ::
      l.id < parked[i].id
  }

  ghost predicate AllBelow(inbox: seq<Line>, bound: nat) {
    forall l | l in inbox && l.Command? :: l.id < bound
  }

  /** What is still parked is the end of what was. */
  ghost predicate Remaining(s: State, events: seq<Event>, t: State) {
    && t.phase.Requeueing? && |t.deferred| <= |s.deferred|
    && t.deferred == s.deferred[|s.deferred| - |t.deferred|..]
    && (|t.deferred| < |s.deferred| <==> Requeues(events))
  }

  /** Where everything else is, by number. */
  ghost predicate Arranged(parked: seq<Line>, inbox: seq<Line>, back: nat, bound: nat, late: bool) {
    && AllBelow(parked, bound) && AllBelow(inbox, bound)
    && Placed(parked, inbox, back)
    && (SomeLate(parked, inbox) <==> late)
  }

  /** While re-queueing goes on from `s`: the first parked commands are back, and the order of
      arrival is lost exactly if a parked command went behind a late one. */
  ghost predicate Requeued(s: State, events: seq<Event>, t: State) {
    && Remaining(s, events, t)
    && Arranged(s.deferred, t.inbox, |s.deferred| - |t.deferred|, t.arrived, Waiting(s.inbox) || Reads(events))
    && (InOrder(t.inbox) <==> !(Waiting(s.inbox) && Requeues(events)) && !Overtakes(events))
  }

  lemma InAppend(lines: seq<Line>, l: Line)
    ensures forall x :: x in lines + [l] <==> x in lines || x == l
  {
  }

  lemma LateAppend(parked: seq<Line>, inbox: seq<Line>, l: Line)
    ensures SomeLate(parked, inbox + [l]) <==> SomeLate(parked, inbox) || Late(parked, l)
  {
    InAppend(inbox, l);
  }

  lemma PlacedPut(parked: seq<Line>, inbox: seq<Line>, back: nat, l: Line)
    requires Placed(parked, inbox, back) && (l.Command? ==> Late(parked, l))
    ensures Placed(parked, inbox + [l], back)
  {
    InAppend(inbox, l);
  }

  lemma PlacedBack(parked: seq<Line>, inbox: seq<Line>, back: nat)
    requires Placed(parked, inbox, back) && back < |parked| && AllCommands(parked) && InOrder(parked)
    ensures Placed(parked, inbox + [parked[back]], back + 1)
  {
    InAppend(inbox, parked[back]);
    assert forall i | 0 <= i < |parked| :: parked[i] in parked;
  }

  lemma BelowPut(inbox: seq<Line>, bound: nat, l: Line, bound': nat)
    requires AllBelow(inbox, bound) && bound <= bound' && (l.Command? ==> l.id < bound')
    ensures AllBelow(inbox + [l], bound')
  {
    InAppend(inbox, l);
  }

  lemma OrderPut(inbox: seq<Line>, bound: nat, l: Line)
    requires AllBelow(inbox, bound) && (l.Command? ==> bound <= l.id)
    ensures InOrder(inbox + [l]) <==> InOrder(inbox)
  {
    AppendInOrder(inbox, l);
  }

  /** A parked command goes back in order exactly if nothing late is before it. */
  lemma OrderBack(parked: seq<Line>, inbox: seq<Line>, back: nat)
    requires Placed(parked, inbox, back) && back < |parked| && AllCommands(parked)
    ensures InOrder(inbox + [parked[back]]) <==> InOrder(inbox) && !SomeLate(parked, inbox)
  {
    AppendInOrder(inbox, parked[back]);
    assert parked[back] in parked;
  }

  lemma EventsGrow(events: seq<Event>, e: Event)
    ensures Reads(events + [e]) <==> Reads(events) || e.ReadCommand?
    ensures Requeues(events + [e]) <==> Requeues(events) || e.Requeue?
    ensures Overtakes(events + [e]) <==> Overtakes(events) || (e.Requeue? && Reads(events))
  {
    var all := events + [e];
    assert all[|events|] == e && forall i | 0 <= i < |events| :: all[i] == events[i];
    if Overtakes(events) {
      var i, j :| 0 <= i < j < |events| && events[i].ReadCommand? && events[j].Requeue?;
      assert all[i].ReadCommand? && all[j].Requeue?;
    }
    if e.Requeue? && Reads(events) {
      var i :| 0 <= i < |events| && events[i].ReadCommand?;
      assert all[i].ReadCommand? && all[|events|].Requeue?;
    }
  }

  lemma RequeueStarts(s: State)
    requires s.phase.Requeueing? && AllCommands(s.deferred) && InOrder(s.deferred + s.inbox) && Numbered(s)
    ensures Requeued(s, [], s) && InOrder(s.deferred)
  {
    SplitInOrder(s.deferred, s.inbox);
    forall l | l in s.inbox && l.Command? ensures Late(s.deferred, l) {
    }
  }

  lemma SplitInOrder(a: seq<Line>, b: seq<Line>)
    requires InOrder(a + b)
    ensures InOrder(a) && InOrder(b)
    ensures forall x, y | x in a && y in b && x.Command? && y.Command? :: x.id < y.id
  {
    var all := a + b;
    assert forall i | 0 <= i < |a| :: all[i] == a[i];
    assert forall j | 0 <= j < |b| :: all[|a| + j] == b[j];
    forall i, j | 0 <= i < j < |b| && b[i].Command? && b[j].Command? ensures b[i].id < b[j].id {
      assert all[|a| + i].id < all[|a| + j].id;
    }
    forall x, y | x in a && y in b && x.Command? && y.Command? ensures x.id < y.id {
      var i :| 0 <= i < |a| && a[i] == x;
      var j :| 0 <= j < |b| && b[j] == y;
      assert all[i].id < all[|a| + j].id;
    }
  }

  lemma ArrangedPut(parked: seq<Line>, inbox: seq<Line>, back: nat, bound: nat, late: bool, l: Line, bound': nat)
    requires Arranged(parked, inbox, back, bound, late) && bound <= bound'
    requires l.Command? ==> bound <= l.id < bound'
    ensures Arranged(parked, inbox + [l], back, bound', late || l.Command?)
    ensures InOrder(inbox + [l]) <==> InOrder(inbox)
  {
    assert l.Command? <==> Late(parked, l);
    LateAppend(parked, inbox, l);
    PlacedPut(parked, inbox, back, l);
    BelowPut(inbox, bound, l, bound');
    OrderPut(inbox, bound, l);
  }

  lemma ArrangedBack(parked: seq<Line>, inbox: seq<Line>, back: nat, bound: nat, late: bool)
    requires Arranged(parked, inbox, back, bound, late) && back < |parked| && AllCommands(parked) && InOrder(parked)
    ensures Arranged(parked, inbox + [parked[back]], back + 1, bound, late)
    ensures InOrder(inbox + [parked[back]]) <==> InOrder(inbox) && !late
  {
    var d := parked[back];
    assert d in parked && !Late(parked, d);
    LateAppend(parked, inbox, d);
    PlacedBack(parked, inbox, back);
    BelowPut(inbox, bound, d, bound);
    OrderBack(parked, inbox, back);
  }

  lemma ReadRemaining(s: State, events: seq<Event>, t: State, e: Event)
    requires Remaining(s, events, t) && (e.ReadNoise? || e.ReadCancel? || e.ReadCommand?)
    ensures Remaining(s, events + [e], Step(t, e).value) && Step(t, e).value.deferred == t.deferred
  {
    EventsGrow(events, e);
  }

  function LineOf(t: State, e: Event): Line {
    match e
    case ReadCancel => Cancel
    case ReadCommand(isRun) => Command(t.arrived, isRun)
    case _ => Noise
  }

  lemma ReadPuts(t: State, e: Event)
    requires e.ReadNoise? || e.ReadCancel? || e.ReadCommand?
    ensures Step(t, e).value.inbox == t.inbox + [LineOf(t, e)]
    ensures Step(t, e).value.arrived == t.arrived + if LineOf(t, e).Command? then 1 else 0
    ensures LineOf(t, e).Command? <==> e.ReadCommand?
  {
  }

  lemma ReadRequeued(s: State, events: seq<Event>, t: State, e: Event)
    requires Requeued(s, events, t) && (e.ReadNoise? || e.ReadCancel? || e.ReadCommand?)
    ensures Requeued(s, events + [e], Step(t, e).value)
  {
    ReadRemaining(s, events, t, e);
    ReadPuts(t, e);
    EventsGrow(events, e);
    ArrangedPut(s.deferred, t.inbox, |s.deferred| - |t.deferred|, t.arrived, Waiting(s.inbox) || Reads(events),
              LineOf(t, e), Step(t, e).value.arrived);
  }

  lemma BackRemaining(s: State, events: seq<Event>, t: State)
    requires Remaining(s, events, t) && t.deferred != []
    ensures Remaining(s, events + [Requeue], RequeueOne(t))
    ensures RequeueOne(t).inbox == t.inbox + [s.deferred[|s.deferred| - |t.deferred|]]
  {
    EventsGrow(events, Requeue);
    assert RequeueOne(t).deferred == s.deferred[|s.deferred| - |t.deferred| + 1..];
  }

  lemma BackRequeued(s: State, events: seq<Event>, t: State)
    requires Requeued(s, events, t) && t.deferred != [] && AllCommands(s.deferred) && InOrder(s.deferred)
    ensures Requeued(s, events + [Requeue], RequeueOne(t))
  {
    BackRemaining(s, events, t);
    EventsGrow(events, Requeue);
    ArrangedBack(s.deferred, t.inbox, |s.deferred| - |t.deferred|, t.arrived, Waiting(s.inbox) || Reads(events));
  }

  /** Between the finishing look at the flag and the resume there are only reads and
      re-queueings. */
  lemma RequeueingSteps(t: State, e: Event)
    requires t.phase.Requeueing? && Step(t, e).Some? && e != Resume
    ensures e.ReadNoise? || e.ReadCancel? || e.ReadCommand? || (e == Requeue && t.deferred != [])
  {
  }

  lemma OneMoreRequeued(s: State, events: seq<Event>, t: State, e: Event)
    requires Requeued(s, events, t) && AllCommands(s.deferred) && InOrder(s.deferred)
    requires Step(t, e).Some? && e != Resume
    ensures Requeued(s, events + [e], Step(t, e).value)
  {
    RequeueingSteps(t, e);
    if e == Requeue {
      BackRequeued(s, events, t);
    } else {
      ReadRequeued(s, events, t, e);
    }
  }

  lemma {:induction false} RequeueingIsTracked(s: State, events: seq<Event>)
    requires Requeued(s, [], s) && AllCommands(s.deferred) && InOrder(s.deferred)
    requires Run(s, events).Some? && Resume !in events
    ensures Requeued(s, events, Run(s, events).value)
  {
    if events != [] {
      var init, e := events[..|events| - 1], events[|events| - 1];
      assert events == init + [e] && e in events;
      RequeueingIsTracked(s, init);
      OneMoreRequeued(s, init, Run(s, init).value, e);
    }
  }

  lemma {:induction false} RunAppends(s: State, a: seq<Event>, b: seq<Event>)
    ensures Run(s, a + b) == match Run(s, a) { case Some(t) => Run(t, b) case None => None }
  {
    if b == [] {
      assert a + b == a;
    } else {
      RunAppends(s, a, b[..|b| - 1]);
      assert (a + b)[..|a + b| - 1] == a + b[..|b| - 1];
    }
  }

  lemma RunOne(s: State, e: Event)
    ensures Run(s, [e]) == Step(s, e)
  {
    assert [e][..0] == [];
  }

  /** From the finishing look at the flag to the resume. */
  lemma OrderFromCheck(s: State, during: seq<Event>)
    requires s.phase.Requeueing? && AllCommands(s.deferred) && InOrder(s.deferred + s.inbox) && Numbered(s)
    requires Run(s, during).Some? && Resume !in during && Step(Run(s, during).value, Resume).Some?
    ensures InOrder(Run(s, during).value.inbox) <==> s.deferred == [] || (!Waiting(s.inbox) && !Overtakes(during))
  {
    RequeueStarts(s);
    RequeueingIsTracked(s, during);
  }

  /** Over every run: if the order of arrival is intact when the pump stops, it is intact when
      the main loop resumes exactly if nothing was parked, or no command was waiting then and
      none arrived before the last parked one was back. */
  lemma RequeueKeepsArrivalOrder(before: seq<Event>, during: seq<Event>)
    requires Run(START, before + [Check]).Some? && Run(START, before + [Check]).value.phase.Requeueing?
    requires Run(START, before + [Check] + during + [Resume]).Some? && Resume !in during
    requires var s := Run(START, before + [Check]).value;
             InOrder(s.deferred + s.inbox)
    ensures var s := Run(START, before + [Check]).value;
            InOrder(Run(START, before + [Check] + during + [Resume]).value.inbox)
            <==> s.deferred == [] || (!Waiting(s.inbox) && !Overtakes(during))
  {
    var s := Run(START, before + [Check]).value;
    RunKeepsParking(before + [Check]);
    RunsAreNumbered(before + [Check]);
    RunAppends(START, before + [Check], during);
    RunAppends(START, before + [Check] + during, [Resume]);
    RunOne(Run(s, during).value, Resume);
    OrderFromCheck(s, during);
  }

  const PARKING_RUN: seq<Event> :=
    [ReadCommand(true), Take, ReadCommand(false), ReadCommand(false), Check, Pump, Check, Pump, Finish, Check]

  const OVERTAKING: seq<Event> := [Requeue, ReadCommand(false), Requeue]

  lemma {:induction false} TraceRuns(states: seq<State>, events: seq<Event>)
    requires |states| == |events| + 1
    requires forall i | 0 <= i < |events| :: Step(states[i], events[i]) == Some(states[i + 1])
    ensures Run(states[0], events) == Some(states[|events|])
  {
    if events != [] {
      TraceRuns(states[..|events|], events[..|events| - 1]);
    }
  }

  function During(inbox: seq<Line>, deferred: seq<Line>, phase: Phase, arrived: nat): State {
    START.(inbox := inbox, deferred := deferred, phase := phase, arrived := arrived, handled := [Command(0, true)],
           parked := deferred)
  }

  const A := Command(1, false)
  const B := Command(2, false)

  const PARKING_STATES := [
    START,
    START.(inbox := [Command(0, true)], arrived := 1),
    During([], [], Pumping(false), 1),
    During([A], [], Pumping(false), 2),
    During([A, B], [], Pumping(false), 3),
    During([A, B], [], Pumping(true), 3),
    During([B], [A], Pumping(false), 3),
    During([B], [A], Pumping(true), 3),
    During([], [A, B], Pumping(false), 3),
    During([], [A, B], Pumping(false), 3).(finished := true),
    During([], [A, B], Requeueing, 3).(finished := true, returning := [A, B])]

  lemma TwoArrive(i: nat)
    requires 0 <= i < 5
    ensures Step(PARKING_STATES[i], PARKING_RUN[i]) == Some(PARKING_STATES[i + 1])
  {
    var next, want := Step(PARKING_STATES[i], PARKING_RUN[i]), PARKING_STATES[i + 1];
    assert next.Some?;
    assert next.value.inbox == want.inbox && next.value.deferred == want.deferred;
    assert next.value.parked == want.parked && next.value.handled == want.handled;
  }

  lemma TwoAreParked(i: nat)
    requires 5 <= i < 10
    ensures Step(PARKING_STATES[i], PARKING_RUN[i]) == Some(PARKING_STATES[i + 1])
  {
    var next, want := Step(PARKING_STATES[i], PARKING_RUN[i]), PARKING_STATES[i + 1];
    assert next.Some?;
    assert next.value.inbox == want.inbox && next.value.deferred == want.deferred;
    assert next.value.parked == want.parked && next.value.handled == want.handled;
  }

  /** Two commands are parked, and none is waiting, when the pump stops. */
  lemma ParkingRun()
    ensures Run(START, PARKING_RUN) == Some(PARKING_STATES[10])
  {
    forall i | 0 <= i < |PARKING_RUN| ensures Step(PARKING_STATES[i], PARKING_RUN[i]) == Some(PARKING_STATES[i + 1]) {
      if i < 5 { TwoArrive(i); } else { TwoAreParked(i); }
    }
    TraceRuns(PARKING_STATES, PARKING_RUN);
  }

  /** So the condition on what arrives meanwhile is needed: command 3, read between the two
      re-queueings, ends up between the parked commands 1 and 2. */
  lemma CommandReadMeanwhileOvertakes()
    ensures Run(START, PARKING_RUN).Some? && Run(START, PARKING_RUN + OVERTAKING + [Resume]).Some?
    ensures Run(START, PARKING_RUN).value.inbox == [] && Run(START, PARKING_RUN).value.deferred == [A, B]
    ensures Run(START, PARKING_RUN + OVERTAKING + [Resume]).value.inbox
            == [A, Command(3, false), B]
  {
    ParkingRun();
    var s := PARKING_STATES[10];
    var c := Command(3, false);
    var events := OVERTAKING + [Resume];
    var states := [
      s,
      s.(inbox := [A], deferred := [B]),
      s.(inbox := [A, c], deferred := [B], arrived := 4),
      s.(inbox := [A, c, B], deferred := [], arrived := 4),
      s.(inbox := [A, c, B], deferred := [], arrived := 4, phase := Idle)];
    assert events == [Requeue, ReadCommand(false), Requeue, Resume];
    forall i | 0 <= i < 4 ensures Step(states[i], events[i]) == Some(states[i + 1]) {
      var next := Step(states[i], events[i]);
      assert next.Some? && next.value.inbox == states[i + 1].inbox && next.value.deferred == states[i + 1].deferred;
    }
    TraceRuns(states, events);
    assert PARKING_RUN + OVERTAKING + [Resume] == PARKING_RUN + events;
    RunAppends(START, PARKING_RUN, events);
  }
}
