/** The protocol's promises over every run of its handlers. */
module DispatchRuns {
  import opened Common
  import opened OperatorRotation
  import opened ChatDispatch
  import opened WorkConservation

  // ---------------------------------------------------------------- automatic assignments

  /** One assignment made by the system, with the state it was made in. */
  datatype Assignment = Assignment(before: State, id: SessionId, op: OperatorId)

  function DrainAssignments(s: State, op: OperatorId, drained: seq<SessionId>): seq<Assignment>
    decreases |drained|
  {
    if drained == [] || drained[0] !in s.sessions then []
    else [Assignment(s, drained[0], op)] + DrainAssignments(Assigned(s, drained[0], Some(op)), op, drained[1..])
  }

  /** Everything a handler assigns without an operator asking for that session. */
  function AutoAssignments(c: Config, s: State, e: Event): seq<Assignment> {
    match e
    case VisitorStart(id, startedAt) =>
      var started := Started(s, id, startedAt);
      var p := PickedOperator(c, started);
      if p.chosen == None then [] else [Assignment(started, id, p.chosen.value)]
    case _ =>
      match DrainCall(s, e)
      case Some((from, op)) => DrainAssignments(from, op, DrainedBy(e))
      case None => []
  }

  /** No overtaking, no overload, no supervisor. */
  ghost predicate Fair(c: Config, a: Assignment) {
    && Oldest(a.before, a.id)
    && Active(a.before, a.op) < c.maxActiveChats
    && Drainable(c, a.before, a.op)
  }

  ghost predicate AllFair(c: Config, assignments: seq<Assignment>) {
    forall i :: 0 <= i < |assignments| ==> Fair(c, assignments[i])
  }

  lemma {:induction false} DrainIsFair(c: Config, s: State, op: OperatorId, drained: seq<SessionId>)
    requires Drains(c, s, op, drained)
    ensures AllFair(c, DrainAssignments(s, op, drained))
    decreases |drained|
  {
    if drained != [] {
      DrainIsFair(c, Assigned(s, drained[0], Some(op)), op, drained[1..]);
    }
  }

  lemma StartIsFair(c: Config, s: State, id: SessionId, startedAt: int)
    requires WellFormed(s) && Conserving(c, s) && id !in s.sessions
    ensures AllFair(c, AutoAssignments(c, s, VisitorStart(id, startedAt)))
  {
    var started := Started(s, id, startedAt);
    PickedMeaning(c, started);
    StartConserves(c, s, id, startedAt);
    if Waiting(s) == {} {
      assert Waiting(started) == {id};
    }
  }

  lemma EventIsFair(c: Config, s: State, e: Event)
    requires WellFormed(s) && Conserving(c, s) && Possible(c, s, e)
    ensures AllFair(c, AutoAssignments(c, s, e))
  {
    if e.VisitorStart? {
      StartIsFair(c, s, e.id, e.startedAt);
    } else {
      match DrainCall(s, e)
      case Some((from, op)) => DrainIsFair(c, from, op, DrainedBy(e));
      case None =>
    }
  }

  // ---------------------------------------------------------------- runs

  function Run(c: Config, s: State, events: seq<Event>): State
    decreases |events|
  {
    if events == [] then s else Run(c, Next(c, s, events[0]), events[1..])
  }

  /** Every event is possible where it happens and belongs to the step set. */
  ghost predicate ValidRun(c: Config, s: State, events: seq<Event>)
    decreases |events|
  {
    events != [] ==>
      && Possible(c, s, events[0]) && InStepSet(s, events[0])
      && ValidRun(c, Next(c, s, events[0]), events[1..])
  }

  /** Every event of the run can happen where it does; it need not belong to the step set. */
  ghost predicate PossibleRun(c: Config, s: State, events: seq<Event>)
    decreases |events|
  {
    events != [] ==> Possible(c, s, events[0]) && PossibleRun(c, Next(c, s, events[0]), events[1..])
  }

  ghost predicate RunIsFair(c: Config, s: State, events: seq<Event>)
    decreases |events|
  {
    events != [] ==>
      AllFair(c, AutoAssignments(c, s, events[0])) && RunIsFair(c, Next(c, s, events[0]), events[1..])
  }

  lemma {:induction false} RunAppend(c: Config, s: State, before: seq<Event>, after: seq<Event>)
    requires PossibleRun(c, s, before + after)
    ensures PossibleRun(c, s, before) && PossibleRun(c, Run(c, s, before), after)
    ensures Run(c, s, before + after) == Run(c, Run(c, s, before), after)
    decreases |before|
  {
    if before == [] {
      assert before + after == after;
    } else {
      assert (before + after)[1..] == before[1..] + after;
      RunAppend(c, Next(c, s, before[0]), before[1..], after);
    }
  }

  lemma {:induction false} RunKeepsShape(c: Config, s: State, events: seq<Event>)
    requires WellFormed(s) && PossibleRun(c, s, events)
    ensures WellFormed(Run(c, s, events))
    decreases |events|
  {
    if events != [] {
      NextKeepsShape(c, s, events[0]);
      RunKeepsShape(c, Next(c, s, events[0]), events[1..]);
    }
  }

  lemma {:induction false} RunKeeps(c: Config, s: State, events: seq<Event>)
    requires WellFormed(s) && Conserving(c, s) && ValidRun(c, s, events)
    ensures WellFormed(Run(c, s, events)) && Conserving(c, Run(c, s, events))
    ensures RunIsFair(c, s, events)
    decreases |events|
  {
    if events != [] {
      NextKeepsShape(c, s, events[0]);
      NextConserves(c, s, events[0]);
      EventIsFair(c, s, events[0]);
      RunKeeps(c, Next(c, s, events[0]), events[1..]);
    }
  }

  /**
    Work conservation, from a fresh start: in every reachable state, if a visitor waits then
    every eligible operator already holds the maximum number of open chats.
  */
  lemma WorkIsConserved(c: Config, events: seq<Event>, op: OperatorId)
    requires ValidRun(c, INITIAL, events)
    requires Waiting(Run(c, INITIAL, events)) != {}
    requires Eligible(c, Run(c, INITIAL, events), op)
    ensures Active(Run(c, INITIAL, events), op) >= c.maxActiveChats
  {
    assert Waiting(INITIAL) == {};
    RunKeeps(c, INITIAL, events);
  }

  /**
    No overtaking, from a fresh start: no automatic assignment of any run, including the
    direct one when a visitor starts, is made while an older session waits, to an operator
    who is full, or to a supervisor.
  */
  lemma NobodyOvertakes(c: Config, events: seq<Event>)
    requires ValidRun(c, INITIAL, events)
    ensures RunIsFair(c, INITIAL, events)
  {
    assert Waiting(INITIAL) == {};
    RunKeeps(c, INITIAL, events);
  }

  // ---------------------------------------------------------------- the supervisors' queue view

  /** Events after which the handler has synced the rotation list to the eligible operators. */
  predicate Syncs(c: Config, s: State, e: Event) {
    match e
    case VisitorStart(_, _) => EligibleIds(c, s) != []
    case OperatorJoin(_, _) => true
    case SetStatus(op, _, _) => op in s.preference
    case GoOffline(op) => op in s.preference
    case _ => false
  }

  /** Every other event but a restart leaves presence and list alone. */
  lemma NextTracks(c: Config, s: State, e: Event)
    requires WellFormed(s) && Possible(c, s, e) && Distinct(s.rotation)
    ensures Syncs(c, s, e) ==> QueueTracks(c, Next(c, s, e))
    ensures QueueTracks(c, s) && !e.Restart? ==> QueueTracks(c, Next(c, s, e))
    ensures Distinct(Next(c, s, e).rotation)
  {
    match e {
      case VisitorStart(id, startedAt) =>
        PickedMeaning(c, Started(s, id, startedAt));
      case OperatorJoin(op, drained) =>
        var p := if op in s.preference then s.preference[op] else Online;
        DrainFrame(WithPreference(s, op, p), op, drained);
        SyncTracks(c, Drained(WithPreference(s, op, p), op, drained));
      case SetStatus(op, status, drained) =>
        if op in s.preference {
          DrainFrame(WithPreference(s, op, status), op, drained);
          SyncTracks(c, Drained(WithPreference(s, op, status), op, drained));
        }
      case GoOffline(op) =>
        if op in s.preference {
          SyncTracks(c, Offline(s, op));
        }
      case Close(id, guard, drained) =>
        if Passes(s, id, guard) && s.sessions[id].operatorId.Some? {
          DrainFrame(WithOpen(s, id, false), s.sessions[id].operatorId.value, drained);
        }
      case OperatorClose(id, closer, drained) =>
        if id in s.sessions {
          DrainFrame(WithOpen(s, id, false), closer, drained);
        }
      case _ =>
    }
  }

  lemma SyncTracks(c: Config, s: State)
    requires Distinct(s.rotation)
    ensures QueueTracks(c, QueueSynced(c, s))
  {
    SyncedShape(s.rotation, EligibleIds(c, s));
  }

  /** Without a restart the supervisors' view lists exactly the eligible operators at all times. */
  lemma {:induction false} QueueAlwaysTracks(c: Config, s: State, events: seq<Event>)
    requires WellFormed(s) && QueueTracks(c, s) && PossibleRun(c, s, events)
    requires forall i :: 0 <= i < |events| ==> !events[i].Restart?
    ensures QueueTracks(c, Run(c, s, events))
    decreases |events|
  {
    if events != [] {
      NextKeepsShape(c, s, events[0]);
      NextTracks(c, s, events[0]);
      QueueAlwaysTracks(c, Next(c, s, events[0]), events[1..]);
    }
  }
}
