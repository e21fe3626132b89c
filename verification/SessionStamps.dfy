/** What the time stamps of a session row mean: first pickup, and closing. */
module SessionStamps {
  import opened Common
  import opened ChatDispatch
  import opened WorkConservation
  import opened DispatchRuns

  /** An assigned row has its pickup stamp, a row is closed exactly when it has a closing stamp, and no stamp is in the future. */
  ghost predicate RowStamped(row: Session, now: int) {
    && (row.operatorId.Some? ==> row.assignedAt.Some?)
    && (row.open <==> row.closedAt == None)
    && (row.assignedAt.Some? ==> row.assignedAt.value <= now)
    && (row.closedAt.Some? ==> row.closedAt.value <= now)
  }

  ghost predicate Stamped(s: State) {
    forall id :: id in s.sessions ==> RowStamped(s.sessions[id], s.now)
  }

  /** The pickup stamp of a row may only go from absent to the present moment, and only with an operator. */
  ghost predicate PickupKept(before: Session, after: Session, now: int) {
    && (before.assignedAt.Some? ==> after.assignedAt == before.assignedAt)
    && (before.assignedAt == None && after.assignedAt.Some? ==> after.assignedAt == Some(now) && after.operatorId.Some?)
  }

  ghost predicate Kept(s: State, t: State, id: SessionId) {
    id in s.sessions ==> id in t.sessions && PickupKept(s.sessions[id], t.sessions[id], s.now)
  }

  ghost predicate AllKept(s: State, t: State) {
    forall id :: id in s.sessions ==> Kept(s, t, id)
  }

  lemma {:induction false} DrainStamps(s: State, op: OperatorId, drained: seq<SessionId>)
    requires Stamped(s)
    ensures Stamped(Drained(s, op, drained)) && AllKept(s, Drained(s, op, drained))
    ensures Drained(s, op, drained).now == s.now && Drained(s, op, drained).sessions.Keys == s.sessions.Keys
    ensures forall id :: id in s.sessions && s.sessions[id].operatorId.Some? ==> Drained(s, op, drained).sessions[id].operatorId.Some?
    decreases |drained|
  {
    if drained != [] && drained[0] in s.sessions {
      var t := Assigned(s, drained[0], Some(op));
      DrainStamps(t, op, drained[1..]);
      forall id | id in s.sessions
        ensures Kept(s, Drained(s, op, drained), id)
      {
        assert Kept(s, t, id);
        assert Kept(t, Drained(s, op, drained), id);
      }
    }
  }

  lemma CloseStamps(s: State, id: SessionId, drainFor: Option<OperatorId>, drained: seq<SessionId>)
    requires Stamped(s) && id in s.sessions
    ensures
      var t := ClosedThenDrained(s, id, drainFor, drained);
      Stamped(t) && AllKept(s, t) && id in t.sessions && t.sessions[id].closedAt == Some(s.now)
  {
    var closed := WithOpen(s, id, false);
    if drainFor.Some? {
      DrainStamps(closed, drainFor.value, drained);
      DrainFrame(closed, drainFor.value, drained);
      var t := Drained(closed, drainFor.value, drained);
      forall x | x in s.sessions ensures Kept(s, t, x) {
        assert Kept(closed, t, x);
      }
    }
  }

  lemma AssignStamps(s: State, id: SessionId, op: Option<OperatorId>)
    requires Stamped(s) && id in s.sessions
    ensures Stamped(Assigned(s, id, op)) && AllKept(s, Assigned(s, id, op))
  {}

  lemma StartStamps(c: Config, s: State, id: SessionId, startedAt: int)
    requires Stamped(s) && id !in s.sessions
    ensures Stamped(VisitorStarted(c, s, id, startedAt)) && AllKept(s, VisitorStarted(c, s, id, startedAt))
  {
    hide PickedOperator;
    var started := Started(s, id, startedAt);
    assert Stamped(started);
    AssignStamps(started, id, PickedOperator(c, started).chosen);
  }

  /** Every handler keeps the stamps in order and never moves a pickup stamp. */
  lemma NextStamps(c: Config, s: State, e: Event)
    requires Stamped(s) && Possible(c, s, e)
    ensures Stamped(Next(c, s, e))
    ensures forall id :: e != DeleteSession(id) ==> Kept(s, Next(c, s, e), id)
  {
    hide VisitorStarted;
    match e {
      case VisitorStart(id, startedAt) => StartStamps(c, s, id, startedAt);
      case PatchAssign(id, to) =>
        if id in s.sessions { AssignStamps(s, id, to); }
      case JoinSession(id, op) =>
        if Claimable(c, s, id, op, false) { AssignStamps(s, id, Some(op)); }
      case OperatorMessage(id, op) =>
        if Claimable(c, s, id, op, true) { AssignStamps(s, id, Some(op)); }
      case OperatorJoin(op, drained) =>
        DrainStamps(WithPreference(s, op, if op in s.preference then s.preference[op] else Online), op, drained);
      case SetStatus(op, status, drained) =>
        if op in s.preference { DrainStamps(WithPreference(s, op, status), op, drained); }
      case Close(id, guard, drained) =>
        if Passes(s, id, guard) { CloseStamps(s, id, s.sessions[id].operatorId, drained); }
      case OperatorClose(id, closer, drained) =>
        if id in s.sessions { CloseStamps(s, id, Some(closer), drained); }
      case _ =>
    }
  }

  /** The row is not deleted in the run. */
  ghost predicate NeverDeleted(events: seq<Event>, id: SessionId) {
    forall i :: 0 <= i < |events| ==> events[i] != DeleteSession(id)
  }

  lemma {:induction false} RunStamps(c: Config, s: State, events: seq<Event>)
    requires Stamped(s) && PossibleRun(c, s, events)
    ensures Stamped(Run(c, s, events))
    decreases |events|
  {
    if events != [] {
      NextStamps(c, s, events[0]);
      RunStamps(c, Next(c, s, events[0]), events[1..]);
    }
  }

  lemma {:induction false} PickupStays(c: Config, s: State, events: seq<Event>, id: SessionId)
    requires Stamped(s) && PossibleRun(c, s, events) && NeverDeleted(events, id)
    requires id in s.sessions && s.sessions[id].assignedAt.Some?
    ensures id in Run(c, s, events).sessions
    ensures Run(c, s, events).sessions[id].assignedAt == s.sessions[id].assignedAt
    decreases |events|
  {
    if events != [] {
      var t := Next(c, s, events[0]);
      NextStamps(c, s, events[0]);
      assert events[0] != DeleteSession(id);
      assert Kept(s, t, id);
      PickupStays(c, t, events[1..], id);
    }
  }

  /**
    Waiting time is time to first pickup: over every run from a fresh start, the stamp a
    session has after some part of the run is the one it has ever after while its row exists,
    through reassignments, losing its operator, closes and reopenings.
  */
  lemma FirstPickupStays(c: Config, before: seq<Event>, after: seq<Event>, id: SessionId)
    requires PossibleRun(c, INITIAL, before + after) && NeverDeleted(after, id)
    requires id in Run(c, INITIAL, before).sessions && Run(c, INITIAL, before).sessions[id].assignedAt.Some?
    ensures id in Run(c, INITIAL, before + after).sessions
    ensures Run(c, INITIAL, before + after).sessions[id].assignedAt == Run(c, INITIAL, before).sessions[id].assignedAt
    ensures Stamped(Run(c, INITIAL, before + after))
  {
    RunAppend(c, INITIAL, before, after);
    RunStamps(c, INITIAL, before);
    RunStamps(c, Run(c, INITIAL, before), after);
    PickupStays(c, Run(c, INITIAL, before), after, id);
  }
}
