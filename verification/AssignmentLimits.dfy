/**
  Two things one would not expect an assignment to do, each with the exact condition under
  which it happens: it reaches an operator who is not connected, and it touches a closed session.
*/
module AssignmentLimits {
  import opened Common
  import opened OperatorRotation
  import opened ChatDispatch
  import opened WorkConservation
  import opened DispatchRuns

  // ---------------------------------------------------------------- operators who are not connected

  /** A session that is closed, and the operator its close drains for. */
  datatype Drain = Drain(id: SessionId, op: OperatorId)

  function DrainAfterClose(s: State, e: Event): Option<Drain> {
    match e
    case Close(id, guard, _) =>
      if Passes(s, id, guard) && s.sessions[id].operatorId.Some?
      then Some(Drain(id, s.sessions[id].operatorId.value)) else None
    case OperatorClose(id, closer, _) => if id in s.sessions then Some(Drain(id, closer)) else None
    case _ => None
  }

  /** Before the event: a close drains for an absent non-supervisor who has room afterwards, and somebody else waits. */
  ghost predicate ReachesAbsent(c: Config, s: State, e: Event) {
    match DrainAfterClose(s, e)
    case None => false
    case Some(Drain(id, op)) =>
      && op !in s.preference && op !in c.supervisors
      && Active(s, op) - (if id in Held(s, op) then 1 else 0) < c.maxActiveChats
      && Waiting(s) - {id} != {}
  }

  ghost predicate AssignsToAbsent(c: Config, s: State, e: Event) {
    exists a :: a in AutoAssignments(c, s, e) && a.op !in a.before.preference
  }

  lemma {:induction false} DrainAssignmentsShape(s: State, op: OperatorId, drained: seq<SessionId>)
    ensures forall a :: a in DrainAssignments(s, op, drained) ==> a.op == op && a.before.preference == s.preference
    ensures drained != [] && drained[0] in s.sessions ==> DrainAssignments(s, op, drained) != []
    decreases |drained|
  {
    if drained != [] && drained[0] in s.sessions {
      DrainAssignmentsShape(Assigned(s, drained[0], Some(op)), op, drained[1..]);
    }
  }

  /** One drain: it assigns at all exactly when there is room and somebody waits, and all of it to the one operator. */
  lemma DrainReaches(c: Config, from: State, op: OperatorId, drained: seq<SessionId>)
    requires Drains(c, from, op, drained)
    ensures
      var made := DrainAssignments(from, op, drained);
      && (made != [] <==> Drainable(c, from, op) && Active(from, op) < c.maxActiveChats && Waiting(from) != {})
      && (forall a :: a in made ==> a.op == op && a.before.preference == from.preference)
  {
    DrainAssignmentsShape(from, op, drained);
  }

  lemma StartReaches(c: Config, s: State, id: SessionId, startedAt: int)
    requires WellFormed(s)
    ensures forall a :: a in AutoAssignments(c, s, VisitorStart(id, startedAt)) ==> Eligible(c, a.before, a.op)
  {
    hide PickedOperator;
    PickedMeaning(c, Started(s, id, startedAt));
  }

  lemma CloseReaches(c: Config, s: State, e: Event)
    requires Possible(c, s, e) && DrainAfterClose(s, e).Some?
    ensures AssignsToAbsent(c, s, e) <==> ReachesAbsent(c, s, e)
    ensures forall a :: a in AutoAssignments(c, s, e) && a.op in a.before.preference ==> Eligible(c, a.before, a.op)
  {
    var id, op := DrainAfterClose(s, e).value.id, DrainAfterClose(s, e).value.op;
    var from := WithOpen(s, id, false);
    CloseEffect(s, id);
    assert DrainCall(s, e) == Some((from, op));
    DrainReaches(c, from, op, DrainedBy(e));
    var made := DrainAssignments(from, op, DrainedBy(e));
    assert Active(from, op) == Active(s, op) - (if id in Held(s, op) then 1 else 0);
    if made != [] {
      assert made[0] in AutoAssignments(c, s, e);
    }
  }

  /**
    An event makes an assignment to an operator without an entry in the presence map exactly
    when it is a close that drains for such an operator, no supervisor and with room after the
    close, while somebody waits. Every other automatic assignment is to an eligible operator.
  */
  lemma AssignsToAbsentIff(c: Config, s: State, e: Event)
    requires WellFormed(s) && Possible(c, s, e)
    ensures AssignsToAbsent(c, s, e) <==> ReachesAbsent(c, s, e)
    ensures forall a :: a in AutoAssignments(c, s, e) && a.op in a.before.preference ==> Eligible(c, a.before, a.op)
  {
    if e.VisitorStart? {
      StartReaches(c, s, e.id, e.startedAt);
    } else if DrainAfterClose(s, e).Some? {
      CloseReaches(c, s, e);
    } else {
      match DrainCall(s, e)
      case Some((from, op)) => DrainReaches(c, from, op, DrainedBy(e));
      case None =>
    }
  }

  // ---------------------------------------------------------------- closed sessions

  /** A session that is closed before the event gets another operator by it. */
  ghost predicate MovesClosed(c: Config, s: State, e: Event, id: SessionId) {
    && id in s.sessions && !s.sessions[id].open
    && id in Next(c, s, e).sessions && Next(c, s, e).sessions[id].operatorId != s.sessions[id].operatorId
  }

  ghost predicate ClaimsUnassigned(c: Config, s: State, e: Event, id: SessionId)
    requires id in s.sessions
  {
    && e.OperatorMessage? && e.id == id && s.sessions[id].operatorId == None
    && e.op !in c.supervisors && Active(s, e.op) < c.maxActiveChats
  }

  lemma {:induction false} DrainSkips(c: Config, s: State, op: OperatorId, drained: seq<SessionId>, id: SessionId)
    requires Drains(c, s, op, drained) && id in s.sessions && !s.sessions[id].open
    ensures id in Drained(s, op, drained).sessions && Drained(s, op, drained).sessions[id] == s.sessions[id]
    decreases |drained|
  {
    if drained != [] {
      DrainSkips(c, Assigned(s, drained[0], Some(op)), op, drained[1..], id);
    }
  }

  lemma DrainedEventSkips(c: Config, s: State, e: Event, id: SessionId)
    requires Possible(c, s, e) && id in s.sessions && !s.sessions[id].open
    requires DrainCall(s, e).Some?
    ensures id in Next(c, s, e).sessions && Next(c, s, e).sessions[id].operatorId == s.sessions[id].operatorId
  {
    var from, op := DrainCall(s, e).value.0, DrainCall(s, e).value.1;
    DrainSkips(c, from, op, DrainedBy(e), id);
  }

  /**
    A closed session gets another operator, or loses its own, exactly by a message of an
    operator who is no supervisor and below the cap, to a session that has none, or by an
    assignment over REST, to whom or from whom it may be.
  */
  lemma MovesClosedIff(c: Config, s: State, e: Event, id: SessionId)
    requires Possible(c, s, e)
    ensures MovesClosed(c, s, e, id) <==>
      && id in s.sessions && !s.sessions[id].open
      && (ClaimsUnassigned(c, s, e, id) || (e.PatchAssign? && e.id == id && e.to != s.sessions[id].operatorId))
  {
    hide PickedOperator;
    if id in s.sessions && !s.sessions[id].open && DrainCall(s, e).Some? {
      DrainedEventSkips(c, s, e, id);
    }
  }

  /**
    Claiming a closed session does not count towards the cap it is checked against, so any
    number of them pass the same check; each one reopened later, which belongs to the step
    set, then adds to the load.
  */
  lemma ClosedClaimsAddUpLater(c: Config, s: State, id: SessionId, op: OperatorId)
    requires MovesClosed(c, s, OperatorMessage(id, op), id)
    ensures
      var claimed := Next(c, s, OperatorMessage(id, op));
      && (forall x :: Active(claimed, x) == Active(s, x))
      && InStepSet(claimed, ReopenSession(id)) && Possible(c, claimed, ReopenSession(id))
      && Active(Next(c, claimed, ReopenSession(id)), op) == Active(s, op) + 1
  {
    var claimed := Next(c, s, OperatorMessage(id, op));
    var reopened := Next(c, claimed, ReopenSession(id));
    forall x ensures Active(claimed, x) == Active(s, x) {
      assert Held(claimed, x) == Held(s, x);
    }
    assert Held(reopened, op) == Held(claimed, op) + {id};
  }
}
