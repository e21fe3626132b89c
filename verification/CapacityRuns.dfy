/**
  What `maxActiveChats` and the supervisor flag promise over whole runs: the system never
  overloads anybody; only an operator opening a queued chat by hand, a reopened chat, or an
  assignment over REST does.
*/
module CapacityRuns {
  import opened Common
  import opened ChatDispatch
  import opened WorkConservation
  import opened DispatchRuns
  import opened UndrainedSteps

  /** A closed chat of the operator's own is opened again. */
  ghost predicate ReopensFor(s: State, e: Event, op: OperatorId) {
    e.ReopenSession? && e.id in s.sessions && !s.sessions[e.id].open && s.sessions[e.id].operatorId == Some(op)
  }

  /** An open chat of somebody else, or of nobody, is given to the operator over REST. */
  ghost predicate HandsTo(s: State, e: Event, op: OperatorId) {
    && e.PatchAssign? && e.to == Some(op)
    && e.id in s.sessions && s.sessions[e.id].open && s.sessions[e.id].operatorId != Some(op)
  }

  /** The only ways an operator's load may grow. */
  ghost predicate MayGrow(c: Config, s: State, e: Event, op: OperatorId, load: nat) {
    || ReopensFor(s, e, op)
    || HandsTo(s, e, op)
    || (op !in c.supervisors && (load <= c.maxActiveChats || (e.JoinSession? && e.op == op)))
  }

  lemma DrainWithinCap(c: Config, s: State, op: OperatorId, drained: seq<SessionId>, x: OperatorId)
    requires Drains(c, s, op, drained)
    ensures Active(Drained(s, op, drained), x) > Active(s, x) ==>
      x == op && x !in c.supervisors && Active(Drained(s, op, drained), x) <= c.maxActiveChats
  {
    DrainEffect(c, s, op, drained);
    if x == op {
      DisjointSum(Held(s, op), Elems(drained));
    } else {
      assert Held(Drained(s, op, drained), x) == Held(s, x);
    }
  }

  lemma ClaimGrowth(s: State, id: SessionId, op: OperatorId, x: OperatorId)
    requires id in s.sessions && s.sessions[id].operatorId == None
    ensures Active(Assigned(s, id, Some(op)), x) == Active(s, x) + (if x == op && s.sessions[id].open then 1 else 0)
  {
    if s.sessions[id].open {
      AssignEffect(s, id, op);
    } else {
      assert Held(Assigned(s, id, Some(op)), x) == Held(s, x);
    }
  }

  lemma StartGrowth(c: Config, s: State, id: SessionId, startedAt: int, x: OperatorId)
    requires WellFormed(s) && id !in s.sessions
    ensures
      var t := VisitorStarted(c, s, id, startedAt);
      Active(t, x) > Active(s, x) ==> x !in c.supervisors && Active(t, x) <= c.maxActiveChats
  {
    var started := Started(s, id, startedAt);
    assert Held(started, x) == Held(s, x);
    PickedMeaning(c, started);
    var p := PickedOperator(c, started);
    if p.chosen.Some? {
      ClaimGrowth(started, id, p.chosen.value, x);
      assert Held(VisitorStarted(c, s, id, startedAt), x) == Held(Assigned(started, id, p.chosen), x);
    } else {
      assert Held(VisitorStarted(c, s, id, startedAt), x) == Held(started, x);
    }
  }

  lemma CloseGrowth(c: Config, s: State, id: SessionId, drainFor: Option<OperatorId>, drained: seq<SessionId>, x: OperatorId)
    requires id in s.sessions
    requires drainFor.Some? ==> Drains(c, WithOpen(s, id, false), drainFor.value, drained)
    ensures
      var t := ClosedThenDrained(s, id, drainFor, drained);
      Active(t, x) > Active(s, x) ==> x !in c.supervisors && Active(t, x) <= c.maxActiveChats
  {
    var closed := WithOpen(s, id, false);
    CloseEffect(s, id);
    assert |Held(s, x) - {id}| <= |Held(s, x)|;
    if drainFor.Some? {
      DrainWithinCap(c, closed, drainFor.value, drained, x);
    }
  }

  /** Steps that assign and close nothing, and open nothing of the operator's. */
  lemma LoadStays(c: Config, s: State, e: Event, x: OperatorId)
    requires Possible(c, s, e)
    ensures e.GoOffline? || e.Restart? || e.Pass? || e.PostSession? || (e.ReopenSession? && !ReopensFor(s, e, x)) ==>
      Active(Next(c, s, e), x) == Active(s, x)
  {
    if e.GoOffline? || e.Restart? || e.Pass? || e.PostSession? || (e.ReopenSession? && !ReopensFor(s, e, x)) {
      assert Held(Next(c, s, e), x) == Held(s, x);
    }
  }

  lemma DeletionGrowth(s: State, id: SessionId, x: OperatorId)
    ensures Active(Removed(s, id), x) <= Active(s, x)
  {
    assert Held(Removed(s, id), x) == Held(s, x) - {id};
    SubsetCount(Held(s, x) - {id}, Held(s, x));
  }

  /** Steps that close or delete without a drain. */
  lemma LoadFalls(c: Config, s: State, e: Event, x: OperatorId)
    ensures e.PostClose? || e.DeleteSession? ==> Active(Next(c, s, e), x) <= Active(s, x)
  {
    hide Active;
    hide PickedOperator;
    match e {
      case PostClose(id) =>
        if id in s.sessions { HeldAfterClose(s, id, x); }
      case DeleteSession(id) => DeletionGrowth(s, id, x);
      case _ =>
    }
  }

  /**
    In every step an operator's load grows only by a reopened chat of its own, by a chat
    assigned to it over REST or, for someone who is no
    supervisor, within the cap or by opening a waiting chat by hand.
  */
  lemma LoadGrowsWithinCap(c: Config, s: State, e: Event, x: OperatorId)
    requires WellFormed(s) && Possible(c, s, e)
    requires Active(Next(c, s, e), x) > Active(s, x)
    ensures MayGrow(c, s, e, x, Active(Next(c, s, e), x))
  {
    LoadStays(c, s, e, x);
    LoadFalls(c, s, e, x);
    match e {
      case VisitorStart(id, startedAt) => StartGrowth(c, s, id, startedAt, x);
      case JoinSession(id, op) =>
        if Claimable(c, s, id, op, false) { ClaimGrowth(s, id, op, x); }
      case OperatorMessage(id, op) =>
        if Claimable(c, s, id, op, true) { ClaimGrowth(s, id, op, x); }
      case OperatorJoin(op, drained) =>
        DrainWithinCap(c, WithPreference(s, op, if op in s.preference then s.preference[op] else Online), op, drained, x);
      case SetStatus(op, status, drained) =>
        if op in s.preference && status == Online {
          DrainWithinCap(c, WithPreference(s, op, status), op, drained, x);
        }
      case Close(id, guard, drained) =>
        if Passes(s, id, guard) { CloseGrowth(c, s, id, s.sessions[id].operatorId, drained, x); }
      case OperatorClose(id, closer, drained) =>
        if id in s.sessions { CloseGrowth(c, s, id, Some(closer), drained, x); }
      case PatchAssign(id, to) =>
        if id in s.sessions { ActiveAfterAssign(s, id, to, x); }
      case _ =>
    }
  }

  /** In the run the operator never opens a waiting chat by hand, no closed chat of its own is reopened, and none is handed to it. */
  ghost predicate OnlyAutomatic(c: Config, s: State, events: seq<Event>, op: OperatorId)
    decreases |events|
  {
    events != [] ==>
      && !ReopensFor(s, events[0], op) && !HandsTo(s, events[0], op) && !(events[0].JoinSession? && events[0].op == op)
      && OnlyAutomatic(c, Next(c, s, events[0]), events[1..], op)
  }

  ghost predicate WithinCap(c: Config, s: State, op: OperatorId) {
    Active(s, op) <= (if op in c.supervisors then 0 else c.maxActiveChats)
  }

  lemma {:induction false} RunStaysWithinCap(c: Config, s: State, events: seq<Event>, op: OperatorId)
    requires WellFormed(s) && PossibleRun(c, s, events) && OnlyAutomatic(c, s, events, op) && WithinCap(c, s, op)
    ensures WithinCap(c, Run(c, s, events), op)
    decreases |events|
  {
    if events != [] {
      var t := Next(c, s, events[0]);
      NextKeepsShape(c, s, events[0]);
      if Active(t, op) > Active(s, op) {
        LoadGrowsWithinCap(c, s, events[0], op);
      }
      RunStaysWithinCap(c, t, events[1..], op);
    }
  }

  /**
    From a fresh start, all events included: an operator who never opens a waiting chat by hand
    holds at most the maximum number of open chats, and a supervisor holds none, as long as no
    closed chat of their own is reopened and none is handed to them over REST.
  */
  lemma NobodyIsOverloaded(c: Config, events: seq<Event>, op: OperatorId)
    requires PossibleRun(c, INITIAL, events) && OnlyAutomatic(c, INITIAL, events, op)
    ensures WithinCap(c, Run(c, INITIAL, events), op)
  {
    assert Held(INITIAL, op) == {};
    RunStaysWithinCap(c, INITIAL, events, op);
  }
}
