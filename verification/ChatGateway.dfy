/**
  The gateway and its collaborators as objects that change in place, each handler proved to
  take exactly the step the protocol model gives it.
*/
module ChatGateways {
  import opened Common
  import opened OperatorRotation
  import opened ChatDispatch
  import opened WorkConservation

  class ChatGateway {
    const config: Config
    const operatorRotation: OperatorRotationService

    /** The clock. */
    var now: int

    /** The `onlineOperators` map: its insertion order and its entries' preferences. */
    var connected: seq<OperatorId>
    var preference: map<OperatorId, Preference>

    /** The chat_sessions table. */
    var sessions: map<SessionId, Session>

    function Now(): State
      reads this, operatorRotation
    {
      State(now, connected, preference, sessions, operatorRotation.list)
    }

    constructor (config: Config)
      ensures Now() == INITIAL && this.config == config && fresh(operatorRotation)
    {
      this.config := config;
      this.operatorRotation := new OperatorRotationService();
      now := 0;
      connected := [];
      preference := map[];
      sessions := map[];
    }

    // ---------------------------------------------------------------- chat service

    /** `findFirst` among open, unassigned rows ordered by `startedAt`; ties fall either way. */
    method GetNextQueuedSession() returns (next: Option<SessionId>)
      ensures next == None <==> Waiting(Now()) == {}
      ensures next.Some? ==> Oldest(Now(), next.value)
    {
      var waiting := WaitingIn(sessions);
      if waiting == {} {
        return None;
      }
      OldestExists(Now());
      var id :| id in waiting && Oldest(Now(), id);
      next := Some(id);
    }

    method AssignOperator(id: SessionId, op: Option<OperatorId>)
      requires id in sessions
      modifies this`sessions
      ensures Now() == Assigned(old(Now()), id, op)
    {
      sessions := sessions[id := WithOperator(sessions[id], op, now)];
    }

    // ---------------------------------------------------------------- auto-assign and queue helpers

    method ComputeEligibleOperatorIds() returns (ids: seq<OperatorId>)
      ensures ids == EligibleIds(config, Now())
    {
      ids := [];
      for i := |connected| downto 0
        invariant ids == Keep(connected[i..], EligibleSet(config, preference))
      {
        assert connected[i..][1..] == connected[i + 1..];
        var op := connected[i];
        if op in preference && preference[op].Online? && op !in config.supervisors {
          ids := [op] + ids;
        }
      }
      assert connected[0..] == connected;
    }

    /** Answers the order that is sent to the supervisors. */
    method BroadcastQueue(eligible: seq<OperatorId>) returns (queue: seq<OperatorId>)
      modifies operatorRotation
      ensures operatorRotation.list == Synced(old(operatorRotation.list), eligible)
      ensures queue == operatorRotation.list
    {
      operatorRotation.Sync(eligible);
      queue := operatorRotation.GetQueueOrder();
    }

    method PickAvailableOperator() returns (picked: Option<OperatorId>)
      modifies operatorRotation
      ensures Pick(picked, operatorRotation.list) == PickedOperator(config, old(Now()))
    {
      var eligible := ComputeEligibleOperatorIds();
      if eligible == [] {
        return None;
      }
      var underCapacity := UnderCapacity(config, Now());
      picked := operatorRotation.PickNext(eligible, underCapacity);
      var _ := BroadcastQueue(eligible);
    }

    method DrainQueue(op: OperatorId) returns (drained: seq<SessionId>)
      modifies this`sessions
      ensures Drains(config, old(Now()), op, drained)
      ensures Now() == Drained(old(Now()), op, drained)
    {
      drained := [];
      if op in preference && !preference[op].Online? {
        return;
      }
      if op in config.supervisors {
        return;
      }
      ghost var start := Now();
      var activeCount := Active(Now(), op);
      DrainingStarts(config, start, op);
      while activeCount < config.maxActiveChats
        invariant activeCount == Active(Now(), op)
        invariant Draining(config, start, op, drained, Now())
      {
        var next := GetNextQueuedSession();
        if next == None {
          break;
        }
        DrainingGoesOn(config, start, op, drained, Now(), next.value);
        AssignOperator(next.value, Some(op));
        drained := drained + [next.value];
        activeCount := activeCount + 1;
      }
      DrainingEnds(config, start, op, drained, Now());
    }

    // ---------------------------------------------------------------- handlers

    method HandleVisitorStart(id: SessionId, startedAt: int)
      requires id !in sessions
      modifies this`sessions, operatorRotation
      ensures Now() == Next(config, old(Now()), VisitorStart(id, startedAt))
    {
      sessions := sessions[id := Session(true, None, startedAt, None, None)];
      var operatorId := PickAvailableOperator();
      if operatorId != None {
        AssignOperator(id, operatorId);
      }
    }

    method HandleOperatorJoinSession(id: SessionId, op: OperatorId)
      modifies this`sessions
      ensures Now() == Next(config, old(Now()), JoinSession(id, op))
    {
      if id in sessions && sessions[id].open && sessions[id].operatorId == None && op !in config.supervisors {
        AssignOperator(id, Some(op));
      }
    }

    method HandleOperatorMessage(id: SessionId, op: OperatorId)
      modifies this`sessions
      ensures Now() == Next(config, old(Now()), OperatorMessage(id, op))
    {
      if id !in sessions {
        return;
      }
      if sessions[id].operatorId == None {
        if op in config.supervisors {
          return;
        }
        var activeCount := Active(Now(), op);
        if activeCount >= config.maxActiveChats {
          return;
        }
        AssignOperator(id, Some(op));
      }
    }

    method HandleOperatorJoin(op: OperatorId) returns (drained: seq<SessionId>)
      modifies this, operatorRotation
      ensures Possible(config, old(Now()), OperatorJoin(op, drained))
      ensures Now() == Next(config, old(Now()), OperatorJoin(op, drained))
    {
      var prior := if op in preference then preference[op] else Online;
      if op !in preference {
        connected := connected + [op];
      }
      preference := preference[op := prior];
      assert Now() == WithPreference(old(Now()), op, prior);
      drained := DrainQueue(op);
      var eligible := ComputeEligibleOperatorIds();
      var _ := BroadcastQueue(eligible);
    }

    method HandleSetStatus(op: OperatorId, status: Preference) returns (drained: seq<SessionId>)
      modifies this, operatorRotation
      ensures Possible(config, old(Now()), SetStatus(op, status, drained))
      ensures Now() == Next(config, old(Now()), SetStatus(op, status, drained))
    {
      drained := [];
      if op !in preference {
        return;
      }
      preference := preference[op := status];
      assert Now() == WithPreference(old(Now()), op, status);
      if status == Online {
        drained := DrainQueue(op);
      }
      var eligible := ComputeEligibleOperatorIds();
      var _ := BroadcastQueue(eligible);
    }

    /** Grace-timer expiry after a disconnect, and logout. */
    method MarkOperatorOffline(op: OperatorId)
      modifies this, operatorRotation
      ensures Now() == Next(config, old(Now()), GoOffline(op))
    {
      if op !in preference {
        return;
      }
      preference := preference - {op};
      connected := Without(connected, {op});
      var eligible := ComputeEligibleOperatorIds();
      var _ := BroadcastQueue(eligible);
    }

    /** The single funnel every close goes through; `drainFor` is the caller's override. */
    method CloseSessionAndBroadcast(id: SessionId, drainForOperatorId: Option<OperatorId>) returns (drained: seq<SessionId>)
      requires id in sessions
      modifies this`sessions
      ensures
        var drainFor := if drainForOperatorId == None then old(sessions[id].operatorId) else drainForOperatorId;
        && Now() == ClosedThenDrained(old(Now()), id, drainFor, drained)
        && if drainFor == None then drained == []
           else Drains(config, WithOpen(old(Now()), id, false), drainFor.value, drained)
    {
      sessions := sessions[id := WithStatus(sessions[id], false, now)];
      assert Now() == WithOpen(old(Now()), id, false);
      var drainFor := if drainForOperatorId == None then sessions[id].operatorId else drainForOperatorId;
      drained := [];
      if drainFor != None {
        drained := DrainQueue(drainFor.value);
      }
    }

    /**
      Visitor close, contact-info close, inactivity timeout (`Unchecked`: an unknown id is a
      failed update, anything else is closed again), abandoned visitor (`IfOpen`) and
      abandoned queue (`IfWaiting`).
    */
    method HandleClose(id: SessionId, guard: CloseGuard) returns (drained: seq<SessionId>)
      modifies this`sessions
      ensures Possible(config, old(Now()), Close(id, guard, drained))
      ensures Now() == Next(config, old(Now()), Close(id, guard, drained))
    {
      drained := [];
      if id !in sessions {
        return;
      }
      if guard != Unchecked && !sessions[id].open {
        return;
      }
      if guard == IfWaiting && sessions[id].operatorId != None {
        return;
      }
      drained := CloseSessionAndBroadcast(id, None);
    }

    method HandleCloseSession(id: SessionId, closer: OperatorId) returns (drained: seq<SessionId>)
      modifies this`sessions
      ensures Possible(config, old(Now()), OperatorClose(id, closer, drained))
      ensures Now() == Next(config, old(Now()), OperatorClose(id, closer, drained))
    {
      drained := [];
      if id !in sessions {
        return;
      }
      drained := CloseSessionAndBroadcast(id, Some(closer));
    }

    // ---------------------------------------------------------------- REST, straight to the chat service

    method StartSession(id: SessionId, startedAt: int)
      requires id !in sessions
      modifies this`sessions
      ensures Now() == Next(config, old(Now()), PostSession(id, startedAt))
    {
      sessions := sessions[id := Session(true, None, startedAt, None, None)];
    }

    method AssignSession(id: SessionId, op: Option<OperatorId>)
      modifies this`sessions
      ensures Now() == Next(config, old(Now()), PatchAssign(id, op))
    {
      if id in sessions {
        AssignOperator(id, op);
      }
    }

    method CloseSession(id: SessionId)
      modifies this`sessions
      ensures Now() == Next(config, old(Now()), PostClose(id))
    {
      if id in sessions {
        sessions := sessions[id := WithStatus(sessions[id], false, now)];
      }
    }

    method HardDeleteSession(id: SessionId)
      modifies this`sessions
      ensures Now() == Next(config, old(Now()), DeleteSession(id))
    {
      sessions := sessions - {id};
    }

    /** By socket and over REST. */
    method HandleReopenSession(id: SessionId)
      modifies this`sessions
      ensures Now() == Next(config, old(Now()), ReopenSession(id))
    {
      if id in sessions {
        sessions := sessions[id := WithStatus(sessions[id], true, now)];
      }
    }
  }

  // ---------------------------------------------------------------- lemmas about the loops

  lemma OldestExists(s: State)
    requires Waiting(s) != {}
    ensures exists id :: Oldest(s, id)
  {
    var id := OldestOf(s, Waiting(s));
    assert Oldest(s, id);
  }

  lemma OldestOf(s: State, among: set<SessionId>) returns (id: SessionId)
    requires among != {} && among <= Waiting(s)
    ensures id in among && forall w | w in among :: s.sessions[id].startedAt <= s.sessions[w].startedAt
    decreases among
  {
    var x :| x in among;
    if among == {x} {
      id := x;
    } else {
      var y := OldestOf(s, among - {x});
      id := if s.sessions[x].startedAt <= s.sessions[y].startedAt then x else y;
    }
  }

  /** What is still to be drained from `now` completes what was drained since `start`. */
  ghost predicate Completes(c: Config, start: State, op: OperatorId, drained: seq<SessionId>, now: State) {
    forall rest :: Drains(c, now, op, rest) ==> Drains(c, start, op, drained + rest)
  }

  /** The loop of `drainQueue`, part of the way through. */
  ghost predicate Draining(c: Config, start: State, op: OperatorId, drained: seq<SessionId>, now: State) {
    && Drainable(c, start, op)
    && Elems(drained) <= start.sessions.Keys
    && now == Drained(start, op, drained)
    && SameButAssignments(start, now)
    && Completes(c, start, op, drained, now)
  }

  lemma DrainingStarts(c: Config, start: State, op: OperatorId)
    requires Drainable(c, start, op)
    ensures Draining(c, start, op, [], start)
  {
    forall rest | Drains(c, start, op, rest) ensures Drains(c, start, op, [] + rest) {
      assert [] + rest == rest;
    }
  }

  lemma DrainsCons(c: Config, s: State, op: OperatorId, id: SessionId, rest: seq<SessionId>)
    requires Drainable(c, s, op) && Active(s, op) < c.maxActiveChats && Oldest(s, id)
    requires Drains(c, Assigned(s, id, Some(op)), op, rest)
    ensures Drains(c, s, op, [id] + rest)
  {
    var longer := [id] + rest;
    assert longer[0] == id && longer[1..] == rest;
  }

  lemma CompletesSnoc(c: Config, start: State, op: OperatorId, drained: seq<SessionId>, now: State, id: SessionId)
    requires Completes(c, start, op, drained, now)
    requires Drainable(c, now, op) && Active(now, op) < c.maxActiveChats && Oldest(now, id)
    ensures Completes(c, start, op, drained + [id], Assigned(now, id, Some(op)))
  {
    forall rest | Drains(c, Assigned(now, id, Some(op)), op, rest)
      ensures Drains(c, start, op, (drained + [id]) + rest)
    {
      DrainsCons(c, now, op, id, rest);
      assert drained + ([id] + rest) == (drained + [id]) + rest;
    }
  }

  lemma DrainingGoesOn(c: Config, start: State, op: OperatorId, drained: seq<SessionId>, now: State, id: SessionId)
    requires Draining(c, start, op, drained, now)
    requires Active(now, op) < c.maxActiveChats && Oldest(now, id)
    ensures Draining(c, start, op, drained + [id], Assigned(now, id, Some(op)))
    ensures Active(Assigned(now, id, Some(op)), op) == Active(now, op) + 1
  {
    AssignEffect(now, id, op);
    DrainedSnoc(start, op, drained, id);
    CompletesSnoc(c, start, op, drained, now, id);
    assert Elems(drained + [id]) == Elems(drained) + {id};
  }

  lemma DrainingEnds(c: Config, start: State, op: OperatorId, drained: seq<SessionId>, now: State)
    requires Draining(c, start, op, drained, now)
    requires Active(now, op) >= c.maxActiveChats || Waiting(now) == {}
    ensures Drains(c, start, op, drained) && now == Drained(start, op, drained)
  {
    assert Drains(c, now, op, []);
    assert drained + [] == drained;
  }

  lemma {:induction false} DrainedSnoc(s: State, op: OperatorId, drained: seq<SessionId>, id: SessionId)
    requires id in Drained(s, op, drained).sessions
    requires Elems(drained) <= s.sessions.Keys
    ensures Drained(s, op, drained + [id]) == Assigned(Drained(s, op, drained), id, Some(op))
    decreases |drained|
  {
    if drained == [] {
      assert drained + [id] == [id];
    } else {
      assert (drained + [id])[1..] == drained[1..] + [id];
      assert drained[0] in Elems(drained) && Elems(drained[1..]) <= Elems(drained);
      DrainedSnoc(Assigned(s, drained[0], Some(op)), op, drained[1..], id);
    }
  }
}
