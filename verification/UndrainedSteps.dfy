/**
  Steps that create waiting work or free capacity without a drain that reaches it: the REST
  endpoints, and a close by somebody other than the assignee. For each, the exact condition
  on the state before the step under which work conservation survives it.
*/
module UndrainedSteps {
  import opened Common
  import opened ChatDispatch
  import opened WorkConservation
  import opened DispatchRuns

  ghost predicate NobodySpare(c: Config, s: State) {
    forall op :: !Spare(c, s, op)
  }

  /** The session is open and its eligible operator is not above the cap, so closing it frees a usable slot. */
  ghost predicate FreesUsableSlot(c: Config, s: State, id: SessionId) {
    && id in s.sessions && s.sessions[id].open && s.sessions[id].operatorId.Some?
    && var a := s.sessions[id].operatorId.value;
       Eligible(c, s, a) && Active(s, a) <= c.maxActiveChats
  }

  /** With somebody waiting, and everybody holding what they held before, only spare capacity matters. */
  lemma NobodySpareMeansFull(c: Config, s: State, t: State)
    requires t.preference == s.preference && Waiting(t) != {}
    requires forall x :: Held(t, x) == Held(s, x)
    ensures Conserving(c, t) <==> NobodySpare(c, s)
  {
    if NobodySpare(c, s) {
      forall op | op in EligibleSet(c, t.preference) ensures Active(t, op) >= c.maxActiveChats {
        assert !Spare(c, s, op);
      }
    } else {
      var op :| Spare(c, s, op);
      assert op in EligibleSet(c, t.preference) && Held(t, op) == Held(s, op);
    }
  }

  /** POST sessions: a session is created and nobody is picked for it. */
  lemma RestStart(c: Config, s: State, id: SessionId, startedAt: int)
    requires Conserving(c, s) && id !in s.sessions
    ensures Conserving(c, Next(c, s, PostSession(id, startedAt))) <==> NobodySpare(c, s)
  {
    var t := Started(s, id, startedAt);
    assert id in Waiting(t);
    NobodySpareMeansFull(c, s, t);
  }

  lemma HeldAfterClose(s: State, id: SessionId, x: OperatorId)
    requires id in s.sessions
    ensures Active(WithOpen(s, id, false), x) == Active(s, x) - (if id in Held(s, x) then 1 else 0)
  {
    CloseEffect(s, id);
  }

  /** POST sessions/:id/close: no drain at all. */
  lemma RestClose(c: Config, s: State, id: SessionId)
    requires Conserving(c, s)
    ensures Conserving(c, Next(c, s, PostClose(id))) <==>
      !(FreesUsableSlot(c, s, id) && Waiting(s) != {})
  {
    if id !in s.sessions {
      return;
    }
    var t := WithOpen(s, id, false);
    CloseEffect(s, id);
    forall x ensures Active(t, x) == Active(s, x) - (if id in Held(s, x) then 1 else 0) {
      HeldAfterClose(s, id, x);
    }
    if FreesUsableSlot(c, s, id) && Waiting(s) != {} {
      var a := s.sessions[id].operatorId.value;
      assert id in Held(s, a) && id !in Waiting(s);
      assert Waiting(t) == Waiting(s);
      assert Spare(c, t, a);
    }
  }

  /** DELETE sessions/:id/hard: no drain either. */
  lemma HardDelete(c: Config, s: State, id: SessionId)
    requires Conserving(c, s)
    ensures Conserving(c, Next(c, s, DeleteSession(id))) <==> !(FreesUsableSlot(c, s, id) && Waiting(s) != {})
  {
    var t := Removed(s, id);
    if id !in s.sessions {
      assert t.sessions == s.sessions;
      return;
    }
    RestClose(c, s, id);
    var closed := WithOpen(s, id, false);
    assert Waiting(t) == Waiting(closed);
    forall x ensures Held(t, x) == Held(closed, x) {}
  }

  /** A drain empties the queue exactly when it is large enough. */
  lemma WaitingAfterDrain(c: Config, s: State, op: OperatorId, drained: seq<SessionId>)
    requires Drains(c, s, op, drained)
    ensures Waiting(Drained(s, op, drained)) == {} <==> |Waiting(s)| <= DrainSize(c, s, op)
  {
    DrainWaiting(c, s, op, drained);
    DrainCount(c, s, op, drained);
    DrainDistinct(c, s, op, drained);
    SubsetCount(Elems(drained), Waiting(s));
  }

  lemma DrainSizeAfterClose(c: Config, s: State, id: SessionId, closer: OperatorId)
    requires id in s.sessions && s.sessions[id].operatorId !in {None, Some(closer)}
    ensures Waiting(WithOpen(s, id, false)) == Waiting(s)
    ensures DrainSize(c, WithOpen(s, id, false), closer) == DrainSize(c, s, closer)
  {
    CloseEffect(s, id);
    assert Held(WithOpen(s, id, false), closer) == Held(s, closer);
  }

  /** What everybody but the closer holds then. */
  lemma HeldAfterCloseByAnother(c: Config, s: State, id: SessionId, closer: OperatorId, drained: seq<SessionId>, x: OperatorId)
    requires id in s.sessions && x != closer
    requires Drains(c, WithOpen(s, id, false), closer, drained)
    ensures Held(Drained(WithOpen(s, id, false), closer, drained), x) == Held(s, x) - {id}
  {
    CloseEffect(s, id);
    DrainHeld(c, WithOpen(s, id, false), closer, drained, x);
  }

  lemma SubsetCount<T>(a: set<T>, b: set<T>)
    requires a <= b
    ensures |b| == |a| + |b - a|
    ensures b - a == {} <==> |b| <= |a|
  {
    assert b == a + (b - a);
  }

  lemma DrainForAnother(c: Config, s: State, id: SessionId, closer: OperatorId, drained: seq<SessionId>)
    requires Conserving(c, s) && id in s.sessions && s.sessions[id].operatorId !in {None, Some(closer)}
    requires Drains(c, WithOpen(s, id, false), closer, drained)
    ensures Conserving(c, ClosedThenDrained(s, id, Some(closer), drained)) <==>
      !(FreesUsableSlot(c, s, id) && |Waiting(s)| > DrainSize(c, s, closer))
  {
    var t := Drained(WithOpen(s, id, false), closer, drained);
    var a := s.sessions[id].operatorId.value;
    DrainFrame(WithOpen(s, id, false), closer, drained);
    DrainSizeAfterClose(c, s, id, closer);
    WaitingAfterDrain(c, WithOpen(s, id, false), closer, drained);
    forall x | x != closer ensures Held(t, x) == Held(s, x) - {id} {
      HeldAfterCloseByAnother(c, s, id, closer, drained, x);
    }
    if Drainable(c, s, closer) {
      DrainFills(c, WithOpen(s, id, false), closer, drained);
    }
    if FreesUsableSlot(c, s, id) && |Waiting(s)| > DrainSize(c, s, closer) {
      assert id in Held(s, a);
      assert Eligible(c, t, a);
    } else {
      forall x | Waiting(t) != {} && x in EligibleSet(c, t.preference)
        ensures Active(t, x) >= c.maxActiveChats
      {
        assert Eligible(c, s, x);
        assert Waiting(s) != {};
      }
    }
  }

  /**
    operator:close_session by `closer`: the drain serves the closer, not the assignee, so a
    slot freed elsewhere stays unused exactly when visitors are left after that drain.
  */
  lemma CloseByAnother(c: Config, s: State, id: SessionId, closer: OperatorId, drained: seq<SessionId>)
    requires Conserving(c, s) && id in s.sessions && s.sessions[id].operatorId !in {None, Some(closer)}
    requires Drains(c, WithOpen(s, id, false), closer, drained)
    ensures Conserving(c, Next(c, s, OperatorClose(id, closer, drained))) <==>
      !(FreesUsableSlot(c, s, id) && |Waiting(s)| > DrainSize(c, s, closer))
  {
    DrainForAnother(c, s, id, closer, drained);
  }

  /** operator:reopen_session / POST sessions/:id/reopen of a closed session that has no operator. */
  lemma ReopenUnassigned(c: Config, s: State, id: SessionId)
    requires Conserving(c, s) && id in s.sessions
    requires !s.sessions[id].open && s.sessions[id].operatorId == None
    ensures Conserving(c, Next(c, s, ReopenSession(id))) <==> NobodySpare(c, s)
  {
    var t := WithOpen(s, id, true);
    assert id in Waiting(t);
    NobodySpareMeansFull(c, s, t);
  }

  lemma ActiveAfterAssign(s: State, id: SessionId, to: Option<OperatorId>, x: OperatorId)
    requires id in s.sessions
    ensures Active(Assigned(s, id, to), x)
         == Active(s, x) - (if id in Held(s, x) then 1 else 0) + (if s.sessions[id].open && to == Some(x) then 1 else 0)
  {
    var takes := s.sessions[id].open && to == Some(x);
    assert Held(Assigned(s, id, to), x) == Edited(Held(s, x), id, takes);
    EditedSize(Held(s, x), id, takes);
  }

  function Edited<T(==)>(a: set<T>, x: T, present: bool): set<T> {
    if present then a + {x} else a - {x}
  }

  lemma EditedSize<T>(a: set<T>, x: T, present: bool)
    ensures |Edited(a, x, present)| == |a| - (if x in a then 1 else 0) + (if present then 1 else 0)
  {
    if present && x in a {
      assert a + {x} == a;
    }
  }

  /**
    PATCH sessions/:id/assign to an operator, from another, from the same one, or from none;
    a waiting session that gets an operator always keeps work conservation.
  */
  lemma RestReassign(c: Config, s: State, id: SessionId, to: OperatorId)
    requires Conserving(c, s)
    ensures Conserving(c, Next(c, s, PatchAssign(id, Some(to)))) <==>
      !(FreesUsableSlot(c, s, id) && s.sessions[id].operatorId != Some(to) && Waiting(s) != {})
  {
    if id !in s.sessions {
      return;
    }
    var t := Assigned(s, id, Some(to));
    if s.sessions[id].operatorId == None {
      ClaimConserves(c, s, id, to);
      return;
    }
    assert Waiting(t) == Waiting(s);
    if FreesUsableSlot(c, s, id) && s.sessions[id].operatorId != Some(to) && Waiting(s) != {} {
      var from := s.sessions[id].operatorId.value;
      ActiveAfterAssign(s, id, Some(to), from);
      assert id in Held(s, from) && Eligible(c, t, from);
    } else {
      forall x | Waiting(t) != {} && x in EligibleSet(c, t.preference)
        ensures Active(t, x) >= c.maxActiveChats
      {
        ActiveAfterAssign(s, id, Some(to), x);
        assert Eligible(c, s, x);
      }
    }
  }

  /** PATCH sessions/:id/assign with no operator: an open session goes back to waiting. */
  lemma RestUnassign(c: Config, s: State, id: SessionId)
    requires Conserving(c, s) && id in s.sessions && s.sessions[id].open
    requires s.sessions[id].operatorId.Some?
    ensures Conserving(c, Next(c, s, PatchAssign(id, None))) <==> NobodySpare(c, s) && !FreesUsableSlot(c, s, id)
  {
    var t := Assigned(s, id, None);
    var from := s.sessions[id].operatorId.value;
    assert id in Waiting(t);
    forall x ensures Active(t, x) == Active(s, x) - (if x == from then 1 else 0) {
      ActiveAfterAssign(s, id, None, x);
    }
    if NobodySpare(c, s) && !FreesUsableSlot(c, s, id) {
      forall op | op in EligibleSet(c, t.preference) ensures Active(t, op) >= c.maxActiveChats {
        assert !Spare(c, s, op);
      }
    } else if FreesUsableSlot(c, s, id) {
      assert Spare(c, t, from);
    } else {
      var op :| Spare(c, s, op);
      assert Spare(c, t, op);
    }
  }

  /** Taking the operator from a session that is closed, or has none, or does not exist. */
  lemma RestUnassignNothing(c: Config, s: State, id: SessionId)
    requires Conserving(c, s) && !(id in s.sessions && s.sessions[id].open && s.sessions[id].operatorId.Some?)
    ensures Conserving(c, Next(c, s, PatchAssign(id, None)))
  {
    if id in s.sessions {
      var t := Assigned(s, id, None);
      assert Waiting(t) == Waiting(s);
      forall x ensures Held(t, x) == Held(s, x) {}
    }
  }

  // ---------------------------------------------------------------- every event

  /** What must hold before an event for work conservation to survive it. */
  ghost predicate Harmless(c: Config, s: State, e: Event) {
    match e
    case PostSession(_, _) => NobodySpare(c, s)
    case PostClose(id) => !(FreesUsableSlot(c, s, id) && Waiting(s) != {})
    case DeleteSession(id) => !(FreesUsableSlot(c, s, id) && Waiting(s) != {})
    case PatchAssign(id, Some(to)) =>
      !(FreesUsableSlot(c, s, id) && s.sessions[id].operatorId != Some(to) && Waiting(s) != {})
    case PatchAssign(id, None) =>
      id in s.sessions && s.sessions[id].open && s.sessions[id].operatorId.Some? ==>
        NobodySpare(c, s) && !FreesUsableSlot(c, s, id)
    case OperatorClose(id, closer, _) =>
      id in s.sessions && s.sessions[id].operatorId !in {None, Some(closer)} ==>
        !(FreesUsableSlot(c, s, id) && |Waiting(s)| > DrainSize(c, s, closer))
    case ReopenSession(id) =>
      id in s.sessions && !s.sessions[id].open && s.sessions[id].operatorId == None ==> NobodySpare(c, s)
    case _ => true
  }

  /** Work conservation survives an event, of whatever kind, exactly when the event is harmless where it happens. */
  lemma ConservesIff(c: Config, s: State, e: Event)
    requires WellFormed(s) && Conserving(c, s) && Possible(c, s, e)
    ensures Conserving(c, Next(c, s, e)) <==> Harmless(c, s, e)
  {
    hide Conserving;
    hide NobodySpare;
    hide FreesUsableSlot;
    hide Next;
    if InStepSet(s, e) {
      NextConserves(c, s, e);
    } else {
      UndrainedConservesIff(c, s, e);
    }
  }

  lemma UndrainedConservesIff(c: Config, s: State, e: Event)
    requires Conserving(c, s) && Possible(c, s, e) && !InStepSet(s, e)
    ensures Conserving(c, Next(c, s, e)) <==> Harmless(c, s, e)
  {
    hide Conserving;
    hide NobodySpare;
    hide FreesUsableSlot;
    hide Next;
    match e {
      case PostSession(id, startedAt) => RestStart(c, s, id, startedAt);
      case PostClose(id) => RestClose(c, s, id);
      case DeleteSession(id) => HardDelete(c, s, id);
      case PatchAssign(id, Some(to)) => RestReassign(c, s, id, to);
      case PatchAssign(id, None) =>
        if id in s.sessions && s.sessions[id].open && s.sessions[id].operatorId.Some? {
          RestUnassign(c, s, id);
        } else {
          RestUnassignNothing(c, s, id);
        }
      case OperatorClose(id, closer, drained) => CloseByAnother(c, s, id, closer, drained);
      case ReopenSession(id) => ReopenUnassigned(c, s, id);
    }
  }

  ghost predicate AlwaysConserving(c: Config, s: State, events: seq<Event>)
    decreases |events|
  {
    Conserving(c, s) && (events != [] ==> AlwaysConserving(c, Next(c, s, events[0]), events[1..]))
  }

  ghost predicate AllHarmless(c: Config, s: State, events: seq<Event>)
    decreases |events|
  {
    events != [] ==> Harmless(c, s, events[0]) && AllHarmless(c, Next(c, s, events[0]), events[1..])
  }

  lemma {:induction false} AlwaysConservingIff(c: Config, s: State, events: seq<Event>)
    requires WellFormed(s) && Conserving(c, s) && PossibleRun(c, s, events)
    ensures AlwaysConserving(c, s, events) <==> AllHarmless(c, s, events)
    decreases |events|
  {
    if events != [] {
      var t := Next(c, s, events[0]);
      ConservesIff(c, s, events[0]);
      NextKeepsShape(c, s, events[0]);
      if Conserving(c, t) {
        AlwaysConservingIff(c, t, events[1..]);
      }
    }
  }

  /**
    From a fresh start and for every run of events of any kind, REST writes included: work is
    conserved in all states of the run if and only if every event is harmless where it happens.
  */
  lemma WorkIsConservedIff(c: Config, events: seq<Event>)
    requires PossibleRun(c, INITIAL, events)
    ensures AlwaysConserving(c, INITIAL, events) <==> AllHarmless(c, INITIAL, events)
  {
    assert Waiting(INITIAL) == {};
    AlwaysConservingIff(c, INITIAL, events);
  }
}
