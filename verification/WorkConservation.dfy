/**
  Whole-run results about the dispatch protocol: no visitor waits while an eligible operator
  has spare capacity, automatic assignments never overtake, and the rotation list tracks the
  eligible operators.
*/
module WorkConservation {
  import opened Common
  import opened OperatorRotation
  import opened ChatDispatch

  // ---------------------------------------------------------------- invariants

  ghost predicate WellFormed(s: State) {
    Distinct(s.connected) && Elems(s.connected) == s.preference.Keys
  }

  /** Work conservation: a visitor waits only if every eligible operator is full. */
  ghost predicate Conserving(c: Config, s: State) {
    Waiting(s) != {} ==>
      forall op | op in EligibleSet(c, s.preference) :: Active(s, op) >= c.maxActiveChats
  }

  /** The supervisors' queue view lists exactly the eligible operators, once each. */
  ghost predicate QueueTracks(c: Config, s: State) {
    Distinct(s.rotation) && Elems(s.rotation) == Elems(EligibleIds(c, s))
  }

  ghost predicate Spare(c: Config, s: State, op: OperatorId) {
    Eligible(c, s, op) && Active(s, op) < c.maxActiveChats
  }

  // ---------------------------------------------------------------- single writes

  lemma EligibleIdsMeaning(c: Config, s: State)
    requires WellFormed(s)
    ensures forall op :: op in EligibleIds(c, s) <==> Eligible(c, s, op)
    ensures Distinct(EligibleIds(c, s))
  {
    var ids := EligibleSet(c, s.preference);
    KeepElems(s.connected, ids);
    KeepDistinct(s.connected, ids);
    forall op ensures op in EligibleIds(c, s) <==> Eligible(c, s, op) {
      assert op in EligibleIds(c, s) <==> op in Elems(EligibleIds(c, s));
    }
  }

  lemma AssignEffect(s: State, id: SessionId, op: OperatorId)
    requires id in Waiting(s)
    ensures Waiting(Assigned(s, id, Some(op))) == Waiting(s) - {id}
    ensures Held(Assigned(s, id, Some(op)), op) == Held(s, op) + {id}
    ensures Active(Assigned(s, id, Some(op)), op) == Active(s, op) + 1
    ensures forall x :: x != op ==> Held(Assigned(s, id, Some(op)), x) == Held(s, x)
  {}

  /** Nothing but assignments changed between `s` and `t`. */
  ghost predicate SameButAssignments(s: State, t: State) {
    && t.now == s.now && t.preference == s.preference && t.connected == s.connected && t.rotation == s.rotation
    && t.sessions.Keys == s.sessions.Keys
    && forall id | id in s.sessions ::
         && t.sessions[id].startedAt == s.sessions[id].startedAt
         && t.sessions[id].open == s.sessions[id].open && t.sessions[id].closedAt == s.sessions[id].closedAt
  }

  /** No session is taken while an older one, not taken yet, waits. */
  ghost predicate OldestFirst(s: State, drained: seq<SessionId>) {
    && Elems(drained) <= Waiting(s)
    && forall i, w :: 0 <= i < |drained| && w in Waiting(s) && w !in drained[..i] ==>
         drained[i] in s.sessions && s.sessions[drained[i]].startedAt <= s.sessions[w].startedAt
  }

  lemma {:induction false} DrainFrame(s: State, op: OperatorId, drained: seq<SessionId>)
    ensures SameButAssignments(s, Drained(s, op, drained))
    decreases |drained|
  {
    if drained != [] && drained[0] in s.sessions {
      DrainFrame(Assigned(s, drained[0], Some(op)), op, drained[1..]);
    }
  }

  lemma FirstOf(drained: seq<SessionId>)
    requires drained != []
    ensures Elems(drained) == {drained[0]} + Elems(drained[1..])
  {
    assert drained == [drained[0]] + drained[1..];
  }

  lemma {:induction false} DrainWaiting(c: Config, s: State, op: OperatorId, drained: seq<SessionId>)
    requires Drains(c, s, op, drained)
    ensures Elems(drained) <= Waiting(s)
    ensures Waiting(Drained(s, op, drained)) == Waiting(s) - Elems(drained)
    decreases |drained|
  {
    if drained != [] {
      FirstOf(drained);
      AssignEffect(s, drained[0], op);
      DrainWaiting(c, Assigned(s, drained[0], Some(op)), op, drained[1..]);
    }
  }

  lemma {:induction false} DrainHeld(c: Config, s: State, op: OperatorId, drained: seq<SessionId>, x: OperatorId)
    requires Drains(c, s, op, drained)
    ensures Held(Drained(s, op, drained), x) == if x == op then Held(s, x) + Elems(drained) else Held(s, x)
    decreases |drained|
  {
    if drained != [] {
      FirstOf(drained);
      AssignEffect(s, drained[0], op);
      DrainHeld(c, Assigned(s, drained[0], Some(op)), op, drained[1..], x);
    }
  }

  lemma {:induction false} DrainCount(c: Config, s: State, op: OperatorId, drained: seq<SessionId>)
    requires Drains(c, s, op, drained)
    ensures |drained| == DrainSize(c, s, op)
    decreases |drained|
  {
    if drained != [] {
      AssignEffect(s, drained[0], op);
      DrainCount(c, Assigned(s, drained[0], Some(op)), op, drained[1..]);
    }
  }

  lemma {:induction false} DrainDistinct(c: Config, s: State, op: OperatorId, drained: seq<SessionId>)
    requires Drains(c, s, op, drained)
    ensures |Elems(drained)| == |drained|
    decreases |drained|
  {
    if drained != [] {
      FirstOf(drained);
      AssignEffect(s, drained[0], op);
      DrainWaiting(c, Assigned(s, drained[0], Some(op)), op, drained[1..]);
      DrainDistinct(c, Assigned(s, drained[0], Some(op)), op, drained[1..]);
    }
  }

  /**
    What one call of `drainQueue` does, for every way ties may fall: it assigns exactly
    min(spare capacity, waiting) distinct waiting sessions to the operator and changes nothing else.
  */
  lemma DrainEffect(c: Config, s: State, op: OperatorId, drained: seq<SessionId>)
    requires Drains(c, s, op, drained)
    ensures |drained| == DrainSize(c, s, op) == |Elems(drained)|
    ensures Elems(drained) <= Waiting(s)
    ensures Waiting(Drained(s, op, drained)) == Waiting(s) - Elems(drained)
    ensures Held(Drained(s, op, drained), op) == Held(s, op) + Elems(drained)
    ensures forall x :: x != op ==> Held(Drained(s, op, drained), x) == Held(s, x)
    ensures SameButAssignments(s, Drained(s, op, drained))
  {
    DrainFrame(s, op, drained);
    DrainWaiting(c, s, op, drained);
    DrainCount(c, s, op, drained);
    DrainDistinct(c, s, op, drained);
    forall x ensures Held(Drained(s, op, drained), x) == if x == op then Held(s, x) + Elems(drained) else Held(s, x) {
      DrainHeld(c, s, op, drained, x);
    }
  }

  /** The order in which `drainQueue` takes them. */
  lemma {:induction false} DrainTakesOldest(c: Config, s: State, op: OperatorId, drained: seq<SessionId>)
    requires Drains(c, s, op, drained)
    ensures OldestFirst(s, drained)
    decreases |drained|
  {
    DrainWaiting(c, s, op, drained);
    if drained != [] {
      var id, rest := drained[0], drained[1..];
      var t := Assigned(s, id, Some(op));
      AssignEffect(s, id, op);
      DrainTakesOldest(c, t, op, rest);
      forall i, w | 0 <= i < |drained| && w in Waiting(s) && w !in drained[..i]
        ensures drained[i] in s.sessions && s.sessions[drained[i]].startedAt <= s.sessions[w].startedAt
      {
        if i > 0 {
          assert drained[..i] == [id] + rest[..i - 1];
          assert w in Waiting(t) && w !in rest[..i - 1];
          assert drained[i] == rest[i - 1];
        }
      }
    }
  }

  /** After its drain, a drainable operator is full or nobody waits. */
  lemma DrainFills(c: Config, s: State, op: OperatorId, drained: seq<SessionId>)
    requires Drains(c, s, op, drained) && Drainable(c, s, op)
    ensures
      var t := Drained(s, op, drained);
      Waiting(t) == {} || Active(t, op) >= c.maxActiveChats
  {
    DrainEffect(c, s, op, drained);
    DisjointSum(Held(s, op), Elems(drained));
    if DrainSize(c, s, op) == |Waiting(s)| {
      SubsetOfSameSize(Elems(drained), Waiting(s));
    }
  }

  lemma DisjointSum<T>(a: set<T>, b: set<T>)
    requires a !! b
    ensures |a + b| == |a| + |b|
  {}

  lemma SubsetOfSameSize<T>(a: set<T>, b: set<T>)
    requires a <= b && |a| == |b|
    ensures a == b
  {
    assert b == a + (b - a);
    assert |b| == |a| + |b - a|;
  }

  /** A drain restores work conservation as far as everybody else was already full. */
  lemma DrainConserves(c: Config, s: State, op: OperatorId, drained: seq<SessionId>)
    requires Drains(c, s, op, drained)
    requires Waiting(s) != {} ==>
      forall x | x in EligibleSet(c, s.preference) && x != op :: Active(s, x) >= c.maxActiveChats
    ensures Conserving(c, Drained(s, op, drained))
  {
    DrainEffect(c, s, op, drained);
    var t := Drained(s, op, drained);
    forall x | Waiting(t) != {} && x in EligibleSet(c, t.preference)
      ensures Active(t, x) >= c.maxActiveChats
    {
      if x == op {
        DrainFills(c, s, op, drained);
      } else {
        assert Held(t, x) == Held(s, x);
      }
    }
  }

  lemma CloseEffect(s: State, id: SessionId)
    requires id in s.sessions
    ensures Waiting(WithOpen(s, id, false)) == Waiting(s) - {id}
    ensures forall x :: Held(WithOpen(s, id, false), x) == Held(s, x) - {id}
  {}

  /** `pickAvailableOperator` answers null exactly when no eligible operator has spare capacity. */
  lemma PickedMeaning(c: Config, s: State)
    requires WellFormed(s)
    ensures PickedOperator(c, s).chosen == None <==> forall op :: !Spare(c, s, op)
    ensures PickedOperator(c, s).chosen.Some? ==> Spare(c, s, PickedOperator(c, s).chosen.value)
    ensures EligibleIds(c, s) != [] ==> Elems(PickedOperator(c, s).list) == Elems(EligibleIds(c, s))
    ensures Distinct(s.rotation) ==> Distinct(PickedOperator(c, s).list)
  {
    EligibleIdsMeaning(c, s);
    var eligible := EligibleIds(c, s);
    if eligible != [] {
      PickNextMeaning(s.rotation, eligible, UnderCapacity(c, s));
      SyncedShape(NextPick(s.rotation, eligible, UnderCapacity(c, s)).list, eligible);
      forall op
        ensures op in eligible && op in UnderCapacity(c, s) <==> Spare(c, s, op)
      {}
    } else {
      forall op ensures !Spare(c, s, op) {
        assert op !in eligible;
      }
    }
  }

  // ---------------------------------------------------------------- each handler keeps the invariants

  lemma PreferenceKeepsShape(s: State, op: OperatorId, p: Preference)
    requires WellFormed(s)
    ensures WellFormed(WithPreference(s, op, p))
  {
    var t := WithPreference(s, op, p);
    assert Elems(s.connected + [op]) == Elems(s.connected) + {op};
    if op !in s.preference {
      assert op !in Elems(s.connected);
    }
  }

  lemma OfflineKeepsShape(s: State, op: OperatorId)
    requires WellFormed(s)
    ensures WellFormed(Offline(s, op))
  {
    WithoutElems(s.connected, {op});
    WithoutDistinct(s.connected, {op});
  }

  lemma NextKeepsShape(c: Config, s: State, e: Event)
    requires WellFormed(s) && Possible(c, s, e)
    ensures WellFormed(Next(c, s, e))
  {
    match DrainCall(s, e) {
      case Some((from, op)) => DrainEffect(c, from, op, DrainedBy(e));
      case None =>
    }
    match e {
      case OperatorJoin(op, _) =>
        PreferenceKeepsShape(s, op, if op in s.preference then s.preference[op] else Online);
      case SetStatus(op, status, _) =>
        PreferenceKeepsShape(s, op, status);
      case GoOffline(op) =>
        OfflineKeepsShape(s, op);
      case _ =>
    }
  }

  lemma StartConserves(c: Config, s: State, id: SessionId, startedAt: int)
    requires WellFormed(s) && Conserving(c, s) && id !in s.sessions
    ensures Conserving(c, VisitorStarted(c, s, id, startedAt))
    ensures PickedOperator(c, Started(s, id, startedAt)).chosen.Some? ==> Waiting(s) == {}
  {
    var started := Started(s, id, startedAt);
    assert Waiting(started) == Waiting(s) + {id};
    assert forall x :: Held(started, x) == Held(s, x);
    PickedMeaning(c, started);
    var p := PickedOperator(c, started);
    if p.chosen.Some? {
      assert Spare(c, s, p.chosen.value);
      AssignEffect(started, id, p.chosen.value);
    }
    var next := VisitorStarted(c, s, id, startedAt);
    assert Waiting(next) == if p.chosen.Some? then {} else Waiting(started);
    forall op | Waiting(next) != {} && op in EligibleSet(c, next.preference)
      ensures Active(next, op) >= c.maxActiveChats
    {
      assert !Spare(c, started, op);
      assert Held(next, op) == Held(started, op);
    }
  }

  lemma ClaimConserves(c: Config, s: State, id: SessionId, op: OperatorId)
    requires Conserving(c, s) && id in s.sessions && s.sessions[id].operatorId == None
    ensures Conserving(c, Assigned(s, id, Some(op)))
  {
    var t := Assigned(s, id, Some(op));
    assert Waiting(t) == Waiting(s) - {id};
    forall x ensures Held(s, x) <= Held(t, x) {}
    forall x ensures Active(s, x) <= Active(t, x) {
      assert Held(t, x) == Held(s, x) + (Held(t, x) - Held(s, x));
    }
  }

  lemma CloseConserves(c: Config, s: State, id: SessionId, drainFor: Option<OperatorId>, drained: seq<SessionId>)
    requires Conserving(c, s) && id in s.sessions
    requires s.sessions[id].operatorId in {None, drainFor}
    requires drainFor.Some? ==> Drains(c, WithOpen(s, id, false), drainFor.value, drained)
    ensures Conserving(c, ClosedThenDrained(s, id, drainFor, drained))
  {
    var closed := WithOpen(s, id, false);
    CloseEffect(s, id);
    forall x | Some(x) != s.sessions[id].operatorId
      ensures Held(closed, x) == Held(s, x)
    {}
    if drainFor.Some? {
      DrainConserves(c, closed, drainFor.value, drained);
    }
  }

  lemma ReopenConserves(c: Config, s: State, id: SessionId)
    requires Conserving(c, s) && id in s.sessions
    requires s.sessions[id].open || s.sessions[id].operatorId != None
    ensures Conserving(c, WithOpen(s, id, true))
  {
    var t := WithOpen(s, id, true);
    assert Waiting(t) == Waiting(s);
    forall x ensures Active(s, x) <= Active(t, x) {
      assert Held(t, x) == Held(s, x) + (Held(t, x) - Held(s, x));
    }
  }

  /** Changing one operator's presence leaves every other operator as full as before. */
  lemma PresenceConserves(c: Config, s: State, op: OperatorId, p: Preference, drained: seq<SessionId>)
    requires Conserving(c, s)
    requires if p.Online? then Drains(c, WithPreference(s, op, p), op, drained) else drained == []
    ensures Conserving(c, Drained(WithPreference(s, op, p), op, drained))
  {
    var t := WithPreference(s, op, p);
    assert forall x | x in EligibleSet(c, t.preference) && x != op :: x in EligibleSet(c, s.preference);
    if p.Online? {
      DrainConserves(c, t, op, drained);
    }
  }

  lemma NextConserves(c: Config, s: State, e: Event)
    requires WellFormed(s) && Conserving(c, s)
    requires Possible(c, s, e) && InStepSet(s, e)
    ensures Conserving(c, Next(c, s, e))
  {
    match e {
      case VisitorStart(id, startedAt) => StartConserves(c, s, id, startedAt);
      case JoinSession(id, op) =>
        if Claimable(c, s, id, op, false) { ClaimConserves(c, s, id, op); }
      case OperatorMessage(id, op) =>
        if Claimable(c, s, id, op, true) { ClaimConserves(c, s, id, op); }
      case OperatorJoin(op, drained) =>
        var p := if op in s.preference then s.preference[op] else Online;
        PresenceConserves(c, s, op, p, drained);
        SyncConserves(c, Drained(WithPreference(s, op, p), op, drained));
      case SetStatus(op, status, drained) =>
        if op in s.preference {
          PresenceConserves(c, s, op, status, drained);
          SyncConserves(c, Drained(WithPreference(s, op, status), op, drained));
        }
      case GoOffline(op) =>
        if op in s.preference {
          assert EligibleSet(c, Offline(s, op).preference) <= EligibleSet(c, s.preference);
          SyncConserves(c, Offline(s, op));
        }
      case Close(id, guard, drained) =>
        if Passes(s, id, guard) { CloseConserves(c, s, id, s.sessions[id].operatorId, drained); }
      case OperatorClose(id, closer, drained) =>
        if id in s.sessions { CloseConserves(c, s, id, Some(closer), drained); }
      case ReopenSession(id) =>
        if id in s.sessions {
          ReopenConserves(c, s, id);
        }
      case Restart =>
      case Pass(_) =>
        assert Waiting(Next(c, s, e)) == Waiting(s);
      case _ =>
    }
  }

  lemma SyncConserves(c: Config, s: State)
    requires Conserving(c, s)
    ensures Conserving(c, QueueSynced(c, s))
  {
  }
}
