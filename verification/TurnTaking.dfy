/**
  Fairness of the rotation as operators see it in whole runs of the dispatch protocol: how many
  visitors can start before it is one's turn.
*/
module TurnTaking {
  import opened Common
  import opened OperatorRotation
  import opened RotationFairness
  import opened ChatDispatch
  import opened WorkConservation
  import opened DispatchRuns

  function Starts(events: seq<Event>): nat {
    if events == [] then 0 else (if events[0].VisitorStart? then 1 else 0) + Starts(events[1..])
  }

  /** An operator becomes eligible by joining or by a new status, and enters the list at the front. */
  predicate Arrives(c: Config, s: State, e: Event) {
    (e.OperatorJoin? || e.SetStatus?) && !Eligible(c, s, e.op) && Eligible(c, Next(c, s, e), e.op)
  }

  function Arrivals(c: Config, s: State, events: seq<Event>): nat
    decreases |events|
  {
    if events == [] then 0
    else (if Arrives(c, s, events[0]) then 1 else 0) + Arrivals(c, Next(c, s, events[0]), events[1..])
  }

  /** The event starts a session that the operator gets. */
  predicate Serves(c: Config, s: State, e: Event, x: OperatorId) {
    e.VisitorStart? && PickedOperator(c, Started(s, e.id, e.startedAt)).chosen == Some(x)
  }

  /** Eligible before and after every event, and below the cap whenever a visitor starts. */
  ghost predicate ReadyThroughout(c: Config, s: State, events: seq<Event>, x: OperatorId)
    decreases |events|
  {
    && Eligible(c, s, x)
    && (events != [] ==>
      && (events[0].VisitorStart? ==> Active(s, x) < c.maxActiveChats)
      && ReadyThroughout(c, Next(c, s, events[0]), events[1..], x))
  }

  ghost predicate NeverServed(c: Config, s: State, events: seq<Event>, x: OperatorId)
    decreases |events|
  {
    events != [] ==> !Serves(c, s, events[0], x) && NeverServed(c, Next(c, s, events[0]), events[1..], x)
  }

  // ---------------------------------------------------------------- one event

  lemma NewcomersAre(list: seq<int>, eligible: seq<int>)
    ensures Distinct(Newcomers(list, eligible))
    ensures Elems(Newcomers(list, eligible)) == Elems(eligible) - Elems(list)
  {
    DedupShape(Without(eligible, Elems(list)));
    WithoutElems(eligible, Elems(list));
  }

  lemma {:induction false} DistinctLength(s: seq<int>)
    requires Distinct(s)
    ensures |Elems(s)| == |s|
  {
    if s != [] {
      DistinctLength(s[1..]);
      assert s == [s[0]] + s[1..];
      assert Elems(s) == {s[0]} + Elems(s[1..]);
      assert s[0] !in Elems(s[1..]);
    }
  }

  lemma AtMostOne(s: seq<int>, x: int)
    requires Distinct(s) && Elems(s) <= {x}
    ensures |s| <= 1 && (s != [] ==> x in Elems(s))
  {
    DistinctLength(s);
    NonEmptyElems(s);
    assert Elems(s) == {} || Elems(s) == {x};
  }

  lemma ListedIffEligible(c: Config, s: State)
    requires WellFormed(s) && QueueTracks(c, s)
    ensures forall x :: x in Elems(s.rotation) <==> Eligible(c, s, x)
    ensures forall x :: x in s.rotation <==> Eligible(c, s, x)
    ensures forall x :: x in EligibleIds(c, s) <==> Eligible(c, s, x)
  {
    EligibleIdsMeaning(c, s);
    SameMembers(s.rotation, EligibleIds(c, s));
  }

  /** A sync after an event that makes at most `op` newly eligible. */
  lemma SyncStep(c: Config, s: State, t: State, op: OperatorId, x: OperatorId)
    requires WellFormed(s) && QueueTracks(c, s) && Eligible(c, s, x)
    requires WellFormed(t) && Eligible(c, t, x) && t.rotation == Synced(s.rotation, EligibleIds(c, t))
    requires forall y :: Eligible(c, t, y) ==> Eligible(c, s, y) || y == op
    ensures x in t.rotation
    ensures IndexOf(t.rotation, x) <= IndexOf(s.rotation, x) + (if !Eligible(c, s, op) && Eligible(c, t, op) then 1 else 0)
  {
    ListedIffEligible(c, s);
    EligibleIdsMeaning(c, t);
    var newcomers := Newcomers(s.rotation, EligibleIds(c, t));
    NewcomersAre(s.rotation, EligibleIds(c, t));
    AtMostOne(newcomers, op);
    SyncPosition(s.rotation, EligibleIds(c, t), x);
  }

  /** A visitor starts and somebody else is picked. */
  lemma StartStep(c: Config, s: State, id: SessionId, startedAt: int, x: OperatorId)
    requires WellFormed(s) && QueueTracks(c, s) && Eligible(c, s, x) && id !in s.sessions
    requires Active(s, x) < c.maxActiveChats && !Serves(c, s, VisitorStart(id, startedAt), x)
    ensures
      var t := VisitorStarted(c, s, id, startedAt);
      x in t.rotation && IndexOf(t.rotation, x) + 1 <= IndexOf(s.rotation, x)
  {
    var started := Started(s, id, startedAt);
    var eligible, under := EligibleIds(c, started), UnderCapacity(c, started);
    assert eligible == EligibleIds(c, s);
    ListedIffEligible(c, s);
    assert Held(started, x) == Held(s, x);
    NewcomersAre(s.rotation, eligible);
    NonEmptyElems(Newcomers(s.rotation, eligible));
    SyncAfterPickIsIdle(s.rotation, eligible, under);
    PickPosition(s.rotation, eligible, under, x);
  }

  lemma JoinStep(c: Config, s: State, op: OperatorId, drained: seq<SessionId>, x: OperatorId)
    requires WellFormed(s) && QueueTracks(c, s) && Possible(c, s, OperatorJoin(op, drained)) && Eligible(c, s, x)
    requires Eligible(c, Next(c, s, OperatorJoin(op, drained)), x)
    ensures CloserBy(c, s, OperatorJoin(op, drained), x, 0)
  {
    var e := OperatorJoin(op, drained);
    DrainFrame(WithPreference(s, op, if op in s.preference then s.preference[op] else Online), op, drained);
    NextKeepsShape(c, s, e);
    SyncStep(c, s, Next(c, s, e), op, x);
  }

  lemma StatusStep(c: Config, s: State, op: OperatorId, status: Preference, drained: seq<SessionId>, x: OperatorId)
    requires WellFormed(s) && QueueTracks(c, s) && Possible(c, s, SetStatus(op, status, drained)) && Eligible(c, s, x)
    requires op in s.preference && Eligible(c, Next(c, s, SetStatus(op, status, drained)), x)
    ensures CloserBy(c, s, SetStatus(op, status, drained), x, 0)
  {
    var e := SetStatus(op, status, drained);
    DrainFrame(WithPreference(s, op, status), op, drained);
    NextKeepsShape(c, s, e);
    SyncStep(c, s, Next(c, s, e), op, x);
  }

  lemma OfflineStep(c: Config, s: State, op: OperatorId, x: OperatorId)
    requires WellFormed(s) && QueueTracks(c, s) && Eligible(c, s, x)
    requires op in s.preference && Eligible(c, Next(c, s, GoOffline(op)), x)
    ensures CloserBy(c, s, GoOffline(op), x, 0)
  {
    NextKeepsShape(c, s, GoOffline(op));
    SyncStep(c, s, Next(c, s, GoOffline(op)), op, x);
  }

  /** Handlers that neither pick nor sync leave the list alone. */
  lemma QuietStep(c: Config, s: State, e: Event)
    requires !e.VisitorStart? && !e.OperatorJoin?
    requires (e.SetStatus? || e.GoOffline?) ==> e.op !in s.preference
    ensures Next(c, s, e).rotation == s.rotation
  {
    match e {
      case Close(id, guard, drained) =>
        if Passes(s, id, guard) && s.sessions[id].operatorId.Some? {
          DrainFrame(WithOpen(s, id, false), s.sessions[id].operatorId.value, drained);
        }
      case OperatorClose(id, closer, drained) =>
        if id in s.sessions {
          DrainFrame(WithOpen(s, id, false), closer, drained);
        }
      case _ =>
    }
  }

  /** The operator is still listed, and closer by this much, but for an arrival ahead of it. */
  ghost predicate CloserBy(c: Config, s: State, e: Event, x: OperatorId, steps: nat) {
    && x in Next(c, s, e).rotation
    && IndexOf(Next(c, s, e).rotation, x) + steps <= IndexOf(s.rotation, x) + (if Arrives(c, s, e) then 1 else 0)
  }

  /** Every event brings a ready operator who is not served one place closer per visitor, but for arrivals. */
  lemma EventStep(c: Config, s: State, e: Event, x: OperatorId)
    requires WellFormed(s) && QueueTracks(c, s) && Possible(c, s, e)
    requires Eligible(c, s, x) && Eligible(c, Next(c, s, e), x)
    requires e.VisitorStart? ==> Active(s, x) < c.maxActiveChats
    requires !Serves(c, s, e, x)
    ensures CloserBy(c, s, e, x, if e.VisitorStart? then 1 else 0)
  {
    hide Possible;
    hide QueueTracks;
    if e.OperatorJoin? {
      JoinStep(c, s, e.op, e.drained, x);
    } else if e.SetStatus? && e.op in s.preference {
      StatusStep(c, s, e.op, e.status, e.drained, x);
    } else if e.GoOffline? && e.op in s.preference {
      OfflineStep(c, s, e.op, x);
    } else if e.VisitorStart? {
      FreshId(c, s, e);
      StartStep(c, s, e.id, e.startedAt, x);
    } else {
      ListedIffEligible(c, s);
      QuietStep(c, s, e);
    }
  }

  lemma FreshId(c: Config, s: State, e: Event)
    requires Possible(c, s, e) && e.VisitorStart?
    ensures e.id !in s.sessions
  {}

  lemma RestartEndsEligibility(c: Config, s: State, x: OperatorId)
    ensures !Eligible(c, Next(c, s, Restart), x)
  {}

  // ---------------------------------------------------------------- runs

  /**
    Bounded waiting in the protocol: if an operator stays eligible, is below the cap whenever a
    visitor starts, and still is never the one picked, then no more visitors started than its
    position in the list plus the operators that became eligible meanwhile. The next visitor
    after that is its own.
  */
  lemma {:induction false} TurnComes(c: Config, s: State, events: seq<Event>, x: OperatorId)
    requires WellFormed(s) && QueueTracks(c, s) && PossibleRun(c, s, events)
    requires ReadyThroughout(c, s, events, x) && NeverServed(c, s, events, x)
    ensures Starts(events) <= IndexOf(s.rotation, x) + Arrivals(c, s, events)
    decreases |events|
  {
    if events != [] {
      var t := Next(c, s, events[0]);
      NextKeepsShape(c, s, events[0]);
      assert ReadyThroughout(c, t, events[1..], x);
      EventStep(c, s, events[0], x);
      RestartEndsEligibility(c, s, x);
      NextTracks(c, s, events[0]);
      TurnComes(c, t, events[1..], x);
    }
  }

  /** From a fresh start, as long as there was no restart before: at most as many as there are others eligible, plus arrivals. */
  lemma TurnComesInRuns(c: Config, before: seq<Event>, events: seq<Event>, x: OperatorId)
    requires PossibleRun(c, INITIAL, before + events)
    requires forall i :: 0 <= i < |before| ==> !before[i].Restart?
    requires ReadyThroughout(c, Run(c, INITIAL, before), events, x) && NeverServed(c, Run(c, INITIAL, before), events, x)
    ensures
      var s := Run(c, INITIAL, before);
      Starts(events) <= |EligibleSet(c, s.preference)| - 1 + Arrivals(c, s, events)
  {
    var s := Run(c, INITIAL, before);
    RunAppend(c, INITIAL, before, events);
    RunKeepsShape(c, INITIAL, before);
    QueueAlwaysTracks(c, INITIAL, before);
    TurnComes(c, s, events, x);
    ListedIffEligible(c, s);
    DistinctLength(s.rotation);
    forall y ensures y in Elems(s.rotation) <==> y in EligibleSet(c, s.preference) {
      assert y in Elems(s.rotation) <==> Eligible(c, s, y);
    }
    assert Elems(s.rotation) == EligibleSet(c, s.preference);
  }
}
