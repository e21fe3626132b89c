/**
  Fairness as visitors see it: how many times the queue can be served before it is the turn of
  a visitor who stays in it.
*/
module VisitorWaiting {
  import opened Common
  import opened ChatDispatch
  import opened WorkConservation
  import opened DispatchRuns
  import opened UndrainedSteps

  /** Waiting sessions that may be served before `w`: those that did not start later. */
  function Ahead(s: State, w: SessionId): set<SessionId>
    requires w in s.sessions
  {
    set x | x in Waiting(s) && x != w && s.sessions[x].startedAt <= s.sessions[w].startedAt
  }

  /** The event drains for somebody who may be served and has room by then. */
  predicate Serves(c: Config, s: State, e: Event) {
    match DrainCall(s, e)
    case Some((from, op)) => Drainable(c, from, op) && Active(from, op) < c.maxActiveChats
    case None => false
  }

  /** The event puts another session ahead of `w`: one that starts no later, or an older one that waits again. */
  predicate Enters(s: State, e: Event, w: SessionId)
    requires w in s.sessions
  {
    match e
    case VisitorStart(_, startedAt) => startedAt <= s.sessions[w].startedAt
    case PostSession(_, startedAt) => startedAt <= s.sessions[w].startedAt
    case ReopenSession(id) =>
      id in s.sessions && !s.sessions[id].open && s.sessions[id].operatorId == None
      && s.sessions[id].startedAt <= s.sessions[w].startedAt
    case PatchAssign(id, to) =>
      to == None && id in s.sessions && s.sessions[id].open && s.sessions[id].operatorId.Some?
      && s.sessions[id].startedAt <= s.sessions[w].startedAt
    case _ => false
  }

  /** The visitor is in the queue before and after every event. */
  ghost predicate WaitsThroughout(c: Config, s: State, events: seq<Event>, w: SessionId)
    decreases |events|
  {
    w in Waiting(s) && (events != [] ==> WaitsThroughout(c, Next(c, s, events[0]), events[1..], w))
  }

  function Services(c: Config, s: State, events: seq<Event>): nat
    decreases |events|
  {
    if events == [] then 0
    else (if Serves(c, s, events[0]) then 1 else 0) + Services(c, Next(c, s, events[0]), events[1..])
  }

  ghost function Entrants(c: Config, s: State, events: seq<Event>, w: SessionId): nat
    requires WaitsThroughout(c, s, events, w)
    decreases |events|
  {
    if events == [] then 0
    else (if Enters(s, events[0], w) then 1 else 0) + Entrants(c, Next(c, s, events[0]), events[1..], w)
  }

  // ---------------------------------------------------------------- one event

  lemma Shrinks<T>(a: set<T>, b: set<T>)
    requires a <= b
    ensures |a| <= |b|
  {
    SubsetCount(a, b);
  }

  /** A drain that serves takes the head of the queue, which is ahead of everybody it leaves waiting. */
  lemma DrainShortens(c: Config, from: State, op: OperatorId, drained: seq<SessionId>, w: SessionId)
    requires Drains(c, from, op, drained) && w in from.sessions
    requires w in Waiting(Drained(from, op, drained))
    ensures
      var t := Drained(from, op, drained);
      && Ahead(t, w) <= Ahead(from, w)
      && (Drainable(c, from, op) && Active(from, op) < c.maxActiveChats ==> |Ahead(t, w)| + 1 <= |Ahead(from, w)|)
  {
    var t := Drained(from, op, drained);
    DrainWaiting(c, from, op, drained);
    DrainFrame(from, op, drained);
    if Drainable(c, from, op) && Active(from, op) < c.maxActiveChats {
      var first := drained[0];
      assert first in Elems(drained);
      assert first in Ahead(from, w) && first !in Ahead(t, w);
      SubsetCount(Ahead(t, w), Ahead(from, w));
      assert first in Ahead(from, w) - Ahead(t, w);
    }
  }

  lemma CloseShortens(c: Config, s: State, id: SessionId, drainFor: Option<OperatorId>, drained: seq<SessionId>, w: SessionId)
    requires id in s.sessions && w in Waiting(s) && w in Waiting(ClosedThenDrained(s, id, drainFor, drained))
    requires drainFor.Some? ==> Drains(c, WithOpen(s, id, false), drainFor.value, drained)
    ensures
      var from, t := WithOpen(s, id, false), ClosedThenDrained(s, id, drainFor, drained);
      && |Ahead(t, w)| <= |Ahead(s, w)|
      && (drainFor.Some? && Drainable(c, from, drainFor.value) && Active(from, drainFor.value) < c.maxActiveChats ==>
            |Ahead(t, w)| + 1 <= |Ahead(s, w)|)
  {
    var from := WithOpen(s, id, false);
    CloseEffect(s, id);
    assert Ahead(from, w) <= Ahead(s, w);
    Shrinks(Ahead(from, w), Ahead(s, w));
    if drainFor.Some? {
      DrainShortens(c, from, drainFor.value, drained, w);
      Shrinks(Ahead(Drained(from, drainFor.value, drained), w), Ahead(from, w));
    }
  }

  /** Somebody present is drained for. */
  lemma PresenceShortens(c: Config, s: State, op: OperatorId, p: Preference, drained: seq<SessionId>, w: SessionId)
    requires w in Waiting(s)
    requires if p.Online? then Drains(c, WithPreference(s, op, p), op, drained) else drained == []
    requires w in Waiting(Drained(WithPreference(s, op, p), op, drained))
    ensures
      var from, t := WithPreference(s, op, p), Drained(WithPreference(s, op, p), op, drained);
      && |Ahead(t, w)| <= |Ahead(s, w)|
      && (p.Online? && Drainable(c, from, op) && Active(from, op) < c.maxActiveChats ==> |Ahead(t, w)| + 1 <= |Ahead(s, w)|)
  {
    var from := WithPreference(s, op, p);
    assert Ahead(from, w) == Ahead(s, w);
    if p.Online? {
      DrainShortens(c, from, op, drained, w);
      Shrinks(Ahead(Drained(from, op, drained), w), Ahead(from, w));
    }
  }

  /** The queue ahead of `w` grows at most by the session that enters. */
  lemma QuietGrowth(c: Config, s: State, t: State, entered: set<SessionId>, w: SessionId)
    requires w in Waiting(s) && w in Waiting(t) && t.sessions[w].startedAt == s.sessions[w].startedAt
    requires Ahead(t, w) <= Ahead(s, w) + entered && |entered| <= 1
    ensures |Ahead(t, w)| <= |Ahead(s, w)| + |entered|
  {
    Shrinks(Ahead(t, w), Ahead(s, w) + entered);
    assert |Ahead(s, w) + entered| <= |Ahead(s, w)| + |entered|;
  }

  lemma StartGrowth(c: Config, s: State, id: SessionId, startedAt: int, w: SessionId)
    requires w in Waiting(s) && id !in s.sessions && w in Waiting(VisitorStarted(c, s, id, startedAt))
    ensures |Ahead(VisitorStarted(c, s, id, startedAt), w)| <=
      |Ahead(s, w)| + (if startedAt <= s.sessions[w].startedAt then 1 else 0)
  {
    hide PickedOperator;
    var t := VisitorStarted(c, s, id, startedAt);
    QuietGrowth(c, s, t, if startedAt <= s.sessions[w].startedAt then {id} else {}, w);
  }

  /** Events that neither pick nor drain. */
  lemma OtherGrowth(c: Config, s: State, e: Event, w: SessionId)
    requires w in Waiting(s) && Possible(c, s, e) && w in Waiting(Next(c, s, e))
    requires !e.VisitorStart? && !e.OperatorJoin? && !e.SetStatus? && !e.Close? && !e.OperatorClose?
    ensures |Ahead(Next(c, s, e), w)| <= |Ahead(s, w)| + (if Enters(s, e, w) then 1 else 0)
  {
    QuietGrowth(c, s, Next(c, s, e), if Enters(s, e, w) then {e.id} else {}, w);
  }

  /** While a visitor waits, every service shortens the queue ahead, and only entrants lengthen it. */
  lemma EventShortens(c: Config, s: State, e: Event, w: SessionId)
    requires Possible(c, s, e) && w in Waiting(s) && w in Waiting(Next(c, s, e))
    ensures |Ahead(Next(c, s, e), w)| + (if Serves(c, s, e) then 1 else 0) <=
      |Ahead(s, w)| + (if Enters(s, e, w) then 1 else 0)
  {
    match e {
      case VisitorStart(id, startedAt) => StartGrowth(c, s, id, startedAt, w);
      case OperatorJoin(op, drained) =>
        JoinShortens(c, s, op, drained, w);
      case SetStatus(op, status, drained) =>
        StatusShortens(c, s, op, status, drained, w);
      case Close(id, guard, drained) =>
        if Passes(s, id, guard) { CloseShortens(c, s, id, s.sessions[id].operatorId, drained, w); }
      case OperatorClose(id, closer, drained) =>
        if id in s.sessions { CloseShortens(c, s, id, Some(closer), drained, w); }
      case _ => OtherGrowth(c, s, e, w);
    }
  }

  lemma SyncedAhead(c: Config, s: State, w: SessionId)
    requires w in s.sessions
    ensures Ahead(QueueSynced(c, s), w) == Ahead(s, w) && Waiting(QueueSynced(c, s)) == Waiting(s)
  {}

  lemma JoinShortens(c: Config, s: State, op: OperatorId, drained: seq<SessionId>, w: SessionId)
    requires Possible(c, s, OperatorJoin(op, drained)) && w in Waiting(s)
    requires w in Waiting(Next(c, s, OperatorJoin(op, drained)))
    ensures
      var e := OperatorJoin(op, drained);
      |Ahead(Next(c, s, e), w)| + (if Serves(c, s, e) then 1 else 0) <= |Ahead(s, w)|
  {
    var p := if op in s.preference then s.preference[op] else Online;
    var t := Drained(WithPreference(s, op, p), op, drained);
    DrainFrame(WithPreference(s, op, p), op, drained);
    SyncedAhead(c, t, w);
    PresenceShortens(c, s, op, p, drained, w);
  }

  lemma StatusShortens(c: Config, s: State, op: OperatorId, status: Preference, drained: seq<SessionId>, w: SessionId)
    requires Possible(c, s, SetStatus(op, status, drained)) && w in Waiting(s)
    requires w in Waiting(Next(c, s, SetStatus(op, status, drained)))
    ensures
      var e := SetStatus(op, status, drained);
      |Ahead(Next(c, s, e), w)| + (if Serves(c, s, e) then 1 else 0) <= |Ahead(s, w)|
  {
    if op in s.preference {
      var t := Drained(WithPreference(s, op, status), op, drained);
      DrainFrame(WithPreference(s, op, status), op, drained);
      SyncedAhead(c, t, w);
      PresenceShortens(c, s, op, status, drained, w);
    }
  }

  // ---------------------------------------------------------------- runs

  /**
    Bounded waiting for visitors, over runs of events of any kind: while a visitor waits, the
    queue is served at most as often as there are sessions ahead, plus those that enter ahead
    meanwhile. The next service after that is the visitor's own.
  */
  lemma {:induction false} VisitorsTurnComes(c: Config, s: State, events: seq<Event>, w: SessionId)
    requires PossibleRun(c, s, events) && WaitsThroughout(c, s, events, w)
    ensures w in Waiting(Run(c, s, events))
    ensures Services(c, s, events) + |Ahead(Run(c, s, events), w)| <= |Ahead(s, w)| + Entrants(c, s, events, w)
    decreases |events|
  {
    if events != [] {
      var t := Next(c, s, events[0]);
      assert WaitsThroughout(c, t, events[1..], w);
      assert w in Waiting(t);
      EventShortens(c, s, events[0], w);
      VisitorsTurnComes(c, t, events[1..], w);
    }
  }

  /** With nobody ahead, the next service is the visitor's. */
  lemma NextIsOwn(c: Config, s: State, e: Event, w: SessionId)
    requires Possible(c, s, e) && Serves(c, s, e) && w in s.sessions
    requires w in Waiting(DrainCall(s, e).value.0) && Ahead(s, w) == {}
    ensures DrainedBy(e) != [] && DrainedBy(e)[0] == w
  {
    var from := DrainCall(s, e).value.0;
    var first := DrainedBy(e)[0];
    assert Oldest(from, first);
    assert first in Waiting(s) && from.sessions[first].startedAt == s.sessions[first].startedAt;
    assert first !in Ahead(s, w);
  }

  /** Every close of an eligible operator's open session, by the visitor, a timeout or the operator, is such a service unless the operator was above the cap. */
  lemma OwnCloseServes(c: Config, s: State, id: SessionId, guard: CloseGuard, drained: seq<SessionId>)
    requires FreesUsableSlot(c, s, id) && guard != IfWaiting
    ensures Serves(c, s, Close(id, guard, drained))
    ensures Serves(c, s, OperatorClose(id, s.sessions[id].operatorId.value, drained))
  {
    var op := s.sessions[id].operatorId.value;
    CloseEffect(s, id);
    assert id in Held(s, op);
    assert Held(WithOpen(s, id, false), op) == Held(s, op) - {id};
  }
}
