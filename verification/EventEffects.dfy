/**
  What every event does to presence, to each session row, to the rotation list and to the
  clock, said from the state before it and the event alone.
*/
module EventEffects {
  import opened Common
  import opened OperatorRotation
  import opened ChatDispatch
  import opened WorkConservation

  // ---------------------------------------------------------------- presence

  function Entry(s: State, x: OperatorId): Option<Preference> {
    if x in s.preference then Some(s.preference[x]) else None
  }

  lemma DrainLeavesPresence(s: State, op: OperatorId, drained: seq<SessionId>)
    ensures Drained(s, op, drained).preference == s.preference && Drained(s, op, drained).connected == s.connected
    ensures Drained(s, op, drained).rotation == s.rotation && Drained(s, op, drained).now == s.now
  {
    DrainFrame(s, op, drained);
  }

  lemma DrainOfEvent(s: State, e: Event)
    ensures DrainCall(s, e).Some? ==>
      var from, op := DrainCall(s, e).value.0, DrainCall(s, e).value.1;
      && Drained(from, op, DrainedBy(e)).preference == from.preference
      && Drained(from, op, DrainedBy(e)).connected == from.connected
      && Drained(from, op, DrainedBy(e)).rotation == from.rotation
      && Drained(from, op, DrainedBy(e)).now == from.now
  {
    if DrainCall(s, e).Some? {
      DrainLeavesPresence(DrainCall(s, e).value.0, DrainCall(s, e).value.1, DrainedBy(e));
    }
  }

  /**
    A status that is sent takes effect for whoever is present, a join keeps the preference of
    a reconnecting operator and starts a new one as online, leaving and a restart end the
    entry, and nothing else touches anybody's entry.
  */
  lemma PresenceAfter(c: Config, s: State, e: Event, x: OperatorId)
    requires Possible(c, s, e)
    ensures
      var before, after := Entry(s, x), Entry(Next(c, s, e), x);
      if e.SetStatus? && e.op == x then after == (if before.Some? then Some(e.status) else None)
      else if e.OperatorJoin? && e.op == x then after == Some(if before.Some? then before.value else Online)
      else if e == GoOffline(x) || e.Restart? then after == None
      else after == before
  {
    hide PickedOperator;
    DrainOfEvent(s, e);
  }

  /** Somebody away, busy or gone is assigned nobody by the rotation; somebody online and no supervisor may be. */
  lemma EligibleAfter(c: Config, s: State, e: Event, op: OperatorId)
    requires Possible(c, s, e)
    ensures e.SetStatus? && e.op == op && e.status != Online ==> !Eligible(c, Next(c, s, e), op)
    ensures e == GoOffline(op) || e.Restart? ==> !Eligible(c, Next(c, s, e), op)
    ensures e.SetStatus? && e.op == op && e.status == Online && op in s.preference && op !in c.supervisors ==>
      Eligible(c, Next(c, s, e), op)
    ensures e.OperatorJoin? && e.op == op && op !in s.preference && op !in c.supervisors ==> Eligible(c, Next(c, s, e), op)
  {
    hide Next;
    PresenceAfter(c, s, e, op);
  }

  /** A new connection goes to the end, a gone one leaves its place, and everybody else keeps the order. */
  lemma ConnectedAfter(c: Config, s: State, e: Event)
    requires Possible(c, s, e)
    ensures Next(c, s, e).connected ==
      if e.OperatorJoin? && e.op !in s.preference then s.connected + [e.op]
      else if e.GoOffline? && e.op in s.preference then Without(s.connected, {e.op})
      else if e.Restart? then []
      else s.connected
  {
    hide PickedOperator;
    DrainOfEvent(s, e);
  }

  lemma KeptIsIn(s: seq<int>, ids: set<int>, k: nat)
    requires k < |Keep(s, ids)|
    ensures Keep(s, ids)[k] in s
  {
    KeepElems(s, ids);
    assert Keep(s, ids)[k] in Elems(Keep(s, ids));
  }

  lemma IndexInTail(s: seq<int>, x: int)
    requires s != [] && Distinct(s) && x in s[1..]
    ensures IndexOf(s, x) == 1 + IndexOf(s[1..], x)
  {}

  lemma {:induction false} KeepInOrder(s: seq<int>, ids: set<int>, i: nat, j: nat)
    requires Distinct(s) && i < j < |Keep(s, ids)|
    ensures Keep(s, ids)[i] in s && Keep(s, ids)[j] in s
    ensures IndexOf(s, Keep(s, ids)[i]) < IndexOf(s, Keep(s, ids)[j])
  {
    hide IndexOf;
    var tail := Keep(s[1..], ids);
    var shift := if s[0] in ids then 1 else 0;
    assert Keep(s, ids) == if shift == 1 then [s[0]] + tail else tail;
    KeptIsIn(s, ids, i);
    KeptIsIn(s, ids, j);
    KeptIsIn(s[1..], ids, j - shift);
    IndexInTail(s, tail[j - shift]);
    if i >= shift {
      KeepInOrder(s[1..], ids, i - shift, j - shift);
      IndexInTail(s, tail[i - shift]);
    } else {
      FirstIndex(s);
    }
  }

  lemma FirstIndex(s: seq<int>)
    requires s != []
    ensures IndexOf(s, s[0]) == 0
  {}

  /** The eligible ids come in the order of connection. */
  lemma EligibleInOrder(c: Config, s: State, i: nat, j: nat)
    requires WellFormed(s) && i < j < |EligibleIds(c, s)|
    ensures EligibleIds(c, s)[i] in s.connected && EligibleIds(c, s)[j] in s.connected
    ensures IndexOf(s.connected, EligibleIds(c, s)[i]) < IndexOf(s.connected, EligibleIds(c, s)[j])
  {
    KeepInOrder(s.connected, EligibleSet(c, s.preference), i, j);
  }

  // ---------------------------------------------------------------- the rotation list and the clock

  predicate Resyncs(s: State, e: Event) {
    e.OperatorJoin? || ((e.SetStatus? || e.GoOffline?) && e.op in s.preference)
  }

  /** Newcomers in front, then whoever stays, in their order. */
  function Resynced(list: seq<int>, eligible: seq<int>): seq<int> {
    Newcomers(list, eligible) + Keep(list, Elems(eligible))
  }

  lemma StartRotates(c: Config, s: State, id: SessionId, startedAt: int)
    ensures
      var ids, t := EligibleIds(c, s), VisitorStarted(c, s, id, startedAt);
      && (ids == [] ==> t.rotation == s.rotation)
      && (ids != [] ==> FirstFreeInLine(Resynced(s.rotation, ids), UnderCapacity(c, Started(s, id, startedAt)),
                                        Pick(PickedOperator(c, Started(s, id, startedAt)).chosen, t.rotation)))
  {
    var started := Started(s, id, startedAt);
    var ids, under := EligibleIds(c, started), UnderCapacity(c, started);
    assert ids == EligibleIds(c, s);
    if ids != [] {
      PickNextMeaning(s.rotation, ids, under);
      SyncAfterPickIsIdle(s.rotation, ids, under);
      SyncedShape(s.rotation, ids);
    }
  }

  /**
    Changes of eligibility re-sync the list, newcomers in front; a visitor's start re-syncs it
    and moves whoever is first in line and free to the back, with all it passed over; without
    eligible operators, and through all other events, it stays.
  */
  lemma RotationAfter(c: Config, s: State, e: Event)
    requires Possible(c, s, e)
    ensures Resyncs(s, e) ==> Next(c, s, e).rotation == Resynced(s.rotation, EligibleIds(c, Next(c, s, e)))
    ensures e.VisitorStart? && EligibleIds(c, s) != [] ==>
      FirstFreeInLine(Resynced(s.rotation, EligibleIds(c, s)), UnderCapacity(c, Started(s, e.id, e.startedAt)),
                      Pick(PickedOperator(c, Started(s, e.id, e.startedAt)).chosen, Next(c, s, e).rotation))
    ensures !Resyncs(s, e) && !(e.VisitorStart? && EligibleIds(c, s) != []) ==> Next(c, s, e).rotation == s.rotation
  {
    hide PickedOperator;
    DrainOfEvent(s, e);
    if e.VisitorStart? {
      StartRotates(c, s, e.id, e.startedAt);
    } else if Resyncs(s, e) {
      SyncedShape(s.rotation, EligibleIds(c, Next(c, s, e)));
    }
  }

  lemma ClockAfter(c: Config, s: State, e: Event)
    requires Possible(c, s, e)
    ensures Next(c, s, e).now == s.now + (if e.Pass? then e.millis else 0)
  {
    hide PickedOperator;
    DrainOfEvent(s, e);
  }

  // ---------------------------------------------------------------- rows

  /** The event closes the row, whatever it does beside. */
  predicate Closes(s: State, e: Event, id: SessionId)
    requires id in s.sessions
  {
    var row := s.sessions[id];
    match e
    case Close(x, guard, _) =>
      x == id && (guard == Unchecked || (row.open && (guard == IfWaiting ==> row.operatorId == None)))
    case OperatorClose(x, _, _) => x == id
    case PostClose(x) => x == id
    case _ => false
  }

  /** An operator asks for the row and gets it. */
  predicate Claims(c: Config, s: State, e: Event, id: SessionId)
    requires id in s.sessions
  {
    var row := s.sessions[id];
    match e
    case JoinSession(x, op) => x == id && row.open && row.operatorId == None && op !in c.supervisors
    case OperatorMessage(x, op) =>
      x == id && row.operatorId == None && op !in c.supervisors && Active(s, op) < c.maxActiveChats
    case _ => false
  }

  predicate Creates(e: Event, id: SessionId) {
    (e.VisitorStart? || e.PostSession?) && e.id == id
  }

  lemma {:induction false} DrainOnRow(c: Config, s: State, op: OperatorId, drained: seq<SessionId>, id: SessionId)
    requires Drains(c, s, op, drained) && id in s.sessions
    ensures Drained(s, op, drained).sessions.Keys == s.sessions.Keys
    ensures
      var before, after := s.sessions[id], Drained(s, op, drained).sessions[id];
      && after.open == before.open && after.startedAt == before.startedAt && after.closedAt == before.closedAt
      && after.operatorId == if id in drained then Some(op) else before.operatorId
    decreases |drained|
  {
    if drained != [] {
      assert drained == [drained[0]] + drained[1..];
      var t := Assigned(s, drained[0], Some(op));
      DrainOnRow(c, t, op, drained[1..], id);
      DrainWaiting(c, t, op, drained[1..]);
      if id in drained[1..] {
        assert id in Elems(drained[1..]);
      }
    }
  }

  /** Which rows there are. */
  lemma RowsAfter(c: Config, s: State, e: Event, id: SessionId)
    requires Possible(c, s, e)
    ensures id in Next(c, s, e).sessions <==> (id in s.sessions && e != DeleteSession(id)) || Creates(e, id)
  {
    hide PickedOperator;
    if DrainCall(s, e).Some? {
      DrainFrame(DrainCall(s, e).value.0, DrainCall(s, e).value.1, DrainedBy(e));
    }
  }

  /** Somebody's drain in the event takes the row. */
  predicate TakenByDrain(s: State, e: Event, id: SessionId) {
    DrainCall(s, e).Some? && id in DrainedBy(e)
  }

  /** A row in the event's drain, seen from the row as it was. */
  lemma DrainedRowAfter(c: Config, s: State, e: Event, id: SessionId)
    requires Possible(c, s, e) && id in s.sessions && DrainCall(s, e).Some?
    ensures id in Next(c, s, e).sessions
    ensures
      var before, after := s.sessions[id], Next(c, s, e).sessions[id];
      && after.startedAt == before.startedAt
      && (after.open <==> before.open && !Closes(s, e, id))
      && after.closedAt == (if Closes(s, e, id) then Some(s.now) else before.closedAt)
      && after.operatorId == if id in DrainedBy(e) then Some(DrainCall(s, e).value.1) else before.operatorId
  {
    var from, op := DrainCall(s, e).value.0, DrainCall(s, e).value.1;
    DrainOnRow(c, from, op, DrainedBy(e), id);
  }

  /**
    What becomes of a row. It closes, stamped, and reopens exactly by the events that say so. It changes
    hands exactly by a claim that meets its conditions, by the drain that takes it, or by an
    assignment over REST. Its start time stays.
  */
  lemma RowAfter(c: Config, s: State, e: Event, id: SessionId)
    requires Possible(c, s, e) && id in s.sessions && e != DeleteSession(id)
    ensures id in Next(c, s, e).sessions
    ensures
      var before, after := s.sessions[id], Next(c, s, e).sessions[id];
      && after.startedAt == before.startedAt
      && (after.open <==> e == ReopenSession(id) || (before.open && !Closes(s, e, id)))
      && after.closedAt ==
           (if e == ReopenSession(id) then None else if Closes(s, e, id) then Some(s.now) else before.closedAt)
      && after.operatorId ==
           (if e.PatchAssign? && e.id == id then e.to
            else if Claims(c, s, e, id) then Some(e.op)
            else if TakenByDrain(s, e, id) then Some(DrainCall(s, e).value.1)
            else before.operatorId)
  {
    hide PickedOperator;
    if DrainCall(s, e).Some? {
      DrainedRowAfter(c, s, e, id);
    }
  }

  /** A new session is open and started then; over REST it waits, and by visitor:start it waits exactly if nobody eligible has room. */
  lemma NewRowAfter(c: Config, s: State, e: Event)
    requires WellFormed(s) && Possible(c, s, e) && (e.VisitorStart? || e.PostSession?)
    ensures e.id in Next(c, s, e).sessions
    ensures
      var row := Next(c, s, e).sessions[e.id];
      && row.open && row.startedAt == e.startedAt
      && (e.PostSession? ==> row.operatorId == None)
      && (e.VisitorStart? ==> (row.operatorId == None <==> forall op :: !Spare(c, s, op)))
      && (e.VisitorStart? && row.operatorId.Some? ==> Spare(c, s, row.operatorId.value))
  {
    hide PickedOperator;
    if e.VisitorStart? {
      var started := Started(s, e.id, e.startedAt);
      PickedMeaning(c, started);
      forall op ensures Spare(c, started, op) <==> Spare(c, s, op) {
        assert Held(started, op) == Held(s, op);
      }
    }
  }
}
