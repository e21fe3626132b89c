/**
  The live-chat dispatch protocol: who is online, which sessions are open and assigned, and
  what every gateway handler does to them (chat.gateway.ts, chat.service.ts). Handlers are
  atomic steps. A waiting visitor is an open session without an operator.
*/
module ChatDispatch {
  import opened Common
  import opened OperatorRotation

  type OperatorId = int

  datatype Preference = Online | Away | Busy

  /** `assignedAt` is the first pickup; `closedAt` is there while the session is closed. */
  datatype Session = Session(
    open: bool,
    operatorId: Option<OperatorId>,
    startedAt: int,
    assignedAt: Option<int>,
    closedAt: Option<int>)

  /** What stays fixed over a run. */
  datatype Config = Config(maxActiveChats: nat, supervisors: set<OperatorId>)

  /** `now` is the clock, `connected` is the insertion order of the `onlineOperators` map, `preference` its contents. */
  datatype State = State(
    now: int,
    connected: seq<OperatorId>,
    preference: map<OperatorId, Preference>,
    sessions: map<SessionId, Session>,
    rotation: seq<OperatorId>)

  const INITIAL := State(0, [], map[], map[], [])

  // ---------------------------------------------------------------- queries

  function WaitingIn(sessions: map<SessionId, Session>): set<SessionId> {
    set id | id in sessions && sessions[id].open && sessions[id].operatorId == None
  }

  function HeldIn(sessions: map<SessionId, Session>, op: OperatorId): set<SessionId> {
    set id | id in sessions && sessions[id].open && sessions[id].operatorId == Some(op)
  }

  function Waiting(s: State): set<SessionId> {
    WaitingIn(s.sessions)
  }

  function Held(s: State, op: OperatorId): set<SessionId> {
    HeldIn(s.sessions, op)
  }

  function Active(s: State, op: OperatorId): nat {
    |Held(s, op)|
  }

  function EligibleSet(c: Config, preference: map<OperatorId, Preference>): set<OperatorId> {
    set op | op in preference && preference[op].Online? && op !in c.supervisors
  }

  predicate Eligible(c: Config, s: State, op: OperatorId) {
    op in EligibleSet(c, s.preference)
  }

  function EligibleIds(c: Config, s: State): seq<OperatorId> {
    Keep(s.connected, EligibleSet(c, s.preference))
  }

  function UnderCapacity(c: Config, s: State): set<OperatorId> {
    set op | op in EligibleIds(c, s) && Active(s, op) < c.maxActiveChats
  }

  /** `drainQueue`'s own test: an operator without an entry passes it. */
  predicate Drainable(c: Config, s: State, op: OperatorId) {
    (op in s.preference ==> s.preference[op].Online?) && op !in c.supervisors
  }

  /** `orderBy startedAt asc` may return any of several sessions started in the same second. */
  predicate Oldest(s: State, id: SessionId) {
    id in Waiting(s) && forall w | w in Waiting(s) :: s.sessions[id].startedAt <= s.sessions[w].startedAt
  }

  // ---------------------------------------------------------------- writes

  /** The first pickup is stamped; a later one, or taking the operator away, leaves the stamp. */
  function WithOperator(row: Session, op: Option<OperatorId>, now: int): Session {
    row.(operatorId := op, assignedAt := if op.Some? && row.assignedAt == None then Some(now) else row.assignedAt)
  }

  /** Closing stamps the row (again, if it was closed already), reopening clears the stamp. */
  function WithStatus(row: Session, open: bool, now: int): Session {
    row.(open := open, closedAt := if open then None else Some(now))
  }

  function Assigned(s: State, id: SessionId, op: Option<OperatorId>): State
    requires id in s.sessions
  {
    s.(sessions := s.sessions[id := WithOperator(s.sessions[id], op, s.now)])
  }

  function WithOpen(s: State, id: SessionId, open: bool): State
    requires id in s.sessions
  {
    s.(sessions := s.sessions[id := WithStatus(s.sessions[id], open, s.now)])
  }

  function QueueSynced(c: Config, s: State): State {
    s.(rotation := Synced(s.rotation, EligibleIds(c, s)))
  }

  /** `drainQueue(op)` assigned `drained`, in that order. */
  function Drained(s: State, op: OperatorId, drained: seq<SessionId>): State
    decreases |drained|
  {
    if drained == [] || drained[0] !in s.sessions then s
    else Drained(Assigned(s, drained[0], Some(op)), op, drained[1..])
  }

  /** The sequences `drainQueue(op)` may assign; ties in `startedAt` are the only choice. */
  predicate Drains(c: Config, s: State, op: OperatorId, drained: seq<SessionId>)
    decreases |drained|
  {
    if Drainable(c, s, op) && Active(s, op) < c.maxActiveChats && Waiting(s) != {} then
      drained != [] && Oldest(s, drained[0])
      && Drains(c, Assigned(s, drained[0], Some(op)), op, drained[1..])
    else
      drained == []
  }

  function DrainSize(c: Config, s: State, op: OperatorId): nat {
    if !Drainable(c, s, op) || Active(s, op) >= c.maxActiveChats then 0
    else if c.maxActiveChats - Active(s, op) <= |Waiting(s)| then c.maxActiveChats - Active(s, op)
    else |Waiting(s)|
  }

  /** `pickAvailableOperator`: the pick, then the broadcast's own sync. */
  function PickedOperator(c: Config, s: State): Pick {
    var eligible := EligibleIds(c, s);
    if eligible == [] then Pick(None, s.rotation)
    else
      var p := NextPick(s.rotation, eligible, UnderCapacity(c, s));
      Pick(p.chosen, Synced(p.list, eligible))
  }

  // ---------------------------------------------------------------- handlers

  /** Which check a closing path makes on the session before it closes it. */
  datatype CloseGuard = Unchecked | IfOpen | IfWaiting

  datatype Event =
    | VisitorStart(id: SessionId, startedAt: int)
    | JoinSession(id: SessionId, op: OperatorId)
    | OperatorMessage(id: SessionId, op: OperatorId)
    | OperatorJoin(op: OperatorId, drained: seq<SessionId>)
    | SetStatus(op: OperatorId, status: Preference, drained: seq<SessionId>)
    | GoOffline(op: OperatorId)
    | Close(id: SessionId, guard: CloseGuard, drained: seq<SessionId>)
    | OperatorClose(id: SessionId, closer: OperatorId, drained: seq<SessionId>)
    | ReopenSession(id: SessionId)
    | Restart
    | Pass(millis: nat)
    // the REST endpoints, which neither pick nor drain
    | PostSession(id: SessionId, startedAt: int)
    | PatchAssign(id: SessionId, to: Option<OperatorId>)
    | PostClose(id: SessionId)
    | DeleteSession(id: SessionId)

  function Started(s: State, id: SessionId, startedAt: int): State {
    s.(sessions := s.sessions[id := Session(true, None, startedAt, None, None)])
  }

  /** A hard delete takes the row away, open or closed. */
  function Removed(s: State, id: SessionId): State {
    s.(sessions := s.sessions - {id})
  }

  function WithPreference(s: State, op: OperatorId, p: Preference): State {
    s.(preference := s.preference[op := p],
       connected := if op in s.preference then s.connected else s.connected + [op])
  }

  function Offline(s: State, op: OperatorId): State {
    s.(preference := s.preference - {op}, connected := Without(s.connected, {op}))
  }

  predicate Passes(s: State, id: SessionId, guard: CloseGuard) {
    && id in s.sessions
    && (guard == Unchecked || s.sessions[id].open)
    && (guard == IfWaiting ==> s.sessions[id].operatorId == None)
  }

  function ClosedThenDrained(s: State, id: SessionId, drainFor: Option<OperatorId>, drained: seq<SessionId>): State
    requires id in s.sessions
  {
    var closed := WithOpen(s, id, false);
    if drainFor == None then closed else Drained(closed, drainFor.value, drained)
  }

  function VisitorStarted(c: Config, s: State, id: SessionId, startedAt: int): State {
    var started := Started(s, id, startedAt);
    var p := PickedOperator(c, started);
    var next := if p.chosen == None then started else Assigned(started, id, p.chosen);
    next.(rotation := p.list)
  }

  /** What the session row must look like for an operator to claim it. */
  predicate Claimable(c: Config, s: State, id: SessionId, op: OperatorId, byMessage: bool) {
    && id in s.sessions && s.sessions[id].operatorId == None && op !in c.supervisors
    && (if byMessage then Active(s, op) < c.maxActiveChats else s.sessions[id].open)
  }

  function Next(c: Config, s: State, e: Event): State {
    match e
    case VisitorStart(id, startedAt) => VisitorStarted(c, s, id, startedAt)
    case JoinSession(id, op) =>
      if Claimable(c, s, id, op, false) then Assigned(s, id, Some(op)) else s
    case OperatorMessage(id, op) =>
      if Claimable(c, s, id, op, true) then Assigned(s, id, Some(op)) else s
    case OperatorJoin(op, drained) =>
      var p := if op in s.preference then s.preference[op] else Online;
      QueueSynced(c, Drained(WithPreference(s, op, p), op, drained))
    case SetStatus(op, status, drained) =>
      if op !in s.preference then s
      else QueueSynced(c, Drained(WithPreference(s, op, status), op, drained))
    case GoOffline(op) =>
      if op !in s.preference then s else QueueSynced(c, Offline(s, op))
    case Close(id, guard, drained) =>
      if Passes(s, id, guard) then ClosedThenDrained(s, id, s.sessions[id].operatorId, drained) else s
    case OperatorClose(id, closer, drained) =>
      if id in s.sessions then ClosedThenDrained(s, id, Some(closer), drained) else s
    case ReopenSession(id) =>
      if id in s.sessions then WithOpen(s, id, true) else s
    case Restart =>
      // the maps are in memory; the rows and the Redis list survive
      s.(connected := [], preference := map[])
    case Pass(millis) => s.(now := s.now + millis)
    case PostSession(id, startedAt) => Started(s, id, startedAt)
    case PatchAssign(id, to) => if id in s.sessions then Assigned(s, id, to) else s
    case PostClose(id) => if id in s.sessions then WithOpen(s, id, false) else s
    case DeleteSession(id) => Removed(s, id)
  }

  /** The state in which the event's call to `drainQueue` starts, and for whom, if it makes one. */
  function DrainCall(s: State, e: Event): Option<(State, OperatorId)> {
    match e
    case OperatorJoin(op, _) =>
      Some((WithPreference(s, op, if op in s.preference then s.preference[op] else Online), op))
    case SetStatus(op, status, _) =>
      if op in s.preference && status == Online then Some((WithPreference(s, op, Online), op)) else None
    case Close(id, guard, _) =>
      if Passes(s, id, guard) && s.sessions[id].operatorId.Some?
      then Some((WithOpen(s, id, false), s.sessions[id].operatorId.value)) else None
    case OperatorClose(id, closer, _) =>
      if id in s.sessions then Some((WithOpen(s, id, false), closer)) else None
    case _ => None
  }

  function DrainedBy(e: Event): seq<SessionId> {
    match e
    case OperatorJoin(_, drained) => drained
    case SetStatus(_, _, drained) => drained
    case Close(_, _, drained) => drained
    case OperatorClose(_, _, drained) => drained
    case _ => []
  }

  /** The event can happen in `s`: a new session has a fresh id, and drains are what `drainQueue` does. */
  predicate Possible(c: Config, s: State, e: Event) {
    && (e.VisitorStart? || e.PostSession? ==> e.id !in s.sessions)
    && match DrainCall(s, e)
       case Some((from, op)) => Drains(c, from, op, DrainedBy(e))
       case None => DrainedBy(e) == []
  }

  /**
    The step set of the whole-run results: a close by an operator is of its own session or of
    an unassigned one, a reopened session has an operator (or is open already), and nothing
    is written over REST but reopenings.
  */
  predicate InStepSet(s: State, e: Event) {
    match e
    case OperatorClose(id, closer, _) => id in s.sessions ==> s.sessions[id].operatorId in {None, Some(closer)}
    case ReopenSession(id) => id in s.sessions && !s.sessions[id].open ==> s.sessions[id].operatorId != None
    case PostSession(_, _) => false
    case PatchAssign(_, _) => false
    case PostClose(_) => false
    case DeleteSession(_) => false
    case _ => true
  }
}
