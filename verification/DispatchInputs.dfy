/** Short runs from a fresh start that show the limits of the dispatch protocol at concrete inputs. */
module DispatchInputs {
  import opened Common
  import opened OperatorRotation
  import opened ChatDispatch
  import opened WorkConservation
  import opened DispatchRuns
  import opened UndrainedSteps
  import opened AssignmentLimits

  /** One chat at a time; operator 3 is a supervisor. */
  const ONE := Config(1, {3})

  const A := SessionId("a")
  const B := SessionId("b")

  lemma RunCons(c: Config, s: State, e: Event, rest: seq<Event>)
    requires Possible(c, s, e) && InStepSet(s, e) && ValidRun(c, Next(c, s, e), rest)
    ensures ValidRun(c, s, [e] + rest) && Run(c, s, [e] + rest) == Run(c, Next(c, s, e), rest)
  {
    assert ([e] + rest)[1..] == rest;
  }

  lemma RunSnoc(c: Config, s: State, events: seq<Event>, e: Event)
    requires ValidRun(c, s, events) && Possible(c, Run(c, s, events), e) && InStepSet(Run(c, s, events), e)
    ensures ValidRun(c, s, events + [e]) && Run(c, s, events + [e]) == Next(c, Run(c, s, events), e)
    decreases |events|
  {
    if events == [] {
      assert events + [e] == [e];
      RunCons(c, s, e, []);
      assert [e] + [] == [e];
    } else {
      assert (events + [e])[1..] == events[1..] + [e];
      RunSnoc(c, Next(c, s, events[0]), events[1..], e);
    }
  }

  // ---------------------------------------------------------------- single steps

  /** What matters of a state here: clock at zero, who is present, the rows. */
  ghost predicate Looks(s: State, preference: map<OperatorId, Preference>, sessions: map<SessionId, Session>) {
    WellFormed(s) && s.now == 0 && s.preference == preference && s.sessions == sessions
  }

  function Row(open: bool, operatorId: Option<OperatorId>, startedAt: int): Session {
    Session(open, operatorId, startedAt, if operatorId.Some? then Some(0) else None, if open then None else Some(0))
  }

  lemma JoinAlone(s: State)
    requires Looks(s, map[], s.sessions) && WaitingIn(s.sessions) == {}
    ensures Possible(ONE, s, OperatorJoin(1, []))
    ensures Looks(Next(ONE, s, OperatorJoin(1, [])), map[1 := Online], s.sessions)
  {
    NextKeepsShape(ONE, s, OperatorJoin(1, []));
  }

  /** With operator 1 alone and free, a visitor is served at once. */
  lemma StartServed(s: State, id: SessionId, startedAt: int)
    requires Looks(s, map[1 := Online], s.sessions) && id !in s.sessions && HeldIn(s.sessions, 1) == {}
    ensures Looks(Next(ONE, s, VisitorStart(id, startedAt)), map[1 := Online], s.sessions[id := Row(true, Some(1), startedAt)])
  {
    hide PickedOperator;
    var started := Started(s, id, startedAt);
    PickedMeaning(ONE, started);
    assert Held(started, 1) == {};
    assert Spare(ONE, started, 1);
    NextKeepsShape(ONE, s, VisitorStart(id, startedAt));
  }

  /** With nobody free, a visitor waits. */
  lemma StartWaits(s: State, id: SessionId, startedAt: int)
    requires Looks(s, s.preference, s.sessions) && id !in s.sessions
    requires forall op :: op in s.preference ==> op == 1 && HeldIn(s.sessions, 1) != {}
    ensures Looks(Next(ONE, s, VisitorStart(id, startedAt)), s.preference, s.sessions[id := Row(true, None, startedAt)])
  {
    hide PickedOperator;
    var started := Started(s, id, startedAt);
    PickedMeaning(ONE, started);
    assert Held(started, 1) == Held(s, 1);
    NextKeepsShape(ONE, s, VisitorStart(id, startedAt));
  }

  // ---------------------------------------------------------------- a visitor waits for the one operator

  const JOIN := OperatorJoin(1, [])
  const QUEUE := [JOIN, VisitorStart(A, 0), VisitorStart(B, 1)]
  const QUEUE_ROWS := map[A := Row(true, Some(1), 0), B := Row(true, None, 1)]

  /** Operator 1 joins and gets `A`; `B` waits. */
  lemma Queue()
    ensures ValidRun(ONE, INITIAL, QUEUE)
    ensures Looks(Run(ONE, INITIAL, QUEUE), map[1 := Online], QUEUE_ROWS)
    ensures Conserving(ONE, Run(ONE, INITIAL, QUEUE))
  {
    hide Next;
    hide Conserving;
    StartsConserving();
    JoinAlone(INITIAL);
    RunSnoc(ONE, INITIAL, [], JOIN);
    assert [] + [JOIN] == [JOIN];
    StartServed(Run(ONE, INITIAL, [JOIN]), A, 0);
    RunSnoc(ONE, INITIAL, [JOIN], VisitorStart(A, 0));
    assert [JOIN] + [VisitorStart(A, 0)] == [JOIN, VisitorStart(A, 0)];
    QueueHeld();
    StartWaits(Run(ONE, INITIAL, [JOIN, VisitorStart(A, 0)]), B, 1);
    RunSnoc(ONE, INITIAL, [JOIN, VisitorStart(A, 0)], VisitorStart(B, 1));
    assert [JOIN, VisitorStart(A, 0)] + [VisitorStart(B, 1)] == QUEUE;
    assert map[A := Row(true, Some(1), 0)][B := Row(true, None, 1)] == QUEUE_ROWS;
    RunKeeps(ONE, INITIAL, QUEUE);
  }

  lemma StartsConserving()
    ensures WellFormed(INITIAL) && Conserving(ONE, INITIAL)
  {
    assert Waiting(INITIAL) == {};
  }

  /** There, operator 1 is full with `A`. */
  lemma Tight(s: State)
    requires Looks(s, map[1 := Online], QUEUE_ROWS)
    ensures A in s.sessions && s.sessions[A] == Row(true, Some(1), 0)
    ensures Waiting(s) == {B} && FreesUsableSlot(ONE, s, A)
  {
    QueueHeld();
  }

  lemma QueueHeld()
    ensures HeldIn(map[A := Row(true, Some(1), 0)], 1) == {A}
    ensures HeldIn(QUEUE_ROWS, 1) == {A}
    ensures WaitingIn(QUEUE_ROWS) == {B}
  {}

  /** Closing, deleting or moving `A` over REST leaves `B` waiting beside a free operator. */
  lemma StrandedByRest()
    ensures ValidRun(ONE, INITIAL, QUEUE)
    ensures
      var s := Run(ONE, INITIAL, QUEUE);
      && !Conserving(ONE, Next(ONE, s, PostClose(A))) && !Conserving(ONE, Next(ONE, s, DeleteSession(A)))
      && !Conserving(ONE, Next(ONE, s, PatchAssign(A, Some(2)))) && !Conserving(ONE, Next(ONE, s, PatchAssign(A, None)))
  {
    hide Next;
    hide Conserving;
    hide FreesUsableSlot;
    Queue();
    var s := Run(ONE, INITIAL, QUEUE);
    Tight(s);
    RestClose(ONE, s, A);
    HardDelete(ONE, s, A);
    RestReassign(ONE, s, A, 2);
    RestUnassign(ONE, s, A);
  }

  lemma SupervisorCloses(s: State)
    requires Conserving(ONE, s) && A in s.sessions && s.sessions[A] == Row(true, Some(1), 0)
    requires Waiting(s) == {B} && FreesUsableSlot(ONE, s, A)
    ensures Possible(ONE, s, OperatorClose(A, 3, [])) && !Conserving(ONE, Next(ONE, s, OperatorClose(A, 3, [])))
  {
    hide Conserving;
    hide FreesUsableSlot;
    assert Drains(ONE, WithOpen(s, A, false), 3, []);
    CloseByAnother(ONE, s, A, 3, []);
  }

  /** So does a close by the supervisor, whose own drain takes nobody. */
  lemma StrandedBySupervisor()
    ensures ValidRun(ONE, INITIAL, QUEUE)
    ensures Possible(ONE, Run(ONE, INITIAL, QUEUE), OperatorClose(A, 3, []))
    ensures !Conserving(ONE, Next(ONE, Run(ONE, INITIAL, QUEUE), OperatorClose(A, 3, [])))
  {
    hide Next;
    hide Conserving;
    hide FreesUsableSlot;
    Queue();
    Tight(Run(ONE, INITIAL, QUEUE));
    SupervisorCloses(Run(ONE, INITIAL, QUEUE));
  }

  /** A session created over REST waits beside a free operator. */
  lemma StrandedByRestStart()
    ensures ValidRun(ONE, INITIAL, [JOIN])
    ensures !Conserving(ONE, Next(ONE, Run(ONE, INITIAL, [JOIN]), PostSession(A, 0)))
  {
    hide Next;
    hide Conserving;
    JoinAlone(INITIAL);
    RunSnoc(ONE, INITIAL, [], JOIN);
    assert [] + [JOIN] == [JOIN];
    StartedBesideFree(Run(ONE, INITIAL, [JOIN]));
  }

  lemma StartedBesideFree(s: State)
    requires Looks(s, map[1 := Online], map[])
    ensures !Conserving(ONE, Next(ONE, s, PostSession(A, 0)))
  {
    var t := Next(ONE, s, PostSession(A, 0));
    assert A in Waiting(t) && Held(t, 1) == {};
    assert 1 in EligibleSet(ONE, t.preference);
  }

  /** An assignment over REST knows no cap and no supervisors: operator 1 gets a second chat, or the supervisor a first. */
  lemma OverloadedByRest()
    ensures ValidRun(ONE, INITIAL, QUEUE)
    ensures
      var s := Run(ONE, INITIAL, QUEUE);
      && Active(Next(ONE, s, PatchAssign(B, Some(1))), 1) == 2 > ONE.maxActiveChats
      && Active(Next(ONE, s, PatchAssign(B, Some(3))), 3) == 1 && 3 in ONE.supervisors
  {
    Queue();
    HandedOver(Run(ONE, INITIAL, QUEUE));
  }

  lemma HandedOver(s: State)
    requires Looks(s, map[1 := Online], QUEUE_ROWS)
    ensures Held(Next(ONE, s, PatchAssign(B, Some(1))), 1) == {A, B}
    ensures Held(Next(ONE, s, PatchAssign(B, Some(3))), 3) == {B}
  {}

  const LATER := [Pass(5), PatchAssign(A, None), PatchAssign(A, Some(2))]

  /** Five milliseconds later `A` loses operator 1 and gets operator 2; its pickup stamp is still that of operator 1. */
  lemma PickupSurvivesReassignment()
    ensures PossibleRun(ONE, Run(ONE, INITIAL, QUEUE), LATER)
    ensures
      var s, t := Run(ONE, INITIAL, QUEUE), Run(ONE, Run(ONE, INITIAL, QUEUE), LATER);
      && A in s.sessions && s.sessions[A].operatorId == Some(1) && s.sessions[A].assignedAt == Some(0)
      && A in t.sessions && t.sessions[A].operatorId == Some(2) && t.sessions[A].assignedAt == Some(0) && t.now == 5
  {
    Queue();
    Reassigned(Run(ONE, INITIAL, QUEUE));
  }

  lemma Reassigned(s: State)
    requires Looks(s, map[1 := Online], QUEUE_ROWS)
    ensures PossibleRun(ONE, s, LATER)
    ensures
      var t := Run(ONE, s, LATER);
      t.now == 5 && A in t.sessions && t.sessions[A].operatorId == Some(2) && t.sessions[A].assignedAt == Some(0)
  {
    assert LATER[1..] == [PatchAssign(A, None), PatchAssign(A, Some(2))];
    assert LATER[1..][1..] == [PatchAssign(A, Some(2))];
    var s1 := Next(ONE, s, Pass(5));
    var s2 := Next(ONE, s1, PatchAssign(A, None));
    var s3 := Next(ONE, s2, PatchAssign(A, Some(2)));
    assert PossibleRun(ONE, s3, []) && Run(ONE, s3, []) == s3;
    assert PossibleRun(ONE, s2, LATER[1..][1..]) && Run(ONE, s2, LATER[1..][1..]) == s3;
    assert PossibleRun(ONE, s1, LATER[1..]) && Run(ONE, s1, LATER[1..]) == s3;
  }

  // ---------------------------------------------------------------- sessions nobody was there for

  const GIVE_UP := [VisitorStart(A, 0), Close(A, Unchecked, [])]

  /** A visitor comes and goes while nobody is there. */
  lemma GivesUp()
    ensures ValidRun(ONE, INITIAL, GIVE_UP)
    ensures Looks(Run(ONE, INITIAL, GIVE_UP), map[], map[A := Row(false, None, 0)])
  {
    hide VisitorStarted;
    StartWaits(INITIAL, A, 0);
    RunSnoc(ONE, INITIAL, [], VisitorStart(A, 0));
    assert [] + [VisitorStart(A, 0)] == [VisitorStart(A, 0)];
    var s := Run(ONE, INITIAL, [VisitorStart(A, 0)]);
    NextKeepsShape(ONE, s, Close(A, Unchecked, []));
    RunSnoc(ONE, INITIAL, [VisitorStart(A, 0)], Close(A, Unchecked, []));
    assert [VisitorStart(A, 0)] + [Close(A, Unchecked, [])] == GIVE_UP;
  }

  /** Reopening it after operator 1 joined leaves it waiting beside a free operator. */
  lemma StrandedByReopening()
    ensures ValidRun(ONE, INITIAL, GIVE_UP + [JOIN])
    ensures !Conserving(ONE, Next(ONE, Run(ONE, INITIAL, GIVE_UP + [JOIN]), ReopenSession(A)))
  {
    GivesUp();
    JoinAlone(Run(ONE, INITIAL, GIVE_UP));
    RunSnoc(ONE, INITIAL, GIVE_UP, JOIN);
    var t := Next(ONE, Run(ONE, INITIAL, GIVE_UP + [JOIN]), ReopenSession(A));
    assert A in Waiting(t) && Held(t, 1) == {};
    assert 1 in EligibleSet(ONE, t.preference);
  }

  const CLAIM := OperatorMessage(A, 1)
  const REOPEN := ReopenSession(A)

  const ONE_CLAIMED := map[A := Row(false, Some(1), 0)]

  lemma ClaimStep(s: State)
    requires Looks(s, map[], map[A := Row(false, None, 0)])
    ensures Possible(ONE, s, CLAIM) && MovesClosed(ONE, s, CLAIM, A)
    ensures Looks(Next(ONE, s, CLAIM), map[], ONE_CLAIMED)
  {
    assert Held(s, 1) == {};
  }

  lemma ReopenStep(s: State)
    requires s.sessions == ONE_CLAIMED[B := Row(true, Some(1), 1)]
    ensures Possible(ONE, s, REOPEN) && InStepSet(s, REOPEN)
    ensures Held(Next(ONE, s, REOPEN), 1) == {A, B}
  {}

  /** Operator 1, allowed one chat, messages the closed session, joins, is served `B`, and has two chats once `A` is reopened. */
  lemma ClaimedWhileClosed()
    ensures ValidRun(ONE, INITIAL, GIVE_UP + [CLAIM] + [JOIN] + [VisitorStart(B, 1)] + [REOPEN])
    ensures MovesClosed(ONE, Run(ONE, INITIAL, GIVE_UP), CLAIM, A)
    ensures Active(Run(ONE, INITIAL, GIVE_UP + [CLAIM] + [JOIN] + [VisitorStart(B, 1)] + [REOPEN]), 1) == 2 > ONE.maxActiveChats
  {
    hide Next;
    hide MovesClosed;
    GivesUp();
    ClaimStep(Run(ONE, INITIAL, GIVE_UP));
    RunSnoc(ONE, INITIAL, GIVE_UP, CLAIM);
    JoinAlone(Run(ONE, INITIAL, GIVE_UP + [CLAIM]));
    RunSnoc(ONE, INITIAL, GIVE_UP + [CLAIM], JOIN);
    StartServed(Run(ONE, INITIAL, GIVE_UP + [CLAIM] + [JOIN]), B, 1);
    RunSnoc(ONE, INITIAL, GIVE_UP + [CLAIM] + [JOIN], VisitorStart(B, 1));
    ReopenStep(Run(ONE, INITIAL, GIVE_UP + [CLAIM] + [JOIN] + [VisitorStart(B, 1)]));
    RunSnoc(ONE, INITIAL, GIVE_UP + [CLAIM] + [JOIN] + [VisitorStart(B, 1)], REOPEN);
  }

  // ---------------------------------------------------------------- any number of closed claims

  function IdOf(k: nat): SessionId {
    SessionId(seq(k, i => 'x'))
  }

  /** Before the `k`-th: nobody is there, and all sessions so far are closed and claimed by operator 1. */
  ghost predicate AllClaimed(s: State, k: nat) {
    && Looks(s, map[], s.sessions)
    && (forall id :: id in s.sessions <==> exists i: nat :: i < k && id == IdOf(i))
    && (forall id :: id in s.sessions ==> s.sessions[id] == Row(false, Some(1), 0))
  }

  function ClaimEvents(n: nat): seq<Event> {
    if n == 0 then []
    else
      ClaimEvents(n - 1) + [VisitorStart(IdOf(n - 1), 0)] + [Close(IdOf(n - 1), Unchecked, [])] + [OperatorMessage(IdOf(n - 1), 1)]
  }

  lemma FreshIdOf(s: State, k: nat)
    requires AllClaimed(s, k)
    ensures IdOf(k) !in s.sessions && HeldIn(s.sessions, 1) == {}
  {
    forall i: nat | i < k ensures IdOf(i) != IdOf(k) {
      assert |IdOf(i).cuid| == i && |IdOf(k).cuid| == k;
    }
  }

  lemma GiveUpStep(s: State, id: SessionId)
    requires Looks(s, map[], s.sessions) && id in s.sessions && s.sessions[id] == Row(true, None, 0)
    ensures Possible(ONE, s, Close(id, Unchecked, [])) && InStepSet(s, Close(id, Unchecked, []))
    ensures Looks(Next(ONE, s, Close(id, Unchecked, [])), map[], s.sessions[id := Row(false, None, 0)])
  {
    NextKeepsShape(ONE, s, Close(id, Unchecked, []));
  }

  lemma ClaimAnother(s: State, id: SessionId)
    requires Looks(s, map[], s.sessions) && id in s.sessions && s.sessions[id] == Row(false, None, 0)
    requires HeldIn(s.sessions, 1) == {}
    ensures Possible(ONE, s, OperatorMessage(id, 1)) && InStepSet(s, OperatorMessage(id, 1))
    ensures Looks(Next(ONE, s, OperatorMessage(id, 1)), map[], s.sessions[id := Row(false, Some(1), 0)])
  {
    assert Active(s, 1) == 0;
    NextKeepsShape(ONE, s, OperatorMessage(id, 1));
  }

  lemma StartAnother(s: State, id: SessionId)
    requires Looks(s, map[], s.sessions) && id !in s.sessions
    ensures Possible(ONE, s, VisitorStart(id, 0)) && InStepSet(s, VisitorStart(id, 0))
    ensures Looks(Next(ONE, s, VisitorStart(id, 0)), map[], s.sessions[id := Row(true, None, 0)])
  {
    StartWaits(s, id, 0);
  }

  lemma {:induction false} ClaimsAdded(n: nat)
    ensures ValidRun(ONE, INITIAL, ClaimEvents(n)) && AllClaimed(Run(ONE, INITIAL, ClaimEvents(n)), n)
  {
    if n > 0 {
      ClaimsAdded(n - 1);
      OneMoreClaim(ClaimEvents(n - 1), n - 1);
    }
  }

  lemma OneMoreClaim(events: seq<Event>, k: nat)
    requires ValidRun(ONE, INITIAL, events) && AllClaimed(Run(ONE, INITIAL, events), k)
    ensures
      var more := events + [VisitorStart(IdOf(k), 0)] + [Close(IdOf(k), Unchecked, [])] + [OperatorMessage(IdOf(k), 1)];
      ValidRun(ONE, INITIAL, more) && AllClaimed(Run(ONE, INITIAL, more), k + 1)
  {
    hide Next;
    hide Possible;
    var s0, id := Run(ONE, INITIAL, events), IdOf(k);
    FreshIdOf(s0, k);
    StartAnother(s0, id);
    RunSnoc(ONE, INITIAL, events, VisitorStart(id, 0));
    var e1 := events + [VisitorStart(id, 0)];
    GiveUpStep(Run(ONE, INITIAL, e1), id);
    RunSnoc(ONE, INITIAL, e1, Close(id, Unchecked, []));
    var e2 := e1 + [Close(id, Unchecked, [])];
    var s2 := Run(ONE, INITIAL, e2);
    assert s2.sessions == s0.sessions[id := Row(false, None, 0)];
    assert HeldIn(s2.sessions, 1) == {};
    ClaimAnother(s2, id);
    RunSnoc(ONE, INITIAL, e2, OperatorMessage(id, 1));
    AddedClaim(s0, Run(ONE, INITIAL, e2 + [OperatorMessage(id, 1)]), k);
  }

  lemma AddedClaim(s: State, t: State, k: nat)
    requires AllClaimed(s, k) && Looks(t, map[], s.sessions[IdOf(k) := Row(false, Some(1), 0)])
    ensures AllClaimed(t, k + 1)
  {
    forall id ensures id in t.sessions <==> exists i: nat :: i < k + 1 && id == IdOf(i) {
      if id == IdOf(k) {
        assert id in t.sessions;
      }
    }
  }

  /** The first `m` of the claimed sessions are reopened. */
  function ReopenEvents(m: nat): seq<Event> {
    if m == 0 then [] else ReopenEvents(m - 1) + [ReopenSession(IdOf(m - 1))]
  }

  ghost function FirstIds(m: nat): set<SessionId> {
    set i: nat | i < m :: IdOf(i)
  }

  lemma {:induction false} FirstIdsCount(m: nat)
    ensures |FirstIds(m)| == m
  {
    if m > 0 {
      FirstIdsCount(m - 1);
      forall i: nat | i < m - 1 ensures IdOf(i) != IdOf(m - 1) {
        assert |IdOf(i).cuid| == i && |IdOf(m - 1).cuid| == m - 1;
      }
      assert FirstIds(m) == FirstIds(m - 1) + {IdOf(m - 1)};
    }
  }

  lemma ReopenOne(s: State, id: SessionId)
    requires id in s.sessions && s.sessions[id].operatorId == Some(1)
    ensures Possible(ONE, s, ReopenSession(id)) && InStepSet(s, ReopenSession(id))
    ensures Held(Next(ONE, s, ReopenSession(id)), 1) == Held(s, 1) + {id}
    ensures Next(ONE, s, ReopenSession(id)).sessions.Keys == s.sessions.Keys
    ensures forall x :: x in s.sessions ==> Next(ONE, s, ReopenSession(id)).sessions[x].operatorId == s.sessions[x].operatorId
  {}

  lemma {:induction false} ReopenedOnes(n: nat, m: nat)
    requires m <= n
    ensures ValidRun(ONE, INITIAL, ClaimEvents(n) + ReopenEvents(m))
    ensures
      var s := Run(ONE, INITIAL, ClaimEvents(n) + ReopenEvents(m));
      && Held(s, 1) == FirstIds(m)
      && forall i: nat :: i < n ==> IdOf(i) in s.sessions && s.sessions[IdOf(i)].operatorId == Some(1)
    decreases m
  {
    hide Next;
    if m == 0 {
      ClaimsAdded(n);
      FreshIdOf(Run(ONE, INITIAL, ClaimEvents(n)), n);
      assert ClaimEvents(n) + ReopenEvents(0) == ClaimEvents(n);
    } else {
      ReopenedOnes(n, m - 1);
      var events := ClaimEvents(n) + ReopenEvents(m - 1);
      var s := Run(ONE, INITIAL, events);
      ReopenOne(s, IdOf(m - 1));
      RunSnoc(ONE, INITIAL, events, ReopenSession(IdOf(m - 1)));
      assert events + [ReopenSession(IdOf(m - 1))] == ClaimEvents(n) + ReopenEvents(m);
      assert FirstIds(m) == FirstIds(m - 1) + {IdOf(m - 1)};
    }
  }

  /** For every n there is a run of the step set, without any claim by hand, that ends with n chats under a cap of one. */
  lemma AnyNumberOfChats(n: nat)
    ensures ValidRun(ONE, INITIAL, ClaimEvents(n) + ReopenEvents(n))
    ensures Active(Run(ONE, INITIAL, ClaimEvents(n) + ReopenEvents(n)), 1) == n
  {
    ReopenedOnes(n, n);
    FirstIdsCount(n);
  }

  // ---------------------------------------------------------------- an operator who left

  const LEAVE := GoOffline(1)
  const CLOSE_A := Close(A, Unchecked, [B])
  const LEFT := [JOIN, VisitorStart(A, 0), LEAVE, VisitorStart(B, 1)]

  lemma LeaveStep(s: State)
    requires Looks(s, map[1 := Online], s.sessions)
    ensures Possible(ONE, s, LEAVE) && Looks(Next(ONE, s, LEAVE), map[], s.sessions)
  {
    NextKeepsShape(ONE, s, LEAVE);
  }

  lemma CloseStep(s: State)
    requires Looks(s, map[], QUEUE_ROWS)
    ensures Possible(ONE, s, CLOSE_A)
    ensures B in Held(Next(ONE, s, CLOSE_A), 1) && Next(ONE, s, CLOSE_A).preference == map[]
  {
    QueueHeld();
    var from := WithOpen(s, A, false);
    assert Held(from, 1) == {} && Waiting(from) == {B};
    var to := Assigned(from, B, Some(1));
    assert Held(to, 1) == {B};
    assert Drains(ONE, to, 1, []);
    assert [B][1..] == [];
    assert Drained(to, 1, []) == to;
  }

  /** The visitor `A` ends the chat, and `B` is given to operator 1, who is not there. */
  lemma ServedByAbsent()
    ensures ValidRun(ONE, INITIAL, LEFT + [CLOSE_A])
    ensures
      var t := Run(ONE, INITIAL, LEFT + [CLOSE_A]);
      B in Held(t, 1) && 1 !in t.preference
  {
    hide Next;
    JoinAlone(INITIAL);
    RunSnoc(ONE, INITIAL, [], JOIN);
    assert [] + [JOIN] == [JOIN];
    StartServed(Run(ONE, INITIAL, [JOIN]), A, 0);
    RunSnoc(ONE, INITIAL, [JOIN], VisitorStart(A, 0));
    assert [JOIN] + [VisitorStart(A, 0)] == [JOIN, VisitorStart(A, 0)];
    LeaveStep(Run(ONE, INITIAL, [JOIN, VisitorStart(A, 0)]));
    RunSnoc(ONE, INITIAL, [JOIN, VisitorStart(A, 0)], LEAVE);
    assert [JOIN, VisitorStart(A, 0)] + [LEAVE] == [JOIN, VisitorStart(A, 0), LEAVE];
    StartWaits(Run(ONE, INITIAL, [JOIN, VisitorStart(A, 0), LEAVE]), B, 1);
    RunSnoc(ONE, INITIAL, [JOIN, VisitorStart(A, 0), LEAVE], VisitorStart(B, 1));
    assert [JOIN, VisitorStart(A, 0), LEAVE] + [VisitorStart(B, 1)] == LEFT;
    assert map[A := Row(true, Some(1), 0)][B := Row(true, None, 1)] == QUEUE_ROWS;
    CloseStep(Run(ONE, INITIAL, LEFT));
    RunSnoc(ONE, INITIAL, LEFT, CLOSE_A);
  }
}
