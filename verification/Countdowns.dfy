/**
  The two-stage warn-then-close countdowns of the gateway. `inactivityTimers` and
  `queueAbandonTimers` are two maps run by the same code: arming clears, then starts a warning
  timeout whose callback starts the close timeout.

  The JavaScript runtime is modelled by a clock and the table of live timeouts: a timeout may
  fire at any moment from its due time on, and clearing one that already fired does nothing.
*/
module Countdowns {
  import opened Common

  type Tid = nat
  type Millis = nat

  /** What `arm` reads from the two automatic messages; the callbacks keep these values. */
  datatype Settings = Settings(warn: bool, close: bool, warnDelay: Millis, closeDelay: Millis)

  datatype Stage = Warning | Closing

  datatype Timeout = Timeout(session: SessionId, stage: Stage, due: Millis, settings: Settings)

  datatype Entry = Entry(warningTimer: Tid, closeTimer: Option<Tid>)

  /** What happened to a session's countdown from the outside, and when. */
  datatype Mark = Armed(session: SessionId, at: Millis, settings: Settings) | Cleared(session: SessionId, at: Millis)

  datatype State = State(
    now: Millis,
    nextTid: Tid,
    timers: map<SessionId, Entry>,
    live: map<Tid, Timeout>,
    log: seq<Mark>)

  const INITIAL := State(0, 0, map[], map[], [])

  /** `setTimeout` turns a delay below one millisecond into one. */
  function Effective(delay: Millis): Millis {
    if delay < 1 then 1 else delay
  }

  function EntryTids(e: Entry): set<Tid> {
    {e.warningTimer} + (if e.closeTimer.Some? then {e.closeTimer.value} else {})
  }

  // ---------------------------------------------------------------- the operations

  /** `clearInactivityTimer` / `clearQueueAbandonTimer` */
  function ClearEntry(s: State, session: SessionId): State {
    if session in s.timers
    then s.(live := s.live - EntryTids(s.timers[session]), timers := s.timers - {session})
    else s
  }

  function Clear(s: State, session: SessionId): State {
    ClearEntry(s, session).(log := s.log + [Cleared(session, s.now)])
  }

  function Started(s: State, t: Timeout): State {
    s.(live := s.live[s.nextTid := t], nextTid := s.nextTid + 1)
  }

  function StartedWarning(s: State, session: SessionId, settings: Settings): State {
    Started(s, Timeout(session, Warning, s.now + Effective(settings.warnDelay), settings))
      .(timers := s.timers[session := Entry(s.nextTid, None)])
  }

  /** `armInactivityTimer` (its callers supply the language) / `armQueueAbandonTimer` */
  function Arm(s: State, session: SessionId, settings: Settings): State {
    var cleared := ClearEntry(s, session).(log := s.log + [Armed(session, s.now, settings)]);
    if !settings.warn && !settings.close then cleared else StartedWarning(cleared, session, settings)
  }

  /** The warning callback; a close timeout that no entry can record is started all the same. */
  function FireWarning(s: State, tid: Tid): State
    requires tid in s.live
  {
    var t := s.live[tid];
    var fired := s.(live := s.live - {tid});
    if !t.settings.close then fired
    else
      var closeTid := fired.nextTid;
      var next := Started(fired, Timeout(t.session, Closing, s.now + Effective(t.settings.closeDelay), t.settings));
      if t.session in next.timers
      then next.(timers := next.timers[t.session := next.timers[t.session].(closeTimer := Some(closeTid))])
      else next
  }

  /** The close callback drops the entry, whatever it then decides about the session. */
  function FireClosing(s: State, tid: Tid): State
    requires tid in s.live
  {
    s.(live := s.live - {tid}, timers := s.timers - {s.live[tid].session})
  }

  datatype Step =
    | DoArm(session: SessionId, settings: Settings)
    | DoClear(session: SessionId)
    | Fire(tid: Tid)
    | Pass(millis: Millis)

  predicate Possible(s: State, step: Step) {
    step.Fire? ==> step.tid in s.live && s.live[step.tid].due <= s.now
  }

  function Next(s: State, step: Step): State
    requires Possible(s, step)
  {
    match step
    case DoArm(session, settings) => Arm(s, session, settings)
    case DoClear(session) => Clear(s, session)
    case Fire(tid) => if s.live[tid].stage == Warning then FireWarning(s, tid) else FireClosing(s, tid)
    case Pass(millis) => s.(now := s.now + millis)
  }

  // ---------------------------------------------------------------- invariant

  /** The latest arm or clear of a session. */
  function LastMark(log: seq<Mark>, session: SessionId): Option<Mark> {
    if log == [] then None
    else if log[|log| - 1].session == session then Some(log[|log| - 1])
    else LastMark(log[..|log| - 1], session)
  }

  /** A live timeout is the one its session's map entry refers to, in the stage the entry says. */
  ghost predicate Referenced(s: State, tid: Tid) {
    && tid in s.live && tid < s.nextTid
    && var t := s.live[tid];
       && t.session in s.timers
       && match t.stage
          case Warning => s.timers[t.session] == Entry(tid, None)
          case Closing => s.timers[t.session].closeTimer == Some(tid) && s.timers[t.session].warningTimer !in s.live
  }

  /** A live timeout goes back to the session's latest mark, which is an arm, and is due no earlier than that arm's delays. */
  ghost predicate Earned(s: State, tid: Tid) {
    && tid in s.live
    && var t := s.live[tid];
       var mark := LastMark(s.log, t.session);
       && mark.Some? && mark.value.Armed? && mark.value.settings == t.settings && mark.value.at <= s.now
       && match t.stage
          case Warning => t.due == mark.value.at + Effective(t.settings.warnDelay)
          case Closing =>
            t.settings.close
            && t.due >= mark.value.at + Effective(t.settings.warnDelay) + Effective(t.settings.closeDelay)
  }

  /** Entries mention only timeouts of their own. */
  ghost predicate EntriesApart(s: State) {
    && (forall a :: a in s.timers ==> forall tid :: tid in EntryTids(s.timers[a]) ==> tid < s.nextTid)
    && (forall a, b :: a in s.timers && b in s.timers && a != b ==> EntryTids(s.timers[a]) !! EntryTids(s.timers[b]))
  }

  ghost predicate Inv(s: State) {
    EntriesApart(s) && forall tid :: tid in s.live ==> Referenced(s, tid) && Earned(s, tid)
  }

  /** Under the invariant a session has at most one live timeout. */
  lemma AtMostOneLive(s: State, a: Tid, b: Tid)
    requires Inv(s) && a in s.live && b in s.live && s.live[a].session == s.live[b].session
    ensures a == b
  {
    assert Referenced(s, a) && Referenced(s, b);
  }

  lemma LastMarkSnoc(log: seq<Mark>, mark: Mark, session: SessionId)
    ensures LastMark(log + [mark], session) == if mark.session == session then Some(mark) else LastMark(log, session)
  {
    assert (log + [mark])[..|log|] == log;
  }

  /** After a clear, no timeout of the session is live, and all others are as before. */
  lemma ClearedLive(s: State, session: SessionId)
    requires Inv(s)
    ensures forall tid :: tid in ClearEntry(s, session).live <==> tid in s.live && s.live[tid].session != session
  {
    forall tid | tid in s.live
      ensures tid in ClearEntry(s, session).live <==> s.live[tid].session != session
    {
      assert Referenced(s, tid);
      if session in s.timers && s.live[tid].session != session && tid in EntryTids(s.timers[session]) {
        OtherEntry(s, tid, session);
      }
    }
  }

  /** A live timeout is in no other session's entry. */
  lemma OtherEntry(s: State, tid: Tid, session: SessionId)
    requires Inv(s) && tid in s.live && session in s.timers && s.live[tid].session != session
    ensures tid !in EntryTids(s.timers[session])
  {
    assert Referenced(s, tid);
    assert tid in EntryTids(s.timers[s.live[tid].session]);
  }

  lemma ClearKeeps(s: State, session: SessionId, mark: Mark)
    requires Inv(s) && mark.session == session
    ensures Inv(ClearEntry(s, session).(log := s.log + [mark]))
  {
    var t := ClearEntry(s, session).(log := s.log + [mark]);
    ClearedLive(s, session);
    forall tid | tid in t.live ensures Referenced(t, tid) && Earned(t, tid) {
      assert Referenced(s, tid) && Earned(s, tid);
      LastMarkSnoc(s.log, mark, s.live[tid].session);
    }
  }

  /** The second half of `arm`: a fresh warning timeout for a session that has nothing pending. */
  lemma StartWarningKeeps(s: State, session: SessionId, settings: Settings)
    requires Inv(s) && session !in s.timers
    requires forall tid :: tid in s.live ==> s.live[tid].session != session
    requires LastMark(s.log, session) == Some(Armed(session, s.now, settings))
    ensures Inv(StartedWarning(s, session, settings))
  {
    var t := StartedWarning(s, session, settings);
    forall tid | tid in t.live ensures Referenced(t, tid) && Earned(t, tid) {
      if tid != s.nextTid {
        assert Referenced(s, tid) && Earned(s, tid);
        assert s.timers[s.live[tid].session].warningTimer in EntryTids(s.timers[s.live[tid].session]);
      }
    }
  }

  lemma ArmKeeps(s: State, session: SessionId, settings: Settings)
    requires Inv(s)
    ensures Inv(Arm(s, session, settings))
  {
    var mark := Armed(session, s.now, settings);
    ClearKeeps(s, session, mark);
    ClearedLive(s, session);
    LastMarkSnoc(s.log, mark, session);
    if settings.warn || settings.close {
      StartWarningKeeps(ClearEntry(s, session).(log := s.log + [mark]), session, settings);
    }
  }

  lemma FireWarningKeeps(s: State, tid: Tid)
    requires Inv(s) && tid in s.live && s.live[tid].stage == Warning && s.live[tid].due <= s.now
    ensures Inv(FireWarning(s, tid))
  {
    var t := FireWarning(s, tid);
    assert Referenced(s, tid) && Earned(s, tid);
    forall x | x in t.live ensures Referenced(t, x) && Earned(t, x) {
      if x != s.nextTid {
        assert Referenced(s, x) && Earned(s, x);
        if s.live[x].session == s.live[tid].session {
          AtMostOneLive(s, x, tid);
        }
      }
    }
  }

  lemma FireClosingKeeps(s: State, tid: Tid)
    requires Inv(s) && tid in s.live
    ensures Inv(FireClosing(s, tid))
  {
    var t := FireClosing(s, tid);
    forall x | x in t.live ensures Referenced(t, x) && Earned(t, x) {
      assert Referenced(s, x) && Earned(s, x);
      if s.live[x].session == s.live[tid].session {
        AtMostOneLive(s, x, tid);
      }
    }
  }

  lemma NextKeeps(s: State, step: Step)
    requires Inv(s) && Possible(s, step)
    ensures Inv(Next(s, step))
  {
    match step {
      case DoArm(session, settings) => ArmKeeps(s, session, settings);
      case DoClear(session) => ClearKeeps(s, session, Cleared(session, s.now));
      case Fire(tid) =>
        if s.live[tid].stage == Warning { FireWarningKeeps(s, tid); } else { FireClosingKeeps(s, tid); }
      case Pass(millis) =>
        var t := Next(s, step);
        forall tid | tid in t.live ensures Referenced(t, tid) && Earned(t, tid) {
          assert Referenced(s, tid) && Earned(s, tid);
        }
    }
  }

  // ---------------------------------------------------------------- runs

  ghost predicate ValidRun(s: State, steps: seq<Step>)
    decreases |steps|
  {
    steps != [] ==> Possible(s, steps[0]) && ValidRun(Next(s, steps[0]), steps[1..])
  }

  function Run(s: State, steps: seq<Step>): State
    requires ValidRun(s, steps)
    decreases |steps|
  {
    if steps == [] then s else Run(Next(s, steps[0]), steps[1..])
  }

  lemma {:induction false} RunKeeps(s: State, steps: seq<Step>)
    requires Inv(s) && ValidRun(s, steps)
    ensures Inv(Run(s, steps))
    decreases |steps|
  {
    if steps != [] {
      NextKeeps(s, steps[0]);
      RunKeeps(Next(s, steps[0]), steps[1..]);
    }
  }

  /**
    Over every run: a session has at most one live timeout, and its map entry refers to it.
  */
  lemma OneTimeoutPerSession(steps: seq<Step>, a: Tid, b: Tid)
    requires ValidRun(INITIAL, steps)
    requires a in Run(INITIAL, steps).live && b in Run(INITIAL, steps).live
    requires Run(INITIAL, steps).live[a].session == Run(INITIAL, steps).live[b].session
    ensures a == b
    ensures
      var s := Run(INITIAL, steps);
      s.live[a].session in s.timers && a in EntryTids(s.timers[s.live[a].session])
  {
    RunKeeps(INITIAL, steps);
    AtMostOneLive(Run(INITIAL, steps), a, b);
    assert Referenced(Run(INITIAL, steps), a);
  }

  /**
    Over every run: when an automatic close fires, the latest thing that happened to the
    session's countdown is an arm with closing enabled, at least the warning delay plus the
    close delay ago. Nothing re-armed or cleared it since.
  */
  lemma AutoCloseIsEarned(steps: seq<Step>, tid: Tid)
    requires ValidRun(INITIAL, steps) && Possible(Run(INITIAL, steps), Fire(tid))
    requires Run(INITIAL, steps).live[tid].stage == Closing
    ensures
      var s := Run(INITIAL, steps);
      var mark := LastMark(s.log, s.live[tid].session);
      && mark.Some? && mark.value.Armed? && mark.value.settings.close
      && s.now >= mark.value.at + mark.value.settings.warnDelay + mark.value.settings.closeDelay
  {
    RunKeeps(INITIAL, steps);
    assert Earned(Run(INITIAL, steps), tid);
  }

  ghost predicate Quiet(s: State, session: SessionId) {
    forall tid :: tid in s.live ==> s.live[tid].session != session
  }

  /** Over every run: a clear, or the close itself, leaves nothing of that session pending. */
  lemma QuietAfterClearOrClose(steps: seq<Step>, session: SessionId)
    requires ValidRun(INITIAL, steps)
    ensures Quiet(Clear(Run(INITIAL, steps), session), session)
    ensures forall tid :: tid in Run(INITIAL, steps).live && Run(INITIAL, steps).live[tid].session == session ==>
      Quiet(FireClosing(Run(INITIAL, steps), tid), session)
  {
    var s := Run(INITIAL, steps);
    RunKeeps(INITIAL, steps);
    ClearedLive(s, session);
    forall tid, x | tid in s.live && s.live[tid].session == session && x in FireClosing(s, tid).live
      ensures s.live[x].session != session
    {
      if s.live[x].session == session {
        AtMostOneLive(s, x, tid);
      }
    }
  }

  // ---------------------------------------------------------------- reference: one session at a time

  /** What one session's countdown is waiting for; `Warned` is the end of one that never closes. */
  datatype Phase =
    | Idle
    | WarningAt(due: Millis, settings: Settings)
    | Warned
    | ClosingAt(due: Millis, settings: Settings)

  function AtLeastOne(delay: Millis): Millis {
    if delay == 0 then 1 else delay
  }

  /** Arming starts over, clearing ends it, and when its timeout fires the next stage begins there and then. */
  function PhaseAfter(p: Phase, s: State, step: Step, session: SessionId): Phase {
    match step
    case DoArm(x, settings) =>
      if x != session then p
      else if settings.warn || settings.close then WarningAt(s.now + AtLeastOne(settings.warnDelay), settings)
      else Idle
    case DoClear(x) => if x == session then Idle else p
    case Fire(tid) =>
      if tid !in s.live || s.live[tid].session != session then p
      else if p.WarningAt? then
        if p.settings.close then ClosingAt(s.now + AtLeastOne(p.settings.closeDelay), p.settings) else Warned
      else Idle
    case Pass(_) => p
  }

  function PhaseOf(p: Phase, s: State, steps: seq<Step>, session: SessionId): Phase
    requires ValidRun(s, steps)
    decreases |steps|
  {
    if steps == [] then p else PhaseOf(PhaseAfter(p, s, steps[0], session), Next(s, steps[0]), steps[1..], session)
  }

  ghost predicate Pends(s: State, t: Timeout) {
    exists tid :: tid in s.live && s.live[tid] == t
  }

  /** The runtime has exactly the timeout pending that the session waits for, and the map an entry until the countdown is over. */
  ghost predicate Shows(s: State, session: SessionId, p: Phase) {
    && (session in s.timers <==> p != Idle)
    && match p
       case Idle => Quiet(s, session)
       case Warned => Quiet(s, session)
       case WarningAt(due, settings) => Pends(s, Timeout(session, Warning, due, settings))
       case ClosingAt(due, settings) => settings.close && Pends(s, Timeout(session, Closing, due, settings))
  }

  lemma OwnArmShows(s: State, session: SessionId, settings: Settings)
    requires Inv(s)
    ensures Shows(Arm(s, session, settings), session, PhaseAfter(Idle, s, DoArm(session, settings), session))
  {
    ClearedLive(s, session);
    if settings.warn || settings.close {
      var t := Arm(s, session, settings);
      assert t.live[s.nextTid] == Timeout(session, Warning, s.now + AtLeastOne(settings.warnDelay), settings);
    }
  }

  lemma OtherArmShows(s: State, x: SessionId, settings: Settings, session: SessionId, p: Phase)
    requires Inv(s) && Shows(s, session, p) && x != session
    ensures Shows(Arm(s, x, settings), session, p)
  {
    hide Shows;
    ClearedLive(s, x);
    forall tid | tid in s.live ensures tid < s.nextTid {
      assert Referenced(s, tid);
    }
    ShowsStay(s, Arm(s, x, settings), session, p);
  }

  /** Whatever keeps a session's timeouts keeps what it waits for. */
  lemma ShowsStay(s: State, t: State, session: SessionId, p: Phase)
    requires Shows(s, session, p)
    requires forall tid :: tid in s.live && s.live[tid].session == session ==> tid in t.live && t.live[tid] == s.live[tid]
    requires forall tid :: tid in t.live && t.live[tid].session == session ==> tid in s.live
    requires forall tid :: tid in t.live && tid in s.live ==> t.live[tid] == s.live[tid]
    requires session in t.timers <==> session in s.timers
    ensures Shows(t, session, p)
  {
    if p.WarningAt? || p.ClosingAt? {
      var want := Timeout(session, if p.WarningAt? then Warning else Closing, p.due, p.settings);
      var tid :| tid in s.live && s.live[tid] == want;
      assert t.live[tid] == want;
    }
  }

  lemma OwnFireShows(s: State, tid: Tid, session: SessionId, p: Phase)
    requires Inv(s) && Shows(s, session, p)
    requires tid in s.live && s.live[tid].due <= s.now && s.live[tid].session == session
    ensures Shows(Next(s, Fire(tid)), session, PhaseAfter(p, s, Fire(tid), session))
  {
    var t := Next(s, Fire(tid));
    forall x | x in s.live && s.live[x].session == session ensures x == tid {
      AtMostOneLive(s, x, tid);
    }
    assert Referenced(s, tid);
    if p.WarningAt? && p.settings.close {
      assert t.live[s.nextTid] == Timeout(session, Closing, s.now + AtLeastOne(p.settings.closeDelay), p.settings);
    }
  }

  lemma StepShows(s: State, step: Step, session: SessionId, p: Phase)
    requires Inv(s) && Shows(s, session, p) && Possible(s, step)
    ensures Shows(Next(s, step), session, PhaseAfter(p, s, step, session))
  {
    match step {
      case DoArm(x, settings) =>
        if x == session { OwnArmShows(s, session, settings); } else { OtherArmShows(s, x, settings, session, p); }
      case DoClear(x) =>
        ClearedLive(s, x);
        if x != session { ShowsStay(s, Next(s, step), session, p); }
      case Fire(tid) =>
        if s.live[tid].session == session {
          OwnFireShows(s, tid, session, p);
        } else {
          OtherFireShows(s, tid, session, p);
        }
      case Pass(_) => ShowsStay(s, Next(s, step), session, p);
    }
  }

  lemma OtherFireShows(s: State, tid: Tid, session: SessionId, p: Phase)
    requires Inv(s) && Shows(s, session, p)
    requires tid in s.live && s.live[tid].due <= s.now && s.live[tid].session != session
    ensures Shows(Next(s, Fire(tid)), session, p)
  {
    forall x | x in s.live ensures x < s.nextTid {
      assert Referenced(s, x);
    }
    ShowsStay(s, Next(s, Fire(tid)), session, p);
  }

  lemma {:induction false} RunShows(s: State, steps: seq<Step>, session: SessionId, p: Phase)
    requires Inv(s) && Shows(s, session, p) && ValidRun(s, steps)
    ensures Shows(Run(s, steps), session, PhaseOf(p, s, steps, session))
    decreases |steps|
  {
    if steps != [] {
      NextKeeps(s, steps[0]);
      StepShows(s, steps[0], session, p);
      RunShows(Next(s, steps[0]), steps[1..], session, PhaseAfter(p, s, steps[0], session));
    }
  }

  /**
    Over every run, and for each session on its own: what is pending is exactly what the
    history of the session says. After an arm with a message on, that is the warning, due
    after the warning delay; once it fired, with closing on, the close, due after the close
    delay; and nothing otherwise. The map entry goes with the close, a clear, or an arm with
    both messages off.
  */
  lemma CountdownIsOnCourse(steps: seq<Step>, session: SessionId)
    requires ValidRun(INITIAL, steps)
    ensures Shows(Run(INITIAL, steps), session, PhaseOf(Idle, INITIAL, steps, session))
  {
    RunShows(INITIAL, steps, session, Idle);
  }

  // ---------------------------------------------------------------- the close happens

  /** Time never runs past a due timeout that has not fired. */
  ghost predicate PromptRun(s: State, steps: seq<Step>)
    requires ValidRun(s, steps)
    decreases |steps|
  {
    steps != [] ==>
      && (steps[0].Pass? ==> forall tid :: tid in s.live ==> s.now + steps[0].millis <= s.live[tid].due)
      && PromptRun(Next(s, steps[0]), steps[1..])
  }

  ghost predicate NoneLate(s: State) {
    forall tid :: tid in s.live ==> s.now <= s.live[tid].due
  }

  /** Nobody arms or clears the session in the run. */
  ghost predicate Untouched(steps: seq<Step>, session: SessionId) {
    forall i :: 0 <= i < |steps| ==>
      !(steps[i].DoArm? && steps[i].session == session) && !(steps[i].DoClear? && steps[i].session == session)
  }

  /** The close timeout of the session fires in the run, at that moment. */
  ghost predicate ClosesAt(s: State, steps: seq<Step>, session: SessionId, at: Millis)
    requires ValidRun(s, steps)
    decreases |steps|
  {
    steps != [] &&
      (|| (steps[0].Fire? && s.live[steps[0].tid].session == session && s.live[steps[0].tid].stage == Closing && s.now == at)
       || ClosesAt(Next(s, steps[0]), steps[1..], session, at))
  }

  lemma StaysPrompt(s: State, step: Step)
    requires NoneLate(s) && Possible(s, step)
    requires step.Pass? ==> forall tid :: tid in s.live ==> s.now + step.millis <= s.live[tid].due
    ensures NoneLate(Next(s, step))
  {}

  /** What is due when nothing touches the session from outside. */
  function CloseDue(p: Phase): Millis
    requires p.WarningAt? || p.ClosingAt?
  {
    if p.ClosingAt? then p.due else p.due + AtLeastOne(p.settings.closeDelay)
  }

  lemma OwnPending(s: State, session: SessionId, p: Phase)
    requires Inv(s) && NoneLate(s) && (p.WarningAt? || p.ClosingAt?) && Shows(s, session, p)
    ensures s.now <= p.due
    ensures forall tid :: tid in s.live && s.live[tid].session == session ==>
      s.live[tid] == Timeout(session, if p.WarningAt? then Warning else Closing, p.due, p.settings)
  {
    var want := Timeout(session, if p.WarningAt? then Warning else Closing, p.due, p.settings);
    var own :| own in s.live && s.live[own] == want;
    forall tid | tid in s.live && s.live[tid].session == session ensures tid == own {
      AtMostOneLive(s, tid, own);
    }
  }

  lemma {:induction false} CountsDown(s: State, steps: seq<Step>, session: SessionId, p: Phase)
    requires Inv(s) && NoneLate(s) && ValidRun(s, steps) && PromptRun(s, steps) && Untouched(steps, session)
    requires (p.WarningAt? || p.ClosingAt?) && p.settings.close && Shows(s, session, p)
    requires Run(s, steps).now > CloseDue(p)
    ensures ClosesAt(s, steps, session, CloseDue(p))
    decreases |steps|
  {
    hide Inv;
    hide Shows;
    hide Next;
    OwnPending(s, session, p);
    if steps != [] {
      var step := steps[0];
      var q := PhaseAfter(p, s, step, session);
      NextKeeps(s, step);
      StepShows(s, step, session, p);
      StaysPrompt(s, step);
      assert Untouched(steps[1..], session);
      assert !(steps[0].DoArm? && steps[0].session == session) && !(steps[0].DoClear? && steps[0].session == session);
      if step.Fire? && s.live[step.tid].session == session {
        assert s.now == p.due;
        if p.WarningAt? {
          CountsDown(Next(s, step), steps[1..], session, q);
        }
      } else {
        CountsDown(Next(s, step), steps[1..], session, p);
      }
    }
  }

  /**
    An armed session is closed: if timeouts fire when due and nobody arms or clears it again,
    then by any later moment the close has fired, exactly the two delays after the arm,
    whether the warning itself is on or off.
  */
  lemma ArmedSessionCloses(s: State, session: SessionId, settings: Settings, steps: seq<Step>)
    requires Inv(s) && NoneLate(s) && settings.close
    requires ValidRun(Arm(s, session, settings), steps) && PromptRun(Arm(s, session, settings), steps) && Untouched(steps, session)
    requires Run(Arm(s, session, settings), steps).now > s.now + AtLeastOne(settings.warnDelay) + AtLeastOne(settings.closeDelay)
    ensures ClosesAt(Arm(s, session, settings), steps, session,
                     s.now + AtLeastOne(settings.warnDelay) + AtLeastOne(settings.closeDelay))
  {
    var t := Arm(s, session, settings);
    ArmKeeps(s, session, settings);
    var due := s.now + AtLeastOne(settings.warnDelay);
    assert t.live[s.nextTid] == Timeout(session, Warning, due, settings);
    StaysPrompt(s, DoArm(session, settings));
    CountsDown(t, steps, session, WarningAt(due, settings));
  }

  // ---------------------------------------------------------------- the gateway's map and the runtime

  class TwoStageTimers {
    /** `inactivityTimers` or `queueAbandonTimers` */
    var timers: map<SessionId, Entry>

    /** The runtime: clock, timeouts created so far, timeouts still pending. */
    var now: Millis
    var nextTid: Tid
    var live: map<Tid, Timeout>

    ghost var log: seq<Mark>

    ghost function Now(): State
      reads this
    {
      State(now, nextTid, timers, live, log)
    }

    constructor ()
      ensures Now() == INITIAL
    {
      now, nextTid := 0, 0;
      timers, live := map[], map[];
      log := [];
    }

    method SetTimeout(t: Timeout) returns (tid: Tid)
      modifies this
      ensures tid == old(nextTid) && Now() == Started(old(Now()), t)
    {
      tid := nextTid;
      live := live[tid := t];
      nextTid := nextTid + 1;
    }

    method ClearTimeout(tid: Tid)
      modifies this`live
      ensures live == old(live) - {tid}
    {
      live := live - {tid};
    }

    method DropEntry(session: SessionId)
      modifies this`timers, this`live
      ensures Now() == ClearEntry(old(Now()), session)
    {
      if session in timers {
        var existing := timers[session];
        ClearTimeout(existing.warningTimer);
        if existing.closeTimer.Some? {
          ClearTimeout(existing.closeTimer.value);
        }
        timers := timers - {session};
        assert live == old(live) - EntryTids(existing);
      }
    }

    method ClearTimer(session: SessionId)
      modifies this
      ensures Now() == Clear(old(Now()), session)
    {
      DropEntry(session);
      log := log + [Cleared(session, now)];
    }

    method ArmTimer(session: SessionId, settings: Settings)
      modifies this
      ensures Now() == Arm(old(Now()), session, settings)
    {
      DropEntry(session);
      log := log + [Armed(session, now, settings)];
      if !settings.warn && !settings.close {
        return;
      }
      var warningTimer := SetTimeout(Timeout(session, Warning, now + Effective(settings.warnDelay), settings));
      timers := timers[session := Entry(warningTimer, None)];
    }

    /** The runtime fires a due timeout: the warning callback or the close callback runs. */
    method FireTimeout(tid: Tid)
      requires Possible(Now(), Fire(tid))
      modifies this
      ensures Now() == Next(old(Now()), Fire(tid))
    {
      var t := live[tid];
      live := live - {tid};
      if t.stage == Warning {
        if t.settings.close {
          var closeTimer := SetTimeout(Timeout(t.session, Closing, now + Effective(t.settings.closeDelay), t.settings));
          if t.session in timers {
            timers := timers[t.session := timers[t.session].(closeTimer := Some(closeTimer))];
          }
        }
      } else {
        timers := timers - {t.session};
      }
    }
  }
}
