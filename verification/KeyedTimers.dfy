/**
  `KeyedTimerRegistry` (keyed-timer-registry.ts): named, cancellable timers. The runtime is
  a table of live timeouts; when one fires, its callback first drops the registry entry and
  then runs the task, which may itself arm and cancel.
*/
module KeyedTimers {
  import opened Common

  type Tid = nat
  datatype Key = Key(id: string)
  type Task = nat

  datatype Timeout = Timeout(key: Key, task: Task, due: nat)

  datatype Command =
    | Arm(key: Key, delay: nat, task: Task)
    | Cancel(key: Key)
    | CancelAll

  /** What the outside world can observe about one key, newest last. */
  datatype Mark = ArmedMark(key: Key, tid: Tid) | StoppedMark(key: Key) | AllStoppedMark

  datatype State = State(now: nat, nextTid: Tid, timers: map<Key, Tid>, live: map<Tid, Timeout>, log: seq<Mark>)

  const INITIAL := State(0, 0, map[], map[], [])

  // ---------------------------------------------------------------- operations

  function CancelEntry(s: State, key: Key): State {
    if key in s.timers
    then s.(live := s.live - {s.timers[key]}, timers := s.timers - {key})
    else s
  }

  function Execute(s: State, cmd: Command): State {
    match cmd
    case Arm(key, delay, task) =>
      var c := CancelEntry(s, key);
      State(s.now, s.nextTid + 1,
            c.timers[key := s.nextTid],
            c.live[s.nextTid := Timeout(key, task, s.now + (if delay < 1 then 1 else delay))],
            s.log + [ArmedMark(key, s.nextTid)])
    case Cancel(key) => CancelEntry(s, key).(log := s.log + [StoppedMark(key)])
    case CancelAll =>
      s.(live := s.live - s.timers.Values, timers := map[], log := s.log + [AllStoppedMark])
  }

  function ExecuteAll(s: State, cmds: seq<Command>): State
    decreases |cmds|
  {
    if cmds == [] then s else ExecuteAll(Execute(s, cmds[0]), cmds[1..])
  }

  /** The callback of a timeout, up to the moment its task starts. */
  function Fired(s: State, tid: Tid): State
    requires tid in s.live
  {
    var key := s.live[tid].key;
    s.(live := s.live - {tid}, timers := s.timers - {key}, log := s.log + [StoppedMark(key)])
  }

  datatype Step =
    | Call(cmd: Command)
    | Fire(tid: Tid, body: seq<Command>)
    | Pass(millis: nat)

  predicate Possible(s: State, step: Step) {
    step.Fire? ==> step.tid in s.live && s.live[step.tid].due <= s.now
  }

  function Next(s: State, step: Step): State
    requires Possible(s, step)
  {
    match step
    case Call(cmd) => Execute(s, cmd)
    case Fire(tid, body) => ExecuteAll(Fired(s, tid), body)
    case Pass(millis) => s.(now := s.now + millis)
  }

  // ---------------------------------------------------------------- reference: what the log alone says

  /** The latest armed timeout of a key that was neither cancelled nor fired since. */
  function Pending(log: seq<Mark>, key: Key): Option<Tid> {
    if log == [] then None
    else match log[|log| - 1]
      case ArmedMark(k, tid) => if k == key then Some(tid) else Pending(log[..|log| - 1], key)
      case StoppedMark(k) => if k == key then None else Pending(log[..|log| - 1], key)
      case AllStoppedMark => None
  }

  function Lookup(s: State, key: Key): Option<Tid> {
    if key in s.timers then Some(s.timers[key]) else None
  }

  // ---------------------------------------------------------------- invariant

  /** Registry entries and live timeouts are in one-to-one correspondence. */
  ghost predicate Bijective(s: State) {
    && (forall key :: key in s.timers ==> s.timers[key] in s.live && s.live[s.timers[key]].key == key)
    && (forall tid :: tid in s.live ==> s.live[tid].key in s.timers && s.timers[s.live[tid].key] == tid)
  }

  ghost predicate Inv(s: State) {
    && Bijective(s)
    && (forall tid :: tid in s.live ==> tid < s.nextTid)
    && (forall key :: Lookup(s, key) == Pending(s.log, key))
  }

  lemma PendingSnoc(log: seq<Mark>, mark: Mark, key: Key)
    ensures Pending(log + [mark], key) == Marked(Pending(log, key), mark, key)
  {
    assert (log + [mark])[..|log|] == log;
  }

  /** What a mark makes of the pending timeout of a key. */
  function Marked(before: Option<Tid>, mark: Mark, key: Key): Option<Tid> {
    match mark
    case ArmedMark(k, tid) => if k == key then Some(tid) else before
    case StoppedMark(k) => if k == key then None else before
    case AllStoppedMark => None
  }

  /** Appending the right mark keeps the registry and the log in agreement. */
  lemma LogKeeps(s: State, t: State, mark: Mark)
    requires Inv(s) && t.log == s.log + [mark]
    requires forall key :: Lookup(t, key) == Marked(Lookup(s, key), mark, key)
    ensures forall key :: Lookup(t, key) == Pending(t.log, key)
  {
    forall key ensures Lookup(t, key) == Pending(t.log, key) {
      PendingSnoc(s.log, mark, key);
      assert Lookup(s, key) == Pending(s.log, key);
    }
  }

  lemma ExecuteKeeps(s: State, cmd: Command)
    requires Inv(s)
    ensures Inv(Execute(s, cmd))
  {
    var t := Execute(s, cmd);
    LogKeeps(s, t, t.log[|s.log|]);
    if cmd.CancelAll? {
      forall tid | tid in s.live ensures tid in s.timers.Values {
        assert s.timers[s.live[tid].key] == tid;
      }
    }
  }

  lemma {:induction false} ExecuteAllKeeps(s: State, cmds: seq<Command>)
    requires Inv(s)
    ensures Inv(ExecuteAll(s, cmds))
    decreases |cmds|
  {
    if cmds != [] {
      ExecuteKeeps(s, cmds[0]);
      ExecuteAllKeeps(Execute(s, cmds[0]), cmds[1..]);
    }
  }

  lemma FiredKeeps(s: State, tid: Tid)
    requires Inv(s) && tid in s.live
    ensures Inv(Fired(s, tid))
  {
    var t := Fired(s, tid);
    forall key ensures Lookup(t, key) == Pending(t.log, key) {
      PendingSnoc(s.log, StoppedMark(s.live[tid].key), key);
      assert Lookup(s, key) == Pending(s.log, key);
    }
  }

  lemma NextKeeps(s: State, step: Step)
    requires Inv(s) && Possible(s, step)
    ensures Inv(Next(s, step))
  {
    match step {
      case Call(cmd) => ExecuteKeeps(s, cmd);
      case Fire(tid, body) =>
        FiredKeeps(s, tid);
        ExecuteAllKeeps(Fired(s, tid), body);
      case Pass(millis) =>
        assert forall key :: Lookup(Next(s, step), key) == Lookup(s, key);
    }
  }

  // ---------------------------------------------------------------- runs

  ghost predicate ValidRun(s: State, steps: seq<Step>)
    decreases |steps|
  {
    steps != [] ==> Possible(s, steps[0]) && ValidRun(Next(s, steps[0]), steps[1..])
  }

  function Run(s: State, steps: seq<Step>): State
    requires ValidRun(s, steps)
    decreases |steps|
  {
    if steps == [] then s else Run(Next(s, steps[0]), steps[1..])
  }

  lemma {:induction false} RunKeeps(s: State, steps: seq<Step>)
    requires Inv(s) && ValidRun(s, steps)
    ensures Inv(Run(s, steps))
    decreases |steps|
  {
    if steps != [] {
      NextKeeps(s, steps[0]);
      RunKeeps(Next(s, steps[0]), steps[1..]);
    }
  }

  /**
    Over every run, tasks re-arming or cancelling from inside their callback included: entries
    and live timeouts match one to one, and a timeout can fire only while it is its key's
    latest armed, uncancelled one, so a replaced or cancelled task never runs.
  */
  lemma OnlyTheLatestRuns(steps: seq<Step>, tid: Tid, body: seq<Command>)
    requires ValidRun(INITIAL, steps) && Possible(Run(INITIAL, steps), Fire(tid, body))
    ensures Bijective(Run(INITIAL, steps))
    ensures
      var s := Run(INITIAL, steps);
      Pending(s.log, s.live[tid].key) == Some(tid)
  {
    RunKeeps(INITIAL, steps);
    var s := Run(INITIAL, steps);
    assert Lookup(s, s.live[tid].key) == Pending(s.log, s.live[tid].key);
  }

  /** Over every run: the live timeouts are exactly the latest armed, uncancelled ones. */
  lemma LiveIsPending(steps: seq<Step>, key: Key, tid: Tid)
    requires ValidRun(INITIAL, steps)
    ensures
      var s := Run(INITIAL, steps);
      tid in s.live && s.live[tid].key == key <==> Pending(s.log, key) == Some(tid)
  {
    RunKeeps(INITIAL, steps);
    var s := Run(INITIAL, steps);
    assert Lookup(s, key) == Pending(s.log, key);
  }

  /** A task whose last command arms its own key keeps that new timer when its callback ends. */
  lemma RearmSurvives(s: State, tid: Tid, body: seq<Command>, delay: nat, task: Task)
    requires Inv(s) && tid in s.live && s.live[tid].due <= s.now
    ensures
      var key := s.live[tid].key;
      var t := Next(s, Fire(tid, body + [Arm(key, delay, task)]));
      && key in t.timers && t.timers[key] in t.live
      && t.live[t.timers[key]].task == task
      && t.timers[key] != tid && t.live[t.timers[key]].due > s.now
  {
    var arm := Arm(s.live[tid].key, delay, task);
    FiredKeeps(s, tid);
    ExecuteAllSnoc(Fired(s, tid), body, arm);
    ExecuteAllGrows(Fired(s, tid), body);
  }

  lemma {:induction false} ExecuteAllSnoc(s: State, cmds: seq<Command>, last: Command)
    ensures ExecuteAll(s, cmds + [last]) == Execute(ExecuteAll(s, cmds), last)
    decreases |cmds|
  {
    if cmds == [] {
      assert cmds + [last] == [last];
    } else {
      assert (cmds + [last])[1..] == cmds[1..] + [last];
      ExecuteAllSnoc(Execute(s, cmds[0]), cmds[1..], last);
    }
  }

  lemma {:induction false} ExecuteAllGrows(s: State, cmds: seq<Command>)
    ensures ExecuteAll(s, cmds).nextTid >= s.nextTid && ExecuteAll(s, cmds).now == s.now
    decreases |cmds|
  {
    if cmds != [] {
      ExecuteAllGrows(Execute(s, cmds[0]), cmds[1..]);
    }
  }

  // ---------------------------------------------------------------- reference: one key at a time

  /** What a key is waiting for. */
  datatype Wait = Nothing | Armed(at: nat, delay: nat, task: Task)

  function AtLeastOne(delay: nat): nat {
    if delay == 0 then 1 else delay
  }

  function WaitAfter(w: Wait, now: nat, cmd: Command, key: Key): Wait {
    match cmd
    case Arm(k, delay, task) => if k == key then Armed(now, delay, task) else w
    case Cancel(k) => if k == key then Nothing else w
    case CancelAll => Nothing
  }

  function WaitAfterAll(w: Wait, now: nat, cmds: seq<Command>, key: Key): Wait
    decreases |cmds|
  {
    if cmds == [] then w else WaitAfterAll(WaitAfter(w, now, cmds[0], key), now, cmds[1..], key)
  }

  /** A firing ends the wait of its key before the task has its say. */
  function WaitAfterStep(w: Wait, s: State, step: Step, key: Key): Wait {
    match step
    case Call(cmd) => WaitAfter(w, s.now, cmd, key)
    case Fire(tid, body) =>
      WaitAfterAll(if tid in s.live && s.live[tid].key == key then Nothing else w, s.now, body, key)
    case Pass(_) => w
  }

  function WaitOf(w: Wait, s: State, steps: seq<Step>, key: Key): Wait
    requires ValidRun(s, steps)
    decreases |steps|
  {
    if steps == [] then w else WaitOf(WaitAfterStep(w, s, steps[0], key), Next(s, steps[0]), steps[1..], key)
  }

  /** The registry and the runtime have exactly the timeout the key waits for. */
  ghost predicate Shows(s: State, key: Key, w: Wait) {
    match w
    case Nothing => key !in s.timers && forall tid :: tid in s.live ==> s.live[tid].key != key
    case Armed(at, delay, task) =>
      && key in s.timers && s.timers[key] in s.live
      && s.live[s.timers[key]] == Timeout(key, task, at + AtLeastOne(delay))
      && forall tid :: tid in s.live && s.live[tid].key == key ==> tid == s.timers[key]
  }

  lemma CommandShows(s: State, cmd: Command, key: Key, w: Wait)
    requires Inv(s) && Shows(s, key, w)
    ensures Shows(Execute(s, cmd), key, WaitAfter(w, s.now, cmd, key)) && Execute(s, cmd).now == s.now
  {
    if cmd.CancelAll? {
      forall tid | tid in s.live ensures tid in s.timers.Values {
        assert s.timers[s.live[tid].key] == tid;
      }
    }
  }

  lemma {:induction false} CommandsShow(s: State, cmds: seq<Command>, key: Key, w: Wait)
    requires Inv(s) && Shows(s, key, w)
    ensures Shows(ExecuteAll(s, cmds), key, WaitAfterAll(w, s.now, cmds, key))
    decreases |cmds|
  {
    if cmds != [] {
      CommandShows(s, cmds[0], key, w);
      ExecuteKeeps(s, cmds[0]);
      CommandsShow(Execute(s, cmds[0]), cmds[1..], key, WaitAfter(w, s.now, cmds[0], key));
    }
  }

  lemma StepShows(s: State, step: Step, key: Key, w: Wait)
    requires Inv(s) && Shows(s, key, w) && Possible(s, step)
    ensures Shows(Next(s, step), key, WaitAfterStep(w, s, step, key))
  {
    match step {
      case Call(cmd) => CommandShows(s, cmd, key, w);
      case Fire(tid, body) =>
        FiredKeeps(s, tid);
        CommandsShow(Fired(s, tid), body, key, if s.live[tid].key == key then Nothing else w);
      case Pass(_) =>
    }
  }

  lemma {:induction false} RunShows(s: State, steps: seq<Step>, key: Key, w: Wait)
    requires Inv(s) && Shows(s, key, w) && ValidRun(s, steps)
    ensures Shows(Run(s, steps), key, WaitOf(w, s, steps, key))
    decreases |steps|
  {
    if steps != [] {
      StepShows(s, steps[0], key, w);
      NextKeeps(s, steps[0]);
      RunShows(Next(s, steps[0]), steps[1..], key, WaitAfterStep(w, s, steps[0], key));
    }
  }

  /**
    Over every run, and for each key on its own: what is registered and pending is exactly
    what the calls about the key say, with the task and the delay that were asked for.
  */
  lemma RegistryIsOnCourse(steps: seq<Step>, key: Key)
    requires ValidRun(INITIAL, steps)
    ensures Shows(Run(INITIAL, steps), key, WaitOf(Nothing, INITIAL, steps, key))
  {
    RunShows(INITIAL, steps, key, Nothing);
  }

  /** Over every run: a timeout that may fire was armed for its key, with its task, at least the delay ago, and is due at just that distance. */
  lemma FiresWhenAsked(steps: seq<Step>, tid: Tid, body: seq<Command>)
    requires ValidRun(INITIAL, steps) && Possible(Run(INITIAL, steps), Fire(tid, body))
    ensures
      var s := Run(INITIAL, steps);
      var w := WaitOf(Nothing, INITIAL, steps, s.live[tid].key);
      && w.Armed? && w.task == s.live[tid].task && s.now >= w.at + w.delay && s.live[tid].due == w.at + AtLeastOne(w.delay)
  {
    RegistryIsOnCourse(steps, Run(INITIAL, steps).live[tid].key);
  }

  // ---------------------------------------------------------------- the task runs

  /** Time never runs past a due timeout that has not fired. */
  ghost predicate PromptRun(s: State, steps: seq<Step>)
    requires ValidRun(s, steps)
    decreases |steps|
  {
    steps != [] ==>
      && (steps[0].Pass? ==> forall tid :: tid in s.live ==> s.now + steps[0].millis <= s.live[tid].due)
      && PromptRun(Next(s, steps[0]), steps[1..])
  }

  ghost predicate NoneLate(s: State) {
    forall tid :: tid in s.live ==> s.now <= s.live[tid].due
  }

  predicate Touches(cmd: Command, key: Key) {
    cmd.CancelAll? || cmd.key == key
  }

  /** No call and no task of the run arms or cancels the key, except its own task when it runs. */
  ghost predicate Untouched(s: State, steps: seq<Step>, key: Key)
    requires ValidRun(s, steps)
    decreases |steps|
  {
    steps != [] ==>
      && (steps[0].Call? ==> !Touches(steps[0].cmd, key))
      && (steps[0].Fire? && s.live[steps[0].tid].key != key ==>
            forall i :: 0 <= i < |steps[0].body| ==> !Touches(steps[0].body[i], key))
      && Untouched(Next(s, steps[0]), steps[1..], key)
  }

  ghost predicate RunsAt(s: State, steps: seq<Step>, key: Key, task: Task, at: nat)
    requires ValidRun(s, steps)
    decreases |steps|
  {
    steps != [] &&
      (|| (steps[0].Fire? && s.live[steps[0].tid].key == key && s.live[steps[0].tid].task == task && s.now == at)
       || RunsAt(Next(s, steps[0]), steps[1..], key, task, at))
  }

  lemma {:induction false} CommandsOnTime(s: State, cmds: seq<Command>)
    requires NoneLate(s)
    ensures NoneLate(ExecuteAll(s, cmds)) && ExecuteAll(s, cmds).now == s.now
    decreases |cmds|
  {
    if cmds != [] {
      CommandsOnTime(Execute(s, cmds[0]), cmds[1..]);
    }
  }

  lemma StaysPrompt(s: State, step: Step)
    requires NoneLate(s) && Possible(s, step)
    requires step.Pass? ==> forall tid :: tid in s.live ==> s.now + step.millis <= s.live[tid].due
    ensures NoneLate(Next(s, step))
  {
    if step.Fire? {
      CommandsOnTime(Fired(s, step.tid), step.body);
    }
  }

  lemma {:induction false} UntouchedWait(w: Wait, now: nat, cmds: seq<Command>, key: Key)
    requires forall i :: 0 <= i < |cmds| ==> !Touches(cmds[i], key)
    ensures WaitAfterAll(w, now, cmds, key) == w
    decreases |cmds|
  {
    if cmds != [] {
      assert !Touches(cmds[0], key);
      UntouchedWait(w, now, cmds[1..], key);
    }
  }

  /**
    An armed task runs: if timeouts fire when due and nobody else arms or cancels its key, then
    by any later moment it has run, exactly its delay after the arm.
  */
  lemma {:induction false} ArmedTaskRuns(s: State, steps: seq<Step>, key: Key, w: Wait)
    requires Inv(s) && NoneLate(s) && ValidRun(s, steps) && PromptRun(s, steps) && Untouched(s, steps, key)
    requires w.Armed? && Shows(s, key, w)
    requires Run(s, steps).now > w.at + AtLeastOne(w.delay)
    ensures RunsAt(s, steps, key, w.task, w.at + AtLeastOne(w.delay))
    decreases |steps|
  {
    assert s.now <= s.live[s.timers[key]].due;
    if steps != [] {
      var step := steps[0];
      if step.Fire? && s.live[step.tid].key == key {
        assert step.tid == s.timers[key];
      } else {
        NextKeeps(s, step);
        StepShows(s, step, key, w);
        StaysPrompt(s, step);
        if step.Fire? {
          UntouchedWait(w, s.now, step.body, key);
        }
        ArmedTaskRuns(Next(s, step), steps[1..], key, w);
      }
    }
  }

  // ---------------------------------------------------------------- the registry

  class KeyedTimerRegistry {
    var timers: map<Key, Tid>

    var now: nat
    var nextTid: Tid
    var live: map<Tid, Timeout>

    ghost var log: seq<Mark>

    ghost function Now(): State
      reads this
    {
      State(now, nextTid, timers, live, log)
    }

    constructor ()
      ensures Now() == INITIAL
    {
      timers, live := map[], map[];
      now, nextTid := 0, 0;
      log := [];
    }

    method DropEntry(key: Key)
      modifies this`timers, this`live
      ensures Now() == CancelEntry(old(Now()), key)
    {
      if key !in timers {
        return;
      }
      live := live - {timers[key]};
      timers := timers - {key};
    }

    method ArmTimer(key: Key, delay: nat, task: Task)
      modifies this
      ensures Now() == Execute(old(Now()), Arm(key, delay, task))
    {
      DropEntry(key);
      var timer := nextTid;
      live := live[timer := Timeout(key, task, now + (if delay < 1 then 1 else delay))];
      nextTid := nextTid + 1;
      timers := timers[key := timer];
      log := log + [ArmedMark(key, timer)];
    }

    method CancelTimer(key: Key)
      modifies this
      ensures Now() == Execute(old(Now()), Cancel(key))
    {
      DropEntry(key);
      log := log + [StoppedMark(key)];
    }

    method CancelAllTimers()
      modifies this
      ensures Now() == Execute(old(Now()), CancelAll)
    {
      var left := timers.Keys;
      while left != {}
        invariant left <= timers.Keys
        invariant live == old(live) - (set key | key in timers && key !in left :: timers[key])
        invariant timers == old(timers) && now == old(now) && nextTid == old(nextTid) && log == old(log)
        decreases left
      {
        var key :| key in left;
        live := live - {timers[key]};
        left := left - {key};
      }
      assert (set key | key in timers :: timers[key]) == timers.Values;
      timers := map[];
      log := log + [AllStoppedMark];
    }

    /** The runtime fires a due timeout: the entry goes first, then the task runs. */
    method FireTimeout(tid: Tid, body: seq<Command>)
      requires Possible(Now(), Fire(tid, body))
      modifies this
      ensures Now() == Next(old(Now()), Fire(tid, body))
    {
      var key := live[tid].key;
      live := live - {tid};
      timers := timers - {key};
      log := log + [StoppedMark(key)];
      assert Now() == Fired(old(Now()), tid);
      ghost var fired := Now();
      for i := 0 to |body|
        invariant Now() == ExecuteAll(fired, body[..i])
      {
        assert body[..i + 1] == body[..i] + [body[i]];
        ExecuteAllSnoc(fired, body[..i], body[i]);
        match body[i] {
          case Arm(k, delay, task) => ArmTimer(k, delay, task);
          case Cancel(k) => CancelTimer(k);
          case CancelAll => CancelAllTimers();
        }
      }
      assert body[..|body|] == body;
    }
  }
}
