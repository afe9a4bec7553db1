/**
 * The daemon's trigger protocol as a transition system.
 *
 * A task is a coroutine stack, and its `Point` is the `await` it is suspended at.  One event runs the
 * code between two awaits of one task.  The environment chooses the order of the events, how each await
 * ends (normally, cancelled, or with another exception), whether the configuration file can be written,
 * and how time passes.
 */
module DaemonSchedule {
  import opened Prelude

  type Time = real

  const STARTUP: Time := 20.0
  const INTERVAL: Time := 3600.0
  const WAKEUP_DELAY: Time := 10.0
  const APPLIST_UPDATE_INTERVAL: Time := 86400.0

  /** How an await ended, and how a finished task ended. */
  datatype Outcome = Completed | Cancelled | Failed

  datatype Flag = EnableFlag | InhibitFlag

  /** Where a task is suspended; the line of daemon.py stands beside each point. */
  datatype Point =
    | Executing                                     // the task whose code runs in the current event
    | PeriodicStart                                 // 65: _trigger_periodic created, not begun
    | PeriodicSleep(wake: Time)                     // 70
    | PeriodicAppList                               // 81
    | TriggerQueued                                 // 237: _trigger created as a task, not begun
    | TriggerRun                                    // 199
    | TriggerReplace(on: nat)                       // 210
    | TriggerWait(on: nat, checked: bool)           // 226 (checked by the assertion at 227) or 231
    | CancelWait(on: nat, reschedule: bool)         // 94, reached from 127 when reschedule holds
    | LeaveDelay(wake: Time)                        // 126
    | FlagWait(on: nat, flag: Flag, value: bool)    // 246 and 260
    | ShutdownWait(on: nat)                         // 168
    | Done(how: Outcome)

  /** `doomed`: the next resumption cannot be a normal one, because the task was cancelled. */
  datatype Task = Task(at: Point, doomed: bool)

  datatype Mark = RunBegins(at: Time, byPeriodic: bool) | RunEnds(at: Time)

  datatype State = State(
    now: Time,
    serving: bool, suspend: string,
    active: bool, asyncTrigger: Option<nat>, periodicTask: Option<nat>, nextTrigger: Time,
    enabled: bool, inhibited: bool,
    lastTrigger: Option<Time>,   // `last_trigger` in memory
    saved: Option<Time>,         // and on disk
    listed: Time,                // `last_applist_update` in memory, 0.0 when missing or invalid
    savedListed: Time,           // and on disk
    tasks: seq<Task>,
    owner: Option<nat>,          // history: the task that took the flag last
    log: seq<Mark>)              // history: the runs

  datatype Op =
    | Trigger(wait: bool)
    | SetFlag(flag: Flag, value: bool)
    | SuspendChanged(activeState: string)
    | Shutdown

  datatype Event =
    | Tick(elapsed: Time)
    | Call(op: Op, writes: bool)
    | Resume(task: nat, how: Outcome, writes: bool)
    | Save                                          // somebody else writes the configuration
    | Restart(enabled: bool, inhibited: bool)

  // ---------------------------------------------------------------- pieces of a segment

  /** `write_config` writes all that is in memory. */
  function Written(s: State): State {
    s.(saved := s.lastTrigger, savedListed := s.listed)
  }

  predicate Blocked(s: State) {
    s.inhibited || !s.enabled
  }

  function Move(s: State, me: nat, p: Point): State
    requires me < |s.tasks|
  {
    s.(tasks := s.tasks[me := s.tasks[me].(at := p)])
  }

  function Finish(s: State, me: nat, how: Outcome): State
    requires me < |s.tasks|
  {
    Move(s, me, Done(how))
  }

  function Spawn(s: State, p: Point): State {
    s.(tasks := s.tasks + [Task(p, false)])
  }

  /** `self._periodic_task = asyncio.create_task(self._trigger_periodic())` */
  function InstallPeriodic(s: State): State {
    Spawn(s, PeriodicStart).(periodicTask := Some(|s.tasks|))
  }

  /** Points at which a cancelled periodic task is certain to receive its CancelledError. */
  predicate Armable(p: Point) {
    p.PeriodicStart? || p.PeriodicSleep? || p.PeriodicAppList?
  }

  function Cancel(s: State, t: nat): State {
    if t < |s.tasks| && Armable(s.tasks[t].at)
    then s.(tasks := s.tasks[t := s.tasks[t].(doomed := true)])
    else s
  }

  /** The outcome of a finished task; awaiting such a task does not suspend. */
  function Result(s: State, t: nat): Option<Outcome> {
    if t < |s.tasks| && s.tasks[t].at.Done? then Some(s.tasks[t].at.how) else None
  }

  // ---------------------------------------------------------------- _cancel_periodic, _update_schedule

  /** What follows `_cancel_periodic`, at which moment there is no periodic task. */
  function AfterCancel(s: State, me: nat, reschedule: bool): State
    requires me < |s.tasks|
  {
    Finish(if reschedule && !Blocked(s) && s.periodicTask.None? then InstallPeriodic(s) else s, me, Completed)
  }

  function CancelPeriodic(s: State, me: nat, reschedule: bool): State
    requires me < |s.tasks|
  {
    match s.periodicTask
    case None => AfterCancel(s, me, reschedule)
    case Some(p) =>
      var s' := Cancel(s, p);
      match Result(s', p)
      case None => Move(s', me, CancelWait(p, reschedule))
      case Some(Failed) => Finish(s', me, Failed)
      case Some(_) => AfterCancel(s'.(periodicTask := None), me, reschedule)
  }

  function UpdateSchedule(s: State, me: nat): State
    requires me < |s.tasks|
  {
    if Blocked(s) then CancelPeriodic(s, me, false)
    else Finish(if s.periodicTask.None? then InstallPeriodic(s) else s, me, Completed)
  }

  // ---------------------------------------------------------------- _trigger and trigger

  function TriggerBody(s: State, me: nat, byPeriodic: bool): State
    requires me < |s.tasks|
  {
    if Blocked(s) || s.active then Finish(s.(asyncTrigger := None), me, Completed)
    else Move(s, me, TriggerRun).(active := true, owner := Some(me), log := s.log + [RunBegins(s.now, byPeriodic)])
  }

  function Release(s: State, me: nat): State
    requires me < |s.tasks|
  {
    Finish(s, me, Completed).(active := false, asyncTrigger := None)
  }

  /** Lines 200 to 203: the run is recorded. */
  function Ended(s: State): State {
    Written(s.(lastTrigger := Some(s.now), nextTrigger := s.now + INTERVAL, log := s.log + [RunEnds(s.now)]))
  }

  function CancelHandle(s: State): State {
    if s.periodicTask.Some? then Cancel(s, s.periodicTask.value) else s
  }

  /** Lines 210 to 214: wait for the replaced task. */
  function AwaitReplaced(s: State, me: nat, replaced: Option<nat>): State
    requires me < |s.tasks|
  {
    if replaced.None? then Release(s, me)
    else
      match Result(s, replaced.value)
      case None => Move(s, me, TriggerReplace(replaced.value))
      case Some(Failed) => Finish(s, me, Failed)
      case Some(_) => Release(s, me)
  }

  /** Lines 204 to 208: within one segment the old handle is replaced and cancelled. */
  function Handover(s: State): State {
    var e := Ended(CancelHandle(s));
    if s.serving then InstallPeriodic(e) else e
  }

  /** Cancelling the old handle commutes with recording the run and with installing the new handle. */
  lemma CancelCommutes(s: State, p: nat)
    requires p < |s.tasks|
    ensures Cancel(Ended(s), p) == Ended(Cancel(s, p))
    ensures Cancel(InstallPeriodic(s), p) == InstallPeriodic(Cancel(s, p))
  {
    assert Cancel(InstallPeriodic(s), p).tasks == InstallPeriodic(Cancel(s, p)).tasks;
  }

  /** Lines 204 to 208 in their order: the new handle is installed before the old one is cancelled. */
  lemma HandoverInOrder(s: State)
    requires s.periodicTask.Some? ==> s.periodicTask.value < |s.tasks|
    ensures var e := if s.serving then InstallPeriodic(Ended(s)) else Ended(s);
            Handover(s) == if s.periodicTask.Some? then Cancel(e, s.periodicTask.value) else e
  {
    if s.periodicTask.Some? {
      CancelCommutes(s, s.periodicTask.value);
      CancelCommutes(Ended(s), s.periodicTask.value);
    }
    hide Cancel, InstallPeriodic;
  }

  /** Lines 200 to 214. */
  function RunDone(s: State, me: nat, writes: bool): State
    requires me < |s.tasks|
  {
    if !writes then Finish(s.(lastTrigger := Some(s.now)), me, Failed)
    else AwaitReplaced(Handover(s), me, s.periodicTask)
  }

  function WaitResult(s: State, how: Outcome, checked: bool): Outcome {
    if checked && how.Completed? && s.active then Failed else how
  }

  function JoinTrigger(s: State, me: nat, on: nat, checked: bool): State
    requires me < |s.tasks|
  {
    match Result(s, on)
    case None => Move(s, me, TriggerWait(on, checked))
    case Some(how) => Finish(s, me, WaitResult(s, how, checked))
  }

  /** `self._async_trigger = asyncio.create_task(coro)` */
  function QueueTrigger(s: State): State {
    Spawn(s, TriggerQueued).(asyncTrigger := Some(|s.tasks|))
  }

  function TriggerCall(s: State, me: nat, wait: bool, byPeriodic: bool): State
    requires me < |s.tasks|
  {
    if Blocked(s) then Finish(s, me, Completed)
    else if s.active then
      var stored := if s.asyncTrigger.Some? then s.asyncTrigger else s.periodicTask;
      if !wait || stored.None? then Finish(s, me, Completed)
      else JoinTrigger(s, me, stored.value, true)
    else if s.asyncTrigger.Some? then
      if wait then JoinTrigger(s, me, s.asyncTrigger.value, false) else Finish(s, me, Completed)
    else if wait then TriggerBody(s, me, byPeriodic)
    else Finish(QueueTrigger(s), me, Completed)
  }

  // ---------------------------------------------------------------- _trigger_periodic

  function Poll(s: State, me: nat): State
    requires me < |s.tasks|
  {
    if !s.serving then Finish(s, me, Completed) else TriggerCall(s, me, true, true)
  }

  predicate ListIsDue(s: State) {
    s.listed + APPLIST_UPDATE_INTERVAL <= s.now
  }

  /** Lines 72 to 87. */
  function Woken(s: State, me: nat): State
    requires me < |s.tasks|
  {
    if ListIsDue(s) then Move(s, me, PeriodicAppList) else Poll(s, me)
  }

  /** Lines 82 to 87. */
  function Listed(s: State, me: nat, writes: bool): State
    requires me < |s.tasks|
  {
    var s' := s.(listed := s.now);
    if writes then Poll(Written(s'), me) else Finish(s', me, Failed)
  }

  function PeriodicBody(s: State, me: nat): State
    requires me < |s.tasks|
  {
    if s.nextTrigger > s.now then Move(s, me, PeriodicSleep(s.nextTrigger)) else Woken(s, me)
  }

  // ---------------------------------------------------------------- enable, inhibit, suspend, shutdown

  function FlagOf(s: State, flag: Flag): bool {
    if flag.EnableFlag? then s.enabled else s.inhibited
  }

  function StoreFlag(s: State, me: nat, flag: Flag, value: bool, writes: bool): State
    requires me < |s.tasks|
  {
    var s' := if flag.EnableFlag? then s.(enabled := value) else s.(inhibited := value);
    if writes then UpdateSchedule(Written(s'), me) else Finish(s', me, Failed)
  }

  function FlagCall(s: State, me: nat, flag: Flag, value: bool, writes: bool): State
    requires me < |s.tasks|
  {
    if FlagOf(s, flag) == value then Finish(s, me, Completed)
    else if value == flag.InhibitFlag? && s.asyncTrigger.Some? then
      match Result(s, s.asyncTrigger.value)
      case None => Move(s, me, FlagWait(s.asyncTrigger.value, flag, value))
      case Some(Completed) => StoreFlag(s, me, flag, value, writes)
      case Some(how) => Finish(s, me, how)
    else StoreFlag(s, me, flag, value, writes)
  }

  function SuspendCall(s: State, me: nat, value: string): State
    requires me < |s.tasks|
  {
    if value == s.suspend then Finish(s, me, Completed)
    else
      var s' := s.(suspend := value);
      if value != "inactive" || s.active then Finish(s', me, Completed)
      else Move(s', me, LeaveDelay(s.now + WAKEUP_DELAY))
  }

  function ShutdownCall(s: State, me: nat): State
    requires me < |s.tasks|
  {
    var s' := s.(serving := false);
    match s.asyncTrigger
    case None => CancelPeriodic(s', me, false)
    case Some(a) =>
      match Result(s', a)
      case None => Move(s', me, ShutdownWait(a))
      case Some(Completed) => CancelPeriodic(s'.(asyncTrigger := None), me, false)
      case Some(how) => Finish(s', me, how)
  }

  // ---------------------------------------------------------------- the transition function

  function Called(s: State, me: nat, op: Op, writes: bool): State
    requires me < |s.tasks|
  {
    match op
    case Trigger(wait) => TriggerCall(s, me, wait, false)
    case SetFlag(flag, value) => FlagCall(s, me, flag, value, writes)
    case SuspendChanged(value) => SuspendCall(s, me, value)
    case Shutdown => ShutdownCall(s, me)
  }

  /** A normal resumption needs the awaited thing to be over; any await may be cancelled or fail. */
  predicate CanResume(s: State, t: nat, how: Outcome) {
    t < |s.tasks| && !s.tasks[t].at.Done? && !s.tasks[t].at.Executing?
    && (how.Completed? ==>
          !s.tasks[t].doomed &&
          match s.tasks[t].at
          case PeriodicSleep(wake) => s.now >= wake
          case LeaveDelay(wake) => s.now >= wake
          case TriggerReplace(on) => Result(s, on) == Some(Completed)
          case TriggerWait(on, _) => Result(s, on) == Some(Completed)
          case CancelWait(on, _) => Result(s, on) == Some(Completed)
          case FlagWait(on, _, _) => Result(s, on) == Some(Completed)
          case ShutdownWait(on) => Result(s, on) == Some(Completed)
          case _ => true)
  }

  /** The code run by `me` after its await at `at` ended normally. */
  function Continued(s: State, me: nat, at: Point, writes: bool): State
    requires me < |s.tasks|
  {
    match at
    case PeriodicStart => PeriodicBody(s, me)
    case PeriodicSleep(_) => Woken(s, me)
    case PeriodicAppList => Listed(s, me, writes)
    case TriggerQueued => TriggerBody(s, me, false)
    case TriggerRun => RunDone(s, me, writes)
    case TriggerReplace(_) => Release(s, me)
    case TriggerWait(_, checked) => Finish(s, me, WaitResult(s, Completed, checked))
    case CancelWait(_, reschedule) => AfterCancel(s.(periodicTask := None), me, reschedule)
    case LeaveDelay(_) => CancelPeriodic(s, me, true)
    case FlagWait(_, flag, value) => StoreFlag(s, me, flag, value, writes)
    case ShutdownWait(_) => CancelPeriodic(s.(asyncTrigger := None), me, false)
    case _ => s
  }

  /** Lines 95 and 211 swallow a CancelledError; everywhere else an exception ends the task. */
  function Resumed(s: State, me: nat, at: Point, how: Outcome, writes: bool): State
    requires me < |s.tasks|
  {
    if how.Completed? || (how.Cancelled? && (at.TriggerReplace? || at.CancelWait?))
    then Continued(s, me, at, writes)
    else Finish(s, me, how)
  }

  /**
   * A new process: what was in memory is lost, and `start` runs first (lines 55 to 63 and 130 to 145).
   * Its own later awaits touch none of this state; the D-Bus methods are exported only afterwards.
   */
  function Booted(now: Time, enabled: bool, inhibited: bool, saved: Option<Time>, listed: Time,
                  log: seq<Mark>): State {
    var soon := now + STARTUP;
    var next := if saved.Some? && saved.value + INTERVAL > soon then saved.value + INTERVAL else soon;
    var s := State(now, true, "inactive", false, None, None, next, enabled, inhibited, saved, saved, listed, listed,
                   [], None, log);
    if Blocked(s) then s else InstallPeriodic(s)
  }

  function Next(s: State, e: Event): Option<State> {
    match e
    case Tick(elapsed) => if elapsed >= 0.0 then Some(s.(now := s.now + elapsed)) else None
    case Restart(enabled, inhibited) => Some(Booted(s.now, enabled, inhibited, s.saved, s.savedListed, s.log))
    case Call(op, writes) => Some(Called(Spawn(s, Executing), |s.tasks|, op, writes))
    case Resume(t, how, writes) =>
      if CanResume(s, t, how)
      then Some(Resumed(Move(s, t, Executing), t, s.tasks[t].at, how, writes)) else None
    case Save => Some(Written(s))
  }

  predicate Initial(s: State) {
    s == Booted(s.now, s.enabled, s.inhibited, s.saved, s.listed, [])
  }

  /** `run` is the list of states visited by executing `events` from an initial state. */
  ghost predicate IsRun(run: seq<State>, events: seq<Event>) {
    |run| == |events| + 1 && Initial(run[0])
    && forall i | 0 <= i < |events| :: Next(run[i], events[i]) == Some(run[i + 1])
  }

  /** The state after some more events, if each of them can happen. */
  function After(s: State, events: seq<Event>): Option<State>
    decreases |events|
  {
    if events == [] then Some(s)
    else
      var next := Next(s, events[0]);
      if next.None? then None else After(next.value, events[1..])
  }
}
