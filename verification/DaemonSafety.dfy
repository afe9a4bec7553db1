/**
 * What every interleaving of the trigger protocol keeps: one run at a time, coalescing of trigger calls,
 * and the distance between a completed run and the next periodic one.
 */
module DaemonSafety {
  import opened Prelude
  import opened DaemonSchedule

  /**
   * The hypotheses of the theorems.  `named`: no event clears `_async_trigger` while it names a queued
   * trigger and the flag is free.  `calm`: no run completes beside a stray periodic task.
   */
  datatype Mode = Mode(named: bool, calm: bool)

  /** Between taking the flag (line 198) and releasing it (line 213). */
  predicate Critical(p: Point) {
    p.TriggerRun? || p.TriggerReplace?
  }

  /** A periodic task that may still begin a run of its own. */
  predicate Armed(t: Task) {
    Armable(t.at) && !t.doomed
  }

  predicate NoCritical(ts: seq<Task>) {
    forall t | 0 <= t < |ts| :: !Critical(ts[t].at)
  }

  predicate NoQueued(ts: seq<Task>) {
    forall t | 0 <= t < |ts| :: !ts[t].at.TriggerQueued?
  }

  /**
   * A periodic task that is not the handle, so that a completed run does not cancel it, and that will not
   * look at the next trigger time again before it wakes up too early.
   */
  predicate Stray(s: State, t: nat) {
    t < |s.tasks| && Armed(s.tasks[t]) && s.periodicTask != Some(t)
    && (s.tasks[t].at.PeriodicAppList?
        || (s.tasks[t].at.PeriodicSleep? && s.tasks[t].at.wake < s.now + INTERVAL))
  }

  /** The task that took the flag ended without giving it back: nobody will, so no run begins any more. */
  predicate Stuck(ts: seq<Task>, active: bool, owner: Option<nat>) {
    active && owner.Some? && owner.value < |ts| && ts[owner.value].at.Done?
  }

  // ---------------------------------------------------------------- the invariants

  ghost predicate Exclusive(ts: seq<Task>, active: bool, owner: Option<nat>) {
    forall t | 0 <= t < |ts| && Critical(ts[t].at) :: active && owner == Some(t)
  }

  /** At most one `_trigger` is queued, and none is running meanwhile; it is named, or the flag is taken. */
  ghost predicate Coalesced(ts: seq<Task>, asyncTrigger: Option<nat>, active: bool) {
    && (forall t | 0 <= t < |ts| && ts[t].at.TriggerQueued? :: asyncTrigger == Some(t) || active)
    && (forall t, u | 0 <= t < u < |ts| && ts[t].at.TriggerQueued? :: !ts[u].at.TriggerQueued?)
    && (NoQueued(ts) || NoCritical(ts))
  }

  /** Every completed run in the log lies at least INTERVAL before `bound`. */
  ghost predicate Spaced(log: seq<Mark>, bound: Time) {
    forall i | 0 <= i < |log| && log[i].RunEnds? :: log[i].at + INTERVAL <= bound
  }

  ghost predicate Recorded(log: seq<Mark>, value: Option<Time>) {
    forall i | 0 <= i < |log| && log[i].RunEnds? :: value.Some? && log[i].at <= value.value
  }

  /** Every run begun by the periodic task is at least INTERVAL after every run completed before it. */
  ghost predicate WellSpaced(log: seq<Mark>) {
    forall i, j | 0 <= i < j < |log| && log[i].RunEnds? && log[j].RunBegins? && log[j].byPeriodic ::
      log[i].at + INTERVAL <= log[j].at
  }

  ghost predicate Clocked(log: seq<Mark>, now: Time, lastTrigger: Option<Time>, saved: Option<Time>) {
    WellSpaced(log) && Recorded(log, Some(now)) && Recorded(log, lastTrigger) && Recorded(log, saved)
  }

  ghost predicate Delayed(p: Point, log: seq<Mark>, now: Time) {
    match p
    case PeriodicSleep(wake) => Spaced(log, wake)
    case PeriodicAppList => Spaced(log, now)
    case _ => true
  }

  ghost predicate Timely(ts: seq<Task>, log: seq<Mark>, now: Time) {
    forall t | 0 <= t < |ts| && Armed(ts[t]) :: Delayed(ts[t].at, log, now)
  }

  /** As long as a periodic run may still begin, the tasks that may begin it are late enough. */
  ghost predicate OnTime(s: State) {
    && Clocked(s.log, s.now, s.lastTrigger, s.saved)
    && (s.serving && !Stuck(s.tasks, s.active, s.owner) ==>
          Timely(s.tasks, s.log, s.now) && Spaced(s.log, s.nextTrigger))
  }

  ghost predicate Safe(m: Mode, s: State) {
    && Exclusive(s.tasks, s.active, s.owner)
    && (m.named ==> Coalesced(s.tasks, s.asyncTrigger, s.active))
    && (m.calm ==> OnTime(s))
  }

  /** A periodic run may still begin, and must not begin too early. */
  predicate Watched(m: Mode, s: State) {
    m.calm && s.serving && !Stuck(s.tasks, s.active, s.owner)
  }

  // ---------------------------------------------------------------- elementary changes

  predicate Running(s: State, me: nat) {
    me < |s.tasks| && s.tasks[me].at.Executing?
  }

  predicate Plain(p: Point) {
    !Critical(p) && !Armable(p) && !p.TriggerQueued?
  }

  lemma MoveOnTime(s: State, me: nat, p: Point)
    requires OnTime(s) && me < |s.tasks| && !s.tasks[me].at.Done?
    requires Armable(p) && s.serving && !Stuck(s.tasks, s.active, s.owner) ==> Delayed(p, s.log, s.now)
    ensures OnTime(Move(s, me, p))
  {
    hide Clocked, Spaced;
  }

  lemma MoveFlags(s: State, me: nat, p: Point)
    requires me < |s.tasks| && Plain(p)
    ensures Exclusive(s.tasks, s.active, s.owner) ==> Exclusive(Move(s, me, p).tasks, s.active, s.owner)
    ensures Coalesced(s.tasks, s.asyncTrigger, s.active)
            ==> Coalesced(Move(s, me, p).tasks, s.asyncTrigger, s.active)
  {
  }

  lemma ArmFlags(s: State, me: nat, p: Point)
    requires me < |s.tasks| && Armable(p)
    ensures Exclusive(s.tasks, s.active, s.owner) ==> Exclusive(Move(s, me, p).tasks, s.active, s.owner)
    ensures Coalesced(s.tasks, s.asyncTrigger, s.active)
            ==> Coalesced(Move(s, me, p).tasks, s.asyncTrigger, s.active)
  {
  }

  lemma MoveSafe(m: Mode, s: State, me: nat, p: Point)
    requires Safe(m, s) && me < |s.tasks| && !s.tasks[me].at.Done? && (Plain(p) || Armable(p))
    requires Armable(p) && Watched(m, s) ==> Delayed(p, s.log, s.now)
    ensures Safe(m, Move(s, me, p))
  {
    if Armable(p) { ArmFlags(s, me, p); } else { MoveFlags(s, me, p); }
    if m.calm { MoveOnTime(s, me, p); }
    hide Exclusive, Coalesced, OnTime;
  }

  lemma CancelSafe(m: Mode, s: State, t: nat)
    requires Safe(m, s)
    ensures Safe(m, Cancel(s, t))
  {
    hide Clocked, Spaced;
  }

  lemma InstallFlags(s: State)
    ensures Exclusive(s.tasks, s.active, s.owner) ==> Exclusive(InstallPeriodic(s).tasks, s.active, s.owner)
    ensures Coalesced(s.tasks, s.asyncTrigger, s.active)
            ==> Coalesced(InstallPeriodic(s).tasks, s.asyncTrigger, s.active)
  {
  }

  lemma InstallSafe(m: Mode, s: State)
    requires Safe(m, s)
    ensures Safe(m, InstallPeriodic(s))
  {
    InstallFlags(s);
    hide Exclusive, Coalesced, Clocked, Spaced;
  }

  lemma WrittenSafe(m: Mode, s: State)
    requires Safe(m, s)
    ensures Safe(m, Written(s))
  {
    hide Exclusive, Coalesced, Timely, Spaced, WellSpaced, Recorded;
  }

  // ---------------------------------------------------------------- segments

  /** The flag is free to be taken, or `me` is about to give it back. */
  predicate Alone(m: Mode, s: State) {
    NoCritical(s.tasks) && (m.named ==> NoQueued(s.tasks))
  }

  lemma AfterCancelSafe(m: Mode, s: State, me: nat, reschedule: bool)
    requires Safe(m, s) && Running(s, me)
    ensures Safe(m, AfterCancel(s, me, reschedule))
  {
    if reschedule && !Blocked(s) && s.periodicTask.None? {
      InstallSafe(m, s);
      MoveSafe(m, InstallPeriodic(s), me, Done(Completed));
    } else {
      MoveSafe(m, s, me, Done(Completed));
    }
    hide Safe;
  }

  lemma CancelPeriodicSafe(m: Mode, s: State, me: nat, reschedule: bool)
    requires Safe(m, s) && Running(s, me)
    ensures Safe(m, CancelPeriodic(s, me, reschedule))
  {
    hide Exclusive, Coalesced, OnTime;
    match s.periodicTask
    case None => AfterCancelSafe(m, s, me, reschedule);
    case Some(p) =>
      CancelSafe(m, s, p);
      var s' := Cancel(s, p);
      match Result(s', p)
      case None => MoveSafe(m, s', me, CancelWait(p, reschedule));
      case Some(Failed) => MoveSafe(m, s', me, Done(Failed));
      case Some(_) =>
        ClearSafe(m, s');
        AfterCancelSafe(m, s'.(periodicTask := None), me, reschedule);
  }

  lemma ClearSafe(m: Mode, s: State)
    requires Safe(m, s)
    ensures Safe(m, s.(periodicTask := None))
  {
    hide Exclusive, Coalesced, Clocked, Timely, Stuck, Spaced;
  }

  lemma UpdateScheduleSafe(m: Mode, s: State, me: nat)
    requires Safe(m, s) && Running(s, me)
    ensures Safe(m, UpdateSchedule(s, me))
  {
    hide Safe;
    if Blocked(s) {
      CancelPeriodicSafe(m, s, me, false);
    } else if s.periodicTask.None? {
      InstallSafe(m, s);
      MoveSafe(m, InstallPeriodic(s), me, Done(Completed));
    } else {
      MoveSafe(m, s, me, Done(Completed));
    }
  }

  lemma BeginOnTime(s: State, me: nat, byPeriodic: bool)
    requires OnTime(s) && Running(s, me) && !s.active
    requires byPeriodic ==> s.serving && Spaced(s.log, s.now)
    ensures OnTime(Move(s, me, TriggerRun).(active := true, owner := Some(me),
                                            log := s.log + [RunBegins(s.now, byPeriodic)]))
  {
  }

  lemma TriggerBodySafe(m: Mode, s: State, me: nat, byPeriodic: bool)
    requires Safe(m, s) && Running(s, me) && (m.named ==> NoQueued(s.tasks))
    requires byPeriodic ==> s.serving && (Watched(m, s) ==> Spaced(s.log, s.now))
    ensures Safe(m, TriggerBody(s, me, byPeriodic))
  {
    if Blocked(s) || s.active {
      MoveSafe(m, s.(asyncTrigger := None), me, Done(Completed));
    } else if m.calm {
      BeginOnTime(s, me, byPeriodic);
    }
    hide OnTime, Spaced;
  }

  lemma ReleaseSafe(m: Mode, s: State, me: nat)
    requires Safe(m, s) && Running(s, me) && Alone(m, s) && s.owner == Some(me)
    ensures Safe(m, Release(s, me))
  {
    hide Clocked, Spaced;
  }

  lemma ReplaceSafe(m: Mode, s: State, me: nat, on: nat)
    requires Safe(m, s) && Running(s, me) && Alone(m, s) && s.active && s.owner == Some(me)
    ensures Safe(m, Move(s, me, TriggerReplace(on)))
  {
    if m.calm { MoveOnTime(s, me, TriggerReplace(on)); }
    hide OnTime;
  }

  lemma AwaitReplacedSafe(m: Mode, s: State, me: nat, replaced: Option<nat>)
    requires Safe(m, s) && Running(s, me) && Alone(m, s) && s.active && s.owner == Some(me)
    ensures Safe(m, AwaitReplaced(s, me, replaced))
  {
    hide Safe, Alone;
    ReleaseSafe(m, s, me);
    MoveSafe(m, s, me, Done(Failed));
    if replaced.Some? { ReplaceSafe(m, s, me, replaced.value); }
  }

  /** Without strays, whoever may still begin a periodic run after this one begins it late enough. */
  lemma EndedTimely(s: State)
    requires Clocked(s.log, s.now, s.lastTrigger, s.saved) && forall t :: !Stray(s, t)
    ensures Timely(CancelHandle(s).tasks, s.log + [RunEnds(s.now)], s.now)
  {
    var ts, log := CancelHandle(s).tasks, s.log + [RunEnds(s.now)];
    forall t | 0 <= t < |ts| && Armed(ts[t]) ensures Delayed(ts[t].at, log, s.now) {
      assert !Stray(s, t);
      assert ts[t].at == s.tasks[t].at && Armed(s.tasks[t]) && s.periodicTask != Some(t);
    }
  }

  lemma EndedSafe(m: Mode, s: State)
    requires Safe(m, s) && (Watched(m, s) ==> forall t :: !Stray(s, t))
    ensures Safe(m, Ended(CancelHandle(s)))
  {
    if s.periodicTask.Some? { CancelSafe(m, s, s.periodicTask.value); }
    if Watched(m, s) { EndedTimely(s); }
    hide Exclusive, Coalesced, Timely;
  }

  lemma HandoverSafe(m: Mode, s: State, me: nat)
    requires Safe(m, s) && Running(s, me) && Alone(m, s)
    requires Watched(m, s) ==> forall t :: !Stray(s, t)
    ensures Safe(m, Handover(s))
  {
    EndedSafe(m, s);
    hide Safe;
    if s.serving { InstallSafe(m, Ended(CancelHandle(s))); }
  }

  lemma HandoverFacts(m: Mode, s: State, me: nat)
    requires Running(s, me) && Alone(m, s)
    ensures var h := Handover(s);
            && Running(h, me) && Alone(m, h) && h.active == s.active && h.owner == s.owner
            && (s.periodicTask.Some? && Result(s, s.periodicTask.value).Some?
                ==> Result(h, s.periodicTask.value) == Result(s, s.periodicTask.value))
  {
    assert Ended(CancelHandle(s)).tasks == CancelHandle(s).tasks;
    hide Ended;
  }

  lemma HandoverClocked(s: State)
    requires Clocked(s.log, s.now, s.lastTrigger, s.saved)
    ensures var h := Handover(s); Clocked(h.log, h.now, h.lastTrigger, h.saved)
  {
  }

  /** When the replaced task had failed, so does this one, and keeps the flag for ever. */
  lemma FailedReplacedSafe(m: Mode, s: State, me: nat)
    requires Safe(m, s) && Running(s, me) && Alone(m, s) && s.active && s.owner == Some(me)
    requires s.periodicTask.Some? && Result(s, s.periodicTask.value) == Some(Failed)
    ensures Safe(m, AwaitReplaced(Handover(s), me, s.periodicTask))
  {
    HandoverFacts(m, s, me);
    if m.calm { HandoverClocked(s); }
    hide Handover, Clocked, Timely, Spaced;
  }

  lemma RunDoneSafe(m: Mode, s: State, me: nat, writes: bool)
    requires Safe(m, s) && Running(s, me) && Alone(m, s) && s.active && s.owner == Some(me)
    requires writes && Watched(m, s)
             && !(s.periodicTask.Some? && Result(s, s.periodicTask.value) == Some(Failed))
             ==> forall t :: !Stray(s, t)
    ensures Safe(m, RunDone(s, me, writes))
  {
    if !writes {
      assert Safe(m, s.(lastTrigger := Some(s.now))) by {
        hide Exclusive, Coalesced, Timely, Spaced, WellSpaced;
      }
      MoveSafe(m, s.(lastTrigger := Some(s.now)), me, Done(Failed));
      hide Safe, Alone;
    } else if s.periodicTask.Some? && Result(s, s.periodicTask.value) == Some(Failed) {
      FailedReplacedSafe(m, s, me);
      hide Safe, Alone;
    } else {
      hide Safe, Alone, Stray;
      HandoverSafe(m, s, me);
      HandoverFacts(m, s, me);
      hide Handover;
      AwaitReplacedSafe(m, Handover(s), me, s.periodicTask);
    }
  }

  lemma JoinTriggerSafe(m: Mode, s: State, me: nat, on: nat, checked: bool)
    requires Safe(m, s) && Running(s, me)
    ensures Safe(m, JoinTrigger(s, me, on, checked))
  {
    hide Safe;
    match Result(s, on)
    case None => MoveSafe(m, s, me, TriggerWait(on, checked));
    case Some(how) => MoveSafe(m, s, me, Done(WaitResult(s, how, checked)));
  }

  lemma QueueTriggerSafe(m: Mode, s: State)
    requires Safe(m, s) && !s.active && s.asyncTrigger.None?
    ensures Safe(m, QueueTrigger(s))
  {
    hide Clocked, Spaced;
  }

  lemma TriggerCallSafe(m: Mode, s: State, me: nat, wait: bool, byPeriodic: bool)
    requires Safe(m, s) && Running(s, me)
    requires byPeriodic ==> s.serving && (Watched(m, s) ==> Spaced(s.log, s.now))
    ensures Safe(m, TriggerCall(s, me, wait, byPeriodic))
  {
    if !Blocked(s) && !s.active && s.asyncTrigger.None? {
      assert m.named ==> NoQueued(s.tasks);
      hide Safe;
      if wait {
        TriggerBodySafe(m, s, me, byPeriodic);
      } else {
        QueueTriggerSafe(m, s);
        MoveSafe(m, QueueTrigger(s), me, Done(Completed));
      }
    } else {
      hide Safe;
      MoveSafe(m, s, me, Done(Completed));
      if s.asyncTrigger.Some? { JoinTriggerSafe(m, s, me, s.asyncTrigger.value, s.active); }
      else if s.periodicTask.Some? { JoinTriggerSafe(m, s, me, s.periodicTask.value, true); }
    }
  }

  lemma PollSafe(m: Mode, s: State, me: nat)
    requires Safe(m, s) && Running(s, me) && (Watched(m, s) ==> Spaced(s.log, s.now))
    ensures Safe(m, Poll(s, me))
  {
    hide Safe, TriggerCall;
    if s.serving { TriggerCallSafe(m, s, me, true, true); } else { MoveSafe(m, s, me, Done(Completed)); }
  }

  lemma ListedSafe(m: Mode, s: State, me: nat, writes: bool)
    requires Safe(m, s) && Running(s, me) && (Watched(m, s) ==> Spaced(s.log, s.now))
    ensures Safe(m, Listed(s, me, writes))
  {
    var s' := s.(listed := s.now);
    assert Safe(m, s') by { hide Exclusive, Coalesced, Clocked, Timely, Stuck, Spaced; }
    WrittenSafe(m, s');
    hide Safe, Poll;
    if writes { PollSafe(m, Written(s'), me); } else { MoveSafe(m, s', me, Done(Failed)); }
  }

  lemma PeriodicBodySafe(m: Mode, s: State, me: nat)
    requires Safe(m, s) && Running(s, me) && (Watched(m, s) ==> Spaced(s.log, s.nextTrigger))
    ensures Safe(m, PeriodicBody(s, me))
  {
    hide Safe, Woken;
    if s.nextTrigger > s.now { MoveSafe(m, s, me, PeriodicSleep(s.nextTrigger)); } else { WokenSafe(m, s, me); }
  }

  lemma WokenSafe(m: Mode, s: State, me: nat)
    requires Safe(m, s) && Running(s, me) && (Watched(m, s) ==> Spaced(s.log, s.now))
    ensures Safe(m, Woken(s, me))
  {
    hide Safe, Poll;
    if ListIsDue(s) { MoveSafe(m, s, me, PeriodicAppList); } else { PollSafe(m, s, me); }
  }

  lemma StoreFlagSafe(m: Mode, s: State, me: nat, flag: Flag, value: bool, writes: bool)
    requires Safe(m, s) && Running(s, me)
    ensures Safe(m, StoreFlag(s, me, flag, value, writes))
  {
    var s' := if flag.EnableFlag? then s.(enabled := value) else s.(inhibited := value);
    assert Safe(m, s') by { hide Exclusive, Coalesced, Clocked, Timely, Stuck, Spaced; }
    WrittenSafe(m, s');
    hide Safe, UpdateSchedule;
    if writes { UpdateScheduleSafe(m, Written(s'), me); } else { MoveSafe(m, s', me, Done(Failed)); }
  }

  lemma FlagCallSafe(m: Mode, s: State, me: nat, flag: Flag, value: bool, writes: bool)
    requires Safe(m, s) && Running(s, me)
    ensures Safe(m, FlagCall(s, me, flag, value, writes))
  {
    hide Safe, StoreFlag;
    if FlagOf(s, flag) == value {
      MoveSafe(m, s, me, Done(Completed));
    } else if value == flag.InhibitFlag? && s.asyncTrigger.Some? {
      match Result(s, s.asyncTrigger.value)
      case None => MoveSafe(m, s, me, FlagWait(s.asyncTrigger.value, flag, value));
      case Some(Completed) => StoreFlagSafe(m, s, me, flag, value, writes);
      case Some(how) => MoveSafe(m, s, me, Done(how));
    } else {
      StoreFlagSafe(m, s, me, flag, value, writes);
    }
  }

  lemma SuspendCallSafe(m: Mode, s: State, me: nat, value: string)
    requires Safe(m, s) && Running(s, me)
    ensures Safe(m, SuspendCall(s, me, value))
  {
    hide Exclusive, Coalesced, Clocked, Timely, Stuck, Spaced;
    var s' := s.(suspend := value);
    MoveSafe(m, s, me, Done(Completed));
    MoveSafe(m, s', me, Done(Completed));
    MoveSafe(m, s', me, LeaveDelay(s.now + WAKEUP_DELAY));
  }

  /** Clearing `_async_trigger` is harmless unless it names a queued trigger while the flag is free. */
  lemma ClearAsyncSafe(m: Mode, s: State)
    requires Safe(m, s)
    requires m.named && s.asyncTrigger.Some? && !s.active ==>
               !(s.asyncTrigger.value < |s.tasks| && s.tasks[s.asyncTrigger.value].at.TriggerQueued?)
    ensures Safe(m, s.(asyncTrigger := None))
  {
    hide Exclusive, Clocked, Timely, Stuck, Spaced;
  }

  lemma ShutdownCallSafe(m: Mode, s: State, me: nat)
    requires Safe(m, s) && Running(s, me)
    ensures Safe(m, ShutdownCall(s, me))
  {
    var s' := s.(serving := false);
    assert Safe(m, s') by { hide Exclusive, Coalesced, Clocked, Timely, Stuck, Spaced; }
    hide Safe, CancelPeriodic;
    match s.asyncTrigger
    case None => CancelPeriodicSafe(m, s', me, false);
    case Some(a) =>
      match Result(s', a)
      case None => MoveSafe(m, s', me, ShutdownWait(a));
      case Some(Completed) =>
        ClearAsyncSafe(m, s');
        CancelPeriodicSafe(m, s'.(asyncTrigger := None), me, false);
      case Some(how) => MoveSafe(m, s', me, Done(how));
  }
}
