/** The theorems about whole runs of the daemon. */
module DaemonRuns {
  import opened Prelude
  import opened DaemonSchedule
  import opened DaemonSafety

  /** `shutdown` goes on (line 169) while `_async_trigger` names a newer, queued trigger and the flag is free. */
  predicate LosesTrigger(s: State, e: Event) {
    e.Resume? && e.how.Completed? && e.task < |s.tasks| && s.tasks[e.task].at.ShutdownWait? && !s.active
    && s.asyncTrigger.Some? && s.asyncTrigger.value < |s.tasks| && s.tasks[s.asyncTrigger.value].at.TriggerQueued?
  }

  /** A run of a serving daemon completes and gives the flag back (line 199), while a stray is about. */
  ghost predicate Crowds(s: State, e: Event) {
    e.Resume? && e.how.Completed? && e.writes && e.task < |s.tasks| && s.tasks[e.task].at.TriggerRun?
    && s.serving && !(s.periodicTask.Some? && Result(s, s.periodicTask.value) == Some(Failed))
    && exists t :: Stray(s, t)
  }

  /** Whether the hypotheses of `m` allow the event `e` in state `s`. */
  ghost predicate Admits(m: Mode, s: State, e: Event) {
    (m.named ==> !LosesTrigger(s, e)) && (m.calm ==> !Crowds(s, e))
  }

  // ---------------------------------------------------------------- one event

  /** What the invariants say about a task at the moment it is resumed. */
  lemma ResumedFacts(m: Mode, s: State, t: nat)
    requires Safe(m, s) && t < |s.tasks| && !s.tasks[t].at.Done?
    ensures var p, s0 := s.tasks[t].at, Move(s, t, Executing);
            && (Critical(p) ==> s.active && s.owner == Some(t) && Alone(m, s0))
            && (p.TriggerQueued? && m.named ==> NoQueued(s0.tasks))
            && (Watched(m, s0) ==> Watched(m, s) && Spaced(s.log, s.nextTrigger))
            && (Watched(m, s0) && Armed(s.tasks[t]) ==> Delayed(p, s.log, s.now))
  {
    hide Clocked, Spaced, Delayed;
  }

  lemma CalledSafe(m: Mode, s: State, me: nat, op: Op, writes: bool)
    requires Safe(m, s) && Running(s, me)
    ensures Safe(m, Called(s, me, op, writes))
  {
    hide Safe, TriggerCall, FlagCall, SuspendCall, ShutdownCall;
    match op
    case Trigger(wait) => TriggerCallSafe(m, s, me, wait, false);
    case SetFlag(flag, value) => FlagCallSafe(m, s, me, flag, value, writes);
    case SuspendChanged(value) => SuspendCallSafe(m, s, me, value);
    case Shutdown => ShutdownCallSafe(m, s, me);
  }

  lemma ContinuedSafe(m: Mode, s: State, me: nat, at: Point, writes: bool)
    requires Safe(m, s) && Running(s, me)
    requires Critical(at) ==> s.active && s.owner == Some(me) && Alone(m, s)
    requires at.TriggerQueued? && m.named ==> NoQueued(s.tasks)
    requires Watched(m, s) && Armable(at) ==>
               Spaced(s.log, s.nextTrigger) && (!at.PeriodicStart? ==> Spaced(s.log, s.now))
    requires m.named && at.ShutdownWait? && s.asyncTrigger.Some? && !s.active ==>
               !(s.asyncTrigger.value < |s.tasks| && s.tasks[s.asyncTrigger.value].at.TriggerQueued?)
    requires at.TriggerRun? && writes && Watched(m, s)
             && !(s.periodicTask.Some? && Result(s, s.periodicTask.value) == Some(Failed))
             ==> forall t :: !Stray(s, t)
    ensures Safe(m, Continued(s, me, at, writes))
  {
    hide Safe, PeriodicBody, Woken, Listed, TriggerBody, RunDone, Release, CancelPeriodic, StoreFlag, AfterCancel,
         Stray, Alone, Watched, NoQueued;
    match at
    case PeriodicStart => PeriodicBodySafe(m, s, me);
    case PeriodicSleep(_) => WokenSafe(m, s, me);
    case PeriodicAppList => ListedSafe(m, s, me, writes);
    case TriggerQueued => TriggerBodySafe(m, s, me, false);
    case TriggerRun => RunDoneSafe(m, s, me, writes);
    case TriggerReplace(_) => ReleaseSafe(m, s, me);
    case TriggerWait(_, checked) => MoveSafe(m, s, me, Done(WaitResult(s, Completed, checked)));
    case CancelWait(_, reschedule) =>
      ClearSafe(m, s);
      AfterCancelSafe(m, s.(periodicTask := None), me, reschedule);
    case LeaveDelay(_) => CancelPeriodicSafe(m, s, me, true);
    case FlagWait(_, flag, value) => StoreFlagSafe(m, s, me, flag, value, writes);
    case ShutdownWait(_) =>
      ClearAsyncSafe(m, s);
      CancelPeriodicSafe(m, s.(asyncTrigger := None), me, false);
    case _ =>
  }

  lemma NoNewStray(s: State, me: nat)
    requires me < |s.tasks| && forall t :: !Stray(s, t)
    ensures forall t :: !Stray(Move(s, me, Executing), t)
  {
    forall t ensures !Stray(Move(s, me, Executing), t) { assert !Stray(s, t); }
  }

  /** A task that is woken in time may begin its run at once. */
  lemma WokenInTime(s: State, t: nat)
    requires CanResume(s, t, Completed) && Delayed(s.tasks[t].at, s.log, s.now)
    requires s.tasks[t].at.PeriodicSleep? || s.tasks[t].at.PeriodicAppList?
    ensures Spaced(s.log, s.now)
  {
  }

  lemma ResumeNormally(m: Mode, s: State, e: Event)
    requires Safe(m, s) && e.Resume? && CanResume(s, e.task, e.how) && Admits(m, s, e)
    requires var at := s.tasks[e.task].at;
             e.how.Completed? || (e.how.Cancelled? && (at.TriggerReplace? || at.CancelWait?))
    ensures Safe(m, Next(s, e).value)
  {
    var t, at := e.task, s.tasks[e.task].at;
    var s0 := Move(s, t, Executing);
    ResumedFacts(m, s, t);
    MoveSafe(m, s, t, Executing);
    assert at.TriggerRun? ==> !Armed(s.tasks[t]);
    if at.TriggerRun? && e.writes && Watched(m, s0)
       && !(s0.periodicTask.Some? && Result(s0, s0.periodicTask.value) == Some(Failed)) {
      assert Result(s, s.periodicTask.GetOr(0)) == Result(s0, s.periodicTask.GetOr(0));
      assert forall u :: !Stray(s, u);
      NoNewStray(s, t);
    }
    if Watched(m, s0) && (at.PeriodicSleep? || at.PeriodicAppList?) { WokenInTime(s, t); }
    hide Safe, Alone, NoQueued, Continued, Stray, Spaced, Watched, Delayed;
    ContinuedSafe(m, s0, t, at, e.writes);
  }

  lemma ResumeSafe(m: Mode, s: State, e: Event)
    requires Safe(m, s) && e.Resume? && CanResume(s, e.task, e.how) && Admits(m, s, e)
    ensures Safe(m, Next(s, e).value)
  {
    hide Safe, Continued, Admits;
    var t, at := e.task, s.tasks[e.task].at;
    if e.how.Completed? || (e.how.Cancelled? && (at.TriggerReplace? || at.CancelWait?)) {
      ResumeNormally(m, s, e);
    } else {
      MoveSafe(m, s, t, Executing);
      MoveSafe(m, Move(s, t, Executing), t, Done(e.how));
    }
  }

  lemma TickSafe(m: Mode, s: State, elapsed: Time)
    requires Safe(m, s) && elapsed >= 0.0
    ensures Safe(m, s.(now := s.now + elapsed))
  {
    hide Exclusive, Coalesced, Stuck;
  }

  lemma RestartSafe(m: Mode, s: State, enabled: bool, inhibited: bool)
    requires Safe(m, s)
    ensures Safe(m, Booted(s.now, enabled, inhibited, s.saved, s.savedListed, s.log))
  {
  }

  lemma StepSafe(m: Mode, s: State, e: Event)
    requires Safe(m, s) && Next(s, e).Some? && Admits(m, s, e)
    ensures Safe(m, Next(s, e).value)
  {
    hide Safe, Called, Admits, Booted;
    match e
    case Tick(elapsed) => TickSafe(m, s, elapsed);
    case Save => WrittenSafe(m, s);
    case Restart(enabled, inhibited) => RestartSafe(m, s, enabled, inhibited);
    case Call(op, writes) =>
      SpawnSafe(m, s);
      CalledSafe(m, Spawn(s, Executing), |s.tasks|, op, writes);
    case Resume(_, _, _) => ResumeSafe(m, s, e);
  }

  lemma SpawnSafe(m: Mode, s: State)
    requires Safe(m, s)
    ensures Safe(m, Spawn(s, Executing))
  {
    hide Clocked, Spaced;
  }

  // ---------------------------------------------------------------- whole runs

  ghost predicate Admitted(m: Mode, run: seq<State>, events: seq<Event>) {
    IsRun(run, events) && forall i | 0 <= i < |events| :: Admits(m, run[i], events[i])
  }

  lemma {:induction false} RunSafe(m: Mode, run: seq<State>, events: seq<Event>, i: nat)
    requires Admitted(m, run, events) && i < |run|
    ensures Safe(m, run[i])
  {
    if i > 0 {
      RunSafe(m, run, events, i - 1);
      hide Safe;
      assert Next(run[i - 1], events[i - 1]) == Some(run[i]);
      StepSafe(m, run[i - 1], events[i - 1]);
    }
  }

  /**
   * In every interleaving, with cancellation or an exception at any await, at most one `_trigger` body is
   * between taking and releasing the flag, and the flag is set throughout.
   */
  lemma AtMostOneRun(run: seq<State>, events: seq<Event>, i: nat, t: nat, u: nat)
    requires IsRun(run, events) && i < |run| && t < |run[i].tasks| && u < |run[i].tasks|
    requires Critical(run[i].tasks[t].at)
    ensures run[i].active
    ensures Critical(run[i].tasks[u].at) ==> t == u
  {
    RunSafe(Mode(false, false), run, events, i);
  }

  /** A `_trigger` coroutine that is queued or running. */
  predicate Live(p: Point) {
    p.TriggerQueued? || Critical(p)
  }

  /** Unless `shutdown` forgets a queued one, queued and running `_trigger` coroutines never exceed one. */
  lemma OneCoroutine(run: seq<State>, events: seq<Event>, i: nat, t: nat, u: nat)
    requires Admitted(Mode(true, false), run, events)
    requires i < |run| && t < |run[i].tasks| && u < |run[i].tasks|
    requires Live(run[i].tasks[t].at) && Live(run[i].tasks[u].at)
    ensures t == u
  {
    RunSafe(Mode(true, false), run, events, i);
  }

  /** Under the same condition a trigger call made while one is queued or running starts no other and ends none. */
  lemma CallsCoalesce(run: seq<State>, events: seq<Event>, i: nat, t: nat, wait: bool, writes: bool)
    requires Admitted(Mode(true, false), run, events) && i < |run|
    requires t < |run[i].tasks| && Live(run[i].tasks[t].at)
    ensures var s' := Next(run[i], Call(Trigger(wait), writes)).value;
            forall u | 0 <= u < |s'.tasks| :: Live(s'.tasks[u].at) <==> u == t
  {
    RunSafe(Mode(true, false), run, events, i);
    forall u | 0 <= u < |run[i].tasks| && Live(run[i].tasks[u].at) ensures u == t {
      OneCoroutine(run, events, i, t, u);
    }
  }

  /**
   * With a monotone clock, every run begun by the periodic task begins at least INTERVAL after every run
   * that was completed before it, restarts included, unless a run completes beside a stray.
   */
  lemma PeriodicRunsAreSpaced(run: seq<State>, events: seq<Event>, i: nat)
    requires Admitted(Mode(false, true), run, events) && i < |run|
    ensures WellSpaced(run[i].log)
  {
    RunSafe(Mode(false, true), run, events, i);
  }
}
