/**
 * What each event of the daemon brings about, told by the fields it leaves.  DaemonSafety says what may
 * never happen; here is what does: the tasks that are created, cancelled, suspended and run.
 */
module DaemonEffects {
  import opened Prelude
  import opened DaemonSchedule

  predicate Allowed(s: State) {
    s.enabled && !s.inhibited
  }

  predicate At(s: State, t: nat, p: Point) {
    t < |s.tasks| && s.tasks[t].at == p
  }

  /** A periodic task that has just been created. */
  predicate Fresh(s: State, s': State) {
    s'.periodicTask.Some? && |s.tasks| <= s'.periodicTask.value < |s'.tasks|
    && s'.tasks[s'.periodicTask.value] == Task(PeriodicStart, false)
  }

  /** A task other than `me` is as it was. */
  predicate Same(s: State, s': State, me: nat) {
    |s.tasks| <= |s'.tasks| && forall t | 0 <= t < |s.tasks| && t != me :: s'.tasks[t] == s.tasks[t]
  }

  /** The periodic task is told to stop; `me` goes on once it has. */
  predicate Stops(s: State, s': State, p: nat) {
    p < |s.tasks| <= |s'.tasks| && s'.tasks[p].at == s.tasks[p].at
    && (s.tasks[p].at.PeriodicStart? || s.tasks[p].at.PeriodicSleep? || s.tasks[p].at.PeriodicAppList?
        ==> s'.tasks[p].doomed)
  }

  /** `_cancel_periodic` by `me`: it waits for an unfinished task, fails with a failed one, and clears others. */
  predicate Cancels(s: State, s': State, me: nat, reschedule: bool) {
    match s.periodicTask
    case None => Cleared(s, s', me, reschedule)
    case Some(p) =>
      p < |s.tasks| && p != me ==>
        match s.tasks[p].at
        case Done(Failed) => At(s', me, Done(Failed)) && s'.periodicTask == Some(p)
        case Done(_) => Cleared(s, s', me, reschedule)
        case _ => Stops(s, s', p) && At(s', me, CancelWait(p, reschedule)) && s'.periodicTask == Some(p)
  }

  /** There is no handle then, or a fresh one where a reschedule was wanted and triggers are allowed. */
  predicate Cleared(s: State, s': State, me: nat, reschedule: bool) {
    At(s', me, Done(Completed)) && if reschedule && Allowed(s') then Fresh(s, s') else s'.periodicTask.None?
  }

  /** `_update_schedule` by `me`, after the flags were set. */
  predicate Schedules(s: State, s': State, me: nat) {
    if Allowed(s') then
      At(s', me, Done(Completed))
      && if s.periodicTask.Some? then s'.periodicTask == s.periodicTask else Fresh(s, s')
    else Cancels(s, s', me, false)
  }

  // ---------------------------------------------------------------- starting

  /** After booting, the first trigger is not too early, and a periodic task waits for it if that is allowed. */
  lemma Boots(now: Time, enabled: bool, inhibited: bool, saved: Option<Time>, listed: Time, log: seq<Mark>)
    ensures var s := Booted(now, enabled, inhibited, saved, listed, log);
            && s.serving && !s.active && s.asyncTrigger.None? && s.suspend == "inactive" && s.log == log
            && s.nextTrigger >= now + 20.0
            && (saved.Some? ==> s.nextTrigger >= saved.value + 3600.0)
            && (s.nextTrigger == now + 20.0 || (saved.Some? && s.nextTrigger == saved.value + 3600.0))
            && if enabled && !inhibited then s.periodicTask == Some(0) && s.tasks == [Task(PeriodicStart, false)]
               else s.periodicTask.None? && s.tasks == []
  {
  }

  // ---------------------------------------------------------------- the flags

  predicate FlagsAre(s: State, s': State, flag: Flag, value: bool) {
    if flag.EnableFlag? then s'.enabled == value && s'.inhibited == s.inhibited
    else s'.inhibited == value && s'.enabled == s.enabled
  }

  /** Whether setting the flag to the value forbids triggers. */
  predicate Forbids(flag: Flag, value: bool) {
    if flag.EnableFlag? then !value else value
  }

  lemma CancelIs(s: State, p: nat)
    ensures var c := Cancel(s, p);
            && c == s.(tasks := c.tasks) && |c.tasks| == |s.tasks| && Same(s, c, p)
            && (p < |s.tasks| ==> Stops(s, c, p)) && Result(c, p) == Result(s, p)
  {
  }

  lemma AfterCancelIs(s: State, me: nat, reschedule: bool)
    requires me < |s.tasks| && s.periodicTask.None?
    ensures var s' := AfterCancel(s, me, reschedule);
            && Cleared(s, s', me, reschedule) && Frame(s, s')
  {
  }

  /** The schedule touches neither the flags nor what else triggers depend on. */
  predicate Frame(s: State, s': State) {
    s'.enabled == s.enabled && s'.inhibited == s.inhibited && s'.saved == s.saved && s'.serving == s.serving
    && s'.asyncTrigger == s.asyncTrigger && s'.active == s.active && s'.log == s.log && |s.tasks| <= |s'.tasks|
  }

  lemma CancelsPeriodic(s: State, me: nat, reschedule: bool)
    requires me < |s.tasks|
    ensures Cancels(s, CancelPeriodic(s, me, reschedule), me, reschedule)
    ensures Frame(s, CancelPeriodic(s, me, reschedule))
  {
    match s.periodicTask
    case None => AfterCancelIs(s, me, reschedule); hide AfterCancel;
    case Some(p) =>
      CancelIs(s, p);
      var c := Cancel(s, p);
      AfterCancelIs(c.(periodicTask := None), me, reschedule);
      hide AfterCancel, Cancel, Cleared;
      CancelOutcome(s, c, p, me, reschedule);
  }

  lemma CancelOutcome(s: State, c: State, p: nat, me: nat, reschedule: bool)
    requires me < |s.tasks| == |c.tasks| && s.periodicTask == Some(p) && c == Cancel(s, p)
    requires c == s.(tasks := c.tasks) && Result(c, p) == Result(s, p) && (p < |s.tasks| ==> Stops(s, c, p))
    requires Cleared(c.(periodicTask := None), AfterCancel(c.(periodicTask := None), me, reschedule), me, reschedule)
    requires Frame(c.(periodicTask := None), AfterCancel(c.(periodicTask := None), me, reschedule))
    ensures Cancels(s, CancelPeriodic(s, me, reschedule), me, reschedule)
    ensures Frame(s, CancelPeriodic(s, me, reschedule))
  {
    hide AfterCancel, Cancel;
  }

  lemma UpdatesSchedule(s: State, me: nat)
    requires me < |s.tasks|
    ensures Schedules(s, UpdateSchedule(s, me), me) && Frame(s, UpdateSchedule(s, me))
  {
    if Blocked(s) { CancelsPeriodic(s, me, false); }
    hide CancelPeriodic, Cancels;
  }

  /** Changing a flag writes it and updates the schedule: what is allowed is scheduled, and the rest cancelled. */
  lemma FlagTakesEffect(s: State, flag: Flag, value: bool)
    requires (if flag.EnableFlag? then s.enabled else s.inhibited) != value
    requires Forbids(flag, value) && s.asyncTrigger.Some? ==>
               At(s, s.asyncTrigger.value, Done(Completed))
    ensures Next(s, Call(SetFlag(flag, value), true)).Some?
    ensures var s' := Next(s, Call(SetFlag(flag, value), true)).value;
            && FlagsAre(s, s', flag, value) && s'.saved == s.lastTrigger
            && Schedules(Spawn(s, Executing), s', |s.tasks|)
  {
    var s0 := Spawn(s, Executing);
    var s1 := Written(if flag.EnableFlag? then s0.(enabled := value) else s0.(inhibited := value));
    UpdatesSchedule(s1, |s.tasks|);
    assert Next(s, Call(SetFlag(flag, value), true)) == Some(UpdateSchedule(s1, |s.tasks|));
    hide UpdateSchedule, Next, Cancels;
    SchedulesAlike(s0, s1, UpdateSchedule(s1, |s.tasks|), |s.tasks|);
  }

  /** A flag that forbids triggers is not set before the async trigger is over. */
  lemma FlagWaits(s: State, flag: Flag, value: bool, writes: bool)
    requires (if flag.EnableFlag? then s.enabled else s.inhibited) != value && Forbids(flag, value)
    requires s.asyncTrigger.Some? && s.asyncTrigger.value < |s.tasks| && !s.tasks[s.asyncTrigger.value].at.Done?
    ensures Next(s, Call(SetFlag(flag, value), writes)).Some?
    ensures var s' := Next(s, Call(SetFlag(flag, value), writes)).value;
            && At(s', |s.tasks|, FlagWait(s.asyncTrigger.value, flag, value))
            && Same(s, s', |s.tasks|) && |s'.tasks| == |s.tasks| + 1
            && s'.enabled == s.enabled && s'.inhibited == s.inhibited && s'.periodicTask == s.periodicTask
  {
  }

  lemma FlagResumes(s: State, t: nat, on: nat, flag: Flag, value: bool)
    requires At(s, t, FlagWait(on, flag, value)) && Next(s, Resume(t, Completed, true)).Some?
    ensures At(s, on, Done(Completed))
    ensures var s0 := Move(s, t, Executing);
            Next(s, Resume(t, Completed, true))
            == Some(UpdateSchedule(Written(if flag.EnableFlag? then s0.(enabled := value)
                                           else s0.(inhibited := value)), t))
  {
    hide UpdateSchedule;
  }

  /** And then it takes effect in the same way. */
  lemma FlagTakesEffectLater(s: State, t: nat, on: nat, flag: Flag, value: bool)
    requires At(s, t, FlagWait(on, flag, value)) && Next(s, Resume(t, Completed, true)).Some?
    ensures At(s, on, Done(Completed))
    ensures var s' := Next(s, Resume(t, Completed, true)).value;
            && FlagsAre(s, s', flag, value) && s'.saved == s.lastTrigger
            && Schedules(Move(s, t, Executing), s', t)
  {
    var s0 := Move(s, t, Executing);
    var s1 := Written(if flag.EnableFlag? then s0.(enabled := value) else s0.(inhibited := value));
    FlagResumes(s, t, on, flag, value);
    UpdatesSchedule(s1, t);
    hide UpdateSchedule, Next, Cancels;
    SchedulesAlike(s0, s1, UpdateSchedule(s1, t), t);
  }

  lemma SchedulesAlike(s: State, s0: State, s': State, me: nat)
    requires s0.tasks == s.tasks && s0.periodicTask == s.periodicTask && Schedules(s0, s', me)
    ensures Schedules(s, s', me)
  {
    CancelsAlike(s, s0, s', me);
    hide Cancels;
  }

  /** Setting a flag to the value it has does nothing; when it cannot be written, the schedule stays. */
  lemma FlagWithoutEffect(s: State, flag: Flag, value: bool, writes: bool)
    requires (if flag.EnableFlag? then s.enabled else s.inhibited) == value
             || (!writes && (Forbids(flag, value) ==> s.asyncTrigger.None?))
    ensures Next(s, Call(SetFlag(flag, value), writes)).Some?
    ensures var s' := Next(s, Call(SetFlag(flag, value), writes)).value;
            && FlagsAre(s, s', flag, value) && s'.periodicTask == s.periodicTask && s'.saved == s.saved
            && s'.tasks[..|s.tasks|] == s.tasks && |s'.tasks| == |s.tasks| + 1
            && (s'.tasks[|s.tasks|].at == if (if flag.EnableFlag? then s.enabled else s.inhibited) == value
                                         then Done(Completed) else Done(Failed))
  {
  }

  // ---------------------------------------------------------------- suspend and shutdown

  /** Only waking up while no trigger is active starts the delay. */
  lemma SuspendStarts(s: State, value: string)
    ensures Next(s, Call(SuspendChanged(value), true)).Some?
    ensures var s' := Next(s, Call(SuspendChanged(value), true)).value;
            && s'.suspend == value && s'.periodicTask == s.periodicTask && s'.tasks[..|s.tasks|] == s.tasks
            && At(s', |s.tasks|, if value != s.suspend && value == "inactive" && !s.active then LeaveDelay(s.now + 10.0)
                                 else Done(Completed))
  {
  }

  /** After the delay the periodic task is cancelled, and a fresh one created if that is allowed. */
  lemma SuspendReschedules(s: State, t: nat, wake: Time)
    requires At(s, t, LeaveDelay(wake)) && Next(s, Resume(t, Completed, true)).Some?
    ensures s.now >= wake
    ensures var s0, s' := Move(s, t, Executing), Next(s, Resume(t, Completed, true)).value;
            Cancels(s0, s', t, true)
  {
    CancelsPeriodic(Move(s, t, Executing), t, true);
    assert Next(s, Resume(t, Completed, true)) == Some(CancelPeriodic(Move(s, t, Executing), t, true));
    hide CancelPeriodic;
  }

  /** Whoever waited for the cancelled task clears the handle, and reschedules if that was wanted. */
  lemma CancelWaitEnds(s: State, t: nat, on: nat, reschedule: bool, how: Outcome)
    requires At(s, t, CancelWait(on, reschedule)) && !how.Failed? && Next(s, Resume(t, how, true)).Some?
    ensures Cleared(s, Next(s, Resume(t, how, true)).value, t, reschedule)
    ensures Same(s, Next(s, Resume(t, how, true)).value, t)
  {
  }

  /** Shutting down stops serving and cancels the periodic task, if no async trigger is left. */
  lemma ShutdownStops(s: State)
    requires s.asyncTrigger.None? || At(s, s.asyncTrigger.value, Done(Completed))
    ensures Next(s, Call(Shutdown, true)).Some?
    ensures var s' := Next(s, Call(Shutdown, true)).value;
            !s'.serving && s'.asyncTrigger.None? && Cancels(Spawn(s, Executing), s', |s.tasks|, false)
  {
    var s0 := Spawn(s, Executing).(serving := false, asyncTrigger := None);
    assert Next(s, Call(Shutdown, true)) == Some(CancelPeriodic(s0, |s.tasks|, false));
    hide Next, Cancels;
    CancelsPeriodic(s0, |s.tasks|, false);
    hide CancelPeriodic;
    CancelsAlike(Spawn(s, Executing), s0, Next(s, Call(Shutdown, true)).value, |s.tasks|);
  }

  /** It waits for an unfinished one, and fails with one that was cancelled or failed. */
  lemma ShutdownWaits(s: State)
    requires s.asyncTrigger.Some? && s.asyncTrigger.value < |s.tasks|
    requires s.tasks[s.asyncTrigger.value].at != Done(Completed)
    ensures Next(s, Call(Shutdown, true)).Some?
    ensures var s', at := Next(s, Call(Shutdown, true)).value, s.tasks[s.asyncTrigger.value].at;
            && !s'.serving && s'.asyncTrigger == s.asyncTrigger && s'.periodicTask == s.periodicTask
            && s'.tasks[..|s.tasks|] == s.tasks
            && At(s', |s.tasks|, if at.Done? then at else ShutdownWait(s.asyncTrigger.value))
  {
  }

  /** Only the tasks and the handle matter for cancelling. */
  lemma CancelsAlike(s: State, s0: State, s': State, me: nat)
    requires s0.tasks == s.tasks && s0.periodicTask == s.periodicTask
    ensures Cancels(s0, s', me, false) ==> Cancels(s, s', me, false)
  {
  }

  /** When the async trigger is over, shutting down forgets it and goes on. */
  lemma ShutdownGoesOn(s: State, t: nat, on: nat)
    requires At(s, t, ShutdownWait(on)) && Next(s, Resume(t, Completed, true)).Some?
    ensures At(s, on, Done(Completed))
    ensures var s' := Next(s, Resume(t, Completed, true)).value;
            s'.asyncTrigger.None? && Cancels(Move(s, t, Executing), s', t, false)
  {
    var s0 := Move(s, t, Executing);
    CancelsPeriodic(s0.(asyncTrigger := None), t, false);
    assert Next(s, Resume(t, Completed, true)) == Some(CancelPeriodic(s0.(asyncTrigger := None), t, false));
    hide CancelPeriodic;
  }

  // ---------------------------------------------------------------- triggers

  /** `t` has begun a run. */
  predicate Begins(s: State, s': State, t: nat, byPeriodic: bool) {
    At(s', t, TriggerRun) && s'.active && s'.owner == Some(t) && s'.log == s.log + [RunBegins(s.now, byPeriodic)]
  }

  /** The call of `trigger` by `me`, in the state `s` it finds. */
  predicate Triggers(s: State, s': State, me: nat, wait: bool, byPeriodic: bool) {
    if !Allowed(s) then At(s', me, Done(Completed)) && Same(s, s', me) && |s'.tasks| == |s.tasks| && s'.log == s.log
    else if s.active || s.asyncTrigger.Some? then
      && s'.active == s.active && s'.asyncTrigger == s.asyncTrigger && s'.log == s.log
      && var stored := if s.asyncTrigger.Some? then s.asyncTrigger else s.periodicTask;
         if !wait || stored.None? then At(s', me, Done(Completed))
         else if stored.value < |s.tasks| && s.tasks[stored.value].at.Done? then
           var how := s.tasks[stored.value].at.how;
           At(s', me, Done(if s.active && how.Completed? then Failed else how))
         else At(s', me, TriggerWait(stored.value, s.active))
    else if wait then Begins(s, s', me, byPeriodic)
    else
      && At(s', me, Done(Completed)) && s'.asyncTrigger == Some(|s.tasks|) && At(s', |s.tasks|, TriggerQueued)
      && !s'.tasks[|s.tasks|].doomed && s'.active == s.active && s'.log == s.log
  }

  lemma TriggerCallIs(s: State, me: nat, wait: bool, byPeriodic: bool)
    requires me < |s.tasks| && s.tasks[me].at.Executing?
    ensures Triggers(s, TriggerCall(s, me, wait, byPeriodic), me, wait, byPeriodic)
  {
  }

  /** A call of `trigger` does nothing, joins, begins a run or queues one, by the flag and `_async_trigger`. */
  lemma CallTriggers(s: State, wait: bool)
    ensures Next(s, Call(Trigger(wait), true)).Some?
    ensures Triggers(Spawn(s, Executing), Next(s, Call(Trigger(wait), true)).value, |s.tasks|, wait, false)
  {
    TriggerCallIs(Spawn(s, Executing), |s.tasks|, wait, false);
    hide TriggerCall;
  }

  /** A queued trigger begins its run unless it is not allowed or the flag is taken. */
  lemma QueuedBegins(s: State, t: nat)
    requires At(s, t, TriggerQueued) && Next(s, Resume(t, Completed, true)).Some?
    ensures var s' := Next(s, Resume(t, Completed, true)).value;
            if Allowed(s) && !s.active then Begins(s, s', t, false)
            else At(s', t, Done(Completed)) && s'.asyncTrigger.None? && s'.active == s.active && s'.log == s.log
  {
  }

  /** The periodic task polls: while serving, it calls `trigger` and waits. */
  predicate Polls(s: State, s': State, t: nat) {
    if s.serving then Triggers(s, s', t, true, true) else At(s', t, Done(Completed)) && s'.log == s.log
  }

  lemma PollIs(s: State, t: nat)
    requires t < |s.tasks| && s.tasks[t].at.Executing?
    ensures Polls(s, Poll(s, t), t)
  {
    TriggerCallIs(s, t, true, true);
    hide TriggerCall;
  }

  /** A periodic task that begins sleeps until the next trigger; awake, it updates an old list, or polls. */
  lemma PeriodicGoesOn(s: State, t: nat)
    requires t < |s.tasks| && (s.tasks[t].at.PeriodicStart? || s.tasks[t].at.PeriodicSleep?)
    requires Next(s, Resume(t, Completed, true)).Some?
    ensures var s' := Next(s, Resume(t, Completed, true)).value;
            if s.tasks[t].at.PeriodicStart? && s.now < s.nextTrigger then At(s', t, PeriodicSleep(s.nextTrigger))
            else if s.listed + 86400.0 <= s.now then At(s', t, PeriodicAppList)
            else Polls(Move(s, t, Executing), s', t)
  {
    PollIs(Move(s, t, Executing), t);
    hide Poll;
  }

  /** After the update of the list its time is kept and written, and the task polls. */
  lemma ListGoesOn(s: State, t: nat)
    requires At(s, t, PeriodicAppList) && Next(s, Resume(t, Completed, true)).Some?
    ensures var s0 := Move(s, t, Executing).(listed := s.now, saved := s.lastTrigger, savedListed := s.now);
            var s' := Next(s, Resume(t, Completed, true)).value;
            Polls(s0, s', t) && s'.listed == s.now && s'.savedListed == s.now && s'.saved == s.lastTrigger
  {
    PollIs(Move(s, t, Executing).(listed := s.now, saved := s.lastTrigger, savedListed := s.now), t);
    PollWritesNothing(Move(s, t, Executing).(listed := s.now, saved := s.lastTrigger, savedListed := s.now), t);
    hide Poll;
  }

  lemma PollWritesNothing(s: State, t: nat)
    requires t < |s.tasks|
    ensures var s' := Poll(s, t);
            s'.listed == s.listed && s'.savedListed == s.savedListed && s'.saved == s.saved
  {
  }

  /** When the time cannot be written, it is kept in memory, and the task ends. */
  lemma ListFailsToWrite(s: State, t: nat)
    requires At(s, t, PeriodicAppList) && Next(s, Resume(t, Completed, false)).Some?
    ensures var s' := Next(s, Resume(t, Completed, false)).value;
            At(s', t, Done(Failed)) && s'.listed == s.now && s'.savedListed == s.savedListed && s'.saved == s.saved
            && s'.log == s.log && s'.active == s.active
  {
  }

  /** Other writes of the configuration save the times, too, and a restart begins with what was saved. */
  lemma SavesAndRestarts(s: State, enabled: bool, inhibited: bool)
    ensures Next(s, Save) == Some(s.(saved := s.lastTrigger, savedListed := s.listed))
    ensures Next(s, Restart(enabled, inhibited)).Some?
    ensures var s' := Next(s, Restart(enabled, inhibited)).value;
            && s'.now == s.now && s'.lastTrigger == s.saved == s'.saved && s'.listed == s.savedListed == s'.savedListed
            && s'.enabled == enabled && s'.inhibited == inhibited && s'.log == s.log
  {
  }

  // ---------------------------------------------------------------- the end of a run

  lemma HandoverIs(s: State)
    ensures var h := Handover(s);
            && h.log == s.log + [RunEnds(s.now)] && h.nextTrigger == s.now + 3600.0
            && h.lastTrigger == Some(s.now) && h.saved == Some(s.now)
            && (if s.serving then Fresh(s, h) else h.periodicTask == s.periodicTask)
            && h.active == s.active && h.asyncTrigger == s.asyncTrigger && |s.tasks| <= |h.tasks|
            && (forall t | 0 <= t < |s.tasks| :: h.tasks[t].at == s.tasks[t].at)
    ensures s.periodicTask.Some? && s.periodicTask.value < |s.tasks| ==> Stops(s, Handover(s), s.periodicTask.value)
  {
  }

  lemma AwaitReplacedIs(s: State, me: nat, replaced: Option<nat>)
    requires me < |s.tasks|
    ensures var s' := AwaitReplaced(s, me, replaced);
            && s'.log == s.log && s'.nextTrigger == s.nextTrigger && s'.lastTrigger == s.lastTrigger
            && s'.saved == s.saved && s'.periodicTask == s.periodicTask && Same(s, s', me)
            && if replaced.Some? && At(s, replaced.value, Done(Failed)) then
                 At(s', me, Done(Failed)) && s'.active == s.active
               else if replaced.None? || (replaced.value < |s.tasks| && s.tasks[replaced.value].at.Done?) then
                 At(s', me, Done(Completed)) && !s'.active && s'.asyncTrigger.None?
               else At(s', me, TriggerReplace(replaced.value)) && s'.active == s.active
  {
    MoveIs(s, me, Done(Completed));
    MoveIs(s, me, Done(Failed));
    if replaced.Some? { MoveIs(s, me, TriggerReplace(replaced.value)); }
    hide Move, Same;
  }

  lemma MoveIs(s: State, me: nat, p: Point)
    requires me < |s.tasks|
    ensures var s' := Move(s, me, p);
            Same(s, s', me) && At(s', me, p) && s' == s.(tasks := s'.tasks) && Same(s, s'.(active := false), me)
            && Same(s, s'.(active := false, asyncTrigger := None), me)
  {
  }

  /**
   * A completed run is recorded, in memory and on disk, and sets the next trigger; while serving, a fresh
   * periodic task replaces the old one, which is told to stop and waited for, before the flag is given back.
   */
  lemma RunCompletes(s: State, t: nat)
    requires At(s, t, TriggerRun) && Next(s, Resume(t, Completed, true)).Some?
    requires s.periodicTask.Some? ==> s.periodicTask.value < |s.tasks|
    ensures var s' := Next(s, Resume(t, Completed, true)).value;
            && s'.log == s.log + [RunEnds(s.now)] && s'.nextTrigger == s.now + 3600.0
            && s'.lastTrigger == Some(s.now) && s'.saved == Some(s.now)
            && (if s.serving then Fresh(s, s') else s'.periodicTask == s.periodicTask)
            && match s.periodicTask
               case None => At(s', t, Done(Completed)) && !s'.active && s'.asyncTrigger.None?
               case Some(p) =>
                 && (p != t ==> Stops(s, s', p))
                 && if At(s, p, Done(Failed)) then At(s', t, Done(Failed)) && s'.active == s.active
                    else if s.tasks[p].at.Done? then At(s', t, Done(Completed)) && !s'.active && s'.asyncTrigger.None?
                    else At(s', t, TriggerReplace(p)) && s'.active == s.active
  {
    var s0 := Move(s, t, Executing);
    var h := Handover(s0);
    HandoverIs(s0);
    AwaitReplacedIs(h, t, s.periodicTask);
    assert Next(s, Resume(t, Completed, true)) == Some(AwaitReplaced(h, t, s.periodicTask));
    hide Next, Handover, AwaitReplaced;
  }

  /** When the replaced task is over, or its cancellation arrives, the flag is given back. */
  lemma ReplacedReleases(s: State, t: nat, on: nat, how: Outcome)
    requires At(s, t, TriggerReplace(on)) && !how.Failed? && Next(s, Resume(t, how, true)).Some?
    ensures var s' := Next(s, Resume(t, how, true)).value;
            At(s', t, Done(Completed)) && !s'.active && s'.asyncTrigger.None? && s'.periodicTask == s.periodicTask
            && Same(s, s', t) && s'.log == s.log
  {
  }

  /** A run whose time cannot be written ends its task, and the flag stays taken. */
  lemma RunFailsToWrite(s: State, t: nat)
    requires At(s, t, TriggerRun) && Next(s, Resume(t, Completed, false)).Some?
    ensures var s' := Next(s, Resume(t, Completed, false)).value;
            At(s', t, Done(Failed)) && s'.active == s.active && s'.log == s.log && s'.nextTrigger == s.nextTrigger
            && s'.lastTrigger == Some(s.now) && s'.saved == s.saved && s'.periodicTask == s.periodicTask
  {
  }

  /** An exception, or a cancellation that is not expected, ends a task and nothing else. */
  lemma ExceptionEnds(s: State, t: nat, how: Outcome)
    requires t < |s.tasks| && Next(s, Resume(t, how, true)).Some? && !how.Completed?
    requires how.Cancelled? ==> !s.tasks[t].at.TriggerReplace? && !s.tasks[t].at.CancelWait?
    ensures var s' := Next(s, Resume(t, how, true)).value;
            At(s', t, Done(how)) && Same(s, s', t) && s' == s.(tasks := s'.tasks)
  {
  }
}
