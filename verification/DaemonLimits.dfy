/**
 * The conditions of the theorems about coalescing and spacing are exact: an event that violates them can be
 * followed by harmless ones that break the property.
 */
module DaemonLimits {
  import opened Prelude
  import opened DaemonSchedule
  import opened DaemonSafety
  import opened DaemonRuns

  /** The hypotheses of `m` hold at every event of a continuation. */
  ghost predicate Clean(m: Mode, s: State, events: seq<Event>)
    decreases |events|
  {
    events == []
    || (Admits(m, s, events[0]) && (Next(s, events[0]).Some? ==> Clean(m, Next(s, events[0]).value, events[1..])))
  }

  /** The events can follow, harmlessly, and lead to `s'`. */
  ghost predicate Leads(m: Mode, s: State, events: seq<Event>, s': State) {
    After(s, events) == Some(s') && Clean(m, s, events)
  }

  lemma LeadsOne(m: Mode, s: State, e: Event)
    requires Next(s, e).Some? && Admits(m, s, e)
    ensures Leads(m, s, [e], Next(s, e).value)
  {
    hide Next, Admits;
    var s' := Next(s, e).value;
    assert [e][0] == e && [e][1..] == [];
    assert After(s', []) == Some(s') && Clean(m, s', []);
  }

  lemma {:induction false} LeadsJoin(m: Mode, s: State, a: seq<Event>, s': State, b: seq<Event>, s'': State)
    requires Leads(m, s, a, s') && Leads(m, s', b, s'')
    ensures Leads(m, s, a + b, s'')
    decreases |a|
  {
    hide Next, Admits;
    if a == [] {
      assert a + b == b;
    } else {
      assert (a + b)[1..] == a[1..] + b && (a + b)[0] == a[0];
      LeadsJoin(m, Next(s, a[0]).value, a[1..], s', b, s'');
    }
  }

  lemma {:induction false} LeadsSafe(m: Mode, s: State, events: seq<Event>, s': State)
    requires Safe(m, s) && Leads(m, s, events, s')
    ensures Safe(m, s')
    decreases |events|
  {
    hide Safe, Next, Admits;
    if events != [] {
      StepSafe(m, s, events[0]);
      LeadsSafe(m, Next(s, events[0]).value, events[1..], s');
    }
  }

  // ---------------------------------------------------------------- lifting a block

  /** What setting a flag does not touch. */
  predicate Kept(s: State, s': State, x: nat)
    requires x < |s.tasks|
  {
    && s'.active == s.active && s'.asyncTrigger == s.asyncTrigger && s'.serving == s.serving
    && s'.now == s.now && s'.log == s.log
    && |s.tasks| <= |s'.tasks| && s'.tasks[x].at == s.tasks[x].at
    && (s.periodicTask != Some(x) ==> s'.periodicTask != Some(x) && s'.tasks[x].doomed == s.tasks[x].doomed)
  }

  lemma CancelHandleIs(s: State, x: nat)
    requires x < |s.tasks|
    ensures var c := CancelHandle(s);
            && c == s.(tasks := c.tasks) && |c.tasks| == |s.tasks| && c.tasks[x].at == s.tasks[x].at
            && (s.periodicTask != Some(x) ==> c.tasks[x] == s.tasks[x])
  {
  }

  /** `_cancel_periodic` cancels the handle, may clear it, and moves its own task. */
  lemma CancelShape(s: State, me: nat)
    requires me < |s.tasks| == |CancelHandle(s).tasks|
    ensures var c, r := CancelHandle(s), CancelPeriodic(s, me, false);
            exists p :: r == Move(c, me, p) || r == Move(c.(periodicTask := None), me, p)
  {
    var c, r := CancelHandle(s), CancelPeriodic(s, me, false);
    hide Cancel;
    match s.periodicTask
    case None => assert r == Move(c, me, Done(Completed));
    case Some(p) =>
      match Result(c, p)
      case None => assert r == Move(c, me, CancelWait(p, false));
      case Some(Failed) => assert r == Move(c, me, Done(Failed));
      case Some(_) => assert r == Move(c.(periodicTask := None), me, Done(Completed));
  }

  lemma CancelKeeps(s: State, me: nat, x: nat)
    requires me < |s.tasks| && x < |s.tasks| && x != me
    ensures Kept(s, CancelPeriodic(s, me, false), x)
    ensures CancelPeriodic(s, me, false).enabled == s.enabled
    ensures CancelPeriodic(s, me, false).inhibited == s.inhibited
  {
    CancelHandleIs(s, x);
    CancelShape(s, me);
    hide CancelHandle, CancelPeriodic;
  }

  lemma ScheduleKeeps(s: State, me: nat, x: nat)
    requires me < |s.tasks| && x < |s.tasks| && x != me
    ensures Kept(s, UpdateSchedule(s, me), x)
    ensures UpdateSchedule(s, me).enabled == s.enabled && UpdateSchedule(s, me).inhibited == s.inhibited
  {
    CancelKeeps(s, me, x);
    hide CancelPeriodic;
  }

  /** The call that lifts the block of one flag. */
  function Lift(flag: Flag): Event {
    Call(SetFlag(flag, flag.EnableFlag?), true)
  }

  lemma LiftKeeps(s: State, flag: Flag, x: nat)
    requires x < |s.tasks|
    ensures Next(s, Lift(flag)).Some?
    ensures var s' := Next(s, Lift(flag)).value;
            && Kept(s, s', x) && FlagOf(s', flag) == flag.EnableFlag?
            && forall other | other != flag :: FlagOf(s', other) == FlagOf(s, other)
  {
    var me, s0 := |s.tasks|, Spawn(s, Executing);
    assert Next(s, Lift(flag)) == Some(FlagCall(s0, me, flag, flag.EnableFlag?, true));
    if FlagOf(s0, flag) != flag.EnableFlag? {
      var s1 := if flag.EnableFlag? then s0.(enabled := true) else s0.(inhibited := false);
      ScheduleKeeps(Written(s1), me, x);
      hide UpdateSchedule;
    }
  }

  /** Both flags can be set so that triggers are allowed. */
  lemma Unblocks(m: Mode, s: State, x: nat) returns (events: seq<Event>, s': State)
    requires x < |s.tasks|
    ensures Leads(m, s, events, s') && Kept(s, s', x) && !Blocked(s')
  {
    LiftKeeps(s, EnableFlag, x);
    var s1 := Next(s, Lift(EnableFlag)).value;
    LiftKeeps(s1, InhibitFlag, x);
    s' := Next(s1, Lift(InhibitFlag)).value;
    hide Next;
    LeadsOne(m, s, Lift(EnableFlag));
    LeadsOne(m, s1, Lift(InhibitFlag));
    LeadsJoin(m, s, [Lift(EnableFlag)], s1, [Lift(InhibitFlag)], s');
    assert FlagOf(s', EnableFlag) && !FlagOf(s', InhibitFlag);
    events := [Lift(EnableFlag)] + [Lift(InhibitFlag)];
  }

  // ---------------------------------------------------------------- two triggers

  predicate OneLive(ts: seq<Task>) {
    forall t, u | 0 <= t < u < |ts| && Live(ts[t].at) :: !Live(ts[u].at)
  }

  lemma LostFacts(s: State, e: Event)
    requires LosesTrigger(s, e) && Next(s, e).Some?
    ensures var x, s' := s.asyncTrigger.value, Next(s, e).value;
            && x < |s'.tasks| && s'.tasks[x].at.TriggerQueued? && !s'.active && s'.asyncTrigger.None?
  {
    var me := e.task;
    var s0 := Move(s, me, Executing).(asyncTrigger := None);
    CancelKeeps(s0, me, s.asyncTrigger.value);
    assert Next(s, e).value == CancelPeriodic(s0, me, false);
    hide CancelPeriodic;
  }

  lemma QueuesAnother(s: State, x: nat)
    requires x < |s.tasks| && s.tasks[x].at.TriggerQueued?
    requires !Blocked(s) && !s.active && s.asyncTrigger.None?
    ensures Next(s, Call(Trigger(false), true)).Some?
    ensures !OneLive(Next(s, Call(Trigger(false), true)).value.tasks)
  {
    var ts := Next(s, Call(Trigger(false), true)).value.tasks;
    assert Live(ts[x].at) && Live(ts[|s.tasks| + 1].at);
  }

  /** After a queued trigger was forgotten, one more call makes two. */
  lemma LosingMakesTwo(m: Mode, s: State, e: Event) returns (events: seq<Event>, s': State)
    requires LosesTrigger(s, e) && Next(s, e).Some?
    ensures Leads(m, Next(s, e).value, events, s') && !OneLive(s'.tasks)
  {
    LostFacts(s, e);
    var x, s1 := s.asyncTrigger.value, Next(s, e).value;
    hide Next, OneLive;
    var unblock, s2 := Unblocks(m, s1, x);
    QueuesAnother(s2, x);
    var again := Call(Trigger(false), true);
    s' := Next(s2, again).value;
    LeadsOne(m, s2, again);
    LeadsJoin(m, s1, unblock, s2, [again], s');
    events := unblock + [again];
  }

  /**
   * In a run so far without such an event, the next event loses a queued trigger if and only if it can be
   * followed, without any other such event, by two `_trigger` coroutines at once.
   */
  lemma CoalescingFailsExactly(run: seq<State>, events: seq<Event>, i: nat, e: Event)
    requires Admitted(Mode(true, false), run, events) && i < |run| && Next(run[i], e).Some?
    ensures LosesTrigger(run[i], e) <==>
              exists more, s' :: Leads(Mode(true, false), Next(run[i], e).value, more, s') && !OneLive(s'.tasks)
  {
    var m, s := Mode(true, false), run[i];
    if LosesTrigger(s, e) {
      var more, s' := LosingMakesTwo(m, s, e);
    } else {
      RunSafe(m, run, events, i);
      StepSafe(m, s, e);
      forall more, s' | Leads(m, Next(s, e).value, more, s') ensures OneLive(s'.tasks) {
        LeadsSafe(m, Next(s, e).value, more, s');
        SafeHasOneLive(s');
      }
    }
  }

  lemma SafeHasOneLive(s: State)
    requires Safe(Mode(true, false), s)
    ensures OneLive(s.tasks)
  {
  }

  // ---------------------------------------------------------------- a run too early

  /** The stray `t` is the next to begin a run: nobody has the flag, and nothing was logged after the end. */
  predicate Poised(s: State, t: nat, end: Time) {
    && t < |s.tasks| && !s.tasks[t].doomed && s.periodicTask != Some(t)
    && (s.tasks[t].at.PeriodicAppList? || (s.tasks[t].at.PeriodicSleep? && s.tasks[t].at.wake < end + INTERVAL))
    && s.serving && !s.active && s.asyncTrigger.None? && s.now < end + INTERVAL
    && s.log != [] && s.log[|s.log| - 1] == RunEnds(end)
  }

  lemma PoisedKept(s: State, s': State, t: nat, end: Time)
    requires Poised(s, t, end) && Kept(s, s', t)
    ensures Poised(s', t, end)
  {
  }

  /** Handing over leaves a stray as it is. */
  lemma HandoverKeeps(s: State, me: nat, t: nat)
    requires Running(s, me) && Stray(s, t) && s.serving
    ensures var h := Handover(s);
            && t < |s.tasks| < |h.tasks| && h.tasks[t] == s.tasks[t] && h.periodicTask == Some(|s.tasks|)
            && h.serving && h.now == s.now && h.log == s.log + [RunEnds(s.now)]
    ensures s.periodicTask.Some? && s.periodicTask.value < |s.tasks| ==>
              Result(Handover(s), s.periodicTask.value) == Result(s, s.periodicTask.value)
    ensures s.periodicTask.Some? && s.periodicTask.value >= |s.tasks| ==>
              Result(Handover(s), s.periodicTask.value).None?
  {
    var c := CancelHandle(s);
    assert |c.tasks| == |s.tasks| && c.tasks[t] == s.tasks[t] && c == s.(tasks := c.tasks);
    assert forall u | 0 <= u < |s.tasks| :: c.tasks[u].at == s.tasks[u].at;
    hide CancelHandle;
  }

  lemma AwaitedFacts(h: State, me: nat, replaced: Option<nat>)
    requires me < |h.tasks| && (replaced.Some? ==> Result(h, replaced.value) != Some(Failed))
    ensures var s' := AwaitReplaced(h, me, replaced);
            && (s' == Move(h, me, TriggerReplace(replaced.GetOr(0))) || s' == Release(h, me))
  {
  }

  /** A completed run has logged its end, and has released the flag or waits for the replaced task. */
  lemma CompletedFacts(s: State, e: Event, t: nat)
    requires Crowds(s, e) && Stray(s, t) && Next(s, e).Some?
    ensures var s' := Next(s, e).value;
            && e.task < |s'.tasks| && e.task != t
            && if s'.tasks[e.task].at.TriggerReplace? then Poised(s'.(active := false, asyncTrigger := None), t, s.now)
               else Poised(s', t, s.now)
  {
    var me := e.task;
    var s0 := Move(s, me, Executing);
    var h := Handover(s0);
    assert Next(s, e).value == AwaitReplaced(h, me, s.periodicTask);
    assert Stray(s0, t);
    assert s.periodicTask.Some? ==> Result(s0, s.periodicTask.value) != Some(Failed);
    HandoverKeeps(s0, me, t);
    hide Next, Handover, Crowds;
    AwaitedFacts(h, me, s.periodicTask);
    hide AwaitReplaced, Result;
  }

  lemma Releases(m: Mode, s: State, me: nat, t: nat, end: Time)
    requires me < |s.tasks| && s.tasks[me].at.TriggerReplace? && me != t
    requires Poised(s.(active := false, asyncTrigger := None), t, end)
    ensures Next(s, Resume(me, Cancelled, true)).Some? && Poised(Next(s, Resume(me, Cancelled, true)).value, t, end)
    ensures Admits(m, s, Resume(me, Cancelled, true))
  {
  }

  /** Time passes until `t` can be woken. */
  lemma Wakes(s: State, t: nat, end: Time) returns (elapsed: Time)
    requires Poised(s, t, end)
    ensures elapsed >= 0.0
    ensures var s' := s.(now := s.now + elapsed); Poised(s', t, end) && CanResume(s', t, Completed)
  {
    var at := s.tasks[t].at;
    elapsed := if at.PeriodicSleep? && at.wake > s.now then at.wake - s.now else 0.0;
  }

  lemma BeginsFromList(s: State, t: nat, end: Time)
    requires Poised(s, t, end) && !Blocked(s) && s.tasks[t].at.PeriodicAppList?
    ensures Next(s, Resume(t, Completed, true)).Some?
    ensures Next(s, Resume(t, Completed, true)).value.log == s.log + [RunBegins(s.now, true)]
  {
  }

  lemma BeginsFromSleep(s: State, t: nat, end: Time)
    requires Poised(s, t, end) && !Blocked(s) && s.tasks[t].at.PeriodicSleep? && CanResume(s, t, Completed)
    ensures Next(s, Resume(t, Completed, true)).Some?
    ensures var s' := Next(s, Resume(t, Completed, true)).value;
            if ListIsDue(s) then Poised(s', t, end) && !Blocked(s') && s'.tasks[t].at.PeriodicAppList?
            else s'.log == s.log + [RunBegins(s.now, true)]
  {
  }

  lemma TooEarly(log: seq<Mark>, end: Time, now: Time)
    requires log != [] && log[|log| - 1] == RunEnds(end) && now < end + INTERVAL
    ensures !WellSpaced(log + [RunBegins(now, true)])
  {
    var more := log + [RunBegins(now, true)];
    assert more[|log| - 1].RunEnds? && more[|log|].RunBegins? && more[|log|].byPeriodic;
  }

  lemma BeginsEarly(m: Mode, s: State, t: nat, end: Time) returns (events: seq<Event>, s': State)
    requires Poised(s, t, end) && !Blocked(s) && CanResume(s, t, Completed)
    ensures Leads(m, s, events, s') && !WellSpaced(s'.log)
  {
    var e := Resume(t, Completed, true);
    events := [e];
    TooEarly(s.log, end, s.now);
    assert Admits(m, s, e);
    if s.tasks[t].at.PeriodicAppList? {
      BeginsFromList(s, t, end);
      s' := Next(s, e).value;
      LeadsOne(m, s, e);
    } else {
      BeginsFromSleep(s, t, end);
      s' := Next(s, e).value;
      LeadsOne(m, s, e);
      if ListIsDue(s) {
        var s1 := s';
        assert Admits(m, s1, e);
        BeginsFromList(s1, t, end);
        TooEarly(s1.log, end, s1.now);
        s' := Next(s1, e).value;
        hide Next, WellSpaced, Admits;
        LeadsOne(m, s1, e);
        LeadsJoin(m, s, [e], s1, [e], s');
        events := [e] + [e];
      }
    }
    hide Next, WellSpaced, Admits;
  }

  lemma StrayBegins(m: Mode, s: State, t: nat, end: Time) returns (events: seq<Event>, s': State)
    requires Poised(s, t, end)
    ensures Leads(m, s, events, s') && !WellSpaced(s'.log)
  {
    hide WellSpaced, Admits;
    var unblock, s1 := Unblocks(m, s, t);
    PoisedKept(s, s1, t, end);
    var elapsed := Wakes(s1, t, end);
    var s2 := s1.(now := s1.now + elapsed);
    assert Next(s1, Tick(elapsed)) == Some(s2);
    assert Admits(m, s1, Tick(elapsed)) by { TicksAreHarmless(m, s1, elapsed); }
    hide Next;
    LeadsOne(m, s1, Tick(elapsed));
    var begin, s3 := BeginsEarly(m, s2, t, end);
    LeadsJoin(m, s, unblock, s1, [Tick(elapsed)], s2);
    LeadsJoin(m, s, unblock + [Tick(elapsed)], s2, begin, s3);
    events, s' := unblock + [Tick(elapsed)] + begin, s3;
  }

  lemma TicksAreHarmless(m: Mode, s: State, elapsed: Time)
    ensures Admits(m, s, Tick(elapsed))
  {
  }

  /** After a run completed beside a stray, the stray can begin another too early. */
  lemma CrowdingBreaksSpacing(m: Mode, s: State, e: Event) returns (events: seq<Event>, s': State)
    requires Crowds(s, e) && Next(s, e).Some?
    ensures Leads(m, Next(s, e).value, events, s') && !WellSpaced(s'.log)
  {
    var t :| Stray(s, t);
    CompletedFacts(s, e, t);
    hide Next, WellSpaced, Admits, Poised;
    var me, s1 := e.task, Next(s, e).value;
    if s1.tasks[me].at.TriggerReplace? {
      Releases(m, s1, me, t, s.now);
      var release := Resume(me, Cancelled, true);
      var s2 := Next(s1, release).value;
      LeadsOne(m, s1, release);
      var more, s3 := StrayBegins(m, s2, t, s.now);
      LeadsJoin(m, s1, [release], s2, more, s3);
      events, s' := [release] + more, s3;
    } else {
      events, s' := StrayBegins(m, s1, t, s.now);
    }
  }

  /**
   * In a run so far without such an event, the next event completes a run beside a stray if and only if it
   * can be followed, without any other such event, by a periodic run that begins too early.
   */
  lemma SpacingFailsExactly(run: seq<State>, events: seq<Event>, i: nat, e: Event)
    requires Admitted(Mode(false, true), run, events) && i < |run| && Next(run[i], e).Some?
    ensures Crowds(run[i], e) <==>
              exists more, s' :: Leads(Mode(false, true), Next(run[i], e).value, more, s') && !WellSpaced(s'.log)
  {
    var m, s := Mode(false, true), run[i];
    if Crowds(s, e) {
      var more, s' := CrowdingBreaksSpacing(m, s, e);
    } else {
      RunSafe(m, run, events, i);
      StepSafe(m, s, e);
      forall more, s' | Leads(m, Next(s, e).value, more, s') ensures WellSpaced(s'.log) {
        LeadsSafe(m, Next(s, e).value, more, s');
      }
    }
  }
}
