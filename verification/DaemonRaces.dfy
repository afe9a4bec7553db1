/** Runs that break the theorems of DaemonRuns once a hypothesis is dropped. */
module DaemonRaces {
  import opened Prelude
  import opened DaemonSchedule
  import opened DaemonSafety
  import opened DaemonRuns

  function T(p: Point): Task {
    Task(p, false)
  }

  predicate NoCancelWait(ts: seq<Task>) {
    forall t | 0 <= t < |ts| :: !ts[t].at.CancelWait?
  }

  const FIN := T(Done(Completed))
  const FRESH := T(PeriodicStart)
  const DOOMED := Task(PeriodicStart, true)

  // ---------------------------------------------------------------- the rescheduling race

  const START: Time := 100000.0
  const DELAY := T(LeaveDelay(START + 19.0))
  const SLEEP := T(PeriodicSleep(START + 20.0))
  const WOKEN := Task(PeriodicSleep(START + 20.0), true)
  const LATER := T(PeriodicSleep(START + 3625.0))
  const LIST := T(PeriodicAppList)
  const CW := T(CancelWait(0, true))
  const GONE := Task(Done(Cancelled), true)

  /** Before the first run after booting at START; the application list was never updated. */
  function Early(seconds: Time, suspend: string, handle: nat, tasks: seq<Task>): State {
    State(START + seconds, true, suspend, false, None, Some(handle), START + 20.0, true, false, None, None, 0.0, 0.0,
          tasks, None, [])
  }

  /** Task 6 has updated the list at 21 seconds and run; `listed` is the last update. */
  function Late(seconds: Time, listed: Time, active: bool, owner: nat, handle: nat, ended: bool, tasks: seq<Task>,
                log: seq<Mark>): State {
    State(START + seconds, true, "inactive", active, None, Some(handle),
          if ended then START + 3625.0 else START + 20.0, true, false,
          if ended then Some(START + 25.0) else None, if ended then Some(START + 25.0) else None,
          START + listed, START + listed, tasks, Some(owner), log)
  }

  const BEGUN := [RunBegins(START + 21.0, true)]
  const ENDED := BEGUN + [RunEnds(START + 25.0)]

  /**
   * Two wake-ups from suspend are both suspended at line 94, waiting for the cancelled task 0.  Task 2
   * resumes first and reschedules (task 5); task 4 then clears that handle and reschedules again (task 6).
   * Task 5 is an orphan: both update the application list, task 6 is faster and runs, and does not cancel
   * task 5, which begins a run of its own as soon as the list is there.
   */
  function RaceState(i: nat): State {
    match i
    case 0 => Early(0.0, "inactive", 0, [FRESH])
    case 1 => Early(0.0, "inactive", 0, [SLEEP])
    case 2 => Early(9.0, "inactive", 0, [SLEEP])
    case 3 => Early(9.0, "active", 0, [SLEEP, FIN])
    case 4 => Early(9.0, "inactive", 0, [SLEEP, FIN, DELAY])
    case 5 => Early(9.0, "active", 0, [SLEEP, FIN, DELAY, FIN])
    case 6 => Early(9.0, "inactive", 0, [SLEEP, FIN, DELAY, FIN, DELAY])
    case 7 => Early(19.0, "inactive", 0, [SLEEP, FIN, DELAY, FIN, DELAY])
    case 8 => Early(19.0, "inactive", 0, [WOKEN, FIN, CW, FIN, DELAY])
    case 9 => Early(19.0, "inactive", 0, [WOKEN, FIN, CW, FIN, CW])
    case 10 => Early(19.0, "inactive", 0, [GONE, FIN, CW, FIN, CW])
    case 11 => Early(19.0, "inactive", 5, [GONE, FIN, FIN, FIN, CW, FRESH])
    case 12 => Early(19.0, "inactive", 6, [GONE, FIN, FIN, FIN, FIN, FRESH, FRESH])
    case 13 => Early(19.0, "inactive", 6, [GONE, FIN, FIN, FIN, FIN, SLEEP, FRESH])
    case 14 => Early(19.0, "inactive", 6, [GONE, FIN, FIN, FIN, FIN, SLEEP, SLEEP])
    case 15 => Early(20.0, "inactive", 6, [GONE, FIN, FIN, FIN, FIN, SLEEP, SLEEP])
    case 16 => Early(20.0, "inactive", 6, [GONE, FIN, FIN, FIN, FIN, LIST, SLEEP])
    case 17 => Early(20.0, "inactive", 6, [GONE, FIN, FIN, FIN, FIN, LIST, LIST])
    case 18 => Early(21.0, "inactive", 6, [GONE, FIN, FIN, FIN, FIN, LIST, LIST])
    case 19 => Late(21.0, 21.0, true, 6, 6, false, [GONE, FIN, FIN, FIN, FIN, LIST, T(TriggerRun)], BEGUN)
    case 20 => Late(25.0, 21.0, true, 6, 6, false, [GONE, FIN, FIN, FIN, FIN, LIST, T(TriggerRun)], BEGUN)
    case 21 => Late(25.0, 21.0, true, 6, 7, true,
                    [GONE, FIN, FIN, FIN, FIN, LIST, T(TriggerReplace(6)), FRESH], ENDED)
    case 22 => Late(25.0, 21.0, false, 6, 7, true, [GONE, FIN, FIN, FIN, FIN, LIST, FIN, FRESH], ENDED)
    case 23 => Late(25.0, 21.0, false, 6, 7, true, [GONE, FIN, FIN, FIN, FIN, LIST, FIN, LATER], ENDED)
    case _ => Late(25.0, 25.0, true, 5, 7, true, [GONE, FIN, FIN, FIN, FIN, T(TriggerRun), FIN, LATER],
                   ENDED + [RunBegins(START + 25.0, true)])
  }

  function RaceEvent(i: nat): Event {
    match i
    case 0 => Resume(0, Completed, true)
    case 1 => Tick(9.0)
    case 2 => Call(SuspendChanged("active"), true)
    case 3 => Call(SuspendChanged("inactive"), true)
    case 4 => Call(SuspendChanged("active"), true)
    case 5 => Call(SuspendChanged("inactive"), true)
    case 6 => Tick(10.0)
    case 7 => Resume(2, Completed, true)
    case 8 => Resume(4, Completed, true)
    case 9 => Resume(0, Cancelled, true)
    case 10 => Resume(2, Cancelled, true)
    case 11 => Resume(4, Cancelled, true)
    case 12 => Resume(5, Completed, true)
    case 13 => Resume(6, Completed, true)
    case 14 => Tick(1.0)
    case 15 => Resume(5, Completed, true)
    case 16 => Resume(6, Completed, true)
    case 17 => Tick(1.0)
    case 18 => Resume(6, Completed, true)
    case 19 => Tick(4.0)
    case 20 => Resume(6, Completed, true)
    case 21 => Resume(6, Cancelled, true)
    case 22 => Resume(7, Completed, true)
    case _ => Resume(5, Completed, true)
  }

  /** The event leads from one state of the race to the next. */
  predicate RaceStep(i: nat) {
    Next(RaceState(i), RaceEvent(i)) == Some(RaceState(i + 1))
  }

  lemma RaceBoot(i: nat)
    requires i < 3
    ensures RaceStep(i)
  {
    var s := Next(RaceState(i), RaceEvent(i)).value;
    assert s.tasks == RaceState(i + 1).tasks && s.log == RaceState(i + 1).log;
  }

  lemma RaceSuspend(i: nat)
    requires 3 <= i < 7
    ensures RaceStep(i)
  {
    var s := Next(RaceState(i), RaceEvent(i)).value;
    assert s.tasks == RaceState(i + 1).tasks && s.log == RaceState(i + 1).log;
  }

  lemma RaceCancel(i: nat)
    requires 7 <= i < 10
    ensures RaceStep(i)
  {
    var s := Next(RaceState(i), RaceEvent(i)).value;
    assert s.tasks == RaceState(i + 1).tasks && s.log == RaceState(i + 1).log;
  }

  lemma RaceReschedule(i: nat)
    requires 10 <= i < 13
    ensures RaceStep(i)
  {
    var s := Next(RaceState(i), RaceEvent(i)).value;
    assert s.tasks == RaceState(i + 1).tasks && s.log == RaceState(i + 1).log;
  }

  lemma RaceSleep(i: nat)
    requires 13 <= i < 16
    ensures RaceStep(i)
  {
    var s := Next(RaceState(i), RaceEvent(i)).value;
    assert s.tasks == RaceState(i + 1).tasks && s.log == RaceState(i + 1).log;
  }

  lemma RaceList(i: nat)
    requires 16 <= i < 19
    ensures RaceStep(i)
  {
    var s := Next(RaceState(i), RaceEvent(i)).value;
    assert s.tasks == RaceState(i + 1).tasks && s.log == RaceState(i + 1).log;
  }

  lemma RaceRun(i: nat)
    requires 19 <= i < 21
    ensures RaceStep(i)
  {
    var s := Next(RaceState(i), RaceEvent(i)).value;
    assert s.tasks == RaceState(i + 1).tasks && s.log == RaceState(i + 1).log;
  }

  lemma RaceRelease(i: nat)
    requires 21 <= i < 23
    ensures RaceStep(i)
  {
    var s := Next(RaceState(i), RaceEvent(i)).value;
    assert s.tasks == RaceState(i + 1).tasks && s.log == RaceState(i + 1).log;
  }

  lemma RaceOrphan(i: nat)
    requires 23 <= i < 24
    ensures RaceStep(i)
  {
    var s := Next(RaceState(i), RaceEvent(i)).value;
    assert s.tasks == RaceState(i + 1).tasks && s.log == RaceState(i + 1).log;
  }

  /** No run completes while a task is suspended in `_cancel_periodic` (line 94). */
  ghost predicate NoCompletionDuringCancel(run: seq<State>, events: seq<Event>)
    requires IsRun(run, events)
  {
    forall i | 0 <= i < |events| && events[i].Resume? :: EndsRun(run[i], events[i]) ==> NoCancelWait(run[i].tasks)
  }

  predicate EndsRun(s: State, e: Event) {
    e.Resume? && e.task < |s.tasks| && s.tasks[e.task].at.TriggerRun? && e.how.Completed?
  }

  lemma RaceSteps(i: nat)
    requires i < 24
    ensures RaceStep(i)
  {
    hide RaceStep;
    if i < 3 { RaceBoot(i); } else if i < 7 { RaceSuspend(i); } else if i < 10 { RaceCancel(i); }
    else if i < 13 { RaceReschedule(i); } else if i < 16 { RaceSleep(i); } else if i < 19 { RaceList(i); }
    else if i < 21 { RaceRun(i); } else if i < 23 { RaceRelease(i); } else { RaceOrphan(i); }
  }

  lemma RaceEnds(i: nat)
    requires i < 24 && EndsRun(RaceState(i), RaceEvent(i))
    ensures NoCancelWait(RaceState(i).tasks)
  {
    assert i == 20;
  }

  /** That no run completes during a cancellation is not enough to keep the periodic runs apart. */
  lemma ReschedulingRace() returns (run: seq<State>, events: seq<Event>)
    ensures IsRun(run, events) && NoCompletionDuringCancel(run, events)
    ensures !WellSpaced(run[|events|].log)
  {
    run, events := seq(25, (i: nat) => RaceState(i)), seq(24, (i: nat) => RaceEvent(i));
    assert RaceState(0).tasks == Booted(START, true, false, None, 0.0, []).tasks;
    forall i | 0 <= i < 24 ensures Next(run[i], events[i]) == Some(run[i + 1]) { RaceSteps(i); }
    hide Next;
    assert IsRun(run, events);
    forall i | 0 <= i < 24 && EndsRun(run[i], events[i]) ensures NoCancelWait(run[i].tasks) { RaceEnds(i); }
    var log := run[24].log;
    assert log[1].RunEnds? && log[2].RunBegins? && log[2].byPeriodic && log[1].at + INTERVAL > log[2].at;
  }

  // ---------------------------------------------------------------- shutdown and coalescing

  function Closing(serving: bool, active: bool, async: Option<nat>, handle: Option<nat>, ended: bool,
                   owner: Option<nat>, tasks: seq<Task>): State {
    State(0.0, serving, "inactive", active, async, handle, if ended then 3600.0 else 20.0, true, false,
          if ended then Some(0.0) else None, if ended then Some(0.0) else None, 0.0, 0.0, tasks, owner,
          (if owner.Some? then [RunBegins(0.0, false)] else []) + (if ended then [RunEnds(0.0)] else []))
  }

  const QUEUED := T(TriggerQueued)
  const STOP := T(ShutdownWait(2))

  /**
   * `shutdown` waits for the async trigger (task 2) and then clears `_async_trigger`, by which time it names
   * a newer, queued one (task 5); the next call queues another (task 7).
   */
  function ClosingState(i: nat): State {
    match i
    case 0 => Closing(true, false, None, Some(0), false, None, [FRESH])
    case 1 => Closing(true, false, Some(2), Some(0), false, None, [FRESH, FIN, QUEUED])
    case 2 => Closing(false, false, Some(2), Some(0), false, None, [FRESH, FIN, QUEUED, STOP])
    case 3 => Closing(false, true, Some(2), Some(0), false, Some(2), [FRESH, FIN, T(TriggerRun), STOP])
    case 4 => Closing(false, true, Some(2), Some(0), true, Some(2), [DOOMED, FIN, T(TriggerReplace(0)), STOP])
    case 5 => Closing(false, true, Some(2), Some(0), true, Some(2), [GONE, FIN, T(TriggerReplace(0)), STOP])
    case 6 => Closing(false, false, None, Some(0), true, Some(2), [GONE, FIN, FIN, STOP])
    case 7 => Closing(false, false, Some(5), Some(0), true, Some(2), [GONE, FIN, FIN, STOP, FIN, QUEUED])
    case 8 => Closing(false, false, None, None, true, Some(2), [GONE, FIN, FIN, FIN, FIN, QUEUED])
    case _ => Closing(false, false, Some(7), None, true, Some(2), [GONE, FIN, FIN, FIN, FIN, QUEUED, FIN, QUEUED])
  }

  function ClosingEvent(i: nat): Event {
    match i
    case 0 => Call(Trigger(false), true)
    case 1 => Call(Shutdown, true)
    case 2 => Resume(2, Completed, true)
    case 3 => Resume(2, Completed, true)
    case 4 => Resume(0, Cancelled, true)
    case 5 => Resume(2, Cancelled, true)
    case 6 => Call(Trigger(false), true)
    case 7 => Resume(3, Completed, true)
    case _ => Call(Trigger(false), true)
  }

  lemma ClosingStepsA(i: nat)
    requires i < 3
    ensures Next(ClosingState(i), ClosingEvent(i)) == Some(ClosingState(i + 1))
  {
    var s := Next(ClosingState(i), ClosingEvent(i)).value;
    assert s.tasks == ClosingState(i + 1).tasks && s.log == ClosingState(i + 1).log;
  }

  lemma ClosingStepsB(i: nat)
    requires 3 <= i < 6
    ensures Next(ClosingState(i), ClosingEvent(i)) == Some(ClosingState(i + 1))
  {
    var s := Next(ClosingState(i), ClosingEvent(i)).value;
    assert s.tasks == ClosingState(i + 1).tasks && s.log == ClosingState(i + 1).log;
  }

  lemma ClosingStepsC(i: nat)
    requires 6 <= i < 9
    ensures Next(ClosingState(i), ClosingEvent(i)) == Some(ClosingState(i + 1))
  {
    var s := Next(ClosingState(i), ClosingEvent(i)).value;
    assert s.tasks == ClosingState(i + 1).tasks && s.log == ClosingState(i + 1).log;
  }

  /** With a shutdown in the run, two `_trigger` coroutines can be queued at once. */
  lemma ShutdownRace() returns (run: seq<State>, events: seq<Event>)
    ensures IsRun(run, events)
    ensures exists t, u | 0 <= t < u < |run[|events|].tasks| ::
              Live(run[|events|].tasks[t].at) && Live(run[|events|].tasks[u].at)
  {
    run, events := seq(10, (i: nat) => ClosingState(i)), seq(9, (i: nat) => ClosingEvent(i));
    assert ClosingState(0).tasks == Booted(0.0, true, false, None, 0.0, []).tasks;
    forall i | 0 <= i < 9 ensures Next(run[i], events[i]) == Some(run[i + 1]) {
      if i < 3 { ClosingStepsA(i); } else if i < 6 { ClosingStepsB(i); } else { ClosingStepsC(i); }
    }
    hide Next;
    var ts := run[9].tasks;
    assert Live(ts[5].at) && Live(ts[7].at);
  }
}
