/**
 * The daemon object.  Every method is the code of daemon.py between two awaits, run by task `me`, in the
 * order of the source; its contract is the corresponding function of DaemonSchedule on the old state.
 */
module Daemon {
  import opened Prelude
  import S = DaemonSchedule

  class Daemon {
    var serving: bool
    var suspend: string
    var triggerActive: bool
    var asyncTrigger: Option<nat>
    var periodicTask: Option<nat>
    var nextTrigger: S.Time
    // the configuration
    var enabled: bool
    var inhibited: bool
    var lastTrigger: Option<S.Time>
    var saved: Option<S.Time>
    var listed: S.Time
    var savedListed: S.Time
    // the event loop
    var now: S.Time
    var tasks: seq<S.Task>
    ghost var owner: Option<nat>
    ghost var log: seq<S.Mark>

    ghost predicate Valid()
      reads this
    {
      periodicTask.Some? ==> periodicTask.value < |tasks|
    }

    ghost function View(): S.State
      reads this
    {
      S.State(now, serving, suspend, triggerActive, asyncTrigger, periodicTask, nextTrigger, enabled, inhibited,
              lastTrigger, saved, listed, savedListed, tasks, owner, log)
    }

    /** `__init__` followed by `start`. */
    constructor (now: S.Time, enabled: bool, inhibited: bool, saved: Option<S.Time>, listed: S.Time)
      ensures Valid() && View() == S.Booted(now, enabled, inhibited, saved, listed, [])
    {
      this.now, this.enabled, this.inhibited := now, enabled, inhibited;
      this.lastTrigger, this.saved, this.listed, this.savedListed := saved, saved, listed, listed;
      suspend, triggerActive, asyncTrigger, periodicTask := "inactive", false, None, None;
      tasks, owner, log := [], None, [];
      serving := true;
      var next := now + S.STARTUP;
      if saved.Some? {
        var after := saved.value + S.INTERVAL;
        if after > next { next := after; }
      }
      nextTrigger := next;
      new;
      if !inhibited && enabled { CreatePeriodic(); }
    }

    method WriteConfig()
      modifies this`saved, this`savedListed
      ensures View() == S.Written(old(View()))
    {
      saved, savedListed := lastTrigger, listed;
    }

    method CreatePeriodic()
      modifies this
      ensures Valid() && View() == S.InstallPeriodic(old(View()))
    {
      periodicTask := Some(|tasks|);
      tasks := tasks + [S.Task(S.PeriodicStart, false)];
    }

    method Suspend(me: nat, p: S.Point)
      requires me < |tasks| && Valid()
      modifies this
      ensures Valid() && View() == S.Move(old(View()), me, p)
    {
      tasks := tasks[me := tasks[me].(at := p)];
    }

    method Return(me: nat, how: S.Outcome)
      requires me < |tasks| && Valid()
      modifies this
      ensures Valid() && View() == S.Finish(old(View()), me, how)
    {
      Suspend(me, S.Done(how));
    }

    method RequestCancel(t: nat)
      requires Valid()
      modifies this
      ensures Valid() && View() == S.Cancel(old(View()), t)
    {
      if t < |tasks| && S.Armable(tasks[t].at) {
        tasks := tasks[t := tasks[t].(doomed := true)];
      }
    }

    function Result(t: nat): Option<S.Outcome>
      reads this
      ensures Result(t) == S.Result(View(), t)
    {
      if t < |tasks| && tasks[t].at.Done? then Some(tasks[t].at.how) else None
    }

    method AfterCancel(me: nat, reschedule: bool)
      requires me < |tasks| && Valid()
      modifies this
      ensures Valid() && View() == S.AfterCancel(old(View()), me, reschedule)
    {
      if reschedule && enabled && !inhibited && periodicTask.None? { CreatePeriodic(); }
      Return(me, S.Completed);
    }

    method CancelPeriodic(me: nat, reschedule: bool)
      requires me < |tasks| && Valid()
      modifies this
      ensures Valid() && View() == S.CancelPeriodic(old(View()), me, reschedule)
    {
      if periodicTask.None? {
        AfterCancel(me, reschedule);
        return;
      }
      var p := periodicTask.value;
      RequestCancel(p);
      var result := Result(p);
      if result.None? {
        Suspend(me, S.CancelWait(p, reschedule));
      } else if result.value.Failed? {
        Return(me, S.Failed);
      } else {
        periodicTask := None;
        AfterCancel(me, reschedule);
      }
    }

    method UpdateSchedule(me: nat)
      requires me < |tasks| && Valid()
      modifies this
      ensures Valid() && View() == S.UpdateSchedule(old(View()), me)
    {
      if inhibited || !enabled {
        CancelPeriodic(me, false);
      } else {
        if periodicTask.None? { CreatePeriodic(); }
        Return(me, S.Completed);
      }
    }

    /** Lines 192 to 199. */
    method TriggerBody(me: nat, ghost byPeriodic: bool)
      requires me < |tasks| && Valid()
      modifies this
      ensures Valid() && View() == S.TriggerBody(old(View()), me, byPeriodic)
    {
      if inhibited || !enabled || triggerActive {
        asyncTrigger := None;
        Return(me, S.Completed);
        return;
      }
      triggerActive := true;
      owner, log := Some(me), log + [S.RunBegins(now, byPeriodic)];
      Suspend(me, S.TriggerRun);
    }

    method Release(me: nat)
      requires me < |tasks| && Valid()
      modifies this
      ensures Valid() && View() == S.Release(old(View()), me)
    {
      triggerActive := false;
      asyncTrigger := None;
      Return(me, S.Completed);
    }

    /** Lines 200 to 208. */
    method Handover() returns (task: Option<nat>)
      requires Valid()
      modifies this
      ensures Valid() && View() == S.Handover(old(View())) && task == old(periodicTask)
    {
      ghost var s := View();
      lastTrigger := Some(now);
      WriteConfig();
      log := log + [S.RunEnds(now)];
      nextTrigger := now + S.INTERVAL;
      assert View() == S.Ended(s);
      S.HandoverInOrder(s);
      hide S.Handover, S.Ended, S.Cancel;
      task := periodicTask;
      if serving { CreatePeriodic(); }
      if task.Some? { RequestCancel(task.value); }
    }

    /** Lines 209 to 214. */
    method AwaitReplaced(me: nat, task: Option<nat>)
      requires me < |tasks| && Valid()
      modifies this
      ensures Valid() && View() == S.AwaitReplaced(old(View()), me, task)
    {
      if task.Some? {
        var result := Result(task.value);
        if result.None? {
          Suspend(me, S.TriggerReplace(task.value));
          return;
        } else if result.value.Failed? {
          Return(me, S.Failed);
          return;
        }
      }
      Release(me);
    }

    method RunDone(me: nat, writes: bool)
      requires me < |tasks| && Valid()
      modifies this
      ensures Valid() && View() == S.RunDone(old(View()), me, writes)
    {
      if !writes {
        lastTrigger := Some(now);
        Return(me, S.Failed);
        return;
      }
      var task := Handover();
      AwaitReplaced(me, task);
    }

    method JoinTrigger(me: nat, on: nat, checked: bool)
      requires me < |tasks| && Valid()
      modifies this
      ensures Valid() && View() == S.JoinTrigger(old(View()), me, on, checked)
    {
      var result := Result(on);
      if result.None? {
        Suspend(me, S.TriggerWait(on, checked));
      } else if checked && result.value.Completed? && triggerActive {
        Return(me, S.Failed);
      } else {
        Return(me, result.value);
      }
    }

    /** Lines 217 to 237. */
    method Trigger(me: nat, wait: bool, ghost byPeriodic: bool)
      requires me < |tasks| && Valid()
      modifies this
      ensures Valid() && View() == S.TriggerCall(old(View()), me, wait, byPeriodic)
    {
      if inhibited || !enabled {
        Return(me, S.Completed);
        return;
      }
      if triggerActive {
        var stored := if asyncTrigger.Some? then asyncTrigger else periodicTask;
        if wait && stored.Some? { JoinTrigger(me, stored.value, true); } else { Return(me, S.Completed); }
        return;
      }
      if asyncTrigger.Some? {
        if wait { JoinTrigger(me, asyncTrigger.value, false); } else { Return(me, S.Completed); }
        return;
      }
      if wait {
        TriggerBody(me, byPeriodic);
      } else {
        asyncTrigger := Some(|tasks|);
        tasks := tasks + [S.Task(S.TriggerQueued, false)];
        Return(me, S.Completed);
      }
    }

    /** Lines 72 to 81, and what follows when the list is recent. */
    method Woken(me: nat)
      requires me < |tasks| && Valid()
      modifies this
      ensures Valid() && View() == S.Woken(old(View()), me)
    {
      if listed + S.APPLIST_UPDATE_INTERVAL <= now { Suspend(me, S.PeriodicAppList); } else { Poll(me); }
    }

    /** Lines 85 to 87. */
    method Poll(me: nat)
      requires me < |tasks| && Valid()
      modifies this
      ensures Valid() && View() == S.Poll(old(View()), me)
    {
      if serving { Trigger(me, true, true); } else { Return(me, S.Completed); }
    }

    /** Lines 82 to 84. */
    method Listed(me: nat, writes: bool)
      requires me < |tasks| && Valid()
      modifies this
      ensures Valid() && View() == S.Listed(old(View()), me, writes)
    {
      listed := now;
      if !writes {
        Return(me, S.Failed);
        return;
      }
      WriteConfig();
      Poll(me);
    }

    /** Lines 67 to 70. */
    method PeriodicBody(me: nat)
      requires me < |tasks| && Valid()
      modifies this
      ensures Valid() && View() == S.PeriodicBody(old(View()), me)
    {
      var nextInterval := nextTrigger - now;
      if nextInterval > 0.0 { Suspend(me, S.PeriodicSleep(now + nextInterval)); } else { Woken(me); }
    }

    method StoreFlag(me: nat, flag: S.Flag, value: bool, writes: bool)
      requires me < |tasks| && Valid()
      modifies this
      ensures Valid() && View() == S.StoreFlag(old(View()), me, flag, value, writes)
    {
      if flag.EnableFlag? { enabled := value; } else { inhibited := value; }
      if !writes {
        Return(me, S.Failed);
        return;
      }
      WriteConfig();
      UpdateSchedule(me);
    }

    /** `enable` and `inhibit`: lines 243 to 249 and 257 to 263. */
    method SetFlag(me: nat, flag: S.Flag, value: bool, writes: bool)
      requires me < |tasks| && Valid()
      modifies this
      ensures Valid() && View() == S.FlagCall(old(View()), me, flag, value, writes)
    {
      if (if flag.EnableFlag? then enabled else inhibited) == value {
        Return(me, S.Completed);
        return;
      }
      if value == flag.InhibitFlag? && asyncTrigger.Some? {
        var result := Result(asyncTrigger.value);
        if result != Some(S.Completed) {
          if result.None? { Suspend(me, S.FlagWait(asyncTrigger.value, flag, value)); }
          else { Return(me, result.value); }
          return;
        }
      }
      StoreFlag(me, flag, value, writes);
    }

    /** Lines 118 to 126. */
    method LeaveSuspend(me: nat, value: string)
      requires me < |tasks| && Valid()
      modifies this
      ensures Valid() && View() == S.SuspendCall(old(View()), me, value)
    {
      if value == suspend {
        Return(me, S.Completed);
        return;
      }
      suspend := value;
      if value == "inactive" && !triggerActive {
        Suspend(me, S.LeaveDelay(now + S.WAKEUP_DELAY));
      } else {
        Return(me, S.Completed);
      }
    }

    /** Lines 166 to 170. */
    method Shutdown(me: nat)
      requires me < |tasks| && Valid()
      modifies this
      ensures Valid() && View() == S.ShutdownCall(old(View()), me)
    {
      serving := false;
      if asyncTrigger.Some? {
        var result := Result(asyncTrigger.value);
        if result != Some(S.Completed) {
          if result.None? { Suspend(me, S.ShutdownWait(asyncTrigger.value)); }
          else { Return(me, result.value); }
          return;
        }
        asyncTrigger := None;
      }
      CancelPeriodic(me, false);
    }

    method Continue(me: nat, at: S.Point, writes: bool)
      requires me < |tasks| && Valid()
      modifies this
      ensures Valid() && View() == S.Continued(old(View()), me, at, writes)
    {
      hide S.PeriodicBody, S.Woken, S.Listed, S.TriggerBody, S.RunDone, S.Release, S.AfterCancel, S.CancelPeriodic,
           S.StoreFlag;
      match at
      case PeriodicStart => PeriodicBody(me);
      case PeriodicSleep(_) => Woken(me);
      case PeriodicAppList => Listed(me, writes);
      case TriggerQueued => TriggerBody(me, false);
      case TriggerRun => RunDone(me, writes);
      case TriggerReplace(_) => Release(me);
      case TriggerWait(_, checked) => Return(me, if checked && triggerActive then S.Failed else S.Completed);
      case CancelWait(_, reschedule) => periodicTask := None; AfterCancel(me, reschedule);
      case LeaveDelay(_) => CancelPeriodic(me, true);
      case FlagWait(_, flag, value) => StoreFlag(me, flag, value, writes);
      case ShutdownWait(_) => asyncTrigger := None; CancelPeriodic(me, false);
      case _ =>
    }

    /** The event loop hands one event to the daemon; a restart makes a new object instead. */
    method Step(e: S.Event)
      requires Valid() && !e.Restart? && S.Next(View(), e).Some?
      modifies this
      ensures Valid() && S.Next(old(View()), e) == Some(View())
    {
      match e
      case Tick(elapsed) => now := now + elapsed;
      case Save => WriteConfig();
      case Call(op, writes) =>
        var me := |tasks|;
        tasks := tasks + [S.Task(S.Executing, false)];
        match op {
          case Trigger(wait) => Trigger(me, wait, false);
          case SetFlag(flag, value) => SetFlag(me, flag, value, writes);
          case SuspendChanged(value) => LeaveSuspend(me, value);
          case Shutdown => Shutdown(me);
        }
      case Resume(me, how, writes) =>
        var at := tasks[me].at;
        Suspend(me, S.Executing);
        if how.Completed? || (how.Cancelled? && (at.TriggerReplace? || at.CancelWait?)) {
          Continue(me, at, writes);
        } else {
          Return(me, how);
        }
    }
  }
}
