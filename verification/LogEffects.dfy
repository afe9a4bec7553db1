/**
 * What each event must do to the files and to the call it belongs to.  LogLifecycle says what may happen
 * to a file; here are the moves and submissions that an answer or a call brings about.
 */
module LogEffects {
  import opened Prelude
  import opened LogLifecycle

  /** The call that is submitting `n` is answered `how`. */
  predicate AnswersFor(s: State, e: Event, n: Name, how: Ending) {
    e.Resume? && e.how == how && e.call in s.calls && s.calls[e.call].Submitting? && s.calls[e.call].logs != []
    && s.calls[e.call].logs[0] == n
  }

  predicate Hidden(n: Name) {
    n != [] && n[0] == '.'
  }

  /** The call `c` is submitting the first of these logs that is not hidden, or is over if there is none. */
  ghost predicate SubmitsFirst(s: State, c: CallId, logs: seq<Name>) {
    exists j :: 0 <= j <= |logs| && SubmitsAt(s, c, logs, j)
  }

  predicate SubmitsAt(s: State, c: CallId, logs: seq<Name>, j: nat)
    requires j <= |logs|
  {
    && (forall i | 0 <= i < j :: Hidden(logs[i]))
    && if j == |logs| then c !in s.calls && s.lock.None?
       else
         && !Hidden(logs[j]) && s.lock == Some(c) && c in s.calls
         && s.calls[c] == Submitting(false, logs[j..], if logs[j] in s.pending then Some(s.pending[logs[j]]) else None)
  }

  // ---------------------------------------------------------------- the next log

  lemma {:induction false} VisibleIs(logs: seq<Name>) returns (j: nat)
    ensures j <= |logs| && Visible(logs) == logs[j..]
    ensures (forall i | 0 <= i < j :: Hidden(logs[i])) && (j < |logs| ==> !Hidden(logs[j]))
  {
    j := 0;
    if logs != [] && Hidden(logs[0]) {
      var k := VisibleIs(logs[1..]);
      j := k + 1;
      assert logs[1..][k..] == logs[j..];
      assert forall i | 0 < i < j :: logs[i] == logs[1..][i - 1];
    }
  }

  lemma ContinueSubmits(s: State, c: CallId, logs: seq<Name>)
    requires s.lock == Some(c) && c !in s.calls
    ensures SubmitsFirst(Continue(s, c, logs), c, logs)
  {
    var j := VisibleIs(logs);
    ContinueAt(s, c, logs, j);
    hide Continue, SubmitsAt, Visible;
    assert SubmitsAt(Continue(s, c, logs), c, logs, j);
  }

  lemma ContinueAt(s: State, c: CallId, logs: seq<Name>, j: nat)
    requires s.lock == Some(c) && c !in s.calls && j <= |logs| && Visible(logs) == logs[j..]
    requires (forall i | 0 <= i < j :: Hidden(logs[i])) && (j < |logs| ==> !Hidden(logs[j]))
    ensures SubmitsAt(Continue(s, c, logs), c, logs, j)
  {
    hide Visible, Hidden;
    if j < |logs| { assert logs[j..][0] == logs[j]; }
  }

  /** A call that finds the lock free takes it and submits its first visible log; otherwise it does nothing. */
  lemma SubmitStarts(run: seq<State>, events: seq<Event>, k: nat, logs: seq<Name>)
    requires IsRun(run, events) && k < |run|
    ensures Next(run[k], StartSubmit(logs)).Some?
    ensures var s, s' := run[k], Next(run[k], StartSubmit(logs)).value;
            if s.lock.Some? then s' == s
            else SubmitsFirst(s', s.nextCall, logs) && s'.pending == s.pending && s'.nextCall == s.nextCall + 1
  {
    var s := run[k];
    RunSafe(false, run, events, k);
    assert s.nextCall !in s.calls;
    hide Safe;
    ContinueSubmits(s.(lock := Some(s.nextCall), nextCall := s.nextCall + 1), s.nextCall, logs);
    hide SubmitsFirst;
  }

  /**
   * After any answer but CLASS_ERROR, an exception included, submit_category goes on with the next visible
   * log, or is over and releases the lock if there is none.
   */
  lemma SubmitGoesOn(run: seq<State>, events: seq<Event>, k: nat, n: Name, how: Ending)
    requires IsRun(run, events) && k < |events| && AnswersFor(run[k], events[k], n, how)
    requires !run[k].calls[events[k].call].report && !how.Cancelled? && how != Returned(CLASS_ERROR)
    ensures SubmitsFirst(run[k + 1], events[k].call, run[k].calls[events[k].call].logs[1..])
  {
    var s, e := run[k], events[k];
    RunSafe(false, run, events, k);
    ResumeFacts(false, s, e.call);
    assert Next(s, e) == Some(run[k + 1]);
    var w := s.calls[e.call];
    var s1 := Settled(s.(calls := s.calls - {e.call}), w.logs[0], w.file, how, e.moves);
    assert run[k + 1] == Continue(s1, e.call, w.logs[1..]);
    hide Safe, Settled, Continue, SubmitsFirst;
    ContinueSubmits(s1, e.call, w.logs[1..]);
  }

  /** CLASS_ERROR, a cancellation and the end of a report release the lock and end the call. */
  lemma CallEnds(run: seq<State>, events: seq<Event>, k: nat, n: Name, how: Ending)
    requires IsRun(run, events) && k < |events| && AnswersFor(run[k], events[k], n, how)
    requires run[k].calls[events[k].call].report || how.Cancelled? || how == Returned(CLASS_ERROR)
    ensures run[k + 1].lock.None? && events[k].call !in run[k + 1].calls
  {
    assert Next(run[k], events[k]) == Some(run[k + 1]);
  }

  // ---------------------------------------------------------------- the files

  /** The state after the answer is settled, with the call no longer suspended. */
  function Answered(s: State, e: Event): State
    requires e.Resume? && e.call in s.calls && s.calls[e.call].Submitting? && s.calls[e.call].logs != []
  {
    var w := s.calls[e.call];
    Settled(s.(calls := s.calls - {e.call}), w.logs[0], w.file, e.how, e.moves)
  }

  /** What follows the settling of submit_category moves no file. */
  lemma CategoryAnswered(s: State, e: Event)
    requires Next(s, e).Some? && e.Resume? && e.call in s.calls && s.calls[e.call].Submitting?
    requires s.calls[e.call].logs != [] && !s.calls[e.call].report
    ensures var s', s1 := Next(s, e).value, Answered(s, e);
            s'.pending == s1.pending && s'.uploaded == s1.uploaded && s'.failed == s1.failed && s'.fate == s1.fate
            && s'.accepted == s1.accepted
  {
    var w, s1 := s.calls[e.call], Answered(s, e);
    ContinueFrame(s1, e.call, w.logs[1..]);
    assert Next(s, e) == Some(Resumed(s, e.call, e.how, e.moves, e.cleanup));
    hide Next, Settled, Continue, ReportDone;
  }

  lemma ContinueFrame(s: State, c: CallId, logs: seq<Name>)
    ensures var s' := Continue(s, c, logs);
            s'.pending == s.pending && s'.uploaded == s.uploaded && s'.failed == s.failed && s'.fate == s.fate
            && s'.accepted == s.accepted
  {
  }

  lemma ReportAnswered(s: State, e: Event)
    requires Next(s, e).Some? && e.Resume? && e.call in s.calls && s.calls[e.call].Submitting?
    requires s.calls[e.call].logs != [] && s.calls[e.call].report && !e.how.Cancelled?
    ensures var n := s.calls[e.call].logs[0];
            Next(s, e).value == ReportDone(Answered(s, e).(lock := None), e.call, n,
                                           e.how == Returned(OK) && CanMove(s, n, e.moves), e.cleanup)
  {
    hide Settled, ReportDone;
  }

  lemma SettledPermanent(s: State, n: Name, file: Option<Instance>)
    requires n in s.pending
    ensures var s' := Settled(s, n, file, Returned(PERMANENT_ERROR), true);
            && n !in s'.pending && n in s'.failed && s'.failed[n] == s.pending[n]
            && s.pending[n] in s'.fate && s'.fate[s.pending[n]] == Failed(n, true)
  {
  }

  lemma SettledOk(s: State, n: Name)
    requires n in s.pending
    ensures var s' := Settled(s, n, Some(s.pending[n]), Returned(OK), true);
            && n !in s'.pending && n in s'.uploaded && s'.uploaded[n] == s.pending[n]
            && s.pending[n] in s'.fate && s'.fate[s.pending[n]] == Uploaded(n)
            && s'.accepted[s.pending[n]] == s.accepted[s.pending[n]] + 1
  {
  }

  lemma SettledStays(s: State, n: Name, file: Option<Instance>, how: Ending, moves: bool)
    requires (how != Returned(OK) && how != Returned(PERMANENT_ERROR)) || !moves
    ensures var s' := Settled(s, n, file, how, moves);
            s'.pending == s.pending && s'.uploaded == s.uploaded && s'.failed == s.failed && s'.fate == s.fate
  {
  }

  lemma ReportDoneIs(s: State, c: CallId, n: Name, sent: bool, cleanup: bool)
    ensures var s' := ReportDone(s, c, n, sent, cleanup);
            && c in s'.replies && s'.replies[c] == (if sent then Sent else NotSent)
            && s'.uploaded == s.uploaded && s'.accepted == s.accepted
            && if !sent && cleanup && n in s.pending then
                 n !in s'.pending && n in s'.failed && s'.failed[n] == s.pending[n]
               else s'.pending == s.pending && s'.failed == s.failed && s'.fate == s.fate
  {
  }

  /** After PERMANENT_ERROR a file that can be moved is in `failed`, for good. */
  lemma PermanentErrorFails(run: seq<State>, events: seq<Event>, k: nat, n: Name)
    requires IsRun(run, events) && k < |events| && n in run[k].pending
    requires AnswersFor(run[k], events[k], n, Returned(PERMANENT_ERROR)) && events[k].moves
    ensures var s, s' := run[k], run[k + 1];
            && n !in s'.pending && n in s'.failed && s'.failed[n] == s.pending[n]
            && s.pending[n] in s'.fate && s'.fate[s.pending[n]] == Failed(n, true)
  {
    var s, e := run[k], events[k];
    assert Next(s, e) == Some(run[k + 1]);
    var w := s.calls[e.call];
    SettledPermanent(s.(calls := s.calls - {e.call}), n, w.file);
    if w.report {
      ReportAnswered(s, e);
      ReportDoneIs(Answered(s, e).(lock := None), e.call, n, false, e.cleanup);
    } else {
      CategoryAnswered(s, e);
    }
    hide Next, Settled, ReportDone;
  }

  lemma FileIs(run: seq<State>, events: seq<Event>, k: nat, n: Name, how: Ending)
    requires IsRun(run, events) && k < |events| && AnswersFor(run[k], events[k], n, how)
    ensures var w := run[k].calls[events[k].call];
            && (w.file.Some? ==> n in run[k].pending && w.file == Some(run[k].pending[n]))
            && (how == Returned(OK) || w.report ==> w.file.Some?)
  {
    RunSafe(false, run, events, k);
    ResumeFacts(false, run[k], events[k].call);
    hide Safe;
    assert Next(run[k], events[k]) == Some(run[k + 1]);
    hide Resumed;
  }

  /** After OK a file that can be moved is in `uploaded`. */
  lemma OkUploads(run: seq<State>, events: seq<Event>, k: nat, n: Name)
    requires IsRun(run, events) && k < |events|
    requires AnswersFor(run[k], events[k], n, Returned(OK)) && events[k].moves
    ensures n in run[k].pending
    ensures var s, s' := run[k], run[k + 1];
            && n !in s'.pending && n in s'.uploaded && s'.uploaded[n] == s.pending[n]
            && s'.accepted[s.pending[n]] == s.accepted[s.pending[n]] + 1
  {
    var s, e := run[k], events[k];
    FileIs(run, events, k, n, e.how);
    assert Next(s, e) == Some(run[k + 1]);
    SettledOk(s.(calls := s.calls - {e.call}), n);
    if s.calls[e.call].report {
      ReportAnswered(s, e);
      ReportDoneIs(Answered(s, e).(lock := None), e.call, n, true, e.cleanup);
    } else {
      CategoryAnswered(s, e);
    }
    hide Next, Settled, ReportDone;
  }

  /** After any other answer, or when os.replace fails, submit_category leaves all files where they are. */
  lemma OthersStay(run: seq<State>, events: seq<Event>, k: nat, n: Name, how: Ending)
    requires IsRun(run, events) && k < |events| && AnswersFor(run[k], events[k], n, how)
    requires !run[k].calls[events[k].call].report
    requires (how != Returned(OK) && how != Returned(PERMANENT_ERROR)) || !events[k].moves
    ensures var s, s' := run[k], run[k + 1];
            s'.pending == s.pending && s'.uploaded == s.uploaded && s'.failed == s.failed && s'.fate == s.fate
  {
    var s, e := run[k], events[k];
    assert Next(s, e) == Some(run[k + 1]);
    SettledStays(s.(calls := s.calls - {e.call}), n, s.calls[e.call].file, how, e.moves);
    CategoryAnswered(s, e);
    hide Next, Settled;
  }

  // ---------------------------------------------------------------- reports

  /** `send_report` puts the report into `pending` and submits it under the lock. */
  lemma ReportStarts(s: State, n: Name, cleanup: bool)
    requires n !in s.pending && s.lock.None?
    ensures Next(s, StartReport(n, cleanup)).Some?
    ensures var s', c, i := Next(s, StartReport(n, cleanup)).value, s.nextCall, s.nextFile;
            && c in s'.reports && s'.reports[c] == (n, i) && s'.nextCall == c + 1 && s'.nextFile == i + 1
            && s'.lock == Some(c) && c in s'.calls && s'.calls[c] == Submitting(true, [n], Some(i))
            && n in s'.pending && s'.pending[n] == i
  {
    hide ReportDone;
  }

  /** Without the lock it gives up, and moves the report to `failed` if that works. */
  lemma ReportGivesUp(s: State, n: Name, cleanup: bool)
    requires n !in s.pending && s.lock.Some?
    ensures Next(s, StartReport(n, cleanup)).Some?
    ensures var s', c, i := Next(s, StartReport(n, cleanup)).value, s.nextCall, s.nextFile;
            && c in s'.reports && s'.reports[c] == (n, i) && s'.nextCall == c + 1
            && s'.lock == s.lock && s'.calls == s.calls && c in s'.replies && s'.replies[c] == NotSent
            && if cleanup then n !in s'.pending && n in s'.failed && s'.failed[n] == i
               else n in s'.pending && s'.pending[n] == i
  {
    var c, i := s.nextCall, s.nextFile;
    var s1 := Arrived(s, n).(reports := s.reports[c := (n, i)], nextCall := c + 1);
    assert Next(s, StartReport(n, cleanup)) == Some(ReportDone(s1, c, n, false, cleanup));
    ReportDoneIs(s1, c, n, false, cleanup);
    hide Next, ReportDone;
  }

  /**
   * When `submit` of a report is over, its id is returned exactly after OK and a working move; otherwise the
   * report is moved to `failed`, if one of the moves works, and else it stays.
   */
  lemma ReportEnds(run: seq<State>, events: seq<Event>, k: nat, n: Name, how: Ending)
    requires IsRun(run, events) && k < |events| && AnswersFor(run[k], events[k], n, how) && !how.Cancelled?
    requires run[k].calls[events[k].call].report
    ensures n in run[k].pending
    ensures var s, s', c, i := run[k], run[k + 1], events[k].call, run[k].pending[n];
            var sent := how == Returned(OK) && events[k].moves;
            && c in s'.replies && (s'.replies[c] == if sent then Sent else NotSent)
            && (sent ==> n in s'.uploaded && s'.uploaded[n] == i && n !in s'.pending)
            && (!sent && (events[k].cleanup || (how == Returned(PERMANENT_ERROR) && events[k].moves)) ==>
                  n in s'.failed && s'.failed[n] == i && n !in s'.pending)
            && (!events[k].moves && !events[k].cleanup ==> n in s'.pending && s'.pending[n] == i)
  {
    var s, e := run[k], events[k];
    var s0 := s.(calls := s.calls - {e.call});
    FileIs(run, events, k, n, how);
    assert Next(s, e) == Some(run[k + 1]);
    ReportAnswered(s, e);
    ReportDoneIs(Answered(s, e).(lock := None), e.call, n, how == Returned(OK) && e.moves, e.cleanup);
    if how == Returned(OK) && e.moves { SettledOk(s0, n); }
    else if how == Returned(PERMANENT_ERROR) && e.moves { SettledPermanent(s0, n, s.calls[e.call].file); }
    else { SettledStays(s0, n, s.calls[e.call].file, how, e.moves); }
    hide Next, Settled, ReportDone;
  }

  // ---------------------------------------------------------------- collecting

  /** Collecting takes the lock if it is free and keeps it until it is over. */
  lemma CollectHoldsLock(s: State)
    ensures Next(s, StartCollect).Some?
    ensures var s', c := Next(s, StartCollect).value, s.nextCall;
            if s.lock.Some? then s' == s
            else
              && s'.lock == Some(c) && c in s'.calls && s'.calls[c] == Collecting
              && Next(s', EndCollect(c)).Some? && Next(s', EndCollect(c)).value.lock.None?
              && c !in Next(s', EndCollect(c)).value.calls
  {
  }
}
