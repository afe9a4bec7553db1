/**
 * `submit_category`, `collect_category` and `send_report` in the form of runner.py and sysreport.py: each
 * method is the code a call runs between two awaits, on the directories and the lock it shares with others.
 */
module Runner {
  import opened Prelude
  import L = LogLifecycle

  class Helper {
    var pending: map<L.Name, L.Instance>
    var uploaded: map<L.Name, L.Instance>
    var failed: map<L.Name, L.Instance>
    var lock: Option<L.CallId>
    var calls: map<L.CallId, L.Work>
    var nextFile: L.Instance
    var nextCall: L.CallId
    ghost var fate: map<L.Instance, L.Fate>
    ghost var accepted: multiset<L.Instance>
    ghost var stuck: multiset<L.Instance>
    ghost var reports: map<L.CallId, (L.Name, L.Instance)>
    ghost var replies: map<L.CallId, L.Reply>

    ghost function View(): L.State
      reads this
    {
      L.State(pending, uploaded, failed, lock, calls, nextFile, nextCall, fate, accepted, stuck, reports, replies)
    }

    /** `continue` on names that start with a dot. */
    method SkipHidden(logs: seq<L.Name>) returns (rest: seq<L.Name>)
      ensures rest == L.Visible(logs)
    {
      rest := logs;
      while rest != [] && rest[0] != [] && rest[0][0] == '.'
        invariant L.Visible(rest) == L.Visible(logs)
      {
        rest := rest[1..];
      }
    }

    /** The next iteration of the loop over the logs, up to the await. */
    method Continue(c: L.CallId, logs: seq<L.Name>)
      modifies this
      ensures View() == L.Continue(old(View()), c, logs)
    {
      var rest := SkipHidden(logs);
      if rest == [] {
        lock := None;
      } else {
        var file := if rest[0] in pending then Some(pending[rest[0]]) else None;
        calls := calls[c := L.Submitting(false, rest, file)];
      }
    }

    /** os.replace from `pending`; false stands for OSError. */
    method Replace(n: L.Name, toUploaded: bool, works: bool, ghost f: L.Fate) returns (moved: bool)
      modifies this`pending, this`uploaded, this`failed, this`fate
      ensures moved == L.CanMove(old(View()), n, works)
      ensures !moved ==> View() == old(View())
      ensures moved ==> pending == old(pending) - {n} && fate == old(fate)[old(pending)[n] := f]
      ensures moved && toUploaded ==> uploaded == old(uploaded)[n := old(pending)[n]] && failed == old(failed)
      ensures moved && !toUploaded ==> failed == old(failed)[n := old(pending)[n]] && uploaded == old(uploaded)
    {
      moved := works && n in pending;
      if moved {
        var file := pending[n];
        pending := pending - {n};
        if toUploaded { uploaded := uploaded[n := file]; } else { failed := failed[n := file]; }
        fate := fate[file := f];
      }
    }

    method Settle(n: L.Name, file: Option<L.Instance>, how: L.Ending, moves: bool) returns (sent: bool)
      modifies this
      ensures View() == L.Settled(old(View()), n, file, how, moves)
      ensures sent == (how == L.Returned(L.OK) && L.CanMove(old(View()), n, moves))
    {
      sent := false;
      if how == L.Returned(L.OK) {
        if file.Some? { accepted := accepted + multiset{file.value}; }
        sent := Replace(n, true, moves, L.Uploaded(n));
        if !sent && file.Some? { stuck := stuck + multiset{file.value}; }
      } else if how == L.Returned(L.PERMANENT_ERROR) {
        var _ := Replace(n, false, moves, L.Failed(n, true));
      }
    }

    /** The end of `send_report`. */
    method ReportDone(c: L.CallId, n: L.Name, sent: bool, cleanup: bool)
      modifies this
      ensures View() == L.ReportDone(old(View()), c, n, sent, cleanup)
    {
      replies := replies[c := if sent then L.Sent else L.NotSent];
      if !sent {
        var _ := Replace(n, false, cleanup, L.Failed(n, false));
      }
    }

    method Resume(c: L.CallId, how: L.Ending, moves: bool, cleanup: bool)
      requires c in calls && calls[c].Submitting? && calls[c].logs != []
      modifies this
      ensures View() == L.Resumed(old(View()), c, how, moves, cleanup)
    {
      var w := calls[c];
      var n := w.logs[0];
      calls := calls - {c};
      var sent := Settle(n, w.file, how, moves);
      if w.report && !how.Cancelled? {
        lock := None;
        ReportDone(c, n, sent, cleanup);
      } else if w.report || how.Cancelled? || how == L.Returned(L.CLASS_ERROR) {
        lock := None;
      } else {
        Continue(c, w.logs[1..]);
      }
    }

    method Arrive(n: L.Name)
      modifies this
      ensures View() == L.Arrived(old(View()), n)
    {
      pending := pending[n := nextFile];
      nextFile := nextFile + 1;
    }

    method SubmitCategory(logs: seq<L.Name>)
      modifies this
      ensures View() == if old(lock).Some? then old(View()) else L.Started(old(View()), logs)
    {
      if lock.Some? { return; }
      var c := nextCall;
      lock, nextCall := Some(c), c + 1;
      Continue(c, logs);
    }

    method SendReport(n: L.Name, cleanup: bool)
      modifies this
      ensures View() == L.ReportStarted(old(View()), n, cleanup)
    {
      var c, file := nextCall, nextFile;
      Arrive(n);
      reports := reports[c := (n, file)];
      nextCall := c + 1;
      if lock.Some? {
        ReportDone(c, n, false, cleanup);
      } else {
        lock := Some(c);
        calls := calls[c := L.Submitting(true, [n], Some(file))];
      }
    }
  }
}
