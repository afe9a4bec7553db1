/**
 * The life of a log in `pending`, `uploaded` and `failed`, under any interleaving of `submit_category`,
 * `collect_category` and `send_report` calls on one helper.  A call is suspended only while it awaits
 * `helper.submit` (or `helper.collect`), and then it holds the helper's lock.
 *
 * Files are told apart by instance numbers, so that a name used again is a different file.
 */
module LogLifecycle {
  import opened Prelude

  type Name = string
  type Instance = nat
  type CallId = nat

  datatype HelperResult = OK | TRANSIENT_ERROR | PERMANENT_ERROR | CLASS_ERROR

  /** How `await helper.submit(...)` ended. */
  datatype Ending = Returned(result: HelperResult) | Raised | Cancelled

  /** A suspended call; `logs[0]` is being submitted, and `file` is what its name meant at that moment. */
  datatype Work =
    | Collecting
    | Submitting(report: bool, logs: seq<Name>, file: Option<Instance>)

  /** Where an instance went when it left `pending`. */
  datatype Fate = Uploaded(name: Name) | Failed(name: Name, permanent: bool)

  datatype Reply = Sent | NotSent

  datatype State = State(
    pending: map<Name, Instance>, uploaded: map<Name, Instance>, failed: map<Name, Instance>,
    lock: Option<CallId>,
    calls: map<CallId, Work>,
    // history
    nextFile: Instance, nextCall: CallId,
    fate: map<Instance, Fate>,
    accepted: multiset<Instance>,                   // submitted with result OK
    stuck: multiset<Instance>,                      // accepted, but os.replace then failed
    reports: map<CallId, (Name, Instance)>,
    replies: map<CallId, Reply>)

  /** `moves` and `cleanup` tell whether the next os.replace of submit_category and of send_report works. */
  datatype Event =
    | Arrive(name: Name)
    | StartCollect
    | EndCollect(call: CallId)
    | StartSubmit(logs: seq<Name>)
    | StartReport(name: Name, cleanup: bool)
    | Resume(call: CallId, how: Ending, moves: bool, cleanup: bool)

  // ---------------------------------------------------------------- os.replace

  predicate CanMove(s: State, n: Name, moves: bool) {
    moves && n in s.pending
  }

  function MoveToUploaded(s: State, n: Name): State
    requires n in s.pending
  {
    s.(pending := s.pending - {n}, uploaded := s.uploaded[n := s.pending[n]],
       fate := s.fate[s.pending[n] := Uploaded(n)])
  }

  function MoveToFailed(s: State, n: Name, permanent: bool): State
    requires n in s.pending
  {
    s.(pending := s.pending - {n}, failed := s.failed[n := s.pending[n]],
       fate := s.fate[s.pending[n] := Failed(n, permanent)])
  }

  // ---------------------------------------------------------------- submit_category

  /** Names starting with a dot are skipped. */
  function Visible(logs: seq<Name>): seq<Name> {
    if logs == [] || logs[0] == [] || logs[0][0] != '.' then logs else Visible(logs[1..])
  }

  function FileOf(s: State, n: Name): Option<Instance> {
    if n in s.pending then Some(s.pending[n]) else None
  }

  /** What `send_report` does once its `submit_category` is over. */
  function ReportDone(s: State, c: CallId, n: Name, sent: bool, cleanup: bool): (r: State)
    ensures r.lock == s.lock && r.calls == s.calls && r.nextCall == s.nextCall && r.reports == s.reports
  {
    var s' := s.(replies := s.replies[c := if sent then Sent else NotSent]);
    if !sent && CanMove(s', n, cleanup) then MoveToFailed(s', n, false) else s'
  }

  /** The loop goes on to the next visible log, or the call is over and the lock released. */
  function Continue(s: State, c: CallId, logs: seq<Name>): (s': State)
    ensures s'.pending == s.pending && s'.uploaded == s.uploaded && s'.failed == s.failed
    ensures s'.nextCall == s.nextCall && s'.calls.Keys <= s.calls.Keys + {c}
  {
    var rest := Visible(logs);
    if rest == [] then s.(lock := None)
    else s.(calls := s.calls[c := Submitting(false, rest, FileOf(s, rest[0]))])
  }

  /** Lines 70 to 81: the file is moved according to the result. */
  function Settled(s: State, n: Name, file: Option<Instance>, how: Ending, moves: bool): (s': State)
    ensures s'.lock == s.lock && s'.calls == s.calls && s'.nextCall == s.nextCall
    ensures s'.reports == s.reports && s'.replies == s.replies
  {
    match how
    case Returned(OK) =>
      var s' := if file.Some? then s.(accepted := s.accepted + multiset{file.value}) else s;
      if CanMove(s', n, moves) then MoveToUploaded(s', n)
      else if file.Some? then s'.(stuck := s'.stuck + multiset{file.value}) else s'
    case Returned(PERMANENT_ERROR) => if CanMove(s, n, moves) then MoveToFailed(s, n, true) else s
    case _ => s
  }

  function Resumed(s: State, c: CallId, how: Ending, moves: bool, cleanup: bool): State
    requires c in s.calls && s.calls[c].Submitting? && s.calls[c].logs != []
  {
    var w := s.calls[c];
    var n := w.logs[0];
    var s' := Settled(s.(calls := s.calls - {c}), n, w.file, how, moves);
    if w.report && !how.Cancelled?
    then ReportDone(s'.(lock := None), c, n, how == Returned(OK) && CanMove(s, n, moves), cleanup)
    else if w.report || how.Cancelled? || how == Returned(CLASS_ERROR) then s'.(lock := None)
    else Continue(s', c, w.logs[1..])
  }

  function Started(s: State, logs: seq<Name>): State {
    Continue(s.(lock := Some(s.nextCall), nextCall := s.nextCall + 1), s.nextCall, logs)
  }

  function Arrived(s: State, n: Name): State {
    s.(pending := s.pending[n := s.nextFile], nextFile := s.nextFile + 1)
  }

  /** `send_report` copies the report into `pending` and submits it; when the lock is held it gives up at once. */
  function ReportStarted(s: State, n: Name, cleanup: bool): State {
    var s' := Arrived(s, n).(reports := s.reports[s.nextCall := (n, s.nextFile)]);
    if s.lock.Some? then ReportDone(s'.(nextCall := s.nextCall + 1), s.nextCall, n, false, cleanup)
    else s'.(lock := Some(s.nextCall), nextCall := s.nextCall + 1,
             calls := s.calls[s.nextCall := Submitting(true, [n], Some(s.nextFile))])
  }

  function Next(s: State, e: Event): Option<State> {
    match e
    case Arrive(n) => if n in s.pending then None else Some(Arrived(s, n))
    case StartCollect =>
      if s.lock.Some? then Some(s)
      else Some(s.(lock := Some(s.nextCall), nextCall := s.nextCall + 1, calls := s.calls[s.nextCall := Collecting]))
    case EndCollect(c) =>
      if c in s.calls && s.calls[c].Collecting? then Some(s.(lock := None, calls := s.calls - {c})) else None
    case StartSubmit(logs) => if s.lock.Some? then Some(s) else Some(Started(s, logs))
    case StartReport(n, cleanup) => if n in s.pending then None else Some(ReportStarted(s, n, cleanup))
    case Resume(c, how, moves, cleanup) =>
      if c in s.calls && s.calls[c].Submitting? && s.calls[c].logs != []
         && (how == Returned(OK) ==> s.calls[c].file.Some?)
      then Some(Resumed(s, c, how, moves, cleanup)) else None
  }

  predicate Initial(s: State) {
    s == State(map[], s.uploaded, s.failed, None, map[], 0, 0, map[], multiset{}, multiset{}, map[], map[])
  }

  ghost predicate IsRun(run: seq<State>, events: seq<Event>) {
    |run| == |events| + 1 && Initial(run[0])
    && forall i | 0 <= i < |events| :: Next(run[i], events[i]) == Some(run[i + 1])
  }

  // ---------------------------------------------------------------- the invariant

  type Dir = map<Name, Instance>
  type Fates = map<Instance, Fate>

  /** Every file that ever arrived is in `pending`, under one name, or has one fate. */
  ghost predicate Conserved(pending: Dir, fate: Fates, nextFile: Instance) {
    && (forall n | n in pending :: pending[n] < nextFile && pending[n] !in fate)
    && (forall n, m | n in pending && m in pending && pending[n] == pending[m] :: n == m)
    && (forall i | i in fate :: i < nextFile)
    && (forall i | 0 <= i < nextFile :: i in fate || i in pending.Values)
  }

  predicate IsUploaded(fate: Fates, i: Instance) {
    i in fate && fate[i].Uploaded?
  }

  predicate IsFailed(fate: Fates, i: Instance) {
    i in fate && fate[i].Failed?
  }

  /** Every OK either moved its file to `uploaded`, once, or met a failing os.replace. */
  ghost predicate Accounted(accepted: multiset<Instance>, stuck: multiset<Instance>, fate: Fates) {
    forall i: Instance :: accepted[i] == stuck[i] + (if IsUploaded(fate, i) then 1 else 0)
  }

  /** One call at a time holds the lock, and what it submits stays in `pending` meanwhile. */
  ghost predicate Locked(s: State) {
    forall c | c in s.calls ::
      s.lock == Some(c) && c < s.nextCall
      && (s.calls[c].Submitting? ==>
            && s.calls[c].logs != []
            && (s.calls[c].file.Some? ==> FileOf(s, s.calls[c].logs[0]) == s.calls[c].file)
            && (s.calls[c].report ==>
                  c in s.reports && c !in s.replies
                  && s.calls[c] == Submitting(true, [s.reports[c].0], Some(s.reports[c].1))))
  }

  ghost predicate Numbered(reports: map<CallId, (Name, Instance)>, replies: map<CallId, Reply>,
                           nextCall: CallId, nextFile: Instance) {
    && (forall c | c in reports :: c < nextCall && reports[c].1 < nextFile)
    && (forall c | c in replies :: c in reports)
  }

  /** `send_report` returned its id only for an uploaded report, and, if moves work, failed ones are in `failed`. */
  ghost predicate Answered(works: bool, reports: map<CallId, (Name, Instance)>, replies: map<CallId, Reply>,
                           fate: Fates) {
    forall c | c in replies && c in reports ::
      && (replies[c].Sent? ==> IsUploaded(fate, reports[c].1))
      && (works && replies[c].NotSent? ==> IsFailed(fate, reports[c].1))
  }

  /** An unsuccessful `send_report` was about this file. */
  ghost predicate GaveUp(reports: map<CallId, (Name, Instance)>, replies: map<CallId, Reply>, i: Instance) {
    exists c | c in replies && c in reports :: replies[c].NotSent? && reports[c].1 == i
  }

  ghost predicate Explained(reports: map<CallId, (Name, Instance)>, replies: map<CallId, Reply>, fate: Fates) {
    forall i | i in fate && fate[i].Failed? && !fate[i].permanent :: GaveUp(reports, replies, i)
  }

  ghost predicate Safe(works: bool, s: State) {
    && Conserved(s.pending, s.fate, s.nextFile)
    && Accounted(s.accepted, s.stuck, s.fate)
    && Locked(s)
    && Numbered(s.reports, s.replies, s.nextCall, s.nextFile)
    && Answered(works, s.reports, s.replies, s.fate)
    && Explained(s.reports, s.replies, s.fate)
    && (works ==> s.stuck == multiset{})
  }

  predicate Works(e: Event) {
    (e.Resume? ==> e.moves && e.cleanup) && (e.StartReport? ==> e.cleanup)
  }

  /** No call is suspended: one is running, or none is under way. */
  ghost predicate Idle(works: bool, s: State) {
    Safe(works, s) && s.calls == map[]
  }

  // ---------------------------------------------------------------- elementary changes

  lemma MoveConserved(pending: Dir, fate: Fates, nextFile: Instance, n: Name, f: Fate)
    requires Conserved(pending, fate, nextFile) && n in pending
    ensures Conserved(pending - {n}, fate[pending[n] := f], nextFile)
  {
    var pending', fate' := pending - {n}, fate[pending[n] := f];
    forall i | 0 <= i < nextFile ensures i in fate' || i in pending'.Values {
      if i !in fate' {
        assert i in pending.Values;
        var m :| m in pending && pending[m] == i;
        assert m in pending' && pending'[m] == i;
      }
    }
  }

  lemma ArriveConserved(pending: Dir, fate: Fates, nextFile: Instance, n: Name)
    requires Conserved(pending, fate, nextFile) && n !in pending
    ensures Conserved(pending[n := nextFile], fate, nextFile + 1)
  {
    var pending' := pending[n := nextFile];
    forall i | 0 <= i < nextFile + 1 ensures i in fate || i in pending'.Values {
      if i == nextFile { assert pending'[n] == i; }
      else if i !in fate {
        var m :| m in pending && pending[m] == i;
        assert pending'[m] == i;
      }
    }
  }

  lemma ArrivedSafe(works: bool, s: State, n: Name)
    requires Safe(works, s) && n !in s.pending
    ensures Safe(works, Arrived(s, n)) && s.nextFile !in s.fate
  {
    ArriveConserved(s.pending, s.fate, s.nextFile, n);
    ArrivedLocked(s, n);
    assert s.nextFile !in s.fate;
    hide Conserved, Accounted, Answered, Explained, Locked;
  }

  lemma ArrivedLocked(s: State, n: Name)
    requires Locked(s) && n !in s.pending
    ensures Locked(Arrived(s, n))
  {
  }

  /** A permanent or successful outcome changes no earlier explanation. */
  lemma FateExplained(s: State, i: Instance, f: Fate)
    requires Explained(s.reports, s.replies, s.fate) && (f.Failed? ==> f.permanent)
    ensures Explained(s.reports, s.replies, s.fate[i := f])
  {
    hide GaveUp;
  }

  lemma UploadSafe(works: bool, s: State, n: Name, i: Instance)
    requires Idle(works, s) && FileOf(s, n) == Some(i)
    ensures Idle(works, MoveToUploaded(s.(accepted := s.accepted + multiset{i}), n))
  {
    MoveConserved(s.pending, s.fate, s.nextFile, n, Uploaded(n));
    FateExplained(s, i, Uploaded(n));
    assert i !in s.fate;
    hide Conserved, Explained;
  }

  lemma FailSafe(works: bool, s: State, n: Name)
    requires Idle(works, s) && n in s.pending
    ensures Idle(works, MoveToFailed(s, n, true))
  {
    MoveConserved(s.pending, s.fate, s.nextFile, n, Failed(n, true));
    FateExplained(s, s.pending[n], Failed(n, true));
    assert s.pending[n] !in s.fate;
    hide Conserved, Explained;
  }

  lemma SettledSafe(works: bool, s: State, n: Name, file: Option<Instance>, how: Ending, moves: bool)
    requires Idle(works, s) && (file.Some? ==> FileOf(s, n) == file)
    requires (how == Returned(OK) ==> file.Some?) && (works ==> moves)
    ensures Idle(works, Settled(s, n, file, how, moves))
  {
    if how == Returned(OK) && CanMove(s, n, moves) {
      UploadSafe(works, s, n, file.value);
      hide Safe;
    } else if how == Returned(PERMANENT_ERROR) && CanMove(s, n, moves) {
      FailSafe(works, s, n);
      hide Safe;
    } else {
      hide Conserved, Explained, Answered;
    }
  }

  lemma ReplyExplained(s: State, c: CallId, i: Instance, reply: Reply, fate: Fates, f: Fate)
    requires Explained(s.reports, s.replies, s.fate) && c in s.reports && s.reports[c].1 == i && c !in s.replies
    requires fate == s.fate || (reply.NotSent? && fate == s.fate[i := f])
    ensures Explained(s.reports, s.replies[c := reply], fate)
  {
    forall j | j in fate && fate[j].Failed? && !fate[j].permanent
      ensures GaveUp(s.reports, s.replies[c := reply], j)
    {
      if j == i && fate != s.fate {
        assert s.replies[c := reply][c].NotSent?;
      } else {
        assert GaveUp(s.reports, s.replies, j);
        var d :| d in s.replies && d in s.reports && s.replies[d].NotSent? && s.reports[d].1 == j;
        assert s.replies[c := reply][d].NotSent?;
      }
    }
  }

  lemma ReplySafe(works: bool, s: State, c: CallId, reply: Reply)
    requires Idle(works, s) && c in s.reports && c !in s.replies
    requires reply.Sent? ==> IsUploaded(s.fate, s.reports[c].1)
    requires works && reply.NotSent? ==> IsFailed(s.fate, s.reports[c].1)
    ensures Idle(works, s.(replies := s.replies[c := reply]))
  {
    ReplyExplained(s, c, s.reports[c].1, reply, s.fate, Uploaded([]));
    hide Conserved, Explained, Accounted;
  }

  lemma GiveUpSafe(works: bool, s: State, c: CallId, n: Name)
    requires Idle(works, s) && c in s.reports && c !in s.replies
    requires n in s.pending && s.pending[n] == s.reports[c].1
    ensures Idle(works, MoveToFailed(s.(replies := s.replies[c := NotSent]), n, false))
  {
    var i := s.pending[n];
    MoveConserved(s.pending, s.fate, s.nextFile, n, Failed(n, false));
    ReplyExplained(s, c, i, NotSent, s.fate[i := Failed(n, false)], Failed(n, false));
    assert i !in s.fate;
    hide Conserved, Explained;
  }

  /** The end of `send_report` for the report file `i` named `n`. */
  lemma ReportDoneSafe(works: bool, s: State, c: CallId, n: Name, i: Instance, sent: bool, cleanup: bool)
    requires Idle(works, s) && c in s.reports && s.reports[c] == (n, i) && c !in s.replies
    requires n in s.pending ==> s.pending[n] == i
    requires sent ==> IsUploaded(s.fate, i)
    requires works && !sent ==> cleanup && (n in s.pending || IsFailed(s.fate, i))
    ensures Idle(works, ReportDone(s, c, n, sent, cleanup))
  {
    hide Safe;
    if !sent && CanMove(s, n, cleanup) { GiveUpSafe(works, s, c, n); }
    else { ReplySafe(works, s, c, if sent then Sent else NotSent); }
  }

  // ---------------------------------------------------------------- one event

  /** The running call is suspended again, or a new one takes the lock. */
  lemma SuspendSafe(works: bool, s: State, c: CallId, w: Work)
    requires Idle(works, s) && c < s.nextCall
    requires w.Submitting? ==>
               && w.logs != [] && (w.file.Some? ==> FileOf(s, w.logs[0]) == w.file)
               && (w.report ==> c in s.reports && c !in s.replies
                                && w == Submitting(true, [s.reports[c].0], Some(s.reports[c].1)))
    ensures Safe(works, s.(lock := Some(c), calls := s.calls[c := w]))
  {
    hide Conserved, Accounted, Answered, Explained;
  }

  lemma NewReportFacts(works: bool, s: State, n: Name)
    requires Safe(works, s) && n !in s.pending
    ensures s.nextCall !in s.replies && (s.lock.None? ==> s.calls == map[])
    ensures forall d | d in s.calls && s.calls[d].Submitting? ::
              d != s.nextCall && s.calls[d].logs != [] && (s.calls[d].file.Some? ==> s.calls[d].logs[0] != n)
  {
    hide Conserved, Accounted, Answered, Explained;
  }

  lemma ReportStartedSafe(works: bool, s: State, n: Name, cleanup: bool)
    requires Safe(works, s) && n !in s.pending && (works ==> cleanup)
    ensures Safe(works, ReportStarted(s, n, cleanup))
  {
    hide Safe, ReportDone;
    ArrivedSafe(works, s, n);
    NewReportFacts(works, s, n);
    var a := Arrived(s, n);
    var c, i := s.nextCall, s.nextFile;
    FiledSafe(works, a, c, n, i);
    var s' := a.(reports := a.reports[c := (n, i)], nextCall := c + 1);
    if s.lock.None? {
      assert Idle(works, s');
      SuspendSafe(works, s', c, Submitting(true, [n], Some(i)));
    } else {
      GiveUpAlongside(works, s', c, n, cleanup);
    }
  }

  /** A new report is filed under the next call number. */
  lemma FiledSafe(works: bool, s: State, c: CallId, n: Name, i: Instance)
    requires Safe(works, s) && c == s.nextCall && i < s.nextFile
    ensures Safe(works, s.(reports := s.reports[c := (n, i)], nextCall := c + 1))
  {
    assert c !in s.reports;
    assert Explained(s.reports[c := (n, i)], s.replies, s.fate) by {
      forall j | j in s.fate && s.fate[j].Failed? && !s.fate[j].permanent
        ensures GaveUp(s.reports[c := (n, i)], s.replies, j)
      {
        assert GaveUp(s.reports, s.replies, j);
        var d :| d in s.replies && d in s.reports && s.replies[d].NotSent? && s.reports[d].1 == j;
        assert s.replies[d].NotSent? && s.reports[c := (n, i)][d].1 == j;
      }
    }
    hide Conserved, Accounted, Explained;
  }

  /** `send_report` without the lock, while another call may be suspended. */
  lemma GiveUpAlongside(works: bool, s: State, c: CallId, n: Name, cleanup: bool)
    requires Safe(works, s) && c in s.reports && c !in s.replies && (works ==> cleanup)
    requires n in s.pending && s.reports[c] == (n, s.pending[n])
    requires forall d | d in s.calls && s.calls[d].Submitting? ::
               d != c && (s.calls[d].file.Some? ==> s.calls[d].logs[0] != n)
    ensures Safe(works, ReportDone(s, c, n, false, cleanup))
  {
    ReportDoneSafe(works, s.(calls := map[]), c, n, s.pending[n], false, cleanup);
    GiveUpLocked(s, c, n, cleanup);
    hide Conserved, Accounted, Answered, Explained, Numbered, Locked;
  }

  lemma GiveUpLocked(s: State, c: CallId, n: Name, cleanup: bool)
    requires Locked(s)
    requires forall d | d in s.calls && s.calls[d].Submitting? ::
               d != c && (s.calls[d].file.Some? ==> s.calls[d].logs[0] != n)
    ensures Locked(ReportDone(s, c, n, false, cleanup))
  {
  }

  lemma ContinueSafe(works: bool, s: State, c: CallId, logs: seq<Name>)
    requires Idle(works, s) && c < s.nextCall && s.lock == Some(c)
    ensures Safe(works, Continue(s, c, logs))
  {
    var rest := Visible(logs);
    if rest == [] {
      hide Conserved, Accounted, Answered, Explained;
    } else {
      hide Safe;
      SuspendSafe(works, s, c, Submitting(false, rest, FileOf(s, rest[0])));
    }
  }

  lemma ResumeFacts(works: bool, s: State, c: CallId)
    requires Safe(works, s) && c in s.calls && s.calls[c].Submitting?
    ensures Idle(works, s.(calls := s.calls - {c})) && c < s.nextCall && s.lock == Some(c)
    ensures var w := s.calls[c];
            && w.logs != [] && (w.file.Some? ==> FileOf(s, w.logs[0]) == w.file)
            && (w.report ==> c in s.reports && c !in s.replies && w.file == Some(s.reports[c].1)
                             && w.logs == [s.reports[c].0])
  {
    hide Conserved, Accounted, Answered, Explained;
  }

  lemma ReleaseSafe(works: bool, s: State)
    requires Idle(works, s)
    ensures Idle(works, s.(lock := None))
  {
    hide Conserved, Accounted, Answered, Explained;
  }

  /** Settling a report's file moves at most that file. */
  lemma SettledReport(s: State, n: Name, i: Instance, how: Ending, moves: bool)
    requires FileOf(s, n) == Some(i) && (how.Returned? || how.Raised?)
    ensures var s' := Settled(s, n, Some(i), how, moves);
            && (n in s'.pending ==> s'.pending[n] == i)
            && (how == Returned(OK) && CanMove(s, n, moves) ==> IsUploaded(s'.fate, i))
            && (moves && how != Returned(OK) ==> n in s'.pending || IsFailed(s'.fate, i))
  {
  }

  lemma ResumedSafe(works: bool, s: State, c: CallId, how: Ending, moves: bool, cleanup: bool)
    requires Safe(works, s) && c in s.calls && s.calls[c].Submitting? && s.calls[c].logs != []
    requires (how == Returned(OK) ==> s.calls[c].file.Some?) && (works ==> moves && cleanup)
    ensures Safe(works, Resumed(s, c, how, moves, cleanup))
  {
    hide Safe, Settled, Continue, ReportDone;
    ResumeFacts(works, s, c);
    var w := s.calls[c];
    var n := w.logs[0];
    var s0 := s.(calls := s.calls - {c});
    SettledSafe(works, s0, n, w.file, how, moves);
    var s1 := Settled(s0, n, w.file, how, moves);
    ReleaseSafe(works, s1);
    if w.report && !how.Cancelled? {
      SettledReport(s0, n, w.file.value, how, moves);
      var sent := how == Returned(OK) && CanMove(s, n, moves);
      ReportDoneSafe(works, s1.(lock := None), c, n, w.file.value, sent, cleanup);
    } else if !(w.report || how.Cancelled? || how == Returned(CLASS_ERROR)) {
      ContinueSafe(works, s1, c, w.logs[1..]);
    }
  }

  lemma StepSafe(works: bool, s: State, e: Event)
    requires Safe(works, s) && Next(s, e).Some? && (works ==> Works(e))
    ensures Safe(works, Next(s, e).value)
  {
    match e
    case Arrive(n) => ArrivedSafe(works, s, n);
    case StartCollect =>
      if s.lock.None? {
        TakeCall(works, s);
        SuspendSafe(works, s.(nextCall := s.nextCall + 1), s.nextCall, Collecting);
      }
      hide Safe;
    case EndCollect(c) => hide Conserved, Accounted, Answered, Explained;
    case StartSubmit(logs) =>
      if s.lock.None? {
        TakeCall(works, s);
        ContinueSafe(works, s.(lock := Some(s.nextCall), nextCall := s.nextCall + 1), s.nextCall, logs);
      }
      hide Safe;
    case StartReport(n, cleanup) => ReportStartedSafe(works, s, n, cleanup); hide Safe;
    case Resume(_, _, _, _) => ResumedSafe(works, s, e.call, e.how, e.moves, e.cleanup); hide Safe;
  }

  lemma TakeCall(works: bool, s: State)
    requires Safe(works, s) && s.lock.None?
    ensures Idle(works, s.(nextCall := s.nextCall + 1))
    ensures Idle(works, s.(lock := Some(s.nextCall), nextCall := s.nextCall + 1))
  {
    hide Conserved, Accounted, Answered, Explained;
  }

  // ---------------------------------------------------------------- whole runs

  ghost predicate WorkingMoves(events: seq<Event>) {
    forall i | 0 <= i < |events| :: Works(events[i])
  }

  lemma {:induction false} RunSafe(works: bool, run: seq<State>, events: seq<Event>, i: nat)
    requires IsRun(run, events) && (works ==> WorkingMoves(events)) && i < |run|
    ensures Safe(works, run[i])
  {
    if i > 0 {
      RunSafe(works, run, events, i - 1);
      hide Safe;
      assert Next(run[i - 1], events[i - 1]) == Some(run[i]);
      StepSafe(works, run[i - 1], events[i - 1]);
    }
  }

  /** No file is lost or duplicated: whatever arrived is in `pending` under one name, or left it once. */
  lemma FilesAreConserved(run: seq<State>, events: seq<Event>, k: nat, i: Instance)
    requires IsRun(run, events) && k < |run| && i < run[k].nextFile
    ensures i in run[k].fate <==> i !in run[k].pending.Values
    ensures forall n, m | n in run[k].pending && m in run[k].pending ::
              run[k].pending[n] == i && run[k].pending[m] == i ==> n == m
  {
    RunSafe(false, run, events, k);
  }

  /**
   * Every OK answer moves its file to `uploaded`, once and for all, or meets a failing os.replace; so with
   * working moves no file is accepted twice, and the accepted files are exactly the uploaded ones.
   */
  lemma UploadsAreAccounted(run: seq<State>, events: seq<Event>, k: nat, i: Instance)
    requires IsRun(run, events) && k < |run|
    ensures run[k].accepted[i] == run[k].stuck[i] + (if IsUploaded(run[k].fate, i) then 1 else 0)
    ensures WorkingMoves(events) ==> run[k].accepted[i] <= 1
    ensures WorkingMoves(events) ==> (i in run[k].accepted <==> IsUploaded(run[k].fate, i))
  {
    RunSafe(false, run, events, k);
    if WorkingMoves(events) { RunSafe(true, run, events, k); }
  }

  /**
   * `send_report` returns its id only if the report was uploaded; with working moves exactly then, and
   * otherwise the report is in `failed`.
   */
  lemma ReportsAreAnswered(run: seq<State>, events: seq<Event>, k: nat, c: CallId)
    requires IsRun(run, events) && k < |run| && c in run[k].replies
    ensures c in run[k].reports
    ensures var i := run[k].reports[c].1;
            && (run[k].replies[c].Sent? ==> IsUploaded(run[k].fate, i))
            && (WorkingMoves(events) && run[k].replies[c].NotSent? ==> IsFailed(run[k].fate, i))
  {
    RunSafe(false, run, events, k);
    if WorkingMoves(events) { RunSafe(true, run, events, k); }
  }

  /** A file that is neither uploaded nor permanently failed left `pending` for an unsuccessful report. */
  lemma FailuresAreExplained(run: seq<State>, events: seq<Event>, k: nat, i: Instance)
    requires IsRun(run, events) && k < |run| && IsFailed(run[k].fate, i) && !run[k].fate[i].permanent
    ensures GaveUp(run[k].reports, run[k].replies, i)
  {
    RunSafe(false, run, events, k);
  }

  // ---------------------------------------------------------------- what one event can do to `pending`

  /** The call awaiting `submit` for the file `i` named `n` is answered `how`. */
  predicate Answers(s: State, e: Event, n: Name, i: Instance, how: Ending) {
    e.Resume? && e.call in s.calls && s.calls[e.call].Submitting? && s.calls[e.call].logs != []
    && s.calls[e.call].logs[0] == n && e.how == how
    && (how == Returned(OK) ==> s.calls[e.call].file == Some(i))
  }

  /** The event ends the `send_report` call about the file `i` named `n`, without success. */
  predicate EndsReport(s: State, e: Event, n: Name, i: Instance) {
    e.Resume? && e.call in s.calls && s.calls[e.call] == Submitting(true, [n], Some(i))
    && !e.how.Cancelled? && !(e.how == Returned(OK) && e.moves)
  }

  lemma SettledLeaves(s: State, n: Name, m: Name, file: Option<Instance>, how: Ending, moves: bool)
    requires m in s.pending && (file.Some? ==> FileOf(s, n) == file) && (how == Returned(OK) ==> file.Some?)
    ensures var s', i := Settled(s, n, file, how, moves), s.pending[m];
            || FileOf(s', m) == Some(i)
            || (m == n && m !in s'.pending
                && (|| (how == Returned(OK) && moves && file == Some(i) && m in s'.uploaded && s'.uploaded[m] == i)
                    || (how == Returned(PERMANENT_ERROR) && m in s'.failed && s'.failed[m] == i)))
  {
  }

  lemma ReportDoneLeaves(s: State, c: CallId, n: Name, m: Name, sent: bool, cleanup: bool)
    ensures var s' := ReportDone(s, c, n, sent, cleanup);
            && s'.uploaded == s.uploaded
            && (FileOf(s', m) == FileOf(s, m)
                || (m == n && !sent && m !in s'.pending && m in s.pending
                    && m in s'.failed && s'.failed[m] == s.pending[m]))
            && (m !in s.pending && m in s.failed ==> m in s'.failed && s'.failed[m] == s.failed[m])
  {
  }

  /** What `LeavesPendingOnly` says of one event. */
  predicate LeftProperly(s: State, e: Event, s': State, n: Name, i: Instance) {
    n !in s'.pending
    && (|| (Answers(s, e, n, i, Returned(OK)) && n in s'.uploaded && s'.uploaded[n] == i)
        || (n in s'.failed && s'.failed[n] == i
            && (Answers(s, e, n, i, Returned(PERMANENT_ERROR)) || EndsReport(s, e, n, i))))
  }

  /** What one answer may do to the file `i` named `n`; `w` is the call that was answered. */
  predicate Left(s': State, w: Work, how: Ending, moves: bool, n: Name, i: Instance)
    requires w.Submitting? && w.logs != []
  {
    w.logs[0] == n && n !in s'.pending
    && (|| (how == Returned(OK) && w.file == Some(i) && n in s'.uploaded && s'.uploaded[n] == i)
        || (n in s'.failed && s'.failed[n] == i
            && (how == Returned(PERMANENT_ERROR)
                || (w == Submitting(true, [n], Some(i)) && !how.Cancelled? && !(how == Returned(OK) && moves)))))
  }

  lemma CategoryLeaves(s: State, c: CallId, how: Ending, moves: bool, cleanup: bool, n: Name)
    requires Safe(false, s) && c in s.calls && s.calls[c].Submitting? && s.calls[c].logs != [] && n in s.pending
    requires how == Returned(OK) ==> s.calls[c].file.Some?
    requires !s.calls[c].report || how.Cancelled?
    ensures var s' := Resumed(s, c, how, moves, cleanup);
            FileOf(s', n) == Some(s.pending[n]) || Left(s', s.calls[c], how, moves, n, s.pending[n])
  {
    hide Safe, Continue, Settled, ReportDone;
    ResumeFacts(false, s, c);
    SettledLeaves(s.(calls := s.calls - {c}), s.calls[c].logs[0], n, s.calls[c].file, how, moves);
  }

  lemma ReportLeaves(s: State, c: CallId, how: Ending, moves: bool, cleanup: bool, n: Name)
    requires Safe(false, s) && c in s.calls && s.calls[c].Submitting? && s.calls[c].logs != [] && n in s.pending
    requires how == Returned(OK) ==> s.calls[c].file.Some?
    requires s.calls[c].report && !how.Cancelled?
    ensures var s' := Resumed(s, c, how, moves, cleanup);
            FileOf(s', n) == Some(s.pending[n]) || Left(s', s.calls[c], how, moves, n, s.pending[n])
  {
    ResumeFacts(false, s, c);
    hide Safe, Continue, Settled, ReportDone;
    var w := s.calls[c];
    var s0 := s.(calls := s.calls - {c});
    var s1 := Settled(s0, w.logs[0], w.file, how, moves);
    SettledLeaves(s0, w.logs[0], n, w.file, how, moves);
    ReportDoneLeaves(s1.(lock := None), c, w.logs[0], n, how == Returned(OK) && CanMove(s, w.logs[0], moves), cleanup);
  }

  lemma ResumeLeaves(s: State, e: Event, n: Name)
    requires Safe(false, s) && e.Resume? && Next(s, e).Some? && n in s.pending
    ensures FileOf(Next(s, e).value, n) == FileOf(s, n) || LeftProperly(s, e, Next(s, e).value, n, s.pending[n])
  {
    hide Safe, Resumed;
    if s.calls[e.call].report && !e.how.Cancelled? { ReportLeaves(s, e.call, e.how, e.moves, e.cleanup, n); }
    else { CategoryLeaves(s, e.call, e.how, e.moves, e.cleanup, n); }
  }

  lemma OtherLeaves(s: State, e: Event, n: Name)
    requires !e.Resume? && Next(s, e).Some? && n in s.pending
    ensures FileOf(Next(s, e).value, n) == FileOf(s, n)
  {
    hide Continue;
  }

  /** A file leaves `pending` only for `uploaded`, after OK, or for `failed`, for one of two reasons. */
  lemma LeavesPendingOnly(run: seq<State>, events: seq<Event>, k: nat, n: Name)
    requires IsRun(run, events) && k < |events| && n in run[k].pending
    ensures FileOf(run[k + 1], n) == FileOf(run[k], n)
            || LeftProperly(run[k], events[k], run[k + 1], n, run[k].pending[n])
  {
    RunSafe(false, run, events, k);
    hide Safe, LeftProperly;
    assert Next(run[k], events[k]) == Some(run[k + 1]);
    if events[k].Resume? { ResumeLeaves(run[k], events[k], n); } else { OtherLeaves(run[k], events[k], n); }
  }

  /** A call that is over stays over: its number is never used again. */
  predicate Gone(s: State, c: CallId) {
    c !in s.calls && c < s.nextCall
  }

  lemma GoneStep(s: State, e: Event, c: CallId)
    requires Gone(s, c) && Next(s, e).Some?
    ensures Gone(Next(s, e).value, c)
  {
    hide Continue, Settled, ReportDone;
  }

  /** CLASS_ERROR is answered to this call of submit_category. */
  predicate ClassError(s: State, e: Event) {
    e.Resume? && e.how == Returned(CLASS_ERROR) && e.call in s.calls && s.calls[e.call].Submitting?
    && !s.calls[e.call].report
  }

  lemma ClassErrorStep(s: State, e: Event)
    requires Safe(false, s) && ClassError(s, e) && Next(s, e).Some?
    ensures Next(s, e).value.pending == s.pending && Gone(Next(s, e).value, e.call)
  {
    ResumeFacts(false, s, e.call);
    hide Safe, Continue, ReportDone;
  }

  /** After CLASS_ERROR a call moves nothing and submits nothing any more: the remaining logs are untouched. */
  lemma {:induction false} ClassErrorEndsTheCall(run: seq<State>, events: seq<Event>, k: nat, j: nat)
    requires IsRun(run, events) && k < |events| && k < j < |run| && ClassError(run[k], events[k])
    ensures run[k + 1].pending == run[k].pending && Gone(run[j], events[k].call)
  {
    RunSafe(false, run, events, k);
    hide Safe, Next, Gone, ClassError;
    assert Next(run[k], events[k]) == Some(run[k + 1]);
    ClassErrorStep(run[k], events[k]);
    if j > k + 1 {
      ClassErrorEndsTheCall(run, events, k, j - 1);
      assert Next(run[j - 1], events[j - 1]) == Some(run[j]);
      GoneStep(run[j - 1], events[j - 1], events[k].call);
    }
  }
}
