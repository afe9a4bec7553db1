/**
 * Incremental journal collection with cursors.  A journal is a growing sequence; an entry is known by its
 * index.  Of one collect() call, a round is what happens to one unit; rounds do not overlap.
 */
module JournalCollection {
  import opened Prelude

  type Invocation = string

  /** The unit and its scope. */
  datatype Key = Key(user: bool, unit: string)

  /** The fields the collector looks at; `related` are the units that `journalctl -u` shows the entry for. */
  datatype Entry = Entry(
    systemdUnit: Option<string>, userUnit: Option<string>, related: set<string>,
    invocation: Option<string>, userInvocation: Option<string>, systemdInvocation: Option<string>)

  type Journal = seq<Entry>

  /** The lines journalctl prints: all of them for user units, those of `-u unit` for system units. */
  predicate Shown(k: Key, e: Entry) {
    k.user || k.unit in e.related || e.systemdUnit == Some(k.unit)
  }

  /** The lines util.read_journal keeps. */
  predicate Kept(k: Key, e: Entry) {
    if k.user then e.userUnit == Some(k.unit) else e.systemdUnit == Some(k.unit)
  }

  predicate Blank(id: Option<string>) {
    id.None? || id.value == ""
  }

  /** The invocation an entry is filed under. */
  function InvocationOf(k: Key, e: Entry): Invocation {
    var id := if k.user then e.userInvocation else e.invocation;
    if Blank(id) then e.systemdInvocation.GetOr("") else id.value
  }

  predicate Match(k: Key, e: Entry, inv: Invocation) {
    Kept(k, e) && InvocationOf(k, e) == inv
  }

  /** One filter-and-group pass over part of the journal: the entries of `inv` with lo <= index < hi. */
  function Batch(j: Journal, k: Key, inv: Invocation, lo: nat, hi: nat): seq<nat>
    requires hi <= |j|
  {
    if hi <= lo then []
    else Batch(j, k, inv, lo, hi - 1) + (if Match(k, j[hi - 1], inv) then [hi - 1] else [])
  }

  /** The index after the last line shown, or `lo` if there is none. */
  function AfterLastShown(j: Journal, k: Key, lo: nat, hi: nat): (n: nat)
    requires lo <= hi <= |j|
    ensures lo <= n <= hi
  {
    if hi == lo then lo else if Shown(k, j[hi - 1]) then hi else AfterLastShown(j, k, lo, hi - 1)
  }

  // ---------------------------------------------------------------- the state and its events

  datatype File = Corrupt | Saved(entries: seq<nat>)

  /** Which file operations of a round fail; a failing write may or may not have emptied the file. */
  datatype IO = IO(unreadable: set<Invocation>, unopened: set<Invocation>, unwritten: set<Invocation>) {
    function Failing(): set<Invocation> { unreadable + unopened + unwritten }
  }

  type Ledger = map<(Key, Invocation), seq<nat>>

  datatype State = State(
    journal: Journal,
    next: map<Key, nat>,                    // the index after the stored cursor, for keys that have one
    files: map<(Key, Invocation), File>,    // the files in `pending`
    // history
    appended: Ledger,                       // what was ever appended to a file
    passed: map<Key, seq<set<Invocation>>>) // for each index before the cursor: what the round collected

  datatype Event =
    | Log(entry: Entry)
    | Round(key: Key, failed: set<Invocation>, io: IO)
    | Submitted(key: Key, inv: Invocation)

  function Start(s: State, k: Key): nat {
    if k in s.next then s.next[k] else 0
  }

  function Passed(s: State, k: Key): seq<set<Invocation>> {
    if k in s.passed then s.passed[k] else []
  }

  function AppendedOf(a: Ledger, k: Key, inv: Invocation): seq<nat> {
    if (k, inv) in a then a[(k, inv)] else []
  }

  function New(s: State, k: Key, inv: Invocation): seq<nat> {
    Batch(s.journal, k, inv, Start(s, k), |s.journal|)
  }

  /** The invocations of the failed units for which there are new entries. */
  function Hits(s: State, k: Key, failed: set<Invocation>): set<Invocation> {
    set inv | inv in failed && New(s, k, inv) != []
  }

  function OldEntries(s: State, k: Key, inv: Invocation): seq<nat> {
    if (k, inv) in s.files && s.files[(k, inv)].Saved? then s.files[(k, inv)].entries else []
  }

  /** The directory after the files of the given invocations were dealt with. */
  function Files(s: State, k: Key, invs: set<Invocation>, io: IO): map<(Key, Invocation), File> {
    s.files
    + (map inv | inv in invs - io.unreadable - io.unopened ::
         (k, inv) := if inv in io.unwritten then Corrupt else Saved(OldEntries(s, k, inv) + New(s, k, inv)))
  }

  function Appended(s: State, k: Key, invs: set<Invocation>, io: IO): Ledger {
    s.appended
    + (map inv | inv in invs - io.Failing() :: (k, inv) := AppendedOf(s.appended, k, inv) + New(s, k, inv))
  }

  /** One unit in one collect() call; when nothing matched, the cursor is held back. */
  function Rounded(s: State, k: Key, failed: set<Invocation>, io: IO): State
    requires Start(s, k) <= |s.journal|
  {
    var hits := Hits(s, k, failed);
    if hits == {} then s
    else
      var after := AfterLastShown(s.journal, k, Start(s, k), |s.journal|);
      s.(next := s.next[k := after],
         files := Files(s, k, hits, io),
         appended := Appended(s, k, hits, io),
         passed := s.passed[k := Passed(s, k) + seq(after - Start(s, k), _ => failed - io.Failing())])
  }

  function Next(s: State, e: Event): Option<State> {
    match e
    case Log(entry) => Some(s.(journal := s.journal + [entry]))
    case Round(k, failed, io) =>
      if Start(s, k) <= |s.journal| then Some(Rounded(s, k, failed, io)) else None
    case Submitted(k, inv) => Some(s.(files := s.files - {(k, inv)}))
  }

  predicate Initial(s: State) {
    s == State(s.journal, map[], map[], map[], map[])
  }

  ghost predicate IsRun(run: seq<State>, events: seq<Event>) {
    |run| == |events| + 1 && Initial(run[0])
    && forall i | 0 <= i < |events| :: Next(run[i], events[i]) == Some(run[i + 1])
  }

  // ---------------------------------------------------------------- batches

  lemma {:induction false} BatchSplits(j: Journal, k: Key, inv: Invocation, lo: nat, mid: nat, hi: nat)
    requires lo <= mid <= hi <= |j|
    ensures Batch(j, k, inv, lo, hi) == Batch(j, k, inv, lo, mid) + Batch(j, k, inv, mid, hi)
  {
    if mid < hi { BatchSplits(j, k, inv, lo, mid, hi - 1); }
  }

  /** An entry belongs to the unit by the field of its scope, and to the invocation by the id of its scope. */
  lemma MatchIs(k: Key, e: Entry, inv: Invocation)
    ensures Match(k, e, inv) <==>
              (if k.user then e.userUnit == Some(k.unit) else e.systemdUnit == Some(k.unit))
              && inv == (var id := if k.user then e.userInvocation else e.invocation;
                         if id.Some? && id.value != "" then id.value else e.systemdInvocation.GetOr(""))
  {
  }

  /** The batch of an invocation: its entries, by the fields of the scope, in journal order. */
  lemma {:induction false} BatchIs(j: Journal, k: Key, inv: Invocation, lo: nat, hi: nat)
    requires hi <= |j|
    ensures Increasing(Batch(j, k, inv, lo, hi))
    ensures forall n: nat :: n in Batch(j, k, inv, lo, hi) <==>
              lo <= n < hi
              && (if k.user then j[n].userUnit == Some(k.unit) else j[n].systemdUnit == Some(k.unit))
              && inv == (var id := if k.user then j[n].userInvocation else j[n].invocation;
                         if id.Some? && id.value != "" then id.value else j[n].systemdInvocation.GetOr(""))
  {
    if lo < hi {
      var m := hi - 1;
      BatchIs(j, k, inv, lo, m);
      var before, last := Batch(j, k, inv, lo, m), if Match(k, j[m], inv) then [m] else [];
      assert Batch(j, k, inv, lo, hi) == before + last;
      forall i | 0 <= i < |before| ensures before[i] < m { assert before[i] in before; }
      assert forall n: nat :: n in before + last <==> n in before || n in last;
    }
  }

  lemma {:induction false} BatchOfLongerJournal(j: Journal, j': Journal, k: Key, inv: Invocation, lo: nat, hi: nat)
    requires hi <= |j| && j <= j'
    ensures Batch(j, k, inv, lo, hi) == Batch(j', k, inv, lo, hi)
  {
    if lo < hi { BatchOfLongerJournal(j, j', k, inv, lo, hi - 1); }
  }

  /** The cursor stands behind the last line that journalctl prints: every line, or those of the unit. */
  lemma {:induction false} CursorIs(j: Journal, k: Key, lo: nat, hi: nat)
    requires lo <= hi <= |j|
    ensures var after := AfterLastShown(j, k, lo, hi);
            && (lo < after ==> k.user || k.unit in j[after - 1].related || j[after - 1].systemdUnit == Some(k.unit))
            && forall n | after <= n < hi :: !k.user && k.unit !in j[n].related && j[n].systemdUnit != Some(k.unit)
  {
    if lo < hi && !Shown(k, j[hi - 1]) { CursorIs(j, k, lo, hi - 1); }
  }

  /** Lines that are not shown are not kept, so nothing is lost after the cursor. */
  lemma {:induction false} NothingAfterLastShown(j: Journal, k: Key, inv: Invocation, lo: nat, hi: nat)
    requires lo <= hi <= |j|
    ensures Batch(j, k, inv, AfterLastShown(j, k, lo, hi), hi) == []
    ensures Batch(j, k, inv, lo, hi) == Batch(j, k, inv, lo, AfterLastShown(j, k, lo, hi))
  {
    if lo < hi && !Shown(k, j[hi - 1]) { NothingAfterLastShown(j, k, inv, lo, hi - 1); }
  }

  /** The entries of `inv` before the cursor that were passed by a round which collected `inv`. */
  function Collected(j: Journal, k: Key, inv: Invocation, passed: seq<set<Invocation>>): seq<nat>
    requires |passed| <= |j|
  {
    if passed == [] then []
    else
      var n := |passed| - 1;
      Collected(j, k, inv, passed[..n]) + (if inv in passed[n] && Match(k, j[n], inv) then [n] else [])
  }

  lemma {:induction false} CollectedRound(j: Journal, k: Key, inv: Invocation, passed: seq<set<Invocation>>,
                                          n: nat, g: set<Invocation>)
    requires |passed| + n <= |j|
    ensures Collected(j, k, inv, passed + seq(n, _ => g))
         == Collected(j, k, inv, passed) + (if inv in g then Batch(j, k, inv, |passed|, |passed| + n) else [])
  {
    var longer := passed + seq(n, _ => g);
    if n == 0 {
      assert longer == passed;
    } else {
      CollectedRound(j, k, inv, passed, n - 1, g);
      assert longer[..|longer| - 1] == passed + seq(n - 1, _ => g);
    }
  }

  lemma {:induction false} CollectedOfLongerJournal(j: Journal, j': Journal, k: Key, inv: Invocation,
                                                    passed: seq<set<Invocation>>)
    requires |passed| <= |j| && j <= j'
    ensures Collected(j, k, inv, passed) == Collected(j', k, inv, passed)
  {
    if passed != [] { CollectedOfLongerJournal(j, j', k, inv, passed[..|passed| - 1]); }
  }

  // ---------------------------------------------------------------- the invariant

  ghost predicate Suffix(a: seq<nat>, b: seq<nat>) {
    |a| <= |b| && a == b[|b| - |a|..]
  }

  predicate Sized(s: State) {
    s.next.Keys == s.passed.Keys
    && forall k | k in s.next :: |s.passed[k]| == s.next[k] <= |s.journal|
  }

  ghost predicate Accounts(s: State, k: Key, inv: Invocation)
    requires Sized(s)
  {
    AppendedOf(s.appended, k, inv) == Collected(s.journal, k, inv, Passed(s, k))
  }

  /** The file holds what was appended since it was last submitted or spoilt. */
  ghost predicate Filed(s: State, k: Key, inv: Invocation) {
    Suffix(OldEntries(s, k, inv), AppendedOf(s.appended, k, inv))
  }

  ghost predicate Safe(s: State) {
    Sized(s) && forall k, inv :: Accounts(s, k, inv) && Filed(s, k, inv)
  }

  lemma RoundLedger(s: State, k: Key, hits: set<Invocation>, io: IO, k': Key, inv: Invocation)
    ensures AppendedOf(Appended(s, k, hits, io), k', inv)
         == AppendedOf(s.appended, k', inv) + (if k' == k && inv in hits - io.Failing() then New(s, k, inv) else [])
  {
    hide Batch;
    var a := Appended(s, k, hits, io);
    if k' == k && inv in hits - io.Failing() {
      assert a[(k, inv)] == AppendedOf(s.appended, k, inv) + New(s, k, inv);
    } else {
      assert (k', inv) in a <==> (k', inv) in s.appended;
    }
  }

  lemma RoundFiles(s: State, k: Key, hits: set<Invocation>, io: IO, k': Key, inv: Invocation)
    ensures var now := OldEntries(s.(files := Files(s, k, hits, io)), k', inv);
            if k' == k && inv in hits - io.Failing() then now == OldEntries(s, k, inv) + New(s, k, inv)
            else now == OldEntries(s, k', inv) || (inv in io.unwritten && now == [])
  {
    hide Batch;
    var f := Files(s, k, hits, io);
    if k' == k && inv in hits - io.unreadable - io.unopened {
      assert f[(k, inv)] == if inv in io.unwritten then Corrupt else Saved(OldEntries(s, k, inv) + New(s, k, inv));
    } else {
      assert (k', inv) in f <==> (k', inv) in s.files;
    }
  }

  lemma SuffixGrows(a: seq<nat>, b: seq<nat>, d: seq<nat>)
    requires Suffix(a, b)
    ensures Suffix(a + d, b + d) && Suffix([], b + d)
  {
  }

  /** What a round adds for one invocation. */
  function Delta(s: State, k: Key, failed: set<Invocation>, io: IO, k': Key, inv: Invocation): seq<nat> {
    if k' == k && inv in failed - io.Failing() then New(s, k, inv) else []
  }

  lemma RoundSized(s: State, k: Key, failed: set<Invocation>, io: IO)
    requires Sized(s)
    ensures Sized(Rounded(s, k, failed, io))
  {
    hide Batch, Files, Appended;
  }

  lemma RoundCollected(s: State, k: Key, failed: set<Invocation>, io: IO, k': Key, inv: Invocation)
    requires Sized(s) && Sized(Rounded(s, k, failed, io))
    ensures Collected(s.journal, k', inv, Passed(Rounded(s, k, failed, io), k'))
         == Collected(s.journal, k', inv, Passed(s, k')) + Delta(s, k, failed, io, k', inv)
  {
    hide Batch, Files, Appended, Collected;
    var hits := Hits(s, k, failed);
    if hits == {} {
      assert inv in failed ==> inv !in hits ==> New(s, k, inv) == [];
    } else if k' == k {
      var start, n := Start(s, k), |s.journal|;
      var after := AfterLastShown(s.journal, k, start, n);
      hide AfterLastShown;
      CollectedRound(s.journal, k, inv, Passed(s, k), after - start, failed - io.Failing());
      NothingAfterLastShown(s.journal, k, inv, start, n);
    }
  }

  lemma RoundAppended(s: State, k: Key, failed: set<Invocation>, io: IO, k': Key, inv: Invocation)
    requires Sized(s)
    ensures var s' := Rounded(s, k, failed, io);
            && AppendedOf(s'.appended, k', inv) == AppendedOf(s.appended, k', inv) + Delta(s, k, failed, io, k', inv)
            && (OldEntries(s', k', inv) == OldEntries(s, k', inv) + Delta(s, k, failed, io, k', inv)
                || OldEntries(s', k', inv) == [])
  {
    var hits := Hits(s, k, failed);
    assert inv in failed && inv !in hits ==> New(s, k, inv) == [];
    RoundLedger(s, k, hits, io, k', inv);
    RoundFiles(s, k, hits, io, k', inv);
    hide Batch, Files, Appended;
  }

  lemma RoundAccounts(s: State, k: Key, failed: set<Invocation>, io: IO, k': Key, inv: Invocation)
    requires Sized(s) && Accounts(s, k', inv) && Filed(s, k', inv)
    ensures var s' := Rounded(s, k, failed, io); Sized(s') && Accounts(s', k', inv) && Filed(s', k', inv)
  {
    RoundSized(s, k, failed, io);
    RoundCollected(s, k, failed, io, k', inv);
    RoundAppended(s, k, failed, io, k', inv);
    SuffixGrows(OldEntries(s, k', inv), AppendedOf(s.appended, k', inv), Delta(s, k, failed, io, k', inv));
    assert Rounded(s, k, failed, io).journal == s.journal;
    hide Rounded, Collected, AppendedOf, OldEntries, Delta, Sized, Passed, Suffix;
  }

  lemma LogAccounts(s: State, entry: Entry, k: Key, inv: Invocation)
    requires Sized(s) && Accounts(s, k, inv) && Filed(s, k, inv)
    ensures var s' := s.(journal := s.journal + [entry]); Sized(s') && Accounts(s', k, inv) && Filed(s', k, inv)
  {
    CollectedOfLongerJournal(s.journal, s.journal + [entry], k, inv, Passed(s, k));
    hide Collected;
  }

  lemma SubmittedAccounts(s: State, key: Key, i: Invocation, k: Key, inv: Invocation)
    requires Sized(s) && Accounts(s, k, inv) && Filed(s, k, inv)
    ensures var s' := s.(files := s.files - {(key, i)}); Sized(s') && Accounts(s', k, inv) && Filed(s', k, inv)
  {
    hide Collected;
  }

  lemma StepSafe(s: State, e: Event)
    requires Safe(s) && Next(s, e).Some?
    ensures Safe(Next(s, e).value)
  {
    var s' := Next(s, e).value;
    forall k, inv ensures Sized(s') && Accounts(s', k, inv) && Filed(s', k, inv) {
      assert Accounts(s, k, inv) && Filed(s, k, inv);
      hide Safe, Accounts, Filed, Sized, Rounded;
      match e
      case Log(entry) => LogAccounts(s, entry, k, inv);
      case Round(k', failed, io) => RoundAccounts(s, k', failed, io, k, inv);
      case Submitted(k', i) => SubmittedAccounts(s, k', i, k, inv);
    }
  }

  lemma {:induction false} RunSafe(run: seq<State>, events: seq<Event>, i: nat)
    requires IsRun(run, events) && i < |run|
    ensures Safe(run[i])
  {
    if i == 0 {
      forall k, inv ensures Accounts(run[0], k, inv) && Filed(run[0], k, inv) {}
    } else {
      RunSafe(run, events, i - 1);
      hide Safe;
      assert Next(run[i - 1], events[i - 1]) == Some(run[i]);
      StepSafe(run[i - 1], events[i - 1]);
    }
  }

  // ---------------------------------------------------------------- theorems

  predicate Increasing(a: seq<nat>) {
    forall i, j | 0 <= i < j < |a| :: a[i] < a[j]
  }

  lemma {:induction false} CollectedIs(j: Journal, k: Key, inv: Invocation, passed: seq<set<Invocation>>)
    requires |passed| <= |j|
    ensures Increasing(Collected(j, k, inv, passed))
    ensures forall n: nat :: n in Collected(j, k, inv, passed) <==>
              n < |passed| && inv in passed[n] && Match(k, j[n], inv)
  {
    if passed != [] {
      var m := |passed| - 1;
      CollectedIs(j, k, inv, passed[..m]);
      var c' := Collected(j, k, inv, passed[..m]);
      var last := if inv in passed[m] && Match(k, j[m], inv) then [m] else [];
      assert Collected(j, k, inv, passed) == c' + last;
      forall i | 0 <= i < |c'| ensures c'[i] < m { assert c'[i] in c'; }
      forall n: nat ensures n in c' + last <==> n < |passed| && inv in passed[n] && Match(k, j[n], inv) {
        if n < m { assert passed[..m][n] == passed[n]; }
        assert n in c' + last <==> n in c' || n in last;
      }
    }
  }

  /** A round without a new entry of a failed invocation changes nothing; any other moves the cursor to the end. */
  lemma RoundMovesCursor(s: State, k: Key, failed: set<Invocation>, io: IO)
    requires Start(s, k) <= |s.journal|
    ensures var s', n := Next(s, Round(k, failed, io)).value, |s.journal|;
            if forall inv | inv in failed :: Batch(s.journal, k, inv, Start(s, k), n) == [] then s' == s
            else Start(s', k) == AfterLastShown(s.journal, k, Start(s, k), n)
  {
    var hits := Hits(s, k, failed);
    assert forall inv | inv in failed :: inv in hits <==> Batch(s.journal, k, inv, Start(s, k), |s.journal|) != [];
    hide Batch, Files, Appended, AfterLastShown;
  }

  /** What a round leaves of a file: it is kept, spoilt, or holds the new entries behind those it could read. */
  lemma FileAfterRound(s: State, k: Key, failed: set<Invocation>, io: IO, k': Key, inv: Invocation)
    requires Start(s, k) <= |s.journal|
    ensures var files := Next(s, Round(k, failed, io)).value.files;
            var new_ := Batch(s.journal, k, inv, Start(s, k), |s.journal|);
            if k' != k || inv !in failed || new_ == [] || inv in io.unreadable || inv in io.unopened then
              ((k', inv) in files <==> (k', inv) in s.files)
              && ((k', inv) in files ==> files[(k', inv)] == s.files[(k', inv)])
            else
              (k, inv) in files
              && files[(k, inv)] == if inv in io.unwritten then Corrupt
                                    else if (k, inv) in s.files && s.files[(k, inv)].Saved?
                                    then Saved(s.files[(k, inv)].entries + new_)
                                    else Saved(new_)
  {
    var hits := Hits(s, k, failed);
    assert inv in hits <==> inv in failed && New(s, k, inv) != [];
    var f := Files(s, k, hits, io);
    assert [] + New(s, k, inv) == New(s, k, inv);
    assert (k', inv) in f <==> (k', inv) in s.files
                               || (k' == k && inv in hits - io.unreadable - io.unopened);
    hide Batch, AfterLastShown, Appended;
  }

  /** What `Passed` says of an entry: what was collected by the round whose cursor passed it. */
  lemma {:induction false} PassedByRound(run: seq<State>, events: seq<Event>, i: nat, k: Key, n: nat)
    requires IsRun(run, events) && i < |run| && n < |Passed(run[i], k)|
    ensures exists r: nat :: r < i && events[r].Round? && events[r].key == k
              && Start(run[r], k) <= n < Start(run[r + 1], k)
              && Passed(run[i], k)[n]
                 == events[r].failed - events[r].io.unreadable - events[r].io.unopened - events[r].io.unwritten
  {
    assert i > 0;
    var s, e := run[i - 1], events[i - 1];
    RunSafe(run, events, i - 1);
    RunSafe(run, events, i);
    PassedAreStart(s, k);
    PassedAreStart(run[i], k);
    hide Next, Safe, Passed, Start;
    assert Next(s, e) == Some(run[i]);
    PassedStep(s, e, k, n);
    if n < |Passed(s, k)| { PassedByRound(run, events, i - 1, k, n); }
  }

  lemma PassedStep(s: State, e: Event, k: Key, n: nat)
    requires Next(s, e).Some? && n < |Passed(Next(s, e).value, k)|
    ensures if n < |Passed(s, k)| then Passed(Next(s, e).value, k)[n] == Passed(s, k)[n]
            else e.Round? && e.key == k
                 && Passed(Next(s, e).value, k)[n]
                    == e.failed - e.io.unreadable - e.io.unopened - e.io.unwritten
  {
    hide Rounded;
    if e.Round? {
      RoundExtends(s, e.key, e.failed, e.io, k);
      assert e.failed - e.io.Failing() == e.failed - e.io.unreadable - e.io.unopened - e.io.unwritten;
    }
  }

  lemma PassedAreStart(s: State, k: Key)
    requires Safe(s)
    ensures |Passed(s, k)| == Start(s, k) <= |s.journal|
  {
  }

  /**
   * An entry is appended for an invocation if and only if it is of the unit, by the field of the scope, is
   * filed under that invocation, and the round whose cursor passed it was collecting that invocation and
   * could access its file.
   */
  lemma CollectedExactly(run: seq<State>, events: seq<Event>, i: nat, k: Key, inv: Invocation, n: nat)
    requires IsRun(run, events) && i < |run|
    ensures Start(run[i], k) == |Passed(run[i], k)| <= |run[i].journal|
    ensures n in AppendedOf(run[i].appended, k, inv) <==>
              n < Start(run[i], k) && inv in Passed(run[i], k)[n]
              && var e := run[i].journal[n];
                 (if k.user then e.userUnit == Some(k.unit) else e.systemdUnit == Some(k.unit))
                 && inv == (var id := if k.user then e.userInvocation else e.invocation;
                            if id.Some? && id.value != "" then id.value else e.systemdInvocation.GetOr(""))
  {
    RunSafe(run, events, i);
    assert Accounts(run[i], k, inv);
    CollectedIs(run[i].journal, k, inv, Passed(run[i], k));
    hide Collected, Safe, AppendedOf, Match;
    if n < |run[i].journal| { MatchIs(k, run[i].journal[n], inv); }
  }

  /**
   * Whatever fails and whatever is submitted in between, no entry of a unit is appended twice, and what is
   * appended for one invocation is in strictly increasing journal order.
   */
  lemma NoEntryTwice(run: seq<State>, events: seq<Event>, i: nat, k: Key, inv: Invocation, inv': Invocation)
    requires IsRun(run, events) && i < |run|
    ensures Increasing(AppendedOf(run[i].appended, k, inv))
    ensures inv != inv' ==>
              forall n | n in AppendedOf(run[i].appended, k, inv) :: n !in AppendedOf(run[i].appended, k, inv')
  {
    RunSafe(run, events, i);
    assert Accounts(run[i], k, inv) && Accounts(run[i], k, inv');
    CollectedIs(run[i].journal, k, inv, Passed(run[i], k));
    CollectedIs(run[i].journal, k, inv', Passed(run[i], k));
  }

  /** A pending file holds the latest part of what was appended for its invocation. */
  lemma FilesHoldTheLedger(run: seq<State>, events: seq<Event>, i: nat, k: Key, inv: Invocation)
    requires IsRun(run, events) && i < |run|
    ensures Suffix(OldEntries(run[i], k, inv), AppendedOf(run[i].appended, k, inv))
  {
    RunSafe(run, events, i);
    assert Filed(run[i], k, inv);
  }

  /** Rounds of `k` collect the same invocations each time, and no file operation fails. */
  predicate Steady(events: seq<Event>, k: Key, failed: set<Invocation>) {
    forall i | 0 <= i < |events| && events[i].Round? && events[i].key == k ::
      events[i].failed == failed && events[i].io == IO({}, {}, {})
  }

  predicate NeverSubmitted(events: seq<Event>, k: Key) {
    forall i | 0 <= i < |events| :: !(events[i].Submitted? && events[i].key == k)
  }

  lemma RoundExtends(s: State, k: Key, failed: set<Invocation>, io: IO, k': Key)
    requires Start(s, k) <= |s.journal|
    ensures var p, p' := Passed(s, k'), Passed(Rounded(s, k, failed, io), k');
            && |p| <= |p'| && (forall n | 0 <= n < |p| :: p'[n] == p[n])
            && (if k == k' then forall n | |p| <= n < |p'| :: p'[n] == failed - io.Failing() else p' == p)
  {
    hide Hits, Files, Appended, AfterLastShown;
  }

  lemma {:induction false} SteadyPasses(run: seq<State>, events: seq<Event>, i: nat, k: Key, failed: set<Invocation>)
    requires IsRun(run, events) && Steady(events, k, failed) && i < |run|
    ensures forall n | 0 <= n < |Passed(run[i], k)| :: Passed(run[i], k)[n] == failed
  {
    if i > 0 {
      SteadyPasses(run, events, i - 1, k, failed);
      var e := events[i - 1];
      assert Next(run[i - 1], e) == Some(run[i]);
      hide Rounded;
      if e.Round? {
        RoundExtends(run[i - 1], e.key, e.failed, e.io, k);
        assert e.key == k ==> e.failed - e.io.Failing() == failed;
      } else {
        assert Passed(run[i], k) == Passed(run[i - 1], k);
      }
    }
  }

  lemma {:induction false} CollectedIsBatch(j: Journal, k: Key, inv: Invocation, passed: seq<set<Invocation>>)
    requires |passed| <= |j| && forall n | 0 <= n < |passed| :: inv in passed[n]
    ensures Collected(j, k, inv, passed) == Batch(j, k, inv, 0, |passed|)
  {
    if passed != [] { CollectedIsBatch(j, k, inv, passed[..|passed| - 1]); }
  }

  /** After a round nothing more of the journal matches any of its invocations. */
  lemma NothingLeft(s: State, k: Key, failed: set<Invocation>, inv: Invocation)
    requires Sized(s) && inv in failed
    ensures New(Rounded(s, k, failed, IO({}, {}, {})), k, inv) == []
  {
    var hits := Hits(s, k, failed);
    if hits == {} {
      assert inv !in hits;
    } else {
      NothingAfterLastShown(s.journal, k, inv, Start(s, k), |s.journal|);
    }
    hide Batch, Files, Appended;
  }

  /**
   * Incremental collection equals batch collection: after any processed round the entries accumulated for
   * each invocation are those of one filter-and-group pass over the whole journal.
   */
  lemma IncrementalEqualsBatch(run: seq<State>, events: seq<Event>, i: nat, k: Key, failed: set<Invocation>,
                               inv: Invocation)
    requires IsRun(run, events) && Steady(events, k, failed) && inv in failed
    requires i < |events| && events[i].Round? && events[i].key == k
    ensures var s := run[i + 1];
            && AppendedOf(s.appended, k, inv) == Batch(s.journal, k, inv, 0, |s.journal|)
            && (NeverSubmitted(events, k) ==> OldEntries(s, k, inv) == Batch(s.journal, k, inv, 0, |s.journal|))
  {
    var s := run[i + 1];
    assert Next(run[i], events[i]) == Some(s);
    RunSafe(run, events, i);
    NothingLeft(run[i], k, failed, inv);
    RunSafe(run, events, i + 1);
    assert Accounts(s, k, inv);
    SteadyPasses(run, events, i + 1, k, failed);
    CollectedIsBatch(s.journal, k, inv, Passed(s, k));
    BatchSplits(s.journal, k, inv, 0, Start(s, k), |s.journal|);
    if NeverSubmitted(events, k) { FilesAreWhole(run, events, i + 1, k, failed, inv); }
  }

  lemma WholeRound(s: State, k: Key, failed: set<Invocation>, io: IO, k': Key, inv: Invocation)
    requires Start(s, k) <= |s.journal| && (k' == k ==> io == IO({}, {}, {}))
    requires OldEntries(s, k', inv) == AppendedOf(s.appended, k', inv)
    ensures var s' := Rounded(s, k, failed, io); OldEntries(s', k', inv) == AppendedOf(s'.appended, k', inv)
  {
    var hits := Hits(s, k, failed);
    RoundLedger(s, k, hits, io, k', inv);
    if k' == k {
      RoundFiles(s, k, hits, io, k', inv);
    } else {
      OtherFiles(s, k, hits, io, k', inv);
    }
    hide Hits, New, Files, Appended, AfterLastShown;
  }

  lemma OtherFiles(s: State, k: Key, hits: set<Invocation>, io: IO, k': Key, inv: Invocation)
    requires k' != k
    ensures OldEntries(s.(files := Files(s, k, hits, io)), k', inv) == OldEntries(s, k', inv)
  {
    hide New;
    var f := Files(s, k, hits, io);
    assert (k', inv) in f <==> (k', inv) in s.files;
  }

  lemma WholeStep(s: State, e: Event, k: Key, inv: Invocation)
    requires Next(s, e).Some? && OldEntries(s, k, inv) == AppendedOf(s.appended, k, inv)
    requires !(e.Submitted? && e.key == k) && (e.Round? && e.key == k ==> e.io == IO({}, {}, {}))
    ensures OldEntries(Next(s, e).value, k, inv) == AppendedOf(Next(s, e).value.appended, k, inv)
  {
    hide Rounded;
    if e.Round? { WholeRound(s, e.key, e.failed, e.io, k, inv); }
  }

  lemma {:induction false} FilesAreWhole(run: seq<State>, events: seq<Event>, i: nat, k: Key,
                                         failed: set<Invocation>, inv: Invocation)
    requires IsRun(run, events) && Steady(events, k, failed) && NeverSubmitted(events, k) && i < |run|
    ensures OldEntries(run[i], k, inv) == AppendedOf(run[i].appended, k, inv)
  {
    if i > 0 {
      FilesAreWhole(run, events, i - 1, k, failed, inv);
      hide Rounded, OldEntries, AppendedOf, Next;
      assert Next(run[i - 1], events[i - 1]) == Some(run[i]);
      WholeStep(run[i - 1], events[i - 1], k, inv);
    }
  }
}
