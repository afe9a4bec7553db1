/**
 * The modification time watermark of Helper.collect (helpers/__init__.py).  Times are the rounded ones, in
 * milliseconds; the watermark is missing when the configuration has none or an invalid one.
 */
module Watermark {
  import opened Prelude

  type Directory = map<string, int>

  predicate Above(mtime: int, mark: Option<int>) {
    mark.None? || mtime > mark.value
  }

  function Higher(mark: Option<int>, mtime: int): Option<int> {
    if Above(mtime, mark) then Some(mtime) else mark
  }

  predicate NotBelow(a: Option<int>, b: Option<int>) {
    b.None? || (a.Some? && a.value >= b.value)
  }

  // ---------------------------------------------------------------- one call

  /** The logs newer than the watermark, in the order of the listing; `times` are the ones that can be read. */
  function Newer(listing: seq<string>, times: Directory, mark: Option<int>): seq<string> {
    if listing == [] then []
    else
      var name := listing[|listing| - 1];
      Newer(listing[..|listing| - 1], times, mark)
      + (if name in times && Above(times[name], mark) then [name] else [])
  }

  /** The latest of the times, but not below `mark`. */
  function Latest(listing: seq<string>, times: Directory, mark: Option<int>): Option<int> {
    if listing == [] then mark
    else
      var name, newest := listing[|listing| - 1], Latest(listing[..|listing| - 1], times, mark);
      if name in times then Higher(newest, times[name]) else newest
  }

  class Helper {
    var mark: Option<int>

    /**
     * `writable` says whether the configuration can be written.  If not, the call raises, but keeps the new
     * watermark in memory.
     */
    method Collect(listing: seq<string>, times: Directory, writable: bool) returns (r: Option<seq<string>>)
      modifies this
      ensures mark == Latest(listing, times, old(mark))
      ensures r == if mark != old(mark) && !writable then None else Some(Newer(listing, times, old(mark)))
    {
      var newest: Option<int> := None;
      var newer: seq<string> := [];
      for i := 0 to |listing|
        invariant mark == old(mark)
        invariant newer == Newer(listing[..i], times, mark)
        invariant newest == Latest(listing[..i], times, None)
      {
        assert listing[..i + 1][..i] == listing[..i];
        var log := listing[i];
        if log !in times { continue; }
        var mtime := times[log];
        if Above(mtime, mark) { newer := newer + [log]; }
        if Above(mtime, newest) { newest := Some(mtime); }
      }
      assert listing[..|listing|] == listing;
      LatestFrom(listing, times, mark);
      var updated := false;
      if newest.Some? && Above(newest.value, mark) {
        mark := newest;
        updated := true;
      }
      if updated && !writable { return None; }
      return Some(newer);
    }
  }

  lemma {:induction false} LatestFrom(listing: seq<string>, times: Directory, mark: Option<int>)
    ensures var newest := Latest(listing, times, None);
            Latest(listing, times, mark) == if newest.Some? then Higher(mark, newest.value) else mark
  {
    if listing != [] { LatestFrom(listing[..|listing| - 1], times, mark); }
  }

  /** The watermark never falls, is not below any time that was read, and is one of them if it rises. */
  lemma {:induction false} LatestIs(listing: seq<string>, times: Directory, mark: Option<int>)
    ensures NotBelow(Latest(listing, times, mark), mark)
    ensures forall name | name in listing && name in times :: NotBelow(Latest(listing, times, mark), Some(times[name]))
    ensures Latest(listing, times, mark) == mark
            || exists name :: name in listing && name in times && Latest(listing, times, mark) == Some(times[name])
  {
    if listing != [] {
      var n := |listing| - 1;
      LatestIs(listing[..n], times, mark);
      assert listing == listing[..n] + [listing[n]];
    }
  }

  predicate Distinct(s: seq<string>) {
    forall i, j | 0 <= i < j < |s| :: s[i] != s[j]
  }

  /** A call returns a log if and only if it can be read and is newer than the watermark. */
  lemma {:induction false} NewerIs(listing: seq<string>, times: Directory, mark: Option<int>)
    ensures forall name :: name in Newer(listing, times, mark) <==>
              name in listing && name in times && Above(times[name], mark)
    ensures Distinct(listing) ==> Distinct(Newer(listing, times, mark))
  {
    if listing != [] {
      var n := |listing| - 1;
      var before, name := Newer(listing[..n], times, mark), listing[n];
      NewerIs(listing[..n], times, mark);
      assert listing == listing[..n] + [name];
      forall other ensures other in Newer(listing, times, mark) <==>
                             other in listing && other in times && Above(times[other], mark) {
        assert other in listing <==> other in listing[..n] || other == name;
        assert other in before + [name] <==> other in before || other == name;
      }
      if Distinct(listing) {
        forall i | 0 <= i < |before| ensures before[i] != name {
          assert before[i] in listing[..n];
        }
      }
    }
  }

  // ---------------------------------------------------------------- whole runs

  datatype State = State(
    directory: Directory,
    mark: Option<int>,
    returned: seq<set<(string, int)>>)  // history: what each call returned

  datatype Event =
    | Change(directory: Directory)
    | Collect(listing: seq<string>, unreadable: set<string>, writable: bool)

  function Batch(names: seq<string>, times: Directory): set<(string, int)> {
    set name | name in names && name in times :: (name, times[name])
  }

  function Next(s: State, e: Event): Option<State> {
    match e
    case Change(directory) => Some(s.(directory := directory))
    case Collect(listing, unreadable, writable) =>
      if !Distinct(listing) || (set name | name in listing) != s.directory.Keys then None
      else
        var times := s.directory - unreadable;
        var mark := Latest(listing, times, s.mark);
        var newer := if mark != s.mark && !writable then [] else Newer(listing, times, s.mark);
        Some(s.(mark := mark, returned := s.returned + [Batch(newer, times)]))
  }

  ghost predicate IsRun(run: seq<State>, events: seq<Event>) {
    |run| == |events| + 1 && run[0].returned == []
    && forall i | 0 <= i < |events| :: Next(run[i], events[i]) == Some(run[i + 1])
  }

  /** A call returns the readable files above the watermark; if it cannot write, it raises and returns none. */
  lemma CollectIs(s: State, e: Event, name: string, time: int)
    requires e.Collect? && Next(s, e).Some?
    ensures var s', n := Next(s, e).value, |s.returned|;
            && |s'.returned| == n + 1 && s'.returned[..n] == s.returned && s'.directory == s.directory
            && ((name, time) in s'.returned[n] <==>
                  e.writable && name in s.directory && s.directory[name] == time && name !in e.unreadable
                  && (s.mark.Some? ==> time > s.mark.value))
  {
    var times := s.directory - e.unreadable;
    NewerIs(e.listing, times, s.mark);
    LatestIs(e.listing, times, s.mark);
    assert name in s.directory <==> name in set other | other in e.listing;
    hide Newer, Latest;
  }

  /** Everything that was returned is not above the watermark, and nothing was returned twice. */
  ghost predicate Safe(s: State) {
    && (forall k, log | 0 <= k < |s.returned| && log in s.returned[k] :: NotBelow(s.mark, Some(log.1)))
    && (forall k, l, log | 0 <= k < l < |s.returned| && log in s.returned[k] :: log !in s.returned[l])
  }

  lemma StepSafe(s: State, e: Event)
    requires Safe(s) && Next(s, e).Some?
    ensures Safe(Next(s, e).value) && NotBelow(Next(s, e).value.mark, s.mark)
  {
    match e
    case Change(_) =>
    case Collect(listing, unreadable, writable) =>
      var s', times := Next(s, e).value, s.directory - unreadable;
      LatestIs(listing, times, s.mark);
      NewerIs(listing, times, s.mark);
      var n := |s.returned|;
      var last := s'.returned[n];
      hide Newer, Latest;
      forall log | log in last ensures Above(log.1, s.mark) && NotBelow(s'.mark, Some(log.1)) {}
      forall k, log | 0 <= k <= n && log in s'.returned[k] ensures NotBelow(s'.mark, Some(log.1)) {
        if k < n { assert log in s.returned[k]; }
      }
      forall k, l, log | 0 <= k < l <= n && log in s'.returned[k] ensures log !in s'.returned[l] {
        assert log in s.returned[k];
      }
  }

  lemma {:induction false} RunSafe(run: seq<State>, events: seq<Event>, i: nat)
    requires IsRun(run, events) && i < |run|
    ensures Safe(run[i])
  {
    if i > 0 {
      RunSafe(run, events, i - 1);
      hide Safe;
      assert Next(run[i - 1], events[i - 1]) == Some(run[i]);
      StepSafe(run[i - 1], events[i - 1]);
    }
  }

  /** The watermark never decreases. */
  lemma {:induction false} MarkIsMonotone(run: seq<State>, events: seq<Event>, i: nat, j: nat)
    requires IsRun(run, events) && i <= j < |run|
    ensures NotBelow(run[j].mark, run[i].mark)
  {
    if i < j {
      MarkIsMonotone(run, events, i, j - 1);
      RunSafe(run, events, j - 1);
      hide Safe;
      assert Next(run[j - 1], events[j - 1]) == Some(run[j]);
      StepSafe(run[j - 1], events[j - 1]);
    }
  }

  /** Whatever happens to the directory, no log is returned twice with the same time. */
  lemma NothingTwice(run: seq<State>, events: seq<Event>, i: nat, k: nat, l: nat)
    requires IsRun(run, events) && i < |run| && k < l < |run[i].returned|
    ensures run[i].returned[k] !! run[i].returned[l]
  {
    RunSafe(run, events, i);
  }

  /** Files only arrive with times above the watermark, and every call can read them and write the mark. */
  ghost predicate Orderly(run: seq<State>, events: seq<Event>)
    requires IsRun(run, events)
  {
    && (forall i | 0 <= i < |events| && events[i].Collect? :: events[i].unreadable == {} && events[i].writable)
    && (forall i, name | 0 <= i < |events| && events[i].Change? && name in events[i].directory ::
          Above(events[i].directory[name], run[i].mark) || (name, events[i].directory[name]) in run[i].directory.Items)
    && run[0].directory == map[]
  }

  ghost predicate WasReturned(s: State, name: string)
    requires name in s.directory
  {
    exists k :: 0 <= k < |s.returned| && (name, s.directory[name]) in s.returned[k]
  }

  /** Every file is either still above the watermark or was returned. */
  ghost predicate NoneMissed(s: State) {
    forall name | name in s.directory :: Above(s.directory[name], s.mark) || WasReturned(s, name)
  }

  lemma CollectReturnsAll(s: State, e: Event)
    requires e.Collect? && e.unreadable == {} && e.writable && NoneMissed(s) && Next(s, e).Some?
    ensures var s' := Next(s, e).value;
            s'.directory == s.directory && forall name | name in s'.directory :: WasReturned(s', name)
  {
    var s', n := Next(s, e).value, |s.returned|;
    assert s.directory - {} == s.directory;
    NewerIs(e.listing, s.directory, s.mark);
    forall name | name in s.directory ensures WasReturned(s', name) {
      if Above(s.directory[name], s.mark) {
        assert name in set other | other in e.listing;
        assert (name, s.directory[name]) in s'.returned[n];
      } else {
        assert WasReturned(s, name);
        var k :| 0 <= k < n && (name, s.directory[name]) in s.returned[k];
        assert s'.returned[k] == s.returned[k];
      }
    }
  }

  lemma {:induction false} OrderlyMissesNone(run: seq<State>, events: seq<Event>, i: nat)
    requires IsRun(run, events) && Orderly(run, events) && i < |run|
    ensures NoneMissed(run[i])
  {
    if i > 0 {
      OrderlyMissesNone(run, events, i - 1);
      var s, e, s' := run[i - 1], events[i - 1], run[i];
      assert Next(s, e) == Some(s');
      if e.Collect? {
        CollectReturnsAll(s, e);
      } else {
        forall name | name in s'.directory ensures Above(s'.directory[name], s'.mark) || WasReturned(s', name) {
          if !Above(s'.directory[name], s'.mark) {
            assert (name, s'.directory[name]) in s.directory.Items;
            assert WasReturned(s, name);
            var k :| 0 <= k < |s.returned| && (name, s.directory[name]) in s.returned[k];
            assert (name, s'.directory[name]) in s'.returned[k];
          }
        }
      }
    }
  }

  /** Then each file that is pending at a call has been returned exactly once after it. */
  lemma ExactlyOnce(run: seq<State>, events: seq<Event>, i: nat, name: string)
    requires IsRun(run, events) && Orderly(run, events)
    requires i < |events| && events[i].Collect? && name in run[i + 1].directory
    ensures var s, log := run[i + 1], (name, run[i + 1].directory[name]);
            exists k :: 0 <= k < |s.returned| && log in s.returned[k]
                        && forall l :: 0 <= l < |s.returned| && l != k ==> log !in s.returned[l]
  {
    OrderlyMissesNone(run, events, i);
    assert Next(run[i], events[i]) == Some(run[i + 1]);
    CollectReturnsAll(run[i], events[i]);
    RunSafe(run, events, i + 1);
    var s, log := run[i + 1], (name, run[i + 1].directory[name]);
    assert WasReturned(s, name);
    var k :| 0 <= k < |s.returned| && log in s.returned[k];
    forall l | 0 <= l < |s.returned| && l != k ensures log !in s.returned[l] {
      if l < k { NothingTwice(run, events, i + 1, l, k); } else { NothingTwice(run, events, i + 1, k, l); }
    }
  }

  ghost predicate Returned(s: State, log: (string, int)) {
    exists k :: 0 <= k < |s.returned| && log in s.returned[k]
  }

  /**
   * The condition on arrivals is needed: a log that is not above the watermark and was not returned never is,
   * as when it arrives late, could not be read in time, or the call that found it could not write the mark.
   */
  lemma {:induction false} MissedForever(run: seq<State>, events: seq<Event>, i: nat, j: nat, log: (string, int))
    requires IsRun(run, events) && i <= j < |run|
    requires !Above(log.1, run[i].mark) && !Returned(run[i], log)
    ensures !Above(log.1, run[j].mark) && !Returned(run[j], log)
  {
    if i < j {
      MissedForever(run, events, i, j - 1, log);
      MarkIsMonotone(run, events, i, j);
      var s, e := run[j - 1], events[j - 1];
      assert Next(s, e) == Some(run[j]);
      if e.Collect? {
        NewerIs(e.listing, s.directory - e.unreadable, s.mark);
        forall k | 0 <= k < |run[j].returned| ensures log !in run[j].returned[k] {
          if k < |s.returned| { assert run[j].returned[k] == s.returned[k]; }
        }
      }
    }
  }
}
