/** The collector in the form of util.read_journal and helpers/journal.py: loops over lines and files. */
module JournalHelper {
  import opened Prelude
  import opened JournalCollection

  /** The lines kept for `k` among those with lo <= index < hi. */
  function KeptLines(j: Journal, k: Key, lo: nat, hi: nat): seq<nat>
    requires hi <= |j|
  {
    if hi <= lo then []
    else KeptLines(j, k, lo, hi - 1) + (if Kept(k, j[hi - 1]) then [hi - 1] else [])
  }

  /** Those of the given lines that are filed under `inv`. */
  function Select(j: Journal, k: Key, inv: Invocation, lines: seq<nat>): seq<nat>
    requires forall i | 0 <= i < |lines| :: lines[i] < |j|
  {
    if lines == [] then []
    else
      var n := lines[|lines| - 1];
      Select(j, k, inv, lines[..|lines| - 1]) + (if InvocationOf(k, j[n]) == inv then [n] else [])
  }

  lemma {:induction false} KeptLinesInRange(j: Journal, k: Key, lo: nat, hi: nat)
    requires hi <= |j|
    ensures forall i | 0 <= i < |KeptLines(j, k, lo, hi)| :: KeptLines(j, k, lo, hi)[i] < hi
  {
    if lo < hi { KeptLinesInRange(j, k, lo, hi - 1); }
  }

  /** The lines of the unit, by the field of the scope, in journal order. */
  lemma {:induction false} KeptLinesAre(j: Journal, k: Key, lo: nat, hi: nat)
    requires hi <= |j|
    ensures Increasing(KeptLines(j, k, lo, hi))
    ensures forall n: nat :: n in KeptLines(j, k, lo, hi) <==>
              lo <= n < hi && (if k.user then j[n].userUnit == Some(k.unit) else j[n].systemdUnit == Some(k.unit))
  {
    if lo < hi {
      var m := hi - 1;
      KeptLinesAre(j, k, lo, m);
      var before, last := KeptLines(j, k, lo, m), if Kept(k, j[m]) then [m] else [];
      assert KeptLines(j, k, lo, hi) == before + last;
      forall i | 0 <= i < |before| ensures before[i] < m { assert before[i] in before; }
      assert forall n: nat :: n in before + last <==> n in before || n in last;
    }
  }

  lemma SelectOneMore(j: Journal, k: Key, inv: Invocation, lines: seq<nat>, n: nat)
    requires n < |j| && forall i | 0 <= i < |lines| :: lines[i] < |j|
    ensures Select(j, k, inv, lines + [n])
         == Select(j, k, inv, lines) + (if InvocationOf(k, j[n]) == inv then [n] else [])
  {
    hide InvocationOf;
    assert (lines + [n])[..|lines|] == lines;
  }

  /** Filtering by unit and then grouping by invocation is the one-pass batch. */
  lemma {:induction false} SelectKept(j: Journal, k: Key, inv: Invocation, lo: nat, hi: nat)
    requires hi <= |j|
    ensures forall i | 0 <= i < |KeptLines(j, k, lo, hi)| :: KeptLines(j, k, lo, hi)[i] < |j|
    ensures Select(j, k, inv, KeptLines(j, k, lo, hi)) == Batch(j, k, inv, lo, hi)
  {
    KeptLinesInRange(j, k, lo, hi);
    if lo < hi {
      SelectKept(j, k, inv, lo, hi - 1);
      SelectOneMore(j, k, inv, KeptLines(j, k, lo, hi - 1), hi - 1);
      hide Select, Kept, InvocationOf;
      assert Kept(k, j[hi - 1]) || KeptLines(j, k, lo, hi) == KeptLines(j, k, lo, hi - 1);
    }
  }

  lemma NoFilesYet(s: State, k: Key, io: IO)
    ensures Files(s, k, {}, io) == s.files && Appended(s, k, {}, io) == s.appended
  {
    hide New, OldEntries, AppendedOf;
  }

  /** What the loop over the invocations does to the files and the ledger, one invocation at a time. */
  lemma FilesStep(s: State, k: Key, done: set<Invocation>, inv: Invocation, io: IO)
    requires inv !in done
    ensures var f, f' := Files(s, k, done, io), Files(s, k, done + {inv}, io);
            && ((k, inv) in f <==> (k, inv) in s.files)
            && ((k, inv) in f ==> f[(k, inv)] == s.files[(k, inv)])
            && f' == if inv in io.unreadable || inv in io.unopened then f
                     else f[(k, inv) := if inv in io.unwritten then Corrupt
                                        else Saved(OldEntries(s, k, inv) + New(s, k, inv))]
  {
    hide New, OldEntries;
    if inv in io.unreadable || inv in io.unopened {
      assert done + {inv} - io.unreadable - io.unopened == done - io.unreadable - io.unopened;
    } else {
      FileWritten(s, k, done, inv, io);
    }
  }

  lemma FileWritten(s: State, k: Key, done: set<Invocation>, inv: Invocation, io: IO)
    requires inv !in done && inv !in io.unreadable && inv !in io.unopened
    ensures Files(s, k, done + {inv}, io)
         == Files(s, k, done, io)[(k, inv) := if inv in io.unwritten then Corrupt
                                              else Saved(OldEntries(s, k, inv) + New(s, k, inv))]
  {
    hide New, OldEntries;
    assert done + {inv} - io.unreadable - io.unopened == (done - io.unreadable - io.unopened) + {inv};
  }

  lemma AppendedStep(s: State, k: Key, done: set<Invocation>, inv: Invocation, io: IO)
    requires inv !in done
    ensures var a, a' := Appended(s, k, done, io), Appended(s, k, done + {inv}, io);
            a' == if inv in io.Failing() then a
                  else a[(k, inv) := AppendedOf(s.appended, k, inv) + New(s, k, inv)]
  {
    hide New, AppendedOf;
  }

  class Collector {
    var journal: Journal
    var next: map<Key, nat>
    var files: map<(Key, Invocation), File>
    ghost var appended: Ledger
    ghost var passed: map<Key, seq<set<Invocation>>>

    ghost function View(): State
      reads this
    {
      State(journal, next, files, appended, passed)
    }

    /** util.read_journal: the kept lines and the cursor, which is None when no line was read. */
    method ReadLines(k: Key, start: nat) returns (logs: seq<nat>, cursor: Option<nat>)
      requires start <= |journal|
      ensures logs == KeptLines(journal, k, start, |journal|)
      ensures forall n: nat :: n in logs <==>
                start <= n < |journal|
                && (if k.user then journal[n].userUnit == Some(k.unit) else journal[n].systemdUnit == Some(k.unit))
      ensures cursor.None? ==> logs == [] && AfterLastShown(journal, k, start, |journal|) == start
      ensures cursor.Some? ==> cursor.value + 1 == AfterLastShown(journal, k, start, |journal|)
    {
      logs, cursor := [], None;
      for i := start to |journal|
        invariant logs == KeptLines(journal, k, start, i)
        invariant cursor.None? ==> logs == [] && AfterLastShown(journal, k, start, i) == start
        invariant cursor.Some? ==> cursor.value + 1 == AfterLastShown(journal, k, start, i)
      {
        if Shown(k, journal[i]) {
          cursor := Some(i);
          if Kept(k, journal[i]) { logs := logs + [i]; }
        }
      }
      KeptLinesAre(journal, k, start, |journal|);
    }

    /** Lines 67 to 84: the lines by invocation, failed invocations only. */
    method Group(k: Key, failed: set<Invocation>, logs: seq<nat>) returns (results: map<Invocation, seq<nat>>)
      requires forall i | 0 <= i < |logs| :: logs[i] < |journal|
      ensures results.Keys == set inv | inv in failed && Select(journal, k, inv, logs) != []
      ensures forall inv | inv in results :: results[inv] == Select(journal, k, inv, logs)
    {
      results := map[];
      for n := 0 to |logs|
        invariant forall inv :: inv in results <==> inv in failed && Select(journal, k, inv, logs[..n]) != []
        invariant forall inv | inv in results :: results[inv] == Select(journal, k, inv, logs[..n])
      {
        assert logs[..n + 1][..n] == logs[..n];
        var invocation := InvocationOf(k, journal[logs[n]]);
        if invocation in failed {
          var earlier := if invocation in results then results[invocation] else [];
          results := results[invocation := earlier + [logs[n]]];
        }
      }
      assert logs[..|logs|] == logs;
    }

    /** JournalHelper.read_journal. */
    method ReadJournal(k: Key, failed: set<Invocation>, start: nat)
      returns (results: map<Invocation, seq<nat>>, cursor: Option<nat>)
      requires start <= |journal|
      ensures results.Keys == set inv | inv in failed && Batch(journal, k, inv, start, |journal|) != []
      ensures forall inv | inv in results :: results[inv] == Batch(journal, k, inv, start, |journal|)
      ensures cursor.Some? ==> cursor.value + 1 == AfterLastShown(journal, k, start, |journal|)
      ensures cursor.None? ==> results == map[]
    {
      var logs: seq<nat>;
      logs, cursor := ReadLines(k, start);
      KeptLinesInRange(journal, k, start, |journal|);
      forall inv ensures Select(journal, k, inv, logs) == Batch(journal, k, inv, start, |journal|) {
        SelectKept(journal, k, inv, start, |journal|);
      }
      assert logs == [] ==> forall inv :: Select(journal, k, inv, logs) == [];
      hide Select, Batch, KeptLines, AfterLastShown;
      results := Group(k, failed, logs);
    }

    /** One pass of the loop over the units in `collect_inner`. */
    method CollectUnit(k: Key, failed: set<Invocation>, io: IO)
      requires Start(View(), k) <= |journal|
      modifies this`next, this`files, this`appended, this`passed
      ensures View() == Rounded(old(View()), k, failed, io)
    {
      hide Batch, Files, Appended, AfterLastShown;
      ghost var s := View();
      NoFilesYet(s, k, io);
      var start := if k in next then next[k] else 0;
      var results, cursor := ReadJournal(k, failed, start);
      assert results.Keys == Hits(s, k, failed);
      if results.Keys == {} { return; }
      var todo := results.Keys;
      assert results.Keys - todo == {};
      while todo != {}
        invariant todo <= results.Keys && journal == s.journal
        invariant files == Files(s, k, results.Keys - todo, io)
        invariant appended == Appended(s, k, results.Keys - todo, io)
        decreases todo
        modifies this`files, this`appended
      {
        var inv :| inv in todo;
        AppendToFile(k, inv, results[inv], io, s, results.Keys - todo);
        assert results.Keys - (todo - {inv}) == (results.Keys - todo) + {inv};
        todo := todo - {inv};
      }
      next := next[k := cursor.value + 1];
      passed := passed[k := Passed(s, k) + seq(cursor.value + 1 - start, _ => failed - io.Failing())];
      assert results.Keys - {} == results.Keys;
    }

    /** Lines 179 to 199 for one invocation. */
    method AppendToFile(k: Key, inv: Invocation, newLogs: seq<nat>, io: IO,
                        ghost s: State, ghost done: set<Invocation>)
      requires files == Files(s, k, done, io) && appended == Appended(s, k, done, io)
      requires inv !in done && newLogs == New(s, k, inv)
      modifies this`files, this`appended
      ensures files == Files(s, k, done + {inv}, io) && appended == Appended(s, k, done + {inv}, io)
    {
      FilesStep(s, k, done, inv, io);
      AppendedStep(s, k, done, inv, io);
      hide Files, Appended, New;
      if inv in io.unreadable { return; }
      var oldJournal := if (k, inv) in files && files[(k, inv)].Saved? then files[(k, inv)].entries else [];
      if inv in io.unopened { return; }
      if inv in io.unwritten {
        files := files[(k, inv) := Corrupt];
      } else {
        files := files[(k, inv) := Saved(oldJournal + newLogs)];
        appended := appended[(k, inv) := AppendedOf(s.appended, k, inv) + newLogs];
      }
    }
  }
}
