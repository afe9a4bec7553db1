/** Kernel traces (helpers/kdump.py): parsing them line by line and pruning repeated ones. */
module Kdump {
  import opened Prelude
  import CaseNames

  /** What frame_re matches in a line. */
  datatype Match = Match(questionable: bool, symbol: string, offset: string, package: Option<string>)

  /** A stripped line, as far as the patterns tell: `registers` are the matches of registers_re. */
  datatype Line = Line(rip: bool, frame: Option<Match>, rsp: Option<string>, registers: seq<(string, string)>)

  datatype Frame = Frame(function_: string, address: string, package: Option<string>)

  type Registers = map<string, string>

  /** Without registers the key is missing. */
  datatype Trace = Trace(frames: seq<Frame>, registers: Registers)

  predicate Ignored(symbol: string) {
    symbol == "asm_exc_page_fault" || symbol == "dump_stack_lvl" || symbol == "panic"
  }

  predicate Internal(symbol: string) {
    |symbol| >= 2 && symbol[..2] == "__"
  }

  function FrameOf(m: Match): Frame {
    Frame(m.symbol, m.offset, m.package)
  }

  // ---------------------------------------------------------------- the specification

  /** The log, split before every line that starts with `RIP: `. */
  function Segments(log: seq<Line>): (s: seq<seq<Line>>)
    ensures s != []
  {
    if log == [] then [[]]
    else
      var s, line := Segments(log[..|log| - 1]), log[|log| - 1];
      if line.rip then s + [[line]] else s[..|s| - 1] + [s[|s| - 1] + [line]]
  }

  function Flatten(s: seq<seq<Line>>): seq<Line> {
    if s == [] then [] else Flatten(s[..|s| - 1]) + s[|s| - 1]
  }

  /** The frames of a segment that are not questionable. */
  function Certain(lines: seq<Line>): seq<Match> {
    if lines == [] then []
    else
      var m := lines[|lines| - 1].frame;
      Certain(lines[..|lines| - 1]) + (if m.Some? && !m.value.questionable then [m.value] else [])
  }

  /** The index of the last frame that is to be ignored, or -1. */
  function LastIgnored(frames: seq<Match>): (i: int)
    ensures -1 <= i < |frames| && (i >= 0 ==> Ignored(frames[i].symbol))
    ensures forall j | i < j < |frames| :: !Ignored(frames[j].symbol)
  {
    if frames == [] then -1
    else if Ignored(frames[|frames| - 1].symbol) then |frames| - 1
    else LastIgnored(frames[..|frames| - 1])
  }

  function WithoutLeadingInternal(frames: seq<Match>): seq<Match> {
    if frames != [] && Internal(frames[0].symbol) then WithoutLeadingInternal(frames[1..]) else frames
  }

  function Kept(segment: seq<Line>): seq<Match> {
    var frames := Certain(segment);
    WithoutLeadingInternal(frames[LastIgnored(frames) + 1..])
  }

  function SetAll(r: Registers, found: seq<(string, string)>): Registers {
    if found == [] then r
    else
      var (name, value) := found[|found| - 1];
      SetAll(r, found[..|found| - 1])[CaseNames.LowerAll(name) := "0x" + value]
  }

  /** The registers of a segment: those of its lines without a frame, where the last value wins. */
  function RegistersOf(segment: seq<Line>): Registers {
    if segment == [] then map[]
    else
      var r, line := RegistersOf(segment[..|segment| - 1]), segment[|segment| - 1];
      if line.frame.Some? then r
      else if line.rsp.Some? then r["rsp" := "0x" + line.rsp.value]
      else SetAll(r, line.registers)
  }

  function Reversed(matches: seq<Match>): seq<Frame> {
    if matches == [] then [] else [FrameOf(matches[|matches| - 1])] + Reversed(matches[..|matches| - 1])
  }

  function TraceOf(segment: seq<Line>): seq<Trace> {
    if Kept(segment) == [] then [] else [Trace(Reversed(Kept(segment)), RegistersOf(segment))]
  }

  function TracesOf(segments: seq<seq<Line>>): seq<Trace> {
    if segments == [] then [] else TracesOf(segments[..|segments| - 1]) + TraceOf(segments[|segments| - 1])
  }

  /** The last segment and those before it, after one line more. */
  lemma SegmentsOfMore(log: seq<Line>, line: Line)
    ensures var s, s' := Segments(log), Segments(log + [line]);
            if line.rip then s'[..|s'| - 1] == s && s'[|s'| - 1] == [line]
            else s'[..|s'| - 1] == s[..|s| - 1] && s'[|s'| - 1] == s[|s| - 1] + [line]
  {
    assert (log + [line])[..|log|] == log;
  }

  lemma {:induction false} SegmentsFlatten(log: seq<Line>)
    ensures Flatten(Segments(log)) == log
  {
    if log == [] {
      assert Flatten([[]]) == Flatten([[]][..0]) + [];
    } else {
      var before, line := log[..|log| - 1], log[|log| - 1];
      assert log == before + [line];
      SegmentsFlatten(before);
      SegmentsOfMore(before, line);
      var s := Segments(before);
      hide Segments;
      assert Flatten(s) == Flatten(s[..|s| - 1]) + s[|s| - 1];
    }
  }

  predicate Delimited(s: seq<seq<Line>>) {
    && (forall i | 0 < i < |s| :: s[i] != [] && s[i][0].rip)
    && (forall i, j | 0 <= i < |s| && (if i == 0 then 0 else 1) <= j < |s[i]| :: !s[i][j].rip)
  }

  lemma DelimitedMore(s: seq<seq<Line>>, line: Line)
    requires s != [] && Delimited(s)
    requires !line.rip && (|s| > 1 || s[0] == [] || !s[0][0].rip)
    ensures Delimited(s[..|s| - 1] + [s[|s| - 1] + [line]])
  {
  }

  lemma TracesOfMore(done: seq<seq<Line>>, segment: seq<Line>)
    ensures TracesOf(done + [segment]) == TracesOf(done) + TraceOf(segment)
  {
    assert (done + [segment])[..|done|] == done;
    hide TraceOf;
  }

  /** The segments are exactly the pieces of the log between the lines that start with `RIP: `. */
  lemma {:induction false} SegmentsSplit(log: seq<Line>)
    ensures Flatten(Segments(log)) == log && Delimited(Segments(log))
  {
    SegmentsFlatten(log);
    if log != [] {
      var before, line := log[..|log| - 1], log[|log| - 1];
      SegmentsSplit(before);
      var s := Segments(before);
      if !line.rip { DelimitedMore(s, line); }
    }
  }

  lemma {:induction false} ReversedAt(matches: seq<Match>, i: nat)
    requires i < |matches|
    ensures |Reversed(matches)| == |matches| && Reversed(matches)[i] == FrameOf(matches[|matches| - 1 - i])
  {
    if i > 0 {
      ReversedAt(matches[..|matches| - 1], i - 1);
    } else if |matches| > 1 {
      ReversedAt(matches[..|matches| - 1], 0);
    }
  }

  lemma {:induction false} LeadingIs(frames: seq<Match>)
    ensures var kept := WithoutLeadingInternal(frames);
            && |kept| <= |frames| && kept == frames[|frames| - |kept|..]
            && (kept != [] ==> !Internal(kept[0].symbol))
            && forall i | 0 <= i < |frames| - |kept| :: Internal(frames[i].symbol)
  {
    if frames != [] && Internal(frames[0].symbol) {
      LeadingIs(frames[1..]);
      assert forall i | 0 < i < |frames| :: frames[i] == frames[1..][i - 1];
    }
  }

  /** The symbols after which a trace starts anew. */
  lemma IgnoredIs(symbol: string)
    ensures Ignored(symbol) <==> symbol in {"asm_exc_page_fault", "dump_stack_lvl", "panic"}
  {
  }

  /** The symbols that a trace does not begin with. */
  lemma InternalIs(symbol: string)
    ensures Internal(symbol) <==> "__" <= symbol
  {
  }

  /** A line gives its frame unless it has none or a questionable one. */
  lemma CertainOfLine(line: Line)
    ensures Certain([line]) == match line.frame
                               case Some(m) => if m.questionable then [] else [m]
                               case None => []
  {
    assert [line][..0] == [];
  }

  /** The certain frames are taken line by line, in order. */
  lemma {:induction false} CertainInOrder(a: seq<Line>, b: seq<Line>)
    ensures Certain(a + b) == Certain(a) + Certain(b)
  {
    if b == [] {
      assert a + b == a;
      assert Certain(b) == [];
    } else {
      var b', all := b[..|b| - 1], a + b;
      CertainInOrder(a, b');
      assert all[..|all| - 1] == a + b' && all[|all| - 1] == b[|b| - 1];
    }
  }

  /**
   * What is kept is the longest end of the certain frames that lies after the last frame to ignore and does
   * not begin with an internal one.
   */
  lemma KeptIs(segment: seq<Line>)
    ensures var frames, kept := Certain(segment), Kept(segment);
            var dropped := |frames| - |kept|;
            && LastIgnored(frames) < dropped && kept == frames[dropped..]
            && (kept != [] ==> !Internal(kept[0].symbol))
            && forall i | LastIgnored(frames) < i < dropped :: Internal(frames[i].symbol)
  {
    EndIs(Certain(segment), LastIgnored(Certain(segment)));
    hide Certain, LastIgnored, WithoutLeadingInternal, Internal, Ignored;
  }

  lemma EndIs(frames: seq<Match>, n: int)
    requires -1 <= n < |frames|
    ensures var kept := WithoutLeadingInternal(frames[n + 1..]);
            var dropped := |frames| - |kept|;
            && n < dropped && kept == frames[dropped..]
            && (kept != [] ==> !Internal(kept[0].symbol))
            && forall i | n < i < dropped :: Internal(frames[i].symbol)
  {
    var rest := frames[n + 1..];
    LeadingIs(rest);
    hide WithoutLeadingInternal, Internal;
    var dropped := |frames| - |WithoutLeadingInternal(rest)|;
    forall i | n < i < dropped ensures Internal(frames[i].symbol) { assert rest[i - n - 1] == frames[i]; }
  }

  /** A line without a frame gives one register, from its stack pointer, or all that registers_re finds. */
  function Found(line: Line): seq<(string, string)> {
    if line.frame.Some? then []
    else if line.rsp.Some? then [("rsp", line.rsp.value)]
    else line.registers
  }

  /** The last of the matches for the register `name`. */
  ghost predicate LastMatch(found: seq<(string, string)>, n: nat, name: string) {
    && n < |found| && CaseNames.LowerAll(found[n].0) == name
    && forall m | n < m < |found| :: CaseNames.LowerAll(found[m].0) != name
  }

  ghost predicate NoMatch(found: seq<(string, string)>, name: string) {
    forall m | 0 <= m < |found| :: CaseNames.LowerAll(found[m].0) != name
  }

  /** Nothing after the match `n` of the line at `i` gives the register another value. */
  ghost predicate LastGives(segment: seq<Line>, i: nat, n: nat, name: string) {
    && i < |segment| && LastMatch(Found(segment[i]), n, name)
    && forall j | i < j < |segment| :: NoMatch(Found(segment[j]), name)
  }

  lemma {:induction false} SetAllOther(r: Registers, found: seq<(string, string)>, name: string)
    requires NoMatch(found, name)
    ensures name in SetAll(r, found) <==> name in r
    ensures name in r ==> SetAll(r, found)[name] == r[name]
  {
    if found != [] {
      hide CaseNames.LowerAll;
      SetAllOther(r, found[..|found| - 1], name);
    }
  }

  lemma {:induction false} SetAllLast(r: Registers, found: seq<(string, string)>, n: nat, name: string)
    requires LastMatch(found, n, name)
    ensures name in SetAll(r, found) && SetAll(r, found)[name] == "0x" + found[n].1
  {
    hide CaseNames.LowerAll;
    if n < |found| - 1 { SetAllLast(r, found[..|found| - 1], n, name); }
  }

  lemma {:induction false} Matches(found: seq<(string, string)>, name: string) returns (n: nat)
    requires !NoMatch(found, name)
    ensures LastMatch(found, n, name)
  {
    hide CaseNames.LowerAll;
    n := |found| - 1;
    if CaseNames.LowerAll(found[n].0) != name { n := Matches(found[..n], name); }
  }

  lemma RegistersOfLine(segment: seq<Line>)
    requires segment != []
    ensures var last := |segment| - 1;
            RegistersOf(segment) == SetAll(RegistersOf(segment[..last]), Found(segment[last]))
  {
    var last := |segment| - 1;
    var r := RegistersOf(segment[..last]);
    assert SetAll(r, []) == r;
    if segment[last].frame.None? && segment[last].rsp.Some? {
      RspIsLower();
      var one: (string, string) := ("rsp", segment[last].rsp.value);
      assert [one][..0] == [] && [one][0] == one;
      assert SetAll(r, [one]) == r["rsp" := "0x" + one.1];
    }
  }

  lemma RspIsLower()
    ensures CaseNames.LowerAll("rsp") == "rsp"
  {
    CaseNames.LowerAllSame("rsp");
  }

  /** A register of a segment has the last value that a line without a frame gives it. */
  lemma {:induction false} RegisterIs(segment: seq<Line>, i: nat, n: nat, name: string)
    requires LastGives(segment, i, n, name)
    ensures name in RegistersOf(segment) && RegistersOf(segment)[name] == "0x" + Found(segment[i])[n].1
  {
    var last := |segment| - 1;
    RegistersOfLine(segment);
    hide RegistersOf, SetAll, Found, LastMatch, NoMatch;
    var before := RegistersOf(segment[..last]);
    if i == last {
      SetAllLast(before, Found(segment[last]), n, name);
    } else {
      RegisterIs(segment[..last], i, n, name);
      SetAllOther(before, Found(segment[last]), name);
    }
  }

  /** And there is no other register. */
  lemma {:induction false} RegisterWasFound(segment: seq<Line>, name: string) returns (i: nat, n: nat)
    requires name in RegistersOf(segment)
    ensures LastGives(segment, i, n, name)
  {
    var last := |segment| - 1;
    RegistersOfLine(segment);
    hide RegistersOf, SetAll, Found, LastMatch, NoMatch;
    if NoMatch(Found(segment[last]), name) {
      SetAllOther(RegistersOf(segment[..last]), Found(segment[last]), name);
      i, n := RegisterWasFound(segment[..last], name);
    } else {
      i := last;
      n := Matches(Found(segment[last]), name);
    }
  }

  // ---------------------------------------------------------------- the traces

  /** A trace lists the kept frames backwards, each with its symbol, offset and module. */
  lemma TraceFrames(segment: seq<Line>, i: nat)
    requires Kept(segment) != [] && i < |Kept(segment)|
    ensures |TraceOf(segment)| == 1 && |TraceOf(segment)[0].frames| == |Kept(segment)|
    ensures var f, m := TraceOf(segment)[0].frames[i], Kept(segment)[|Kept(segment)| - 1 - i];
            f.function_ == m.symbol && f.address == m.offset && f.package == m.package
    ensures TraceOf(segment)[0].registers == RegistersOf(segment)
  {
    ReversedAt(Kept(segment), i);
    hide Kept, RegistersOf, Reversed;
  }

  /** A segment that keeps nothing has no trace. */
  lemma NoTrace(segment: seq<Line>)
    ensures TraceOf(segment) == [] <==> Kept(segment) == []
  {
  }

  /** The traces of the segments follow each other in the order of the log. */
  lemma {:induction false} TracesInOrder(a: seq<seq<Line>>, segment: seq<Line>, b: seq<seq<Line>>)
    ensures TracesOf(a + [segment] + b) == TracesOf(a) + TraceOf(segment) + TracesOf(b)
  {
    hide TraceOf;
    if b == [] {
      TracesOfMore(a, segment);
      assert a + [segment] + b == a + [segment];
      assert TracesOf(b) == [];
    } else {
      var b' := b[..|b| - 1];
      TracesInOrder(a, segment, b');
      TracesOfMore(a + [segment] + b', b[|b| - 1]);
      TracesOfMore(b', b[|b| - 1]);
      assert a + [segment] + b == (a + [segment] + b') + [b[|b| - 1]] && b == b' + [b[|b| - 1]];
    }
  }

  // ---------------------------------------------------------------- one line more

  lemma {:induction false} OneMoreLeading(frames: seq<Match>, m: Match)
    ensures WithoutLeadingInternal(frames + [m])
         == if WithoutLeadingInternal(frames) == [] && Internal(m.symbol) then []
            else WithoutLeadingInternal(frames) + [m]
  {
    var all := frames + [m];
    if frames == [] {
      assert all[1..] == [];
    } else if Internal(frames[0].symbol) {
      assert all[1..] == frames[1..] + [m];
      OneMoreLeading(frames[1..], m);
    }
  }

  lemma OneMoreLine(segment: seq<Line>, line: Line)
    ensures Certain(segment + [line])
         == Certain(segment)
            + (if line.frame.Some? && !line.frame.value.questionable then [line.frame.value] else [])
  {
    assert (segment + [line])[..|segment|] == segment;
  }

  /** What remains after the last ignored frame. */
  lemma OneMoreIgnored(frames: seq<Match>, m: Match)
    ensures var all := frames + [m];
            all[LastIgnored(all) + 1..]
            == if Ignored(m.symbol) then [] else frames[LastIgnored(frames) + 1..] + [m]
  {
    var all := frames + [m];
    assert all[..|all| - 1] == frames;
    hide Ignored;
    if Ignored(m.symbol) {
      assert LastIgnored(all) == |all| - 1;
    } else {
      assert LastIgnored(all) == LastIgnored(frames);
    }
  }

  lemma NothingLeading()
    ensures WithoutLeadingInternal([]) == []
  {
  }

  lemma OneMoreFrame(segment: seq<Line>, line: Line)
    ensures Kept(segment + [line])
         == if line.frame.None? || line.frame.value.questionable then Kept(segment)
            else if Ignored(line.frame.value.symbol) then []
            else if Kept(segment) == [] && Internal(line.frame.value.symbol) then []
            else Kept(segment) + [line.frame.value]
  {
    NothingLeading();
    hide Certain, LastIgnored, Ignored, Internal, WithoutLeadingInternal;
    OneMoreLine(segment, line);
    var frames := Certain(segment);
    if line.frame.Some? && !line.frame.value.questionable {
      OneMoreIgnored(frames, line.frame.value);
      OneMoreLeading(frames[LastIgnored(frames) + 1..], line.frame.value);
    } else {
      assert frames + [] == frames;
    }
  }

  lemma OneMoreRegister(segment: seq<Line>, line: Line)
    ensures RegistersOf(segment + [line])
         == if line.frame.Some? then RegistersOf(segment)
            else if line.rsp.Some? then RegistersOf(segment)["rsp" := "0x" + line.rsp.value]
            else SetAll(RegistersOf(segment), line.registers)
  {
    assert (segment + [line])[..|segment|] == segment;
  }

  // ---------------------------------------------------------------- the parser

  function FramesOf(matches: seq<Match>): seq<Frame> {
    seq(|matches|, i requires 0 <= i < |matches| => FrameOf(matches[i]))
  }

  lemma NoFrames()
    ensures FramesOf(Kept([])) == []
  {
  }

  lemma NoLines()
    ensures FramesOf(Kept([])) == []
    ensures RegistersOf([]) == map[]
  {
    NoFrames();
    hide Kept, FramesOf, SetAll;
  }

  lemma NoSegments()
    ensures Segments([]) == [[]]
    ensures TracesOf([]) == []
  {
    hide TraceOf;
  }

  class Parser {
    var traces: seq<Trace>
    var frames: Option<seq<Frame>>
    var registers: Option<Registers>

    /** What the fields hold after some lines of the segment; a missing list is as good as an empty one. */
    ghost predicate Holds(done: seq<seq<Line>>, segment: seq<Line>)
      reads this
    {
      && traces == TracesOf(done)
      && frames.GetOr([]) == FramesOf(Kept(segment))
      && registers.GetOr(map[]) == RegistersOf(segment)
    }

    method Append()
      requires frames.Some?
      modifies this
      ensures traces == old(traces) + [Trace(Backwards(old(frames).value), registers.GetOr(map[]))]
      ensures frames == Some(Backwards(old(frames).value)) && registers == old(registers)
    {
      var reversed := [];
      for i := 0 to |frames.value|
        invariant reversed == Backwards(frames.value[..i]) && traces == old(traces) && frames == old(frames)
        invariant registers == old(registers)
      {
        assert frames.value[..i + 1][..i] == frames.value[..i];
        reversed := [frames.value[i]] + reversed;
      }
      assert frames.value[..|frames.value|] == frames.value;
      frames := Some(reversed);
      if registers.Some? && registers.value != map[] {
        traces := traces + [Trace(frames.value, registers.value)];
      } else {
        traces := traces + [Trace(frames.value, map[])];
      }
    }

    /** Lines 128 and 129, and 169 and 170: the segment is complete. */
    method Finish(ghost done: seq<seq<Line>>, ghost segment: seq<Line>)
      requires Holds(done, segment)
      modifies this
      ensures traces == TracesOf(done + [segment])
    {
      TracesOfMore(done, segment);
      BackwardsIsReversed(Kept(segment));
      hide Kept, RegistersOf, Reversed, Backwards, TracesOf;
      assert traces + [] == traces;
      assert Kept(segment) == [] <==> frames.GetOr([]) == [] by {
        assert |FramesOf(Kept(segment))| == |Kept(segment)|;
      }
      if frames.Some? && frames.value != [] { Append(); }
    }

    method ReadFrame(m: Match, ghost done: seq<seq<Line>>, ghost segment: seq<Line>, ghost line: Line)
      requires Holds(done, segment) && line.frame == Some(m)
      modifies this
      ensures Holds(done, segment + [line])
    {
      OneMoreFrame(segment, line);
      OneMoreRegister(segment, line);
      hide Kept, RegistersOf, TracesOf;
      if m.questionable { return; }
      if (frames.None? || frames.value == []) && Internal(m.symbol) { return; }
      if Ignored(m.symbol) {
        frames := Some([]);
        return;
      }
      if frames.None? || frames.value == [] { frames := Some([]); }
      frames := Some(frames.value + [FrameOf(m)]);
    }

    method ReadRegisters(line: Line, ghost done: seq<seq<Line>>, ghost segment: seq<Line>)
      requires Holds(done, segment) && line.frame.None?
      modifies this
      ensures Holds(done, segment + [line])
    {
      OneMoreFrame(segment, line);
      OneMoreRegister(segment, line);
      hide Kept, RegistersOf, TracesOf;
      if line.rsp.Some? {
        if registers.None? || registers.value == map[] { registers := Some(map[]); }
        registers := Some(registers.value["rsp" := "0x" + line.rsp.value]);
        return;
      }
      if line.registers != [] {
        if registers.None? || registers.value == map[] { registers := Some(map[]); }
        for n := 0 to |line.registers|
          invariant registers.Some? && traces == old(traces) && frames == old(frames)
          invariant registers.value == SetAll(old(registers.GetOr(map[])), line.registers[..n])
        {
          assert line.registers[..n + 1][..n] == line.registers[..n];
          var (name, value) := line.registers[n];
          registers := Some(registers.value[CaseNames.LowerAll(name) := "0x" + value]);
        }
        assert line.registers[..|line.registers|] == line.registers;
      }
    }

    /** The body of the loop. */
    method ReadLine(line: Line, ghost done: seq<seq<Line>>, ghost segment: seq<Line>)
      requires Holds(done, segment)
      modifies this
      ensures if line.rip then Holds(done + [segment], [line]) else Holds(done, segment + [line])
    {
      hide Kept, RegistersOf, TracesOf, FramesOf;
      ghost var done', segment' := done, segment;
      if line.rip {
        Finish(done, segment);
        frames := None;
        registers := None;
        done', segment' := done + [segment], [];
        NoLines();
      }
      assert [] + [line] == [line];
      if line.frame.Some? {
        ReadFrame(line.frame.value, done', segment', line);
      } else {
        ReadRegisters(line, done', segment');
      }
    }

    method ParseTraces(log: seq<Line>)
      modifies this
      ensures traces == TracesOf(Segments(log))
    {
      hide Kept, RegistersOf, TracesOf, FramesOf, Segments;
      traces, frames, registers := [], None, None;
      NoLines();
      NoSegments();
      ghost var done: seq<seq<Line>>, segment: seq<Line> := [], [];
      assert log[..0] == [] && [] + [segment] == [[]];
      for i := 0 to |log|
        invariant Segments(log[..i]) == done + [segment] && Holds(done, segment)
      {
        SegmentsOfMore(log[..i], log[i]);
        assert log[..i + 1] == log[..i] + [log[i]];
        ghost var s, s' := done + [segment], Segments(log[..i + 1]);
        assert s[..|s| - 1] == done && s' == s'[..|s'| - 1] + [s'[|s'| - 1]];
        ReadLine(log[i], done, segment);
        if log[i].rip {
          done, segment := done + [segment], [log[i]];
        } else {
          segment := segment + [log[i]];
        }
      }
      assert log[..|log|] == log;
      Finish(done, segment);
    }
  }

  /** list.reverse */
  function Backwards(frames: seq<Frame>): seq<Frame> {
    if frames == [] then [] else [frames[|frames| - 1]] + Backwards(frames[..|frames| - 1])
  }

  lemma {:induction false} BackwardsIsReversed(matches: seq<Match>)
    ensures Backwards(FramesOf(matches)) == Reversed(matches)
  {
    if matches != [] {
      BackwardsIsReversed(matches[..|matches| - 1]);
      assert FramesOf(matches)[..|matches| - 1] == FramesOf(matches[..|matches| - 1]);
    }
  }

  // ---------------------------------------------------------------- pruning

  /** How many traces at the beginning have the frames of the first. */
  function RunLength(stack: seq<Trace>): (n: nat)
    ensures n <= |stack| && (stack != [] ==> n > 0)
    ensures forall i | 0 <= i < n :: stack[i].frames == stack[0].frames
    ensures n < |stack| ==> stack != [] && stack[n].frames != stack[0].frames
  {
    if |stack| <= 1 || stack[1].frames != stack[0].frames then (if stack == [] then 0 else 1)
    else 1 + RunLength(stack[1..])
  }

  predicate HasRegisters(t: Trace) {
    t.registers != map[]
  }

  predicate AnyRegisters(run: seq<Trace>) {
    run != [] && (HasRegisters(run[0]) || AnyRegisters(run[1..]))
  }

  /** The first trace of a run that has registers, or else the first. */
  function Pick(run: seq<Trace>): Trace
    requires run != []
  {
    if HasRegisters(run[0]) || !AnyRegisters(run[1..]) then run[0] else Pick(run[1..])
  }

  /** One trace for every maximal run of equal frames. */
  function Pruned(stack: seq<Trace>): seq<Trace>
    decreases |stack|
  {
    if stack == [] then []
    else [Pick(stack[..RunLength(stack)])] + Pruned(stack[RunLength(stack)..])
  }

  lemma {:induction false} PickIs(run: seq<Trace>)
    requires run != []
    ensures AnyRegisters(run) <==> exists i :: 0 <= i < |run| && HasRegisters(run[i])
    ensures if AnyRegisters(run) then
              exists i :: 0 <= i < |run| && Pick(run) == run[i] && HasRegisters(run[i])
                          && forall j | 0 <= j < i :: !HasRegisters(run[j])
            else Pick(run) == run[0]
  {
    if HasRegisters(run[0]) {
      assert Pick(run) == run[0];
    } else if |run| > 1 {
      var rest := run[1..];
      PickIs(rest);
      assert forall i | 0 < i < |run| :: run[i] == rest[i - 1];
      assert forall i | 0 <= i < |rest| :: rest[i] == run[i + 1];
      if AnyRegisters(rest) {
        var i :| 0 <= i < |rest| && Pick(rest) == rest[i] && HasRegisters(rest[i])
                 && forall j | 0 <= j < i :: !HasRegisters(rest[j]);
        assert Pick(run) == run[i + 1];
      }
    }
  }

  /** Of two traces with the same frames next to each other only one matters. */
  function Better(a: Trace, b: Trace): Trace {
    if HasRegisters(b) && !HasRegisters(a) then b else a
  }

  lemma PickBetter(a: Trace, b: Trace, rest: seq<Trace>)
    ensures Pick([a, b] + rest) == Pick([Better(a, b)] + rest)
  {
    var run, tail := [a, b] + rest, [b] + rest;
    assert run[1..] == tail && tail[1..] == rest;
    assert ([Better(a, b)] + rest)[1..] == rest;
    assert AnyRegisters(run) == (HasRegisters(a) || AnyRegisters(tail));
    assert AnyRegisters(tail) == (HasRegisters(b) || AnyRegisters(rest));
    if !HasRegisters(a) && !HasRegisters(b) {
      assert Pick(run) == if AnyRegisters(rest) then Pick(tail) else a;
      assert AnyRegisters(rest) ==> Pick(tail) == Pick(rest);
    }
  }

  lemma PrunedBetter(a: Trace, b: Trace, rest: seq<Trace>)
    requires a.frames == b.frames
    ensures Pruned([a, b] + rest) == Pruned([Better(a, b)] + rest)
  {
    var run, run', c := [a, b] + rest, [Better(a, b)] + rest, Better(a, b);
    SameRunLength(b, c, rest);
    LongerRun(a, b, rest);
    var n := RunLength([b] + rest);
    hide RunLength, Pick;
    assert run[..n + 1] == [a, b] + rest[..n - 1] && run'[..n] == [c] + rest[..n - 1];
    assert run[n + 1..] == rest[n - 1..] == run'[n..];
    PickBetter(a, b, rest[..n - 1]);
  }

  lemma LongerRun(a: Trace, b: Trace, rest: seq<Trace>)
    requires a.frames == b.frames
    ensures RunLength([a, b] + rest) == RunLength([b] + rest) + 1
  {
    assert ([a, b] + rest)[1..] == [b] + rest;
  }

  lemma SameRunLength(b: Trace, c: Trace, rest: seq<Trace>)
    requires b.frames == c.frames
    ensures RunLength([b] + rest) == RunLength([c] + rest)
  {
    assert ([b] + rest)[1..] == rest == ([c] + rest)[1..];
  }

  lemma PickOne(a: Trace)
    ensures Pick([a]) == a
  {
    assert [a][1..] == [];
  }

  lemma PrunedNext(a: Trace, b: Trace, rest: seq<Trace>)
    requires a.frames != b.frames
    ensures Pruned([a, b] + rest) == [a] + Pruned([b] + rest)
  {
    var run := [a, b] + rest;
    assert RunLength(run) == 1 && run[..1] == [a] && run[1..] == [b] + rest;
    PickOne(a);
    hide Pick;
  }

  lemma PrunedOne(a: Trace)
    ensures Pruned([a]) == [a]
  {
    assert [a][..1] == [a] && [a][1..] == [];
    PickOne(a);
    hide Pick;
  }

  function WithNext(pruned: seq<Trace>, trace: Trace): (r: seq<Trace>)
    requires pruned != []
    ensures r != []
  {
    var p := pruned[|pruned| - 1];
    if trace.frames == p.frames then pruned[..|pruned| - 1] + [Better(p, trace)] else pruned + [trace]
  }

  /** What is pruned so far, when the last trace of it may still be replaced. */
  function Completed(pruned: seq<Trace>, rest: seq<Trace>): seq<Trace>
    requires pruned != []
  {
    pruned[..|pruned| - 1] + Pruned([pruned[|pruned| - 1]] + rest)
  }

  lemma CompletedNext(pruned: seq<Trace>, trace: Trace, rest: seq<Trace>)
    requires pruned != []
    ensures Completed(pruned, [trace] + rest) == Completed(WithNext(pruned, trace), rest)
  {
    hide Pruned;
    var p := pruned[|pruned| - 1];
    assert [p] + ([trace] + rest) == [p, trace] + rest;
    if trace.frames == p.frames {
      PrunedBetter(p, trace, rest);
    } else {
      PrunedNext(p, trace, rest);
    }
  }

  /** The loop of `submit`. */
  method Prune(stack: seq<Trace>) returns (pruned: seq<Trace>)
    ensures pruned == Pruned(stack)
  {
    hide Pruned, Completed;
    pruned := [];
    var last: Option<Trace> := None;
    for i := 0 to |stack|
      invariant last.None? <==> i == 0
      invariant last.None? ==> pruned == []
      invariant last.Some? ==> pruned != [] && pruned[|pruned| - 1] == last.value
      invariant last.Some? ==> Pruned(stack) == Completed(pruned, stack[i..])
    {
      var trace := stack[i];
      assert stack[i..] == [trace] + stack[i + 1..];
      ghost var before := pruned;
      if last.Some? {
        CompletedNext(pruned, trace, stack[i + 1..]);
      } else {
        CompletedFirst(stack);
        assert [] + [trace] == [stack[0]] && stack[1..] == stack[i + 1..];
      }
      if last == Some(trace) {
        assert WithNext(before, trace) == before;
        continue;
      }
      if last.None? || trace.frames != last.value.frames {
        pruned := pruned + [trace];
      } else if HasRegisters(trace) && !HasRegisters(last.value) {
        pruned := pruned[|pruned| - 1 := trace];
      } else {
        assert WithNext(before, trace) == before;
        continue;
      }
      assert before != [] ==> pruned == WithNext(before, trace);
      last := Some(trace);
    }
    if stack == [] { NothingPruned(); } else { CompletedEnd(pruned, stack); }
  }

  lemma NothingPruned()
    ensures Pruned([]) == []
  {
  }

  lemma CompletedFirst(stack: seq<Trace>)
    requires stack != []
    ensures Completed([stack[0]], stack[1..]) == Pruned(stack)
  {
    assert [stack[0]] + stack[1..] == stack;
    hide Pruned;
  }

  lemma CompletedEnd(pruned: seq<Trace>, stack: seq<Trace>)
    requires pruned != []
    ensures Completed(pruned, stack[|stack|..]) == pruned
  {
    PrunedOne(pruned[|pruned| - 1]);
    hide Pruned;
    assert [pruned[|pruned| - 1]] + stack[|stack|..] == [pruned[|pruned| - 1]];
  }

  predicate AdjacentDiffer(stack: seq<Trace>) {
    forall i | 0 < i < |stack| :: stack[i - 1].frames != stack[i].frames
  }

  lemma {:induction false} PrunedDiffer(stack: seq<Trace>)
    ensures AdjacentDiffer(Pruned(stack))
    ensures stack != [] ==> Pruned(stack) != [] && Pruned(stack)[0].frames == stack[0].frames
    decreases |stack|
  {
    if stack != [] {
      var n := RunLength(stack);
      PrunedDiffer(stack[n..]);
      PickIs(stack[..n]);
    }
  }

  lemma {:induction false} NothingToPrune(stack: seq<Trace>)
    requires AdjacentDiffer(stack)
    ensures Pruned(stack) == stack
    decreases |stack|
  {
    if stack != [] {
      NothingToPrune(stack[1..]);
      assert RunLength(stack) == 1 && stack[..1] == [stack[0]];
      PickOne(stack[0]);
      hide Pick;
      assert stack == [stack[0]] + stack[1..];
    }
  }

  /** No two neighbours are left with the same frames, and pruning again changes nothing. */
  lemma PruningIsIdempotent(stack: seq<Trace>)
    ensures AdjacentDiffer(Pruned(stack)) && Pruned(Pruned(stack)) == Pruned(stack)
  {
    PrunedDiffer(stack);
    NothingToPrune(Pruned(stack));
  }

  /** A run of equal frames is pruned to one trace, and what follows with other frames is pruned by itself. */
  lemma PrunedByRuns(run: seq<Trace>, rest: seq<Trace>)
    requires run != [] && forall i | 0 <= i < |run| :: run[i].frames == run[0].frames
    requires rest != [] ==> rest[0].frames != run[0].frames
    ensures Pruned(run + rest) == [Pick(run)] + Pruned(rest)
  {
    var stack := run + rest;
    assert forall i | 0 <= i < |run| :: stack[i] == run[i];
    assert rest != [] ==> stack[|run|] == rest[0];
    assert RunLength(stack) == |run|;
    assert stack[..|run|] == run && stack[|run|..] == rest;
  }
}
