/** Unit names in file names (helpers/journal.py): escaping, unescaping, and reading a name back from a path. */
module JournalNames {
  import opened Prelude

  // ---------------------------------------------------------------- UTF-8, RFC 3629 section 3

  function Continuation(n: int): Byte {
    (0x80 + n % 0x40) as Byte
  }

  function EncodeChar(c: char): seq<Byte> {
    var n := c as int;
    if n < 0x80 then [n as Byte]
    else if n < 0x800 then [(0xC0 + n / 0x40) as Byte, Continuation(n)]
    else if n < 0x1_0000 then [(0xE0 + n / 0x1000) as Byte, Continuation(n / 0x40), Continuation(n)]
    else [(0xF0 + n / 0x4_0000) as Byte, Continuation(n / 0x1000), Continuation(n / 0x40), Continuation(n)]
  }

  function Encode(name: string): seq<Byte> {
    if name == "" then [] else EncodeChar(name[0]) + Encode(name[1..])
  }

  function Tail(b: Byte): int {
    b as int % 0x40
  }

  /** The code point and length of the first character. */
  function DecodeChar(bytes: seq<Byte>): (int, nat)
    requires bytes != []
  {
    var b := bytes[0] as int;
    if b < 0x80 || |bytes| < 2 then (b, 1)
    else if b < 0xE0 || |bytes| < 3 then (b % 0x20 * 0x40 + Tail(bytes[1]), 2)
    else if b < 0xF0 || |bytes| < 4 then (b % 0x10 * 0x1000 + Tail(bytes[1]) * 0x40 + Tail(bytes[2]), 3)
    else (b % 0x08 * 0x4_0000 + Tail(bytes[1]) * 0x1000 + Tail(bytes[2]) * 0x40 + Tail(bytes[3]), 4)
  }

  lemma TailOfContinuation(n: nat)
    ensures Tail(Continuation(n)) == n % 0x40
  {
    assert (0x80 + n % 0x40) % 0x40 == n % 0x40;
  }

  lemma DecodeTwo(n: nat)
    requires n < 0x800
    ensures (0xC0 + n / 0x40) % 0x20 * 0x40 + Tail(Continuation(n)) == n
  {
    assert (0xC0 + n / 0x40) % 0x20 == n / 0x40;
    TailOfContinuation(n);
  }

  lemma DecodeThree(n: nat)
    requires n < 0x1_0000
    ensures (0xE0 + n / 0x1000) % 0x10 * 0x1000 + Tail(Continuation(n / 0x40)) * 0x40 + Tail(Continuation(n)) == n
  {
    assert (0xE0 + n / 0x1000) % 0x10 == n / 0x1000;
    TailOfContinuation(n);
    TailOfContinuation(n / 0x40);
  }

  lemma DecodeFour(n: nat)
    requires n < 0x11_0000
    ensures (0xF0 + n / 0x4_0000) % 0x8 * 0x4_0000 + Tail(Continuation(n / 0x1000)) * 0x1000
            + Tail(Continuation(n / 0x40)) * 0x40 + Tail(Continuation(n)) == n
  {
    TailOfContinuation(n);
    TailOfContinuation(n / 0x40);
    TailOfContinuation(n / 0x1000);
    hide Tail, Continuation;
    var a, b, c := n / 0x40, n / 0x1000, n / 0x4_0000;
    assert (0xF0 + c) % 0x8 == c;
    assert n == a * 0x40 + n % 0x40 && a == b * 0x40 + a % 0x40 && b == c * 0x40 + b % 0x40;
  }

  lemma DecodeEncoded(c: char, rest: seq<Byte>)
    ensures DecodeChar(EncodeChar(c) + rest) == (c as int, |EncodeChar(c)|)
  {
    var n := c as int;
    if n < 0x80 {
    } else if n < 0x800 {
      DecodeTwo(n);
      hide Tail, Continuation;
    } else if n < 0x1_0000 {
      DecodeThree(n);
      hide Tail, Continuation;
    } else {
      DecodeFour(n);
      hide Tail, Continuation;
    }
  }

  lemma {:induction false} EncodeInjective(a: string, b: string)
    requires Encode(a) == Encode(b)
    ensures a == b
  {
    if a != "" && b != "" {
      DecodeEncoded(a[0], Encode(a[1..]));
      DecodeEncoded(b[0], Encode(b[1..]));
      assert Encode(a)[|EncodeChar(a[0])|..] == Encode(a[1..]);
      assert Encode(b)[|EncodeChar(b[0])|..] == Encode(b[1..]);
      EncodeInjective(a[1..], b[1..]);
      assert a == [a[0]] + a[1..] && b == [b[0]] + b[1..];
    }
  }

  // ---------------------------------------------------------------- escaping

  predicate Alphanumeric(b: Byte) {
    '0' as int <= b as int <= '9' as int || 'A' as int <= b as int <= 'Z' as int || 'a' as int <= b as int <= 'z' as int
  }

  function Digit(n: int): char
    requires 0 <= n < 16
  {
    if n < 10 then '0' + n as char else 'a' + (n - 10) as char
  }

  /** Two columns of hexadecimal, padded with a space. */
  function Hex(b: Byte): string {
    [if b < 16 then ' ' else Digit(b as int / 16), Digit(b as int % 16)]
  }

  function EscapeByte(b: Byte): string {
    if Alphanumeric(b) then [b as int as char] else "_" + Hex(b)
  }

  function EscapeBytes(bytes: seq<Byte>): string {
    if bytes == [] then "" else EscapeByte(bytes[0]) + EscapeBytes(bytes[1..])
  }

  function Escape(name: string): string {
    EscapeBytes(Encode(name))
  }

  function DigitValue(c: char): Option<int> {
    if '0' <= c <= '9' then Some(c as int - '0' as int)
    else if 'a' <= c <= 'f' then Some(c as int - 'a' as int + 10)
    else if 'A' <= c <= 'F' then Some(c as int - 'A' as int + 10)
    else None
  }

  predicate Space(c: char) {
    c == ' ' || '\t' <= c <= '\r' || 0x1C <= c as int <= 0x1F
  }

  /** int(text, 16) for two ASCII characters: white space is stripped, and one may be a sign. */
  function Number(a: char, b: char): Option<int> {
    var x, y := DigitValue(a), DigitValue(b);
    if x.Some? && y.Some? then Some(x.value * 16 + y.value)
    else if y.Some? && (Space(a) || a == '+') then y
    else if y.Some? && a == '-' then Some(-y.value)
    else if x.Some? && Space(b) then x
    else None
  }

  /** chr() of it; a negative number raises the same error as a malformed one. */
  function Unescaped(a: char, b: char): string {
    var n := Number(a, b);
    if n.Some? && 0 <= n.value < 256 then [n.value as char] else ""
  }

  function Unescape(escaped: string): string {
    if escaped == "" then ""
    else if escaped[0] != '_' then [escaped[0]] + Unescape(escaped[1..])
    else if |escaped| < 3 then ""
    else Unescaped(escaped[1], escaped[2]) + Unescape(escaped[3..])
  }

  lemma UnescapePlain(c: char, rest: string)
    requires c != '_'
    ensures Unescape([c] + rest) == [c] + Unescape(rest)
  {
    assert ([c] + rest)[1..] == rest;
  }

  lemma UnescapeCode(a: char, b: char, rest: string)
    ensures Unescape("_" + [a, b] + rest) == Unescaped(a, b) + Unescape(rest)
  {
    assert ("_" + [a, b] + rest)[3..] == rest;
    hide Unescaped;
  }

  /** What is still to come when `progress` holds what follows an underscore. */
  function Pending(progress: Option<string>, rest: string): string {
    match progress
    case None => Unescape(rest)
    case Some(p) => Unescape("_" + p + rest)
  }

  /** One more character: what is held then, and what it adds. */
  function Progressed(progress: Option<string>, c: char): (Option<string>, string)
    requires progress.Some? ==> |progress.value| < 2
  {
    match progress
    case None => if c == '_' then (Some(""), "") else (None, [c])
    case Some(p) => if p == "" then (Some([c]), "") else (None, Unescaped(p[0], c))
  }

  lemma PendingStep(progress: Option<string>, c: char, rest: string)
    requires progress.Some? ==> |progress.value| < 2
    ensures var (progress', added) := Progressed(progress, c);
            Pending(progress, [c] + rest) == added + Pending(progress', rest)
  {
    hide Unescape, Unescaped;
    match progress
    case None =>
      if c == '_' { assert "_" + "" + rest == [c] + rest; } else { UnescapePlain(c, rest); }
    case Some(p) =>
      if p == "" {
        assert "_" + "" + ([c] + rest) == "_" + [c] + rest;
      } else {
        UnescapeCode(p[0], c, rest);
        assert "_" + p + ([c] + rest) == "_" + [p[0], c] + rest;
      }
  }

  lemma PendingEnd(progress: Option<string>)
    requires progress.Some? ==> |progress.value| < 2
    ensures Pending(progress, "") == ""
  {
  }

  /** Lines 129 to 145; an escape that is cut off is dropped. */
  method UnescapeName(escaped: string) returns (unescaped: string)
    ensures unescaped == Unescape(escaped)
  {
    hide Unescape, Number, Pending;
    unescaped := "";
    var progress: Option<string> := None;
    assert Unescape(escaped) == Pending(None, escaped[0..]) by { PendingStart(escaped); }
    for i := 0 to |escaped|
      invariant progress.Some? ==> |progress.value| < 2
      invariant Unescape(escaped) == unescaped + Pending(progress, escaped[i..])
    {
      var c := escaped[i];
      ghost var (progress', added) := Progressed(progress, c);
      ghost var before := unescaped;
      assert before + "" == before && "" + [c] == [c];
      PendingStep(progress, c, escaped[i + 1..]);
      assert escaped[i..] == [c] + escaped[i + 1..];
      if progress.None? {
        if c != '_' {
          unescaped := unescaped + [c];
        } else {
          progress := Some("");
        }
      } else {
        progress := Some(progress.value + [c]);
        if |progress.value| == 2 {
          var n := Number(progress.value[0], progress.value[1]);
          if n.Some? && 0 <= n.value < 256 { unescaped := unescaped + [n.value as char]; }
          progress := None;
        }
      }
      assert progress == progress' && unescaped == before + added;
    }
    PendingEnd(progress);
    assert escaped[|escaped|..] == "";
  }

  lemma PendingStart(escaped: string)
    ensures Pending(None, escaped[0..]) == Unescape(escaped)
  {
    assert escaped[0..] == escaped;
  }

  function Chars(bytes: seq<Byte>): string {
    if bytes == [] then "" else [bytes[0] as int as char] + Chars(bytes[1..])
  }

  lemma DigitsRead(n: int)
    requires 0 <= n < 16
    ensures DigitValue(Digit(n)) == Some(n)
  {
  }

  lemma UnescapeByte(b: Byte, rest: string)
    ensures Unescape(EscapeByte(b) + rest) == [b as int as char] + Unescape(rest)
  {
    var all := EscapeByte(b) + rest;
    if Alphanumeric(b) {
      assert all[1..] == rest;
    } else {
      DigitsRead(b as int / 16);
      DigitsRead(b as int % 16);
      assert all[3..] == rest && all[1..3] == Hex(b);
      hide DigitValue, Digit;
      assert all[1] == Hex(b)[0] && all[2] == Hex(b)[1];
    }
  }

  lemma {:induction false} UnescapeBytes(bytes: seq<Byte>, rest: string)
    ensures Unescape(EscapeBytes(bytes) + rest) == Chars(bytes) + Unescape(rest)
  {
    if bytes == [] {
      assert "" + rest == rest && "" + Unescape(rest) == Unescape(rest);
    } else {
      var first, more := EscapeByte(bytes[0]), EscapeBytes(bytes[1..]);
      assert first + more + rest == first + (more + rest);
      UnescapeByte(bytes[0], more + rest);
      UnescapeBytes(bytes[1..], rest);
      hide EscapeByte, Unescape;
    }
  }

  /** Unescaping gives the bytes of the name, one character each. */
  lemma EscapeRoundTrip(name: string)
    ensures Unescape(Escape(name)) == Chars(Encode(name))
  {
    UnescapeBytes(Encode(name), "");
    assert Escape(name) + "" == Escape(name) && Chars(Encode(name)) + "" == Chars(Encode(name));
  }

  predicate Ascii(name: string) {
    forall i | 0 <= i < |name| :: name[i] as int < 0x80
  }

  lemma {:induction false} AsciiChars(name: string)
    requires Ascii(name)
    ensures Chars(Encode(name)) == name
  {
    if name != "" {
      AsciiChars(name[1..]);
      assert Encode(name)[1..] == Encode(name[1..]);
    }
  }

  /** So an ASCII name comes back as it was. */
  lemma AsciiRoundTrip(name: string)
    requires Ascii(name)
    ensures Unescape(Escape(name)) == name
  {
    EscapeRoundTrip(name);
    AsciiChars(name);
  }

  lemma {:induction false} CharsInjective(a: seq<Byte>, b: seq<Byte>)
    requires Chars(a) == Chars(b)
    ensures a == b
  {
    if a != [] && b != [] {
      assert Chars(a)[1..] == Chars(a[1..]) && Chars(b)[1..] == Chars(b[1..]);
      assert Chars(a)[0] == Chars(b)[0];
      CharsInjective(a[1..], b[1..]);
      assert a == [a[0]] + a[1..] && b == [b[0]] + b[1..];
    }
  }

  predicate Letters(name: string) {
    forall i | 0 <= i < |name| ::
      'a' <= name[i] <= 'z' || 'A' <= name[i] <= 'Z' || '0' <= name[i] <= '9'
  }

  /** Letters and digits are not escaped. */
  lemma {:induction false} LettersKept(name: string)
    requires Letters(name)
    ensures Escape(name) == name
  {
    if name != "" {
      LettersKept(name[1..]);
      assert Encode(name)[1..] == Encode(name[1..]);
    }
  }

  /** A byte is escaped with an underscore and two columns of lower case hexadecimal, padded with a space. */
  lemma EscapeIs(b: Byte)
    requires !('a' as int <= b as int <= 'z' as int || 'A' as int <= b as int <= 'Z' as int
               || '0' as int <= b as int <= '9' as int)
    ensures var e, digits := EscapeByte(b), "0123456789abcdef";
            |e| == 3 && e[0] == '_' && e[2] == digits[b as int % 16]
            && e[1] == if b as int < 16 then ' ' else digits[b as int / 16]
  {
    assert forall n | 0 <= n < 16 :: Digit(n) == "0123456789abcdef"[n];
  }

  /** What int() strips: tabs, line ends, separators and the space. */
  lemma SpaceIs(c: char)
    ensures Space(c) <==> c as int in {9, 10, 11, 12, 13, 28, 29, 30, 31, 32}
  {
  }

  /**
   * What follows an underscore is read as two digits, or as one digit with white space on either side or a
   * plus sign before it, and as zero after a minus sign; anything else is dropped.
   */
  lemma EscapeRead(a: char, b: char, rest: string)
    ensures var x, y := DigitValue(a), DigitValue(b);
            var read := if x.Some? && y.Some? then [(16 * x.value + y.value) as char]
                        else if y.Some? && (Space(a) || a == '+') then [y.value as char]
                        else if x.Some? && Space(b) then [x.value as char]
                        else if a == '-' && b == '0' then [0 as char]
                        else "";
            Unescape("_" + [a, b] + rest) == read + Unescape(rest)
  {
    UnescapeCode(a, b, rest);
    hide Unescape;
  }

  /** The hexadecimal digits, in either case. */
  lemma DigitValueIs(c: char, n: nat)
    ensures DigitValue(c) == Some(n) <==> n < 16 && (c == "0123456789abcdef"[n] || c == "0123456789ABCDEF"[n])
  {
  }

  lemma EscapeInjective(a: string, b: string)
    requires Escape(a) == Escape(b)
    ensures a == b
  {
    EscapeRoundTrip(a);
    EscapeRoundTrip(b);
    CharsInjective(Encode(a), Encode(b));
    EncodeInjective(a, b);
  }

  lemma {:induction false} EscapedChars(bytes: seq<Byte>)
    ensures forall i | 0 <= i < |EscapeBytes(bytes)| ::
              EscapeBytes(bytes)[i] != '.' && EscapeBytes(bytes)[i] != '/'
  {
    if bytes != [] { EscapedChars(bytes[1..]); }
  }

  // ---------------------------------------------------------------- file names

  /** Lines 165 to 168. */
  function UnitName(user: bool, unit: string): string {
    (if user then "user." else "") + Escape(unit)
  }

  function FileName(user: bool, unit: string, invocation: string): string {
    UnitName(user, unit) + " " + invocation + ".json"
  }

  /** The index of the last `c`, or -1. */
  function LastIndex(s: string, c: char): (i: int)
    ensures -1 <= i < |s|
    ensures i >= 0 ==> s[i] == c
    ensures forall j | i < j < |s| :: s[j] != c
  {
    if s == "" then -1
    else if s[|s| - 1] == c then |s| - 1
    else LastIndex(s[..|s| - 1], c)
  }

  function Basename(path: string): string {
    path[LastIndex(path, '/') + 1..]
  }

  /** os.path.splitext()[0] of a base name: dots at its beginning do not count. */
  function WithoutExtension(name: string): string {
    var i := LastIndex(name, '.');
    if i >= 0 && exists j | 0 <= j < i :: name[j] != '.' then name[..i] else name
  }

  /** name.rsplit(' ', 1)[0] */
  function BeforeLastSpace(name: string): string {
    var i := LastIndex(name, ' ');
    if i >= 0 then name[..i] else name
  }

  /** Lines 216, 228 and 229. */
  function UnitOf(path: string): string {
    Unescape(BeforeLastSpace(WithoutExtension(Basename(path))))
  }

  lemma LastIndexIs(s: string, c: char, i: nat)
    requires i < |s| && s[i] == c && forall j | i < j < |s| :: s[j] != c
    ensures LastIndex(s, c) == i
  {
  }

  lemma SplitAtLast(before: string, c: char, after: string)
    requires c !in after
    ensures LastIndex(before + [c] + after, c) == |before|
  {
    LastIndexIs(before + [c] + after, c, |before|);
  }

  /** What stands before the last space in a file name is the escaped unit. */
  lemma NameParts(user: bool, unit: string, invocation: string)
    requires ' ' !in invocation
    ensures WithoutExtension(FileName(user, unit, invocation)) == UnitName(user, unit) + " " + invocation
    ensures BeforeLastSpace(UnitName(user, unit) + " " + invocation) == UnitName(user, unit)
  {
    var stem := UnitName(user, unit) + " " + invocation;
    var name := FileName(user, unit, invocation);
    assert name == stem + ['.'] + "json";
    SplitAtLast(stem, '.', "json");
    assert name[|UnitName(user, unit)|] == ' ';
    SplitAtLast(UnitName(user, unit), ' ', invocation);
  }

  /** Different units, scopes and invocations have different files. */
  lemma FileNameInjective(user: bool, unit: string, invocation: string,
                          user': bool, unit': string, invocation': string)
    requires ' ' !in invocation && ' ' !in invocation'
    requires FileName(user, unit, invocation) == FileName(user', unit', invocation')
    ensures user == user' && unit == unit' && invocation == invocation'
  {
    NameParts(user, unit, invocation);
    NameParts(user', unit', invocation');
    var a, b := UnitName(user, unit), UnitName(user', unit');
    assert a == b;
    assert (a + " " + invocation)[|a| + 1..] == invocation && (b + " " + invocation')[|b| + 1..] == invocation';
    ScopesDiffer(unit, unit');
    ScopesDiffer(unit', unit);
    if user {
      assert a[5..] == Escape(unit) && b[5..] == Escape(unit');
    } else {
      assert a == Escape(unit) && b == Escape(unit');
    }
    EscapeInjective(unit, unit');
  }

  lemma ScopesDiffer(unit: string, unit': string)
    ensures UnitName(true, unit) != UnitName(false, unit')
  {
    EscapedChars(Encode(unit'));
    assert UnitName(true, unit)[4] == '.';
    assert UnitName(false, unit') == Escape(unit');
  }

  /** A file of a user unit is never one of a system unit, whatever the invocations are. */
  lemma ScopesNeverCollide(unit: string, invocation: string, unit': string, invocation': string)
    ensures FileName(true, unit, invocation) != FileName(false, unit', invocation')
  {
    var a, b := FileName(true, unit, invocation), FileName(false, unit', invocation');
    var e := Escape(unit');
    EscapedChars(Encode(unit'));
    assert UnitName(false, unit') == e && a[..5] == "user.";
    assert forall i | 0 <= i < |e| :: b[i] == e[i];
    assert b[|e|] == ' ';
    assert a[0] != ' ' && a[1] != ' ' && a[2] != ' ' && a[3] != ' ' && a[4] == '.';
  }

  lemma PrefixUnescaped(name: string)
    ensures Unescape("user." + name) == "user." + Unescape(name)
  {
    hide Unescape;
    UnescapePlain('u', "ser." + name);
    UnescapePlain('s', "er." + name);
    UnescapePlain('e', "r." + name);
    UnescapePlain('r', "." + name);
    UnescapePlain('.', name);
    assert "user." + name == ['u'] + ("ser." + name);
    assert "ser." + name == ['s'] + ("er." + name);
    assert "er." + name == ['e'] + ("r." + name);
    assert "r." + name == ['r'] + ("." + name);
    assert "." + name == ['.'] + name;
  }

  lemma BasenameIs(directory: string, name: string)
    requires '/' !in name
    ensures Basename(directory + "/" + name) == name
  {
    assert directory + "/" + name == directory + ['/'] + name;
    SplitAtLast(directory, '/', name);
  }

  lemma NoSlash(user: bool, unit: string, invocation: string)
    requires '/' !in invocation
    ensures '/' !in FileName(user, unit, invocation)
  {
    EscapedChars(Encode(unit));
    assert '/' !in Escape(unit);
    hide EscapeBytes, Encode;
  }

  /** From the path of a file, the unit it was collected for is read back, with `user.` for the user scope. */
  lemma UnitIsReadBack(directory: string, user: bool, unit: string, invocation: string)
    requires ' ' !in invocation && '/' !in invocation
    ensures UnitOf(directory + "/" + FileName(user, unit, invocation))
         == (if user then "user." else "") + Chars(Encode(unit))
  {
    NoSlash(user, unit, invocation);
    BasenameIs(directory, FileName(user, unit, invocation));
    NameParts(user, unit, invocation);
    EscapeRoundTrip(unit);
    if user { PrefixUnescaped(Escape(unit)); }
    hide Unescape, Escape, Chars, Encode, BeforeLastSpace, WithoutExtension, Basename, FileName;
    assert "" + Escape(unit) == Escape(unit) && "" + Chars(Encode(unit)) == Chars(Encode(unit));
  }
}
