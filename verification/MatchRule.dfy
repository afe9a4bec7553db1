/** Parsing D-Bus match rules (MatchRule in dbus.py) and printing them so that they are parsed back. */
module MatchRule {

  /** The text of a token and the index where it ends. */
  datatype Token = Token(text: string, end: nat)

  /** Where the tokenizer is: inside quotes, or after a backslash. */
  datatype Mode = Mode(quoted: bool, escaping: bool)

  const OUTSIDE := Mode(false, false)

  function Pending(m: Mode): string {
    if m.escaping then "\\" else ""
  }

  /** What one character adds to the token. */
  function Added(c: char, m: Mode): string {
    if c == '\'' then (if m.escaping then "'" else "")
    else if c == '\\' then (if m.escaping || m.quoted then "\\" else "")
    else Pending(m) + [c]
  }

  function After(c: char, m: Mode): Mode {
    if c == '\'' then Mode(if m.escaping then m.quoted else !m.quoted, false)
    else if c == '\\' then Mode(m.quoted, !m.escaping && !m.quoted)
    else Mode(m.quoted, false)
  }

  /** The token at the start of `raw`, up to the first delimiter outside quotes. */
  function Scan(raw: string, delimiter: char, m: Mode): (t: Token)
    ensures t.end <= |raw|
  {
    if raw == "" || (raw[0] == delimiter && !m.quoted) then Token(Pending(m), 0)
    else
      var t := Scan(raw[1..], delimiter, After(raw[0], m));
      Token(Added(raw[0], m) + t.text, t.end + 1)
  }

  /** What `_tokenize_string` leaves: without a delimiter, the last character of the text. */
  function Rest(raw: string, end: nat): string
    requires end <= |raw|
  {
    if end < |raw| || raw == "" then raw[end..] else raw[|raw| - 1..]
  }

  function Parsed(raw: string, kv: map<string, string>): map<string, string>
    decreases |raw|
  {
    if raw == "" then kv
    else
      var key := Scan(raw, '=', OUTSIDE);
      var raw1 := Rest(raw, key.end)[1..];
      var value := Scan(raw1, ',', OUTSIDE);
      if raw1 == "" then kv
      else Parsed(Rest(raw1, value.end)[1..], kv[key.text := value.text])
  }

  /** Lines 125 to 145: one character that does not end the token. */
  method Consume(c: char, quoted: bool, escaping: bool) returns (added: string, quoted': bool, escaping': bool)
    ensures added == Added(c, Mode(quoted, escaping)) && Mode(quoted', escaping') == After(c, Mode(quoted, escaping))
  {
    added, quoted', escaping' := "", quoted, escaping;
    if c == '\'' {
      if escaping {
        added := "'";
        escaping' := false;
      } else if quoted {
        quoted' := false;
      } else {
        quoted' := true;
      }
    } else if c == '\\' {
      if escaping {
        added := "\\";
        escaping' := false;
      } else if quoted {
        added := "\\";
      } else {
        escaping' := true;
      }
    } else {
      if escaping {
        added := "\\";
        escaping' := false;
      }
      added := added + [c];
    }
  }

  method TokenizeString(raw: string, delimiter: char) returns (token: string, rest: string)
    ensures var t := Scan(raw, delimiter, OUTSIDE); token == t.text && rest == Rest(raw, t.end)
  {
    hide Added, After;
    var buffer, quoted, escaping, i := "", false, false, 0;
    ghost var all := Scan(raw, delimiter, OUTSIDE);
    var n := 0;
    while n < |raw|
      invariant n <= |raw| && i == if n == 0 then 0 else n - 1
      invariant var t := Scan(raw[n..], delimiter, Mode(quoted, escaping));
                all == Token(buffer + t.text, n + t.end)
    {
      assert raw[n..][1..] == raw[n + 1..];
      i := n;
      if raw[n] == delimiter && !quoted { break; }
      var added;
      added, quoted, escaping := Consume(raw[n], quoted, escaping);
      buffer := buffer + added;
      n := n + 1;
    }
    if escaping { buffer := buffer + "\\"; }
    return buffer, raw[i..];
  }

  /** Terminates on every text, because what remains gets strictly shorter. */
  method ParseString(raw: string) returns (kv: map<string, string>)
    ensures kv == Parsed(raw, map[])
  {
    kv := map[];
    var remaining := raw;
    while remaining != ""
      invariant Parsed(remaining, kv) == Parsed(raw, map[])
      decreases |remaining|
    {
      var key, value;
      key, remaining := TokenizeString(remaining, '=');
      if remaining == "" { break; }
      remaining := remaining[1..];
      value, remaining := TokenizeString(remaining, ',');
      if remaining == "" { break; }
      remaining := remaining[1..];
      kv := kv[key := value];
    }
  }

  // ---------------------------------------------------------------- backslashes and missing delimiters

  /** Outside quotes a backslash stays before any character but a quote and a backslash, and two become one. */
  lemma BackslashOutside(c: char, tail: string, delimiter: char)
    requires delimiter != '\'' && delimiter != '\\' && c != delimiter
    ensures var t := Scan(tail, delimiter, OUTSIDE);
            Scan("\\" + ([c] + tail), delimiter, OUTSIDE)
            == Token((if c == '\'' then "'" else if c == '\\' then "\\" else "\\" + [c]) + t.text, t.end + 2)
  {
    assert "\\" + ([c] + tail) == ['\\'] + ([c] + tail);
    ScanOne('\\', [c] + tail, delimiter, OUTSIDE);
    ScanOne(c, tail, delimiter, Mode(false, true));
    hide Scan;
  }

  /** A backslash before the delimiter or at the end stays, too. */
  lemma BackslashAtEnd(tail: string, delimiter: char)
    requires delimiter != '\'' && delimiter != '\\' && (tail == "" || tail[0] == delimiter)
    ensures Scan("\\" + tail, delimiter, OUTSIDE) == Token("\\", 1)
  {
    assert "\\" + tail == ['\\'] + tail;
    ScanOne('\\', tail, delimiter, OUTSIDE);
  }

  /** Inside quotes every character but a quote stands for itself, backslashes and delimiters included. */
  lemma InsideQuotes(c: char, tail: string, delimiter: char)
    requires c != '\''
    ensures var t := Scan(tail, delimiter, Mode(true, false));
            Scan([c] + tail, delimiter, Mode(true, false)) == Token([c] + t.text, t.end + 1)
  {
    ScanOne(c, tail, delimiter, Mode(true, false));
    hide Scan;
  }

  /** Text without a delimiter after it is no key. */
  lemma KeyNeedsValue(raw: string, kv: map<string, string>)
    requires Scan(raw, '=', OUTSIDE).end >= |raw| - 1
    ensures Parsed(raw, kv) == kv
  {
  }

  // ---------------------------------------------------------------- printing

  /** The pieces a string can be printed in: in quotes, as one bare character, or as a backslash and a quote. */
  datatype Piece = Quoted(text: string) | Bare(c: char) | EscapedQuote {
    function Raw(): string {
      match this
      case Quoted(t) => "'" + t + "'"
      case Bare(b) => [b]
      case EscapedQuote => "\\'"
    }

    function Text(): string {
      match this
      case Quoted(t) => t
      case Bare(b) => [b]
      case EscapedQuote => "'"
    }

    predicate Fits(delimiter: char) {
      match this
      case Quoted(t) => '\'' !in t
      case Bare(b) => b != '\'' && b != '\\' && b != delimiter
      case EscapedQuote => true
    }
  }

  function Raw(pieces: seq<Piece>): string {
    if pieces == [] then "" else pieces[0].Raw() + Raw(pieces[1..])
  }

  function Text(pieces: seq<Piece>): string {
    if pieces == [] then "" else pieces[0].Text() + Text(pieces[1..])
  }

  predicate Fit(pieces: seq<Piece>, delimiter: char) {
    forall i | 0 <= i < |pieces| :: pieces[i].Fits(delimiter)
  }

  type Printed = (seq<Piece>, seq<Piece>)

  function Print(rule: seq<Printed>): string {
    if rule == [] then ""
    else Raw(rule[0].0) + ("=" + (Raw(rule[0].1) + (if |rule| == 1 then "" else "," + Print(rule[1..]))))
  }

  /** The last value of a key wins. */
  function Meant(rule: seq<Printed>, kv: map<string, string>): map<string, string> {
    if rule == [] then kv else Meant(rule[1..], kv[Text(rule[0].0) := Text(rule[0].1)])
  }

  lemma ScanOne(c: char, tail: string, delimiter: char, m: Mode)
    requires c != delimiter || m.quoted
    ensures var t := Scan(tail, delimiter, After(c, m));
            Scan([c] + tail, delimiter, m) == Token(Added(c, m) + t.text, t.end + 1)
  {
    assert ([c] + tail)[1..] == tail;
  }

  lemma {:induction false} ScanQuoted(text: string, tail: string, delimiter: char)
    requires '\'' !in text && delimiter != '\'' && delimiter != '\\'
    ensures var t := Scan(tail, delimiter, OUTSIDE);
            Scan(text + (['\''] + tail), delimiter, Mode(true, false)) == Token(text + t.text, |text| + 1 + t.end)
  {
    hide Scan;
    if text == "" {
      assert text + (['\''] + tail) == ['\''] + tail;
      ScanOne('\'', tail, delimiter, Mode(true, false));
    } else {
      var c, text' := text[0], text[1..];
      assert text + (['\''] + tail) == [c] + (text' + (['\''] + tail));
      ScanQuoted(text', tail, delimiter);
      ScanOne(c, text' + (['\''] + tail), delimiter, Mode(true, false));
      assert Added(c, Mode(true, false)) == [c];
    }
  }

  lemma ScanQuotedPiece(text: string, tail: string, delimiter: char)
    requires '\'' !in text && delimiter != '\'' && delimiter != '\\'
    ensures var t := Scan(tail, delimiter, OUTSIDE);
            Scan("'" + text + "'" + tail, delimiter, OUTSIDE) == Token(text + t.text, |text| + 2 + t.end)
  {
    hide Scan;
    assert "'" + text + "'" + tail == ['\''] + (text + (['\''] + tail));
    ScanOne('\'', text + (['\''] + tail), delimiter, OUTSIDE);
    ScanQuoted(text, tail, delimiter);
  }

  lemma ScanEscapedQuote(tail: string, delimiter: char)
    requires delimiter != '\'' && delimiter != '\\'
    ensures var t := Scan(tail, delimiter, OUTSIDE);
            Scan("\\'" + tail, delimiter, OUTSIDE) == Token("'" + t.text, 2 + t.end)
  {
    hide Scan;
    assert "\\'" + tail == ['\\'] + (['\''] + tail);
    ScanOne('\\', ['\''] + tail, delimiter, OUTSIDE);
    ScanOne('\'', tail, delimiter, Mode(false, true));
  }

  lemma ScanBare(c: char, tail: string, delimiter: char)
    requires c != '\'' && c != '\\' && c != delimiter
    ensures var t := Scan(tail, delimiter, OUTSIDE);
            Scan([c] + tail, delimiter, OUTSIDE) == Token([c] + t.text, 1 + t.end)
  {
    hide Scan;
    ScanOne(c, tail, delimiter, OUTSIDE);
  }

  lemma ScanPiece(p: Piece, tail: string, delimiter: char)
    requires p.Fits(delimiter) && delimiter != '\'' && delimiter != '\\'
    ensures var t := Scan(tail, delimiter, OUTSIDE);
            Scan(p.Raw() + tail, delimiter, OUTSIDE) == Token(p.Text() + t.text, |p.Raw()| + t.end)
  {
    hide Scan, Added, After;
    match p
    case Quoted(text) => ScanQuotedPiece(text, tail, delimiter);
    case Bare(c) => ScanBare(c, tail, delimiter);
    case EscapedQuote => ScanEscapedQuote(tail, delimiter);
  }

  lemma {:induction false} ScanPieces(pieces: seq<Piece>, tail: string, delimiter: char)
    requires Fit(pieces, delimiter) && delimiter != '\'' && delimiter != '\\'
    requires tail == "" || tail[0] == delimiter
    ensures Scan(Raw(pieces) + tail, delimiter, OUTSIDE) == Token(Text(pieces), |Raw(pieces)|)
  {
    if pieces == [] {
      assert Raw(pieces) + tail == tail;
    } else {
      assert Raw(pieces) + tail == pieces[0].Raw() + (Raw(pieces[1..]) + tail);
      ScanPieces(pieces[1..], tail, delimiter);
      ScanPiece(pieces[0], Raw(pieces[1..]) + tail, delimiter);
    }
  }

  predicate Printable(rule: seq<Printed>) {
    && (forall i | 0 <= i < |rule| :: Fit(rule[i].0, '=') && Fit(rule[i].1, ','))
    && (rule != [] ==> rule[|rule| - 1].1 != [])
  }

  lemma RawNotEmpty(pieces: seq<Piece>)
    requires pieces != []
    ensures Raw(pieces) != ""
  {
  }

  lemma ScanThenRest(pieces: seq<Piece>, tail: string, delimiter: char)
    requires Fit(pieces, delimiter) && delimiter != '\'' && delimiter != '\\'
    requires if tail == "" then pieces != [] else tail[0] == delimiter
    ensures var raw := Raw(pieces) + tail;
            && raw != ""
            && Scan(raw, delimiter, OUTSIDE) == Token(Text(pieces), |Raw(pieces)|)
            && Rest(raw, |Raw(pieces)|)[1..] == if tail == "" then "" else tail[1..]
  {
    ScanPieces(pieces, tail, delimiter);
    if pieces != [] { RawNotEmpty(pieces); }
  }

  lemma ParsedStep(key: seq<Piece>, value: seq<Piece>, after: string, kv: map<string, string>)
    requires Fit(key, '=') && Fit(value, ',')
    requires if after == "" then value != [] else after[0] == ','
    ensures Parsed(Raw(key) + ("=" + (Raw(value) + after)), kv)
         == Parsed(if after == "" then "" else after[1..], kv[Text(key) := Text(value)])
  {
    var raw1 := Raw(value) + after;
    assert ("=" + raw1)[1..] == raw1;
    ScanThenRest(key, "=" + raw1, '=');
    ScanThenRest(value, after, ',');
    hide Scan, Raw, Text, Fit, Rest;
  }

  /** However the pieces are chosen, a printed rule is parsed back, unless its last value is written as nothing. */
  lemma {:induction false} ParsesBack(rule: seq<Printed>, kv: map<string, string>)
    requires Printable(rule)
    ensures Parsed(Print(rule), kv) == Meant(rule, kv)
  {
    if rule != [] {
      var (key, value) := rule[0];
      if |rule| > 1 {
        assert Printable(rule[1..]) by { assert rule[1..][|rule| - 2] == rule[|rule| - 1]; }
        ParsesBack(rule[1..], kv[Text(key) := Text(value)]);
        assert ("," + Print(rule[1..]))[1..] == Print(rule[1..]);
      }
      ParsedStep(key, value, if |rule| == 1 then "" else "," + Print(rule[1..]), kv);
      hide Parsed, Raw, Text, Fit;
      assert Meant(rule[1..], kv[Text(key) := Text(value)]) == Meant(rule, kv);
    }
  }

  /** The exception is real: a last value that is written as nothing is lost with its key, and only that. */
  lemma {:induction false} LastEmptyValueIsLost(rule: seq<Printed>, kv: map<string, string>)
    requires rule != [] && rule[|rule| - 1].1 == []
    requires forall i | 0 <= i < |rule| :: Fit(rule[i].0, '=') && Fit(rule[i].1, ',')
    ensures Parsed(Print(rule), kv) == Meant(rule[..|rule| - 1], kv)
  {
    if |rule| == 1 {
      assert rule == [(rule[0].0, [])] && rule[..0] == [];
      EmptyValueIsLost(rule[0].0, kv);
    } else {
      var (key, value) := rule[0];
      var rest, kv' := rule[1..], kv[Text(key) := Text(value)];
      LastEmptyValueIsLost(rest, kv');
      FirstOfRule((key, value), rest, kv);
      FirstOfRule((key, value), rest[..|rest| - 1], kv);
      assert rule == [(key, value)] + rest && rule[..|rule| - 1] == [(key, value)] + rest[..|rest| - 1];
      assert ("," + Print(rest))[1..] == Print(rest);
      ParsedStep(key, value, "," + Print(rest), kv);
      hide Parsed, Raw, Text, Fit, Print, Meant;
    }
  }

  lemma EmptyValueIsLost(key: seq<Piece>, kv: map<string, string>)
    requires Fit(key, '=')
    ensures Parsed(Print([(key, [])]), kv) == kv
  {
    var first: Printed := (key, []);
    FirstOfRule(first, [], kv);
    assert [first] == [first] + [];
    assert "=" + ("" + "") == "=" && "="[1..] == "";
    ScanThenRest(key, "=", '=');
    hide Scan, Fit, Text, Print, Rest;
  }

  // ---------------------------------------------------------------- quoting as the specification says

  /** The characters a string in single quotes is printed as: `'` ends the quotes and is escaped. */
  function Quote(s: string): string {
    "'" + Escaped(s) + "'"
  }

  function Escaped(s: string): string {
    if s == "" then ""
    else (if s[0] == '\'' then "'\\''" else [s[0]]) + Escaped(s[1..])
  }

  /** The same, as pieces; `run` is what has been read since the last quote. */
  function Pieces(run: string, s: string): seq<Piece>
    decreases |s|
  {
    if s == "" then [Quoted(run)]
    else if s[0] == '\'' then [Quoted(run), EscapedQuote] + Pieces("", s[1..])
    else Pieces(run + [s[0]], s[1..])
  }

  lemma {:induction false} PiecesPrintAsQuote(run: string, s: string, delimiter: char)
    requires '\'' !in run
    ensures Pieces(run, s) != [] && Fit(Pieces(run, s), delimiter)
    ensures Raw(Pieces(run, s)) == "'" + run + Escaped(s) + "'"
    ensures Text(Pieces(run, s)) == run + s
    decreases |s|
  {
    if s == "" {
      Cons(Quoted(run), []);
    } else if s[0] == '\'' {
      PiecesPrintAsQuote("", s[1..], delimiter);
      assert "'" + "" == "'";
      QuoteEndsRun(run, s, Pieces("", s[1..]), delimiter);
    } else {
      PiecesPrintAsQuote(run + [s[0]], s[1..], delimiter);
      CharInRun(run, s);
      hide Raw, Text, Fit, Escaped;
    }
  }

  lemma CharInRun(run: string, s: string)
    requires s != "" && s[0] != '\''
    ensures "'" + (run + [s[0]]) + Escaped(s[1..]) + "'" == "'" + run + Escaped(s) + "'"
    ensures (run + [s[0]]) + s[1..] == run + s
  {
    var c, e := s[0], Escaped(s[1..]);
    assert Escaped(s) == [c] + e && s == [c] + s[1..];
    hide Escaped;
    MoveChar(run, c, s[1..]);
    MoveQuoted("'", run, c, e);
  }

  lemma MoveQuoted(q: string, run: string, c: char, e: string)
    ensures q + (run + [c]) + e + q == q + run + ([c] + e) + q
  {
    MoveChar(q + run, c, e);
    assert q + (run + [c]) == q + run + [c];
  }

  lemma MoveChar(a: string, c: char, b: string)
    ensures (a + [c]) + b == a + ([c] + b)
  {
  }

  lemma QuoteEndsRun(run: string, s: string, rest: seq<Piece>, delimiter: char)
    requires '\'' !in run && s != "" && s[0] == '\'' && Fit(rest, delimiter)
    requires Raw(rest) == "'" + Escaped(s[1..]) + "'" && Text(rest) == s[1..]
    ensures var all := [Quoted(run), EscapedQuote] + rest;
            Fit(all, delimiter) && Raw(all) == "'" + run + Escaped(s) + "'" && Text(all) == run + s
  {
    var all := [Quoted(run), EscapedQuote] + rest;
    Cons(EscapedQuote, rest);
    Cons(Quoted(run), [EscapedQuote] + rest);
    assert all == [Quoted(run)] + ([EscapedQuote] + rest);
    var e := Escaped(s[1..]);
    SixParts("'", run, "\\'", e);
    assert "'\\''" == "'" + "\\'" + "'";
    assert Escaped(s) == ("'" + "\\'" + "'") + e;
    hide Raw, Text, Escaped;
    assert ['\''] + s[1..] == s;
  }

  lemma SixParts(q: string, run: string, x: string, e: string)
    ensures q + run + ((q + x + q) + e) + q == (q + run + q) + (x + (q + e + q))
  {
  }

  lemma Cons(p: Piece, rest: seq<Piece>)
    ensures Raw([p] + rest) == p.Raw() + Raw(rest) && Text([p] + rest) == p.Text() + Text(rest)
  {
    assert ([p] + rest)[1..] == rest;
  }

  lemma QuotePieces(s: string, delimiter: char)
    ensures Pieces("", s) != [] && Fit(Pieces("", s), delimiter)
    ensures Raw(Pieces("", s)) == Quote(s) && Text(Pieces("", s)) == s
  {
    PiecesPrintAsQuote("", s, delimiter);
    assert "'" + "" == "'" && "" + s == s;
    hide Pieces, Raw, Text, Fit, Escaped;
  }

  type Pairs = seq<(string, string)>

  function QuotedRule(pairs: Pairs): string {
    if pairs == [] then ""
    else Quote(pairs[0].0) + ("=" + (Quote(pairs[0].1) + (if |pairs| == 1 then "" else "," + QuotedRule(pairs[1..]))))
  }

  /** The map of a list of pairs, where the last duplicate wins. */
  function MapOf(pairs: Pairs, kv: map<string, string>): map<string, string> {
    if pairs == [] then kv else MapOf(pairs[1..], kv[pairs[0].0 := pairs[0].1])
  }

  function AsPieces(pairs: Pairs): seq<Printed> {
    if pairs == [] then [] else [(Pieces("", pairs[0].0), Pieces("", pairs[0].1))] + AsPieces(pairs[1..])
  }

  lemma {:induction false} AsPiecesFit(pairs: Pairs)
    ensures |AsPieces(pairs)| == |pairs| && Printable(AsPieces(pairs))
  {
    if pairs != [] {
      AsPiecesFit(pairs[1..]);
      QuotePieces(pairs[0].0, '=');
      QuotePieces(pairs[0].1, ',');
      hide Fit, Pieces;
      var first, rest := (Pieces("", pairs[0].0), Pieces("", pairs[0].1)), AsPieces(pairs[1..]);
      assert AsPieces(pairs) == [first] + rest;
      assert forall i | 0 < i < |pairs| :: ([first] + rest)[i] == rest[i - 1];
    }
  }

  lemma {:induction false} AsPiecesIsTheRule(pairs: Pairs, kv: map<string, string>)
    ensures Print(AsPieces(pairs)) == QuotedRule(pairs) && Meant(AsPieces(pairs), kv) == MapOf(pairs, kv)
  {
    if pairs != [] {
      var (k, v) := pairs[0];
      var first, rest := (Pieces("", k), Pieces("", v)), AsPieces(pairs[1..]);
      QuotePieces(k, '=');
      QuotePieces(v, ',');
      AsPiecesIsTheRule(pairs[1..], kv[k := v]);
      AsPiecesFit(pairs[1..]);
      FirstOfRule(first, rest, kv);
      assert AsPieces(pairs) == [first] + rest;
      hide Pieces, Raw, Text, Fit, Escaped, Quote, Print, Meant, AsPieces;
    }
  }

  lemma FirstOfRule(first: Printed, rest: seq<Printed>, kv: map<string, string>)
    ensures Print([first] + rest)
         == Raw(first.0) + ("=" + (Raw(first.1) + (if rest == [] then "" else "," + Print(rest))))
    ensures Meant([first] + rest, kv) == Meant(rest, kv[Text(first.0) := Text(first.1)])
  {
    assert ([first] + rest)[1..] == rest;
    hide Raw, Text;
  }

  /** Any list of keys and values, printed with quotes, is parsed to exactly its map. */
  lemma QuotedRuleParsesBack(pairs: Pairs)
    ensures Parsed(QuotedRule(pairs), map[]) == MapOf(pairs, map[])
  {
    AsPiecesFit(pairs);
    AsPiecesIsTheRule(pairs, map[]);
    ParsesBack(AsPieces(pairs), map[]);
  }

  /** The map says what it should: the value of a key is the one of its last occurrence. */
  lemma {:induction false} MapOfIsLast(pairs: Pairs, kv: map<string, string>, key: string, i: nat)
    requires i < |pairs| && pairs[i].0 == key && forall j | i < j < |pairs| :: pairs[j].0 != key
    ensures key in MapOf(pairs, kv) && MapOf(pairs, kv)[key] == pairs[i].1
  {
    var kv' := kv[pairs[0].0 := pairs[0].1];
    if i == 0 {
      MapOfKeeps(pairs[1..], kv', key);
    } else {
      MapOfIsLast(pairs[1..], kv', key, i - 1);
    }
  }

  lemma {:induction false} MapOfKeeps(pairs: Pairs, kv: map<string, string>, key: string)
    requires forall j | 0 <= j < |pairs| :: pairs[j].0 != key
    ensures key in MapOf(pairs, kv) <==> key in kv
    ensures key in kv ==> MapOf(pairs, kv)[key] == kv[key]
  {
    if pairs != [] { MapOfKeeps(pairs[1..], kv[pairs[0].0 := pairs[0].1], key); }
  }
}
