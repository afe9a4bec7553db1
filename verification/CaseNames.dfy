/** Helper names in snake case and D-Bus object names in camel case (util.py), over ASCII characters. */
module CaseNames {

  predicate IsLower(c: char) { 'a' <= c <= 'z' }

  predicate IsUpper(c: char) { 'A' <= c <= 'Z' }

  predicate IsAlpha(c: char) { IsLower(c) || IsUpper(c) }

  predicate IsDigit(c: char) { '0' <= c <= '9' }

  function Upper(c: char): char {
    if IsLower(c) then 'A' + (c - 'a') else c
  }

  function Lower(c: char): char {
    if IsUpper(c) then 'a' + (c - 'A') else c
  }

  function LowerAll(s: string): string {
    if s == "" then "" else [Lower(s[0])] + LowerAll(s[1..])
  }

  /** The substitution behind the start: an underscore is dropped, and a lower case letter after it raised. */
  function Substituted(text: string): string {
    if text == "" then ""
    else if text[0] != '_' then [text[0]] + Substituted(text[1..])
    else if |text| > 1 && IsLower(text[1]) then [Upper(text[1])] + Substituted(text[2..])
    else Substituted(text[1..])
  }

  function CamelCase(text: string): string {
    if text != "" && IsLower(text[0]) then [Upper(text[0])] + Substituted(text[1..]) else Substituted(text)
  }

  /** Whether the last letter is a lower case one. */
  predicate EndsLower(s: string) {
    if s == "" then false
    else if IsAlpha(s[|s| - 1]) then IsLower(s[|s| - 1])
    else EndsLower(s[..|s| - 1])
  }

  /** What is put before a character that is neither a digit nor a lower case letter. */
  function Separator(snaked: string, lowerNext: bool): string {
    if EndsLower(snaked) || (snaked != "" && IsAlpha(snaked[|snaked| - 1]) && lowerNext) then "_" else ""
  }

  function NextSnaked(snaked: string, text: string): string
    requires text != ""
  {
    if IsDigit(text[0]) || IsLower(text[0]) then snaked + [text[0]]
    else snaked + Separator(snaked, |text| > 1 && IsLower(text[1])) + [text[0]]
  }

  function Snaked(snaked: string, text: string): string
    decreases |text|
  {
    if text == "" then snaked else Snaked(NextSnaked(snaked, text), text[1..])
  }

  function SnakeCase(text: string): string {
    LowerAll(Snaked("", text))
  }

  /** Lines 255 to 259: the loop that looks for the last letter. */
  method Underscored(snaked: string) returns (r: string)
    ensures r == if EndsLower(snaked) then snaked + "_" else snaked
  {
    r := snaked;
    var j := 1;
    assert snaked[..|snaked|] == snaked;
    while j < |snaked| + 1
      invariant 1 <= j <= |snaked| + 1
      invariant r == snaked && EndsLower(snaked) == EndsLower(snaked[..|snaked| - (j - 1)])
    {
      var prefix := snaked[..|snaked| - (j - 1)];
      assert prefix[|prefix| - 1] == snaked[|snaked| - j] && prefix[..|prefix| - 1] == snaked[..|snaked| - j];
      if IsAlpha(snaked[|snaked| - j]) {
        if IsLower(snaked[|snaked| - j]) { r := r + "_"; }
        return;
      }
      j := j + 1;
    }
    assert snaked[..0] == "";
  }

  /** Lines 254 to 262: a character that is neither a digit nor a lower case letter, with what goes before it. */
  method Separated(before: string, c: char, first: bool, lowerNext: bool) returns (snaked: string)
    requires first <==> before == ""
    ensures snaked == before + Separator(before, lowerNext) + [c]
  {
    hide EndsLower;
    assert !EndsLower("") by { NothingEndsLower(); }
    snaked := before;
    if !first {
      snaked := Underscored(before);
      if IsAlpha(snaked[|snaked| - 1]) && lowerNext { snaked := snaked + "_"; }
    }
    snaked := snaked + [c];
  }

  lemma NothingEndsLower()
    ensures !EndsLower("")
  {
  }

  method Snake(text: string) returns (r: string)
    ensures r == SnakeCase(text)
  {
    hide Separator, LowerAll;
    var snaked := "";
    for i := 0 to |text|
      invariant |snaked| >= i
      invariant Snaked("", text) == Snaked(snaked, text[i..])
      invariant i == 0 ==> snaked == ""
    {
      assert text[i..][1..] == text[i + 1..];
      var c := text[i];
      if IsDigit(c) || IsLower(c) {
        snaked := snaked + [c];
      } else {
        snaked := Separated(snaked, c, i == 0, i + 1 < |text| && IsLower(text[i + 1]));
      }
    }
    r := LowerAll(snaked);
  }

  // ---------------------------------------------------------------- names

  predicate InWord(c: char) { IsLower(c) || IsDigit(c) }

  /** [a-z][a-z0-9]* */
  predicate IsWord(w: string) {
    w != "" && IsLower(w[0]) && forall i | 0 <= i < |w| :: InWord(w[i])
  }

  predicate AreWords(words: seq<string>) {
    forall i | 0 <= i < |words| :: IsWord(words[i])
  }

  /** The words after the first one, each with its underscore. */
  function Tail(words: seq<string>): string {
    if words == [] then "" else "_" + words[0] + Tail(words[1..])
  }

  function Name(words: seq<string>): string
    requires words != []
  {
    words[0] + Tail(words[1..])
  }

  predicate HasLetter(s: string) {
    exists i | 0 <= i < |s| :: IsAlpha(s[i])
  }

  /**
   * The boundary between two words survives: the first has at least two letters, or is one bare letter and
   * the second character of the other is a letter.
   */
  predicate Survives(w: string, next: string)
    requires IsWord(w) && IsWord(next)
  {
    HasLetter(w[1..]) || (|w| == 1 && |next| > 1 && IsLower(next[1]))
  }

  predicate AllSurvive(words: seq<string>)
    requires AreWords(words)
  {
    forall i | 0 < i < |words| :: Survives(words[i - 1], words[i])
  }

  function Capital(w: string): string
    requires w != ""
  {
    [Upper(w[0])] + w[1..]
  }

  function Capitals(words: seq<string>): string
    requires AreWords(words)
  {
    if words == [] then "" else Capital(words[0]) + Capitals(words[1..])
  }

  lemma {:induction false} SubstitutedWord(w: string, more: string)
    requires forall i | 0 <= i < |w| :: InWord(w[i])
    ensures Substituted(w + more) == w + Substituted(more)
  {
    if w == "" {
      assert w + more == more;
    } else {
      assert (w + more)[1..] == w[1..] + more;
      SubstitutedWord(w[1..], more);
    }
  }

  lemma {:induction false} SubstitutedTail(words: seq<string>)
    requires AreWords(words)
    ensures Substituted(Tail(words)) == Capitals(words)
  {
    if words != [] {
      var w, rest := words[0], Tail(words[1..]);
      assert Tail(words)[2..] == w[1..] + rest && Tail(words)[1] == w[0];
      SubstitutedWord(w[1..], rest);
      SubstitutedTail(words[1..]);
    }
  }

  lemma CamelCaseIsCapitals(words: seq<string>)
    requires words != [] && AreWords(words)
    ensures CamelCase(Name(words)) == Capitals(words)
  {
    var w, rest := words[0], Tail(words[1..]);
    assert Name(words)[1..] == w[1..] + rest && Name(words)[0] == w[0];
    SubstitutedWord(w[1..], rest);
    SubstitutedTail(words[1..]);
  }

  lemma {:induction false} NoUnderscores(text: string)
    ensures '_' !in Substituted(text)
    decreases |text|
  {
    if text != "" {
      NoUnderscores(text[1..]);
      if |text| > 1 { NoUnderscores(text[2..]); }
    }
  }

  /** No underscore is left in camel case, and a text without any changes at most its first letter. */
  lemma CamelCaseIs(text: string)
    ensures '_' !in CamelCase(text)
    ensures '_' !in text && text != "" ==> CamelCase(text) == [Upper(text[0])] + text[1..]
  {
    NoUnderscores(text);
    if text != "" { NoUnderscores(text[1..]); }
    if '_' !in text && text != "" {
      WithoutUnderscores(text[1..]);
      WithoutUnderscores(text);
      assert text == [text[0]] + text[1..];
    }
  }

  lemma {:induction false} WithoutUnderscores(text: string)
    requires '_' !in text
    ensures Substituted(text) == text
  {
    if text != "" { WithoutUnderscores(text[1..]); }
  }

  // ---------------------------------------------------------------- back to snake case

  lemma {:induction false} SnakedRest(snaked: string, t: string, more: string)
    requires forall i | 0 <= i < |t| :: InWord(t[i])
    ensures Snaked(snaked, t + more) == Snaked(snaked + t, more)
    decreases |t|
  {
    if t == "" {
      assert t + more == more && snaked + t == snaked;
    } else {
      assert (t + more)[1..] == t[1..] + more;
      SnakedRest(snaked + [t[0]], t[1..], more);
      assert snaked + [t[0]] + t[1..] == snaked + t;
    }
  }

  lemma {:induction false} EndsLowerAfter(snaked: string, c: char, t: string)
    requires IsUpper(c) && forall i | 0 <= i < |t| :: InWord(t[i])
    ensures EndsLower(snaked + [c] + t) == HasLetter(t)
    decreases |t|
  {
    var s := snaked + [c] + t;
    if t != "" {
      var t' := t[..|t| - 1];
      assert s[..|s| - 1] == snaked + [c] + t' && s[|s| - 1] == t[|t| - 1];
      EndsLowerAfter(snaked, c, t');
      assert HasLetter(t') ==> HasLetter(t);
      assert HasLetter(t) && !IsAlpha(t[|t| - 1]) ==> HasLetter(t');
    } else {
      assert s[|s| - 1] == c;
    }
  }

  function SeparatorAfter(w: string, next: string): string
    requires IsWord(w) && IsWord(next)
  {
    if Survives(w, next) then "_" else ""
  }

  lemma SnakedStep(snaked: string, c: char, more: string)
    ensures Snaked(snaked, [c] + more) == Snaked(NextSnaked(snaked, [c] + more), more)
  {
    assert ([c] + more)[1..] == more;
    hide NextSnaked;
  }

  /** What is known at the end of a word decides about the underscore before the next. */
  lemma SeparatorIs(before: string, w: string, next: string, lowerNext: bool)
    requires IsWord(w) && IsWord(next) && lowerNext == (|next| > 1 && IsLower(next[1]))
    ensures Separator(before + Capital(w), lowerNext) == SeparatorAfter(w, next)
  {
    var snaked := before + Capital(w);
    EndsLowerAfter(before, Upper(w[0]), w[1..]);
    assert snaked == before + [Upper(w[0])] + w[1..];
    hide EndsLower;
    if |w| > 1 {
      assert snaked[|snaked| - 1] == w[|w| - 1] == w[1..][|w| - 2];
    } else {
      assert snaked[|snaked| - 1] == Upper(w[0]);
    }
  }

  lemma NextCapital(before: string, w: string, next: string, more: string)
    requires IsWord(w) && IsWord(next) && (more == "" || IsUpper(more[0]))
    ensures NextSnaked(before + Capital(w), [Upper(next[0])] + (next[1..] + more))
         == before + Capital(w) + SeparatorAfter(w, next) + [Upper(next[0])]
  {
    var text := [Upper(next[0])] + (next[1..] + more);
    assert |text| > 1 ==> text[1] == if |next| > 1 then next[1] else more[0];
    SeparatorIs(before, w, next, |text| > 1 && IsLower(text[1]));
    hide Separator, SeparatorAfter, Capital;
  }

  lemma SnakedCapital(before: string, w: string, next: string, more: string)
    requires IsWord(w) && IsWord(next) && (more == "" || IsUpper(more[0]))
    ensures Snaked(before + Capital(w), Capital(next) + more)
         == Snaked(before + Capital(w) + SeparatorAfter(w, next) + Capital(next), more)
  {
    hide Snaked, NextSnaked, SeparatorAfter;
    var snaked, c, t := before + Capital(w), Upper(next[0]), next[1..];
    assert Capital(next) + more == [c] + (t + more) && Capital(next) == [c] + t;
    hide Capital;
    SnakedStep(snaked, c, t + more);
    NextCapital(before, w, next, more);
    var snaked' := snaked + SeparatorAfter(w, next);
    SnakedRest(snaked' + [c], t, more);
    assert snaked' + [c] + t == snaked' + ([c] + t);
  }

  /** The words after `w`, with the underscores that survive. */
  function Recovered(w: string, words: seq<string>): string
    requires IsWord(w) && AreWords(words)
    decreases |words|
  {
    if words == [] then ""
    else SeparatorAfter(w, words[0]) + words[0] + Recovered(words[0], words[1..])
  }

  lemma {:induction false} LowerAllOf(s: string, t: string)
    ensures LowerAll(s + t) == LowerAll(s) + LowerAll(t)
  {
    if s == "" {
      assert s + t == t;
    } else {
      assert (s + t)[1..] == s[1..] + t;
      LowerAllOf(s[1..], t);
    }
  }

  lemma {:induction false} LowerAllSame(s: string)
    requires forall i | 0 <= i < |s| :: !IsUpper(s[i])
    ensures LowerAll(s) == s
  {
    if s != "" { LowerAllSame(s[1..]); }
  }

  lemma LowerCapital(w: string)
    requires IsWord(w)
    ensures LowerAll(Capital(w)) == w
  {
    LowerAllSame(w[1..]);
    assert Capital(w)[1..] == w[1..];
  }

  lemma CapitalsStart(words: seq<string>)
    requires AreWords(words)
    ensures Capitals(words) == "" || IsUpper(Capitals(words)[0])
  {
  }

  lemma {:induction false} SnakedCapitals(before: string, w: string, words: seq<string>)
    requires IsWord(w) && AreWords(words)
    ensures LowerAll(Snaked(before + Capital(w), Capitals(words)))
         == LowerAll(before + Capital(w)) + Recovered(w, words)
    decreases |words|
  {
    var snaked := before + Capital(w);
    if words == [] {
      assert LowerAll(snaked) + "" == LowerAll(snaked);
    } else {
      hide LowerAll, Snaked, Capital, SeparatorAfter, IsWord, AreWords;
      var next, rest := words[0], words[1..];
      assert IsWord(next) && AreWords(rest) by { AreWordsParts(words); }
      var sep := SeparatorAfter(w, next);
      CapitalsStart(rest);
      SnakedCapital(before, w, next, Capitals(rest));
      SnakedCapitals(snaked + sep, next, rest);
      LowerAllOf(snaked + sep, Capital(next));
      LowerAllOf(snaked, sep);
      LowerSeparator(w, next);
      LowerCapital(next);
      Regroup(LowerAll(snaked), sep, next, Recovered(next, rest));
    }
  }

  lemma AreWordsParts(words: seq<string>)
    requires words != [] && AreWords(words)
    ensures IsWord(words[0]) && AreWords(words[1..])
  {
  }

  lemma LowerSeparator(w: string, next: string)
    requires IsWord(w) && IsWord(next)
    ensures LowerAll(SeparatorAfter(w, next)) == SeparatorAfter(w, next)
  {
    LowerAllSame(SeparatorAfter(w, next));
  }

  lemma Regroup(a: string, b: string, c: string, d: string)
    ensures ((a + b) + c) + d == a + ((b + c) + d)
  {
  }

  lemma RecoveredName(words: seq<string>)
    requires words != [] && AreWords(words)
    ensures SnakeCase(CamelCase(Name(words))) == words[0] + Recovered(words[0], words[1..])
  {
    var w, rest := words[0], words[1..];
    CamelCaseIsCapitals(words);
    CapitalsStart(rest);
    var c, text := Upper(w[0]), w[1..] + Capitals(rest);
    assert Capitals(words) == [c] + text;
    SnakedStep("", c, text);
    assert NextSnaked("", [c] + text) == [c];
    SnakedRest([c], w[1..], Capitals(rest));
    hide NextSnaked, Snaked, LowerAll;
    assert [c] + w[1..] == Capital(w) == "" + Capital(w);
    SnakedCapitals("", w, rest);
    LowerCapital(w);
  }

  lemma {:induction false} RecoveredExactly(w: string, words: seq<string>)
    requires IsWord(w) && AreWords(words)
    ensures |Recovered(w, words)| <= |Tail(words)|
    ensures AllSurvive([w] + words) <==> Recovered(w, words) == Tail(words)
    ensures AllSurvive([w] + words) <==> |Recovered(w, words)| == |Tail(words)|
    decreases |words|
  {
    if words != [] {
      var all, rest := [w] + words, [words[0]] + words[1..];
      RecoveredExactly(words[0], words[1..]);
      assert rest == words;
      assert forall i | 0 < i < |all| :: all[i] == words[i - 1];
      assert AllSurvive(all) <==> Survives(w, words[0]) && AllSurvive(words) by {
        assert all[0] == w && all[1] == words[0];
        if AllSurvive(all) {
          forall i | 0 < i < |words| ensures Survives(words[i - 1], words[i]) {
            assert Survives(all[i], all[i + 1]);
          }
        }
      }
    } else {
      assert AllSurvive([w] + words);
    }
  }

  /** A helper name can be recovered from its object path if and only if all its word boundaries survive. */
  lemma RoundTrip(words: seq<string>)
    requires words != [] && AreWords(words)
    ensures SnakeCase(CamelCase(Name(words))) == Name(words) <==> AllSurvive(words)
  {
    RecoveredName(words);
    RecoveredExactly(words[0], words[1..]);
    assert [words[0]] + words[1..] == words;
  }

  /** So no two such helpers share an object path. */
  lemma NoClash(a: seq<string>, b: seq<string>)
    requires a != [] && AreWords(a) && AllSurvive(a) && b != [] && AreWords(b) && AllSurvive(b)
    ensures CamelCase(Name(a)) == CamelCase(Name(b)) ==> Name(a) == Name(b)
  {
    RoundTrip(a);
    RoundTrip(b);
  }
}
