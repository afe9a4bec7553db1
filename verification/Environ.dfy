/** Scrubbing the environment of a crashed process (MinidumpHelper.sanitize_environ). */
module Environ {

  const HOME_VAR := "${HOME}"
  const USER_VAR := "${USER}"

  predicate StartsWith(s: string, t: string) {
    |t| <= |s| && s[..|t|] == t
  }

  predicate Contains(s: string, t: string) {
    exists i | 0 <= i <= |s| :: StartsWith(s[i..], t)
  }

  /** str.replace: the leftmost occurrences that do not overlap. */
  function Replace(s: string, target: string, text: string): string
    requires target != ""
  {
    if s == "" then ""
    else if StartsWith(s, target) then text + Replace(s[|target|..], target, text)
    else [s[0]] + Replace(s[1..], target, text)
  }

  // ---------------------------------------------------------------- one replacement

  /** A variable reference: a dollar sign, a name in braces. */
  predicate IsReference(r: string) {
    |r| >= 2 && r[0] == '$' && r[|r| - 1] == '}' && '$' !in r[1..]
  }

  function Inner(r: string): string
    requires IsReference(r)
  {
    r[1..|r| - 1]
  }

  predicate Plain(t: string) {
    t != "" && '$' !in t && '}' !in t
  }

  lemma CharAt(s: string, i: nat, t: string, k: nat)
    requires i <= |s| && StartsWith(s[i..], t) && k < |t|
    ensures t[k] == s[i + k]
  {
    assert s[i..][..|t|][k] == s[i + k];
  }

  /** What comes before the first reference was already there. */
  lemma {:induction false} PrefixKept(s: string, target: string, r: string, u: string)
    requires target != "" && IsReference(r) && '$' !in u
    requires StartsWith(Replace(s, target, r), u)
    ensures StartsWith(s, u)
  {
    if u != "" && s != "" {
      var out := Replace(s, target, r);
      CharAt(out, 0, u, 0);
      if !StartsWith(s, target) {
        assert out[1..] == Replace(s[1..], target, r);
        assert StartsWith(out[1..], u[1..]) by { assert out[..|u|][1..] == out[1..][..|u| - 1]; }
        PrefixKept(s[1..], target, r, u[1..]);
        assert s[..|u|] == [s[0]] + s[1..][..|u| - 1];
      }
    }
  }

  lemma ContainsTail(s: string, n: nat, u: string)
    requires n <= |s| && Contains(s[n..], u)
    ensures Contains(s, u)
  {
    var i :| 0 <= i <= |s[n..]| && StartsWith(s[n..][i..], u);
    assert s[n..][i..] == s[n + i..];
  }

  /** A plain text that starts inside a reference ends inside it. */
  lemma InsideReference(r: string, rest: string, i: nat, u: string)
    requires IsReference(r) && Plain(u) && i < |r| && StartsWith((r + rest)[i..], u)
    ensures Contains(Inner(r), u)
  {
    var all := r + rest;
    CharAt(all, i, u, 0);
    if i + |u| >= |r| {
      CharAt(all, i, u, |r| - 1 - i);
    } else {
      assert Inner(r)[i - 1..][..|u|] == u;
    }
  }

  /**
   * After replacing, a plain text is nowhere to be found if it is the replaced one or was not there before,
   * and the reference itself does not contain it.
   */
  lemma {:induction false} Removed(s: string, target: string, r: string, u: string)
    requires target != "" && IsReference(r) && Plain(u) && !Contains(Inner(r), u)
    requires u == target || !Contains(s, u)
    ensures !Contains(Replace(s, target, r), u)
  {
    if s != "" {
      var out := Replace(s, target, r);
      var used, made := if StartsWith(s, target) then |target| else 1, if StartsWith(s, target) then r else [s[0]];
      if !Contains(s, u) && Contains(s[used..], u) { ContainsTail(s, used, u); }
      Removed(s[used..], target, r, u);
      var rest := Replace(s[used..], target, r);
      assert out == made + rest;
      forall i | 0 <= i <= |out| ensures !StartsWith(out[i..], u) {
        if i >= |made| {
          assert out[i..] == rest[i - |made|..];
        } else if StartsWith(out[i..], u) {
          if StartsWith(s, target) {
            InsideReference(r, rest, i, u);
          } else {
            assert out[0..] == out && s[0..] == s;
            PrefixKept(s, target, r, u);
          }
        }
      }
    }
  }

  lemma ReplaceItself(t: string, r: string)
    requires t != ""
    ensures Replace(t, t, r) == r
  {
    assert t[|t|..] == "";
  }

  /** The condition on the reference is exact. */
  lemma RemovedExactly(target: string, r: string)
    requires IsReference(r) && Plain(target)
    ensures !Contains(Inner(r), target) <==> forall s :: !Contains(Replace(s, target, r), target)
  {
    if Contains(Inner(r), target) {
      ReplaceItself(target, r);
      var i :| 0 <= i <= |Inner(r)| && StartsWith(Inner(r)[i..], target);
      assert r[i + 1..][..|target|] == Inner(r)[i..][..|target|];
      assert Contains(Replace(target, target, r), target);
    } else {
      forall s ensures !Contains(Replace(s, target, r), target) { Removed(s, target, r, target); }
    }
  }

  lemma ReferenceFromText(s: string, target: string, r: string)
    requires s != "" && target != "" && IsReference(r) && !StartsWith(s, target)
    requires StartsWith([s[0]] + Replace(s[1..], target, r), r)
    ensures Contains(s, r)
  {
    var out := [s[0]] + Replace(s[1..], target, r);
    assert out[0] == r[0] && out[1..] == Replace(s[1..], target, r);
    assert r[1..] == out[1..][..|r| - 1];
    PrefixKept(s[1..], target, r, r[1..]);
    assert s[..|r|] == [s[0]] + s[1..][..|r| - 1] == r;
    assert s[0..] == s;
  }

  /** Expanding the references gives the text back, if it had none of them. */
  lemma {:induction false} Restored(s: string, target: string, r: string)
    requires target != "" && IsReference(r) && !Contains(s, r)
    ensures Replace(Replace(s, target, r), r, target) == s
  {
    if s != "" {
      var out := Replace(s, target, r);
      var used := if StartsWith(s, target) then |target| else 1;
      if Contains(s[used..], r) { ContainsTail(s, used, r); }
      Restored(s[used..], target, r);
      if StartsWith(s, target) {
        ReplaceFirst(r, Replace(s[used..], target, r), target);
        assert s == target + s[used..];
      } else {
        if StartsWith(out, r) { ReferenceFromText(s, target, r); }
        ReplaceLater(s[0], Replace(s[1..], target, r), r, target);
        assert s == [s[0]] + s[1..];
      }
      hide Contains, IsReference;
    }
  }

  lemma ReplaceFirst(target: string, rest: string, text: string)
    requires target != ""
    ensures Replace(target + rest, target, text) == text + Replace(rest, target, text)
  {
    assert (target + rest)[|target|..] == rest;
  }

  lemma ReplaceLater(c: char, rest: string, target: string, text: string)
    requires target != "" && !StartsWith([c] + rest, target)
    ensures Replace([c] + rest, target, text) == [c] + Replace(rest, target, text)
  {
    assert ([c] + rest)[1..] == rest;
  }

  /** Replacing one text makes no other reference. */
  lemma {:induction false} NoOtherReference(s: string, target: string, r: string, other: string)
    requires target != "" && IsReference(r) && IsReference(other) && '$' !in s
    requires |r| == |other| && r != other
    ensures !Contains(Replace(s, target, r), other)
  {
    if s != "" {
      var out := Replace(s, target, r);
      var used, made := if StartsWith(s, target) then |target| else 1, if StartsWith(s, target) then r else [s[0]];
      NoOtherReference(s[used..], target, r, other);
      var rest := Replace(s[used..], target, r);
      assert out == made + rest;
      forall i | 0 <= i <= |out| ensures !StartsWith(out[i..], other) {
        if i >= |made| {
          assert out[i..] == rest[i - |made|..];
        } else if StartsWith(out[i..], other) {
          CharAt(out, i, other, 0);
        }
      }
    }
  }

  // ---------------------------------------------------------------- the whole environment

  type Env = map<string, string>

  function Replaced(env: Env, target: string, text: string): Env
    requires target != ""
  {
    map k | k in env :: Replace(env[k], target, text)
  }

  /** A variable is removed and its value replaced, unless it is missing or empty. */
  function Scrubbed(env: Env, name: string, value: string, text: string): Env {
    if value == "" then env else Replaced(env - {name}, value, text)
  }

  function ValueOf(env: Env, name: string): string {
    if name in env then env[name] else ""
  }

  function Sanitized(env: Env): Env {
    var e := env - {"SteamAppUser"};
    var home, user := ValueOf(e, "HOME"), ValueOf(e, "USER");
    Scrubbed(Scrubbed(e, "HOME", home, HOME_VAR), "USER", user, USER_VAR)
  }

  lemma References()
    ensures IsReference(HOME_VAR) && IsReference(USER_VAR)
    ensures Inner(HOME_VAR) == "{HOME" && Inner(USER_VAR) == "{USER"
  {
  }

  lemma HasChar(s: string, t: string, c: char)
    requires Contains(s, t) && c in t
    ensures c in s
  {
    var i :| 0 <= i <= |s| && StartsWith(s[i..], t);
    var k :| 0 <= k < |t| && t[k] == c;
    assert s[i..][..|t|][k] == s[i + k];
  }

  /** SteamAppUser is removed, and HOME and USER unless they are missing or empty. */
  lemma KeysAre(env: Env)
    ensures "SteamAppUser" !in Sanitized(env)
    ensures "HOME" in Sanitized(env) <==> "HOME" in env && env["HOME"] == ""
    ensures "USER" in Sanitized(env) <==> "USER" in env && env["USER"] == ""
    ensures forall k | k !in {"SteamAppUser", "HOME", "USER"} :: k in Sanitized(env) <==> k in env
  {
    hide Replace;
  }

  /** Every value is replaced for each of the two that is set, HOME first. */
  lemma ValueIs(env: Env, k: string)
    requires k in Sanitized(env)
    ensures k in env
    ensures var once := if "HOME" in env && env["HOME"] != "" then Replace(env[k], env["HOME"], "${HOME}") else env[k];
            Sanitized(env)[k] == if "USER" in env && env["USER"] != "" then Replace(once, env["USER"], "${USER}")
                                 else once
  {
    hide Replace;
  }

  /** The home directory is nowhere left, whatever the user name is. */
  lemma HomeNeverLeaks(env: Env, k: string)
    requires "HOME" in env && Plain(env["HOME"]) && k in Sanitized(env)
    requires !Contains("{HOME", env["HOME"]) && !Contains("{USER", env["HOME"])
    ensures !Contains(Sanitized(env)[k], env["HOME"])
  {
    var home := env["HOME"];
    References();
    ValueIs(env, k);
    Removed(env[k], home, HOME_VAR, home);
    if "USER" in env && env["USER"] != "" { Removed(Replace(env[k], home, HOME_VAR), env["USER"], USER_VAR, home); }
    hide Sanitized, Replace, Contains;
  }

  /** Nor is the user name, whatever the home directory is. */
  lemma UserNeverLeaks(env: Env, k: string)
    requires "USER" in env && Plain(env["USER"]) && !Contains("{USER", env["USER"]) && k in Sanitized(env)
    ensures !Contains(Sanitized(env)[k], env["USER"])
  {
    var once := if "HOME" in env && env["HOME"] != "" then Replace(env[k], env["HOME"], "${HOME}") else env[k];
    References();
    ValueIs(env, k);
    Removed(once, env["USER"], USER_VAR, env["USER"]);
    hide Sanitized, Replace, Contains;
  }

  /** Neither the home directory nor the user name is left in any value, nor the variables that told them. */
  lemma NothingLeaks(env: Env)
    requires "HOME" in env && Plain(env["HOME"])
    requires !Contains("{HOME", env["HOME"]) && !Contains("{USER", env["HOME"])
    requires "USER" in env && Plain(env["USER"]) && !Contains("{USER", env["USER"])
    ensures Sanitized(env).Keys == env.Keys - {"SteamAppUser", "HOME", "USER"}
    ensures forall k | k in Sanitized(env) ::
              !Contains(Sanitized(env)[k], env["HOME"]) && !Contains(Sanitized(env)[k], env["USER"])
  {
    KeysAre(env);
    hide Sanitized, Contains;
    forall k | k in Sanitized(env)
      ensures !Contains(Sanitized(env)[k], env["HOME"]) && !Contains(Sanitized(env)[k], env["USER"])
    {
      HomeNeverLeaks(env, k);
      UserNeverLeaks(env, k);
    }
  }

  /** A home directory with a slash is in neither reference. */
  lemma HomeWithSlash(home: string)
    requires '/' in home
    ensures !Contains("{HOME", home) && !Contains("{USER", home)
  {
    if Contains("{HOME", home) { HasChar("{HOME", home, '/'); }
    if Contains("{USER", home) { HasChar("{USER", home, '/'); }
  }

  /** Nothing else is lost: with the old values, a reader can expand what was written without a `$`. */
  lemma NothingElseIsLost(env: Env, k: string)
    requires "HOME" in env && env["HOME"] != "" && "USER" in env && env["USER"] != ""
    requires k in Sanitized(env) && '$' !in env[k]
    ensures Replace(Replace(Sanitized(env)[k], USER_VAR, env["USER"]), HOME_VAR, env["HOME"]) == env[k]
  {
    var home, user := env["HOME"], env["USER"];
    References();
    if Contains(env[k], HOME_VAR) { HasChar(env[k], HOME_VAR, '$'); }
    var once := Replace(env[k], home, HOME_VAR);
    assert HOME_VAR[2] != USER_VAR[2];
    NoOtherReference(env[k], home, HOME_VAR, USER_VAR);
    Restored(env[k], home, HOME_VAR);
    Restored(once, user, USER_VAR);
  }

  // ---------------------------------------------------------------- in place

  class Environment {
    var env: Env

    method ReplaceAll(target: string, text: string)
      requires target != ""
      modifies this
      ensures env == Replaced(old(env), target, text)
    {
      var todo := env.Keys;
      while todo != {}
        invariant todo <= env.Keys == old(env).Keys
        invariant forall k | k in env ::
                    env[k] == if k in todo then old(env)[k] else Replace(old(env)[k], target, text)
        decreases todo
      {
        var key :| key in todo;
        env := env[key := Replace(env[key], target, text)];
        todo := todo - {key};
      }
    }

    method SanitizeEnviron()
      modifies this
      ensures env == Sanitized(old(env))
    {
      env := env - {"SteamAppUser"};
      var home := ValueOf(env, "HOME");
      var user := ValueOf(env, "USER");
      if home != "" {
        env := env - {"HOME"};
        ReplaceAll(home, HOME_VAR);
      }
      if user != "" {
        env := env - {"USER"};
        ReplaceAll(user, USER_VAR);
      }
    }
  }
}
