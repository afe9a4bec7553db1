/**
 * The configuration files: what a parser holds, how files are layered, and what migrating one key does to
 * every lookup.  Option names are already in lower case and values are taken as written.
 */
module ConfigFiles {
  import opened Prelude

  type Options = map<string, string>

  /** A parsed file: its [DEFAULT] section and the others. */
  datatype Parser = Parser(defaults: Options, sections: map<string, Options>)

  const EMPTY := Parser(map[], map[])

  function Own(p: Parser, section: string): Options {
    if section in p.sections then p.sections[section] else map[]
  }

  predicate HasOption(p: Parser, section: string, name: string) {
    section in p.sections && (name in p.sections[section] || name in p.defaults)
  }

  function Value(p: Parser, section: string, name: string): Option<string> {
    if !HasOption(p, section, name) then None
    else if name in p.sections[section] then Some(p.sections[section][name])
    else Some(p.defaults[name])
  }

  /** Reading one more file into a parser. */
  function Merge(p: Parser, file: Parser): Parser {
    Parser(p.defaults + file.defaults,
           map section | section in p.sections.Keys + file.sections.Keys :: Own(p, section) + Own(file, section))
  }

  /** ConfigSection.__getitem__ before its own defaults. */
  function Lookup(local: Parser, config: Parser, section: string, name: string): Option<string> {
    if HasOption(local, section, name) then Value(local, section, name) else Value(config, section, name)
  }

  ghost predicate SameLookups(local: Parser, config: Parser, local': Parser, config': Parser) {
    forall section, name :: Lookup(local, config, section, name) == Lookup(local', config', section, name)
  }

  lemma MergeEmpty(p: Parser)
    ensures Merge(p, EMPTY) == p && Merge(EMPTY, p) == p
  {
    var m, m' := Merge(p, EMPTY), Merge(EMPTY, p);
    assert m.sections.Keys == p.sections.Keys == m'.sections.Keys;
    forall section | section in p.sections
      ensures m.sections[section] == p.sections[section] == m'.sections[section]
    {
      assert m.sections[section] == Own(p, section) + map[];
      assert m'.sections[section] == map[] + Own(p, section);
    }
    assert m.sections == p.sections == m'.sections;
  }

  lemma MergeSame(p: Parser)
    ensures Merge(p, p) == p
  {
    var m := Merge(p, p);
    assert m.sections.Keys == p.sections.Keys;
    forall section | section in p.sections ensures m.sections[section] == p.sections[section] {
      assert m.sections[section] == Own(p, section) + Own(p, section);
    }
    assert m.sections == p.sections;
  }

  /** A section has an option of its own or by default; a section that is missing has none. */
  lemma ValueIs(p: Parser, section: string, name: string)
    ensures Value(p, section, name) == if section !in p.sections then None
                                       else if name in p.sections[section] then Some(p.sections[section][name])
                                       else if name in p.defaults then Some(p.defaults[name])
                                       else None
  {
  }

  /** What a file says wins over what was read before it. */
  lemma MergedValue(p: Parser, file: Parser, section: string, name: string)
    ensures Value(Merge(p, file), section, name)
         == if section !in p.sections && section !in file.sections then None
            else if name in Own(file, section) then Some(Own(file, section)[name])
            else if name in Own(p, section) then Some(Own(p, section)[name])
            else if name in file.defaults then Some(file.defaults[name])
            else if name in p.defaults then Some(p.defaults[name])
            else None
  {
    var m := Merge(p, file);
    assert section in m.sections <==> section in p.sections || section in file.sections;
    if section in m.sections { assert m.sections[section] == Own(p, section) + Own(file, section); }
  }

  // ---------------------------------------------------------------- migrating one key

  predicate Migrates(user: Parser, local: Parser, section: string, key: string) {
    HasOption(user, section, key) && !HasOption(local, section, key)
  }

  function Take(user: Parser, section: string, key: string): Parser
    requires section in user.sections
  {
    user.(sections := user.sections[section := user.sections[section] - {key}])
  }

  function Put(local: Parser, section: string, key: string, value: string): Parser {
    local.(sections := local.sections[section := Own(local, section)[key := value]])
  }

  /**
   * When moving a key from the user file to the local one changes no lookup: if the value comes from the
   * user's [DEFAULT] section, the base section must not have a different one of its own; and if the section
   * is new to the local file, the local [DEFAULT] section must not say anything new about it.
   */
  predicate HarmlessStep(base: Parser, user: Parser, local: Parser, section: string, key: string)
    requires Migrates(user, local, section, key)
  {
    && (key in Own(user, section) || key !in Own(base, section) || Own(base, section)[key] == user.defaults[key])
    && (section in local.sections
        || forall name | name in local.defaults && name != key ::
             Value(Merge(base, user), section, name) == Some(local.defaults[name]))
  }

  lemma PutValue(local: Parser, section: string, key: string, value: string, s: string, n: string)
    ensures Value(Put(local, section, key, value), s, n)
         == if s == section && n == key then Some(value)
            else if s == section && n !in Own(local, s) && n in local.defaults then Some(local.defaults[n])
            else Value(local, s, n)
  {
  }

  lemma TakeValue(base: Parser, user: Parser, section: string, key: string, s: string, n: string)
    requires section in user.sections && (s != section || n != key)
    ensures Value(Merge(base, Take(user, section, key)), s, n) == Value(Merge(base, user), s, n)
  {
    MergedValue(base, user, s, n);
    MergedValue(base, Take(user, section, key), s, n);
    hide Merge, Value;
  }

  /** The user file may be the old or the new one: the disk is read either before or after it is written. */
  lemma StepLookup(base: Parser, user: Parser, local: Parser, section: string, key: string, s: string, n: string)
    requires Migrates(user, local, section, key)
    ensures var local' := Put(local, section, key, Value(user, section, key).value);
            && Lookup(local', Merge(base, user), s, n) == Lookup(local', Merge(base, Take(user, section, key)), s, n)
            && (HarmlessStep(base, user, local, section, key) ==>
                  Lookup(local', Merge(base, user), s, n) == Lookup(local, Merge(base, user), s, n))
  {
    PutValue(local, section, key, Value(user, section, key).value, s, n);
    if s != section || n != key {
      TakeValue(base, user, section, key, s, n);
    } else {
      MergedValue(base, user, s, n);
    }
    hide Merge;
  }

  /** The condition is exact. */
  lemma HarmlessOnlyIf(base: Parser, user: Parser, local: Parser, section: string, key: string)
    requires Migrates(user, local, section, key)
    requires var local' := Put(local, section, key, Value(user, section, key).value);
             forall s, n | HasOption(local', s, n) ::
               Lookup(local', Merge(base, user), s, n) == Lookup(local, Merge(base, user), s, n)
    ensures HarmlessStep(base, user, local, section, key)
  {
    var local' := Put(local, section, key, Value(user, section, key).value);
    MergedValue(base, user, section, key);
    assert HasOption(local', section, key);
    if section !in local.sections {
      forall name | name in local.defaults && name != key
        ensures Value(Merge(base, user), section, name) == Some(local.defaults[name])
      {
        assert HasOption(local', section, name);
        PutValue(local, section, key, Value(user, section, key).value, section, name);
      }
    }
    hide Merge;
  }

  /** What the local parser says about an option is not changed by migrating other keys. */
  lemma PutSticks(local: Parser, section: string, key: string, value: string, s: string, n: string)
    requires !HasOption(local, section, key) && HasOption(local, s, n)
    ensures HasOption(Put(local, section, key, value), s, n)
    ensures Value(Put(local, section, key, value), s, n) == Value(local, s, n)
  {
  }

  /** Every migration finds a state in which it is harmless; a caller can check it from the three files. */
  predicate Harmless(base: Parser, user: Parser, local: Parser, migrations: seq<(string, string)>)
    decreases |migrations|
  {
    if migrations == [] then true
    else
      var (section, key) := migrations[0];
      if !Migrates(user, local, section, key) then Harmless(base, user, local, migrations[1..])
      else
        && HarmlessStep(base, user, local, section, key)
        && Harmless(base, Take(user, section, key), Put(local, section, key, Value(user, section, key).value),
                    migrations[1..])
  }

  /** Without [DEFAULT] sections in the user and local files every migration is harmless. */
  lemma {:induction false} HarmlessWithoutDefaults(base: Parser, user: Parser, local: Parser,
                                                   migrations: seq<(string, string)>)
    requires user.defaults == map[] && local.defaults == map[]
    ensures Harmless(base, user, local, migrations)
    decreases |migrations|
  {
    if migrations != [] {
      var (section, key) := migrations[0];
      if Migrates(user, local, section, key) {
        HarmlessWithoutDefaults(base, Take(user, section, key),
                                Put(local, section, key, Value(user, section, key).value), migrations[1..]);
      } else {
        HarmlessWithoutDefaults(base, user, local, migrations[1..]);
      }
    }
  }
}
