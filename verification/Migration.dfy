/** config.py over the whole disk: reloading, migrating and upgrading, and what every lookup keeps. */
module Migration {
  import opened Prelude
  import opened ConfigFiles

  type Path = string

  type Files = map<Path, Parser>

  /** The base file, the home directories of the accounts by uid, and the paths that can be opened to write. */
  datatype Env = Env(base: Option<Parser>, homes: map<string, string>, writable: set<Path>)

  datatype State = State(
    files: Files,             // the user and local files that can be read
    config: Parser,           // base and user
    local: Parser,
    userPath: Option<Path>,
    localPath: Option<Path>,
    written: seq<Files>)      // history: the disk after each write

  datatype Outcome = Done(migrated: bool) | Raised

  function Base(env: Env): Parser {
    env.base.GetOr(EMPTY)
  }

  function UserPath(env: Env): Option<Path> {
    if HasOption(Base(env), "sls", "user-config") then Value(Base(env), "sls", "user-config")
    else
      var uid := Value(Base(env), "sls", "uid");
      if uid.Some? && uid.value in env.homes
      then Some(env.homes[uid.value] + "/.steam/root/config/steamos-log-submitter.cfg")
      else None
  }

  predicate Readable(files: Files, path: Option<Path>) {
    path.Some? && path.value != "" && path.value in files
  }

  predicate Writable(env: Env, path: Option<Path>) {
    path.Some? && path.value != "" && path.value in env.writable
  }

  /** A file that is not there adds nothing. */
  function Content(files: Files, path: Option<Path>): Parser {
    if Readable(files, path) then files[path.value] else EMPTY
  }

  function Layered(env: Env, files: Files): Parser {
    Merge(Base(env), Content(files, UserPath(env)))
  }

  function LocalPath(config: Parser): Option<Path> {
    Value(config, "sls", "local-config")
  }

  function Reloaded(env: Env, s: State): State {
    var config := Layered(env, s.files);
    s.(config := config, userPath := UserPath(env), localPath := LocalPath(config),
       local := Merge(s.local, Content(s.files, LocalPath(config))))
  }

  function Write(s: State, path: Path, p: Parser): State {
    s.(files := s.files[path := p], written := s.written + [s.files[path := p]])
  }

  function MigratedKey(env: Env, s: State, section: string, key: string): (State, Outcome) {
    var user := Content(s.files, s.userPath);
    if !Migrates(user, s.local, section, key) then (s, Done(false))
    else
      var s1 := s.(local := Put(s.local, section, key, Value(user, section, key).value));
      if !Writable(env, s1.localPath) then (s1, Raised)
      else
        var s2 := Write(s1, s1.localPath.value, s1.local);
        if !Writable(env, s2.userPath) then (s2, Raised)
        else (Write(s2, s2.userPath.value, Take(user, section, key)), Done(true))
  }

  function Or(a: Outcome, b: Outcome): Outcome {
    if a.Raised? || b.Raised? then Raised else Done(a.migrated || b.migrated)
  }

  function MigratedAll(env: Env, s: State, migrations: seq<(string, string)>): (State, Outcome)
    decreases |migrations|
  {
    if migrations == [] then (s, Done(false))
    else
      var (s1, o1) := MigratedKey(env, s, migrations[0].0, migrations[0].1);
      if o1.Raised? then (s1, Raised)
      else
        var (s2, o2) := MigratedAll(env, s1, migrations[1..]);
        (s2, Or(o1, o2))
  }

  /** The keys that are migrated. */
  function Migrations(helpers: seq<string>): seq<(string, string)> {
    [("sls", "enable"), ("steam", "account_id"), ("steam", "account_name"), ("steam", "deck_serial")]
    + seq(|helpers|, (i: nat) requires i < |helpers| => ("helpers." + helpers[i], "enable"))
  }

  function Upgraded(env: Env, s: State, helpers: seq<string>): (State, Outcome) {
    var (s', outcome) := MigratedAll(env, Reloaded(env, s), Migrations(helpers));
    (if outcome == Done(true) then Reloaded(env, s') else s', outcome)
  }

  /** Which files are read: by the base file, and for the local one by what the user file adds to it. */
  lemma PathsAre(env: Env, s: State)
    requires env.base.Some? && env.base.value.defaults == map[] && "sls" in env.base.value.sections
    ensures var sls, r := env.base.value.sections["sls"], Reloaded(env, s);
            && (r.userPath == if "user-config" in sls then Some(sls["user-config"])
                              else if "uid" in sls && sls["uid"] in env.homes then
                                Some(env.homes[sls["uid"]] + "/.steam/root/config/steamos-log-submitter.cfg")
                              else None)
            && var own := Own(Content(s.files, r.userPath), "sls");
               ("local-config" in own ==> r.localPath == Some(own["local-config"]))
               && ("local-config" !in own && "local-config" in sls ==> r.localPath == Some(sls["local-config"]))
  {
    MergedValue(Base(env), Content(s.files, UserPath(env)), "sls", "local-config");
    hide Merge;
  }

  // ---------------------------------------------------------------- one key

  /** What holds between two migrations. */
  ghost predicate Ready(env: Env, s: State) {
    && s.userPath == UserPath(env)
    && s.localPath == LocalPath(Layered(env, s.files))
    && Merge(s.local, Content(s.files, s.localPath)) == s.local
    && SameLookups(s.local, s.config, s.local, Layered(env, s.files))
  }

  /** What a process that starts now will look up. */
  ghost predicate FreshlyRead(env: Env, files: Files, local: Parser, config: Parser) {
    var layered := Layered(env, files);
    SameLookups(Content(files, LocalPath(layered)), layered, local, config)
  }

  lemma ReloadIsReady(env: Env, s: State)
    ensures Ready(env, Reloaded(env, s))
  {
    var file := Content(s.files, LocalPath(Layered(env, s.files)));
    MergeTwice(s.local, file);
    hide Merge;
  }

  lemma MergeTwice(p: Parser, file: Parser)
    ensures Merge(Merge(p, file), file) == Merge(p, file)
  {
    var m, m' := Merge(p, file), Merge(Merge(p, file), file);
    assert m.defaults == m'.defaults;
    assert m.sections.Keys == m'.sections.Keys;
    forall section | section in m.sections ensures m'.sections[section] == m.sections[section] {
      assert m'.sections[section] == (Own(p, section) + Own(file, section)) + Own(file, section);
    }
    assert m.sections == m'.sections;
  }

  lemma HasOptionOfMerged(p: Parser, file: Parser, section: string, name: string)
    requires HasOption(p, section, name) || HasOption(file, section, name)
    ensures HasOption(Merge(p, file), section, name)
  {
    assert section in Merge(p, file).sections;
    assert Merge(p, file).sections[section] == Own(p, section) + Own(file, section);
  }

  lemma Chain(l1: Parser, c1: Parser, l2: Parser, c2: Parser, l3: Parser, c3: Parser)
    requires SameLookups(l1, c1, l2, c2) && SameLookups(l2, c2, l3, c3)
    ensures SameLookups(l1, c1, l3, c3)
  {
    forall s, n ensures Lookup(l1, c1, s, n) == Lookup(l3, c3, s, n) {
      assert Lookup(l1, c1, s, n) == Lookup(l2, c2, s, n);
      hide Lookup;
    }
  }

  /** Once an option is local, the other files do not matter for it. */
  lemma SameUnderPut(local: Parser, c: Parser, c': Parser, section: string, key: string, value: string)
    requires SameLookups(local, c, local, c') && !HasOption(local, section, key)
    ensures var local' := Put(local, section, key, value); SameLookups(local', c, local', c')
  {
    var local' := Put(local, section, key, value);
    forall s, n ensures Lookup(local', c, s, n) == Lookup(local', c', s, n) {
      assert Lookup(local, c, s, n) == Lookup(local, c', s, n);
      if HasOption(local, s, n) { PutSticks(local, section, key, value, s, n); }
      hide Put;
    }
  }

  predicate CanMigrate(env: Env, s: State, section: string, key: string) {
    Migrates(Content(s.files, s.userPath), s.local, section, key)
  }

  /** The disk after the first write and after the second. */
  lemma DiskAfter(env: Env, s: State, section: string, key: string)
    requires Ready(env, s) && CanMigrate(env, s, section, key) && (section, key) != ("sls", "local-config")
    requires Writable(env, s.localPath)
    ensures var user := Content(s.files, s.userPath);
            var local' := Put(s.local, section, key, Value(user, section, key).value);
            var d1 := s.files[s.localPath.value := local'];
            var d2 := d1[s.userPath.value := Take(user, section, key)];
            && s.userPath != s.localPath
            && Layered(env, d1) == Layered(env, s.files) == Merge(Base(env), user)
            && Layered(env, d2) == Merge(Base(env), Take(user, section, key))
            && LocalPath(Layered(env, d2)) == LocalPath(Layered(env, d1)) == s.localPath
            && Content(d1, s.localPath) == Content(d2, s.localPath) == local'
            && Content(d2, s.userPath) == Take(user, section, key)
  {
    var user := Content(s.files, s.userPath);
    if s.userPath == s.localPath { HasOptionOfMerged(s.local, user, section, key); }
    TakeValue(Base(env), user, section, key, "sls", "local-config");
    hide Merge, Value, Put, Take, HasOption, Base;
  }

  /** Moving one key, harmful or not, keeps what holds between migrations. */
  lemma KeyKeepsReady(env: Env, s: State, section: string, key: string)
    requires Ready(env, s) && (section, key) != ("sls", "local-config")
    ensures var (s', outcome) := MigratedKey(env, s, section, key);
            outcome.Done? ==> Ready(env, s') && !CanMigrate(env, s', section, key)
  {
    if CanMigrate(env, s, section, key) && Writable(env, s.localPath) && Writable(env, s.userPath) {
      var user := Content(s.files, s.userPath);
      var value := Value(user, section, key).value;
      var local' := Put(s.local, section, key, value);
      var c, c' := Layered(env, s.files), Merge(Base(env), Take(user, section, key));
      DiskAfter(env, s, section, key);
      SameUnderPut(s.local, s.config, c, section, key, value);
      forall n, o ensures Lookup(local', c, n, o) == Lookup(local', c', n, o) {
        StepLookup(Base(env), user, s.local, section, key, n, o);
      }
      Chain(local', s.config, local', c, local', c');
      MergeSame(local');
      assert HasOption(local', section, key);
      hide Merge, Put, Take, SameLookups, Value, HasOption;
    }
  }

  lemma FilesAfter(env: Env, s: State, section: string, key: string)
    requires Ready(env, s) && CanMigrate(env, s, section, key) && (section, key) != ("sls", "local-config")
    requires MigratedKey(env, s, section, key).1.Done?
    ensures var s' := MigratedKey(env, s, section, key).0;
            var user := Content(s.files, s.userPath);
            && s'.userPath == s.userPath && s'.config == s.config
            && Content(s'.files, s'.userPath) == Take(user, section, key)
            && s'.local == Put(s.local, section, key, Value(user, section, key).value)
  {
    DiskAfter(env, s, section, key);
    hide Merge, Value, Put, Take, Layered, HasOption;
  }

  /** All the disks written after `n` writes read the same as the given memory. */
  ghost predicate DisksRead(env: Env, written: seq<Files>, n: nat, local: Parser, config: Parser) {
    forall i | n <= i < |written| :: FreshlyRead(env, written[i], local, config)
  }

  lemma StepSame(env: Env, s: State, section: string, key: string)
    requires Ready(env, s) && CanMigrate(env, s, section, key)
    requires HarmlessStep(Base(env), Content(s.files, s.userPath), s.local, section, key)
    ensures var user := Content(s.files, s.userPath);
            var local' := Put(s.local, section, key, Value(user, section, key).value);
            && SameLookups(local', s.config, s.local, s.config)
            && SameLookups(local', Merge(Base(env), user), s.local, s.config)
            && SameLookups(local', Merge(Base(env), Take(user, section, key)), s.local, s.config)
  {
    var user := Content(s.files, s.userPath);
    var c, c' := Merge(Base(env), user), Merge(Base(env), Take(user, section, key));
    assert c == Layered(env, s.files);
    var value := Value(user, section, key).value;
    var local' := Put(s.local, section, key, value);
    forall n, o ensures Lookup(local', c, n, o) == Lookup(s.local, c, n, o) == Lookup(local', c', n, o) {
      StepLookup(Base(env), user, s.local, section, key, n, o);
    }
    SameUnderPut(s.local, s.config, c, section, key, value);
    hide Merge, Value, Put, Take, HasOption, Lookup, HarmlessStep;
    Chain(local', c, s.local, c, s.local, s.config);
    Chain(local', c', local', c, s.local, s.config);
    Chain(local', s.config, local', c, s.local, s.config);
  }

  lemma DisksOfStep(env: Env, s: State, section: string, key: string)
    requires Ready(env, s) && CanMigrate(env, s, section, key) && (section, key) != ("sls", "local-config")
    requires HarmlessStep(Base(env), Content(s.files, s.userPath), s.local, section, key)
    requires Writable(env, s.localPath)
    ensures var user := Content(s.files, s.userPath);
            var local' := Put(s.local, section, key, Value(user, section, key).value);
            var d1 := s.files[s.localPath.value := local'];
            && FreshlyRead(env, d1, s.local, s.config)
            && FreshlyRead(env, d1[s.userPath.value := Take(user, section, key)], s.local, s.config)
  {
    StepSame(env, s, section, key);
    DiskAfter(env, s, section, key);
    hide Merge, Value, Put, Take, HasOption, Lookup, HarmlessStep, Layered, LocalPath, SameLookups, Content;
  }

  /** What one migration writes, and the parsers it leaves. */
  lemma WritesOf(env: Env, s: State, section: string, key: string)
    ensures var (s', _) := MigratedKey(env, s, section, key);
            var user := Content(s.files, s.userPath);
            s'.config == s.config
            && if CanMigrate(env, s, section, key) then
                 var local' := Put(s.local, section, key, Value(user, section, key).value);
                 && s'.local == local'
                 && if !Writable(env, s.localPath) then s'.written == s.written
                    else
                      var d1 := s.files[s.localPath.value := local'];
                      if !Writable(env, s.userPath) then s'.written == s.written + [d1]
                      else s'.written == s.written + [d1] + [d1[s.userPath.value := Take(user, section, key)]]
               else s' == s
  {
    hide Put, Take, Value, Content;
  }

  lemma OneMoreDisk(env: Env, written: seq<Files>, n: nat, d: Files, l: Parser, c: Parser)
    requires DisksRead(env, written, n, l, c) && FreshlyRead(env, d, l, c)
    ensures DisksRead(env, written + [d], n, l, c)
  {
    hide FreshlyRead;
  }

  lemma KeyKeepsLookups(env: Env, s: State, section: string, key: string)
    requires Ready(env, s) && (section, key) != ("sls", "local-config")
    requires CanMigrate(env, s, section, key)
             ==> HarmlessStep(Base(env), Content(s.files, s.userPath), s.local, section, key)
    ensures var (s', _) := MigratedKey(env, s, section, key);
            && SameLookups(s'.local, s'.config, s.local, s.config)
            && s.written <= s'.written
            && DisksRead(env, s'.written, |s.written|, s.local, s.config)
  {
    WritesOf(env, s, section, key);
    if CanMigrate(env, s, section, key) {
      StepSame(env, s, section, key);
      if Writable(env, s.localPath) {
        DisksOfStep(env, s, section, key);
        hide MigratedKey, Merge, Value, Put, Take, HasOption, Lookup, HarmlessStep, SameLookups, FreshlyRead,
             Content, Ready;
        var user := Content(s.files, s.userPath);
        var d1 := s.files[s.localPath.value := Put(s.local, section, key, Value(user, section, key).value)];
        OneMoreDisk(env, s.written, |s.written|, d1, s.local, s.config);
        OneMoreDisk(env, s.written + [d1], |s.written|, d1[s.userPath.value := Take(user, section, key)],
                    s.local, s.config);
      }
    }
    hide MigratedKey;
  }

  // ---------------------------------------------------------------- all keys

  predicate Plain(migrations: seq<(string, string)>) {
    forall i | 0 <= i < |migrations| :: migrations[i] != ("sls", "local-config")
  }

  lemma DisksOfSame(env: Env, written: seq<Files>, n: nat, l: Parser, c: Parser, l': Parser, c': Parser)
    requires DisksRead(env, written, n, l, c) && SameLookups(l, c, l', c')
    ensures DisksRead(env, written, n, l', c')
  {
    forall i | n <= i < |written| ensures FreshlyRead(env, written[i], l', c') {
      var layered := Layered(env, written[i]);
      assert FreshlyRead(env, written[i], l, c);
      Chain(Content(written[i], LocalPath(layered)), layered, l, c, l', c');
      hide SameLookups, Layered, Content, LocalPath;
    }
  }

  lemma {:induction false} AllKeepLookups(env: Env, s: State, migrations: seq<(string, string)>)
    requires Ready(env, s) && Plain(migrations)
    requires Harmless(Base(env), Content(s.files, s.userPath), s.local, migrations)
    ensures var (s', outcome) := MigratedAll(env, s, migrations);
            && SameLookups(s'.local, s'.config, s.local, s.config)
            && s.written <= s'.written
            && DisksRead(env, s'.written, |s.written|, s.local, s.config)
            && (outcome.Done? ==> Ready(env, s'))
    decreases |migrations|
  {
    if migrations != [] {
      var (section, key) := migrations[0];
      var (s1, o1) := MigratedKey(env, s, section, key);
      assert (section, key) != ("sls", "local-config") by { assert migrations[0] == (section, key); }
      KeyKeepsLookups(env, s, section, key);
      if o1.Done? {
        KeyKeepsReady(env, s, section, key);
        if CanMigrate(env, s, section, key) { FilesAfter(env, s, section, key); }
        AllKeepLookups(env, s1, migrations[1..]);
        var (s2, o2) := MigratedAll(env, s1, migrations[1..]);
        Chain(s2.local, s2.config, s1.local, s1.config, s.local, s.config);
        DisksOfSame(env, s2.written, |s1.written|, s1.local, s1.config, s.local, s.config);
        hide SameLookups, FreshlyRead, Ready, Harmless, Content, Merge;
        DisksJoin(env, s1.written, s2.written, |s.written|, s.local, s.config);
      }
    }
  }

  lemma DisksJoin(env: Env, written: seq<Files>, longer: seq<Files>, n: nat, l: Parser, c: Parser)
    requires written <= longer && DisksRead(env, written, n, l, c) && DisksRead(env, longer, |written|, l, c)
    ensures DisksRead(env, longer, n, l, c)
  {
    hide FreshlyRead;
    forall i | n <= i < |longer| ensures FreshlyRead(env, longer[i], l, c) {
      if i < |written| { assert written[i] == longer[i]; }
    }
  }

  lemma MigrationsArePlain(helpers: seq<string>)
    ensures Plain(Migrations(helpers))
  {
    forall i | 0 <= i < |Migrations(helpers)| ensures Migrations(helpers)[i] != ("sls", "local-config") {
      if i >= 4 { assert Migrations(helpers)[i].1 == "enable"; }
      assert "enable"[0] != "local-config"[0];
    }
  }

  /**
   * Upgrading changes no lookup: not for this process, however it ends, and not for one that starts from the
   * disk as it is after any of the writes, between the local and the user file included.
   */
  lemma UpgradeKeepsLookups(env: Env, s: State, helpers: seq<string>)
    requires var r := Reloaded(env, s);
             Harmless(Base(env), Content(r.files, r.userPath), r.local, Migrations(helpers))
    ensures var r, s' := Reloaded(env, s), Upgraded(env, s, helpers).0;
            && SameLookups(s'.local, s'.config, r.local, r.config)
            && DisksRead(env, s'.written, |s.written|, r.local, r.config)
            && (s.local == EMPTY ==> FreshlyRead(env, s.files, r.local, r.config))
  {
    var r := Reloaded(env, s);
    if s.local == EMPTY { MergeEmpty(Content(s.files, r.localPath)); }
    ReloadIsReady(env, s);
    MigrationsArePlain(helpers);
    AllKeepLookups(env, r, Migrations(helpers));
    var (m, outcome) := MigratedAll(env, r, Migrations(helpers));
    if outcome == Done(true) {
      var s' := Reloaded(env, m);
      assert s'.local == m.local && s'.config == Layered(env, m.files);
      assert SameLookups(m.local, m.config, s'.local, s'.config);
      forall a, b ensures Lookup(s'.local, s'.config, a, b) == Lookup(m.local, m.config, a, b) {
        assert Lookup(m.local, m.config, a, b) == Lookup(s'.local, s'.config, a, b);
      }
      hide SameLookups, MigratedAll, Ready;
      Chain(s'.local, s'.config, m.local, m.config, r.local, r.config);
    }
  }

  // ---------------------------------------------------------------- exactly when

  lemma {:induction false} LocalSticks(env: Env, s: State, migrations: seq<(string, string)>, a: string, b: string)
    requires HasOption(s.local, a, b)
    ensures var (s', _) := MigratedAll(env, s, migrations);
            HasOption(s'.local, a, b) && Value(s'.local, a, b) == Value(s.local, a, b)
    decreases |migrations|
  {
    if migrations != [] {
      var (section, key) := migrations[0];
      var (s1, o1) := MigratedKey(env, s, section, key);
      WritesOf(env, s, section, key);
      if CanMigrate(env, s, section, key) {
        PutSticks(s.local, section, key, Value(Content(s.files, s.userPath), section, key).value, a, b);
      }
      hide MigratedKey, Put, Take;
      LocalSticks(env, s1, migrations[1..], a, b);
    }
  }

  lemma {:induction false} ConfigStays(env: Env, s: State, migrations: seq<(string, string)>)
    ensures MigratedAll(env, s, migrations).0.config == s.config
    decreases |migrations|
  {
    if migrations != [] {
      ConfigStays(env, MigratedKey(env, s, migrations[0].0, migrations[0].1).0, migrations[1..]);
    }
  }

  lemma FirstIsHarmless(env: Env, s: State, migrations: seq<(string, string)>)
    requires Ready(env, s) && migrations != []
    requires var (section, key) := migrations[0];
             CanMigrate(env, s, section, key) && MigratedKey(env, s, section, key).1.Done?
    requires var (s', _) := MigratedAll(env, s, migrations); SameLookups(s'.local, s'.config, s.local, s.config)
    ensures HarmlessStep(Base(env), Content(s.files, s.userPath), s.local, migrations[0].0, migrations[0].1)
  {
    var (section, key) := migrations[0];
    var (s1, _) := MigratedKey(env, s, section, key);
    var (s', _) := MigratedAll(env, s, migrations);
    var user := Content(s.files, s.userPath);
    var c := Merge(Base(env), user);
    assert c == Layered(env, s.files);
    var local' := Put(s.local, section, key, Value(user, section, key).value);
    WritesOf(env, s, section, key);
    forall a, b | HasOption(local', a, b) ensures Lookup(local', c, a, b) == Lookup(s.local, c, a, b) {
      LocalSticks(env, s1, migrations[1..], a, b);
      assert Lookup(s.local, s.config, a, b) == Lookup(s'.local, s'.config, a, b);
      assert Lookup(s.local, c, a, b) == Lookup(s.local, s.config, a, b);
      hide MigratedKey, Put, Merge, Value, HasOption;
    }
    HarmlessOnlyIf(Base(env), user, s.local, section, key);
  }

  lemma {:induction false} AllHarmless(env: Env, s: State, migrations: seq<(string, string)>)
    requires Ready(env, s) && Plain(migrations)
    requires var (s', outcome) := MigratedAll(env, s, migrations);
             outcome.Done? && SameLookups(s'.local, s'.config, s.local, s.config)
    ensures Harmless(Base(env), Content(s.files, s.userPath), s.local, migrations)
    decreases |migrations|
  {
    if migrations != [] {
      var (section, key) := migrations[0];
      assert (section, key) != ("sls", "local-config") by { assert migrations[0] == (section, key); }
      var (s1, o1) := MigratedKey(env, s, section, key);
      var (s2, _) := MigratedAll(env, s1, migrations[1..]);
      KeyKeepsReady(env, s, section, key);
      if CanMigrate(env, s, section, key) {
        FirstIsHarmless(env, s, migrations);
        StepSame(env, s, section, key);
        FilesAfter(env, s, section, key);
      }
      forall a, b ensures Lookup(s2.local, s2.config, a, b) == Lookup(s1.local, s1.config, a, b) {
        assert Lookup(s1.local, s1.config, a, b) == Lookup(s.local, s.config, a, b);
        assert Lookup(s2.local, s2.config, a, b) == Lookup(s.local, s.config, a, b);
      }
      hide SameLookups, Ready, MigratedKey;
      AllHarmless(env, s1, migrations[1..]);
    }
  }

  /** An upgrade that ends normally changes no lookup if and only if its migrations are harmless. */
  lemma UpgradeKeepsLookupsExactly(env: Env, s: State, helpers: seq<string>)
    requires Upgraded(env, s, helpers).1.Done?
    ensures var r, s' := Reloaded(env, s), Upgraded(env, s, helpers).0;
            SameLookups(s'.local, s'.config, r.local, r.config)
            <==> Harmless(Base(env), Content(r.files, r.userPath), r.local, Migrations(helpers))
  {
    var r, s' := Reloaded(env, s), Upgraded(env, s, helpers).0;
    if SameLookups(s'.local, s'.config, r.local, r.config) {
      ReloadIsReady(env, s);
      MigrationsArePlain(helpers);
      var (m, outcome) := MigratedAll(env, r, Migrations(helpers));
      AllKeepReady(env, r, Migrations(helpers));
      forall a, b ensures Lookup(m.local, m.config, a, b) == Lookup(r.local, r.config, a, b) {
        assert Lookup(s'.local, s'.config, a, b) == Lookup(r.local, r.config, a, b);
        assert Lookup(m.local, m.config, a, b) == Lookup(m.local, Layered(env, m.files), a, b);
        hide Lookup, MigratedAll;
      }
      AllHarmless(env, r, Migrations(helpers));
    } else if Harmless(Base(env), Content(r.files, r.userPath), r.local, Migrations(helpers)) {
      UpgradeKeepsLookups(env, s, helpers);
    }
  }

  // ---------------------------------------------------------------- once is enough

  lemma {:induction false} AllKeepReady(env: Env, s: State, migrations: seq<(string, string)>)
    requires Ready(env, s) && Plain(migrations) && MigratedAll(env, s, migrations).1.Done?
    ensures Ready(env, MigratedAll(env, s, migrations).0)
    decreases |migrations|
  {
    if migrations != [] {
      var (section, key) := migrations[0];
      assert (section, key) != ("sls", "local-config") by { assert migrations[0] == (section, key); }
      KeyKeepsReady(env, s, section, key);
      hide Ready, MigratedKey;
      AllKeepReady(env, MigratedKey(env, s, section, key).0, migrations[1..]);
    }
  }

  /** A key that cannot be migrated now is not migrated later. */
  lemma StillNot(env: Env, s: State, section: string, key: string, a: string, b: string)
    requires Ready(env, s) && (section, key) != ("sls", "local-config") && !CanMigrate(env, s, a, b)
    requires MigratedKey(env, s, section, key).1.Done?
    ensures !CanMigrate(env, MigratedKey(env, s, section, key).0, a, b)
  {
    if CanMigrate(env, s, section, key) {
      FilesAfter(env, s, section, key);
      var user := Content(s.files, s.userPath);
      if HasOption(s.local, a, b) { PutSticks(s.local, section, key, Value(user, section, key).value, a, b); }
      hide MigratedKey, Put, Ready;
    }
  }

  lemma {:induction false} NeverAgain(env: Env, s: State, migrations: seq<(string, string)>, a: string, b: string)
    requires Ready(env, s) && Plain(migrations) && !CanMigrate(env, s, a, b)
    requires MigratedAll(env, s, migrations).1.Done?
    ensures !CanMigrate(env, MigratedAll(env, s, migrations).0, a, b)
    decreases |migrations|
  {
    if migrations != [] {
      var (section, key) := migrations[0];
      assert (section, key) != ("sls", "local-config") by { assert migrations[0] == (section, key); }
      KeyKeepsReady(env, s, section, key);
      StillNot(env, s, section, key, a, b);
      hide Ready, MigratedKey, CanMigrate;
      NeverAgain(env, MigratedKey(env, s, section, key).0, migrations[1..], a, b);
    }
  }

  ghost predicate NothingToMigrate(env: Env, s: State, migrations: seq<(string, string)>) {
    forall i | 0 <= i < |migrations| :: !CanMigrate(env, s, migrations[i].0, migrations[i].1)
  }

  lemma {:induction false} NothingIsLeft(env: Env, s: State, migrations: seq<(string, string)>)
    requires Ready(env, s) && Plain(migrations) && MigratedAll(env, s, migrations).1.Done?
    ensures NothingToMigrate(env, MigratedAll(env, s, migrations).0, migrations)
    decreases |migrations|
  {
    if migrations != [] {
      var (section, key) := migrations[0];
      assert (section, key) != ("sls", "local-config") by { assert migrations[0] == (section, key); }
      KeyKeepsReady(env, s, section, key);
      var s1 := MigratedKey(env, s, section, key).0;
      hide Ready, MigratedKey, CanMigrate;
      NeverAgain(env, s1, migrations[1..], section, key);
      NothingIsLeft(env, s1, migrations[1..]);
      var s' := MigratedAll(env, s, migrations).0;
      forall i | 0 <= i < |migrations| ensures !CanMigrate(env, s', migrations[i].0, migrations[i].1) {
        assert i > 0 ==> migrations[i] == migrations[1..][i - 1];
      }
    }
  }

  lemma {:induction false} NothingHappens(env: Env, s: State, migrations: seq<(string, string)>)
    ensures NothingToMigrate(env, s, migrations) ==> MigratedAll(env, s, migrations) == (s, Done(false))
    ensures MigratedAll(env, s, migrations).1 == Done(false) ==> MigratedAll(env, s, migrations).0 == s
    decreases |migrations|
  {
    if migrations != [] {
      var (s1, o1) := MigratedKey(env, s, migrations[0].0, migrations[0].1);
      assert o1 == Done(false) ==> s1 == s;
      assert NothingToMigrate(env, s, migrations) ==> CanMigrate(env, s, migrations[0].0, migrations[0].1) == false;
      NothingHappens(env, s1, migrations[1..]);
    }
  }

  /** Upgrading again in the same process migrates nothing and changes nothing. */
  lemma UpgradeTwice(env: Env, s: State, helpers: seq<string>)
    requires Upgraded(env, s, helpers).1.Done?
    ensures var (s', _) := Upgraded(env, s, helpers); Upgraded(env, s', helpers) == (s', Done(false))
  {
    var r, migrations := Reloaded(env, s), Migrations(helpers);
    ReloadIsReady(env, s);
    MigrationsArePlain(helpers);
    AllKeepReady(env, r, migrations);
    NothingIsLeft(env, r, migrations);
    NothingHappens(env, r, migrations);
    var (m, outcome) := MigratedAll(env, r, migrations);
    var (s', _) := Upgraded(env, s, helpers);
    assert s'.local == m.local && s'.files == m.files && s'.userPath == m.userPath;
    assert Reloaded(env, s') == s';
    assert NothingToMigrate(env, s', migrations) by {
      assert forall a, b :: CanMigrate(env, s', a, b) == CanMigrate(env, m, a, b);
    }
    NothingHappens(env, s', migrations);
  }

  /** The local file holds all that is in memory. */
  predicate Synced(s: State) {
    Content(s.files, s.localPath) == s.local
  }

  lemma {:induction false} AllKeepSynced(env: Env, s: State, migrations: seq<(string, string)>)
    requires Ready(env, s) && Plain(migrations) && MigratedAll(env, s, migrations).1.Done? && Synced(s)
    ensures Synced(MigratedAll(env, s, migrations).0)
    decreases |migrations|
  {
    if migrations != [] {
      var (section, key) := migrations[0];
      assert (section, key) != ("sls", "local-config") by { assert migrations[0] == (section, key); }
      KeyKeepsReady(env, s, section, key);
      if CanMigrate(env, s, section, key) { DiskAfter(env, s, section, key); }
      hide Ready, Put, Take, Content;
      AllKeepSynced(env, MigratedKey(env, s, section, key).0, migrations[1..]);
    }
  }

  /** Nor does upgrading again in a later process, whatever it holds in memory, when nothing was unsaved. */
  lemma UpgradeAfterRestart(env: Env, s: State, helpers: seq<string>, t: State)
    requires Upgraded(env, s, helpers).1.Done? && Synced(Reloaded(env, s))
    requires t.files == Upgraded(env, s, helpers).0.files
    ensures Upgraded(env, t, helpers) == (Reloaded(env, t), Done(false))
  {
    var r, migrations := Reloaded(env, s), Migrations(helpers);
    ReloadIsReady(env, s);
    MigrationsArePlain(helpers);
    AllKeepReady(env, r, migrations);
    AllKeepSynced(env, r, migrations);
    NothingIsLeft(env, r, migrations);
    var m, t' := MigratedAll(env, r, migrations).0, Reloaded(env, t);
    assert m.files == t.files && t'.local == Merge(t.local, m.local) && t'.userPath == m.userPath;
    forall i | 0 <= i < |migrations| ensures !CanMigrate(env, t', migrations[i].0, migrations[i].1) {
      var (section, key) := migrations[i];
      assert !CanMigrate(env, m, section, key);
      if HasOption(m.local, section, key) { HasOptionOfMerged(t.local, m.local, section, key); }
    }
    NothingHappens(env, t', migrations);
  }

  // ---------------------------------------------------------------- what is migrated

  lemma KeepsHaving(env: Env, s: State, section: string, key: string, a: string, b: string)
    requires Ready(env, s) && (section, key) != ("sls", "local-config") && (section, key) != (a, b)
    requires MigratedKey(env, s, section, key).1.Done?
    ensures var user, user' := Content(s.files, s.userPath), OwnUser(MigratedKey(env, s, section, key).0);
            && (a in user.sections <==> a in user'.sections)
            && (b in Own(user, a) <==> b in Own(user', a))
            && (b in Own(user, a) ==> Own(user, a)[b] == Own(user', a)[b])
            && user'.defaults == user.defaults
  {
    if CanMigrate(env, s, section, key) { FilesAfter(env, s, section, key); }
    hide MigratedKey, Put, Merge, Ready;
  }

  /** The user file as it is on the disk. */
  function OwnUser(s: State): Parser {
    Content(s.files, s.userPath)
  }

  lemma KeepsSilent(env: Env, s: State, section: string, key: string, a: string, b: string)
    requires (section, key) != (a, b) && !HasOption(s.local, a, b) && (b !in s.local.defaults || section != a)
    ensures var s' := MigratedKey(env, s, section, key).0;
            !HasOption(s'.local, a, b) && s'.local.defaults == s.local.defaults
  {
    WritesOf(env, s, section, key);
    hide MigratedKey, Take;
  }

  lemma {:induction false} OwnStaysGone(env: Env, s: State, migrations: seq<(string, string)>, a: string, b: string)
    requires Ready(env, s) && Plain(migrations) && MigratedAll(env, s, migrations).1.Done?
    requires b !in Own(OwnUser(s), a)
    ensures b !in Own(OwnUser(MigratedAll(env, s, migrations).0), a)
    decreases |migrations|
  {
    if migrations != [] {
      var (section, key) := migrations[0];
      assert (section, key) != ("sls", "local-config") by { assert migrations[0] == (section, key); }
      var s1 := MigratedKey(env, s, section, key).0;
      KeyKeepsReady(env, s, section, key);
      if (section, key) != (a, b) {
        KeepsHaving(env, s, section, key, a, b);
      } else if CanMigrate(env, s, section, key) {
        FilesAfter(env, s, section, key);
      }
      hide Ready, MigratedKey, Put, Merge;
      OwnStaysGone(env, s1, migrations[1..], a, b);
    }
  }

  /** Migrating an option moves it to the local file and takes it out of the section of the user file. */
  lemma FirstMoves(env: Env, s: State, migrations: seq<(string, string)>)
    requires Ready(env, s) && Plain(migrations) && MigratedAll(env, s, migrations).1.Done? && migrations != []
    requires CanMigrate(env, s, migrations[0].0, migrations[0].1)
    ensures var (a, b) := migrations[0];
            var s' := MigratedAll(env, s, migrations).0;
            HasOption(s'.local, a, b) && Value(s'.local, a, b) == Value(OwnUser(s), a, b) && b !in Own(OwnUser(s'), a)
  {
    var (a, b) := migrations[0];
    assert (a, b) != ("sls", "local-config") by { assert migrations[0] == (a, b); }
    var s1 := MigratedKey(env, s, a, b).0;
    KeyKeepsReady(env, s, a, b);
    FilesAfter(env, s, a, b);
    assert b !in Own(OwnUser(s1), a);
    assert HasOption(s1.local, a, b) && Value(s1.local, a, b) == Value(OwnUser(s), a, b);
    hide Ready, MigratedKey, Put, Take, Own, HasOption, Value;
    LocalSticks(env, s1, migrations[1..], a, b);
    OwnStaysGone(env, s1, migrations[1..], a, b);
  }

  /**
   * An option in the list that the user file has and the local file does not is moved, unless an earlier
   * migration creates its section and a default of the local file then applies to it.
   */
  lemma {:induction false} ListedIsMoved(env: Env, s: State, migrations: seq<(string, string)>, i: nat)
    requires Ready(env, s) && Plain(migrations) && MigratedAll(env, s, migrations).1.Done? && i < |migrations|
    requires HasOption(OwnUser(s), migrations[i].0, migrations[i].1)
    requires !HasOption(s.local, migrations[i].0, migrations[i].1)
    requires migrations[i].1 in s.local.defaults ==>
               forall j | 0 <= j < i :: migrations[j].0 != migrations[i].0 || migrations[j] == migrations[i]
    ensures var (a, b) := migrations[i];
            var s' := MigratedAll(env, s, migrations).0;
            HasOption(s'.local, a, b) && Value(s'.local, a, b) == Value(OwnUser(s), a, b) && b !in Own(OwnUser(s'), a)
    decreases |migrations|
  {
    if migrations[0] == migrations[i] {
      FirstMoves(env, s, migrations);
    } else {
      var (section, key) := migrations[0];
      var (a, b) := migrations[i];
      assert (section, key) != ("sls", "local-config") by { assert migrations[0] == (section, key); }
      KeyKeepsReady(env, s, section, key);
      StillToMove(env, s, section, key, a, b);
      assert migrations[1..][i - 1] == (a, b);
      assert forall j | 0 <= j < i - 1 :: migrations[1..][j] == migrations[j + 1];
      hide Ready, MigratedKey, HasOption, Value, Own, OwnUser;
      ListedIsMoved(env, MigratedKey(env, s, section, key).0, migrations[1..], i - 1);
    }
  }

  lemma StillToMove(env: Env, s: State, section: string, key: string, a: string, b: string)
    requires Ready(env, s) && (section, key) != ("sls", "local-config") && (section, key) != (a, b)
    requires MigratedKey(env, s, section, key).1.Done?
    requires HasOption(OwnUser(s), a, b) && !HasOption(s.local, a, b)
    requires b !in s.local.defaults || section != a
    ensures var s' := MigratedKey(env, s, section, key).0;
            && HasOption(OwnUser(s'), a, b) && Value(OwnUser(s'), a, b) == Value(OwnUser(s), a, b)
            && !HasOption(s'.local, a, b) && s'.local.defaults == s.local.defaults
  {
    KeepsHaving(env, s, section, key, a, b);
    KeepsSilent(env, s, section, key, a, b);
    hide Ready, MigratedKey;
  }

  /** In any case the local file has the option afterwards, if the user file had it. */
  lemma {:induction false} ListedIsLocal(env: Env, s: State, migrations: seq<(string, string)>, i: nat)
    requires Ready(env, s) && Plain(migrations) && MigratedAll(env, s, migrations).1.Done? && i < |migrations|
    requires HasOption(OwnUser(s), migrations[i].0, migrations[i].1)
    ensures HasOption(MigratedAll(env, s, migrations).0.local, migrations[i].0, migrations[i].1)
    decreases |migrations|
  {
    var (section, key) := migrations[0];
    var (a, b) := migrations[i];
    if HasOption(s.local, a, b) {
      LocalSticks(env, s, migrations, a, b);
    } else if migrations[0] == migrations[i] {
      FirstMoves(env, s, migrations);
    } else {
      assert (section, key) != ("sls", "local-config") by { assert migrations[0] == (section, key); }
      KeyKeepsReady(env, s, section, key);
      KeepsHaving(env, s, section, key, a, b);
      assert HasOption(OwnUser(MigratedKey(env, s, section, key).0), a, b);
      assert migrations[1..][i - 1] == (a, b);
      hide Ready, MigratedKey, HasOption, Own, OwnUser;
      ListedIsLocal(env, MigratedKey(env, s, section, key).0, migrations[1..], i - 1);
    }
  }

  /** Options that are not listed stay in their files. */
  predicate SameOwn(p: Parser, p': Parser, a: string, b: string) {
    (b in Own(p, a) <==> b in Own(p', a)) && (b in Own(p, a) ==> Own(p', a)[b] == Own(p, a)[b])
  }

  lemma {:induction false} UnlistedStays(env: Env, s: State, migrations: seq<(string, string)>, a: string, b: string)
    requires Ready(env, s) && Plain(migrations) && MigratedAll(env, s, migrations).1.Done?
    requires forall i | 0 <= i < |migrations| :: migrations[i] != (a, b)
    ensures var s' := MigratedAll(env, s, migrations).0;
            SameOwn(OwnUser(s), OwnUser(s'), a, b) && SameOwn(s.local, s'.local, a, b)
    decreases |migrations|
  {
    if migrations != [] {
      var (section, key) := migrations[0];
      assert (section, key) != ("sls", "local-config") && (section, key) != (a, b) by {
        assert migrations[0] == (section, key);
      }
      var s1 := MigratedKey(env, s, section, key).0;
      KeyKeepsReady(env, s, section, key);
      UnlistedStep(env, s, section, key, a, b);
      hide Ready, MigratedKey, SameOwn, OwnUser;
      UnlistedStays(env, s1, migrations[1..], a, b);
      MigratedRest(env, s, migrations);
      hide MigratedAll;
      SameOwnChains(OwnUser(s), OwnUser(s1), OwnUser(MigratedAll(env, s1, migrations[1..]).0), a, b);
      SameOwnChains(s.local, s1.local, MigratedAll(env, s1, migrations[1..]).0.local, a, b);
    }
  }

  lemma UnlistedStep(env: Env, s: State, section: string, key: string, a: string, b: string)
    requires Ready(env, s) && (section, key) != ("sls", "local-config") && (section, key) != (a, b)
    requires MigratedKey(env, s, section, key).1.Done?
    ensures var s1 := MigratedKey(env, s, section, key).0;
            SameOwn(OwnUser(s), OwnUser(s1), a, b) && SameOwn(s.local, s1.local, a, b)
  {
    KeepsHaving(env, s, section, key, a, b);
    WritesOf(env, s, section, key);
    hide MigratedKey, Take, Ready;
  }

  lemma MigratedRest(env: Env, s: State, migrations: seq<(string, string)>)
    requires migrations != [] && MigratedKey(env, s, migrations[0].0, migrations[0].1).1.Done?
    ensures var s1 := MigratedKey(env, s, migrations[0].0, migrations[0].1).0;
            MigratedAll(env, s, migrations).0 == MigratedAll(env, s1, migrations[1..]).0
  {
    hide MigratedKey;
  }

  lemma SameOwnChains(p: Parser, p': Parser, p'': Parser, a: string, b: string)
    requires SameOwn(p, p', a, b) && SameOwn(p', p'', a, b)
    ensures SameOwn(p, p'', a, b)
  {
    hide Own;
  }

  /** The options that upgrading moves: four fixed ones, and whether each helper is enabled. */
  ghost predicate IsMoved(helpers: seq<string>, section: string, key: string) {
    || (section == "sls" && key == "enable")
    || (section == "steam" && (key == "account_id" || key == "account_name" || key == "deck_serial"))
    || (key == "enable" && exists i :: 0 <= i < |helpers| && section == "helpers." + helpers[i])
  }

  lemma MovedIsListed(helpers: seq<string>, section: string, key: string) returns (i: nat)
    requires IsMoved(helpers, section, key)
    ensures i < |Migrations(helpers)| && Migrations(helpers)[i] == (section, key)
    ensures section != "steam" || key == "account_id" ==>
              forall j | 0 <= j < i :: Migrations(helpers)[j].0 != section || Migrations(helpers)[j] == (section, key)
  {
    if section == "sls" && key == "enable" {
      i := 0;
    } else if section == "steam" && (key == "account_id" || key == "account_name" || key == "deck_serial") {
      i := if key == "account_id" then 1 else if key == "account_name" then 2 else 3;
    } else {
      var h :| 0 <= h < |helpers| && section == "helpers." + helpers[h];
      i := 4 + h;
      assert section[0] == 'h' && "sls"[0] != 'h' && "steam"[0] != 'h';
    }
  }

  lemma ListedIsMovedOption(helpers: seq<string>, i: nat)
    requires i < |Migrations(helpers)|
    ensures IsMoved(helpers, Migrations(helpers)[i].0, Migrations(helpers)[i].1)
  {
    if i >= 4 { assert Migrations(helpers)[i] == ("helpers." + helpers[i - 4], "enable"); }
  }

  lemma AfterUpgrade(env: Env, s: State, helpers: seq<string>)
    requires Upgraded(env, s, helpers).1.Done?
    ensures var r, s' := Reloaded(env, s), Upgraded(env, s, helpers).0;
            var m := MigratedAll(env, r, Migrations(helpers));
            && Ready(env, r) && Plain(Migrations(helpers)) && m.1.Done?
            && s'.local == m.0.local && OwnUser(s') == OwnUser(m.0)
  {
    var r := Reloaded(env, s);
    ReloadIsReady(env, s);
    MigrationsArePlain(helpers);
    AllKeepReady(env, r, Migrations(helpers));
    ReloadedReady(env, MigratedAll(env, r, Migrations(helpers)).0);
    hide MigratedAll, Migrations, Merge;
  }

  /**
   * An upgrade that ends normally moves each of these options from the user file to the local file, if only
   * the user file has it, with its value; afterwards the local file has it in any case.
   */
  lemma UpgradeMoves(env: Env, s: State, helpers: seq<string>, section: string, key: string)
    requires Upgraded(env, s, helpers).1.Done? && IsMoved(helpers, section, key)
    requires HasOption(OwnUser(Reloaded(env, s)), section, key)
    ensures var r, s' := Reloaded(env, s), Upgraded(env, s, helpers).0;
            && HasOption(s'.local, section, key)
            && (HasOption(r.local, section, key) ==> Value(s'.local, section, key) == Value(r.local, section, key))
            && (!HasOption(r.local, section, key)
                && (section == "steam" && key != "account_id" ==> key !in r.local.defaults) ==>
                  Value(s'.local, section, key) == Value(OwnUser(r), section, key)
                  && key !in Own(OwnUser(s'), section))
  {
    var r, all := Reloaded(env, s), Migrations(helpers);
    AfterUpgrade(env, s, helpers);
    var i := MovedIsListed(helpers, section, key);
    hide Upgraded, Reloaded, MigratedAll, Migrations, Ready, HasOption, Value, Own, OwnUser, IsMoved;
    ListedIsLocal(env, r, all, i);
    if HasOption(r.local, section, key) {
      LocalSticks(env, r, all, section, key);
    } else if section == "steam" && key != "account_id" ==> key !in r.local.defaults {
      ListedIsMoved(env, r, all, i);
    }
  }

  /** No other option of either file is touched. */
  lemma UpgradeMovesNothingElse(env: Env, s: State, helpers: seq<string>, section: string, key: string)
    requires Upgraded(env, s, helpers).1.Done? && !IsMoved(helpers, section, key)
    ensures var r, s' := Reloaded(env, s), Upgraded(env, s, helpers).0;
            SameOwn(OwnUser(r), OwnUser(s'), section, key) && SameOwn(r.local, s'.local, section, key)
  {
    AfterUpgrade(env, s, helpers);
    var all := Migrations(helpers);
    forall i | 0 <= i < |all| ensures all[i] != (section, key) { ListedIsMovedOption(helpers, i); }
    hide Upgraded, Reloaded, MigratedAll, Migrations, Ready, Own, OwnUser, IsMoved;
    UnlistedStays(env, Reloaded(env, s), all, section, key);
  }

  // ---------------------------------------------------------------- corollaries

  /** Without [DEFAULT] sections in the user and local files, upgrading never changes a lookup. */
  lemma UpgradeWithoutDefaults(env: Env, s: State, helpers: seq<string>)
    requires var r := Reloaded(env, s); Content(r.files, r.userPath).defaults == map[] && r.local.defaults == map[]
    ensures var r, s' := Reloaded(env, s), Upgraded(env, s, helpers).0;
            && SameLookups(s'.local, s'.config, r.local, r.config)
            && DisksRead(env, s'.written, |s.written|, r.local, r.config)
  {
    var r := Reloaded(env, s);
    HarmlessWithoutDefaults(Base(env), Content(r.files, r.userPath), r.local, Migrations(helpers));
    UpgradeKeepsLookups(env, s, helpers);
  }

  const REST := [("steam", "account_name"), ("steam", "deck_serial")]

  lemma MigrationsAre()
    ensures Migrations([]) == [("sls", "enable"), ("steam", "account_id")] + REST
  {
  }

  /** When only the second of four keys migrates, the rest is passed over. */
  lemma SecondOfFour(env: Env, r: State, s1: State)
    requires MigratedKey(env, r, "sls", "enable") == (r, Done(false))
    requires MigratedKey(env, r, "steam", "account_id") == (s1, Done(true)) && NothingToMigrate(env, s1, REST)
    ensures MigratedAll(env, r, Migrations([])) == (s1, Done(true))
  {
    var all := Migrations([]);
    MigrationsAre();
    assert all[1..][1..] == REST && all[0] == ("sls", "enable") && all[1..][0] == ("steam", "account_id");
    hide MigratedKey, Migrations, NothingToMigrate;
    NothingHappens(env, s1, REST);
    assert MigratedAll(env, r, all[1..]) == (s1, Done(true));
  }

  /** An upgrade that finds just one key to migrate. */
  lemma OnlyAccountMigrates(env: Env, s: State)
    requires var r := Reloaded(env, s);
             var user := Content(r.files, r.userPath);
             && Writable(env, r.localPath) && Writable(env, r.userPath)
             && !HasOption(user, "sls", "enable") && CanMigrate(env, r, "steam", "account_id")
             && !HasOption(user, "steam", "account_name") && !HasOption(user, "steam", "deck_serial")
    ensures var r, s' := Reloaded(env, s), Upgraded(env, s, []).0;
            var user := Content(r.files, r.userPath);
            && Upgraded(env, s, []).1 == Done(true)
            && s'.local == Put(r.local, "steam", "account_id", Value(user, "steam", "account_id").value)
            && s'.config == Merge(Base(env), Take(user, "steam", "account_id"))
  {
    var r := Reloaded(env, s);
    var user := Content(r.files, r.userPath);
    ReloadIsReady(env, s);
    var (s1, o1) := MigratedKey(env, r, "steam", "account_id");
    assert MigratedKey(env, r, "sls", "enable") == (r, Done(false)) && o1 == Done(true);
    KeyKeepsReady(env, r, "steam", "account_id");
    FilesAfter(env, r, "steam", "account_id");
    TakesNothingElse(user, "account_name");
    TakesNothingElse(user, "deck_serial");
    hide MigratedKey, MigratedAll, Put, Take, Merge, HasOption, Reloaded;
    assert NothingToMigrate(env, s1, REST);
    SecondOfFour(env, r, s1);
    ReloadedReady(env, s1);
  }

  lemma ReloadedReady(env: Env, s: State)
    requires Ready(env, s)
    ensures Reloaded(env, s).local == s.local
    ensures Reloaded(env, s).config == Merge(Base(env), Content(s.files, s.userPath))
  {
    hide Merge;
  }

  lemma TakesNothingElse(user: Parser, name: string)
    requires "steam" in user.sections && !HasOption(user, "steam", name)
    ensures !HasOption(Take(user, "steam", "account_id"), "steam", name)
  {
  }

  function Sections(steam: Options): map<string, Options> {
    map["sls" := map["user-config" := "/u", "local-config" := "/l"], "steam" := steam]
  }

  /** What the three files are for a process that has just started. */
  lemma Started(env: Env, s: State, steam: Options)
    requires env.base == Some(Parser(map[], Sections(steam))) && s.local == EMPTY && "/u" in s.files
    requires "sls" !in s.files["/u"].sections && s.files["/u"].defaults.Keys <= {"account_id"}
    ensures var r := Reloaded(env, s);
            && r.userPath == Some("/u") && r.localPath == Some("/l") && r.local == Content(s.files, Some("/l"))
            && r.config == Merge(Base(env), s.files["/u"])
  {
    assert HasOption(Base(env), "sls", "user-config");
    MergedValue(Base(env), s.files["/u"], "sls", "local-config");
    MergeEmpty(Content(s.files, Some("/l")));
    hide Merge;
  }

  /** With one, it can: here a default of the user file replaces what the base file says about the account. */
  lemma UserDefaultWins() returns (env: Env, s: State)
    ensures var r, s' := Reloaded(env, s), Upgraded(env, s, []).0;
            && Upgraded(env, s, []).1 == Done(true)
            && Lookup(r.local, r.config, "steam", "account_id") == Some("1")
            && Lookup(s'.local, s'.config, "steam", "account_id") == Some("2")
  {
    var user := Parser(map["account_id" := "2"], map["steam" := map[]]);
    env := Env(Some(Parser(map[], Sections(map["account_id" := "1"]))), map[], {"/u", "/l"});
    s := State(map["/u" := user], EMPTY, EMPTY, None, None, []);
    Started(env, s, map["account_id" := "1"]);
    MergedValue(Base(env), user, "steam", "account_id");
    hide Reloaded;
    OnlyAccountMigrates(env, s);
  }

  /** And here a default of the local file begins to apply to the section of the migrated key. */
  lemma LocalDefaultWins() returns (env: Env, s: State)
    ensures var r, s' := Reloaded(env, s), Upgraded(env, s, []).0;
            && Upgraded(env, s, []).1 == Done(true)
            && Lookup(r.local, r.config, "steam", "account_name") == Some("a")
            && Lookup(s'.local, s'.config, "steam", "account_name") == Some("b")
  {
    var user := Parser(map[], map["steam" := map["account_id" := "2"]]);
    var local := Parser(map["account_name" := "b"], map[]);
    env := Env(Some(Parser(map[], Sections(map["account_name" := "a"]))), map[], {"/u", "/l"});
    s := State(map["/u" := user, "/l" := local], EMPTY, EMPTY, None, None, []);
    Started(env, s, map["account_name" := "a"]);
    MergedValue(Base(env), user, "steam", "account_name");
    hide Reloaded;
    OnlyAccountMigrates(env, s);
  }
}
