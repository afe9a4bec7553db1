/** The module-level state of config.py, changed in place. */
module Config {
  import opened Prelude
  import opened ConfigFiles
  import opened Migration

  datatype Got = Value(value: string) | KeyError

  class Configuration {
    const env: Env
    var files: Files
    var config: Parser
    var local: Parser
    var userPath: Option<Path>
    var localPath: Option<Path>
    ghost var written: seq<Files>

    ghost function View(): State
      reads this
    {
      State(files, config, local, userPath, localPath, written)
    }

    /** ConfigSection.__getitem__: the local file, then base and user, then the defaults of the section. */
    method Get(section: string, name: string, defaults: Options) returns (r: Got)
      ensures r == if ConfigFiles.Value(local, section, name).Some?
                   then Got.Value(ConfigFiles.Value(local, section, name).value)
                   else if ConfigFiles.Value(config, section, name).Some?
                   then Got.Value(ConfigFiles.Value(config, section, name).value)
                   else if name in defaults then Got.Value(defaults[name])
                   else KeyError
      ensures var found := Lookup(local, config, section, name); found.Some? ==> r == Got.Value(found.value)
    {
      if HasOption(local, section, name) { return Got.Value(ConfigFiles.Value(local, section, name).value); }
      if HasOption(config, section, name) { return Got.Value(ConfigFiles.Value(config, section, name).value); }
      if name in defaults { return Got.Value(defaults[name]); }
      return KeyError;
    }

    /** ConfigSection.__setitem__; what other options of the section look up may change, too. */
    method Set(section: string, name: string, value: string)
      modifies this`local
      ensures local == Put(old(local), section, name, value)
      ensures Lookup(local, config, section, name) == Some(value)
      ensures forall s, n | s != section || (n != name && section in old(local).sections) ::
                Lookup(local, config, s, n) == Lookup(old(local), config, s, n)
    {
      if section !in local.sections {
        local := local.(sections := local.sections[section := map[]]);
      }
      local := local.(sections := local.sections[section := local.sections[section][name := value]]);
    }

    /** Lines 84 to 96. */
    method FindUserPath()
      requires config == Base(env)
      modifies this`userPath
      ensures userPath == UserPath(env)
    {
      userPath := None;
      if HasOption(config, "sls", "user-config") {
        userPath := ConfigFiles.Value(config, "sls", "user-config");
      } else if HasOption(config, "sls", "uid") {
        var uid := ConfigFiles.Value(config, "sls", "uid").value;
        if uid in env.homes {
          userPath := Some(env.homes[uid] + "/.steam/root/config/steamos-log-submitter.cfg");
        }
      }
    }

    method ReloadConfig()
      modifies this`config, this`local, this`userPath, this`localPath
      ensures View() == Reloaded(env, old(View()))
    {
      hide Merge, HasOption, UserPath;
      MergeEmpty(Base(env));
      MergeEmpty(local);
      config := EMPTY;
      if env.base.Some? { config := Merge(config, env.base.value); }
      FindUserPath();
      if Readable(files, userPath) {
        config := Merge(config, files[userPath.value]);
      } else {
        MergeEmpty(config);
      }
      localPath := ConfigFiles.Value(config, "sls", "local-config");
      if Readable(files, localPath) { local := Merge(local, files[localPath.value]); }
    }

    /** write_config, and likewise the writing of the user file: a file is written whole or not at all. */
    method WriteFile(path: Option<Path>, p: Parser) returns (raised: bool)
      modifies this`files, this`written
      ensures raised <==> !Writable(env, path)
      ensures View() == if raised then old(View()) else Write(old(View()), path.value, p)
    {
      if !Writable(env, path) { return true; }
      files := files[path.value := p];
      written := written + [files];
      return false;
    }

    method MigrateKey(section: string, key: string) returns (outcome: Outcome)
      modifies this`files, this`local, this`written
      ensures (View(), outcome) == MigratedKey(env, old(View()), section, key)
    {
      if !Readable(files, userPath) { return Done(false); }
      var user := files[userPath.value];
      if section !in user.sections { return Done(false); }
      if !HasOption(user, section, key) { return Done(false); }
      var value := ConfigFiles.Value(user, section, key).value;
      if section !in local.sections {
        local := local.(sections := local.sections[section := map[]]);
      } else if HasOption(local, section, key) {
        return Done(false);
      }
      user := user.(sections := user.sections[section := user.sections[section] - {key}]);
      local := local.(sections := local.sections[section := local.sections[section][key := value]]);
      assert local == Put(old(local), section, key, value);
      var raised := WriteFile(localPath, local);
      if raised { return Raised; }
      raised := WriteFile(userPath, user);
      if raised { return Raised; }
      return Done(true);
    }

    method Upgrade(helpers: seq<string>) returns (outcome: Outcome)
      modifies this`files, this`config, this`local, this`userPath, this`localPath, this`written
      ensures (View(), outcome) == Upgraded(env, old(View()), helpers)
    {
      hide MigratedKey, Reloaded;
      ReloadConfig();
      ghost var r := View();
      var migrations := [("sls", "enable"), ("steam", "account_id"), ("steam", "account_name"),
                         ("steam", "deck_serial")];
      for i := 0 to |helpers|
        invariant migrations == Migrations(helpers[..i])
        invariant View() == r
      {
        migrations := migrations + [("helpers." + helpers[i], "enable")];
      }
      assert helpers[..|helpers|] == helpers;
      var migrated := false;
      for i := 0 to |migrations|
        invariant var (s', o) := MigratedAll(env, View(), migrations[i..]);
                  MigratedAll(env, r, migrations) == (s', Or(Done(migrated), o))
      {
        assert migrations[i..][1..] == migrations[i + 1..];
        outcome := MigrateKey(migrations[i].0, migrations[i].1);
        if outcome.Raised? { return; }
        migrated := migrated || outcome.migrated;
      }
      if migrated { ReloadConfig(); }
      return Done(migrated);
    }
  }
}
