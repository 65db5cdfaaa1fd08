/**
 * emmaa/db/config.py: the database URLs EMMAA connects to, assembled from
 * the sections of its configuration file and from `EMMAADB*` environment
 * variables, and cached in the module global `DATABASES`. Reading the file
 * and the environment is I/O: their contents are parameters.
 */
module DbConfig {
  import opened Wrappers
  import opened Strings

  const EnvPrefix: string := "EMMAADB"

  /**
   * One section of the configuration file, in file order: its name and its
   * options, as `ConfigParser` reports them (option names lower-cased,
   * defaults merged in).
   */
  datatype Section = Section(name: string, options: map<string, string>)

  /** The options `get_databases` reads: five by subscription, two more through the format string. */
  const RequiredOptions: set<string> := {"host", "dialect", "driver", "port", "password", "username", "name"}

  /** `':' + value` when the value is non-empty, as done for the port and the password. */
  function Colon(value: string): string
  {
    if value == "" then "" else ":" + value
  }

  /** `'@' + host` when the host is non-empty. */
  function At(host: string): string
  {
    if host == "" then "" else "@" + host
  }

  /** The parts of a database URL, before the separators are added. */
  datatype DbFields = DbFields(prefix: string, username: string, password: string, host: string, port: string, name: string)

  /** The fields of a section: the prefix is the dialect followed by the driver. */
  function Fields(options: map<string, string>): DbFields
    requires RequiredOptions <= options.Keys
  {
    DbFields(options["dialect"] + options["driver"], options["username"], options["password"], options["host"],
             options["port"], options["name"])
  }

  /** `DB_STR_FMT` filled in, after `@` is put before a non-empty host and `:` before a non-empty port and password. */
  function UrlOf(f: DbFields): string
  {
    f.prefix + "://" + f.username + Colon(f.password) + At(f.host) + Colon(f.port) + "/" + f.name
  }

  /** One entry of `DATABASES`, for the options of one section; a missing option raises `KeyError`. */
  function DbUrl(options: map<string, string>): (r: Result<string>)
    ensures r.Ok? <==> RequiredOptions <= options.Keys
    ensures r.Err? ==> r.error == KeyError
  {
    if !(RequiredOptions <= options.Keys) then Err(KeyError)
    else Ok(UrlOf(Fields(options)))
  }

  /** An entry starts with the dialect, then the driver, then `://`. */
  lemma DbUrlScheme(options: map<string, string>)
    requires RequiredOptions <= options.Keys
    ensures StartsWith(DbUrl(options).value, options["dialect"] + options["driver"] + "://")
  {
    var f := Fields(options);
    var p := f.prefix + "://";
    PrefixGrows(p, p, f.username);
    PrefixGrows(p, p + f.username, Colon(f.password));
    PrefixGrows(p, p + f.username + Colon(f.password), At(f.host));
    PrefixGrows(p, p + f.username + Colon(f.password) + At(f.host), Colon(f.port));
    PrefixGrows(p, p + f.username + Colon(f.password) + At(f.host) + Colon(f.port), "/");
    PrefixGrows(p, p + f.username + Colon(f.password) + At(f.host) + Colon(f.port) + "/", f.name);
  }

  lemma PrefixGrows(p: string, s: string, t: string)
    requires p <= s
    ensures p <= s + t
  {
    assert (s + t)[..|p|] == s[..|p|];
  }

  // ---------------------------------------------------------------------
  // Reading a URL back
  // ---------------------------------------------------------------------

  /** The text after the first `c`, or `""` when `c` does not occur. */
  function AfterFirst(s: string, c: char): string
  {
    var k := Find(s, [c]);
    if k < 0 then "" else s[k + 1..]
  }

  /**
   * A reference reading of a URL with a host: the prefix before the first
   * `://`, the name after the next `/`, user information before the first
   * `@` and host and port after it, each split at its first `:`.
   */
  function ParseDbUrl(url: string): Option<DbFields>
  {
    var k := Find(url, "://");
    if k < 0 then None
    else
      var rest := url[k + 3..];
      var slash := Find(rest, "/");
      if slash < 0 then None
      else
        var authority := rest[..slash];
        var at := Find(authority, "@");
        if at < 0 then None
        else
          var userinfo := authority[..at];
          var hostport := authority[at + 1..];
          Some(DbFields(url[..k], BeforeFirst(userinfo, ":"), AfterFirst(userinfo, ':'),
                        BeforeFirst(hostport, ":"), AfterFirst(hostport, ':'), rest[slash + 1..]))
  }

  /**
   * Fields the URL keeps apart: a host is set, and no field holds a
   * separator that the reading would take for the end of that field.
   */
  predicate Separable(f: DbFields)
  {
    && f.host != ""
    && ':' !in f.prefix
    && ':' !in f.username && '@' !in f.username && '/' !in f.username
    && '@' !in f.password && '/' !in f.password
    && ':' !in f.host && '@' !in f.host && '/' !in f.host
    && '/' !in f.port
  }

  /** The first occurrence of a one-character text is at the first index holding that character. */
  lemma FindCharAt(s: string, c: char, i: nat)
    requires i < |s| && s[i] == c
    requires forall j :: 0 <= j < i ==> s[j] != c
    ensures Find(s, [c]) == i
  {
    assert OccursAt(s, [c], i) by { assert s[i..i + 1] == [c]; }
  }

  lemma FindCharAbsent(s: string, c: char)
    requires c !in s
    ensures Find(s, [c]) == -1
  {
    forall j | 0 <= j ensures !OccursAt(s, [c], j) {
      if j + 1 <= |s| {
        assert s[j..j + 1][0] == s[j];
      }
    }
  }

  /** In `a + [c] + b` with no `c` in `a`, the first `c` is the one between them. */
  lemma FindCharAfter(a: string, c: char, b: string)
    requires c !in a
    ensures Find(a + [c] + b, [c]) == |a|
    ensures (a + [c] + b)[..|a|] == a && (a + [c] + b)[|a| + 1..] == b
  {
    var s := a + [c] + b;
    forall j | 0 <= j < |a| ensures s[j] != c {
      assert s[j] == a[j];
    }
    FindCharAt(s, c, |a|);
  }

  /** A value with its optional `:` is split back into the text before and the value after. */
  lemma SplitColon(before: string, value: string)
    requires ':' !in before
    ensures BeforeFirst(before + Colon(value), ":") == before
    ensures AfterFirst(before + Colon(value), ':') == value
  {
    if value == "" {
      assert before + Colon(value) == before;
      FindCharAbsent(before, ':');
    } else {
      assert before + Colon(value) == before + [':'] + value;
      FindCharAfter(before, ':', value);
    }
  }

  /** The prefix ends where the first `://` begins. */
  lemma FindSchemeSeparator(prefix: string, rest: string)
    requires ':' !in prefix
    ensures Find(prefix + "://" + rest, "://") == |prefix|
  {
    var s := prefix + "://" + rest;
    assert OccursAt(s, "://", |prefix|) by { assert s[|prefix|..|prefix| + 3] == "://"; }
    forall j | 0 <= j < |prefix| ensures !OccursAt(s, "://", j) {
      assert s[j] == prefix[j];
    }
  }

  lemma ColonKeeps(value: string, c: char)
    requires c != ':' && c !in value
    ensures c !in Colon(value)
  {
  }

  /** The user information and the host part of a URL with a host. */
  function Userinfo(f: DbFields): string { f.username + Colon(f.password) }

  function Hostport(f: DbFields): string { f.host + Colon(f.port) }

  /** With a host set, the URL is made of the prefix, the user information, the host part and the name. */
  lemma UrlParts(f: DbFields)
    requires Separable(f)
    ensures UrlOf(f) == f.prefix + "://" + ((Userinfo(f) + "@" + Hostport(f)) + "/" + f.name)
    ensures '/' !in Userinfo(f) + "@" + Hostport(f)
    ensures '@' !in Userinfo(f)
  {
    ColonKeeps(f.password, '/');
    ColonKeeps(f.password, '@');
    ColonKeeps(f.port, '/');
  }

  /** With a host set and no stray separators, reading a URL back gives the fields it was made of. */
  lemma DbUrlRoundTrip(f: DbFields)
    requires Separable(f)
    ensures ParseDbUrl(UrlOf(f)) == Some(f)
  {
    var authority := Userinfo(f) + "@" + Hostport(f);
    var rest := authority + "/" + f.name;
    var url := f.prefix + "://" + rest;
    UrlParts(f);
    FindSchemeSeparator(f.prefix, rest);
    assert url[|f.prefix| + 3..] == rest && url[..|f.prefix|] == f.prefix;
    FindCharAfter(authority, '/', f.name);
    FindCharAfter(Userinfo(f), '@', Hostport(f));
    SplitColon(f.username, f.password);
    SplitColon(f.host, f.port);
  }

  /** Every section that has the required options yields a URL that reads back into its options. */
  lemma SectionUrlRoundTrip(options: map<string, string>)
    requires RequiredOptions <= options.Keys && Separable(Fields(options))
    ensures DbUrl(options).Ok? && ParseDbUrl(DbUrl(options).value) == Some(Fields(options))
  {
    DbUrlRoundTrip(Fields(options));
  }

  /**
   * Without a host the URL does not tell a password from a port: a user
   * with password `5432` and no port, and the same user with no password
   * and port `5432`, get the same URL.
   */
  lemma NoHostPasswordOrPort()
    ensures var withPassword := DbFields("postgresql", "emmaa", "5432", "", "", "db");
            var withPort := DbFields("postgresql", "emmaa", "", "", "5432", "db");
            UrlOf(withPassword) == UrlOf(withPort)
  {
  }

  // ---------------------------------------------------------------------
  // The entries of DATABASES
  // ---------------------------------------------------------------------

  /**
   * What the loop over the sections leaves in `DATABASES`, and whether it
   * raised: the URLs of the sections in file order (a later section of the
   * same name replacing an earlier one), up to the first section missing an
   * option, where `KeyError` stops the loop.
   */
  function ConfigFill(sections: seq<Section>): (map<string, string>, bool)
  {
    if |sections| == 0 then (map[], false)
    else
      var before := ConfigFill(sections[..|sections| - 1]);
      var last := sections[|sections| - 1];
      var url := DbUrl(last.options);
      if before.1 then before
      else if url.Err? then (before.0, true)
      else (before.0[last.name := url.value], false)
  }

  /** A section holding every option the URL needs. */
  predicate HasRequired(section: Section)
  {
    RequiredOptions <= section.options.Keys
  }

  /** The loop raises exactly when some section misses a required option. */
  lemma ConfigFillFails(sections: seq<Section>)
    ensures ConfigFill(sections).1 <==> exists j :: 0 <= j < |sections| && !HasRequired(sections[j])
  {
    if ConfigFill(sections).1 {
      var j := ConfigFillFailure(sections);
    }
    forall j | 0 <= j < |sections| && !HasRequired(sections[j]) ensures ConfigFill(sections).1 {
      ConfigFillRaises(sections, j);
    }
  }

  /** A raising loop met a section missing an option: its index. */
  lemma {:induction false} ConfigFillFailure(sections: seq<Section>) returns (j: nat)
    requires ConfigFill(sections).1
    ensures j < |sections| && !HasRequired(sections[j])
    decreases |sections|
  {
    var n := |sections| - 1;
    var init := sections[..n];
    ConfigFillFlag(sections);
    if ConfigFill(init).1 {
      j := ConfigFillFailure(init);
      assert sections[j] == init[j];
    } else {
      j := n;
    }
  }

  /** A section missing an option makes the loop raise. */
  lemma {:induction false} ConfigFillRaises(sections: seq<Section>, j: nat)
    requires j < |sections| && !HasRequired(sections[j])
    ensures ConfigFill(sections).1
    decreases |sections|
  {
    var n := |sections| - 1;
    var init := sections[..n];
    ConfigFillFlag(sections);
    if j < n {
      assert init[j] == sections[j];
      ConfigFillRaises(init, j);
      assert ConfigFill(init).1;
    } else {
      assert !HasRequired(sections[n]);
    }
  }

  /** One more section raises when an earlier one did or it misses an option. */
  lemma ConfigFillFlag(sections: seq<Section>)
    requires |sections| > 0
    ensures ConfigFill(sections).1 == (ConfigFill(sections[..|sections| - 1]).1 || !HasRequired(sections[|sections| - 1]))
  {
  }

  /** Without a failure, every entry is filed under the name of a section. */
  lemma {:induction false} ConfigFillKeysNamed(sections: seq<Section>, name: string)
    requires !ConfigFill(sections).1
    requires name in ConfigFill(sections).0
    ensures exists j :: 0 <= j < |sections| && sections[j].name == name
    decreases |sections|
  {
    var init := sections[..|sections| - 1];
    var last := sections[|sections| - 1];
    if name != last.name {
      assert name in ConfigFill(init).0;
      ConfigFillKeysNamed(init, name);
      var j :| 0 <= j < |init| && init[j].name == name;
      assert sections[j] == init[j];
    }
  }

  /** Without a failure, every section's name has an entry. */
  lemma {:induction false} ConfigFillKeysPresent(sections: seq<Section>, j: nat)
    requires !ConfigFill(sections).1
    requires j < |sections|
    ensures sections[j].name in ConfigFill(sections).0
    decreases |sections|
  {
    if j < |sections| - 1 {
      var init := sections[..|sections| - 1];
      assert sections[j] == init[j];
      ConfigFillKeysPresent(init, j);
    }
  }

  /** Without a failure, a name's entry is the URL of the last section of that name. */
  lemma {:induction false} ConfigFillValues(sections: seq<Section>, j: nat)
    requires !ConfigFill(sections).1
    requires j < |sections|
    requires forall k :: j < k < |sections| ==> sections[k].name != sections[j].name
    ensures DbUrl(sections[j].options).Ok?
    ensures sections[j].name in ConfigFill(sections).0
    ensures ConfigFill(sections).0[sections[j].name] == DbUrl(sections[j].options).value
    decreases |sections|
  {
    ConfigFillFails(sections);
    if j < |sections| - 1 {
      var init := sections[..|sections| - 1];
      assert init[j] == sections[j];
      ConfigFillValues(init, j);
    }
  }

  /** Once the loop has raised, later sections change nothing. */
  lemma {:induction false} ConfigFillStops(sections: seq<Section>, i: nat)
    requires i <= |sections| && ConfigFill(sections[..i]).1
    ensures ConfigFill(sections) == ConfigFill(sections[..i])
    decreases |sections|
  {
    if i < |sections| {
      var init := sections[..|sections| - 1];
      assert init[..i] == sections[..i];
      ConfigFillStops(init, i);
    } else {
      assert sections[..i] == sections;
    }
  }

  /** The name an `EMMAADB` variable is filed under: the rest of its name, lower-cased. */
  function EnvName(variable: string): string
    requires StartsWith(variable, EnvPrefix)
  {
    Lower(variable[|EnvPrefix|..])
  }

  /** The dictionary of overrides made from the environment, in its order; a later variable replaces an earlier one. */
  function EnvOverrides(env: seq<(string, string)>): map<string, string>
  {
    if |env| == 0 then map[]
    else
      var before := EnvOverrides(env[..|env| - 1]);
      var last := env[|env| - 1];
      if StartsWith(last.0, EnvPrefix) then before[EnvName(last.0) := last.1] else before
  }

  /** The overrides are filed exactly under the names of the `EMMAADB` variables; other variables play no part. */
  lemma {:induction false} EnvOverridesKeys(env: seq<(string, string)>)
    ensures forall name :: name in EnvOverrides(env) <==>
              exists j :: 0 <= j < |env| && StartsWith(env[j].0, EnvPrefix) && EnvName(env[j].0) == name
    decreases |env|
  {
    if |env| > 0 {
      var init := env[..|env| - 1];
      EnvOverridesKeys(init);
      var last := env[|env| - 1];
      forall name | name in EnvOverrides(env)
        ensures exists j :: 0 <= j < |env| && StartsWith(env[j].0, EnvPrefix) && EnvName(env[j].0) == name
      {
        if !(StartsWith(last.0, EnvPrefix) && EnvName(last.0) == name) {
          assert name in EnvOverrides(init);
          var j :| 0 <= j < |init| && StartsWith(init[j].0, EnvPrefix) && EnvName(init[j].0) == name;
          assert env[j] == init[j];
        }
      }
      forall j | 0 <= j < |init| && StartsWith(init[j].0, EnvPrefix) ensures EnvName(init[j].0) in EnvOverrides(env) {
        assert EnvName(init[j].0) in EnvOverrides(init);
      }
      assert forall j :: 0 <= j < |init| ==> init[j] == env[j];
    }
  }

  /** Each override holds the value of the last `EMMAADB` variable filed under its name. */
  lemma {:induction false} EnvOverridesValues(env: seq<(string, string)>, j: nat)
    requires j < |env| && StartsWith(env[j].0, EnvPrefix)
    requires forall k :: j < k < |env| && StartsWith(env[k].0, EnvPrefix) ==> EnvName(env[k].0) != EnvName(env[j].0)
    ensures EnvName(env[j].0) in EnvOverrides(env)
    ensures EnvOverrides(env)[EnvName(env[j].0)] == env[j].1
    decreases |env|
  {
    if j < |env| - 1 {
      var init := env[..|env| - 1];
      assert init[j] == env[j];
      EnvOverridesValues(init, j);
    }
  }

  /** Dropping the first `EMMAADB` of a variable's name and lower-casing the rest. */
  lemma EnvNameExample()
    ensures EnvName("EMMAADB" + "PRIMARY") == "primary"
  {
    assert ("EMMAADB" + "PRIMARY")[|EnvPrefix|..] == "PRIMARY";
  }

  // ---------------------------------------------------------------------
  // The cache
  // ---------------------------------------------------------------------

  /**
   * The module state: `DATABASES` (`None` until the first call) and
   * `CONFIG_EXISTS`, fixed when the module is imported by whether the
   * configuration directory and file could be made.
   */
  class DatabaseCache {
    var databases: Option<map<string, string>>
    const configExists: bool

    constructor(configExists: bool)
      ensures this.databases == None && this.configExists == configExists
    {
      this.databases := None;
      this.configExists := configExists;
    }

    /**
     * `get_databases(force_update, include_config)`. The cached map is
     * returned unless there is none yet or an update is forced. Otherwise
     * `DATABASES` is emptied, filled from the sections when the
     * configuration exists and is to be included, then updated with the
     * environment's overrides. A section missing an option raises
     * `KeyError` with `DATABASES` left holding the sections before it,
     * which later calls return.
     */
    method GetDatabases(forceUpdate: bool, includeConfig: bool, sections: seq<Section>, env: seq<(string, string)>)
      returns (r: Result<map<string, string>>)
      modifies this`databases
      ensures old(databases).Some? && !forceUpdate ==> r == Ok(old(databases).value) && databases == old(databases)
      ensures old(databases).None? || forceUpdate ==>
                var fill := ConfigFill(if configExists && includeConfig then sections else []);
                && (!fill.1 ==> r == Ok(fill.0 + EnvOverrides(env)) && databases == Some(r.value))
                && (fill.1 ==> r == Err(KeyError) && databases == Some(fill.0))
    {
      if databases.Some? && !forceUpdate {
        return Ok(databases.value);
      }
      var read := if configExists && includeConfig then sections else [];
      var dbs: map<string, string> := map[];
      databases := Some(dbs);
      for i := 0 to |read|
        invariant ConfigFill(read[..i]) == (dbs, false) && databases == Some(dbs)
      {
        assert read[..i + 1][..i] == read[..i];
        var url := DbUrl(read[i].options);
        if url.Err? {
          ConfigFillStops(read, i + 1);
          return Err(KeyError);
        }
        dbs := dbs[read[i].name := url.value];
        databases := Some(dbs);
      }
      assert read[..|read|] == read;
      dbs := ApplyEnvOverrides(dbs, env);
      databases := Some(dbs);
      return Ok(dbs);
    }
  }

  /** The loop over the environment: every `EMMAADB...` variable overrides or adds a database. */
  method ApplyEnvOverrides(base: map<string, string>, env: seq<(string, string)>) returns (dbs: map<string, string>)
    ensures dbs == base + EnvOverrides(env)
  {
    dbs := base;
    for i := 0 to |env|
      invariant dbs == base + EnvOverrides(env[..i])
    {
      assert env[..i + 1][..i] == env[..i];
      if StartsWith(env[i].0, EnvPrefix) {
        dbs := dbs[EnvName(env[i].0) := env[i].1];
      }
    }
    assert env[..|env|] == env;
  }
}
