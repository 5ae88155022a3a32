/** The command line's database arguments: the check that both databases
    are named somehow, and the short connection string
    `server.database[;auth=...][;user=...][;pass=...]`. */
module ConnectionString {
  import opened Wrappers
  import opened Text
  import opened Strings
  import opened Schema

  /** The options that name the databases: a configuration file, or a
      source and a target connection string. */
  datatype CliOptions = CliOptions(config: Option<string>, source: Option<string>, target: Option<string>)

  datatype CliError = MissingDatabases | ConfigFileError(path: string) | InvalidConnectionString(text: string)

  /** A string option JavaScript treats as true: present and non-empty. */
  predicate Given(o: Option<string>) {
    o.Some? && o.value != ""
  }

  /** `validateOptions`: without a configuration file both connection
      strings are needed. */
  function ValidateOptions(options: CliOptions): (r: Result<(), CliError>)
    ensures r.Success? <==> Given(options.config) || (Given(options.source) && Given(options.target))
    ensures r.Failure? ==> r.error == MissingDatabases
  {
    if !Given(options.config) && (!Given(options.source) || !Given(options.target)) then Failure(MissingDatabases)
    else Success(())
  }

  /** `parseConfigs`: a configuration file (read by the caller) wins over
      the connection strings, which validation guarantees are present
      otherwise; the strings are read by `parseConnectionString` as
      written. */
  function ParseConfigs(options: CliOptions, configFile: Result<(DatabaseConfig, DatabaseConfig), CliError>)
    : (r: Result<(DatabaseConfig, DatabaseConfig), CliError>)
    requires ValidateOptions(options).Success?
    ensures Given(options.config) ==> r == configFile
    ensures !Given(options.config) ==>
      (r.Success? <==> ParseConnectionString(options.source.value).Success? && ParseConnectionString(options.target.value).Success?)
    ensures !Given(options.config) && ParseConnectionString(options.source.value).Failure? ==>
      r == Failure(InvalidConnectionString(options.source.value))
    ensures !Given(options.config) && ParseConnectionString(options.source.value).Success? ==>
      (ParseConnectionString(options.target.value).Failure? ==> r == Failure(InvalidConnectionString(options.target.value)))
    ensures !Given(options.config) && r.Success? ==>
      Success(r.value.0) == ParseConnectionString(options.source.value)
      && Success(r.value.1) == ParseConnectionString(options.target.value)
  {
    ConfigsWith(options, configFile, ParseConnectionString)
  }

  /** `parseConfigs` with the corrected reader, which keeps dotted server
      names and values holding `=` whole. */
  function ParseConfigsFixed(options: CliOptions, configFile: Result<(DatabaseConfig, DatabaseConfig), CliError>)
    : (r: Result<(DatabaseConfig, DatabaseConfig), CliError>)
    requires ValidateOptions(options).Success?
    ensures Given(options.config) ==> r == configFile
    ensures !Given(options.config) ==>
      (r.Success? <==> ParseConnectionStringFixed(options.source.value).Success? && ParseConnectionStringFixed(options.target.value).Success?)
    ensures !Given(options.config) && r.Success? ==>
      Success(r.value.0) == ParseConnectionStringFixed(options.source.value)
      && Success(r.value.1) == ParseConnectionStringFixed(options.target.value)
  {
    ConfigsWith(options, configFile, ParseConnectionStringFixed)
  }

  /** Both readings share the shape: the file, else the source string and
      then the target string, the first failure ending the reading. */
  function ConfigsWith(options: CliOptions, configFile: Result<(DatabaseConfig, DatabaseConfig), CliError>,
                       read: string -> Result<DatabaseConfig, CliError>)
    : Result<(DatabaseConfig, DatabaseConfig), CliError>
    requires ValidateOptions(options).Success?
  {
    if Given(options.config) then configFile
    else
      var source :- read(options.source.value);
      var target :- read(options.target.value);
      Success((source, target))
  }

  const DefaultAuthentication: Authentication := Authentication(Some("windows"), None, None)

  /** The effect of one setting: `auth`, `user` and `pass`, in any ASCII
      case, set their field; an empty or unknown key changes nothing. */
  function SetSetting(a: Authentication, key: string, value: Option<string>): Authentication {
    if key == "" then a
    else if Lower(key) == "auth" then a.(authType := value)
    else if Lower(key) == "user" then a.(username := value)
    else if Lower(key) == "pass" then a.(password := value)
    else a
  }

  /** One `key=value` segment, as written: the value is the text between
      the first and the second `=`, and absent when there is no `=`. */
  function ApplySetting(a: Authentication, segment: string): Authentication {
    var pieces := Split(segment, '=');
    SetSetting(a, pieces[0], if |pieces| >= 2 then Some(pieces[1]) else None)
  }

  /** One `key=value` segment whose value is all the text after the first
      `=`. */
  function ApplySettingWhole(a: Authentication, segment: string): Authentication {
    var pieces := Split(segment, '=');
    SetSetting(a, pieces[0], if |pieces| >= 2 then Some(Join(pieces[1..], '=')) else None)
  }

  /** The segments in order, each applied to the result of those before. */
  function ApplySettings(a: Authentication, segments: seq<string>, step: (Authentication, string) -> Authentication): Authentication
    decreases |segments|
  {
    if |segments| == 0 then a else ApplySettings(step(a, segments[0]), segments[1..], step)
  }

  /** Server and database as written: the first two pieces between dots. */
  function FirstTwoNames(first: string): (string, string) {
    var names := Split(first, '.');
    (names[0], if |names| >= 2 then names[1] else "")
  }

  /** Server and database split at the last dot. */
  function SplitAtLastDot(first: string): (string, string) {
    var names := Split(first, '.');
    if |names| >= 2 then (Join(names[..|names| - 1], '.'), names[|names| - 1]) else (names[0], "")
  }

  /** The common shape of both readings: the first `;` segment names the
      databases, both names must be non-empty, the other segments are
      settings over the Windows-login default. */
  function ParseWith(connectionString: string, names: string -> (string, string),
                     step: (Authentication, string) -> Authentication): (r: Result<DatabaseConfig, CliError>)
    ensures r.Failure? ==> r.error == InvalidConnectionString(connectionString)
    ensures r.Success? ==> r.value.server != "" && r.value.database != ""
  {
    var parts := Split(connectionString, ';');
    var (server, database) := names(parts[0]);
    if server == "" || database == "" then Failure(InvalidConnectionString(connectionString))
    else Success(DatabaseConfig(server, database, ApplySettings(DefaultAuthentication, parts[1..], step)))
  }

  /** `parseConnectionString`, as written. */
  function ParseConnectionString(connectionString: string): (r: Result<DatabaseConfig, CliError>)
    ensures r.Failure? ==> r.error == InvalidConnectionString(connectionString)
    ensures r.Success? ==> r.value.server != "" && r.value.database != ""
    ensures r.Success? ==> '.' !in r.value.server && '.' !in r.value.database
    ensures r.Success? ==> ';' !in r.value.server && ';' !in r.value.database
  {
    var parts := Split(connectionString, ';');
    var names := Split(parts[0], '.');
    SplitPiecesWithin(parts[0], '.');
    assert forall i :: 0 <= i < |names| ==> ';' !in names[i];
    ParseWith(connectionString, FirstTwoNames, ApplySetting)
  }

  /** The reading that splits at the last dot and keeps a value whole. */
  function ParseConnectionStringFixed(connectionString: string): (r: Result<DatabaseConfig, CliError>)
    ensures r.Failure? ==> r.error == InvalidConnectionString(connectionString)
    ensures r.Success? ==> r.value.server != "" && r.value.database != ""
    ensures r.Success? ==> '.' !in r.value.database
  {
    ParseWith(connectionString, SplitAtLastDot, ApplySettingWhole)
  }

  /** A name usable on both sides of the first dot. */
  predicate PlainName(name: string) {
    name != "" && '.' !in name && ';' !in name
  }

  predicate Segments(settings: seq<string>) {
    forall i :: 0 <= i < |settings| ==> ';' !in settings[i]
  }

  /** The text of a connection string: the name segment, then the settings. */
  function ConnectionText(first: string, settings: seq<string>): string {
    Join([first] + settings, ';')
  }

  lemma {:induction false} ConnectionTextParts(first: string, settings: seq<string>)
    requires ';' !in first && Segments(settings)
    ensures Split(ConnectionText(first, settings), ';') == [first] + settings
  {
    var pieces := [first] + settings;
    assert forall i :: 0 <= i < |pieces| ==> ';' !in pieces[i] by {
      forall i | 0 <= i < |pieces| ensures ';' !in pieces[i] {
        if i > 0 { assert pieces[i] == settings[i - 1]; }
      }
    }
    JoinSplit(pieces, ';');
  }

  /** The settings fold is a left fold: later segments act on the result of
      earlier ones. */
  lemma {:induction false} ApplySettingsAppend(a: Authentication, xs: seq<string>, ys: seq<string>,
                                               step: (Authentication, string) -> Authentication)
    ensures ApplySettings(a, xs + ys, step) == ApplySettings(ApplySettings(a, xs, step), ys, step)
    decreases |xs|
  {
    if |xs| == 0 {
      assert xs + ys == ys;
    } else {
      assert (xs + ys)[1..] == xs[1..] + ys;
      ApplySettingsAppend(step(a, xs[0]), xs[1..], ys, step);
    }
  }

  /** The last segment has the last word. */
  lemma {:induction false} LastSettingWins(a: Authentication, xs: seq<string>, segment: string, step: (Authentication, string) -> Authentication)
    ensures ApplySettings(a, xs + [segment], step) == step(ApplySettings(a, xs, step), segment)
  {
    ApplySettingsAppend(a, xs, [segment], step);
  }

  /** `server.database` followed by settings names the two databases and
      applies the settings in order. */
  lemma {:induction false} ParsePlain(server: string, database: string, settings: seq<string>)
    requires PlainName(server) && PlainName(database) && Segments(settings)
    ensures ParseConnectionString(ConnectionText(server + "." + database, settings))
      == Success(DatabaseConfig(server, database, ApplySettings(DefaultAuthentication, settings, ApplySetting)))
  {
    var first := server + "." + database;
    assert ';' !in first;
    ConnectionTextParts(first, settings);
    SplitAtFirst(server, '.', database);
    SplitNoSep(database, '.');
    assert ([first] + settings)[1..] == settings;
  }

  /** With no settings the login is Windows authentication without a user
      name or password. */
  lemma {:induction false} ParseDefaults(server: string, database: string)
    requires PlainName(server) && PlainName(database)
    ensures ParseConnectionString(server + "." + database)
      == Success(DatabaseConfig(server, database, DefaultAuthentication))
  {
    ParsePlain(server, database, []);
  }

  /** Text after a second dot in the first segment is dropped. */
  lemma {:induction false} ParseDropsFurtherDots(server: string, database: string, rest: string)
    requires PlainName(server) && PlainName(database) && ';' !in rest
    ensures ParseConnectionString(server + "." + database + "." + rest)
      == Success(DatabaseConfig(server, database, DefaultAuthentication))
  {
    var first := server + "." + database + "." + rest;
    assert first == server + "." + (database + "." + rest);
    assert ';' !in first;
    SplitNoSep(first, ';');
    SplitAtFirst(server, '.', database + "." + rest);
    SplitAtFirst(database, '.', rest);
  }

  /** A first segment without a dot names no database. */
  lemma {:induction false} ParseNeedsDot(connectionString: string)
    requires '.' !in connectionString
    ensures ParseConnectionString(connectionString) == Failure(InvalidConnectionString(connectionString))
  {
    var parts := Split(connectionString, ';');
    SplitPiecesWithin(connectionString, ';');
    assert '.' !in parts[0];
    SplitNoSep(parts[0], '.');
  }

  /** As written, a dotted server address is cut at its first dot. */
  lemma {:induction false} DottedServerAsWritten()
    ensures ParseConnectionString("192.168.1.1.db") == Success(DatabaseConfig("192", "168", DefaultAuthentication))
  {
    assert "192.168.1.1.db" == "192" + "." + "168" + "." + "1.1.db";
    ParseDropsFurtherDots("192", "168", "1.1.db");
  }

  /** Splitting at the last dot gives back any server name, dotted or not,
      and a database name without dots. */
  lemma {:induction false} ParseFixedRoundTrip(server: string, database: string, settings: seq<string>)
    requires server != "" && ';' !in server && PlainName(database) && Segments(settings)
    ensures ParseConnectionStringFixed(ConnectionText(server + "." + database, settings))
      == Success(DatabaseConfig(server, database, ApplySettings(DefaultAuthentication, settings, ApplySettingWhole)))
  {
    var first := server + "." + database;
    assert ';' !in first;
    ConnectionTextParts(first, settings);
    assert ([first] + settings)[1..] == settings;
    var front := Split(server, '.');
    SplitJoin(server, '.');
    JoinSnoc(front, database, '.');
    var names := front + [database];
    assert forall i :: 0 <= i < |names| ==> '.' !in names[i] by {
      forall i | 0 <= i < |names| ensures '.' !in names[i] {
        if i < |front| { assert names[i] == front[i]; }
      }
    }
    JoinSplit(names, '.');
    assert Split(first, '.') == names;
    assert names[..|names| - 1] == front;
  }

  /** Concretely: the dotted address survives the corrected reading. */
  lemma {:induction false} DottedServerFixed()
    ensures ParseConnectionStringFixed("192.168.1.1.db") == Success(DatabaseConfig("192.168.1.1", "db", DefaultAuthentication))
  {
    assert ConnectionText("192.168.1.1" + "." + "db", []) == "192.168.1.1.db";
    ParseFixedRoundTrip("192.168.1.1", "db", []);
  }

  /** A `key=value` segment sets the field its key names. */
  lemma {:induction false} ApplySettingKeyValue(a: Authentication, key: string, value: string)
    requires '=' !in key && '=' !in value
    ensures ApplySetting(a, key + "=" + value) == SetSetting(a, key, Some(value))
  {
    SplitAtFirst(key, '=', value);
    SplitNoSep(value, '=');
  }

  /** A segment without `=` clears the field its key names. */
  lemma {:induction false} ApplySettingNoValue(a: Authentication, key: string)
    requires '=' !in key
    ensures ApplySetting(a, key) == SetSetting(a, key, None)
  {
    SplitNoSep(key, '=');
  }

  /** As written, a value holding `=` is cut at it. */
  lemma {:induction false} ValueCutAsWritten(a: Authentication)
    ensures ApplySetting(a, "pass=a=b").password == Some("a")
  {
    SplitPassSegment();
    assert Lower("pass") == "pass";
  }

  lemma {:induction false} SplitPassSegment()
    ensures Split("pass=a=b", '=') == ["pass"] + Split("a=b", '=')
    ensures Split("a=b", '=') == ["a"] + Split("b", '=')
  {
    assert "pass=a=b" == "pass" + "=" + "a=b";
    SplitAtFirst("pass", '=', "a=b");
    assert "a=b" == "a" + "=" + "b";
    SplitAtFirst("a", '=', "b");
  }

  /** Keeping all the text after the first `=` gives back any value. */
  lemma {:induction false} ValueWholeFixed(a: Authentication, key: string, value: string)
    requires '=' !in key
    ensures ApplySettingWhole(a, key + "=" + value) == SetSetting(a, key, Some(value))
  {
    SplitAtFirst(key, '=', value);
    SplitJoin(value, '=');
  }

  /** Keys are matched without regard to ASCII case. */
  lemma {:induction false} SettingKeyCase(a: Authentication, value: Option<string>)
    ensures SetSetting(a, "USER", value) == a.(username := value)
    ensures SetSetting(a, "Pass", value) == a.(password := value)
    ensures SetSetting(a, "AUTH", value) == a.(authType := value)
  {
    assert Lower("USER") == "user";
    assert Lower("Pass") == "pass";
    assert Lower("AUTH") == "auth";
  }

  /** An unknown key changes nothing. */
  lemma {:induction false} SettingUnknownKey(a: Authentication, value: Option<string>)
    ensures SetSetting(a, "port", value) == a
  {
    assert Lower("port") == "port";
  }
}
