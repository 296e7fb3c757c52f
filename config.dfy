/**
 * The server's runtime configuration (`config.py`): `load_config` reads
 * eight environment variables, applies defaults and rejects bad values;
 * `get_config` caches the first configuration loaded until `reset_config`.
 *
 * The environment is a map from variable name to value. Python's
 * `float()` is the `parseFloat` parameter and `Path.resolve()` the file
 * system's; both are outside the model.
 */
module Configs {
  import opened Wrappers
  import opened Strings
  import opened PosixPath

  /** The environment variables the server reads. */
  datatype Var =
    | AllowedPathsVar | CliTimeoutVar | LspTimeoutVar | LspCommandVar
    | LogLevelVar | LogModeVar | LogFileVar | HealthCheckVar | PoolSizeVar

  /** The name of each variable in the process environment. */
  function VarName(v: Var): string {
    match v
    case AllowedPathsVar => "PYRIGHT_MCP_ALLOWED_PATHS"
    case CliTimeoutVar => "PYRIGHT_MCP_CLI_TIMEOUT"
    case LspTimeoutVar => "PYRIGHT_MCP_LSP_TIMEOUT"
    case LspCommandVar => "PYRIGHT_MCP_LSP_COMMAND"
    case LogLevelVar => "PYRIGHT_MCP_LOG_LEVEL"
    case LogModeVar => "PYRIGHT_MCP_LOG_MODE"
    case LogFileVar => "PYRIGHT_MCP_LOG_FILE"
    case HealthCheckVar => "PYRIGHT_MCP_ENABLE_HEALTH_CHECK"
    case PoolSizeVar => "PYRIGHT_MCP_LSP_POOL_SIZE"
  }

  /** The values of those of the variables that are set; the rest of the environment is never read. */
  type Env = map<Var, string>

  datatype LogMode = Stderr | LogFile | Both

  datatype Config = Config(
    allowedPaths: Option<seq<Path>>,  // None: every path is allowed
    cliTimeout: real,                 // seconds
    lspTimeout: real,                 // idle timeout of a language server, seconds
    lspCommand: seq<string>,
    logLevel: string,
    logMode: LogMode,
    logFile: Option<Path>,
    enableHealthCheck: bool)

  /** Why `load_config` raises ValueError. */
  datatype ConfigError =
    | NotANumber(variable: Var, text: string)   // "... must be a number, got: ..."
    | NotPositive(variable: Var, value: real)   // "... must be positive, got: ..."
    | BadLogLevel(level: string)                   // "... must be one of ..."
    | BadLogMode(mode: string)

  const LogLevels: set<string> := {"DEBUG", "INFO", "WARNING", "ERROR", "CRITICAL"}

  /** `os.getenv(name, default)`. */
  function GetEnv(env: Env, name: Var, default: string): string {
    if name in env then env[name] else default
  }

  /** `float(text)` followed by the positivity check, as both timeouts are read. */
  function ParseTimeout(variable: Var, text: string, parseFloat: string -> Option<real>): (r: Result<real, ConfigError>)
    ensures r.Ok? <==> parseFloat(text).Some? && parseFloat(text).value > 0.0
    ensures r.Ok? ==> r.value == parseFloat(text).value
    ensures parseFloat(text).None? ==> r == Err(NotANumber(variable, text))
    ensures parseFloat(text).Some? && parseFloat(text).value <= 0.0 ==> r == Err(NotPositive(variable, parseFloat(text).value))
  {
    match parseFloat(text)
    case None => Err(NotANumber(variable, text))
    case Some(v) => if v <= 0.0 then Err(NotPositive(variable, v)) else Ok(v)
  }

  /** The lower-cased log mode, when it is one of "stderr", "file" and "both". */
  function ParseLogMode(text: string): (r: Option<LogMode>)
    ensures r.Some? <==> Lower(text) in {"stderr", "file", "both"}
  {
    var m := Lower(text);
    if m == "stderr" then Some(Stderr)
    else if m == "file" then Some(LogFile)
    else if m == "both" then Some(Both)
    else None
  }

  /** A variable that is unset or empty counts as absent (Python's truthiness of the value). */
  function NonEmpty(env: Env, name: Var): Option<string> {
    var v := GetEnv(env, name, "");
    if v == "" then None else Some(v)
  }

  /** The text of each variable `load_config` reads, defaults applied. */
  datatype Raw = Raw(
    allowedPaths: Option<string>,
    cliTimeout: string,
    lspTimeout: string,
    lspCommand: string,
    logLevel: string,
    logMode: string,
    logFile: Option<string>,
    healthCheck: string)

  function ReadEnv(env: Env): Raw {
    Raw(NonEmpty(env, AllowedPathsVar),
        GetEnv(env, CliTimeoutVar, "30.0"),
        GetEnv(env, LspTimeoutVar, "300.0"),
        GetEnv(env, LspCommandVar, "pyright-langserver --stdio"),
        GetEnv(env, LogLevelVar, "INFO"),
        GetEnv(env, LogModeVar, "stderr"),
        NonEmpty(env, LogFileVar),
        GetEnv(env, HealthCheckVar, "true"))
  }

  /** `Path(p).resolve()` for each ":"-separated field. */
  function ResolveAll(s: string, resolve: Path -> Path): (ps: seq<Path>)
    ensures |ps| == |Split(s, ':')|
    ensures forall k :: 0 <= k < |ps| ==> ps[k] == resolve(Parse(Split(s, ':')[k]))
  {
    var texts := Split(s, ':');
    seq(|texts|, i requires 0 <= i < |texts| => resolve(Parse(texts[i])))
  }

  /** The checks and conversions of `load_config`, in the order it makes them. */
  function Build(raw: Raw, resolve: Path -> Path, parseFloat: string -> Option<real>): Result<Config, ConfigError> {
    match ParseTimeout(CliTimeoutVar, raw.cliTimeout, parseFloat)
    case Err(e) => Err(e)
    case Ok(cli) =>
      match ParseTimeout(LspTimeoutVar, raw.lspTimeout, parseFloat)
      case Err(e) => Err(e)
      case Ok(lsp) =>
        var level := Upper(raw.logLevel);
        if level !in LogLevels then Err(BadLogLevel(level))
        else
          match ParseLogMode(raw.logMode)
          case None => Err(BadLogMode(Lower(raw.logMode)))
          case Some(mode) =>
            Ok(Config(
              match raw.allowedPaths case None => None case Some(s) => Some(ResolveAll(s, resolve)),
              cli, lsp, SplitWs(raw.lspCommand), level, mode,
              match raw.logFile case None => None case Some(f) => Some(resolve(Parse(f))),
              Lower(raw.healthCheck) == "true"))
  }

  /**
   * `load_config`: the checks run in the order the variables are read, so
   * the CLI timeout's error wins over the LSP timeout's, and both over the
   * log level's and the log mode's.
   */
  function LoadConfig(env: Env, resolve: Path -> Path, parseFloat: string -> Option<real>): Result<Config, ConfigError> {
    Build(ReadEnv(env), resolve, parseFloat)
  }

  /**
   * What `load_config` accepts: both timeouts numbers above zero, a known
   * log level and log mode in any case. What it returns then: the command
   * split on whitespace, the health check on iff the variable reads "true"
   * in any case, allowed paths and log file present iff set and non-empty.
   */
  lemma LoadConfigChecks(env: Env, resolve: Path -> Path, parseFloat: string -> Option<real>)
    ensures var r := LoadConfig(env, resolve, parseFloat); var raw := ReadEnv(env);
      r.Ok? <==>
        ParseTimeout(CliTimeoutVar, raw.cliTimeout, parseFloat).Ok?
        && ParseTimeout(LspTimeoutVar, raw.lspTimeout, parseFloat).Ok?
        && Upper(raw.logLevel) in LogLevels
        && Lower(raw.logMode) in {"stderr", "file", "both"}
    ensures var r := LoadConfig(env, resolve, parseFloat);
      r.Ok? ==> r.value.cliTimeout > 0.0 && r.value.lspTimeout > 0.0 && r.value.logLevel in LogLevels
    ensures var r := LoadConfig(env, resolve, parseFloat); var raw := ReadEnv(env);
      r.Ok? ==> r.value.lspCommand == SplitWs(raw.lspCommand)
    ensures var r := LoadConfig(env, resolve, parseFloat); var raw := ReadEnv(env);
      r.Ok? ==> (r.value.enableHealthCheck <==> Lower(raw.healthCheck) == "true")
    ensures var r := LoadConfig(env, resolve, parseFloat); var raw := ReadEnv(env);
      r.Ok? ==> (r.value.allowedPaths.Some? <==> raw.allowedPaths.Some?)
    ensures var r := LoadConfig(env, resolve, parseFloat); var raw := ReadEnv(env);
      r.Ok? ==> (r.value.logFile.Some? <==> raw.logFile.Some?)
  {
  }

  /** The configuration of an empty environment: every default. */
  lemma DefaultConfig(resolve: Path -> Path, parseFloat: string -> Option<real>)
    requires parseFloat("30.0") == Some(30.0) && parseFloat("300.0") == Some(300.0)
    ensures LoadConfig(map[], resolve, parseFloat)
      == Ok(Config(None, 30.0, 300.0, ["pyright-langserver", "--stdio"], "INFO", Stderr, None, true))
  {
    assert ReadEnv(map[]) == DefaultRaw;
    DefaultBuild(resolve, parseFloat);
  }

  /** The text `load_config` reads from an empty environment. */
  const DefaultRaw := Raw(None, "30.0", "300.0", "pyright-langserver --stdio", "INFO", "stderr", None, "true")

  lemma DefaultBuild(resolve: Path -> Path, parseFloat: string -> Option<real>)
    requires parseFloat("30.0") == Some(30.0) && parseFloat("300.0") == Some(300.0)
    ensures Build(DefaultRaw, resolve, parseFloat)
      == Ok(Config(None, 30.0, 300.0, ["pyright-langserver", "--stdio"], "INFO", Stderr, None, true))
  {
    DefaultSpellings();
    DefaultCommand();
  }

  /** The defaults are already in the case `load_config` converts them to. */
  lemma DefaultSpellings()
    ensures Upper("INFO") == "INFO" && Lower("stderr") == "stderr" && Lower("true") == "true"
  {
  }

  /** The default command splits into the program and its one flag. */
  lemma DefaultCommand()
    ensures SplitWs("pyright-langserver --stdio") == ["pyright-langserver", "--stdio"]
  {
    assert "pyright-langserver --stdio" == Join(["pyright-langserver", "--stdio"], " ");
    SplitWsJoin(["pyright-langserver", "--stdio"]);
  }

  /** Changing only the log level of an accepted environment to a known one changes only the level. */
  lemma LogLevelOnly(raw: Raw, level: string, resolve: Path -> Path, parseFloat: string -> Option<real>)
    requires Build(raw, resolve, parseFloat).Ok? && Upper(level) in LogLevels
    ensures Build(raw.(logLevel := level), resolve, parseFloat)
      == Ok(Build(raw, resolve, parseFloat).value.(logLevel := Upper(level)))
  {
  }

  /** Changing only the command of an accepted environment changes only the command. */
  lemma LspCommandOnly(raw: Raw, command: string, resolve: Path -> Path, parseFloat: string -> Option<real>)
    requires Build(raw, resolve, parseFloat).Ok?
    ensures Build(raw.(lspCommand := command), resolve, parseFloat)
      == Ok(Build(raw, resolve, parseFloat).value.(lspCommand := SplitWs(command)))
  {
    var changed := raw.(lspCommand := command);
    assert changed.cliTimeout == raw.cliTimeout && changed.lspTimeout == raw.lspTimeout;
    assert changed.logLevel == raw.logLevel && changed.logMode == raw.logMode;
  }

  /** The log level is read case-insensitively: "debug" selects "DEBUG". */
  lemma LogLevelIgnoresCase(env: Env, resolve: Path -> Path, parseFloat: string -> Option<real>)
    requires LoadConfig(env, resolve, parseFloat).Ok?
    ensures var r := LoadConfig(env[LogLevelVar := "debug"], resolve, parseFloat);
      r.Ok? && r.value.logLevel == "DEBUG"
  {
    assert ReadEnv(env[LogLevelVar := "debug"]) == ReadEnv(env).(logLevel := "debug");
    DebugSpelling();
    LogLevelOnly(ReadEnv(env), "debug", resolve, parseFloat);
  }

  lemma DebugSpelling()
    ensures Upper("debug") == "DEBUG" && "DEBUG" in LogLevels
  {
  }

  /** A log level outside the five names is rejected, whatever else the environment says. */
  lemma UnknownLogLevelRejected(env: Env, resolve: Path -> Path, parseFloat: string -> Option<real>)
    requires Upper(GetEnv(env, LogLevelVar, "INFO")) !in LogLevels
    ensures LoadConfig(env, resolve, parseFloat).Err?
  {
  }

  /** A command given as words separated by single spaces is read back as those words. */
  lemma LspCommandWords(env: Env, words: seq<string>, resolve: Path -> Path, parseFloat: string -> Option<real>)
    requires forall k :: 0 <= k < |words| ==> words[k] != "" && NoSpace(words[k])
    requires LoadConfig(env, resolve, parseFloat).Ok?
    ensures var r := LoadConfig(env[LspCommandVar := Join(words, " ")], resolve, parseFloat);
      r.Ok? && r.value.lspCommand == words
  {
    LspCommandSet(env, Join(words, " "), resolve, parseFloat);
    SplitWsJoin(words);
  }

  /** Setting the command of an accepted environment yields its whitespace-split words. */
  lemma LspCommandSet(env: Env, command: string, resolve: Path -> Path, parseFloat: string -> Option<real>)
    requires LoadConfig(env, resolve, parseFloat).Ok?
    ensures var r := LoadConfig(env[LspCommandVar := command], resolve, parseFloat);
      r.Ok? && r.value.lspCommand == SplitWs(command)
  {
    assert ReadEnv(env[LspCommandVar := command]) == ReadEnv(env).(lspCommand := command);
    LspCommandOnly(ReadEnv(env), command, resolve, parseFloat);
  }

  /** Allowed paths given joined by ":" come back one per field, each resolved. */
  lemma AllowedPathsFields(env: Env, texts: seq<string>, resolve: Path -> Path, parseFloat: string -> Option<real>)
    requires |texts| >= 1 && forall k :: 0 <= k < |texts| ==> ':' !in texts[k]
    requires Join(texts, ":") != ""
    requires LoadConfig(env, resolve, parseFloat).Ok?
    ensures var r := LoadConfig(env[AllowedPathsVar := Join(texts, ":")], resolve, parseFloat);
      r.Ok? && r.value.allowedPaths.Some?
      && |r.value.allowedPaths.value| == |texts|
      && forall k :: 0 <= k < |texts| ==> r.value.allowedPaths.value[k] == resolve(Parse(texts[k]))
  {
    var s := Join(texts, ":");
    SplitJoin(texts, ':');
    assert ReadEnv(env[AllowedPathsVar := s]) == ReadEnv(env).(allowedPaths := Some(s));
    AllowedPathsOnly(ReadEnv(env), s, resolve, parseFloat);
  }

  /** Changing only the allowed paths of an accepted environment changes only that setting. */
  lemma AllowedPathsOnly(raw: Raw, s: string, resolve: Path -> Path, parseFloat: string -> Option<real>)
    requires Build(raw, resolve, parseFloat).Ok?
    ensures Build(raw.(allowedPaths := Some(s)), resolve, parseFloat)
      == Ok(Build(raw, resolve, parseFloat).value.(allowedPaths := Some(ResolveAll(s, resolve))))
  {
    var changed := raw.(allowedPaths := Some(s));
    assert changed.cliTimeout == raw.cliTimeout && changed.lspTimeout == raw.lspTimeout;
    assert changed.logLevel == raw.logLevel && changed.logMode == raw.logMode;
  }

  /** Changing only the health-check switch of an accepted environment changes only that flag. */
  lemma HealthCheckOnly(raw: Raw, text: string, resolve: Path -> Path, parseFloat: string -> Option<real>)
    requires Build(raw, resolve, parseFloat).Ok?
    ensures Build(raw.(healthCheck := text), resolve, parseFloat)
      == Ok(Build(raw, resolve, parseFloat).value.(enableHealthCheck := Lower(text) == "true"))
  {
  }

  /** The health check is on exactly when the variable reads "true" in any case: "TRUE" turns it on, "yes" does not. */
  lemma HealthCheckSwitch(env: Env, text: string, resolve: Path -> Path, parseFloat: string -> Option<real>)
    requires LoadConfig(env, resolve, parseFloat).Ok?
    ensures var r := LoadConfig(env[HealthCheckVar := text], resolve, parseFloat);
      r.Ok? && (r.value.enableHealthCheck <==> Lower(text) == "true")
  {
    assert ReadEnv(env[HealthCheckVar := text]) == ReadEnv(env).(healthCheck := text);
    HealthCheckOnly(ReadEnv(env), text, resolve, parseFloat);
  }

  /** "TRUE" reads as "true"; "yes" and "false" do not. */
  lemma HealthCheckSpellings()
    ensures Lower("TRUE") == "true" && Lower("yes") != "true" && Lower("false") != "true"
  {
    assert Lower("yes")[0] == 'y';
    assert Lower("false")[0] == 'f';
  }

  /**
   * The module-global `_config`: `get_config` loads once and then keeps
   * answering with what it loaded, whatever the environment does, until
   * `reset_config` forgets it. A load that raises caches nothing.
   */
  class ConfigCache {
    var cached: Option<Config>

    constructor ()
      ensures cached == None
    {
      cached := None;
    }

    method Get(env: Env, resolve: Path -> Path, parseFloat: string -> Option<real>) returns (r: Result<Config, ConfigError>)
      modifies this
      ensures old(cached).Some? ==> r == Ok(old(cached).value) && cached == old(cached)
      ensures old(cached).None? ==>
        r == LoadConfig(env, resolve, parseFloat) && cached == (if r.Ok? then Some(r.value) else None)
    {
      if cached.None? {
        r := LoadConfig(env, resolve, parseFloat);
        if r.Ok? {
          cached := Some(r.value);
        }
        return;
      }
      r := Ok(cached.value);
    }

    method Reset()
      modifies this
      ensures cached == None
    {
      cached := None;
    }
  }
}
