/** The gateway's configuration: read from the environment after the env
    file has been loaded, then validated. */
module GatewayConfig {
  import opened Results
  import opened Text
  import opened ConfigLoader
  import opened ConfigValidator

  datatype Config = Config(
    port: string,
    readTimeout: int,
    writeTimeout: int,
    greeterUrl: string,
    logLevel: string,
    logFormat: string)

  const LogLevels: seq<string> := ["debug", "info", "warn", "error"]
  const LogFormats: seq<string> := ["text", "json"]

  /** Validate: the checks run in a fixed order and the first failure is
      returned; port and URL failures carry a context, the two enumeration
      failures are returned as they are. */
  function Validate(c: Config, parse: string -> UrlParse): (r: Outcome<ConfigError>)
    ensures ValidatePort(c.port).Fail? ==> r == Fail(Wrapped("server port", ValidatePort(c.port).error))
    ensures ValidatePort(c.port).Pass? && ValidateURL(c.greeterUrl, parse).Fail? ==>
      r == Fail(Wrapped("greeter URL", ValidateURL(c.greeterUrl, parse).error))
    ensures ValidatePort(c.port).Pass? && ValidateURL(c.greeterUrl, parse).Pass? && c.logLevel !in LogLevels ==>
      r == Fail(NotOneOf("log level", LogLevels, c.logLevel))
    ensures (ValidatePort(c.port).Pass? && ValidateURL(c.greeterUrl, parse).Pass? && c.logLevel in LogLevels
             && c.logFormat !in LogFormats) ==>
      r == Fail(NotOneOf("log format", LogFormats, c.logFormat))
  {
    match ValidatePort(c.port)
    case Fail(e) => Fail(Wrapped("server port", e))
    case Pass =>
      match ValidateURL(c.greeterUrl, parse)
      case Fail(e) => Fail(Wrapped("greeter URL", e))
      case Pass =>
        match ValidateOneOf(c.logLevel, LogLevels, "log level")
        case Fail(e) => Fail(e)
        case Pass => ValidateOneOf(c.logFormat, LogFormats, "log format")
  }

  /** A configuration is valid exactly when each of the four checks passes
      on its own. */
  lemma ValidateIsConjunction(c: Config, parse: string -> UrlParse)
    ensures Validate(c, parse).Pass? <==>
      ValidatePort(c.port).Pass? && ValidateURL(c.greeterUrl, parse).Pass?
      && c.logLevel in LogLevels && c.logFormat in LogFormats
  {
  }

  datatype GatewayError =
    | LoadFailed(loadError: LoadError)
    | ValidationFailed(configError: ConfigError)

  /** The configuration read from an environment, with its defaults. */
  function FromEnv(env: Env): (c: Config)
    ensures c.port == GetEnv(env, "GATEWAY_HTTP_PORT", "8080")
    ensures c.greeterUrl == GetEnv(env, "GREETER_URL", "http://localhost:8081")
    ensures c.logLevel == GetEnv(env, "LOG_LEVEL", "info")
    ensures c.logFormat == GetEnv(env, "LOG_FORMAT", "text")
    ensures c.readTimeout == 30 && c.writeTimeout == 30
  {
    Config(
      GetEnv(env, "GATEWAY_HTTP_PORT", "8080"),
      30,
      30,
      GetEnv(env, "GREETER_URL", "http://localhost:8081"),
      GetEnv(env, "LOG_LEVEL", "info"),
      GetEnv(env, "LOG_FORMAT", "text"))
  }

  /** Load: the env file is applied first and its error ends the load; the
      configuration is then read from the resulting environment and must
      validate. */
  function Load(env: Env, probe: string -> EnvFile, parse: string -> UrlParse): (r: Result<Config, GatewayError>)
    ensures var loaded := ConfigLoader.Load(NewLoader(env), env, probe);
      loaded.error.Some? ==> r == Err(LoadFailed(loaded.error.value))
    ensures var loaded := ConfigLoader.Load(NewLoader(env), env, probe);
      r.Ok? ==> (loaded.error.None? && r.value == FromEnv(loaded.env) && Validate(r.value, parse).Pass?)
    ensures var loaded := ConfigLoader.Load(NewLoader(env), env, probe);
      (loaded.error.None? && Validate(FromEnv(loaded.env), parse).Fail?) ==>
      r == Err(ValidationFailed(Validate(FromEnv(loaded.env), parse).error))
  {
    var loaded := ConfigLoader.Load(NewLoader(env), env, probe);
    match loaded.error
    case Some(e) => Err(LoadFailed(e))
    case None =>
      var c := FromEnv(loaded.env);
      match Validate(c, parse)
      case Fail(e) => Err(ValidationFailed(e))
      case Pass => Ok(c)
  }

  /** The default port passes the port check. */
  lemma DefaultPortIsValid()
    ensures ValidatePort("8080") == Pass
  {
    ValidatePortAcceptsDecimal(8080);
    assert FormatNat(8) == "8";
    assert FormatNat(80) == "80";
    assert FormatNat(808) == "808";
    assert FormatNat(8080) == "8080";
  }

  /** With no env file and nothing set, the defaults are used and they
      validate whenever the parser reads the default greeter URL as having
      a scheme and a host. */
  lemma DefaultsWithEmptyEnvironment(probe: string -> EnvFile, parse: string -> UrlParse)
    requires probe("configs/dev.env").NotFound?
    requires parse("http://localhost:8081") == Parsed("http", "localhost:8081")
    ensures Load(map[], probe, parse) == Ok(Config("8080", 30, 30, "http://localhost:8081", "info", "text"))
  {
    var l := NewLoader(map[]);
    assert l.env == "dev";
    assert ConfigFile(l) == "configs/dev.env";
    var loaded := ConfigLoader.Load(l, map[], probe);
    assert loaded == LoadResult(map[], None);
    var c := FromEnv(map[]);
    assert c == Config("8080", 30, 30, "http://localhost:8081", "info", "text");
    DefaultPortIsValid();
    assert ValidateURL(c.greeterUrl, parse) == Pass;
    assert c.logLevel == LogLevels[1];
    assert c.logFormat == LogFormats[0];
    ValidateIsConjunction(c, parse);
  }

  /** A variable already set in the process environment wins over the env
      file: the configuration reads it whatever the file contains. */
  lemma ProcessEnvironmentWins(env: Env, probe: string -> EnvFile, parse: string -> UrlParse)
    requires Getenv(env, "GATEWAY_HTTP_PORT") != ""
    requires Load(env, probe, parse).Ok?
    ensures Load(env, probe, parse).value.port == Getenv(env, "GATEWAY_HTTP_PORT")
  {
  }
}
