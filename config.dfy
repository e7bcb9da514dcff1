/** Settings loading (src/config.py): each setting is read from an
    environment variable with a default, the CORS list is split and
    cleaned, the device and the flags are normalised, and the first result
    is cached for the life of the process. The environment is a map;
    Path.resolve(), the application directory and torch's CUDA probe are
    parameters. */
module Config {
  import opened Text
  import AutoReader

  type Env = map<string, string>

  function Getenv(env: Env, key: string, default: string): string {
    if key in env then env[key] else default
  }

  datatype Settings = Settings(
    outputRoot: string,
    historyPath: string,
    jwtSecret: string,
    jwtTtlSeconds: int,
    username: string,
    password: string,
    corsOrigins: seq<string>,
    staticDistDir: string,
    logDir: string,
    logLevel: string,
    logMaxBytes: int,
    logBackupCount: int,
    jobTtlHours: int,
    useModelscope: bool,
    device: string,
    vramLimit: int)

  /** int() refusing the text of an environment variable. */
  datatype ConfigError = NotAnInteger(variable: string, text: string)

  const DefaultCors := "http://localhost:5173,http://127.0.0.1:5173"

  /** [o.strip() for o in raw.split(",") if o.strip()]: every origin is
      non-empty, stripped and free of commas. */
  function CorsOrigins(raw: string): (r: seq<string>)
    ensures forall k :: 0 <= k < |r| ==> r[k] != "" && Strip(r[k]) == r[k] && ',' !in r[k]
  {
    var parts := Split(raw, ',');
    var r := StrippedNonBlank(parts);
    r
  }

  /** A list of clean origins written comma-separated is read back as is. */
  lemma CorsOriginsOfJoin(origins: seq<string>)
    requires |origins| >= 1
    requires forall k :: 0 <= k < |origins| ==> origins[k] != "" && Strip(origins[k]) == origins[k] && ',' !in origins[k]
    ensures CorsOrigins(Join(origins, ",")) == origins
  {
    SplitJoin(origins, ',');
    StrippedNonBlankOfClean(origins);
  }

  /** The default origins are the two local development servers. */
  lemma DefaultCorsOrigins()
    ensures CorsOrigins(DefaultCors) == ["http://localhost:5173", "http://127.0.0.1:5173"]
  {
    var origins := ["http://localhost:5173", "http://127.0.0.1:5173"];
    assert Join(origins, ",") == DefaultCors;
    StripOfStripped(origins[0]);
    StripOfStripped(origins[1]);
    CorsOriginsOfJoin(origins);
  }

  /** FRA_DEVICE lower-cased, with "auto" resolved by CUDA availability. */
  function Device(deviceEnv: string, cudaAvailable: bool): string {
    var d := Lower(deviceEnv);
    if d == "auto" then (if cudaAvailable then "cuda" else "cpu") else d
  }

  /** The device is lower case, "auto" never survives, and resolving a
      resolved device changes nothing. */
  lemma DeviceResolved(deviceEnv: string, cudaAvailable: bool)
    ensures var r := Device(deviceEnv, cudaAvailable);
      Lower(r) == r && r != "auto" && Device(r, cudaAvailable) == r
    ensures Lower(deviceEnv) == "auto" ==> Device(deviceEnv, cudaAvailable) == if cudaAvailable then "cuda" else "cpu"
    ensures Lower(deviceEnv) != "auto" ==> Device(deviceEnv, cudaAvailable) == Lower(deviceEnv)
  {
    var d := Lower(deviceEnv);
    LowerIdempotent(deviceEnv);
    if d == "auto" {
      LowerFixed("cuda");
      LowerFixed("cpu");
    }
  }

  /** FRA_USE_MODELSCOPE.lower() == "true". */
  predicate UseModelscope(flag: string) {
    Lower(flag) == "true"
  }

  /** The flag holds for every spelling of "true" that differs only in
      case, the default "True" among them, and for nothing else. */
  lemma UseModelscopeIff(flag: string)
    ensures UseModelscope(flag) <==> |flag| == 4 && forall i :: 0 <= i < 4 ==> LowerChar(flag[i]) == "true"[i]
    ensures UseModelscope("True") && UseModelscope("TRUE") && !UseModelscope("1")
  {
    assert Lower("True") == "true";
    assert Lower("TRUE") == "true";
    assert Lower("1") == "1";
    if |flag| == 4 && forall i :: 0 <= i < 4 ==> LowerChar(flag[i]) == "true"[i] {
      assert Lower(flag) == "true";
    }
  }

  /** int(os.getenv(key, default)). */
  function IntEnv(env: Env, key: string, default: string): (r: Result<int, ConfigError>)
    ensures r.Ok? <==> ParseInt(Getenv(env, key, default)).Some?
    ensures r.Ok? ==> Some(r.value) == ParseInt(Getenv(env, key, default))
    ensures r.Err? ==> r.error == NotAnInteger(key, Getenv(env, key, default))
  {
    var text := Getenv(env, key, default);
    match ParseInt(text)
    case Some(n) => Ok(n)
    case None => Err(NotAnInteger(key, text))
  }

  /** The five integers of the settings, in the order the source parses
      them. */
  datatype Numbers = Numbers(vramLimit: int, jwtTtlSeconds: int, logMaxBytes: int, logBackupCount: int, jobTtlHours: int)

  const IntVariables := ["FRA_VRAM_LIMIT", "FRA_JWT_TTL_SECONDS", "FRA_LOG_MAX_BYTES", "FRA_LOG_BACKUP_COUNT", "FRA_JOB_TTL_HOURS"]

  /** The int() conversions of get_settings; the first one that fails is
      the error. */
  function ReadNumbers(env: Env): Result<Numbers, ConfigError> {
    match IntEnv(env, "FRA_VRAM_LIMIT", "0")
    case Err(e) => Err(e)
    case Ok(vram) =>
      match IntEnv(env, "FRA_JWT_TTL_SECONDS", "86400")
      case Err(e) => Err(e)
      case Ok(jwtTtl) =>
        match IntEnv(env, "FRA_LOG_MAX_BYTES", "10485760")
        case Err(e) => Err(e)
        case Ok(maxBytes) =>
          match IntEnv(env, "FRA_LOG_BACKUP_COUNT", "10")
          case Err(e) => Err(e)
          case Ok(backups) =>
            match IntEnv(env, "FRA_JOB_TTL_HOURS", "24")
            case Err(e) => Err(e)
            case Ok(ttlHours) => Ok(Numbers(vram, jwtTtl, maxBytes, backups, ttlHours))
  }

  /** Only a value actually set in the environment can be refused, since
      every default is an integer; the error names that variable and its
      text. With nothing set, the numbers are the defaults. */
  lemma ReadNumbersErrors(env: Env)
    ensures var r := ReadNumbers(env);
      r.Err? ==> r.error.variable in IntVariables && r.error.variable in env &&
                 r.error.text == env[r.error.variable] && ParseInt(r.error.text).None?
  {
    DefaultIntegers();
    IntEnvRefusesSetOnly(env, "FRA_VRAM_LIMIT", "0");
    IntEnvRefusesSetOnly(env, "FRA_JWT_TTL_SECONDS", "86400");
    IntEnvRefusesSetOnly(env, "FRA_LOG_MAX_BYTES", "10485760");
    IntEnvRefusesSetOnly(env, "FRA_LOG_BACKUP_COUNT", "10");
    IntEnvRefusesSetOnly(env, "FRA_JOB_TTL_HOURS", "24");
  }

  /** With nothing set, the numbers are the defaults. */
  lemma ReadNumbersDefaults()
    ensures ReadNumbers(map[]) == Ok(Numbers(0, 86400, 10485760, 10, 24))
  {
    DefaultIntegers();
  }

  /** With an integer default, only a value actually set can be refused. */
  lemma IntEnvRefusesSetOnly(env: Env, key: string, default: string)
    requires ParseInt(default).Some?
    ensures IntEnv(env, key, default).Err? ==>
      key in env && IntEnv(env, key, default).error == NotAnInteger(key, env[key]) && ParseInt(env[key]).None?
  {
  }

  /** The settings object get_settings builds once the integers are read:
      `resolve` is Path.resolve() and `appRoot` the directory above src. */
  function Build(env: Env, resolve: string -> string, appRoot: string, cudaAvailable: bool, n: Numbers): (r: Settings)
    ensures r.vramLimit == n.vramLimit && r.jwtTtlSeconds == n.jwtTtlSeconds && r.logMaxBytes == n.logMaxBytes
            && r.logBackupCount == n.logBackupCount && r.jobTtlHours == n.jobTtlHours
    ensures "FRA_HISTORY_PATH" !in env ==> r.historyPath == resolve(AutoReader.JoinPath(r.outputRoot, "history.jsonl"))
    ensures "FRA_LOG_DIR" !in env ==> r.logDir == resolve(AutoReader.JoinPath(r.outputRoot, "logs"))
  {
    var outputRoot := Getenv(env, "FRA_OUTPUT_ROOT", resolve("output"));
    Settings(
      outputRoot := outputRoot,
      historyPath := Getenv(env, "FRA_HISTORY_PATH", resolve(AutoReader.JoinPath(outputRoot, "history.jsonl"))),
      jwtSecret := Getenv(env, "FRA_JWT_SECRET", "change-me-in-production"),
      jwtTtlSeconds := n.jwtTtlSeconds,
      username := Getenv(env, "FRA_USERNAME", "admin"),
      password := Getenv(env, "FRA_PASSWORD", "admin"),
      corsOrigins := CorsOrigins(Getenv(env, "FRA_CORS_ORIGINS", DefaultCors)),
      staticDistDir := Getenv(env, "FRA_STATIC_DIST_DIR",
        resolve(AutoReader.JoinPath(AutoReader.JoinPath(appRoot, "frontend"), "dist"))),
      logDir := Getenv(env, "FRA_LOG_DIR", resolve(AutoReader.JoinPath(outputRoot, "logs"))),
      logLevel := Upper(Getenv(env, "FRA_LOG_LEVEL", "INFO")),
      logMaxBytes := n.logMaxBytes,
      logBackupCount := n.logBackupCount,
      jobTtlHours := n.jobTtlHours,
      useModelscope := UseModelscope(Getenv(env, "FRA_USE_MODELSCOPE", "True")),
      device := Device(Getenv(env, "FRA_DEVICE", "auto"), cudaAvailable),
      vramLimit := n.vramLimit)
  }

  /** The settings get_settings builds on its first call. */
  function Load(env: Env, resolve: string -> string, appRoot: string, cudaAvailable: bool): (r: Result<Settings, ConfigError>)
    ensures r.Err? <==> ReadNumbers(env).Err?
    ensures r.Err? ==> r.error.variable in IntVariables && r.error.variable in env
                       && r.error.text == env[r.error.variable] && ParseInt(r.error.text).None?
    ensures r.Ok? ==> r.value == Build(env, resolve, appRoot, cudaAvailable, ReadNumbers(env).value)
  {
    ReadNumbersErrors(env);
    match ReadNumbers(env)
    case Err(e) => Err(e)
    case Ok(n) => Ok(Build(env, resolve, appRoot, cudaAvailable, n))
  }

  /** Every built setting is normalised: clean origins, an upper-case
      level, a resolved lower-case device. */
  lemma BuildNormalises(env: Env, resolve: string -> string, appRoot: string, cudaAvailable: bool, n: Numbers)
    ensures var s := Build(env, resolve, appRoot, cudaAvailable, n);
      Upper(s.logLevel) == s.logLevel &&
      Lower(s.device) == s.device && s.device != "auto" &&
      forall k :: 0 <= k < |s.corsOrigins| ==> s.corsOrigins[k] != "" && ',' !in s.corsOrigins[k]
  {
    UpperIdempotent(Getenv(env, "FRA_LOG_LEVEL", "INFO"));
    DeviceResolved(Getenv(env, "FRA_DEVICE", "auto"), cudaAvailable);
  }

  /** With no variable set, the settings are the documented defaults. */
  lemma LoadDefaults(resolve: string -> string, appRoot: string, cudaAvailable: bool)
    ensures var r := Load(map[], resolve, appRoot, cudaAvailable);
      r.Ok? &&
      r.value.jwtTtlSeconds == 86400 && r.value.logMaxBytes == 10485760 &&
      r.value.logBackupCount == 10 && r.value.jobTtlHours == 24 && r.value.vramLimit == 0 &&
      r.value.logLevel == "INFO" && r.value.useModelscope &&
      r.value.username == "admin" && r.value.password == "admin" &&
      r.value.corsOrigins == ["http://localhost:5173", "http://127.0.0.1:5173"] &&
      r.value.device == (if cudaAvailable then "cuda" else "cpu") &&
      r.value.outputRoot == resolve("output")
  {
    ReadNumbersDefaults();
    DefaultCorsOrigins();
    UseModelscopeIff("True");
    LiteralCases();
    DeviceResolved("auto", cudaAvailable);
  }

  lemma LiteralCases()
    ensures Upper("INFO") == "INFO" && Lower("auto") == "auto"
  {
    UpperFixed("INFO");
    LowerFixed("auto");
  }

  lemma UpperFixed(s: string)
    requires forall i :: 0 <= i < |s| ==> !('a' <= s[i] <= 'z')
    ensures Upper(s) == s
  {
  }

  lemma LowerFixed(s: string)
    requires forall i :: 0 <= i < |s| ==> !('A' <= s[i] <= 'Z')
    ensures Lower(s) == s
  {
  }

  /** The integer defaults are accepted by int(). */
  lemma DefaultIntegers()
    ensures ParseInt("0") == Some(0) && ParseInt("86400") == Some(86400) && ParseInt("10485760") == Some(10485760)
    ensures ParseInt("10") == Some(10) && ParseInt("24") == Some(24)
  {
    ParsesSmall();
    ParsesTtl();
    ParsesMaxBytes();
  }

  lemma ParsesSmall()
    ensures ParseInt("0") == Some(0) && ParseInt("10") == Some(10) && ParseInt("24") == Some(24)
  {
    assert NatToString(0) == "0";
    ParseIntOfNat(0);
    assert NatToString(1) == "1";
    assert NatToString(10) == "10";
    ParseIntOfNat(10);
    assert NatToString(2) == "2";
    assert NatToString(24) == "24";
    ParseIntOfNat(24);
  }

  lemma ParsesTtl()
    ensures ParseInt("86400") == Some(86400)
  {
    assert NatToString(8) == "8";
    assert NatToString(86) == "86";
    assert NatToString(864) == "864";
    assert NatToString(8640) == "8640";
    assert NatToString(86400) == "86400";
    ParseIntOfNat(86400);
  }

  lemma ParsesMaxBytes()
    ensures ParseInt("10485760") == Some(10485760)
  {
    assert NatToString(1) == "1";
    assert NatToString(10) == "10";
    assert NatToString(104) == "104";
    assert NatToString(1048) == "1048";
    assert NatToString(10485) == "10485";
    assert NatToString(104857) == "104857";
    assert NatToString(1048576) == "1048576";
    assert NatToString(10485760) == "10485760";
    ParseIntOfNat(10485760);
  }

  /** The process-wide _SETTINGS slot of get_settings. */
  class SettingsCache {
    var cached: Option<Settings>

    constructor ()
      ensures cached == None
    {
      cached := None;
    }

    /** get_settings: the cached object once there is one, whatever the
        environment says now; otherwise the settings are loaded and kept
        when loading succeeds. */
    method Get(env: Env, resolve: string -> string, appRoot: string, cudaAvailable: bool)
      returns (r: Result<Settings, ConfigError>)
      modifies this
      ensures old(cached).Some? ==> r == Ok(old(cached).value) && cached == old(cached)
      ensures old(cached).None? ==> r == Load(env, resolve, appRoot, cudaAvailable)
      ensures old(cached).None? ==> cached == if r.Ok? then Some(r.value) else None
    {
      if cached.Some? {
        return Ok(cached.value);
      }
      r := Load(env, resolve, appRoot, cudaAvailable);
      if r.Ok? {
        cached := Some(r.value);
      }
    }
  }
}
