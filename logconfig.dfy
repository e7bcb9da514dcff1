/** The logging configuration loader (src/utils/logger/config_loader.py):
    boolean environment flags, the shape check of a loaded configuration
    file, its validation, the environment overrides written into a copy of
    it, the choice of the configuration file, and the fallback to the
    built-in configuration in init_logging. Parsing JSON/YAML/TOML, the
    file system and dictConfig itself are parameters or left out. */
module LogConfig {
  import opened Text
  import opened Values
  import Api
  import Config

  type Env = map<string, string>

  const AllowedLevels: set<string> := {"DEBUG", "INFO", "WARNING", "ERROR", "CRITICAL"}
  const TrueTokens: set<string> := {"1", "true", "yes", "y", "on"}
  const FalseTokens: set<string> := {"0", "false", "no", "n", "off"}

  /** _parse_bool: the listed tokens, ignoring case and surrounding
      whitespace; the default for None and for anything else. */
  function ParseBool(v: Option<string>, default: bool): (r: bool)
    ensures v.None? ==> r == default
    ensures v.Some? && Lower(Strip(v.value)) in TrueTokens ==> r
    ensures v.Some? && Lower(Strip(v.value)) in FalseTokens ==> !r
    ensures v.Some? && Lower(Strip(v.value)) !in TrueTokens + FalseTokens ==> r == default
  {
    if v.None? then default
    else
      var s := Lower(Strip(v.value));
      if s in TrueTokens then true
      else if s in FalseTokens then false
      else default
  }

  /** Upper case is read as lower case. */
  lemma ParseBoolCaseless(s: string, default: bool)
    ensures ParseBool(Some(Upper(s)), default) == ParseBool(Some(s), default)
  {
    StripUpper(s);
    LowerOfUpper(Strip(s));
  }

  /** Stripping commutes with upper-casing, which keeps whitespace. */
  lemma {:induction false} StripUpper(s: string)
    ensures Strip(Upper(s)) == Upper(Strip(s))
    decreases |s|
  {
    var u := Upper(s);
    if |s| > 0 && IsSpace(s[0]) {
      assert u[1..] == Upper(s[1..]);
      StripUpper(s[1..]);
    } else if |s| > 0 && IsSpace(s[|s| - 1]) {
      assert u[..|s| - 1] == Upper(s[..|s| - 1]);
      StripUpper(s[..|s| - 1]);
    }
  }

  /** Surrounding whitespace is ignored. */
  lemma ParseBoolPadded(s: string, default: bool)
    ensures ParseBool(Some(" " + s), default) == ParseBool(Some(s), default)
  {
    assert (" " + s)[1..] == s;
  }

  /** Path(p).suffix: from the last dot of the last component, when that
      dot is neither its first nor its last character. */
  function Suffix(path: string): (r: string)
    ensures r == "" || r[0] == '.'
  {
    var name := Api.PathName(path);
    match RFind(name, ".")
    case Some(i) => if 0 < i < |name| - 1 then name[i..] else ""
    case None => ""
  }

  datatype Format = Json | Yaml | Toml

  /** The parser _load_config_file picks for a (lower-cased) suffix. */
  function FormatOf(suffix: string): (r: Option<Format>)
    ensures r.Some? <==> suffix in {".json", ".yaml", ".yml", ".toml"}
  {
    if suffix == ".json" then Some(Json)
    else if suffix in {".yaml", ".yml"} then Some(Yaml)
    else if suffix == ".toml" then Some(Toml)
    else None
  }

  function RootMessage(f: Format): string
    requires f != Json
  {
    match f
    case Yaml => "yaml root must be an object"
    case Toml => "toml root must be an object"
  }

  /** The shape check at the end of _load_config_file: a configuration with
      a `logging` object is kept as it is; a bare dictConfig (version,
      handlers and root) is wrapped as version 1 of the python adapter. */
  function Shape(raw: Dict): (r: Result<Dict, string>)
    ensures "logging" in raw && raw["logging"].VDict? ==> r == Ok(raw)
    ensures !("logging" in raw && raw["logging"].VDict?) && "version" in raw && "handlers" in raw && "root" in raw ==>
      r == Ok(Wrapped(VDict(raw)))
    ensures r.Err? <==> !("logging" in raw && raw["logging"].VDict?) && !("version" in raw && "handlers" in raw && "root" in raw)
    ensures r.Ok? ==> "logging" in r.value && r.value["logging"].VDict?
  {
    if "logging" in raw && raw["logging"].VDict? then Ok(raw)
    else if "version" in raw && "handlers" in raw && "root" in raw then
      Ok(Wrapped(VDict(raw)))
    else Err("invalid config: missing logging section")
  }

  /** The version-1 python wrapper around a bare dictConfig. */
  function Wrapped(logging: Value): Dict {
    map["fra_config_version" := VInt(1), "adapter" := VStr("python"), "logging" := logging]
  }

  /** The shape check applied to whatever json.loads returned, which
      nothing checks to be an object: Python's `in` on a list looks for an
      element, on a string for a substring, and on any other value raises
      a TypeError, as does indexing a list or a string by "logging". */
  function JsonShape(v: Value): (r: Result<Dict, string>)
    ensures v.VDict? ==> r == Shape(v.entries)
    ensures v.VList? ==> (r.Ok? <==> VStr("logging") !in v.items
                                     && VStr("version") in v.items && VStr("handlers") in v.items && VStr("root") in v.items)
    ensures v.VStr? ==> (r.Ok? <==> !Contains(v.s, "logging")
                                    && Contains(v.s, "version") && Contains(v.s, "handlers") && Contains(v.s, "root"))
    ensures !v.VDict? && r.Ok? ==> (v.VList? || v.VStr?) && r.value == Wrapped(v)
  {
    match v
    case VDict(raw) => Shape(raw)
    case VList(xs) =>
      if VStr("logging") in xs then Err("list indices must be integers or slices, not str")
      else if VStr("version") in xs && VStr("handlers") in xs && VStr("root") in xs then Ok(Wrapped(v))
      else Err("invalid config: missing logging section")
    case VStr(s) =>
      if Contains(s, "logging") then Err("string indices must be integers")
      else if Contains(s, "version") && Contains(s, "handlers") && Contains(s, "root") then Ok(Wrapped(v))
      else Err("invalid config: missing logging section")
    case _ => Err("argument of type is not iterable")
  }

  /** _load_config_file: `parsed` is what the suffix's parser made of the
      file text (an error for a parse failure or a missing library). YAML
      and TOML roots must be objects; a JSON root is not checked. */
  function LoadConfigFile(path: string, parsed: Result<Value, string>): (r: Result<Dict, string>)
    ensures FormatOf(Lower(Suffix(path))).None? ==> r == Err("unsupported config file format: " + Lower(Suffix(path)))
    ensures r.Ok? ==> FormatOf(Lower(Suffix(path))).Some? && parsed.Ok?
    ensures r.Ok? && parsed.value.VDict? ==> r == Shape(parsed.value.entries)
    ensures r.Ok? && !parsed.value.VDict? ==> FormatOf(Lower(Suffix(path))) == Some(Json) && r.value == Wrapped(parsed.value)
    ensures FormatOf(Lower(Suffix(path))) == Some(Json) && parsed.Ok? ==> r == JsonShape(parsed.value)
    ensures FormatOf(Lower(Suffix(path))) in {Some(Yaml), Some(Toml)} && parsed.Ok? && !parsed.value.VDict? ==>
      r == Err(RootMessage(FormatOf(Lower(Suffix(path))).value))
  {
    var suffix := Lower(Suffix(path));
    match FormatOf(suffix)
    case None => Err("unsupported config file format: " + suffix)
    case Some(f) =>
      match parsed
      case Err(e) => Err(e)
      case Ok(v) =>
        if f == Json then JsonShape(v)
        else if v.VDict? then Shape(v.entries)
        else Err(RootMessage(f))
  }

  /** A JSON root that is not an object may load, wrapped as a bare
      dictConfig, but its `logging` is then no object and validation
      refuses it, so init_logging falls back to the built-in
      configuration. */
  lemma NonObjectRootFallsBack(path: string, isFile: string -> bool, parsed: Result<Value, string>, env: Env, defaultDir: string, cwd: Api.Path)
    requires parsed.Ok? && !parsed.value.VDict?
    ensures ChosenConfig(path, isFile, parsed, env, defaultDir, cwd) == DefaultConfig(env, defaultDir, cwd)
  {
    var l := LoadConfigFile(path, parsed);
    if l.Ok? {
      assert !l.value["logging"].VDict?;
      assert !Valid(l.value);
    }
  }

  /** What _validate_config accepts: a positive int version (1 when
      absent), a known adapter, and a `logging` object of version 1 with
      object root and handlers and a known root level. */
  predicate Valid(raw: Dict) {
    var v := Get(raw, "fra_config_version", VInt(1));
    var adapter := Get(raw, "adapter", VStr("python"));
    IsInt(v) && AsInt(v) >= 1
    && adapter in {VStr("python"), VStr("winston"), VStr("log4j")}
    && "logging" in raw && raw["logging"].VDict?
    && var cfg := raw["logging"].entries;
    EqualsOne(Get(cfg, "version", VNone))
    && "root" in cfg && cfg["root"].VDict? && "handlers" in cfg && cfg["handlers"].VDict?
    && Upper(Str(Get(cfg["root"].entries, "level", VStr("INFO")))) in AllowedLevels
  }

  /** _validate_config: None when the configuration is accepted, else the
      message of the first check that fails. */
  function ValidateConfig(raw: Dict): (r: Option<string>)
    ensures r.None? <==> Valid(raw)
  {
    var v := Get(raw, "fra_config_version", VInt(1));
    if !IsInt(v) || AsInt(v) < 1 then Some("fra_config_version must be a positive int")
    else if Get(raw, "adapter", VStr("python")) !in {VStr("python"), VStr("winston"), VStr("log4j")} then
      Some("adapter must be one of: python, winston, log4j")
    else if !("logging" in raw && raw["logging"].VDict?) then Some("logging must be an object")
    else
      var cfg := raw["logging"].entries;
      if !EqualsOne(Get(cfg, "version", VNone)) then Some("logging.version must be 1 (Python dictConfig requirement)")
      else if !("root" in cfg && cfg["root"].VDict? && "handlers" in cfg && cfg["handlers"].VDict?) then
        Some("logging.root and logging.handlers must be objects")
      else if Upper(Str(Get(cfg["root"].entries, "level", VStr("INFO")))) !in AllowedLevels then
        Some("root.level must be one of DEBUG/INFO/WARNING/ERROR/CRITICAL")
      else None
  }

  /** A wrapped bare dictConfig is valid exactly when its own version,
      root, handlers and level are. */
  lemma WrappedValid(raw: Dict)
    requires !("logging" in raw && raw["logging"].VDict?) && "version" in raw && "handlers" in raw && "root" in raw
    ensures Valid(Shape(raw).value) <==>
      EqualsOne(raw["version"]) && raw["root"].VDict? && raw["handlers"].VDict?
      && Upper(Str(Get(raw["root"].entries, "level", VStr("INFO")))) in AllowedLevels
  {
  }

  /** Path(os.getenv("FRA_LOG_DIR", <default>)) */
  function LogDir(env: Env, defaultDir: string): string {
    Config.Getenv(env, "FRA_LOG_DIR", defaultDir)
  }

  predicate IsAbsolute(path: string) {
    |path| > 0 && path[0] == '/'
  }

  /** str((log_dir / Path(fn).name).resolve()), with `logDir` the log
      directory already resolved: the absolute name of the file inside
      it. */
  function InLogDir(logDir: Api.Path, fn: string): (r: string)
    ensures IsAbsolute(r)
  {
    Api.PathText(Api.Walk(logDir, Api.Parts(Api.PathName(fn))))
  }

  /** The handler-level overrides read from the environment, each kept
      only when set to a non-empty value. */
  datatype Overrides = Overrides(logDir: Api.Path, maxBytes: string, backupCount: string)

  /** The overrides of `env`; the log directory is resolved against the
      working directory `cwd`. */
  function OverridesOf(env: Env, defaultDir: string, cwd: Api.Path): Overrides {
    Overrides(Api.Resolved(cwd, LogDir(env, defaultDir)), Config.Getenv(env, "FRA_LOG_MAX_BYTES", ""), Config.Getenv(env, "FRA_LOG_BACKUP_COUNT", ""))
  }

  function ClassOf(hc: Dict): string {
    Str(Get(hc, "class", VStr("")))
  }

  predicate Rotating(cls: string) {
    EndsWith(cls, "RotatingFileHandler") || EndsWith(cls, "TimedRotatingFileHandler")
  }

  /** `key := int(text)` when the override applies and int() accepts the
      text; otherwise the handler keeps its value. */
  function IntOverride(hc: Dict, key: string, text: string, applies: bool): (r: Dict)
    ensures r.Keys == hc.Keys + (if applies && text != "" && ParseInt(text).Some? then {key} else {})
    ensures forall k :: k in hc && k != key ==> r[k] == hc[k]
    ensures applies && text != "" && ParseInt(text).Some? ==> r[key] == VInt(ParseInt(text).value)
    ensures !(applies && text != "" && ParseInt(text).Some?) ==> r == hc
  {
    if applies && text != "" && ParseInt(text).Some? then hc[key := VInt(ParseInt(text).value)] else hc
  }

  /** The handler with a relative file name moved into the log
      directory; an absolute one is kept. */
  function Moved(hc: Dict, logDir: Api.Path): (r: Dict)
    ensures r.Keys == hc.Keys && forall k :: k in hc && k != "filename" ==> r[k] == hc[k]
    ensures "filename" in hc && IsAbsolute(Str(hc["filename"])) ==> r == hc
    ensures "filename" in hc && !IsAbsolute(Str(hc["filename"])) ==> r["filename"] == VStr(InLogDir(logDir, Str(hc["filename"])))
  {
    if "filename" in hc && !IsAbsolute(Str(hc["filename"])) then
      hc["filename" := VStr(InLogDir(logDir, Str(hc["filename"])))]
    else hc
  }

  /** The moved name reads back as the log directory followed by
      Path(fn).name; resolve() leaves the directory only for the name "..",
      which takes it up one level. */
  lemma InLogDirParts(logDir: Api.Path, fn: string)
    requires Api.Named(logDir)
    ensures var name := Api.PathName(fn);
      Api.Parts(InLogDir(logDir, fn)) ==
        if name == "" then logDir
        else if name == ".." then (if |logDir| == 0 then logDir else logDir[..|logDir| - 1])
        else logDir + [name]
  {
    var name := Api.PathName(fn);
    assert Split(name, '/') == [name];
    var dest := Api.Walk(logDir, Api.Parts(name));
    if name == "" {
      assert Api.Parts(name) == [];
      assert dest == logDir;
    } else {
      assert name != ".";
      assert Api.Clean([name]) == [name] + Api.Clean([]);
      assert Api.Parts(name) == [name];
      assert dest == Api.Walk(if name == ".." then (if |logDir| == 0 then logDir else logDir[..|logDir| - 1]) else logDir + [name], []);
    }
    Api.WalkNamed(logDir, Api.Parts(name));
    Api.PartsOfPathText(dest);
  }

  /** Moving is idempotent: a moved file name is absolute, so a second
      pass keeps it. */
  lemma MovedIdempotent(hc: Dict, logDir: Api.Path)
    ensures Moved(Moved(hc, logDir), logDir) == Moved(hc, logDir)
  {
  }

  /** FRA_LOG_DIR is taken against the working directory: set but empty,
      it names the working directory itself; a relative value without
      ".." names a directory below it. */
  lemma LogDirAgainstCwd(env: Env, defaultDir: string, cwd: Api.Path)
    requires Api.Named(cwd) && "FRA_LOG_DIR" in env
    ensures env["FRA_LOG_DIR"] == "" ==> OverridesOf(env, defaultDir, cwd).logDir == cwd
    ensures !StartsWith(env["FRA_LOG_DIR"], "/") && ".." !in Api.Parts(env["FRA_LOG_DIR"]) ==>
      OverridesOf(env, defaultDir, cwd).logDir == cwd + Api.Parts(env["FRA_LOG_DIR"])
  {
    var d := env["FRA_LOG_DIR"];
    assert LogDir(env, defaultDir) == d;
    Api.ResolvedNamed(cwd, d);
    if !StartsWith(d, "/") && ".." !in Api.Parts(d) {
      Api.WalkPlain(cwd, Api.Parts(d));
    }
  }

  /** One handler after the overrides: a relative file name moves into the
      log directory, and maxBytes/backupCount are set on rotating file
      handlers. Handlers that are not objects are kept. */
  function OverrideHandler(h: Value, ov: Overrides): Value {
    match h
    case VDict(hc) =>
      var moved := Moved(hc, ov.logDir);
      var cls := ClassOf(moved);
      var sized := IntOverride(moved, "maxBytes", ov.maxBytes, EndsWith(cls, "RotatingFileHandler"));
      VDict(IntOverride(sized, "backupCount", ov.backupCount, Rotating(cls)))
    case _ => h
  }

  /** A handler whose class is not a rotating file handler only has its
      file name moved. */
  lemma OverrideNonRotating(hc: Dict, ov: Overrides)
    requires !EndsWith(ClassOf(hc), "RotatingFileHandler")
    ensures OverrideHandler(VDict(hc), ov) == VDict(Moved(hc, ov.logDir))
  {
    assert ClassOf(Moved(hc, ov.logDir)) == ClassOf(hc);
    if EndsWith(ClassOf(hc), "TimedRotatingFileHandler") {
      TimedIsRotating(ClassOf(hc));
    }
  }

  /** On a rotating file handler, integer overrides replace maxBytes and
      backupCount; other entries are those of the moved handler. */
  lemma OverrideRotating(hc: Dict, ov: Overrides)
    requires EndsWith(ClassOf(hc), "RotatingFileHandler")
    ensures var r := OverrideHandler(VDict(hc), ov).entries;
      && (ov.maxBytes != "" && ParseInt(ov.maxBytes).Some? ==> r["maxBytes"] == VInt(ParseInt(ov.maxBytes).value))
      && (ov.backupCount != "" && ParseInt(ov.backupCount).Some? ==> r["backupCount"] == VInt(ParseInt(ov.backupCount).value))
      && forall k :: k in hc && k !in {"maxBytes", "backupCount"} ==> r[k] == Moved(hc, ov.logDir)[k]
  {
    assert ClassOf(Moved(hc, ov.logDir)) == ClassOf(hc);
  }

  /** A value int() refuses leaves the handler's own value in place. */
  lemma OverrideNotInteger(hc: Dict, ov: Overrides)
    requires ParseInt(ov.maxBytes).None? && ParseInt(ov.backupCount).None?
    ensures OverrideHandler(VDict(hc), ov) == VDict(Moved(hc, ov.logDir))
  {
  }

  /** A TimedRotatingFileHandler class name also ends in
      RotatingFileHandler. */
  lemma TimedIsRotating(cls: string)
    requires EndsWith(cls, "TimedRotatingFileHandler")
    ensures EndsWith(cls, "RotatingFileHandler")
  {
    var t := "TimedRotatingFileHandler";
    var r := "RotatingFileHandler";
    assert t[|t| - |r|..] == r;
    assert cls[|cls| - |r|..] == cls[|cls| - |t|..][|t| - |r|..];
  }

  /** The handlers after the overrides: the same names, each overridden. */
  function OverrideAll(handlers: Dict, ov: Overrides): (r: Dict)
    ensures r.Keys == handlers.Keys
  {
    map n | n in handlers :: OverrideHandler(handlers[n], ov)
  }

  /** The configurations the overrides apply to: a `logging` object whose
      root and handlers, when present, are objects. */
  predicate Overridable(raw: Dict) {
    "logging" in raw && raw["logging"].VDict?
    && ("root" in raw["logging"].entries ==> raw["logging"].entries["root"].VDict?)
    && ("handlers" in raw["logging"].entries ==> raw["logging"].entries["handlers"].VDict?)
  }

  function DictAt(d: Dict, key: string): Dict {
    if key in d && d[key].VDict? then d[key].entries else map[]
  }

  /** The root after FRA_LOG_LEVEL: its level is the variable upper-cased
      when it is set to a non-empty value. */
  function OverrideRoot(root: Dict, env: Env): (r: Dict)
    ensures "FRA_LOG_LEVEL" in env && env["FRA_LOG_LEVEL"] != "" ==> r == root["level" := VStr(Upper(Strip(env["FRA_LOG_LEVEL"])))]
    ensures !("FRA_LOG_LEVEL" in env && env["FRA_LOG_LEVEL"] != "") ==> r == root
  {
    var level := Config.Getenv(env, "FRA_LOG_LEVEL", "");
    if level != "" then root["level" := VStr(Upper(Strip(level)))] else root
  }

  /** _apply_env_overrides as a function of the configuration. */
  function Overridden(raw: Dict, env: Env, defaultDir: string, cwd: Api.Path): (r: Dict)
    requires Overridable(raw)
    ensures r.Keys == raw.Keys && forall k :: k in raw && k != "logging" ==> r[k] == raw[k]
    ensures Overridable(r)
  {
    var logging := raw["logging"].entries;
    var root := OverrideRoot(DictAt(logging, "root"), env);
    var handlers := OverrideAll(DictAt(logging, "handlers"), OverridesOf(env, defaultDir, cwd));
    raw["logging" := VDict(logging["root" := VDict(root)]["handlers" := VDict(handlers)])]
  }

  /** The overridden configuration keeps every entry of `logging` except
      root and handlers, keeps the root's other entries, and names the
      same handlers. */
  lemma OverriddenFacts(raw: Dict, env: Env, defaultDir: string, cwd: Api.Path)
    requires Overridable(raw)
    ensures var logging := raw["logging"].entries;
      var r := Overridden(raw, env, defaultDir, cwd)["logging"].entries;
      && r.Keys == logging.Keys + {"root", "handlers"}
      && (forall k :: k in logging && k !in {"root", "handlers"} ==> r[k] == logging[k])
      && r["root"].VDict? && r["handlers"].VDict?
      && r["handlers"].entries.Keys == DictAt(logging, "handlers").Keys
      && (forall k :: k in DictAt(logging, "root") && k != "level" ==> k in r["root"].entries && r["root"].entries[k] == DictAt(logging, "root")[k])
  {
  }

  /** An overridden valid configuration stays valid when FRA_LOG_LEVEL is
      unset or names a known level. */
  lemma OverriddenValid(raw: Dict, env: Env, defaultDir: string, cwd: Api.Path)
    requires Valid(raw) && Overridable(raw)
    requires "FRA_LOG_LEVEL" in env && env["FRA_LOG_LEVEL"] != "" ==> Upper(Strip(env["FRA_LOG_LEVEL"])) in AllowedLevels
    ensures Valid(Overridden(raw, env, defaultDir, cwd))
  {
    var logging := raw["logging"].entries;
    var root := OverrideRoot(DictAt(logging, "root"), env);
    if "FRA_LOG_LEVEL" in env && env["FRA_LOG_LEVEL"] != "" {
      UpperIdempotent(Strip(env["FRA_LOG_LEVEL"]));
      assert Str(VStr(Upper(Strip(env["FRA_LOG_LEVEL"])))) == Upper(Strip(env["FRA_LOG_LEVEL"]));
    }
  }

  /** _apply_env_overrides: a copy of the configuration with the root
      level and every handler overridden; the loop visits the handlers
      one name at a time. */
  method ApplyEnvOverrides(raw: Dict, env: Env, defaultDir: string, cwd: Api.Path) returns (cfg: Dict)
    requires Overridable(raw)
    ensures cfg == Overridden(raw, env, defaultDir, cwd)
  {
    var logging := raw["logging"].entries;
    var root := DictAt(logging, "root");
    var level := Config.Getenv(env, "FRA_LOG_LEVEL", "");
    if level != "" {
      root := root["level" := VStr(Upper(Strip(level)))];
    }
    var logDir := Api.Resolved(cwd, LogDir(env, defaultDir));
    var maxBytes := Config.Getenv(env, "FRA_LOG_MAX_BYTES", "");
    var backupCount := Config.Getenv(env, "FRA_LOG_BACKUP_COUNT", "");
    var out := OverrideHandlers(DictAt(logging, "handlers"), logDir, maxBytes, backupCount);
    cfg := raw["logging" := VDict(logging["root" := VDict(root)]["handlers" := VDict(out)])];
  }

  /** The handler loop: every handler overridden, one name at a time. */
  method OverrideHandlers(handlers: Dict, logDir: Api.Path, maxBytes: string, backupCount: string) returns (out: Dict)
    ensures out == OverrideAll(handlers, Overrides(logDir, maxBytes, backupCount))
  {
    ghost var want := OverrideAll(handlers, Overrides(logDir, maxBytes, backupCount));
    out := handlers;
    var todo := handlers.Keys;
    while todo != {}
      invariant todo <= handlers.Keys && out.Keys == handlers.Keys
      invariant forall n :: n in todo ==> out[n] == handlers[n]
      invariant forall n :: n in handlers && n !in todo ==> out[n] == want[n]
      decreases |todo|
    {
      var n :| n in todo;
      var h := OverrideOne(handlers[n], logDir, maxBytes, backupCount);
      assert h == want[n];
      out := out[n := h];
      todo := todo - {n};
    }
    assert out == want;
  }

  /** The body of the handler loop. */
  method OverrideOne(h: Value, logDir: Api.Path, maxBytes: string, backupCount: string) returns (r: Value)
    ensures r == OverrideHandler(h, Overrides(logDir, maxBytes, backupCount))
  {
    if !h.VDict? {
      return h;
    }
    var moved := MoveFile(h.entries, logDir);
    var cls := ClassOf(moved);
    var sized := SetInt(moved, "maxBytes", maxBytes, EndsWith(cls, "RotatingFileHandler"));
    var hc := SetInt(sized, "backupCount", backupCount,
                     EndsWith(cls, "RotatingFileHandler") || EndsWith(cls, "TimedRotatingFileHandler"));
    r := VDict(hc);
  }

  /** A relative "filename" of a handler moved into the log directory. */
  method MoveFile(hc: Dict, logDir: Api.Path) returns (r: Dict)
    ensures r == Moved(hc, logDir)
  {
    r := hc;
    if "filename" in hc {
      var fn := Str(hc["filename"]);
      if !IsAbsolute(fn) {
        r := hc["filename" := VStr(InLogDir(logDir, fn))];
      }
    }
  }

  /** `h[key] = int(text)` when the override applies; when int() raises,
      the handler keeps its value. */
  method SetInt(hc: Dict, key: string, text: string, applies: bool) returns (r: Dict)
    ensures r == IntOverride(hc, key, text, applies)
  {
    r := hc;
    if text != "" && applies {
      var v := ParseInt(text);
      if v.Some? {
        r := hc[key := VInt(v.value)];
      }
    }
  }

  /** A handler entry of the built-in configuration. */
  function FileHandler(level: string, filename: string, maxBytes: int, backupCount: int): Value {
    VDict(map["class" := VStr("logging.handlers.RotatingFileHandler"), "level" := VStr(level),
               "formatter" := VStr("standard"), "filename" := VStr(filename),
               "maxBytes" := VInt(maxBytes), "backupCount" := VInt(backupCount), "encoding" := VStr("utf-8")])
  }

  function NamedLogger(level: string, handler: string): Value {
    VDict(map["level" := VStr(level), "handlers" := VList([VStr("console"), VStr(handler)]), "propagate" := VBool(false)])
  }

  /** The handlers of the built-in configuration: the console and the
      two rotating files in the log directory. */
  function DefaultHandlers(logDir: Api.Path, level: string, maxBytes: int, backupCount: int): Dict {
    map["console" := VDict(map["class" := VStr("logging.StreamHandler"), "level" := VStr(level),
                               "formatter" := VStr("standard"), "stream" := VStr("ext://sys.stdout")]),
        "app_file" := FileHandler(level, Api.PathText(logDir + ["fra.log"]), maxBytes, backupCount),
        "access_file" := FileHandler(level, Api.PathText(logDir + ["fra-access.log"]), maxBytes, backupCount)]
  }

  /** The body of _default_dict_config once its integers are read, with
      `logDir` the resolved log directory. */
  function DefaultDict(logDir: Api.Path, level: string, maxBytes: int, backupCount: int): (r: Dict)
    ensures "logging" in r && r["logging"].VDict? && Overridable(r)
  {
    map["fra_config_version" := VInt(1), "adapter" := VStr("python"),
        "logging" := VDict(map[
          "version" := VInt(1),
          "disable_existing_loggers" := VBool(false),
          "formatters" := VDict(map["standard" := VDict(map["format" := VStr("%(asctime)s %(levelname)s %(name)s %(message)s")])]),
          "handlers" := VDict(DefaultHandlers(logDir, level, maxBytes, backupCount)),
          "root" := VDict(map["level" := VStr(level), "handlers" := VList([VStr("console"), VStr("app_file")])]),
          "loggers" := VDict(map[
            "uvicorn.error" := NamedLogger(level, "app_file"),
            "uvicorn.access" := NamedLogger(level, "access_file"),
            "fra.job" := NamedLogger(level, "app_file")])])]
  }

  /** _default_dict_config: an error when FRA_LOG_MAX_BYTES or
      FRA_LOG_BACKUP_COUNT is not an integer. The log directory is
      resolved against the working directory `cwd`. */
  function DefaultConfig(env: Env, defaultDir: string, cwd: Api.Path): (r: Result<Dict, string>)
    ensures r.Err? <==> ParseInt(Config.Getenv(env, "FRA_LOG_MAX_BYTES", "10485760")).None?
                        || ParseInt(Config.Getenv(env, "FRA_LOG_BACKUP_COUNT", "10")).None?
    ensures r.Ok? ==> Overridable(r.value)
  {
    var level := Upper(Config.Getenv(env, "FRA_LOG_LEVEL", "INFO"));
    var maxBytes := ParseInt(Config.Getenv(env, "FRA_LOG_MAX_BYTES", "10485760"));
    var backupCount := ParseInt(Config.Getenv(env, "FRA_LOG_BACKUP_COUNT", "10"));
    if maxBytes.None? then Err("invalid literal for int(): FRA_LOG_MAX_BYTES")
    else if backupCount.None? then Err("invalid literal for int(): FRA_LOG_BACKUP_COUNT")
    else Ok(DefaultDict(Api.Resolved(cwd, LogDir(env, defaultDir)), level, maxBytes.value, backupCount.value))
  }

  /** With no logging variables set, the built-in configuration uses
      level INFO, 10485760 bytes and 10 backups. */
  lemma DefaultConfigOfEmptyEnv(defaultDir: string, cwd: Api.Path)
    ensures DefaultConfig(map[], defaultDir, cwd) == Ok(DefaultDict(Api.Resolved(cwd, defaultDir), "INFO", 10485760, 10))
  {
    Config.LiteralCases();
    Config.DefaultIntegers();
  }

  /** The built-in configuration passes validation whenever its level is
      a known one. */
  lemma DefaultDictValid(logDir: Api.Path, level: string, maxBytes: int, backupCount: int)
    requires level in AllowedLevels
    ensures Valid(DefaultDict(logDir, level, maxBytes, backupCount))
  {
    var d := DefaultDict(logDir, level, maxBytes, backupCount);
    var root := d["logging"].entries["root"];
    assert root == VDict(map["level" := VStr(level), "handlers" := VList([VStr("console"), VStr("app_file")])]);
    assert Str(VStr(level)) == level;
    assert level == "DEBUG" || level == "INFO" || level == "WARNING" || level == "ERROR" || level == "CRITICAL";
    UpperFixedLevel(level);
  }

  /** The built-in file handlers write fra.log and fra-access.log directly
      inside the log directory. */
  lemma DefaultDictFiles(logDir: Api.Path, level: string, maxBytes: int, backupCount: int)
    requires Api.Named(logDir)
    ensures var hs := DefaultHandlers(logDir, level, maxBytes, backupCount);
      Api.Parts(Str(hs["app_file"].entries["filename"])) == logDir + ["fra.log"]
      && Api.Parts(Str(hs["access_file"].entries["filename"])) == logDir + ["fra-access.log"]
  {
    var hs := DefaultHandlers(logDir, level, maxBytes, backupCount);
    assert hs["app_file"] == FileHandler(level, Api.PathText(logDir + ["fra.log"]), maxBytes, backupCount);
    assert hs["access_file"] == FileHandler(level, Api.PathText(logDir + ["fra-access.log"]), maxBytes, backupCount);
    assert Api.Named(logDir + ["fra.log"]);
    assert Api.Named(logDir + ["fra-access.log"]);
    Api.PartsOfPathText(logDir + ["fra.log"]);
    Api.PartsOfPathText(logDir + ["fra-access.log"]);
  }

  lemma UpperFixedLevel(level: string)
    requires level in AllowedLevels
    ensures Upper(level) == level
  {
    Config.UpperFixed(level);
  }

  /** _resolve_config_path for a profile (the explicit path is handled by
      ConfigPath): the first of the profile's .json, .yaml, .yml and .toml
      files that exists, else its .json file. */
  function ProfilePath(dir: string, p: string, isFile: string -> bool, exts: seq<string>): (r: string)
    ensures (exists k :: 0 <= k < |exts| && isFile(dir + "/" + p + exts[k])) ==>
      exists k :: 0 <= k < |exts| && r == dir + "/" + p + exts[k] && isFile(r) && forall m :: 0 <= m < k ==> !isFile(dir + "/" + p + exts[m])
    ensures (forall k :: 0 <= k < |exts| ==> !isFile(dir + "/" + p + exts[k])) ==> r == dir + "/" + p + ".json"
  {
    if |exts| == 0 then dir + "/" + p + ".json"
    else if isFile(dir + "/" + p + exts[0]) then dir + "/" + p + exts[0]
    else
      var r := ProfilePath(dir, p, isFile, exts[1..]);
      assert forall k :: 1 <= k < |exts| ==> exts[k] == exts[1..][k - 1];
      assert (exists k :: 0 <= k < |exts| && isFile(dir + "/" + p + exts[k])) ==> exists k :: 0 <= k < |exts[1..]| && isFile(dir + "/" + p + exts[1..][k]);
      r
  }

  const Extensions: seq<string> := [".json", ".yaml", ".yml", ".toml"]

  /** The profile name: the argument, else FRA_LOG_PROFILE, else FRA_ENV,
      else "development", stripped and lower-cased. */
  function ProfileName(profile: Option<string>, env: Env): string {
    var p := if profile.Some? && profile.value != "" then profile.value
             else if Config.Getenv(env, "FRA_LOG_PROFILE", "") != "" then env["FRA_LOG_PROFILE"]
             else if Config.Getenv(env, "FRA_ENV", "") != "" then env["FRA_ENV"]
             else "development";
    Lower(Strip(p))
  }

  /** The explicit path: the argument, else FRA_LOG_CONFIG_PATH. */
  function ExplicitPath(configPath: Option<string>, env: Env): Option<string> {
    if configPath.Some? && configPath.value != "" then configPath
    else if Config.Getenv(env, "FRA_LOG_CONFIG_PATH", "") != "" then Some(env["FRA_LOG_CONFIG_PATH"])
    else None
  }

  function ConfigPath(profile: Option<string>, configPath: Option<string>, env: Env, dir: string, isFile: string -> bool): (r: string)
    ensures ExplicitPath(configPath, env).Some? ==> r == ExplicitPath(configPath, env).value
  {
    match ExplicitPath(configPath, env)
    case Some(path) => path
    case None => ProfilePath(dir, ProfileName(profile, env), isFile, Extensions)
  }

  /** _resolve_config_path, with its loop over the extensions. */
  method ResolveConfigPath(profile: Option<string>, configPath: Option<string>, env: Env, dir: string, isFile: string -> bool)
    returns (path: string)
    ensures path == ConfigPath(profile, configPath, env, dir, isFile)
  {
    var explicit := ExplicitPath(configPath, env);
    if explicit.Some? {
      return explicit.value;
    }
    var p := ProfileName(profile, env);
    var i := 0;
    while i < |Extensions|
      invariant 0 <= i <= |Extensions|
      invariant ProfilePath(dir, p, isFile, Extensions) == ProfilePath(dir, p, isFile, Extensions[i..])
    {
      var candidate := dir + "/" + p + Extensions[i];
      if isFile(candidate) {
        return candidate;
      }
      assert Extensions[i..][1..] == Extensions[i + 1..];
      i := i + 1;
    }
    path := dir + "/" + p + ".json";
  }

  /** The manager init_logging returns: the watched file (when it
      exists) and whether the reload watcher is started. */
  datatype Manager = Manager(configPath: Option<string>, reloadEnabled: bool, watching: bool)

  /** The configuration init_logging applies before its overrides: the
      file's when it exists, loads and validates, else the built-in one. */
  function ChosenConfig(path: string, isFile: string -> bool, parsed: Result<Value, string>, env: Env, defaultDir: string, cwd: Api.Path): (r: Result<Dict, string>)
    ensures r.Ok? ==> Overridable(r.value)
    ensures isFile(path) && LoadConfigFile(path, parsed).Ok? && Valid(LoadConfigFile(path, parsed).value) ==>
      r == LoadConfigFile(path, parsed)
    ensures !(isFile(path) && LoadConfigFile(path, parsed).Ok? && Valid(LoadConfigFile(path, parsed).value)) ==>
      r == DefaultConfig(env, defaultDir, cwd)
  {
    var loaded := if !isFile(path) then DefaultConfig(env, defaultDir, cwd)
                  else match LoadConfigFile(path, parsed)
                       case Ok(raw) => Ok(raw)
                       case Err(_) => DefaultConfig(env, defaultDir, cwd);
    match loaded
    case Err(e) => Err(e)
    case Ok(raw) =>
      if ValidateConfig(raw).None? then Ok(raw) else DefaultConfig(env, defaultDir, cwd)
  }

  /** init_logging, up to dictConfig: the configuration it applies and
      the manager it returns. The only failure is a built-in
      configuration whose integers do not parse. */
  function InitLogging(profile: Option<string>, configPath: Option<string>, env: Env, dir: string, defaultDir: string, cwd: Api.Path,
                       isFile: string -> bool, parsed: Result<Value, string>): (r: Result<(Dict, Manager), string>)
    ensures var path := ConfigPath(profile, configPath, env, dir, isFile);
      r.Err? ==> ChosenConfig(path, isFile, parsed, env, defaultDir, cwd).Err?
    ensures var path := ConfigPath(profile, configPath, env, dir, isFile);
      var chosen := ChosenConfig(path, isFile, parsed, env, defaultDir, cwd);
      chosen.Ok? ==> r.Ok? && r.value.0 == Overridden(chosen.value, env, defaultDir, cwd)
    ensures var path := ConfigPath(profile, configPath, env, dir, isFile);
      r.Ok? ==> (r.value.1.configPath == (if isFile(path) then Some(path) else None)
                 && r.value.1.reloadEnabled == ParseBool(if "FRA_LOG_HOT_RELOAD" in env then Some(env["FRA_LOG_HOT_RELOAD"]) else None, true)
                 && (r.value.1.watching <==> r.value.1.reloadEnabled && isFile(path)))
  {
    var path := ConfigPath(profile, configPath, env, dir, isFile);
    var reload := ParseBool(if "FRA_LOG_HOT_RELOAD" in env then Some(env["FRA_LOG_HOT_RELOAD"]) else None, true);
    match ChosenConfig(path, isFile, parsed, env, defaultDir, cwd)
    case Err(e) => Err(e)
    case Ok(raw) =>
      var mgr := Manager(if isFile(path) then Some(path) else None, reload, reload && isFile(path));
      Ok((Overridden(raw, env, defaultDir, cwd), mgr))
  }

  /** A missing, unparsable or invalid configuration file falls back to
      the built-in configuration, and with the logging variables unset a
      manager is then always returned. */
  lemma InitLoggingFallsBack(profile: Option<string>, configPath: Option<string>, dir: string, defaultDir: string, cwd: Api.Path,
                             isFile: string -> bool, parsed: Result<Value, string>)
    requires var path := ConfigPath(profile, configPath, map[], dir, isFile);
      !(isFile(path) && LoadConfigFile(path, parsed).Ok? && Valid(LoadConfigFile(path, parsed).value))
    ensures InitLogging(profile, configPath, map[], dir, defaultDir, cwd, isFile, parsed).Ok?
    ensures InitLogging(profile, configPath, map[], dir, defaultDir, cwd, isFile, parsed).value.0 ==
      Overridden(DefaultDict(Api.Resolved(cwd, defaultDir), "INFO", 10485760, 10), map[], defaultDir, cwd)
  {
    DefaultConfigOfEmptyEnv(defaultDir, cwd);
  }
}
