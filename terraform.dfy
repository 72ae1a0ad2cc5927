/**
 * utils/terraform.go: finding the terrable module block in a Terraform file
 * and turning its attributes into the configuration the server runs:
 * timeouts, environment variables (with `SSM:` references looked up),
 * handler source paths made absolute, and one handler per entry of the
 * `handlers` object.
 *
 * HCL parsing and expression evaluation are not modelled: a module block
 * arrives with its attributes already evaluated to `Value`s. The SSM
 * lookup and the working directory are parameters.
 */
module Terraform {

  import opened Wrappers
  import opened Strings
  import FilePath

  /** An evaluated cty value, as far as the configuration reader looks at it. */
  datatype Value =
    | Null
    | Str(s: string)
    | Num(n: int)
    | Bool(b: bool)
    | Obj(fields: map<string, Value>)

  /** An attribute of the module block: its value and the evaluation's error diagnostics, if any. */
  datatype Attribute = Attribute(value: Value, diagnostics: Option<string>)

  /** A top-level block of the file: its type, labels and evaluated attributes. */
  datatype Block = Block(kind: string, labels: seq<string>, attributes: map<string, Attribute>)

  /**
   * How reading the configuration fails: with an error value, or by a
   * panic inside cty (AsString on a non-string, AsValueMap on a value that
   * is not an object), which ends the program.
   */
  datatype Error = Failed(message: string) | Panicked

  /** config.HandlerMapping as terraform.go fills it. */
  datatype HandlerConfig = HandlerConfig(
    name: string,
    source: string,
    http: map<string, string>,
    sqs: map<string, Value>,
    env: map<string, string>,
    timeout: int)

  /** config.TerrableConfig as terraform.go fills it. */
  datatype TerrableConfig = TerrableConfig(
    handlers: seq<HandlerConfig>,
    globalEnv: map<string, string>,
    timeout: int)

  /** An SSM parameter lookup: the parameter's value or the error. */
  type Lookup = string -> Result<string, string>

  // ---------------------------------------------------------------- FindTargetModule

  predicate IsTarget(b: Block, name: string) {
    b.kind == "module" && |b.labels| > 0 && b.labels[0] == name
  }

  /** `FindTargetModule`: the first module block labelled `name`. */
  method FindTargetModule(blocks: seq<Block>, name: string) returns (r: Result<Block, string>)
    ensures r.Success? <==> exists i :: 0 <= i < |blocks| && IsTarget(blocks[i], name)
    ensures r.Success? ==>
      exists i :: 0 <= i < |blocks| && blocks[i] == r.value && IsTarget(r.value, name) &&
        forall j :: 0 <= j < i ==> !IsTarget(blocks[j], name)
    ensures r.Failure? ==> r.error == "target module '" + name + "' not found"
  {
    for i := 0 to |blocks|
      invariant forall j :: 0 <= j < i ==> !IsTarget(blocks[j], name)
    {
      var block := blocks[i];
      if block.kind == "module" && |block.labels| > 0 && block.labels[0] == name {
        return Success(block);
      }
    }
    return Failure("target module '" + name + "' not found");
  }

  // ---------------------------------------------------------------- environment variables

  const SsmPrefix := "SSM:"

  /** The value one environment variable `key` ends up with. */
  function ResolveValue(key: string, v: Value, ssm: Lookup): Result<string, Error> {
    if !v.Str? then Failure(Panicked)
    else if HasPrefix(v.s, SsmPrefix) then
      match ssm(v.s[|SsmPrefix|..])
      case Success(value) => Success(value)
      case Failure(e) => Failure(Failed("error fetching SSM parameter for env var " + key + ": " + e))
    else Success(v.s)
  }

  /** Whether `parseEnvironmentVariables` succeeds on `envVars`. */
  predicate EnvOk(envVars: Value, ssm: Lookup) {
    envVars.Null? ||
    (envVars.Obj? && forall k :: k in envVars.fields ==> ResolveValue(k, envVars.fields[k], ssm).Success?)
  }

  /**
   * The errors `parseEnvironmentVariables` may return for `envVars`: map
   * iteration order decides which of the failing variables is reported.
   */
  function EnvErrors(envVars: Value, ssm: Lookup): (errs: set<Error>)
    ensures errs == {} <==> EnvOk(envVars, ssm)
  {
    match envVars
    case Null => {}
    case Obj(fields) =>
      var errs := set k | k in fields && ResolveValue(k, fields[k], ssm).Failure? :: ResolveValue(k, fields[k], ssm).error;
      assert errs == {} <==> EnvOk(envVars, ssm) by {
        if !EnvOk(envVars, ssm) {
          var k :| k in fields && ResolveValue(k, fields[k], ssm).Failure?;
          assert ResolveValue(k, fields[k], ssm).error in errs;
        }
      }
      errs
    case _ => {Panicked}
  }

  /** The variables `parseEnvironmentVariables` returns when it succeeds. */
  function ResolvedEnv(envVars: Value, ssm: Lookup): (env: map<string, string>)
    requires EnvOk(envVars, ssm)
    ensures envVars.Obj? ==> forall k :: k in env <==> k in envVars.fields
    ensures envVars.Null? ==> env == map[]
  {
    if envVars.Obj? then
      map k | k in envVars.fields :: ResolveValue(k, envVars.fields[k], ssm).value
    else map[]
  }

  /** `parseEnvironmentVariables`. */
  method ParseEnvironmentVariables(envVars: Value, ssm: Lookup) returns (r: Result<map<string, string>, Error>)
    ensures r.Success? <==> EnvOk(envVars, ssm)
    ensures r.Success? ==> r.value == ResolvedEnv(envVars, ssm)
    ensures r.Failure? ==> r.error in EnvErrors(envVars, ssm)
  {
    var parsed: map<string, string> := map[];
    if envVars.Null? {
      return Success(parsed);
    }
    if !envVars.Obj? {
      return Failure(Panicked);
    }
    var fields := envVars.fields;
    var todo := fields.Keys;
    while todo != {}
      invariant todo <= fields.Keys
      invariant forall k :: k in parsed <==> k in fields && k !in todo
      invariant forall k :: k in parsed ==> ResolveValue(k, fields[k], ssm) == Success(parsed[k])
      decreases |todo|
    {
      var k :| k in todo;
      var v := fields[k];
      if !v.Str? {
        assert ResolveValue(k, v, ssm).error in EnvErrors(envVars, ssm);
        return Failure(Panicked);
      }
      var value := v.s;
      if HasPrefix(value, SsmPrefix) {
        var fetched := ssm(value[|SsmPrefix|..]);
        if fetched.Failure? {
          assert ResolveValue(k, v, ssm).error in EnvErrors(envVars, ssm);
          return Failure(Failed("error fetching SSM parameter for env var " + k + ": " + fetched.error));
        }
        parsed := parsed[k := fetched.value];
      } else {
        parsed := parsed[k := value];
      }
      todo := todo - {k};
    }
    return Success(parsed);
  }

  /** A null attribute gives no variables. */
  lemma NullEnvEmpty(ssm: Lookup)
    ensures EnvOk(Null, ssm) && ResolvedEnv(Null, ssm) == map[]
  {
  }

  /** Values without the `SSM:` prefix are copied verbatim, and no lookup is made for them. */
  lemma PlainValuesCopied(fields: map<string, Value>, ssm: Lookup)
    requires forall k :: k in fields ==> fields[k].Str? && !HasPrefix(fields[k].s, SsmPrefix)
    ensures EnvOk(Obj(fields), ssm)
    ensures ResolvedEnv(Obj(fields), ssm) == map k | k in fields :: fields[k].s
  {
    assert forall k :: k in fields ==> ResolveValue(k, fields[k], ssm) == Success(fields[k].s);
  }

  /** A value `SSM:<name>` becomes the value of parameter `<name>`. */
  lemma SsmValueLookedUp(fields: map<string, Value>, key: string, parameter: string, ssm: Lookup)
    requires key in fields && fields[key] == Str(SsmPrefix + parameter)
    requires EnvOk(Obj(fields), ssm)
    ensures ssm(parameter).Success?
    ensures ResolvedEnv(Obj(fields), ssm)[key] == ssm(parameter).value
  {
    assert (SsmPrefix + parameter)[|SsmPrefix|..] == parameter;
  }

  /** A failed lookup is an error naming the variable, and parsing fails. */
  lemma SsmFailureReported(fields: map<string, Value>, key: string, parameter: string, ssm: Lookup)
    requires key in fields && fields[key] == Str(SsmPrefix + parameter)
    requires ssm(parameter).Failure?
    ensures Failed("error fetching SSM parameter for env var " + key + ": " + ssm(parameter).error)
      in EnvErrors(Obj(fields), ssm)
  {
    assert (SsmPrefix + parameter)[|SsmPrefix|..] == parameter;
  }

  // ---------------------------------------------------------------- timeouts

  const DefaultTimeout := 3

  /** The error for a module whose `timeout` is not a number. */
  const GlobalTimeoutNotNumber := Failed("global timeout must be a number")

  /** The module's `timeout` attribute, or the default. */
  function GlobalTimeout(attrs: map<string, Attribute>): Result<int, Error> {
    if "timeout" !in attrs then Success(DefaultTimeout)
    else
      var a := attrs["timeout"];
      if a.diagnostics.Some? then Failure(Failed("error parsing global timeout: " + a.diagnostics.value))
      else if a.value.Num? then Success(a.value.n)
      else Failure(GlobalTimeoutNotNumber)
  }

  /** The error for a handler whose `timeout` is not a number. */
  function TimeoutNotNumber(name: string): Error {
    Failed("handler timeout must be a number for handler " + name)
  }

  /** The error for a handler whose source cannot be made absolute. */
  function SourcePathError(name: string, e: string): Error {
    Failed("error getting absolute source path for handler " + name + ": " + e)
  }

  /** A handler's `timeout` field, or the global timeout. */
  function HandlerTimeout(name: string, cfg: map<string, Value>, global: int): Result<int, Error> {
    if "timeout" in cfg && !cfg["timeout"].Null? then
      if cfg["timeout"].Num? then Success(cfg["timeout"].n)
      else Failure(TimeoutNotNumber(name))
    else Success(global)
  }

  /** Without a `timeout` attribute the global timeout is three seconds; a number replaces it. */
  lemma GlobalTimeoutChoice(attrs: map<string, Attribute>)
    ensures "timeout" !in attrs ==> GlobalTimeout(attrs) == Success(3)
    ensures "timeout" in attrs && attrs["timeout"] == Attribute(Num(5), None) ==> GlobalTimeout(attrs) == Success(5)
    ensures "timeout" in attrs && attrs["timeout"].value.Str? ==>
      GlobalTimeout(attrs).Failure? && GlobalTimeout(attrs).error.Failed?
    ensures GlobalTimeout(attrs).Success? <==>
      "timeout" !in attrs || (attrs["timeout"].diagnostics.None? && attrs["timeout"].value.Num?)
  {
  }

  /** A handler inherits the global timeout unless it gives a number of its own. */
  lemma HandlerTimeoutChoice(name: string, cfg: map<string, Value>, global: int)
    ensures "timeout" !in cfg || cfg["timeout"].Null? ==> HandlerTimeout(name, cfg, global) == Success(global)
    ensures "timeout" in cfg && cfg["timeout"].Num? ==> HandlerTimeout(name, cfg, global) == Success(cfg["timeout"].n)
    ensures HandlerTimeout(name, cfg, global).Failure? <==>
      "timeout" in cfg && !cfg["timeout"].Null? && !cfg["timeout"].Num?
  {
  }

  // ---------------------------------------------------------------- source paths

  /**
   * `getAbsoluteHandlerSourcePath`: the source path relative to the
   * directory of the configuration file, made absolute against the working
   * directory `cwd` (which os.Getwd may fail to give).
   */
  function AbsoluteSourcePath(basePath: string, source: string, cwd: Result<string, string>): (r: Result<string, string>)
    ensures FilePath.IsAbs(source) ==> r == Success(source)
    ensures r.Success? && cwd.Success? && FilePath.IsAbs(cwd.value) ==> FilePath.IsAbs(r.value)
    ensures r.Failure? ==> cwd.Failure? && r.error == "error converting relative path to absolute: " + cwd.error
  {
    if FilePath.IsAbs(source) then Success(source)
    else
      var relative := FilePath.Join(FilePath.Dir(basePath), source);
      if !FilePath.IsAbs(relative) && cwd.Failure? then
        Failure("error converting relative path to absolute: " + cwd.error)
      else if FilePath.IsAbs(relative) then Success(relative)
      else Success(FilePath.Abs(relative, cwd.value))
  }

  /**
   * With an absolute configuration path, a relative source file name is
   * found in the configuration file's directory, whatever the working
   * directory.
   */
  lemma SourceBesideConfig(basePath: string, source: string, cwd: Result<string, string>)
    requires FilePath.IsAbs(basePath)
    requires var d := FilePath.Dir(basePath); d == "/" || d[|d| - 1] != '/'
    requires source != "" && '/' !in source
    ensures AbsoluteSourcePath(basePath, source, cwd).Success?
    ensures FilePath.Dir(AbsoluteSourcePath(basePath, source, cwd).value) == FilePath.Dir(basePath)
    ensures FilePath.Base(AbsoluteSourcePath(basePath, source, cwd).value) == source
  {
    var d := FilePath.Dir(basePath);
    assert FilePath.LastSlash(basePath) >= 0;
    assert d[0] == '/';
    FilePath.DirOfJoin(d, source);
  }

  // ---------------------------------------------------------------- handlers

  /**
   * A handler field read with AsValueMap when present and not null: its
   * fields, or None for the panic AsValueMap raises on a non-object. A
   * missing or null field reads as empty.
   */
  function OptionalObject(cfg: map<string, Value>, key: string): Option<map<string, Value>> {
    if key in cfg && !cfg[key].Null? then
      if cfg[key].Obj? then Some(cfg[key].fields) else None
    else Some(map[])
  }

  predicate AllStrings(fields: map<string, Value>) {
    forall k :: k in fields ==> fields[k].Str?
  }

  /** A handler's HTTP routes, method to path; None when a path is not a string. */
  function Routes(cfg: map<string, Value>): Option<map<string, string>> {
    match OptionalObject(cfg, "http")
    case None => None
    case Some(fields) =>
      if AllStrings(fields) then Some(map m | m in fields :: fields[m].s) else None
  }

  /** The copy loop over a handler's `http` object. */
  method CopyRoutes(fields: map<string, Value>) returns (http: Option<map<string, string>>)
    ensures http.Some? <==> AllStrings(fields)
    ensures http.Some? ==> http.value == map m | m in fields :: fields[m].s
  {
    var copied: map<string, string> := map[];
    var todo := fields.Keys;
    while todo != {}
      invariant todo <= fields.Keys
      invariant forall m :: m in copied <==> m in fields && m !in todo
      invariant forall m :: m in copied ==> fields[m] == Str(copied[m])
      decreases |todo|
    {
      var m :| m in todo;
      var path := fields[m];
      if !path.Str? {
        return None;
      }
      copied := copied[m := path.s];
      todo := todo - {m};
    }
    return Some(copied);
  }

  /** The field `environment_variables` when present and not null. */
  function EnvField(cfg: map<string, Value>): Value {
    if "environment_variables" in cfg then cfg["environment_variables"] else Null
  }

  /** Wraps an environment error with the handler's name; a panic stays a panic. */
  function HandlerEnvError(name: string, e: Error): Error {
    match e
    case Failed(m) => Failed("error parsing environment variables for handler " + name + ": " + m)
    case Panicked => Panicked
  }

  /** Whether a handler's routes, queues, timeout and source path read successfully. */
  predicate SettingsOk(name: string, cfg: map<string, Value>, global: int, basePath: string,
                       cwd: Result<string, string>)
  {
    && "source" in cfg && cfg["source"].Str?
    && Routes(cfg).Some?
    && OptionalObject(cfg, "sqs").Some?
    && HandlerTimeout(name, cfg, global).Success?
    && AbsoluteSourcePath(basePath, cfg["source"].s, cwd).Success?
  }

  /** The errors of the stages after the environment, in the order the source runs them. */
  function SettingsErrors(name: string, cfg: map<string, Value>, global: int, basePath: string,
                          cwd: Result<string, string>): (errs: set<Error>)
    requires "source" in cfg && cfg["source"].Str?
    ensures errs == {} <==> SettingsOk(name, cfg, global, basePath, cwd)
  {
    if Routes(cfg).None? then {Panicked}
    else if OptionalObject(cfg, "sqs").None? then {Panicked}
    else if HandlerTimeout(name, cfg, global).Failure? then {HandlerTimeout(name, cfg, global).error}
    else
      match AbsoluteSourcePath(basePath, cfg["source"].s, cwd)
      case Failure(e) => {SourcePathError(name, e)}
      case Success(_) => {}
  }

  /** Whether reading handler `name` succeeds. */
  predicate HandlerOk(name: string, v: Value, global: int, basePath: string,
                      cwd: Result<string, string>, ssm: Lookup)
  {
    && v.Obj? && "source" in v.fields && v.fields["source"].Str?
    && EnvOk(EnvField(v.fields), ssm)
    && SettingsOk(name, v.fields, global, basePath, cwd)
  }

  /**
   * The errors reading handler `name` may end with, stage by stage as the
   * loop body of `ParseModuleConfiguration` runs them: the handler object,
   * its source, its environment, then its routes, queues, timeout and
   * source path.
   */
  function HandlerErrors(name: string, v: Value, global: int, basePath: string,
                         cwd: Result<string, string>, ssm: Lookup): (errs: set<Error>)
    ensures errs == {} <==> HandlerOk(name, v, global, basePath, cwd, ssm)
  {
    if !v.Obj? then {Panicked}
    else
      var cfg := v.fields;
      if "source" !in cfg || !cfg["source"].Str? then {Panicked}
      else if !EnvOk(EnvField(cfg), ssm) then
        var errs := set e | e in EnvErrors(EnvField(cfg), ssm) :: HandlerEnvError(name, e);
        assert errs != {} by {
          var e :| e in EnvErrors(EnvField(cfg), ssm);
          assert HandlerEnvError(name, e) in errs;
        }
        errs
      else SettingsErrors(name, cfg, global, basePath, cwd)
  }

  /** The handler mapping built for handler `name` when it is read successfully. */
  function BuiltHandler(name: string, v: Value, global: int, basePath: string,
                        cwd: Result<string, string>, ssm: Lookup): (h: HandlerConfig)
    requires HandlerOk(name, v, global, basePath, cwd, ssm)
    ensures h.name == name
  {
    var cfg := v.fields;
    HandlerConfig(
      name,
      AbsoluteSourcePath(basePath, cfg["source"].s, cwd).value,
      Routes(cfg).value,
      OptionalObject(cfg, "sqs").value,
      ResolvedEnv(EnvField(cfg), ssm),
      HandlerTimeout(name, cfg, global).value)
  }

  /**
   * A handler without `http` or `sqs` (or with them null) gets no routes or
   * no queues; one without environment variables gets none; its source is
   * kept as given when absolute.
   */
  lemma BuiltHandlerDefaults(name: string, v: Value, global: int, basePath: string,
                             cwd: Result<string, string>, ssm: Lookup)
    requires HandlerOk(name, v, global, basePath, cwd, ssm)
    ensures var h := BuiltHandler(name, v, global, basePath, cwd, ssm);
      && ("http" !in v.fields || v.fields["http"].Null? ==> h.http == map[])
      && ("sqs" !in v.fields || v.fields["sqs"].Null? ==> h.sqs == map[])
      && ("environment_variables" !in v.fields || v.fields["environment_variables"].Null? ==> h.env == map[])
      && (FilePath.IsAbs(v.fields["source"].s) ==> h.source == v.fields["source"].s)
  {
  }

  /**
   * The rest of the loop body of `ParseModuleConfiguration` once the
   * environment is read: the routes, the queues, the timeout and the
   * absolute source path, each checked in turn.
   */
  method ReadSettings(name: string, cfg: map<string, Value>, global: int, basePath: string,
                      cwd: Result<string, string>, env: map<string, string>) returns (r: Result<HandlerConfig, Error>)
    requires "source" in cfg && cfg["source"].Str?
    ensures r.Success? <==> SettingsOk(name, cfg, global, basePath, cwd)
    ensures r.Success? ==> r.value == HandlerConfig(
      name,
      AbsoluteSourcePath(basePath, cfg["source"].s, cwd).value,
      Routes(cfg).value,
      OptionalObject(cfg, "sqs").value,
      env,
      HandlerTimeout(name, cfg, global).value)
    ensures r.Failure? ==> r.error in SettingsErrors(name, cfg, global, basePath, cwd)
  {
    var http: map<string, string> := map[];
    if "http" in cfg && !cfg["http"].Null? {
      if !cfg["http"].Obj? {
        assert Routes(cfg).None?;
        return Failure(Panicked);
      }
      var copied := CopyRoutes(cfg["http"].fields);
      if copied.None? {
        assert Routes(cfg).None?;
        return Failure(Panicked);
      }
      http := copied.value;
    }
    assert Routes(cfg) == Some(http);

    var sqs: map<string, Value> := map[];
    if "sqs" in cfg && !cfg["sqs"].Null? {
      if !cfg["sqs"].Obj? {
        assert OptionalObject(cfg, "sqs").None?;
        return Failure(Panicked);
      }
      sqs := cfg["sqs"].fields;
    }
    assert OptionalObject(cfg, "sqs") == Some(sqs);

    var timeout := global;
    if "timeout" in cfg && !cfg["timeout"].Null? {
      if cfg["timeout"].Num? {
        timeout := cfg["timeout"].n;
      } else {
        assert HandlerTimeout(name, cfg, global).Failure?;
        return Failure(TimeoutNotNumber(name));
      }
    }
    assert HandlerTimeout(name, cfg, global) == Success(timeout);

    var path := AbsoluteSourcePath(basePath, cfg["source"].s, cwd);
    if path.Failure? {
      return Failure(SourcePathError(name, path.error));
    }
    return Success(HandlerConfig(name, path.value, http, sqs, env, timeout));
  }

  /** The loop body of `ParseModuleConfiguration`: reading one handler. */
  method ParseHandler(name: string, v: Value, global: int, basePath: string,
                      cwd: Result<string, string>, ssm: Lookup) returns (r: Result<HandlerConfig, Error>)
    ensures r.Success? <==> HandlerOk(name, v, global, basePath, cwd, ssm)
    ensures r.Success? ==> r.value == BuiltHandler(name, v, global, basePath, cwd, ssm)
    ensures r.Failure? ==> r.error in HandlerErrors(name, v, global, basePath, cwd, ssm)
  {
    if !v.Obj? {
      return Failure(Panicked);
    }
    var cfg := v.fields;
    if "source" !in cfg || !cfg["source"].Str? {
      return Failure(Panicked);
    }

    var env: map<string, string> := map[];
    if "environment_variables" in cfg && !cfg["environment_variables"].Null? {
      var parsed := ParseEnvironmentVariables(cfg["environment_variables"], ssm);
      if parsed.Failure? {
        assert EnvField(cfg) == cfg["environment_variables"];
        assert HandlerEnvError(name, parsed.error) in set e | e in EnvErrors(EnvField(cfg), ssm) :: HandlerEnvError(name, e);
        return Failure(HandlerEnvError(name, parsed.error));
      }
      env := parsed.value;
    }
    assert EnvOk(EnvField(cfg), ssm) && env == ResolvedEnv(EnvField(cfg), ssm);
    r := ReadSettings(name, cfg, global, basePath, cwd, env);
  }

  // ---------------------------------------------------------------- ParseModuleConfiguration

  /** Wraps an error of the global environment; a panic stays a panic. */
  function GlobalEnvError(e: Error): Error {
    match e
    case Failed(m) => Failed("error parsing global environment variables: " + m)
    case Panicked => Panicked
  }

  /** The module's `global_environment_variables` attribute, or null when absent. */
  function GlobalEnvValue(attrs: map<string, Attribute>): Value {
    if "global_environment_variables" in attrs then attrs["global_environment_variables"].value else Null
  }

  /** Whether the module's `handlers` attribute, when present, is an object whose handlers all read successfully. */
  predicate HandlersOk(attrs: map<string, Attribute>, global: int, basePath: string,
                       cwd: Result<string, string>, ssm: Lookup)
  {
    "handlers" in attrs ==>
      && attrs["handlers"].value.Obj?
      && var handlers := attrs["handlers"].value.fields;
        forall n :: n in handlers ==> HandlerOk(n, handlers[n], global, basePath, cwd, ssm)
  }

  /** Whether `ParseModuleConfiguration` succeeds. */
  predicate ModuleOk(basePath: string, attrs: map<string, Attribute>, cwd: Result<string, string>, ssm: Lookup) {
    && EnvOk(GlobalEnvValue(attrs), ssm)
    && GlobalTimeout(attrs).Success?
    && HandlersOk(attrs, GlobalTimeout(attrs).value, basePath, cwd, ssm)
  }

  /** The errors of the handlers: map iteration order decides which failing handler is reported. */
  function HandlersErrors(handlers: map<string, Value>, global: int, basePath: string,
                          cwd: Result<string, string>, ssm: Lookup): (errs: set<Error>)
    ensures errs == {} <==> forall n :: n in handlers ==> HandlerOk(n, handlers[n], global, basePath, cwd, ssm)
  {
    var errs := set n, e | n in handlers && e in HandlerErrors(n, handlers[n], global, basePath, cwd, ssm) :: e;
    assert errs == {} <==> forall n :: n in handlers ==> HandlerOk(n, handlers[n], global, basePath, cwd, ssm) by {
      if exists n :: n in handlers && !HandlerOk(n, handlers[n], global, basePath, cwd, ssm) {
        var n :| n in handlers && !HandlerOk(n, handlers[n], global, basePath, cwd, ssm);
        var e :| e in HandlerErrors(n, handlers[n], global, basePath, cwd, ssm);
        assert e in errs;
      }
    }
    errs
  }

  /** Any failing handler's error may be the one reported. */
  lemma HandlerErrorReported(handlers: map<string, Value>, n: string, e: Error, global: int, basePath: string,
                             cwd: Result<string, string>, ssm: Lookup)
    requires n in handlers && e in HandlerErrors(n, handlers[n], global, basePath, cwd, ssm)
    ensures e in HandlersErrors(handlers, global, basePath, cwd, ssm)
  {
  }

  /**
   * The errors `ParseModuleConfiguration` may return, stage by stage: the
   * global environment, the global timeout, then the handlers.
   */
  function ModuleErrors(basePath: string, attrs: map<string, Attribute>,
                        cwd: Result<string, string>, ssm: Lookup): (errs: set<Error>)
    ensures errs == {} <==> ModuleOk(basePath, attrs, cwd, ssm)
  {
    if !EnvOk(GlobalEnvValue(attrs), ssm) then
      var errs := set e | e in EnvErrors(GlobalEnvValue(attrs), ssm) :: GlobalEnvError(e);
      assert errs != {} by {
        var e :| e in EnvErrors(GlobalEnvValue(attrs), ssm);
        assert GlobalEnvError(e) in errs;
      }
      errs
    else if GlobalTimeout(attrs).Failure? then {GlobalTimeout(attrs).error}
    else if "handlers" !in attrs then {}
    else if !attrs["handlers"].value.Obj? then {Panicked}
    else HandlersErrors(attrs["handlers"].value.fields, GlobalTimeout(attrs).value, basePath, cwd, ssm)
  }

  /**
   * `hs` holds one handler per entry of `handlers`, each built from its
   * entry and carrying its name, in some order.
   */
  ghost predicate OnePerEntry(hs: seq<HandlerConfig>, handlers: map<string, Value>, global: int,
                              basePath: string, cwd: Result<string, string>, ssm: Lookup)
  {
    && (forall i, j :: 0 <= i < j < |hs| ==> hs[i].name != hs[j].name)
    && (forall i :: 0 <= i < |hs| ==> BuiltFromEntry(hs[i], handlers, global, basePath, cwd, ssm))
    && (forall n :: n in handlers ==> exists i :: 0 <= i < |hs| && hs[i].name == n)
  }

  /** `h` is the handler built from the entry of `handlers` named as it is. */
  ghost predicate BuiltFromEntry(h: HandlerConfig, handlers: map<string, Value>, global: int,
                                 basePath: string, cwd: Result<string, string>, ssm: Lookup)
  {
    && h.name in handlers
    && HandlerOk(h.name, handlers[h.name], global, basePath, cwd, ssm)
    && h == BuiltHandler(h.name, handlers[h.name], global, basePath, cwd, ssm)
  }

  /** `ParseModuleConfiguration`, for a module block's evaluated attributes. */
  method ParseModuleConfiguration(basePath: string, block: Block, cwd: Result<string, string>, ssm: Lookup)
    returns (r: Result<TerrableConfig, Error>)
    ensures r.Success? <==> ModuleOk(basePath, block.attributes, cwd, ssm)
    ensures r.Failure? ==> r.error in ModuleErrors(basePath, block.attributes, cwd, ssm)
    ensures r.Success? ==>
      var attrs := block.attributes;
      && ModuleOk(basePath, attrs, cwd, ssm)
      && r.value.timeout == GlobalTimeout(attrs).value
      && r.value.globalEnv == ResolvedEnv(GlobalEnvValue(attrs), ssm)
      && ("handlers" !in attrs ==> r.value.handlers == [])
      && ("handlers" in attrs ==>
            OnePerEntry(r.value.handlers, attrs["handlers"].value.fields, r.value.timeout, basePath, cwd, ssm))
  {
    var attrs := block.attributes;
    var globalEnv: map<string, string> := map[];
    if "global_environment_variables" in attrs {
      var parsed := ParseEnvironmentVariables(attrs["global_environment_variables"].value, ssm);
      if parsed.Failure? {
        assert GlobalEnvError(parsed.error) in ModuleErrors(basePath, attrs, cwd, ssm);
        return Failure(GlobalEnvError(parsed.error));
      }
      globalEnv := parsed.value;
    }

    var timeout := DefaultTimeout;
    if "timeout" in attrs {
      var t := attrs["timeout"];
      if t.diagnostics.Some? {
        return Failure(Failed("error parsing global timeout: " + t.diagnostics.value));
      }
      if t.value.Num? {
        timeout := t.value.n;
      } else {
        return Failure(GlobalTimeoutNotNumber);
      }
    }

    var configured: seq<HandlerConfig> := [];
    if "handlers" in attrs {
      var value := attrs["handlers"].value;
      if !value.Obj? {
        return Failure(Panicked);
      }
      var read := ReadHandlers(value.fields, timeout, basePath, cwd, ssm);
      if read.Failure? {
        return Failure(read.error);
      }
      configured := read.value;
    }
    return Success(TerrableConfig(configured, globalEnv, timeout));
  }

  /**
   * What the handlers loop has established once the names outside `todo`
   * are read: each of them has a handler in `hs` (at index `at[n]`), and
   * every handler in `hs` was built from its own entry, with no name twice.
   */
  ghost predicate HandlersRead(hs: seq<HandlerConfig>, at: map<string, nat>, todo: set<string>,
                               handlers: map<string, Value>, global: int, basePath: string,
                               cwd: Result<string, string>, ssm: Lookup)
  {
    && todo <= handlers.Keys
    && (forall i, j :: 0 <= i < j < |hs| ==> hs[i].name != hs[j].name)
    && (forall i :: 0 <= i < |hs| ==> hs[i].name !in todo && BuiltFromEntry(hs[i], handlers, global, basePath, cwd, ssm))
    && (forall n :: n in handlers && n !in todo ==> n in at && at[n] < |hs| && hs[at[n]].name == n)
  }

  /** Reading one more handler keeps `HandlersRead`. */
  lemma HandlerRead(hs: seq<HandlerConfig>, at: map<string, nat>, todo: set<string>, name: string, h: HandlerConfig,
                    handlers: map<string, Value>, global: int, basePath: string,
                    cwd: Result<string, string>, ssm: Lookup)
    requires HandlersRead(hs, at, todo, handlers, global, basePath, cwd, ssm)
    requires name in todo && h.name == name && BuiltFromEntry(h, handlers, global, basePath, cwd, ssm)
    ensures HandlersRead(hs + [h], at[name := |hs|], todo - {name}, handlers, global, basePath, cwd, ssm)
  {
  }

  /** With every name read, `HandlersRead` gives one handler per entry. */
  lemma AllHandlersRead(hs: seq<HandlerConfig>, at: map<string, nat>,
                        handlers: map<string, Value>, global: int, basePath: string,
                        cwd: Result<string, string>, ssm: Lookup)
    requires HandlersRead(hs, at, {}, handlers, global, basePath, cwd, ssm)
    ensures OnePerEntry(hs, handlers, global, basePath, cwd, ssm)
    ensures forall n :: n in handlers ==> HandlerOk(n, handlers[n], global, basePath, cwd, ssm)
  {
    forall n | n in handlers
      ensures HandlerOk(n, handlers[n], global, basePath, cwd, ssm)
      ensures exists i :: 0 <= i < |hs| && hs[i].name == n
    {
      assert BuiltFromEntry(hs[at[n]], handlers, global, basePath, cwd, ssm);
    }
  }

  /** The loop of `ParseModuleConfiguration` over the entries of `handlers`. */
  method ReadHandlers(handlers: map<string, Value>, timeout: int, basePath: string,
                      cwd: Result<string, string>, ssm: Lookup) returns (r: Result<seq<HandlerConfig>, Error>)
    ensures r.Success? <==> forall n :: n in handlers ==> HandlerOk(n, handlers[n], timeout, basePath, cwd, ssm)
    ensures r.Success? ==> OnePerEntry(r.value, handlers, timeout, basePath, cwd, ssm)
    ensures r.Failure? ==> r.error in HandlersErrors(handlers, timeout, basePath, cwd, ssm)
  {
    var configured: seq<HandlerConfig> := [];
    var todo := handlers.Keys;
    ghost var at: map<string, nat> := map[];
    while todo != {}
      invariant HandlersRead(configured, at, todo, handlers, timeout, basePath, cwd, ssm)
      decreases |todo|
    {
      var name :| name in todo;
      var h := ParseHandler(name, handlers[name], timeout, basePath, cwd, ssm);
      if h.Failure? {
        HandlerErrorReported(handlers, name, h.error, timeout, basePath, cwd, ssm);
        return Failure(h.error);
      }
      HandlerRead(configured, at, todo, name, h.value, handlers, timeout, basePath, cwd, ssm);
      at := at[name := |configured|];
      configured := configured + [h.value];
      todo := todo - {name};
    }
    AllHandlersRead(configured, at, handlers, timeout, basePath, cwd, ssm);
    return Success(configured);
  }

  // ---------------------------------------------------------------- the timeout table

  /** The handler of the timeout table: `source = "./test.ts"`, one GET route and, if given, its own timeout. */
  function TableHandler(timeout: Option<int>): Value {
    var fields := map["source" := Str("./test.ts"), "http" := Obj(map["GET" := Str("/test")])];
    match timeout
    case None => Obj(fields)
    case Some(t) => Obj(fields["timeout" := Num(t)])
  }

  /** A module holding that handler and the attributes `extra`. */
  function TableModule(extra: map<string, Attribute>, handler: Value): map<string, Attribute> {
    extra["handlers" := Attribute(Obj(map["TestHandler" := handler]), None)]
  }

  /** The table's handler reads successfully, with its own timeout if it has one and `global` otherwise. */
  lemma TableHandlerReads(timeout: Option<int>, global: int, cwd: string, ssm: Lookup)
    ensures var h := TableHandler(timeout);
      && HandlerOk("TestHandler", h, global, "test.tf", Success(cwd), ssm)
      && BuiltHandler("TestHandler", h, global, "test.tf", Success(cwd), ssm).timeout ==
           if timeout.Some? then timeout.value else global
  {
    var h := TableHandler(timeout);
    var cfg := h.fields;
    assert cfg["source"] == Str("./test.ts") && cfg["http"] == Obj(map["GET" := Str("/test")]);
    assert "environment_variables" !in cfg && "sqs" !in cfg;
    assert EnvField(cfg) == Null;
    assert Routes(cfg).Some?;
    assert HandlerTimeout("TestHandler", cfg, global) == Success(if timeout.Some? then timeout.value else global);
  }

  /** A module whose only handler is the table's reads successfully when its own timeout is a number. */
  lemma TableModuleReads(extra: map<string, Attribute>, handler: Value, cwd: string, ssm: Lookup)
    requires extra == map[] || extra == map["timeout" := Attribute(Num(5), None)]
    requires GlobalTimeout(TableModule(extra, handler)).Success?
    requires HandlerOk("TestHandler", handler, GlobalTimeout(TableModule(extra, handler)).value, "test.tf", Success(cwd), ssm)
    ensures ModuleOk("test.tf", TableModule(extra, handler), Success(cwd), ssm)
  {
    var attrs := TableModule(extra, handler);
    assert "global_environment_variables" !in attrs;
    assert GlobalEnvValue(attrs) == Null;
    assert attrs["handlers"].value == Obj(map["TestHandler" := handler]);
  }

  /** No timeout anywhere: 3 seconds for the module and for the handler. */
  lemma TimeoutDefault(cwd: string, ssm: Lookup)
    ensures var attrs := TableModule(map[], TableHandler(None));
      && ModuleOk("test.tf", attrs, Success(cwd), ssm)
      && GlobalTimeout(attrs) == Success(DefaultTimeout)
      && BuiltHandler("TestHandler", TableHandler(None), DefaultTimeout, "test.tf", Success(cwd), ssm).timeout == DefaultTimeout
  {
    var plain := TableHandler(None);
    assert GlobalTimeout(TableModule(map[], plain)) == Success(DefaultTimeout);
    TableHandlerReads(None, DefaultTimeout, cwd, ssm);
    TableModuleReads(map[], plain, cwd, ssm);
  }

  /** A module `timeout = 5` gives 5 to the module and to the handler. */
  lemma TimeoutFromModule(cwd: string, ssm: Lookup)
    ensures var attrs := TableModule(map["timeout" := Attribute(Num(5), None)], TableHandler(None));
      && ModuleOk("test.tf", attrs, Success(cwd), ssm)
      && GlobalTimeout(attrs) == Success(5)
      && BuiltHandler("TestHandler", TableHandler(None), 5, "test.tf", Success(cwd), ssm).timeout == 5
  {
    var five := map["timeout" := Attribute(Num(5), None)];
    var plain := TableHandler(None);
    assert GlobalTimeout(TableModule(five, plain)) == Success(5);
    TableHandlerReads(None, 5, cwd, ssm);
    TableModuleReads(five, plain, cwd, ssm);
  }

  /** A handler's `timeout = 10` overrides the module's 5. */
  lemma TimeoutHandlerOverrides(cwd: string, ssm: Lookup)
    ensures var h := TableHandler(Some(10));
      var attrs := TableModule(map["timeout" := Attribute(Num(5), None)], h);
      && ModuleOk("test.tf", attrs, Success(cwd), ssm)
      && GlobalTimeout(attrs) == Success(5)
      && BuiltHandler("TestHandler", h, 5, "test.tf", Success(cwd), ssm).timeout == 10
  {
    var five := map["timeout" := Attribute(Num(5), None)];
    var own := TableHandler(Some(10));
    assert GlobalTimeout(TableModule(five, own)) == Success(5);
    TableHandlerReads(Some(10), 5, cwd, ssm);
    TableModuleReads(five, own, cwd, ssm);
  }

  /** A module `timeout = "invalid"` is rejected. */
  lemma TimeoutInvalid(cwd: string, ssm: Lookup)
    ensures var attrs := TableModule(map["timeout" := Attribute(Str("invalid"), None)], TableHandler(None));
      && !ModuleOk("test.tf", attrs, Success(cwd), ssm)
      && ModuleErrors("test.tf", attrs, Success(cwd), ssm) == {GlobalTimeoutNotNumber}
  {
    var invalid := TableModule(map["timeout" := Attribute(Str("invalid"), None)], TableHandler(None));
    assert "global_environment_variables" !in invalid;
    assert GlobalEnvValue(invalid) == Null;
    assert GlobalTimeout(invalid) == Failure(GlobalTimeoutNotNumber);
  }
}
