/** Application settings: the environment first, then a YAML overlay, then built-in
    defaults (app/core/config.py). The environment is a map from variable names to their
    text; the YAML document is the mapping already loaded from the file CONFIG_YAML names,
    the empty mapping when there is none. */
module Config {
  import opened Wrappers
  import opened Text
  import opened Json

  type Env = map<string, string>

  /** `os.getenv(name)` is neither None nor "": the variable takes precedence. */
  predicate EnvSet(env: Env, name: string) {
    name in env && env[name] != ""
  }

  /** `os.getenv(name) or fallback` */
  function EnvOr(env: Env, name: string, fallback: string): string {
    if EnvSet(env, name) then env[name] else fallback
  }

  // ---------------------------------------------------------------- _get_int

  /** _get_int: the variable's value as an int, or the default when it is unset, empty
      or not an integer literal. */
  function GetInt(env: Env, name: string, default: int): int {
    if !EnvSet(env, name) then default
    else
      match ParsePyInt(env[name])
      case Some(v) => v
      case None => default
  }

  /** The default comes back exactly when no integer can be read from the variable. */
  lemma GetIntDefault(env: Env, name: string, default: int)
    ensures !EnvSet(env, name) || ParsePyInt(env[name]).None? ==> GetInt(env, name, default) == default
    ensures EnvSet(env, name) && ParsePyInt(env[name]).Some? ==> GetInt(env, name, default) == ParsePyInt(env[name]).value
  {
  }

  /** Writing a number into the environment reads it back, whatever the default. */
  lemma GetIntRoundTrip(env: Env, name: string, n: int, default: int)
    ensures GetInt(env[name := IntToString(n)], name, default) == n
  {
    var s := IntToString(n);
    ParsePyIntOfIntToString(n);
    assert s != "" by {
      assert |NatToString(if n < 0 then -n else n)| > 0;
    }
    var e := env[name := s];
    assert EnvSet(e, name) && e[name] == s;
  }

  // ---------------------------------------------------------------- _dot_get

  /** The value reached from `cur` by following `keys` through nested mappings; None as
      soon as a key is missing or the current value is not a mapping. */
  function Walk(cur: Value, keys: seq<string>): Option<Value>
    decreases |keys|
  {
    if |keys| == 0 then Some(cur)
    else if !cur.Obj? || keys[0] !in cur.fields then None
    else Walk(cur.fields[keys[0]], keys[1..])
  }

  /** _dot_get: the nested value at a dot-separated path, Null when the path is missing. */
  function DotGetSpec(d: map<string, Value>, path: string): Value {
    match Walk(Obj(d), Split(path, '.'))
    case Some(v) => v
    case None => Null
  }

  method DotGet(d: map<string, Value>, path: string) returns (r: Value)
    ensures r == DotGetSpec(d, path)
  {
    var keys := Split(path, '.');
    var cur := Obj(d);
    var i := 0;
    while i < |keys|
      invariant 0 <= i <= |keys|
      invariant Walk(Obj(d), keys) == Walk(cur, keys[i..])
    {
      assert keys[i..][0] == keys[i] && keys[i..][1..] == keys[i + 1..];
      if !cur.Obj? || keys[i] !in cur.fields {
        return Null;
      }
      cur := cur.fields[keys[i]];
      i := i + 1;
    }
    return cur;
  }

  /** Following a path is following its first part, then the rest from there. */
  lemma {:induction false} WalkConcat(cur: Value, a: seq<string>, b: seq<string>)
    ensures Walk(cur, a + b) == match Walk(cur, a) { case None => None case Some(w) => Walk(w, b) }
    decreases |a|
  {
    if |a| == 0 {
      assert a + b == b;
    } else {
      assert (a + b)[0] == a[0] && (a + b)[1..] == a[1..] + b;
      if cur.Obj? && a[0] in cur.fields {
        WalkConcat(cur.fields[a[0]], a[1..], b);
      }
    }
  }

  /** The nesting of mappings that puts `x` at the end of `keys`. */
  function Nest(keys: seq<string>, x: Value): Value
    decreases |keys|
  {
    if |keys| == 0 then x else Obj(map[keys[0] := Nest(keys[1..], x)])
  }

  lemma {:induction false} WalkNest(keys: seq<string>, x: Value)
    ensures Walk(Nest(keys, x), keys) == Some(x)
    decreases |keys|
  {
    if |keys| > 0 {
      WalkNest(keys[1..], x);
    }
  }

  /** The YAML document holding `x` under `path`, written as nested mappings. */
  function Document(path: string, x: Value): map<string, Value> {
    var keys := Split(path, '.');
    map[keys[0] := Nest(keys[1..], x)]
  }

  /** _dot_get finds a value where the nested mappings put it. */
  lemma DotGetDocument(path: string, x: Value)
    ensures DotGetSpec(Document(path, x), path) == x
  {
    var keys := Split(path, '.');
    WalkNest(keys, x);
    assert Obj(Document(path, x)) == Nest(keys, x);
  }

  /** Once a prefix of the path is missing, so is every longer path. */
  lemma WalkMissingPrefix(cur: Value, a: seq<string>, b: seq<string>)
    requires Walk(cur, a).None?
    ensures Walk(cur, a + b).None?
  {
    WalkConcat(cur, a, b);
  }

  // ---------------------------------------------------------------- _yget_str, _yget_int

  /** _yget_str: a string as it is, an int or a bool as str() writes it, anything else
      (including a missing path) the default. */
  function YGetStr(yml: map<string, Value>, path: string, default: string): string {
    var v := DotGetSpec(yml, path);
    if v.Null? then default
    else if v.Str? then v.s
    else if v.Int? || v.Bool? then ScalarText(v)
    else default
  }

  lemma YGetStrMeaning(yml: map<string, Value>, path: string, default: string)
    ensures var v := DotGetSpec(yml, path);
      && (!IsScalar(v) ==> YGetStr(yml, path, default) == default)
      && (v.Str? ==> YGetStr(yml, path, default) == v.s)
      && (v.Int? ==> ParsePyInt(YGetStr(yml, path, default)) == Some(v.i))
      && (v.Bool? ==> YGetStr(yml, path, default) == (if v.b then "True" else "False"))
  {
    var v := DotGetSpec(yml, path);
    if v.Int? {
      ParsePyIntOfIntToString(v.i);
    }
  }

  /** _yget_int: an int as it is (a bool is an int), a string when int() accepts it,
      anything else the default. */
  function YGetInt(yml: map<string, Value>, path: string, default: int): int {
    var v := DotGetSpec(yml, path);
    if IsPyInt(v) then PyIntValue(v)
    else if v.Str? then
      match ParsePyInt(v.s)
      case Some(n) => n
      case None => default
    else default
  }

  /** A number written in the YAML file as a number or as its decimal text reads the same. */
  lemma YGetIntTextOrNumber(path: string, n: int, default: int)
    ensures YGetInt(Document(path, Int(n)), path, default) == n
    ensures YGetInt(Document(path, Str(IntToString(n))), path, default) == n
  {
    DotGetDocument(path, Int(n));
    DotGetDocument(path, Str(IntToString(n)));
    ParsePyIntOfIntToString(n);
  }

  /** A path the document does not have gives the default for either getter. */
  lemma YGetMissing(yml: map<string, Value>, path: string, ds: string, di: int)
    requires Walk(Obj(yml), Split(path, '.')).None?
    ensures YGetStr(yml, path, ds) == ds && YGetInt(yml, path, di) == di
  {
  }

  // ---------------------------------------------------------------- load_config

  datatype AppConfig = AppConfig(
    telegramToken: string,
    allowedChatId: int,
    comfyBaseUrl: string,
    comfyApiKey: Option<string>,
    workdir: string,
    stateDir: string,
    placeholderPath: string,
    limitsMaxWorkers: int,
    limitsPerTopic: int,
    limitsPerUserPending: int,
    timeoutWs: int,
    timeoutRun: int,
    locale: string,
    localesDir: string,
    configYamlPath: Option<string>)

  const Locales: set<string> := {"ru", "en", "zh"}

  /** The locale, stripped and lower-cased; anything but ru, en and zh becomes en. */
  function NormalizeLocale(raw: string): string {
    var l := Lower(Strip(raw));
    if l in Locales then l else "en"
  }

  lemma NormalizeLocaleMeaning(raw: string)
    ensures NormalizeLocale(raw) in Locales
    ensures Lower(Strip(raw)) in Locales ==> NormalizeLocale(raw) == Lower(Strip(raw))
    ensures NormalizeLocale(NormalizeLocale(raw)) == NormalizeLocale(raw)
  {
    LocaleFixed(NormalizeLocale(raw));
  }

  /** The three accepted locales are already stripped and lower-case. */
  lemma LocaleFixed(l: string)
    requires l in Locales
    ensures Lower(Strip(l)) == l
  {
    assert NoSpaceEnds(l);
    StripNoSpaceEnds(l);
    assert forall i :: 0 <= i < |l| ==> LowerChar(l[i]) == l[i];
  }

  /** What the YAML document gives each setting, defaults included. */
  datatype YamlSettings = YamlSettings(
    token: string, chatId: int, baseUrl: string, apiKey: string,
    workdir: string, stateDir: string, placeholderPath: string,
    maxWorkers: int, perTopic: int, perUserPending: int, timeoutWs: int, timeoutRun: int,
    locale: string, localesDir: string)

  function FromYaml(yml: map<string, Value>): YamlSettings {
    YamlSettings(
      YGetStr(yml, "telegram.token", ""),
      YGetInt(yml, "telegram.allowed_chat_id", 0),
      YGetStr(yml, "comfy.base_url", ""),
      YGetStr(yml, "comfy.api_key", ""),
      YGetStr(yml, "paths.workdir", "data/topics"),
      YGetStr(yml, "paths.state_dir", "state"),
      YGetStr(yml, "paths.placeholder_path", "assets/placeholder.png"),
      YGetInt(yml, "limits.max_workers", 2),
      YGetInt(yml, "limits.per_topic", 1),
      YGetInt(yml, "limits.per_user_pending", 3),
      YGetInt(yml, "timeouts.ws", 120),
      YGetInt(yml, "timeouts.run", 300),
      YGetStr(yml, "i18n.locale", "en"),
      YGetStr(yml, "i18n.dir", "locales"))
  }

  /** A chat id in the environment that int() rejects becomes 0, not the YAML value. */
  function ChatId(env: Env, fallback: int): int {
    if EnvSet(env, "ALLOWED_CHAT_ID") then ParsePyInt(env["ALLOWED_CHAT_ID"]).GetOr(0) else fallback
  }

  /** An empty api key is no api key. */
  function ApiKey(k: string): Option<string> {
    if k != "" then Some(k) else None
  }

  /** CONFIG_YAML, stripped; None when empty. */
  function ConfigYamlPath(env: Env): Option<string> {
    var p := Strip(EnvOr(env, "CONFIG_YAML", ""));
    if p != "" then Some(p) else None
  }

  /** Every setting, the environment first, before the required ones are checked. */
  function Combine(env: Env, y: YamlSettings): AppConfig {
    AppConfig(
      EnvOr(env, "TELEGRAM_TOKEN", y.token),
      ChatId(env, y.chatId),
      EnvOr(env, "COMFY_BASE_URL", y.baseUrl),
      ApiKey(EnvOr(env, "COMFY_API_KEY", y.apiKey)),
      EnvOr(env, "WORKDIR", y.workdir),
      EnvOr(env, "STATE_DIR", y.stateDir),
      EnvOr(env, "PLACEHOLDER_PATH", y.placeholderPath),
      GetInt(env, "LIMITS_MAX_WORKERS", y.maxWorkers),
      GetInt(env, "LIMITS_PER_TOPIC", y.perTopic),
      GetInt(env, "LIMITS_PER_USER_PENDING", y.perUserPending),
      GetInt(env, "TIMEOUT_WS", y.timeoutWs),
      GetInt(env, "TIMEOUT_RUN", y.timeoutRun),
      NormalizeLocale(EnvOr(env, "LOCALE", y.locale)),
      EnvOr(env, "LOCALES_DIR", y.localesDir),
      ConfigYamlPath(env))
  }

  /** The RuntimeErrors load_config raises, one per required setting. */
  datatype ConfigError = TokenRequired | ChatIdRequired | BaseUrlRequired

  function ErrorText(e: ConfigError): string {
    match e
    case TokenRequired => "TELEGRAM_TOKEN is required"
    case ChatIdRequired => "ALLOWED_CHAT_ID is required"
    case BaseUrlRequired => "COMFY_BASE_URL is required"
  }

  /** The error for the first required setting that is missing. */
  function Validate(c: AppConfig): Result<AppConfig, ConfigError> {
    if c.telegramToken == "" then Failure(TokenRequired)
    else if c.allowedChatId == 0 then Failure(ChatIdRequired)
    else if c.comfyBaseUrl == "" then Failure(BaseUrlRequired)
    else Success(c)
  }

  /** load_config over the environment and the loaded YAML document. */
  function LoadConfig(env: Env, yml: map<string, Value>): Result<AppConfig, ConfigError> {
    Validate(Combine(env, FromYaml(yml)))
  }

  /** The three required settings are checked in order; a loaded config has all three,
      a supported locale and no empty api key. */
  lemma LoadConfigMeaning(env: Env, yml: map<string, Value>)
    ensures var r := LoadConfig(env, yml);
      var c := Combine(env, FromYaml(yml));
      && (r == Failure(TokenRequired) <==> c.telegramToken == "")
      && (r == Failure(ChatIdRequired) <==> c.telegramToken != "" && c.allowedChatId == 0)
      && (r == Failure(BaseUrlRequired) <==> c.telegramToken != "" && c.allowedChatId != 0 && c.comfyBaseUrl == "")
      && (r.Success? ==> (r.value == c && c.telegramToken != "" && c.allowedChatId != 0 && c.comfyBaseUrl != ""
                          && c.locale in Locales && c.comfyApiKey != Some("")))
  {
    var y := FromYaml(yml);
    NormalizeLocaleMeaning(EnvOr(env, "LOCALE", y.locale));
  }

  /** Each required setting comes from the environment when it is set there, from the
      YAML file otherwise. */
  lemma RequiredSources(env: Env, yml: map<string, Value>)
    ensures var c := Combine(env, FromYaml(yml));
      && c.telegramToken == (if EnvSet(env, "TELEGRAM_TOKEN") then env["TELEGRAM_TOKEN"] else YGetStr(yml, "telegram.token", ""))
      && c.allowedChatId == (if EnvSet(env, "ALLOWED_CHAT_ID") then ParsePyInt(env["ALLOWED_CHAT_ID"]).GetOr(0)
                             else YGetInt(yml, "telegram.allowed_chat_id", 0))
      && c.comfyBaseUrl == (if EnvSet(env, "COMFY_BASE_URL") then env["COMFY_BASE_URL"] else YGetStr(yml, "comfy.base_url", ""))
  {
  }

  /** A chat id that int() rejects in the environment stops loading, even when the YAML
      file has a good one. */
  lemma BadChatIdInEnvRejected(env: Env, yml: map<string, Value>)
    requires EnvSet(env, "ALLOWED_CHAT_ID") && ParsePyInt(env["ALLOWED_CHAT_ID"]).None?
    requires EnvSet(env, "TELEGRAM_TOKEN")
    ensures LoadConfig(env, yml) == Failure(ChatIdRequired)
  {
  }

  /** Two environments that agree on every variable set to a non-empty value. */
  ghost predicate SameSettings(e1: Env, e2: Env) {
    && (forall k :: EnvSet(e1, k) <==> EnvSet(e2, k))
    && (forall k :: EnvSet(e1, k) ==> e1[k] == e2[k])
  }

  lemma EnvOrRespects(e1: Env, e2: Env, name: string, fallback: string)
    requires SameSettings(e1, e2)
    ensures EnvOr(e1, name, fallback) == EnvOr(e2, name, fallback)
  {
    assert EnvSet(e1, name) <==> EnvSet(e2, name);
  }

  lemma GetIntRespects(e1: Env, e2: Env, name: string, default: int)
    requires SameSettings(e1, e2)
    ensures GetInt(e1, name, default) == GetInt(e2, name, default)
  {
    assert EnvSet(e1, name) <==> EnvSet(e2, name);
  }

  /** An empty variable counts as unset: only the variables with a value matter. */
  lemma LoadConfigRespects(e1: Env, e2: Env, yml: map<string, Value>)
    requires SameSettings(e1, e2)
    ensures LoadConfig(e1, yml) == LoadConfig(e2, yml)
  {
    CombineRespects(e1, e2, FromYaml(yml));
  }

  lemma CombineRespects(e1: Env, e2: Env, y: YamlSettings)
    requires SameSettings(e1, e2)
    ensures Combine(e1, y) == Combine(e2, y)
  {
    EnvOrRespects(e1, e2, "TELEGRAM_TOKEN", y.token);
    assert EnvSet(e1, "ALLOWED_CHAT_ID") <==> EnvSet(e2, "ALLOWED_CHAT_ID");
    EnvOrRespects(e1, e2, "COMFY_BASE_URL", y.baseUrl);
    EnvOrRespects(e1, e2, "COMFY_API_KEY", y.apiKey);
    EnvOrRespects(e1, e2, "WORKDIR", y.workdir);
    EnvOrRespects(e1, e2, "STATE_DIR", y.stateDir);
    EnvOrRespects(e1, e2, "PLACEHOLDER_PATH", y.placeholderPath);
    GetIntRespects(e1, e2, "LIMITS_MAX_WORKERS", y.maxWorkers);
    GetIntRespects(e1, e2, "LIMITS_PER_TOPIC", y.perTopic);
    GetIntRespects(e1, e2, "LIMITS_PER_USER_PENDING", y.perUserPending);
    GetIntRespects(e1, e2, "TIMEOUT_WS", y.timeoutWs);
    GetIntRespects(e1, e2, "TIMEOUT_RUN", y.timeoutRun);
    EnvOrRespects(e1, e2, "LOCALE", y.locale);
    EnvOrRespects(e1, e2, "LOCALES_DIR", y.localesDir);
    EnvOrRespects(e1, e2, "CONFIG_YAML", "");
  }

  /** The variables whose text is taken as it is, and those read as integers. */
  const TextVars: seq<string> := ["TELEGRAM_TOKEN", "COMFY_BASE_URL", "COMFY_API_KEY", "WORKDIR",
                                  "STATE_DIR", "PLACEHOLDER_PATH", "LOCALE", "LOCALES_DIR"]
  const IntVars: seq<string> := ["ALLOWED_CHAT_ID", "LIMITS_MAX_WORKERS", "LIMITS_PER_TOPIC",
                                 "LIMITS_PER_USER_PENDING", "TIMEOUT_WS", "TIMEOUT_RUN"]

  /** Every setting is given in the environment, and every integer one parses. */
  predicate EnvComplete(env: Env) {
    && (forall i :: 0 <= i < |TextVars| ==> EnvSet(env, TextVars[i]))
    && (forall i :: 0 <= i < |IntVars| ==> EnvSet(env, IntVars[i]) && ParsePyInt(env[IntVars[i]]).Some?)
  }

  /** The environment takes precedence: once it sets everything, the YAML file is irrelevant. */
  lemma EnvOverridesYaml(env: Env, y1: map<string, Value>, y2: map<string, Value>)
    requires EnvComplete(env)
    ensures LoadConfig(env, y1) == LoadConfig(env, y2)
  {
    CombineOverrides(env, FromYaml(y1), FromYaml(y2));
  }

  lemma CombineOverrides(env: Env, y1: YamlSettings, y2: YamlSettings)
    requires EnvComplete(env)
    ensures Combine(env, y1) == Combine(env, y2)
  {
    assert EnvSet(env, TextVars[0]) && EnvSet(env, TextVars[1]) && EnvSet(env, TextVars[2]) && EnvSet(env, TextVars[3]);
    assert EnvSet(env, TextVars[4]) && EnvSet(env, TextVars[5]) && EnvSet(env, TextVars[6]) && EnvSet(env, TextVars[7]);
    assert EnvSet(env, IntVars[0]);
    GetIntOverrides(env, IntVars[1], y1.maxWorkers, y2.maxWorkers);
    GetIntOverrides(env, IntVars[2], y1.perTopic, y2.perTopic);
    GetIntOverrides(env, IntVars[3], y1.perUserPending, y2.perUserPending);
    GetIntOverrides(env, IntVars[4], y1.timeoutWs, y2.timeoutWs);
    GetIntOverrides(env, IntVars[5], y1.timeoutRun, y2.timeoutRun);
  }

  lemma GetIntOverrides(env: Env, name: string, d1: int, d2: int)
    requires EnvSet(env, name) && ParsePyInt(env[name]).Some?
    ensures GetInt(env, name, d1) == GetInt(env, name, d2)
  {
  }
}
