/** The backend configuration (backend/config.py): the write-once settings
    object built from the environment, its constants, and the key masking
    used when keys are logged. */
module Config {
  import opened Common

  // ---------------------------------------------------------------------
  // mask_api_key
  // ---------------------------------------------------------------------

  /** Python's `s[k:]`, where a negative `k` counts from the end and any
      `k` is clamped to the string. */
  function SliceFrom(s: string, k: int): (r: string)
    ensures |r| <= |s|
    ensures r == s[|s| - |r|..]
    ensures k >= 0 ==> |r| == if k <= |s| then |s| - k else 0
    ensures k < 0 ==> |r| == if -k <= |s| then -k else |s|
  {
    if k < 0 then (if |s| + k < 0 then s else s[|s| + k..])
    else if k <= |s| then s[k..]
    else []
  }

  /** `mask_api_key(key, visible_chars=4)`. */
  function MaskApiKey(key: string, visibleChars: int := 4): (r: string)
    ensures key == "" || |key| <= visibleChars ==> r == "***"
    ensures key != "" && |key| > visibleChars ==>
              r == (if StartsWith(key, "sk-") then "sk-" else "") + "..." + SliceFrom(key, -visibleChars)
  {
    if key == [] || |key| <= visibleChars then "***"
    else
      var prefix := if StartsWith(key, "sk-") then key[..3] else "";
      var suffix := SliceFrom(key, -visibleChars);
      prefix + "..." + suffix
  }

  /** With a positive count the masked key ends with exactly that many of
      the key's last characters, after the "sk-" prefix when the key has one. */
  lemma MaskShowsLastChars(key: string, visibleChars: int)
    requires 0 < visibleChars < |key|
    ensures MaskApiKey(key, visibleChars) ==
            (if StartsWith(key, "sk-") then "sk-" else "") + "..." + key[|key| - visibleChars..]
    ensures |MaskApiKey(key, visibleChars)| == (if StartsWith(key, "sk-") then 3 else 0) + 3 + visibleChars
  {
    assert SliceFrom(key, -visibleChars) == key[|key| - visibleChars..];
  }

  /** `key[-0:]` is the whole key: a zero count reveals everything. */
  lemma MaskWithZeroRevealsKey(key: string)
    requires key != ""
    ensures MaskApiKey(key, 0) == (if StartsWith(key, "sk-") then "sk-" else "") + "..." + key
  {
    assert SliceFrom(key, 0) == key[0..] == key;
  }

  /** The default masking of a typical key. */
  lemma MaskExample()
    ensures MaskApiKey("sk-ant-12345678") == "sk-...5678"
  {
    assert StartsWith("sk-ant-12345678", "sk-");
    assert SliceFrom("sk-ant-12345678", -4) == "5678";
  }

  // ---------------------------------------------------------------------
  // _ImmutableConfig
  // ---------------------------------------------------------------------

  /** A value held in one of the object's slots (Python `None`, a string,
      or the `_initialized` flag). */
  datatype AttrValue = VNone | VStr(s: string) | VBool(b: bool)

  /** Python truthiness of a slot value. */
  predicate AttrTruthy(v: AttrValue) {
    match v
    case VNone => false
    case VStr(s) => s != ""
    case VBool(b) => b
  }

  /** The names in `__slots__`: no other attribute can ever be set. */
  const Slots: set<string> := {
    "_anthropic_api_key", "_tavily_api_key", "_db_host", "_db_port", "_db_name",
    "_db_user", "_db_password", "_supabase_url", "_supabase_anon_key",
    "_supabase_jwt_secret", "_initialized"
  }

  /** Why `__init__` refused to build the configuration. */
  datatype ConfigError = MissingAnthropicKey | MissingTavilyKey

  /** `os.getenv(name)` over a snapshot of the environment. */
  function GetEnv(env: map<string, string>, name: string): AttrValue {
    if name in env then VStr(env[name]) else VNone
  }

  /** `os.getenv(name, default)`. */
  function GetEnvOr(env: map<string, string>, name: string, default: string): (v: AttrValue)
    ensures v.VStr?
    ensures name !in env ==> v == VStr(default)
    ensures name in env ==> v == VStr(env[name])
  {
    if name in env then VStr(env[name]) else VStr(default)
  }

  /** The slots `__init__` fills after both required keys were found. */
  function Loaded(env: map<string, string>): (m: map<string, AttrValue>)
    requires "ANTHROPIC_API_KEY" in env && "TAVILY_API_KEY" in env
    ensures m.Keys == Slots
    ensures m["_initialized"] == VBool(true)
    ensures m["_anthropic_api_key"] == VStr(env["ANTHROPIC_API_KEY"])
    ensures m["_tavily_api_key"] == VStr(env["TAVILY_API_KEY"])
    ensures m["_db_port"] == (if "DB_PORT" in env then VStr(env["DB_PORT"]) else VStr("5432"))
    ensures m["_db_name"] == (if "DB_NAME" in env then VStr(env["DB_NAME"]) else VStr("postgres"))
    ensures m["_db_user"] == (if "DB_USER" in env then VStr(env["DB_USER"]) else VStr("postgres"))
    ensures "DB_HOST" !in env ==> m["_db_host"] == VNone
    ensures "DB_PASSWORD" !in env ==> m["_db_password"] == VNone
  {
    map[
      "_anthropic_api_key" := VStr(env["ANTHROPIC_API_KEY"]),
      "_tavily_api_key" := VStr(env["TAVILY_API_KEY"]),
      "_db_host" := GetEnv(env, "DB_HOST"),
      "_db_port" := GetEnvOr(env, "DB_PORT", "5432"),
      "_db_name" := GetEnvOr(env, "DB_NAME", "postgres"),
      "_db_user" := GetEnvOr(env, "DB_USER", "postgres"),
      "_db_password" := GetEnv(env, "DB_PASSWORD"),
      "_supabase_url" := GetEnv(env, "SUPABASE_URL"),
      "_supabase_anon_key" := GetEnv(env, "SUPABASE_ANON_KEY"),
      "_supabase_jwt_secret" := GetEnv(env, "SUPABASE_JWT_SECRET"),
      "_initialized" := VBool(true)
    ]
  }

  /** `API_CALL_LIMIT`: the same for every service and never configurable. */
  const ApiCallLimit: int := 750
  /** `CLAUDE_MODEL_STANDARD`. */
  const ClaudeModelStandard: string := "claude-sonnet-4-20250514"
  /** `CLAUDE_MODEL_FAST`. */
  const ClaudeModelFast: string := "claude-3-haiku-20240307"

  /** `_ImmutableConfig`: the assigned slots, by name. */
  class ImmutableConfig {
    var slots: map<string, AttrValue>

    /** A freshly allocated object, before `__init__` runs: no slot is set. */
    constructor Blank()
      ensures slots == map[]
    {
      slots := map[];
    }

    /** `getattr(self, '_initialized', False)`, read as a condition. */
    predicate Initialized()
      reads this
    {
      "_initialized" in slots && AttrTruthy(slots["_initialized"])
    }

    /** `__init__`: marks the object uninitialised, requires a non-empty
        Anthropic key and then a non-empty Tavily key, fills the remaining
        slots from the environment with their defaults, and finally marks
        the object initialised. */
    method Init(env: map<string, string>) returns (err: Option<ConfigError>)
      modifies this
      ensures !AttrTruthy(GetEnv(env, "ANTHROPIC_API_KEY")) ==>
                err == Some(MissingAnthropicKey) && slots == old(slots)["_initialized" := VBool(false)]
      ensures AttrTruthy(GetEnv(env, "ANTHROPIC_API_KEY")) && !AttrTruthy(GetEnv(env, "TAVILY_API_KEY")) ==>
                err == Some(MissingTavilyKey) &&
                slots == old(slots)["_initialized" := VBool(false)]["_anthropic_api_key" := VStr(env["ANTHROPIC_API_KEY"])]
      ensures AttrTruthy(GetEnv(env, "ANTHROPIC_API_KEY")) && AttrTruthy(GetEnv(env, "TAVILY_API_KEY")) ==>
                err.None? && slots == old(slots) + Loaded(env) && Initialized()
      ensures err.Some? ==> !Initialized()
    {
      slots := slots["_initialized" := VBool(false)];
      var anthropic := GetEnv(env, "ANTHROPIC_API_KEY");
      if !AttrTruthy(anthropic) {
        return Some(MissingAnthropicKey);
      }
      slots := slots["_anthropic_api_key" := anthropic];
      var tavily := GetEnv(env, "TAVILY_API_KEY");
      if !AttrTruthy(tavily) {
        return Some(MissingTavilyKey);
      }
      slots := slots["_tavily_api_key" := tavily];
      // the database and identity-provider settings, then the flag
      slots := slots + Loaded(env);
      OverriddenByLoaded(old(slots), env);
      err := None;
    }

    /** `__setattr__`: refused (AttributeError, answered as true) once the
        object is initialised, and for any name outside `__slots__`;
        otherwise the slot is assigned. */
    method SetAttr(name: string, value: AttrValue) returns (attributeError: bool)
      modifies this
      ensures attributeError <==> old(Initialized()) || name !in Slots
      ensures attributeError ==> slots == old(slots)
      ensures !attributeError ==> slots == old(slots)[name := value]
    {
      if Initialized() {
        return true;
      }
      if name !in Slots {
        return true;
      }
      slots := slots[name := value];
      return false;
    }

    /** `__delattr__`: always refused. */
    method DelAttr(name: string) returns (attributeError: bool)
      ensures attributeError
    {
      return true;
    }
  }

  /** The three slots `__init__` writes before the remaining ones are all
      overwritten by the loaded values. */
  lemma OverriddenByLoaded(m: map<string, AttrValue>, env: map<string, string>)
    requires "ANTHROPIC_API_KEY" in env && "TAVILY_API_KEY" in env
    ensures m["_initialized" := VBool(false)]["_anthropic_api_key" := VStr(env["ANTHROPIC_API_KEY"])]
             ["_tavily_api_key" := VStr(env["TAVILY_API_KEY"])] + Loaded(env) == m + Loaded(env)
  {
    var l := Loaded(env);
    var a := m["_initialized" := VBool(false)]["_anthropic_api_key" := VStr(env["ANTHROPIC_API_KEY"])]
               ["_tavily_api_key" := VStr(env["TAVILY_API_KEY"])];
    assert (a + l).Keys == (m + l).Keys;
    forall k | k in (m + l).Keys ensures (a + l)[k] == (m + l)[k] {
      if k !in l {
        assert k != "_initialized" && k != "_anthropic_api_key" && k != "_tavily_api_key";
      }
    }
  }

  /** Loading a complete environment yields an initialised object whose
      every later assignment is refused and leaves the slots as loaded. */
  method LoadThenAssign(env: map<string, string>, name: string, value: AttrValue)
    returns (err: Option<ConfigError>, refused: bool)
    requires "ANTHROPIC_API_KEY" in env && env["ANTHROPIC_API_KEY"] != ""
    requires "TAVILY_API_KEY" in env && env["TAVILY_API_KEY"] != ""
    ensures err.None? && refused
  {
    var c := new ImmutableConfig.Blank();
    err := c.Init(env);
    refused := c.SetAttr(name, value);
    assert c.slots == Loaded(env);
  }

}
