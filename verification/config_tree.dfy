/** The YAML configuration as a tree of maps, read and written through
    dot-separated key paths, and the first-run set-up of the configuration
    directory. */
module ConfigTree {
  import opened Wrappers
  import opened Text
  import opened TemplateEngine

  /** A YAML value: `null`, a scalar, or a mapping. */
  datatype Value =
    | Null
    | Str(s: string)
    | Int(i: int)
    | Bool(b: bool)
    | Node(children: map<string, Value>)

  type Path = seq<string>

  /** The key path `"twilio.account_sid"` as `["twilio", "account_sid"]`. */
  function Keys(keyPath: string): (keys: Path)
    ensures |keys| >= 1
    ensures Join(keys, '.') == keyPath
  {
    JoinSplit(keyPath, '.');
    Split(keyPath, '.')
  }

  // ---- get_value ----

  /** The plain walk down the tree: follows each key through a mapping that
      holds it, and stops at a missing key or at a value that is not a mapping. */
  function Walk(v: Value, keys: Path): Option<Value> {
    if |keys| == 0 then Some(v)
    else if v.Node? && keys[0] in v.children then Walk(v.children[keys[0]], keys[1..])
    else None
  }

  /** The loop of `get_value`: `None` stands for "return the default". A
      stored `null` on the way also gives the default. */
  function Lookup(v: Value, keys: Path): (r: Option<Value>)
    ensures |keys| > 0 && r.Some? ==> r.value != Null
  {
    if |keys| == 0 then Some(v)
    else if v.Node? && keys[0] in v.children && v.children[keys[0]] != Null then
      Lookup(v.children[keys[0]], keys[1..])
    else None
  }

  /** `get_value(key_path, default)`. */
  function GetValue(config: Value, keyPath: string, default: Value): (r: Value)
    ensures Lookup(config, Keys(keyPath)).None? ==> r == default
    ensures Lookup(config, Keys(keyPath)).Some? ==> r != Null && Walk(config, Keys(keyPath)) == Some(r)
  {
    LookupIsWalk(config, Keys(keyPath));
    match Lookup(config, Keys(keyPath))
    case Some(x) => x
    case None => default
  }

  /** `get_value` finds what the plain walk finds, except that a stored `null`
      gives the default. */
  lemma {:induction false} LookupIsWalk(v: Value, keys: Path)
    requires |keys| > 0
    ensures Lookup(v, keys) == if Walk(v, keys) == Some(Null) then None else Walk(v, keys)
  {
    if v.Node? && keys[0] in v.children && |keys| > 1 {
      var c := v.children[keys[0]];
      if c == Null {
        assert Walk(c, keys[1..]) == None;
      } else {
        LookupIsWalk(c, keys[1..]);
      }
    }
  }

  /** The default comes back when a key on the path is missing. */
  lemma {:induction false} MissingKeyGivesDefault(v: Value, keys: Path, j: nat)
    requires j < |keys|
    requires Walk(v, keys[..j]).Some? && Walk(v, keys[..j]).value.Node?
    requires keys[j] !in Walk(v, keys[..j]).value.children
    ensures Lookup(v, keys) == None
  {
    if j > 0 {
      assert v.Node? && keys[0] in v.children by { assert Walk(v, keys[..j]).Some?; }
      assert keys[1..][..j - 1] == keys[..j][1..];
      if v.children[keys[0]] != Null {
        MissingKeyGivesDefault(v.children[keys[0]], keys[1..], j - 1);
      }
    }
  }

  /** The default comes back when a value that is not a mapping is reached
      before the path ends. */
  lemma {:induction false} ScalarOnPathGivesDefault(v: Value, keys: Path, j: nat)
    requires j < |keys|
    requires Walk(v, keys[..j]).Some? && !Walk(v, keys[..j]).value.Node?
    ensures Lookup(v, keys) == None
  {
    if j > 0 {
      assert v.Node? && keys[0] in v.children by { assert Walk(v, keys[..j]).Some?; }
      assert keys[1..][..j - 1] == keys[..j][1..];
      if v.children[keys[0]] != Null {
        ScalarOnPathGivesDefault(v.children[keys[0]], keys[1..], j - 1);
      }
    }
  }

  // ---- set_value ----

  /** Why `set_value` fails: the value at this path prefix is not a mapping,
      so `setdefault` or the item assignment on it raises. */
  datatype ConfigError = NotAMapping(at: Path)

  /** The loop of `set_value`: each key but the last is looked up with
      `setdefault(key, {})`, the last one is assigned. */
  function SetPath(v: Value, keys: Path, x: Value): (r: Result<Value, ConfigError>)
    requires |keys| >= 1
    ensures r.Ok? ==> v.Node? && r.value.Node? && r.value.children.Keys == v.children.Keys + {keys[0]}
    ensures r.Err? ==> |r.error.at| < |keys| && r.error.at == keys[..|r.error.at|]
    decreases |keys|
  {
    if !v.Node? then Err(NotAMapping([]))
    else if |keys| == 1 then Ok(Node(v.children[keys[0] := x]))
    else
      var child := if keys[0] in v.children then v.children[keys[0]] else Node(map[]);
      match SetPath(child, keys[1..], x)
      case Ok(c) => Ok(Node(v.children[keys[0] := c]))
      case Err(e) => Err(NotAMapping([keys[0]] + e.at))
  }

  /** `set_value(key_path, value)` on the loaded configuration: the configuration to save, or why it fails. */
  function SetValue(config: Value, keyPath: string, x: Value): (r: Result<Value, ConfigError>)
    ensures r.Ok? <==> Settable(config, Keys(keyPath))
    ensures r.Ok? && x != Null ==> GetValue(r.value, keyPath, Null) == x
  {
    SettableIff(config, Keys(keyPath), x);
    var r := SetPath(config, Keys(keyPath), x);
    if r.Ok? && x != Null then
      SetThenGet(config, Keys(keyPath), x);
      r
    else r
  }

  /** Every value the walk meets before the last key is a mapping or is missing. */
  predicate Settable(v: Value, keys: Path)
    requires |keys| >= 1
  {
    forall j | 0 <= j < |keys| :: Walk(v, keys[..j]).None? || Walk(v, keys[..j]).value.Node?
  }

  /** `set_value` succeeds exactly when no value it has to descend into is something other than a mapping. */
  lemma {:induction false} SettableIff(v: Value, keys: Path, x: Value)
    requires |keys| >= 1
    ensures SetPath(v, keys, x).Ok? <==> Settable(v, keys)
    decreases |keys|
  {
    assert keys[..0] == [];
    if v.Node? && |keys| > 1 {
      var child := if keys[0] in v.children then v.children[keys[0]] else Node(map[]);
      SettableIff(child, keys[1..], x);
      forall j | 1 <= j < |keys|
        ensures Walk(v, keys[..j]) == (if keys[0] in v.children then Walk(child, keys[1..][..j - 1]) else None)
      {
        assert keys[..j][1..] == keys[1..][..j - 1];
      }
      if keys[0] !in v.children {
        assert Settable(v, keys) by {
          forall j | 0 <= j < |keys| ensures Walk(v, keys[..j]).None? || Walk(v, keys[..j]).value.Node? {
            if j > 0 { assert Walk(v, keys[..j]).None?; }
          }
        }
        EmptyNodeSettable(keys[1..]);
      } else if Settable(v, keys) {
        forall j | 0 <= j < |keys| - 1
          ensures Walk(child, keys[1..][..j]).None? || Walk(child, keys[1..][..j]).value.Node?
        {
          assert Walk(v, keys[..j + 1]) == Walk(child, keys[1..][..j]);
        }
      } else {
        var j :| 0 <= j < |keys| && Walk(v, keys[..j]).Some? && !Walk(v, keys[..j]).value.Node?;
        assert j > 0;
        assert Walk(child, keys[1..][..j - 1]) == Walk(v, keys[..j]);
      }
    }
  }

  /** Below a freshly created `{}` every prefix walk is missing, except the empty one. */
  lemma EmptyNodeSettable(keys: Path)
    requires |keys| >= 1
    ensures Settable(Node(map[]), keys)
  {
    forall j | 0 <= j < |keys| ensures Walk(Node(map[]), keys[..j]).None? || Walk(Node(map[]), keys[..j]).value.Node? {
      if j > 0 {
        assert keys[..j][0] !in Node(map[]).children;
      }
    }
  }

  /** After a successful `set_value(p, v)` with `v` not `null`, `get_value(p)` returns `v`. */
  lemma {:induction false} SetThenGet(v: Value, keys: Path, x: Value)
    requires |keys| >= 1 && x != Null
    requires SetPath(v, keys, x).Ok?
    ensures Lookup(SetPath(v, keys, x).value, keys) == Some(x)
    decreases |keys|
  {
    if |keys| > 1 {
      var child := if keys[0] in v.children then v.children[keys[0]] else Node(map[]);
      SetThenGet(child, keys[1..], x);
    }
  }

  /** `set_value` creates the missing mappings along the path: after it, every
      proper prefix of the path leads to a mapping. */
  lemma {:induction false} SetCreatesIntermediates(v: Value, keys: Path, x: Value, j: nat)
    requires |keys| >= 1 && j < |keys|
    requires SetPath(v, keys, x).Ok?
    ensures Walk(SetPath(v, keys, x).value, keys[..j]).Some?
    ensures Walk(SetPath(v, keys, x).value, keys[..j]).value.Node?
    decreases |keys|
  {
    var r := SetPath(v, keys, x).value;
    if j > 0 {
      var child := if keys[0] in v.children then v.children[keys[0]] else Node(map[]);
      SetCreatesIntermediates(child, keys[1..], x, j - 1);
      assert keys[..j][1..] == keys[1..][..j - 1];
    }
  }

  /** `set_value` leaves every path that parts from the set path somewhere
      along it with the value it had. */
  lemma {:induction false} SetKeepsOtherPaths(v: Value, keys: Path, x: Value, other: Path, j: nat)
    requires |keys| >= 1
    requires SetPath(v, keys, x).Ok?
    requires j < |keys| && j < |other| && other[j] != keys[j] && other[..j] == keys[..j]
    ensures Lookup(SetPath(v, keys, x).value, other) == Lookup(v, other)
    decreases |keys|
  {
    var r := SetPath(v, keys, x).value;
    if j > 0 {
      assert other[0] == keys[0] by { assert other[..j][0] == keys[..j][0]; }
      var child := if keys[0] in v.children then v.children[keys[0]] else Node(map[]);
      assert other[1..][..j - 1] == keys[1..][..j - 1] by {
        assert other[1..][..j - 1] == other[..j][1..];
        assert keys[1..][..j - 1] == keys[..j][1..];
      }
      SetKeepsOtherPaths(child, keys[1..], x, other[1..], j - 1);
      if keys[0] !in v.children {
        NothingUnderEmpty(other[1..]);
      }
    }
  }

  lemma NothingUnderEmpty(keys: Path)
    ensures |keys| > 0 ==> Lookup(Node(map[]), keys) == None
  {
  }

  // ---- first run ----

  /** The configuration `_ensure_config_exists` writes when there is none. */
  function DefaultConfig(): Value {
    Node(map[
      "sms_provider" := Str("twilio"),
      "twilio" := Node(map["account_sid" := Str(""), "auth_token" := Str(""), "phone_number" := Str("")]),
      "africas_talking" := Node(map["username" := Str(""), "api_key" := Str(""), "sender_id" := Str("")]),
      "defaults" := Node(map[
        "sender_name" := Str("YourApp"),
        "confirm_before_send" := Bool(true),
        "show_preview" := Bool(true),
        "save_to_history" := Bool(true)]),
      "rate_limits" := Node(map["messages_per_second" := Int(10), "messages_per_hour" := Int(1000)])])
  }

  /** What the default configuration says, read back through `get_value`'s lookup. */
  lemma DefaultConfigShape()
    ensures var c := DefaultConfig();
      && Lookup(c, ["sms_provider"]) == Some(Str("twilio"))
      && Lookup(c, ["defaults", "confirm_before_send"]) == Some(Bool(true))
      && Lookup(c, ["defaults", "save_to_history"]) == Some(Bool(true))
      && Lookup(c, ["rate_limits", "messages_per_second"]) == Some(Int(10))
      && c.Node? && c.children.Keys == {"sms_provider", "twilio", "africas_talking", "defaults", "rate_limits"}
  {
  }

  /** The three templates `_create_sample_templates` offers, by template name. */
  function SampleTemplates(): map<string, string> {
    map["welcome" := WELCOME_SAMPLE, "reminder" := REMINDER_SAMPLE, "promo" := PROMO_SAMPLE]
  }

  const WELCOME_SAMPLE := "Hi {{name}}! \U{1F44B} Welcome to {{company}}. Your account is now active."
  const REMINDER_SAMPLE := "Hi {{name}}, this is a reminder about {{event}} on {{date}} at {{time}}."
  const PROMO_SAMPLE := "\U{1F389} Hey {{name}}! Special offer: {{discount}}% off. Use code: {{code}}. Valid until {{expiry}}."

  /** `_create_sample_templates`: each sample is written only when no template of that name exists. */
  function CreateSampleTemplates(store: TemplateStore, samples: map<string, string>): (r: TemplateStore)
    ensures r.Keys == store.Keys + samples.Keys
    ensures forall n | n in store :: r[n] == store[n]
    ensures forall n | n in r && n !in store :: r[n] == samples[n]
  {
    map n | n in store.Keys + samples.Keys :: if n in store then store[n] else samples[n]
  }

  /** The configuration directory: the configuration file, if any, and the templates. */
  datatype ConfigDir = ConfigDir(config: Option<Value>, templates: TemplateStore)

  /** `_ensure_config_exists`: with no configuration file, writes the default
      one and the sample templates; otherwise changes nothing. */
  function EnsureConfigExists(dir: ConfigDir): (r: ConfigDir)
    ensures r.config.Some?
    ensures dir.config.Some? ==> r == dir
    ensures dir.config.None? ==> r.config == Some(DefaultConfig())
  {
    if dir.config.Some? then dir
    else ConfigDir(Some(DefaultConfig()), CreateSampleTemplates(dir.templates, SampleTemplates()))
  }

  /** Running the set-up twice is the same as running it once. */
  lemma EnsureConfigExistsIdempotent(dir: ConfigDir)
    ensures EnsureConfigExists(EnsureConfigExists(dir)) == EnsureConfigExists(dir)
  {
  }

  /** The set-up never overwrites or removes an existing template, and on
      first run adds every sample that was missing. */
  lemma EnsureConfigKeepsTemplates(dir: ConfigDir)
    ensures var r := EnsureConfigExists(dir);
      && (forall n | n in dir.templates :: n in r.templates && r.templates[n] == dir.templates[n])
      && (dir.config.None? ==> forall n | n in SampleTemplates() :: n in r.templates)
  {
  }
}
