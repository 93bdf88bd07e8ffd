/** The command-line layer: the provider checks it runs before sending, the
    parsing of `-v key=value` items, the `send` and `bulk` commands as
    decision pipelines over the template store, the gateway and the log, and
    the `config show` / `config set` value handling. Prompts, tables and
    progress bars are left out; a confirmation prompt is its answer. */
module Cli {
  import opened Wrappers
  import opened Text
  import opened Sequences
  import opened TemplateEngine
  import opened SmsGateway
  import opened DeliveryLog
  import opened ConfigTree

  /** Why a command stops early. */
  datatype Abort =
    | MalformedConfig(key: string)
    | ProviderNotConfigured
    | InvalidVariable(item: string)
    | TemplateNotFound(name: string)
    | RenderError(detail: string)  // `str(e)` of the exception `render` raised, prefix included
    | MissingVariables(missing: set<string>, required: set<string>)
    | NoMessage
    | Cancelled
    | GatewayUnavailable
    | NoRecipients
    | NoPhoneColumn

  /** Python truthiness of a configuration value. */
  predicate Truthy(v: Value) {
    match v
    case Null => false
    case Str(s) => |s| > 0
    case Int(i) => i != 0
    case Bool(b) => b
    case Node(m) => |m| > 0
  }

  /** Truthiness of an optional command-line argument. */
  predicate Given(arg: Option<string>) {
    arg.Some? && |arg.value| > 0
  }

  /** `mapping.get(key)`: the value, or `null` when the key is missing. */
  function Field(m: map<string, Value>, key: string): (v: Value)
    ensures key !in m ==> v == Null
    ensures key in m ==> v == m[key]
  {
    if key in m then m[key] else Null
  }

  // ---- provider configuration ----

  /** `config['sms_provider']`. A value that is not text compares unequal to
      every provider name, exactly as the empty name does. */
  function ProviderSetting(config: Value): (r: Result<string, Abort>)
    ensures r.Err? <==> !config.Node? || "sms_provider" !in config.children
    ensures r.Ok? && config.children["sms_provider"].Str? ==> r.value == config.children["sms_provider"].s
  {
    if config.Node? && "sms_provider" in config.children then
      match config.children["sms_provider"]
      case Str(s) => Ok(s)
      case _ => Ok("")
    else Err(MalformedConfig("sms_provider"))
  }

  /** `config.get(section, {})`: the section's entries, or why `.get` on it raises. */
  function Section(config: Value, section: string): (r: Result<map<string, Value>, Abort>)
    ensures r.Ok? <==> config.Node? && (section !in config.children || config.children[section].Node?)
    ensures r.Ok? && section in config.children ==> r.value == config.children[section].children
    ensures r.Ok? && section !in config.children ==> r.value == map[]
  {
    if !config.Node? then Err(MalformedConfig(section))
    else if section !in config.children then Ok(map[])
    else
      match config.children[section]
      case Node(m) => Ok(m)
      case _ => Err(MalformedConfig(section))
  }

  /** `_validate_provider_config`: Twilio needs a truthy account SID, auth token
      and phone number, Africa's Talking a truthy username and API key; any
      other provider passes. */
  function ValidateProviderConfig(config: Value, provider: string): (r: Result<bool, Abort>)
    ensures provider != "twilio" && provider != "africas_talking" ==> r == Ok(true)
    ensures provider == "twilio" ==> (r.Err? <==> Section(config, "twilio").Err?)
    ensures provider == "twilio" && r.Ok? ==> var creds := Section(config, "twilio").value;
      (r.value <==> Truthy(Field(creds, "account_sid")) && Truthy(Field(creds, "auth_token"))
                    && Truthy(Field(creds, "phone_number")))
    ensures provider == "africas_talking" ==> (r.Err? <==> Section(config, "africas_talking").Err?)
    ensures provider == "africas_talking" && r.Ok? ==> var creds := Section(config, "africas_talking").value;
      (r.value <==> Truthy(Field(creds, "username")) && Truthy(Field(creds, "api_key")))
  {
    if provider == "twilio" then
      match Section(config, "twilio")
      case Err(e) => Err(e)
      case Ok(creds) =>
        Ok(Truthy(Field(creds, "account_sid")) && Truthy(Field(creds, "auth_token"))
           && Truthy(Field(creds, "phone_number")))
    else if provider == "africas_talking" then
      match Section(config, "africas_talking")
      case Err(e) => Err(e)
      case Ok(creds) => Ok(Truthy(Field(creds, "username")) && Truthy(Field(creds, "api_key")))
    else Ok(true)
  }

  /** A credential as the gateway receives it: text, or nothing. */
  function AsText(v: Value): (r: Option<string>)
    ensures r.Some? <==> v.Str?
  {
    if v.Str? then Some(v.s) else None
  }

  function TextCredentials(creds: map<string, Value>): (r: Credentials)
    ensures r.Keys == creds.Keys
    ensures forall k | k in creds :: r[k] == AsText(creds[k])
  {
    map k | k in creds :: AsText(creds[k])
  }

  /** `config[section]` when it is a mapping holding every key in `keys`:
      what `creds[key]` needs in order not to raise. */
  predicate HasSection(config: Value, section: string, keys: set<string>) {
    config.Node? && section in config.children && config.children[section].Node?
    && keys <= config.children[section].children.Keys
  }

  /** `_initialize_gateway`: any exception becomes `None`, and so does a
      provider other than the two it knows, for which it falls through. */
  function InitializeGateway(config: Value, provider: string, atSdkInstalled: bool): (r: Option<Gateway>)
    ensures r.Some? <==>
      || (provider == "twilio" && HasSection(config, "twilio", {"account_sid", "auth_token", "phone_number"}))
      || (provider == "africas_talking" && atSdkInstalled && HasSection(config, "africas_talking", {"username", "api_key"}))
    ensures r.Some? ==>
      r == Some(NewGateway(provider, TextCredentials(config.children[provider].children), atSdkInstalled).value)
  {
    if provider == "twilio" && HasSection(config, "twilio", {"account_sid", "auth_token", "phone_number"}) then
      Some(NewGateway(provider, TextCredentials(config.children[provider].children), atSdkInstalled).value)
    else if provider == "africas_talking" && HasSection(config, "africas_talking", {"username", "api_key"}) then
      match NewGateway(provider, TextCredentials(config.children[provider].children), atSdkInstalled)
      case Ok(gw) => Some(gw)
      case Err(_) => None
    else None
  }

  /** A configuration that passes the provider check also initialises a gateway
      (for Africa's Talking, once the SDK is installed); an unknown provider
      passes the check but never gets a gateway. */
  lemma ValidatedProviderInitializes(config: Value, provider: string, atSdkInstalled: bool)
    requires ValidateProviderConfig(config, provider) == Ok(true)
    requires provider == "africas_talking" ==> atSdkInstalled
    ensures InitializeGateway(config, provider, atSdkInstalled).Some? <==> provider == "twilio" || provider == "africas_talking"
  {
  }

  // ---- `-v key=value` items ----

  /** The stripped text before the first '=' of an item. */
  function ItemKey(item: string): string {
    Strip(SplitFirst(item, '=').1)
  }

  /** The stripped text after the first '=' of an item. */
  function ItemValue(item: string): string {
    Strip(SplitFirst(item, '=').2)
  }

  /** The `-v` loop of `send` and `template test`: every item is split at its
      first '=' and both halves are stripped; an item without '=' stops the
      command, and a later item overrides an earlier one with the same key.
      Defined from the front: an item's pair is kept unless a later item
      names the same key. */
  function ParseVars(items: seq<string>): (r: Result<map<string, string>, string>)
    ensures r.Ok? <==> forall i | 0 <= i < |items| :: '=' in items[i]
    ensures r.Err? ==> exists i | 0 <= i < |items| :: items[i] == r.error && '=' !in items[i]
                         && forall j | 0 <= j < i :: '=' in items[j]
  {
    if |items| == 0 then Ok(map[])
    else if '=' !in items[0] then Err(items[0])
    else
      match ParseVars(items[1..])
      case Err(bad) => Err(bad)
      case Ok(m) => Ok(if ItemKey(items[0]) in m then m else m[ItemKey(items[0]) := ItemValue(items[0])])
  }

  /** Whether some item names key `k`. */
  predicate Names(items: seq<string>, k: string) {
    exists i | 0 <= i < |items| :: ItemKey(items[i]) == k
  }

  /** The parsed keys are exactly the keys the items name. */
  lemma {:induction false} ParseVarsKeys(items: seq<string>, k: string)
    requires ParseVars(items).Ok?
    ensures k in ParseVars(items).value <==> Names(items, k)
  {
    if |items| > 0 {
      var rest := items[1..];
      ParseVarsKeys(rest, k);
      if Names(items, k) {
        var i :| 0 <= i < |items| && ItemKey(items[i]) == k;
        if i > 0 { assert ItemKey(rest[i - 1]) == k; }
      }
      if Names(rest, k) {
        var i :| 0 <= i < |rest| && ItemKey(rest[i]) == k;
        assert ItemKey(items[i + 1]) == k;
      }
    }
  }

  /** The value of a key is the value of the last item that names it. */
  lemma {:induction false} ParseVarsLastWins(items: seq<string>, i: nat)
    requires ParseVars(items).Ok?
    requires i < |items|
    requires forall j | i < j < |items| :: ItemKey(items[j]) != ItemKey(items[i])
    ensures ItemKey(items[i]) in ParseVars(items).value
    ensures ParseVars(items).value[ItemKey(items[i])] == ItemValue(items[i])
  {
    var rest := items[1..];
    if i > 0 {
      ParseVarsLastWins(rest, i - 1);
    } else {
      ParseVarsKeys(rest, ItemKey(items[0]));
    }
  }

  // ---- `send` ----

  /** The options of `send`. */
  datatype SendRequest = SendRequest(
    template: Option<string>,
    message: Option<string>,
    to: string,
    vars: seq<string>,
    preview: bool,
    noConfirm: bool)

  /** What `send` works with besides its options: the loaded configuration,
      the templates, the renderer, the transport, whether the Africa's Talking
      SDK is installed, the answer given at the confirmation prompt, the log
      and the clock. */
  datatype SendEnv = SendEnv(
    config: Value,
    store: TemplateStore,
    jinja: Jinja,
    transport: Transport,
    atSdkInstalled: bool,
    confirmAnswer: bool,
    log: Table,
    now: int,
    parseAmount: string -> real)

  datatype SendOutcome =
    | SendAborted(why: Abort)
    | SendPreviewed(content: string, segments: nat)
    | SendDone(result: SendResult, log: Table)

  /** `config['defaults'].get(key, True)`, or why reading it raises. */
  function DefaultsFlag(config: Value, key: string): (r: Result<bool, Abort>)
    ensures r.Ok? <==> config.Node? && "defaults" in config.children && config.children["defaults"].Node?
    ensures r.Ok? ==> var d := config.children["defaults"].children;
      (r.value <==> key !in d || Truthy(d[key]))
  {
    if config.Node? && "defaults" in config.children && config.children["defaults"].Node? then
      var d := config.children["defaults"].children;
      Ok(key !in d || Truthy(d[key]))
    else Err(MalformedConfig("defaults"))
  }

  /** The text `send` delivers: the rendered template once validation finds
      nothing missing, or the literal message. */
  function MessageContent(req: SendRequest, env: SendEnv, vars: map<string, string>): (r: Result<string, Abort>)
    ensures Given(req.template) ==> var name := req.template.value;
      && (r.Ok? <==> name in env.store && env.jinja(env.store[name], vars).Ok?
                     && ValidateContent(env.store[name], vars).valid)
      && (r.Ok? ==> r.value == env.jinja(env.store[name], vars).value)
      && (name !in env.store ==> r == Err(TemplateNotFound(name)))
      && (name in env.store && env.jinja(env.store[name], vars).Err? ==>
            r == Err(RenderError("Error rendering template: " + env.jinja(env.store[name], vars).error)))
      && (name in env.store && env.jinja(env.store[name], vars).Ok? && !ValidateContent(env.store[name], vars).valid ==>
            r == Err(MissingVariables(ValidateContent(env.store[name], vars).missing, ExtractVariables(env.store[name]))))
    ensures !Given(req.template) && Given(req.message) ==> r == Ok(req.message.value)
    ensures !Given(req.template) && !Given(req.message) ==> r == Err(NoMessage)
  {
    if Given(req.template) then
      var name := req.template.value;
      match PreviewTemplate(env.store, env.jinja, name, vars)
      case Err(NotFound(n)) => Err(TemplateNotFound(n))
      case Err(RenderFailed(d)) => Err(RenderError(RenderFailed(d).Message()))
      case Ok(p) =>
        var v := ValidateTemplate(env.store, name, vars).value;
        if !v.valid then Err(MissingVariables(v.missing, v.required))
        else Ok(p.rendered)
    else if Given(req.message) then Ok(req.message.value)
    else Err(NoMessage)
  }

  /** `send` may go ahead: `--no-confirm` was given, or `confirm_before_send`
      can be read and is off or was answered yes. */
  predicate SendConfirmed(req: SendRequest, env: SendEnv) {
    || req.noConfirm
    || (var c := DefaultsFlag(env.config, "confirm_before_send"); c.Ok? && (!c.value || env.confirmAnswer))
  }

  /** The template name `send` logs: the option when a template was used. The
      direct-message branch resets it to None, so an empty `--template` logs NULL. */
  function LoggedTemplate(req: SendRequest): (t: Option<string>)
    ensures t.Some? <==> Given(req.template)
    ensures t.Some? ==> t == req.template
  {
    if Given(req.template) then req.template else None
  }

  /** The part of `send` after the preview: confirmation, gateway set-up, the
      send itself and, when `save_to_history` allows, the log entry. */
  function Deliver(req: SendRequest, env: SendEnv, provider: string, vars: map<string, string>,
                   content: string): (r: SendOutcome)
    ensures r.SendDone? ==> InitializeGateway(env.config, provider, env.atSdkInstalled).Some?
    ensures r.SendDone? ==> r.result == Send(InitializeGateway(env.config, provider, env.atSdkInstalled).value,
                                            env.transport, 0, Some(req.to), content, None)
    ensures r.SendDone? ==>
              (r.log == LogSms(env.log, env.now, Some(req.to), content, LoggedTemplate(req), Some(vars), r.result, env.parseAmount).value
               <==> DefaultsFlag(env.config, "save_to_history") == Ok(true))
    ensures r.SendDone? && DefaultsFlag(env.config, "save_to_history") != Ok(true) ==> r.log == env.log
    ensures r.SendDone? <==> SendConfirmed(req, env) && InitializeGateway(env.config, provider, env.atSdkInstalled).Some?
    ensures !req.noConfirm && DefaultsFlag(env.config, "confirm_before_send") == Ok(true) && !env.confirmAnswer ==>
              r == SendAborted(Cancelled)
  {
    var confirm := if req.noConfirm then Ok(false) else DefaultsFlag(env.config, "confirm_before_send");
    if confirm.Err? then SendAborted(confirm.error)
    else if confirm.value && !env.confirmAnswer then SendAborted(Cancelled)
    else
      match InitializeGateway(env.config, provider, env.atSdkInstalled)
      case None => SendAborted(GatewayUnavailable)
      case Some(gw) =>
        var result := Send(gw, env.transport, 0, Some(req.to), content, None);
        if DefaultsFlag(env.config, "save_to_history") == Ok(true) then
          SendDone(result, LogSms(env.log, env.now, Some(req.to), content, LoggedTemplate(req), Some(vars), result, env.parseAmount).value)
        else SendDone(result, env.log)
  }

  /** The `send` command: check the provider (not in preview), parse the `-v`
      items, produce the text, then preview or deliver it. */
  function SendCommand(req: SendRequest, env: SendEnv): (r: SendOutcome)
    ensures r.SendPreviewed? <==> req.preview && !r.SendAborted?
    ensures !r.SendAborted? ==> ParseVars(req.vars).Ok?
    ensures !r.SendAborted? ==> MessageContent(req, env, ParseVars(req.vars).value).Ok?
    ensures r.SendPreviewed? ==> r.content == MessageContent(req, env, ParseVars(req.vars).value).value
    ensures r.SendDone? ==> r.result.to == Some(req.to)
    ensures r.SendPreviewed? <==>
              && req.preview && ProviderSetting(env.config).Ok? && ParseVars(req.vars).Ok?
              && MessageContent(req, env, ParseVars(req.vars).value).Ok?
    ensures r.SendDone? <==>
              && !req.preview && ProviderSetting(env.config).Ok?
              && ValidateProviderConfig(env.config, ProviderSetting(env.config).value) == Ok(true)
              && ParseVars(req.vars).Ok? && MessageContent(req, env, ParseVars(req.vars).value).Ok?
              && SendConfirmed(req, env)
              && InitializeGateway(env.config, ProviderSetting(env.config).value, env.atSdkInstalled).Some?
    ensures r.SendDone? ==>
              var vars := ParseVars(req.vars).value;
              var c := MessageContent(req, env, vars).value;
              var gw := InitializeGateway(env.config, ProviderSetting(env.config).value, env.atSdkInstalled).value;
              && r.result == Send(gw, env.transport, 0, Some(req.to), c, None)
              && (DefaultsFlag(env.config, "save_to_history") == Ok(true) ==>
                    r.log == LogSms(env.log, env.now, Some(req.to), c, LoggedTemplate(req), Some(vars), r.result, env.parseAmount).value)
  {
    match ProviderSetting(env.config)
    case Err(e) => SendAborted(e)
    case Ok(provider) =>
      var check := if req.preview then Ok(true) else ValidateProviderConfig(env.config, provider);
      if check.Err? then SendAborted(check.error)
      else if !check.value then SendAborted(ProviderNotConfigured)
      else
        match ParseVars(req.vars)
        case Err(item) => SendAborted(InvalidVariable(item))
        case Ok(vars) =>
          match MessageContent(req, env, vars)
          case Err(e) => SendAborted(e)
          case Ok(content) =>
            if req.preview then SendPreviewed(content, Segments(content))
            else Deliver(req, env, provider, vars, content)
  }

  /** A template message is sent only after validation found every variable
      it needs; what goes to the requested number through the configured
      gateway, and into the log when history is kept, is the rendered template
      under the template's name. */
  lemma ValidationGatesSend(req: SendRequest, env: SendEnv)
    ensures SendCommand(req, env).SendDone? && Given(req.template) ==>
      var name := req.template.value;
      var vars := ParseVars(req.vars).value;
      && ParseVars(req.vars).Ok? && name in env.store
      && ValidateContent(env.store[name], vars).valid
      && env.jinja(env.store[name], vars).Ok?
      && var r := SendCommand(req, env);
      && var gw := InitializeGateway(env.config, ProviderSetting(env.config).value, env.atSdkInstalled).value;
      && r.result.to == Some(req.to)
      && r.result == Send(gw, env.transport, 0, Some(req.to), env.jinja(env.store[name], vars).value, None)
      && (DefaultsFlag(env.config, "save_to_history") == Ok(true) ==>
            && r.log[|env.log|].message == env.jinja(env.store[name], vars).value
            && r.log[|env.log|].templateName == Some(name))
  {
  }

  /** A send appends exactly one record, for this recipient, with the text sent,
      the template name when a template was used (NULL otherwise) and the send's outcome, when `save_to_history` is
      on, and leaves the log alone otherwise. */
  lemma SendLogsOnceIffSaved(req: SendRequest, env: SendEnv)
    requires SendCommand(req, env).SendDone?
    ensures var r := SendCommand(req, env);
      && (r.log == env.log <==> DefaultsFlag(env.config, "save_to_history") != Ok(true))
      && (DefaultsFlag(env.config, "save_to_history") == Ok(true) ==>
          && |r.log| == |env.log| + 1
          && (forall i | 0 <= i < |env.log| :: r.log[i] == env.log[i])
          && r.log[|env.log|].recipient == req.to
          && r.log[|env.log|].success == r.result.Success()
          && r.log[|env.log|].message == MessageContent(req, env, ParseVars(req.vars).value).value
          && r.log[|env.log|].templateName == (if Given(req.template) then req.template else None))
  {
  }

  /** `send --template "" --message ...` takes the direct-message branch, which
      resets the template to None: the record it logs has no template name. */
  lemma EmptyTemplateLogsNull(req: SendRequest, env: SendEnv)
    ensures var r := SendCommand(req, env);
      r.SendDone? && req.template == Some("") && DefaultsFlag(env.config, "save_to_history") == Ok(true) ==>
        r.log[|env.log|].templateName.None?
  {
  }

  // ---- `bulk` ----

  /** `{k: v for k, v in row.items() if k != 'phone'}`: a row's template variables. */
  function RowVariables(row: Row): (vars: map<string, string>)
    ensures vars.Keys == row.Keys - {"phone"}
    ensures forall k | k in vars :: vars[k] == row[k]
  {
    map k | k in row && k != "phone" :: row[k]
  }

  /** `row.get('phone')`. */
  function Phone(row: Row): (p: Option<string>)
    ensures p.Some? <==> "phone" in row
    ensures p.Some? ==> p.value == row["phone"]
  {
    if "phone" in row then Some(row["phone"]) else None
  }

  /** The checks `bulk` makes on its input before anything is sent: some
      rows, a 'phone' column in the first one, and a known template. The
      result is the set of template variables the columns do not supply,
      which is only warned about. */
  function BulkPrecheck(rows: seq<Row>, store: TemplateStore, template: string): (r: Result<set<string>, Abort>)
    ensures |rows| == 0 ==> r == Err(NoRecipients)
    ensures |rows| > 0 && "phone" !in rows[0] ==> r == Err(NoPhoneColumn)
    ensures |rows| > 0 && "phone" in rows[0] && template !in store ==> r == Err(TemplateNotFound(template))
    ensures r.Ok? <==> |rows| > 0 && "phone" in rows[0] && template in store
    ensures r.Ok? ==> forall v :: v in r.value <==> v in ExtractVariables(store[template]) && (v == "phone" || v !in rows[0])
  {
    if |rows| == 0 then Err(NoRecipients)
    else if "phone" !in rows[0] then Err(NoPhoneColumn)
    else
      match GetTemplateContent(store, template)
      case Err(_) => Err(TemplateNotFound(template))
      case Ok(content) => Ok(ExtractVariables(content) - RowVariables(rows[0]).Keys)
  }

  /** The per-recipient segment count of the bulk cost estimate as the source
      computes it: `len // size + 1`. */
  function BulkSegmentsAsWritten(sample: string): (n: nat)
    ensures n >= 1
  {
    |sample| / SegmentSize(sample) + 1
  }

  /** The bulk formula agrees with the preview's segment count except when the
      length is a multiple of the segment size, where it counts one more. */
  lemma BulkSegmentsOvercount(sample: string)
    ensures BulkSegmentsAsWritten(sample) == Segments(sample) + (if |sample| % SegmentSize(sample) == 0 then 1 else 0)
  {
  }

  /** A plain 160-character message fills one segment, yet the bulk formula counts two. */
  lemma BulkSegmentsCounterexample()
    ensures var s := seq(160, _ => 'a');
      Segments(s) == 1 && BulkSegmentsAsWritten(s) == 2
  {
    var s := seq(160, _ => 'a');
    assert !HasUnicode(s);
  }

  /** The bulk cost estimate with the preview's segment count: the Twilio rate
      for every segment of every recipient. */
  function BulkCostEstimate(recipients: nat, sample: string): (cost: real)
    ensures cost >= 0.0
    ensures cost == 0.0 <==> recipients == 0 || |sample| == 0
  {
    (recipients * Segments(sample)) as real * TWILIO_RATE
  }

  /** The corrected estimate is what the gateway's own `get_cost_estimate`
      quotes for the preview's segment count. */
  lemma BulkEstimateMatchesGateway(recipients: nat, sample: string)
    ensures BulkCostEstimate(recipients, sample) == GetCostEstimate(Segments(sample), recipients, "twilio").totalCost
  {
    assert recipients * Segments(sample) == Segments(sample) * recipients;
  }

  /** What `bulk` sends with: the gateway, the transport, the templates, the
      renderer, the template name and the text of the database error that
      logging a row without a phone number raises. */
  datatype BulkJob = BulkJob(
    gw: Gateway,
    transport: Transport,
    store: TemplateStore,
    jinja: Jinja,
    template: string,
    dbError: string)

  /** What happened to one row: it was rendered, sent and logged, or an
      exception ended its turn. A row without a phone number is still sent;
      logging it is what raises. */
  datatype RowOutcome =
    | RowSent(to: string, rendered: string, result: SendResult)
    | RowRaised(phone: Option<string>, error: string)

  /** An entry of the failure list: the row's phone and the error text. */
  datatype BulkError = BulkError(phone: Option<string>, error: Option<string>)

  /** One turn of the bulk loop, the `i`-th send. */
  function BulkRow(job: BulkJob, row: Row, i: nat): (o: RowOutcome)
    ensures o.RowSent? <==> Render(job.store, job.jinja, job.template, RowVariables(row)).Ok? && "phone" in row
    ensures o.RowSent? ==> && o.to == row["phone"]
                           && Render(job.store, job.jinja, job.template, RowVariables(row)) == Ok(o.rendered)
                           && o.result == Send(job.gw, job.transport, i, Some(o.to), o.rendered, None)
    ensures o.RowRaised? ==> o.phone == Phone(row)
  {
    match Render(job.store, job.jinja, job.template, RowVariables(row))
    case Err(e) => RowRaised(Phone(row), e.Message())
    case Ok(text) =>
      match Phone(row)
      case Some(p) => RowSent(p, text, Send(job.gw, job.transport, i, Some(p), text, None))
      case None => RowRaised(None, job.dbError)
  }

  function RowSucceeded(): RowOutcome -> bool {
    (o: RowOutcome) => o.RowSent? && o.result.Success()
  }

  function RowFailed(): RowOutcome -> bool {
    (o: RowOutcome) => !(o.RowSent? && o.result.Success())
  }

  function RowLogged(): RowOutcome -> bool {
    (o: RowOutcome) => o.RowSent?
  }

  /** `{'phone': phone, 'error': ...}` for a row that did not succeed. */
  function ErrorOf(o: RowOutcome): (e: BulkError)
    ensures e.phone == (if o.RowSent? then Some(o.to) else o.phone)
  {
    match o
    case RowSent(p, _, result) => BulkError(Some(p), result.Error())
    case RowRaised(p, error) => BulkError(p, Some(error))
  }

  /** Every row's outcome, each computed from that row alone. */
  function Outcomes(job: BulkJob, rows: seq<Row>): (os: seq<RowOutcome>)
    ensures |os| == |rows|
    ensures forall i | 0 <= i < |rows| :: os[i] == BulkRow(job, rows[i], i)
  {
    seq(|rows|, i requires 0 <= i < |rows| => BulkRow(job, rows[i], i))
  }

  /** The log record a sent row leaves. */
  predicate RecordFor(rec: LogRecord, o: RowOutcome, template: string) {
    && o.RowSent?
    && rec.recipient == o.to
    && rec.message == o.rendered
    && rec.templateName == Some(template)
    && rec.success == o.result.Success()
  }

  /** The log after one row: a sent row appends its record, any other leaves the log alone. */
  function LogRow(log: Table, o: RowOutcome, row: Row, template: string, now: int, parseAmount: string -> real): (r: Table)
    ensures |r| == |log| + (if o.RowSent? then 1 else 0)
    ensures forall k | 0 <= k < |log| :: r[k] == log[k]
    ensures o.RowSent? ==> RecordFor(r[|log|], o, template)
  {
    if o.RowSent? then
      LogSms(log, now, Some(o.to), o.rendered, Some(template), Some(RowVariables(row)), o.result, parseAmount).value
    else log
  }

  /** The counters and error list after the outcomes `done`. */
  predicate CountsAfter(successful: nat, failed: nat, errors: seq<BulkError>, done: seq<RowOutcome>) {
    && successful + failed == |done|
    && successful == |Filter(done, RowSucceeded())|
    && failed == |errors| == |Filter(done, RowFailed())|
    && (forall j | 0 <= j < |errors| :: errors[j] == ErrorOf(Filter(done, RowFailed())[j]))
  }

  /** The log after the outcomes `done`: the old table, then one record per sent row. */
  predicate LogAfter(log: Table, table: Table, done: seq<RowOutcome>, template: string) {
    && |log| == |table| + |Filter(done, RowLogged())|
    && (forall k | 0 <= k < |table| :: log[k] == table[k])
    && (forall j | 0 <= j < |log| - |table| :: RecordFor(log[|table| + j], Filter(done, RowLogged())[j], template))
  }

  lemma CountsStep(successful: nat, failed: nat, errors: seq<BulkError>, done: seq<RowOutcome>, o: RowOutcome)
    requires CountsAfter(successful, failed, errors, done)
    ensures RowSucceeded()(o) ==> CountsAfter(successful + 1, failed, errors, done + [o])
    ensures !RowSucceeded()(o) ==> CountsAfter(successful, failed + 1, errors + [ErrorOf(o)], done + [o])
  {
    FilterAppend(done, o, RowSucceeded());
    FilterAppend(done, o, RowFailed());
  }

  lemma LogStep(log: Table, table: Table, done: seq<RowOutcome>, o: RowOutcome, row: Row, template: string,
                now: int, parseAmount: string -> real)
    requires LogAfter(log, table, done, template)
    ensures LogAfter(LogRow(log, o, row, template, now, parseAmount), table, done + [o], template)
  {
    FilterAppend(done, o, RowLogged());
  }

  /** What the send loop of `bulk` leaves behind once every row has its outcome:
      the counters and failure list, and the log, as they stand after all of them. */
  predicate SendLoopResult(job: BulkJob, rows: seq<Row>, table: Table,
                           successful: nat, failed: nat, errors: seq<BulkError>, log: Table) {
    var os := Outcomes(job, rows);
    CountsAfter(successful, failed, errors, os) && LogAfter(log, table, os, job.template)
  }

  /** The send loop of `bulk`: every row is attempted whatever happened to the
      rows before it; the counters add up to the number of rows, the failure
      list has one entry per failed row in row order, and the log gains one
      record per row that was sent with a phone number. */
  method BulkSend(job: BulkJob, rows: seq<Row>, table: Table, clock: nat -> int, parseAmount: string -> real)
    returns (successful: nat, failed: nat, errors: seq<BulkError>, log: Table)
    ensures SendLoopResult(job, rows, table, successful, failed, errors, log)
  {
    var os := Outcomes(job, rows);
    successful, failed, errors, log := 0, 0, [], table;
    var i := 0;
    while i < |rows|
      invariant 0 <= i <= |rows|
      invariant CountsAfter(successful, failed, errors, os[..i])
      invariant LogAfter(log, table, os[..i], job.template)
    {
      var o := BulkRow(job, rows[i], i);
      assert os[..i + 1] == os[..i] + [o];
      CountsStep(successful, failed, errors, os[..i], o);
      LogStep(log, table, os[..i], o, rows[i], job.template, clock(i), parseAmount);
      log := LogRow(log, o, rows[i], job.template, clock(i), parseAmount);
      if RowSucceeded()(o) {
        successful := successful + 1;
      } else {
        failed := failed + 1;
        errors := errors + [ErrorOf(o)];
      }
      i := i + 1;
    }
    assert os[..|rows|] == os;
  }

  /** The options of `bulk`, with the CSV already read into rows. */
  datatype BulkRequest = BulkRequest(template: string, rows: seq<Row>, preview: bool, noConfirm: bool)

  datatype BulkOutcome =
    | BulkAborted(why: Abort)
    | BulkPreviewed(missing: set<string>)
    | BulkDone(missing: set<string>, estimate: Option<real>, successful: nat, failed: nat,
               errors: seq<BulkError>, log: Table)

  /** The `bulk` command: check the provider (not in preview), check the rows
      and the template, then preview, or estimate, confirm, set up the gateway
      and run the send loop. Missing columns are only reported, and a sample
      that does not render only drops the estimate. */
  method BulkCommand(req: BulkRequest, env: SendEnv, clock: nat -> int, dbError: string) returns (r: BulkOutcome)
    ensures |req.rows| == 0 ==> r.BulkAborted?
    ensures |req.rows| > 0 && "phone" !in req.rows[0] ==> r.BulkAborted?
    ensures r.BulkAborted? ==> !r.why.MissingVariables?
    ensures r.BulkPreviewed? <==> req.preview && !r.BulkAborted?
    ensures r.BulkPreviewed? <==>
              req.preview && ProviderSetting(env.config).Ok? && BulkPrecheck(req.rows, env.store, req.template).Ok?
    ensures r.BulkDone? <==>
              && !req.preview && ProviderSetting(env.config).Ok?
              && ValidateProviderConfig(env.config, ProviderSetting(env.config).value) == Ok(true)
              && BulkPrecheck(req.rows, env.store, req.template).Ok?
              && (req.noConfirm || env.confirmAnswer)
              && InitializeGateway(env.config, ProviderSetting(env.config).value, env.atSdkInstalled).Some?
    ensures !r.BulkAborted? ==> BulkPrecheck(req.rows, env.store, req.template).Ok?
    ensures r.BulkPreviewed? ==> r.missing == BulkPrecheck(req.rows, env.store, req.template).value
    ensures r.BulkDone? ==> && r.missing == BulkPrecheck(req.rows, env.store, req.template).value
                            && (req.noConfirm || env.confirmAnswer)
                            && ProviderSetting(env.config).Ok?
                            && ValidateProviderConfig(env.config, ProviderSetting(env.config).value) == Ok(true)
    ensures r.BulkDone? ==> var sample := Render(env.store, env.jinja, req.template, RowVariables(req.rows[0]));
      r.estimate == (if sample.Ok? then Some(BulkCostEstimate(|req.rows|, sample.value)) else None)
    ensures r.BulkDone? ==>
      && ProviderSetting(env.config).Ok?
      && var gw := InitializeGateway(env.config, ProviderSetting(env.config).value, env.atSdkInstalled);
      && gw.Some?
      && SendLoopResult(BulkJob(gw.value, env.transport, env.store, env.jinja, req.template, dbError), req.rows,
                        env.log, r.successful, r.failed, r.errors, r.log)
  {
    var provider := ProviderSetting(env.config);
    if provider.Err? {
      return BulkAborted(provider.error);
    }
    if !req.preview {
      var check := ValidateProviderConfig(env.config, provider.value);
      if check.Err? {
        return BulkAborted(check.error);
      }
      if !check.value {
        return BulkAborted(ProviderNotConfigured);
      }
    }
    var pre := BulkPrecheck(req.rows, env.store, req.template);
    if pre.Err? {
      return BulkAborted(pre.error);
    }
    if req.preview {
      return BulkPreviewed(pre.value);
    }
    var sample := Render(env.store, env.jinja, req.template, RowVariables(req.rows[0]));
    var estimate := if sample.Ok? then Some(BulkCostEstimate(|req.rows|, sample.value)) else None;
    if !req.noConfirm && !env.confirmAnswer {
      return BulkAborted(Cancelled);
    }
    var gw := InitializeGateway(env.config, provider.value, env.atSdkInstalled);
    if gw.None? {
      return BulkAborted(GatewayUnavailable);
    }
    var job := BulkJob(gw.value, env.transport, env.store, env.jinja, req.template, dbError);
    var successful, failed, errors, log := BulkSend(job, req.rows, env.log, clock, env.parseAmount);
    return BulkDone(pre.value, estimate, successful, failed, errors, log);
  }

  // ---- `config show` and `config set` ----

  /** Python's `str` of a scalar configuration value. */
  function PyStr(v: Value): string
    requires !v.Node?
  {
    match v
    case Null => "None"
    case Str(s) => s
    case Int(i) => IntToString(i)
    case Bool(b) => if b then "True" else "False"
  }

  /** Whether a dotted key names a secret: it contains 'auth_token', 'api_key'
      or 'account_sid', ignoring case. */
  predicate Sensitive(key: string) {
    Contains(Lower(key), "auth_token") || Contains(Lower(key), "api_key") || Contains(Lower(key), "account_sid")
  }

  function Stars(n: nat): (s: string)
    ensures |s| == n && forall i | 0 <= i < n :: s[i] == '*'
  {
    seq(n, _ => '*')
  }

  /** `mask_value`: unless secrets are to be shown, a truthy secret longer than four
      characters shows its first four and a '*' for each of the rest. */
  function MaskValue(value: Value, key: string, showSecrets: bool): (r: Value)
    requires !value.Node?
    ensures showSecrets || !Sensitive(key) || !Truthy(value) || |PyStr(value)| <= 4 ==> r == value
    ensures !showSecrets && Sensitive(key) && Truthy(value) && |PyStr(value)| > 4 ==>
      && r.Str? && |r.s| == |PyStr(value)|
      && r.s[..4] == PyStr(value)[..4]
      && forall i | 4 <= i < |r.s| :: r.s[i] == '*'
  {
    if !showSecrets && Sensitive(key) && Truthy(value) && |PyStr(value)| > 4 then
      var text := PyStr(value);
      Str(text[..4] + Stars(|text| - 4))
    else value
  }

  /** Masking a masked value changes nothing. */
  lemma MaskIdempotent(value: Value, key: string, showSecrets: bool)
    requires !value.Node?
    ensures MaskValue(MaskValue(value, key, showSecrets), key, showSecrets) == MaskValue(value, key, showSecrets)
  {
    var m := MaskValue(value, key, showSecrets);
    if m != value {
      assert m.s == m.s[..4] + Stars(|m.s| - 4);
    }
  }

  /** `config set`: 'true' and 'false' in any case become booleans, a string
      of digits becomes a number, anything else stays text. */
  function CoerceConfigValue(text: string): (v: Value)
    ensures v.Bool? <==> Lower(text) == "true" || Lower(text) == "false"
    ensures v.Bool? ==> (v.b <==> Lower(text) == "true")
    ensures v.Int? <==> IsDigits(text) && Lower(text) != "true" && Lower(text) != "false"
    ensures v.Int? ==> v.i == ParseDigits(text)
    ensures v.Str? ==> v.s == text
    ensures v != Null && !v.Node?
  {
    if Lower(text) == "true" then Bool(true)
    else if Lower(text) == "false" then Bool(false)
    else if IsDigits(text) then Int(ParseDigits(text))
    else Str(text)
  }

  /** A value `config show` prints as a boolean, a non-negative number, or text
      that reads as neither, comes back unchanged through `config set`. */
  lemma CoerceRoundTrip(v: Value)
    requires v.Bool? || (v.Int? && v.i >= 0) || (v.Str? && Lower(v.s) != "true" && Lower(v.s) != "false" && !IsDigits(v.s))
    ensures CoerceConfigValue(PyStr(v)) == v
  {
    if v.Int? {
      var s := NatToString(v.i);
      assert Lower(s)[0] == LowerChar(s[0]) && IsDigit(s[0]);
      ParseNatToString(v.i);
    } else if v.Bool? {
      assert Lower("True") == "true";
      assert Lower("False") == "false";
    }
  }

  /** `config set key value`: the coerced value stored at the dotted key, which `config get` then shows. */
  function ConfigSet(config: Value, key: string, text: string): (r: Result<Value, ConfigError>)
    ensures r.Ok? <==> Settable(config, Keys(key))
    ensures r.Ok? ==> GetValue(r.value, key, Null) == CoerceConfigValue(text)
  {
    SetValue(config, key, CoerceConfigValue(text))
  }
}
