/** The SMS gateway: provider selection at construction, one normalised result
    per send whatever the provider answered, bulk sends, and the cost estimate.
    The provider SDKs are an abstract `Transport`; what they answered is data. */
module SmsGateway {
  import opened Wrappers

  /** The number a message goes to. Personalised bulk sends read it with
      `row.get('phone')`, so it can be absent. */
  type Recipient = Option<string>

  /** A constructed gateway, holding what its provider needs at send time. */
  datatype Gateway =
    | Twilio(fromNumber: Option<string>)
    | AfricasTalking(senderId: Option<string>)

  datatype GatewayError =
    | UnsupportedProvider(provider: string)
    | SdkMissing
  {
    function Message(): string {
      match this
      case UnsupportedProvider(p) => "Unsupported provider: " + p
      case SdkMissing => "africastalking package is not installed. Run: pip install africastalking"
    }
  }

  /** The keyword credentials given to the constructor; a value may be `None`. */
  type Credentials = map<string, Option<string>>

  /** `credentials.get(key)`, with an explicit `None` and a missing key alike. */
  function Credential(credentials: Credentials, key: string): (r: Option<string>)
    ensures r.Some? <==> key in credentials && credentials[key].Some?
    ensures r.Some? ==> r == credentials[key]
  {
    if key in credentials then credentials[key] else None
  }

  /** The constructor: 'twilio' keeps the sending number, 'africas_talking' the
      sender id (and needs the africastalking package), anything else is refused. */
  function NewGateway(provider: string, credentials: Credentials, atSdkInstalled: bool): (r: Result<Gateway, GatewayError>)
    ensures r.Ok? <==> provider == "twilio" || (provider == "africas_talking" && atSdkInstalled)
    ensures r.Ok? && provider == "twilio" ==> r.value == Twilio(Credential(credentials, "phone_number"))
    ensures r.Ok? && provider != "twilio" ==> r.value == AfricasTalking(Credential(credentials, "sender_id"))
    ensures r.Err? && provider == "africas_talking" ==> r.error == SdkMissing
    ensures r.Err? && provider != "africas_talking" ==> r.error == UnsupportedProvider(provider)
  {
    if provider == "twilio" then Ok(Twilio(Credential(credentials, "phone_number")))
    else if provider == "africas_talking" then
      if atSdkInstalled then Ok(AfricasTalking(Credential(credentials, "sender_id"))) else Err(SdkMissing)
    else Err(UnsupportedProvider(provider))
  }

  /** What Twilio's `messages.create` did: created a message, raised a
      `TwilioRestException`, or raised anything else (rendered with `str`). */
  datatype TwilioReply =
    | Created(sid: string, status: string, sender: Option<string>, segments: Option<int>,
              price: Option<string>, priceUnit: Option<string>)
    | RestError(msg: string, code: Option<int>)
    | TwilioRaised(text: string)

  /** One entry of Africa's Talking's `SMSMessageData.Recipients`. */
  datatype AtRecipient = AtRecipient(status: Option<string>, messageId: Option<string>, cost: Option<string>)

  /** What Africa's Talking's `SMS.send` did: answered with its recipient list, or raised. */
  datatype AtReply =
    | AtResponse(recipients: seq<AtRecipient>)
    | AtRaised(text: string)

  /** The providers' SDKs. `call` numbers the sends, so answers may differ from one send to the next. */
  datatype Transport = Transport(
    twilio: (nat, Recipient, Option<string>, string) -> TwilioReply,
    africasTalking: (nat, seq<Recipient>, Option<string>, string) -> AtReply)

  /** The dictionary `send` returns, one constructor per shape it can have. */
  datatype SendResult =
    | Queued(to: Recipient, messageSid: string, status: string, sender: Option<string>,
             segments: Option<int>, price: Option<string>, priceUnit: Option<string>)
    | Reported(to: Recipient, messageId: Option<string>, status: string, cost: Option<string>)
    | Failed(to: Recipient, error: string, errorCode: Option<int>)
  {
    /** `result['success']`. */
    predicate Success() {
      Queued? || (Reported? && status == "Success")
    }

    /** `result.get('message_sid')`. */
    function MessageSid(): Option<string> {
      if Queued? then Some(messageSid) else None
    }

    /** `result.get('status')`. */
    function Status(): Option<string> {
      if Failed? then None else Some(status)
    }

    /** `result.get('segments')`. */
    function Segments(): Option<int> {
      if Queued? then segments else None
    }

    /** `result.get('price')`: only Twilio reports one. */
    function Price(): Option<string> {
      if Queued? then price else None
    }

    /** `result.get('error')`. */
    function Error(): Option<string> {
      if Failed? then Some(error) else None
    }
  }

  /** `from_number or self.from_number`: a non-empty override wins. */
  function EffectiveSender(gatewayNumber: Option<string>, override: Option<string>): (r: Option<string>)
    ensures override.Some? && override.value != "" ==> r == override
    ensures (override.None? || override.value == "") ==> r == gatewayNumber
  {
    if override.Some? && override.value != "" then override else gatewayNumber
  }

  /** `_send_twilio`'s result dictionary for what Twilio did. */
  function FromTwilio(to: Recipient, reply: TwilioReply): (r: SendResult)
    ensures r.to == to
    ensures r.Success() <==> reply.Created?
    ensures reply.Created? ==> r.MessageSid() == Some(reply.sid) && r.Status() == Some(reply.status)
                               && r.Segments() == reply.segments && r.Price() == reply.price
    ensures reply.RestError? ==> r == Failed(to, reply.msg, reply.code)
    ensures reply.TwilioRaised? ==> r == Failed(to, reply.text, None)
  {
    match reply
    case Created(sid, status, sender, segments, price, unit) => Queued(to, sid, status, sender, segments, price, unit)
    case RestError(msg, code) => Failed(to, msg, code)
    case TwilioRaised(text) => Failed(to, text, None)
  }

  /** `_send_africas_talking`'s result dictionary for what Africa's Talking did. */
  function FromAfricasTalking(to: Recipient, reply: AtReply): (r: SendResult)
    ensures r.to == to
    ensures r.Success() <==> reply.AtResponse? && |reply.recipients| > 0
                             && reply.recipients[0].status == Some("Success")
    ensures reply.AtResponse? && |reply.recipients| == 0 ==> r == Failed(to, "No recipients in response", None)
    ensures reply.AtResponse? && |reply.recipients| > 0 && reply.recipients[0].status.None? ==>
              r == Failed(to, "'status'", None)
    ensures reply.AtResponse? && |reply.recipients| > 0 && reply.recipients[0].status.Some? ==>
              r.Status() == reply.recipients[0].status && r.Error().None?
    ensures reply.AtRaised? ==> r == Failed(to, reply.text, None)
    ensures r.MessageSid().None? && r.Price().None?
  {
    match reply
    case AtRaised(text) => Failed(to, text, None)
    case AtResponse(recipients) =>
      if |recipients| == 0 then Failed(to, "No recipients in response", None)
      else
        var first := recipients[0];
        match first.status
        case None => Failed(to, "'status'", None)
        case Some(status) => Reported(to, first.messageId, status, first.cost)
  }

  /** `send`: dispatch on the provider; every outcome, raised or not, is a result
      addressed to `to`. Africa's Talking ignores the sender override. */
  function Send(gw: Gateway, t: Transport, call: nat, to: Recipient, message: string, override: Option<string>): (r: SendResult)
    ensures r.to == to
    ensures gw.Twilio? ==> r == FromTwilio(to, t.twilio(call, to, EffectiveSender(gw.fromNumber, override), message))
    ensures gw.AfricasTalking? ==> r == FromAfricasTalking(to, t.africasTalking(call, [to], gw.senderId, message))
  {
    match gw
    case Twilio(number) => FromTwilio(to, t.twilio(call, to, EffectiveSender(number, override), message))
    case AfricasTalking(senderId) => FromAfricasTalking(to, t.africasTalking(call, [to], senderId, message))
  }

  /** `send_bulk`: the same message to every recipient, one result each, in
      order; the `i`-th send is call `i`. A failed send does not stop the rest. */
  method SendBulk(gw: Gateway, t: Transport, recipients: seq<string>, message: string) returns (results: seq<SendResult>)
    ensures |results| == |recipients|
    ensures forall i | 0 <= i < |results| :: results[i] == Send(gw, t, i, Some(recipients[i]), message, None)
    ensures forall i | 0 <= i < |results| :: results[i].to == Some(recipients[i])
  {
    results := [];
    var i := 0;
    while i < |recipients|
      invariant 0 <= i <= |recipients|
      invariant |results| == i
      invariant forall j | 0 <= j < i :: results[j] == Send(gw, t, j, Some(recipients[j]), message, None)
    {
      var result := Send(gw, t, i, Some(recipients[i]), message, None);
      results := results + [result];
      i := i + 1;
    }
  }

  /** A row of recipient data: column name to value. */
  type Row = map<string, string>

  /** The message callback raised on row `row` after `row` messages had gone out. */
  datatype CallbackFailure = CallbackFailure(row: nat, error: string)

  /** `send_bulk_personalized`: row `i` goes to its 'phone' column with the
      callback's message. The callback's exception is not caught: it ends the
      whole call and the results gathered so far are lost. */
  method SendBulkPersonalized(gw: Gateway, t: Transport, rows: seq<Row>, callback: Row -> Result<string, string>)
    returns (r: Result<seq<SendResult>, CallbackFailure>)
    ensures r.Ok? <==> forall i | 0 <= i < |rows| :: callback(rows[i]).Ok?
    ensures r.Ok? ==> |r.value| == |rows|
    ensures r.Ok? ==> forall i | 0 <= i < |rows| ::
              r.value[i] == Send(gw, t, i, Get(rows[i], "phone"), callback(rows[i]).value, None)
    ensures r.Err? ==> (r.error.row < |rows| && callback(rows[r.error.row]) == Err(r.error.error)
                        && forall i | 0 <= i < r.error.row :: callback(rows[i]).Ok?)
  {
    var results: seq<SendResult> := [];
    var i := 0;
    while i < |rows|
      invariant 0 <= i <= |rows|
      invariant |results| == i
      invariant forall j | 0 <= j < i :: callback(rows[j]).Ok?
      invariant forall j | 0 <= j < i :: results[j] == Send(gw, t, j, Get(rows[j], "phone"), callback(rows[j]).value, None)
    {
      var phone := Get(rows[i], "phone");
      var message := callback(rows[i]);
      if message.Err? {
        return Err(CallbackFailure(i, message.error));
      }
      var result := Send(gw, t, i, phone, message.value, None);
      results := results + [result];
      i := i + 1;
    }
    return Ok(results);
  }

  /** Price per segment, in US dollars. */
  const TWILIO_RATE: real := 0.0079
  const AFRICAS_TALKING_RATE: real := 0.008

  /** `get_cost_estimate`'s dictionary. */
  datatype CostEstimate = CostEstimate(segments: int, recipients: int, costPerSegment: real, totalCost: real, currency: string)

  /** The rate table, with Twilio's rate for any provider it does not list. */
  function RateFor(provider: string): (rate: real)
    ensures rate > 0.0
    ensures provider == "africas_talking" ==> rate == AFRICAS_TALKING_RATE
    ensures provider != "africas_talking" ==> rate == TWILIO_RATE
  {
    if provider == "twilio" then TWILIO_RATE
    else if provider == "africas_talking" then AFRICAS_TALKING_RATE
    else TWILIO_RATE
  }

  /** `get_cost_estimate`: segments × recipients × rate, in dollars. */
  function GetCostEstimate(segments: int, recipientCount: int, provider: string): (e: CostEstimate)
    ensures e.segments == segments && e.recipients == recipientCount
    ensures e.costPerSegment == RateFor(provider)
    ensures e.totalCost == 0.0 <==> segments == 0 || recipientCount == 0
    ensures segments >= 0 && recipientCount >= 0 ==> e.totalCost >= 0.0
    ensures e.currency == "USD"
  {
    var rate := RateFor(provider);
    var total := (segments * recipientCount) as real * rate;
    assert total == 0.0 <==> segments * recipientCount == 0;
    CostEstimate(segments, recipientCount, rate, total, "USD")
  }

  /** The estimate is additive in the segment count: two messages cost their sum. */
  lemma {:induction false} CostAdditive(s1: int, s2: int, n: int, provider: string)
    ensures GetCostEstimate(s1 + s2, n, provider).totalCost
            == GetCostEstimate(s1, n, provider).totalCost + GetCostEstimate(s2, n, provider).totalCost
  {
    var rate := RateFor(provider);
    assert (s1 + s2) * n == s1 * n + s2 * n;
    assert ((s1 * n + s2 * n) as real) * rate == (s1 * n) as real * rate + (s2 * n) as real * rate;
  }

  /** Africa's Talking's rate is above Twilio's, so an estimate never drops on switching to it. */
  lemma {:induction false} AfricasTalkingCostsMore(segments: nat, n: nat)
    ensures GetCostEstimate(segments, n, "twilio").totalCost <= GetCostEstimate(segments, n, "africas_talking").totalCost
  {
    var k := (segments * n) as real;
    assert k >= 0.0;
    assert k * TWILIO_RATE <= k * AFRICAS_TALKING_RATE;
  }
}
