/** The delivery log: the `sms_logs` table as a sequence of records in insertion
    order, with the store's operations over it. Time is whole seconds and every
    operation that reads the clock takes `now` as a parameter. */
module DeliveryLog {
  import opened Wrappers
  import opened Sequences
  import SmsGateway

  /** Template variables as the send commands collect them. */
  type Variables = map<string, string>

  /** One row of `sms_logs`. `variables` keeps the map the JSON column encodes. */
  datatype LogRecord = LogRecord(
    id: nat,
    recipient: string,
    message: string,
    templateName: Option<string>,
    variables: Option<Variables>,
    messageSid: Option<string>,
    status: Option<string>,
    segments: Option<int>,
    cost: Option<real>,
    success: bool,
    error: Option<string>,
    sentAt: int)

  type Table = seq<LogRecord>

  /** Primary keys are unique. */
  predicate IdsUnique(table: Table) {
    forall i, j | 0 <= i < j < |table| :: table[i].id != table[j].id
  }

  /** SQLite's choice of a new row id: one more than the largest in use. */
  function NextId(table: Table): (id: nat)
    ensures forall i | 0 <= i < |table| :: table[i].id < id
  {
    if |table| == 0 then 1
    else
      var rest := NextId(table[..|table| - 1]);
      assert forall i | 0 <= i < |table| - 1 :: table[..|table| - 1][i] == table[i];
      if table[|table| - 1].id < rest then rest else table[|table| - 1].id + 1
  }

  /** Why the insert fails: `recipient` is NOT NULL. */
  datatype LogError = RecipientMissing

  /** The `cost` column: the price as a number, or NULL when there is no price or it is empty. */
  function CostOf(price: Option<string>, parseAmount: string -> real): (c: Option<real>)
    ensures c.Some? <==> price.Some? && price.value != ""
    ensures c.Some? ==> c.value == parseAmount(price.value)
  {
    if price.Some? && price.value != "" then Some(parseAmount(price.value)) else None
  }

  /** The `variables` column: only a non-empty map is stored. */
  function StoredVariables(variables: Option<Variables>): (v: Option<Variables>)
    ensures v.Some? <==> variables.Some? && |variables.value| > 0
    ensures v.Some? ==> v == variables
  {
    if variables.Some? && |variables.value| > 0 then variables else None
  }

  /** `log_sms`: appends one record for a send attempt at time `now`.
      `parseAmount` stands for `float` on the provider's price text. */
  function LogSms(table: Table, now: int, recipient: SmsGateway.Recipient, message: string,
                  templateName: Option<string>, variables: Option<Variables>,
                  result: SmsGateway.SendResult, parseAmount: string -> real): (r: Result<Table, LogError>)
    ensures r.Err? <==> recipient.None?
    ensures r.Ok? ==> |r.value| == |table| + 1 && forall i | 0 <= i < |table| :: r.value[i] == table[i]
    ensures r.Ok? ==> var rec := r.value[|table|];
      && rec.recipient == recipient.value && rec.message == message && rec.templateName == templateName
      && rec.variables == StoredVariables(variables)
      && rec.messageSid == result.MessageSid() && rec.status == result.Status()
      && rec.segments == result.Segments() && rec.cost == CostOf(result.Price(), parseAmount)
      && rec.success == result.Success() && rec.error == result.Error()
      && rec.sentAt == now
      && forall i | 0 <= i < |table| :: table[i].id < rec.id
  {
    match recipient
    case None => Err(RecipientMissing)
    case Some(to) =>
      var rec := LogRecord(NextId(table), to, message, templateName, StoredVariables(variables),
                           result.MessageSid(), result.Status(), result.Segments(),
                           CostOf(result.Price(), parseAmount), result.Success(), result.Error(), now);
      Ok(table + [rec])
  }

  /** Logging keeps primary keys unique. */
  lemma {:induction false} LogSmsKeepsIdsUnique(table: Table, now: int, recipient: SmsGateway.Recipient, message: string,
                                               templateName: Option<string>, variables: Option<Variables>,
                                               result: SmsGateway.SendResult, parseAmount: string -> real)
    requires IdsUnique(table)
    ensures var r := LogSms(table, now, recipient, message, templateName, variables, result, parseAmount);
            r.Ok? ==> IdsUnique(r.value)
  {
    var r := LogSms(table, now, recipient, message, templateName, variables, result, parseAmount);
    if r.Ok? {
      var t := r.value;
      forall i, j | 0 <= i < j < |t| ensures t[i].id != t[j].id {
        if j < |table| {
          assert t[i] == table[i] && t[j] == table[j];
        } else {
          assert t[i] == table[i];
        }
      }
    }
  }

  /** A value of the dictionary `to_dict` builds. */
  datatype Field =
    | IntField(i: int)
    | TextField(s: string)
    | RealField(x: real)
    | BoolField(b: bool)
    | VariablesField(vars: Variables)
    | TimeField(t: int)
    | NoneField

  function OptionalText(o: Option<string>): Field {
    if o.Some? then TextField(o.value) else NoneField
  }

  const DICT_KEYS: set<string> := {"id", "recipient", "message", "template", "variables", "message_sid",
                                   "status", "segments", "cost", "success", "error", "sent_at"}

  /** `SMSLog.to_dict`: the record's columns under their exported names,
      with the variables decoded back into a map. */
  function ToDict(rec: LogRecord): (d: map<string, Field>)
    ensures d.Keys == DICT_KEYS
    ensures d["id"] == IntField(rec.id) && d["recipient"] == TextField(rec.recipient)
    ensures d["template"] == OptionalText(rec.templateName)
    ensures d["variables"] == (if rec.variables.Some? then VariablesField(rec.variables.value) else NoneField)
    ensures d["success"] == BoolField(rec.success) && d["sent_at"] == TimeField(rec.sentAt)
    ensures d["message"] == TextField(rec.message)
    ensures d["message_sid"] == OptionalText(rec.messageSid) && d["status"] == OptionalText(rec.status)
    ensures d["segments"] == (if rec.segments.Some? then IntField(rec.segments.value) else NoneField)
    ensures d["cost"] == (if rec.cost.Some? then RealField(rec.cost.value) else NoneField)
    ensures d["error"] == OptionalText(rec.error)
  {
    map k | k in DICT_KEYS :: Column(rec, k)
  }

  /** The value `to_dict` puts under the exported name `k`. */
  function Column(rec: LogRecord, k: string): Field {
    match k
    case "id" => IntField(rec.id)
    case "recipient" => TextField(rec.recipient)
    case "message" => TextField(rec.message)
    case "template" => OptionalText(rec.templateName)
    case "variables" => if rec.variables.Some? then VariablesField(rec.variables.value) else NoneField
    case "message_sid" => OptionalText(rec.messageSid)
    case "status" => OptionalText(rec.status)
    case "segments" => if rec.segments.Some? then IntField(rec.segments.value) else NoneField
    case "cost" => if rec.cost.Some? then RealField(rec.cost.value) else NoneField
    case "success" => BoolField(rec.success)
    case "error" => OptionalText(rec.error)
    case "sent_at" => TimeField(rec.sentAt)
    case _ => NoneField
  }

  /** `to_dict` loses nothing: two records with the same dictionary are the same record. */
  lemma ToDictInjective(a: LogRecord, b: LogRecord)
    requires ToDict(a) == ToDict(b)
    ensures a == b
  {
  }

  /** The variables given to `log_sms` come back from `to_dict` when there were any. */
  lemma {:induction false} LoggedVariablesRoundTrip(table: Table, now: int, recipient: string, message: string,
                                                   templateName: Option<string>, variables: Variables,
                                                   result: SmsGateway.SendResult, parseAmount: string -> real)
    ensures var r := LogSms(table, now, Some(recipient), message, templateName, Some(variables), result, parseAmount);
            && r.Ok?
            && ToDict(r.value[|table|])["variables"]
               == (if |variables| > 0 then VariablesField(variables) else NoneField)
  {
    var r := LogSms(table, now, Some(recipient), message, templateName, Some(variables), result, parseAmount);
    assert r.value[|table|].variables == StoredVariables(Some(variables));
  }

  /** The filters of `get_history`. An empty or absent recipient or template
      means no filter; so does an absent success flag or date. */
  datatype HistoryQuery = HistoryQuery(
    limit: int,
    recipient: Option<string>,
    template: Option<string>,
    successOnly: Option<bool>,
    startDate: Option<int>,
    endDate: Option<int>)

  /** The query `export_logs` runs: the newest `limit` records, unfiltered. */
  function Unfiltered(limit: int): HistoryQuery {
    HistoryQuery(limit, None, None, None, None, None)
  }

  predicate Matches(q: HistoryQuery, rec: LogRecord) {
    && (q.recipient.None? || q.recipient.value == "" || rec.recipient == q.recipient.value)
    && (q.template.None? || q.template.value == "" || rec.templateName == q.template)
    && (q.successOnly.None? || rec.success == q.successOnly.value)
    && (q.startDate.None? || rec.sentAt >= q.startDate.value)
    && (q.endDate.None? || rec.sentAt <= q.endDate.value)
  }

  function MatchesQuery(q: HistoryQuery): LogRecord -> bool {
    (rec: LogRecord) => Matches(q, rec)
  }

  /** `ORDER BY sent_at DESC`; of two records sent in the same second, the later insert comes first. */
  predicate NewerOrSame(a: LogRecord, b: LogRecord) {
    a.sentAt > b.sentAt || (a.sentAt == b.sentAt && a.id >= b.id)
  }

  function NewestFirst(): (LogRecord, LogRecord) -> bool {
    (a: LogRecord, b: LogRecord) => NewerOrSame(a, b)
  }

  lemma NewestFirstIsTotalPreorder()
    ensures TotalPreorder(NewestFirst())
  {
  }

  /** `get_history`: the matching records, newest first, at most `limit` of them
      (all of them when `limit` is negative). No matching record left out is newer
      than one returned, and under the limit none is left out. */
  function GetHistory(table: Table, q: HistoryQuery): (r: seq<LogRecord>)
    ensures forall i | 0 <= i < |r| :: Matches(q, r[i]) && r[i] in table
    ensures forall i, j | 0 <= i < j < |r| :: NewerOrSame(r[i], r[j])
    ensures |r| == |Take(Filter(table, MatchesQuery(q)), q.limit)|
    ensures forall x, i | x in table && Matches(q, x) && x !in r && 0 <= i < |r| :: NewerOrSame(r[i], x)
    ensures (q.limit < 0 || |Filter(table, MatchesQuery(q))| <= q.limit) ==>
              forall x | x in table && Matches(q, x) :: x in r
    ensures multiset(r) <= multiset(Filter(table, MatchesQuery(q)))
    ensures (q.limit < 0 || |Filter(table, MatchesQuery(q))| <= q.limit) ==>
              multiset(r) == multiset(Filter(table, MatchesQuery(q)))
  {
    NewestFirstIsTotalPreorder();
    SelectOrdered(table, MatchesQuery(q), NewestFirst(), q.limit)
  }

  /** In a newest-first list, every member lies between the last and the first in time. */
  lemma NewestFirstBounds(s: seq<LogRecord>, x: LogRecord)
    requires forall i, j | 0 <= i < j < |s| :: NewerOrSame(s[i], s[j])
    requires x in s
    ensures s[|s| - 1].sentAt <= x.sentAt <= s[0].sentAt
  {
    var k :| 0 <= k < |s| && s[k] == x;
    if 0 < k { assert NewerOrSame(s[0], s[k]); }
    if k < |s| - 1 { assert NewerOrSame(s[k], s[|s| - 1]); }
  }

  /** A matching record that no other record equals or beats in the newest-first
      order heads any history with a non-zero limit. */
  lemma NewestHeadsHistory(t: Table, q: HistoryQuery, k: nat)
    requires k < |t| && Matches(q, t[k]) && q.limit != 0
    requires forall i | 0 <= i < |t| && NewerOrSame(t[i], t[k]) :: t[i] == t[k]
    ensures var h := GetHistory(t, q); |h| > 0 && h[0] == t[k]
  {
    var rec := t[k];
    var h := GetHistory(t, q);
    FilterMembers(t, MatchesQuery(q));
    assert rec in Filter(t, MatchesQuery(q));
    assert NewerOrSame(h[0], rec) by {
      if rec in h {
        var j :| 0 <= j < |h| && h[j] == rec;
        if j > 0 { assert NewerOrSame(h[0], h[j]); }
      }
    }
    var j :| 0 <= j < |t| && t[j] == h[0];
  }

  /** A record just logged at a time no earlier than any other is the first one `get_history` returns. */
  lemma NewestLoggedComesFirst(table: Table, now: int, recipient: string, message: string,
                               templateName: Option<string>, variables: Option<Variables>,
                               result: SmsGateway.SendResult, parseAmount: string -> real, limit: int)
    requires forall i | 0 <= i < |table| :: table[i].sentAt <= now
    requires limit != 0
    ensures var t := LogSms(table, now, Some(recipient), message, templateName, variables, result, parseAmount).value;
            var h := GetHistory(t, Unfiltered(limit));
            |h| > 0 && h[0] == t[|table|]
  {
    var t := LogSms(table, now, Some(recipient), message, templateName, variables, result, parseAmount).value;
    NewestHeadsHistory(t, Unfiltered(limit), |table|);
  }

  /** `get_recipient_history`'s dictionary. The first and last message times are
      absent when the recipient has no messages. */
  datatype RecipientHistory = RecipientHistory(
    recipient: string,
    totalMessages: nat,
    successful: nat,
    failed: int,
    totalCost: real,
    firstMessage: Option<int>,
    lastMessage: Option<int>,
    messages: seq<LogRecord>)

  /** Costs added up, NULL counting as zero. */
  function CostSum(records: seq<LogRecord>): real {
    if |records| == 0 then 0.0
    else CostSum(records[..|records| - 1]) + records[|records| - 1].cost.GetOr(0.0)
  }

  function Succeeded(): LogRecord -> bool {
    (rec: LogRecord) => rec.success
  }

  function SentTo(recipient: string): LogRecord -> bool {
    (rec: LogRecord) => rec.recipient == recipient
  }

  function SentSince(cutoff: int): LogRecord -> bool {
    (rec: LogRecord) => rec.sentAt >= cutoff
  }

  function SentBefore(cutoff: int): LogRecord -> bool {
    (rec: LogRecord) => rec.sentAt < cutoff
  }

  function SuccessCount(records: seq<LogRecord>): (n: nat)
    ensures n <= |records|
  {
    |Filter(records, Succeeded())|
  }

  /** Every message to `recipient`, newest first. */
  function RecipientMessages(table: Table, recipient: string): (m: seq<LogRecord>)
    ensures |m| == |Filter(table, SentTo(recipient))|
    ensures forall i | 0 <= i < |m| :: m[i].recipient == recipient && m[i] in table
    ensures forall i, j | 0 <= i < j < |m| :: NewerOrSame(m[i], m[j])
    ensures forall i | 0 <= i < |table| && table[i].recipient == recipient :: table[i] in m
    ensures multiset(m) == multiset(Filter(table, SentTo(recipient)))
  {
    NewestFirstIsTotalPreorder();
    var m := SelectOrdered(table, SentTo(recipient), NewestFirst(), -1);
    assert forall i | 0 <= i < |table| && table[i].recipient == recipient :: SentTo(recipient)(table[i]);
    m
  }

  lemma RecipientMessagesBounds(table: Table, recipient: string)
    ensures var m := RecipientMessages(table, recipient);
            forall i | 0 <= i < |table| && table[i].recipient == recipient ::
              m[|m| - 1].sentAt <= table[i].sentAt <= m[0].sentAt
  {
    var m := RecipientMessages(table, recipient);
    forall i | 0 <= i < |table| && table[i].recipient == recipient
      ensures m[|m| - 1].sentAt <= table[i].sentAt <= m[0].sentAt
    {
      NewestFirstBounds(m, table[i]);
    }
  }

  /** `get_recipient_history`: every message to `recipient`, newest first, of which the ten newest are listed. */
  function GetRecipientHistory(table: Table, recipient: string): (r: RecipientHistory)
    ensures r.recipient == recipient
    ensures r.totalMessages == |Filter(table, SentTo(recipient))|
    ensures r.successful <= r.totalMessages && r.failed == r.totalMessages - r.successful
    ensures r.firstMessage.Some? <==> r.totalMessages > 0
    ensures r.lastMessage.Some? <==> r.totalMessages > 0
    ensures r.totalMessages > 0 ==> forall i | 0 <= i < |table| && table[i].recipient == recipient ::
              r.firstMessage.value <= table[i].sentAt <= r.lastMessage.value
    ensures |r.messages| == if r.totalMessages < 10 then r.totalMessages else 10
    ensures forall i | 0 <= i < |r.messages| :: r.messages[i] == RecipientMessages(table, recipient)[i]
    ensures r.successful == SuccessCount(RecipientMessages(table, recipient))
    ensures r.totalCost == CostSum(RecipientMessages(table, recipient))
    ensures r.totalMessages > 0 ==>
              var m := RecipientMessages(table, recipient);
              r.firstMessage == Some(m[|m| - 1].sentAt) && r.lastMessage == Some(m[0].sentAt)
  {
    var messages := RecipientMessages(table, recipient);
    var total := |messages|;
    var successful := SuccessCount(messages);
    RecipientMessagesBounds(table, recipient);
    RecipientHistory(
      recipient,
      total,
      successful,
      total - successful,
      CostSum(messages),
      if total > 0 then Some(messages[total - 1].sentAt) else None,
      if total > 0 then Some(messages[0].sentAt) else None,
      Take(messages, 10))
  }

  /** Costs add up piecewise. */
  lemma {:induction false} CostSumConcat(u: seq<LogRecord>, v: seq<LogRecord>)
    ensures CostSum(u + v) == CostSum(u) + CostSum(v)
    decreases |v|
  {
    if |v| > 0 {
      assert (u + v)[..|u + v| - 1] == u + v[..|v| - 1];
      CostSumConcat(u, v[..|v| - 1]);
    } else {
      assert u + v == u;
    }
  }

  /** The total cost does not depend on the order the records come in. */
  lemma {:induction false} CostSumPermutation(a: seq<LogRecord>, b: seq<LogRecord>)
    requires multiset(a) == multiset(b)
    ensures CostSum(a) == CostSum(b)
    decreases |a|
  {
    if |a| == 0 {
      assert |multiset(b)| == 0;
    } else {
      var k := MatchFirst(a, b);
      var x, left, right := a[0], b[..k], b[k + 1..];
      CostSumPermutation(a[1..], left + right);
      assert a == [x] + a[1..];
      assert CostSum([x]) == x.cost.GetOr(0.0) by { assert [x][..0] == []; }
      CostSumConcat([x], a[1..]);
      CostSumConcat(left + [x], right);
      CostSumConcat(left, [x]);
      CostSumConcat(left, right);
    }
  }

  /** The counts `get_recipient_history` reports are those of the recipient's rows in
      the table, whatever order they are listed in: the successes among them, and
      their costs added up. */
  lemma RecipientHistoryCounts(table: Table, recipient: string)
    ensures var h := GetRecipientHistory(table, recipient);
      && h.successful == |Filter(Filter(table, SentTo(recipient)), Succeeded())|
      && h.totalCost == CostSum(Filter(table, SentTo(recipient)))
  {
    var m := RecipientMessages(table, recipient);
    FilterCountPermutation(m, Filter(table, SentTo(recipient)), Succeeded());
    CostSumPermutation(m, Filter(table, SentTo(recipient)));
  }

  /** The messages `get_recipient_history` lists are the recipient's newest, newest first:
      any message to the recipient left off the list is no newer than every listed one. */
  lemma RecipientHistoryListsNewest(table: Table, recipient: string)
    ensures var h := GetRecipientHistory(table, recipient);
      && (forall i | 0 <= i < |h.messages| :: h.messages[i].recipient == recipient && h.messages[i] in table)
      && (forall i, j | 0 <= i < j < |h.messages| :: NewerOrSame(h.messages[i], h.messages[j]))
      && (forall k, i | 0 <= k < |table| && table[k].recipient == recipient && table[k] !in h.messages
                        && 0 <= i < |h.messages| :: NewerOrSame(h.messages[i], table[k]))
  {
    var m := RecipientMessages(table, recipient);
    var listed := GetRecipientHistory(table, recipient).messages;
    assert SortedBy(m, NewestFirst());
    forall k | 0 <= k < |table| && table[k].recipient == recipient && table[k] !in listed
      ensures forall i | 0 <= i < |listed| :: NewerOrSame(listed[i], table[k])
    {
      PrefixPrecedesRest(m, listed, NewestFirst(), table[k]);
    }
  }

  /** The instant `days` days before `now`. */
  function Cutoff(now: int, days: int): int {
    now - days * 86400
  }

  /** `delete_old_logs`: removes the records sent before `now` minus `days` days
      and returns how many went. */
  function DeleteOldLogs(table: Table, now: int, days: int): (r: (Table, nat))
    ensures var cutoff := Cutoff(now, days);
      && r.0 == Filter(table, SentSince(cutoff))
      && r.1 == |Filter(table, SentBefore(cutoff))|
      && r.1 + |r.0| == |table|
      && (forall i | 0 <= i < |r.0| :: r.0[i].sentAt >= cutoff)
      && (forall i | 0 <= i < |table| :: table[i].sentAt >= cutoff ==> table[i] in r.0)
  {
    var cutoff := Cutoff(now, days);
    FilterSplits(table, SentSince(cutoff), SentBefore(cutoff));
    FilterMembers(table, SentSince(cutoff));
    (Filter(table, SentSince(cutoff)), |Filter(table, SentBefore(cutoff))|)
  }

  /** Deleting again with the same cutoff removes nothing and keeps every record. */
  lemma {:induction false} DeleteOldLogsIdempotent(table: Table, now: int, days: int)
    ensures DeleteOldLogs(DeleteOldLogs(table, now, days).0, now, days).1 == 0
    ensures DeleteOldLogs(DeleteOldLogs(table, now, days).0, now, days).0 == DeleteOldLogs(table, now, days).0
  {
    var cutoff := Cutoff(now, days);
    var kept := DeleteOldLogs(table, now, days).0;
    FilterNone(kept, SentBefore(cutoff));
    FilterAll(kept, SentSince(cutoff));
  }

  lemma {:induction false} FilterAll(s: seq<LogRecord>, p: LogRecord -> bool)
    requires forall i | 0 <= i < |s| :: p(s[i])
    ensures Filter(s, p) == s
  {
    if |s| > 0 {
      FilterAll(s[1..], p);
      assert s == [s[0]] + s[1..];
    }
  }

  lemma {:induction false} FilterNone(s: seq<LogRecord>, p: LogRecord -> bool)
    requires forall i | 0 <= i < |s| :: !p(s[i])
    ensures Filter(s, p) == []
  {
    if |s| > 0 {
      FilterNone(s[1..], p);
    }
  }

  /** What `export_logs` produces. The CSV text itself is left to an encoder. */
  datatype Export =
    | Dicts(rows: seq<map<string, Field>>)
    | CsvText(text: string)

  datatype ExportError = UnsupportedFormat(format: string) {
    function Message(): string {
      "Unsupported format: " + format
    }
  }

  function MapToDict(logs: seq<LogRecord>): (rows: seq<map<string, Field>>)
    ensures |rows| == |logs|
    ensures forall i | 0 <= i < |logs| :: rows[i] == ToDict(logs[i]) && rows[i].Keys == DICT_KEYS
  {
    seq(|logs|, i requires 0 <= i < |logs| => ToDict(logs[i]))
  }

  /** `export_logs`: the newest `limit` records as dictionaries or as CSV. The CSV
      writer takes its header from the first row; every row has those same keys. */
  function ExportLogs(table: Table, format: string, limit: int, csvEncode: seq<map<string, Field>> -> string)
    : (r: Result<Export, ExportError>)
    ensures r.Ok? <==> format == "dict" || format == "csv"
    ensures r.Err? ==> r.error == UnsupportedFormat(format)
    ensures r.Ok? && format == "dict" ==> var logs := GetHistory(table, Unfiltered(limit));
              && r.value.Dicts? && |r.value.rows| == |logs|
              && forall i | 0 <= i < |logs| :: r.value.rows[i] == ToDict(logs[i])
    ensures r.Ok? && format == "dict" ==> |r.value.rows| == |Take(table, limit)|
    ensures r.Ok? && format == "csv" ==> r.value.CsvText?
    ensures r.Ok? && format == "csv" && (|table| == 0 || limit == 0) ==> r.value.text == ""
    ensures r.Ok? && format == "csv" ==> var logs := GetHistory(table, Unfiltered(limit));
              r.value.text == (if |logs| == 0 then "" else csvEncode(MapToDict(logs)))
  {
    var logs := GetHistory(table, Unfiltered(limit));
    assert Filter(table, MatchesQuery(Unfiltered(limit))) == table by {
      FilterAll(table, MatchesQuery(Unfiltered(limit)));
    }
    if format == "dict" then Ok(Dicts(MapToDict(logs)))
    else if format == "csv" then
      if |logs| == 0 then Ok(CsvText("")) else Ok(CsvText(csvEncode(MapToDict(logs))))
    else Err(UnsupportedFormat(format))
  }

  /** The two export formats carry the same rows: unless there are none, the CSV
      text is the CSV writer applied to exactly the dictionaries the 'dict'
      format returns. */
  lemma ExportFormatsAgree(table: Table, limit: int, csvEncode: seq<map<string, Field>> -> string)
    ensures var d := ExportLogs(table, "dict", limit, csvEncode);
            var c := ExportLogs(table, "csv", limit, csvEncode);
            && d.Ok? && c.Ok?
            && c.value.text == (if |d.value.rows| == 0 then "" else csvEncode(d.value.rows))
  {
    var logs := GetHistory(table, Unfiltered(limit));
    var d := ExportLogs(table, "dict", limit, csvEncode);
    assert d.value.rows == MapToDict(logs);
  }
}
