/** `get_stats`: counts, sums, the most used templates and a per-day breakdown
    over the records sent in the last `days` days. */
module DeliveryStats {
  import opened Wrappers
  import opened Sequences
  import opened DeliveryLog

  datatype DayStats = DayStats(date: int, count: nat, cost: real)

  /** The dictionary `get_stats` returns. */
  datatype Stats = Stats(
    periodDays: int,
    totalSent: nat,
    successful: nat,
    failed: int,
    totalCost: real,
    totalSegments: int,
    successRate: real,
    topTemplates: seq<Tally<string>>,
    dailyBreakdown: seq<DayStats>)

  /** The records the statistics cover: those sent at or after the cutoff. */
  function Window(table: Table, now: int, days: int): seq<LogRecord> {
    Filter(table, SentSince(Cutoff(now, days)))
  }

  /** Segments added up, NULL counting as zero. */
  function SegmentSum(records: seq<LogRecord>): int {
    if |records| == 0 then 0
    else SegmentSum(records[..|records| - 1]) + records[|records| - 1].segments.GetOr(0)
  }

  /** `successful / total * 100`, or 0 for an empty window. */
  function SuccessRate(successful: nat, total: nat): (rate: real)
    requires successful <= total
    ensures total == 0 ==> rate == 0.0
    ensures 0.0 <= rate <= 100.0
    ensures total > 0 ==> (rate == 100.0 <==> successful == total)
  {
    if total > 0 then successful as real / total as real * 100.0 else 0.0
  }

  // ---- top templates ----

  function UsesTemplate(name: string): LogRecord -> bool {
    (rec: LogRecord) => rec.templateName == Some(name)
  }

  /** The template names of the records that carry one, with repeats, in record order. */
  function TemplateNames(records: seq<LogRecord>): (names: seq<string>)
    ensures |names| <= |records|
  {
    if |records| == 0 then []
    else
      match records[0].templateName
      case Some(n) => [n] + TemplateNames(records[1..])
      case None => TemplateNames(records[1..])
  }

  /** How often a name occurs among the template names is how many records use that template. */
  lemma {:induction false} TemplateNamesCount(records: seq<LogRecord>, name: string)
    ensures multiset(TemplateNames(records))[name] == |Filter(records, UsesTemplate(name))|
  {
    if |records| > 0 {
      TemplateNamesCount(records[1..], name);
    }
  }

  lemma TemplateNamesCounts(records: seq<LogRecord>)
    ensures forall name :: multiset(TemplateNames(records))[name] == |Filter(records, UsesTemplate(name))|
  {
    forall name ensures multiset(TemplateNames(records))[name] == |Filter(records, UsesTemplate(name))| {
      TemplateNamesCount(records, name);
    }
  }

  /** `GROUP BY template_name ORDER BY count DESC LIMIT 5`, NULL names excluded:
      each entry is a template name with the number of records that use it. */
  function TopTemplates(records: seq<LogRecord>): (top: seq<Tally<string>>)
    ensures |top| <= 5
    ensures forall i | 0 <= i < |top| :: top[i].count == |Filter(records, UsesTemplate(top[i].key))| > 0
    ensures forall i, j | 0 <= i < j < |top| :: top[i].count >= top[j].count
  {
    TemplateNamesCounts(records);
    MostCommon(TemplateNames(records), 5)
  }

  /** No template is listed twice. */
  lemma TopTemplatesDistinct(records: seq<LogRecord>)
    ensures var top := TopTemplates(records);
      forall i, j | 0 <= i < j < |top| :: top[i].key != top[j].key
  {
    MostCommonIsTop(TemplateNames(records), 5);
  }

  /** A used template left out of the list is used no more often than any listed one. */
  lemma {:induction false} TopTemplatesAreTop(records: seq<LogRecord>, k: nat)
    requires k < |records| && records[k].templateName.Some?
    requires forall j | 0 <= j < |TopTemplates(records)| :: TopTemplates(records)[j].key != records[k].templateName.value
    ensures var top := TopTemplates(records);
      forall i | 0 <= i < |top| :: top[i].count >= |Filter(records, UsesTemplate(records[k].templateName.value))|
  {
    var name := records[k].templateName.value;
    var names := TemplateNames(records);
    MostCommonIsTop(names, 5);
    NameListed(records, k);
    TemplateNamesCount(records, name);
  }

  /** Fewer than five templates are listed only when every used template is listed. */
  lemma {:induction false} TopTemplatesComplete(records: seq<LogRecord>)
    ensures var top := TopTemplates(records);
      |top| < 5 ==> forall k | 0 <= k < |records| && records[k].templateName.Some? ::
        exists i | 0 <= i < |top| :: top[i].key == records[k].templateName.value
  {
    var names := TemplateNames(records);
    MostCommonCovers(names, 5);
    forall k | 0 <= k < |records| && records[k].templateName.Some?
      ensures records[k].templateName.value in names
    {
      NameListed(records, k);
    }
  }

  lemma {:induction false} NameListed(records: seq<LogRecord>, k: nat)
    requires k < |records| && records[k].templateName.Some?
    ensures records[k].templateName.value in TemplateNames(records)
  {
    if k > 0 {
      NameListed(records[1..], k - 1);
    }
  }

  // ---- daily breakdown ----

  /** `date(sent_at)`: the day number, counting from the epoch. */
  function Day(sentAt: int): int {
    sentAt / 86400
  }

  function OnDay(date: int): LogRecord -> bool {
    (rec: LogRecord) => Day(rec.sentAt) == date
  }

  predicate Ascending(dates: seq<int>) {
    forall i, j | 0 <= i < j < |dates| :: dates[i] < dates[j]
  }

  /** Adds one day to an ascending list of distinct days. */
  function AddDay(dates: seq<int>, d: int): (r: seq<int>)
    requires Ascending(dates)
    ensures Ascending(r)
    ensures forall x :: x in r <==> x in dates || x == d
  {
    if |dates| == 0 || d < dates[0] then [d] + dates
    else if d == dates[0] then dates
    else
      var rest := AddDay(dates[1..], d);
      assert forall i | 0 <= i < |rest| :: rest[i] in dates[1..] || rest[i] == d;
      [dates[0]] + rest
  }

  /** The distinct days the records fall on, in ascending order. */
  function ActiveDays(records: seq<LogRecord>): (dates: seq<int>)
    ensures Ascending(dates)
    ensures forall d :: d in dates <==> exists k | 0 <= k < |records| :: Day(records[k].sentAt) == d
  {
    if |records| == 0 then []
    else
      var rest := ActiveDays(records[1..]);
      assert forall k | 1 <= k < |records| :: records[k] == records[1..][k - 1];
      AddDay(rest, Day(records[0].sentAt))
  }

  /** A listed day has at least one record on it. */
  lemma ActiveDayIsUsed(records: seq<LogRecord>, d: int)
    requires d in ActiveDays(records)
    ensures |Filter(records, OnDay(d))| > 0
  {
    var k :| 0 <= k < |records| && Day(records[k].sentAt) == d;
    FilterMembers(records, OnDay(d));
    assert records[k] in Filter(records, OnDay(d));
  }

  function DayOf(records: seq<LogRecord>, d: int): (s: DayStats)
    requires d in ActiveDays(records)
    ensures s.date == d && s.count == |Filter(records, OnDay(d))| > 0
    ensures s.cost == CostSum(Filter(records, OnDay(d)))
  {
    ActiveDayIsUsed(records, d);
    var onDay := Filter(records, OnDay(d));
    DayStats(d, |onDay|, CostSum(onDay))
  }

  /** `GROUP BY date(sent_at) ORDER BY date`: per day, how many were sent and what they cost. */
  function DailyBreakdown(records: seq<LogRecord>): (daily: seq<DayStats>)
    ensures forall i, j | 0 <= i < j < |daily| :: daily[i].date < daily[j].date
    ensures forall i | 0 <= i < |daily| ::
              && daily[i].count == |Filter(records, OnDay(daily[i].date))| > 0
              && daily[i].cost == CostSum(Filter(records, OnDay(daily[i].date)))
    ensures forall k | 0 <= k < |records| :: exists i | 0 <= i < |daily| :: daily[i].date == Day(records[k].sentAt)
  {
    var dates := ActiveDays(records);
    var daily := seq(|dates|, i requires 0 <= i < |dates| => DayOf(records, dates[i]));
    forall k | 0 <= k < |records| ensures exists i | 0 <= i < |daily| :: daily[i].date == Day(records[k].sentAt) {
      assert Day(records[k].sentAt) in dates;
      var i :| 0 <= i < |dates| && dates[i] == Day(records[k].sentAt);
      assert daily[i].date == dates[i];
    }
    daily
  }

  /** `get_stats` over the last `days` days before `now`. */
  function GetStats(table: Table, now: int, days: int): (s: Stats)
    ensures s.periodDays == days
    ensures s.totalSent == |Window(table, now, days)|
    ensures s.successful == |Filter(Window(table, now, days), Succeeded())|
    ensures s.successful <= s.totalSent && s.failed == s.totalSent - s.successful
    ensures s.totalSent == 0 ==> s.successRate == 0.0
    ensures 0.0 <= s.successRate <= 100.0
    ensures s.totalCost == CostSum(Window(table, now, days))
    ensures s.totalSegments == SegmentSum(Window(table, now, days))
    ensures s.topTemplates == TopTemplates(Window(table, now, days))
    ensures s.dailyBreakdown == DailyBreakdown(Window(table, now, days))
  {
    var window := Window(table, now, days);
    var total := |window|;
    var successful := SuccessCount(window);
    Stats(days, total, successful, total - successful, CostSum(window), SegmentSum(window),
          SuccessRate(successful, total), TopTemplates(window), DailyBreakdown(window))
  }

  /** Deleting logs older than the statistics window leaves the statistics unchanged. */
  lemma {:induction false} PruningOutsideWindowKeepsStats(table: Table, now: int, keepDays: int, days: int)
    requires days <= keepDays
    ensures GetStats(DeleteOldLogs(table, now, keepDays).0, now, days) == GetStats(table, now, days)
  {
    var kept := DeleteOldLogs(table, now, keepDays).0;
    assert Cutoff(now, keepDays) <= Cutoff(now, days);
    FilterStronger(table, SentSince(Cutoff(now, keepDays)), SentSince(Cutoff(now, days)));
    assert Window(kept, now, days) == Window(table, now, days);
  }
}
