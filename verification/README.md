# SMS-Prompt core, modelled in Dafny

SMS-Prompt is a command-line tool that sends SMS messages through Twilio or
Africa's Talking. Messages come from Jinja2 templates kept as `.txt` files.
Every send attempt is logged to an SQLite table, and settings live in a dotted
YAML configuration. This project models the logic underneath that tool:

- `template_engine.dfy` (`TemplateEngine`): the template directory as a map
  from name to text. It covers placeholder extraction with the
  `{{\s*([\w]+)\s*}}` pattern, validation, rendering through an opaque Jinja
  function, and SMS segment counting.
- `sms_gateway.dfy` (`SmsGateway`): the gateway constructor, the two provider
  send paths with every result dictionary they can build, and the bulk and
  personalised bulk loops. It also covers the cost estimate. The provider SDKs
  are a `Transport` parameter.
- `delivery_log.dfy` (`DeliveryLog`): the `sms_logs` table as a sequence of
  records. It covers logging, the history queries, deletion of old logs and the
  export as dictionaries or CSV.
- `delivery_stats.dfy` (`DeliveryStats`): the statistics over a time window.
  These are the counts, sums, success rate, top five templates and a per-day
  breakdown.
- `config_tree.dfy` (`ConfigTree`): the configuration as a tree of YAML values.
  It covers the dotted `get_value`/`set_value`, the default configuration and
  the sample templates.
- `cli.dfy` (`Cli`): the orchestration the commands perform:
  - the provider checks and gateway set-up;
  - `-v key=value` parsing;
  - the `send` and `bulk` commands as decision pipelines;
  - secret masking and value coercion for `config show`/`config set`.
- `text.dfy` (`Text`) and `sequences.dfy` (`Sequences`): the Python string and
  SQL building blocks the above use:
  - `strip`, `split`, `lower`, `isdigit` and `str(int)`;
  - filtering, sorting, `LIMIT` and `GROUP BY … ORDER BY count`.
  `wrappers.dfy` holds `Option` and `Result`.

Times are whole seconds since the epoch, passed in as `now` or as a `clock`.
Money is `real`. The Jinja renderer, the provider SDKs, the price parser
(`float(...)`) and the CSV encoder are function parameters. Results that were
dictionaries are datatypes with one constructor per shape.

## Model

| member | source | states |
|---|---|---|
| TemplateEngine.GetTemplateContent | core/template_engine.py:30-37 | the raw text of a stored template, and FileNotFoundError exactly when the name is not stored |
| TemplateEngine.CreateTemplate | core/template_engine.py:70-75 | afterwards the name reads back as the given content, and every other template is untouched |
| TemplateEngine.DeleteTemplate | core/template_engine.py:77-83 | reports True exactly when the template existed; afterwards it is gone and every other template is untouched |
| TemplateEngine.ListTemplates | core/template_engine.py:19-28 | one `(name, name.txt)` entry for each stored template and no others |
| TemplateEngine.CreateThenDelete | core/template_engine.py:70-83 | creating a new template and then deleting it restores the directory and reports a deletion |
| TemplateEngine.SpaceEndRun | core/template_engine.py:42 | the greedy `\s*` consumes only whitespace and stops at a non-space character |
| TemplateEngine.WordEndRun | core/template_engine.py:42 | the greedy `[\w]+` consumes only word characters and stops at a non-word character |
| TemplateEngine.MatchAt | core/template_engine.py:42-43 | a match starts with `{{`, ends with `}}`, and its name is a run of word characters |
| TemplateEngine.MatchParts | core/template_engine.py:42-43 | a match splits into `{{`, whitespace, the name, whitespace and `}}`, and ends right after the `}}` |
| TemplateEngine.MatchNameIsStrippedGroup | core/template_engine.py:42-44 | the reported name is `match.strip()` of the captured group |
| TemplateEngine.MatchAtSound | core/template_engine.py:42-43 | the text a match covers is `{{` + whitespace + name + whitespace + `}}` |
| TemplateEngine.MatchAtComplete | core/template_engine.py:42-43 | every occurrence of that shape is matched at its start, with that name and end |
| TemplateEngine.NoMatchInside | core/template_engine.py:43 | no match begins strictly inside another, so the non-overlapping scan misses nothing |
| TemplateEngine.FindAll | core/template_engine.py:43-44 | every name `re.findall` yields is a run of word characters |
| TemplateEngine.FindAllSound | core/template_engine.py:43 | every name the scan yields is the name of a match at or after the scan start |
| TemplateEngine.FindAllFinds | core/template_engine.py:43 | every match at or after the scan start contributes its name |
| TemplateEngine.ExtractVariablesSpec | core/template_engine.py:39-44 | a name is extracted if and only if some placeholder in the text carries it |
| TemplateEngine.SinglePlaceholder | core/template_engine.py:39-44 | `{{ name }}` with any surrounding whitespace yields exactly `{name}` |
| TemplateEngine.NonBarePlaceholders | core/template_engine.py:42 | attribute access and filters, such as `{{ a.b }}` and `{{ a\|f }}`, yield no variable |
| TemplateEngine.OnlyOpeningAtStartFails | core/template_engine.py:42-43 | a nine-character `{{ a?b }}` whose middle character is punctuation yields no variable |
| TemplateEngine.ValidateContent | core/template_engine.py:107-121 | valid iff every required variable is provided; missing and extra partition the required and provided sets against their overlap |
| TemplateEngine.ValidateTemplate | core/template_engine.py:107-121 | FileNotFoundError exactly for an unknown template; otherwise the validation of its text |
| TemplateEngine.ExtraNeverInvalidates | core/template_engine.py:107-121 | providing more variables never turns a valid template invalid |
| TemplateEngine.EmptyVariables | core/template_engine.py:107-121 | with nothing provided, a template is valid iff it has no placeholders, and all of them are missing |
| TemplateEngine.Render | core/template_engine.py:46-63 | FileNotFoundError for an unknown template; otherwise Jinja's output or its exception |
| TemplateEngine.Segments | core/template_engine.py:90-95 | the fewest segments of the chosen size that hold the text; zero exactly for the empty text |
| TemplateEngine.SegmentBoundaries | core/template_engine.py:90-95 | 160 plain or 70 non-ASCII characters fill one segment, and one more character needs two |
| TemplateEngine.PreviewTemplate | core/template_engine.py:85-105 | fails exactly when the template is unknown or rendering raises; otherwise it reports the raw and rendered text, length, non-ASCII flag, variable sets, and the segment count of the rendered text as computed at core/template_engine.py:90-95 (`TemplateEngine.Segments`) |
| SmsGateway.NewGateway | core/sms_gateway.py:10-36 | only 'twilio', and 'africas_talking' with its SDK installed, construct; the gateway keeps the sending number or sender id; other cases raise the matching error |
| SmsGateway.EffectiveSender | core/sms_gateway.py:62-70 | a non-empty override sender wins over the gateway's own number |
| SmsGateway.FromTwilio | core/sms_gateway.py:62-87 | success exactly when Twilio created a message, carrying its sid and status; a REST error or other exception fails with its message and code |
| SmsGateway.FromAfricasTalking | core/sms_gateway.py:89-117 | success exactly when the first listed recipient's status is 'Success'; an empty list, a missing status or an exception fails with its message; no sid or price is reported |
| SmsGateway.Send | core/sms_gateway.py:38-60 | dispatches on the provider; the result always names the recipient, and no exception escapes |
| SmsGateway.SendBulk | core/sms_gateway.py:119-141 | one result per recipient, in order, each the single send to that recipient |
| SmsGateway.SendBulkPersonalized | core/sms_gateway.py:143-167 | when every callback succeeds, one result per row, sent to the row's phone with the callback's text; otherwise the first failing row ends the loop with its error |
| SmsGateway.RateFor | core/sms_gateway.py:172-177 | Africa's Talking is priced at 0.008 and every other provider at Twilio's 0.0079 |
| SmsGateway.GetCostEstimate | core/sms_gateway.py:169-186 | the estimate echoes its inputs in USD, costs nothing exactly when nothing is sent, and is never negative |
| SmsGateway.CostAdditive | core/sms_gateway.py:178 | the estimate for two messages is the sum of their estimates |
| SmsGateway.AfricasTalkingCostsMore | core/sms_gateway.py:172-178 | switching an estimate from Twilio to Africa's Talking never lowers it |
| DeliveryLog.NextId | db/models.py:15 | a new primary key exceeds every key in use |
| DeliveryLog.CostOf | db/models.py:87 | the cost column is NULL when the price is absent or empty, and the parsed price otherwise |
| DeliveryLog.StoredVariables | db/models.py:83 | the variables column is NULL unless a non-empty mapping was given |
| DeliveryLog.LogSms | db/models.py:76-93 | appends exactly one record carrying the send's fields; fails with the NOT NULL error exactly when there is no recipient |
| DeliveryLog.LogSmsKeepsIdsUnique | db/models.py:76-93 | logging keeps primary keys unique |
| DeliveryLog.ToDict | db/models.py:28-42 | the exported dictionary has exactly the twelve keys, and each holds its column: the message, the template name, SID, status and error as text or None, the segments and cost as numbers or None, the decoded variables, the outcome and the time |
| DeliveryLog.ToDictInjective | db/models.py:28-42 | the dictionary determines the record: `to_dict` drops no column |
| DeliveryLog.LoggedVariablesRoundTrip | db/models.py:28-42 | non-empty variables given to `log_sms` come back from `to_dict` |
| DeliveryLog.GetHistory | db/models.py:95-112 | only matching records, newest first, as many as `LIMIT` allows, none repeated more often than the table holds it, none left out that is newer than one returned, and all of them, with their multiplicities, when the limit does not cut |
| DeliveryLog.NewestFirstBounds | db/models.py:112 | every member of a newest-first list lies in time between its last and first entries |
| DeliveryLog.NewestHeadsHistory | db/models.py:95-112 | a matching record that no other record equals or beats in time heads the history |
| DeliveryLog.NewestLoggedComesFirst | db/models.py:76-112 | a record just logged at the latest time is the first `get_history` returns |
| DeliveryLog.RecipientMessages | db/models.py:168-170 | exactly the recipient's messages, each as often as the table holds it, newest first |
| DeliveryLog.RecipientMessagesBounds | db/models.py:168-183 | every message to the recipient lies between the first and last message times |
| DeliveryLog.GetRecipientHistory | db/models.py:166-185 | the total, the successes and the summed cost of the recipient's messages, the first and last times taken from the oldest and newest of them and bounding every one, and the ten newest listed |
| DeliveryLog.CostSumPermutation | db/models.py:174 | a sum of costs does not depend on the order of the records |
| DeliveryLog.RecipientHistoryCounts | db/models.py:166-181 | the successes and the total cost are those of the recipient's rows in the table, whatever order the query returns them in |
| DeliveryLog.RecipientHistoryListsNewest | db/models.py:184 | every listed message is at least as new as any message to the recipient that is not listed |
| DeliveryLog.DeleteOldLogs | db/models.py:193-200 | removes exactly the records sent before the cutoff, keeps the rest in order, and reports how many went |
| DeliveryLog.DeleteOldLogsIdempotent | db/models.py:193-200 | deleting again with the same cutoff removes nothing |
| DeliveryLog.ExportLogs | db/models.py:202-220 | 'dict' gives the newest `limit` records as dictionaries; 'csv' gives the CSV writer's text for those same records, or empty text when there are none; any other format raises |
| DeliveryLog.ExportFormatsAgree | db/models.py:202-218 | the CSV export is the CSV writer applied to exactly the rows of the 'dict' export, and empty when that export is |
| DeliveryStats.SuccessRate | db/models.py:158 | a percentage between 0 and 100; 0 for an empty window; 100 exactly when every send succeeded |
| DeliveryStats.TemplateNamesCount | db/models.py:134-140 | a template name occurs in the grouped list as often as records use that template |
| DeliveryStats.TopTemplates | db/models.py:133-140 | at most five templates, each with its true use count in the window, most used first |
| DeliveryStats.TopTemplatesDistinct | db/models.py:133-140 | no template is listed twice |
| DeliveryStats.TopTemplatesAreTop | db/models.py:133-140 | a used template left off the list is used no more often than any listed one |
| DeliveryStats.TopTemplatesComplete | db/models.py:133-140 | a list shorter than five names every template used in the window |
| DeliveryStats.ActiveDays | db/models.py:142-149 | the distinct days with a send, in ascending order |
| DeliveryStats.DailyBreakdown | db/models.py:142-149 | one entry per day with sends, ascending, with that day's count and cost, and every send's day listed |
| DeliveryStats.GetStats | db/models.py:114-164 | every figure is computed over the records sent since the cutoff: failed is total minus successful, and the rate is a percentage |
| DeliveryStats.PruningOutsideWindowKeepsStats | db/models.py:114-131 | deleting logs older than a longer window leaves the statistics unchanged |
| ConfigTree.Keys | utils/config.py:77 | the key path splits at dots into at least one key, and joining them restores it |
| ConfigTree.GetValue | utils/config.py:87-101 | the default when the lookup fails; otherwise a non-null value found by walking the keys |
| ConfigTree.LookupIsWalk | utils/config.py:92-101 | the lookup is the plain walk, except that a stored `null` also gives the default |
| ConfigTree.MissingKeyGivesDefault | utils/config.py:94-97 | a missing key on the path gives the default |
| ConfigTree.ScalarOnPathGivesDefault | utils/config.py:98-99 | a non-mapping value reached before the last key gives the default |
| ConfigTree.SetPath | utils/config.py:79-83 | success keeps the top-level keys and adds the first key; a failure names a proper prefix of the path |
| ConfigTree.SetValue | utils/config.py:74-85 | succeeds exactly when the path is settable, and then `get_value` returns the new value |
| ConfigTree.SettableIff | utils/config.py:79-83 | `set_value` succeeds iff every value it descends into is a mapping or missing |
| ConfigTree.SetThenGet | utils/config.py:74-101 | after setting a non-null value, `get_value` on the same path returns it |
| ConfigTree.SetCreatesIntermediates | utils/config.py:80-81 | after a set, every proper prefix of the path leads to a mapping |
| ConfigTree.SetKeepsOtherPaths | utils/config.py:74-85 | a path that parts from the set path reads as before |
| ConfigTree.DefaultConfigShape | utils/config.py:21-45 | the default configuration has exactly its five sections, selects Twilio, confirms before sending, saves history, and allows ten messages per second |
| ConfigTree.CreateSampleTemplates | utils/config.py:50-62 | adds each sample whose name is free and never overwrites an existing template |
| ConfigTree.EnsureConfigExists | utils/config.py:16-48 | an existing configuration is kept as is; a missing one becomes the default |
| ConfigTree.EnsureConfigExistsIdempotent | utils/config.py:16-48 | running the set-up twice equals running it once |
| ConfigTree.EnsureConfigKeepsTemplates | utils/config.py:16-62 | the set-up never overwrites or removes a template |
| Cli.ProviderSetting | cli/main.py:859 | `config['sms_provider']` raises exactly when the configuration has no such key |
| Cli.Section | cli/main.py:43-60 | `config.get(section, {})` is the section's entries or empty, and raises when the section is not a mapping |
| Cli.ValidateProviderConfig | cli/main.py:43-60 | Twilio passes iff sid, token and number are truthy; Africa's Talking passes iff username and key are truthy; any other provider passes |
| Cli.TextCredentials | cli/main.py:67-81 | each configured credential reaches the gateway, as text or as nothing |
| Cli.InitializeGateway | cli/main.py:63-85 | a gateway exactly for a known provider whose section holds the required keys (and, for Africa's Talking, an installed SDK); otherwise None |
| Cli.ValidatedProviderInitializes | cli/main.py:43-85 | a configuration that passes the check yields a gateway exactly for the two known providers |
| Cli.ParseVars | cli/main.py:864-871 | succeeds iff every item contains '='; a failure reports the first item without one |
| Cli.ParseVarsKeys | cli/main.py:864-871 | the parsed keys are exactly the stripped keys the items name |
| Cli.ParseVarsLastWins | cli/main.py:864-871 | each key maps to the stripped value of the last item that names it |
| Cli.DefaultsFlag | cli/main.py:922-943 | `config['defaults'].get(key, True)`: true when the key is absent, its truthiness otherwise; raises without a defaults mapping |
| Cli.MessageContent | cli/main.py:873-904 | a template is sent only when it exists, renders, and validation finds nothing missing; a render failure aborts with the exception's text, prefix included; otherwise the message text; neither given aborts |
| Cli.Deliver | cli/main.py:922-943 | the send happens exactly when confirmation is given or not needed and the gateway initialises; it goes through that gateway; the log gains the record exactly when `save_to_history` is on, under the template name only when a template was used, and is unchanged otherwise |
| Cli.SendCommand | cli/main.py:845-943 | previews exactly when in preview mode with a provider setting, well-formed variables and content; sends exactly when, outside preview, the provider is configured, variables and content are well-formed, the send is confirmed and the gateway initialises; a send delivers the produced text to the requested number through that gateway, and a kept log entry carries that text and, when a template was used, its name, and no name otherwise |
| Cli.ValidationGatesSend | cli/main.py:873-943 | a template message is sent only after validation found every variable; the rendered template is what goes to the requested number and, when history is kept, into the log under the template's name |
| Cli.SendLogsOnceIffSaved | cli/main.py:937-943 | a send appends exactly one record, for this recipient, with the sent text, the template name when a template was used (NULL otherwise) and the outcome, when `save_to_history` is on, and leaves the log alone exactly when it is not |
| Cli.EmptyTemplateLogsNull | cli/main.py:898-942 | an empty `--template` with a message takes the direct-message branch and logs no template name |
| Cli.BulkPrecheck | cli/main.py:1000-1025 | no rows, no phone column or an unknown template stop the command in that order; otherwise the required variables the columns lack |
| Cli.BulkSegmentsAsWritten | cli/main.py:1060-1062 | the per-recipient segment count of the bulk estimate, as written |
| Cli.BulkSegmentsOvercount | cli/main.py:1062 | the bulk formula equals the preview's count, plus one when the length is a multiple of the segment size |
| Cli.BulkSegmentsCounterexample | cli/main.py:1062 | 160 plain characters: one segment, but the bulk formula counts two |
| Cli.BulkCostEstimate | cli/main.py:1056-1063 | the bulk estimate with the preview's segment count: never negative, and zero exactly for no recipients or an empty text |
| Cli.BulkEstimateMatchesGateway | cli/main.py:1063 | the bulk estimate equals the gateway's own Twilio estimate |
| Cli.BulkRow | cli/main.py:1100-1126 | a row is sent iff it renders and has a phone, to that phone with the rendered text; otherwise the turn raises |
| Cli.LogRow | cli/main.py:1104-1108 | a sent row appends its record and keeps the earlier records; any other row leaves the log alone |
| Cli.CountsStep | cli/main.py:1110-1126 | one more row keeps the counters and error list in step with the outcomes |
| Cli.LogStep | cli/main.py:1104-1108 | one more row keeps the log in step with the sent rows |
| Cli.BulkSend | cli/main.py:1080-1129 | every row is attempted; successes and failures add up to the rows, with one error entry per failure in row order, and the log gains one record per sent row |
| Cli.BulkCommand | cli/main.py:965-1129 | aborts on no rows or no phone column, never on missing columns; previews exactly when in preview mode with a provider setting and the rows and template pass; runs the send loop exactly when, outside preview, the provider is configured, the checks pass, the send is confirmed and the gateway initialises, with the corrected estimate and everything the send loop leaves: its counts, its failure entries in row order and the records it logs |
| Cli.MaskValue | cli/main.py:1413-1418 | unless secrets are shown, a truthy secret longer than four characters keeps its first four and stars the rest; everything else is unchanged |
| Cli.MaskIdempotent | cli/main.py:1413-1418 | masking a masked value changes nothing |
| Cli.CoerceConfigValue | cli/main.py:1452-1458 | 'true'/'false' in any case become booleans, digit strings become numbers, and anything else stays text |
| Cli.CoerceRoundTrip | cli/main.py:1413-1458 | a boolean, non-negative number or ordinary text, printed and then set, comes back unchanged |
| Cli.ConfigSet | cli/main.py:1436-1464 | succeeds iff the path is settable, and `config get` then shows the coerced value |
| Text.StripDecompose | core/template_engine.py:44 | `strip` removes whitespace only, from both ends |
| Text.StripEnds | core/template_engine.py:44 | neither end of a stripped string is whitespace |
| Text.StripSurrounded | cli/main.py:868 | `strip` removes exactly the whitespace around a core whose ends are not whitespace |
| Text.SplitFirst | cli/main.py:867 | `split('=', 1)` gives two parts exactly when '=' occurs, cut at its first occurrence |
| Text.JoinSplit | utils/config.py:77 | joining the pieces of a dotted path restores it |
| Text.SplitJoin | utils/config.py:77 | splitting a join of dot-free keys gives the keys back |
| Text.ParseNatToString | cli/main.py:1457-1458 | printing a number and reading it back gives the number |
| Text.NatToStringParse | cli/main.py:1457-1458 | reading a digit string without leading zeros and printing it back gives the string |
| Sequences.Sort | db/models.py:112 | `ORDER BY`: ordered by the comparison, and a permutation of its input |
| Sequences.SortSameElements | db/models.py:112 | sorting neither adds nor drops an element |
| Sequences.FilterMembers | db/models.py:99-110 | a `WHERE` keeps exactly the elements that pass |
| Sequences.FilterAppend | db/models.py:99-110 | filtering a longer sequence extends the earlier result by the new element when it passes |
| Sequences.FilterCountPermutation | db/models.py:173 | how many elements pass a condition does not depend on their order |
| Sequences.FilterStronger | db/models.py:118-131 | narrowing a filtered sequence by a stronger condition is filtering by that condition alone |
| Sequences.Take | db/models.py:112 | `LIMIT n`: the first n elements, or all of them for a negative n |
| Sequences.MostCommon | db/models.py:134-140 | the top counts, each the true count of its value, in descending order |
| Sequences.MostCommonIsTop | db/models.py:134-140 | the listed values are distinct, and no value left out occurs more often than a listed one |
| Sequences.MostCommonCovers | db/models.py:134-140 | a list shorter than the limit contains every value |

## Left out

- Files, YAML and SQLite are modelled as values. `load_config`/`save_config` are the identity on the tree, and a template directory is a map.
- The console output is left out: tables, panels, colours, progress bars and messages. `bulk`'s preview table of the first five rendered rows, truncated to 80 characters, is left out too; the model keeps only what the preview decides.
- Rate-limit sleeps in `send_bulk`, `send_bulk_personalized` and `bulk` are left out, because time passing changes no result.
- Prompts are left out. A confirmation prompt is modelled as its answer, and the summary's "show failed recipients?" prompt is not modelled.
- The interactive menus in cli/main.py, `template list/show/create/delete`, `config init` and `cli()` are left out. They are display code around the modelled engine calls.
- `template_test` is left out apart from its `-v` parsing, which is shared with `send` as `Cli.ParseVars`. The rest is display of `preview_template` and `validate_template`.
- `validate_phone_number` is left out. It parses and checks numbers with the `phonenumbers` library, which is not part of this model.
- `search_messages` is left out. It uses SQL `LIKE` pattern matching, which the model does not define.
- The `Template` table and its `to_dict` are left out. No code path uses them.
- `render_from_string` is left out. It is the Jinja function itself, which is a parameter here.
- Jinja2 rendering is an opaque function of the text and the variables. Its undefined-variable and syntax-error behaviour is whatever that function returns.
- The Twilio and Africa's Talking SDKs are the `Transport` parameter. Network errors are the exceptions it reports.
- CSV reading in `bulk` is left out: rows arrive already parsed. CSV writing in `export_logs` is the `csvEncode` parameter.
- `float()` of a provider price is the `parseAmount` parameter. Floating-point rounding of costs and rates is left out: they are exact reals.
- `sent_at` is whole seconds since the epoch, and `date()` is whole days. Time zones and sub-second order are left out: two records in the same second are ordered with the later-inserted record first. That is an assumption: SQLite leaves the order of ties open.
- `DeliveryLog.ToDict` does not model the JSON text encoding. The variables column keeps the mapping, because `json.loads(json.dumps(m))` returns a string-to-string mapping unchanged.
- The SQLAlchemy session state after a failed insert is left out: the table is unchanged and the error is returned.
- `TemplateEngine.ExtractVariables`: `\w` is ASCII letters, digits and `_`. Python's non-ASCII word characters are not names in this model, so names made of them are not extracted.
- `Cli.CoerceConfigValue`: `lower()` and `isdigit()` are ASCII-only here. Non-ASCII case mappings and Unicode digits are not modelled.
- `Cli.CoerceRoundTrip`: covers only booleans, non-negative integers and text that reads as neither. A negative number or a text like "42" does not come back unchanged, which is true of the source as well.
- `Cli.TextCredentials`: a credential that is not text reaches the gateway as "nothing", not as the YAML value itself, because the modelled gateway holds only text.
- `Cli.Deliver`: with a non-mapping `defaults`, the source raises after the message went out. The model reports the send with the log unchanged.
- `Cli.SendCommand` and `Cli.BulkCommand`: a configuration missing a section that `_initialize_gateway` indexes gives a gateway of None, as its `except` does. Other exceptions from `config[...]` abort with `MalformedConfig`.
- `Cli.BulkCommand`: uses the corrected cost estimate (see Findings). The rest of the command follows the code as written.
- `Cli.BulkSend`: the database keeps one session and never rolls back (db/models.py:74 and 91-92). After one failed insert, every later row's `log_sms` raises, so those rows are counted as failed and not logged although their messages went out. The model starts each row from an intact session: it logs those rows and counts them by their send result.
- `ConfigTree.SetValue`: `set_value` on a configuration whose root is not a mapping fails, as `setdefault` would raise.
- `DeliveryStats.GetStats`: returns the exact figures. `float()` and `int()` conversions and the date text format are left out.
- `SmsGateway.SendBulkPersonalized`: a raising callback is an error value carrying the row index. Python would propagate the exception and discard the results so far.

## Findings

| source | as written | input that shows it | evidently intended | confidence | as-written member | corrected member |
|---|---|---|---|---|---|---|
| cli/main.py:1062 | `bulk`'s estimate counts `len // size + 1` segments per recipient | a 160-character ASCII message: one segment, counted as two, so the estimate doubles | the preview's ceiling formula, `len // size + (1 if len % size else 0)`, as in core/template_engine.py:95 and cli/main.py:910 | not executed | Cli.BulkSegmentsAsWritten (Cli.BulkSegmentsCounterexample, Cli.BulkSegmentsOvercount) | Cli.BulkCostEstimate (Cli.BulkEstimateMatchesGateway) |
