# Node-rewards ingesters and the inventory-line codec, in Dafny

This project models two parts of the ic-observability-stack repository.

**The node-rewards ingesters.** Both read the daily node-provider rewards of
the Internet Computer and push them to VictoriaMetrics as Prometheus text
lines. The multi-canister ingester is
`tools/node-rewards-scheduler/node_rewards_ingester.py`. It raises on
failure. The single-canister ingester is
`docker/tools/node-rewards-scheduler/node_rewards_ingester.py`. It returns
booleans and never raises. With the network removed, each ingester does the
following steps:

- it unwraps Candid optionals;
- it resolves the `Ok`/`Err` reply of the rewards canister;
- it turns the wire lists of `(principal, value)` pairs into dictionaries;
- it writes the metric lines for providers, nodes, subnets and the latest
  governance reward event, all stamped with noon UTC of the date;
- it joins the lines into one import body and classifies the HTTP status.

Around this pipeline sit three scheduling rules: the next 00:05 UTC trigger,
the backfill sequence of dates, and "yesterday" for the daily push.

**The Ansible inventory-line codec in `configure.py`.** `Optioneer` splits a
connection's declared fields from its leftover options, in both directions.
`HostConfiguration.from_line` and `to_line` read and write a
`name key=value ...` line. `from_hosts` and `into_hosts` look up, replace or
prepend the line for one host in a hosts file.

Modules, one per file:

- `Base`: Option and Result.
- `Wire`: the decoded Candid value (null, number token, text, principal,
  list, record) with Python's truthiness, `str()` and `.get`.
- `PyDict`: an insertion-ordered Python dict.
- `PyStr`: `split()`, `partition`, `splitlines` with and without line endings,
  `join` and `strip()` emptiness.
- `Decimal`: integer text.
- `Calendar`: the proleptic Gregorian calendar of `datetime`, the noon
  timestamp and the 00:05 trigger.
- `Rewards`: the normalised daily results, shared by both ingesters.
- `Exposition`: the text of a metric line, its reading-back, and the import
  body.
- `Emit`: the provider and node lines, in both line styles.
- `MultiIngester` and `SingleIngester`: the two ingesters.
- `Schedule`: backfill and the daily loop.
- `Configure`: the inventory-line codec.

Python exceptions become `Err` values of a `Result`. A record of the wire
value whose shape is outside the declared Candid type is the error
`Malformed`. The canister replies, the governance reply, the clock readings
and the HTTP status are parameters. A loop of the source is a `method` with
loop invariants, proved equal to a function. The properties are lemmas about
those functions.

The hosts file is modelled as the code is written. The two flaws listed under
"## Findings" are reproduced by `Configure.HostOfLine`, `Configure.ToLine`,
`Configure.FromHosts` and `Configure.IntoHosts`. Their corrected forms,
`Configure.HostOfLineIntended` and `Configure.ToLineIntended`, sit beside them
with their own round-trip proofs.

## Model

| member | source | states |
|---|---|---|
| Wire.Str | tools/node-rewards-scheduler/node_rewards_ingester.py:318 | `str()` of a principal is its text id and of a number its token; it fails only on lists and records |
| Wire.Truthy | tools/node-rewards-scheduler/node_rewards_ingester.py:170 | a wire value is falsy exactly when it is `None`, a zero number, `""`, `[]` or `{}` |
| Wire.GetOr | tools/node-rewards-scheduler/node_rewards_ingester.py:174 | on a dict, `.get(key, default)` gives the field when present and otherwise the default |
| Wire.DictGet | tools/node-rewards-scheduler/node_rewards_ingester.py:233 | `.get(key, default)` succeeds exactly on records and returns the field or the default |
| Wire.Len | tools/node-rewards-scheduler/node_rewards_ingester.py:328 | `len()` of a list is its element count; it is defined only on lists, records and text |
| Wire.Elements | tools/node-rewards-scheduler/node_rewards_ingester.py:349 | iterating a list yields its elements; iterating an empty record or an empty text yields nothing; anything else fails |
| Wire.Has | tools/node-rewards-scheduler/node_rewards_ingester.py:176 | `key in record` is defined exactly on records and is true iff the record has that field |
| Wire.UnwrapOptional | tools/node-rewards-scheduler/node_rewards_ingester.py:255-260 | a non-empty list gives its first element, even when it has more than one; an empty list gives `None`; a non-list is returned unchanged |
| Wire.UnwrapOptionalInverse | tools/node-rewards-scheduler/node_rewards_ingester.py:255-260 | unwrapping the encoding of a Candid optional gives its content, or `None` when absent |
| Wire.UnwrapOptionalIdempotent | docker/tools/node-rewards-scheduler/node_rewards_ingester.py:286-291 | unwrapping twice equals unwrapping once, unless the first element is itself a list |
| PyDict.Insert | configure.py:154 | `d[k] = v` adds `k` to the key set; an existing key keeps its place, and a new key goes last |
| PyDict.InsertGet | tools/node-rewards-scheduler/node_rewards_ingester.py:192 | after `d[k] = v`, looking up `k` gives `v` and every other key is unchanged |
| PyDict.RemoveGet | configure.py:45 | after `del d[k]` the keys stay unique, `k` is absent and every other key is unchanged |
| PyStr.TokensJoin | configure.py:171 | `" ".join(words).split()` gives back the words when none is empty or holds whitespace |
| PyStr.BlankIffNoTokens | configure.py:181-183 | `not line.strip()` holds exactly when `line.split()` is empty |
| PyStr.SplitLinesKeepConcat | configure.py:188 | splitting a concatenation of well-formed lines with their endings gives back those lines |
| PyStr.ConcatSplitLinesKeep | configure.py:199 | joining `splitlines(True)` gives back the original text |
| Decimal.IntToStringInverse | tools/node-rewards-scheduler/node_rewards_ingester.py:264 | the decimal text of an integer (counts, timestamps) reads back as that integer |
| Decimal.IntToStringInjective | tools/node-rewards-scheduler/node_rewards_ingester.py:264 | different integers are written as different texts |
| Calendar.CivilFromDays | tools/node-rewards-scheduler/node_rewards_ingester.py:290 | every day number of a representable `datetime` names exactly one valid date |
| Calendar.CivilFromDaysInverse | tools/node-rewards-scheduler/node_rewards_ingester.py:290-293 | day numbering of valid dates round-trips: from date to day number and back gives the same date |
| Calendar.DaysFromCivilInjective | tools/node-rewards-scheduler/node_rewards_ingester.py:290-293 | two valid dates with the same day number are equal |
| Calendar.DaysFromCivil | tools/node-rewards-scheduler/node_rewards_ingester.py:290-293 | the day count of a date since 1970-01-01 is 0 on the epoch and stays inside the `datetime` range 0001-01-01 to 9999-12-31 |
| Calendar.NoonTimestampMs | tools/node-rewards-scheduler/node_rewards_ingester.py:290-293 | the timestamp of a date is its day count since 1970-01-01 times 86 400 000, plus 43 200 000 ms: it lies on the date itself, at noon |
| Calendar.NoonTimestampInjective | docker/tools/node-rewards-scheduler/node_rewards_ingester.py:323-326 | different dates get different timestamps |
| Calendar.NextRun | docker/tools/node-rewards-scheduler/node_rewards_ingester.py:477-481 | the arithmetic of the next run on unbounded time: the first 00:05:00 UTC strictly after now, at most one day later |
| Rewards.ReplyValue | tools/node-rewards-scheduler/node_rewards_ingester.py:170-174 | an empty (falsy) reply gives no value; a non-empty list whose first element is a dict gives that element's `value` field, or `{}` when it has none; any other truthy reply is `Malformed` |
| Rewards.Unpair | tools/node-rewards-scheduler/node_rewards_ingester.py:191 | a pair unpacks exactly when it has two elements and the first has a `str()` |
| Rewards.DictFromPairs | tools/node-rewards-scheduler/node_rewards_ingester.py:190-197 | the dict is built exactly when every pair unpacks |
| Rewards.PairsToDict | docker/tools/node-rewards-scheduler/node_rewards_ingester.py:194-198 | the filling loop produces `DictFromPairs` of the pair list |
| Rewards.DictFromPairsLookup | tools/node-rewards-scheduler/node_rewards_ingester.py:190-197 | keys are unique; each key maps to the value of its last pair, so a later duplicate wins; the key set is the set of `str(principal)` |
| Rewards.Normalise | tools/node-rewards-scheduler/node_rewards_ingester.py:188-202 | the normalised result holds exactly the two dicts built from `provider_results` and `subnets_failure_rate` |
| Rewards.NormaliseLookup | tools/node-rewards-scheduler/node_rewards_ingester.py:188-202 | in both dicts the keys are unique and each maps to its last pair's value |
| Rewards.NormaliseDaily | docker/tools/node-rewards-scheduler/node_rewards_ingester.py:194-210 | the two filling loops produce `Normalise` |
| Rewards.ProviderOf | tools/node-rewards-scheduler/node_rewards_ingester.py:327-342 | a provider's node count is the length of `daily_nodes_rewards`; base and adjusted are the unwrapped totals |
| Rewards.IdText | tools/node-rewards-scheduler/node_rewards_ingester.py:350-351 | a falsy unwrapped id renders as `""`, a principal as its text |
| Rewards.NodeOf | tools/node-rewards-scheduler/node_rewards_ingester.py:349-373 | a node reports metrics iff its failure rate unwraps to a `SubnetMember` with truthy `node_metrics`; a falsy node or subnet id becomes `""` |
| Rewards.GovernanceTimestamp | tools/node-rewards-scheduler/node_rewards_ingester.py:229-243 | both directions: a timestamp is returned exactly when the reply's `value` holds a non-empty `rewards` list whose first element has a truthy numeric `timestamp`, and it is that timestamp; an empty reply, a falsy `rewards` or a falsy timestamp gives `None` |
| Rewards.GovernanceFirstEntryOnly | tools/node-rewards-scheduler/node_rewards_ingester.py:236-241 | the entries after the first reward never change the governance timestamp |
| Exposition.ParseLabelsInverse | tools/node-rewards-scheduler/node_rewards_ingester.py:264 | a label list written with either separator reads back as the same labels, in call order |
| Exposition.ParseHeadInverse | tools/node-rewards-scheduler/node_rewards_ingester.py:264 | the `name{ labels }` head reads back as the name and the labels |
| Exposition.RenderInverse | tools/node-rewards-scheduler/node_rewards_ingester.py:262-264 | every readable `_make_line` or inline line reads back as its name, labels, value and timestamp |
| Exposition.RenderInjective | docker/tools/node-rewards-scheduler/node_rewards_ingester.py:345-347 | two readable samples of one style with the same text are the same sample |
| Exposition.RenderAllAppend | tools/node-rewards-scheduler/node_rewards_ingester.py:295-313 | appending the lines of one section after another gives the texts of both sections, in order |
| Exposition.Render | tools/node-rewards-scheduler/node_rewards_ingester.py:263-264 | a metric line starts with the metric name and ends with a space and the timestamp |
| Exposition.Payload | tools/node-rewards-scheduler/node_rewards_ingester.py:420 | the import body always ends with a newline, and is a lone newline for no lines |
| Exposition.BodyReadsBack | tools/node-rewards-scheduler/node_rewards_ingester.py:420 | a body of readable samples reads back line by line as those samples, in order |
| Exposition.PayloadInverse | tools/node-rewards-scheduler/node_rewards_ingester.py:420 | the body `"\n".join(lines) + "\n"` splits back into exactly those lines |
| Exposition.CountAppend | tools/node-rewards-scheduler/node_rewards_ingester.py:305 | appending lines adds their counts, per name and label list |
| Emit.OptionalLine | tools/node-rewards-scheduler/node_rewards_ingester.py:331-346 | a total's line appears iff its unwrapped value is not `None`, and carries that value |
| Emit.NodeLines | tools/node-rewards-scheduler/node_rewards_ingester.py:349-397 | a node yields lines only if it reports metrics, and they are the lines of its facts |
| Emit.NodesLines | tools/node-rewards-scheduler/node_rewards_ingester.py:349-397 | the node loop succeeds exactly when every node entry does, and can only fail with `Malformed` |
| Emit.FactsLines | tools/node-rewards-scheduler/node_rewards_ingester.py:327-397 | a provider's lines start with its `nodes_count` line; only a malformed entry makes them fail |
| Emit.NodeLinesShape | tools/node-rewards-scheduler/node_rewards_ingester.py:349-397 | node lines carry the canister prefix, `provider_id`, `node_id`, `subnet_id` in that order, the date's timestamp, one `original_failure_rate` line iff that rate is not `None` and before `relative_failure_rate`, which likewise appears iff not `None` |
| Emit.NodesLinesShape | docker/tools/node-rewards-scheduler/node_rewards_ingester.py:368-408 | every line of a provider's nodes has the date's timestamp, its style's label prefix and a node metric name |
| Emit.ProviderLines | tools/node-rewards-scheduler/node_rewards_ingester.py:316-329 | a provider's first line is `nodes_count` with its `provider_id` |
| Emit.ProvidersLines | tools/node-rewards-scheduler/node_rewards_ingester.py:316-397 | the provider loop succeeds exactly when every provider entry does, and can only fail with `Malformed` |
| Emit.ProviderPieces | docker/tools/node-rewards-scheduler/node_rewards_ingester.py:343-368 | a provider's lines are `nodes_count`, then the base total, then the adjusted total, then its node lines |
| Emit.ProviderNodesCount | tools/node-rewards-scheduler/node_rewards_ingester.py:327-329 | a provider has exactly one `nodes_count` line, valued `len(daily_nodes_rewards)` |
| Emit.ProviderTotals | tools/node-rewards-scheduler/node_rewards_ingester.py:331-346 | the base and adjusted total lines each appear at most once, iff their unwrapped value is not `None` |
| Emit.ProviderLinesShaped | tools/node-rewards-scheduler/node_rewards_ingester.py:316-397 | every provider line has the date's timestamp and a provider or node metric name |
| Emit.ProvidersLinesShape | docker/tools/node-rewards-scheduler/node_rewards_ingester.py:339-408 | every line of all providers has the date's timestamp and a provider or node metric name |
| Emit.ProvidersNodesCount | tools/node-rewards-scheduler/node_rewards_ingester.py:317-329 | there is exactly one `nodes_count` line per provider key, and none for any other id |
| Emit.EmitNodes | tools/node-rewards-scheduler/node_rewards_ingester.py:349-397 | the node loop appends exactly the rendered node lines, or stops with the error |
| Emit.EmitProvider | tools/node-rewards-scheduler/node_rewards_ingester.py:317-397 | the per-provider block appends exactly the rendered provider lines |
| Emit.EmitProviders | docker/tools/node-rewards-scheduler/node_rewards_ingester.py:339-408 | the provider loop appends exactly the rendered lines of all providers, in dict order |
| MultiIngester.RewardsDaily | tools/node-rewards-scheduler/node_rewards_ingester.py:170-202 | an empty reply or an `Err` gives `{}`; a result with neither `Ok` nor `Err` raises `ValueError`; an `Ok` gives the normalised dicts |
| MultiIngester.GetRewardsDaily | tools/node-rewards-scheduler/node_rewards_ingester.py:149-207 | the method computes `RewardsDaily` |
| MultiIngester.SubnetLines | tools/node-rewards-scheduler/node_rewards_ingester.py:401-408 | each subnet yields exactly two lines: the raw `subnet_failure_rate{subnet_id=...}` without `canister_id`, then `subnets_failure_rate` with it |
| MultiIngester.SubnetsLinesShape | tools/node-rewards-scheduler/node_rewards_ingester.py:399-408 | the subnet section has two lines per subnet, in dict order, all with the date's timestamp |
| MultiIngester.SubnetsLines | tools/node-rewards-scheduler/node_rewards_ingester.py:400-408 | the subnet loop succeeds exactly when every failure rate has a `str()` |
| MultiIngester.GovernanceLines | tools/node-rewards-scheduler/node_rewards_ingester.py:410-415 | the governance line carries the canister label and the date's timestamp |
| MultiIngester.ClientLines | tools/node-rewards-scheduler/node_rewards_ingester.py:297-313 | a client with no data raises `ValueError`; no client section fails with the "no metrics" error |
| MultiIngester.ClientLinesConsistent | tools/node-rewards-scheduler/node_rewards_ingester.py:304-313 | every spaced line of a client starts with that client's `canister_id` label and has the date's timestamp |
| MultiIngester.ClientPieces | tools/node-rewards-scheduler/node_rewards_ingester.py:316-415 | a client's lines are the `ProvidersLines` of its fetched providers, then the `SubnetsLines` of its fetched subnets, then its governance lines |
| MultiIngester.ClientGovernance | tools/node-rewards-scheduler/node_rewards_ingester.py:410-415 | a client has one governance line iff the timestamp is truthy, and then it is the last line |
| MultiIngester.AllLines | tools/node-rewards-scheduler/node_rewards_ingester.py:290-313 | collecting all clients succeeds exactly when every client's section does, never fails with the "no metrics" error, and every collected line carries the date's noon timestamp |
| MultiIngester.PushForDate | tools/node-rewards-scheduler/node_rewards_ingester.py:283-437 | a body is posted iff the lines were collected and are not empty; the body is the joined lines plus `"\n"`; success iff the POST gave a non-error status |
| MultiIngester.NoDataRaises | tools/node-rewards-scheduler/node_rewards_ingester.py:299-300 | when any client has no data nothing is posted and the push raises |
| MultiIngester.PushedBodyCarriesLines | tools/node-rewards-scheduler/node_rewards_ingester.py:417-420 | the posted body splits back into exactly the collected lines, each with the noon timestamp of the date |
| MultiIngester.EmitSubnets | tools/node-rewards-scheduler/node_rewards_ingester.py:399-408 | the subnet loop appends exactly the rendered subnet lines |
| MultiIngester.EmitClient | tools/node-rewards-scheduler/node_rewards_ingester.py:296-415 | one iteration of the client loop appends exactly that client's rendered lines |
| MultiIngester.CollectLines | tools/node-rewards-scheduler/node_rewards_ingester.py:295-415 | the client loop collects exactly the rendered lines of `AllLines` |
| MultiIngester.PushMetricsForDate | tools/node-rewards-scheduler/node_rewards_ingester.py:283-437 | the method computes `PushForDate` |
| SingleIngester.FetchDaily | docker/tools/node-rewards-scheduler/node_rewards_ingester.py:182-229 | `Ok` is checked first and gives the normalised dicts; an empty reply, an `Err`, another shape or a malformed value all give `{}`; nothing raises |
| SingleIngester.FetchAgreesWithMulti | docker/tools/node-rewards-scheduler/node_rewards_ingester.py:189-223 | the two ingesters agree except where the multi one raises, where the single one gives `{}`, and on replies with both tags, where the multi one gives `{}` |
| SingleIngester.GetRewardsDaily | docker/tools/node-rewards-scheduler/node_rewards_ingester.py:182-229 | the method computes `FetchDaily` |
| SingleIngester.GovernanceEvent | docker/tools/node-rewards-scheduler/node_rewards_ingester.py:258-276 | the first reward's truthy timestamp, and `None` when the reply is empty or malformed |
| SingleIngester.SubnetsLinesShape | docker/tools/node-rewards-scheduler/node_rewards_ingester.py:410-416 | one inline `subnet_failure_rate{subnet_id=...}` line per subnet, in dict order, iff every rate has a `str()` |
| SingleIngester.SubnetsLines | docker/tools/node-rewards-scheduler/node_rewards_ingester.py:411-416 | the subnet loop succeeds exactly when every failure rate has a `str()` |
| SingleIngester.SubnetCount | docker/tools/node-rewards-scheduler/node_rewards_ingester.py:410-416 | exactly one subnet line per subnet key and none for any other id |
| SingleIngester.GovernanceLines | docker/tools/node-rewards-scheduler/node_rewards_ingester.py:418-423 | at most one label-free governance line, present iff the timestamp is truthy |
| SingleIngester.DayLinesShape | docker/tools/node-rewards-scheduler/node_rewards_ingester.py:339-423 | provider lines come first, then subnet lines, then the governance line last; all share the noon timestamp |
| SingleIngester.DayLines | docker/tools/node-rewards-scheduler/node_rewards_ingester.py:336-423 | the day's lines come out exactly when every provider entry and every failure rate is well formed (`WellFormedDay`) |
| SingleIngester.DateLines | docker/tools/node-rewards-scheduler/node_rewards_ingester.py:320-333 | no lines when the fetched results are empty; otherwise the day's lines at the noon timestamp of the date |
| SingleIngester.PostLines | docker/tools/node-rewards-scheduler/node_rewards_ingester.py:425-452 | a body is posted iff there are lines; the body is the joined lines plus `"\n"`; `True` iff the status is 200 or 204 |
| SingleIngester.PushForDate | docker/tools/node-rewards-scheduler/node_rewards_ingester.py:310-455 | returns `False` without posting on empty results, on no lines or on any error; the body is the joined lines plus `"\n"`; `True` iff the status is 200 or 204 |
| SingleIngester.PushedBodyCarriesLines | docker/tools/node-rewards-scheduler/node_rewards_ingester.py:426-427 | the posted body splits back into exactly the collected lines; none has a `canister_id` label, and all carry the noon timestamp |
| SingleIngester.EmitSubnets | docker/tools/node-rewards-scheduler/node_rewards_ingester.py:410-416 | the subnet loop appends exactly the rendered subnet lines |
| SingleIngester.CollectLines | docker/tools/node-rewards-scheduler/node_rewards_ingester.py:336-423 | the line-building loops collect exactly the rendered lines of `DayLines` |
| SingleIngester.CollectDateLines | docker/tools/node-rewards-scheduler/node_rewards_ingester.py:320-423 | fetching and line building for a date give the rendered lines of `DateLines`, or nothing exactly when `DateLines` gives nothing |
| SingleIngester.PushMetricsForDate | docker/tools/node-rewards-scheduler/node_rewards_ingester.py:310-455 | the method computes `PushForDate` |
| Schedule.DaysBefore | docker/tools/node-rewards-scheduler/node_rewards_ingester.py:463-464 | the date `i` days before a clock reading, which overflows exactly below year 1 |
| Schedule.Backfill | tools/node-rewards-scheduler/node_rewards_ingester.py:443-458 | the backfill loop produces `Backfilled`; a failing push is caught, and an overflowing date ends the loop |
| Schedule.Backfilled | tools/node-rewards-scheduler/node_rewards_ingester.py:443-458 | a backfill of `days` days pushes at most `days` dates |
| Schedule.BackfilledDayAt | tools/node-rewards-scheduler/node_rewards_ingester.py:447-449 | the k-th attempted day is `days - k` days before the k-th clock reading |
| Schedule.BackfilledRaised | tools/node-rewards-scheduler/node_rewards_ingester.py:447-456 | the loop attempts all `days` dates unless a date overflows, and it stops at the first overflow |
| Schedule.BackfilledDates | docker/tools/node-rewards-scheduler/node_rewards_ingester.py:462-469 | every attempted date is a valid date with the day number the loop computed |
| Schedule.BackfillOldestFirst | docker/tools/node-rewards-scheduler/node_rewards_ingester.py:462-469 | with a clock that does not go back, the attempted days strictly increase |
| Schedule.BackfillWithinOneDay | docker/tools/node-rewards-scheduler/node_rewards_ingester.py:457-471 | when the whole backfill runs within one UTC day, it attempts exactly now−N, …, now−1, each once |
| Schedule.WaitUntilNextRun | docker/tools/node-rewards-scheduler/node_rewards_ingester.py:473-483 | the wait ends at the next 00:05 UTC (`Calendar.NextRun`), except that it raises `OverflowError` exactly when the reading is at or after 00:05 on 9999-12-31 |
| Schedule.RunDailyScheduler | docker/tools/node-rewards-scheduler/node_rewards_ingester.py:493-514 | each pass waits for the next 00:05 trigger and then pushes the day before the reading taken after the wait; a pass whose wait raised pushes nothing; errors do not stop the loop |
| Schedule.LastDayNeverPushes | tools/node-rewards-scheduler/node_rewards_ingester.py:460-500 | from 00:05 on 9999-12-31 on, every pass raises in the wait and the loop never pushes again |
| Schedule.NextRunDay | docker/tools/node-rewards-scheduler/node_rewards_ingester.py:473-483 | the wait is strictly positive and at most 24 h; the trigger falls on today or tomorrow, at 00:05 |
| Schedule.YesterdayOfTrigger | tools/node-rewards-scheduler/node_rewards_ingester.py:480-489 | waking on the trigger's day, the pushed date is the day before the trigger |
| Schedule.ScheduledDaysIncrease | tools/node-rewards-scheduler/node_rewards_ingester.py:480-489 | later passes push later days |
| Configure.Fields | configure.py:50-62 | the declared fields of each connection kind are distinct, include `ansible_remote_user`, and are neither `ansible_connection` nor `unprocessed_options` |
| Configure.OptionsOf | configure.py:150-155 | the dict read from the tokens has unique keys |
| Configure.OptionsLast | configure.py:150-155 | each key maps to the value after the first `=` of its last token, so a later duplicate overrides an earlier one |
| Configure.OptsStrToOpts | configure.py:150-155 | the token loop computes `OptionsOf` of the whitespace-split tokens |
| Configure.OptionsOfItems | configure.py:150-155 | reading back `key=value` items of a plain dict gives that dict |
| Configure.ReadText | configure.py:170-171 | `opts_str_to_opts(opts_to_opts_str(d))` is `d` for a plain dict |
| Configure.ConnectionOf | configure.py:38-47 | absent fields become `None`; each declared field takes the input's value; the leftovers are the input without the declared keys; an `unprocessed_options` key raises a duplicate-keyword `TypeError` |
| Configure.FromOptions | configure.py:38-47 | the loop computes `ConnectionOf`, and the caller's dict is left holding exactly the leftovers, which are the record's unprocessed options |
| Configure.ProcessedConnection | configure.py:40-47 | the record is built from `processed_options` as the keyword call builds it |
| Configure.DeclaredAt | configure.py:24-30 | a field is emitted iff its value is truthy, with that value |
| Configure.Declared | configure.py:24-30 | the first loop keeps at most one entry per declared field: its keys are unique and all of them are field names |
| Configure.Merged | configure.py:31-35 | the second loop fails only on the `assert`, and a successful merge keeps every key already emitted |
| Configure.MergedOk | configure.py:31-35 | the leftover merge succeeds iff no non-empty leftover key is already emitted; otherwise the assert fails |
| Configure.MergedValue | configure.py:31-35 | a successful merge appends the non-empty leftovers in their order |
| Configure.ConnectionOptions | configure.py:22-36 | `to_options` fails on the assert iff a non-empty leftover repeats a truthy field; otherwise it gives the truthy fields in declaration order followed by the non-empty leftovers, with unique keys |
| Configure.ToOptions | configure.py:22-36 | the two loops compute `ConnectionOptions` |
| Configure.DeclaredOptions | configure.py:24-30 | the first loop collects exactly `Declared`: each truthy field value, in declaration order |
| Configure.MergeLeftovers | configure.py:31-35 | the second loop computes `Merged`: it appends the non-empty leftovers, or fails the `assert` on a key already emitted |
| Configure.OptionsText | configure.py:170-175 | the options text is empty exactly for an SSH record with no options; a Vagrant record's text starts with `ansible_connection=vagrant ` |
| Configure.ToLine | configure.py:169-176 | a line starts with the name and a space, except that an SSH record with no options gives `""` |
| Configure.KindOf | configure.py:159-166 | `vagrant` picks Vagrant; `ssh` or a missing key picks SSH; any other value fails the assert |
| Configure.HostOfLine | configure.py:157-167 | the name is the text before the first space; the record holds the fields read from the line; `ansible_connection` never survives into the leftovers; a line without `ansible_connection` raises `KeyError`; any other value fails the assert |
| Configure.FromLine | configure.py:148-167 | the method computes `HostOfLine`, including the deletion from the aliased dict |
| Configure.ReadOptions | configure.py:22-47 | `from_options` of what `to_options` wrote gives back the record with falsy fields as `None` and empty leftovers dropped |
| Configure.VagrantRoundTrip | configure.py:148-176 | for a Vagrant record without whitespace, `from_line(to_line(c))` restores every field, falsy fields as `None`, empty leftovers dropped |
| Configure.ReadSshLine | configure.py:169-176 | the options on a written SSH line are exactly `to_options()`, after the name |
| Configure.FirstMatch | configure.py:180-184 | the first non-blank line whose first token is the name, or none |
| Configure.FromHosts | configure.py:178-185 | `None` iff no non-blank line starts with the name; otherwise the parse of the first such line |
| Configure.IntoHosts | configure.py:187-199 | the loop computes `HostsText`: the first matching line is replaced by `to_line() + "\n"` in place, or that line is prepended |
| Configure.Matches | configure.py:181-183 | a line is taken for a host exactly when its first whitespace-separated word is the host's name; blank lines have no word |
| Configure.EditedLines | configure.py:188-198 | the first line for the host is replaced by the new line and every other line is kept in place; with no such line, the new line is put in front of the others |
| Configure.HostsText | configure.py:187-199 | `into_hosts` fails exactly when `to_options` does; with no line for the host its text is the new line, a newline, then the existing text unchanged |
| Configure.IntoHostsKeepsLines | configure.py:187-199 | the new text splits into the old lines with only the first match replaced, or the new line prepended; every other line keeps its ending and its place |
| Configure.IntoHostsFromHosts | configure.py:178-199 | after `into_hosts`, `from_hosts` finds the written line |
| Configure.LineShape | configure.py:169-176 | a non-empty written line has no line break and starts with the host's name |
| Configure.VagrantHostsRoundTrip | configure.py:178-199 | reading a Vagrant host back from the text `into_hosts` wrote gives the normalised record |
| Configure.SshHostNotReloaded | configure.py:162-164 | an SSH host with options, once written into a hosts file, cannot be read back: `from_hosts` raises `KeyError` |
| Configure.SshLineUnreadable | configure.py:162-164 | every line written for an SSH record fails to read with `KeyError('ansible_connection')` |
| Configure.HostOfLineIntended | configure.py:157-167 | a missing `ansible_connection` reads as SSH; the result never keeps `ansible_connection` among the leftovers |
| Configure.IntendedAgrees | configure.py:157-167 | the corrected reader agrees with the code on every line where the code does not raise that `KeyError` |
| Configure.ReadSshIntended | configure.py:162-164 | with the corrected reader, every SSH line written reads back as the normalised record |
| Configure.ToLineIntended | configure.py:176 | the corrected writer always starts with the name, and gives just the name for an SSH record with no options |
| Configure.RoundTripIntended | configure.py:148-176 | with both corrections, every writable record of either kind round-trips |
| Configure.EmptySshLine | configure.py:176 | an SSH record with no options is valid and writes as `""` |
| Configure.EmptySshLineDropsName | configure.py:176-199 | an SSH record with no options makes `into_hosts("")` return `"\n"`, and `from_hosts` then finds no host |

## Left out

- The canister transport and the Candid codec (`Agent`, `encode`, `query_raw`, the type declarations) are not modelled. The decoded replies are parameters.
- The HTTP requests to VictoriaMetrics (`requests.post`, `urljoin`, `raise_for_status`) are not modelled. The model keeps the body and classifies the reply: a status, or a failed connection.
- `wait_for_victoria_metrics` is not modelled. It is an unbounded network poll.
- Real time is not modelled. `datetime.now` readings are parameters, one per iteration. `time.sleep`, the 60 s cool-down and `KeyboardInterrupt` are left out. The scheduler runs one pass per supplied wake instead of forever.
- Float rendering is not modelled. Reward and failure-rate values are opaque tokens carrying their rendered text and truthiness. The governance sample reuses the decoded integer's token as it is, so the model writes `1700000000` where Python's `float(1700000000)` prints `1700000000.0`: the `.0` that `float()` adds to the governance value is not captured.
- The date strings (`strftime`/`strptime` with `%Y-%m-%d`) are not modelled. A `Date` value stands for the string.
- Logging is not modelled, in all files.
- The interactive wizard of `configure.py` (`prompt`, `generic_input_string`, `main`, the `change_target_*` functions) is not modelled. Neither are `VagrantConnection.default`, which reads the filesystem, the `__str__` texts, the platform checks, and reading and writing the files.
- `Path` values are modelled as strings.
- `plugins/connection/vagrant.py`, `tools/obs-stack-github-ingester/obs_stack_github_ingester.py` and both `prom_config_builder.py` files are not part of this model.
- Duck typing beyond the declared Candid shapes is not modelled. A wire value of another shape is the error `Malformed`. The multi ingester propagates it. The single one turns it into `{}` when fetching the rewards and into `False` when pushing. A malformed governance reply is the exception: it becomes `None`, so the day gets no governance line and the push still goes ahead.
- MultiIngester.PushForDate: the outcome distinguishes only success from the error kinds. It does not model the exception objects or the messages.
- Schedule.BackfillOldestFirst: "oldest first" is stated for a clock that does not go back. Readings across a change of day can repeat or skip a date, and the model states exactly which days are attempted instead.

## Findings

| source | as written | input that shows it | evidently intended | confidence | as-written member | corrected member |
|---|---|---|---|---|---|---|
| configure.py:162-164 | a line whose `ansible_connection` is missing is taken as SSH, then `del opts["ansible_connection"]` raises `KeyError` | the line `h ansible_host=x`, which `to_line` writes for every SSH host | a missing key reads as SSH and nothing is deleted | high (not executed) | Configure.SshLineUnreadable | Configure.ReadSshIntended |
| configure.py:176 | `" ".join([self.name] + [opts] if opts else [])` parses as `(... + [opts]) if opts else []`, so an empty options text drops the name | an SSH host `h` with all fields unset and no leftovers: `to_line()` is `""`, and `into_hosts("")` writes `"\n"` | the line is just the name when there are no options | high (not executed) | Configure.EmptySshLineDropsName | Configure.RoundTripIntended |
