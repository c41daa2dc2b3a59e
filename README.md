# sched:* commands of the Treasure Data CLI, modelled in Dafny

This project models the six `sched:*` command handlers of the `td` command-line tool: `sched:list`, `sched:create`, `sched:delete`, `sched:update`, `sched:history` and `sched:run`. Together they manage named schedules of recurring queries on a remote service.

Each handler is a method. Its inputs are:
- the already-parsed positional arguments and an options record (`None` where a flag was not given);
- a `Client` of canned API answers, with flags for whether a call raises NotFoundError or AlreadyExistsError;
- an `Env` holding what the process and the libraries supply: the program name, the usage text, the local UTC offset, `Time#to_s`, `Time.parse` and the result-URL builder.

Each handler returns an `Outcome`:
- the API calls in the order made, with their arguments;
- the lines written to stderr;
- the lines written to stdout;
- the rows handed to the table renderer;
- how the command ended: it returned, it called `exit`, the database existence check stopped it, or a NoMethodError on `nil` escaped it.

Files:
- `wrappers.dfy`: `Option`.
- `decimal.dfy`: Ruby's `Integer#to_s` and base-10 `String#to_i`, with round-trip lemmas.
- `entities.dfy`: schedules, jobs, times, API calls, the client and the table rows.
- `name_order.dfy`: `String#<=>` on names and the `sort_by` of `sched:list`.
- `sched.dfy`: the handlers and their lemmas.
- `scenarios.dfy`: two command lines followed through the contracts, and the empty request a negative page size makes.

The code decides the model in these places:
- **`sched:run` with a NotFound error:** after the not-found message, `jobs` is still `nil`. `jobs.each_with_index` (line 234) raises before the `Scheduled N jobs` line (line 238), so the command ends with `Raised` and prints neither the summary nor a table.
- **`sched:history` with a job that has no scheduled time:** line 195 calls `.localtime` without checking for `nil`, so the command ends with `Raised` and no table.
- **Paging in `sched:history`:** `page` is always an Integer (default 0), so the `if page` at line 166 always holds. The model applies `skip += max * page` without a branch.
- **Page size in `sched:history`:** it is `(max || 20).to_i`, Ruby's lenient `String#to_i`. For example, `"10x"` reads as 10 and `"abc"` as 0.
- **Sorting in `sched:list`:** the rows are ordered with `sort_by`, which makes no promise about rows with equal names. The model proves sortedness and the permutation property, and nothing about the order of rows with equal names.

## Model

| member | source | states |
|---|---|---|
| `Sched.SchedList` | lib/td/command/sched.rb:5-21 | One `schedules` call and nothing on stderr. The table has exactly one row per returned schedule (the same multiset of rows) and is sorted ascending by name. |
| `Sched.ScheduleRowOf` | lib/td/command/sched.rb:14 | A row carries its schedule's name. `Next schedule` is nil exactly when `next_time` is absent; otherwise it is the same instant shown in the local zone. |
| `NameOrder.NameLe` | lib/td/command/sched.rb:16-18 | `String#<=>` as a "not after" test on names: the first differing character decides, and a proper prefix sorts first. |
| `NameOrder.SortByName` | lib/td/command/sched.rb:16-18 | `sort_by` on `:Name`: the result is ascending under `String#<=>` and is a permutation of its input. |
| `NameOrder.NameLeTotal` | lib/td/command/sched.rb:16-18 | Any two names are comparable. |
| `NameOrder.NameLeTransitive` | lib/td/command/sched.rb:16-18 | The name order is transitive. |
| `NameOrder.NameLeAntisymmetric` | lib/td/command/sched.rb:16-18 | Two names that are each ordered before the other are equal. |
| `NameOrder.SortedUnique` | lib/td/command/sched.rb:16-18 | When names identify rows, only one sorted arrangement of a multiset of rows exists. |
| `Sched.ListTableDetermined` | lib/td/command/sched.rb:10-18 | With unique schedule names, two listings of the same schedules yield the same table in the same order, whatever order the client returned them in. |
| `Sched.CreateResultUrl` | lib/td/command/sched.rb:57-60 | The result URL is sent exactly when `-r` was given, built from it with the `-u` user and the `-p` flag. |
| `Sched.SchedCreate` | lib/td/command/sched.rb:23-76 | Without `-d`: the "option is required" line, exit 1 and no client call. With `-d`, the database check comes first, and an unknown database stops the command before `create_schedule`. Otherwise `create_schedule` is called with the cron, query, database, built result URL, timezone and delay, and the delay is 0 when `-D` is absent. AlreadyExists: "already exists" line and exit 1. Success: the "is created" line with the first run in local time. |
| `Sched.NotFoundLines` | lib/td/command/sched.rb:87-88 | The two stderr lines every handler writes on NotFoundError: the schedule does not exist, and `<prog> sched:list` lists them. |
| `Sched.SchedDelete` | lib/td/command/sched.rb:78-93 | One `delete_schedule` call. NotFound: the "does not exist" line, the `sched:list` hint and exit 1. Otherwise: the "is deleted" line. |
| `Sched.BuildUpdateParams` | lib/td/command/sched.rb:124-130 | The payload has exactly the keys whose flags were given, each with the flag's value; the delay is sent as its decimal string. The payload is empty exactly when no flag was given. |
| `Sched.UpdatePayloadUnique` | lib/td/command/sched.rb:124-130 | The flags determine the payload: any two payloads meeting the key-by-key description are equal. |
| `Sched.UpdateDelayText` | lib/td/command/sched.rb:130 | A given delay is sent as a canonical decimal string that `to_i` reads back as the same number; a delay of 0 is sent as "0" rather than dropped. |
| `Sched.SchedUpdate` | lib/td/command/sched.rb:95-149 | With no flags: the usage text, exit 1 and no client call. Otherwise one `update_schedule` call carrying exactly the given keys. NotFound: the "does not exist" line, the hint and exit 1. Otherwise: the "is updated" line. |
| `Sched.FindByName` | lib/td/command/sched.rb:181-182 | `find` by name: None exactly when no schedule has that name; otherwise the first schedule with that name. |
| `Sched.IndexRange` | lib/td/command/sched.rb:173 | The inclusive range [lo, hi] holds exactly the integers between lo and hi, so there are hi - lo + 1 of them (none when lo > hi). |
| `Sched.HistoryRangeSize` | lib/td/command/sched.rb:173 | A request from `start` to `start + m - 1` covers `m` indices when `m >= 0`, and none when `m <= 0`. |
| `Sched.PageSize` | lib/td/command/sched.rb:164 | The page size is `to_i` of the argument, or 20 when there is none. |
| `Sched.HistoryRequest` | lib/td/command/sched.rb:164-173 | The `history` request names the schedule and runs from `skip + max*page` to `skip + max*page + max - 1`, a span of exactly `max` indices. |
| `Sched.HistoryRequestCovers` | lib/td/command/sched.rb:164-173 | The request covers exactly `max` job indices, and none when `max` is 0 or negative (for example the argument "-3"). |
| `Sched.Describe` | lib/td/command/sched.rb:183-190 | The eight labelled description lines, in order. |
| `Sched.DescribeLayout` | lib/td/command/sched.rb:183-190 | Eight lines, each starting with its 15-character label in order. Name, database and query follow their labels verbatim. A nil timezone, next time or result URL leaves its label alone. `Next` shows the time as `Time#to_s` gives it, without `localtime`. |
| `Sched.DelayLineReadsBack` | lib/td/command/sched.rb:186 | The text after the `Delay` label, `<delay> sec`, reads back with `to_i` as the schedule's delay. |
| `Sched.Description` | lib/td/command/sched.rb:181-191 | The description of the first schedule with the name, or nothing when none has it. |
| `Sched.ShowHistory` | lib/td/command/sched.rb:181-198 | Prints the description, then gives one row per job, or `Raised` with no table when some job has no scheduled time. |
| `Sched.HistoryRowOf` | lib/td/command/sched.rb:194-196 | A history row carries the job id, and its time is the job's scheduled instant shown in the local zone. |
| `Sched.HistoryRows` | lib/td/command/sched.rb:193-196 | One row per job, in order, each the job's history row. When a job has no scheduled time there are no rows, and this happens exactly when some job lacks one (`nil.localtime` raises). |
| `Sched.SchedHistory` | lib/td/command/sched.rb:151-199 | The first call is the `history` request of `HistoryRequest`. NotFound: the "does not exist" line, the hint, exit 1 and no further call or output. Otherwise the schedules are fetched, and the descriptive block is printed exactly when some schedule has the name (the first such one). There is one row per job, or `Raised` when a job has no scheduled time. |
| `Sched.IsEpochLiteral` | lib/td/command/sched.rb:210 | `time.to_i.to_s == time` holds exactly when `time` is "0", or an optional `-` followed by digits with a nonzero lead. |
| `Sched.NonEpochLiterals` | lib/td/command/sched.rb:210 | "007", "+5", "-0", "1_000" and "" fail the epoch test and go to the date parser. |
| `Sched.EpochLiterals` | lib/td/command/sched.rb:210-212 | "0", "-42" and "1700000000" pass the epoch test. |
| `Sched.StartTime` | lib/td/command/sched.rb:210-221 | The intended start time: the epoch of the input for a canonical numeral, otherwise what the date parser makes of it. |
| `Sched.ResolveStart` | lib/td/command/sched.rb:210-221 | The start time is `Time.at(time.to_i)` in the local zone for an epoch literal. Otherwise it is what `Time.parse` makes of the input, and None where that raises. |
| `Sched.RunRows` | lib/td/command/sched.rb:233-236 | One row per returned job, in order, each the job's run row. |
| `Sched.RunRowOf` | lib/td/command/sched.rb:234-236 | A run row carries the job id. Its time is nil exactly when the job has no scheduled time; otherwise it is the same instant shown in the local zone. |
| `Sched.SchedRun` | lib/td/command/sched.rb:201-240 | A canonical numeral is read as epoch seconds; anything else goes to the date parser. A parse failure gives "invalid time format: <input>", exit 1 and no client call. Otherwise there is one `run_schedule` call with the resolved epoch and `num` (default 1). NotFound: the message and hint, then `Raised`, with no summary and no table. Success: "Scheduled <num> jobs from <t>." with the requested `num`, and one row per returned job. |
| `Decimal.ToI` | lib/td/command/sched.rb:164 | `String#to_i` in base 10. It skips leading white space and takes one optional sign and an optional `0d` prefix, then the longest run of digits with single underscores between them. It gives 0 when there is no such run. |
| `Decimal.IntToString` | lib/td/command/sched.rb:130 | `Integer#to_s`: a minus sign for negative values, then the digits of the magnitude without leading zeros. |
| `Decimal.IntToStringThen` | lib/td/command/sched.rb:186 | `to_i` reads `Integer#to_s` output back as the same integer, even with text after it that cannot continue a number. |
| `Decimal.IntToStringRoundTrip` | lib/td/command/sched.rb:130 | `Integer#to_s` yields a canonical numeral, and `String#to_i` reads it back as the same integer. |
| `Decimal.CanonicalRoundTrip` | lib/td/command/sched.rb:210 | For a canonical numeral, `to_i` followed by `to_s` gives back the same string. |
| `Decimal.RoundTripIffCanonical` | lib/td/command/sched.rb:210 | The round trip `s.to_i.to_s == s` holds if and only if `s` is canonical. |
| `Decimal.ToIOfNumeral` | lib/td/command/sched.rb:164 | `String#to_i` reads a numeral, and a numeral with a minus sign before it, as the value of its digits. |

## Left out

- `get_client` and the network behind every `client.*` call are not modelled. A `Client` value supplies each call's answer and whether the call raises NotFoundError or AlreadyExistsError. Other transport errors propagate out of the handlers uncaught, and the model does not represent them.
- `op.on`, `op.cmd_parse`, the `Integer` coercion of flags and the arity checks belong to the option-parsing library. Each handler starts from positional arguments and an options record.
- `cmd_render_table`, its field order and `:max_width` are rendering code. The model stops at the rows handed to the renderer.
- `get_database` is not part of this model. It is modelled as a check that the database is in `client.databases`. When the check fails, the outcome is `Aborted`; that function's own message and exit status are not modelled.
- `build_result_url` (in `td/command/result`) is not part of this model. It is an `Env` function of the URL, user and ask-password flag, and its password prompt is not modelled.
- `Time.parse`, `Time#to_s` and the local zone are library behaviour. They are `Env` functions: `localtime` and `Time.at` keep the instant and take the local UTC offset that `Env` gives for it.
- `cmd_debug_error` only writes debugging output and is left out. `$prog` is the `Env.prog` string.
- `BuildUpdateParams`: the payload is a map, so the insertion order of the Ruby hash (cron, query, database, result, timezone, delay) is not modelled.
- `SortByName`: makes no claim about the relative order of rows with equal names, since Ruby's `sort_by` is not stable.
- `ToI` handles base 10 only, which is the only base these commands use. The other radix prefixes and Ruby's integer-size limits are out of scope because Ruby integers are unbounded.
