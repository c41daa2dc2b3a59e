/**
 * The six `sched:*` command handlers. Each handler starts from its parsed
 * positional arguments and options, runs against the canned answers of an
 * API client, and returns what it did as an `Outcome`: the client calls in
 * order, the lines written to stderr and to stdout, the rows handed to the
 * table renderer, and how the command ended.
 */
module Sched {
  import opened Wrappers
  import opened Decimal
  import opened Entities
  import opened NameOrder

  /** How a command ends. */
  datatype End =
    | Finished         // the handler returned normally
    | Exit(code: int)  // the handler called `exit code`
    | Aborted          // the database existence check stopped the command
    | Raised           // a NoMethodError on nil escaped the handler

  /** The rows handed to `cmd_render_table`, if the command got that far. */
  datatype Table =
    | NoTable
    | ScheduleTable(schedRows: seq<ScheduleRow>)
    | HistoryTable(histRows: seq<HistoryRow>)
    | RunTable(runRows: seq<RunRow>)

  datatype Outcome = Outcome(calls: seq<Call>, stderr: seq<string>, stdout: seq<string>, table: Table, end: End)

  /** Flags of `sched:create`; None where the flag was not given. */
  datatype CreateOptions = CreateOptions(
    database: Option<string>,   // -d
    timezone: Option<string>,   // -t
    delay: Option<int>,         // -D
    result: Option<string>,     // -r
    user: Option<string>,       // -u
    askPassword: bool)          // -p

  /** Flags of `sched:update`; None where the flag was not given. */
  datatype UpdateOptions = UpdateOptions(
    cron: Option<string>,       // -s
    query: Option<string>,      // -q
    database: Option<string>,   // -d
    result: Option<string>,     // -r
    timezone: Option<string>,   // -t
    delay: Option<int>)         // -D

  /** Flags of `sched:history`. */
  datatype HistoryOptions = HistoryOptions(page: Option<int>, skip: Option<int>)

  /** Flags of `sched:run`. */
  datatype RunOptions = RunOptions(num: Option<int>)

  const DatabaseRequired := "-d, --database DB_NAME option is required."

  /** What every handler writes when the client reports that the schedule does not exist. */
  function NotFoundLines(name: string, prog: string): seq<string> {
    ["Schedule '" + name + "' does not exist.",
     "Use '" + prog + " sched:list' to show list of the schedules."]
  }

  // ---------------------------------------------------------------------
  // sched:list
  // ---------------------------------------------------------------------

  /** The list row of one schedule; the next run is shown in the local zone. */
  function ScheduleRowOf(env: Env, s: Schedule): (r: ScheduleRow)
    ensures r.name == s.name
    ensures r.nextSchedule.None? <==> s.nextTime.None?
    ensures r.nextSchedule.Some? ==> r.nextSchedule.value.epoch == s.nextTime.value.epoch
  {
    ScheduleRow(
      s.name, s.cron, s.timezone,
      if s.nextTime.Some? then Some(LocalTime(env, s.nextTime.value)) else None,
      s.delay, s.resultUrl, s.database, s.query)
  }

  /** One row per schedule, in the order the client returned them. */
  function ScheduleRows(env: Env, scheds: seq<Schedule>): seq<ScheduleRow> {
    seq(|scheds|, i requires 0 <= i < |scheds| => ScheduleRowOf(env, scheds[i]))
  }

  method SchedList(client: Client, env: Env) returns (o: Outcome)
    ensures o.calls == [ListSchedules]
    ensures o.stderr == [] && o.stdout == [] && o.end == Finished
    ensures o.table.ScheduleTable?
    ensures |o.table.schedRows| == |client.schedules|
    ensures multiset(o.table.schedRows) == multiset(ScheduleRows(env, client.schedules))
    ensures SortedByName(o.table.schedRows)
  {
    var scheds := client.schedules;
    var rows: seq<ScheduleRow> := [];
    for i := 0 to |scheds|
      invariant |rows| == i
      invariant forall k :: 0 <= k < i ==> rows[k] == ScheduleRowOf(env, scheds[k])
    {
      rows := rows + [ScheduleRowOf(env, scheds[i])];
    }
    assert rows == ScheduleRows(env, scheds);
    rows := SortByName(rows);
    assert |multiset(rows)| == |scheds|;
    o := Outcome([ListSchedules], [], [], ScheduleTable(rows), Finished);
  }

  /** Schedule names are unique, as the service keeps them. */
  predicate NamesIdentifySchedules(scheds: seq<Schedule>) {
    forall s, t :: s in scheds && t in scheds && s.name == t.name ==> s == t
  }

  lemma ScheduleRowsAppend(env: Env, a: seq<Schedule>, b: seq<Schedule>)
    ensures ScheduleRows(env, a + b) == ScheduleRows(env, a) + ScheduleRows(env, b)
  {
  }

  lemma RemoveOneMultiset(s1: seq<Schedule>, s2: seq<Schedule>, k: int)
    requires multiset(s1) == multiset(s2) && |s1| > 0 && 0 <= k < |s2| && s2[k] == s1[0]
    ensures multiset(s1[1..]) == multiset(s2[..k] + s2[k + 1..])
  {
    var x := s1[0];
    assert s1 == [x] + s1[1..];
    assert s2 == s2[..k] + [x] + s2[k + 1..];
    assert multiset(s1[1..]) == multiset(s1) - multiset{x};
    assert multiset(s2[..k] + s2[k + 1..]) == multiset(s2) - multiset{x};
  }

  lemma {:induction false} ScheduleRowsPermute(env: Env, s1: seq<Schedule>, s2: seq<Schedule>)
    requires multiset(s1) == multiset(s2)
    ensures multiset(ScheduleRows(env, s1)) == multiset(ScheduleRows(env, s2))
    decreases |s1|
  {
    if |s1| == 0 {
      assert |multiset(s2)| == 0;
      assert s2 == [];
    } else {
      var x := s1[0];
      assert x in multiset(s2);
      var k :| 0 <= k < |s2| && s2[k] == x;
      var pre, post := s2[..k], s2[k + 1..];
      RemoveOneMultiset(s1, s2, k);
      ScheduleRowsPermute(env, s1[1..], pre + post);
      assert s1 == [x] + s1[1..];
      assert s2 == pre + [x] + post;
      ScheduleRowsAppend(env, [x], s1[1..]);
      ScheduleRowsAppend(env, pre, [x]);
      ScheduleRowsAppend(env, pre + [x], post);
      ScheduleRowsAppend(env, pre, post);
    }
  }

  lemma RowsOfUniqueNames(env: Env, scheds: seq<Schedule>, rows: seq<ScheduleRow>)
    requires NamesIdentifySchedules(scheds)
    requires multiset(rows) == multiset(ScheduleRows(env, scheds))
    ensures NamesIdentifyRows(rows)
  {
    var all := ScheduleRows(env, scheds);
    forall x, y | x in rows && y in rows && x.name == y.name
      ensures x == y
    {
      assert x in multiset(all) && y in multiset(all);
      var i :| 0 <= i < |all| && all[i] == x;
      var j :| 0 <= j < |all| && all[j] == y;
      assert scheds[i] in scheds && scheds[j] in scheds;
    }
  }

  /**
   * With unique schedule names, the list table does not depend on the order
   * the client returned the schedules in: two listings of the same schedules
   * produce the same rows in the same order.
   */
  lemma ListTableDetermined(env: Env, s1: seq<Schedule>, s2: seq<Schedule>, rows1: seq<ScheduleRow>, rows2: seq<ScheduleRow>)
    requires multiset(s1) == multiset(s2) && NamesIdentifySchedules(s1)
    requires SortedByName(rows1) && multiset(rows1) == multiset(ScheduleRows(env, s1))
    requires SortedByName(rows2) && multiset(rows2) == multiset(ScheduleRows(env, s2))
    ensures rows1 == rows2
  {
    ScheduleRowsPermute(env, s1, s2);
    RowsOfUniqueNames(env, s1, rows1);
    SortedUnique(rows1, rows2);
  }

  // ---------------------------------------------------------------------
  // sched:create
  // ---------------------------------------------------------------------

  /** The result URL sent on create: built from -r, -u and -p when -r is given. */
  function CreateResultUrl(opts: CreateOptions, env: Env): (r: Option<string>)
    ensures r.None? <==> opts.result.None?
  {
    if opts.result.Some? then Some(env.buildResultUrl(opts.result.value, opts.user, opts.askPassword)) else None
  }

  method SchedCreate(name: string, cron: string, sql: string, opts: CreateOptions, client: Client, env: Env)
    returns (o: Outcome)
    ensures opts.database.None? ==> o == Outcome([], [DatabaseRequired], [], NoTable, Exit(1))
    ensures opts.database.Some? && opts.database.value !in client.databases ==>
      o == Outcome([CheckDatabase(opts.database.value)], [], [], NoTable, Aborted)
    ensures opts.database.Some? && opts.database.value in client.databases ==>
      var db := opts.database.value;
      && o.calls == [CheckDatabase(db),
                     CreateSchedule(name, CreateParams(cron, sql, db, CreateResultUrl(opts, env), opts.timezone, opts.delay.GetOr(0)))]
      && o.stdout == [] && o.table == NoTable
      && (client.raisesAlreadyExists ==>
            o.stderr == ["Schedule '" + name + "' already exists."] && o.end == Exit(1))
      && (!client.raisesAlreadyExists ==>
            o.stderr == ["Schedule '" + name + "' is created. It starts at " + env.showTime(LocalTime(env, client.firstTime)) + "."]
            && o.end == Finished)
  {
    var delay := 0;
    if opts.delay.Some? {
      delay := opts.delay.value;
    }
    if opts.database.None? {
      return Outcome([], [DatabaseRequired], [], NoTable, Exit(1));
    }
    var db := opts.database.value;
    var resultUrl: Option<string> := None;
    if opts.result.Some? {
      resultUrl := Some(env.buildResultUrl(opts.result.value, opts.user, opts.askPassword));
    }
    var calls := [CheckDatabase(db)];
    if db !in client.databases {
      return Outcome(calls, [], [], NoTable, Aborted);
    }
    calls := calls + [CreateSchedule(name, CreateParams(cron, sql, db, resultUrl, opts.timezone, delay))];
    if client.raisesAlreadyExists {
      return Outcome(calls, ["Schedule '" + name + "' already exists."], [], NoTable, Exit(1));
    }
    var first := LocalTime(env, client.firstTime);
    o := Outcome(calls, ["Schedule '" + name + "' is created. It starts at " + env.showTime(first) + "."], [], NoTable, Finished);
  }

  // ---------------------------------------------------------------------
  // sched:delete
  // ---------------------------------------------------------------------

  method SchedDelete(name: string, client: Client, env: Env) returns (o: Outcome)
    ensures o.calls == [DeleteSchedule(name)] && o.stdout == [] && o.table == NoTable
    ensures client.raisesNotFound ==> o.stderr == NotFoundLines(name, env.prog) && o.end == Exit(1)
    ensures !client.raisesNotFound ==> o.stderr == ["Schedule '" + name + "' is deleted."] && o.end == Finished
  {
    var calls := [DeleteSchedule(name)];
    if client.raisesNotFound {
      return Outcome(calls, NotFoundLines(name, env.prog), [], NoTable, Exit(1));
    }
    o := Outcome(calls, ["Schedule '" + name + "' is deleted."], [], NoTable, Finished);
  }

  // ---------------------------------------------------------------------
  // sched:update
  // ---------------------------------------------------------------------

  /** `key` is in the payload exactly when `value` is given, and maps to it. */
  predicate Entry(params: map<string, string>, key: string, value: Option<string>) {
    (key in params <==> value.Some?) && (value.Some? ==> params[key] == value.value)
  }

  predicate NoUpdateFlags(opts: UpdateOptions) {
    opts.cron.None? && opts.query.None? && opts.database.None? &&
    opts.result.None? && opts.timezone.None? && opts.delay.None?
  }

  /** The delay as the update payload carries it: its decimal string. */
  function DelayText(opts: UpdateOptions): Option<string> {
    if opts.delay.Some? then Some(IntToString(opts.delay.value)) else None
  }

  /** The partial update payload: exactly the keys whose flags were given. */
  predicate IsUpdatePayload(opts: UpdateOptions, params: map<string, string>) {
    && Entry(params, "cron", opts.cron)
    && Entry(params, "query", opts.query)
    && Entry(params, "database", opts.database)
    && Entry(params, "result", opts.result)
    && Entry(params, "timezone", opts.timezone)
    && Entry(params, "delay", DelayText(opts))
    && params.Keys <= {"cron", "query", "database", "result", "timezone", "delay"}
  }

  method BuildUpdateParams(opts: UpdateOptions) returns (params: map<string, string>)
    ensures IsUpdatePayload(opts, params)
    ensures params == map[] <==> NoUpdateFlags(opts)
  {
    params := map[];
    if opts.cron.Some? {
      params := params["cron" := opts.cron.value];
    }
    if opts.query.Some? {
      params := params["query" := opts.query.value];
    }
    if opts.database.Some? {
      params := params["database" := opts.database.value];
    }
    if opts.result.Some? {
      params := params["result" := opts.result.value];
    }
    if opts.timezone.Some? {
      params := params["timezone" := opts.timezone.value];
    }
    if opts.delay.Some? {
      params := params["delay" := IntToString(opts.delay.value)];
    }
  }

  /** The payload is determined by the flags. */
  lemma UpdatePayloadUnique(opts: UpdateOptions, p1: map<string, string>, p2: map<string, string>)
    requires IsUpdatePayload(opts, p1) && IsUpdatePayload(opts, p2)
    ensures p1 == p2
  {
    assert p1.Keys == p2.Keys;
  }

  /**
   * A given delay travels as a canonical decimal string that reads back as
   * the same number; a delay of 0 is sent as "0", not dropped.
   */
  lemma UpdateDelayText(opts: UpdateOptions, params: map<string, string>)
    requires IsUpdatePayload(opts, params) && opts.delay.Some?
    ensures "delay" in params
    ensures IsCanonical(params["delay"]) && ToI(params["delay"]) == opts.delay.value
    ensures opts.delay.value == 0 ==> params["delay"] == "0"
  {
    IntToStringRoundTrip(opts.delay.value);
  }

  method SchedUpdate(name: string, opts: UpdateOptions, client: Client, env: Env) returns (o: Outcome)
    ensures NoUpdateFlags(opts) ==> o == Outcome([], [env.usage], [], NoTable, Exit(1))
    ensures !NoUpdateFlags(opts) ==>
      && |o.calls| == 1 && o.calls[0].UpdateSchedule? && o.calls[0].name == name
      && IsUpdatePayload(opts, o.calls[0].params)
      && o.stdout == [] && o.table == NoTable
      && (client.raisesNotFound ==> o.stderr == NotFoundLines(name, env.prog) && o.end == Exit(1))
      && (!client.raisesNotFound ==> o.stderr == ["Schedule '" + name + "' is updated."] && o.end == Finished)
  {
    var params := BuildUpdateParams(opts);
    if params == map[] {
      return Outcome([], [env.usage], [], NoTable, Exit(1));
    }
    var calls := [UpdateSchedule(name, params)];
    if client.raisesNotFound {
      return Outcome(calls, NotFoundLines(name, env.prog), [], NoTable, Exit(1));
    }
    o := Outcome(calls, ["Schedule '" + name + "' is updated."], [], NoTable, Finished);
  }

  // ---------------------------------------------------------------------
  // sched:history
  // ---------------------------------------------------------------------

  /** `scheds[i]` is the first schedule named `name`. */
  predicate FirstNamed(scheds: seq<Schedule>, name: string, i: int) {
    0 <= i < |scheds| && scheds[i].name == name && forall j :: 0 <= j < i ==> scheds[j].name != name
  }

  /** `scheds.find { |s| s.name == name }`: the first schedule with that name, if any. */
  function FindByName(scheds: seq<Schedule>, name: string): (r: Option<Schedule>)
    ensures r.None? <==> forall i :: 0 <= i < |scheds| ==> scheds[i].name != name
    ensures r.Some? ==> exists i :: FirstNamed(scheds, name, i) && scheds[i] == r.value
  {
    if |scheds| == 0 then None
    else if scheds[0].name == name then
      assert FirstNamed(scheds, name, 0);
      Some(scheds[0])
    else
      var r := FindByName(scheds[1..], name);
      assert r.Some? ==> exists i :: FirstNamed(scheds, name, i) && scheds[i] == r.value by {
        if r.Some? {
          var i :| FirstNamed(scheds[1..], name, i) && scheds[1..][i] == r.value;
          assert FirstNamed(scheds, name, i + 1) by {
            forall j | 0 <= j < i + 1
              ensures scheds[j].name != name
            {
              if j > 0 {
                assert scheds[j] == scheds[1..][j - 1];
              }
            }
          }
          assert scheds[i + 1] == r.value;
        }
      }
      assert r.None? ==> forall i :: 0 <= i < |scheds| ==> scheds[i].name != name by {
        if r.None? {
          forall i | 0 <= i < |scheds|
            ensures scheds[i].name != name
          {
            if i > 0 {
              assert scheds[i] == scheds[1..][i - 1];
            }
          }
        }
      }
      r
  }

  /** The labels of the lines `sched:history` prints, each padded to fifteen characters. */
  const DescribeLabels: seq<string> := [
    "Name         : ", "Cron         : ", "Timezone     : ", "Delay        : ",
    "Next         : ", "Result       : ", "Database     : ", "Query        : "]

  /**
   * The labelled lines `sched:history` prints for the schedule it found.
   * A nil field interpolates as the empty string, and the next run is shown
   * with `Time#to_s` as the client returned it, without `localtime`.
   */
  function Describe(env: Env, s: Schedule): seq<string> {
    ["Name         : " + s.name,
     "Cron         : " + s.cron,
     "Timezone     : " + s.timezone.GetOr(""),
     "Delay        : " + IntToString(s.delay) + " sec",
     "Next         : " + (if s.nextTime.Some? then env.showTime(s.nextTime.value) else ""),
     "Result       : " + s.resultUrl.GetOr(""),
     "Database     : " + s.database,
     "Query        : " + s.query]
  }

  /**
   * The layout of the description: eight lines in label order, each label
   * followed by its field; a nil field leaves the label alone, and the next
   * run appears as `Time#to_s` shows it, not moved to the local zone.
   */
  lemma DescribeLayout(env: Env, s: Schedule)
    ensures var r := Describe(env, s);
      && |r| == |DescribeLabels|
      && (forall k :: 0 <= k < |r| ==> |r[k]| >= 15 && r[k][..15] == DescribeLabels[k])
      && r[0][15..] == s.name && r[6][15..] == s.database && r[7][15..] == s.query
      && (s.timezone.None? ==> r[2] == DescribeLabels[2])
      && (s.nextTime.None? ==> r[4] == DescribeLabels[4])
      && (s.nextTime.Some? ==> r[4][15..] == env.showTime(s.nextTime.value))
      && (s.resultUrl.None? ==> r[5] == DescribeLabels[5])
  {
  }

  /** What `sched:history` prints before its table: the description of the first schedule with the name, if any. */
  function Description(env: Env, scheds: seq<Schedule>, name: string): seq<string> {
    match FindByName(scheds, name)
    case Some(s) => Describe(env, s)
    case None => []
  }

  /** The delay line reads back, with `to_i`, as the schedule's delay. */
  lemma DelayLineReadsBack(env: Env, s: Schedule, unit: string)
    requires unit == " sec"
    ensures ToI(Describe(env, s)[3][15..]) == s.delay
  {
    var d := IntToString(s.delay);
    assert Describe(env, s)[3][15..] == d + unit;
    IntToStringThen(s.delay, unit);
  }

  predicate AllScheduled(jobs: seq<Job>) {
    forall k :: 0 <= k < |jobs| ==> jobs[k].scheduledAt.Some?
  }

  /** The history row of one job; its scheduled time is shown in the local zone. */
  function HistoryRowOf(env: Env, j: Job): (r: HistoryRow)
    requires j.scheduledAt.Some?
    ensures r.jobId == j.jobId && r.time.epoch == j.scheduledAt.value.epoch
  {
    HistoryRow(j.jobId, LocalTime(env, j.scheduledAt.value), j.status, j.resultUrl)
  }

  /** The inclusive index range [lo, hi] of a history request. */
  function IndexRange(lo: int, hi: int): (r: set<int>)
    ensures forall i :: i in r <==> lo <= i <= hi
    ensures |r| == (if lo <= hi then hi - lo + 1 else 0)
    decreases hi - lo + 1
  {
    if lo > hi then {} else {lo} + IndexRange(lo + 1, hi)
  }

  /** A history request starting at `start` for page size `m` covers `m` indices, and none when `m` is not positive. */
  lemma HistoryRangeSize(start: int, m: int)
    ensures m >= 0 ==> |IndexRange(start, start + m - 1)| == m
    ensures m <= 0 ==> IndexRange(start, start + m - 1) == {}
  {
  }

  /** `(max || 20).to_i`: the page size of `sched:history`. */
  function PageSize(max: Option<string>): int {
    if max.Some? then ToI(max.value) else 20
  }

  /** The `history` request: `page` pages of `max` jobs skipped after the first `skip`, then one page. */
  function HistoryRequest(name: string, max: Option<string>, opts: HistoryOptions): (c: Call)
    ensures c.History? && c.name == name
    ensures c.last - c.first + 1 == PageSize(max)
  {
    var m := PageSize(max);
    var start := opts.skip.GetOr(0) + m * opts.page.GetOr(0);
    History(name, start, start + m - 1)
  }

  /** The request covers exactly `PageSize(max)` job indices, and none when that is not positive. */
  lemma HistoryRequestCovers(name: string, max: Option<string>, opts: HistoryOptions)
    ensures var c := HistoryRequest(name, max, opts);
      && (PageSize(max) >= 0 ==> |IndexRange(c.first, c.last)| == PageSize(max))
      && (PageSize(max) <= 0 ==> IndexRange(c.first, c.last) == {})
  {
    var c := HistoryRequest(name, max, opts);
    HistoryRangeSize(c.first, PageSize(max));
  }

  method SchedHistory(name: string, max: Option<string>, opts: HistoryOptions, client: Client, env: Env)
    returns (o: Outcome)
    ensures |o.calls| >= 1
    ensures o.calls[0] == HistoryRequest(name, max, opts)
    ensures client.raisesNotFound ==>
      |o.calls| == 1 && o.stderr == NotFoundLines(name, env.prog) && o.stdout == [] &&
      o.table == NoTable && o.end == Exit(1)
    ensures !client.raisesNotFound ==>
      && o.calls[1..] == [ListSchedules]
      && o.stderr == []
      && o.stdout == Description(env, client.schedules, name)
      && (AllScheduled(client.history) ==>
            && o.end == Finished && o.table.HistoryTable?
            && |o.table.histRows| == |client.history|
            && forall k :: 0 <= k < |client.history| ==> o.table.histRows[k] == HistoryRowOf(env, client.history[k]))
      && (!AllScheduled(client.history) ==> o.end == Raised && o.table == NoTable)
  {
    // lines 164-168: the page size and the number of jobs skipped
    var calls := [HistoryRequest(name, max, opts)];
    if client.raisesNotFound {
      return Outcome(calls, NotFoundLines(name, env.prog), [], NoTable, Exit(1));
    }
    calls := calls + [ListSchedules];
    var out, table, end := ShowHistory(name, client.schedules, client.history, env);
    o := Outcome(calls, [], out, table, end);
  }

  /**
   * What `sched:history` shows once the request succeeded: the description
   * of the schedule, then the rows, or a raise where a job has no time.
   */
  method ShowHistory(name: string, scheds: seq<Schedule>, jobs: seq<Job>, env: Env)
    returns (out: seq<string>, table: Table, end: End)
    ensures out == Description(env, scheds, name)
    ensures AllScheduled(jobs) ==>
      && end == Finished && table.HistoryTable?
      && |table.histRows| == |jobs|
      && forall k :: 0 <= k < |jobs| ==> table.histRows[k] == HistoryRowOf(env, jobs[k])
    ensures !AllScheduled(jobs) ==> end == Raised && table == NoTable
  {
    out := Description(env, scheds, name);
    var rows := HistoryRows(jobs, env);
    if rows.None? {
      return out, NoTable, Raised;
    }
    table, end := HistoryTable(rows.value), Finished;
  }

  /** The rows of `history.each`, or None where a job without a scheduled time makes `localtime` raise. */
  method HistoryRows(jobs: seq<Job>, env: Env) returns (rows: Option<seq<HistoryRow>>)
    ensures rows.None? <==> !AllScheduled(jobs)
    ensures rows.Some? ==>
      && |rows.value| == |jobs|
      && forall k :: 0 <= k < |jobs| ==> rows.value[k] == HistoryRowOf(env, jobs[k])
  {
    var acc: seq<HistoryRow> := [];
    for i := 0 to |jobs|
      invariant |acc| == i
      invariant forall k :: 0 <= k < i ==> jobs[k].scheduledAt.Some? && acc[k] == HistoryRowOf(env, jobs[k])
    {
      if jobs[i].scheduledAt.None? {
        return None;
      }
      acc := acc + [HistoryRowOf(env, jobs[i])];
    }
    return Some(acc);
  }

  // ---------------------------------------------------------------------
  // sched:run
  // ---------------------------------------------------------------------

  /** The epoch-literal test `time.to_i.to_s == time.to_s`. */
  function IsEpochLiteral(time: string): (b: bool)
    ensures b <==> IsCanonical(time)
  {
    RoundTripIffCanonical(time);
    IntToString(ToI(time)) == time
  }

  /** Inputs that look numeric but are not what `Integer#to_s` writes go to the date parser. */
  lemma NonEpochLiterals(time: string)
    requires time in {"007", "+5", "-0", "1_000", ""}
    ensures !IsEpochLiteral(time)
  {
    if time == "1_000" {
      assert !IsDigit(time[1]);
    }
    assert !IsCanonical(time);
  }

  /** Zero, and a minus sign before digits with a nonzero lead, are read as seconds since the epoch. */
  lemma EpochLiterals(time: string)
    requires time in {"0", "-42", "1700000000"}
    ensures IsEpochLiteral(time)
  {
    if time == "-42" {
      assert time[1..] == "42";
    }
    assert IsCanonical(time);
  }

  /** The job row of `sched:run`; a job without a scheduled time gets an empty time. */
  function RunRowOf(env: Env, j: Job): (r: RunRow)
    ensures r.jobId == j.jobId
    ensures r.time.None? <==> j.scheduledAt.None?
    ensures r.time.Some? ==> r.time.value.epoch == j.scheduledAt.value.epoch
  {
    RunRow(j.jobId, if j.scheduledAt.Some? then Some(LocalTime(env, j.scheduledAt.value)) else None)
  }

  /**
   * The specification of the start time of `sched:run`: the epoch for a
   * canonical numeral, else what the date parser makes of it. `ResolveStart`
   * branches on the round-trip test itself, as the code does, and
   * `IsEpochLiteral` connects the two.
   */
  function StartTime(env: Env, time: string): Option<Time> {
    if IsCanonical(time) then Some(TimeAt(env, ToI(time))) else env.parseTime(time)
  }

  method SchedRun(name: string, time: string, opts: RunOptions, client: Client, env: Env) returns (o: Outcome)
    ensures StartTime(env, time).None? ==>
      o == Outcome([], ["invalid time format: " + time], [], NoTable, Exit(1))
    ensures StartTime(env, time).Some? ==>
      var t := StartTime(env, time).value;
      var num := opts.num.GetOr(1);
      && o.calls == [RunSchedule(name, t.epoch, num)]
      && o.stdout == []
      && (client.raisesNotFound ==>
            o.stderr == NotFoundLines(name, env.prog) && o.table == NoTable && o.end == Raised)
      && (!client.raisesNotFound ==>
            && o.stderr == ["Scheduled " + IntToString(num) + " jobs from " + env.showTime(t) + "."]
            && o.end == Finished && o.table.RunTable?
            && |o.table.runRows| == |client.runJobs|
            && forall k :: 0 <= k < |client.runJobs| ==> o.table.runRows[k] == RunRowOf(env, client.runJobs[k]))
  {
    var num := opts.num.GetOr(1);
    var start := ResolveStart(time, env);
    if start.None? {
      return Outcome([], ["invalid time format: " + time], [], NoTable, Exit(1));
    }
    var t := start.value;
    var calls := [RunSchedule(name, t.epoch, num)];
    if client.raisesNotFound {
      // the message is printed, then `jobs.each_with_index` runs on nil
      return Outcome(calls, NotFoundLines(name, env.prog), [], NoTable, Raised);
    }
    var rows := RunRows(client.runJobs, env);
    o := Outcome(calls, ["Scheduled " + IntToString(num) + " jobs from " + env.showTime(t) + "."], [], RunTable(rows), Finished);
  }

  /** The start time: `Time.at` for an epoch literal, `Time.parse` for anything else. */
  method ResolveStart(time: string, env: Env) returns (t: Option<Time>)
    ensures t == StartTime(env, time)
  {
    if IsEpochLiteral(time) {
      t := Some(TimeAt(env, ToI(time)));
    } else {
      t := env.parseTime(time);
    }
  }

  /** The rows of `jobs.each_with_index`, one per job, in order. */
  method RunRows(jobs: seq<Job>, env: Env) returns (rows: seq<RunRow>)
    ensures |rows| == |jobs|
    ensures forall k :: 0 <= k < |jobs| ==> rows[k] == RunRowOf(env, jobs[k])
  {
    rows := [];
    for i := 0 to |jobs|
      invariant |rows| == i
      invariant forall k :: 0 <= k < i ==> rows[k] == RunRowOf(env, jobs[k])
    {
      rows := rows + [RunRowOf(env, jobs[i])];
    }
  }
}
