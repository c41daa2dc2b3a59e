/**
 * The values the schedule commands work with: what the API client returns,
 * the calls made to it, the rows handed to the table renderer, and the
 * library collaborators (time zone, time rendering and parsing, the result
 * URL builder) that are supplied from outside.
 */
module Entities {
  import opened Wrappers

  /** A Ruby `Time`: an instant (seconds since the UNIX epoch) and the UTC offset it is shown in. */
  datatype Time = Time(epoch: int, utcOffset: int)

  /** A schedule as `client.schedules` returns it. */
  datatype Schedule = Schedule(
    name: string,
    cron: string,
    timezone: Option<string>,
    delay: int,
    resultUrl: Option<string>,
    database: string,
    query: string,
    nextTime: Option<Time>)

  /** A job spawned by a schedule, as `client.history` and `client.run_schedule` return it. */
  datatype Job = Job(jobId: string, scheduledAt: Option<Time>, status: string, resultUrl: Option<string>)

  /** The option hash passed to `create_schedule`. */
  datatype CreateParams = CreateParams(
    cron: string,
    query: string,
    database: string,
    result: Option<string>,
    timezone: Option<string>,
    delay: int)

  /** One request made to the API client, with its arguments. */
  datatype Call =
    | ListSchedules
    | CheckDatabase(db: string)
    | CreateSchedule(name: string, create: CreateParams)
    | DeleteSchedule(name: string)
    | UpdateSchedule(name: string, params: map<string, string>)
    | History(name: string, first: int, last: int)
    | RunSchedule(name: string, time: int, num: int)

  /**
   * The API client's canned answers: what each request returns, and whether
   * it raises instead.
   */
  datatype Client = Client(
    schedules: seq<Schedule>,   // answer to `schedules`
    databases: set<string>,     // databases the existence check finds
    firstTime: Time,            // answer to `create_schedule`
    history: seq<Job>,          // answer to `history`
    runJobs: seq<Job>,          // answer to `run_schedule`
    raisesAlreadyExists: bool,  // `create_schedule` raises AlreadyExistsError
    raisesNotFound: bool)       // `delete_schedule`, `update_schedule`, `history`, `run_schedule` raise NotFoundError

  /**
   * What the process and the libraries supply: the program name, the usage
   * text of the running command, the local UTC offset at each instant,
   * `Time#to_s`, `Time.parse` (None where it raises) and the result URL
   * builder.
   */
  datatype Env = Env(
    prog: string,
    usage: string,
    localOffset: int -> int,
    showTime: Time -> string,
    parseTime: string -> Option<Time>,
    buildResultUrl: (string, Option<string>, bool) -> string)

  /** `t.localtime`: the same instant, shown in the local zone. */
  function LocalTime(env: Env, t: Time): Time {
    Time(t.epoch, env.localOffset(t.epoch))
  }

  /** `Time.at(i)`: the instant `i`, shown in the local zone. */
  function TimeAt(env: Env, i: int): Time {
    Time(i, env.localOffset(i))
  }

  /** A row of the `sched:list` table. */
  datatype ScheduleRow = ScheduleRow(
    name: string,
    cron: string,
    timezone: Option<string>,
    nextSchedule: Option<Time>,
    delay: int,
    result: Option<string>,
    database: string,
    query: string)

  /** A row of the `sched:history` table. */
  datatype HistoryRow = HistoryRow(jobId: string, time: Time, status: string, result: Option<string>)

  /** A row of the `sched:run` table. */
  datatype RunRow = RunRow(jobId: string, time: Option<Time>)
}
