/**
 * Two concrete command lines, followed through the handlers' contracts
 * alone.
 */
module Scenarios {
  import opened Wrappers
  import opened Decimal
  import opened Entities
  import opened Sched

  /** `sched:create daily "0 0 * * *" "SELECT 1" -d mydb`, with mydb present and no schedule named daily. */
  method CreateDaily(client: Client, env: Env)
    requires "mydb" in client.databases && !client.raisesAlreadyExists
  {
    var opts := CreateOptions(Some("mydb"), None, None, None, None, false);
    var o := SchedCreate("daily", "0 0 * * *", "SELECT 1", opts, client, env);
    assert o.calls[1] == CreateSchedule("daily", CreateParams("0 0 * * *", "SELECT 1", "mydb", None, None, 0));
    assert o.end == Finished;
  }

  /** `"10".to_i` is 10. */
  lemma ReadsTen(s: string)
    requires s == "10"
    ensures ToI(s) == 10
  {
    ToIOfUnsigned(s);
    assert s[..1] == "1";
    assert DigitsValue(s[..1]) == 1;
  }

  /** `sched:history daily 10 -p 1 -s 5` asks for the jobs at indices 15 through 24. */
  method HistoryDailyPage(max: string, client: Client, env: Env)
    requires max == "10"
  {
    ReadsTen(max);
    var o := SchedHistory("daily", Some(max), HistoryOptions(Some(1), Some(5)), client, env);
    assert o.calls[0] == History("daily", 15, 24);
    HistoryRequestCovers("daily", Some(max), HistoryOptions(Some(1), Some(5)));
    assert |IndexRange(15, 24)| == 10;
  }

  /** `sched:history daily -3`: a negative page size asks for no index at all. */
  lemma NegativePageSizeRequestsNothing(max: string, start: int)
    requires max == "-3"
    ensures IndexRange(start, start + ToI(max) - 1) == {}
  {
    IntToStringRoundTrip(-3);
    assert NatToString(3) == "3";
  }
}
