/** The views track.py derives from the log: the weekly report by work type
    (track.py:201-224), the per-weekday totals behind the progress chart
    (track.py:226-250) and the remaining time shown under the timer (track.py:86-91).

    Both loops add `log["duration"]` to a number. The records `stop_work` writes hold an
    "HH:MM:SS" string there, and adding a string to a number raises TypeError, which the
    loops' `except KeyError` does not catch: the report is then abandoned. That case is
    the `Failure` of these folds; only numeric durations are summed. */
module Reports {
  import opened Wrappers
  import opened DurationCodec
  import opened LogStore
  import opened Tracker

  /** Weekly target in hours (track.py:17). */
  const TotalWeeklyTarget: int := 128
  const SecondsPerHour: int := 3600

  /** A string duration reached the `+=` of a report loop. */
  datatype AggError = DurationNotNumber

  /** `now - timedelta(days=now.weekday())` (track.py:203). */
  function WeekStart(now: int): (start: int)
  {
    now - Weekday(now) * SecondsPerDay
  }

  /** The week starts on the Monday of `now`'s week, but at `now`'s time of day rather than
      at midnight, at most six days before `now`. */
  lemma WeekStartIsMondayAtSameTime(now: int)
    ensures Weekday(WeekStart(now)) == 0
    ensures WeekStart(now) % SecondsPerDay == now % SecondsPerDay
    ensures WeekStart(now) <= now < WeekStart(now) + 7 * SecondsPerDay
  {
    var q, w := now / SecondsPerDay, Weekday(now);
    var k := q / 7;
    assert q == 7 * k + w;
    assert WeekStart(now) == SecondsPerDay * (7 * k) + now % SecondsPerDay;
    DayOf(WeekStart(now), 7 * k, now % SecondsPerDay);
  }

  lemma DayOf(t: int, day: int, rest: int)
    requires t == SecondsPerDay * day + rest && 0 <= rest < SecondsPerDay
    ensures t / SecondsPerDay == day && t % SecondsPerDay == rest
  {
  }

  /** So a record started earlier on Monday than the current time of day is left out of
      the week: at Monday 10:00 a session begun at Monday 09:00 does not count. */
  lemma EarlyMondayExcluded()
    ensures var now := 10 * SecondsPerHour;
            var r := Record(Some(9 * SecondsPerHour), None, Some("Easy"), None, Number(1));
            Weekday(now) == 0 && WeeklyReport([r], now) == Success(Report(0, 0, 0, 0))
  {
    var now := 10 * SecondsPerHour;
    var r := Record(Some(9 * SecondsPerHour), None, Some("Easy"), None, Number(1));
    DayOf(now, 0, now);
    assert WeekStart(now) == now;
    assert [r][..0] == [];
    assert !InWeek(r, now);
    assert Weekly([r], now) == AddToReport(Report(0, 0, 0, 0), r, now);
  }

  /** The totals the report prints: all hours, then Easy, Medium and Hard. */
  datatype Report = Report(total: int, easy: int, medium: int, hard: int)

  predicate InWeek(r: Record, weekStart: int)
  {
    r.start.Some? && r.start.value >= weekStart
  }

  /** One pass of the report loop (track.py:208-214). A record with no start, or with no
      duration, raises KeyError before anything is added; a record whose type is missing or
      is not one of the three raises KeyError after its duration reached the total. */
  function AddToReport(acc: Report, r: Record, weekStart: int): (res: Result<Report, AggError>)
  {
    if !InWeek(r, weekStart) then Success(acc)
    else
      match r.duration
      case Absent => Success(acc)
      case Text(_) => Failure(DurationNotNumber)
      case Number(n) =>
        var acc := acc.(total := acc.total + n);
        if r.workType == Some("Easy") then Success(acc.(easy := acc.easy + n))
        else if r.workType == Some("Medium") then Success(acc.(medium := acc.medium + n))
        else if r.workType == Some("Hard") then Success(acc.(hard := acc.hard + n))
        else Success(acc)
  }

  function Weekly(rs: seq<Record>, weekStart: int): (res: Result<Report, AggError>)
  {
    if |rs| == 0 then Success(Report(0, 0, 0, 0))
    else
      match Weekly(rs[..|rs| - 1], weekStart)
      case Failure(e) => Failure(e)
      case Success(acc) => AddToReport(acc, rs[|rs| - 1], weekStart)
  }

  /** `weekly_report` (track.py:201-214), without the text it shows. */
  function WeeklyReport(rs: seq<Record>, now: int): (res: Result<Report, AggError>)
  {
    Weekly(rs, WeekStart(now))
  }

  /** Independent statements of what each figure sums. */
  function CountedAmount(r: Record, weekStart: int): (amount: int)
  {
    if InWeek(r, weekStart) && r.duration.Number? then r.duration.amount else 0
  }

  function TypeAmount(r: Record, weekStart: int, workType: string): (amount: int)
  {
    if r.workType == Some(workType) then CountedAmount(r, weekStart) else 0
  }

  predicate KnownType(r: Record)
  {
    r.workType == Some("Easy") || r.workType == Some("Medium") || r.workType == Some("Hard")
  }

  function UnbucketedAmount(r: Record, weekStart: int): (amount: int)
  {
    if KnownType(r) then 0 else CountedAmount(r, weekStart)
  }

  /** The report fails exactly when some record of the week has a string duration. */
  lemma {:induction false} WeeklyFailsIff(rs: seq<Record>, weekStart: int)
    ensures Weekly(rs, weekStart).Failure? <==>
              exists i :: 0 <= i < |rs| && InWeek(rs[i], weekStart) && rs[i].duration.Text?
  {
    if |rs| > 0 {
      var init := rs[..|rs| - 1];
      WeeklyFailsIff(init, weekStart);
      assert forall i :: 0 <= i < |init| ==> init[i] == rs[i];
    }
  }

  /** Each figure of a successful report is the sum, over the records of the week with a
      numeric duration, of that duration, restricted to the figure's type for the buckets;
      and the total exceeds the three buckets by exactly what records of another or no
      type contributed. */
  lemma {:induction false} WeeklySums(rs: seq<Record>, weekStart: int)
    requires Weekly(rs, weekStart).Success?
    ensures var rep := Weekly(rs, weekStart).value;
            && rep.total == SumOf(rs, r => CountedAmount(r, weekStart))
            && rep.easy == SumOf(rs, r => TypeAmount(r, weekStart, "Easy"))
            && rep.medium == SumOf(rs, r => TypeAmount(r, weekStart, "Medium"))
            && rep.hard == SumOf(rs, r => TypeAmount(r, weekStart, "Hard"))
            && rep.total == rep.easy + rep.medium + rep.hard + SumOf(rs, r => UnbucketedAmount(r, weekStart))
  {
    if |rs| > 0 {
      WeeklySums(rs[..|rs| - 1], weekStart);
    }
  }

  /** When every record of the week has one of the three types, the total is the sum of
      the three buckets. */
  lemma WeeklyTotalIsBucketSum(rs: seq<Record>, weekStart: int)
    requires Weekly(rs, weekStart).Success?
    requires forall i :: 0 <= i < |rs| && InWeek(rs[i], weekStart) ==> KnownType(rs[i])
    ensures var rep := Weekly(rs, weekStart).value;
            rep.total == rep.easy + rep.medium + rep.hard
  {
    WeeklySums(rs, weekStart);
    SumOfZero(rs, r => UnbucketedAmount(r, weekStart));
  }

  lemma {:induction false} SumOfZero(rs: seq<Record>, f: Record -> int)
    requires forall i :: 0 <= i < |rs| ==> f(rs[i]) == 0
    ensures SumOf(rs, f) == 0
  {
    if |rs| > 0 {
      SumOfZero(rs[..|rs| - 1], f);
    }
  }

  /** A record of the week with a numeric duration but an unknown type raises the total
      and leaves every bucket as it was. */
  lemma UnknownTypeCountsInTotalOnly(rs: seq<Record>, weekStart: int, r: Record)
    requires Weekly(rs, weekStart).Success?
    requires InWeek(r, weekStart) && r.duration.Number? && !KnownType(r)
    ensures var before := Weekly(rs, weekStart).value;
            Weekly(rs + [r], weekStart) == Success(before.(total := before.total + r.duration.amount))
  {
    assert (rs + [r])[..|rs|] == rs;
  }

  /** The records of the week, in log order. */
  function ThisWeek(rs: seq<Record>, weekStart: int): (w: seq<Record>)
    ensures forall i :: 0 <= i < |w| ==> InWeek(w[i], weekStart)
  {
    if |rs| == 0 then []
    else ThisWeek(rs[..|rs| - 1], weekStart) + (if InWeek(rs[|rs| - 1], weekStart) then [rs[|rs| - 1]] else [])
  }

  /** Records without a start or started before the week start do not affect the report. */
  lemma {:induction false} WeeklyOnlyThisWeek(rs: seq<Record>, weekStart: int)
    ensures Weekly(rs, weekStart) == Weekly(ThisWeek(rs, weekStart), weekStart)
  {
    if |rs| > 0 {
      var init, last := rs[..|rs| - 1], rs[|rs| - 1];
      WeeklyOnlyThisWeek(init, weekStart);
      if InWeek(last, weekStart) {
        var w := ThisWeek(init, weekStart) + [last];
        assert w[..|w| - 1] == ThisWeek(init, weekStart);
      } else {
        assert ThisWeek(rs, weekStart) == ThisWeek(init, weekStart) + [] == ThisWeek(init, weekStart);
        assert Weekly(rs, weekStart) == Weekly(init, weekStart);
      }
    }
  }

  /** One pass of the `show_progress` loop (track.py:229-234): a record without a start is
      skipped, a missing duration adds 0, and a record from any week lands in the bucket of
      its weekday. Bucket `Weekday(t)` is Monday for 0 through Sunday for 6, the key order of
      `daily_hours` (track.py:227). */
  function AddToBuckets(b: seq<int>, r: Record): (res: Result<seq<int>, AggError>)
    requires |b| == 7
    ensures res.Success? ==> |res.value| == 7
  {
    if r.start.None? then Success(b)
    else
      var d := Weekday(r.start.value);
      match r.duration
      case Absent => Success(b[d := b[d] + 0])
      case Text(_) => Failure(DurationNotNumber)
      case Number(n) => Success(b[d := b[d] + n])
  }

  function Daily(rs: seq<Record>): (res: Result<seq<int>, AggError>)
    ensures res.Success? ==> |res.value| == 7
  {
    if |rs| == 0 then Success([0, 0, 0, 0, 0, 0, 0])
    else
      match Daily(rs[..|rs| - 1])
      case Failure(e) => Failure(e)
      case Success(b) => AddToBuckets(b, rs[|rs| - 1])
  }

  function StartedAmount(r: Record): (amount: int)
  {
    if r.start.Some? && r.duration.Number? then r.duration.amount else 0
  }

  function DayAmount(r: Record, day: nat): (amount: int)
  {
    if r.start.Some? && Weekday(r.start.value) == day then StartedAmount(r) else 0
  }

  /** The chart data fails exactly when some record with a start has a string duration. */
  lemma {:induction false} DailyFailsIff(rs: seq<Record>)
    ensures Daily(rs).Failure? <==> exists i :: 0 <= i < |rs| && rs[i].start.Some? && rs[i].duration.Text?
  {
    if |rs| > 0 {
      var init := rs[..|rs| - 1];
      DailyFailsIff(init);
      assert forall i :: 0 <= i < |init| ==> init[i] == rs[i];
    }
  }

  /** Each bucket holds the numeric durations of all records started on that weekday, in
      whatever week they were started. */
  lemma {:induction false} DailyBuckets(rs: seq<Record>)
    requires Daily(rs).Success?
    ensures forall day :: 0 <= day < 7 ==> Daily(rs).value[day] == SumOf(rs, r => DayAmount(r, day))
  {
    if |rs| > 0 {
      DailyBuckets(rs[..|rs| - 1]);
    }
  }

  function Total(b: seq<int>): (sum: int)
  {
    if |b| == 0 then 0 else Total(b[..|b| - 1]) + b[|b| - 1]
  }

  lemma {:induction false} TotalUpdate(b: seq<int>, i: nat, v: int)
    requires i < |b|
    ensures Total(b[i := v]) == Total(b) - b[i] + v
  {
    if i < |b| - 1 {
      TotalUpdate(b[..|b| - 1], i, v);
      assert b[i := v][..|b| - 1] == b[..|b| - 1][i := v];
    } else {
      assert b[i := v][..|b| - 1] == b[..|b| - 1];
    }
  }

  lemma {:induction false} TotalOfZeros(b: seq<int>)
    requires forall i :: 0 <= i < |b| ==> b[i] == 0
    ensures Total(b) == 0
  {
    if |b| > 0 {
      TotalOfZeros(b[..|b| - 1]);
    }
  }

  /** The seven buckets together hold the numeric durations of every record with a start. */
  lemma {:induction false} DailyTotal(rs: seq<Record>)
    requires Daily(rs).Success?
    ensures Total(Daily(rs).value) == SumOf(rs, StartedAmount)
  {
    if |rs| == 0 {
      TotalOfZeros([0, 0, 0, 0, 0, 0, 0]);
    } else {
      var init, last := rs[..|rs| - 1], rs[|rs| - 1];
      DailyTotal(init);
      var b := Daily(init).value;
      if last.start.Some? {
        var d := Weekday(last.start.value);
        TotalUpdate(b, d, b[d] + StartedAmount(last));
      }
    }
  }

  /** `remaining_seconds` (track.py:89): the target less everything logged, not clamped. */
  function RemainingSeconds(totalWorked: int): (remaining: int)
  {
    TotalWeeklyTarget * SecondsPerHour - totalWorked
  }

  /** The label text, which reads back as the remaining seconds, negative ones included. */
  function RemainingDisplay(t: State): (s: string)
    ensures ParseHms(s) == Success(RemainingSeconds(t.totalWorked))
  {
    RoundTrip(RemainingSeconds(t.totalWorked));
    FormatHms(RemainingSeconds(t.totalWorked))
  }

  /** In every reachable state the remaining time is the target minus the decoded string
      durations of every record, from any week; numeric durations do not count. It goes
      negative once those durations exceed the target. */
  lemma RemainingCountsAllTime(t: State)
    requires Valid(t)
    ensures RemainingSeconds(t.totalWorked) == TotalWeeklyTarget * SecondsPerHour - SumOf(t.logs, TextSeconds)
    ensures RemainingSeconds(t.totalWorked) < 0 <==> SumOf(t.logs, TextSeconds) > TotalWeeklyTarget * SecondsPerHour
  {
    LoadedTotalMeaning(t.logs);
  }

  /** A record whose duration is a number never lowers the remaining time: `load_logs` adds
      only string durations to the total, while the weekly report and the chart add only
      numeric ones. */
  lemma NumericNotRemaining(rs: seq<Record>, r: Record)
    requires r.duration.Number?
    ensures LoadedTotal(rs + [r]) == LoadedTotal(rs)
  {
    assert (rs + [r])[..|rs|] == rs;
  }

  /** Stopping a session lowers the remaining time by exactly the session's length. */
  lemma RemainingAfterStop(t: State, now: int)
    requires t.session.Some?
    ensures RemainingSeconds(StopWork(t, now).totalWorked)
            == RemainingSeconds(t.totalWorked) - Length(t.session.value, now)
  {
  }
}
