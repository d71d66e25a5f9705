/** The session state machine of track.py: the module-level globals `current_session`,
    `logs`, `last_activity_time`, `elapsed_seconds`, `timer_running` and
    `total_hours_worked` (track.py:20-25) as one immutable value, and each callback that
    changes them as a pure transition. The clock reading `now` and the user's answer to
    the idle dialog are parameters. */
module Tracker {
  import opened Wrappers
  import opened Strings
  import opened DurationCodec
  import opened LogStore

  /** Seconds of inactivity tolerated before the idle alert (track.py:16). */
  const DistractionLimit: int := 60

  /** The session in progress: the dict `start_work` builds before it has an end or duration. */
  datatype Session = Session(start: int, workType: string, description: string)

  /** `total_hours_worked` is kept in seconds rather than as a float number of hours. */
  datatype State = State(
    session: Option<Session>,
    logs: seq<Record>,
    lastActivity: Option<int>,
    elapsed: nat,
    timerRunning: bool,
    totalWorked: int)

  /** The globals as the module defines them before `load_logs` runs. */
  function Initial(): (t: State)
  {
    State(None, [], None, 0, false, 0)
  }

  /** What holds in every state the callbacks can reach: the timer runs exactly while a
      session is open, an open session has a last-activity time, a stopped timer reads zero,
      and the running total is what `load_logs` would compute from the current log. */
  predicate Valid(t: State)
  {
    && (t.session.Some? <==> t.timerRunning)
    && (t.session.Some? ==> t.lastActivity.Some?)
    && (!t.timerRunning ==> t.elapsed == 0)
    && LoadedTotal(t.logs) == Success(t.totalWorked)
  }

  /** The log file as `load_logs` finds it. */
  datatype Stored = Missing | Undecodable | NotAList | Entries(records: seq<Record>)

  /** `load_logs` (track.py:65-83): the total restarts at zero; a file that is not a JSON list
      leaves an empty log; a missing file leaves the log as it was. Only the log and the total
      are written; the session, the timer and the last activity are kept. */
  function LoadLogs(t: State, stored: Stored): (r: Result<State, CodecError>)
    ensures stored.Missing? ==> r == Success(t.(totalWorked := 0))
    ensures (stored.Undecodable? || stored.NotAList?) ==> r == Success(t.(logs := [], totalWorked := 0))
    ensures stored.Entries? ==>
              (r.Success? <==> forall i :: 0 <= i < |stored.records| ==> !Malformed(stored.records[i]))
    ensures stored.Entries? && r.Success? ==>
              r.value == t.(logs := stored.records, totalWorked := SumOf(stored.records, TextSeconds))
  {
    LoadedTotalMeaning(if stored.Entries? then stored.records else []);
    match stored
    case Missing => Success(t.(totalWorked := 0))
    case Undecodable => Success(t.(logs := [], totalWorked := 0))
    case NotAList => Success(t.(logs := [], totalWorked := 0))
    case Entries(rs) =>
      match LoadedTotal(rs)
      case Failure(e) => Failure(e)
      case Success(total) => Success(t.(logs := rs, totalWorked := total))
  }

  /** Loading at start-up yields a valid state whenever it succeeds. */
  lemma LoadEstablishesValid(stored: Stored)
    ensures LoadLogs(Initial(), stored).Success? ==> Valid(LoadLogs(Initial(), stored).value)
  {
  }

  /** `log_activity` (track.py:30-32). */
  function LogActivity(t: State, now: int): (r: State)
    ensures r.lastActivity == Some(now)
    ensures r.(lastActivity := t.lastActivity) == t
  {
    t.(lastActivity := Some(now))
  }

  /** One firing of `update_timer` (track.py:108-111): a running timer advances one second. */
  function Tick(t: State): (r: State)
    ensures t.timerRunning ==> r.elapsed == t.elapsed + 1 && r.(elapsed := t.elapsed) == t
    ensures !t.timerRunning ==> r == t
  {
    if t.timerRunning then t.(elapsed := t.elapsed + 1) else t
  }

  /** The text of the timer label after a tick. */
  function TimerDisplay(t: State): (s: string)
    ensures ParseHms(s) == Success(t.elapsed as int)
  {
    RoundTrip(t.elapsed);
    FormatHms(t.elapsed)
  }

  /** `start_work` (track.py:117-140). The description box is cleared before it is read, so
      the new session always starts with an empty description; the call to `update_timer`
      at the end runs one tick at once, so the timer reads one second afterwards. */
  function StartWork(t: State, workType: string, now: int): (r: State)
    ensures t.session.Some? ==> r == t
    ensures t.session.None? ==>
              && r.session == Some(Session(now, workType, ""))
              && r.lastActivity == Some(now)
              && r.timerRunning
              && r.elapsed == 1
              && r.logs == t.logs
              && r.totalWorked == t.totalWorked
  {
    if t.session.Some? then t
    else
      var started := t.(session := Some(Session(now, workType, "")),
                        lastActivity := Some(now),
                        elapsed := 0,
                        timerRunning := true);
      Tick(started)
  }

  /** `(end_time - start_time).total_seconds()` for a session ending at `end`. */
  function Length(s: Session, end: int): (seconds: int)
  {
    end - s.start
  }

  /** The record `stop_work` appends: the session with its end and formatted duration. */
  function Finish(s: Session, end: int): (r: Record)
  {
    Record(Some(s.start), Some(end), Some(s.workType), Some(s.description),
           Text(FormatHms(Length(s, end))))
  }

  /** `stop_work` (track.py:142-185). The duration comes from the clock, not from the tick
      counter; persisting the log is the caller's business. */
  function StopWork(t: State, now: int): (r: State)
    ensures t.session.None? ==> r == t
    ensures t.session.Some? ==>
              && |r.logs| == |t.logs| + 1
              && r.logs[..|t.logs|] == t.logs
              && r.logs[|t.logs|] == Finish(t.session.value, now)
              && r.totalWorked == t.totalWorked + Length(t.session.value, now)
              && r.session.None? && !r.timerRunning && r.elapsed == 0
              && r.lastActivity == t.lastActivity
  {
    match t.session
    case None => t
    case Some(s) =>
      var logs' := t.logs + [Finish(s, now)];
      assert logs'[..|t.logs|] == t.logs;
      t.(session := None,
         timerRunning := false,
         logs := logs',
         totalWorked := t.totalWorked + Length(s, now),
         elapsed := 0)
  }

  /** `update_description` (track.py:187-199): with a session open, a non-blank text
      replaces the description, stripped of surrounding whitespace. */
  function UpdateDescription(t: State, text: string): (r: State)
    ensures (t.session.None? || AllSpace(text)) ==> r == t
    ensures t.session.Some? && !AllSpace(text) ==>
              && r.session == Some(t.session.value.(description := Strip(text)))
              && r.(session := t.session) == t
              && Strip(text) != []
  {
    StripEmptyIffBlank(text);
    match t.session
    case None => t
    case Some(s) =>
      var description := Strip(text);
      if description != [] then t.(session := Some(s.(description := description))) else t
  }

  /** The condition under which `distraction_alert` (track.py:36-38) raises the alert. */
  predicate AlertFires(t: State, now: int)
  {
    t.session.Some? && t.lastActivity.Some? && now - t.lastActivity.value > DistractionLimit
  }

  /** One run of `distraction_alert` (track.py:34-55): if the alert fires, answering yes
      counts as activity and answering no stops the session.

      `now` is a single clock reading. The source reads the clock for the idle check
      (track.py:37) and again once the beeps and the dialog are over, inside `log_activity`
      (track.py:31) or `stop_work` (track.py:152). Here both readings are `now`: the recorded
      activity and the session's end are the time of the check, not the later time of the
      answer. */
  function DistractionAlert(t: State, now: int, keepWorking: bool): (r: State)
    ensures !AlertFires(t, now) ==> r == t
    ensures AlertFires(t, now) && keepWorking ==> r == LogActivity(t, now)
    ensures AlertFires(t, now) && !keepWorking ==> r == StopWork(t, now)
  {
    if AlertFires(t, now) then
      if keepWorking then LogActivity(t, now) else StopWork(t, now)
    else t
  }

  /** The callbacks the user interface and the scheduler can fire. */
  datatype Event =
    | Start(workType: string)
    | Stop
    | Describe(text: string)
    | Activity
    | TimerTick
    | IdleCheck(keepWorking: bool)

  function Step(t: State, e: Event, now: int): (r: State)
  {
    match e
    case Start(ty) => StartWork(t, ty, now)
    case Stop => StopWork(t, now)
    case Describe(text) => UpdateDescription(t, text)
    case Activity => LogActivity(t, now)
    case TimerTick => Tick(t)
    case IdleCheck(keep) => DistractionAlert(t, now, keep)
  }

  /** A sequence of callbacks, each with the clock reading at which it fires. */
  function Run(t: State, events: seq<(Event, int)>): (r: State)
  {
    if |events| == 0 then t
    else Step(Run(t, events[..|events| - 1]), events[|events| - 1].0, events[|events| - 1].1)
  }

  /** Each callback preserves the state invariant; in particular `stop_work` keeps the
      running total equal to what `load_logs` would recompute from the extended log. */
  lemma StepPreservesValid(t: State, e: Event, now: int)
    requires Valid(t)
    ensures Valid(Step(t, e, now))
  {
    match e
    case Stop => StopPreservesValid(t, now);
    case IdleCheck(keep) => StopPreservesValid(t, now);
    case _ =>
  }

  lemma StopPreservesValid(t: State, now: int)
    requires Valid(t)
    ensures Valid(StopWork(t, now))
  {
    if t.session.Some? {
      var s := t.session.value;
      var r := StopWork(t, now);
      assert r.logs == t.logs + [Finish(s, now)];
      FinishDecodes(s, now);
      StoppedValid(t, Finish(s, now), Length(s, now), r);
    }
  }

  /** The record of a finished session decodes to the session's length. */
  lemma FinishDecodes(s: Session, end: int)
    ensures LoadedSeconds(Finish(s, end)) == Success(Length(s, end))
  {
    RoundTrip(Length(s, end));
  }

  /** A stopped state whose log gained a record worth `d` seconds and whose total gained
      `d` satisfies the invariant. */
  lemma StoppedValid(t: State, finished: Record, d: int, r: State)
    requires LoadedTotal(t.logs) == Success(t.totalWorked)
    requires LoadedSeconds(finished) == Success(d)
    requires r.logs == t.logs + [finished]
    requires r.totalWorked == t.totalWorked + d
    requires r.session.None? && !r.timerRunning && r.elapsed == 0
    ensures Valid(r)
  {
    AppendDecoded(t.logs, t.totalWorked, finished, d);
  }

  /** Logging a finished session adds its length to the total `load_logs` would compute. */
  lemma FinishExtendsTotal(rs: seq<Record>, total: int, s: Session, now: int)
    requires LoadedTotal(rs) == Success(total)
    ensures LoadedTotal(rs + [Finish(s, now)]) == Success(total + Length(s, now))
  {
    AppendFormatted(rs, total, Finish(s, now), Length(s, now));
  }

  /** Every state reachable from a successful start-up load satisfies the invariant. */
  lemma {:induction false} RunPreservesValid(t: State, events: seq<(Event, int)>)
    requires Valid(t)
    ensures Valid(Run(t, events))
  {
    if |events| > 0 {
      RunPreservesValid(t, events[..|events| - 1]);
      StepPreservesValid(Run(t, events[..|events| - 1]), events[|events| - 1].0, events[|events| - 1].1);
    }
  }

  /** A refused call changes nothing, and an accepted one always changes the state:
      `start_work` is a no-op exactly while a session is open. */
  lemma StartUnchangedIff(t: State, workType: string, now: int)
    ensures StartWork(t, workType, now) == t <==> t.session.Some?
  {
  }

  /** `stop_work` is a no-op exactly while no session is open. */
  lemma StopUnchangedIff(t: State, now: int)
    ensures StopWork(t, now) == t <==> t.session.None?
  {
  }

  /** `update_description` leaves the state alone exactly when no session is open, the text is
      blank, or the stripped text equals the current description. */
  lemma DescribeUnchangedIff(t: State, text: string)
    ensures UpdateDescription(t, text) == t <==>
              (t.session.None? || AllSpace(text) || t.session.value.description == Strip(text))
  {
    StripEmptyIffBlank(text);
  }

  /** `n` further timer firings. */
  function Ticks(t: State, n: nat): (r: State)
  {
    if n == 0 then t else Tick(Ticks(t, n - 1))
  }

  /** After a successful start followed by `n` ticks the timer shows `n + 1` seconds, and
      nothing but the counter has moved. */
  lemma {:induction false} TicksAfterStart(t: State, workType: string, now: int, n: nat)
    requires t.session.None?
    ensures Ticks(StartWork(t, workType, now), n).elapsed == n + 1
    ensures Ticks(StartWork(t, workType, now), n).(elapsed := 1) == StartWork(t, workType, now)
  {
    if n > 0 {
      TicksAfterStart(t, workType, now, n - 1);
    }
  }

  /** Once activity has been recorded at `now`, by `log_activity` or by a successful
      `start_work`, no alert fires for the next 60 seconds, whatever the answer would be. */
  lemma QuietAfterActivity(t: State, workType: string, now: int, later: int, keepWorking: bool)
    requires later - now <= DistractionLimit
    ensures DistractionAlert(LogActivity(t, now), later, keepWorking) == LogActivity(t, now)
    ensures t.session.None? ==>
              DistractionAlert(StartWork(t, workType, now), later, keepWorking) == StartWork(t, workType, now)
  {
  }

  /** The threshold is strict: an idle gap of 61 seconds raises the alert, one of 60 does not,
      and with no session open it never fires. */
  lemma AlertThreshold(t: State, last: int)
    requires t.session.Some? && t.lastActivity == Some(last)
    ensures AlertFires(t, last + 61)
    ensures !AlertFires(t, last + 60)
    ensures forall now :: !AlertFires(t.(session := None), now)
  {
  }

  /** Answering no to the alert logs the session exactly as pressing stop would. */
  lemma DeclineStopsSession(t: State, now: int)
    requires Valid(t) && AlertFires(t, now)
    ensures var r := DistractionAlert(t, now, false);
            && r.session.None? && !r.timerRunning
            && r.logs == t.logs + [Finish(t.session.value, now)]
  {
    var r := StopWork(t, now);
    assert r.logs == r.logs[..|t.logs|] + [r.logs[|t.logs|]];
  }
}
