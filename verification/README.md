# Weekly time tracker — a Dafny model of its session and log core

`track.py` is a desktop timer for work sessions. A user starts a session of type
Easy, Medium or Hard. A timer counts the seconds, and an idle watchdog asks whether the user
is still working after 60 seconds without activity. Stopping the session appends a record
to a JSON log and updates a running total of hours. A weekly report sums the
week's records by type, and a progress chart sums all records by weekday.

This project models the non-graphical core of that program in Dafny:

- `duration_codec.dfy` (module `DurationCodec`): `seconds_to_hms` and `hms_to_seconds`, on
  integer seconds, including Python's `f"{h:02}"` padding and its `int()` parsing.
- `strings.dfy` (module `Strings`): the `str.split(":")` and `str.strip()` behaviour the
  codec and `update_description` rely on.
- `log_store.dfy` (module `LogStore`): the record shape stored in `logs` and the running
  total `load_logs` computes.
- `tracker.dfy` (module `Tracker`): the module-level globals as one immutable `State`
  value, with `load_logs`, `log_activity`, `update_timer`, `start_work`, `stop_work`,
  `update_description` and `distraction_alert` as pure transitions. Also the invariant
  that every callback preserves.
- `reports.dfy` (module `Reports`): the weekly report, the weekday buckets of the
  progress chart and the remaining-time label.
- `wrappers.dfy` (module `Wrappers`): `Option` and `Result`.

Timestamps are integer seconds since a Monday 00:00 epoch, so the weekday of a timestamp
is `(t / 86400) % 7`. The clock reading `now` and the user's yes/no answer to the idle
dialog are parameters of the transitions.

### Behaviour of the code worth knowing

The model follows the code in each of these cases:

- A string duration that `hms_to_seconds` rejects raises ValueError inside `load_logs`.
  Only JSONDecodeError and FileNotFoundError are caught there (track.py:81), so the load
  fails instead of dropping the record. `Tracker.LoadLogs` returns `Failure` in that case.
- The remaining time (track.py:89) is the target minus the total, and it is not clamped
  at zero. The total is the sum of the decoded string durations of every record, from any
  week, not only this week's. Numeric durations do not count towards it.
- The remaining time and the weekly report count different kinds of record. `load_logs`
  adds only string durations (track.py:78). `weekly_report` and `show_progress` can sum
  only numeric ones, because a string makes them fail (track.py:211, 232). A record with a
  numeric duration therefore shows up in the report but never lowers the remaining time
  (`Reports.NumericNotRemaining`).
- `week_start` (track.py:203) is the Monday of the current week at the current time of
  day, not at midnight (`Reports.EarlyMondayExcluded`).
- The weekday buckets (track.py:227-234) collect records from all weeks.
- `stop_work` stores the duration as an "HH:MM:SS" string (track.py:163-166). But
  `weekly_report` and `show_progress` add `log["duration"]` to a number
  (track.py:211-212, 232). For such a string that raises TypeError, which their
  `except KeyError` does not catch, so the report is abandoned. The record's `duration`
  is therefore modelled as `Absent | Text | Number`. The report folds sum `Number`
  durations and fail on a `Text` one in a record they reach.
- `start_work` sets the counter to 0 and then calls `update_timer` directly
  (track.py:136-138). So right after a start the timer already reads one second.
- `start_work` clears the description box before reading it (track.py:124-126). A new
  session therefore always starts with an empty description.

## Model

| member | source | states |
|---|---|---|
| DurationCodec.Fields | track.py:103-105 | The hours, minutes and seconds printed for `n` recombine to `n`. Minutes and seconds lie in 0..59, including for negative `n`. |
| DurationCodec.RoundTrip | track.py:101-106 | `hms_to_seconds(seconds_to_hms(n)) == n` for every integer `n`, negative ones included. |
| DurationCodec.FormatHmsSplits | track.py:106 | The rendering splits at ':' into exactly the hour, minute and second fields. |
| DurationCodec.FormatHmsShape | track.py:104-106 | The minute and second fields of the rendering are two digits each and denote numbers below 60. |
| DurationCodec.Pad2RoundTrip | track.py:106 | Python's `int()` reads back every field as `f"{k:02}"` prints it, including a negative hour count. |
| DurationCodec.Pad2Shape | track.py:106 | A padded field contains no ':'. A non-negative one is all digits and at least two wide, and exactly two wide below 100. |
| DurationCodec.DigitsRoundTrip | track.py:62 | Decimal digits parse back to the number they render. |
| DurationCodec.NoColonRejected | track.py:60-63 | A text without any ':' (a single word such as "bad") is refused. |
| DurationCodec.EmptyFieldRejected | track.py:62 | A text with an empty field between two ':' is refused, since `int("")` fails. |
| DurationCodec.ZeroText | track.py:77 | The default "00:00:00" decodes to 0 seconds. |
| Strings.SplitAtFirst | track.py:62 | `split(":")` returns a colon-free text whole and cuts at the first ':'. |
| Strings.StripBounds | track.py:194 | `strip()` returns a slice of its input with only whitespace removed at either end. |
| Strings.StripEdges | track.py:194 | A non-empty stripped text neither starts nor ends with whitespace. |
| Strings.StripEmptyIffBlank | track.py:194-195 | The stripped description is empty exactly when the text is all whitespace. |
| LogStore.LoadedTotalMeaning | track.py:74-80 | The load succeeds exactly when no string duration is malformed. The total is then the sum of the decoded string durations: missing ones add 0 and numeric ones are skipped. |
| LogStore.MissingReadsAsDefault | track.py:77 | A record without a duration contributes what the default "00:00:00" decodes to. |
| LogStore.AppendFormatted | track.py:163-172 | Appending a record whose duration is the rendering of `d` seconds raises the loaded total by exactly `d`. |
| Tracker.LoadLogs | track.py:65-82 | A missing file keeps the log. Undecodable JSON or a non-list value empties it. Otherwise the log becomes the stored list and the total becomes its decoded sum, unless a duration is malformed, in which case the load fails. The total always restarts at 0. The session, timer and last activity are never changed. |
| Tracker.LoadEstablishesValid | track.py:65-80 | A successful start-up load yields a state satisfying the invariant. |
| Tracker.TimerDisplay | track.py:112 | The timer label reads back as the elapsed seconds. |
| Tracker.StartWork | track.py:117-138 | With a session open nothing changes. Otherwise the new session starts at `now` with the chosen type and an empty description, last activity is `now`, the timer runs and reads 1, and the log and total are kept. |
| Tracker.StartUnchangedIff | track.py:119-121 | `start_work` leaves the state unchanged exactly while a session is open. |
| Tracker.FinishDecodes | track.py:155-166 | The duration stored in the logged record decodes back to `end - start`, the session's length. |
| Tracker.StopWork | track.py:142-179 | With no session nothing changes. Otherwise exactly one record is appended and earlier entries are untouched. The total grows by `end - start`, the session is cleared, the timer stops and reads 0, and last activity is kept. |
| Tracker.StopUnchangedIff | track.py:145-147 | `stop_work` leaves the state unchanged exactly while no session is open. |
| Tracker.FinishExtendsTotal | track.py:159-172 | Logging a finished session raises the total `load_logs` would recompute by the session's length. |
| Tracker.StopPreservesValid | track.py:163-172 | After `stop_work`, `total_hours_worked` still equals what `load_logs` would compute from the extended log. |
| Tracker.UpdateDescription | track.py:187-199 | With no session or a blank text nothing changes. Otherwise only the description changes, to the stripped, non-empty text. |
| Tracker.DescribeUnchangedIff | track.py:190-199 | `update_description` is a no-op exactly when no session is open, the text is blank, or the stripped text equals the current description. |
| Tracker.LogActivity | track.py:30-32 | Only the last-activity time changes, to `now`. |
| Tracker.Tick | track.py:108-111 | A running timer advances one second and nothing else changes. A stopped timer changes nothing. |
| Tracker.DistractionAlert | track.py:34-55 | Without an alert nothing changes. With an alert, "yes" only sets last activity to `now`, and "no" is exactly `stop_work` at `now`, where `now` is the time of the idle check. |
| Tracker.AlertThreshold | track.py:36-38 | The alert needs an open session and is strict: an idle gap of 61 s fires it and one of 60 s does not. |
| Tracker.QuietAfterActivity | track.py:30-38 | After `log_activity` or a successful `start_work` at `now`, no idle check within the next 60 s changes anything. |
| Tracker.DeclineStopsSession | track.py:47-53 | Answering "no" closes the session and appends exactly its finished record to the log. |
| Tracker.TicksAfterStart | track.py:108-111 | After a start and `n` timer ticks the counter reads `n + 1`, and nothing else has moved. |
| Tracker.StepPreservesValid | track.py:20-25 | Every callback keeps the invariant: the timer runs exactly while a session is open, an open session has a last-activity time, a stopped timer reads 0, and the total equals the log's decoded sum. |
| Tracker.RunPreservesValid | track.py:20-25 | The invariant holds after any sequence of callbacks from a valid state. |
| Reports.WeekStartIsMondayAtSameTime | track.py:203 | The week start is a Monday at the same time of day as `now`, less than seven days before it. |
| Reports.EarlyMondayExcluded | track.py:203-210 | At Monday 10:00, a session started at Monday 09:00 is not counted. |
| Reports.WeeklyFailsIff | track.py:207-214 | The report is abandoned exactly when a record of the week has a string duration. |
| Reports.WeeklySums | track.py:204-214 | The total is the sum of the week's numeric durations, and each bucket is the same sum restricted to its type. The total exceeds the buckets by what records of another type or no type added. |
| Reports.WeeklyTotalIsBucketSum | track.py:204-214 | When every record of the week is Easy, Medium or Hard, the total equals the sum of the three buckets. |
| Reports.UnknownTypeCountsInTotalOnly | track.py:211-213 | A record of the week with an unknown type adds its duration to the total and to no bucket. |
| Reports.WeeklyOnlyThisWeek | track.py:209-210 | The report over the whole log equals the report over the records started at or after the week start. |
| Reports.DailyFailsIff | track.py:228-234 | The chart data is abandoned exactly when a record with a start has a string duration. |
| Reports.DailyBuckets | track.py:227-234 | Each of the seven buckets sums the numeric durations of all records started on that weekday, from any week. A missing duration adds 0. |
| Reports.DailyTotal | track.py:227-234 | The seven buckets together sum the numeric durations of every record that has a start. |
| Reports.RemainingDisplay | track.py:89-90 | The remaining-time label reads back as the target minus the total, negative values included. |
| Reports.RemainingCountsAllTime | track.py:74-89 | In every reachable state, the remaining time is the target minus the decoded string durations of every record, from any week. Numeric durations do not count. It is negative exactly when those durations exceed 128 hours. |
| Reports.NumericNotRemaining | track.py:76-80 | A record with a numeric duration leaves the loaded total, and so the remaining time, unchanged. |
| Reports.RemainingAfterStop | track.py:172-173 | Stopping a session lowers the remaining time by exactly the session's length. |

## Left out

- Everything tkinter (track.py:252-418), and the widget calls inside `start_work`,
  `stop_work` and `update_description`: presentation only. The description text box is
  the `text` parameter of `UpdateDescription`.
- The dialogs, the print/`time.sleep` loop of the alert (track.py:40-45), and the
  `root.after` rescheduling (track.py:58, 115, 417): scheduling is external. Ticks and
  idle checks are explicit events. A stop followed by a start within one second can leave
  two `update_timer` chains running; that is a property of the event loop, not modelled.
- `log_activity` is not bound to any input event in track.py. It is modelled as a
  transition that any caller may fire.
- Reading and writing `work_log.json` (track.py:68-73, 93-99): file I/O. The file's
  content is the `Stored` parameter of `LoadLogs`. A failed `save_logs` only shows a
  dialog and changes no state.
- Elements of the JSON list that are not objects (`log.get` would raise AttributeError),
  JSON `null`, booleans or nested values as durations, and malformed ISO timestamps: the
  model's records are objects with integer timestamps.
- Floating point: durations and the total are exact integer seconds. The source divides
  by 3600 and prints hours with two decimals. It also passes fractional seconds to
  `seconds_to_hms`, which truncates them in the string while the float total keeps them.
  A JSON number duration is abstracted to an integer.
- The report and chart text and the matplotlib chart (track.py:216-224, 236-250):
  rendering only.
- `WORK_TYPES` weights (track.py:13): defined but never used. Debug prints.
- `strftime("%a")` (track.py:231) is assumed to give English day names. Under another
  locale every lookup in `daily_hours` would raise KeyError and every record would be
  skipped.
- DurationCodec.ParseHms: Python's `int()` also accepts surrounding whitespace,
  underscores between digits and non-ASCII decimal digits. The model accepts only an
  optional sign followed by ASCII digits.
- Tracker.DistractionAlert: the source reads the clock once for the idle check and again
  after the beeps and the dialog, in `log_activity` or `stop_work`. The model uses one
  reading `now` for all of them, so the recorded activity and the session's end are the
  time of the check. The time the user takes to answer is not modelled.
- Tracker.DistractionAlert: a state with an open session but no last-activity time cannot
  be reached (`Tracker.Valid`). In it the model raises no alert, where Python would raise
  TypeError.
