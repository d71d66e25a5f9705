/** The session records that track.py keeps in `logs` and persists as a JSON list,
    and the running total that `load_logs` derives from them. */
module LogStore {
  import opened Wrappers
  import opened DurationCodec

  /** The `duration` key of a record as it can appear in the log file. `stop_work`
      writes an "HH:MM:SS" string; the report code instead adds the field as a
      number, so both shapes are kept (a JSON number is abstracted to an integer). */
  datatype DurationField = Absent | Text(text: string) | Number(amount: int)

  /** One entry of `logs`. Every key may be missing from a record read back from the
      file; timestamps are integer seconds since a Monday 00:00 epoch. */
  datatype Record = Record(
    start: Option<int>,
    end: Option<int>,
    workType: Option<string>,
    description: Option<string>,
    duration: DurationField)

  const SecondsPerDay: int := 86400

  /** `weekday()` of a timestamp: 0 for Monday through 6 for Sunday. */
  function Weekday(t: int): (d: nat)
    ensures d < 7
  {
    (t / SecondsPerDay) % 7
  }

  /** Sum of `f` over the records, in log order. */
  function SumOf(rs: seq<Record>, f: Record -> int): (total: int)
  {
    if |rs| == 0 then 0 else SumOf(rs[..|rs| - 1], f) + f(rs[|rs| - 1])
  }

  /** What one record contributes to the total of `load_logs` (track.py:76-80): a string is
      decoded, a missing duration reads as the default "00:00:00" (which decodes to zero, see
      `MissingReadsAsDefault`), and anything else is skipped. */
  function LoadedSeconds(r: Record): (d: Result<int, CodecError>)
  {
    match r.duration
    case Absent => Success(0)
    case Text(s) => ParseHms(s)
    case Number(_) => Success(0)
  }

  lemma MissingReadsAsDefault(r: Record)
    requires r.duration.Absent?
    ensures LoadedSeconds(r) == ParseHms("00:00:00")
  {
    ZeroText();
  }

  /** The total `load_logs` computes, in seconds. A string that `hms_to_seconds` rejects
      raises ValueError, which `load_logs` does not catch, so the whole load fails. */
  function LoadedTotal(rs: seq<Record>): (total: Result<int, CodecError>)
  {
    if |rs| == 0 then Success(0)
    else
      var before := LoadedTotal(rs[..|rs| - 1]);
      var last := LoadedSeconds(rs[|rs| - 1]);
      if before.Failure? then before
      else if last.Failure? then last
      else Success(before.value + last.value)
  }

  /** Seconds a well-formed string duration decodes to; zero for every other shape. */
  function TextSeconds(r: Record): (seconds: int)
  {
    match r.duration
    case Text(s) => if ParseHms(s).Success? then ParseHms(s).value else 0
    case _ => 0
  }

  predicate Malformed(r: Record)
  {
    r.duration.Text? && ParseHms(r.duration.text).Failure?
  }

  /** The load succeeds exactly when no string duration is malformed, and then the total is
      the sum of the decoded string durations: missing ones add zero, numeric ones are skipped. */
  lemma {:induction false} LoadedTotalMeaning(rs: seq<Record>)
    ensures LoadedTotal(rs).Success? <==> forall i :: 0 <= i < |rs| ==> !Malformed(rs[i])
    ensures LoadedTotal(rs).Success? ==> LoadedTotal(rs).value == SumOf(rs, TextSeconds)
  {
    if |rs| > 0 {
      var init := rs[..|rs| - 1];
      LoadedTotalMeaning(init);
      assert forall i :: 0 <= i < |init| ==> init[i] == rs[i];
    }
  }

  /** Appending a record whose duration is the rendering of `d` seconds adds exactly `d`. */
  lemma AppendFormatted(rs: seq<Record>, total: int, r: Record, d: int)
    requires LoadedTotal(rs) == Success(total)
    requires r.duration == Text(FormatHms(d))
    ensures LoadedTotal(rs + [r]) == Success(total + d)
  {
    RoundTrip(d);
    AppendDecoded(rs, total, r, d);
  }

  lemma AppendDecoded(rs: seq<Record>, total: int, r: Record, d: int)
    requires LoadedTotal(rs) == Success(total)
    requires LoadedSeconds(r) == Success(d)
    ensures LoadedTotal(rs + [r]) == Success(total + d)
  {
    assert (rs + [r])[..|rs|] == rs;
  }
}
