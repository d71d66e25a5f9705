/** The duration codec of track.py: `seconds_to_hms` renders a count of seconds as
    "HH:MM:SS" and `hms_to_seconds` reads such a string back.

    Both work on integer seconds here. Python's `//` and `%` floor, and Dafny's
    Euclidean `/` and `%` agree with them whenever the divisor is positive, which
    3600 and 60 are, so negative counts (a remaining time past the weekly target)
    are rendered exactly as the program renders them. */
module DurationCodec {
  import opened Wrappers
  import opened Strings

  /** `hms_to_seconds` fails with ValueError when the text is not three integers separated by ':'. */
  datatype CodecError = MalformedDuration

  predicate IsDigit(c: char)
  {
    '0' <= c <= '9'
  }

  predicate AllDigits(s: string)
  {
    forall i :: 0 <= i < |s| ==> IsDigit(s[i])
  }

  function DigitChar(d: nat): (c: char)
    requires d < 10
    ensures IsDigit(c) && c as int == '0' as int + d
  {
    ['0', '1', '2', '3', '4', '5', '6', '7', '8', '9'][d]
  }

  function DigitValue(c: char): (d: nat)
    requires IsDigit(c)
    ensures d < 10 && DigitChar(d) == c
  {
    (c as int) - ('0' as int)
  }

  /** The decimal digits of a natural number, most significant first, no leading zero. */
  function Digits(n: nat): (s: string)
    ensures |s| >= 1 && AllDigits(s)
    ensures |s| == 1 <==> n < 10
    ensures n < 100 ==> |s| <= 2
  {
    if n < 10 then [DigitChar(n)] else Digits(n / 10) + [DigitChar(n % 10)]
  }

  /** The number a run of decimal digits denotes; the empty run denotes 0. */
  function DigitsValue(s: string): (v: nat)
    requires AllDigits(s)
  {
    if |s| == 0 then 0 else 10 * DigitsValue(s[..|s| - 1]) + DigitValue(s[|s| - 1])
  }

  lemma {:induction false} DigitsRoundTrip(n: nat)
    ensures DigitsValue(Digits(n)) == n
  {
    if n >= 10 {
      var s := Digits(n);
      DigitsRoundTrip(n / 10);
      assert s[..|s| - 1] == Digits(n / 10);
    }
  }

  /** Python's `int(text)` on decimal text: an optional sign followed by at least one digit. */
  function ParseInt(s: string): (r: Option<int>)
  {
    if |s| >= 2 && (s[0] == '-' || s[0] == '+') && AllDigits(s[1..]) then
      var magnitude: int := DigitsValue(s[1..]);
      Some(if s[0] == '-' then -magnitude else magnitude)
    else if |s| >= 1 && AllDigits(s) then Some(DigitsValue(s))
    else None
  }

  /** Python's f"{k:02}": zero-padded to width two, the sign counting towards the width. */
  function Pad2(k: int): (p: string)
  {
    if k < 0 then "-" + Digits(-k)
    else if k < 10 then "0" + Digits(k)
    else Digits(k)
  }

  /** A padded field holds no ':'; a non-negative one is all digits, two of them below 100. */
  lemma Pad2Shape(k: int)
    ensures ':' !in Pad2(k)
    ensures k >= 0 ==> |Pad2(k)| >= 2 && AllDigits(Pad2(k))
    ensures 0 <= k < 100 ==> |Pad2(k)| == 2
  {
    var s := Pad2(k);
    if k < 0 {
      assert s[0] == '-' && AllDigits(s[1..]);
      forall i | 0 <= i < |s| ensures s[i] != ':' {
        if i > 0 { assert s[i] == s[1..][i - 1]; }
      }
    }
  }

  lemma Pad2RoundTrip(k: int)
    ensures ParseInt(Pad2(k)) == Some(k)
  {
    if k < 0 {
      NegativeRoundTrip(k);
    } else if k < 10 {
      PaddedDigitRoundTrip(k);
    } else {
      DigitsRoundTrip(k);
      assert Pad2(k) == Digits(k);
    }
  }

  lemma NegativeRoundTrip(k: int)
    requires k < 0
    ensures ParseInt("-" + Digits(-k)) == Some(k)
  {
    var digits := Digits(-k);
    var s := "-" + digits;
    assert s[1..] == digits && s[0] == '-';
    DigitsRoundTrip(-k);
    assert AllDigits(s[1..]) && |s| >= 2;
  }

  lemma PaddedDigitRoundTrip(k: nat)
    requires k < 10
    ensures ParseInt("0" + Digits(k)) == Some(k)
  {
    var s := "0" + Digits(k);
    assert s == ['0', DigitChar(k)];
    assert s[..1] == "0" && "0"[..0] == [];
    assert DigitsValue("0") == 0;
    assert DigitsValue(s) == k;
  }

  /** The three fields `seconds_to_hms` prints: hours, minutes, seconds. */
  datatype Hms = Hms(hours: int, minutes: int, seconds: int)

  function Fields(n: int): (f: Hms)
    ensures 0 <= f.minutes < 60 && 0 <= f.seconds < 60
    ensures f.hours * 3600 + f.minutes * 60 + f.seconds == n
  {
    var f := Hms(n / 3600, (n % 3600) / 60, n % 60);
    SecondsOfRemainder(n);
    f
  }

  /** Taking the remainder by 3600 first does not change the remainder by 60. */
  lemma SecondsOfRemainder(n: int)
    ensures n % 60 == (n % 3600) % 60
  {
    var q, r := n / 3600, n % 3600;
    RemainderBySixty(n, 60 * q + r / 60, r % 60);
  }

  /** Euclidean remainder by 60 is determined by any decomposition with a remainder in range. */
  lemma RemainderBySixty(n: int, x: int, y: int)
    requires n == 60 * x + y && 0 <= y < 60
    ensures n % 60 == y
  {
  }

  function Render(f: Hms): (s: string)
  {
    Pad2(f.hours) + ":" + Pad2(f.minutes) + ":" + Pad2(f.seconds)
  }

  /** `seconds_to_hms` (track.py:101-106). */
  function FormatHms(n: int): (s: string)
  {
    Render(Fields(n))
  }

  /** `hms_to_seconds` (track.py:60-63). */
  function ParseHms(s: string): (r: Result<int, CodecError>)
  {
    var parts := Split(s, ':');
    if |parts| != 3 then Failure(MalformedDuration)
    else
      match (ParseInt(parts[0]), ParseInt(parts[1]), ParseInt(parts[2]))
      case (Some(h), Some(m), Some(sec)) => Success(h * 3600 + m * 60 + sec)
      case _ => Failure(MalformedDuration)
  }

  /** Rendered fields split at ':' into exactly the three padded fields. */
  lemma RenderSplits(f: Hms)
    ensures Split(Render(f), ':') == [Pad2(f.hours), Pad2(f.minutes), Pad2(f.seconds)]
  {
    var h, m, s := Pad2(f.hours), Pad2(f.minutes), Pad2(f.seconds);
    Pad2Shape(f.hours);
    Pad2Shape(f.minutes);
    Pad2Shape(f.seconds);
    assert Render(f) == h + [':'] + (m + [':'] + s);
    SplitAtFirst(h, ':', m + [':'] + s);
    SplitAtFirst(m, ':', s);
    SplitAtFirst(s, ':', "");
  }

  /** The rendering splits at ':' into exactly the three padded fields. */
  lemma FormatHmsSplits(n: int)
    ensures Split(FormatHms(n), ':') == [Pad2(Fields(n).hours), Pad2(Fields(n).minutes), Pad2(Fields(n).seconds)]
  {
    RenderSplits(Fields(n));
  }

  /** The minute and second fields of the rendering are two digits each and denote
      numbers below 60. */
  lemma FormatHmsShape(n: int)
    ensures var parts := Split(FormatHms(n), ':');
            && |parts| == 3
            && |parts[1]| == 2 && |parts[2]| == 2 && AllDigits(parts[1]) && AllDigits(parts[2])
            && DigitsValue(parts[1]) < 60 && DigitsValue(parts[2]) < 60
  {
    var f := Fields(n);
    FormatHmsSplits(n);
    Pad2Shape(f.minutes);
    Pad2Shape(f.seconds);
    Pad2RoundTrip(f.minutes);
    Pad2RoundTrip(f.seconds);
  }

  /** `hms_to_seconds(seconds_to_hms(n)) == n` for every integer count of seconds,
      negative ones included. */
  lemma RoundTrip(n: int)
    ensures ParseHms(FormatHms(n)) == Success(n)
  {
    var f := Fields(n);
    assert f.hours * 3600 + f.minutes * 60 + f.seconds == n;
    assert FormatHms(n) == Render(f);
    RenderRoundTrip(f);
  }

  /** Reading rendered fields back recombines them into a count of seconds. */
  lemma RenderRoundTrip(f: Hms)
    ensures ParseHms(Render(f)) == Success(f.hours * 3600 + f.minutes * 60 + f.seconds)
  {
    var parts := Split(Render(f), ':');
    RenderSplits(f);
    Pad2RoundTrip(f.hours);
    Pad2RoundTrip(f.minutes);
    Pad2RoundTrip(f.seconds);
    assert |parts| == 3;
    assert ParseInt(parts[0]) == Some(f.hours);
    assert ParseInt(parts[1]) == Some(f.minutes);
    assert ParseInt(parts[2]) == Some(f.seconds);
  }

  /** Text without a ':' (such as "bad") is refused. */
  lemma NoColonRejected(s: string)
    requires ':' !in s
    ensures ParseHms(s).Failure?
  {
    SplitAtFirst(s, ':', "");
  }

  /** Text with an empty field (such as "01::30") is refused. */
  lemma EmptyFieldRejected(a: string, b: string)
    requires ':' !in a && ':' !in b
    ensures ParseHms(a + "::" + b).Failure?
  {
    assert a + "::" + b == a + [':'] + ("" + [':'] + b);
    SplitAtFirst(a, ':', "" + [':'] + b);
    SplitAtFirst("", ':', b);
    SplitAtFirst(b, ':', "");
    assert Split(a + "::" + b, ':') == [a, "", b];
  }

  /** The literal default `load_logs` uses for a record without a duration. */
  lemma ZeroText()
    ensures ParseHms("00:00:00") == Success(0)
  {
    assert FormatHms(0) == "00:00:00";
    RoundTrip(0);
  }
}
