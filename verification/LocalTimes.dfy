/** Local times and timestamps: the protocol's text against Python's microseconds. */
module LocalTimes {
  import opened Wrappers
  import opened Errors
  import opened Numerals

  /** A `datetime.time` without its time zone. */
  datatype Time = Time(hour: nat, minute: nat, second: nat, microsecond: nat)

  datatype Date = Date(year: nat, month: nat, day: nat)

  predicate ValidTime(t: Time) {
    t.hour < 24 && t.minute < 60 && t.second < 60 && t.microsecond < 1_000_000
  }

  predicate LeapYear(year: nat) {
    year % 4 == 0 && (year % 100 != 0 || year % 400 == 0)
  }

  function DaysIn(year: nat, month: nat): nat {
    if month == 2 then (if LeapYear(year) then 29 else 28)
    else if month in {4, 6, 9, 11} then 30
    else 31
  }

  predicate ValidDate(d: Date) {
    1 <= d.year <= 9999 && 1 <= d.month <= 12 && 1 <= d.day <= DaysIn(d.year, d.month)
  }

  /** The groups of a matched clock; the fraction is empty when it was absent. */
  datatype Clock = Clock(hour: nat, minute: nat, second: nat, fraction: string)

  /** HH:mm:ss with an optional fraction of one to nine digits, over the whole text. */
  function ParseLocalTime(text: string): (r: Option<Clock>)
    ensures r.Some? ==> |r.value.fraction| <= 9 && AllDigits(r.value.fraction)
    ensures r.Some? ==> r.value.hour < 24 && r.value.minute < 60 && r.value.second < 60
  {
    if |text| < 8 || !AllDigits(text[0..2]) || !AllDigits(text[3..5]) || !AllDigits(text[6..8]) then None
    else if text[2] != ':' || text[5] != ':' then None
    else
      var hour, minute, second := NumberOf(text[0..2]), NumberOf(text[3..5]), NumberOf(text[6..8]);
      if hour >= 24 || minute >= 60 || second >= 60 then None
      else if |text| == 8 then Some(Clock(hour, minute, second, ""))
      else if text[8] == '.' && 1 <= |text| - 9 <= 9 && AllDigits(text[9..]) then
        Some(Clock(hour, minute, second, text[9..]))
      else None
  }

  predicate IsLocalTime(text: string) { ParseLocalTime(text).Some? }

  /** The fraction read as nanoseconds, after right-padding it to nine digits. */
  function Nanoseconds(fraction: string): (n: nat)
    requires AllDigits(fraction) && |fraction| <= 9
    ensures n < 1_000_000_000
  {
    assert Pow10(9) == 1_000_000_000 by { assert Pow10(5) == 100_000; }
    NumberOf(fraction + Zeros(9 - |fraction|))
  }

  /** Python's time, or CodecError when the text is not one or is too precise for it. */
  function ToTime(text: string): Result<Time, Error> {
    match ParseLocalTime(text)
    case None => Failure(CodecError)
    case Some(clock) =>
      var nanoseconds := Nanoseconds(clock.fraction);
      if nanoseconds % 1_000 != 0 then Failure(CodecError)
      else Success(Time(clock.hour, clock.minute, clock.second, nanoseconds / 1_000))
  }

  /** `time.isoformat()`: the fraction is written only when it is not zero. */
  function TimeText(t: Time): string {
    Padded(t.hour, 2) + ":" + Padded(t.minute, 2) + ":" + Padded(t.second, 2)
    + if t.microsecond == 0 then "" else "." + Padded(t.microsecond, 6)
  }

  function DateText(d: Date): string {
    Padded(d.year, 4) + "-" + Padded(d.month, 2) + "-" + Padded(d.day, 2)
  }

  /** yyyy-MM-dd naming a day of the proleptic Gregorian calendar. */
  function ParseDate(text: string): (r: Option<Date>)
    ensures r.Some? ==> ValidDate(r.value)
  {
    if |text| != 10 || text[4] != '-' || text[7] != '-' then None
    else if !AllDigits(text[0..4]) || !AllDigits(text[5..7]) || !AllDigits(text[8..10]) then None
    else
      var d := Date(NumberOf(text[0..4]), NumberOf(text[5..7]), NumberOf(text[8..10]));
      if ValidDate(d) then Some(d) else None
  }

  /** The day and the clock text of a timestamp; the clock must itself be a local time. */
  function ParseLocalTimestamp(text: string): (r: Option<(Date, string)>)
    ensures r.Some? ==> ValidDate(r.value.0) && IsLocalTime(r.value.1)
  {
    if |text| < 11 || text[10] != 'T' then None
    else if ParseDate(text[..10]).None? || !IsLocalTime(text[11..]) then None
    else Some((ParseDate(text[..10]).value, text[11..]))
  }

  predicate IsLocalTimestamp(text: string) { ParseLocalTimestamp(text).Some? }

  function TimestampText(d: Date, t: Time): string {
    DateText(d) + "T" + TimeText(t)
  }

  function ToDatetime(text: string): Result<(Date, Time), Error> {
    match ParseLocalTimestamp(text)
    case None => Failure(CodecError)
    case Some((day, clock)) =>
      var time :- ToTime(clock);
      Success((day, time))
  }

  lemma TwoDigits(n: nat)
    requires n < 100
    ensures NumberOf(Padded(n, 2)) == n
  {
    assert Pow10(2) == 100;
    NumberOfPadded(n, 2);
  }

  lemma MillionDigits(n: nat)
    requires n < 1_000_000
    ensures NumberOf(Padded(n, 6)) == n
  {
    assert Pow10(3) == 1_000;
    assert Pow10(6) == 1_000_000;
    NumberOfPadded(n, 6);
  }

  lemma ClockSlices(h: string, m: string, s: string, tail: string, text: string)
    requires |h| == |m| == |s| == 2 && text == h + ":" + m + ":" + s + tail
    ensures |text| == 8 + |tail|
    ensures text[0..2] == h && text[3..5] == m && text[6..8] == s
    ensures text[2] == ':' && text[5] == ':' && text[8..] == tail
  {
  }

  lemma ParseOfPieces(h: string, m: string, s: string, fraction: string, text: string)
    requires |h| == |m| == |s| == 2 && |fraction| <= 9
    requires AllDigits(h) && AllDigits(m) && AllDigits(s) && AllDigits(fraction)
    requires NumberOf(h) < 24 && NumberOf(m) < 60 && NumberOf(s) < 60
    requires text == h + ":" + m + ":" + s + if fraction == "" then "" else "." + fraction
    ensures ParseLocalTime(text) == Some(Clock(NumberOf(h), NumberOf(m), NumberOf(s), fraction))
  {
    ClockSlices(h, m, s, if fraction == "" then "" else "." + fraction, text);
    if fraction != "" {
      assert text[9..] == text[8..][1..] == fraction;
    }
  }

  /** A local time is spelled by two digits each for hours, minutes and seconds, and a short fraction. */
  lemma PiecesOfParse(text: string) returns (h: string, m: string, s: string, fraction: string)
    requires IsLocalTime(text)
    ensures |h| == |m| == |s| == 2 && |fraction| <= 9
    ensures AllDigits(h) && AllDigits(m) && AllDigits(s) && AllDigits(fraction)
    ensures NumberOf(h) < 24 && NumberOf(m) < 60 && NumberOf(s) < 60
    ensures text == h + ":" + m + ":" + s + if fraction == "" then "" else "." + fraction
  {
    h, m, s := text[0..2], text[3..5], text[6..8];
    fraction := if |text| == 8 then "" else text[9..];
    assert text[..8] == h + ":" + m + ":" + s;
    assert text == text[..8] + text[8..];
    assert |text| > 8 ==> text[8..] == "." + fraction;
  }

  /** A local timestamp is a real day, written with ten characters, a T, and a local time. */
  lemma TimestampMeans(text: string)
    ensures IsLocalTimestamp(text) <==>
            exists d, clock :: ValidDate(d) && IsLocalTime(clock) && text == DateText(d) + "T" + clock
    ensures forall d, clock :: ValidDate(d) && IsLocalTime(clock) && text == DateText(d) + "T" + clock ==>
              ParseLocalTimestamp(text) == Some((d, clock))
  {
    hide ParseLocalTime, IsLocalTime, ParseDate, DateText;
    forall d, clock | ValidDate(d) && IsLocalTime(clock) && text == DateText(d) + "T" + clock
      ensures ParseLocalTimestamp(text) == Some((d, clock))
    {
      DateTextLength(d);
      assert text[..10] == DateText(d) && text[11..] == clock;
      ParseOfDateText(d);
    }
    if IsLocalTimestamp(text) {
      DateOfText(text[..10]);
      assert text == text[..10] + "T" + text[11..];
    }
  }

  lemma DateTextLength(d: Date)
    ensures |DateText(d)| == 10
  {
  }

  /** A date that parses is printed as it was written. */
  lemma DateOfText(text: string)
    requires ParseDate(text).Some?
    ensures text == DateText(ParseDate(text).value)
  {
    hide NumberOf, Padded, ValidDate;
    PaddedOfNumber(text[0..4]);
    PaddedOfNumber(text[5..7]);
    PaddedOfNumber(text[8..10]);
    assert text == text[0..4] + "-" + text[5..7] + "-" + text[8..10];
  }

  lemma {:induction false} PaddedOfNumber(digits: string)
    requires AllDigits(digits)
    ensures Padded(NumberOf(digits), |digits|) == digits
  {
    if digits != [] {
      var n := |digits| - 1;
      PaddedOfNumber(digits[..n]);
      assert digits == digits[..n] + [digits[n]];
    }
  }

  /** Printing a time and matching the text again recovers every field. */
  lemma ParseOfTimeText(t: Time)
    requires ValidTime(t)
    ensures ParseLocalTime(TimeText(t)) ==
            Some(Clock(t.hour, t.minute, t.second,
                       if t.microsecond == 0 then "" else Padded(t.microsecond, 6)))
  {
    TwoDigits(t.hour);
    TwoDigits(t.minute);
    TwoDigits(t.second);
    var h, m, s := Padded(t.hour, 2), Padded(t.minute, 2), Padded(t.second, 2);
    ParseOfPieces(h, m, s, if t.microsecond == 0 then "" else Padded(t.microsecond, 6), TimeText(t));
  }

  lemma NoFraction(fraction: string)
    requires fraction == ""
    ensures Nanoseconds(fraction) == 0
  {
    var padded := fraction + Zeros(9);
    NumberOfZero(padded);
  }

  lemma MicrosecondDigits(micros: nat)
    requires micros < 1_000_000
    ensures Nanoseconds(Padded(micros, 6)) == micros * 1_000
  {
    var digits := Padded(micros, 6);
    MillionDigits(micros);
    NumberOfThousands(digits, Zeros(3));
    NumberOfZero(Zeros(3));
  }

  /** Every naive time survives the trip through its local-time text. */
  lemma TimeRoundTrip(t: Time)
    requires ValidTime(t)
    ensures IsLocalTime(TimeText(t)) && ToTime(TimeText(t)) == Success(t)
  {
    hide ParseLocalTime, TimeText, Nanoseconds, Padded;
    ParseOfTimeText(t);
    var fraction := if t.microsecond == 0 then "" else Padded(t.microsecond, 6);
    assert Nanoseconds(fraction) == t.microsecond * 1_000 by {
      if t.microsecond == 0 {
        NoFraction(fraction);
      } else {
        MicrosecondDigits(t.microsecond);
      }
    }
  }

  lemma ParseOfDateText(d: Date)
    requires ValidDate(d)
    ensures ParseDate(DateText(d)) == Some(d)
  {
    var text := DateText(d);
    assert Pow10(4) == 10_000;
    NumberOfPadded(d.year, 4);
    TwoDigits(d.month);
    TwoDigits(d.day);
    assert text[0..4] == Padded(d.year, 4);
    assert text[5..7] == Padded(d.month, 2);
    assert text[8..10] == Padded(d.day, 2);
  }

  /** Every naive datetime survives the trip through its local-timestamp text. */
  lemma TimestampRoundTrip(d: Date, t: Time)
    requires ValidDate(d) && ValidTime(t)
    ensures IsLocalTimestamp(TimestampText(d, t))
    ensures ToDatetime(TimestampText(d, t)) == Success((d, t))
  {
    var text := TimestampText(d, t);
    assert text[..10] == DateText(d);
    assert text[11..] == TimeText(t);
    ParseOfDateText(d);
    TimeRoundTrip(t);
  }

  /** No digit of the fraction beyond the sixth is significant. */
  predicate WholeMicroseconds(fraction: string) {
    forall i :: 6 <= i < |fraction| ==> fraction[i] == '0'
  }

  lemma WholeMicrosecondsMeans(fraction: string)
    requires AllDigits(fraction) && |fraction| <= 9
    ensures Nanoseconds(fraction) % 1_000 == 0 <==> WholeMicroseconds(fraction)
  {
    hide NumberOf;
    var padded := fraction + Zeros(9 - |fraction|);
    var high, low := padded[..6], padded[6..];
    assert padded == high + low;
    NumberOfThousands(high, low);
    assert Nanoseconds(fraction) == NumberOf(padded);
    NumberOfZero(low);
    assert forall i :: 0 <= i < 3 ==> low[i] == padded[6 + i];
    if WholeMicroseconds(fraction) {
      assert forall i :: 0 <= i < 3 ==> low[i] == '0';
    } else {
      var i :| 6 <= i < |fraction| && fraction[i] != '0';
      assert low[i - 6] == fraction[i];
    }
  }

  /** Nanoseconds since midnight denoted by a matched clock. */
  function InstantOfClock(c: Clock): nat
    requires AllDigits(c.fraction) && |c.fraction| <= 9
  {
    ((c.hour * 60 + c.minute) * 60 + c.second) * 1_000_000_000 + Nanoseconds(c.fraction)
  }

  function InstantOfTime(t: Time): nat {
    ((t.hour * 60 + t.minute) * 60 + t.second) * 1_000_000_000 + t.microsecond * 1_000
  }

  /** Conversion to Python's time succeeds exactly without loss, and keeps the instant. */
  lemma ToTimeIsExact(text: string)
    requires IsLocalTime(text)
    ensures ToTime(text).Success? <==> WholeMicroseconds(ParseLocalTime(text).value.fraction)
    ensures ToTime(text).Success? ==>
              && ValidTime(ToTime(text).value)
              && InstantOfTime(ToTime(text).value) == InstantOfClock(ParseLocalTime(text).value)
  {
    WholeMicrosecondsMeans(ParseLocalTime(text).value.fraction);
  }
}
