/** The video player's time display: `GetTimeLevel` picks how many clock
    fields to show from the video's duration, and `GetTime` formats a time
    with that many two-digit fields, dropping one leading '0'. Times are whole
    seconds. A reader for the displayed text is the partner that shows
    nothing is lost but the units above the largest one shown. */
module ClockFormat {
  import opened Common

  const SecondsPerMinute: int := 60
  const SecondsPerHour: int := 3600
  const SecondsPerDay: int := 86400

  /** Number of fields above seconds that `GetTime` shows: none while the
      duration (zero when unknown) is under a minute, minutes under an hour,
      hours under a day, days otherwise. */
  function GetTimeLevel(duration: Option<real>): (level: int)
    ensures 0 <= level <= 3
    ensures level < 3 ==> DurationOrZero(duration) < Span(level) as real
    ensures level > 0 ==> DurationOrZero(duration) >= Span(level - 1) as real
  {
    var d := DurationOrZero(duration);
    if d < 60.0 then 0
    else if d < 3600.0 then 1
    else if d < 86400.0 then 2
    else 3
  }

  function DurationOrZero(duration: Option<real>): real {
    match duration
    case Some(d) => d
    case None => 0.0
  }

  /** Seconds covered by the fields shown at a level below 3. */
  function Span(level: int): int
    requires 0 <= level < 3
  {
    if level == 0 then SecondsPerMinute
    else if level == 1 then SecondsPerHour
    else SecondsPerDay
  }

  predicate IsDigit(c: char) {
    '0' <= c <= '9'
  }

  function DigitChar(d: int): (c: char)
    requires 0 <= d < 10
    ensures IsDigit(c)
  {
    (d + '0' as int) as char
  }

  function DigitValue(c: char): int {
    c as int - '0' as int
  }

  /** Decimal digits of `n` without leading zeros. */
  function Decimal(n: nat): (s: string)
    ensures |s| >= 1
    ensures forall i :: 0 <= i < |s| ==> IsDigit(s[i])
    decreases n
  {
    if n < 10 then [DigitChar(n)] else Decimal(n / 10) + [DigitChar(n % 10)]
  }

  /** A clock field as the custom formats `ss`, `mm`, `hh` and `dd` write
      it: at least two digits. */
  function Pad2(n: nat): (s: string)
    ensures |s| >= 2
    ensures forall i :: 0 <= i < |s| ==> IsDigit(s[i])
  {
    if n < 10 then ['0', DigitChar(n)] else Decimal(n)
  }

  /** The clock fields shown for `seconds` at `level`, largest unit first:
      seconds within the minute, minutes within the hour, hours within the
      day, whole days. */
  function Fields(seconds: nat, level: int): (fs: seq<nat>)
    requires 0 <= level <= 3
    ensures |fs| == level + 1
  {
    var ss := seconds % 60;
    var mm := (seconds / 60) % 60;
    var hh := (seconds / 3600) % 24;
    var dd := seconds / 86400;
    if level == 0 then [ss]
    else if level == 1 then [mm, ss]
    else if level == 2 then [hh, mm, ss]
    else [dd, hh, mm, ss]
  }

  /** Fields joined with ':'. */
  function Join(fields: seq<nat>): (s: string)
    requires |fields| >= 1
    ensures |s| >= 2
    decreases |fields|
  {
    if |fields| == 1 then Pad2(fields[0]) else Pad2(fields[0]) + ":" + Join(fields[1..])
  }

  /** `GetTime`: the fields the duration's level calls for, with a single
      leading '0' removed. Between the colons stand the padded fields, except
      that a first field under ten shows as its one digit. */
  function GetTime(seconds: nat, duration: Option<real>): (r: string)
    ensures |r| >= 1
    ensures var fs := Fields(seconds, GetTimeLevel(duration));
            var parts := Split(r);
            && |parts| == |fs|
            && (forall i :: 1 <= i < |fs| ==> parts[i] == Pad2(fs[i]))
            && (fs[0] < 10 ==> parts[0] == [DigitChar(fs[0])] && "0" + parts[0] == Pad2(fs[0]))
            && (fs[0] >= 10 ==> parts[0] == Pad2(fs[0]))
  {
    var fs := Fields(seconds, GetTimeLevel(duration));
    StripLayout(fs);
    var full := Join(fs);
    if full[0] == '0' then full[1..] else full
  }

  // ---------------------------------------------------------------------
  // Reading a displayed time back

  /** Pieces of `s` between the ':' separators. */
  function Split(s: string): (parts: seq<string>)
    ensures |parts| >= 1
    decreases |s|
  {
    if |s| == 0 then [""]
    else
      var rest := Split(s[1..]);
      if s[0] == ':' then [""] + rest else [[s[0]] + rest[0]] + rest[1..]
  }

  /** Value of a string of decimal digits. */
  function DecimalValue(s: string): int
    decreases |s|
  {
    if |s| == 0 then 0 else DecimalValue(s[..|s| - 1]) * 10 + DigitValue(s[|s| - 1])
  }

  /** The numbers a displayed time shows, field by field. */
  function ReadClock(s: string): (values: seq<int>)
    ensures |values| == |Split(s)|
  {
    var parts := Split(s);
    seq(|parts|, i requires 0 <= i < |parts| => DecimalValue(parts[i]))
  }

  /** The seconds a list of fields stands for, the last field counting
      seconds, the one before minutes, then hours, then days. */
  function ClockSeconds(fs: seq<int>): int
    requires 1 <= |fs| <= 4
  {
    if |fs| == 1 then fs[0]
    else if |fs| == 2 then 60 * fs[0] + fs[1]
    else if |fs| == 3 then 3600 * fs[0] + 60 * fs[1] + fs[2]
    else 86400 * fs[0] + 3600 * fs[1] + 60 * fs[2] + fs[3]
  }

  /** Reading back the digits of a number gives the number. */
  lemma {:induction false} DecimalRoundTrip(n: nat)
    ensures DecimalValue(Decimal(n)) == n
    decreases n
  {
    if n >= 10 {
      DecimalRoundTrip(n / 10);
      var s := Decimal(n / 10) + [DigitChar(n % 10)];
      assert s[..|s| - 1] == Decimal(n / 10);
    }
  }

  /** A leading zero does not change a number's value. */
  lemma {:induction false} LeadingZero(s: string)
    ensures DecimalValue("0" + s) == DecimalValue(s)
    decreases |s|
  {
    if |s| > 0 {
      var t := "0" + s;
      assert t[..|t| - 1] == "0" + s[..|s| - 1];
      LeadingZero(s[..|s| - 1]);
    }
  }

  lemma Pad2RoundTrip(n: nat)
    ensures DecimalValue(Pad2(n)) == n
  {
    if n < 10 {
      assert Pad2(n) == "0" + [DigitChar(n)];
      LeadingZero([DigitChar(n)]);
    } else {
      DecimalRoundTrip(n);
    }
  }

  /** A colon-free string is a single piece. */
  lemma {:induction false} SplitNoColon(a: string)
    requires forall i :: 0 <= i < |a| ==> a[i] != ':'
    ensures Split(a) == [a]
    decreases |a|
  {
    if |a| > 0 {
      SplitNoColon(a[1..]);
      assert [a[0]] + a[1..] == a;
    }
  }

  /** Splitting after a colon-free first piece. */
  lemma {:induction false} SplitAfterPiece(a: string, b: string)
    requires forall i :: 0 <= i < |a| ==> a[i] != ':'
    ensures Split(a + ":" + b) == [a] + Split(b)
    decreases |a|
  {
    var s := a + ":" + b;
    if |a| == 0 {
      assert s[1..] == b;
    } else {
      assert s[1..] == a[1..] + ":" + b;
      SplitAfterPiece(a[1..], b);
      assert [a[0]] + a[1..] == a;
    }
  }

  /** The joined fields split back into the padded fields. */
  lemma {:induction false} SplitJoin(fields: seq<nat>)
    requires |fields| >= 1
    ensures |Split(Join(fields))| == |fields|
    ensures forall i :: 0 <= i < |fields| ==> Split(Join(fields))[i] == Pad2(fields[i])
    decreases |fields|
  {
    if |fields| == 1 {
      SplitNoColon(Pad2(fields[0]));
    } else {
      SplitAfterPiece(Pad2(fields[0]), Join(fields[1..]));
      SplitJoin(fields[1..]);
    }
  }

  /** A number from 10 on is written without a leading zero. */
  lemma {:induction false} DecimalLeads(n: nat)
    requires n >= 10
    ensures Decimal(n)[0] != '0'
    decreases n
  {
    if n / 10 >= 10 {
      DecimalLeads(n / 10);
    }
    assert Decimal(n)[0] == Decimal(n / 10)[0];
  }

  /** The pieces of the joined fields once a leading '0' is dropped: the
      first field loses its padding zero, the others keep two digits. */
  lemma StripLayout(fs: seq<nat>)
    requires |fs| >= 1
    ensures var full := Join(fs);
            var parts := Split(if full[0] == '0' then full[1..] else full);
            && |parts| == |fs|
            && (forall i :: 1 <= i < |fs| ==> parts[i] == Pad2(fs[i]))
            && (fs[0] < 10 ==> parts[0] == [DigitChar(fs[0])] && "0" + parts[0] == Pad2(fs[0]))
            && (fs[0] >= 10 ==> parts[0] == Pad2(fs[0]))
  {
    var full := Join(fs);
    SplitJoin(fs);
    var rest := Split(full[1..]);
    assert full == [full[0]] + full[1..];
    assert |Split(full)[0]| >= 2;
    assert full[0] != ':';
    assert Split(full) == [[full[0]] + rest[0]] + rest[1..];
    assert rest[0] == Pad2(fs[0])[1..];
    if fs[0] >= 10 {
      DecimalLeads(fs[0]);
    }
  }

  /** Reading the displayed text of `GetTime` gives back exactly the fields
      its level shows: the stripped leading zero loses nothing. */
  lemma ReadBackGetTime(seconds: nat, duration: Option<real>)
    ensures ReadClock(GetTime(seconds, duration)) == Fields(seconds, GetTimeLevel(duration))
  {
    var fs := Fields(seconds, GetTimeLevel(duration));
    var full := Join(fs);
    SplitJoin(fs);
    forall i | 0 <= i < |fs|
      ensures DecimalValue(Split(full)[i]) == fs[i]
    {
      Pad2RoundTrip(fs[i]);
    }
    if full[0] == '0' {
      var rest := full[1..];
      assert full == [full[0]] + rest;
      var parts := Split(rest);
      assert Split(full) == [[full[0]] + parts[0]] + parts[1..];
      assert [full[0]] + parts[0] == "0" + parts[0];
      LeadingZero(parts[0]);
      assert ReadClock(rest)[0] == fs[0];
      assert forall i :: 1 <= i < |fs| ==> ReadClock(rest)[i] == DecimalValue(Split(full)[i]);
    }
  }

  /** The fields shown stand for the time modulo the span of the largest
      unit shown; with days shown, for the whole time. */
  lemma FieldsMeaning(seconds: nat, level: int)
    requires 0 <= level <= 3
    ensures level < 3 ==> ClockSeconds(Fields(seconds, level)) == seconds % Span(level)
    ensures level == 3 ==> ClockSeconds(Fields(seconds, level)) == seconds
  {
    var s := seconds;
    var q := s / 60;
    assert s == 60 * q + s % 60;
    assert q == 60 * (q / 60) + q % 60;
    assert s / 3600 == q / 60;
    var h := s / 3600;
    assert h == 24 * (h / 24) + h % 24;
    assert s / 86400 == h / 24;
    var low := 60 * (q % 60) + s % 60;
    assert s == 3600 * h + low && 0 <= low < 3600;
    assert s % 3600 == low;
    var mid := 3600 * (h % 24) + low;
    assert s == 86400 * (h / 24) + mid && 0 <= mid < 86400;
    assert s % 86400 == mid;
  }

  /** What the viewer reads off the display: the time modulo a minute, an
      hour or a day depending on the video's duration, or the whole time
      once the video lasts a day or more. */
  lemma DisplayedSeconds(seconds: nat, duration: Option<real>)
    ensures var level := GetTimeLevel(duration);
            var shown := ReadClock(GetTime(seconds, duration));
            && |shown| == level + 1
            && (level < 3 ==> ClockSeconds(shown) == seconds % Span(level))
            && (level == 3 ==> ClockSeconds(shown) == seconds)
  {
    ReadBackGetTime(seconds, duration);
    FieldsMeaning(seconds, GetTimeLevel(duration));
  }

  /** The joined fields of the sample displays below. */
  lemma JoinExamples()
    ensures Join([5]) == "05" && Join([15]) == "15" && Join([1, 15]) == "01:15"
    ensures Join([1, 2, 5]) == "01:02:05" && Join([1, 1, 1, 1]) == "01:01:01:01"
  {
    assert Pad2(1) == "01" && Pad2(2) == "02" && Pad2(5) == "05";
    assert Decimal(15) == Decimal(1) + [DigitChar(5)] == "15";
    assert Pad2(15) == "15";
    assert Join([1, 15]) == "01" + ":" + Join([15]);
    assert Join([2, 5]) == "02" + ":" + Join([5]) == "02:05";
    assert Join([1, 2, 5]) == "01" + ":" + Join([2, 5]);
    assert Join([1]) == "01";
    assert Join([1, 1]) == "01" + ":" + Join([1]) == "01:01";
    assert Join([1, 1, 1]) == "01" + ":" + Join([1, 1]) == "01:01:01";
    assert Join([1, 1, 1, 1]) == "01" + ":" + Join([1, 1, 1]);
  }

  /** A few displays: a minute-long video shows "m:ss", an hour-long one
      "h:mm:ss", a day-long one "d:hh:mm:ss", and a short one just the
      seconds with no leading zero. */
  lemma GetTimeExamples()
    ensures GetTime(5, Some(30.0)) == "5"
    ensures GetTime(75, Some(120.0)) == "1:15"
    ensures GetTime(3725, Some(4000.0)) == "1:02:05"
    ensures GetTime(90061, Some(100000.0)) == "1:01:01:01"
    ensures GetTime(75, None) == "15"
  {
    JoinExamples();
    assert Fields(5, 0) == [5];
    assert Fields(75, 1) == [1, 15];
    assert Fields(75, 0) == [15];
    assert Fields(3725, 2) == [1, 2, 5];
    assert Fields(90061, 3) == [1, 1, 1, 1];
  }
}
