/**
 Parsing of the upstream `HourUTC` text with the fixed Go layout
 `2006-01-02T15:04:05`, as `time.Parse` does it: four year digits, two month
 digits, two day digits, one or two hour digits (the `15` element is not
 zero-padded), two minute digits and two second digits, separated by the
 literal characters of the layout. An optional fractional-second tail
 (`.` or `,` followed by digits) is accepted although the layout has none.
 Month, hour, minute, second and day are range-checked; the day against the
 length of the month in the proleptic Gregorian calendar.
 */
module Timestamp {
  import opened Wrappers

  /** A parsed naive UTC time (the fraction of a second is dropped). */
  datatype DateTime = DateTime(year: nat, month: nat, day: nat, hour: nat, minute: nat, second: nat)

  predicate IsLeapYear(year: int) {
    year % 4 == 0 && (year % 100 != 0 || year % 400 == 0)
  }

  /** Number of days in `month` of `year`. */
  function DaysIn(month: int, year: int): (n: nat)
    requires 1 <= month <= 12
    ensures 28 <= n <= 31
    ensures n == 29 <==> month == 2 && IsLeapYear(year)
    ensures n == 30 <==> month in {4, 6, 9, 11}
    ensures n == 31 <==> month in {1, 3, 5, 7, 8, 10, 12}
  {
    if month == 2 then (if IsLeapYear(year) then 29 else 28)
    else if month in {4, 6, 9, 11} then 30
    else 31
  }

  /** Chronological order of two times: field by field, most significant first. */
  predicate Before(a: DateTime, b: DateTime) {
    || a.year < b.year
    || (a.year == b.year && a.month < b.month)
    || (a.year == b.year && a.month == b.month && a.day < b.day)
    || (a.year == b.year && a.month == b.month && a.day == b.day && a.hour < b.hour)
    || (a.year == b.year && a.month == b.month && a.day == b.day && a.hour == b.hour && a.minute < b.minute)
    || (a.year == b.year && a.month == b.month && a.day == b.day && a.hour == b.hour && a.minute == b.minute
        && a.second < b.second)
  }

  /** The times the layout can express: a real calendar date and a time of day. */
  predicate ValidDateTime(t: DateTime) {
    && t.year <= 9999
    && 1 <= t.month <= 12
    && 1 <= t.day <= DaysIn(t.month, t.year)
    && t.hour < 24
    && t.minute < 60
    && t.second < 60
  }

  // ---------------------------------------------------------------------------
  // Decimal digits

  predicate IsDigit(c: char) {
    '0' <= c <= '9'
  }

  predicate AllDigits(s: string) {
    forall i :: 0 <= i < |s| ==> IsDigit(s[i])
  }

  function DigitValue(c: char): nat
    requires IsDigit(c)
  {
    c as nat - '0' as nat
  }

  function DigitChar(d: nat): char
    requires d < 10
  {
    ('0' as nat + d) as char
  }

  function Pow10(n: nat): (p: nat)
    ensures p >= 1
  {
    if n == 0 then 1 else 10 * Pow10(n - 1)
  }

  /** The value of a string of decimal digits, most significant first. */
  function DecimalValue(s: string): (v: nat)
    requires AllDigits(s)
    ensures v < Pow10(|s|)
  {
    if |s| == 0 then 0
    else 10 * DecimalValue(s[..|s| - 1]) + DigitValue(s[|s| - 1])
  }

  /** `n` written with exactly `width` decimal digits, zero-padded on the left. */
  function Digits(n: nat, width: nat): (s: string)
    ensures |s| == width
    ensures AllDigits(s)
  {
    if width == 0 then []
    else Digits(n / 10, width - 1) + [DigitChar(n % 10)]
  }

  // ---------------------------------------------------------------------------
  // Layout elements

  /** A number read from the front of a string, and the text after it. */
  datatype Scan = Scan(value: nat, rest: string)

  /** Exactly `n` digits (the zero-padded elements `2006`, `01`, `02`, `04`, `05`). */
  function FixedDigits(s: string, n: nat): (r: Option<Scan>)
    ensures r.Some? <==> n <= |s| && AllDigits(s[..n])
    ensures r.Some? ==> r.value.value < Pow10(n) && r.value.rest == s[n..]
  {
    if |s| < n || !AllDigits(s[..n]) then None
    else Some(Scan(DecimalValue(s[..n]), s[n..]))
  }

  /** One digit, or two when a second digit follows (the unpadded element `15`). */
  function OneOrTwoDigits(s: string): (r: Option<Scan>)
    ensures r.Some? <==> 1 <= |s| && IsDigit(s[0])
    ensures r.Some? ==> r.value.value < 100
  {
    if |s| == 0 || !IsDigit(s[0]) then None
    else if |s| >= 2 && IsDigit(s[1]) then FixedDigits(s, 2)
    else Some(Scan(DigitValue(s[0]), s[1..]))
  }

  /** The literal character `c` of the layout. */
  function Literal(s: string, c: char): (r: Option<string>)
    ensures r.Some? <==> 1 <= |s| && s[0] == c
    ensures r.Some? ==> r.value == s[1..]
  {
    if |s| == 0 || s[0] != c then None else Some(s[1..])
  }

  /** Exactly `n` digits followed by the literal separator `c`. */
  function FieldThen(s: string, n: nat, c: char): (r: Option<Scan>)
    ensures r.Some? ==> r.value.value < Pow10(n)
  {
    var field :- FixedDigits(s, n);
    var rest :- Literal(field.rest, c);
    Some(Scan(field.value, rest))
  }

  /** What may follow the seconds: nothing, or a fraction of a second. */
  predicate FractionTail(s: string) {
    |s| == 0 || (|s| >= 2 && (s[0] == '.' || s[0] == ',') && AllDigits(s[1..]))
  }

  /** The `2006-01-02T` part: year, range-checked month, day (checked later), and what follows. */
  datatype DatePart = DatePart(year: nat, month: nat, day: nat, rest: string)

  /** The `15:04:05` part: range-checked hour, minute and second, and what follows. */
  datatype ClockPart = ClockPart(hour: nat, minute: nat, second: nat, rest: string)

  function ParseDate(s: string): (r: Option<DatePart>)
    ensures r.Some? ==> r.value.year <= 9999 && 1 <= r.value.month <= 12 && r.value.day < 100
  {
    var year :- FieldThen(s, 4, '-');
    var month :- FieldThen(year.rest, 2, '-');
    if !(1 <= month.value <= 12) then None else
    var day :- FieldThen(month.rest, 2, 'T');
    Some(DatePart(year.value, month.value, day.value, day.rest))
  }

  function ParseClock(s: string): (r: Option<ClockPart>)
    ensures r.Some? ==> r.value.hour < 24 && r.value.minute < 60 && r.value.second < 60
  {
    var hour :- OneOrTwoDigits(s);
    if !(hour.value < 24) then None else
    var afterHour :- Literal(hour.rest, ':');
    var minute :- FieldThen(afterHour, 2, ':');
    if !(minute.value < 60) then None else
    var second :- FixedDigits(minute.rest, 2);
    if !(second.value < 60) then None else
    Some(ClockPart(hour.value, minute.value, second.value, second.rest))
  }

  /** `time.Parse("2006-01-02T15:04:05", s)`; `None` for every input it rejects. */
  function Parse(s: string): (r: Option<DateTime>)
    ensures r.Some? ==> ValidDateTime(r.value)
  {
    var date :- ParseDate(s);
    var clock :- ParseClock(date.rest);
    if !FractionTail(clock.rest) then None
    else if !(1 <= date.day <= DaysIn(date.month, date.year)) then None
    else Some(DateTime(date.year, date.month, date.day, clock.hour, clock.minute, clock.second))
  }

  // ---------------------------------------------------------------------------
  // Renderings accepted by the parser

  /** `YYYY-MM-DDT` followed by `rest`. */
  function DateWith(year: nat, month: nat, day: nat, rest: string): string {
    Digits(year, 4) + ("-" + (Digits(month, 2) + ("-" + (Digits(day, 2) + ("T" + rest)))))
  }

  /** `H:MM:SS` or `HH:MM:SS` (hour in `hourWidth` digits) followed by `tail`. */
  function ClockWith(hour: nat, minute: nat, second: nat, hourWidth: nat, tail: string): string {
    Digits(hour, hourWidth) + (":" + (Digits(minute, 2) + (":" + (Digits(second, 2) + tail))))
  }

  /** The text of `t` in the layout, with the hour in `hourWidth` digits and `tail` after the seconds. */
  function FormatWith(t: DateTime, hourWidth: nat, tail: string): string {
    DateWith(t.year, t.month, t.day, ClockWith(t.hour, t.minute, t.second, hourWidth, tail))
  }

  /** The canonical `YYYY-MM-DDTHH:MM:SS` text of `t`. */
  function Format(t: DateTime): string {
    FormatWith(t, 2, "")
  }

  /** The renderings of `t` that the layout admits. */
  predicate AdmissibleRendering(t: DateTime, hourWidth: nat, tail: string) {
    && (hourWidth == 2 || (hourWidth == 1 && t.hour < 10))
    && FractionTail(tail)
  }

  // ---------------------------------------------------------------------------
  // Lemmas

  lemma {:induction false} DecimalValueOfDigits(n: nat, width: nat)
    requires n < Pow10(width)
    ensures DecimalValue(Digits(n, width)) == n
  {
    if width > 0 {
      var d := Digits(n / 10, width - 1);
      var s := Digits(n, width);
      assert s[..|s| - 1] == d;
      assert n / 10 < Pow10(width - 1);
      DecimalValueOfDigits(n / 10, width - 1);
    }
  }

  lemma {:induction false} DigitsOfDecimalValue(s: string)
    requires AllDigits(s)
    ensures Digits(DecimalValue(s), |s|) == s
  {
    if |s| > 0 {
      var front := s[..|s| - 1];
      var v := DecimalValue(s);
      assert v / 10 == DecimalValue(front);
      assert v % 10 == DigitValue(s[|s| - 1]);
      DigitsOfDecimalValue(front);
      assert s == front + [s[|s| - 1]];
    }
  }

  lemma ReadFixed(n: nat, width: nat, rest: string)
    requires n < Pow10(width)
    ensures FixedDigits(Digits(n, width) + rest, width) == Some(Scan(n, rest))
  {
    var s := Digits(n, width) + rest;
    assert s[..width] == Digits(n, width);
    assert s[width..] == rest;
    DecimalValueOfDigits(n, width);
  }

  lemma UnreadFixed(s: string, width: nat)
    requires FixedDigits(s, width).Some?
    ensures s == Digits(FixedDigits(s, width).value.value, width) + FixedDigits(s, width).value.rest
  {
    DigitsOfDecimalValue(s[..width]);
    assert s == s[..width] + s[width..];
  }

  lemma ReadFieldThen(n: nat, width: nat, c: char, rest: string)
    requires n < Pow10(width)
    ensures FieldThen(Digits(n, width) + ([c] + rest), width, c) == Some(Scan(n, rest))
  {
    ReadFixed(n, width, [c] + rest);
  }

  lemma UnreadFieldThen(s: string, width: nat, c: char)
    requires FieldThen(s, width, c).Some?
    ensures s == Digits(FieldThen(s, width, c).value.value, width) + ([c] + FieldThen(s, width, c).value.rest)
  {
    UnreadFixed(s, width);
  }

  lemma ReadDate(year: nat, month: nat, day: nat, rest: string)
    requires year <= 9999 && 1 <= month <= 12 && day < 100
    ensures ParseDate(DateWith(year, month, day, rest)) == Some(DatePart(year, month, day, rest))
  {
    var afterMonth := Digits(day, 2) + ("T" + rest);
    var afterYear := Digits(month, 2) + ("-" + afterMonth);
    ReadFieldThen(year, 4, '-', afterYear);
    ReadFieldThen(month, 2, '-', afterMonth);
    ReadFieldThen(day, 2, 'T', rest);
  }

  lemma UnreadDate(s: string)
    requires ParseDate(s).Some?
    ensures var p := ParseDate(s).value; s == DateWith(p.year, p.month, p.day, p.rest)
  {
    var year := FieldThen(s, 4, '-').value;
    UnreadFieldThen(s, 4, '-');
    var month := FieldThen(year.rest, 2, '-').value;
    UnreadFieldThen(year.rest, 2, '-');
    UnreadFieldThen(month.rest, 2, 'T');
  }

  lemma ReadClock(hour: nat, minute: nat, second: nat, hourWidth: nat, tail: string)
    requires hour < 24 && minute < 60 && second < 60
    requires hourWidth == 2 || (hourWidth == 1 && hour < 10)
    ensures ParseClock(ClockWith(hour, minute, second, hourWidth, tail))
      == Some(ClockPart(hour, minute, second, tail))
  {
    var afterMinute := Digits(second, 2) + tail;
    var afterHour := Digits(minute, 2) + (":" + afterMinute);
    if hourWidth == 2 {
      ReadFixed(hour, 2, ":" + afterHour);
    } else {
      assert Digits(hour, 1) == [DigitChar(hour)];
    }
    ReadFieldThen(minute, 2, ':', afterMinute);
    ReadFixed(second, 2, tail);
  }

  lemma UnreadClock(s: string) returns (hourWidth: nat)
    requires ParseClock(s).Some?
    ensures var p := ParseClock(s).value;
      && (hourWidth == 2 || (hourWidth == 1 && p.hour < 10))
      && s == ClockWith(p.hour, p.minute, p.second, hourWidth, p.rest)
  {
    var hour := OneOrTwoDigits(s).value;
    hourWidth := UnreadHour(s);
    var afterHour := Literal(hour.rest, ':').value;
    var minute := FieldThen(afterHour, 2, ':').value;
    UnreadFieldThen(afterHour, 2, ':');
    UnreadFixed(minute.rest, 2);
  }

  lemma UnreadHour(s: string) returns (hourWidth: nat)
    requires OneOrTwoDigits(s).Some?
    ensures var h := OneOrTwoDigits(s).value;
      && (hourWidth == 2 || (hourWidth == 1 && h.value < 10))
      && s == Digits(h.value, hourWidth) + h.rest
  {
    var hour := OneOrTwoDigits(s).value;
    if |s| >= 2 && IsDigit(s[1]) {
      hourWidth := 2;
      UnreadFixed(s, 2);
    } else {
      hourWidth := 1;
      assert Digits(hour.value, 1) == [s[0]];
    }
  }

  /** Every admissible rendering of a valid time parses back to that time. */
  lemma ParseFormatWith(t: DateTime, hourWidth: nat, tail: string)
    requires ValidDateTime(t)
    requires AdmissibleRendering(t, hourWidth, tail)
    ensures Parse(FormatWith(t, hourWidth, tail)) == Some(t)
  {
    var clock := ClockWith(t.hour, t.minute, t.second, hourWidth, tail);
    ReadDate(t.year, t.month, t.day, clock);
    ReadClock(t.hour, t.minute, t.second, hourWidth, tail);
  }

  /** The canonical text of a valid time parses back to it. */
  lemma ParseFormat(t: DateTime)
    requires ValidDateTime(t)
    ensures Parse(Format(t)) == Some(t)
  {
    ParseFormatWith(t, 2, "");
  }

  /** The parser accepts nothing but admissible renderings of valid times. */
  lemma ParseOnlyRenderings(s: string)
    requires Parse(s).Some?
    ensures exists hourWidth: nat, tail: string ::
      AdmissibleRendering(Parse(s).value, hourWidth, tail) && s == FormatWith(Parse(s).value, hourWidth, tail)
  {
    var t := Parse(s).value;
    var date := ParseDate(s).value;
    UnreadDate(s);
    var clock := ParseClock(date.rest).value;
    var hourWidth := UnreadClock(date.rest);
    assert AdmissibleRendering(t, hourWidth, clock.rest);
    assert s == FormatWith(t, hourWidth, clock.rest);
  }

  /** The tail of a rendering is what follows its first `17 + hourWidth` characters. */
  lemma FormatWithTail(t: DateTime, hourWidth: nat, tail: string)
    ensures |FormatWith(t, hourWidth, tail)| == 17 + hourWidth + |tail|
    ensures FormatWith(t, hourWidth, tail)[17 + hourWidth..] == tail
  {
  }

  /** Accepted text always ends in a digit, so no zone letter such as `Z` can follow the seconds. */
  lemma ParseEndsInDigit(s: string)
    requires Parse(s).Some?
    ensures |s| > 0 && IsDigit(s[|s| - 1])
  {
    var t := Parse(s).value;
    ParseOnlyRenderings(s);
    var hourWidth: nat, tail: string :|
      AdmissibleRendering(t, hourWidth, tail) && s == FormatWith(t, hourWidth, tail);
    FormatWithTail(t, hourWidth, tail);
    if |tail| == 0 {
      assert s[|s| - 1] == Digits(t.second, 2)[1];
    } else {
      assert s[|s| - 1] == tail[1..][|tail| - 2];
    }
  }

  /** The characters the clock part and a fraction tail are made of. */
  predicate ClockChar(c: char) {
    IsDigit(c) || c == ':' || c == '.' || c == ','
  }

  lemma ClockWithChars(hour: nat, minute: nat, second: nat, hourWidth: nat, tail: string)
    requires FractionTail(tail)
    ensures var c := ClockWith(hour, minute, second, hourWidth, tail);
      forall i :: 0 <= i < |c| ==> ClockChar(c[i])
  {
    var h, m, sec := Digits(hour, hourWidth), Digits(minute, 2), Digits(second, 2);
    var c := ClockWith(hour, minute, second, hourWidth, tail);
    assert c == h + [':'] + m + [':'] + sec + tail;
    forall i | 0 <= i < |c|
      ensures ClockChar(c[i])
    {
      if i < |h| {
        assert c[i] == h[i];
      } else if i == |h| || i == |h| + 3 {
      } else if i < |h| + 3 {
        assert c[i] == m[i - |h| - 1];
      } else if i < |h| + 6 {
        assert c[i] == sec[i - |h| - 4];
      } else if i > |h| + 6 {
        assert c[i] == tail[1..][i - |h| - 7];
      }
    }
  }

  /** The date part contributes digits, `-` at 4 and 7 and `T` at 10; the rest only clock characters. */
  lemma DateWithChars(year: nat, month: nat, day: nat, rest: string)
    requires forall i :: 0 <= i < |rest| ==> ClockChar(rest[i])
    ensures var s := DateWith(year, month, day, rest);
      forall i :: 0 <= i < |s| ==>
        && (IsDigit(s[i]) || s[i] in {'-', 'T', ':', '.', ','})
        && (s[i] == '-' ==> i == 4 || i == 7)
        && (s[i] == 'T' ==> i == 10)
  {
    var s := DateWith(year, month, day, rest);
    var y, mo, d := Digits(year, 4), Digits(month, 2), Digits(day, 2);
    assert s == y + ['-'] + mo + ['-'] + d + ['T'] + rest;
    forall i | 0 <= i < |s|
      ensures (IsDigit(s[i]) || s[i] in {'-', 'T', ':', '.', ','})
        && (s[i] == '-' ==> i == 4 || i == 7)
        && (s[i] == 'T' ==> i == 10)
    {
      if i < 4 {
        assert s[i] == y[i];
      } else if i == 4 || i == 7 || i == 10 {
      } else if i < 7 {
        assert s[i] == mo[i - 5];
      } else if i < 10 {
        assert s[i] == d[i - 8];
      } else {
        assert s[i] == rest[i - 11];
      }
    }
  }

  /**
   Accepted text consists of digits and the layout's separators only, and its
   `-` and `T` sit where the date puts them. So neither a zone letter such as
   `Z` nor a numeric offset such as `+02:00` or `-07:00` can follow the seconds.
   */
  lemma ParseNoZoneOrOffset(s: string)
    requires Parse(s).Some?
    ensures forall i :: 0 <= i < |s| ==> IsDigit(s[i]) || s[i] in {'-', 'T', ':', '.', ','}
    ensures forall i :: 0 <= i < |s| && s[i] == '-' ==> i == 4 || i == 7
    ensures forall i :: 0 <= i < |s| && s[i] == 'T' ==> i == 10
  {
    var t := Parse(s).value;
    ParseOnlyRenderings(s);
    var hourWidth: nat, tail: string :|
      AdmissibleRendering(t, hourWidth, tail) && s == FormatWith(t, hourWidth, tail);
    ClockWithChars(t.hour, t.minute, t.second, hourWidth, tail);
    DateWithChars(t.year, t.month, t.day, ClockWith(t.hour, t.minute, t.second, hourWidth, tail));
  }

  /** Distinct valid times have distinct canonical texts. */
  lemma FormatInjective(t1: DateTime, t2: DateTime)
    requires ValidDateTime(t1) && ValidDateTime(t2)
    requires Format(t1) == Format(t2)
    ensures t1 == t2
  {
    ParseFormat(t1);
    ParseFormat(t2);
  }

  /** For text of the canonical length, acceptance is exactly canonical rendering of a valid time. */
  lemma ParseCanonicalLength(s: string, t: DateTime)
    requires |s| == 19
    ensures Parse(s) == Some(t) <==> ValidDateTime(t) && s == Format(t)
  {
    if Parse(s) == Some(t) {
      ParseOnlyRenderings(s);
      var hourWidth: nat, tail: string :|
        AdmissibleRendering(t, hourWidth, tail) && s == FormatWith(t, hourWidth, tail);
      assert |s| == 17 + hourWidth + |tail|;
    }
    if ValidDateTime(t) && s == Format(t) {
      ParseFormat(t);
    }
  }
}
