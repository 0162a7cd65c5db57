/**
 * `format_time`: a seconds offset rendered as `HH:MM:SS` for the media
 * tool's command line. Hours are not wrapped at 24 and may take more than
 * two digits; every field is the truncated (not rounded) component.
 */
module TimeFormat {
  import opened Wrappers
  import opened Digits

  const SecondsPerHour: nat := 3600
  const SecondsPerMinute: nat := 60

  /** The three fields of a clock reading. */
  datatype Clock = Clock(hours: nat, minutes: nat, seconds: nat)

  /** A whole number of seconds split into hours, minutes and seconds. */
  function Split(t: nat): (c: Clock)
    ensures c.minutes < 60 && c.seconds < 60
    ensures c.hours * 3600 + c.minutes * 60 + c.seconds == t
  {
    Clock(t / SecondsPerHour, (t % SecondsPerHour) / SecondsPerMinute, t % SecondsPerMinute)
  }

  /** The split is the only reading with minutes and seconds below 60 that adds up to `t`. */
  lemma SplitUnique(t: nat, c: Clock)
    requires c.minutes < 60 && c.seconds < 60
    requires c.hours * 3600 + c.minutes * 60 + c.seconds == t
    ensures c == Split(t)
  {
    var d := Split(t);
    assert c.minutes * 60 + c.seconds < 3600 && d.minutes * 60 + d.seconds < 3600;
    assert c.hours == d.hours;
    assert c.minutes == d.minutes;
  }

  /** One field: the decimal text zero-padded to at least two characters (`{n:02}`). */
  function Field(n: nat): string
  {
    ZeroPad(Decimal(n), 2)
  }

  /**
   * A field is all digits, at least two wide, exactly two wide below 100, and
   * reads back as `n`; from 10 on it is the plain decimal text, so it never
   * carries a leading '0'.
   */
  lemma FieldShape(n: nat)
    ensures AllDigits(Field(n)) && Value(Field(n)) == n
    ensures |Field(n)| >= 2
    ensures |Field(n)| == 2 <==> n < 100
    ensures n >= 10 ==> Field(n) == Decimal(n) && Field(n)[0] != '0'
  {
    ValueOfDecimal(n);
    DecimalLength(n);
    ZeroPadValue(Decimal(n), 2);
  }

  /** `format_time` on a whole, non-negative number of seconds. */
  function FormatTime(t: nat): string
  {
    var c := Split(t);
    Field(c.hours) + ":" + Field(c.minutes) + ":" + Field(c.seconds)
  }

  /**
   * Reads `H...H:MM:SS` (at least two hour digits, two minute and two second
   * digits) back into seconds; anything else is `None`.
   */
  function ParseTime(s: string): Option<nat>
  {
    if |s| >= 8 && s[|s| - 6] == ':' && s[|s| - 3] == ':'
       && AllDigits(s[..|s| - 6]) && AllDigits(s[|s| - 5..|s| - 3]) && AllDigits(s[|s| - 2..])
    then
      Some(Value(s[..|s| - 6]) * 3600 + Value(s[|s| - 5..|s| - 3]) * 60
           + Value(s[|s| - 2..]))
    else
      None
  }

  /** Where the pieces of `hh:mm:ss` sit when `mm` and `ss` are two characters wide. */
  lemma Joined(hh: string, mm: string, ss: string)
    requires |mm| == 2 && |ss| == 2
    ensures var r := hh + ":" + mm + ":" + ss;
      && |r| == |hh| + 6
      && r[..|r| - 6] == hh
      && r[|r| - 6] == ':' && r[|r| - 3] == ':'
      && r[|r| - 5..|r| - 3] == mm
      && r[|r| - 2..] == ss
  {
    var r := hh + ":" + mm + ":" + ss;
    assert r[..|r| - 6] == hh;
    assert r[|r| - 5..|r| - 3] == mm;
    assert r[|r| - 2..] == ss;
  }

  /** The three fields of the formatted text, located by their separators. */
  lemma FormatTimeParts(t: nat)
    ensures var r, c := FormatTime(t), Split(t);
      && |r| == |Field(c.hours)| + 6
      && r[..|r| - 6] == Field(c.hours)
      && r[|r| - 6] == ':' && r[|r| - 3] == ':'
      && r[|r| - 5..|r| - 3] == Field(c.minutes)
      && r[|r| - 2..] == Field(c.seconds)
  {
    var c := Split(t);
    FieldShape(c.minutes);
    FieldShape(c.seconds);
    Joined(Field(c.hours), Field(c.minutes), Field(c.seconds));
  }

  /**
   * The layout: every field at least two digits, separators three and six
   * characters from the end, and exactly eight characters (separators at 2
   * and 5) precisely when the offset is under 100 hours; from 100 hours on
   * the hours are written without a leading '0'.
   */
  lemma FormatTimeShape(t: nat)
    ensures var r := FormatTime(t);
      && |r| >= 8
      && r[|r| - 6] == ':' && r[|r| - 3] == ':'
      && AllDigits(r[..|r| - 6]) && AllDigits(r[|r| - 5..|r| - 3]) && AllDigits(r[|r| - 2..])
      && (|r| == 8 <==> t < 100 * 3600)
      && (t < 100 * 3600 ==> r[2] == ':' && r[5] == ':')
      && (t >= 100 * 3600 ==> r[0] != '0')
  {
    var c := Split(t);
    FormatTimeParts(t);
    FieldShape(c.hours);
    FieldShape(c.minutes);
    FieldShape(c.seconds);
    assert c.hours < 100 <==> t < 100 * 3600;
    assert FormatTime(t)[0] == Field(c.hours)[0];
  }

  /** Reading the formatted text back gives the seconds that were formatted. */
  lemma ParseFormatTime(t: nat)
    ensures ParseTime(FormatTime(t)) == Some(t)
  {
    var c := Split(t);
    FormatTimeFields(t);
    ParseJoined(FormatTime(t), Field(c.hours), Field(c.minutes), Field(c.seconds), t);
  }

  /** The formatted text is three digit fields whose values recombine to `t`. */
  lemma FormatTimeFields(t: nat)
    ensures var c := Split(t);
      && FormatTime(t) == Field(c.hours) + ":" + Field(c.minutes) + ":" + Field(c.seconds)
      && AllDigits(Field(c.hours)) && AllDigits(Field(c.minutes)) && AllDigits(Field(c.seconds))
      && |Field(c.hours)| >= 2 && |Field(c.minutes)| == 2 && |Field(c.seconds)| == 2
      && Value(Field(c.hours)) * 3600 + Value(Field(c.minutes)) * 60 + Value(Field(c.seconds)) == t
  {
    var c := Split(t);
    FieldShape(c.hours);
    FieldShape(c.minutes);
    FieldShape(c.seconds);
  }

  /** Reading `hh:mm:ss` built from digit fields gives the seconds those fields denote. */
  lemma ParseJoined(r: string, hh: string, mm: string, ss: string, v: nat)
    requires AllDigits(hh) && AllDigits(mm) && AllDigits(ss)
    requires |hh| >= 2 && |mm| == 2 && |ss| == 2
    requires r == hh + ":" + mm + ":" + ss
    requires v == Value(hh) * 3600 + Value(mm) * 60 + Value(ss)
    ensures ParseTime(r) == Some(v)
  {
    Joined(hh, mm, ss);
    ParseFields(r, hh, mm, ss, v);
  }

  /** `ParseTime` reads the digit fields it finds around the two separators. */
  lemma ParseFields(r: string, hh: string, mm: string, ss: string, v: nat)
    requires AllDigits(hh) && AllDigits(mm) && AllDigits(ss)
    requires |r| >= 8 && r[..|r| - 6] == hh && r[|r| - 5..|r| - 3] == mm && r[|r| - 2..] == ss
    requires r[|r| - 6] == ':' && r[|r| - 3] == ':'
    requires v == Value(hh) * 3600 + Value(mm) * 60 + Value(ss)
    ensures ParseTime(r) == Some(v)
  {
  }

  /** Different whole offsets never format to the same text. */
  lemma FormatTimeInjective(t: nat, u: nat)
    requires FormatTime(t) == FormatTime(u)
    ensures t == u
  {
    ParseFormatTime(t);
    ParseFormatTime(u);
  }

  // Python's arithmetic on a float `seconds`, with exact reals for floats.

  /** `a // b` for a positive divisor: the floor of the quotient. */
  function FloorDiv(a: real, b: real): real
    requires b > 0.0
  {
    (a / b).Floor as real
  }

  /** `a % b` for a positive divisor: what remains after `a // b` whole `b`s. */
  function Mod(a: real, b: real): real
    requires b > 0.0
  {
    a - b * FloorDiv(a, b)
  }

  /** `int(a)`: truncation toward zero. */
  function Int(a: real): int
  {
    if a >= 0.0 then a.Floor else -((-a).Floor)
  }

  /** `q` is the floor of `a / b` when `a` lies between `q` and `q + 1` multiples of `b`. */
  lemma FloorOfQuotient(a: real, b: real, q: int)
    requires b > 0.0 && q as real * b <= a < (q + 1) as real * b
    ensures (a / b).Floor == q
  {
    var y := a / b;
    assert y * b == a;
    assert (y - q as real) * b >= 0.0;
    assert y >= q as real;
    assert ((q + 1) as real - y) * b > 0.0;
    assert y < (q + 1) as real;
  }

  /** Dividing a non-negative real by `d` and flooring is dividing its floor by `d`. */
  lemma FloorDivFloor(a: real, d: nat)
    requires a >= 0.0 && d > 0
    ensures FloorDiv(a, d as real) == (a.Floor / d) as real
    ensures Mod(a, d as real) >= 0.0 && Mod(a, d as real).Floor == a.Floor % d
  {
    var n, q, r := a.Floor, a.Floor / d, a.Floor % d;
    assert n == d * q + r && 0 <= r < d;
    assert (d * q) as real == (q as real) * (d as real);
    assert (d * q + d) as real == ((q + 1) as real) * (d as real);
    FloorOfQuotient(a, d as real, q);
  }

  /**
   * `format_time(seconds)` for a non-negative `seconds`, written with the
   * source's own operators: `int(seconds // 3600)`, `int((seconds % 3600) // 60)`
   * and `int(seconds % 60)`. It formats the truncated seconds.
   */
  function FormatSeconds(seconds: real): (r: string)
    requires seconds >= 0.0
    ensures r == FormatTime(seconds.Floor)
  {
    FloorDivFloor(seconds, SecondsPerHour);
    FloorDivFloor(seconds, SecondsPerMinute);
    FloorDivFloor(Mod(seconds, SecondsPerHour as real), SecondsPerMinute);
    var h := Int(FloorDiv(seconds, SecondsPerHour as real));
    var m := Int(FloorDiv(Mod(seconds, SecondsPerHour as real), SecondsPerMinute as real));
    var s := Int(Mod(seconds, SecondsPerMinute as real));
    Field(h) + ":" + Field(m) + ":" + Field(s)
  }

  /** Below 100 a field is exactly the two decimal digits of `n`, a leading '0' included. */
  lemma FieldTwoDigits(n: nat)
    requires n < 100
    ensures Field(n) == [DigitChar(n / 10), DigitChar(n % 10)]
  {
    var d := Decimal(n);
    if n < 10 {
      assert d == [DigitChar(n)];
      assert seq(1, _ => '0') == ['0'];
      assert ZeroPad(d, 2) == ['0'] + d;
      assert DigitChar(n / 10) == '0';
    } else {
      assert Decimal(n / 10) == [DigitChar(n / 10)];
      assert d == [DigitChar(n / 10), DigitChar(n % 10)];
      assert ZeroPad(d, 2) == d;
    }
  }

  /** Zero is `00:00:00`. */
  lemma FormatTimeZero()
    ensures FormatTime(0) == "00:00:00"
  {
  }

  /** An hour, a minute and a second: `01:01:01`. */
  lemma FormatTimeHourMinuteSecond()
    ensures FormatTime(3661) == "01:01:01"
  {
  }

  /** A full day is `24:00:00`: hours are not wrapped at 24. */
  lemma FormatTimeOneDay()
    ensures FormatTime(86400) == "24:00:00"
  {
  }

  /** A hundred hours is `100:00:00`: three hour digits, no leading '0'. */
  lemma FormatTimeHundredHours()
    ensures FormatTime(360000) == "100:00:00"
  {
    assert Decimal(100) == Decimal(10) + ['0'];
    FieldShape(100);
    FieldTwoDigits(0);
    assert FormatTime(360000) == Field(100) + ":" + Field(0) + ":" + Field(0);
  }

  /** Under a minute the text is `00:00:` followed by the two digits of the seconds. */
  lemma FormatTimeUnderMinute(t: nat)
    requires t < 60
    ensures FormatTime(t) == "00:00:" + [DigitChar(t / 10), DigitChar(t % 10)]
  {
    SplitUnique(t, Clock(0, 0, t));
    FieldTwoDigits(0);
    FieldTwoDigits(t);
    assert Field(0) == "00";
    var ss := Field(t);
    assert FormatTime(t) == "00" + ":" + "00" + ":" + ss;
  }

  /** 59.9 seconds is `00:00:59`: truncated, not rounded. */
  lemma FormatSecondsTruncates()
    ensures FormatSeconds(59.9) == "00:00:59"
  {
    assert FormatTime(59) == "00:00:59" by {
      FormatTimeUnderMinute(59);
      assert DigitChar(5) == '5' && DigitChar(9) == '9';
    }
    assert (59.9).Floor == 59;
  }
}
