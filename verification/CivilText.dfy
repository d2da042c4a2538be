/** The text of a log timestamp: fields padded with zeros to a fixed width, all but the
    year, which may be longer. */
module CivilText {
  import opened Wrappers
  import opened Decimals
  import opened Civil

  function Zeros(n: nat): (r: string)
    ensures |r| == n && AllDigits(r)
  {
    if n == 0 then "" else "0" + Zeros(n - 1)
  }

  /** `{n:0width}` */
  function Padded(n: nat, width: nat): (r: string)
    ensures AllDigits(r) && |r| >= width
  {
    var d := Decimal(n);
    if |d| < width then Zeros(width - |d|) + d else d
  }

  lemma YearsFromEpoch(ms: nat)
    ensures Timestamp(ms).0.year >= 1970
  {
    hide CivilFromDays;
    Anchor();
    if ms / 1000 / 86_400 > 0 {
      CivilIncreases(0, ms / 1000 / 86_400);
    }
  }

  function Field(sep: char, n: nat, width: nat, rest: string): string {
    [sep] + (Padded(n, width) + rest)
  }

  function ClockText(t: Clock): string
    requires t.hour >= 0 && t.minute >= 0 && t.second >= 0 && t.millis >= 0
  {
    Field('T', t.hour, 2, Field(':', t.minute, 2, Field(':', t.second, 2, Field('.', t.millis, 3, "Z"))))
  }

  /** Everything after the year. */
  function Tail(date: Date, t: Clock): string
    requires date.month >= 0 && date.day >= 0 && t.hour >= 0 && t.minute >= 0 && t.second >= 0 && t.millis >= 0
  {
    Field('-', date.month, 2, Field('-', date.day, 2, ClockText(t)))
  }

  /** `timestamp` */
  function Text(ms: nat): string {
    YearsFromEpoch(ms);
    TimestampExact(ms);
    var (date, t) := Timestamp(ms);
    Padded(date.year, 4) + Tail(date, t)
  }

  // ---- reading it back ----

  function ReadField(s: string, sep: char, width: nat): Option<(nat, string)> {
    if |s| > width && s[0] == sep && AllDigits(s[1..width + 1]) then
      Some((DigitsValue(s[1..width + 1]), s[width + 1..]))
    else None
  }

  function ReadClock(s: string): Option<Clock> {
    match ReadField(s, 'T', 2) case None => None case Some((hour, s1)) =>
    match ReadField(s1, ':', 2) case None => None case Some((minute, s2)) =>
    match ReadField(s2, ':', 2) case None => None case Some((second, s3)) =>
    match ReadField(s3, '.', 3) case None => None case Some((millis, s4)) =>
    if s4 == "Z" then Some(Clock(hour, minute, second, millis)) else None
  }

  function ReadTail(year: nat, s: string): Option<(Date, Clock)> {
    match ReadField(s, '-', 2) case None => None case Some((month, s1)) =>
    match ReadField(s1, '-', 2) case None => None case Some((day, s2)) =>
    match ReadClock(s2) case None => None case Some(clock) => Some((Date(year, month, day), clock))
  }

  /** The tail has twenty characters; what comes before is the year. */
  function ReadText(s: string): Option<(Date, Clock)> {
    if |s| < 20 || !AllDigits(s[..|s| - 20]) then None
    else ReadTail(DigitsValue(s[..|s| - 20]), s[|s| - 20..])
  }

  lemma {:induction false} LeadingZero(s: string)
    requires AllDigits(s)
    ensures AllDigits("0" + s) && DigitsValue("0" + s) == DigitsValue(s)
    decreases |s|
  {
    var z := "0" + s;
    if s != "" {
      LeadingZero(s[..|s| - 1]);
      assert z[..|z| - 1] == "0" + s[..|s| - 1] && z[|z| - 1] == s[|s| - 1];
    } else {
      assert z[..0] == "" && z[0] == '0';
    }
  }

  lemma {:induction false} LeadingZeros(k: nat, s: string)
    requires AllDigits(s)
    ensures AllDigits(Zeros(k) + s) && DigitsValue(Zeros(k) + s) == DigitsValue(s)
    decreases k
  {
    hide DigitsValue;
    if k == 0 {
      assert Zeros(0) + s == s;
    } else {
      LeadingZeros(k - 1, s);
      LeadingZero(Zeros(k - 1) + s);
      OneMoreZero(k, s);
    }
  }

  lemma OneMoreZero(k: nat, s: string)
    requires k > 0
    ensures Zeros(k) + s == "0" + (Zeros(k - 1) + s)
  {
  }

  lemma PaddedBack(n: nat, width: nat)
    ensures DigitsValue(Padded(n, width)) == n
  {
    DecimalBack(n);
    hide Decimal, Zeros;
    if |Decimal(n)| < width {
      LeadingZeros(width - |Decimal(n)|, Decimal(n));
    }
  }

  lemma PaddedWidth(n: nat, width: nat)
    requires (width == 2 && n < 100) || (width == 3 && n < 1000)
    ensures |Padded(n, width)| == width
  {
    assert n < 10 ==> |Decimal(n)| == 1;
    assert 10 <= n < 100 ==> |Decimal(n / 10)| == 1 && |Decimal(n)| == 2;
    if 100 <= n {
      assert |Decimal(n / 10 / 10)| == 1 && |Decimal(n / 10)| == 2 && |Decimal(n)| == 3;
    }
  }

  lemma FieldBack(sep: char, n: nat, width: nat, rest: string)
    requires (width == 2 && n < 100) || (width == 3 && n < 1000)
    ensures ReadField(Field(sep, n, width, rest), sep, width) == Some((n, rest))
    ensures |Field(sep, n, width, rest)| == 1 + width + |rest|
  {
    PaddedBack(n, width);
    PaddedWidth(n, width);
    hide Padded, AllDigits, DigitsValue;
    CutField(sep, Padded(n, width), rest);
  }

  lemma CutField(sep: char, p: string, rest: string)
    ensures var s := [sep] + (p + rest);
      |s| == 1 + |p| + |rest| && s[0] == sep && s[1..|p| + 1] == p && s[|p| + 1..] == rest
  {
  }

  lemma ClockBack(t: Clock)
    requires 0 <= t.hour < 100 && 0 <= t.minute < 100 && 0 <= t.second < 100 && 0 <= t.millis < 1000
    ensures ReadClock(ClockText(t)) == Some(t) && |ClockText(t)| == 14
  {
    var s3 := Field('.', t.millis, 3, "Z");
    var s2 := Field(':', t.second, 2, s3);
    var s1 := Field(':', t.minute, 2, s2);
    FieldBack('.', t.millis, 3, "Z");
    FieldBack(':', t.second, 2, s3);
    FieldBack(':', t.minute, 2, s2);
    FieldBack('T', t.hour, 2, s1);
    hide Field, ReadField;
  }

  lemma TailBack(date: Date, t: Clock)
    requires 0 <= date.month < 100 && 0 <= date.day < 100 && date.year >= 0
    requires 0 <= t.hour < 100 && 0 <= t.minute < 100 && 0 <= t.second < 100 && 0 <= t.millis < 1000
    ensures ReadTail(date.year, Tail(date, t)) == Some((date, t)) && |Tail(date, t)| == 20
  {
    var s1 := Field('-', date.day, 2, ClockText(t));
    ClockBack(t);
    FieldBack('-', date.day, 2, ClockText(t));
    FieldBack('-', date.month, 2, s1);
    hide Field, ReadField, ClockText, ReadClock;
  }

  lemma LastTwenty(y: string, tail: string)
    requires |tail| == 20
    ensures |y + tail| >= 20 && (y + tail)[..|y + tail| - 20] == y && (y + tail)[|y + tail| - 20..] == tail
  {
  }

  /** Every timestamp's text reads back to its date and time, and through them to the
      millisecond: two times have the same text only if they are the same. */
  lemma TextBack(ms: nat)
    ensures ReadText(Text(ms)) == Some(Timestamp(ms))
    ensures forall ms': nat :: Text(ms') == Text(ms) ==> ms' == ms
  {
    hide Timestamp, Text, ReadText;
    TextReads(ms);
    TimestampExact(ms);
    forall ms': nat | Text(ms') == Text(ms)
      ensures ms' == ms
    {
      TextReads(ms');
      TimestampExact(ms');
    }
  }

  lemma TextReads(ms: nat)
    ensures ReadText(Text(ms)) == Some(Timestamp(ms))
  {
    YearsFromEpoch(ms);
    TimestampExact(ms);
    var (date, t) := Timestamp(ms);
    PaddedBack(date.year, 4);
    InRange(date);
    hide Timestamp, ReadTail, Tail, Padded, AllDigits, DigitsValue, ValidDate;
    TailBack(date, t);
    LastTwenty(Padded(date.year, 4), Tail(date, t));
  }

  lemma InRange(date: Date)
    requires ValidDate(date)
    ensures 1 <= date.month <= 12 && 1 <= date.day <= 31
  {
  }
}
