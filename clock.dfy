/** Wall-clock time as the application reads it from `new Date()`. A moment is one
    natural number: milliseconds on the local clock (UTC milliseconds plus the zone's
    offset, taken to be constant). The hour, minute and calendar day of the local
    clock are derived from it; the day number stands for `toDateString()`. */
module Clock {
  import opened Text

  const MsPerMinute: nat := 60000
  const MsPerDay: nat := 86400000
  const MinutesPerDay: nat := 1440

  /** The local calendar day. */
  function Day(now: nat): nat {
    now / MsPerDay
  }

  /** getHours() * 60 + getMinutes(). */
  function MinuteOfDay(now: nat): (m: nat)
    ensures m < MinutesPerDay
  {
    (now % MsPerDay) / MsPerMinute
  }

  function Hours(now: nat): (h: nat)
    ensures h < 24
  {
    MinuteOfDay(now) / 60
  }

  function Minutes(now: nat): (m: nat)
    ensures m < 60
  {
    MinuteOfDay(now) % 60
  }

  /** The "HH:MM" string the periodic alarm scan compares schedules against: both parts
      rendered and zero-padded to two digits. */
  function HHMM(now: nat): string {
    TwoDigits(Hours(now)) + ":" + TwoDigits(Minutes(now))
  }

  /** The token that `toDateString()` contributes to a dedup key. */
  function DateToken(now: nat): string {
    NatToString(Day(now))
  }

  /** A well-formed stored time: "HH:MM", 00-23 and 00-59. */
  predicate IsClockTime(t: string) {
    |t| == 5 && AllDigits(t[..2]) && t[2] == ':' && AllDigits(t[3..]) &&
    DigitsValue(t[..2]) < 24 && DigitsValue(t[3..]) < 60
  }

  /** Minutes after midnight that a well-formed time stands for. */
  function ClockMinutes(t: string): (m: nat)
    requires IsClockTime(t)
    ensures m < MinutesPerDay
  {
    DigitsValue(t[..2]) * 60 + DigitsValue(t[3..])
  }

  /** The periodic scan's "HH:MM" is well formed and stands for the minute of the day. */
  lemma HHMMShape(now: nat)
    ensures IsClockTime(HHMM(now)) && ClockMinutes(HHMM(now)) == MinuteOfDay(now)
  {
    var t := HHMM(now);
    TwoDigitsShape(Hours(now));
    TwoDigitsShape(Minutes(now));
    assert t[..2] == TwoDigits(Hours(now));
    assert t[3..] == TwoDigits(Minutes(now));
  }

  /** Two moments give the same "HH:MM" exactly when they fall in the same minute of
      the day. */
  lemma HHMMSameIffSameMinute(a: nat, b: nat)
    ensures HHMM(a) == HHMM(b) <==> MinuteOfDay(a) == MinuteOfDay(b)
  {
    HHMMShape(a);
    HHMMShape(b);
  }

  /** Two moments give the same date token exactly when they fall on the same day. */
  lemma DateTokenSameIffSameDay(a: nat, b: nat)
    ensures DateToken(a) == DateToken(b) <==> Day(a) == Day(b)
  {
    if DateToken(a) == DateToken(b) {
      NatToStringInjective(Day(a), Day(b));
    }
  }

  /** At least a minute later on the same day is a later minute of the day. */
  lemma LaterMinuteSameDay(a: nat, b: nat)
    requires a + MsPerMinute <= b && Day(a) == Day(b)
    ensures MinuteOfDay(a) < MinuteOfDay(b)
  {
    var d := Day(a);
    assert a % MsPerDay == a - d * MsPerDay;
    assert b % MsPerDay == b - d * MsPerDay;
  }

  /** A well-formed time splits at ':' into its hour and minute digits. */
  lemma SplitClockTime(t: string)
    requires IsClockTime(t)
    ensures Split(t, ':') == [t[..2], t[3..]]
  {
    assert t == t[..2] + [':'] + t[3..];
    assert ':' !in t[..2] && ':' !in t[3..];
    SplitConcat(t[..2], ':', t[3..]);
    SplitNoSep(t[3..], ':');
  }

  /** Two well-formed times with the same hour value and minute digits are equal. */
  lemma ClockTimeDigits(t: string, u: string)
    requires IsClockTime(t) && IsClockTime(u)
    requires DigitsValue(t[..2]) == DigitsValue(u[..2]) && t[3..] == u[3..]
    ensures t == u
  {
    TwoDigitsOfValue(t[..2]);
    TwoDigitsOfValue(u[..2]);
    assert t == t[..2] + [':'] + t[3..] && u == u[..2] + [':'] + u[3..];
  }
}
