/** Translation-history records as the annual report reads them, and the
    night-rollover "time of day" by which the report ranks them. */
module History {

  type Hour = h: int | 0 <= h < 24
  type Minute = m: int | 0 <= m < 60
  type Second = s: int | 0 <= s < 60

  /** One completed translation. The clock fields are the local wall-clock
      decomposition of `time` (hour of day, minute, second), taken as given. */
  datatype HistoryRecord = HistoryRecord(
    time: int,
    hour: Hour,
    minute: Minute,
    second: Second,
    sourceLanguageId: int,
    targetLanguageId: int,
    sourceLength: nat,
    engineNames: seq<string>)

  /** Hours up to and including this one count as the end of the previous evening. */
  const LastNightHour: int := 5

  /** The smallest and largest time-of-day values: 06:00:00, and 05:59:59 read as 29:59:59. */
  const FirstSecond: int := 6 * 3600
  const LastSecond: int := 29 * 3600 + 59 * 60 + 59

  /** The hour with the night rollover applied: 00..05 become 24..29. */
  function RolledHour(h: Hour): (r: int)
    ensures LastNightHour < r <= LastNightHour + 24
    ensures r % 24 == h
  {
    if h <= LastNightHour then h + 24 else h
  }

  /** Seconds since midnight of the logical day, where the logical day runs
      from 06:00:00 to 05:59:59 of the next calendar day. */
  function SecondsOfDay(h: Hour, m: Minute, s: Second): (t: int)
    ensures FirstSecond <= t <= LastSecond
  {
    RolledHour(h) * 3600 + m * 60 + s
  }

  function TimeOfDay(r: HistoryRecord): (t: int)
    ensures FirstSecond <= t <= LastSecond
  {
    SecondsOfDay(r.hour, r.minute, r.second)
  }

  /** Anything between midnight and 05:59:59 ranks later than anything from
      06:00:00 to 23:59:59. */
  lemma NightRanksAfterDay(h1: Hour, m1: Minute, s1: Second, h2: Hour, m2: Minute, s2: Second)
    requires h1 <= LastNightHour < h2
    ensures SecondsOfDay(h1, m1, s1) > SecondsOfDay(h2, m2, s2)
  {
  }

  /** Comparing time-of-day values is comparing (rolled hour, minute, second)
      lexicographically. */
  lemma SecondsOfDayOrder(h1: Hour, m1: Minute, s1: Second, h2: Hour, m2: Minute, s2: Second)
    ensures SecondsOfDay(h1, m1, s1) < SecondsOfDay(h2, m2, s2) <==>
      || RolledHour(h1) < RolledHour(h2)
      || (RolledHour(h1) == RolledHour(h2) && m1 < m2)
      || (RolledHour(h1) == RolledHour(h2) && m1 == m2 && s1 < s2)
  {
  }

  /** The clock reading a time-of-day value stands for: the inverse of `SecondsOfDay`. */
  function ClockAt(t: int): (c: (Hour, Minute, Second))
    requires FirstSecond <= t <= LastSecond
    ensures SecondsOfDay(c.0, c.1, c.2) == t
  {
    var h := t / 3600;
    (if h >= 24 then h - 24 else h, (t % 3600) / 60, t % 60)
  }

  /** Distinct clock readings have distinct time-of-day values, so the
      ranking by `SecondsOfDay` is a strict total order on clock readings. */
  lemma SecondsOfDayInjective(h1: Hour, m1: Minute, s1: Second, h2: Hour, m2: Minute, s2: Second)
    requires SecondsOfDay(h1, m1, s1) == SecondsOfDay(h2, m2, s2)
    ensures h1 == h2 && m1 == m2 && s1 == s2
  {
    SecondsOfDayOrder(h1, m1, s1, h2, m2, s2);
    SecondsOfDayOrder(h2, m2, s2, h1, m1, s1);
  }

  /** Reading the clock back from a time-of-day value gives the clock it came from. */
  lemma ClockAtSecondsOfDay(h: Hour, m: Minute, s: Second)
    ensures ClockAt(SecondsOfDay(h, m, s)) == (h, m, s)
  {
    var c := ClockAt(SecondsOfDay(h, m, s));
    SecondsOfDayInjective(c.0, c.1, c.2, h, m, s);
  }
}
