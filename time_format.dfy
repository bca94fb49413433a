/** The `SimpleDateFormat` patterns a trip start time is written with: "hh:mm:ss" (hour of
    the half day, 01 to 12) and "HH:mm:ss" (hour of the day, 00 to 23). */
module TimeFormat {
  import opened Schedule

  function Digit(d: int): (c: char)
    requires 0 <= d < 10
    ensures '0' <= c <= '9' && c as int - '0' as int == d
  {
    ('0' as int + d) as char
  }

  /** Hours, minutes and seconds as "hh:mm:ss", each field as two decimal digits. */
  function Clock(hour: int, minute: int, second: int): (r: string)
    requires 0 <= hour < 100 && 0 <= minute < 100 && 0 <= second < 100
    ensures |r| == 8
  {
    [Digit(hour / 10), Digit(hour % 10), ':', Digit(minute / 10), Digit(minute % 10), ':', Digit(second / 10), Digit(second % 10)]
  }

  lemma ClockInjective(h: int, m: int, s: int, h': int, m': int, s': int)
    requires 0 <= h < 100 && 0 <= m < 100 && 0 <= s < 100
    requires 0 <= h' < 100 && 0 <= m' < 100 && 0 <= s' < 100
    requires Clock(h, m, s) == Clock(h', m', s')
    ensures h == h' && m == m' && s == s'
  {
    var c, c' := Clock(h, m, s), Clock(h', m', s');
    assert c[0] == c'[0] && c[1] == c'[1] && c[3] == c'[3] && c[4] == c'[4] && c[6] == c'[6] && c[7] == c'[7];
  }

  /** A second of the day from its hour, minute and second fields. */
  lemma FieldsDetermineSecond(a: SecondOfDay, b: SecondOfDay)
    requires a / 3600 == b / 3600 && a / 60 % 60 == b / 60 % 60 && a % 60 == b % 60
    ensures a == b
  {
    var qa, qb := a / 60, b / 60;
    assert qa / 60 == a / 3600 && qb / 60 == b / 3600;
    assert qa == qb;
  }

  /** "HH:mm:ss": the hour of the day, 00 to 23. */
  function FormatClock24(s: SecondOfDay): string {
    Clock(s / 3600, s / 60 % 60, s % 60)
  }

  /** "hh:mm:ss": the hour of the half day, 12 for noon and midnight. */
  function FormatClock12(s: SecondOfDay): string {
    var h := s / 3600 % 12;
    Clock(if h == 0 then 12 else h, s / 60 % 60, s % 60)
  }

  /** Two distinct times of day have distinct 24-hour renderings: a start time written this
      way tells apart the trips of a block that start at different times. */
  lemma FormatClock24Injective(a: SecondOfDay, b: SecondOfDay)
    requires FormatClock24(a) == FormatClock24(b)
    ensures a == b
  {
    ClockInjective(a / 3600, a / 60 % 60, a % 60, b / 3600, b / 60 % 60, b % 60);
    FieldsDetermineSecond(a, b);
  }

  /** Before noon (from 01:00) both patterns write the same text. */
  lemma ClocksAgreeInTheMorning(s: SecondOfDay)
    requires 3600 <= s < 43200
    ensures FormatClock12(s) == FormatClock24(s)
  {
    assert 1 <= s / 3600 < 12;
  }

  /** Twelve hours later, the hour of the half day, the minute and the second are unchanged. */
  lemma HalfDayLaterFields(t: int)
    requires 0 <= t < 43200
    ensures (t + 43200) / 3600 % 12 == t / 3600 % 12
    ensures (t + 43200) / 60 % 60 == t / 60 % 60
    ensures (t + 43200) % 60 == t % 60
  {
    assert (t + 43200) / 3600 == t / 3600 + 12;
    assert (t + 43200) / 60 == t / 60 + 720;
  }

  /** The 12-hour pattern writes an afternoon time exactly as the morning time twelve hours
      earlier. */
  lemma TwelveHourClockFoldsAfternoon(s: SecondOfDay)
    requires 43200 <= s
    ensures FormatClock12(s) == FormatClock12(s - 43200)
  {
    HalfDayLaterFields(s - 43200);
  }

  /** From 13:00 on the two patterns write different text. */
  lemma TwelveHourClockMisreadsAfternoon(s: SecondOfDay)
    requires 46800 <= s
    ensures FormatClock12(s) != FormatClock24(s)
  {
    var h := s / 3600 % 12;
    assert 13 <= s / 3600 < 24;
    assert h == s / 3600 - 12;
    if FormatClock12(s) == FormatClock24(s) {
      ClockInjective(h, s / 60 % 60, s % 60, s / 3600, s / 60 % 60, s % 60);
    }
  }

  /** 13:00:00 and 01:00:00 are both written "01:00:00". */
  lemma TwelveHourClockCollides()
    ensures FormatClock12(13 * 3600) == FormatClock12(3600) == "01:00:00"
    ensures FormatClock24(13 * 3600) == "13:00:00"
  {
    assert FormatClock12(13 * 3600) == Clock(1, 0, 0);
    assert FormatClock12(3600) == Clock(1, 0, 0);
    assert FormatClock24(13 * 3600) == Clock(13, 0, 0);
    assert Clock(1, 0, 0) == ['0', '1', ':', '0', '0', ':', '0', '0'];
    assert Clock(13, 0, 0) == ['1', '3', ':', '0', '0', ':', '0', '0'];
  }
}
