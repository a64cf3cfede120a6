/** What reminder settings mean, in clock times, minutes and days of the week: the settings read from any
    value, and the days and the time of day the study times are searched by.
 */
module ReminderMeaning {
  import opened Basics
  import opened Decimals
  import opened Reminder

  // ---------- times of day ----------

  /** "HH:MM". */
  function Clock(hour: nat, minute: nat): string { PadTwo(Decimal(hour)) + ":" + PadTwo(Decimal(minute)) }

  lemma TwoDigits(n: nat)
    requires n < 100
    ensures PadTwo(Decimal(n)) == [Digit(n / 10), Digit(n % 10)]
  {
    if n < 10 { assert "0" == [Digit(0)]; }
  }

  lemma DigitIs(d: nat)
    requires d < 10
    ensures DigitValue(Digit(d)) == d && IsDigit(Digit(d)) && Digit(d) as int == '0' as int + d
  {
  }

  lemma HourDigits(h: nat)
    requires h < 24
    ensures (Digit(h / 10) in {'0', '1'} && IsDigit(Digit(h % 10))) || (Digit(h / 10) == '2' && '0' <= Digit(h % 10) <= '3')
  {
    DigitIs(h / 10);
    DigitIs(h % 10);
  }

  /** HH:MM is HH hours and MM minutes after midnight. */
  lemma TimeIsAfterMidnight(hour: nat, minute: nat)
    requires hour < 24 && minute < 60
    ensures IsTime(Clock(hour, minute)) && TimeOfDay(Clock(hour, minute)) == (60 * hour + minute) * 60_000
  {
    TwoDigits(hour);
    TwoDigits(minute);
    DigitIs(hour / 10);
    DigitIs(hour % 10);
    DigitIs(minute / 10);
    DigitIs(minute % 10);
    HourDigits(hour);
    var text := Clock(hour, minute);
    assert text == [Digit(hour / 10), Digit(hour % 10), ':', Digit(minute / 10), Digit(minute % 10)];
    assert 10 * (hour / 10) + hour % 10 == hour && 10 * (minute / 10) + minute % 10 == minute;
  }

  lemma DigitOf(c: char)
    requires IsDigit(c)
    ensures 0 <= DigitValue(c) < 10 && Digit(DigitValue(c)) == c
  {
  }

  lemma PairOf(a: char, b: char)
    requires IsDigit(a) && IsDigit(b)
    ensures 0 <= 10 * DigitValue(a) + DigitValue(b) < 100 && PadTwo(Decimal(10 * DigitValue(a) + DigitValue(b))) == [a, b]
  {
    DigitOf(a);
    DigitOf(b);
    var n := 10 * DigitValue(a) + DigitValue(b);
    TwoDigits(n);
    assert n / 10 == DigitValue(a) && n % 10 == DigitValue(b);
  }

  /** And these are all the texts taken for times. */
  lemma TimesAreClocks(s: string) returns (hour: nat, minute: nat)
    requires IsTime(s)
    ensures hour < 24 && minute < 60 && s == Clock(hour, minute)
  {
    PairOf(s[0], s[1]);
    PairOf(s[3], s[4]);
    hour, minute := 10 * DigitValue(s[0]) + DigitValue(s[1]), 10 * DigitValue(s[3]) + DigitValue(s[4]);
    assert s == [s[0], s[1]] + ":" + [s[3], s[4]];
  }

  // ---------- settings ----------

  /** The time asked for where it is one, and 19:00 otherwise. */
  lemma TimeIsKept(value: Raw, hour: nat, minute: nat)
    requires hour < 24 && minute < 60
    ensures value.time == Some(Clock(hour, minute)) ==> Normalize(value).time == Clock(hour, minute)
    ensures (forall h: nat, m: nat :: h < 24 && m < 60 ==> value.time != Some(Clock(h, m))) ==> Normalize(value).time == "19:00"
  {
    TimeIsAfterMidnight(hour, minute);
    if value.time.Some? && IsTime(value.time.value) { var h, m := TimesAreClocks(value.time.value); }
  }

  lemma NearestWithin(value: real, fallback: int, minimum: int, maximum: int)
    requires minimum <= maximum
    ensures var n := BoundedInteger(Some(value), fallback, minimum, maximum);
            && minimum <= n <= maximum
            && (value < minimum as real - 0.5 ==> n == minimum) && (value >= maximum as real + 0.5 ==> n == maximum)
            && (minimum as real - 0.5 <= value < maximum as real + 0.5 ==> n as real - 0.5 <= value < n as real + 0.5)
  {
  }

  /** The nearest whole number of minutes from 5 to 180 for the duration and from 0 to 1440 for the alarm, a half
      being rounded up; 20 and 10 where there is no number. */
  lemma MinutesAreNearest(value: Raw)
    ensures value.durationMinutes.None? ==> Normalize(value).durationMinutes == 20
    ensures value.reminderMinutes.None? ==> Normalize(value).reminderMinutes == 10
    ensures value.durationMinutes.Some? ==>
              var r, n := value.durationMinutes.value, Normalize(value).durationMinutes;
              5 <= n <= 180 && (r < 4.5 ==> n == 5) && (r >= 180.5 ==> n == 180)
              && (4.5 <= r < 180.5 ==> n as real - 0.5 <= r < n as real + 0.5)
    ensures value.reminderMinutes.Some? ==>
              var r, n := value.reminderMinutes.value, Normalize(value).reminderMinutes;
              0 <= n <= 1440 && (r < -0.5 ==> n == 0) && (r >= 1440.5 ==> n == 1440)
              && (-0.5 <= r < 1440.5 ==> n as real - 0.5 <= r < n as real + 0.5)
  {
    if value.durationMinutes.Some? { NearestWithin(value.durationMinutes.value, 20, 5, 180); }
    if value.reminderMinutes.Some? { NearestWithin(value.reminderMinutes.value, 10, 0, 1440); }
  }

  // ---------- days ----------

  /** The two-letter name of a day in a recurrence rule, section 3.3.10 of RFC 5545. */
  predicate Names(text: string, day: Weekday) {
    match day
    case MO => text == "MO" case TU => text == "TU" case WE => text == "WE" case TH => text == "TH"
    case FR => text == "FR" case SA => text == "SA" case SU => text == "SU"
  }

  /** The settings name the day; a value without a list of days names them all. */
  ghost predicate Chosen(value: Raw, day: Weekday) {
    value.weekdays.None?
    || exists i :: 0 <= i < |value.weekdays.value| && value.weekdays.value[i].Some? && Names(value.weekdays.value[i].value, day)
  }

  lemma NameIsCode(text: string, day: Weekday)
    ensures FromCode(text) == Some(day) <==> Names(text, day)
  {
  }

  lemma {:induction false} RecognisedIff(values: seq<Option<string>>, day: Weekday)
    ensures day in Recognised(values) <==> exists i :: 0 <= i < |values| && values[i].Some? && Names(values[i].value, day)
  {
    if values != [] {
      RecognisedIff(values[1..], day);
      if values[0].Some? { NameIsCode(values[0].value, day); }
      if exists i :: 0 <= i < |values| && values[i].Some? && Names(values[i].value, day) {
        var i :| 0 <= i < |values| && values[i].Some? && Names(values[i].value, day);
        assert i > 0 ==> values[1..][i - 1] == values[i];
      }
    }
  }

  lemma EveryDayIsListed(day: Weekday)
    ensures day in CALENDAR_WEEKDAYS && (day in WORKDAYS <==> day != SA && day != SU)
  {
    assert CALENDAR_WEEKDAYS[0] == MO && CALENDAR_WEEKDAYS[1] == TU && CALENDAR_WEEKDAYS[2] == WE && CALENDAR_WEEKDAYS[3] == TH;
    assert CALENDAR_WEEKDAYS[4] == FR && CALENDAR_WEEKDAYS[5] == SA && CALENDAR_WEEKDAYS[6] == SU;
    assert WORKDAYS[0] == MO && WORKDAYS[1] == TU && WORKDAYS[2] == WE && WORKDAYS[3] == TH && WORKDAYS[4] == FR;
  }

  lemma NormalizedIffChosen(value: Raw, day: Weekday)
    ensures day in NormalizeWeekdays(value.weekdays) <==> Chosen(value, day)
  {
    EveryDayIsListed(day);
    if value.weekdays.Some? {
      SelectionIsASet(value.weekdays.value);
      RecognisedIff(value.weekdays.value, day);
    }
  }

  /** The days studied on: Monday to Friday for "weekdays"; the days chosen for "custom", or Monday to Friday if
      none is; every day for anything else. */
  lemma StudyDays(value: Raw, day: Weekday)
    ensures var studied := day in EffectiveWeekdays(Normalize(value));
            && (value.recurrence == Some("weekdays") ==> (studied <==> day != SA && day != SU))
            && (value.recurrence == Some("custom") && (exists d :: Chosen(value, d)) ==> (studied <==> Chosen(value, day)))
            && (value.recurrence == Some("custom") && !(exists d :: Chosen(value, d)) ==> (studied <==> day != SA && day != SU))
            && (value.recurrence != Some("weekdays") && value.recurrence != Some("custom") ==> studied)
  {
    EveryDayIsListed(day);
    var days := NormalizeWeekdays(value.weekdays);
    forall d ensures d in days <==> Chosen(value, d) { NormalizedIffChosen(value, d); }
    if days != [] { assert Chosen(value, days[0]); }
  }

  /** From Monday to Sunday. */
  function Rank(day: Weekday): nat {
    match day case MO => 0 case TU => 1 case WE => 2 case TH => 3 case FR => 4 case SA => 5 case SU => 6
  }

  ghost predicate InOrder(days: seq<Weekday>) { forall i, j :: 0 <= i < j < |days| ==> Rank(days[i]) < Rank(days[j]) }

  lemma {:induction false} KeepInOrder(days: seq<Weekday>, selected: seq<Weekday>)
    requires InOrder(days)
    ensures InOrder(Keep(days, selected))
  {
    if days != [] {
      var rest := Keep(days[1..], selected);
      KeepInOrder(days[1..], selected);
      forall i | 0 <= i < |rest| ensures Rank(days[0]) < Rank(rest[i]) {
        assert rest[i] in days[1..];
        var k :| 0 <= k < |days[1..]| && days[1..][k] == rest[i];
        assert days[k + 1] == rest[i];
      }
    }
  }

  /** Each day once, Monday first. */
  lemma StudyDaysInOrder(value: Raw)
    ensures InOrder(EffectiveWeekdays(Normalize(value)))
  {
    assert InOrder(CALENDAR_WEEKDAYS) && InOrder(WORKDAYS);
    if value.weekdays.Some? { KeepInOrder(CALENDAR_WEEKDAYS, WithoutRepeats(Recognised(value.weekdays.value))); }
  }

  /** The rule a calendar reads: daily, or weekly with the days written by their two-letter names. */
  lemma RuleIsWritten(value: Raw)
    ensures value.recurrence != Some("weekdays") && value.recurrence != Some("custom") ==> RecurrenceRule(value) == "FREQ=DAILY"
    ensures value.recurrence == Some("weekdays") || value.recurrence == Some("custom") ==>
              RecurrenceRule(value) == "FREQ=WEEKLY;WKST=MO;BYDAY=" + JoinCodes(EffectiveWeekdays(Normalize(value)))
    ensures forall day: Weekday :: Names(day.Code(), day)
  {
  }

  // ---------- weekdays of days ----------

  function Following(day: Weekday): Weekday {
    match day case MO => TU case TU => WE case WE => TH case TH => FR case FR => SA case SA => SU case SU => MO
  }

  /** 1 January 1970 was a Thursday, and every day of the week is followed by the next. */
  lemma WeekdaysFollow(day: int)
    ensures WeekdayOf(0) == TH && WeekdayOf(day + 1) == Following(WeekdayOf(day))
  {
  }
}
