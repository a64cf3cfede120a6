/** Reminder settings read from untrusted values, the next study time they ask for, and the
    recurrence rule written for them.
 */
module Reminder {
  import opened Basics
  import opened Decimals

  // ---------- weekdays ----------

  datatype Weekday = MO | TU | WE | TH | FR | SA | SU {
    function Code(): (code: string)
      ensures |code| == 2
    {
      match this
      case MO => "MO" case TU => "TU" case WE => "WE" case TH => "TH" case FR => "FR" case SA => "SA" case SU => "SU"
    }

    /** The number a date reports for this weekday, Sunday being 0. */
    function Day(): nat {
      match this
      case MO => 1 case TU => 2 case WE => 3 case TH => 4 case FR => 5 case SA => 6 case SU => 0
    }
  }

  const CALENDAR_WEEKDAYS: seq<Weekday> := [MO, TU, WE, TH, FR, SA, SU]
  const WORKDAYS: seq<Weekday> := [MO, TU, WE, TH, FR]

  function FromCode(code: string): Option<Weekday> {
    if code == "MO" then Some(MO) else if code == "TU" then Some(TU) else if code == "WE" then Some(WE)
    else if code == "TH" then Some(TH) else if code == "FR" then Some(FR) else if code == "SA" then Some(SA)
    else if code == "SU" then Some(SU) else None
  }

  lemma CodeRoundTrip(day: Weekday)
    ensures FromCode(day.Code()) == Some(day)
  {
  }

  // ---------- settings ----------

  datatype Recurrence = Daily | Weekdays | Custom

  datatype Settings = Settings(
    time: string, durationMinutes: int, reminderMinutes: int, recurrence: Recurrence, weekdays: seq<Weekday>)

  /** A value of unknown shape, field by field: `None` where the field is not of the expected kind
      (for numbers: does not convert to a finite number). */
  datatype Raw = Raw(
    time: Option<string>, durationMinutes: Option<real>, reminderMinutes: Option<real>,
    recurrence: Option<string>, weekdays: Option<seq<Option<string>>>)

  const DEFAULT_TIME := "19:00"

  function BoundedInteger(value: Option<real>, fallback: int, minimum: int, maximum: int): int {
    match value
    case None => fallback
    case Some(r) =>
      var rounded := (r + 0.5).Floor;
      if rounded < minimum then minimum else if rounded > maximum then maximum else rounded
  }

  /** HH:MM on a 24-hour clock. */
  predicate IsTime(s: string) {
    && |s| == 5 && s[2] == ':' && '0' <= s[3] <= '5' && IsDigit(s[4])
    && ((s[0] in {'0', '1'} && IsDigit(s[1])) || (s[0] == '2' && '0' <= s[1] <= '3'))
  }

  function NormalizeTime(value: Option<string>): string {
    if value.Some? && IsTime(value.value) then value.value else DEFAULT_TIME
  }

  function NormalizeRecurrence(value: Option<string>): Recurrence {
    if value == Some("weekdays") then Weekdays else if value == Some("custom") then Custom else Daily
  }

  /** The recognised codes in the order given. */
  function Recognised(values: seq<Option<string>>): seq<Weekday> {
    if values == [] then []
    else
      var rest := Recognised(values[1..]);
      if values[0].Some? && FromCode(values[0].value).Some? then [FromCode(values[0].value).value] + rest else rest
  }

  /** Keeps the first occurrence of every weekday. */
  function WithoutRepeats(days: seq<Weekday>): seq<Weekday> {
    if days == [] then []
    else
      var before := WithoutRepeats(days[..|days| - 1]);
      if days[|days| - 1] in before then before else before + [days[|days| - 1]]
  }

  function Keep(days: seq<Weekday>, selected: seq<Weekday>): (kept: seq<Weekday>)
    ensures forall d :: d in kept <==> d in days && d in selected
  {
    if days == [] then []
    else if days[0] in selected then [days[0]] + Keep(days[1..], selected) else Keep(days[1..], selected)
  }

  function NormalizeWeekdays(value: Option<seq<Option<string>>>): seq<Weekday> {
    match value
    case None => CALENDAR_WEEKDAYS
    case Some(values) => Keep(CALENDAR_WEEKDAYS, WithoutRepeats(Recognised(values)))
  }

  function Normalize(value: Raw): Settings {
    var recurrence := NormalizeRecurrence(value.recurrence);
    var normalizedWeekdays := NormalizeWeekdays(value.weekdays);
    Settings(NormalizeTime(value.time), BoundedInteger(value.durationMinutes, 20, 5, 180),
             BoundedInteger(value.reminderMinutes, 10, 0, 1440), recurrence,
             if recurrence == Custom && normalizedWeekdays == [] then WORKDAYS else normalizedWeekdays)
  }

  function EffectiveWeekdays(settings: Settings): seq<Weekday> {
    match settings.recurrence
    case Daily => CALENDAR_WEEKDAYS
    case Weekdays => WORKDAYS
    case Custom => if settings.weekdays != [] then settings.weekdays else WORKDAYS
  }

  // ---------- what normalisation guarantees ----------

  /** Settings as the untyped value they are stored and passed as. */
  function AsRaw(settings: Settings): Raw {
    Raw(Some(settings.time), Some(settings.durationMinutes as real), Some(settings.reminderMinutes as real),
        Some(match settings.recurrence case Daily => "daily" case Weekdays => "weekdays" case Custom => "custom"),
        Some(Codes(settings.weekdays)))
  }

  function Codes(days: seq<Weekday>): seq<Option<string>> {
    if days == [] then [] else [Some(days[0].Code())] + Codes(days[1..])
  }

  lemma {:induction false} RecognisedCodes(days: seq<Weekday>)
    ensures Recognised(Codes(days)) == days
  {
    if days != [] {
      CodeRoundTrip(days[0]);
      RecognisedCodes(days[1..]);
    }
  }

  lemma {:induction false} RepeatsDoNotMatter(days: seq<Weekday>, d: Weekday)
    ensures d in WithoutRepeats(days) <==> d in days
  {
    if days != [] {
      RepeatsDoNotMatter(days[..|days| - 1], d);
      assert days == days[..|days| - 1] + [days[|days| - 1]];
    }
  }

  lemma {:induction false} KeepDependsOnMembers(days: seq<Weekday>, a: seq<Weekday>, b: seq<Weekday>)
    requires forall d :: d in days ==> (d in a <==> d in b)
    ensures Keep(days, a) == Keep(days, b)
  {
    if days != [] {
      KeepDependsOnMembers(days[1..], a, b);
    }
  }

  /** Order and repetition of the given codes do not matter. */
  lemma SelectionIsASet(values: seq<Option<string>>)
    ensures NormalizeWeekdays(Some(values)) == Keep(CALENDAR_WEEKDAYS, Recognised(values))
  {
    forall d | d in CALENDAR_WEEKDAYS ensures d in WithoutRepeats(Recognised(values)) <==> d in Recognised(values) {
      RepeatsDoNotMatter(Recognised(values), d);
    }
    KeepDependsOnMembers(CALENDAR_WEEKDAYS, WithoutRepeats(Recognised(values)), Recognised(values));
  }

  lemma CanonicalWeekdays(value: Option<seq<Option<string>>>)
    ensures NormalizeWeekdays(Some(Codes(NormalizeWeekdays(value)))) == NormalizeWeekdays(value)
    ensures NormalizeWeekdays(Some(Codes(WORKDAYS))) == WORKDAYS
  {
    var days := NormalizeWeekdays(value);
    RecognisedCodes(days);
    SelectionIsASet(Codes(days));
    match value {
      case None => KeepAll(CALENDAR_WEEKDAYS);
      case Some(values) => KeepTwice(CALENDAR_WEEKDAYS, WithoutRepeats(Recognised(values)));
    }
    RecognisedCodes(WORKDAYS);
    SelectionIsASet(Codes(WORKDAYS));
    KeepWorkdays();
  }

  lemma BoundedTwice(value: Option<real>, fallback: int, minimum: int, maximum: int)
    requires minimum <= fallback <= maximum
    ensures var n := BoundedInteger(value, fallback, minimum, maximum);
            minimum <= n <= maximum && BoundedInteger(Some(n as real), fallback, minimum, maximum) == n
  {
    var n := BoundedInteger(value, fallback, minimum, maximum);
    assert (n as real + 0.5).Floor == n;
  }

  /** Normalising settings that were normalised before changes nothing, so every consumer may do it again. */
  lemma NormalizeIsIdempotent(value: Raw)
    ensures Normalize(AsRaw(Normalize(value))) == Normalize(value)
  {
    CanonicalWeekdays(value.weekdays);
    BoundedTwice(value.durationMinutes, 20, 5, 180);
    BoundedTwice(value.reminderMinutes, 10, 0, 1440);
    assert NormalizeRecurrence(AsRaw(Normalize(value)).recurrence) == Normalize(value).recurrence;
  }

  lemma {:induction false} KeepSubset(days: seq<Weekday>, selected: seq<Weekday>)
    requires forall d :: d in days ==> d in selected
    ensures Keep(days, selected) == days
  {
    if days != [] {
      KeepSubset(days[1..], selected);
    }
  }

  lemma KeepAll(days: seq<Weekday>)
    ensures Keep(days, days) == days
  {
    KeepSubset(days, days);
  }

  lemma KeepTwice(days: seq<Weekday>, selected: seq<Weekday>)
    ensures Keep(days, Keep(days, selected)) == Keep(days, selected)
  {
    KeepDependsOnMembers(days, Keep(days, selected), selected);
  }

  lemma KeepFront(all: seq<Weekday>, front: seq<Weekday>, back: seq<Weekday>)
    requires all == front + back && forall d :: d in back ==> d !in front
    ensures Keep(all, front) == front
  {
    KeepOfConcat(front, back, front);
    KeepAll(front);
    KeepNone(back, front);
  }

  lemma KeepWorkdays()
    ensures Keep(CALENDAR_WEEKDAYS, WORKDAYS) == WORKDAYS
  {
    var weekend := [SA, SU];
    assert CALENDAR_WEEKDAYS == WORKDAYS + weekend;
    KeepFront(CALENDAR_WEEKDAYS, WORKDAYS, weekend);
  }

  lemma {:induction false} KeepNone(days: seq<Weekday>, selected: seq<Weekday>)
    requires forall d :: d in days ==> d !in selected
    ensures Keep(days, selected) == []
  {
    if days != [] {
      assert days[0] !in selected;
      KeepNone(days[1..], selected);
    }
  }

  lemma {:induction false} KeepOfConcat(a: seq<Weekday>, b: seq<Weekday>, selected: seq<Weekday>)
    ensures Keep(a + b, selected) == Keep(a, selected) + Keep(b, selected)
  {
    if a == [] {
      assert a + b == b;
    } else {
      assert (a + b)[1..] == a[1..] + b;
      KeepOfConcat(a[1..], b, selected);
    }
  }

  // ---------- the next occurrence ----------

  const DAY: int := 86_400_000

  /** Local time on a civil calendar whose days all have 24 hours: milliseconds since the start of
      Thursday 1 January 1970. */
  function DayOf(t: int): int { t / 86_400_000 }

  function WeekdayNumber(day: int): int { (day + 4) % 7 }

  function WeekdayOf(day: int): (w: Weekday)
    ensures w.Day() == WeekdayNumber(day)
  {
    var number := WeekdayNumber(day);
    if number == 1 then MO else if number == 2 then TU else if number == 3 then WE else if number == 4 then TH
    else if number == 5 then FR else if number == 6 then SA else SU
  }

  function DigitValue(c: char): int { c as int - '0' as int }

  /** Milliseconds from midnight to the chosen time. */
  function TimeOfDay(time: string): (ms: int)
    requires IsTime(time)
    ensures 0 <= ms < 86_400_000
  {
    (10 * DigitValue(time[0]) + DigitValue(time[1])) * 3_600_000 + (10 * DigitValue(time[3]) + DigitValue(time[4])) * 60_000
  }

  function Candidate(from: int, offset: int, timeOfDay: int): int {
    (DayOf(from) + offset) * 86_400_000 + timeOfDay
  }

  /** The study times the settings ask for. */
  predicate IsOccurrence(settings: Settings, t: int)
    requires IsTime(settings.time)
  {
    t == DayOf(t) * 86_400_000 + TimeOfDay(settings.time) && WeekdayOf(DayOf(t)) in EffectiveWeekdays(settings)
  }

  lemma NormalizedTime(value: Raw)
    ensures IsTime(Normalize(value).time)
  {
  }

  /** Any seven days in a row contain an allowed one. */
  lemma AllowedDayWithinWeek(settings: Settings, day: int) returns (k: nat)
    ensures k < 7 && WeekdayOf(day + k) in EffectiveWeekdays(settings)
  {
    var allowed := EffectiveWeekdays(settings);
    assert WORKDAYS[0] == MO && CALENDAR_WEEKDAYS[0] == MO;
    var wanted := allowed[0];
    k := (wanted.Day() - WeekdayNumber(day)) % 7;
    assert WeekdayNumber(day + k) == wanted.Day();
    SameNumberSameDay(WeekdayOf(day + k), wanted);
  }

  lemma SameNumberSameDay(a: Weekday, b: Weekday)
    ensures a.Day() == b.Day() ==> a == b
  {
  }

  lemma OccurrenceIsCandidate(settings: Settings, from: int, t: int)
    requires IsTime(settings.time)
    ensures IsOccurrence(settings, t) ==> t == Candidate(from, DayOf(t) - DayOf(from), TimeOfDay(settings.time))
    ensures t > from ==> DayOf(t) >= DayOf(from)
  {
  }

  lemma CandidateDay(from: int, offset: int, timeOfDay: int)
    requires 0 <= timeOfDay < 86_400_000
    ensures DayOf(Candidate(from, offset, timeOfDay)) == DayOf(from) + offset
    ensures offset > 0 ==> Candidate(from, offset, timeOfDay) > from
  {
  }

  /** The least study time strictly after `from`, at most seven calendar days ahead: the fallback
      after the loop is never used. */
  method NextCalendarOccurrence(value: Raw, from: int) returns (at: int)
    ensures IsTime(Normalize(value).time)
    ensures at > from && IsOccurrence(Normalize(value), at)
    ensures DayOf(at) <= DayOf(from) + 7
    ensures forall t :: t > from && IsOccurrence(Normalize(value), t) ==> at <= t
  {
    var settings := Normalize(value);
    NormalizedTime(value);
    var timeOfDay := TimeOfDay(settings.time);
    var allowedDays := EffectiveWeekdays(settings);
    ghost var k := AllowedDayWithinWeek(settings, DayOf(from) + 1);
    CandidateDay(from, k + 1, timeOfDay);
    for offset := 0 to 15
      invariant offset <= k + 1
      invariant forall t :: t > from && IsOccurrence(settings, t) ==> DayOf(t) >= DayOf(from) + offset
    {
      var candidate := Candidate(from, offset, timeOfDay);
      CandidateDay(from, offset, timeOfDay);
      if candidate > from && WeekdayOf(DayOf(candidate)) in allowedDays {
        forall t | t > from && IsOccurrence(settings, t) ensures candidate <= t {
          OccurrenceIsCandidate(settings, from, t);
        }
        return candidate;
      }
      forall t | t > from && IsOccurrence(settings, t) ensures DayOf(t) >= DayOf(from) + offset + 1 {
        OccurrenceIsCandidate(settings, from, t);
      }
    }
    at := Candidate(from, 1, timeOfDay);
  }

  // ---------- the recurrence rule ----------

  function JoinCodes(days: seq<Weekday>): string {
    if days == [] then "" else if |days| == 1 then days[0].Code() else days[0].Code() + "," + JoinCodes(days[1..])
  }

  const WEEKLY := "FREQ=WEEKLY;WKST=MO;BYDAY="

  function RecurrenceRule(value: Raw): string {
    var settings := Normalize(value);
    if settings.recurrence == Daily then "FREQ=DAILY" else WEEKLY + JoinCodes(EffectiveWeekdays(settings))
  }

  function ReadCodes(list: string): seq<Weekday> {
    if |list| < 2 || FromCode(list[..2]) == None then []
    else [FromCode(list[..2]).value] + if |list| > 2 && list[2] == ',' then ReadCodes(list[3..]) else []
  }

  /** The days on which a rule written by `RecurrenceRule` recurs. */
  function ReadRule(rule: string): seq<Weekday> {
    if rule == "FREQ=DAILY" then CALENDAR_WEEKDAYS
    else if WEEKLY <= rule then ReadCodes(rule[|WEEKLY|..]) else []
  }

  lemma {:induction false} ReadJoinedCodes(days: seq<Weekday>)
    ensures ReadCodes(JoinCodes(days)) == days
  {
    if days != [] {
      CodeRoundTrip(days[0]);
      var code, rest := days[0].Code(), JoinCodes(days[1..]);
      if |days| == 1 {
        assert code[..2] == code;
      } else {
        var list := code + "," + rest;
        assert list[..2] == code && list[3..] == rest;
        ReadJoinedCodes(days[1..]);
      }
    }
  }

  lemma AfterWeekly(list: string)
    ensures WEEKLY <= WEEKLY + list && (WEEKLY + list)[|WEEKLY|..] == list
    ensures WEEKLY + list != "FREQ=DAILY"
  {
    assert |WEEKLY + list| > |"FREQ=DAILY"|;
  }

  /** The rule recurs on exactly the days the first occurrence was searched on. */
  lemma RuleNamesEffectiveDays(value: Raw)
    ensures ReadRule(RecurrenceRule(value)) == EffectiveWeekdays(Normalize(value))
  {
    var days := EffectiveWeekdays(Normalize(value));
    ReadJoinedCodes(days);
    AfterWeekly(JoinCodes(days));
  }
}
