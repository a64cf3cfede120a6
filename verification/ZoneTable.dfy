/** The VTIMEZONE component built from the scanned changes, and how a calendar reader uses it
    (section 3.6.5 of RFC 5545).
 */
module ZoneTable {
  import opened Decimals
  import opened ZoneTransitions

  // ---------- offsets as text ----------

  function Abs(n: int): nat { if n < 0 then -n else n }

  /** A sign and at least four digits, hours before minutes. */
  function ICalendarOffset(minutes: int): string {
    var absolute := Abs(minutes);
    (if minutes < 0 then "-" else "+") + PadTwo(Decimal(absolute / 60)) + PadTwo(Decimal(absolute % 60))
  }

  function ReadOffset(text: string): int {
    if |text| < 3 then 0
    else
      var magnitude := 60 * Value(text[1..|text| - 2]) + Value(text[|text| - 2..]);
      if text[0] == '-' then -magnitude else magnitude
  }

  lemma OffsetRoundTrip(minutes: int)
    ensures ReadOffset(ICalendarOffset(minutes)) == minutes
    ensures Abs(minutes) < 6000 ==> |ICalendarOffset(minutes)| == 5
    ensures ICalendarOffset(minutes)[0] == if minutes < 0 then '-' else '+'
    ensures forall k :: 1 <= k < |ICalendarOffset(minutes)| ==> IsDigit(ICalendarOffset(minutes)[k])
  {
    DecimalRoundTrip(Abs(minutes) / 60);
    DecimalRoundTrip(Abs(minutes) % 60);
    var hours, rest := PadTwo(Decimal(Abs(minutes) / 60)), PadTwo(Decimal(Abs(minutes) % 60));
    PadTwoRoundTrip(Abs(minutes) / 60);
    PadTwoRoundTrip(Abs(minutes) % 60);
    var text := ICalendarOffset(minutes);
    assert text[1..|text| - 2] == hours;
    assert text[|text| - 2..] == rest;
  }

  // ---------- years ----------

  /** Days from 1 January 1970 to 1 January of a proleptic Gregorian year. */
  function DaysToYear(year: int): int {
    365 * (year - 1970) + (year - 1969) / 4 - (year - 1901) / 100 + (year - 1601) / 400
  }

  /** The instant `Date.UTC(year, 0, 1)`: years 0 to 99 stand for 1900 to 1999. */
  function UtcYearStart(year: int): int {
    86_400_000 * DaysToYear(if 0 <= year <= 99 then 1900 + year else year)
  }

  const YEARS_AHEAD: int := 10

  function RangeStart(startYear: int): int { UtcYearStart(startYear - 1) }

  function RangeEnd(startYear: int): int { UtcYearStart(startYear + YEARS_AHEAD + 1) }

  /** The zone's calendar year of an instant. */
  predicate IsLocalYear(offset: OffsetFunction, t: int, year: int) {
    86_400_000 * DaysToYear(year) <= t + offset(t) * 60_000 < 86_400_000 * DaysToYear(year + 1)
  }

  /** A year of the Gregorian calendar has 366 days if it is divisible by 4 and not by 100, or by 400. */
  lemma YearsAreGregorian(year: int)
    ensures DaysToYear(1970) == 0
    ensures DaysToYear(year + 1) - DaysToYear(year) == if (year % 4 == 0 && year % 100 != 0) || year % 400 == 0 then 366 else 365
  {
    Quotient(year - 1969, 4);
    Quotient(year - 1901, 100);
    Quotient(year - 1601, 400);
  }

  lemma Quotient(n: int, d: int)
    requires d in {4, 100, 400}
    ensures (n + 1) / d - n / d == if (n + 1) % d == 0 then 1 else 0
  {
  }

  /** From the year 101 on the table covers the year before the event's to the tenth after it. */
  lemma CoveredYears(year: int)
    requires year > 100
    ensures RangeStart(year) == 86_400_000 * DaysToYear(year - 1) && RangeEnd(year) == 86_400_000 * DaysToYear(year + 11)
  {
  }

  lemma QuotientsGrow(n: int)
    ensures n / 4 <= (n + 1) / 4 <= n / 4 + 1
    ensures n / 100 <= (n + 1) / 100 <= n / 100 + 1
    ensures n / 400 <= (n + 1) / 400 <= n / 400 + 1
  {
  }

  lemma YearsGrow(year: int)
    ensures DaysToYear(year) + 364 <= DaysToYear(year + 1) <= DaysToYear(year) + 367
  {
    QuotientsGrow(year - 1969);
    QuotientsGrow(year - 1901);
    QuotientsGrow(year - 1601);
  }

  lemma {:induction false} LaterYears(a: int, b: int)
    requires a <= b
    ensures DaysToYear(a) + 364 * (b - a) <= DaysToYear(b)
    decreases b - a
  {
    if a < b {
      LaterYears(a, b - 1);
      YearsGrow(b - 1);
    }
  }

  lemma FirstYearOfRange(year: nat, start: int)
    requires 86_400_000 * (DaysToYear(year) - 1) <= start <= 86_400_000 * (DaysToYear(year + 1) + 1)
    ensures RangeStart(year) <= start <==> !(1 <= year <= 100)
  {
    if 1 <= year <= 100 {
      LaterYears(year + 1, 1900 + year - 1);
    } else {
      YearsGrow(year - 1);
    }
  }

  lemma LastYearOfRange(year: nat, start: int)
    requires 86_400_000 * (DaysToYear(year) - 1) <= start <= 86_400_000 * (DaysToYear(year + 1) + 1)
    ensures start <= RangeEnd(year)
  {
    var last := year + YEARS_AHEAD + 1;
    LaterYears(year + 2, if 0 <= last <= 99 then 1900 + last else last);
    YearsGrow(year + 1);
  }

  /** The covered years hold the event itself if and only if its year is not one of 1 to 100, whose preceding
      year `Date.UTC` takes for one of the twentieth century. */
  lemma EventIsCovered(offset: OffsetFunction, start: int, year: nat)
    requires IsLocalYear(offset, start, year) && -1440 <= offset(start) <= 1440
    ensures RangeStart(year) <= start <= RangeEnd(year) <==> !(1 <= year <= 100)
  {
    FirstYearOfRange(year, start);
    LastYearOfRange(year, start);
  }

  lemma MinuteShift(t: int, minutes: int)
    ensures OnMinute(t) ==> OnMinute(t + minutes * 60_000)
  {
  }

  lemma YearStartsOnMinute(year: int)
    ensures OnMinute(UtcYearStart(year))
  {
    MinuteShift(0, 1440 * DaysToYear(if 0 <= year <= 99 then 1900 + year else year));
  }

  // ---------- observances ----------

  /** One STANDARD or DAYLIGHT block; `dtstart` is the local time of the change, read at `offsetFrom`. */
  datatype Observance = Observance(daylight: bool, dtstart: int, offsetFrom: int, offsetTo: int)

  function ObservanceAt(daylight: bool, at: int, offsetFrom: int, offsetTo: int): Observance {
    Observance(daylight, at + offsetFrom * 60_000, offsetFrom, offsetTo)
  }

  function TransitionObservances(transitions: seq<Transition>): (list: seq<Observance>)
    ensures |list| == |transitions|
  {
    if transitions == [] then []
    else
      var t := transitions[0];
      [ObservanceAt(t.offsetTo > t.offsetFrom, t.at, t.offsetFrom, t.offsetTo)] + TransitionObservances(transitions[1..])
  }

  /** The opening observance, with no change of its own, and one for every transition. */
  function ZoneObservances(offset: OffsetFunction, startYear: int): seq<Observance> {
    var rangeStart := RangeStart(startYear);
    var transitions := Transitions(offset, rangeStart, RangeEnd(startYear));
    var initialDaylight := transitions != [] && transitions[0].offsetTo < transitions[0].offsetFrom;
    [ObservanceAt(initialDaylight, rangeStart, offset(rangeStart), offset(rangeStart))] + TransitionObservances(transitions)
  }

  /** The UTC instant an observance takes effect. */
  function Onset(o: Observance): int { o.dtstart - o.offsetFrom * 60_000 }

  /** RFC 5545: the observance in force is the one with the latest onset not after the instant. */
  ghost predicate InForce(list: seq<Observance>, k: nat, t: int) {
    && k < |list| && Onset(list[k]) <= t
    && forall j :: 0 <= j < |list| && Onset(list[j]) <= t ==> Onset(list[j]) <= Onset(list[k])
  }

  lemma {:induction false} TransitionObservanceAt(transitions: seq<Transition>, k: nat)
    requires k < |transitions|
    ensures var t := transitions[k];
            TransitionObservances(transitions)[k] == ObservanceAt(t.offsetTo > t.offsetFrom, t.at, t.offsetFrom, t.offsetTo)
  {
    if k > 0 {
      TransitionObservanceAt(transitions[1..], k - 1);
    }
  }

  /** An observance is daylight time exactly when it takes the clock forward, and the opening one exactly when
      the first change takes it back. */
  lemma DaylightIff(offset: OffsetFunction, startYear: int, k: nat)
    requires k < |ZoneObservances(offset, startYear)|
    ensures var list := ZoneObservances(offset, startYear);
            && (k > 0 ==> (list[k].daylight <==> list[k].offsetTo > list[k].offsetFrom))
            && (k == 0 ==> (list[k].daylight <==> |list| > 1 && list[1].offsetTo < list[1].offsetFrom))
            && (k == 0 ==> list[k].offsetFrom == list[k].offsetTo)
  {
    var transitions := Transitions(offset, RangeStart(startYear), RangeEnd(startYear));
    if k > 0 { TransitionObservanceAt(transitions, k - 1); }
    if transitions != [] {
      TransitionObservanceAt(transitions, 0);
      assert ZoneObservances(offset, startYear)[1] == TransitionObservances(transitions)[0];
    }
  }

  /** Position in an increasing list of the last change not after `t`. */
  lemma {:induction false} LookupIsLatest(list: seq<Transition>, initial: int, t: int, k: nat)
    requires Increasing(list) && k < |list| && list[k].at <= t && (k + 1 < |list| ==> t < list[k + 1].at)
    ensures Lookup(list, initial, t) == list[k].offsetTo
  {
    assert list[0].at <= list[k].at;
    if k > 0 {
      LookupIsLatest(list[1..], list[0].offsetTo, t, k - 1);
    } else if |list| > 1 {
      assert list[1..][0] == list[1];
    }
  }

  /** Read by the rules of RFC 5545, the observances give the zone's own offset at every instant of
      the covered years. */
  lemma ObservancesRefineOffset(offset: OffsetFunction, startYear: int, t: int, k: nat)
    requires ChangesOnMinutes(offset) && ChangesSpaced(offset, RangeStart(startYear), RangeEnd(startYear))
    requires RangeStart(startYear) <= t <= RangeEnd(startYear)
    requires InForce(ZoneObservances(offset, startYear), k, t)
    ensures ZoneObservances(offset, startYear)[k].offsetTo == offset(t)
  {
    var rangeStart, rangeEnd := RangeStart(startYear), RangeEnd(startYear);
    var transitions := Transitions(offset, rangeStart, rangeEnd);
    var list := ZoneObservances(offset, startYear);
    YearStartsOnMinute(startYear - 1);
    YearStartsOnMinute(startYear + YEARS_AHEAD + 1);
    TableRefinesOffset(offset, rangeStart, rangeEnd, t);
    ScanShape(offset, rangeStart, rangeEnd, offset(rangeStart), transitions);
    if k > 0 {
      TransitionObservanceAt(transitions, k - 1);
      if k < |transitions| {
        TransitionObservanceAt(transitions, k);
        assert transitions[k - 1].at < transitions[k].at;
        assert list[k + 1] == TransitionObservances(transitions)[k];
      }
      LookupIsLatest(transitions, offset(rangeStart), t, k - 1);
    } else if transitions != [] {
      TransitionObservanceAt(transitions, 0);
      assert list[1] == TransitionObservances(transitions)[0];
      assert Onset(list[0]) == rangeStart;
    }
  }

  /** Some observance is in force at every instant of the covered years. */
  lemma SomeObservanceInForce(list: seq<Observance>, t: int) returns (k: nat)
    requires list != [] && Onset(list[0]) <= t
    ensures InForce(list, k, t)
  {
    k := 0;
    for j := 0 to |list|
      invariant k < |list| && Onset(list[k]) <= t
      invariant forall i :: 0 <= i < j && Onset(list[i]) <= t ==> Onset(list[i]) <= Onset(list[k])
    {
      if Onset(list[j]) <= t && Onset(list[k]) < Onset(list[j]) {
        k := j;
      }
    }
  }

  // ---------- observances as text ----------

  /** Formatting of a local date-time, which this model leaves open. */
  type Stamp = int -> string

  function ObservanceLines(o: Observance, stamp: Stamp): (lines: seq<string>)
    ensures |lines| == 5
  {
    var kind := if o.daylight then "DAYLIGHT" else "STANDARD";
    ["BEGIN:" + kind,
     "DTSTART:" + stamp(o.dtstart),
     "TZOFFSETFROM:" + ICalendarOffset(o.offsetFrom),
     "TZOFFSETTO:" + ICalendarOffset(o.offsetTo),
     "END:" + kind]
  }

  function AllObservanceLines(list: seq<Observance>, stamp: Stamp): (lines: seq<string>)
    ensures |lines| == 5 * |list|
  {
    if list == [] then [] else ObservanceLines(list[0], stamp) + AllObservanceLines(list[1..], stamp)
  }

  /** The VTIMEZONE component of one zone for the years around an event. */
  function ZoneLines(zone: string, offset: OffsetFunction, startYear: int, stamp: Stamp): seq<string> {
    ["BEGIN:VTIMEZONE", "TZID:" + zone, "X-LIC-LOCATION:" + zone]
    + AllObservanceLines(ZoneObservances(offset, startYear), stamp)
    + ["END:VTIMEZONE"]
  }

  function After(prefix: string, line: string): string {
    if prefix <= line then line[|prefix|..] else ""
  }

  function ReadObservance(lines: seq<string>, readStamp: string -> int): Observance
    requires |lines| == 5
  {
    Observance(After("BEGIN:", lines[0]) == "DAYLIGHT", readStamp(After("DTSTART:", lines[1])),
               ReadOffset(After("TZOFFSETFROM:", lines[2])), ReadOffset(After("TZOFFSETTO:", lines[3])))
  }

  function ReadObservances(lines: seq<string>, readStamp: string -> int): seq<Observance> {
    if |lines| < 5 then [] else [ReadObservance(lines[..5], readStamp)] + ReadObservances(lines[5..], readStamp)
  }

  /** The observances of a VTIMEZONE component: everything between its three header lines and its END. */
  function ReadZone(lines: seq<string>, readStamp: string -> int): seq<Observance> {
    if |lines| < 4 then [] else ReadObservances(lines[3..|lines| - 1], readStamp)
  }

  /** Date-times on whole minutes survive formatting and reading. */
  ghost predicate StampsReadBack(stamp: Stamp, readStamp: string -> int) {
    forall t :: OnMinute(t) ==> readStamp(stamp(t)) == t
  }

  lemma AfterPrefix(prefix: string, value: string)
    ensures After(prefix, prefix + value) == value
  {
  }

  lemma ObservanceRoundTrip(o: Observance, stamp: Stamp, readStamp: string -> int)
    requires StampsReadBack(stamp, readStamp) && OnMinute(o.dtstart)
    ensures ReadObservance(ObservanceLines(o, stamp), readStamp) == o
  {
    AfterPrefix("BEGIN:", if o.daylight then "DAYLIGHT" else "STANDARD");
    AfterPrefix("DTSTART:", stamp(o.dtstart));
    AfterPrefix("TZOFFSETFROM:", ICalendarOffset(o.offsetFrom));
    AfterPrefix("TZOFFSETTO:", ICalendarOffset(o.offsetTo));
    OffsetRoundTrip(o.offsetFrom);
    OffsetRoundTrip(o.offsetTo);
  }

  lemma ReadOneObservance(first: seq<string>, rest: seq<string>, readStamp: string -> int)
    requires |first| == 5
    ensures ReadObservances(first + rest, readStamp) == [ReadObservance(first, readStamp)] + ReadObservances(rest, readStamp)
  {
    assert (first + rest)[..5] == first && (first + rest)[5..] == rest;
  }

  lemma ObservanceThenRest(o: Observance, stamp: Stamp, readStamp: string -> int, rest: seq<string>)
    requires StampsReadBack(stamp, readStamp) && OnMinute(o.dtstart)
    ensures ReadObservances(ObservanceLines(o, stamp) + rest, readStamp) == [o] + ReadObservances(rest, readStamp)
  {
    ReadOneObservance(ObservanceLines(o, stamp), rest, readStamp);
    ObservanceRoundTrip(o, stamp, readStamp);
  }

  lemma {:induction false} ObservancesRoundTrip(list: seq<Observance>, stamp: Stamp, readStamp: string -> int)
    requires StampsReadBack(stamp, readStamp)
    requires forall k :: 0 <= k < |list| ==> OnMinute(list[k].dtstart)
    ensures ReadObservances(AllObservanceLines(list, stamp), readStamp) == list
  {
    if list != [] {
      var o, rest := list[0], list[1..];
      assert list == [o] + rest;
      ObservancesRoundTrip(rest, stamp, readStamp);
      ObservanceThenRest(o, stamp, readStamp, AllObservanceLines(rest, stamp));
    }
  }

  lemma LocalTimeOnMinute(daylight: bool, at: int, offsetFrom: int, offsetTo: int)
    ensures OnMinute(at) ==> OnMinute(ObservanceAt(daylight, at, offsetFrom, offsetTo).dtstart)
  {
    MinuteShift(at, offsetFrom);
  }

  lemma LocalTimesAreOnMinutes(offset: OffsetFunction, startYear: int, k: nat)
    requires k < |ZoneObservances(offset, startYear)|
    ensures OnMinute(ZoneObservances(offset, startYear)[k].dtstart)
  {
    var rangeStart, rangeEnd := RangeStart(startYear), RangeEnd(startYear);
    var transitions := Transitions(offset, rangeStart, rangeEnd);
    var daylight := ZoneObservances(offset, startYear)[k].daylight;
    if k == 0 {
      YearStartsOnMinute(startYear - 1);
      LocalTimeOnMinute(daylight, rangeStart, offset(rangeStart), offset(rangeStart));
    } else {
      var t := transitions[k - 1];
      TransitionObservanceAt(transitions, k - 1);
      ScanShape(offset, rangeStart, rangeEnd, offset(rangeStart), transitions);
      LocalTimeOnMinute(t.offsetTo > t.offsetFrom, t.at, t.offsetFrom, t.offsetTo);
    }
  }

  /** What is written for a zone is what a reader reads. */
  lemma ZoneRoundTrip(zone: string, offset: OffsetFunction, startYear: int, stamp: Stamp, readStamp: string -> int)
    requires StampsReadBack(stamp, readStamp)
    ensures ReadZone(ZoneLines(zone, offset, startYear, stamp), readStamp) == ZoneObservances(offset, startYear)
  {
    var observances := ZoneObservances(offset, startYear);
    var lines := ZoneLines(zone, offset, startYear, stamp);
    assert lines[3..|lines| - 1] == AllObservanceLines(observances, stamp);
    forall k | 0 <= k < |observances| ensures OnMinute(observances[k].dtstart) {
      LocalTimesAreOnMinutes(offset, startYear, k);
    }
    ObservancesRoundTrip(observances, stamp, readStamp);
  }

  /** The component's text read back and applied by the rules of RFC 5545 is the zone's offset function. */
  lemma ZoneLinesRefineOffset(zone: string, offset: OffsetFunction, startYear: int, stamp: Stamp, readStamp: string -> int, t: int)
    requires StampsReadBack(stamp, readStamp)
    requires ChangesOnMinutes(offset) && ChangesSpaced(offset, RangeStart(startYear), RangeEnd(startYear))
    requires RangeStart(startYear) <= t <= RangeEnd(startYear)
    ensures var list := ReadZone(ZoneLines(zone, offset, startYear, stamp), readStamp);
            && (exists k: nat :: InForce(list, k, t))
            && (forall k: nat :: InForce(list, k, t) ==> list[k].offsetTo == offset(t))
  {
    ZoneRoundTrip(zone, offset, startYear, stamp, readStamp);
    var observances := ZoneObservances(offset, startYear);
    var found := SomeObservanceInForce(observances, t);
    forall k: nat | InForce(observances, k, t) ensures observances[k].offsetTo == offset(t) {
      ObservancesRefineOffset(offset, startYear, t, k);
    }
  }
}
