/** The exported calendar file: its logical lines, and that reading the file gives them back. */
module CalendarExport {
  import opened Basics
  import opened Decimals
  import opened ContentLines
  import opened CalendarText
  import opened ZoneTransitions
  import opened ZoneTable
  import opened ZoneCache
  import Reminder
  import Whitespace

  /** The fixed texts of the event: its title, its description and its alarm's description. */
  datatype Texts = Texts(title: string, description: string, alarm: string)

  /** Date formatting of the runtime: UTC date-times, and date-times local to a zone. */
  datatype Formats = Formats(utc: int -> string, local: (string, int) -> string)

  datatype Event = Event(start: int, timeZone: string, appURL: Option<string>, generatedAt: int)

  /** The zone name, or UTC where the runtime does not know the zone. */
  function NormalizeTimeZone(value: Option<string>, known: string -> bool): string {
    var candidate := if value.Some? then Whitespace.Trim(value.value) else "";
    if candidate == "" || |candidate| > 100 || !known(candidate) then "UTC" else candidate
  }

  function EventDescription(texts: Texts, appURL: Option<string>): string {
    var url := if appURL.Some? then Whitespace.Trim(appURL.value) else "";
    if url != "" then texts.description + [LF] + url else texts.description
  }

  function IntText(n: int): string { if n < 0 then "-" + Decimal(-n) else Decimal(n) }

  function WithoutColon(time: string): string {
    if time == "" then "" else if time[0] == ':' then time[1..] else [time[0]] + WithoutColon(time[1..])
  }

  function Header(timeZone: string): (lines: seq<string>)
    ensures |lines| == 6
  {
    ["BEGIN:VCALENDAR", "VERSION:2.0", "PRODID:-//LexiGo//Study Reminder//RU", "CALSCALE:GREGORIAN", "METHOD:PUBLISH",
     "X-WR-TIMEZONE:" + timeZone]
  }

  function Uid(start: int, time: string): string {
    "UID:lexigo-" + IntText(start) + "-" + WithoutColon(time) + "@lexigo.app"
  }

  function DateLine(name: string, at: int, timeZone: string, formats: Formats): string {
    if timeZone == "UTC" then name + ":" + formats.utc(at)
    else name + ";TZID=" + timeZone + ":" + formats.local(timeZone, at)
  }

  function Trigger(reminderMinutes: int): string {
    if reminderMinutes == 0 then "PT0M" else "-PT" + IntText(reminderMinutes) + "M"
  }

  function NameLines(value: Reminder.Raw, event: Event, formats: Formats): (lines: seq<string>)
    ensures |lines| == 3
  {
    ["BEGIN:VEVENT",
     Uid(event.start, Reminder.Normalize(value).time),
     "DTSTAMP:" + formats.utc(event.generatedAt)]
  }

  function DateLines(value: Reminder.Raw, start: int, timeZone: string, formats: Formats): (lines: seq<string>)
    ensures |lines| == 3
  {
    [DateLine("DTSTART", start, timeZone, formats),
     DateLine("DTEND", start + Reminder.Normalize(value).durationMinutes * 60_000, timeZone, formats),
     "RRULE:" + Reminder.RecurrenceRule(value)]
  }

  function WhenLines(value: Reminder.Raw, event: Event, timeZone: string, formats: Formats): (lines: seq<string>)
    ensures |lines| == 6
  {
    NameLines(value, event, formats) + DateLines(value, event.start, timeZone, formats)
  }

  function WhatLines(event: Event, texts: Texts): (lines: seq<string>)
    ensures |lines| == 5
  {
    ["SUMMARY:" + EscapeText(texts.title),
     "DESCRIPTION:" + EscapeText(EventDescription(texts, event.appURL)),
     "SEQUENCE:0", "STATUS:CONFIRMED", "TRANSP:OPAQUE"]
  }

  function AlarmLines(reminderMinutes: int, texts: Texts): (lines: seq<string>)
    ensures |lines| == 7
  {
    ["BEGIN:VALARM", "TRIGGER:" + Trigger(reminderMinutes), "ACTION:DISPLAY",
     "DESCRIPTION:" + EscapeText(texts.alarm), "END:VALARM",
     "END:VEVENT", "END:VCALENDAR"]
  }

  function EventLines(value: Reminder.Raw, event: Event, texts: Texts, timeZone: string, formats: Formats): (lines: seq<string>)
    ensures |lines| == 18
  {
    WhenLines(value, event, timeZone, formats) + WhatLines(event, texts) + AlarmLines(Reminder.Normalize(value).reminderMinutes, texts)
  }

  function CalendarLines(value: Reminder.Raw, event: Event, texts: Texts, timeZone: string, zones: Zones, formats: Formats): seq<string> {
    Header(timeZone) + Uncached(zones, Call(timeZone, event.start)) + EventLines(value, event, texts, timeZone, formats)
  }

  /** Builds the calendar file, in the zone asked for where the runtime knows it under a name of at most 100
      characters and in UTC otherwise, taking the zone's component from the memo. */
  method BuildCalendarICS(value: Reminder.Raw, event: Event, texts: Texts, known: string -> bool, cache: TimeZoneLinesCache, formats: Formats)
    returns (ics: string)
    requires cache.Valid()
    modifies cache
    ensures cache.Valid()
    ensures ics == EmitCalendar(CalendarLines(value, event, texts, NormalizeTimeZone(Some(event.timeZone), known), cache.zones, formats))
    ensures var name := Whitespace.Trim(event.timeZone);
            ics == EmitCalendar(CalendarLines(value, event, texts, if name != "" && |name| <= 100 && known(name) then name else "UTC",
                                              cache.zones, formats))
  {
    var timeZone := NormalizeTimeZone(Some(event.timeZone), known);
    var zoneLines := cache.BuildTimeZoneLines(timeZone, event.start);
    ics := EmitCalendar(Header(timeZone) + zoneLines + EventLines(value, event, texts, timeZone, formats));
  }

  // ---------- every line is clean ----------

  predicate Plain(s: string) { LF !in s }

  /** Starts with a capital letter and holds no LF. */
  predicate Clean(line: string) { line != "" && 'A' <= line[0] <= 'Z' && Plain(line) }

  ghost predicate AllClean(lines: seq<string>) { forall k :: 0 <= k < |lines| ==> Clean(lines[k]) }

  /** What the runtime's formatting and zone names are taken to guarantee. */
  ghost predicate PlainFormats(formats: Formats, zones: Zones) {
    && (forall t :: Plain(formats.utc(t)))
    && (forall zone, t :: Plain(formats.local(zone, t)))
    && (forall t :: Plain(zones.stamp(t)))
  }

  lemma CleanConcat(prefix: string, rest: string)
    requires Clean(prefix) && Plain(rest)
    ensures Clean(prefix + rest)
  {
  }

  lemma {:induction false} DecimalIsPlain(n: nat)
    ensures Plain(Decimal(n))
  {
    DecimalRoundTrip(n);
  }

  lemma IntIsPlain(n: int)
    ensures Plain(IntText(n))
  {
    DecimalIsPlain(if n < 0 then -n else n);
  }

  lemma OffsetIsPlain(minutes: int)
    ensures Plain(ICalendarOffset(minutes))
  {
    DecimalIsPlain(Abs(minutes) / 60);
    DecimalIsPlain(Abs(minutes) % 60);
  }

  lemma {:induction false} TimeIsPlain(time: string)
    requires Plain(time)
    ensures Plain(WithoutColon(time))
  {
    if time != "" {
      TimeIsPlain(time[1..]);
    }
  }

  lemma {:induction false} CodesArePlain(days: seq<Reminder.Weekday>)
    ensures Plain(Reminder.JoinCodes(days))
  {
    if days != [] {
      assert Plain(days[0].Code());
      CodesArePlain(days[1..]);
    }
  }

  lemma PlainConcat(a: string, b: string)
    requires Plain(a) && Plain(b)
    ensures Plain(a + b)
  {
  }

  lemma WeeklyIsPlain()
    ensures Plain(Reminder.WEEKLY) && Plain("FREQ=DAILY")
  {
  }

  lemma RuleIsPlain(value: Reminder.Raw)
    ensures Plain(Reminder.RecurrenceRule(value))
  {
    var codes := Reminder.JoinCodes(Reminder.EffectiveWeekdays(Reminder.Normalize(value)));
    CodesArePlain(Reminder.EffectiveWeekdays(Reminder.Normalize(value)));
    WeeklyIsPlain();
    PlainConcat(Reminder.WEEKLY, codes);
  }

  lemma ObservanceLinesAreClean(o: Observance, stamp: Stamp)
    requires forall t :: Plain(stamp(t))
    ensures AllClean(ObservanceLines(o, stamp))
  {
    OffsetIsPlain(o.offsetFrom);
    OffsetIsPlain(o.offsetTo);
    CleanConcat("DTSTART:", stamp(o.dtstart));
    CleanConcat("TZOFFSETFROM:", ICalendarOffset(o.offsetFrom));
    CleanConcat("TZOFFSETTO:", ICalendarOffset(o.offsetTo));
    CleanConcat("BEGIN:", if o.daylight then "DAYLIGHT" else "STANDARD");
    CleanConcat("END:", if o.daylight then "DAYLIGHT" else "STANDARD");
  }

  lemma {:induction false} AllObservanceLinesAreClean(list: seq<Observance>, stamp: Stamp)
    requires forall t :: Plain(stamp(t))
    ensures AllClean(AllObservanceLines(list, stamp))
  {
    if list != [] {
      ObservanceLinesAreClean(list[0], stamp);
      AllObservanceLinesAreClean(list[1..], stamp);
    }
  }

  lemma ZoneLinesAreClean(zone: string, offset: OffsetFunction, startYear: int, stamp: Stamp)
    requires Plain(zone) && forall t :: Plain(stamp(t))
    ensures AllClean(ZoneLines(zone, offset, startYear, stamp))
  {
    CleanConcat("TZID:", zone);
    CleanConcat("X-LIC-LOCATION:", zone);
    AllObservanceLinesAreClean(ZoneObservances(offset, startYear), stamp);
    assert Clean("BEGIN:VTIMEZONE") && Clean("END:VTIMEZONE");
  }

  lemma FixedHeaderIsClean()
    ensures AllClean(["BEGIN:VCALENDAR", "VERSION:2.0", "PRODID:-//LexiGo//Study Reminder//RU"])
    ensures Clean("CALSCALE:GREGORIAN") && Clean("METHOD:PUBLISH")
  {
  }

  lemma HeaderIsClean(timeZone: string)
    requires Plain(timeZone)
    ensures AllClean(Header(timeZone))
  {
    var last := "X-WR-TIMEZONE:" + timeZone;
    CleanConcat("X-WR-TIMEZONE:", timeZone);
    FixedHeaderIsClean();
    ThreeAreClean("CALSCALE:GREGORIAN", "METHOD:PUBLISH", last);
    var first := ["BEGIN:VCALENDAR", "VERSION:2.0", "PRODID:-//LexiGo//Study Reminder//RU"];
    AllCleanConcat(first, ["CALSCALE:GREGORIAN", "METHOD:PUBLISH", last]);
    assert Header(timeZone) == first + ["CALSCALE:GREGORIAN", "METHOD:PUBLISH", last];
  }

  lemma DateLineIsClean(name: string, at: int, timeZone: string, zones: Zones, formats: Formats)
    requires Clean(name) && Plain(timeZone) && PlainFormats(formats, zones)
    ensures Clean(DateLine(name, at, timeZone, formats))
  {
    if timeZone == "UTC" {
      CleanConcat(name, ":");
      CleanConcat(name + ":", formats.utc(at));
    } else {
      CleanConcat(name, ";TZID=");
      CleanConcat(name + ";TZID=", timeZone);
      CleanConcat(name + ";TZID=" + timeZone, ":");
      CleanConcat(name + ";TZID=" + timeZone + ":", formats.local(timeZone, at));
    }
  }

  lemma UidIsClean(start: int, time: string)
    requires Plain(time)
    ensures Clean(Uid(start, time))
  {
    TimeIsPlain(time);
    IntIsPlain(start);
    var a := "UID:lexigo-";
    CleanConcat(a, IntText(start));
    CleanConcat(a + IntText(start), "-");
    CleanConcat(a + IntText(start) + "-", WithoutColon(time));
    CleanConcat(a + IntText(start) + "-" + WithoutColon(time), "@lexigo.app");
  }

  lemma TriggerIsPlain(minutes: int)
    ensures Plain(Trigger(minutes))
  {
    IntIsPlain(minutes);
  }

  lemma ThreeAreClean(a: string, b: string, c: string)
    requires Clean(a) && Clean(b) && Clean(c)
    ensures AllClean([a, b, c])
  {
  }

  lemma WhenLinesAreClean(value: Reminder.Raw, event: Event, timeZone: string, zones: Zones, formats: Formats)
    requires Plain(timeZone) && PlainFormats(formats, zones)
    ensures AllClean(WhenLines(value, event, timeZone, formats))
  {
    NamesAreClean(value, event, zones, formats);
    DatesAreClean(value, event.start, timeZone, zones, formats);
    AllCleanConcat(NameLines(value, event, formats), DateLines(value, event.start, timeZone, formats));
  }

  lemma NamesAreClean(value: Reminder.Raw, event: Event, zones: Zones, formats: Formats)
    requires PlainFormats(formats, zones)
    ensures AllClean(NameLines(value, event, formats))
  {
    var uid, stamp := Uid(event.start, Reminder.Normalize(value).time), "DTSTAMP:" + formats.utc(event.generatedAt);
    TimeTextIsPlain(value);
    UidIsClean(event.start, Reminder.Normalize(value).time);
    CleanConcat("DTSTAMP:", formats.utc(event.generatedAt));
    ThreeAreClean("BEGIN:VEVENT", uid, stamp);
  }

  lemma DatesAreClean(value: Reminder.Raw, start: int, timeZone: string, zones: Zones, formats: Formats)
    requires Plain(timeZone) && PlainFormats(formats, zones)
    ensures AllClean(DateLines(value, start, timeZone, formats))
  {
    var end := start + Reminder.Normalize(value).durationMinutes * 60_000;
    var rule := "RRULE:" + Reminder.RecurrenceRule(value);
    DateLineIsClean("DTSTART", start, timeZone, zones, formats);
    DateLineIsClean("DTEND", end, timeZone, zones, formats);
    RuleIsPlain(value);
    CleanConcat("RRULE:", Reminder.RecurrenceRule(value));
    ThreeAreClean(DateLine("DTSTART", start, timeZone, formats), DateLine("DTEND", end, timeZone, formats), rule);
  }

  lemma TimeTextIsPlain(value: Reminder.Raw)
    ensures Plain(Reminder.Normalize(value).time)
  {
    Reminder.NormalizedTime(value);
  }

  lemma WhatLinesAreClean(event: Event, texts: Texts)
    ensures AllClean(WhatLines(event, texts))
  {
    TextIsClean("SUMMARY:", texts.title);
    TextIsClean("DESCRIPTION:", EventDescription(texts, event.appURL));
    assert Clean("SEQUENCE:0") && Clean("STATUS:CONFIRMED") && Clean("TRANSP:OPAQUE");
  }

  lemma AlarmLinesAreClean(minutes: int, texts: Texts)
    ensures AllClean(AlarmLines(minutes, texts))
  {
    TriggerIsPlain(minutes);
    CleanConcat("TRIGGER:", Trigger(minutes));
    TextIsClean("DESCRIPTION:", texts.alarm);
    assert Clean("BEGIN:VALARM") && Clean("ACTION:DISPLAY") && Clean("END:VALARM");
    assert Clean("END:VEVENT") && Clean("END:VCALENDAR");
  }

  lemma TextIsClean(prefix: string, text: string)
    requires Clean(prefix)
    ensures Clean(prefix + EscapeText(text))
  {
    EscapeRoundTrip(text);
    CleanConcat(prefix, EscapeText(text));
  }

  lemma AllCleanConcat(a: seq<string>, b: seq<string>)
    requires AllClean(a) && AllClean(b)
    ensures AllClean(a + b)
  {
  }

  lemma CalendarLinesAreClean(value: Reminder.Raw, event: Event, texts: Texts, timeZone: string, zones: Zones, formats: Formats)
    requires Plain(timeZone) && PlainFormats(formats, zones)
    ensures AllClean(CalendarLines(value, event, texts, timeZone, zones, formats))
  {
    var call := Call(timeZone, event.start);
    var minutes := Reminder.Normalize(value).reminderMinutes;
    HeaderIsClean(timeZone);
    if timeZone != "UTC" {
      ZoneLinesAreClean(timeZone, zones.offset(timeZone), zones.year(timeZone, event.start), zones.stamp);
    }
    WhenLinesAreClean(value, event, timeZone, zones, formats);
    WhatLinesAreClean(event, texts);
    AlarmLinesAreClean(minutes, texts);
    AllCleanConcat(WhenLines(value, event, timeZone, formats), WhatLines(event, texts));
    AllCleanConcat(WhenLines(value, event, timeZone, formats) + WhatLines(event, texts), AlarmLines(minutes, texts));
    AllCleanConcat(Header(timeZone), Uncached(zones, call));
    AllCleanConcat(Header(timeZone) + Uncached(zones, call), EventLines(value, event, texts, timeZone, formats));
  }

  // ---------- what a reader recovers ----------

  lemma CleanLinesReadBack(lines: seq<string>)
    requires lines != [] && AllClean(lines)
    ensures ReadCalendar(EmitCalendar(lines)) == lines
  {
    forall k | 0 <= k < |lines| ensures NoCrlf(lines[k]) && !StartsWithWhiteSpace(lines[k]) {
      assert Clean(lines[k]);
    }
    CalendarRoundTrip(lines);
  }

  /** Reading the file gives back exactly its logical lines. */
  lemma FileReadsBack(value: Reminder.Raw, event: Event, texts: Texts, timeZone: string, zones: Zones, formats: Formats)
    requires Plain(timeZone) && PlainFormats(formats, zones)
    ensures ReadCalendar(EmitCalendar(CalendarLines(value, event, texts, timeZone, zones, formats)))
            == CalendarLines(value, event, texts, timeZone, zones, formats)
  {
    CalendarLinesAreClean(value, event, texts, timeZone, zones, formats);
    CleanLinesReadBack(CalendarLines(value, event, texts, timeZone, zones, formats));
  }
}
