/** The single properties a reader takes from the exported file: the zone it is in, its title, its identifier,
    its time stamp and its alarm, in terms of what the export was asked for.
 */
module CalendarProperties {
  import opened Basics
  import opened Decimals
  import opened ContentLines
  import opened CalendarText
  import opened ZoneTransitions
  import opened ZoneTable
  import opened ZoneCache
  import opened CalendarExport
  import opened CalendarReading
  import Reminder
  import Whitespace

  /** The file `BuildCalendarICS` returns. */
  function Exported(value: Reminder.Raw, event: Event, texts: Texts, known: string -> bool, zones: Zones, formats: Formats): string {
    File(value, event, texts, NormalizeTimeZone(Some(event.timeZone), known), zones, formats)
  }

  // ---------- the zone parameter of a line ----------

  /** The first line of that name. */
  function LineOf(lines: seq<string>, name: string): Option<string> {
    if lines == [] then None else if NameOf(lines[0]) == name then Some(lines[0]) else LineOf(lines[1..], name)
  }

  function BeforeColon(line: string): string {
    if line == "" || line[0] == ':' then "" else [line[0]] + BeforeColon(line[1..])
  }

  /** The zone a line names between its property's name and its first colon, if it names one. */
  function ZoneOf(line: string): Option<string> {
    var head := BeforeColon(line);
    var n := |NameOf(line)|;
    if n <= |head| && ";TZID=" <= head[n..] then Some(head[n + 6..]) else None
  }

  function ZoneParameter(lines: seq<string>, name: string): Option<string> {
    var line := LineOf(lines, name);
    if line.Some? then ZoneOf(line.value) else None
  }

  lemma {:induction false} LineIs(front: seq<string>, line: string, back: seq<string>, name: string)
    requires NoneNamed(front, name) && NameOf(line) == name
    ensures LineOf(front + [line] + back, name) == Some(line)
  {
    var lines := front + [line] + back;
    if front == [] {
      assert lines[0] == line;
    } else {
      assert lines[1..] == front[1..] + [line] + back && NameOf(lines[0]) != name;
      LineIs(front[1..], line, back, name);
    }
  }

  lemma {:induction false} BeforeColonIs(front: string, rest: string)
    requires ':' !in front
    ensures BeforeColon(front + ":" + rest) == front
  {
    var line := front + ":" + rest;
    if front != "" {
      assert line[1..] == front[1..] + ":" + rest;
      BeforeColonIs(front[1..], rest);
    }
  }

  lemma {:induction false} NoColonBefore(line: string)
    ensures ':' !in BeforeColon(line)
  {
    if line != "" && line[0] != ':' { NoColonBefore(line[1..]); }
  }

  lemma UtcLineNamesNoZone(name: string, text: string)
    requires IsName(name)
    ensures ZoneOf(name + ":" + text) == None
  {
    Plainly(name, text);
    BeforeColonIs(name, text);
    assert name[|name|..] == "";
  }

  /** The zone a date line names is the one it was written for if and only if that has no colon in it. */
  lemma ZoneOfDateIff(name: string, at: int, timeZone: string, formats: Formats)
    requires IsName(name) && timeZone != "UTC"
    ensures ZoneOf(DateLine(name, at, timeZone, formats)) == Some(timeZone) <==> ':' !in timeZone
  {
    var line := DateLine(name, at, timeZone, formats);
    var front, text := name + ";TZID=" + timeZone, formats.local(timeZone, at);
    assert line == front + ":" + text;
    if ':' in timeZone {
      NoColonBefore(line);
    } else {
      DateLineReads(name, at, timeZone, formats);
      BeforeColonIs(front, text);
      assert front[|name|..] == ";TZID=" + timeZone;
      assert (";TZID=" + timeZone)[6..] == timeZone;
    }
  }

  /** A runtime that takes offsets for zone names: the reader finds the part before the colon. */
  lemma OffsetNameIsCut(at: int, formats: Formats)
    ensures ZoneOf(DateLine("DTSTART", at, "+01:00", formats)) != Some("+01:00")
  {
    assert "+01:00"[3] == ':' && "+01:00" != "UTC" by { assert "+01:00"[0] != "UTC"[0]; }
    ZoneOfDateIff("DTSTART", at, "+01:00", formats);
  }

  // ---------- the zone of the file ----------

  lemma DateLinesAreFound(value: Reminder.Raw, event: Event, texts: Texts, timeZone: string, formats: Formats)
    requires ':' !in timeZone
    ensures var lines, dates := EventComponent(value, event, texts, timeZone, formats), DateLines(value, event.start, timeZone, formats);
            LineOf(lines, "DTSTART") == Some(dates[0]) && LineOf(lines, "DTEND") == Some(dates[1])
  {
    var front, dates, back := NameLines(value, event, formats), DateLines(value, event.start, timeZone, formats), EventBack(value, event, texts);
    NamesOfDates(value, event.start, timeZone, formats);
    ComponentSplits(value, event, texts, timeZone, formats);
    DateNames();
    NamesOfFront(value, event, formats, "DTSTART");
    NamesOfFront(value, event, formats, "DTEND");
    TwoFound(front, dates, back, "DTSTART", "DTEND");
  }

  lemma TwoFound(front: seq<string>, dates: seq<string>, back: seq<string>, a: string, b: string)
    requires |dates| == 3 && NameOf(dates[0]) == a && NameOf(dates[1]) == b && a != b && NoneNamed(front, a) && NoneNamed(front, b)
    ensures LineOf(front + dates + back, a) == Some(dates[0]) && LineOf(front + dates + back, b) == Some(dates[1])
  {
    LineIs(front, dates[0], dates[1..] + back, a);
    assert front + [dates[0]] + (dates[1..] + back) == front + dates + back;
    LineIs(front + [dates[0]], dates[1], dates[2..] + back, b);
    assert front + [dates[0]] + [dates[1]] + (dates[2..] + back) == front + dates + back;
  }

  lemma NotNamed(line: string, name: string)
    requires line != "" && name != "" && line[0] != name[0]
    ensures NameOf(line) != name
  {
    assert NameOf(line) != "" ==> NameOf(line)[0] == line[0];
  }

  ghost predicate AllStartOther(lines: seq<string>, name: string)
    requires name != ""
  {
    forall k :: 0 <= k < |lines| ==> lines[k] != "" && lines[k][0] != name[0]
  }

  lemma StartOther(lines: seq<string>, name: string)
    requires name != "" && AllStartOther(lines, name)
    ensures NoneNamed(lines, name)
  {
    forall k | 0 <= k < |lines| ensures NameOf(lines[k]) != name { NotNamed(lines[k], name); }
  }

  lemma HeaderStarts(timeZone: string)
    ensures var header := Header(timeZone);
            && header[0] != "" && header[0][0] == 'B' && header[1] != "" && header[1][0] == 'V' && header[2] != "" && header[2][0] == 'P'
            && header[3] != "" && header[3][0] == 'C' && header[4] != "" && header[4][0] == 'M'
  {
  }

  lemma FiveStartOther(lines: seq<string>, name: string)
    requires |lines| >= 5 && name != ""
    requires lines[0] != "" && lines[1] != "" && lines[2] != "" && lines[3] != "" && lines[4] != ""
    requires lines[0][0] != name[0] && lines[1][0] != name[0] && lines[2][0] != name[0] && lines[3][0] != name[0] && lines[4][0] != name[0]
    ensures NoneNamed(lines[..5], name)
  {
    StartOther(lines[..5], name);
  }

  lemma HeaderZoneIsNamed(timeZone: string, name: string)
    requires name == "X-WR-TIMEZONE"
    ensures NameOf(Header(timeZone)[5]) == name && ValueOf(Header(timeZone)[5]) == timeZone
  {
    Literally("X-WR-TIMEZONE:", "X-WR-TIMEZONE", timeZone);
  }

  lemma SixthIsRead(header: seq<string>, rest: seq<string>, name: string)
    requires |header| == 6 && NoneNamed(header[..5], name) && NameOf(header[5]) == name
    ensures Property(header + rest, name) == Some(ValueOf(header[5]))
  {
    PropertyIs(header[..5], header[5], rest, name);
    assert header[..5] + [header[5]] + rest == header + rest;
  }

  lemma HeaderZoneIsRead(timeZone: string, rest: seq<string>, name: string)
    requires name == "X-WR-TIMEZONE"
    ensures Property(Header(timeZone) + rest, name) == Some(timeZone)
  {
    assert name[0] == 'X';
    HeaderStarts(timeZone);
    FiveStartOther(Header(timeZone), name);
    HeaderZoneIsNamed(timeZone, name);
    SixthIsRead(Header(timeZone), rest, name);
  }

  lemma SecondIsRead(first: string, second: string, rest: seq<string>, name: string)
    requires NameOf(first) != name && NameOf(second) == name
    ensures Property([first, second] + rest, name) == Some(ValueOf(second))
  {
    PropertyIs([first], second, rest, name);
    assert [first] + [second] + rest == [first, second] + rest;
  }

  lemma OpeningNamesNoZone(timeZone: string, open: string, name: string)
    requires open == "BEGIN:VTIMEZONE" && name == "TZID"
    ensures NameOf(open) != name && NameOf("TZID:" + timeZone) == name && ValueOf("TZID:" + timeZone) == timeZone
  {
    assert open[0] == 'B' && name[0] == 'T';
    NotNamed(open, name);
    Literally("TZID:", "TZID", timeZone);
  }

  lemma ZoneNameIsRead(timeZone: string, offset: OffsetFunction, year: int, stamp: Stamp, name: string)
    requires name == "TZID"
    ensures Property(ZoneLines(timeZone, offset, year, stamp), name) == Some(timeZone)
  {
    var open, own := "BEGIN:VTIMEZONE", "TZID:" + timeZone;
    var lines := ZoneLines(timeZone, offset, year, stamp);
    OpeningNamesNoZone(timeZone, open, name);
    SecondIsRead(open, own, lines[2..], name);
    assert lines == [open, own] + lines[2..];
  }

  lemma ThirdIsRead(first: string, second: string, third: string, rest: seq<string>, name: string)
    requires NameOf(first) != name && NameOf(second) != name && NameOf(third) == name
    ensures Property([first, second, third] + rest, name) == Some(ValueOf(third))
  {
    PropertyIs([first, second], third, rest, name);
    assert [first, second] + [third] + rest == [first, second, third] + rest;
  }

  lemma LocationNames(timeZone: string, open: string, name: string)
    requires open == "BEGIN:VTIMEZONE" && name == "X-LIC-LOCATION"
    ensures NameOf(open) != name && NameOf("TZID:" + timeZone) != name
    ensures NameOf("X-LIC-LOCATION:" + timeZone) == name && ValueOf("X-LIC-LOCATION:" + timeZone) == timeZone
  {
    assert open[0] == 'B' && name[0] == 'X' && ("TZID:" + timeZone)[0] == 'T';
    NotNamed(open, name);
    NotNamed("TZID:" + timeZone, name);
    Literally("X-LIC-LOCATION:", "X-LIC-LOCATION", timeZone);
  }

  lemma LocationIsRead(timeZone: string, offset: OffsetFunction, year: int, stamp: Stamp, name: string)
    requires name == "X-LIC-LOCATION"
    ensures Property(ZoneLines(timeZone, offset, year, stamp), name) == Some(timeZone)
  {
    var open, own, location := "BEGIN:VTIMEZONE", "TZID:" + timeZone, "X-LIC-LOCATION:" + timeZone;
    var lines := ZoneLines(timeZone, offset, year, stamp);
    LocationNames(timeZone, open, name);
    ThirdIsRead(open, own, location, lines[3..], name);
    assert lines == [open, own, location] + lines[3..];
  }

  lemma {:induction false} NoIndex(lines: seq<string>, line: string)
    requires line !in lines
    ensures LineIndex(lines, line) == |lines|
  {
    if lines != [] { NoIndex(lines[1..], line); }
  }

  lemma NoComponent(lines: seq<string>, open: string, close: string)
    requires open !in lines
    ensures Component(lines, open, close) == []
  {
    NoIndex(lines, open);
    assert lines[|lines|..] == [];
  }

  lemma EdgesOpenNoZone(open: string)
    requires open == "BEGIN:VTIMEZONE"
    ensures !IsInner(open) && open !in ["BEGIN:VEVENT"] && open !in ["BEGIN:VALARM"]
    ensures open !in ["END:VALARM"] && open !in ["END:VEVENT"] + ["END:VCALENDAR"]
  {
    assert open[0] == 'B' && open[7] == 'T' && "BEGIN:VEVENT"[7] == 'E' && "BEGIN:VALARM"[7] == 'A';
    assert "END:VALARM"[0] == 'E' && "END:VEVENT"[0] == 'E' && "END:VCALENDAR"[0] == 'E';
  }

  lemma InNoPart(a: seq<string>, core: seq<string>, b: seq<string>, body: seq<string>, c: seq<string>, d: seq<string>, line: string)
    requires line !in a && line !in core && line !in b && line !in body && line !in c && line !in d
    ensures line !in a + (core + (b + body + c)) + d
  {
  }

  lemma EventOpensNoZone(value: Reminder.Raw, event: Event, texts: Texts, timeZone: string, formats: Formats, open: string)
    requires open == "BEGIN:VTIMEZONE"
    ensures open !in EventLines(value, event, texts, timeZone, formats)
  {
    var core, body := EventCore(value, event, texts, timeZone, formats), AlarmBody(MinutesOf(value), texts);
    EdgesOpenNoZone(open);
    CoreIsInner(value, event, texts, timeZone, formats);
    AlarmIsInner(MinutesOf(value), texts);
    NotInInner(core, open);
    NotInInner(body, open);
    EventLinesAre(value, event, texts, timeZone, formats);
    InNoPart(["BEGIN:VEVENT"], core, ["BEGIN:VALARM"], body, ["END:VALARM"], ["END:VEVENT"] + ["END:VCALENDAR"], open);
  }

  lemma HeaderOfLines(value: Reminder.Raw, event: Event, texts: Texts, timeZone: string, zones: Zones, formats: Formats, name: string)
    requires name == "X-WR-TIMEZONE"
    ensures Property(CalendarLines(value, event, texts, timeZone, zones, formats), name) == Some(timeZone)
  {
    var zone, own := Uncached(zones, Call(timeZone, event.start)), EventLines(value, event, texts, timeZone, formats);
    HeaderZoneIsRead(timeZone, zone + own, name);
    Reassociated(Header(timeZone), zone, own);
  }

  /** What a reader finds of the zone in a file written for a zone name. */
  lemma HeaderOfFile(value: Reminder.Raw, event: Event, texts: Texts, timeZone: string, zones: Zones, formats: Formats)
    requires PlainFormats(formats, zones) && IsZoneName(timeZone)
    ensures var lines := ReadCalendar(File(value, event, texts, timeZone, zones, formats));
            lines == CalendarLines(value, event, texts, timeZone, zones, formats) && Property(lines, "X-WR-TIMEZONE") == Some(timeZone)
  {
    FileReadsBack(value, event, texts, timeZone, zones, formats);
    HeaderOfLines(value, event, texts, timeZone, zones, formats, "X-WR-TIMEZONE");
  }

  lemma DatesOfFile(value: Reminder.Raw, event: Event, texts: Texts, timeZone: string, zones: Zones, formats: Formats)
    requires PlainFormats(formats, zones) && IsZoneName(timeZone)
    ensures var part, dates := EventPart(ReadCalendar(File(value, event, texts, timeZone, zones, formats))), DateLines(value, event.start, timeZone, formats);
            ZoneParameter(part, "DTSTART") == ZoneOf(dates[0]) && ZoneParameter(part, "DTEND") == ZoneOf(dates[1])
  {
    ReadsEvent(value, event, texts, timeZone, zones, formats);
    DateLinesAreFound(value, event, texts, timeZone, formats);
  }

  lemma DateNamesAreNames(start: string, end: string)
    requires start == "DTSTART" && end == "DTEND"
    ensures IsName(start) && IsName(end)
  {
  }

  lemma DatesAre(value: Reminder.Raw, at: int, timeZone: string, formats: Formats, start: string, end: string)
    requires start == "DTSTART" && end == "DTEND"
    ensures var dates := DateLines(value, at, timeZone, formats);
            && dates[0] == DateLine(start, at, timeZone, formats) && dates[1] == DateLine(end, EndOf(value, at), timeZone, formats)
  {
  }

  lemma DateNamesZone(name: string, at: int, timeZone: string, formats: Formats)
    requires IsName(name) && ':' !in timeZone
    ensures ZoneOf(DateLine(name, at, timeZone, formats)) == if timeZone == "UTC" then None else Some(timeZone)
  {
    if timeZone == "UTC" {
      UtcLineNamesNoZone(name, formats.utc(at));
    } else {
      ZoneOfDateIff(name, at, timeZone, formats);
    }
  }

  lemma DatesNameZone(value: Reminder.Raw, at: int, timeZone: string, formats: Formats, start: string, end: string)
    requires ':' !in timeZone && start == "DTSTART" && end == "DTEND"
    ensures var dates, zone := DateLines(value, at, timeZone, formats), if timeZone == "UTC" then None else Some(timeZone);
            ZoneOf(dates[0]) == zone && ZoneOf(dates[1]) == zone
  {
    DateNamesAreNames(start, end);
    DatesAre(value, at, timeZone, formats, start, end);
    DateNamesZone(start, at, timeZone, formats);
    DateNamesZone(end, EndOf(value, at), timeZone, formats);
  }

  lemma ZoneOfFile(value: Reminder.Raw, event: Event, texts: Texts, timeZone: string, zones: Zones, formats: Formats)
    requires PlainFormats(formats, zones) && IsZoneName(timeZone) && timeZone != "UTC"
    ensures var part := ZonePart(ReadCalendar(File(value, event, texts, timeZone, zones, formats)));
            Property(part, "TZID") == Some(timeZone) && Property(part, "X-LIC-LOCATION") == Some(timeZone)
  {
    var offset, year := zones.offset(timeZone), zones.year(timeZone, event.start);
    FileReadsBack(value, event, texts, timeZone, zones, formats);
    ZoneIsFound(timeZone, offset, year, zones.stamp, EventLines(value, event, texts, timeZone, formats));
    ZoneNameIsRead(timeZone, offset, year, zones.stamp, "TZID");
    LocationIsRead(timeZone, offset, year, zones.stamp, "X-LIC-LOCATION");
  }

  /** A zone the runtime knows, under a name of at most 100 characters, is the file's zone: its header, both
      dates and the component that defines it name it. */
  lemma KnownZoneIsWritten(value: Reminder.Raw, event: Event, texts: Texts, known: string -> bool, zones: Zones, formats: Formats)
    requires PlainFormats(formats, zones)
    requires var name := Whitespace.Trim(event.timeZone); name != "" && |name| <= 100 && known(name) && IsZoneName(name) && name != "UTC"
    ensures var name, lines := Whitespace.Trim(event.timeZone), ReadCalendar(Exported(value, event, texts, known, zones, formats));
            && Property(lines, "X-WR-TIMEZONE") == Some(name)
            && ZoneParameter(EventPart(lines), "DTSTART") == Some(name) && ZoneParameter(EventPart(lines), "DTEND") == Some(name)
            && Property(ZonePart(lines), "TZID") == Some(name) && Property(ZonePart(lines), "X-LIC-LOCATION") == Some(name)
  {
    var name := Whitespace.Trim(event.timeZone);
    assert Exported(value, event, texts, known, zones, formats) == File(value, event, texts, name, zones, formats);
    HeaderOfFile(value, event, texts, name, zones, formats);
    DatesOfFile(value, event, texts, name, zones, formats);
    DatesNameZone(value, event.start, name, formats, "DTSTART", "DTEND");
    ZoneOfFile(value, event, texts, name, zones, formats);
  }

  /** In that zone the reader's local start, resolved by the observance in force, is the event's instant. */
  lemma KnownZoneGivesInstant(value: Reminder.Raw, event: Event, texts: Texts, known: string -> bool, zones: Zones, formats: Formats,
                              readStamp: string -> int, readUtc: string -> int, readLocal: string -> int, year: nat)
    requires var name := Whitespace.Trim(event.timeZone); name != "" && |name| <= 100 && known(name) && IsZoneName(name) && name != "UTC"
    requires PlainFormats(formats, zones) && StampsReadBack(zones.stamp, readStamp) && DatesReadBack(formats, zones, readUtc, readLocal)
    requires var offset := zones.offset(Whitespace.Trim(event.timeZone));
             && year == zones.year(Whitespace.Trim(event.timeZone), event.start) && year > 100 && IsLocalYear(offset, event.start, year)
             && -1440 <= offset(event.start) <= 1440 && ChangesOnMinutes(offset) && ChangesSpaced(offset, RangeStart(year), RangeEnd(year))
    ensures var ics := Exported(value, event, texts, known, zones, formats);
            var observances := ReadZone(ZonePart(ReadCalendar(ics)), readStamp);
            && (exists k: nat :: InForce(observances, k, event.start))
            && (forall k: nat :: InForce(observances, k, event.start) ==>
                  readLocal(ReadEvent(ics, "DTSTART")) - observances[k].offsetTo * 60_000 == Seconds(event.start))
  {
    var name := Whitespace.Trim(event.timeZone);
    assert NormalizeTimeZone(Some(event.timeZone), known) == name;
    FileCarriesInstant(value, event, texts, name, zones, formats, readStamp, readUtc, readLocal, year);
  }

  /** With any other zone name, and with none, the file is in UTC: it defines no zone, its dates name none, and
      they read back as the event's start and, the duration later, its end. */
  lemma OtherZoneIsUtc(value: Reminder.Raw, event: Event, texts: Texts, known: string -> bool, zones: Zones, formats: Formats,
                       readUtc: string -> int, readLocal: string -> int)
    requires var name := Whitespace.Trim(event.timeZone); name == "" || |name| > 100 || !known(name) || name == "UTC"
    requires PlainFormats(formats, zones) && DatesReadBack(formats, zones, readUtc, readLocal)
    ensures var ics := Exported(value, event, texts, known, zones, formats);
            var lines := ReadCalendar(ics);
            && Property(lines, "X-WR-TIMEZONE") == Some("UTC") && ZonePart(lines) == []
            && ZoneParameter(EventPart(lines), "DTSTART") == None && ZoneParameter(EventPart(lines), "DTEND") == None
            && readUtc(ReadEvent(ics, "DTSTART")) == Seconds(event.start)
            && readUtc(ReadEvent(ics, "DTEND")) == Seconds(event.start) + Reminder.Normalize(value).durationMinutes * 60_000
  {
    UtcIsWritten(value, event, texts, "UTC", zones, formats, readUtc, readLocal);
    assert NormalizeTimeZone(Some(event.timeZone), known) == "UTC";
  }

  lemma UtcIsWritten(value: Reminder.Raw, event: Event, texts: Texts, utc: string, zones: Zones, formats: Formats,
                     readUtc: string -> int, readLocal: string -> int)
    requires utc == "UTC" && PlainFormats(formats, zones) && DatesReadBack(formats, zones, readUtc, readLocal)
    ensures var ics := File(value, event, texts, utc, zones, formats);
            var lines := ReadCalendar(ics);
            && Property(lines, "X-WR-TIMEZONE") == Some(utc) && ZonePart(lines) == []
            && ZoneParameter(EventPart(lines), "DTSTART") == None && ZoneParameter(EventPart(lines), "DTEND") == None
            && readUtc(ReadEvent(ics, "DTSTART")) == Seconds(event.start)
            && readUtc(ReadEvent(ics, "DTEND")) == Seconds(event.start) + Reminder.Normalize(value).durationMinutes * 60_000
  {
    assert IsZoneName(utc);
    HeaderOfFile(value, event, texts, utc, zones, formats);
    NoZoneInUtc(value, event, texts, utc, zones, formats);
    DatesOfFile(value, event, texts, utc, zones, formats);
    DatesNameZone(value, event.start, utc, formats, "DTSTART", "DTEND");
    UtcDatesRead(value, event, texts, utc, zones, formats, readUtc, readLocal);
  }

  lemma UtcDatesRead(value: Reminder.Raw, event: Event, texts: Texts, utc: string, zones: Zones, formats: Formats,
                     readUtc: string -> int, readLocal: string -> int)
    requires utc == "UTC" && PlainFormats(formats, zones) && DatesReadBack(formats, zones, readUtc, readLocal)
    ensures var ics := File(value, event, texts, utc, zones, formats);
            && readUtc(ReadEvent(ics, "DTSTART")) == Seconds(event.start)
            && readUtc(ReadEvent(ics, "DTEND")) == Seconds(event.start) + Reminder.Normalize(value).durationMinutes * 60_000
  {
    assert IsZoneName(utc);
    FileCarriesDates(value, event, texts, utc, zones, formats, readUtc, readLocal);
  }

  lemma NoZoneInUtc(value: Reminder.Raw, event: Event, texts: Texts, utc: string, zones: Zones, formats: Formats)
    requires utc == "UTC"
    ensures ZonePart(CalendarLines(value, event, texts, utc, zones, formats)) == []
  {
    var open, close := "BEGIN:VTIMEZONE", "END:VTIMEZONE";
    HeaderOpensNothing(utc, open);
    EventOpensNoZone(value, event, texts, utc, formats, open);
    NoComponent(CalendarLines(value, event, texts, utc, zones, formats), open, close);
  }

  // ---------- the frame ----------

  lemma EventLinesEnd(value: Reminder.Raw, event: Event, texts: Texts, timeZone: string, formats: Formats)
    ensures var lines := EventLines(value, event, texts, timeZone, formats); lines[17] == "END:VCALENDAR"
  {
  }

  /** The file is one VCALENDAR object of version 2.0, as section 3.4 and section 3.6 of RFC 5545 ask, published
      on the Gregorian calendar. */
  lemma FileIsCalendar(value: Reminder.Raw, event: Event, texts: Texts, timeZone: string, zones: Zones, formats: Formats)
    requires Plain(timeZone) && PlainFormats(formats, zones)
    ensures var lines := ReadCalendar(File(value, event, texts, timeZone, zones, formats));
            && |lines| > 5 && lines[0] == "BEGIN:VCALENDAR" && lines[1] == "VERSION:2.0"
            && lines[2] == "PRODID:-//LexiGo//Study Reminder//RU" && lines[3] == "CALSCALE:GREGORIAN" && lines[4] == "METHOD:PUBLISH"
            && lines[|lines| - 1] == "END:VCALENDAR"
  {
    FileReadsBack(value, event, texts, timeZone, zones, formats);
    EventLinesEnd(value, event, texts, timeZone, formats);
    Ends(Header(timeZone), Uncached(zones, Call(timeZone, event.start)), EventLines(value, event, texts, timeZone, formats));
  }

  lemma Ends(header: seq<string>, zone: seq<string>, own: seq<string>)
    requires |header| == 6 && |own| == 18
    ensures var lines := header + zone + own;
            && |lines| > 5 && lines[0] == header[0] && lines[1] == header[1] && lines[2] == header[2] && lines[3] == header[3]
            && lines[4] == header[4] && lines[|lines| - 1] == own[17]
  {
  }

  // ---------- title, stamp and identifier ----------

  function UidValue(start: int, time: string): string { "lexigo-" + IntText(start) + "-" + WithoutColon(time) + "@lexigo.app" }

  lemma Rejoined(a: string, b: string, c: string, d: string, e: string, f: string)
    ensures a + b + c + d + e + f == a + (b + c + d + e + f)
  {
  }

  lemma UidIs(start: int, time: string)
    ensures ValueOf(Uid(start, time)) == UidValue(start, time)
  {
    assert "UID:lexigo-" == "UID:" + "lexigo-";
    Rejoined("UID:", "lexigo-", IntText(start), "-", WithoutColon(time), "@lexigo.app");
    Literally("UID:", "UID", UidValue(start, time));
  }

  lemma StampIs(stamp: string)
    ensures ValueOf("DTSTAMP:" + stamp) == stamp
  {
    Literally("DTSTAMP:", "DTSTAMP", stamp);
  }

  lemma FrontNames()
    ensures "BEGIN" != "UID" && "BEGIN" != "DTSTAMP" && "UID" != "DTSTAMP"
  {
    assert "BEGIN"[0] != "UID"[0] && "BEGIN"[0] != "DTSTAMP"[0] && "UID"[0] != "DTSTAMP"[0];
  }

  lemma FrontReads(names: seq<string>, dates: seq<string>, back: seq<string>, a: string, b: string, c: string)
    requires |names| == 3 && NameOf(names[0]) == a && NameOf(names[1]) == b && NameOf(names[2]) == c && a != b && b != c && a != c
    ensures var lines := names + dates + back; Property(lines, b) == Some(ValueOf(names[1])) && Property(lines, c) == Some(ValueOf(names[2]))
  {
    ThreeRead([], names, dates + back, a, b, c);
    assert [] + names + (dates + back) == names + dates + back;
  }

  lemma FrontIsRead(value: Reminder.Raw, event: Event, texts: Texts, timeZone: string, formats: Formats)
    ensures var lines := EventComponent(value, event, texts, timeZone, formats);
            && Property(lines, "UID") == Some(UidValue(event.start, Reminder.Normalize(value).time))
            && Property(lines, "DTSTAMP") == Some(formats.utc(event.generatedAt))
  {
    ComponentSplits(value, event, texts, timeZone, formats);
    BeginIsNamed();
    UidIsNamed(event.start, Reminder.Normalize(value).time);
    UidIs(event.start, Reminder.Normalize(value).time);
    StampIsNamed(formats.utc(event.generatedAt));
    StampIs(formats.utc(event.generatedAt));
    FrontNames();
    FrontReads(NameLines(value, event, formats), DateLines(value, event.start, timeZone, formats), EventBack(value, event, texts),
               "BEGIN", "UID", "DTSTAMP");
  }

  lemma TitleName(name: string)
    requires name == "SUMMARY"
    ensures name != "DTSTART" && name != "DTEND" && name != "RRULE" && name != "BEGIN" && name != "UID" && name != "DTSTAMP"
  {
    assert name[0] == 'S' && "DTSTART"[0] == 'D' && "DTEND"[0] == 'D' && "RRULE"[0] == 'R' && "BEGIN"[0] == 'B' && "UID"[0] == 'U' && "DTSTAMP"[0] == 'D';
  }

  lemma TitleIs(event: Event, texts: Texts, name: string)
    requires name == "SUMMARY"
    ensures var what := WhatLines(event, texts); NameOf(what[0]) == name && ValueOf(what[0]) == EscapeText(texts.title)
  {
    Literally("SUMMARY:", "SUMMARY", EscapeText(texts.title));
  }

  lemma FirstAfterDates(front: seq<string>, dates: seq<string>, what: seq<string>, back: seq<string>, name: string)
    requires NoneNamed(front, name) && |dates| == 3 && NameOf(dates[0]) != name && NameOf(dates[1]) != name && NameOf(dates[2]) != name
    requires what != [] && NameOf(what[0]) == name
    ensures Property(front + dates + (what + back), name) == Some(ValueOf(what[0]))
  {
    ThreeNames(dates, name);
    NoneOfBoth(front, dates, name);
    PropertyInPart(front + dates, what, 0, back, name);
    Reassociated(front + dates, what, back);
  }

  lemma TitleIsRead(value: Reminder.Raw, event: Event, texts: Texts, timeZone: string, formats: Formats, name: string)
    requires ':' !in timeZone && name == "SUMMARY"
    ensures Property(EventComponent(value, event, texts, timeZone, formats), name) == Some(EscapeText(texts.title))
  {
    TitleName(name);
    NamesOfDates(value, event.start, timeZone, formats);
    NamesOfFront(value, event, formats, name);
    ComponentSplits(value, event, texts, timeZone, formats);
    BackSplits(value, event, texts);
    TitleIs(event, texts, name);
    FirstAfterDates(NameLines(value, event, formats), DateLines(value, event.start, timeZone, formats), WhatLines(event, texts),
                    AlarmComponent(MinutesOf(value), texts) + ["END:VEVENT"], name);
  }

  lemma AlarmNames(minutes: int, texts: Texts)
    ensures var body := AlarmBody(minutes, texts);
            && NameOf(body[0]) == "TRIGGER" && NameOf(body[2]) == "DESCRIPTION" && ValueOf(body[2]) == EscapeText(texts.alarm)
  {
    Literally("TRIGGER:", "TRIGGER", Trigger(minutes));
    Literally("DESCRIPTION:", "DESCRIPTION", EscapeText(texts.alarm));
  }

  lemma ActionIs()
    ensures NameOf("ACTION:DISPLAY") == "ACTION" && ValueOf("ACTION:DISPLAY") == "DISPLAY"
  {
    Literally("ACTION:", "ACTION", "DISPLAY");
    assert "ACTION:" + "DISPLAY" == "ACTION:DISPLAY";
  }

  lemma AlarmNamesDiffer()
    ensures "BEGIN" != "TRIGGER" && "BEGIN" != "ACTION" && "BEGIN" != "DESCRIPTION"
    ensures "TRIGGER" != "ACTION" && "TRIGGER" != "DESCRIPTION" && "ACTION" != "DESCRIPTION"
  {
    assert "BEGIN"[0] == 'B' && "TRIGGER"[0] == 'T' && "ACTION"[0] == 'A' && "DESCRIPTION"[0] == 'D';
  }

  lemma ThreeReadIn(open: string, body: seq<string>, close: string, a: string, b: string, c: string)
    requires |body| == 3 && NameOf(body[0]) == a && NameOf(body[1]) == b && NameOf(body[2]) == c && a != b && b != c && a != c
    requires NameOf(open) != a && NameOf(open) != b && NameOf(open) != c
    ensures var lines := [open] + body + [close]; Property(lines, b) == Some(ValueOf(body[1])) && Property(lines, c) == Some(ValueOf(body[2]))
  {
    ThreeRead([open], body, [close], a, b, c);
  }

  lemma AlarmIsRead(minutes: int, texts: Texts)
    ensures Property(AlarmComponent(minutes, texts), "ACTION") == Some("DISPLAY")
    ensures Property(AlarmComponent(minutes, texts), "DESCRIPTION") == Some(EscapeText(texts.alarm))
  {
    BeginIsNamed();
    AlarmNames(minutes, texts);
    ActionIs();
    AlarmNamesDiffer();
    ThreeReadIn("BEGIN:VALARM", AlarmBody(minutes, texts), "END:VALARM", "TRIGGER", "ACTION", "DESCRIPTION");
  }

  /** The reader sees the event's title, when the file was made, and an alarm to be shown with its own text. */
  lemma FileCarriesTexts(value: Reminder.Raw, event: Event, texts: Texts, timeZone: string, zones: Zones, formats: Formats,
                         readUtc: string -> int, readLocal: string -> int)
    requires IsZoneName(timeZone) && PlainFormats(formats, zones) && DatesReadBack(formats, zones, readUtc, readLocal)
    ensures var ics := File(value, event, texts, timeZone, zones, formats);
            && Unescape(ReadEvent(ics, "SUMMARY")) == CrlfAsLf(texts.title)
            && readUtc(ReadEvent(ics, "DTSTAMP")) == Seconds(event.generatedAt)
            && ReadAlarm(ics, "ACTION") == "DISPLAY" && Unescape(ReadAlarm(ics, "DESCRIPTION")) == CrlfAsLf(texts.alarm)
  {
    ReadsEvent(value, event, texts, timeZone, zones, formats);
    TitleIsRead(value, event, texts, timeZone, formats, "SUMMARY");
    FrontIsRead(value, event, texts, timeZone, formats);
    AlarmIsRead(MinutesOf(value), texts);
    EscapeRoundTrip(texts.title);
    EscapeRoundTrip(texts.alarm);
  }

  lemma IntTextSeparates(a: int, b: int)
    requires IntText(a) == IntText(b)
    ensures a == b
  {
    DecimalRoundTrip(if a < 0 then -a else a);
    DecimalRoundTrip(if b < 0 then -b else b);
    assert (IntText(a)[0] == '-' <==> a < 0) && (IntText(b)[0] == '-' <==> b < 0);
    if a < 0 { assert IntText(a)[1..] == Decimal(-a) && IntText(b)[1..] == Decimal(-b); }
  }

  lemma TimeWithoutColon(a: char, b: char, c: char, d: char)
    requires a != ':' && b != ':'
    ensures WithoutColon([a, b, ':', c, d]) == [a, b, c, d]
  {
    assert [':', c, d][1..] == [c, d] && WithoutColon([':', c, d]) == [c, d];
    assert [b, ':', c, d][1..] == [':', c, d] && WithoutColon([b, ':', c, d]) == [b, c, d];
    assert [a, b, ':', c, d][1..] == [b, ':', c, d];
  }

  lemma TimesSeparate(a: string, b: string)
    requires Reminder.IsTime(a) && Reminder.IsTime(b)
    ensures |WithoutColon(a)| == 4 && (WithoutColon(a) == WithoutColon(b) <==> a == b)
  {
    TimeWithoutColon(a[0], a[1], a[3], a[4]);
    TimeWithoutColon(b[0], b[1], b[3], b[4]);
    assert a == [a[0], a[1], ':', a[3], a[4]] && b == [b[0], b[1], ':', b[3], b[4]];
  }

  lemma MiddlesSeparate(p: string, a: string, b: string, d: string, x: string, y: string, q: string)
    requires |x| == |y| && p + a + d + x + q == p + b + d + y + q
    ensures a == b && x == y
  {
    var s, t := p + a + d + x + q, p + b + d + y + q;
    assert |a| == |b|;
    assert s[|p|..|p| + |a|] == a && t[|p|..|p| + |b|] == b;
    assert s[|p + a + d|..|p + a + d| + |x|] == x && t[|p + b + d|..|p + b + d| + |y|] == y;
  }

  /** Two exported events have the same identifier if and only if they start at the same instant and their
      settings ask for the same time of day. */
  lemma SameUidIff(value: Reminder.Raw, event: Event, timeZone: string, other: Reminder.Raw, otherEvent: Event, otherZone: string,
                   texts: Texts, zones: Zones, formats: Formats)
    requires IsZoneName(timeZone) && IsZoneName(otherZone) && PlainFormats(formats, zones)
    ensures ReadEvent(File(value, event, texts, timeZone, zones, formats), "UID")
            == ReadEvent(File(other, otherEvent, texts, otherZone, zones, formats), "UID")
            <==> event.start == otherEvent.start && Reminder.Normalize(value).time == Reminder.Normalize(other).time
  {
    ReadsEvent(value, event, texts, timeZone, zones, formats);
    ReadsEvent(other, otherEvent, texts, otherZone, zones, formats);
    FrontIsRead(value, event, texts, timeZone, formats);
    FrontIsRead(other, otherEvent, texts, otherZone, formats);
    Reminder.NormalizedTime(value);
    Reminder.NormalizedTime(other);
    UidIff(event.start, Reminder.Normalize(value).time, otherEvent.start, Reminder.Normalize(other).time);
  }

  lemma UidIff(start: int, time: string, otherStart: int, otherTime: string)
    requires Reminder.IsTime(time) && Reminder.IsTime(otherTime)
    ensures UidValue(start, time) == UidValue(otherStart, otherTime) <==> start == otherStart && time == otherTime
  {
    TimesSeparate(time, otherTime);
    TimesSeparate(otherTime, time);
    if UidValue(start, time) == UidValue(otherStart, otherTime) {
      MiddlesSeparate("lexigo-", IntText(start), IntText(otherStart), "-", WithoutColon(time), WithoutColon(otherTime), "@lexigo.app");
      IntTextSeparates(start, otherStart);
    }
  }

}
