/** What a reader recovers from the exported calendar file: the zone, the event's time, duration and rule, its
    description and its alarm. Components are found by their BEGIN and END lines, properties by their names.
 */
module CalendarReading {
  import opened Basics
  import opened Decimals
  import opened ContentLines
  import opened CalendarText
  import opened ZoneTransitions
  import opened ZoneTable
  import opened ZoneCache
  import opened CalendarExport
  import Reminder
  import Whitespace

  // ---------- components ----------

  /** Index of the first such line, or the number of lines. */
  function LineIndex(lines: seq<string>, line: string): (k: nat)
    ensures k <= |lines|
  {
    if lines == [] || lines[0] == line then 0 else 1 + LineIndex(lines[1..], line)
  }

  /** The first component of that name, from its BEGIN to the END after it. */
  function Component(lines: seq<string>, open: string, close: string): seq<string> {
    var rest := lines[LineIndex(lines, open)..];
    var end := LineIndex(rest, close);
    if end < |rest| then rest[..end + 1] else []
  }

  function ZonePart(lines: seq<string>): seq<string> { Component(lines, "BEGIN:VTIMEZONE", "END:VTIMEZONE") }

  function EventPart(lines: seq<string>): seq<string> { Component(lines, "BEGIN:VEVENT", "END:VEVENT") }

  function AlarmPart(lines: seq<string>): seq<string> { Component(EventPart(lines), "BEGIN:VALARM", "END:VALARM") }

  lemma {:induction false} LineIndexAt(before: seq<string>, line: string, after: seq<string>)
    requires line !in before
    ensures LineIndex(before + [line] + after, line) == |before|
  {
    var lines := before + [line] + after;
    if before == [] {
      assert lines[0] == line;
    } else {
      assert lines[0] == before[0] && lines[1..] == before[1..] + [line] + after;
      LineIndexAt(before[1..], line, after);
    }
  }

  lemma ComponentIsFound(front: seq<string>, open: string, middle: seq<string>, close: string, back: seq<string>)
    requires open !in front && close !in middle && open != close
    ensures Component(front + ([open] + middle + [close]) + back, open, close) == [open] + middle + [close]
  {
    var part := [open] + middle + [close];
    var lines := front + part + back;
    assert lines == front + [open] + (middle + [close] + back);
    LineIndexAt(front, open, middle + [close] + back);
    var rest := lines[|front|..];
    assert rest == ([open] + middle) + [close] + back;
    LineIndexAt([open] + middle, close, back);
    assert rest[..|middle| + 2] == part;
  }

  // ---------- where the components are ----------

  /** A line that neither opens an event nor ends a zone. */
  predicate IsZoneBody(line: string) {
    |line| > 7 && (line[0] != 'B' || line[7] != 'E') && (line[0] != 'E' || line[4] != 'V')
  }

  ghost predicate AllZoneBody(lines: seq<string>) { forall k :: 0 <= k < |lines| ==> IsZoneBody(lines[k]) }

  lemma ObservanceIsZoneBody(o: Observance, stamp: Stamp)
    ensures AllZoneBody(ObservanceLines(o, stamp))
  {
    var kind := if o.daylight then "DAYLIGHT" else "STANDARD";
    assert ("BEGIN:" + kind)[7] == kind[1] && ("END:" + kind)[4] == kind[0];
  }

  lemma {:induction false} ObservancesAreZoneBody(list: seq<Observance>, stamp: Stamp)
    ensures AllZoneBody(AllObservanceLines(list, stamp))
  {
    if list != [] {
      ObservanceIsZoneBody(list[0], stamp);
      ObservancesAreZoneBody(list[1..], stamp);
    }
  }

  function ZoneNames(timeZone: string): seq<string> { ["TZID:" + timeZone, "X-LIC-LOCATION:" + timeZone] }

  function ZoneBody(timeZone: string, offset: OffsetFunction, startYear: int, stamp: Stamp): seq<string> {
    ZoneNames(timeZone) + AllObservanceLines(ZoneObservances(offset, startYear), stamp)
  }

  lemma ZoneBodyIsBody(timeZone: string, offset: OffsetFunction, startYear: int, stamp: Stamp, line: string)
    requires line == "END:VTIMEZONE" || line == "BEGIN:VEVENT"
    ensures line !in ZoneBody(timeZone, offset, startYear, stamp)
  {
    var names, observances := ZoneNames(timeZone), AllObservanceLines(ZoneObservances(offset, startYear), stamp);
    ObservancesAreZoneBody(ZoneObservances(offset, startYear), stamp);
    assert names[0][0] == 'T' && names[1][0] == 'X';
    assert !IsZoneBody(line);
    assert line !in observances;
  }

  lemma ZoneLinesAre(timeZone: string, offset: OffsetFunction, startYear: int, stamp: Stamp)
    ensures ZoneLines(timeZone, offset, startYear, stamp)
            == ["BEGIN:VTIMEZONE"] + ZoneBody(timeZone, offset, startYear, stamp) + ["END:VTIMEZONE"]
  {
  }

  lemma HeaderOpensNothing(timeZone: string, line: string)
    requires line == "BEGIN:VTIMEZONE" || line == "BEGIN:VEVENT"
    ensures line !in Header(timeZone)
  {
    var header := Header(timeZone);
    assert line[0] == 'B' && line[7] in {'T', 'E'};
    assert header[0][7] == 'C' && header[1][0] == 'V' && header[2][0] == 'P' && header[3][0] == 'C' && header[4][0] == 'M' && header[5][0] == 'X';
  }

  /** The zone's component is found in a file whatever its zone is called. */
  lemma ZoneIsFound(timeZone: string, offset: OffsetFunction, startYear: int, stamp: Stamp, event: seq<string>)
    ensures ZonePart(Header(timeZone) + ZoneLines(timeZone, offset, startYear, stamp) + event)
            == ZoneLines(timeZone, offset, startYear, stamp)
  {
    var open, close := "BEGIN:VTIMEZONE", "END:VTIMEZONE";
    HeaderOpensNothing(timeZone, open);
    ZoneBodyIsBody(timeZone, offset, startYear, stamp, close);
    assert open[0] != close[0];
    ZoneLinesAre(timeZone, offset, startYear, stamp);
    ComponentIsFound(Header(timeZone), open, ZoneBody(timeZone, offset, startYear, stamp), close, event);
  }

  lemma FrontOpensNoEvent(zones: Zones, call: Call, line: string)
    requires line == "BEGIN:VEVENT"
    ensures line !in Header(call.zone) + Uncached(zones, call)
  {
    HeaderOpensNothing(call.zone, line);
    if call.zone != "UTC" {
      var year := zones.year(call.zone, call.eventStart);
      ZoneBodyIsBody(call.zone, zones.offset(call.zone), year, zones.stamp, line);
      ZoneLinesAre(call.zone, zones.offset(call.zone), year, zones.stamp);
      assert line != "BEGIN:VTIMEZONE" && line != "END:VTIMEZONE";
    }
  }

  // ---------- the lines of the event ----------

  /** The lines before the dates, between the dates and the alarm, and the alarm's own. */
  function EventNames(value: Reminder.Raw, event: Event, formats: Formats): seq<string> {
    [Uid(event.start, Reminder.Normalize(value).time), "DTSTAMP:" + formats.utc(event.generatedAt)]
  }

  function AlarmBody(minutes: int, texts: Texts): seq<string> {
    ["TRIGGER:" + Trigger(minutes), "ACTION:DISPLAY", "DESCRIPTION:" + EscapeText(texts.alarm)]
  }

  function AlarmComponent(minutes: int, texts: Texts): seq<string> { ["BEGIN:VALARM"] + AlarmBody(minutes, texts) + ["END:VALARM"] }

  function MinutesOf(value: Reminder.Raw): int { Reminder.Normalize(value).reminderMinutes }

  function EventBody(value: Reminder.Raw, event: Event, texts: Texts, timeZone: string, formats: Formats): seq<string> {
    EventNames(value, event, formats) + DateLines(value, event.start, timeZone, formats) + WhatLines(event, texts)
    + AlarmComponent(MinutesOf(value), texts)
  }

  lemma AlarmLinesAre(minutes: int, texts: Texts)
    ensures AlarmLines(minutes, texts)
            == AlarmComponent(minutes, texts) + (["END:VEVENT"] + ["END:VCALENDAR"])
  {
  }

  lemma NameLinesAre(value: Reminder.Raw, event: Event, formats: Formats)
    ensures NameLines(value, event, formats) == ["BEGIN:VEVENT"] + EventNames(value, event, formats)
  {
  }

  lemma Regrouped(open: seq<string>, names: seq<string>, dates: seq<string>, what: seq<string>, alarm: seq<string>, back: seq<string>)
    ensures ((open + names) + dates) + what + (alarm + back) == open + (names + dates + what + alarm) + back
  {
  }

  lemma EventLinesAre(value: Reminder.Raw, event: Event, texts: Texts, timeZone: string, formats: Formats)
    ensures EventLines(value, event, texts, timeZone, formats)
            == ["BEGIN:VEVENT"] + EventBody(value, event, texts, timeZone, formats) + (["END:VEVENT"] + ["END:VCALENDAR"])
  {
    var minutes := Reminder.Normalize(value).reminderMinutes;
    AlarmLinesAre(minutes, texts);
    NameLinesAre(value, event, formats);
    Regrouped(["BEGIN:VEVENT"], EventNames(value, event, formats), DateLines(value, event.start, timeZone, formats),
              WhatLines(event, texts), AlarmComponent(minutes, texts), ["END:VEVENT"] + ["END:VCALENDAR"]);
  }

  /** A line that opens and ends nothing. */
  predicate IsInner(line: string) { line != "" && line[0] != 'B' && line[0] != 'E' }

  ghost predicate AllInner(lines: seq<string>) { forall k :: 0 <= k < |lines| ==> IsInner(lines[k]) }

  lemma NamesAreInner(value: Reminder.Raw, event: Event, formats: Formats)
    ensures AllInner(EventNames(value, event, formats))
  {
    var lines := EventNames(value, event, formats);
    assert lines[0][0] == 'U' && lines[1][0] == 'D';
  }

  lemma DatesAreInner(value: Reminder.Raw, start: int, timeZone: string, formats: Formats)
    ensures AllInner(DateLines(value, start, timeZone, formats))
  {
    var lines := DateLines(value, start, timeZone, formats);
    assert lines[0][0] == 'D' && lines[1][0] == 'D' && lines[2][0] == 'R';
  }

  lemma WhatIsInner(event: Event, texts: Texts)
    ensures AllInner(WhatLines(event, texts))
  {
    var lines := WhatLines(event, texts);
    assert lines[0][0] == 'S' && lines[1][0] == 'D' && lines[2][0] == 'S' && lines[3][0] == 'S' && lines[4][0] == 'T';
  }

  lemma AlarmIsInner(minutes: int, texts: Texts)
    ensures AllInner(AlarmBody(minutes, texts))
  {
    var lines := AlarmBody(minutes, texts);
    assert lines[0][0] == 'T' && lines[1][0] == 'A' && lines[2][0] == 'D';
  }

  lemma BothInner(a: seq<string>, b: seq<string>)
    requires AllInner(a) && AllInner(b)
    ensures AllInner(a + b)
  {
  }

  /** The lines of the event between its BEGIN and its alarm. */
  function EventCore(value: Reminder.Raw, event: Event, texts: Texts, timeZone: string, formats: Formats): seq<string> {
    EventNames(value, event, formats) + DateLines(value, event.start, timeZone, formats) + WhatLines(event, texts)
  }

  lemma CoreIsInner(value: Reminder.Raw, event: Event, texts: Texts, timeZone: string, formats: Formats)
    ensures AllInner(EventCore(value, event, texts, timeZone, formats))
  {
    NamesAreInner(value, event, formats);
    DatesAreInner(value, event.start, timeZone, formats);
    WhatIsInner(event, texts);
    BothInner(EventNames(value, event, formats), DateLines(value, event.start, timeZone, formats));
    BothInner(EventNames(value, event, formats) + DateLines(value, event.start, timeZone, formats), WhatLines(event, texts));
  }

  lemma NotInInner(lines: seq<string>, line: string)
    requires AllInner(lines) && !IsInner(line)
    ensures line !in lines
  {
  }

  lemma EdgesEndNoEvent(close: string)
    requires close == "END:VEVENT"
    ensures !IsInner(close) && close !in ["BEGIN:VALARM"] && close !in ["END:VALARM"]
  {
    assert close[0] == 'E' && close[5] == 'E' && "BEGIN:VALARM"[0] == 'B' && "END:VALARM"[5] == 'A';
  }

  lemma NotInAny(core: seq<string>, open: seq<string>, body: seq<string>, close: seq<string>, line: string)
    requires line !in core && line !in open && line !in body && line !in close
    ensures line !in core + (open + body + close)
  {
  }

  lemma BodyEndsNoEvent(value: Reminder.Raw, event: Event, texts: Texts, timeZone: string, formats: Formats, close: string)
    requires close == "END:VEVENT"
    ensures close !in EventBody(value, event, texts, timeZone, formats)
  {
    var core, alarm := EventCore(value, event, texts, timeZone, formats), AlarmBody(MinutesOf(value), texts);
    EdgesEndNoEvent(close);
    CoreIsInner(value, event, texts, timeZone, formats);
    AlarmIsInner(MinutesOf(value), texts);
    NotInInner(core, close);
    NotInInner(alarm, close);
    NotInAny(core, ["BEGIN:VALARM"], alarm, ["END:VALARM"], close);
  }

  function EventComponent(value: Reminder.Raw, event: Event, texts: Texts, timeZone: string, formats: Formats): seq<string> {
    ["BEGIN:VEVENT"] + EventBody(value, event, texts, timeZone, formats) + ["END:VEVENT"]
  }

  /** The event's component is found in a file whatever the zone's component holds. */
  lemma EventIsFound(value: Reminder.Raw, event: Event, texts: Texts, timeZone: string, zones: Zones, formats: Formats)
    ensures EventPart(CalendarLines(value, event, texts, timeZone, zones, formats))
            == EventComponent(value, event, texts, timeZone, formats)
  {
    var open, close := "BEGIN:VEVENT", "END:VEVENT";
    var front, body := Header(timeZone) + Uncached(zones, Call(timeZone, event.start)), EventBody(value, event, texts, timeZone, formats);
    FrontOpensNoEvent(zones, Call(timeZone, event.start), open);
    BodyEndsNoEvent(value, event, texts, timeZone, formats, close);
    EventLinesAre(value, event, texts, timeZone, formats);
    assert open[0] != close[0];
    FoundBeforeLast(front, open, body, close, "END:VCALENDAR");
  }

  lemma FoundBeforeLast(front: seq<string>, open: string, body: seq<string>, close: string, last: string)
    requires open !in front && close !in body && open != close
    ensures Component(front + ([open] + body + ([close] + [last])), open, close) == [open] + body + [close]
  {
    ComponentIsFound(front, open, body, close, [last]);
    assert front + ([open] + body + ([close] + [last])) == front + ([open] + body + [close]) + [last];
  }

  // ---------- properties ----------

  predicate EndsName(c: char) { c == ':' || c == ';' }

  /** What stands before the first colon or semicolon. */
  function NameOf(line: string): string {
    if line == "" || EndsName(line[0]) then "" else [line[0]] + NameOf(line[1..])
  }

  /** What stands after the first colon. */
  function ValueOf(line: string): string {
    if line == "" then "" else if line[0] == ':' then line[1..] else ValueOf(line[1..])
  }

  /** The value of the first property of that name. */
  function Property(lines: seq<string>, name: string): Option<string> {
    if lines == [] then None else if NameOf(lines[0]) == name then Some(ValueOf(lines[0])) else Property(lines[1..], name)
  }

  ghost predicate IsName(name: string) { forall k :: 0 <= k < |name| ==> !EndsName(name[k]) }

  lemma {:induction false} NameIs(name: string, rest: string)
    requires IsName(name) && rest != "" && EndsName(rest[0])
    ensures NameOf(name + rest) == name
  {
    if name == "" {
      assert name + rest == rest;
    } else {
      assert (name + rest)[1..] == name[1..] + rest;
      NameIs(name[1..], rest);
    }
  }

  lemma {:induction false} ValueIs(front: string, value: string)
    requires ':' !in front
    ensures ValueOf(front + ":" + value) == value
  {
    var line := front + ":" + value;
    if front == "" {
      assert line[1..] == value;
    } else {
      assert line[1..] == front[1..] + ":" + value;
      ValueIs(front[1..], value);
    }
  }

  ghost predicate NoneNamed(lines: seq<string>, name: string) { forall k :: 0 <= k < |lines| ==> NameOf(lines[k]) != name }

  lemma {:induction false} PropertyIs(front: seq<string>, line: string, back: seq<string>, name: string)
    requires NoneNamed(front, name) && NameOf(line) == name
    ensures Property(front + [line] + back, name) == Some(ValueOf(line))
  {
    var lines := front + [line] + back;
    if front == [] {
      assert lines[0] == line;
    } else {
      assert lines[1..] == front[1..] + [line] + back && NameOf(lines[0]) != name;
      PropertyIs(front[1..], line, back, name);
    }
  }

  /** A line that is a name, a colon and a value. */
  lemma Plainly(name: string, value: string)
    requires IsName(name)
    ensures NameOf(name + ":" + value) == name && ValueOf(name + ":" + value) == value
  {
    assert name + ":" + value == name + (":" + value);
    NameIs(name, ":" + value);
    ValueIs(name, value);
  }

  lemma DateLineReads(name: string, at: int, timeZone: string, formats: Formats)
    requires IsName(name) && ':' !in timeZone
    ensures NameOf(DateLine(name, at, timeZone, formats)) == name
    ensures ValueOf(DateLine(name, at, timeZone, formats)) == if timeZone == "UTC" then formats.utc(at) else formats.local(timeZone, at)
  {
    if timeZone == "UTC" {
      Plainly(name, formats.utc(at));
    } else {
      var rest := ";TZID=" + timeZone + ":" + formats.local(timeZone, at);
      assert DateLine(name, at, timeZone, formats) == name + rest;
      NameIs(name, rest);
      ValueIs(name + ";TZID=" + timeZone, formats.local(timeZone, at));
    }
  }

  lemma Literally(prefix: string, name: string, value: string)
    requires prefix == name + ":" && IsName(name)
    ensures NameOf(prefix + value) == name && ValueOf(prefix + value) == value
  {
    Plainly(name, value);
  }

  lemma UidIsNamed(start: int, time: string)
    ensures NameOf(Uid(start, time)) == "UID"
  {
    var rest := IntText(start) + "-" + WithoutColon(time) + "@lexigo.app";
    assert Uid(start, time) == "UID:" + ("lexigo-" + rest);
    Literally("UID:", "UID", "lexigo-" + rest);
  }

  lemma BeginIsNamed()
    ensures NameOf("BEGIN:VEVENT") == "BEGIN" && NameOf("BEGIN:VALARM") == "BEGIN"
  {
    Literally("BEGIN:", "BEGIN", "VEVENT");
    Literally("BEGIN:", "BEGIN", "VALARM");
    assert "BEGIN:" + "VEVENT" == "BEGIN:VEVENT" && "BEGIN:" + "VALARM" == "BEGIN:VALARM";
  }

  // ---------- the properties of the event ----------

  lemma ThreeNames(lines: seq<string>, name: string)
    requires |lines| == 3 && NameOf(lines[0]) != name && NameOf(lines[1]) != name && NameOf(lines[2]) != name
    ensures NoneNamed(lines, name)
  {
  }

  lemma StampIsNamed(stamp: string)
    ensures NameOf("DTSTAMP:" + stamp) == "DTSTAMP"
  {
    Literally("DTSTAMP:", "DTSTAMP", stamp);
  }

  lemma NamesOfFront(value: Reminder.Raw, event: Event, formats: Formats, name: string)
    requires name != "BEGIN" && name != "UID" && name != "DTSTAMP"
    ensures NoneNamed(NameLines(value, event, formats), name)
  {
    BeginIsNamed();
    UidIsNamed(event.start, Reminder.Normalize(value).time);
    StampIsNamed(formats.utc(event.generatedAt));
    ThreeNames(NameLines(value, event, formats), name);
  }

  lemma NoneOfBoth(a: seq<string>, b: seq<string>, name: string)
    requires NoneNamed(a, name) && NoneNamed(b, name)
    ensures NoneNamed(a + b, name)
  {
  }

  /** A property found at place `k` of a part of the lines. */
  lemma PropertyInPart(front: seq<string>, part: seq<string>, k: nat, back: seq<string>, name: string)
    requires k < |part| && NoneNamed(front, name) && NoneNamed(part[..k], name) && NameOf(part[k]) == name
    ensures Property(front + part + back, name) == Some(ValueOf(part[k]))
  {
    NoneOfBoth(front, part[..k], name);
    PropertyIs(front + part[..k], part[k], part[k + 1..] + back, name);
    assert front + part + back == (front + part[..k]) + [part[k]] + (part[k + 1..] + back);
  }

  /** What follows the dates of an event. */
  function EventBack(value: Reminder.Raw, event: Event, texts: Texts): seq<string> {
    WhatLines(event, texts) + AlarmComponent(MinutesOf(value), texts) + ["END:VEVENT"]
  }

  lemma Split(open: seq<string>, names: seq<string>, dates: seq<string>, what: seq<string>, alarm: seq<string>, close: seq<string>)
    ensures open + (names + dates + what + alarm) + close == (open + names) + dates + (what + alarm + close)
  {
  }

  lemma ComponentSplits(value: Reminder.Raw, event: Event, texts: Texts, timeZone: string, formats: Formats)
    ensures EventComponent(value, event, texts, timeZone, formats)
            == NameLines(value, event, formats) + DateLines(value, event.start, timeZone, formats) + EventBack(value, event, texts)
  {
    NameLinesAre(value, event, formats);
    Split(["BEGIN:VEVENT"], EventNames(value, event, formats), DateLines(value, event.start, timeZone, formats), WhatLines(event, texts),
          AlarmComponent(MinutesOf(value), texts), ["END:VEVENT"]);
  }

  /** The dates and the rule are read by their names. */
  lemma DatesAreRead(value: Reminder.Raw, event: Event, texts: Texts, timeZone: string, formats: Formats)
    requires ':' !in timeZone
    ensures var lines, dates := EventComponent(value, event, texts, timeZone, formats), DateLines(value, event.start, timeZone, formats);
            && Property(lines, "DTSTART") == Some(ValueOf(dates[0])) && Property(lines, "DTEND") == Some(ValueOf(dates[1]))
            && Property(lines, "RRULE") == Some(ValueOf(dates[2]))
  {
    var front, dates, back := NameLines(value, event, formats), DateLines(value, event.start, timeZone, formats), EventBack(value, event, texts);
    NamesOfDates(value, event.start, timeZone, formats);
    ComponentSplits(value, event, texts, timeZone, formats);
    DateNames();
    NamesOfFront(value, event, formats, "DTSTART");
    NamesOfFront(value, event, formats, "DTEND");
    NamesOfFront(value, event, formats, "RRULE");
    ThreeRead(front, dates, back, "DTSTART", "DTEND", "RRULE");
  }

  lemma ThreeRead(front: seq<string>, dates: seq<string>, back: seq<string>, a: string, b: string, c: string)
    requires |dates| == 3 && NameOf(dates[0]) == a && NameOf(dates[1]) == b && NameOf(dates[2]) == c && a != b && b != c && a != c
    requires NoneNamed(front, a) && NoneNamed(front, b) && NoneNamed(front, c)
    ensures var lines := front + dates + back;
            && Property(lines, a) == Some(ValueOf(dates[0])) && Property(lines, b) == Some(ValueOf(dates[1]))
            && Property(lines, c) == Some(ValueOf(dates[2]))
  {
    PropertyInPart(front, dates, 0, back, a);
    PropertyInPart(front, dates, 1, back, b);
    PropertyInPart(front, dates, 2, back, c);
  }

  lemma DateNames()
    ensures "DTSTART" != "DTSTAMP" && "DTEND" != "RRULE" && "BEGIN" != "DTEND" && "BEGIN" != "RRULE"
  {
    assert "DTSTART"[5] != "DTSTAMP"[5] && "DTEND"[0] != "RRULE"[0] && "BEGIN"[0] != "DTEND"[0] && "BEGIN"[0] != "RRULE"[0];
  }

  lemma NamesOfDates(value: Reminder.Raw, start: int, timeZone: string, formats: Formats)
    requires ':' !in timeZone
    ensures var dates := DateLines(value, start, timeZone, formats);
            NameOf(dates[0]) == "DTSTART" && NameOf(dates[1]) == "DTEND" && NameOf(dates[2]) == "RRULE"
  {
    DateLineReads("DTSTART", start, timeZone, formats);
    DateLineReads("DTEND", start + Reminder.Normalize(value).durationMinutes * 60_000, timeZone, formats);
    Literally("RRULE:", "RRULE", Reminder.RecurrenceRule(value));
  }

  lemma NamesOfTexts(event: Event, texts: Texts)
    ensures var what := WhatLines(event, texts);
            && NameOf(what[0]) == "SUMMARY" && NameOf(what[1]) == "DESCRIPTION"
            && ValueOf(what[1]) == EscapeText(EventDescription(texts, event.appURL))
  {
    Literally("SUMMARY:", "SUMMARY", EscapeText(texts.title));
    Literally("DESCRIPTION:", "DESCRIPTION", EscapeText(EventDescription(texts, event.appURL)));
  }

  lemma SecondRead(front: seq<string>, dates: seq<string>, what: seq<string>, back: seq<string>, name: string)
    requires NoneNamed(front, name) && |dates| == 3 && NameOf(dates[0]) != name && NameOf(dates[1]) != name && NameOf(dates[2]) != name
    requires |what| >= 2 && NameOf(what[0]) != name && NameOf(what[1]) == name
    ensures Property(front + dates + (what + back), name) == Some(ValueOf(what[1]))
  {
    ThreeNames(dates, name);
    NoneOfBoth(front, dates, name);
    PropertyInPart(front + dates, what, 1, back, name);
    Reassociated(front + dates, what, back);
  }

  lemma BackSplits(value: Reminder.Raw, event: Event, texts: Texts)
    ensures EventBack(value, event, texts) == WhatLines(event, texts) + (AlarmComponent(MinutesOf(value), texts) + ["END:VEVENT"])
  {
    Reassociated(WhatLines(event, texts), AlarmComponent(MinutesOf(value), texts), ["END:VEVENT"]);
  }

  lemma DescriptionIsRead(value: Reminder.Raw, event: Event, texts: Texts, timeZone: string, formats: Formats)
    requires ':' !in timeZone
    ensures Property(EventComponent(value, event, texts, timeZone, formats), "DESCRIPTION")
            == Some(EscapeText(EventDescription(texts, event.appURL)))
  {
    NamesOfDates(value, event.start, timeZone, formats);
    NamesOfFront(value, event, formats, "DESCRIPTION");
    NamesOfTexts(event, texts);
    ComponentSplits(value, event, texts, timeZone, formats);
    BackSplits(value, event, texts);
    SecondRead(NameLines(value, event, formats), DateLines(value, event.start, timeZone, formats), WhatLines(event, texts),
               AlarmComponent(MinutesOf(value), texts) + ["END:VEVENT"], "DESCRIPTION");
  }

  lemma Reassociated(a: seq<string>, b: seq<string>, c: seq<string>)
    ensures a + b + c == a + (b + c)
  {
  }
  // ---------- the alarm ----------

  lemma FrontOpensNoAlarm(value: Reminder.Raw, event: Event, texts: Texts, timeZone: string, formats: Formats, open: string)
    requires open == "BEGIN:VALARM"
    ensures open !in NameLines(value, event, formats) + DateLines(value, event.start, timeZone, formats) + WhatLines(event, texts)
  {
    NamesAreInner(value, event, formats);
    DatesAreInner(value, event.start, timeZone, formats);
    WhatIsInner(event, texts);
    NotInInner(EventNames(value, event, formats), open);
    NotInInner(DateLines(value, event.start, timeZone, formats), open);
    NotInInner(WhatLines(event, texts), open);
    NameLinesAre(value, event, formats);
    assert open[7] != "BEGIN:VEVENT"[7];
  }

  /** The alarm's component is found inside the event's. */
  lemma AlarmIsFound(value: Reminder.Raw, event: Event, texts: Texts, timeZone: string, zones: Zones, formats: Formats)
    ensures AlarmPart(CalendarLines(value, event, texts, timeZone, zones, formats)) == AlarmComponent(MinutesOf(value), texts)
  {
    var open, close := "BEGIN:VALARM", "END:VALARM";
    var names, dates, what := NameLines(value, event, formats), DateLines(value, event.start, timeZone, formats), WhatLines(event, texts);
    EventIsFound(value, event, texts, timeZone, zones, formats);
    ComponentSplits(value, event, texts, timeZone, formats);
    Split([], names, dates, what, AlarmComponent(MinutesOf(value), texts), ["END:VEVENT"]);
    FrontOpensNoAlarm(value, event, texts, timeZone, formats, open);
    AlarmIsInner(MinutesOf(value), texts);
    NotInInner(AlarmBody(MinutesOf(value), texts), close);
    assert open[0] != close[0];
    FoundAfterThree(names, dates, what, open, AlarmBody(MinutesOf(value), texts), close, ["END:VEVENT"]);
  }

  lemma FoundAfterThree(a: seq<string>, b: seq<string>, c: seq<string>, open: string, middle: seq<string>, close: string, back: seq<string>)
    requires open !in a + b + c && close !in middle && open != close
    ensures Component(a + b + (c + ([open] + middle + [close]) + back), open, close) == [open] + middle + [close]
  {
    ComponentIsFound(a + b + c, open, middle, close, back);
    assert a + b + (c + ([open] + middle + [close]) + back) == (a + b + c) + ([open] + middle + [close]) + back;
  }

  /** Minutes before the start at which an alarm goes off. */
  function ReadTrigger(text: string): int {
    if |text| < 5 || text[0] != '-' then 0 else Value(text[3..|text| - 1])
  }

  lemma TriggerReadsBack(minutes: nat)
    ensures ReadTrigger(Trigger(minutes)) == minutes
  {
    if minutes > 0 {
      var text := Trigger(minutes);
      DecimalRoundTrip(minutes);
      assert text == "-PT" + Decimal(minutes) + "M";
      assert text[3..|text| - 1] == Decimal(minutes);
    }
  }

  lemma FirstOfBody(open: string, body: seq<string>, close: string, name: string)
    requires body != [] && NameOf(open) != name && NameOf(body[0]) == name
    ensures Property([open] + body + [close], name) == Some(ValueOf(body[0]))
  {
    PropertyInPart([open], body, 0, [close], name);
  }

  lemma TriggerIsNamed(minutes: int, texts: Texts)
    ensures NameOf(AlarmBody(minutes, texts)[0]) == "TRIGGER" && ValueOf(AlarmBody(minutes, texts)[0]) == Trigger(minutes)
  {
    Literally("TRIGGER:", "TRIGGER", Trigger(minutes));
  }

  lemma AlarmOpensNoTrigger()
    ensures "BEGIN" != "TRIGGER"
  {
    assert "BEGIN"[0] != "TRIGGER"[0];
  }

  lemma TriggerIsRead(minutes: int, texts: Texts)
    ensures Property(AlarmComponent(minutes, texts), "TRIGGER") == Some(Trigger(minutes))
  {
    BeginIsNamed();
    AlarmOpensNoTrigger();
    TriggerIsNamed(minutes, texts);
    FirstOfBody("BEGIN:VALARM", AlarmBody(minutes, texts), "END:VALARM", "TRIGGER");
  }

  // ---------- what a reader of the file has ----------

  /** A property of the file's event, or of its alarm, as a reader sees it; empty if there is none. */
  function ReadEvent(ics: string, name: string): string {
    var value := Property(EventPart(ReadCalendar(ics)), name);
    if value.Some? then value.value else ""
  }

  function ReadAlarm(ics: string, name: string): string {
    var value := Property(AlarmPart(ReadCalendar(ics)), name);
    if value.Some? then value.value else ""
  }

  function File(value: Reminder.Raw, event: Event, texts: Texts, timeZone: string, zones: Zones, formats: Formats): string {
    EmitCalendar(CalendarLines(value, event, texts, timeZone, zones, formats))
  }

  /** A zone name as the runtime has them. */
  predicate IsZoneName(timeZone: string) { Plain(timeZone) && ':' !in timeZone }

  lemma ReadsEvent(value: Reminder.Raw, event: Event, texts: Texts, timeZone: string, zones: Zones, formats: Formats)
    requires Plain(timeZone) && PlainFormats(formats, zones)
    ensures var lines := ReadCalendar(File(value, event, texts, timeZone, zones, formats));
            EventPart(lines) == EventComponent(value, event, texts, timeZone, formats)
            && AlarmPart(lines) == AlarmComponent(MinutesOf(value), texts)
  {
    FileReadsBack(value, event, texts, timeZone, zones, formats);
    EventIsFound(value, event, texts, timeZone, zones, formats);
    AlarmIsFound(value, event, texts, timeZone, zones, formats);
  }

  /** The reader sees the event's description, with the address on a line of its own if there is one, and with
      CRLF read as LF. */
  lemma FileCarriesDescription(value: Reminder.Raw, event: Event, texts: Texts, timeZone: string, zones: Zones, formats: Formats)
    requires IsZoneName(timeZone) && PlainFormats(formats, zones)
    ensures Unescape(ReadEvent(File(value, event, texts, timeZone, zones, formats), "DESCRIPTION"))
            == CrlfAsLf(if event.appURL.Some? && Whitespace.Trim(event.appURL.value) != ""
                        then texts.description + "\n" + Whitespace.Trim(event.appURL.value) else texts.description)
  {
    ReadsEvent(value, event, texts, timeZone, zones, formats);
    DescriptionIsRead(value, event, texts, timeZone, formats);
    EscapeRoundTrip(EventDescription(texts, event.appURL));
  }

  /** The dates, the rule and the alarm's trigger, as they were written. */
  lemma ReadsDates(value: Reminder.Raw, event: Event, texts: Texts, timeZone: string, zones: Zones, formats: Formats)
    requires IsZoneName(timeZone) && PlainFormats(formats, zones)
    ensures var ics, dates := File(value, event, texts, timeZone, zones, formats), DateLines(value, event.start, timeZone, formats);
            && ReadEvent(ics, "DTSTART") == ValueOf(dates[0]) && ReadEvent(ics, "DTEND") == ValueOf(dates[1])
            && ReadEvent(ics, "RRULE") == ValueOf(dates[2])
  {
    ReadsEvent(value, event, texts, timeZone, zones, formats);
    DatesAreRead(value, event, texts, timeZone, formats);
  }

  lemma ReadsTrigger(value: Reminder.Raw, event: Event, texts: Texts, timeZone: string, zones: Zones, formats: Formats)
    requires IsZoneName(timeZone) && PlainFormats(formats, zones)
    ensures ReadAlarm(File(value, event, texts, timeZone, zones, formats), "TRIGGER") == Trigger(MinutesOf(value))
  {
    ReadsEvent(value, event, texts, timeZone, zones, formats);
    TriggerIsRead(MinutesOf(value), texts);
  }

  lemma RuleIsRead(value: Reminder.Raw, start: int, timeZone: string, formats: Formats)
    ensures ValueOf(DateLines(value, start, timeZone, formats)[2]) == Reminder.RecurrenceRule(value)
  {
    Literally("RRULE:", "RRULE", Reminder.RecurrenceRule(value));
  }

  /** The reader's recurrence names the days the occurrence was searched on, and its alarm goes off as many
      minutes ahead as the settings ask. */
  lemma FileCarriesSchedule(value: Reminder.Raw, event: Event, texts: Texts, timeZone: string, zones: Zones, formats: Formats)
    requires IsZoneName(timeZone) && PlainFormats(formats, zones)
    ensures var ics := File(value, event, texts, timeZone, zones, formats);
            && Reminder.ReadRule(ReadEvent(ics, "RRULE")) == Reminder.EffectiveWeekdays(Reminder.Normalize(value))
            && ReadTrigger(ReadAlarm(ics, "TRIGGER")) == Reminder.Normalize(value).reminderMinutes
  {
    ReadsDates(value, event, texts, timeZone, zones, formats);
    RuleIsRead(value, event.start, timeZone, formats);
    Reminder.RuleNamesEffectiveDays(value);
    ReadsTrigger(value, event, texts, timeZone, zones, formats);
    Reminder.BoundedTwice(value.reminderMinutes, 10, 0, 1440);
    TriggerReadsBack(MinutesOf(value));
  }

  /** Whole seconds, as the date formats keep them. */
  function Seconds(t: int): int { t / 1_000 * 1_000 }

  /** What is written of an instant reads back: the instant in UTC, the zone's local time elsewhere. */
  ghost predicate DatesReadBack(formats: Formats, zones: Zones, readUtc: string -> int, readLocal: string -> int) {
    && (forall t :: readUtc(formats.utc(t)) == Seconds(t))
    && (forall zone, t :: readLocal(formats.local(zone, t)) == Seconds(t + zones.offset(zone)(t) * 60_000))
  }

  /** A date's text as local time of the zone. */
  function ReadText(text: string, timeZone: string, readUtc: string -> int, readLocal: string -> int): int {
    if timeZone == "UTC" then readUtc(text) else readLocal(text)
  }

  function OffsetOf(zones: Zones, timeZone: string, t: int): int { if timeZone == "UTC" then 0 else zones.offset(timeZone)(t) }

  lemma SecondsShift(t: int, minutes: int)
    ensures Seconds(t + minutes * 60_000) == Seconds(t) + minutes * 60_000
  {
    assert t + minutes * 60_000 == t + (minutes * 60) * 1_000;
  }

  /** An instant in local time, to the second. */
  function Local(zones: Zones, timeZone: string, at: int): int { Seconds(at) + OffsetOf(zones, timeZone, at) * 60_000 }

  function EndOf(value: Reminder.Raw, start: int): int { start + Reminder.Normalize(value).durationMinutes * 60_000 }

  lemma WrittenReads(name: string, at: int, timeZone: string, zones: Zones, formats: Formats, readUtc: string -> int, readLocal: string -> int)
    requires IsName(name) && IsZoneName(timeZone) && DatesReadBack(formats, zones, readUtc, readLocal)
    ensures ReadText(ValueOf(DateLine(name, at, timeZone, formats)), timeZone, readUtc, readLocal) == Local(zones, timeZone, at)
  {
    DateLineReads(name, at, timeZone, formats);
    SecondsShift(at, OffsetOf(zones, timeZone, at));
  }

  lemma BothWrittenRead(value: Reminder.Raw, start: int, timeZone: string, zones: Zones, formats: Formats,
                        readUtc: string -> int, readLocal: string -> int)
    requires IsZoneName(timeZone) && DatesReadBack(formats, zones, readUtc, readLocal)
    ensures var dates := DateLines(value, start, timeZone, formats);
            && ReadText(ValueOf(dates[0]), timeZone, readUtc, readLocal) == Local(zones, timeZone, start)
            && ReadText(ValueOf(dates[1]), timeZone, readUtc, readLocal) == Local(zones, timeZone, EndOf(value, start))
  {
    WrittenReads("DTSTART", start, timeZone, zones, formats, readUtc, readLocal);
    WrittenReads("DTEND", EndOf(value, start), timeZone, zones, formats, readUtc, readLocal);
  }

  /** What the texts of the dates come to. */
  predicate AreDates(value: Reminder.Raw, at: int, timeZone: string, zones: Zones, start: int, end: int) {
    && start == Local(zones, timeZone, at)
    && end - start == (Reminder.Normalize(value).durationMinutes + OffsetOf(zones, timeZone, EndOf(value, at)) - OffsetOf(zones, timeZone, at)) * 60_000
  }

  lemma LocalsAreDates(value: Reminder.Raw, at: int, timeZone: string, zones: Zones)
    ensures AreDates(value, at, timeZone, zones, Local(zones, timeZone, at), Local(zones, timeZone, EndOf(value, at)))
  {
    SecondsShift(at, Reminder.Normalize(value).durationMinutes);
  }

  lemma TextsAreDates(value: Reminder.Raw, at: int, timeZone: string, zones: Zones, formats: Formats,
                      readUtc: string -> int, readLocal: string -> int, start: string, end: string)
    requires IsZoneName(timeZone) && DatesReadBack(formats, zones, readUtc, readLocal)
    requires var dates := DateLines(value, at, timeZone, formats); start == ValueOf(dates[0]) && end == ValueOf(dates[1])
    ensures AreDates(value, at, timeZone, zones, ReadText(start, timeZone, readUtc, readLocal), ReadText(end, timeZone, readUtc, readLocal))
  {
    BothWrittenRead(value, at, timeZone, zones, formats, readUtc, readLocal);
    LocalsAreDates(value, at, timeZone, zones);
  }

  /** The local start and end of the event are its own, in its zone; between them lies the duration the settings
      ask for, but for a change of the zone's offset during the event. */
  lemma FileCarriesDates(value: Reminder.Raw, event: Event, texts: Texts, timeZone: string, zones: Zones, formats: Formats,
                         readUtc: string -> int, readLocal: string -> int)
    requires IsZoneName(timeZone) && PlainFormats(formats, zones) && DatesReadBack(formats, zones, readUtc, readLocal)
    ensures var ics := File(value, event, texts, timeZone, zones, formats);
            AreDates(value, event.start, timeZone, zones,
                     ReadText(ReadEvent(ics, "DTSTART"), timeZone, readUtc, readLocal), ReadText(ReadEvent(ics, "DTEND"), timeZone, readUtc, readLocal))
  {
    var ics := File(value, event, texts, timeZone, zones, formats);
    ReadsDates(value, event, texts, timeZone, zones, formats);
    TextsAreDates(value, event.start, timeZone, zones, formats, readUtc, readLocal, ReadEvent(ics, "DTSTART"), ReadEvent(ics, "DTEND"));
  }

  /** A reader of the file that applies its VTIMEZONE by the rules of RFC 5545 has, at every instant of
      the covered years, an observance in force, and it gives the zone's own offset. */
  lemma FileCarriesZone(value: Reminder.Raw, event: Event, texts: Texts, timeZone: string, zones: Zones, formats: Formats,
                        readStamp: string -> int, t: int, year: nat)
    requires Plain(timeZone) && timeZone != "UTC" && PlainFormats(formats, zones) && StampsReadBack(zones.stamp, readStamp)
    requires year == zones.year(timeZone, event.start) && RangeStart(year) <= t <= RangeEnd(year)
    requires ChangesOnMinutes(zones.offset(timeZone)) && ChangesSpaced(zones.offset(timeZone), RangeStart(year), RangeEnd(year))
    ensures var observances := ReadZone(ZonePart(ReadCalendar(File(value, event, texts, timeZone, zones, formats))), readStamp);
            && (exists k: nat :: InForce(observances, k, t))
            && (forall k: nat :: InForce(observances, k, t) ==> observances[k].offsetTo == zones.offset(timeZone)(t))
  {
    FileReadsBack(value, event, texts, timeZone, zones, formats);
    ZoneIsFound(timeZone, zones.offset(timeZone), year, zones.stamp, EventLines(value, event, texts, timeZone, formats));
    ZoneLinesRefineOffset(timeZone, zones.offset(timeZone), year, zones.stamp, readStamp, t);
  }

  /** The reader's local start, resolved by the observance in force at the event, is the event's instant,
      to the second. */
  lemma FileCarriesInstant(value: Reminder.Raw, event: Event, texts: Texts, timeZone: string, zones: Zones, formats: Formats,
                           readStamp: string -> int, readUtc: string -> int, readLocal: string -> int, year: nat)
    requires IsZoneName(timeZone) && timeZone != "UTC" && PlainFormats(formats, zones)
    requires StampsReadBack(zones.stamp, readStamp) && DatesReadBack(formats, zones, readUtc, readLocal)
    requires year == zones.year(timeZone, event.start) && year > 100 && IsLocalYear(zones.offset(timeZone), event.start, year)
    requires -1440 <= zones.offset(timeZone)(event.start) <= 1440
    requires ChangesOnMinutes(zones.offset(timeZone)) && ChangesSpaced(zones.offset(timeZone), RangeStart(year), RangeEnd(year))
    ensures var ics := File(value, event, texts, timeZone, zones, formats);
            var observances := ReadZone(ZonePart(ReadCalendar(ics)), readStamp);
            && (exists k: nat :: InForce(observances, k, event.start))
            && (forall k: nat :: InForce(observances, k, event.start) ==>
                  ReadText(ReadEvent(ics, "DTSTART"), timeZone, readUtc, readLocal) - observances[k].offsetTo * 60_000 == Seconds(event.start))
  {
    var offset := zones.offset(timeZone);
    EventIsCovered(offset, event.start, year);
    FileCarriesZone(value, event, texts, timeZone, zones, formats, readStamp, event.start, year);
    FileCarriesDates(value, event, texts, timeZone, zones, formats, readUtc, readLocal);
  }
}
