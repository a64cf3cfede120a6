/** The scan that turns a zone's UTC-offset function into a list of changes:
    seven-day steps, each change narrowed down to the minute by bisection.

    Instants are milliseconds; an offset function gives the minutes to add to UTC.
 */
module ZoneTransitions {
  import opened Basics

  const MINUTE: int := 60_000
  const SCAN_STEP: int := 7 * 24 * 60 * 60 * 1_000

  type OffsetFunction = int -> int

  datatype Transition = Transition(at: int, offsetFrom: int, offsetTo: int)

  function FloorMinute(t: int): int { t / 60_000 * 60_000 }

  function CeilMinute(t: int): int { -(-t / 60_000 * 60_000) }

  predicate OnMinute(t: int) { t % 60_000 == 0 }

  lemma MinuteBounds(t: int)
    ensures OnMinute(FloorMinute(t)) && FloorMinute(t) <= t < FloorMinute(t) + MINUTE
    ensures OnMinute(CeilMinute(t)) && t <= CeilMinute(t) < t + MINUTE
    ensures OnMinute(t) ==> FloorMinute(t) == t == CeilMinute(t)
  {
  }

  // ---------- bisection ----------

  function Midpoint(lower: int, upper: int): int { FloorMinute((lower + upper) / 2) }

  lemma MinutesApart(lower: int, upper: int)
    requires OnMinute(lower) && OnMinute(upper) && upper - lower > MINUTE
    ensures upper - lower >= 2 * MINUTE
  {
    assert (upper - lower) % 60_000 == 0;
  }

  /** Between whole minutes more than a minute apart the midpoint lies strictly inside:
      the guard that stops on `midpoint <= lower` never fires. */
  lemma MidpointIsInside(lower: int, upper: int)
    requires OnMinute(lower) && OnMinute(upper) && upper - lower > MINUTE
    ensures OnMinute(Midpoint(lower, upper)) && lower < Midpoint(lower, upper) < upper
    ensures upper - lower >= 2 * MINUTE
  {
    MinutesApart(lower, upper);
    MinuteBounds((lower + upper) / 2);
  }

  /** The whole minute the bisection ends on. */
  function Bisect(offset: OffsetFunction, lower: int, upper: int, offsetFrom: int): (at: int)
    requires OnMinute(lower) && OnMinute(upper) && lower < upper
    ensures OnMinute(at) && lower + MINUTE <= at <= upper
    decreases upper - lower
  {
    if upper - lower > MINUTE then
      MidpointIsInside(lower, upper);
      var midpoint := Midpoint(lower, upper);
      if offset(midpoint) == offsetFrom then Bisect(offset, midpoint, upper, offsetFrom)
      else Bisect(offset, lower, midpoint, offsetFrom)
    else upper
  }

  /** Bisection between two different offsets ends on a minute where the offset leaves `offsetFrom`. */
  lemma {:induction false} BisectFindsChange(offset: OffsetFunction, lower: int, upper: int, offsetFrom: int)
    requires OnMinute(lower) && OnMinute(upper) && lower < upper
    requires offset(lower) == offsetFrom != offset(upper)
    ensures var at := Bisect(offset, lower, upper, offsetFrom);
            offset(at - MINUTE) == offsetFrom != offset(at)
    decreases upper - lower
  {
    if upper - lower > MINUTE {
      MidpointIsInside(lower, upper);
      var midpoint := Midpoint(lower, upper);
      if offset(midpoint) == offsetFrom {
        BisectFindsChange(offset, midpoint, upper, offsetFrom);
      } else {
        BisectFindsChange(offset, lower, midpoint, offsetFrom);
      }
    } else {
      assert upper == lower + MINUTE;
    }
  }

  function Find(offset: OffsetFunction, lowerBound: int, upperBound: int, offsetFrom: int): (t: Transition)
    requires lowerBound < upperBound
    ensures lowerBound < t.at <= CeilMinute(upperBound) && OnMinute(t.at)
    ensures t.offsetFrom == offsetFrom && t.offsetTo == offset(t.at)
  {
    MinuteBounds(lowerBound);
    MinuteBounds(upperBound);
    var at := Bisect(offset, FloorMinute(lowerBound), CeilMinute(upperBound), offsetFrom);
    Transition(at, offsetFrom, offset(at))
  }

  method FindTimeZoneTransition(offset: OffsetFunction, lowerBound: int, upperBound: int, offsetFrom: int)
    returns (t: Transition)
    requires lowerBound < upperBound
    ensures t == Find(offset, lowerBound, upperBound, offsetFrom)
  {
    MinuteBounds(lowerBound);
    MinuteBounds(upperBound);
    var lower := lowerBound / 60_000 * 60_000;
    var upper := -(-upperBound / 60_000 * 60_000);
    ghost var found := Bisect(offset, lower, upper, offsetFrom);
    while upper - lower > MINUTE
      invariant OnMinute(lower) && OnMinute(upper) && lower < upper
      invariant Bisect(offset, lower, upper, offsetFrom) == found
      decreases upper - lower
    {
      MidpointIsInside(lower, upper);
      var midpoint := (lower + upper) / 2 / 60_000 * 60_000;
      if midpoint <= lower { break; }
      if offset(midpoint) == offsetFrom {
        lower := midpoint;
      } else {
        upper := midpoint;
      }
    }
    t := Transition(upper, offsetFrom, offset(upper));
  }

  // ---------- the scan ----------

  function Scan(offset: OffsetFunction, cursor: int, rangeEnd: int, current: int): seq<Transition>
    decreases rangeEnd - cursor
  {
    if cursor >= rangeEnd then []
    else
      var next := Min(rangeEnd, cursor + SCAN_STEP);
      if offset(next) != current then
        var transition := Find(offset, cursor, next, current);
        [transition] + Scan(offset, transition.at, rangeEnd, transition.offsetTo)
      else Scan(offset, next, rangeEnd, current)
  }

  /** The list of changes over a range. */
  function Transitions(offset: OffsetFunction, rangeStart: int, rangeEnd: int): seq<Transition> {
    Scan(offset, rangeStart, rangeEnd, offset(rangeStart))
  }

  method TimeZoneTransitions(offset: OffsetFunction, rangeStart: int, rangeEnd: int)
    returns (transitions: seq<Transition>)
    ensures transitions == Transitions(offset, rangeStart, rangeEnd)
  {
    transitions := [];
    var cursor := rangeStart;
    var currentOffset := offset(cursor);
    while cursor < rangeEnd
      invariant transitions + Scan(offset, cursor, rangeEnd, currentOffset) == Transitions(offset, rangeStart, rangeEnd)
      decreases rangeEnd - cursor
    {
      var next := Min(rangeEnd, cursor + SCAN_STEP);
      var nextOffset := offset(next);
      if nextOffset != currentOffset {
        var transition := FindTimeZoneTransition(offset, cursor, next, currentOffset);
        transitions := transitions + [transition];
        cursor := transition.at;
        currentOffset := transition.offsetTo;
        continue;
      }
      cursor := next;
    }
  }

  // ---------- the shape of the list ----------

  ghost predicate Increasing(list: seq<Transition>) {
    forall i, j :: 0 <= i < j < |list| ==> list[i].at < list[j].at
  }

  /** Each change starts from the offset the previous one went to. */
  ghost predicate Chained(list: seq<Transition>, initial: int) {
    && (list != [] ==> list[0].offsetFrom == initial)
    && forall i, j :: 0 <= i && i + 1 == j < |list| ==> list[j].offsetFrom == list[i].offsetTo
  }

  lemma CeilMonotone(a: int, b: int)
    requires a <= b
    ensures CeilMinute(a) <= CeilMinute(b)
  {
  }

  lemma FloorMonotone(a: int, b: int)
    requires a <= b
    ensures OnMinute(a) ==> a <= FloorMinute(b)
  {
  }

  lemma ShapeExtends(first: Transition, initial: int, rest: seq<Transition>)
    requires first.offsetFrom == initial
    requires Increasing(rest) && Chained(rest, first.offsetTo)
    requires forall i :: 0 <= i < |rest| ==> first.at < rest[i].at
    ensures Increasing([first] + rest) && Chained([first] + rest, initial)
  {
  }

  /** For every range, on whole minutes or not. */
  lemma {:induction false} ScanShape(offset: OffsetFunction, cursor: int, rangeEnd: int, current: int, list: seq<Transition>)
    requires list == Scan(offset, cursor, rangeEnd, current)
    ensures Increasing(list) && Chained(list, current)
    ensures forall i :: 0 <= i < |list| ==> cursor < list[i].at <= CeilMinute(rangeEnd) && OnMinute(list[i].at)
    ensures forall i :: 0 <= i < |list| ==> list[i].offsetTo == offset(list[i].at)
    decreases rangeEnd - cursor
  {
    if cursor < rangeEnd {
      var next := Min(rangeEnd, cursor + SCAN_STEP);
      if offset(next) != current {
        var first := Find(offset, cursor, next, current);
        var rest := Scan(offset, first.at, rangeEnd, first.offsetTo);
        ScanShape(offset, first.at, rangeEnd, first.offsetTo, rest);
        CeilMonotone(next, rangeEnd);
        ShapeExtends(first, current, rest);
        assert list == [first] + rest;
      } else {
        ScanShape(offset, next, rangeEnd, current, list);
      }
    }
  }

  /** A change at this minute: the offset differs from that of the minute before. */
  predicate ChangesAt(offset: OffsetFunction, t: int) { offset(t - MINUTE) != offset(t) }

  /** A change inside a range, with the zone's offsets on both sides. */
  predicate RealChange(offset: OffsetFunction, cursor: int, rangeEnd: int, t: Transition) {
    cursor < t.at <= rangeEnd && ChangesAt(offset, t.at) && t.offsetFrom == offset(t.at - MINUTE) && t.offsetTo == offset(t.at)
  }

  ghost predicate RealChanges(offset: OffsetFunction, cursor: int, rangeEnd: int, list: seq<Transition>) {
    forall i :: 0 <= i < |list| ==> RealChange(offset, cursor, rangeEnd, list[i])
  }

  lemma ChangesExtend(offset: OffsetFunction, cursor: int, later: int, rangeEnd: int, first: seq<Transition>, rest: seq<Transition>)
    requires cursor <= later && RealChanges(offset, cursor, rangeEnd, first) && RealChanges(offset, later, rangeEnd, rest)
    ensures RealChanges(offset, cursor, rangeEnd, first + rest)
  {
    forall i | 0 <= i < |rest| ensures RealChange(offset, cursor, rangeEnd, rest[i]) { assert RealChange(offset, later, rangeEnd, rest[i]); }
  }

  /** From whole minutes to whole minutes, every entry is a real change and stays inside the range. */
  lemma {:induction false} EntriesAreChanges(offset: OffsetFunction, cursor: int, rangeEnd: int)
    requires OnMinute(cursor) && OnMinute(rangeEnd)
    ensures RealChanges(offset, cursor, rangeEnd, Transitions(offset, cursor, rangeEnd))
    decreases rangeEnd - cursor
  {
    if cursor < rangeEnd {
      var next := NextStop(cursor, rangeEnd);
      if offset(next) != offset(cursor) {
        var first := Find(offset, cursor, next, offset(cursor));
        ScanFindsChange(offset, cursor, rangeEnd, next, first);
        ScanOfChange(offset, cursor, rangeEnd, next, first);
        EntriesAreChanges(offset, first.at, rangeEnd);
        assert RealChange(offset, cursor, rangeEnd, first);
        ChangesExtend(offset, cursor, first.at, rangeEnd, [first], Transitions(offset, first.at, rangeEnd));
      } else {
        EntriesAreChanges(offset, next, rangeEnd);
        ChangesExtend(offset, cursor, next, rangeEnd, [], Transitions(offset, next, rangeEnd));
        assert Transitions(offset, cursor, rangeEnd) == [] + Transitions(offset, next, rangeEnd);
      }
    }
  }

  lemma MinuteBefore(t: int)
    requires OnMinute(t)
    ensures OnMinute(t - MINUTE)
  {
  }

  lemma FindOnMinutes(offset: OffsetFunction, lower: int, upper: int, offsetFrom: int)
    requires OnMinute(lower) && OnMinute(upper) && lower < upper && FloorMinute(lower) == lower && CeilMinute(upper) == upper
    ensures var at := Find(offset, lower, upper, offsetFrom).at;
            at == Bisect(offset, lower, upper, offsetFrom) && lower <= at - MINUTE && at <= upper
  {
  }

  /** The first stop past which the offset differs yields a real change, found inside the step. */
  lemma ScanFindsChange(offset: OffsetFunction, cursor: int, rangeEnd: int, next: int, first: Transition)
    requires OnMinute(cursor) && OnMinute(rangeEnd) && cursor < rangeEnd && next == NextStop(cursor, rangeEnd)
    requires offset(next) != offset(cursor) && first == Find(offset, cursor, next, offset(cursor))
    ensures OnMinute(first.at) && OnMinute(first.at - MINUTE)
    ensures cursor <= first.at - MINUTE && first.at <= next
    ensures offset(first.at - MINUTE) == offset(cursor) != offset(first.at)
  {
    FindOnMinutes(offset, cursor, next, offset(cursor));
    MinuteBefore(first.at);
    BisectFindsChange(offset, cursor, next, offset(cursor));
  }

  lemma ScanOfChange(offset: OffsetFunction, cursor: int, rangeEnd: int, next: int, first: Transition)
    requires cursor < rangeEnd && next == Min(rangeEnd, cursor + SCAN_STEP)
    requires offset(next) != offset(cursor) && first == Find(offset, cursor, next, offset(cursor))
    ensures Transitions(offset, cursor, rangeEnd) == [first] + Transitions(offset, first.at, rangeEnd)
  {
  }

  function NextStop(cursor: int, rangeEnd: int): (next: int)
    requires OnMinute(cursor) && OnMinute(rangeEnd) && cursor < rangeEnd
    ensures OnMinute(next) && cursor < next <= rangeEnd && next - cursor <= SCAN_STEP
    ensures next == Min(rangeEnd, cursor + SCAN_STEP)
    ensures FloorMinute(cursor) == cursor && CeilMinute(next) == next
  {
    assert SCAN_STEP == 10_080 * MINUTE;
    assert OnMinute(cursor + SCAN_STEP);
    MinuteBounds(cursor);
    MinuteBounds(Min(rangeEnd, cursor + SCAN_STEP));
    Min(rangeEnd, cursor + SCAN_STEP)
  }

  // ---------- the list as a table ----------

  /** The offset the list gives for an instant: that of the last change not after it. */
  function Lookup(list: seq<Transition>, initial: int, t: int): int {
    if list == [] || t < list[0].at then initial else Lookup(list[1..], list[0].offsetTo, t)
  }

  /** The list reproduces the offset function on every whole minute of its range. */
  ghost predicate Exact(offset: OffsetFunction, rangeStart: int, rangeEnd: int) {
    forall t :: rangeStart <= t <= rangeEnd && OnMinute(t) ==>
      Lookup(Transitions(offset, rangeStart, rangeEnd), offset(rangeStart), t) == offset(t)
  }

  /** An offset that is in force twice within seven days has not been left in between. */
  ghost predicate NoRecurrence(offset: OffsetFunction, rangeStart: int, rangeEnd: int) {
    forall t, v, u :: SameOffsetWithinStep(offset, t, u) && rangeStart <= t <= v <= u <= rangeEnd && OnMinute(v)
      ==> offset(v) == offset(t)
  }

  ghost predicate SameOffsetWithinStep(offset: OffsetFunction, t: int, u: int) {
    OnMinute(t) && OnMinute(u) && t <= u <= t + 604_800_000 && offset(t) == offset(u)
  }

  lemma LookupOfCons(first: Transition, rest: seq<Transition>, initial: int, t: int)
    ensures Lookup([first] + rest, initial, t) == if t < first.at then initial else Lookup(rest, first.offsetTo, t)
  {
    assert ([first] + rest)[1..] == rest;
  }

  lemma {:induction false} NoRecurrenceMakesExact(offset: OffsetFunction, cursor: int, rangeEnd: int, t: int)
    requires OnMinute(cursor) && OnMinute(rangeEnd) && OnMinute(t) && cursor <= t <= rangeEnd
    requires NoRecurrence(offset, cursor, rangeEnd)
    ensures Lookup(Transitions(offset, cursor, rangeEnd), offset(cursor), t) == offset(t)
    decreases rangeEnd - cursor
  {
    if cursor < rangeEnd {
      var next := NextStop(cursor, rangeEnd);
      if offset(next) != offset(cursor) {
        ExactPastChange(offset, cursor, next, rangeEnd, t);
      } else {
        var list := Transitions(offset, next, rangeEnd);
        assert Transitions(offset, cursor, rangeEnd) == list;
        if t < next {
          assert SameOffsetWithinStep(offset, cursor, next);
          ScanShape(offset, next, rangeEnd, offset(next), list);
        } else {
          NoRecurrenceMakesExact(offset, next, rangeEnd, t);
        }
      }
    }
  }

  lemma {:induction false} ExactPastChange(offset: OffsetFunction, cursor: int, next: int, rangeEnd: int, t: int)
    requires OnMinute(cursor) && OnMinute(rangeEnd) && OnMinute(t) && cursor <= t <= rangeEnd
    requires NoRecurrence(offset, cursor, rangeEnd)
    requires cursor < rangeEnd && next == NextStop(cursor, rangeEnd) && offset(next) != offset(cursor)
    ensures Lookup(Transitions(offset, cursor, rangeEnd), offset(cursor), t) == offset(t)
    decreases rangeEnd - cursor, 0
  {
    var first := Find(offset, cursor, next, offset(cursor));
    ScanFindsChange(offset, cursor, rangeEnd, next, first);
    if t < first.at {
      UnchangedUntil(offset, cursor, rangeEnd, first.at - MINUTE, t);
    } else {
      NoRecurrenceMakesExact(offset, first.at, rangeEnd, t);
    }
    LookupOfCons(first, Transitions(offset, first.at, rangeEnd), offset(cursor), t);
    ScanOfChange(offset, cursor, rangeEnd, next, first);
  }

  lemma UnchangedUntil(offset: OffsetFunction, cursor: int, rangeEnd: int, u: int, t: int)
    requires NoRecurrence(offset, cursor, rangeEnd)
    requires OnMinute(cursor) && OnMinute(u) && u <= rangeEnd && u <= cursor + SCAN_STEP && offset(u) == offset(cursor)
    requires OnMinute(t) && cursor <= t < u + MINUTE
    ensures offset(t) == offset(cursor)
  {
    assert SameOffsetWithinStep(offset, cursor, u);
    assert t <= u;
  }

  /** A range of at most one step whose ends agree gives an empty list, whatever happens inside. */
  lemma RecurrenceIsMissed(offset: OffsetFunction, t: int, v: int, u: int)
    requires SameOffsetWithinStep(offset, t, u) && t <= v <= u && OnMinute(v) && offset(v) != offset(t)
    ensures Transitions(offset, t, u) == [] && !Exact(offset, t, u)
  {
    var next := Min(u, t + SCAN_STEP);
    assert next == u;
    assert Scan(offset, u, u, offset(t)) == [];
    assert Lookup([], offset(t), v) != offset(v);
  }

  /** The scan is exact on every sub-range if and only if no offset recurs within seven days. */
  lemma ExactIffNoRecurrence(offset: OffsetFunction, rangeStart: int, rangeEnd: int)
    ensures NoRecurrence(offset, rangeStart, rangeEnd) <==>
      forall s, e :: rangeStart <= s <= e <= rangeEnd && OnMinute(s) && OnMinute(e) ==> Exact(offset, s, e)
  {
    if NoRecurrence(offset, rangeStart, rangeEnd) {
      forall s, e | rangeStart <= s <= e <= rangeEnd && OnMinute(s) && OnMinute(e) ensures Exact(offset, s, e) {
        forall t | s <= t <= e && OnMinute(t)
          ensures Lookup(Transitions(offset, s, e), offset(s), t) == offset(t)
        {
          NoRecurrenceMakesExact(offset, s, e, t);
        }
      }
    } else {
      var t, v, u :| SameOffsetWithinStep(offset, t, u) && rangeStart <= t <= v <= u <= rangeEnd && OnMinute(v)
        && offset(v) != offset(t);
      RecurrenceIsMissed(offset, t, v, u);
    }
  }

  /** Changes at least seven days apart, as civil time zones have them. */
  ghost predicate ChangesSpaced(offset: OffsetFunction, rangeStart: int, rangeEnd: int) {
    forall a, b :: rangeStart < a < b <= rangeEnd && OnMinute(a) && OnMinute(b) && ChangesAt(offset, a) && ChangesAt(offset, b)
      ==> b - a >= 604_800_000
  }

  lemma SpacedChangesNeverRecur(offset: OffsetFunction, rangeStart: int, rangeEnd: int)
    requires ChangesSpaced(offset, rangeStart, rangeEnd)
    ensures NoRecurrence(offset, rangeStart, rangeEnd)
  {
    forall t, v, u | SameOffsetWithinStep(offset, t, u) && rangeStart <= t <= v <= u <= rangeEnd && OnMinute(v)
      ensures offset(v) == offset(t)
    {
      if offset(v) != offset(t) {
        ExcursionHasTwoChanges(offset, t, v, u);
      }
    }
  }

  /** Leaving an offset and coming back takes two changes, less than the whole excursion apart. */
  lemma ExcursionHasTwoChanges(offset: OffsetFunction, t: int, v: int, u: int)
    requires OnMinute(t) && OnMinute(v) && OnMinute(u) && t < v < u
    requires offset(t) == offset(u) != offset(v)
    ensures exists a, b :: (t < a < b <= u && b - a < u - t && OnMinute(a) && OnMinute(b)
                            && ChangesAt(offset, a) && ChangesAt(offset, b))
  {
    BisectFindsChange(offset, t, v, offset(t));
    BisectFindsChange(offset, v, u, offset(v));
    var a, b := Bisect(offset, t, v, offset(t)), Bisect(offset, v, u, offset(v));
    assert ChangesAt(offset, a) && ChangesAt(offset, b);
  }

  /** The offset never changes inside a minute. */
  ghost predicate ChangesOnMinutes(offset: OffsetFunction) {
    forall t :: offset(t) == offset(FloorMinute(t))
  }

  lemma NotBefore(at: int, t: int)
    requires OnMinute(at)
    ensures at <= t <==> at <= FloorMinute(t)
  {
    MinuteBounds(t);
    if at <= t { FloorMonotone(at, t); }
    MinuteBounds(at);
  }

  lemma {:induction false} LookupAtFloor(list: seq<Transition>, initial: int, t: int)
    requires forall i :: 0 <= i < |list| ==> OnMinute(list[i].at)
    ensures Lookup(list, initial, t) == Lookup(list, initial, FloorMinute(t))
  {
    if list != [] {
      NotBefore(list[0].at, t);
      LookupAtFloor(list[1..], list[0].offsetTo, t);
    }
  }

  /** For a zone whose changes fall on whole minutes at least a week apart, the list gives the zone's
      offset at every instant of the range. */
  lemma TableRefinesOffset(offset: OffsetFunction, rangeStart: int, rangeEnd: int, t: int)
    requires OnMinute(rangeStart) && OnMinute(rangeEnd) && rangeStart <= t <= rangeEnd
    requires ChangesOnMinutes(offset) && ChangesSpaced(offset, rangeStart, rangeEnd)
    ensures Lookup(Transitions(offset, rangeStart, rangeEnd), offset(rangeStart), t) == offset(t)
  {
    var list := Transitions(offset, rangeStart, rangeEnd);
    SpacedChangesNeverRecur(offset, rangeStart, rangeEnd);
    MinuteBounds(t);
    FloorMonotone(rangeStart, t);
    NoRecurrenceMakesExact(offset, rangeStart, rangeEnd, FloorMinute(t));
    ScanShape(offset, rangeStart, rangeEnd, offset(rangeStart), list);
    LookupAtFloor(list, offset(rangeStart), t);
  }
}
