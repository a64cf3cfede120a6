/** A lesson run on the client: applying a server lesson, saving reviews one at a time, moving on.
    The server's answers are arbitrary.
    The state and its steps are values here, with what every run keeps between two applied lessons;
    `LessonScreen` changes the component's state in place and is proved against them.
 */
module LessonRun {
  import opened Basics
  import opened LessonFlow

  datatype Rating = Again | Almost | Known

  datatype ItemKind = Word | Phrase

  /** A learning item is identified by its kind and its word number. */
  datatype ItemId = ItemId(kind: ItemKind, number: int)

  datatype ServerItem = ServerItem(id: ItemId, rating: Option<Rating>)

  datatype Lesson = Lesson(items: seq<ServerItem>, currentIndex: real, version: real)

  /** What the server answers to a saved review. */
  datatype Response = Response(completed: bool, currentIndex: real, version: real, correct: Option<bool>)

  /** A review request on its way, with the ratings its handler saw when it started. */
  datatype Request = Request(id: ItemId, rating: Rating, seen: map<ItemId, Rating>, version: real)

  datatype State = State(
    version: Option<real>,                   // of the active server lesson, if there is one
    items: seq<ItemId>, currentIndex: nat,
    ratings: map<ItemId, Rating>, judgements: map<ItemId, Option<bool>>,
    started: bool, complete: bool,
    serverCompleted: bool, serverNextIndex: Option<real>,
    reviewInFlight: bool, reviewing: bool, requests: seq<Request>)

  // ---------- the steps ----------

  function Ids(items: seq<ServerItem>): (ids: seq<ItemId>)
    ensures |ids| == |items|
  {
    if items == [] then [] else [items[0].id] + Ids(items[1..])
  }

  function RestoredRatings(items: seq<ServerItem>): map<ItemId, Rating> {
    if items == [] then map[]
    else
      var before, last := RestoredRatings(items[..|items| - 1]), items[|items| - 1];
      if last.rating.Some? then before[last.id := last.rating.value] else before
  }

  /** The position to show, or none if the lesson cannot be shown. */
  function SafeIndex(lesson: Lesson): Option<nat> {
    var ratings := RestoredRatings(lesson.items);
    var reviewed :=
      IsInteger(lesson.currentIndex) && 0 <= lesson.currentIndex.Floor < |lesson.items|
      && Ids(lesson.items)[lesson.currentIndex.Floor] in ratings;
    if !IsInteger(lesson.version) || lesson.version <= 0.0 then None
    else ResolveActiveLessonIndex(lesson.currentIndex, |lesson.items|, reviewed)
  }

  function Cleared(s: State): State {
    s.(version := None, items := [], currentIndex := 0, ratings := map[], judgements := map[], started := false, complete := false,
       serverCompleted := false, serverNextIndex := None, reviewInFlight := false)
  }

  function Applied(s: State, lesson: Lesson): State {
    match SafeIndex(lesson)
    case None => Cleared(s)
    case Some(index) =>
      var ratings := RestoredRatings(lesson.items);
      s.(version := Some(lesson.version), items := Ids(lesson.items), currentIndex := index,
         ratings := ratings, judgements := map id | id in ratings :: None,
         started := true, complete := |lesson.items| == 0, serverCompleted := false, serverNextIndex := None)
  }

  predicate CanRate(s: State) {
    s.currentIndex < |s.items| && s.items[s.currentIndex] !in s.ratings && !s.reviewInFlight && s.version.Some?
  }

  function Rated(s: State, rating: Rating): State {
    if !CanRate(s) then s
    else
      s.(reviewInFlight := true, reviewing := true,
         requests := s.requests + [Request(s.items[s.currentIndex], rating, s.ratings, s.version.value)])
  }

  /** The server saved the review of a request. */
  function Persisted(s: State, k: nat, response: Response): State
    requires k < |s.requests|
  {
    var request := s.requests[k];
    s.(ratings := request.seen[request.id := request.rating],
       judgements := s.judgements[request.id := response.correct],
       serverCompleted := response.completed,
       serverNextIndex := if response.completed then None else Some(response.currentIndex),
       version := if response.completed then None else if s.version.Some? then Some(response.version) else None,
       requests := s.requests[..k] + s.requests[k + 1..])
  }

  /** The request of a review failed, or its answer was lost. */
  function Failed(s: State, k: nat): State
    requires k < |s.requests|
  {
    s.(requests := s.requests[..k] + s.requests[k + 1..])
  }

  /** The end of the handler, once its request is answered. */
  function Settled(s: State): State { s.(reviewInFlight := false, reviewing := false) }

  function MovedTo(s: State, index: nat): State {
    s.(currentIndex := index, serverNextIndex := None)
  }

  function Decision(s: State): LessonFlow.Decision {
    var persisted := s.currentIndex < |s.items| && s.items[s.currentIndex] in s.ratings;
    DecideLessonAdvance(s.currentIndex, |s.items|, persisted, s.reviewing, s.serverCompleted, s.serverNextIndex)
  }

  function Advanced(s: State): State {
    match Decision(s)
    case Blocked(_) => s
    case Results => s.(complete := true)
    case Next(index) => MovedTo(s, index)
  }

  /** One thing that happens after a lesson was applied and before the next one is. */
  datatype Event = Rate(rating: Rating) | Persist(k: nat, response: Response) | Fail(k: nat) | Settle | Advance

  /** Only a request on its way can be answered, and its handler ends only after that. */
  predicate Possible(s: State, event: Event) {
    match event
    case Persist(k, _) => k < |s.requests|
    case Fail(k) => k < |s.requests|
    case Settle => s.requests == []
    case _ => true
  }

  function Step(s: State, event: Event): State {
    if !Possible(s, event) then s
    else match event
      case Rate(rating) => Rated(s, rating)
      case Persist(k, response) => Persisted(s, k, response)
      case Fail(k) => Failed(s, k)
      case Settle => Settled(s)
      case Advance => Advanced(s)
  }

  function Run(s: State, events: seq<Event>): State {
    if events == [] then s else Step(Run(s, events[..|events| - 1]), events[|events| - 1])
  }

  predicate Saves(s: State, event: Event) { event.Persist? && Possible(s, event) }

  /** The positions whose review the server saved, in order. */
  function Reviewed(s: State, events: seq<Event>): seq<nat> {
    if events == [] then []
    else
      var before, last := events[..|events| - 1], events[|events| - 1];
      if Saves(Run(s, before), last) then Reviewed(s, before) + [Run(s, before).currentIndex] else Reviewed(s, before)
  }

  // ---------- what every run keeps ----------

  /** The positions from `first` up to but not including `end`. */
  function Range(first: nat, end: nat): (r: seq<nat>)
    requires first <= end
    ensures |r| == end - first
  {
    if first == end then [] else Range(first, end - 1) + [end - 1]
  }

  /** No request is on its way; a handler may still be running, as when it applies a lesson after a conflict. */
  predicate Idle(s: State) { s.reviewInFlight == s.reviewing && s.requests == [] }

  /** `start` is the state right after a lesson was applied; `end` is one past the last saved position. */
  ghost predicate Kept(start: State, s: State, end: nat) {
    && s.items == start.items && s.started && start.currentIndex <= s.currentIndex < |s.items|
    && (end == s.currentIndex || end == s.currentIndex + 1)
    && (forall id :: id in s.ratings <==> id in start.ratings || id in s.items[start.currentIndex..end])
    && s.judgements.Keys == s.ratings.Keys
    && (s.serverNextIndex.Some? || s.serverCompleted ==> end == s.currentIndex + 1)
    && (s.serverCompleted <==> s.version.None?) && (s.serverCompleted ==> s.serverNextIndex.None?)
    && (s.complete ==> s.currentIndex == |s.items| - 1 && s.serverCompleted && end == |s.items|)
    && s.reviewInFlight == s.reviewing
    && |s.requests| <= 1
    && (s.requests != [] ==> s.reviewing && end == s.currentIndex && s.requests[0].id == s.items[s.currentIndex]
                             && s.requests[0].id !in s.ratings && s.requests[0].seen == s.ratings)
  }

  lemma PersistKeeps(start: State, s: State, end: nat, response: Response)
    requires Kept(start, s, end) && |s.requests| == 1
    ensures Kept(start, Persisted(s, 0, response), end + 1)
  {
    var t := Persisted(s, 0, response);
    assert s.items[start.currentIndex..end + 1] == s.items[start.currentIndex..end] + [s.items[end]];
    assert t.requests == [];
    assert t.ratings.Keys == s.ratings.Keys + {s.items[end]};
  }

  lemma HandlerStepKeeps(start: State, s: State, end: nat, event: Event)
    requires Kept(start, s, end) && Possible(s, event) && (event.Rate? || event.Fail? || event.Settle?)
    ensures Kept(start, Step(s, event), end)
  {
  }

  lemma AdvanceKeeps(start: State, s: State, end: nat)
    requires Kept(start, s, end)
    ensures Kept(start, Advanced(s), end)
  {
    AdvanceIsSequential(s.currentIndex, |s.items|, s.items[s.currentIndex] in s.ratings, s.reviewing, s.serverCompleted,
                        s.serverNextIndex);
  }

  lemma StepKeeps(start: State, s: State, end: nat, event: Event)
    requires Kept(start, s, end)
    ensures Kept(start, Step(s, event), if Saves(s, event) then end + 1 else end)
    ensures Saves(s, event) ==> end == s.currentIndex
  {
    if Possible(s, event) {
      match event {
        case Persist(k, response) => PersistKeeps(start, s, end, response);
        case Advance => AdvanceKeeps(start, s, end);
        case _ => HandlerStepKeeps(start, s, end, event);
      }
    }
  }

  lemma AppliedKeeps(s: State, lesson: Lesson)
    requires SafeIndex(lesson).Some? && Idle(s)
    ensures Kept(Applied(s, lesson), Applied(s, lesson), Applied(s, lesson).currentIndex)
  {
    var t := Applied(s, lesson);
    assert t.items[t.currentIndex..t.currentIndex] == [];
  }

  /** The saved positions run consecutively from the first one shown. */
  ghost predicate Good(start: State, s: State, saved: seq<nat>) {
    var end := start.currentIndex + |saved|;
    Kept(start, s, end) && saved == Range(start.currentIndex, end)
  }

  lemma GoodSnoc(start: State, t: State, saved: seq<nat>, last: nat)
    requires last == start.currentIndex + |saved| && saved == Range(start.currentIndex, last) && Kept(start, t, last + 1)
    ensures Good(start, t, saved + [last])
  {
    var more := saved + [last];
    assert start.currentIndex + |more| == last + 1;
    assert Range(start.currentIndex, last + 1) == more;
  }

  lemma SavingIsGood(start: State, s: State, saved: seq<nat>, k: nat, response: Response)
    requires Good(start, s, saved) && k < |s.requests|
    ensures Good(start, Persisted(s, k, response), saved + [s.currentIndex])
  {
    var end := start.currentIndex + |saved|;
    assert end == s.currentIndex;
    PersistKeeps(start, s, end, response);
    GoodSnoc(start, Persisted(s, 0, response), saved, end);
  }

  lemma KeptIsGood(start: State, t: State, saved: seq<nat>)
    requires saved == Range(start.currentIndex, start.currentIndex + |saved|) && Kept(start, t, start.currentIndex + |saved|)
    ensures Good(start, t, saved)
  {
  }

  lemma OtherIsGood(start: State, s: State, saved: seq<nat>, event: Event)
    requires Good(start, s, saved) && !Saves(s, event)
    ensures Good(start, Step(s, event), saved)
  {
    StepKeeps(start, s, start.currentIndex + |saved|, event);
    KeptIsGood(start, Step(s, event), saved);
  }

  lemma StepIsGood(start: State, s: State, saved: seq<nat>, event: Event)
    requires Good(start, s, saved)
    ensures Good(start, Step(s, event), if Saves(s, event) then saved + [s.currentIndex] else saved)
  {
    if Saves(s, event) {
      SavingIsGood(start, s, saved, event.k, event.response);
    } else {
      OtherIsGood(start, s, saved, event);
    }
  }

  lemma {:induction false} RangeAt(first: nat, end: nat, k: nat)
    requires first <= k < end
    ensures Range(first, end)[k - first] == k
  {
    if k < end - 1 { RangeAt(first, end - 1, k); }
  }

  /** Whatever the server answers, the saved positions are consecutive from the first one shown, none
      of them twice. */
  lemma {:induction false} RunKeeps(s: State, lesson: Lesson, events: seq<Event>)
    requires SafeIndex(lesson).Some? && Idle(s)
    ensures Good(Applied(s, lesson), Run(Applied(s, lesson), events), Reviewed(Applied(s, lesson), events))
  {
    var start := Applied(s, lesson);
    if events == [] {
      AppliedKeeps(s, lesson);
    } else {
      var before := events[..|events| - 1];
      RunKeeps(s, lesson, before);
      StepIsGood(start, Run(start, before), Reviewed(start, before), events[|events| - 1]);
    }
  }

  // ---------- safety over whole runs ----------

  /** The single review on its way is for the position shown, which is not saved yet. */
  ghost predicate OneReviewAtATime(s: State, saved: seq<nat>) {
    |s.requests| <= 1
    && (s.requests != [] ==> s.currentIndex < |s.items| && s.requests[0].id == s.items[s.currentIndex] && s.currentIndex !in saved)
  }

  /** A step stays at the position or goes one on, and only from a saved and rated one. */
  ghost predicate MovesFromSaved(s: State, next: State, saved: seq<nat>) {
    next.currentIndex == s.currentIndex
    || (next.currentIndex == s.currentIndex + 1 && s.currentIndex in saved
        && s.currentIndex < |s.items| && s.items[s.currentIndex] in s.ratings)
  }

  lemma {:induction false} InRange(first: nat, end: nat, k: nat)
    requires first <= end && k in Range(first, end)
    ensures first <= k < end
  {
    if first < end && k != end - 1 { InRange(first, end - 1, k); }
  }

  lemma GoodMoves(start: State, s: State, saved: seq<nat>, event: Event)
    requires Good(start, s, saved)
    ensures OneReviewAtATime(s, saved) && MovesFromSaved(s, Step(s, event), saved)
  {
    AdvanceIsSequential(s.currentIndex, |s.items|, s.items[s.currentIndex] in s.ratings, s.reviewing, s.serverCompleted,
                        s.serverNextIndex);
    var end := start.currentIndex + |saved|;
    if s.currentIndex < end { RangeAt(start.currentIndex, end, s.currentIndex); }
    if s.currentIndex in saved { InRange(start.currentIndex, end, s.currentIndex); }
  }

  /** Every move goes one position on, from a position whose review the server saved during the run;
      at most one review is on its way, and it is for the position shown. */
  lemma MovesFollowSavedReviews(s: State, lesson: Lesson, events: seq<Event>, event: Event)
    requires SafeIndex(lesson).Some? && Idle(s)
    ensures var start := Applied(s, lesson);
            && OneReviewAtATime(Run(start, events), Reviewed(start, events))
            && MovesFromSaved(Run(start, events), Step(Run(start, events), event), Reviewed(start, events))
  {
    var start := Applied(s, lesson);
    RunKeeps(s, lesson, events);
    GoodMoves(start, Run(start, events), Reviewed(start, events), event);
  }

  /** The results open only at the last position, on the server's confirmation, with every position from
      the first one shown saved exactly once. */
  lemma ResultsAreComplete(s: State, lesson: Lesson, events: seq<Event>)
    requires SafeIndex(lesson).Some? && Idle(s)
    ensures var start := Applied(s, lesson);
            var now := Run(start, events);
            now.complete ==>
              && now.currentIndex == |now.items| - 1 && now.serverCompleted
              && start.currentIndex <= |now.items| && Reviewed(start, events) == Range(start.currentIndex, |now.items|)
              && forall i :: start.currentIndex <= i < |now.items| ==> now.items[i] in now.ratings
  {
    RunKeeps(s, lesson, events);
    if Run(Applied(s, lesson), events).complete {
      GoodIsComplete(Applied(s, lesson), Run(Applied(s, lesson), events), Reviewed(Applied(s, lesson), events));
    }
  }

  lemma SavedIsRated(start: State, s: State, end: nat, i: nat)
    requires Kept(start, s, end) && start.currentIndex <= i < end
    ensures s.items[i] in s.ratings
  {
    assert s.items[start.currentIndex..end][i - start.currentIndex] == s.items[i];
  }

  lemma GoodIsComplete(start: State, s: State, saved: seq<nat>)
    requires Good(start, s, saved) && s.complete
    ensures s.currentIndex == |s.items| - 1 && s.serverCompleted
    ensures start.currentIndex <= |s.items| && saved == Range(start.currentIndex, |s.items|)
    ensures forall i :: start.currentIndex <= i < |s.items| ==> s.items[i] in s.ratings
  {
    forall i | start.currentIndex <= i < |s.items| ensures s.items[i] in s.ratings { SavedIsRated(start, s, |s.items|, i); }
  }

  /** At any time the judgements collected are those of the rated items, all of them items of the lesson. */
  lemma JudgementsStayWithinItems(s: State, lesson: Lesson, events: seq<Event>)
    requires SafeIndex(lesson).Some? && Idle(s)
    ensures var now := Run(Applied(s, lesson), events);
            now.judgements.Keys == now.ratings.Keys && |now.judgements| <= |now.items|
  {
    var start := Applied(s, lesson);
    var now := Run(start, events);
    RunKeeps(s, lesson, events);
    forall id | id in now.judgements ensures id in now.items {
      RestoredAreItems(lesson.items, id);
    }
    KeysWithin(now.judgements, now.items);
  }

  lemma {:induction false} IdsOfPrefix(items: seq<ServerItem>)
    requires items != []
    ensures Ids(items) == Ids(items[..|items| - 1]) + [items[|items| - 1].id]
  {
    if |items| > 1 {
      assert items[..|items| - 1][1..] == items[1..][..|items| - 2];
      IdsOfPrefix(items[1..]);
    } else {
      assert items[1..] == [] && items[..0] == [];
    }
  }

  lemma {:induction false} RestoredAreItems(items: seq<ServerItem>, id: ItemId)
    ensures id in RestoredRatings(items) ==> id in Ids(items)
  {
    if items != [] {
      RestoredAreItems(items[..|items| - 1], id);
      IdsOfPrefix(items);
    }
  }

  lemma {:induction false} KeysWithin<V>(m: map<ItemId, V>, items: seq<ItemId>)
    requires forall id :: id in m ==> id in items
    ensures |m| <= |items|
  {
    if items == [] {
      assert m == map[];
    } else {
      var rest := m - {items[0]};
      KeysWithin(rest, items[1..]);
      assert m.Keys <= rest.Keys + {items[0]};
      assert |m.Keys| <= |rest.Keys + {items[0]}|;
    }
  }

  // ---------- exactly when a lesson stops ----------

  /** The review of the position shown is settled and names no way on: at the end without the server's word,
      before it without the following position. */
  predicate Stopped(s: State) {
    && s.currentIndex < |s.items| && s.items[s.currentIndex] in s.ratings && s.requests == []
    && if s.currentIndex == |s.items| - 1 then !s.serverCompleted else s.serverNextIndex != Some((s.currentIndex + 1) as real)
  }

  /** The same position, ratings and server word. */
  predicate StandsStill(s: State, t: State) {
    t == s.(reviewInFlight := t.reviewInFlight, reviewing := t.reviewing)
  }

  lemma StoppedStays(s: State, event: Event)
    requires Stopped(s)
    ensures StandsStill(s, Step(s, event))
  {
    AdvanceIsSequential(s.currentIndex, |s.items|, true, s.reviewing, s.serverCompleted, s.serverNextIndex);
  }

  lemma {:induction false} StoppedForever(s: State, more: seq<Event>)
    requires Stopped(s)
    ensures StandsStill(s, Run(s, more))
  {
    if more != [] {
      StoppedForever(s, more[..|more| - 1]);
      StoppedStays(Run(s, more[..|more| - 1]), more[|more| - 1]);
    }
  }

  lemma RunOfCons(s: State, event: Event, more: seq<Event>)
    ensures Run(s, [event] + more) == Run(Step(s, event), more)
  {
    RunOfConcat(s, [event], more);
    assert [event][..0] == [];
  }

  lemma {:induction false} RunOfConcat(s: State, events: seq<Event>, more: seq<Event>)
    ensures Run(s, events + more) == Run(Run(s, events), more)
  {
    if more == [] {
      assert events + more == events;
    } else {
      assert (events + more)[..|events + more| - 1] == events + more[..|more| - 1];
      RunOfConcat(s, events, more[..|more| - 1]);
    }
  }

  /** The learner gets to another position or to the results. */
  predicate GoneOn(s: State, t: State) { t.currentIndex != s.currentIndex || t.complete }

  ghost predicate CanGoOn(s: State) { exists more: seq<Event> :: GoneOn(s, Run(s, more)) }

  /** A settled review with the server's word lets the learner go on. */
  lemma SettledGoesOn(start: State, s: State, end: nat) returns (more: seq<Event>)
    requires Kept(start, s, end) && s.requests == [] && s.items[s.currentIndex] in s.ratings && !Stopped(s)
    ensures GoneOn(s, Run(s, more))
  {
    var t := Step(s, Settle);
    AdvanceIsSequential(t.currentIndex, |t.items|, true, t.reviewing, t.serverCompleted, t.serverNextIndex);
    more := [Settle] + ([Advance] + []);
    RunOfCons(s, Settle, [Advance] + []);
    RunOfCons(t, Advance, []);
  }

  /** The server can answer a request so that the learner goes on. */
  lemma RequestedGoesOn(start: State, s: State, end: nat) returns (more: seq<Event>)
    requires Kept(start, s, end) && s.requests != []
    ensures GoneOn(s, Run(s, more))
  {
    var response := Response(s.currentIndex == |s.items| - 1, (s.currentIndex + 1) as real, 1.0, None);
    var t := Step(s, Persist(0, response));
    PersistKeeps(start, s, end, response);
    var rest := SettledGoesOn(start, t, end + 1);
    more := [Persist(0, response)] + rest;
    RunOfCons(s, Persist(0, response), rest);
  }

  /** An unrated position can be rated. */
  lemma UnratedGoesOn(start: State, s: State, end: nat) returns (more: seq<Event>)
    requires Kept(start, s, end) && s.requests == [] && s.items[s.currentIndex] !in s.ratings
    ensures GoneOn(s, Run(s, more))
  {
    if end == s.currentIndex + 1 { SavedIsRated(start, s, end, s.currentIndex); }
    var t := Step(s, Settle);
    var u := Step(t, Rate(Known));
    StepKeeps(start, s, end, Settle);
    StepKeeps(start, t, end, Rate(Known));
    var rest := RequestedGoesOn(start, u, end);
    more := [Settle] + ([Rate(Known)] + rest);
    RunOfCons(s, Settle, [Rate(Known)] + rest);
    RunOfCons(t, Rate(Known), rest);
  }

  lemma NotStoppedGoesOn(start: State, s: State, end: nat)
    requires Kept(start, s, end) && !Stopped(s)
    ensures CanGoOn(s)
  {
    if s.requests != [] {
      var more := RequestedGoesOn(start, s, end);
    } else if s.items[s.currentIndex] in s.ratings {
      var more := SettledGoesOn(start, s, end);
    } else {
      var more := UnratedGoesOn(start, s, end);
    }
  }

  lemma KeptStoppedIff(start: State, s: State, end: nat)
    requires Kept(start, s, end) && !s.complete
    ensures Stopped(s) <==> !CanGoOn(s)
  {
    if Stopped(s) {
      forall more: seq<Event> ensures !GoneOn(s, Run(s, more)) { StoppedForever(s, more); }
    } else {
      NotStoppedGoesOn(start, s, end);
    }
  }

  /** From any state of a run before the results, nothing that may still happen takes the learner on if and only
      if no request is on its way, the item shown is rated, and the server's word is missing: completion at the
      last position, the following position before it. */
  lemma StoppedIff(s: State, lesson: Lesson, events: seq<Event>)
    requires SafeIndex(lesson).Some? && Idle(s) && !Run(Applied(s, lesson), events).complete
    ensures var now := Run(Applied(s, lesson), events);
            Stopped(now) <==> !CanGoOn(now)
  {
    RunKeeps(s, lesson, events);
    var start := Applied(s, lesson);
    KeptStoppedIff(start, Run(start, events), start.currentIndex + |Reviewed(start, events)|);
  }
}
