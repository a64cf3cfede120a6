/** What a lesson run does with the ratings the learner gives and the answers the server sends: both are read
    off the history of events here and compared with the state the run ends in.
 */
module LessonHistory {
  import opened Basics
  import opened LessonFlow
  import opened LessonRun

  /** A rating the learner gave: at which position, of which item, and for which lesson version. */
  datatype Given = Given(position: nat, id: ItemId, rating: Rating, version: real)

  /** A rating the server saved, with its answer. */
  datatype Saved = Saved(given: Given, response: Response)

  function GivenAfter(s: State, given: Option<Given>, event: Event): Option<Given> {
    if event.Rate? && CanRate(s) then Some(Given(s.currentIndex, s.items[s.currentIndex], event.rating, s.version.value)) else given
  }

  function SavedAfter(s: State, given: Option<Given>, saves: seq<Saved>, event: Event): seq<Saved> {
    if Saves(s, event) && given.Some? then saves + [Saved(given.value, event.response)] else saves
  }

  /** The last rating given that could be sent. */
  function LastGiven(start: State, events: seq<Event>): Option<Given> {
    if events == [] then None
    else
      var before, last := events[..|events| - 1], events[|events| - 1];
      GivenAfter(Run(start, before), LastGiven(start, before), last)
  }

  /** The ratings saved, in order. */
  function SavedReviews(start: State, events: seq<Event>): seq<Saved> {
    if events == [] then []
    else
      var before, last := events[..|events| - 1], events[|events| - 1];
      SavedAfter(Run(start, before), LastGiven(start, before), SavedReviews(start, before), last)
  }

  function RatingsAfter(ratings: map<ItemId, Rating>, saves: seq<Saved>): map<ItemId, Rating> {
    if saves == [] then ratings
    else
      var last := saves[|saves| - 1];
      RatingsAfter(ratings, saves[..|saves| - 1])[last.given.id := last.given.rating]
  }

  function JudgementsAfter(judgements: map<ItemId, Option<bool>>, saves: seq<Saved>): map<ItemId, Option<bool>> {
    if saves == [] then judgements
    else
      var last := saves[|saves| - 1];
      JudgementsAfter(judgements, saves[..|saves| - 1])[last.given.id := last.response.correct]
  }

  // ---------- the server's word ----------

  /** The version in force and the position to go to are those of the last answer; completion ends both. */
  predicate HoldsWord(start: State, s: State, saves: seq<Saved>) {
    if saves == [] then s.version == start.version && !s.serverCompleted && s.serverNextIndex.None?
    else
      var last := saves[|saves| - 1];
      && s.serverCompleted == last.response.completed
      && s.version == (if last.response.completed then None else Some(last.response.version))
      && s.serverNextIndex
         == (if last.response.completed || s.currentIndex != last.given.position then None else Some(last.response.currentIndex))
  }

  /** The request on its way is the rating last given, at the position still shown. */
  predicate CarriesGiven(s: State, given: Option<Given>) {
    s.requests != [] ==>
      && given.Some? && given.value.position == s.currentIndex && s.requests[0].id == given.value.id
      && s.requests[0].rating == given.value.rating && s.requests[0].version == given.value.version
  }

  ghost predicate Recorded(start: State, s: State, given: Option<Given>, saves: seq<Saved>) {
    && s.ratings == RatingsAfter(start.ratings, saves)
    && s.judgements == JudgementsAfter(start.judgements, saves)
    && (forall k :: 0 <= k < |saves| ==> saves[k].given.position <= s.currentIndex)
    && HoldsWord(start, s, saves) && CarriesGiven(s, given)
  }

  lemma SavingIsRecorded(start: State, s: State, end: nat, given: Option<Given>, saves: seq<Saved>, response: Response)
    requires Kept(start, s, end) && Recorded(start, s, given, saves) && |s.requests| == 1 && given.Some?
    ensures Recorded(start, Persisted(s, 0, response), given, saves + [Saved(given.value, response)])
  {
    var all := saves + [Saved(given.value, response)];
    assert all[..|all| - 1] == saves;
  }

  lemma AdvancingIsRecorded(start: State, s: State, end: nat, given: Option<Given>, saves: seq<Saved>)
    requires Kept(start, s, end) && Recorded(start, s, given, saves)
    ensures Recorded(start, Advanced(s), given, saves)
  {
    AdvanceIsSequential(s.currentIndex, |s.items|, s.items[s.currentIndex] in s.ratings, s.reviewing, s.serverCompleted, s.serverNextIndex);
  }

  lemma RatingIsRecorded(start: State, s: State, end: nat, given: Option<Given>, saves: seq<Saved>, event: Event)
    requires Kept(start, s, end) && Recorded(start, s, given, saves) && event.Rate?
    ensures Recorded(start, Rated(s, event.rating), GivenAfter(s, given, event), saves)
  {
  }

  lemma OtherIsRecorded(start: State, s: State, end: nat, given: Option<Given>, saves: seq<Saved>, event: Event)
    requires Kept(start, s, end) && Recorded(start, s, given, saves) && Possible(s, event) && (event.Fail? || event.Settle?)
    ensures Recorded(start, Step(s, event), given, saves)
  {
  }

  lemma StepIsRecorded(start: State, s: State, end: nat, given: Option<Given>, saves: seq<Saved>, event: Event)
    requires Kept(start, s, end) && Recorded(start, s, given, saves)
    ensures Recorded(start, Step(s, event), GivenAfter(s, given, event), SavedAfter(s, given, saves, event))
  {
    if Possible(s, event) {
      match event {
        case Rate(rating) => RatingIsRecorded(start, s, end, given, saves, event);
        case Persist(k, response) => SavingIsRecorded(start, s, end, given, saves, response);
        case Advance => AdvancingIsRecorded(start, s, end, given, saves);
        case _ => OtherIsRecorded(start, s, end, given, saves, event);
      }
    }
  }

  /** The history with one more event. */
  lemma HistoryStep(start: State, events: seq<Event>)
    requires events != []
    ensures var before, last := events[..|events| - 1], events[|events| - 1];
            && Run(start, events) == Step(Run(start, before), last)
            && LastGiven(start, events) == GivenAfter(Run(start, before), LastGiven(start, before), last)
            && SavedReviews(start, events) == SavedAfter(Run(start, before), LastGiven(start, before), SavedReviews(start, before), last)
            && Reviewed(start, events)
               == (if Saves(Run(start, before), last) then Reviewed(start, before) + [Run(start, before).currentIndex] else Reviewed(start, before))
  {
  }

  lemma RunIsKept(s: State, lesson: Lesson, events: seq<Event>) returns (end: nat)
    requires SafeIndex(lesson).Some? && Idle(s)
    ensures Kept(Applied(s, lesson), Run(Applied(s, lesson), events), end)
  {
    var start := Applied(s, lesson);
    RunKeeps(s, lesson, events);
    end := GoodIsKept(start, Run(start, events), Reviewed(start, events));
  }

  lemma GoodIsKept(start: State, s: State, saved: seq<nat>) returns (end: nat)
    requires Good(start, s, saved)
    ensures Kept(start, s, end)
  {
    end := start.currentIndex + |saved|;
  }

  lemma RunGoesOnRecorded(start: State, end: nat, events: seq<Event>)
    requires events != []
    requires var before := events[..|events| - 1];
             Kept(start, Run(start, before), end)
             && Recorded(start, Run(start, before), LastGiven(start, before), SavedReviews(start, before))
    ensures Recorded(start, Run(start, events), LastGiven(start, events), SavedReviews(start, events))
  {
    var before, last := events[..|events| - 1], events[|events| - 1];
    HistoryStep(start, events);
    StepIsRecorded(start, Run(start, before), end, LastGiven(start, before), SavedReviews(start, before), last);
  }

  lemma {:induction false} RunIsRecorded(s: State, lesson: Lesson, events: seq<Event>)
    requires SafeIndex(lesson).Some? && Idle(s)
    ensures var start := Applied(s, lesson);
            Recorded(start, Run(start, events), LastGiven(start, events), SavedReviews(start, events))
  {
    if events != [] {
      var before := events[..|events| - 1];
      RunIsRecorded(s, lesson, before);
      var end := RunIsKept(s, lesson, before);
      RunGoesOnRecorded(Applied(s, lesson), end, events);
    }
  }

  // ---------- ratings ----------

  /** A review on its way carries the rating the learner gave at the position shown, for the item there and
      under the lesson version of that moment. */
  lemma RequestCarriesRating(s: State, lesson: Lesson, events: seq<Event>)
    requires SafeIndex(lesson).Some? && Idle(s) && Run(Applied(s, lesson), events).requests != []
    ensures var start := Applied(s, lesson);
            var now, given := Run(start, events), LastGiven(start, events);
            && given.Some? && |now.requests| == 1 && given.value.position == now.currentIndex < |now.items|
            && now.requests[0].id == now.items[now.currentIndex]
            && now.requests[0].rating == given.value.rating && now.requests[0].version == given.value.version
  {
    RunIsRecorded(s, lesson, events);
    RunKeeps(s, lesson, events);
  }

  /** The ratings and judgements of a run are those it started with, overwritten by what was saved: each saved
      item has the rating the learner gave and the server's judgement. */
  lemma RatingsAreGiven(s: State, lesson: Lesson, events: seq<Event>)
    requires SafeIndex(lesson).Some? && Idle(s)
    ensures var start := Applied(s, lesson);
            && Run(start, events).ratings == RatingsAfter(start.ratings, SavedReviews(start, events))
            && Run(start, events).judgements == JudgementsAfter(start.judgements, SavedReviews(start, events))
  {
    RunIsRecorded(s, lesson, events);
  }

  predicate NoSaveFrom(saves: seq<Saved>, from: nat, id: ItemId) { forall k :: from <= k < |saves| ==> saves[k].given.id != id }

  /** Items without a save keep what they had. */
  lemma {:induction false} UnsavedStay(ratings: map<ItemId, Rating>, judgements: map<ItemId, Option<bool>>, saves: seq<Saved>, id: ItemId)
    requires NoSaveFrom(saves, 0, id)
    ensures (id in RatingsAfter(ratings, saves) <==> id in ratings) && (id in JudgementsAfter(judgements, saves) <==> id in judgements)
    ensures id in ratings ==> RatingsAfter(ratings, saves)[id] == ratings[id]
    ensures id in judgements ==> JudgementsAfter(judgements, saves)[id] == judgements[id]
  {
    if saves != [] { UnsavedStay(ratings, judgements, saves[..|saves| - 1], id); }
  }

  /** What was saved last for an item stands. */
  lemma {:induction false} LastSaveStands(ratings: map<ItemId, Rating>, judgements: map<ItemId, Option<bool>>, saves: seq<Saved>, k: nat)
    requires k < |saves| && NoSaveFrom(saves, k + 1, saves[k].given.id)
    ensures var id := saves[k].given.id;
            && id in RatingsAfter(ratings, saves) && RatingsAfter(ratings, saves)[id] == saves[k].given.rating
            && id in JudgementsAfter(judgements, saves) && JudgementsAfter(judgements, saves)[id] == saves[k].response.correct
  {
    if k < |saves| - 1 {
      assert saves[|saves| - 1].given.id != saves[k].given.id;
      LastSaveStands(ratings, judgements, saves[..|saves| - 1], k);
    }
  }

  /** The positions and items of the saves are those the run saved. */
  ghost predicate SavedAt(start: State, saves: seq<Saved>, positions: seq<nat>) {
    && |saves| == |positions|
    && forall k :: 0 <= k < |saves| ==>
         saves[k].given.position == positions[k] < |start.items| && saves[k].given.id == start.items[positions[k]]
  }

  lemma StepSavesAt(start: State, s: State, end: nat, given: Option<Given>, saves: seq<Saved>, event: Event, positions: seq<nat>)
    requires Kept(start, s, end) && Recorded(start, s, given, saves) && SavedAt(start, saves, positions)
    ensures SavedAt(start, SavedAfter(s, given, saves, event), if Saves(s, event) then positions + [s.currentIndex] else positions)
  {
  }

  /** The saves are those of the positions the run saved, in order, each for the item there. */
  lemma {:induction false} SavesAreThePositions(s: State, lesson: Lesson, events: seq<Event>)
    requires SafeIndex(lesson).Some? && Idle(s)
    ensures var start := Applied(s, lesson); SavedAt(start, SavedReviews(start, events), Reviewed(start, events))
  {
    var start := Applied(s, lesson);
    if events != [] {
      var before := events[..|events| - 1];
      SavesAreThePositions(s, lesson, before);
      RunIsRecorded(s, lesson, before);
      var end := RunIsKept(s, lesson, before);
      HistoryStep(start, events);
      StepSavesAt(start, Run(start, before), end, LastGiven(start, before), SavedReviews(start, before), events[|events| - 1], Reviewed(start, before));
    }
  }

  lemma {:induction false} SavedIsRated(ratings: map<ItemId, Rating>, saves: seq<Saved>, k: nat)
    requires k < |saves|
    ensures saves[k].given.id in RatingsAfter(ratings, saves)
  {
    if k < |saves| - 1 { SavedIsRated(ratings, saves[..|saves| - 1], k); }
  }

  ghost predicate EachOnce(saves: seq<Saved>) { forall j, k :: 0 <= j < k < |saves| ==> saves[j].given.id != saves[k].given.id }

  lemma StepSavesOnce(start: State, s: State, end: nat, given: Option<Given>, saves: seq<Saved>, event: Event)
    requires Kept(start, s, end) && Recorded(start, s, given, saves) && EachOnce(saves)
    ensures EachOnce(SavedAfter(s, given, saves, event))
  {
    if Saves(s, event) && given.Some? {
      forall j | 0 <= j < |saves| ensures saves[j].given.id != given.value.id { SavedIsRated(start.ratings, saves, j); }
    }
  }

  lemma {:induction false} SavesOnce(s: State, lesson: Lesson, events: seq<Event>)
    requires SafeIndex(lesson).Some? && Idle(s)
    ensures EachOnce(SavedReviews(Applied(s, lesson), events))
  {
    var start := Applied(s, lesson);
    if events != [] {
      var before := events[..|events| - 1];
      SavesOnce(s, lesson, before);
      RunIsRecorded(s, lesson, before);
      var end := RunIsKept(s, lesson, before);
      HistoryStep(start, events);
      StepSavesOnce(start, Run(start, before), end, LastGiven(start, before), SavedReviews(start, before), events[|events| - 1]);
    }
  }

  /** No later save touches an item again: what was saved at a position is the rating the learner gave there,
      with the server's judgement, for as long as the lesson runs; other items keep the rating they came with. */
  lemma SavedRatingStands(s: State, lesson: Lesson, events: seq<Event>)
    requires SafeIndex(lesson).Some? && Idle(s)
    ensures var start := Applied(s, lesson);
            var now, saves := Run(start, events), SavedReviews(start, events);
            && (forall k :: 0 <= k < |saves| ==>
                  && saves[k].given.position < |now.items| && saves[k].given.id == now.items[saves[k].given.position]
                  && saves[k].given.id in now.ratings && now.ratings[saves[k].given.id] == saves[k].given.rating
                  && saves[k].given.id in now.judgements && now.judgements[saves[k].given.id] == saves[k].response.correct)
            && (forall id :: id in start.ratings && NoSaveFrom(saves, 0, id) ==> id in now.ratings && now.ratings[id] == start.ratings[id])
  {
    var start := Applied(s, lesson);
    var now, saves := Run(start, events), SavedReviews(start, events);
    RatingsAreGiven(s, lesson, events);
    SavesAreThePositions(s, lesson, events);
    SavesOnce(s, lesson, events);
    var end := RunIsKept(s, lesson, events);
    forall k | 0 <= k < |saves| ensures NoSaveFrom(saves, k + 1, saves[k].given.id) {}
    forall k | 0 <= k < |saves|
      ensures saves[k].given.id in now.ratings && now.ratings[saves[k].given.id] == saves[k].given.rating
      ensures saves[k].given.id in now.judgements && now.judgements[saves[k].given.id] == saves[k].response.correct
    {
      LastSaveStands(start.ratings, start.judgements, saves, k);
    }
    forall id | id in start.ratings && NoSaveFrom(saves, 0, id) ensures id in now.ratings && now.ratings[id] == start.ratings[id] {
      UnsavedStay(start.ratings, start.judgements, saves, id);
    }
  }

  // ---------- the server's word ----------

  /** Over a whole run the lesson's version, its completion and the position to go to are those of the last
      answer the server sent. */
  lemma LastAnswerHolds(s: State, lesson: Lesson, events: seq<Event>)
    requires SafeIndex(lesson).Some? && Idle(s)
    ensures var start := Applied(s, lesson);
            var now, saves := Run(start, events), SavedReviews(start, events);
            if saves == [] then now.version == Some(lesson.version) && !now.serverCompleted && now.serverNextIndex.None?
            else
              var last := saves[|saves| - 1];
              && now.serverCompleted == last.response.completed
              && now.version == (if last.response.completed then None else Some(last.response.version))
              && now.serverNextIndex
                 == (if last.response.completed || now.currentIndex != last.given.position then None else Some(last.response.currentIndex))
  {
    RunIsRecorded(s, lesson, events);
  }

  /** A move goes to the position the server named in its answer to the review of the position left, and the
      results open only on its word that the lesson is completed. */
  lemma MovesAreNamed(s: State, lesson: Lesson, events: seq<Event>, event: Event)
    requires SafeIndex(lesson).Some? && Idle(s)
    ensures var start := Applied(s, lesson);
            var now, next, saves := Run(start, events), Step(Run(start, events), event), SavedReviews(start, events);
            && (next.currentIndex != now.currentIndex ==>
                  saves != [] && saves[|saves| - 1].given.position == now.currentIndex
                  && !saves[|saves| - 1].response.completed
                  && saves[|saves| - 1].response.currentIndex == next.currentIndex as real)
            && (next.complete && !now.complete ==> saves != [] && saves[|saves| - 1].response.completed)
  {
    var start := Applied(s, lesson);
    RunIsRecorded(s, lesson, events);
    RunKeeps(s, lesson, events);
    GoesWhereNamed(start, Run(start, events), start.currentIndex + |Reviewed(start, events)|, SavedReviews(start, events), event);
  }

  lemma GoesWhereNamed(start: State, s: State, end: nat, saves: seq<Saved>, event: Event)
    requires Kept(start, s, end) && HoldsWord(start, s, saves)
    ensures var next := Step(s, event);
            && (next.currentIndex != s.currentIndex ==>
                  saves != [] && saves[|saves| - 1].given.position == s.currentIndex
                  && !saves[|saves| - 1].response.completed
                  && saves[|saves| - 1].response.currentIndex == next.currentIndex as real)
            && (next.complete && !s.complete ==> saves != [] && saves[|saves| - 1].response.completed)
  {
    AdvanceIsSequential(s.currentIndex, |s.items|, s.items[s.currentIndex] in s.ratings, s.reviewing, s.serverCompleted, s.serverNextIndex);
  }

  // ---------- the lesson shown ----------

  lemma {:induction false} IdsAt(items: seq<ServerItem>, i: nat)
    requires i < |items|
    ensures Ids(items)[i] == items[i].id
  {
    if i > 0 { IdsAt(items[1..], i - 1); }
  }

  /** From an entry on, the item is rated by the server. */
  ghost predicate RatedFrom(items: seq<ServerItem>, from: nat, id: ItemId) {
    exists i :: from <= i < |items| && items[i].id == id && items[i].rating.Some?
  }

  lemma {:induction false} RestoredIff(items: seq<ServerItem>, id: ItemId)
    ensures id in RestoredRatings(items) <==> RatedFrom(items, 0, id)
  {
    if items != [] {
      var before, n := items[..|items| - 1], |items| - 1;
      RestoredIff(before, id);
      assert forall i :: 0 <= i < n ==> before[i] == items[i];
      if RatedFrom(before, 0, id) {
        var i :| 0 <= i < n && before[i].id == id && before[i].rating.Some?;
        assert items[i].id == id;
      }
    }
  }

  /** The restored rating of an item is that of its last rated entry. */
  lemma {:induction false} RestoredIsLast(items: seq<ServerItem>, i: nat)
    requires i < |items| && items[i].rating.Some? && !RatedFrom(items, i + 1, items[i].id)
    ensures items[i].id in RestoredRatings(items) && RestoredRatings(items)[items[i].id] == items[i].rating.value
  {
    var n := |items| - 1;
    if i < n {
      assert items[n].id != items[i].id || items[n].rating.None?;
      RestoredIsLast(items[..n], i);
    }
  }

  /** A lesson is shown exactly if its version is a positive whole number and its position is that of an item
      without a rating, and then at exactly that position. */
  lemma ShownIff(lesson: Lesson)
    ensures SafeIndex(lesson).Some? <==>
              && lesson.version.Floor as real == lesson.version && lesson.version > 0.0
              && lesson.currentIndex.Floor as real == lesson.currentIndex && 0.0 <= lesson.currentIndex < |lesson.items| as real
              && !RatedFrom(lesson.items, 0, lesson.items[lesson.currentIndex.Floor].id)
    ensures SafeIndex(lesson).Some? ==> SafeIndex(lesson).value as real == lesson.currentIndex
  {
    if lesson.currentIndex.Floor as real == lesson.currentIndex && 0.0 <= lesson.currentIndex < |lesson.items| as real {
      IdsAt(lesson.items, lesson.currentIndex.Floor);
      RestoredIff(lesson.items, lesson.items[lesson.currentIndex.Floor].id);
    }
  }

  /** The lesson is on show: at the position the server named, with its items, its version and the rating of the
      last rated entry of each item, nothing judged yet and no word on how to go on. */
  ghost predicate Shows(s: State, lesson: Lesson) {
    && s.currentIndex as real == lesson.currentIndex && s.version == Some(lesson.version) && s.started && !s.complete
    && !s.serverCompleted && s.serverNextIndex.None?
    && |s.items| == |lesson.items| && (forall i :: 0 <= i < |s.items| ==> s.items[i] == lesson.items[i].id)
    && (forall id :: id in s.ratings <==> RatedFrom(lesson.items, 0, id))
    && (forall i :: 0 <= i < |lesson.items| && lesson.items[i].rating.Some? && !RatedFrom(lesson.items, i + 1, lesson.items[i].id) ==>
          lesson.items[i].id in s.ratings && s.ratings[lesson.items[i].id] == lesson.items[i].rating.value)
    && (forall id :: id in s.judgements <==> id in s.ratings) && (forall id :: id in s.judgements ==> s.judgements[id].None?)
  }

  lemma AppliedShows(s: State, lesson: Lesson)
    requires SafeIndex(lesson).Some?
    ensures Shows(Applied(s, lesson), lesson)
  {
    ShownIff(lesson);
    forall i | 0 <= i < |lesson.items| ensures Ids(lesson.items)[i] == lesson.items[i].id { IdsAt(lesson.items, i); }
    forall id ensures id in RestoredRatings(lesson.items) <==> RatedFrom(lesson.items, 0, id) { RestoredIff(lesson.items, id); }
    forall i | 0 <= i < |lesson.items| && lesson.items[i].rating.Some? && !RatedFrom(lesson.items, i + 1, lesson.items[i].id)
      ensures lesson.items[i].id in RestoredRatings(lesson.items)
      ensures RestoredRatings(lesson.items)[lesson.items[i].id] == lesson.items[i].rating.value
    {
      RestoredIsLast(lesson.items, i);
    }
  }
}
