/** The lesson component's state changed in place by its handlers, proved against the steps of `LessonRun`. */
module LessonScreen {
  import opened Basics
  import opened LessonFlow
  import opened LessonRun
  import opened LessonHistory

  /** The ratings the server already holds, a later entry for the same item winning. */
  method RestoreRatings(items: seq<ServerItem>) returns (restored: map<ItemId, Rating>)
    ensures restored == RestoredRatings(items)
  {
    restored := map[];
    for i := 0 to |items|
      invariant restored == RestoredRatings(items[..i])
    {
      assert items[..i + 1][..i] == items[..i];
      if items[i].rating.Some? {
        restored := restored[items[i].id := items[i].rating.value];
      }
    }
    assert items[..|items|] == items;
  }

  lemma AdvancedIsGood(start: State, was: State, saved: seq<nat>, now: State)
    requires Good(start, was, saved) && now == Advanced(was)
    ensures Good(start, now, saved) && MovesFromSaved(was, now, saved)
  {
    assert now == Step(was, Advance);
    StepIsGood(start, was, saved, Advance);
    GoodMoves(start, was, saved, Advance);
  }

  class ActiveLesson {
    var version: Option<real>
    var items: seq<ItemId>
    var currentIndex: nat
    var ratings: map<ItemId, Rating>
    var judgements: map<ItemId, Option<bool>>
    var started: bool
    var complete: bool
    var serverCompleted: bool
    var serverNextIndex: Option<real>
    var reviewInFlight: bool
    var reviewing: bool
    var requests: seq<Request>

    ghost var start: State       // right after the lesson was applied
    ghost var saved: seq<nat>    // the positions whose review the server has saved since

    function Value(): State
      reads this
    {
      State(version, items, currentIndex, ratings, judgements, started, complete, serverCompleted, serverNextIndex,
            reviewInFlight, reviewing, requests)
    }

    /** While a lesson is shown, the positions saved run consecutively from the first one shown. */
    ghost predicate Valid()
      reads this
    {
      started ==> Good(start, Value(), saved)
    }

    constructor ()
      ensures Valid() && Idle(Value()) && !started && !complete
    {
      saved := [];
      version, items, currentIndex, ratings, judgements := None, [], 0, map[], map[];
      started, complete, serverCompleted, serverNextIndex := false, false, false, None;
      reviewInFlight, reviewing, requests := false, false, [];
    }

    method ShowItems(lessonItems: seq<ItemId>, index: nat, rated: map<ItemId, Rating>, judged: map<ItemId, Option<bool>>)
      modifies this
      ensures Value() == old(Value()).(items := lessonItems, currentIndex := index, ratings := rated, judgements := judged)
      ensures start == old(start) && saved == old(saved)
    {
      judgements := judged;
      items := lessonItems;
      ratings := rated;
      currentIndex := index;
    }

    method ClearLessonState()
      modifies this
      ensures Valid() && Value() == Cleared(old(Value()))
    {
      version := None;
      ShowItems([], 0, map[], map[]);
      started, complete, serverCompleted, serverNextIndex := false, false, false, None;
      reviewInFlight := false;
    }

    /** Shows a server lesson at exactly the position the server named, with the ratings it holds, or nothing
        if that is no position of an unrated item or the version is no positive whole number. */
    method ApplyLesson(lesson: Lesson) returns (shown: bool)
      modifies this
      ensures Value() == Applied(old(Value()), lesson) && shown == SafeIndex(lesson).Some?
      ensures shown <==>
                && lesson.version.Floor as real == lesson.version && lesson.version > 0.0
                && lesson.currentIndex.Floor as real == lesson.currentIndex && 0.0 <= lesson.currentIndex < |lesson.items| as real
                && !RatedFrom(lesson.items, 0, lesson.items[lesson.currentIndex.Floor].id)
      ensures shown ==> Shows(Value(), lesson)
      ensures !shown ==> !started && !complete && items == [] && ratings == map[] && judgements == map[] && version.None?
      ensures !shown ==> Valid()
      ensures shown && old(Idle(Value())) ==> Valid() && start == Value() && saved == []
    {
      ghost var was := Value();
      ShownIff(lesson);
      if SafeIndex(lesson).Some? { AppliedShows(was, lesson); }
      var lessonItems := Ids(lesson.items);
      var restoredRatings := RestoreRatings(lesson.items);
      var candidateReviewed :=
        IsInteger(lesson.currentIndex) && 0 <= lesson.currentIndex.Floor < |lessonItems|
        && lessonItems[lesson.currentIndex.Floor] in restoredRatings;
      var safeIndex := ResolveActiveLessonIndex(lesson.currentIndex, |lessonItems|, candidateReviewed);
      if safeIndex.None? || !IsInteger(lesson.version) || lesson.version <= 0.0 {
        ClearLessonState();
        return false;
      }
      ShowLesson(lesson.version, lessonItems, safeIndex.value, restoredRatings);
      start, saved := Value(), [];
      if Idle(was) { AppliedKeeps(was, lesson); }
      return true;
    }

    method ShowLesson(lessonVersion: real, lessonItems: seq<ItemId>, index: nat, restoredRatings: map<ItemId, Rating>)
      modifies this
      ensures Value() == old(Value()).(
        version := Some(lessonVersion), items := lessonItems, currentIndex := index,
        ratings := restoredRatings, judgements := map id | id in restoredRatings :: None,
        started := true, complete := |lessonItems| == 0, serverCompleted := false, serverNextIndex := None)
    {
      version := Some(lessonVersion);
      ShowItems(lessonItems, index, restoredRatings, map id | id in restoredRatings :: None);
      complete := |lessonItems| == 0;
      serverCompleted, serverNextIndex, started := false, None, true;
    }

    /** Starts saving a rating of the shown item, unless one is on its way or saved already: the request carries
        that rating, the item shown and the lesson's version, and at most one review is ever on its way, for
        the position shown and not saved yet. */
    method RateCurrent(rating: Rating)
      requires Valid()
      modifies this
      ensures Valid() && start == old(start) && saved == old(saved)
      ensures Value() == Rated(old(Value()), rating)
      ensures var takes := currentIndex < |items| && items[currentIndex] !in ratings && !old(reviewInFlight) && version.Some?;
              && (takes ==> requests == old(requests) + [Request(items[currentIndex], rating, ratings, version.value)] && reviewInFlight && reviewing)
              && (!takes ==> requests == old(requests) && reviewInFlight == old(reviewInFlight) && reviewing == old(reviewing))
              && items == old(items) && currentIndex == old(currentIndex) && ratings == old(ratings) && version == old(version)
      ensures started ==> OneReviewAtATime(Value(), saved)
    {
      ghost var was := Value();
      if currentIndex < |items| && items[currentIndex] !in ratings && !reviewInFlight && version.Some? {
        reviewInFlight := true;
        reviewing := true;
        requests := requests + [Request(items[currentIndex], rating, ratings, version.value)];
      }
      if started {
        StepIsGood(start, was, saved, Rate(rating));
        GoodMoves(start, Value(), saved, Settle);
      }
    }

    /** The rest of the handler once the server has saved the review: the item has the rating sent and the server's
        judgement, the server's word is its answer's, and the position shown joins the saved ones, for the
        first time. */
    method ReviewSaved(k: nat, response: Response)
      requires Valid() && k < |requests|
      modifies this
      ensures Valid() && start == old(start) && Value() == Persisted(old(Value()), k, response)
      ensures ratings == old(requests[k]).seen[old(requests[k]).id := old(requests[k]).rating]
      ensures judgements == old(judgements)[old(requests[k]).id := response.correct]
      ensures serverCompleted == response.completed
      ensures serverNextIndex == if response.completed then None else Some(response.currentIndex)
      ensures response.completed ==> version.None?
      ensures !response.completed && old(version).Some? ==> version == Some(response.version)
      ensures requests == old(requests[..k] + requests[k + 1..]) && items == old(items) && currentIndex == old(currentIndex)
      ensures started ==> saved == old(saved) + [currentIndex] && currentIndex !in old(saved) && items[currentIndex] in ratings
      ensures started ==> ratings == old(ratings)[items[currentIndex] := old(requests[k]).rating]
    {
      ghost var was := Value();
      SaveReview(k, response);
      if started {
        GoodMoves(start, was, saved, Settle);
        StepIsGood(start, was, saved, Persist(k, response));
        saved := saved + [currentIndex];
      }
    }

    method SaveReview(k: nat, response: Response)
      requires k < |requests|
      modifies this
      ensures Value() == Persisted(old(Value()), k, response) && start == old(start) && saved == old(saved)
    {
      var request := requests[k];
      requests := requests[..k] + requests[k + 1..];
      judgements := judgements[request.id := response.correct];
      ratings := request.seen[request.id := request.rating];
      serverCompleted := response.completed;
      serverNextIndex := if response.completed then None else Some(response.currentIndex);
      if response.completed {
        version := None;
      } else if version.Some? {
        version := Some(response.version);
      }
    }

    method ReviewFailed(k: nat)
      requires Valid() && k < |requests|
      modifies this
      ensures Valid() && start == old(start) && saved == old(saved)
      ensures Value() == Failed(old(Value()), k)
    {
      ghost var was := Value();
      requests := requests[..k] + requests[k + 1..];
      if started { StepIsGood(start, was, saved, Fail(k)); }
    }

    /** The end of the handler, its request answered. */
    method ReviewSettled()
      requires Valid() && requests == []
      modifies this
      ensures Valid() && start == old(start) && saved == old(saved)
      ensures Value() == Settled(old(Value()))
    {
      ghost var was := Value();
      reviewInFlight := false;
      reviewing := false;
      if started { StepIsGood(start, was, saved, Settle); }
    }

    /** Shows another position; one that is not a position of the lesson is refused. */
    method MoveToServerIndex(index: nat) returns (moved: bool)
      modifies this
      ensures moved <==> index < old(|items|)
      ensures Value() == if moved then MovedTo(old(Value()), index) else old(Value())
      ensures start == old(start) && saved == old(saved)
    {
      if index >= |items| { return false; }
      currentIndex := index;
      serverNextIndex := None;
      return true;
    }

    method GoOn() returns (refused: bool)
      modifies this
      ensures Value() == Advanced(old(Value())) && !refused && start == old(start) && saved == old(saved)
    {
      refused := false;
      var persisted := currentIndex < |items| && items[currentIndex] in ratings;
      var decision := DecideLessonAdvance(currentIndex, |items|, persisted, reviewing, serverCompleted, serverNextIndex);
      AdvanceIsSequential(currentIndex, |items|, persisted, reviewing, serverCompleted, serverNextIndex);
      match decision {
        case Blocked(_) =>
        case Results => complete := true;
        case Next(nextIndex) =>
          var moved := MoveToServerIndex(nextIndex);
          refused := !moved;
      }
    }

    /** Goes on as far as the decision allows: by one position, from a saved one, and never refused. */
    method NextItem() returns (refused: bool)
      requires Valid()
      modifies this
      ensures Valid() && start == old(start) && saved == old(saved)
      ensures Value() == Advanced(old(Value())) && !refused
      ensures started ==> MovesFromSaved(old(Value()), Value(), saved)
    {
      ghost var was := Value();
      refused := GoOn();
      if started { AdvancedIsGood(start, was, saved, Value()); }
    }
  }
}
