/** What a lesson result counts: which judgements and ratings stand behind its numbers, when the daily goal is
    reached, and what a stored result must look like to be handed out.
 */
module LessonEvidence {
  import opened Basics
  import opened LessonResult
  import Whitespace

  // ---------- counts ----------

  lemma MultisetSnoc<T>(s: seq<T>, x: T)
    requires s != []
    ensures multiset(s)[x] == multiset(s[..|s| - 1])[x] + if s[|s| - 1] == x then 1 else 0
  {
    assert s == s[..|s| - 1] + [s[|s| - 1]];
  }

  lemma {:induction false} RatingsCounted(ratings: seq<Rating>, rating: Rating)
    ensures CountOf(ratings, rating) == multiset(ratings)[rating]
  {
    if ratings != [] {
      RatingsCounted(ratings[..|ratings| - 1], rating);
      MultisetSnoc(ratings, rating);
    }
  }

  lemma JudgedSnoc(values: seq<Judgement>, last: Judgement)
    ensures Judged(values + [last]) == Judged(values) + if last.correct.Some? then [last] else []
    ensures Right(values + [last]) == Right(values) + if last.correct == Some(true) then [last] else []
  {
    assert (values + [last])[..|values|] == values;
  }

  /** One more judgement adds one to the count it belongs to. */
  lemma EvidenceSnoc(values: seq<Judgement>, mode: AnswerMode)
    requires values != []
    ensures var e, before, last := EvidenceFor(values, mode), EvidenceFor(values[..|values| - 1], mode), values[|values| - 1];
            && e.attempted == before.attempted + (if last.mode == mode && last.correct.Some? then 1 else 0)
            && e.correct == before.correct + (if last.mode == mode && last.correct == Some(true) then 1 else 0)
            && e.unavailable == before.unavailable + (if last.mode == mode && last.correct.None? then 1 else 0)
  {
    var before, last := values[..|values| - 1], values[|values| - 1];
    JudgedSnoc(InMode(before, mode), last);
    JudgedSnoc(Judged(InMode(before, mode)), last);
  }

  lemma {:induction false} EvidenceCounted(values: seq<Judgement>, mode: AnswerMode)
    ensures var e, counts := EvidenceFor(values, mode), multiset(values);
            && e.correct == counts[Judgement(mode, Some(true))]
            && e.attempted == counts[Judgement(mode, Some(true))] + counts[Judgement(mode, Some(false))]
            && e.unavailable == counts[Judgement(mode, None)]
  {
    if values != [] {
      EvidenceCounted(values[..|values| - 1], mode);
      EvidenceSnoc(values, mode);
      var last := values[|values| - 1];
      assert last.correct.Some? ==> last.correct == if last.correct.value then Some(true) else Some(false);
      MultisetSnoc(values, Judgement(mode, Some(true)));
      MultisetSnoc(values, Judgement(mode, Some(false)));
      MultisetSnoc(values, Judgement(mode, None));
    }
  }

  /** The snapshot's counts: correct, judged and unjudged answers by typing and by choosing, all judgements against
      all items, and the ratings by kind. */
  lemma SnapshotCounts(parse: Parse, input: Input)
    ensures var s, judged, rated := BuildSnapshot(parse, input), multiset(input.judgements), multiset(input.ratings);
            && s.evidence.recall.correct == judged[Judgement(Recall, Some(true))]
            && s.evidence.recall.attempted == judged[Judgement(Recall, Some(true))] + judged[Judgement(Recall, Some(false))]
            && s.evidence.recall.unavailable == judged[Judgement(Recall, None)]
            && s.evidence.recognition.correct == judged[Judgement(Choice, Some(true))]
            && s.evidence.recognition.attempted == judged[Judgement(Choice, Some(true))] + judged[Judgement(Choice, Some(false))]
            && s.evidence.recognition.unavailable == judged[Judgement(Choice, None)]
            && s.evidence.reviewed == |input.judgements| && s.evidence.total == |input.itemIds| == s.itemCount
            && s.confidence.known == rated[Known] && s.confidence.almost == rated[Almost] && s.confidence.again == rated[Again]
  {
    EvidenceCounted(input.judgements, Recall);
    EvidenceCounted(input.judgements, Choice);
    RatingsCounted(input.ratings, Known);
    RatingsCounted(input.ratings, Almost);
    RatingsCounted(input.ratings, Again);
  }

  // ---------- numbers of the day ----------

  /** Counts below zero are taken for zero, and a counter that is no finite number for none. */
  lemma SnapshotNumbers(parse: Parse, input: Input, v: real)
    ensures var s := BuildSnapshot(parse, input);
            && (input.skipped == Finite(v) ==> s.skipped == Finite(if v >= 0.0 then v else 0.0))
            && (input.dueNow == Finite(v) ==> s.dueNow == Finite(if v >= 0.0 then v else 0.0))
            && (input.dailyGoal == Finite(v) ==> s.dailyGoal == Finite(if v >= 0.0 then v else 0.0))
            && (input.reviewsBefore == Some(Finite(v)) ==> s.reviewsBefore == Some(if v >= 0.0 then v else 0.0))
            && (input.reviewsAfter == Some(Finite(v)) ==> s.reviewsAfter == Some(if v >= 0.0 then v else 0.0))
            && (input.objectiveReviewsToday == Some(Finite(v)) ==> s.objectiveReviewsToday == Some(if v >= 0.0 then v else 0.0))
            && (input.objectiveSuccessfulToday == Some(Finite(v)) ==> s.objectiveSuccessfulToday == Some(if v >= 0.0 then v else 0.0))
            && (input.currentStreak == Some(Finite(v)) ==> s.currentStreak == Some(if v >= 0.0 then v else 0.0))
            && (s.reviewsBefore.Some? <==> input.reviewsBefore.Some? && input.reviewsBefore.value.Finite?)
            && (s.reviewsAfter.Some? <==> input.reviewsAfter.Some? && input.reviewsAfter.value.Finite?)
            && (s.objectiveReviewsToday.Some? <==> input.objectiveReviewsToday.Some? && input.objectiveReviewsToday.value.Finite?)
            && (s.objectiveSuccessfulToday.Some? <==> input.objectiveSuccessfulToday.Some? && input.objectiveSuccessfulToday.value.Finite?)
            && (s.currentStreak.Some? <==> input.currentStreak.Some? && input.currentStreak.value.Finite?)
  {
  }

  /** The daily goal is reached when there is one above zero and the day's reviews come to it, and just reached
      when they did not before the lesson. */
  lemma GoalByNumbers(parse: Parse, input: Input)
    ensures var s := BuildSnapshot(parse, input);
            && (s.dailyGoalReached <==>
                  && input.reviewsAfter.Some? && input.reviewsAfter.value.Finite? && input.dailyGoal.Finite?
                  && input.dailyGoal.value > 0.0 && input.reviewsAfter.value.value >= input.dailyGoal.value)
            && (s.dailyGoalJustReached <==>
                  && s.dailyGoalReached && input.reviewsBefore.Some? && input.reviewsBefore.value.Finite?
                  && input.reviewsBefore.value.value < input.dailyGoal.value)
  {
  }

  /** The snapshot is about the lesson it was built for, with its time of the next review where that names an instant. */
  lemma SnapshotIsOfLesson(parse: Parse, input: Input)
    ensures var s := BuildSnapshot(parse, input);
            && s.userId == input.userId && s.lessonId == input.lessonId && s.source == input.source && s.studyMode == input.studyMode
            && s.sessionKind == input.sessionKind && s.lessonSize == input.lessonSize && s.completedAt == input.completedAt
            && s.syncPending == input.syncPending
            && s.topic == (if input.topic.Some? then Whitespace.Trim(input.topic.value) else "")
            && (input.nextDueAt.Some? && parse(Whitespace.Trim(input.nextDueAt.value)).Some? && Whitespace.Trim(input.nextDueAt.value) != "" ==>
                  s.nextDueAt == Some(Whitespace.Trim(input.nextDueAt.value)))
            && (s.nextDueAt.Some? ==> input.nextDueAt.Some? && parse(s.nextDueAt.value).Some? && s.nextDueAt.value != "")
            && (forall id :: id in s.itemIds <==>
                  id in input.itemIds && id.Finite? && id.value > 0.0 && id.value.Floor as real == id.value)
  {
    ItemIdsAreASet(input.itemIds);
  }
}
