/** The decisions of a running lesson: which server position may be shown, and when the learner may go on.
    Server numbers are reals, since the payload may hold any number.
 */
module LessonFlow {
  import opened Basics

  datatype BlockReason = Saving | ReviewRequired | CompletionNotConfirmed | ServerPositionMissing | ServerPositionInvalid

  datatype Decision = Blocked(reason: BlockReason) | Next(nextIndex: nat) | Results

  predicate IsInteger(x: real) { x.Floor as real == x }

  /** The position to show for an active lesson, if it is a position of an item not yet reviewed. */
  function ResolveActiveLessonIndex(currentIndex: real, itemCount: nat, currentItemReviewed: bool): Option<nat> {
    if !IsInteger(currentIndex) || currentIndex < 0.0 || currentIndex >= itemCount as real then None
    else if currentItemReviewed then None
    else Some(currentIndex.Floor)
  }

  function DecideLessonAdvance(currentIndex: nat, itemCount: nat, reviewPersisted: bool, reviewSaving: bool,
                               serverCompleted: bool, serverNextIndex: Option<real>): Decision {
    if reviewSaving then Blocked(Saving)
    else if !reviewPersisted then Blocked(ReviewRequired)
    else
      var lastIndex := if itemCount >= 1 then itemCount - 1 else 0;
      if currentIndex >= lastIndex then
        if !serverCompleted then Blocked(CompletionNotConfirmed) else Results
      else match serverNextIndex
        case None => Blocked(ServerPositionMissing)
        case Some(index) =>
          if !IsInteger(index) || index != (currentIndex + 1) as real || index < 0.0 || index >= itemCount as real then
            Blocked(ServerPositionInvalid)
          else Next(index.Floor)
  }

  /** The learner goes on exactly to the following position, and exactly when the review is saved, the
      server named that position and there is one; results open exactly at the end with the server's word;
      and each reason to stay is given exactly when it holds. */
  lemma AdvanceIsSequential(currentIndex: nat, itemCount: nat, reviewPersisted: bool, reviewSaving: bool,
                            serverCompleted: bool, serverNextIndex: Option<real>)
    ensures var decision := DecideLessonAdvance(currentIndex, itemCount, reviewPersisted, reviewSaving, serverCompleted, serverNextIndex);
            && (decision.Next? <==> !reviewSaving && reviewPersisted && currentIndex + 1 < itemCount
                                    && serverNextIndex == Some((currentIndex + 1) as real))
            && (decision.Next? ==> decision.nextIndex == currentIndex + 1)
            && (decision.Results? <==> !reviewSaving && reviewPersisted && serverCompleted && currentIndex + 1 >= itemCount)
            && (decision == Blocked(Saving) <==> reviewSaving)
            && (decision == Blocked(ReviewRequired) <==> !reviewSaving && !reviewPersisted)
            && (decision == Blocked(CompletionNotConfirmed) <==>
                  !reviewSaving && reviewPersisted && !serverCompleted && currentIndex + 1 >= itemCount)
            && (decision == Blocked(ServerPositionMissing) <==>
                  !reviewSaving && reviewPersisted && currentIndex + 1 < itemCount && serverNextIndex.None?)
            && (decision == Blocked(ServerPositionInvalid) <==>
                  !reviewSaving && reviewPersisted && currentIndex + 1 < itemCount
                  && serverNextIndex.Some? && serverNextIndex.value != (currentIndex + 1) as real)
  {
    assert IsInteger((currentIndex + 1) as real);
  }
}
