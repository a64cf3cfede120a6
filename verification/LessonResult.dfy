/** The result of a finished lesson: its evidence, the snapshot kept in browser storage, the reader that
    checks it, and the daily-goal celebration that is claimed once.
 */
module LessonResult {
  import opened Basics
  import Whitespace

  // ---------- numbers ----------

  /** A number at run time. Storage keeps finite ones only: the others are written as null. */
  datatype Number = Finite(value: real) | Infinite | MinusInfinite | NotANumber

  function AtLeastZero(x: Number): Number {
    match x
    case Finite(v) => if v > 0.0 then x else Finite(0.0)
    case MinusInfinite => Finite(0.0)
    case _ => x
  }

  /** Nullable counters: anything but a finite number becomes null. */
  function NormalizeCounter(x: Option<Number>): Option<real> {
    if x.Some? && x.value.Finite? then Some(AtLeastZero(x.value).value) else None
  }

  predicate IsPositive(x: Number) { x.Infinite? || (x.Finite? && x.value > 0.0) }

  predicate Below(v: real, x: Number) { x.Infinite? || (x.Finite? && v < x.value) }

  predicate Reaches(v: real, x: Number) { x.MinusInfinite? || (x.Finite? && v >= x.value) }

  function Json(x: Number): Option<real> { if x.Finite? then Some(x.value) else None }

  // ---------- evidence ----------

  datatype AnswerMode = Study | Recall | Choice

  datatype Judgement = Judgement(mode: AnswerMode, correct: Option<bool>)

  datatype ObjectiveEvidence = ObjectiveEvidence(attempted: int, correct: int, unavailable: int)

  datatype Evidence = Evidence(recall: ObjectiveEvidence, recognition: ObjectiveEvidence, reviewed: int, total: int)

  function InMode(values: seq<Judgement>, mode: AnswerMode): seq<Judgement> {
    if values == [] then []
    else
      var before, last := InMode(values[..|values| - 1], mode), values[|values| - 1];
      if last.mode == mode then before + [last] else before
  }

  function Judged(values: seq<Judgement>): seq<Judgement> {
    if values == [] then []
    else
      var before, last := Judged(values[..|values| - 1]), values[|values| - 1];
      if last.correct.Some? then before + [last] else before
  }

  function Right(values: seq<Judgement>): seq<Judgement> {
    if values == [] then []
    else
      var before, last := Right(values[..|values| - 1]), values[|values| - 1];
      if last.correct == Some(true) then before + [last] else before
  }

  function EvidenceFor(values: seq<Judgement>, mode: AnswerMode): ObjectiveEvidence {
    var relevant := InMode(values, mode);
    ObjectiveEvidence(|Judged(relevant)|, |Right(Judged(relevant))|, |relevant| - |Judged(relevant)|)
  }

  function BuildEvidence(values: seq<Judgement>, itemCount: nat): Evidence {
    Evidence(EvidenceFor(values, Recall), EvidenceFor(values, Choice), |values|, itemCount)
  }

  lemma {:induction false} JudgedIsShorter(values: seq<Judgement>)
    ensures |Right(Judged(values))| <= |Judged(values)| <= |values|
  {
    if values != [] {
      var before, last := values[..|values| - 1], values[|values| - 1];
      JudgedIsShorter(before);
      assert (Judged(before) + [last])[..|Judged(before)|] == Judged(before);
    }
  }

  lemma {:induction false} ModesPartition(values: seq<Judgement>)
    ensures |InMode(values, Study)| + |InMode(values, Recall)| + |InMode(values, Choice)| == |values|
  {
    if values != [] { ModesPartition(values[..|values| - 1]); }
  }

  /** In each mode what was attempted and what was unavailable make up the judgements, correct answers are
      attempted ones, and the modes together never exceed what was reviewed. */
  lemma {:induction false} EvidenceAddsUp(values: seq<Judgement>, itemCount: nat)
    ensures var e := BuildEvidence(values, itemCount);
            && e.recall.attempted + e.recall.unavailable == |InMode(values, Recall)|
            && e.recognition.attempted + e.recognition.unavailable == |InMode(values, Choice)|
            && 0 <= e.recall.correct <= e.recall.attempted && 0 <= e.recall.unavailable
            && 0 <= e.recognition.correct <= e.recognition.attempted && 0 <= e.recognition.unavailable
            && e.recall.attempted + e.recall.unavailable + e.recognition.attempted + e.recognition.unavailable
               == e.reviewed - |InMode(values, Study)|
  {
    JudgedIsShorter(InMode(values, Recall));
    JudgedIsShorter(InMode(values, Choice));
    ModesPartition(values);
  }

  // ---------- the snapshot ----------

  datatype SessionKind = StudyKind | ReviewKind | RemediationKind

  datatype Confidence = Confidence(known: int, almost: int, again: int)

  /** A snapshot; `N` is a number of the running program or one read from storage. */
  datatype Snapshot<+N> = Snapshot(
    userId: string, lessonId: string, source: string, studyMode: AnswerMode, sessionKind: Option<SessionKind>,
    lessonSize: string, topic: string, completedAt: string, itemIds: seq<N>, itemCount: int,
    evidence: Evidence, confidence: Confidence, skipped: N, dueNow: N, nextDueAt: Option<string>, dailyGoal: N,
    reviewsBefore: Option<real>, reviewsAfter: Option<real>,
    objectiveReviewsToday: Option<real>, objectiveSuccessfulToday: Option<real>, currentStreak: Option<real>,
    dailyGoalReached: bool, dailyGoalJustReached: bool, syncPending: bool)

  datatype Rating = Again | Almost | Known

  datatype Input = Input(
    userId: string, lessonId: string, source: string, studyMode: AnswerMode, sessionKind: Option<SessionKind>,
    lessonSize: string, topic: Option<string>, completedAt: string, itemIds: seq<Number>,
    judgements: seq<Judgement>, ratings: seq<Rating>, skipped: Number, dueNow: Number, nextDueAt: Option<string>,
    dailyGoal: Number, reviewsBefore: Option<Number>, reviewsAfter: Option<Number>,
    objectiveReviewsToday: Option<Number>, objectiveSuccessfulToday: Option<Number>, currentStreak: Option<Number>,
    syncPending: bool)

  /** The instant a text names, in milliseconds, if it names one. */
  type Parse = string -> Option<int>

  predicate IsItemId(x: Number) { x.Finite? && x.value == x.value.Floor as real && x.value > 0.0 }

  /** The positive whole ids, each once, in order of first occurrence. */
  function ItemIds(ids: seq<Number>): seq<Number> {
    if ids == [] then []
    else
      var before, last := ItemIds(ids[..|ids| - 1]), ids[|ids| - 1];
      if IsItemId(last) && last !in before then before + [last] else before
  }

  function CountOf(ratings: seq<Rating>, rating: Rating): nat {
    if ratings == [] then 0
    else CountOf(ratings[..|ratings| - 1], rating) + if ratings[|ratings| - 1] == rating then 1 else 0
  }

  function NormalizeNextDueAt(parse: Parse, value: Option<string>): Option<string> {
    if value.None? then None
    else
      var text := Whitespace.Trim(value.value);
      if text == "" || parse(text).None? then None else Some(text)
  }

  predicate GoalReached(after: Option<real>, goal: Number) { after.Some? && IsPositive(goal) && Reaches(after.value, goal) }

  predicate GoalJustReached(before: Option<real>, after: Option<real>, goal: Number) {
    GoalReached(after, goal) && before.Some? && Below(before.value, goal)
  }

  function BuildSnapshot(parse: Parse, input: Input): Snapshot<Number> {
    var before, after := NormalizeCounter(input.reviewsBefore), NormalizeCounter(input.reviewsAfter);
    var goal := AtLeastZero(input.dailyGoal);
    Snapshot(input.userId, input.lessonId, input.source, input.studyMode, input.sessionKind,
      input.lessonSize, if input.topic.Some? then Whitespace.Trim(input.topic.value) else "", input.completedAt,
      ItemIds(input.itemIds), |input.itemIds|, BuildEvidence(input.judgements, |input.itemIds|),
      Confidence(CountOf(input.ratings, Known), CountOf(input.ratings, Almost), CountOf(input.ratings, Again)),
      AtLeastZero(input.skipped), AtLeastZero(input.dueNow), NormalizeNextDueAt(parse, input.nextDueAt), goal,
      before, after, NormalizeCounter(input.objectiveReviewsToday), NormalizeCounter(input.objectiveSuccessfulToday),
      NormalizeCounter(input.currentStreak), GoalReached(after, goal), GoalJustReached(before, after, goal), input.syncPending)
  }

  // ---------- writing and reading ----------

  function Encoded(ids: seq<Number>): seq<Option<real>> {
    if ids == [] then [] else Encoded(ids[..|ids| - 1]) + [Json(ids[|ids| - 1])]
  }

  /** What storage keeps of a snapshot. */
  function Encode(s: Snapshot<Number>): Snapshot<Option<real>> {
    Snapshot(s.userId, s.lessonId, s.source, s.studyMode, s.sessionKind, s.lessonSize, s.topic, s.completedAt,
      Encoded(s.itemIds), s.itemCount, s.evidence, s.confidence, Json(s.skipped), Json(s.dueNow), s.nextDueAt,
      Json(s.dailyGoal), s.reviewsBefore, s.reviewsAfter, s.objectiveReviewsToday, s.objectiveSuccessfulToday,
      s.currentStreak, s.dailyGoalReached, s.dailyGoalJustReached, s.syncPending)
  }

  function Decoded(ids: seq<Option<real>>): seq<Number>
    requires forall k :: 0 <= k < |ids| ==> ids[k].Some?
  {
    if ids == [] then [] else Decoded(ids[..|ids| - 1]) + [Finite(ids[|ids| - 1].value)]
  }

  predicate NonNegative(x: Option<real>) { x.Some? && x.value >= 0.0 }

  predicate NullOrNonNegative(x: Option<real>) { x.None? || x.value >= 0.0 }

  predicate IsStoredItemId(x: Option<real>) { x.Some? && IsItemId(Finite(x.value)) }

  predicate EvidenceAccepted(e: Evidence) {
    && e.recall.attempted >= 0 && e.recall.correct >= 0 && e.recall.unavailable >= 0 && e.recall.correct <= e.recall.attempted
    && e.recognition.attempted >= 0 && e.recognition.correct >= 0 && e.recognition.unavailable >= 0
    && e.recognition.correct <= e.recognition.attempted
    && 0 <= e.reviewed <= e.total
  }

  predicate CountersAccepted(doc: Snapshot<Option<real>>) {
    && NullOrNonNegative(doc.reviewsBefore) && NullOrNonNegative(doc.reviewsAfter)
    && NullOrNonNegative(doc.objectiveReviewsToday) && NullOrNonNegative(doc.objectiveSuccessfulToday)
    && NullOrNonNegative(doc.currentStreak)
    && (doc.objectiveReviewsToday.Some? && doc.objectiveSuccessfulToday.Some? ==>
          doc.objectiveSuccessfulToday.value <= doc.objectiveReviewsToday.value)
  }

  predicate TimestampAccepted(parse: Parse, value: Option<string>) {
    value.None? || (Whitespace.Trim(value.value) != "" && parse(value.value).Some?)
  }

  predicate InAgeWindow(parse: Parse, completedAt: string, now: int) {
    parse(completedAt).Some? && now - parse(completedAt).value <= 86400000 && parse(completedAt).value - now <= 60000
  }

  predicate Accepted(parse: Parse, doc: Snapshot<Option<real>>, userId: string, now: int) {
    && doc.userId == userId
    && (forall k :: 0 <= k < |doc.itemIds| ==> IsStoredItemId(doc.itemIds[k]))
    && doc.itemCount >= 0 && EvidenceAccepted(doc.evidence)
    && doc.confidence.known >= 0 && doc.confidence.almost >= 0 && doc.confidence.again >= 0
    && NonNegative(doc.skipped) && NonNegative(doc.dueNow) && NonNegative(doc.dailyGoal)
    && TimestampAccepted(parse, doc.nextDueAt) && CountersAccepted(doc)
    && InAgeWindow(parse, doc.completedAt, now)
  }

  function Decode(doc: Snapshot<Option<real>>): Snapshot<Number>
    requires (forall k :: 0 <= k < |doc.itemIds| ==> doc.itemIds[k].Some?) && doc.skipped.Some? && doc.dueNow.Some? && doc.dailyGoal.Some?
  {
    Snapshot(doc.userId, doc.lessonId, doc.source, doc.studyMode, doc.sessionKind, doc.lessonSize, doc.topic, doc.completedAt,
      Decoded(doc.itemIds), doc.itemCount, doc.evidence, doc.confidence, Finite(doc.skipped.value), Finite(doc.dueNow.value),
      doc.nextDueAt, Finite(doc.dailyGoal.value), doc.reviewsBefore, doc.reviewsAfter, doc.objectiveReviewsToday,
      doc.objectiveSuccessfulToday, doc.currentStreak, doc.dailyGoalReached, doc.dailyGoalJustReached, doc.syncPending)
  }

  // ---------- what the reader accepts of what the builder makes ----------

  lemma {:induction false} ItemIdsAreASet(ids: seq<Number>)
    ensures forall id :: id in ItemIds(ids) <==> id in ids && id.Finite? && id.value == id.value.Floor as real && id.value > 0.0
    ensures forall i, j :: 0 <= i < j < |ItemIds(ids)| ==> ItemIds(ids)[i] != ItemIds(ids)[j]
  {
    if ids != [] {
      var before, last := ids[..|ids| - 1], ids[|ids| - 1];
      ItemIdsAreASet(before);
      assert ids == before + [last];
    }
  }

  ghost predicate AllStored(ids: seq<Option<real>>) { forall k :: 0 <= k < |ids| ==> IsStoredItemId(ids[k]) }

  lemma {:induction false} EncodedIdsAccepted(ids: seq<Number>)
    requires forall k :: 0 <= k < |ids| ==> IsItemId(ids[k])
    ensures AllStored(Encoded(ids))
  {
    if ids != [] {
      EncodedIdsAccepted(ids[..|ids| - 1]);
      assert IsStoredItemId(Json(ids[|ids| - 1]));
    }
  }

  lemma {:induction false} ItemIdsRoundTrip(ids: seq<Number>)
    requires AllStored(Encoded(ids)) && forall k :: 0 <= k < |ids| ==> IsItemId(ids[k])
    ensures Decoded(Encoded(ids)) == ids
  {
    if ids != [] {
      var before, last := ids[..|ids| - 1], ids[|ids| - 1];
      EncodedIdsAccepted(before);
      ItemIdsRoundTrip(before);
      assert (Encoded(before) + [Json(last)])[..|Encoded(before)|] == Encoded(before);
      assert ids == before + [last] && last == Finite(last.value);
    }
  }

  predicate BoundedAbove(x: Number) { x.Finite? || x.MinusInfinite? }

  predicate SuccessesWithinReviews(input: Input) {
    var reviews, successes := input.objectiveReviewsToday, input.objectiveSuccessfulToday;
    reviews.Some? && reviews.value.Finite? && successes.Some? && successes.value.Finite? ==>
      successes.value.value <= reviews.value.value || successes.value.value <= 0.0
  }

  /** What a lesson must satisfy for its snapshot to be readable at `now`. */
  predicate Readable(parse: Parse, input: Input, now: int) {
    && |input.judgements| <= |input.itemIds|
    && BoundedAbove(input.skipped) && BoundedAbove(input.dueNow) && BoundedAbove(input.dailyGoal)
    && SuccessesWithinReviews(input)
    && InAgeWindow(parse, input.completedAt, now)
  }

  lemma BuiltIdsRoundTrip(ids: seq<Number>)
    ensures AllStored(Encoded(ItemIds(ids))) && Decoded(Encoded(ItemIds(ids))) == ItemIds(ids)
  {
    ItemIdsAreASet(ids);
    forall k | 0 <= k < |ItemIds(ids)| ensures IsItemId(ItemIds(ids)[k]) { assert ItemIds(ids)[k] in ItemIds(ids); }
    EncodedIdsAccepted(ItemIds(ids));
    ItemIdsRoundTrip(ItemIds(ids));
  }

  lemma BuiltEvidenceAccepted(judgements: seq<Judgement>, itemCount: nat)
    ensures EvidenceAccepted(BuildEvidence(judgements, itemCount)) <==> |judgements| <= itemCount
  {
    EvidenceAddsUp(judgements, itemCount);
  }

  lemma NextDueAtAccepted(parse: Parse, value: Option<string>)
    ensures TimestampAccepted(parse, NormalizeNextDueAt(parse, value))
  {
    if value.Some? { Whitespace.TrimIsIdempotent(value.value); }
  }

  lemma CountersAcceptedIff(parse: Parse, input: Input)
    ensures CountersAccepted(Encode(BuildSnapshot(parse, input))) <==> SuccessesWithinReviews(input)
  {
  }

  lemma CountAcceptedIff(x: Number)
    ensures NonNegative(Json(AtLeastZero(x))) <==> BoundedAbove(x)
    ensures BoundedAbove(x) ==> Finite(Json(AtLeastZero(x)).value) == AtLeastZero(x)
  {
  }

  lemma AcceptedIff(parse: Parse, input: Input, now: int)
    ensures Accepted(parse, Encode(BuildSnapshot(parse, input)), input.userId, now) <==> Readable(parse, input, now)
  {
    BuiltIdsRoundTrip(input.itemIds);
    BuiltEvidenceAccepted(input.judgements, |input.itemIds|);
    NextDueAtAccepted(parse, input.nextDueAt);
    CountersAcceptedIff(parse, input);
    CountAcceptedIff(input.skipped);
    CountAcceptedIff(input.dueNow);
    CountAcceptedIff(input.dailyGoal);
  }

  /** The reader accepts a built snapshot exactly when its judgements do not outnumber its items, its three
      counts are bounded, no more successes than reviews are reported and it is neither older than a day
      nor more than a minute ahead; what it returns then is the snapshot that was built. */
  lemma ReaderAcceptsIff(parse: Parse, input: Input, now: int)
    ensures var doc := Encode(BuildSnapshot(parse, input));
            && (Accepted(parse, doc, input.userId, now) <==> Readable(parse, input, now))
            && (Accepted(parse, doc, input.userId, now) ==> Decode(doc) == BuildSnapshot(parse, input))
  {
    AcceptedIff(parse, input, now);
    BuiltIdsRoundTrip(input.itemIds);
    CountAcceptedIff(input.skipped);
    CountAcceptedIff(input.dueNow);
    CountAcceptedIff(input.dailyGoal);
  }

  // ---------- another lesson ----------

  function Insert(x: real, sorted: seq<real>): seq<real> {
    if sorted == [] then [x]
    else
      var last := sorted[|sorted| - 1];
      if last <= x then sorted + [x] else Insert(x, sorted[..|sorted| - 1]) + [last]
  }

  function Sort(s: seq<real>): seq<real> { if s == [] then [] else Insert(s[|s| - 1], Sort(s[..|s| - 1])) }

  /** Another lesson is a named one with another id and other items, in whatever order. */
  predicate IsDistinctCandidate(lessonId: string, itemIds: seq<real>, candidateId: string, candidateIds: seq<real>) {
    if candidateId == "" || candidateId == lessonId then false
    else
      var previous, next := Sort(itemIds), Sort(candidateIds);
      |previous| != |next| || exists k :: 0 <= k < |previous| && previous[k] != next[k]
  }

  predicate IsSorted(s: seq<real>) { forall i, j :: 0 <= i < j < |s| ==> s[i] <= s[j] }

  lemma {:induction false} InsertKeeps(x: real, s: seq<real>)
    ensures multiset(Insert(x, s)) == multiset(s) + multiset{x}
  {
    if s != [] {
      var before, last := s[..|s| - 1], s[|s| - 1];
      assert s == before + [last];
      if last > x { InsertKeeps(x, before); }
    }
  }

  predicate AtMost(s: seq<real>, bound: real) { forall i :: 0 <= i < |s| ==> s[i] <= bound }

  lemma {:induction false} InsertBounded(x: real, s: seq<real>, bound: real)
    requires AtMost(s, bound) && x <= bound
    ensures AtMost(Insert(x, s), bound)
  {
    if s != [] && s[|s| - 1] > x { InsertBounded(x, s[..|s| - 1], bound); }
  }

  lemma {:induction false} InsertSorts(x: real, s: seq<real>)
    requires IsSorted(s)
    ensures IsSorted(Insert(x, s))
  {
    if s != [] && s[|s| - 1] > x {
      InsertSorts(x, s[..|s| - 1]);
      InsertBounded(x, s[..|s| - 1], s[|s| - 1]);
    }
  }

  lemma {:induction false} SortSorts(s: seq<real>)
    ensures IsSorted(Sort(s)) && multiset(Sort(s)) == multiset(s)
  {
    if s != [] {
      assert s == s[..|s| - 1] + [s[|s| - 1]];
      SortSorts(s[..|s| - 1]);
      InsertSorts(s[|s| - 1], Sort(s[..|s| - 1]));
      InsertKeeps(s[|s| - 1], Sort(s[..|s| - 1]));
    }
  }

  /** The last element of a sorted list is its greatest, and the rest is sorted. */
  lemma LastIsGreatest(s: seq<real>, x: real)
    requires s != [] && IsSorted(s) && x in multiset(s)
    ensures x <= s[|s| - 1] && IsSorted(s[..|s| - 1])
    ensures multiset(s[..|s| - 1]) == multiset(s) - multiset{s[|s| - 1]}
  {
    var k :| 0 <= k < |s| && s[k] == x;
    assert s == s[..|s| - 1] + [s[|s| - 1]];
  }

  lemma LastIsSame(a: seq<real>, b: seq<real>)
    requires a != [] && IsSorted(a) && IsSorted(b) && multiset(a) == multiset(b)
    ensures b != [] && a[|a| - 1] == b[|b| - 1]
    ensures IsSorted(a[..|a| - 1]) && IsSorted(b[..|b| - 1]) && multiset(a[..|a| - 1]) == multiset(b[..|b| - 1])
  {
    assert a[|a| - 1] in multiset(a);
    assert b != [] && b[|b| - 1] in multiset(b);
    LastIsGreatest(a, b[|b| - 1]);
    LastIsGreatest(b, a[|a| - 1]);
  }

  lemma {:induction false} SortedUnique(a: seq<real>, b: seq<real>)
    requires IsSorted(a) && IsSorted(b) && multiset(a) == multiset(b)
    ensures a == b
  {
    if a == [] {
      assert |b| == |multiset(b)|;
    } else {
      LastIsSame(a, b);
      SortedUnique(a[..|a| - 1], b[..|b| - 1]);
      assert a == a[..|a| - 1] + [a[|a| - 1]] && b == b[..|b| - 1] + [b[|b| - 1]];
    }
  }

  /** The comparison of sorted copies decides whether the items differ as a collection. */
  lemma DistinctIffOtherItems(lessonId: string, itemIds: seq<real>, candidateId: string, candidateIds: seq<real>)
    ensures IsDistinctCandidate(lessonId, itemIds, candidateId, candidateIds)
            <==> candidateId != "" && candidateId != lessonId && multiset(itemIds) != multiset(candidateIds)
  {
    SortSorts(itemIds);
    SortSorts(candidateIds);
    if multiset(itemIds) == multiset(candidateIds) { SortedUnique(Sort(itemIds), Sort(candidateIds)); }
    if |Sort(itemIds)| == |Sort(candidateIds)| && Sort(itemIds) != Sort(candidateIds) {
      assert exists k :: 0 <= k < |Sort(itemIds)| && Sort(itemIds)[k] != Sort(candidateIds)[k];
    }
  }

  // ---------- the daily goal over a day ----------

  /** With counts that never go back between lessons, at most one lesson of a day reaches a goal anew. */
  lemma GoalReachedOnce(before: seq<Option<real>>, after: seq<Option<real>>, goal: Number, i: nat, j: nat)
    requires |before| == |after| && i < j < |after|
    requires forall k :: 0 <= k < |after| && before[k].Some? && after[k].Some? ==> before[k].value <= after[k].value
    requires forall k, l :: 0 <= k < l < |after| && after[k].Some? && before[l].Some? ==> after[k].value <= before[l].value
    ensures !(GoalJustReached(before[i], after[i], goal) && GoalJustReached(before[j], after[j], goal))
  {
  }

  // ---------- storage ----------

  datatype Value = Text(text: string) | Broken | Document(snapshot: Snapshot<Option<real>>)

  type Storage = map<string, Value>

  function SnapshotKey(userId: string): string { "lexigo.lesson-result." + ("v2." + userId) }

  function Day(completedAt: string): string { if |completedAt| < 10 then completedAt else completedAt[..10] }

  function CelebrationKey(userId: string, completedAt: string): string {
    "lexigo.lesson-result." + ("daily-goal.v2." + userId + "." + Day(completedAt))
  }

  function Write(storage: Storage, snapshot: Snapshot<Number>): Storage {
    storage[SnapshotKey(snapshot.userId) := Document(Encode(snapshot))]
  }

  /** A missing or empty entry is no result; one that is not accepted is removed. */
  function Read(parse: Parse, storage: Storage, userId: string, now: int): (Storage, Option<Snapshot<Number>>) {
    var key := SnapshotKey(userId);
    if key !in storage || storage[key] == Text("") then (storage, None)
    else if storage[key].Document? && Accepted(parse, storage[key].snapshot, userId, now) then
      (storage, Some(Decode(storage[key].snapshot)))
    else (storage - {key}, None)
  }

  function Clear(storage: Storage, userId: string): Storage { storage - {SnapshotKey(userId)} }

  predicate Taken(storage: Storage, key: string) { key in storage && storage[key] != Text("") }

  function Claim(storage: Storage, snapshot: Snapshot<Number>): (Storage, bool) {
    var key := CelebrationKey(snapshot.userId, snapshot.completedAt);
    if !snapshot.dailyGoalJustReached || Taken(storage, key) then (storage, false)
    else (storage[key := Text(snapshot.lessonId)], true)
  }

  /** Reading back what was just written: the same snapshot and untouched storage, or nothing and a removed entry. */
  lemma WriteThenRead(parse: Parse, storage: Storage, input: Input, now: int)
    ensures var written := Write(storage, BuildSnapshot(parse, input));
            Read(parse, written, input.userId, now)
            == if Readable(parse, input, now) then (written, Some(BuildSnapshot(parse, input)))
               else (Clear(storage, input.userId), None)
  {
    var key := SnapshotKey(input.userId);
    var written := Write(storage, BuildSnapshot(parse, input));
    ReaderAcceptsIff(parse, input, now);
    assert written - {key} == storage - {key};
  }

  lemma KeysDiffer(user: string, other: string, completedAt: string)
    ensures SnapshotKey(user) != CelebrationKey(other, completedAt)
    ensures SnapshotKey(user) == SnapshotKey(other) <==> user == other
  {
    var prefix, a, b, c := "lexigo.lesson-result.", "v2." + user, "v2." + other, "daily-goal.v2." + other + "." + Day(completedAt);
    assert (prefix + a)[|prefix|] == 'v' && (prefix + c)[|prefix|] == 'd';
    assert (prefix + a)[|prefix|..][3..] == user && (prefix + b)[|prefix|..][3..] == other;
  }

  /** Full dates keep the celebrations of different users and days apart. */
  lemma CelebrationKeysDiffer(user: string, completedAt: string, other: string, otherCompletedAt: string)
    requires |completedAt| >= 10 && |otherCompletedAt| >= 10
    ensures CelebrationKey(user, completedAt) == CelebrationKey(other, otherCompletedAt)
            <==> user == other && completedAt[..10] == otherCompletedAt[..10]
  {
    var prefix := "lexigo.lesson-result.";
    var a, b := "daily-goal.v2." + user + "." + Day(completedAt), "daily-goal.v2." + other + "." + Day(otherCompletedAt);
    assert (prefix + a)[|prefix|..] == a && (prefix + b)[|prefix|..] == b;
    assert a[14..|a| - 11] == user && a[|a| - 10..] == Day(completedAt);
    assert b[14..|b| - 11] == other && b[|b| - 10..] == Day(otherCompletedAt);
  }

  // any sequence of calls

  datatype Call = WriteCall(snapshot: Snapshot<Number>) | ReadCall(userId: string, now: int) | ClearCall(userId: string)
                | ClaimCall(snapshot: Snapshot<Number>)

  function Next(parse: Parse, storage: Storage, call: Call): Storage {
    match call
    case WriteCall(s) => Write(storage, s)
    case ReadCall(u, now) => Read(parse, storage, u, now).0
    case ClearCall(u) => Clear(storage, u)
    case ClaimCall(s) => Claim(storage, s).0
  }

  function Run(parse: Parse, storage: Storage, calls: seq<Call>): Storage {
    if calls == [] then storage else Next(parse, Run(parse, storage, calls[..|calls| - 1]), calls[|calls| - 1])
  }

  lemma {:induction false} TakenStaysTaken(parse: Parse, storage: Storage, calls: seq<Call>, user: string, completedAt: string)
    requires Taken(storage, CelebrationKey(user, completedAt))
    ensures Taken(Run(parse, storage, calls), CelebrationKey(user, completedAt))
  {
    if calls != [] {
      TakenStaysTaken(parse, storage, calls[..|calls| - 1], user, completedAt);
      match calls[|calls| - 1] {
        case WriteCall(s) => KeysDiffer(s.userId, user, completedAt);
        case ReadCall(u, now) => KeysDiffer(u, user, completedAt);
        case ClearCall(u) => KeysDiffer(u, user, completedAt);
        case ClaimCall(s) =>
      }
    }
  }

  /** Once a celebration was claimed for a lesson with an id, no call sequence makes it claimable again. */
  lemma ClaimedOnce(parse: Parse, storage: Storage, first: Snapshot<Number>, calls: seq<Call>, second: Snapshot<Number>)
    requires Claim(storage, first).1 && first.lessonId != ""
    requires second.userId == first.userId && Day(second.completedAt) == Day(first.completedAt)
    ensures !Claim(Run(parse, Claim(storage, first).0, calls), second).1
  {
    TakenStaysTaken(parse, Claim(storage, first).0, calls, first.userId, first.completedAt);
  }

  /** A claim right after a successful one of the same user and day succeeds again exactly when the first
      lesson had no id. */
  lemma ClaimedAgainIff(storage: Storage, first: Snapshot<Number>, second: Snapshot<Number>)
    requires Claim(storage, first).1 && second.dailyGoalJustReached
    requires second.userId == first.userId && Day(second.completedAt) == Day(first.completedAt)
    ensures Claim(Claim(storage, first).0, second).1 <==> first.lessonId == ""
  {
    assert CelebrationKey(second.userId, second.completedAt) == CelebrationKey(first.userId, first.completedAt);
  }

  // ---------- the storage object ----------

  predicate SameElsewhere(before: Storage, after: Storage, key: string) { before - {key} == after - {key} }

  /** A stored result that can be shown: the user's own, at most a day old and at most a minute ahead, about items
      with positive whole ids, with counts that are not negative, no more correct answers than attempted ones,
      no more reviews than items and no more successes than reviews. */
  ghost predicate Showable(parse: Parse, doc: Snapshot<Option<real>>, userId: string, now: int) {
    && doc.userId == userId
    && parse(doc.completedAt).Some? && now - 86_400_000 <= parse(doc.completedAt).value <= now + 60_000
    && (forall k :: 0 <= k < |doc.itemIds| ==>
          doc.itemIds[k].Some? && doc.itemIds[k].value > 0.0 && doc.itemIds[k].value.Floor as real == doc.itemIds[k].value)
    && 0 <= doc.itemCount && 0 <= doc.evidence.reviewed <= doc.evidence.total
    && 0 <= doc.evidence.recall.correct <= doc.evidence.recall.attempted && 0 <= doc.evidence.recall.unavailable
    && 0 <= doc.evidence.recognition.correct <= doc.evidence.recognition.attempted && 0 <= doc.evidence.recognition.unavailable
    && 0 <= doc.confidence.known && 0 <= doc.confidence.almost && 0 <= doc.confidence.again
    && doc.skipped.Some? && 0.0 <= doc.skipped.value && doc.dueNow.Some? && 0.0 <= doc.dueNow.value
    && doc.dailyGoal.Some? && 0.0 <= doc.dailyGoal.value
    && (doc.nextDueAt.Some? ==> Whitespace.Trim(doc.nextDueAt.value) != "" && parse(doc.nextDueAt.value).Some?)
    && (doc.reviewsBefore.Some? ==> 0.0 <= doc.reviewsBefore.value) && (doc.reviewsAfter.Some? ==> 0.0 <= doc.reviewsAfter.value)
    && (doc.objectiveReviewsToday.Some? ==> 0.0 <= doc.objectiveReviewsToday.value)
    && (doc.objectiveSuccessfulToday.Some? ==> 0.0 <= doc.objectiveSuccessfulToday.value)
    && (doc.objectiveReviewsToday.Some? && doc.objectiveSuccessfulToday.Some? ==>
          doc.objectiveSuccessfulToday.value <= doc.objectiveReviewsToday.value)
    && (doc.currentStreak.Some? ==> 0.0 <= doc.currentStreak.value)
  }

  lemma StoredIds(ids: seq<Option<real>>)
    ensures (forall k :: 0 <= k < |ids| ==> IsStoredItemId(ids[k]))
            <==> forall k :: 0 <= k < |ids| ==> ids[k].Some? && ids[k].value > 0.0 && ids[k].value.Floor as real == ids[k].value
  {
  }

  lemma AcceptedIffShowable(parse: Parse, doc: Snapshot<Option<real>>, userId: string, now: int)
    ensures Accepted(parse, doc, userId, now) <==> Showable(parse, doc, userId, now)
  {
    StoredIds(doc.itemIds);
  }

  /** Browser storage as the lesson result uses it. */
  class ResultStorage {
    var items: map<string, Value>

    constructor ()
      ensures items == map[]
    {
      items := map[];
    }

    method WriteLessonResultSnapshot(snapshot: Snapshot<Number>)
      modifies this
      ensures items == Write(old(items), snapshot)
      ensures SameElsewhere(old(items), items, SnapshotKey(snapshot.userId))
    {
      items := items[SnapshotKey(snapshot.userId) := Document(Encode(snapshot))];
    }

    /** Exactly a stored result that can be shown is handed out, and stays stored; with none handed out, none is
        left. Nothing else is touched. */
    method ReadLessonResultSnapshot(parse: Parse, userId: string, now: int) returns (result: Option<Snapshot<Number>>)
      modifies this
      ensures (items, result) == Read(parse, old(items), userId, now)
      ensures var key := "lexigo.lesson-result." + ("v2." + userId);
              result.Some? <==> key in old(items) && old(items)[key].Document? && Showable(parse, old(items)[key].snapshot, userId, now)
      ensures result.Some? ==> items == old(items) && result.value.userId == userId
                               && InAgeWindow(parse, result.value.completedAt, now) && EvidenceAccepted(result.value.evidence)
      ensures result.None? ==> !Taken(items, SnapshotKey(userId))
      ensures SameElsewhere(old(items), items, SnapshotKey(userId))
    {
      var key := SnapshotKey(userId);
      if key !in items || items[key] == Text("") { return None; }
      if items[key].Document? { AcceptedIffShowable(parse, items[key].snapshot, userId, now); }
      if items[key].Document? && Accepted(parse, items[key].snapshot, userId, now) {
        return Some(Decode(items[key].snapshot));
      }
      items := items - {key};
      return None;
    }

    method ClearLessonResultSnapshot(userId: string)
      modifies this
      ensures items == Clear(old(items), userId)
      ensures !Taken(items, SnapshotKey(userId)) && SameElsewhere(old(items), items, SnapshotKey(userId))
    {
      items := items - {SnapshotKey(userId)};
    }

    /** A claim succeeds exactly when the goal was just reached and is not taken for the user and day; it
        is taken from then on if the lesson has an id. Nothing else is touched. */
    method ClaimDailyGoalCelebration(snapshot: Snapshot<Number>) returns (claimed: bool)
      modifies this
      ensures (items, claimed) == Claim(old(items), snapshot)
      ensures var key := CelebrationKey(snapshot.userId, snapshot.completedAt);
              && (claimed <==> snapshot.dailyGoalJustReached && !Taken(old(items), key))
              && (claimed ==> (Taken(items, key) <==> snapshot.lessonId != ""))
              && (!claimed ==> items == old(items))
              && SameElsewhere(old(items), items, key)
    {
      if !snapshot.dailyGoalJustReached { return false; }
      var key := CelebrationKey(snapshot.userId, snapshot.completedAt);
      if key in items && items[key] != Text("") { return false; }
      items := items[key := Text(snapshot.lessonId)];
      return true;
    }
  }
}
