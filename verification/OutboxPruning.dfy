/** Pruning of synced outbox records: exactly when it does harm, and what holds while it does none.

    `v` is the final status in question, synced or failed; harm is a review stored with that status
    although no response of its kind was ever received for its key.
 */
module OutboxPruning {
  import opened Basics
  import opened OutboxMachine
  import opened OutboxReach

  /** The kind of response a final status stands for. */
  function KindOf(v: Status): Disposition { if v == Synced then Accepted else Rejected }

  // ---------- who can still mark a review ----------

  /** A synced mark needs a request the server can accept. */
  predicate SenderMarks(durable: Durable, s: State, sender: Sender, v: Status) {
    || ((WillSend(durable, sender) || sender.Waiting?) && (v == Synced ==> Acceptable(s, sender.op, sender.record.body)))
    || (sender.Answered? && StatusFor(sender.answer) == Some(v))
  }

  ghost predicate DrainMarks(s: State, drain: Drain, op: Operation, v: Status) {
    match drain
    case Listing(_) => false
    case Finishing(_) => false
    case Marking(_, rest, mark) =>
      rest != [] && ((mark == MarkSynced && Reaches(s, rest[1..], op, v == Synced)) || (rest[0].op == op && MarkStatus(mark) == v))
    case _ => Reaches(s, drain.rest, op, v == Synced)
  }

  /** Someone holds a record of the operation and can still note that status for it. */
  ghost predicate CanMark(durable: Durable, s: State, op: Operation, v: Status) {
    || (exists tid :: tid in s.senders && s.senders[tid].op == op && SenderMarks(durable, s, s.senders[tid], v))
    || (exists d :: 0 <= d < |s.drains| && DrainMarks(s, s.drains[d], op, v))
  }

  // ---------- the invariant of one operation ----------

  /** The record at hand is still the stored one, but for its status. */
  predicate Current(store: map<Operation, Record>, op: Operation, record: Record) {
    op in store && store[op].key == record.key && store[op].body == record.body
  }

  ghost predicate EntriesCurrent(s: State, entries: seq<Entry>, op: Operation, accepted: bool) {
    forall k :: ComesTo(s, entries, k, op, accepted) ==> Current(s.store, op, entries[k].record)
  }

  ghost predicate DrainCurrent(s: State, drain: Drain, op: Operation, v: Status) {
    match drain
    case Listing(_) => true
    case Finishing(_) => true
    case Marking(_, rest, mark) =>
      rest != [] ==>
        && (mark == MarkSynced ==> EntriesCurrent(s, rest[1..], op, v == Synced))
        && (rest[0].op == op && MarkStatus(mark) == v ==> Current(s.store, op, rest[0].record))
    case _ => EntriesCurrent(s, drain.rest, op, v == Synced)
  }

  /** A final status without a response of its kind for the stored key. */
  ghost predicate Unfounded(s: State, op: Operation, v: Status) {
    op in s.store && s.store[op].status == v && !ReceivedFor(s, op, s.store[op].key, KindOf(v))
  }

  /** Whoever can mark the review works with the stored record, and a mark has its response. */
  ghost predicate TrueTo(durable: Durable, s: State, op: Operation, v: Status) {
    && (forall tid :: tid in s.senders && s.senders[tid].op == op && SenderMarks(durable, s, s.senders[tid], v) ==>
          Current(s.store, op, s.senders[tid].record))
    && (forall d :: 0 <= d < |s.drains| ==> DrainCurrent(s, s.drains[d], op, v))
    && !Unfounded(s, op, v)
  }

  // ---------- every step but its own prune keeps it ----------

  /** A step that leaves the stored review alone and gives nobody another record of it. */
  lemma TrueShrinks(durable: Durable, s: State, t: State, op: Operation, v: Status)
    requires TrueTo(durable, s, op, v) && Grows(s, t)
    requires op in t.store <==> op in s.store
    requires op in s.store ==> t.store[op].key == s.store[op].key && t.store[op].body == s.store[op].body
                               && (t.store[op].status == v ==> s.store[op].status == v)
    requires forall tid :: tid in t.senders && t.senders[tid].op == op && SenderMarks(durable, t, t.senders[tid], v) ==>
               tid in s.senders && s.senders[tid].op == op && SenderMarks(durable, s, s.senders[tid], v)
               && s.senders[tid].record == t.senders[tid].record
    requires forall d :: 0 <= d < |t.drains| ==> DrainCurrent(s, t.drains[d], op, v)
    ensures TrueTo(durable, t, op, v)
  {
    forall d | 0 <= d < |t.drains| ensures DrainCurrent(t, t.drains[d], op, v) { CurrentStays(s, t, t.drains[d], op, v); }
    if op in t.store && t.store[op].status == v {
      assert ReceivedFor(s, op, s.store[op].key, KindOf(v));
      ReceivedForGrows(s, t, Entry(op, s.store[op]), KindOf(v));
    }
  }

  lemma EntriesStayCurrent(s: State, t: State, entries: seq<Entry>, op: Operation, accepted: bool)
    requires EntriesCurrent(s, entries, op, accepted) && Records(s, t)
    requires op in s.store ==> op in t.store && t.store[op].key == s.store[op].key && t.store[op].body == s.store[op].body
    ensures EntriesCurrent(t, entries, op, accepted)
  {
    forall k | ComesTo(t, entries, k, op, accepted) ensures Current(t.store, op, entries[k].record) {
      CameBefore(s, t, entries, k, op, accepted);
      assert ComesTo(s, entries, k, op, accepted);
    }
  }

  lemma CurrentStays(s: State, t: State, drain: Drain, op: Operation, v: Status)
    requires DrainCurrent(s, drain, op, v) && Records(s, t)
    requires op in s.store ==> op in t.store && t.store[op].key == s.store[op].key && t.store[op].body == s.store[op].body
    ensures DrainCurrent(t, drain, op, v)
  {
    match drain {
      case Listing(_) =>
      case Finishing(_) =>
      case Marking(_, rest, mark) => if rest != [] && mark == MarkSynced { EntriesStayCurrent(s, t, rest[1..], op, v == Synced); }
      case _ => EntriesStayCurrent(s, t, drain.rest, op, v == Synced);
    }
  }

  lemma CreatedStaysTrue(durable: Durable, s: State, tid: nat, other: Operation, raw: Body, record: Record, op: Operation, v: Status)
    requires TrueTo(durable, s, op, v) && other !in s.store && record.key !in s.issued && record.status == Pending && v != Pending
    ensures TrueTo(durable, Created(s, tid, other, raw, record), op, v)
  {
    var t := Created(s, tid, other, raw, record);
    assert Grows(s, t);
    if op == other {
      forall d | 0 <= d < |t.drains| ensures DrainCurrent(t, t.drains[d], op, v) { CurrentStays(s, t, s.drains[d], op, v); }
    } else {
      TrueShrinks(durable, s, t, op, v);
    }
  }

  lemma QueuedStaysTrue(durable: Durable, s: State, tid: nat, other: Operation, raw: Body, op: Operation, v: Status)
    requires TrueTo(durable, s, op, v) && other in s.store
    ensures TrueTo(durable, s.(senders := s.senders[tid := Queued(other, s.store[other], raw)]), op, v)
  {
    var t := s.(senders := s.senders[tid := Queued(other, s.store[other], raw)]);
    forall d | 0 <= d < |t.drains| ensures DrainCurrent(t, t.drains[d], op, v) { assert DrainCurrent(s, s.drains[d], op, v); }
    assert Unfounded(t, op, v) <==> Unfounded(s, op, v);
  }

  lemma EnqueuedStaysTrue(durable: Durable, s: State, tid: nat, key: Key, op: Operation, v: Status)
    requires TrueTo(durable, s, op, v) && tid in s.intercepted && key !in s.issued && v != Pending
    ensures TrueTo(durable, Enqueued(Released(s, tid), tid, s.intercepted[tid], key), op, v)
  {
    var i := s.intercepted[tid];
    TrueShrinks(durable, s, Released(s, tid), op, v);
    if i.op in s.store {
      QueuedStaysTrue(durable, Released(s, tid), tid, i.op, i.raw, op, v);
    } else {
      CreatedStaysTrue(durable, Released(s, tid), tid, i.op, i.raw, Record(key, i.body, Pending, 0), op, v);
    }
  }

  /** A status noted for the stored record, with its response if it is the one in question. */
  lemma StatusStaysTrue(durable: Durable, s: State, other: Operation, status: Status, attempts: nat, op: Operation, v: Status)
    requires TrueTo(durable, s, op, v)
    requires other == op && status == v && op in s.store ==> ReceivedFor(s, op, s.store[op].key, KindOf(v))
    ensures TrueTo(durable, s.(store := UpdateReview(s.store, other, status, attempts)), op, v)
  {
    var t := s.(store := UpdateReview(s.store, other, status, attempts));
    forall d | 0 <= d < |t.drains| ensures DrainCurrent(t, t.drains[d], op, v) { CurrentStays(s, t, s.drains[d], op, v); }
    if op in s.store {
      ReceivedSame(s, t, op, s.store[op].key, KindOf(v));
    }
  }

  lemma ReceivedSame(s: State, t: State, op: Operation, key: Key, kind: Disposition)
    requires t.receipts == s.receipts
    ensures ReceivedFor(s, op, key, kind) <==> ReceivedFor(t, op, key, kind)
  {
  }

  lemma AnswerReceived(durable: Durable, s: State, a: Sender, v: Status)
    requires SenderOk(durable, s, a) && a.Answered? && StatusFor(a.answer) == Some(v) && v != Pending
    ensures ReceivedFor(s, a.op, a.record.key, KindOf(v))
  {
    assert Receipt(a.op, a.record.key, a.answer.status) in s.receipts;
  }

  lemma ReviewStaysTrue(durable: Durable, s: State, a: Sender, op: Operation, v: Status)
    requires TrueTo(durable, s, op, v) && a.Answered? && v != Pending
    requires a.op == op && StatusFor(a.answer) == Some(v) && op in s.store ==> ReceivedFor(s, op, s.store[op].key, KindOf(v))
    ensures TrueTo(durable, s.(store := AfterReview(s, a)), op, v)
  {
    if StatusFor(a.answer).None? {
      assert s.(store := AfterReview(s, a)) == s;
    } else {
      StatusStaysTrue(durable, s, a.op, StatusFor(a.answer).value, a.record.attempts + 1, op, v);
      assert AfterReview(s, a) == UpdateReview(s.store, a.op, StatusFor(a.answer).value, a.record.attempts + 1);
    }
  }

  lemma LeftStaysTrue(durable: Durable, s: State, tid: nat, op: Operation, v: Status)
    requires TrueTo(durable, s, op, v)
    ensures TrueTo(durable, Left(s, tid), op, v)
  {
    TrueShrinks(durable, s, Left(s, tid), op, v);
  }

  lemma UpdatedStaysTrue(durable: Durable, s: State, tid: nat, op: Operation, v: Status)
    requires TrueTo(durable, s, op, v) && tid in s.senders && s.senders[tid].Answered? && SenderOk(durable, s, s.senders[tid]) && v != Pending
    ensures TrueTo(durable, Updated(s, tid), op, v)
  {
    var a := s.senders[tid];
    if a.op == op && StatusFor(a.answer) == Some(v) {
      AnswerReceived(durable, s, a, v);
      assert SenderMarks(durable, s, a, v);
    }
    ReviewStaysTrue(durable, s, a, op, v);
    LeftStaysTrue(durable, s.(store := AfterReview(s, a)), tid, op, v);
  }

  /** Whoever heard of a success had a request the server could accept. */
  lemma HeardMarks(durable: Durable, s: State, w: Sender, answer: OutboxMachine.Answer, v: Status)
    requires Inv(durable, s) && w.Waiting? && SenderOk(durable, s, w) && Deliverable(s, w.record.key, answer)
    ensures SenderMarks(durable, s, Answered(w.op, w.record, answer), v) && v != Pending ==> SenderMarks(durable, s, w, v)
  {
    if IsSuccess(answer) { HeardIsAcceptable(durable, s, Entry(w.op, w.record)); }
  }

  lemma HeardStaysTrue(durable: Durable, s: State, tid: nat, answer: OutboxMachine.Answer, op: Operation, v: Status)
    requires Inv(durable, s) && TrueTo(durable, s, op, v) && tid in s.senders && s.senders[tid].Waiting? && v != Pending
    requires Deliverable(s, s.senders[tid].record.key, answer)
    ensures TrueTo(durable, Heard(s, tid, answer), op, v)
  {
    HeardMarks(durable, s, s.senders[tid], answer, v);
    TrueShrinks(durable, s, Heard(s, tid, answer), op, v);
  }

  lemma SenderStaysTrue(durable: Durable, s: State, tid: nat, action: SenderAction, op: Operation, v: Status)
    requires Inv(durable, s) && TrueTo(durable, s, op, v) && CanSender(durable, s, tid, action) && v != Pending
    ensures TrueTo(durable, TakeSender(durable, s, tid, action), op, v)
  {
    match action {
      case Intercept(other, raw) => TrueShrinks(durable, s, Caught(s, tid, other, raw, durable(raw).value), op, v);
      case Enqueue(key) => EnqueuedStaysTrue(durable, s, tid, key, op, v);
      case Decide(online) => DecidedStaysTrue(durable, s, tid, op, v);
      case Receive(answer) => HeardStaysTrue(durable, s, tid, answer, op, v);
      case Update => UpdatedStaysTrue(durable, s, tid, op, v);
    }
  }

  lemma SentStaysTrue(durable: Durable, s: State, tid: nat, op: Operation, v: Status)
    requires TrueTo(durable, s, op, v) && tid in s.senders && s.senders[tid].Queued? && WillSend(durable, s.senders[tid])
    ensures TrueTo(durable, Sent(s, tid), op, v)
  {
    TrueShrinks(durable, s, Sent(s, tid), op, v);
  }

  lemma DecidedStaysTrue(durable: Durable, s: State, tid: nat, op: Operation, v: Status)
    requires TrueTo(durable, s, op, v) && tid in s.senders && s.senders[tid].Queued?
    ensures TrueTo(durable, Left(s, tid), op, v)
    ensures WillSend(durable, s.senders[tid]) ==> TrueTo(durable, Sent(s, tid), op, v)
  {
    LeftStaysTrue(durable, s, tid, op, v);
    if WillSend(durable, s.senders[tid]) { SentStaysTrue(durable, s, tid, op, v); }
  }

  lemma TurnStaysTrue(durable: Durable, s: State, d: nat, drain: Drain, op: Operation, v: Status)
    requires TrueTo(durable, s, op, v) && d < |s.drains| && DrainCurrent(s, drain, op, v)
    ensures TrueTo(durable, Turned(s, d, drain), op, v)
  {
    TrueShrinks(durable, s, Turned(s, d, drain), op, v);
  }

  /** The network, the session and the slot do not matter. */
  lemma SameStaysTrue(durable: Durable, s: State, t: State, op: Operation, v: Status)
    requires TrueTo(durable, s, op, v) && Grows(s, t) && t.store == s.store && t.senders == s.senders
    requires forall d :: 0 <= d < |t.drains| ==> t.drains[d] in s.drains || t.drains[d].Listing?
    ensures TrueTo(durable, t, op, v)
  {
    forall d | 0 <= d < |t.drains| ensures DrainCurrent(s, t.drains[d], op, v) {
      if t.drains[d] in s.drains {
        var e :| 0 <= e < |s.drains| && s.drains[e] == t.drains[d];
      }
    }
    TrueShrinks(durable, s, t, op, v);
  }

  lemma ListedStaysTrue(durable: Durable, s: State, d: nat, entries: seq<Entry>, op: Operation, v: Status)
    requires TrueTo(durable, s, op, v) && d < |s.drains| && ListsPending(s, s.drains[d].user, entries)
    ensures TrueTo(durable, Turned(s, d, Ready(s.drains[d].user, entries)), op, v)
  {
    forall k | ComesTo(s, entries, k, op, v == Synced) ensures Current(s.store, op, entries[k].record) {
      assert IsPendingOf(s, s.drains[d].user, entries[k]);
    }
    TurnStaysTrue(durable, s, d, Ready(s.drains[d].user, entries), op, v);
  }

  lemma TailCurrent(s: State, entries: seq<Entry>, op: Operation, accepted: bool)
    requires entries != [] && CanAccept(s, entries[0]) && EntriesCurrent(s, entries, op, accepted)
    ensures EntriesCurrent(s, entries[1..], op, accepted)
  {
    forall k | ComesTo(s, entries[1..], k, op, accepted) ensures Current(s.store, op, entries[1..][k].record) {
      RestComesTo(s, entries, k, op, accepted);
      assert ComesTo(s, entries, k + 1, op, accepted) && entries[1..][k] == entries[k + 1];
    }
  }

  lemma AnsweredCurrent(s: State, drain: Drain, answer: OutboxMachine.Answer, op: Operation, v: Status)
    requires (drain.First? || drain.Second?) && drain.rest != [] && DrainCurrent(s, drain, op, v)
    requires IsSuccess(answer) ==> CanAccept(s, drain.rest[0])
    ensures DrainCurrent(s, AfterAnswer(drain, answer), op, v)
  {
    if IsSuccess(answer) { TailCurrent(s, drain.rest, op, v == Synced); }
    if drain.rest[0].op == op && (v == Synced ==> CanAccept(s, drain.rest[0])) {
      assert ComesTo(s, drain.rest, 0, op, v == Synced);
    }
  }

  lemma AnsweredStaysTrue(durable: Durable, s: State, d: nat, answer: OutboxMachine.Answer, op: Operation, v: Status)
    requires Inv(durable, s) && TrueTo(durable, s, op, v) && d < |s.drains| && (s.drains[d].First? || s.drains[d].Second?)
    requires s.drains[d].rest != [] && Deliverable(s, s.drains[d].rest[0].record.key, answer)
    ensures TrueTo(durable, DrainHeard(s, d, answer), op, v)
  {
    var drain := s.drains[d];
    assert DrainOk(durable, s, drain) && DrainCurrent(s, drain, op, v);
    if IsSuccess(answer) { HeardIsAcceptable(durable, s, drain.rest[0]); }
    AnsweredCurrent(s, drain, answer, op, v);
    TurnStaysTrue(durable, s, d, AfterAnswer(drain, answer), op, v);
    SameStaysTrue(durable, Turned(s, d, AfterAnswer(drain, answer)), DrainHeard(s, d, answer), op, v);
  }

  lemma RefreshedStaysTrue(durable: Durable, s: State, d: nat, user: Option<string>, op: Operation, v: Status)
    requires TrueTo(durable, s, op, v) && d < |s.drains| && s.drains[d].Refreshing? && s.drains[d].rest != [] && v != Pending
    ensures TrueTo(durable, DrainRefreshed(s, d, user), op, v)
  {
    var drain := s.drains[d];
    assert DrainCurrent(s, drain, op, v);
    if user.None? {
      TurnStaysTrue(durable, s, d, Marking(drain.user, drain.rest, MarkPending), op, v);
    } else if user.value != drain.rest[0].op.user {
      TurnStaysTrue(durable, s, d, Finishing(drain.user), op, v);
      SameStaysTrue(durable, Turned(s, d, Finishing(drain.user)), DrainRefreshed(s, d, user), op, v);
    } else {
      var next := Second(user.value, drain.rest);
      TurnStaysTrue(durable, s, d, next, op, v);
      SameStaysTrue(durable, Turned(s, d, next), DrainRefreshed(s, d, user), op, v);
    }
  }

  lemma MarkReceived(durable: Durable, s: State, drain: Drain, v: Status)
    requires DrainOk(durable, s, drain) && drain.Marking? && drain.rest != [] && MarkStatus(drain.mark) == v && v != Pending
    ensures ReceivedFor(s, drain.rest[0].op, drain.rest[0].record.key, KindOf(v))
  {
  }

  lemma AfterMarkCurrent(s: State, drain: Drain, op: Operation, v: Status)
    requires DrainCurrent(s, drain, op, v) && drain.Marking? && drain.rest != []
    ensures DrainCurrent(s.(store := MarkedStore(s, drain)), AfterMark(drain), op, v)
  {
    CurrentStays(s, s.(store := MarkedStore(s, drain)), AfterMark(drain), op, v);
  }

  lemma MarkedStoreStaysTrue(durable: Durable, s: State, drain: Drain, op: Operation, v: Status)
    requires TrueTo(durable, s, op, v) && DrainCurrent(s, drain, op, v) && DrainOk(durable, s, drain)
    requires drain.Marking? && drain.rest != [] && v != Pending
    ensures TrueTo(durable, s.(store := MarkedStore(s, drain)), op, v)
  {
    MarkFounded(durable, s, drain, op, v);
    StatusStaysTrue(durable, s, drain.rest[0].op, MarkStatus(drain.mark), drain.rest[0].record.attempts + 1, op, v);
    assert MarkedStore(s, drain) == UpdateReview(s.store, drain.rest[0].op, MarkStatus(drain.mark), drain.rest[0].record.attempts + 1);
  }

  lemma MarkFounded(durable: Durable, s: State, drain: Drain, op: Operation, v: Status)
    requires DrainCurrent(s, drain, op, v) && DrainOk(durable, s, drain)
    requires drain.Marking? && drain.rest != [] && v != Pending
    ensures drain.rest[0].op == op && MarkStatus(drain.mark) == v && op in s.store ==> ReceivedFor(s, op, s.store[op].key, KindOf(v))
  {
    if MarkStatus(drain.mark) == v { MarkReceived(durable, s, drain, v); }
  }

  lemma MarkedStaysTrue(durable: Durable, s: State, d: nat, op: Operation, v: Status)
    requires TrueTo(durable, s, op, v) && d < |s.drains| && s.drains[d].Marking? && s.drains[d].rest != []
    requires DrainOk(durable, s, s.drains[d]) && v != Pending
    ensures TrueTo(durable, DrainMarked(s, d), op, v)
  {
    var drain := s.drains[d];
    assert DrainCurrent(s, drain, op, v);
    MarkedStoreStaysTrue(durable, s, drain, op, v);
    AfterMarkCurrent(s, drain, op, v);
    TurnStaysTrue(durable, s.(store := MarkedStore(s, drain)), d, AfterMark(drain), op, v);
  }

  lemma DrainStaysTrue(durable: Durable, s: State, d: nat, action: DrainAction, op: Operation, v: Status)
    requires Inv(durable, s) && TrueTo(durable, s, op, v) && CanDrain(s, d, action) && v != Pending
    ensures TrueTo(durable, TakeDrain(s, d, action), op, v)
  {
    match action {
      case List(entries) => ListedStaysTrue(durable, s, d, entries, op, v);
      case SendFirst =>
        var next := First(s.drains[d].user, s.drains[d].rest);
        TurnStaysTrue(durable, s, d, next, op, v);
        SameStaysTrue(durable, Turned(s, d, next), DrainSent(s, d, next), op, v);
      case Answer(answer) => AnsweredStaysTrue(durable, s, d, answer, op, v);
      case Refresh(user) => RefreshedStaysTrue(durable, s, d, user, op, v);
      case MarkIt => MarkedStaysTrue(durable, s, d, op, v);
      case Finish => SameStaysTrue(durable, s, TakeDrain(s, d, action), op, v);
    }
  }

  lemma OtherPruned(durable: Durable, s: State, other: Operation, op: Operation, v: Status)
    requires TrueTo(durable, s, op, v) && other != op
    ensures TrueTo(durable, s.(store := s.store - {other}), op, v)
  {
    TrueShrinks(durable, s, s.(store := s.store - {other}), op, v);
  }

  lemma RecordedStaysTrue(durable: Durable, s: State, other: Operation, body: Body, op: Operation, v: Status)
    requires TrueTo(durable, s, op, v)
    ensures TrueTo(durable, Recorded(s, other, body), op, v)
  {
    if other !in s.events {
      SameStaysTrue(durable, s, s.(events := s.events[other := body], eventLog := s.eventLog + [other]), op, v);
    }
  }

  lemma AcceptedStaysTrue(durable: Durable, s: State, other: Operation, key: Key, body: Body, op: Operation, v: Status)
    requires TrueTo(durable, s, op, v)
    ensures TrueTo(durable, AcceptedAt(s, other, key, body), op, v)
  {
    RecordedStaysTrue(durable, s, other, body, op, v);
    SameStaysTrue(durable, Recorded(s, other, body), AcceptedAt(s, other, key, body), op, v);
  }

  lemma OtherStaysTrue(durable: Durable, s: State, step: Step, op: Operation, v: Status)
    requires TrueTo(durable, s, op, v) && (step.SetSession? || step.PassThrough? || step.StartDrain?)
    ensures TrueTo(durable, Next(durable, s, step), op, v)
  {
    SameStaysTrue(durable, s, Next(durable, s, step), op, v);
  }

  lemma NextStaysTrue(durable: Durable, s: State, step: Step, op: Operation, v: Status)
    requires Inv(durable, s) && TrueTo(durable, s, op, v) && step != Prune(op) && v != Pending
    ensures TrueTo(durable, Next(durable, s, step), op, v)
  {
    if Enabled(durable, s, step) {
      match step {
        case OfSender(tid, action) => SenderStaysTrue(durable, s, tid, action, op, v);
        case OfDrain(d, action) => DrainStaysTrue(durable, s, d, action, op, v);
        case Prune(other) => OtherPruned(durable, s, other, op, v);
        case Accept(i) => AcceptedStaysTrue(durable, s, s.sends[i].op, s.sends[i].key.value, durable(s.sends[i].raw).value, op, v);
        case Elsewhere(other, body) => RecordedStaysTrue(durable, s, other, body, op, v);
        case _ => OtherStaysTrue(durable, s, step, op, v);
      }
    }
  }

  /** Its own prune keeps it when nobody can still mark the review. */
  lemma PruneStaysTrue(durable: Durable, s: State, op: Operation, v: Status)
    requires op in s.store && !CanMark(durable, s, op, v)
    ensures TrueTo(durable, s.(store := s.store - {op}), op, v)
  {
    var t := s.(store := s.store - {op});
    forall d | 0 <= d < |s.drains| ensures DrainCurrent(t, s.drains[d], op, v) {
      assert !DrainMarks(s, s.drains[d], op, v);
      NothingMarked(s, t, s.drains[d], op, v);
    }
  }

  lemma NothingMarked(s: State, t: State, drain: Drain, op: Operation, v: Status)
    requires Records(s, t) && !DrainMarks(s, drain, op, v)
    ensures DrainCurrent(t, drain, op, v)
  {
    match drain {
      case Listing(_) =>
      case Finishing(_) =>
      case Marking(_, rest, mark) => if rest != [] && mark == MarkSynced { NothingReached(s, t, rest[1..], op, v == Synced); }
      case _ => NothingReached(s, t, drain.rest, op, v == Synced);
    }
  }

  lemma NothingReached(s: State, t: State, entries: seq<Entry>, op: Operation, accepted: bool)
    requires Records(s, t) && !Reaches(s, entries, op, accepted)
    ensures EntriesCurrent(t, entries, op, accepted)
  {
    if k :| ComesTo(t, entries, k, op, accepted) { CameBefore(s, t, entries, k, op, accepted); }
  }

  // ---------- runs in which pruning is harmless ----------

  /** Every review is pruned only when nobody can mark it any more. */
  ghost predicate HarmlessPrunes(durable: Durable, s: State, steps: seq<Step>, v: Status)
    decreases |steps|
  {
    steps == [] ||
    ((steps[0].Prune? ==> !CanMark(durable, s, steps[0].op, v)) && HarmlessPrunes(durable, Next(durable, s, steps[0]), steps[1..], v))
  }

  ghost predicate Faithful(durable: Durable, s: State, v: Status) { forall op :: TrueTo(durable, s, op, v) }

  lemma NextStaysFaithful(durable: Durable, s: State, step: Step, v: Status)
    requires Inv(durable, s) && Faithful(durable, s, v) && (step.Prune? ==> !CanMark(durable, s, step.op, v)) && v != Pending
    ensures Faithful(durable, Next(durable, s, step), v)
  {
    forall op ensures TrueTo(durable, Next(durable, s, step), op, v) {
      assert TrueTo(durable, s, op, v);
      if step == Prune(op) {
        if op in s.store { PruneStaysTrue(durable, s, op, v); }
      } else {
        NextStaysTrue(durable, s, step, op, v);
      }
    }
  }

  lemma {:induction false} RunFromStaysFaithful(durable: Durable, s: State, steps: seq<Step>, v: Status)
    requires Canonical(durable) && Inv(durable, s) && Faithful(durable, s, v) && HarmlessPrunes(durable, s, steps, v) && v != Pending
    ensures Faithful(durable, RunFrom(durable, s, steps), v)
    decreases |steps|
  {
    if steps != [] {
      NextStaysFaithful(durable, s, steps[0], v);
      NextKeeps(durable, s, steps[0]);
      RunFromStaysFaithful(durable, Next(durable, s, steps[0]), steps[1..], v);
    }
  }

  /** While pruning is harmless, everyone who can mark a review works with the stored record, and every
      mark has a response of its kind for the stored key. */
  lemma RunStaysFaithful(durable: Durable, steps: seq<Step>, v: Status)
    requires Canonical(durable) && HarmlessPrunes(durable, INITIAL, steps, v) && v != Pending
    ensures Faithful(durable, Run(durable, steps), v)
  {
    RunFromStaysFaithful(durable, INITIAL, steps, v);
  }

  /** In particular a review stored as synced has a 2xx response for its own key, and a failed one a
      response for its own key that settles it otherwise. */
  lemma MarkedForKey(durable: Durable, steps: seq<Step>, op: Operation, v: Status)
    requires Canonical(durable) && HarmlessPrunes(durable, INITIAL, steps, v) && v != Pending
    requires op in Run(durable, steps).store && Run(durable, steps).store[op].status == v
    ensures ReceivedFor(Run(durable, steps), op, Run(durable, steps).store[op].key, KindOf(v))
    ensures var s := Run(durable, steps);
            && (v == Synced ==> exists r :: r in s.receipts && r.op == op && r.key == s.store[op].key && 200 <= r.status < 300)
            && (v == Failed ==>
                  exists r :: r in s.receipts && r.op == op && r.key == s.store[op].key && !(200 <= r.status < 300)
                              && r.status !in {401, 408, 425, 429} && r.status < 500)
  {
    var s := Run(durable, steps);
    RunStaysFaithful(durable, steps, v);
    assert TrueTo(durable, s, op, v);
    var r :| r in s.receipts && r.op == op && r.key == s.store[op].key && ResponseDisposition(r.status) == KindOf(v);
    assert v == Synced ==> 200 <= r.status < 300;
    assert v == Failed ==> !(200 <= r.status < 300) && r.status !in {401, 408, 425, 429} && r.status < 500;
  }

  /** And a review stored as synced is the one the server recorded for its operation. */
  lemma SyncedMeansApplied(durable: Durable, steps: seq<Step>, op: Operation)
    requires Canonical(durable) && HarmlessPrunes(durable, INITIAL, steps, Synced)
    requires op in Run(durable, steps).store && Run(durable, steps).store[op].status == Synced
    ensures var s := Run(durable, steps);
            s.store[op].key in s.accepted && op in s.events && s.events[op] == s.store[op].body
  {
    MarkedForKey(durable, steps, op, Synced);
    RunKeeps(durable, steps);
    assert RecordOk(Run(durable, steps), op, Run(durable, steps).store[op]);
    assert AcceptedOk(Run(durable, steps), Run(durable, steps).store[op].key);
  }

  /** A request carries the key and the payload stored for its operation at that moment. */
  predicate Matches(durable: Durable, s: State, send: Send) {
    send.key.Some? ==>
      send.op in s.store && s.store[send.op].key == send.key.value && durable(send.raw) == Some(s.store[send.op].body)
  }

  lemma SenderMatches(durable: Durable, s: State, tid: nat, action: SenderAction)
    requires Faithful(durable, s, Failed) && CanSender(durable, s, tid, action)
    ensures var t := TakeSender(durable, s, tid, action);
            t.sends == s.sends || exists send :: t.sends == s.sends + [send] && Matches(durable, s, send)
  {
    if action.Decide? && WillSend(durable, s.senders[tid]) {
      var q := s.senders[tid];
      assert TrueTo(durable, s, q.op, Failed) && SenderMarks(durable, s, q, Failed);
      assert Matches(durable, s, Send(Some(q.record.key), q.op, q.raw, Some(q.op.user), None));
    }
  }

  lemma HeadMatches(durable: Durable, s: State, d: nat)
    requires Faithful(durable, s, Failed) && d < |s.drains| && (s.drains[d].Ready? || s.drains[d].Refreshing?) && s.drains[d].rest != []
    requires DrainOk(durable, s, s.drains[d])
    ensures Matches(durable, s, DrainRequest(s.drains[d].rest[0], s.drains[d].user)) && s.drains[d].rest[0].op.user == s.drains[d].user
  {
    var first := s.drains[d].rest[0];
    assert TrueTo(durable, s, first.op, Failed);
    assert DrainCurrent(s, s.drains[d], first.op, Failed) && ComesTo(s, s.drains[d].rest, 0, first.op, false);
  }

  lemma DrainMatches(durable: Durable, s: State, d: nat, action: DrainAction)
    requires Faithful(durable, s, Failed) && CanDrain(s, d, action) && DrainOk(durable, s, s.drains[d])
    ensures var t := TakeDrain(s, d, action);
            t.sends == s.sends || exists send :: t.sends == s.sends + [send] && Matches(durable, s, send)
  {
    if action.SendFirst? || action.Refresh? { HeadMatches(durable, s, d); }
  }

  /** While pruning is harmless, every request carries the key and the payload stored for its operation at
      the moment it is made: another payload for a stored operation never goes out under its key. */
  lemma SendsMatchTheStore(durable: Durable, steps: seq<Step>, step: Step)
    requires Canonical(durable) && HarmlessPrunes(durable, INITIAL, steps, Failed)
    ensures var s, t := Run(durable, steps), Next(durable, Run(durable, steps), step);
            t.sends == s.sends || exists send :: t.sends == s.sends + [send] && Matches(durable, s, send)
  {
    var s := Run(durable, steps);
    RunStaysFaithful(durable, steps, Failed);
    RunKeeps(durable, steps);
    if Enabled(durable, s, step) {
      match step {
        case OfSender(tid, action) => SenderMatches(durable, s, tid, action);
        case OfDrain(d, action) => DrainMatches(durable, s, d, action);
        case PassThrough(op, raw) => assert Matches(durable, s, Send(None, op, raw, s.session, None));
        case _ =>
      }
    }
  }
}
