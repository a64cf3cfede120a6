/** Late answers: exactly when a review stored as synced loses that status. */
module OutboxLate {
  import opened Basics
  import opened OutboxMachine
  import opened OutboxReach

  /** A step that notes a late failure: of an answered copy, or of a drain that still has the review at hand. */
  predicate Reopens(s: State, step: Step, op: Operation) {
    match step
    case OfSender(tid, Update) =>
      tid in s.senders && s.senders[tid].Answered? && s.senders[tid].op == op
      && (StatusFor(s.senders[tid].answer) == Some(Pending) || StatusFor(s.senders[tid].answer) == Some(Failed))
    case OfDrain(d, MarkIt) =>
      d < |s.drains| && s.drains[d].Marking? && s.drains[d].rest != [] && s.drains[d].rest[0].op == op && s.drains[d].mark != MarkSynced
    case _ => false
  }

  /** Stored reviews keep their status but for the notes of senders and drains. */
  lemma SenderStore(durable: Durable, s: State, tid: nat, action: SenderAction, op: Operation)
    requires CanSender(durable, s, tid, action) && op in s.store
    ensures var t := TakeSender(durable, s, tid, action);
            op in t.store && t.store[op] == if action.Update? then AfterReview(s, s.senders[tid])[op] else s.store[op]
  {
  }

  lemma DrainStore(s: State, d: nat, action: DrainAction, op: Operation)
    requires CanDrain(s, d, action) && op in s.store
    ensures var t := TakeDrain(s, d, action);
            op in t.store && t.store[op] == if action.MarkIt? then MarkedStore(s, s.drains[d])[op] else s.store[op]
  {
    DrainFrame(s, d, action);
  }

  /** A synced review loses its status in a step exactly when the step notes a late failure, and leaves
      the store exactly when it is pruned. */
  lemma LosesSyncedIff(durable: Durable, s: State, step: Step, op: Operation)
    requires op in s.store && s.store[op].status == Synced
    ensures var t := Next(durable, s, step);
            && (op in t.store && t.store[op].status != Synced <==> Reopens(s, step, op))
            && (op !in t.store <==> step == Prune(op))
  {
    if Enabled(durable, s, step) {
      match step {
        case OfSender(tid, action) => SenderStore(durable, s, tid, action, op);
        case OfDrain(d, action) => DrainStore(s, d, action, op);
        case _ =>
      }
    }
  }

  // ---------- whoever can still reopen ----------

  predicate SenderReopens(durable: Durable, sender: Sender) {
    WillSend(durable, sender) || sender.Waiting?
    || (sender.Answered? && (StatusFor(sender.answer) == Some(Pending) || StatusFor(sender.answer) == Some(Failed)))
  }

  ghost predicate DrainReopens(s: State, drain: Drain, op: Operation) {
    match drain
    case Listing(_) => false
    case Finishing(_) => false
    case Marking(_, rest, mark) =>
      rest != [] && if mark == MarkSynced then Reaches(s, rest[1..], op, false) else rest[0].op == op
    case _ => Reaches(s, drain.rest, op, false)
  }

  lemma ReopensBefore(s: State, t: State, drain: Drain, op: Operation)
    requires Records(s, t) && DrainReopens(t, drain, op)
    ensures DrainReopens(s, drain, op)
  {
    match drain {
      case Listing(_) =>
      case Finishing(_) =>
      case Marking(_, rest, mark) => if mark == MarkSynced { ReachesBefore(s, t, rest[1..], op, false); }
      case _ => ReachesBefore(s, t, drain.rest, op, false);
    }
  }

  /** Someone has a copy of the review whose answer may still come, or come to nothing. */
  ghost predicate CanReopen(durable: Durable, s: State, op: Operation) {
    || (exists tid :: tid in s.senders && s.senders[tid].op == op && SenderReopens(durable, s.senders[tid]))
    || (exists tid :: tid in s.intercepted && s.intercepted[tid].op == op
                      && op in s.store && s.intercepted[tid].body == s.store[op].body)
    || (exists d :: 0 <= d < |s.drains| && DrainReopens(s, s.drains[d], op))
  }

  /** Steps that neither prune the review nor intercept another copy of it. */
  ghost function LeavesAlone(op: Operation): Step -> bool {
    step => step != Prune(op) && !(step.OfSender? && step.senderAction.Intercept? && step.senderAction.op == op)
  }

  // ---------- nobody left: it stays synced ----------

  ghost predicate Settled(durable: Durable, s: State, op: Operation) {
    op in s.store && s.store[op].status == Synced && !CanReopen(durable, s, op)
  }

  /** A step that keeps the review stored as it is and gives nobody a copy who had none. */
  lemma SettledShrinks(durable: Durable, s: State, t: State, op: Operation)
    requires Settled(durable, s, op) && op in t.store && t.store[op].status == Synced && t.store[op].body == s.store[op].body
    requires forall tid :: tid in t.senders && t.senders[tid].op == op && SenderReopens(durable, t.senders[tid]) ==>
               tid in s.senders && s.senders[tid].op == op && SenderReopens(durable, s.senders[tid])
    requires forall tid :: tid in t.intercepted && t.intercepted[tid].op == op ==> tid in s.intercepted && s.intercepted[tid] == t.intercepted[tid]
    requires Records(s, t) && forall d :: 0 <= d < |t.drains| ==> !DrainReopens(s, t.drains[d], op)
    ensures Settled(durable, t, op)
  {
    forall d | 0 <= d < |t.drains| ensures !DrainReopens(t, t.drains[d], op) {
      if DrainReopens(t, t.drains[d], op) { ReopensBefore(s, t, t.drains[d], op); }
    }
    forall tid | tid in t.intercepted && t.intercepted[tid].op == op ensures t.intercepted[tid].body != t.store[op].body {
      assert s.intercepted[tid] == t.intercepted[tid];
    }
  }

  lemma SenderSettled(durable: Durable, s: State, op: Operation, tid: nat, action: SenderAction)
    requires Inv(durable, s) && Settled(durable, s, op) && CanSender(durable, s, tid, action) && LeavesAlone(op)(OfSender(tid, action))
    ensures Settled(durable, TakeSender(durable, s, tid, action), op)
  {
    match action {
      case Intercept(other, raw) => CatchSettled(durable, s, op, tid, other, raw, durable(raw).value);
      case Enqueue(key) => EnqueueSettled(durable, s, op, tid, key);
      case Decide(online) => DecideSettled(durable, s, op, tid);
      case Receive(answer) => HeardSettled(durable, s, op, tid, answer);
      case Update => UpdateSettled(durable, s, op, tid);
    }
  }

  lemma CatchSettled(durable: Durable, s: State, op: Operation, tid: nat, other: Operation, raw: Body, body: Body)
    requires Settled(durable, s, op) && other != op
    ensures Settled(durable, Caught(s, tid, other, raw, body), op)
  {
    SettledShrinks(durable, s, Caught(s, tid, other, raw, body), op);
  }

  lemma HeardSettled(durable: Durable, s: State, op: Operation, tid: nat, answer: OutboxMachine.Answer)
    requires Settled(durable, s, op) && tid in s.senders && s.senders[tid].Waiting?
    ensures Settled(durable, Heard(s, tid, answer), op)
  {
    SettledShrinks(durable, s, Heard(s, tid, answer), op);
  }

  lemma DecideSettled(durable: Durable, s: State, op: Operation, tid: nat)
    requires Settled(durable, s, op) && tid in s.senders && s.senders[tid].Queued?
    ensures Settled(durable, Left(s, tid), op)
    ensures WillSend(durable, s.senders[tid]) ==> Settled(durable, Sent(s, tid), op)
  {
    SettledShrinks(durable, s, Left(s, tid), op);
    if WillSend(durable, s.senders[tid]) {
      assert SenderReopens(durable, s.senders[tid]);
      SettledShrinks(durable, s, Sent(s, tid), op);
    }
  }

  lemma EnqueueSettled(durable: Durable, s: State, op: Operation, tid: nat, key: Key)
    requires Inv(durable, s) && Settled(durable, s, op) && tid in s.intercepted
    ensures Settled(durable, Enqueued(Released(s, tid), tid, s.intercepted[tid], key), op)
  {
    var i := s.intercepted[tid];
    assert Keeps(durable, i.raw, i.body);
    if i.op in s.store {
      QueueSettled(durable, s, op, tid, Queued(i.op, s.store[i.op], i.raw));
    } else {
      SettledShrinks(durable, s, Enqueued(Released(s, tid), tid, i, key), op);
    }
  }

  lemma QueueSettled(durable: Durable, s: State, op: Operation, tid: nat, q: Sender)
    requires Settled(durable, s, op) && (q.op == op ==> !SenderReopens(durable, q))
    ensures Settled(durable, Released(s, tid).(senders := s.senders[tid := q]), op)
  {
    SettledShrinks(durable, s, Released(s, tid).(senders := s.senders[tid := q]), op);
  }

  lemma UpdateSettled(durable: Durable, s: State, op: Operation, tid: nat)
    requires Settled(durable, s, op) && tid in s.senders && s.senders[tid].Answered?
    ensures Settled(durable, Updated(s, tid), op)
  {
    var a := s.senders[tid];
    assert a.op == op ==> !SenderReopens(durable, a);
    SettledShrinks(durable, s, Updated(s, tid), op);
  }

  lemma TurnSettled(durable: Durable, s: State, op: Operation, d: nat, drain: Drain)
    requires Settled(durable, s, op) && d < |s.drains| && !DrainReopens(s, drain, op)
    ensures Settled(durable, Turned(s, d, drain), op)
  {
    SettledShrinks(durable, s, Turned(s, d, drain), op);
  }

  /** Requests and responses, the session and the slot do not matter. */
  lemma SameSettled(durable: Durable, s: State, t: State, op: Operation)
    requires Settled(durable, s, op) && t.store == s.store && t.senders == s.senders && t.intercepted == s.intercepted && Records(s, t)
    requires forall d :: 0 <= d < |t.drains| ==> t.drains[d] in s.drains || t.drains[d].Listing?
    ensures Settled(durable, t, op)
  {
    SettledShrinks(durable, s, t, op);
  }

  lemma ListSettled(durable: Durable, s: State, op: Operation, d: nat, entries: seq<Entry>)
    requires Settled(durable, s, op) && d < |s.drains| && ListsPending(s, s.drains[d].user, entries)
    ensures Settled(durable, Turned(s, d, Ready(s.drains[d].user, entries)), op)
  {
    forall k | 0 <= k < |entries| ensures entries[k].op != op { assert IsPendingOf(s, s.drains[d].user, entries[k]); }
    TurnSettled(durable, s, op, d, Ready(s.drains[d].user, entries));
  }

  lemma MarkSettled(durable: Durable, s: State, op: Operation, d: nat)
    requires Settled(durable, s, op) && d < |s.drains| && s.drains[d].Marking? && s.drains[d].rest != []
    ensures Settled(durable, DrainMarked(s, d), op)
  {
    var drain := s.drains[d];
    assert !DrainReopens(s, drain, op);
    var t := s.(store := MarkedStore(s, drain));
    SettledShrinks(durable, s, t, op);
    TurnSettled(durable, t, op, d, AfterMark(drain));
  }

  /** A drain that never comes to the review does not have it at hand, and gets no further by an acceptance. */
  lemma NotAtHand(s: State, entries: seq<Entry>, op: Operation)
    requires entries != [] && !Reaches(s, entries, op, false)
    ensures entries[0].op != op
    ensures CanAccept(s, entries[0]) ==> !Reaches(s, entries[1..], op, false)
  {
    if entries[0].op == op { assert ComesTo(s, entries, 0, op, false); }
    if CanAccept(s, entries[0]) && Reaches(s, entries[1..], op, false) { RestReached(s, entries, op, false); }
  }

  lemma RefreshSettled(durable: Durable, s: State, op: Operation, d: nat, user: Option<string>)
    requires Settled(durable, s, op) && d < |s.drains| && s.drains[d].Refreshing? && s.drains[d].rest != []
    ensures Settled(durable, DrainRefreshed(s, d, user), op)
  {
    var drain := s.drains[d];
    assert !DrainReopens(s, drain, op);
    NotAtHand(s, drain.rest, op);
    if user.None? {
      TurnSettled(durable, s, op, d, Marking(drain.user, drain.rest, MarkPending));
    } else {
      var next := if user.value != drain.rest[0].op.user then Finishing(drain.user) else Second(user.value, drain.rest);
      TurnSettled(durable, s, op, d, next);
      SameSettled(durable, Turned(s, d, next), DrainRefreshed(s, d, user), op);
    }
  }

  lemma AnsweredReopensNot(s: State, drain: Drain, answer: OutboxMachine.Answer, op: Operation)
    requires (drain.First? || drain.Second?) && drain.rest != [] && !DrainReopens(s, drain, op)
    requires IsSuccess(answer) ==> CanAccept(s, drain.rest[0])
    ensures !DrainReopens(s, AfterAnswer(drain, answer), op)
  {
    NotAtHand(s, drain.rest, op);
  }

  lemma AnswerSettled(durable: Durable, s: State, op: Operation, d: nat, answer: OutboxMachine.Answer)
    requires Inv(durable, s) && Settled(durable, s, op) && d < |s.drains| && (s.drains[d].First? || s.drains[d].Second?)
    requires s.drains[d].rest != [] && Deliverable(s, s.drains[d].rest[0].record.key, answer)
    ensures Settled(durable, DrainHeard(s, d, answer), op)
  {
    var drain := s.drains[d];
    assert DrainOk(durable, s, drain) && !DrainReopens(s, drain, op);
    if IsSuccess(answer) { HeardIsAcceptable(durable, s, drain.rest[0]); }
    AnsweredReopensNot(s, drain, answer, op);
    TurnSettled(durable, s, op, d, AfterAnswer(drain, answer));
    SameSettled(durable, Turned(s, d, AfterAnswer(drain, answer)), DrainHeard(s, d, answer), op);
  }

  lemma DrainSettled(durable: Durable, s: State, op: Operation, d: nat, action: DrainAction)
    requires Inv(durable, s) && Settled(durable, s, op) && CanDrain(s, d, action)
    ensures Settled(durable, TakeDrain(s, d, action), op)
  {
    assert !DrainReopens(s, s.drains[d], op);
    match action {
      case List(entries) => ListSettled(durable, s, op, d, entries);
      case SendFirst =>
        var next := First(s.drains[d].user, s.drains[d].rest);
        TurnSettled(durable, s, op, d, next);
        SameSettled(durable, Turned(s, d, next), DrainSent(s, d, next), op);
      case Answer(answer) => AnswerSettled(durable, s, op, d, answer);
      case Refresh(user) => RefreshSettled(durable, s, op, d, user);
      case MarkIt => MarkSettled(durable, s, op, d);
      case Finish => SameSettled(durable, s, TakeDrain(s, d, action), op);
    }
  }

  lemma PruneSettled(durable: Durable, s: State, op: Operation, other: Operation)
    requires Settled(durable, s, op) && other != op
    ensures Settled(durable, s.(store := s.store - {other}), op)
  {
    SettledShrinks(durable, s, s.(store := s.store - {other}), op);
  }

  lemma RecordedSettled(durable: Durable, s: State, other: Operation, body: Body, op: Operation)
    requires Settled(durable, s, op)
    ensures Settled(durable, Recorded(s, other, body), op)
  {
    SameSettled(durable, s, Recorded(s, other, body), op);
  }

  lemma AcceptedSettled(durable: Durable, s: State, other: Operation, key: Key, body: Body, op: Operation)
    requires Settled(durable, s, op)
    ensures Settled(durable, AcceptedAt(s, other, key, body), op)
  {
    RecordedSettled(durable, s, other, body, op);
    SameSettled(durable, Recorded(s, other, body), AcceptedAt(s, other, key, body), op);
  }

  lemma OtherSettled(durable: Durable, s: State, step: Step, op: Operation)
    requires Settled(durable, s, op) && (step.SetSession? || step.PassThrough? || step.StartDrain?)
    ensures Settled(durable, Next(durable, s, step), op)
  {
    SameSettled(durable, s, Next(durable, s, step), op);
  }

  lemma NextSettled(durable: Durable, s: State, step: Step, op: Operation)
    requires Inv(durable, s) && Settled(durable, s, op) && LeavesAlone(op)(step)
    ensures Settled(durable, Next(durable, s, step), op)
  {
    if Enabled(durable, s, step) {
      match step {
        case OfSender(tid, action) => SenderSettled(durable, s, op, tid, action);
        case OfDrain(d, action) => DrainSettled(durable, s, op, d, action);
        case Prune(other) => PruneSettled(durable, s, op, other);
        case Accept(i) => AcceptedSettled(durable, s, s.sends[i].op, s.sends[i].key.value, durable(s.sends[i].raw).value, op);
        case Elsewhere(other, body) => RecordedSettled(durable, s, other, body, op);
        case _ => OtherSettled(durable, s, step, op);
      }
    }
  }

  lemma {:induction false} RunSettled(durable: Durable, s: State, more: seq<Step>, op: Operation)
    requires Canonical(durable) && Inv(durable, s) && Settled(durable, s, op) && Allowed(LeavesAlone(op), more)
    ensures Settled(durable, RunFrom(durable, s, more), op)
    decreases |more|
  {
    if more != [] {
      assert LeavesAlone(op)(more[0]);
      NextSettled(durable, s, more[0], op);
      NextKeeps(durable, s, more[0]);
      forall k | 0 <= k < |more[1..]| ensures LeavesAlone(op)(more[1..][k]) { assert more[1..][k] == more[k + 1]; }
      RunSettled(durable, Next(durable, s, more[0]), more[1..], op);
    }
  }

  // ---------- somebody left: it can be reopened ----------

  ghost function Reopened(op: Operation): State -> bool { (t: State) => op in t.store && t.store[op].status != Synced }

  ghost predicate CanLose(durable: Durable, s: State, op: Operation) { Can(durable, s, LeavesAlone(op), Reopened(op)) }

  lemma GoingOnLeavesAlone(op: Operation)
    ensures AllowsGoingOn(LeavesAlone(op))
  {
  }

  lemma AnsweredLoses(durable: Durable, s: State, tid: nat, op: Operation)
    requires op in s.store && tid in s.senders && s.senders[tid].op == op && s.senders[tid].Answered?
    requires StatusFor(s.senders[tid].answer) == Some(Pending) || StatusFor(s.senders[tid].answer) == Some(Failed)
    ensures CanLose(durable, s, op)
  {
    var step := OfSender(tid, Update);
    CanNow(durable, Next(durable, s, step), LeavesAlone(op), Reopened(op));
    CanNext(durable, s, step, LeavesAlone(op), Reopened(op));
  }

  lemma WaitingLoses(durable: Durable, s: State, tid: nat, op: Operation)
    requires Canonical(durable) && Reachable(durable, s) && op in s.store
    requires tid in s.senders && s.senders[tid].op == op && s.senders[tid].Waiting?
    ensures CanLose(durable, s, op)
  {
    GoingOnLeavesAlone(op);
    var t := AnswerSender(durable, s, tid, OutboxMachine.Lost, LeavesAlone(op), Reopened(op));
    AnsweredLoses(durable, t, tid, op);
  }

  lemma SenderLoses(durable: Durable, s: State, tid: nat, op: Operation)
    requires Canonical(durable) && Reachable(durable, s) && op in s.store
    requires tid in s.senders && s.senders[tid].op == op && SenderReopens(durable, s.senders[tid])
    ensures CanLose(durable, s, op)
  {
    if s.senders[tid].Queued? {
      var step := OfSender(tid, Decide(true));
      ReachNext(durable, s, step);
      assert Next(durable, s, step) == Sent(s, tid);
      WaitingLoses(durable, Next(durable, s, step), tid, op);
      CanNext(durable, s, step, LeavesAlone(op), Reopened(op));
    } else if s.senders[tid].Waiting? {
      WaitingLoses(durable, s, tid, op);
    } else {
      AnsweredLoses(durable, s, tid, op);
    }
  }

  lemma InterceptedLoses(durable: Durable, s: State, tid: nat, op: Operation)
    requires Canonical(durable) && Reachable(durable, s) && op in s.store
    requires tid in s.intercepted && s.intercepted[tid].op == op && s.intercepted[tid].body == s.store[op].body
    ensures CanLose(durable, s, op)
  {
    var key := FreshKey(s.issued);
    var step := OfSender(tid, Enqueue(key));
    assert Keeps(durable, s.intercepted[tid].raw, s.intercepted[tid].body) by { ReachableIsGood(durable, s); }
    ReachNext(durable, s, step);
    SenderLoses(durable, Next(durable, s, step), tid, op);
    CanNext(durable, s, step, LeavesAlone(op), Reopened(op));
  }

  lemma FailedMarkLoses(durable: Durable, s: State, d: nat, op: Operation)
    requires Canonical(durable) && Reachable(durable, s) && op in s.store && d < |s.drains|
    requires s.drains[d].Marking? && s.drains[d].rest != [] && s.drains[d].rest[0].op == op && s.drains[d].mark != MarkSynced
    ensures CanLose(durable, s, op)
  {
    GoingOnLeavesAlone(op);
    var t := MarkHead(durable, s, d, LeavesAlone(op), Reopened(op));
    CanNow(durable, t, LeavesAlone(op), Reopened(op));
  }

  /** A drain that sends goes on, accepted, until it comes to the review. */
  lemma {:induction false} SendingLoses(durable: Durable, s: State, d: nat, op: Operation)
    requires Canonical(durable) && Reachable(durable, s) && op in s.store && d < |s.drains|
    requires Sends(s.drains[d]) && Reaches(s, s.drains[d].rest, op, false)
    ensures CanLose(durable, s, op)
    decreases |s.drains[d].rest|, 1
  {
    GoingOnLeavesAlone(op);
    if s.drains[d].rest[0].op == op {
      var t := AnswerHead(durable, s, d, 500, LeavesAlone(op), Reopened(op));
      FailedMarkLoses(durable, t, d, op);
    } else {
      DrainIs(durable, s, d);
      HeadBefore(s, s.drains[d].rest, op, false);
      var t := AnswerHead(durable, s, d, 200, LeavesAlone(op), Reopened(op));
      RestStaysReachable(durable, s, t, s.drains[d].user, s.drains[d].rest, op, false);
      AcceptedLoses(durable, t, d, op);
    }
  }

  lemma {:induction false} AcceptedLoses(durable: Durable, s: State, d: nat, op: Operation)
    requires Canonical(durable) && Reachable(durable, s) && op in s.store && d < |s.drains|
    requires s.drains[d].Marking? && s.drains[d].mark == MarkSynced && s.drains[d].rest != [] && Reaches(s, s.drains[d].rest[1..], op, false)
    ensures CanLose(durable, s, op)
    decreases |s.drains[d].rest|, 0
  {
    GoingOnLeavesAlone(op);
    var t := MarkHead(durable, s, d, LeavesAlone(op), Reopened(op));
    ReachesBefore(t, s, s.drains[d].rest[1..], op, false);
    SendingLoses(durable, t, d, op);
  }

  lemma DrainLoses(durable: Durable, s: State, d: nat, op: Operation)
    requires Canonical(durable) && Reachable(durable, s) && op in s.store && d < |s.drains| && DrainReopens(s, s.drains[d], op)
    ensures CanLose(durable, s, op)
  {
    GoingOnLeavesAlone(op);
    var drain := s.drains[d];
    if drain.Marking? {
      if drain.mark == MarkSynced { AcceptedLoses(durable, s, d, op); } else { FailedMarkLoses(durable, s, d, op); }
    } else if drain.Refreshing? {
      var t := RefreshHead(durable, s, d, LeavesAlone(op), Reopened(op));
      ReachesBefore(t, s, drain.rest, op, false);
      SendingLoses(durable, t, d, op);
    } else {
      SendingLoses(durable, s, d, op);
    }
  }

  lemma ReopenCan(durable: Durable, s: State, op: Operation)
    requires Canonical(durable) && Reachable(durable, s) && op in s.store && CanReopen(durable, s, op)
    ensures CanLose(durable, s, op)
  {
    if tid :| tid in s.senders && s.senders[tid].op == op && SenderReopens(durable, s.senders[tid]) {
      SenderLoses(durable, s, tid, op);
    } else if tid :| tid in s.intercepted && s.intercepted[tid].op == op && s.intercepted[tid].body == s.store[op].body {
      InterceptedLoses(durable, s, tid, op);
    } else {
      var d :| 0 <= d < |s.drains| && DrainReopens(s, s.drains[d], op);
      DrainLoses(durable, s, d, op);
    }
  }

  // ---------- exactly when ----------

  /** A synced review can lose its status without being pruned or intercepted again if and only if
      someone still has a copy: a queued or unanswered request, a noted failure, an intercepted request
      of the same payload, or a drain with the review before it. */
  lemma ReopenedIff(durable: Durable, steps: seq<Step>, op: Operation)
    requires Canonical(durable) && op in Run(durable, steps).store && Run(durable, steps).store[op].status == Synced
    ensures var s := Run(durable, steps);
            CanReopen(durable, s, op)
            <==> exists more: seq<Step> :: Allowed(LeavesAlone(op), more) && Reopened(op)(RunFrom(durable, s, more))
  {
    var s := Run(durable, steps);
    if CanReopen(durable, s, op) {
      ReopenCan(durable, s, op);
    } else {
      RunKeeps(durable, steps);
      forall more: seq<Step> | Allowed(LeavesAlone(op), more) ensures !Reopened(op)(RunFrom(durable, s, more)) {
        RunSettled(durable, s, more, op);
      }
    }
  }

  /** With nobody left it stays stored as synced until it is pruned or intercepted again. */
  lemma StaysSynced(durable: Durable, steps: seq<Step>, more: seq<Step>, op: Operation)
    requires Canonical(durable) && op in Run(durable, steps).store && Run(durable, steps).store[op].status == Synced
    requires !CanReopen(durable, Run(durable, steps), op) && Allowed(LeavesAlone(op), more)
    ensures var t := RunFrom(durable, Run(durable, steps), more); op in t.store && t.store[op].status == Synced
  {
    RunKeeps(durable, steps);
    RunSettled(durable, Run(durable, steps), more, op);
  }
}
