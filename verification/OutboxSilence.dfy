/** Who still goes on after a logout, and that nothing happens when nobody does: without a sign-in no session comes
    back and no review is sent. A drain's own refresh is no sign-in: its answer can arrive after the logout.
 */
module OutboxSilence {
  import opened Basics
  import opened OutboxMachine
  import opened OutboxReach

  /** Nobody signs in: sessions come from a drain's refresh at most. */
  predicate NoSignIn(step: Step) { step.SetSession? ==> step.session.None? }

  /** A review went out under a key after `sent` requests. */
  ghost predicate SentAfter(sent: nat, t: State) { exists i :: sent <= i < |t.sends| && t.sends[i].key.Some? }

  // ---------- who goes on ----------

  predicate WillSync(s: State, sender: Sender) {
    || (sender.Waiting? && Acceptable(s, sender.op, sender.record.body))
    || (sender.Answered? && StatusFor(sender.answer) == Some(Synced))
  }

  predicate WillPend(sender: Sender) { sender.Waiting? || (sender.Answered? && StatusFor(sender.answer) == Some(Pending)) }

  /** The head of a drain that may be accepted without another request. */
  predicate HeadWillSync(s: State, drain: Drain, op: Operation) {
    match drain
    case Second(_, rest) => rest != [] && rest[0].op == op && CanAccept(s, rest[0])
    case Marking(_, rest, mark) => rest != [] && rest[0].op == op && mark == MarkSynced
    case _ => false
  }

  ghost predicate SenderSyncs(s: State, op: Operation) {
    exists tid :: tid in s.senders && s.senders[tid].op == op && WillSync(s, s.senders[tid])
  }

  ghost predicate HeadSyncs(s: State, op: Operation) { exists d :: 0 <= d < |s.drains| && HeadWillSync(s, s.drains[d], op) }

  /** An intercepted review that is stored, or joins a stored one of its own payload, sooner or later. */
  ghost predicate WillStore(s: State, i: Intercepted) {
    i.op !in s.store || s.store[i.op].body == i.body || s.store[i.op].status == Synced || SenderSyncs(s, i.op) || HeadSyncs(s, i.op)
  }

  ghost predicate SenderPends(durable: Durable, s: State, op: Operation) {
    exists tid :: tid in s.senders && s.senders[tid].op == op && (WillPend(s.senders[tid]) || WillSend(durable, s.senders[tid]))
  }

  ghost predicate InterceptedStores(s: State, op: Operation) {
    exists tid :: tid in s.intercepted && s.intercepted[tid].op == op && WillStore(s, s.intercepted[tid])
  }

  /** A review a listing may still find pending. */
  ghost predicate MayPend(durable: Durable, s: State, op: Operation) {
    || (op in s.store && (s.store[op].status == Pending || SenderPends(durable, s, op)))
    || InterceptedStores(s, op)
  }

  /** A drain with a record left to send: it sends it, and can come to refresh the session over it. */
  ghost predicate DrainGoesOn(durable: Durable, s: State, drain: Drain) {
    match drain
    case Listing(user) => exists op: Operation :: op.user == user && MayPend(durable, s, op)
    case Ready(_, rest) => rest != []
    case First(_, rest) => rest != []
    case Refreshing(_, rest) => rest != []
    case Second(_, rest) => |rest| > 1 && CanAccept(s, rest[0])
    case Marking(_, rest, mark) => mark == MarkSynced && |rest| > 1
    case Finishing(_) => false
  }

  ghost predicate SomeDrainGoesOn(durable: Durable, s: State) { exists d :: 0 <= d < |s.drains| && DrainGoesOn(durable, s, s.drains[d]) }

  /** Someone intercepted, queued or drained before the logout has a request left to make. */
  ghost predicate StillSends(durable: Durable, s: State) {
    || (exists tid :: tid in s.senders && WillSend(durable, s.senders[tid]))
    || (exists tid :: tid in s.intercepted && WillStore(s, s.intercepted[tid]))
    || SomeDrainGoesOn(durable, s)
  }

  // ---------- what a step without a session cannot bring about ----------

  lemma HeadSyncedBefore(s: State, t: State, op: Operation)
    requires Records(s, t) && t.drains == s.drains && HeadSyncs(t, op)
    ensures HeadSyncs(s, op)
  {
    var d :| 0 <= d < |t.drains| && HeadWillSync(t, t.drains[d], op);
    assert HeadWillSync(s, s.drains[d], op);
  }

  lemma SenderSyncedBefore(s: State, t: State, op: Operation)
    requires forall tid :: tid in t.senders && WillSync(t, t.senders[tid]) ==>
               tid in s.senders && WillSync(s, s.senders[tid]) && s.senders[tid].op == t.senders[tid].op
    requires SenderSyncs(t, op)
    ensures SenderSyncs(s, op)
  {
    var tid :| tid in t.senders && t.senders[tid].op == op && WillSync(t, t.senders[tid]);
    assert s.senders[tid].op == op && WillSync(s, s.senders[tid]);
  }

  /** Nobody gains a way to sync. */
  ghost predicate FewerSync(s: State, t: State) {
    forall op :: (SenderSyncs(t, op) ==> SenderSyncs(s, op)) && (HeadSyncs(t, op) ==> HeadSyncs(s, op))
  }

  lemma SyncShrinks(s: State, t: State)
    requires Records(s, t) && t.drains == s.drains
    requires forall tid :: tid in t.senders && WillSync(t, t.senders[tid]) ==>
               tid in s.senders && WillSync(s, s.senders[tid]) && s.senders[tid].op == t.senders[tid].op
    ensures FewerSync(s, t)
  {
    forall op ensures (SenderSyncs(t, op) ==> SenderSyncs(s, op)) && (HeadSyncs(t, op) ==> HeadSyncs(s, op)) {
      if SenderSyncs(t, op) { SenderSyncedBefore(s, t, op); }
      if HeadSyncs(t, op) { HeadSyncedBefore(s, t, op); }
    }
  }

  /** An intercepted review gains no way to be stored. */
  lemma StoreShrinks(s: State, t: State, i: Intercepted)
    requires FewerSync(s, t) && WillStore(t, i)
    requires i.op !in t.store ==> i.op !in s.store || s.store[i.op].status == Synced
    requires i.op in t.store && i.op in s.store ==> t.store[i.op].body == s.store[i.op].body
    requires i.op in t.store && i.op in s.store && t.store[i.op].status == Synced ==>
               s.store[i.op].status == Synced || SenderSyncs(s, i.op) || HeadSyncs(s, i.op)
    ensures WillStore(s, i)
  {
  }

  ghost predicate FewerStored(s: State, t: State) {
    forall tid :: tid in t.intercepted ==>
      tid in s.intercepted && t.intercepted[tid] == s.intercepted[tid] && (WillStore(t, t.intercepted[tid]) ==> WillStore(s, s.intercepted[tid]))
  }

  /** A store in which records are pruned or synced only for a reason. */
  ghost predicate StoreFollows(s: State, t: State) {
    && (forall op :: op in t.store ==> op in s.store && t.store[op].body == s.store[op].body)
    && (forall op :: op in s.store && op !in t.store ==> s.store[op].status == Synced)
    && (forall op :: op in t.store && t.store[op].status == Synced ==> s.store[op].status == Synced || SenderSyncs(s, op) || HeadSyncs(s, op))
  }

  lemma StoredShrinks(s: State, t: State)
    requires FewerSync(s, t) && StoreFollows(s, t)
    requires forall tid :: tid in t.intercepted ==> tid in s.intercepted && t.intercepted[tid] == s.intercepted[tid]
    ensures FewerStored(s, t)
  {
    forall tid | tid in t.intercepted ensures WillStore(t, t.intercepted[tid]) ==> WillStore(s, s.intercepted[tid]) {
      if WillStore(t, t.intercepted[tid]) { StoreShrinks(s, t, t.intercepted[tid]); }
    }
  }

  lemma SenderPendsShrinks(durable: Durable, s: State, t: State, op: Operation)
    requires forall tid :: tid in t.senders && (WillPend(t.senders[tid]) || WillSend(durable, t.senders[tid])) ==>
               tid in s.senders && (WillPend(s.senders[tid]) || WillSend(durable, s.senders[tid])) && s.senders[tid].op == t.senders[tid].op
    ensures SenderPends(durable, t, op) ==> SenderPends(durable, s, op)
  {
    if tid :| tid in t.senders && t.senders[tid].op == op && (WillPend(t.senders[tid]) || WillSend(durable, t.senders[tid])) {
      assert s.senders[tid].op == op;
    }
  }

  ghost predicate FewerPend(durable: Durable, s: State, t: State) { forall op :: MayPend(durable, t, op) ==> MayPend(durable, s, op) }

  /** A review gains no way to be found pending. */
  lemma PendShrinks(durable: Durable, s: State, t: State)
    requires FewerStored(s, t) && StoreFollows(s, t)
    requires forall op :: op in t.store && t.store[op].status == Pending ==> s.store[op].status == Pending || SenderPends(durable, s, op)
    requires forall tid :: tid in t.senders && (WillPend(t.senders[tid]) || WillSend(durable, t.senders[tid])) ==>
               tid in s.senders && (WillPend(s.senders[tid]) || WillSend(durable, s.senders[tid])) && s.senders[tid].op == t.senders[tid].op
    ensures FewerPend(durable, s, t)
  {
    forall op | MayPend(durable, t, op) ensures MayPend(durable, s, op) {
      SenderPendsShrinks(durable, s, t, op);
      if InterceptedStores(t, op) {
        var tid :| tid in t.intercepted && t.intercepted[tid].op == op && WillStore(t, t.intercepted[tid]);
        assert WillStore(s, s.intercepted[tid]);
      }
    }
  }

  // the steps of a sender

  lemma LeftShrinks(durable: Durable, s: State, tid: nat)
    ensures FewerStored(s, Left(s, tid)) && FewerPend(durable, s, Left(s, tid))
  {
    var t := Left(s, tid);
    SyncShrinks(s, t);
    StoredShrinks(s, t);
    PendShrinks(durable, s, t);
  }

  lemma HeardShrinks(durable: Durable, s: State, tid: nat, answer: OutboxMachine.Answer)
    requires Inv(durable, s) && tid in s.senders && s.senders[tid].Waiting? && Deliverable(s, s.senders[tid].record.key, answer)
    ensures FewerStored(s, Heard(s, tid, answer)) && FewerPend(durable, s, Heard(s, tid, answer))
  {
    var w, t := s.senders[tid], Heard(s, tid, answer);
    assert SenderOk(durable, s, w);
    if IsSuccess(answer) { HeardIsAcceptable(durable, s, Entry(w.op, w.record)); }
    SyncShrinks(s, t);
    StoredShrinks(s, t);
    PendShrinks(durable, s, t);
  }

  /** A status noted for a stored review, with a reason for syncing it or taking it back. */
  lemma StatusShrinks(durable: Durable, s: State, op: Operation, status: Status, attempts: nat)
    requires status == Synced ==> SenderSyncs(s, op) || HeadSyncs(s, op)
    ensures var t := s.(store := UpdateReview(s.store, op, status, attempts));
            FewerStored(s, t) && (status != Pending || SenderPends(durable, s, op) ==> FewerPend(durable, s, t))
  {
    var t := s.(store := UpdateReview(s.store, op, status, attempts));
    SyncShrinks(s, t);
    StoredShrinks(s, t);
    if status != Pending || SenderPends(durable, s, op) { PendShrinks(durable, s, t); }
  }

  lemma ReviewShrinks(durable: Durable, s: State, tid: nat)
    requires tid in s.senders && s.senders[tid].Answered?
    ensures var t := s.(store := AfterReview(s, s.senders[tid])); FewerStored(s, t) && FewerPend(durable, s, t)
  {
    var a := s.senders[tid];
    if StatusFor(a.answer).None? {
      assert s.(store := AfterReview(s, a)) == s;
    } else {
      var status := StatusFor(a.answer).value;
      if status == Synced { assert WillSync(s, a); }
      if status == Pending { assert WillPend(a); }
      StatusShrinks(durable, s, a.op, status, a.record.attempts + 1);
      assert AfterReview(s, a) == UpdateReview(s.store, a.op, status, a.record.attempts + 1);
    }
  }

  lemma FewerTwice(durable: Durable, s: State, t: State, u: State)
    requires FewerStored(s, t) && FewerPend(durable, s, t) && FewerStored(t, u) && FewerPend(durable, t, u)
    ensures FewerStored(s, u) && FewerPend(durable, s, u)
  {
    forall op | MayPend(durable, u, op) ensures MayPend(durable, s, op) { assert MayPend(durable, t, op); }
  }

  lemma UpdatedShrinks(durable: Durable, s: State, tid: nat)
    requires tid in s.senders && s.senders[tid].Answered?
    ensures FewerStored(s, Updated(s, tid)) && FewerPend(durable, s, Updated(s, tid))
  {
    var t := s.(store := AfterReview(s, s.senders[tid]));
    ReviewShrinks(durable, s, tid);
    LeftShrinks(durable, t, tid);
    FewerTwice(durable, s, t, Left(t, tid));
  }

  /** A request that goes out can be answered, but only its own review gains by it, and could be pending before. */
  lemma SentPends(durable: Durable, s: State, tid: nat, op: Operation)
    requires tid in s.senders && s.senders[tid].Queued? && WillSend(durable, s.senders[tid]) && MayPend(durable, Sent(s, tid), op)
    ensures MayPend(durable, s, op)
  {
    var q, t := s.senders[tid], Sent(s, tid);
    SenderPendsShrinks(durable, s, t, op);
    if InterceptedStores(t, op) && !(op in s.store && q.op == op) {
      var other :| other in t.intercepted && t.intercepted[other].op == op && WillStore(t, t.intercepted[other]);
      SentStores(s, tid, t.intercepted[other]);
    }
  }

  lemma SentStores(s: State, tid: nat, i: Intercepted)
    requires tid in s.senders && s.senders[tid].Queued? && WillStore(Sent(s, tid), i) && (i.op in s.store ==> s.senders[tid].op != i.op)
    ensures WillStore(s, i)
  {
    var t := Sent(s, tid);
    if i.op in s.store && SenderSyncs(t, i.op) {
      var other :| other in t.senders && t.senders[other].op == i.op && WillSync(t, t.senders[other]);
      assert other != tid && WillSync(s, s.senders[other]);
    }
    if HeadSyncs(t, i.op) { HeadSyncedBefore(s, t, i.op); }
  }

  // an intercepted review comes to the store

  lemma QueuedStores(s: State, tid: nat, q: Sender, i: Intercepted)
    requires q.Queued? && WillStore(s.(senders := s.senders[tid := q]), i)
    ensures WillStore(s, i)
  {
    var t := s.(senders := s.senders[tid := q]);
    SyncShrinks(s, t);
    StoreShrinks(s, t, i);
  }

  lemma CreatedStores(s: State, tid: nat, op: Operation, raw: Body, record: Record, i: Intercepted)
    requires op !in s.store && record.status == Pending && WillStore(Created(s, tid, op, raw, record), i)
    ensures WillStore(s, i)
  {
    var t := Created(s, tid, op, raw, record);
    SyncShrinks(s, t);
    if i.op in s.store { StoreShrinks(s, t, i); }
  }

  lemma EnqueuedStores(s: State, tid: nat, key: Key, other: nat)
    requires tid in s.intercepted && other in s.intercepted && other != tid
    requires WillStore(Enqueued(Released(s, tid), tid, s.intercepted[tid], key), s.intercepted[other])
    ensures WillStore(s, s.intercepted[other])
  {
    var i, r := s.intercepted[tid], Released(s, tid);
    if i.op in s.store {
      QueuedStores(r, tid, Queued(i.op, s.store[i.op], i.raw), s.intercepted[other]);
    } else {
      CreatedStores(r, tid, i.op, i.raw, Record(key, i.body, Pending, 0), s.intercepted[other]);
    }
    SyncShrinks(s, r);
    StoreShrinks(s, r, s.intercepted[other]);
  }

  lemma EnqueuedPends(durable: Durable, s: State, tid: nat, key: Key, op: Operation)
    requires tid in s.intercepted && Keeps(durable, s.intercepted[tid].raw, s.intercepted[tid].body)
    requires MayPend(durable, Enqueued(Released(s, tid), tid, s.intercepted[tid], key), op)
    ensures MayPend(durable, s, op)
  {
    var i, t := s.intercepted[tid], Enqueued(Released(s, tid), tid, s.intercepted[tid], key);
    if i.op == op && WillStore(s, i) {
      assert InterceptedStores(s, op);
    } else if InterceptedStores(t, op) {
      var other :| other in t.intercepted && t.intercepted[other].op == op && WillStore(t, t.intercepted[other]);
      EnqueuedStores(s, tid, key, other);
      assert InterceptedStores(s, op);
    } else if SenderPends(durable, t, op) {
      var other :| other in t.senders && t.senders[other].op == op && (WillPend(t.senders[other]) || WillSend(durable, t.senders[other]));
      assert other != tid && SenderPends(durable, s, op);
    }
  }

  // the server and the pruning

  /** A step that touches neither the store nor anyone at work. */
  lemma QuietShrinks(durable: Durable, s: State, t: State)
    requires Records(s, t) && t.store == s.store && t.senders == s.senders && t.intercepted == s.intercepted && t.drains == s.drains
    ensures FewerStored(s, t) && FewerPend(durable, s, t)
  {
    SyncShrinks(s, t);
    StoredShrinks(s, t);
    PendShrinks(durable, s, t);
  }

  lemma PruneShrinks(durable: Durable, s: State, op: Operation)
    requires op in s.store && s.store[op].status == Synced
    ensures var t := s.(store := s.store - {op}); FewerStored(s, t) && FewerPend(durable, s, t)
  {
    var t := s.(store := s.store - {op});
    SyncShrinks(s, t);
    StoredShrinks(s, t);
    PendShrinks(durable, s, t);
  }

  // ---------- no drain goes on: the session stays away ----------

  ghost predicate Calm(durable: Durable, s: State) { s.session == None && !SomeDrainGoesOn(durable, s) }

  lemma CalmShrinks(durable: Durable, s: State, t: State)
    requires Calm(durable, s) && t.session == None && t.drains == s.drains && Records(s, t) && FewerPend(durable, s, t)
    ensures Calm(durable, t)
  {
    forall d | 0 <= d < |t.drains| ensures !DrainGoesOn(durable, t, t.drains[d]) {
      assert !DrainGoesOn(durable, s, s.drains[d]);
      if t.drains[d].Listing? {
        forall op: Operation | op.user == t.drains[d].user ensures !MayPend(durable, t, op) { assert !MayPend(durable, s, op); }
      }
    }
  }

  lemma SenderStaysCalm(durable: Durable, s: State, tid: nat, action: SenderAction)
    requires Inv(durable, s) && Calm(durable, s) && CanSender(durable, s, tid, action)
    ensures Calm(durable, TakeSender(durable, s, tid, action))
  {
    var t := TakeSender(durable, s, tid, action);
    match action {
      case Intercept(op, raw) =>
      case Enqueue(key) =>
        forall op | MayPend(durable, t, op) ensures MayPend(durable, s, op) { EnqueuedPends(durable, s, tid, key, op); }
        CalmShrinks(durable, s, t);
      case Decide(online) =>
        if WillSend(durable, s.senders[tid]) && online {
          forall op | MayPend(durable, t, op) ensures MayPend(durable, s, op) { SentPends(durable, s, tid, op); }
        } else {
          LeftShrinks(durable, s, tid);
        }
        CalmShrinks(durable, s, t);
      case Receive(answer) =>
        HeardShrinks(durable, s, tid, answer);
        CalmShrinks(durable, s, t);
      case Update =>
        UpdatedShrinks(durable, s, tid);
        CalmShrinks(durable, s, t);
    }
  }

  /** The only drain takes a turn, with nothing left to send. */
  lemma TurnStaysCalm(durable: Durable, s: State, t: State, drain: Drain)
    requires t.session == None && t.drains == [drain] && !drain.Listing? && !DrainGoesOn(durable, t, drain)
    ensures Calm(durable, t)
  {
  }

  lemma ListStaysCalm(durable: Durable, s: State, entries: seq<Entry>)
    requires Calm(durable, s) && |s.drains| == 1 && s.drains[0].Listing? && ListsPending(s, s.drains[0].user, entries)
    ensures entries == []
  {
    assert !DrainGoesOn(durable, s, s.drains[0]);
    if entries != [] {
      assert IsPendingOf(s, s.drains[0].user, entries[0]);
      assert MayPend(durable, s, entries[0].op);
    }
  }

  lemma AnswerStaysCalm(durable: Durable, s: State, answer: OutboxMachine.Answer)
    requires Inv(durable, s) && Calm(durable, s) && |s.drains| == 1 && (s.drains[0].First? || s.drains[0].Second?) && s.drains[0].rest != []
    requires Deliverable(s, s.drains[0].rest[0].record.key, answer)
    ensures Calm(durable, DrainHeard(s, 0, answer))
    ensures var next := AfterAnswer(s.drains[0], answer);
            forall op :: HeadWillSync(s, next, op) ==> HeadSyncs(s, op)
  {
    var drain := s.drains[0];
    assert DrainOk(durable, s, drain) && !DrainGoesOn(durable, s, drain);
    if IsSuccess(answer) { HeardIsAcceptable(durable, s, drain.rest[0]); }
    TurnStaysCalm(durable, s, DrainHeard(s, 0, answer), AfterAnswer(drain, answer));
    forall op | HeadWillSync(s, AfterAnswer(drain, answer), op) ensures HeadSyncs(s, op) { assert HeadWillSync(s, drain, op); }
  }

  lemma DrainStaysCalm(durable: Durable, s: State, d: nat, action: DrainAction)
    requires Inv(durable, s) && Calm(durable, s) && CanDrain(s, d, action)
    ensures Calm(durable, TakeDrain(s, d, action)) && !action.SendFirst? && !action.Refresh?
  {
    assert d == 0 && |s.drains| == 1 && !DrainGoesOn(durable, s, s.drains[0]);
    match action {
      case List(entries) => ListStaysCalm(durable, s, entries);
      case SendFirst =>
      case Answer(answer) => AnswerStaysCalm(durable, s, answer);
      case Refresh(user) =>
      case MarkIt => TurnStaysCalm(durable, s, DrainMarked(s, 0), AfterMark(s.drains[0]));
      case Finish =>
    }
  }

  lemma QuietStaysCalm(durable: Durable, s: State, t: State)
    requires Calm(durable, s) && Records(s, t) && t.session == None
    requires t.store == s.store && t.senders == s.senders && t.intercepted == s.intercepted && t.drains == s.drains
    ensures Calm(durable, t)
  {
    QuietShrinks(durable, s, t);
    CalmShrinks(durable, s, t);
  }

  lemma NextStaysCalm(durable: Durable, s: State, step: Step)
    requires Inv(durable, s) && Calm(durable, s) && NoSignIn(step)
    ensures Calm(durable, Next(durable, s, step))
  {
    if Enabled(durable, s, step) {
      match step {
        case OfSender(tid, action) => SenderStaysCalm(durable, s, tid, action);
        case StartDrain =>
        case OfDrain(d, action) => DrainStaysCalm(durable, s, d, action);
        case Prune(op) =>
          PruneShrinks(durable, s, op);
          CalmShrinks(durable, s, Next(durable, s, step));
        case _ =>
          NextRecords(durable, s, step);
          QuietStaysCalm(durable, s, Next(durable, s, step));
      }
    }
  }

  lemma {:induction false} CalmRun(durable: Durable, s: State, more: seq<Step>)
    requires Canonical(durable) && Inv(durable, s) && Calm(durable, s) && Allowed(NoSignIn, more)
    ensures RunFrom(durable, s, more).session == None
    decreases |more|
  {
    if more != [] {
      assert NoSignIn(more[0]);
      NextStaysCalm(durable, s, more[0]);
      NextKeeps(durable, s, more[0]);
      forall k | 0 <= k < |more[1..]| ensures NoSignIn(more[1..][k]) { assert more[1..][k] == more[k + 1]; }
      CalmRun(durable, Next(durable, s, more[0]), more[1..]);
    }
  }

  // ---------- nobody left: nothing is sent ----------

  /** Signed out with nobody left to send. */
  ghost predicate Silent(durable: Durable, s: State) { s.session == None && !StillSends(durable, s) }

  lemma SilenceShrinks(durable: Durable, s: State, t: State)
    requires Silent(durable, s) && Calm(durable, t) && FewerStored(s, t)
    requires forall tid :: tid in t.senders && WillSend(durable, t.senders[tid]) ==> tid in s.senders && WillSend(durable, s.senders[tid])
    ensures Silent(durable, t)
  {
  }

  lemma EnqueueStaysSilent(durable: Durable, s: State, tid: nat, key: Key)
    requires Silent(durable, s) && tid in s.intercepted && Keeps(durable, s.intercepted[tid].raw, s.intercepted[tid].body)
    requires Calm(durable, Enqueued(Released(s, tid), tid, s.intercepted[tid], key))
    ensures Silent(durable, Enqueued(Released(s, tid), tid, s.intercepted[tid], key))
  {
    var i, t := s.intercepted[tid], Enqueued(Released(s, tid), tid, s.intercepted[tid], key);
    assert !WillStore(s, i);
    forall other | other in t.intercepted ensures WillStore(t, t.intercepted[other]) ==> WillStore(s, s.intercepted[other]) {
      if WillStore(t, t.intercepted[other]) { EnqueuedStores(s, tid, key, other); }
    }
    SilenceShrinks(durable, s, t);
  }

  lemma SenderStaysSilent(durable: Durable, s: State, tid: nat, action: SenderAction)
    requires Inv(durable, s) && Silent(durable, s) && CanSender(durable, s, tid, action)
    ensures Silent(durable, TakeSender(durable, s, tid, action)) && TakeSender(durable, s, tid, action).sends == s.sends
  {
    SenderStaysCalm(durable, s, tid, action);
    match action {
      case Intercept(op, raw) =>
      case Enqueue(key) => EnqueueStaysSilent(durable, s, tid, key);
      case Decide(online) =>
        assert !WillSend(durable, s.senders[tid]);
        LeftShrinks(durable, s, tid);
        SilenceShrinks(durable, s, Left(s, tid));
      case Receive(answer) =>
        HeardShrinks(durable, s, tid, answer);
        SilenceShrinks(durable, s, Heard(s, tid, answer));
      case Update =>
        UpdatedShrinks(durable, s, tid);
        SilenceShrinks(durable, s, Updated(s, tid));
    }
  }

  /** A drain whose head could sync no more than before. */
  lemma TurnStores(s: State, t: State, drain: Drain)
    requires |s.drains| == 1 && t.drains == [drain] && t.events == s.events && t.store == s.store
    requires t.senders == s.senders && t.intercepted == s.intercepted
    requires forall op :: HeadWillSync(s, drain, op) ==> HeadSyncs(s, op)
    ensures FewerStored(s, t)
  {
    forall op ensures (SenderSyncs(t, op) ==> SenderSyncs(s, op)) && (HeadSyncs(t, op) ==> HeadSyncs(s, op)) {
      if SenderSyncs(t, op) { SenderSyncedBefore(s, t, op); }
      if HeadSyncs(t, op) { assert HeadWillSync(s, drain, op); }
    }
    StoredShrinks(s, t);
  }

  lemma MarkStoreStores(durable: Durable, s: State)
    requires |s.drains| == 1 && s.drains[0].Marking? && s.drains[0].rest != []
    ensures FewerStored(s, s.(store := MarkedStore(s, s.drains[0])))
  {
    var drain := s.drains[0];
    var first := drain.rest[0];
    if drain.mark == MarkSynced { assert HeadWillSync(s, drain, first.op); }
    StatusShrinks(durable, s, first.op, MarkStatus(drain.mark), first.record.attempts + 1);
    assert MarkedStore(s, drain) == UpdateReview(s.store, first.op, MarkStatus(drain.mark), first.record.attempts + 1);
  }

  lemma MarkStores(durable: Durable, s: State)
    requires |s.drains| == 1 && s.drains[0].Marking? && s.drains[0].rest != []
    ensures FewerStored(s, DrainMarked(s, 0))
  {
    var t := s.(store := MarkedStore(s, s.drains[0]));
    MarkStoreStores(durable, s);
    TurnStores(t, DrainMarked(s, 0), AfterMark(s.drains[0]));
  }

  lemma FinishStores(s: State)
    requires |s.drains| == 1
    ensures FewerStored(s, s.(syncInFlight := false, drains := s.drains[..0] + s.drains[1..]))
  {
    var t := s.(syncInFlight := false, drains := s.drains[..0] + s.drains[1..]);
    forall op ensures SenderSyncs(t, op) ==> SenderSyncs(s, op) { if SenderSyncs(t, op) { SenderSyncedBefore(s, t, op); } }
    StoredShrinks(s, t);
  }

  lemma DrainStaysSilent(durable: Durable, s: State, d: nat, action: DrainAction)
    requires Inv(durable, s) && Silent(durable, s) && CanDrain(s, d, action)
    ensures Silent(durable, TakeDrain(s, d, action)) && TakeDrain(s, d, action).sends == s.sends
  {
    assert d == 0 && |s.drains| == 1 && Calm(durable, s);
    var t := TakeDrain(s, d, action);
    DrainStaysCalm(durable, s, d, action);
    match action {
      case List(entries) =>
        TurnStores(s, t, Ready(s.drains[0].user, entries));
        SilenceShrinks(durable, s, t);
      case Answer(answer) =>
        AnswerStaysCalm(durable, s, answer);
        TurnStores(s, t, AfterAnswer(s.drains[0], answer));
        SilenceShrinks(durable, s, t);
      case MarkIt =>
        MarkStores(durable, s);
        SilenceShrinks(durable, s, t);
      case Finish =>
        FinishStores(s);
        SilenceShrinks(durable, s, t);
      case _ =>
    }
  }

  lemma QuietStaysSilent(durable: Durable, s: State, t: State)
    requires Silent(durable, s) && Records(s, t) && t.session == None
    requires t.store == s.store && t.senders == s.senders && t.intercepted == s.intercepted && t.drains == s.drains
    ensures Silent(durable, t)
  {
    QuietStaysCalm(durable, s, t);
    QuietShrinks(durable, s, t);
    SilenceShrinks(durable, s, t);
  }

  lemma NextStaysSilent(durable: Durable, s: State, step: Step)
    requires Inv(durable, s) && Silent(durable, s) && NoSignIn(step)
    ensures Silent(durable, Next(durable, s, step))
  {
    if Enabled(durable, s, step) {
      match step {
        case OfSender(tid, action) => SenderStaysSilent(durable, s, tid, action);
        case StartDrain =>
        case OfDrain(d, action) => DrainStaysSilent(durable, s, d, action);
        case Prune(op) => PruneStaysSilent(durable, s, op);
        case _ =>
          NextRecords(durable, s, step);
          QuietStaysSilent(durable, s, Next(durable, s, step));
      }
    }
  }

  lemma PruneStaysSilent(durable: Durable, s: State, op: Operation)
    requires Silent(durable, s) && op in s.store && s.store[op].status == Synced
    ensures Silent(durable, s.(store := s.store - {op}))
  {
    PruneShrinks(durable, s, op);
    CalmShrinks(durable, s, s.(store := s.store - {op}));
    SilenceShrinks(durable, s, s.(store := s.store - {op}));
  }

  /** A silent step sends at most a request without a key. */
  lemma SilentSends(durable: Durable, s: State, step: Step, sent: nat)
    requires Inv(durable, s) && Silent(durable, s) && NoSignIn(step) && sent <= |s.sends| && !SentAfter(sent, s)
    ensures sent <= |Next(durable, s, step).sends| && !SentAfter(sent, Next(durable, s, step))
  {
    if Enabled(durable, s, step) {
      match step {
        case OfSender(tid, action) => SenderStaysSilent(durable, s, tid, action);
        case OfDrain(d, action) => DrainStaysSilent(durable, s, d, action);
        case _ =>
      }
    }
  }

  lemma {:induction false} SilentRun(durable: Durable, s: State, more: seq<Step>, sent: nat)
    requires Canonical(durable) && Inv(durable, s) && Silent(durable, s) && Allowed(NoSignIn, more)
    requires sent <= |s.sends| && !SentAfter(sent, s)
    ensures !SentAfter(sent, RunFrom(durable, s, more))
    decreases |more|
  {
    if more != [] {
      var t := Next(durable, s, more[0]);
      assert NoSignIn(more[0]);
      NextStaysSilent(durable, s, more[0]);
      SilentSends(durable, s, more[0], sent);
      NextKeeps(durable, s, more[0]);
      forall k | 0 <= k < |more[1..]| ensures NoSignIn(more[1..][k]) { assert more[1..][k] == more[k + 1]; }
      SilentRun(durable, t, more[1..], sent);
    }
  }
}
