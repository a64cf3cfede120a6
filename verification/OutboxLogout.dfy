/** After a logout: exactly when a run without a sign-in still sends a review, and exactly when it brings the
    session back.
 */
module OutboxLogout {
  import opened Basics
  import opened OutboxMachine
  import opened OutboxReach
  import opened OutboxSilence

  // ---------- somebody left ----------

  ghost predicate StillCan(durable: Durable, s: State, goal: State -> bool) { Can(durable, s, NoSignIn, goal) }

  lemma GoingOnIsNoSignIn()
    ensures AllowsGoingOn(NoSignIn)
  {
  }

  lemma Goes(durable: Durable, s: State, step: Step, goal: State -> bool) returns (t: State)
    requires Reachable(durable, s) && NoSignIn(step)
    ensures t == Next(durable, s, step) && Reachable(durable, t)
    ensures StillCan(durable, t, goal) ==> StillCan(durable, s, goal)
  {
    t := Next(durable, s, step);
    ReachNext(durable, s, step);
    if StillCan(durable, t, goal) { CanNext(durable, s, step, NoSignIn, goal); }
  }

  lemma Arrives(durable: Durable, s: State, step: Step, goal: State -> bool)
    requires NoSignIn(step) && goal(Next(durable, s, step))
    ensures StillCan(durable, s, goal)
  {
    CanNow(durable, Next(durable, s, step), NoSignIn, goal);
    CanNext(durable, s, step, NoSignIn, goal);
  }

  // an intercepted review comes to be queued

  /** The review is queued with the stored payload; a listing drain still lists. */
  ghost predicate QueuedFor(durable: Durable, s: State, t: State, tid: nat) {
    && tid in s.intercepted && tid in t.senders && WillSend(durable, t.senders[tid])
    && t.senders[tid].op == s.intercepted[tid].op && t.senders[tid].op in t.store
    && |s.sends| <= |t.sends| && (forall d :: 0 <= d < |s.drains| && s.drains[d].Listing? ==> d < |t.drains| && t.drains[d] == s.drains[d])
  }

  lemma StoreIntercepted(durable: Durable, s: State, tid: nat, goal: State -> bool) returns (t: State)
    requires Canonical(durable) && Reachable(durable, s) && tid in s.intercepted
    requires var i := s.intercepted[tid]; i.op !in s.store || s.store[i.op].body == i.body
    ensures Reachable(durable, t) && QueuedFor(durable, s, t, tid) && (StillCan(durable, t, goal) ==> StillCan(durable, s, goal))
  {
    var i := s.intercepted[tid];
    var key := FreshKey(s.issued);
    ReachableIsGood(durable, s);
    assert Keeps(durable, i.raw, i.body);
    t := Goes(durable, s, OfSender(tid, Enqueue(key)), goal);
    assert t == Enqueued(Released(s, tid), tid, i, key);
  }

  lemma StoreAfterPrune(durable: Durable, s: State, tid: nat, goal: State -> bool) returns (t: State)
    requires Canonical(durable) && Reachable(durable, s) && tid in s.intercepted
    requires var op := s.intercepted[tid].op; op in s.store && s.store[op].status == Synced
    ensures Reachable(durable, t) && QueuedFor(durable, s, t, tid) && (StillCan(durable, t, goal) ==> StillCan(durable, s, goal))
  {
    var p := Goes(durable, s, Prune(s.intercepted[tid].op), goal);
    t := StoreIntercepted(durable, p, tid, goal);
  }

  /** A review becomes synced; whoever is intercepted stays so, and a listing drain still lists. */
  ghost predicate SyncedFor(s: State, t: State, op: Operation) {
    && op in t.store && t.store[op].status == Synced && t.intercepted == s.intercepted && |s.sends| <= |t.sends|
    && (forall d :: 0 <= d < |s.drains| && s.drains[d].Listing? ==> d < |t.drains| && t.drains[d] == s.drains[d])
  }

  lemma AnsweredSyncs(durable: Durable, s: State, tid: nat, goal: State -> bool) returns (t: State)
    requires Reachable(durable, s) && tid in s.senders && s.senders[tid].Answered? && s.senders[tid].op in s.store
    requires StatusFor(s.senders[tid].answer) == Some(Synced)
    ensures Reachable(durable, t) && SyncedFor(s, t, s.senders[tid].op) && (StillCan(durable, t, goal) ==> StillCan(durable, s, goal))
  {
    t := Goes(durable, s, OfSender(tid, Update), goal);
    assert t == Updated(s, tid);
  }

  lemma SenderSyncing(durable: Durable, s: State, tid: nat, goal: State -> bool) returns (t: State)
    requires Canonical(durable) && Reachable(durable, s) && tid in s.senders && WillSync(s, s.senders[tid]) && s.senders[tid].op in s.store
    ensures Reachable(durable, t) && SyncedFor(s, t, s.senders[tid].op) && (StillCan(durable, t, goal) ==> StillCan(durable, s, goal))
  {
    GoingOnIsNoSignIn();
    if s.senders[tid].Waiting? {
      var u := AnswerSender(durable, s, tid, Got(200), NoSignIn, goal);
      t := AnsweredSyncs(durable, u, tid, goal);
    } else {
      t := AnsweredSyncs(durable, s, tid, goal);
    }
  }

  lemma HeadSyncing(durable: Durable, s: State, d: nat, op: Operation, goal: State -> bool) returns (t: State)
    requires Canonical(durable) && Reachable(durable, s) && d < |s.drains| && HeadWillSync(s, s.drains[d], op) && op in s.store
    ensures Reachable(durable, t) && SyncedFor(s, t, op) && (StillCan(durable, t, goal) ==> StillCan(durable, s, goal))
  {
    GoingOnIsNoSignIn();
    DrainIs(durable, s, d);
    var u := s;
    if s.drains[d].Second? { u := AnswerHead(durable, s, d, 200, NoSignIn, goal); }
    t := MarkHead(durable, u, d, NoSignIn, goal);
  }

  lemma Queueing(durable: Durable, s: State, tid: nat, goal: State -> bool) returns (t: State)
    requires Canonical(durable) && Reachable(durable, s) && tid in s.intercepted && WillStore(s, s.intercepted[tid])
    ensures Reachable(durable, t) && QueuedFor(durable, s, t, tid) && (StillCan(durable, t, goal) ==> StillCan(durable, s, goal))
  {
    var i := s.intercepted[tid];
    if i.op !in s.store || s.store[i.op].body == i.body {
      t := StoreIntercepted(durable, s, tid, goal);
    } else if s.store[i.op].status == Synced {
      t := StoreAfterPrune(durable, s, tid, goal);
    } else if other :| other in s.senders && s.senders[other].op == i.op && WillSync(s, s.senders[other]) {
      var u := SenderSyncing(durable, s, other, goal);
      t := StoreAfterPrune(durable, u, tid, goal);
    } else {
      var d :| 0 <= d < |s.drains| && HeadWillSync(s, s.drains[d], i.op);
      var u := HeadSyncing(durable, s, d, i.op, goal);
      t := StoreAfterPrune(durable, u, tid, goal);
    }
  }

  // a drain comes to a record

  /** A drain can come to hold a record to send. */
  lemma ListPending(durable: Durable, s: State, d: nat, op: Operation, goal: State -> bool) returns (t: State)
    requires Reachable(durable, s) && d < |s.drains| && s.drains[d].Listing?
    requires op in s.store && op.user == s.drains[d].user && s.store[op].status == Pending
    ensures Reachable(durable, t) && d < |t.drains| && t.drains[d].Ready? && t.drains[d].rest != [] && |s.sends| <= |t.sends|
    ensures StillCan(durable, t, goal) ==> StillCan(durable, s, goal)
  {
    var entries := PendingListing(s, s.drains[d].user);
    assert Entry(op, s.store[op]) in entries;
    t := Goes(durable, s, OfDrain(d, List(entries)), goal);
  }

  lemma PendAnswered(durable: Durable, s: State, d: nat, tid: nat, goal: State -> bool) returns (t: State)
    requires Reachable(durable, s) && d < |s.drains| && s.drains[d].Listing?
    requires tid in s.senders && s.senders[tid].op in s.store && s.senders[tid].op.user == s.drains[d].user
    requires s.senders[tid].Answered? && StatusFor(s.senders[tid].answer) == Some(Pending)
    ensures Reachable(durable, t) && d < |t.drains| && t.drains[d].Ready? && t.drains[d].rest != [] && |s.sends| <= |t.sends|
    ensures StillCan(durable, t, goal) ==> StillCan(durable, s, goal)
  {
    var u := Goes(durable, s, OfSender(tid, Update), goal);
    assert u == Updated(s, tid);
    t := ListPending(durable, u, d, s.senders[tid].op, goal);
  }

  lemma PendSent(durable: Durable, s: State, d: nat, tid: nat, goal: State -> bool) returns (t: State)
    requires Canonical(durable) && Reachable(durable, s) && d < |s.drains| && s.drains[d].Listing?
    requires tid in s.senders && s.senders[tid].op in s.store && s.senders[tid].op.user == s.drains[d].user && WillPend(s.senders[tid])
    ensures Reachable(durable, t) && d < |t.drains| && t.drains[d].Ready? && t.drains[d].rest != [] && |s.sends| <= |t.sends|
    ensures StillCan(durable, t, goal) ==> StillCan(durable, s, goal)
  {
    if s.senders[tid].Waiting? {
      GoingOnIsNoSignIn();
      var u := AnswerSender(durable, s, tid, OutboxMachine.Lost, NoSignIn, goal);
      t := PendAnswered(durable, u, d, tid, goal);
    } else {
      t := PendAnswered(durable, s, d, tid, goal);
    }
  }

  lemma PendQueued(durable: Durable, s: State, d: nat, tid: nat, goal: State -> bool) returns (t: State)
    requires Canonical(durable) && Reachable(durable, s) && d < |s.drains| && s.drains[d].Listing?
    requires tid in s.senders && s.senders[tid].op in s.store && s.senders[tid].op.user == s.drains[d].user && WillSend(durable, s.senders[tid])
    ensures Reachable(durable, t) && d < |t.drains| && t.drains[d].Ready? && t.drains[d].rest != [] && |s.sends| <= |t.sends|
    ensures StillCan(durable, t, goal) ==> StillCan(durable, s, goal)
  {
    var u := Goes(durable, s, OfSender(tid, Decide(true)), goal);
    assert u == Sent(s, tid);
    t := PendSent(durable, u, d, tid, goal);
  }

  lemma ListingGetsReady(durable: Durable, s: State, d: nat, op: Operation, goal: State -> bool) returns (t: State)
    requires Canonical(durable) && Reachable(durable, s) && d < |s.drains| && s.drains[d].Listing?
    requires op.user == s.drains[d].user && MayPend(durable, s, op)
    ensures Reachable(durable, t) && d < |t.drains| && t.drains[d].Ready? && t.drains[d].rest != [] && |s.sends| <= |t.sends|
    ensures StillCan(durable, t, goal) ==> StillCan(durable, s, goal)
  {
    if op in s.store && s.store[op].status == Pending {
      t := ListPending(durable, s, d, op, goal);
    } else if op in s.store && SenderPends(durable, s, op) {
      var tid :| tid in s.senders && s.senders[tid].op == op && (WillPend(s.senders[tid]) || WillSend(durable, s.senders[tid]));
      if WillPend(s.senders[tid]) { t := PendSent(durable, s, d, tid, goal); } else { t := PendQueued(durable, s, d, tid, goal); }
    } else {
      var tid :| tid in s.intercepted && s.intercepted[tid].op == op && WillStore(s, s.intercepted[tid]);
      var u := Queueing(durable, s, tid, goal);
      t := PendQueued(durable, u, d, tid, goal);
    }
  }

  /** A drain that goes on comes to a request for a session over a record it has at hand. */
  lemma ComesToRefresh(durable: Durable, s: State, d: nat, goal: State -> bool) returns (t: State)
    requires Canonical(durable) && Reachable(durable, s) && d < |s.drains| && DrainGoesOn(durable, s, s.drains[d])
    ensures Reachable(durable, t) && d < |t.drains| && t.drains[d].Refreshing? && t.drains[d].rest != [] && |s.sends| <= |t.sends|
    ensures StillCan(durable, t, goal) ==> StillCan(durable, s, goal)
  {
    GoingOnIsNoSignIn();
    DrainIs(durable, s, d);
    match s.drains[d] {
      case Listing(user) =>
        var op: Operation :| op.user == user && MayPend(durable, s, op);
        var u := ListingGetsReady(durable, s, d, op, goal);
        t := ReadyRefreshes(durable, u, d, goal);
      case Ready(_, _) => t := ReadyRefreshes(durable, s, d, goal);
      case First(_, _) => t := FirstRefreshes(durable, s, d, goal);
      case Second(_, _) =>
        var u := AnswerHead(durable, s, d, 200, NoSignIn, goal);
        t := MarkingRefreshes(durable, u, d, goal);
      case Marking(_, _, _) => t := MarkingRefreshes(durable, s, d, goal);
      case _ => t := s;
    }
  }

  lemma FirstRefreshes(durable: Durable, s: State, d: nat, goal: State -> bool) returns (t: State)
    requires Reachable(durable, s) && d < |s.drains| && s.drains[d].First? && s.drains[d].rest != []
    ensures Reachable(durable, t) && d < |t.drains| && t.drains[d].Refreshing? && t.drains[d].rest != [] && |s.sends| <= |t.sends|
    ensures StillCan(durable, t, goal) ==> StillCan(durable, s, goal)
  {
    t := Goes(durable, s, OfDrain(d, Answer(Got(401))), goal);
    assert t == DrainHeard(s, d, Got(401));
  }

  lemma ReadyRefreshes(durable: Durable, s: State, d: nat, goal: State -> bool) returns (t: State)
    requires Reachable(durable, s) && d < |s.drains| && s.drains[d].Ready? && s.drains[d].rest != []
    ensures Reachable(durable, t) && d < |t.drains| && t.drains[d].Refreshing? && t.drains[d].rest != [] && |s.sends| <= |t.sends|
    ensures StillCan(durable, t, goal) ==> StillCan(durable, s, goal)
  {
    var u := Goes(durable, s, OfDrain(d, SendFirst), goal);
    assert u == DrainSent(s, d, First(s.drains[d].user, s.drains[d].rest));
    t := FirstRefreshes(durable, u, d, goal);
  }

  lemma MarkingRefreshes(durable: Durable, s: State, d: nat, goal: State -> bool) returns (t: State)
    requires Canonical(durable) && Reachable(durable, s) && d < |s.drains|
    requires s.drains[d].Marking? && s.drains[d].mark == MarkSynced && |s.drains[d].rest| > 1
    ensures Reachable(durable, t) && d < |t.drains| && t.drains[d].Refreshing? && t.drains[d].rest != [] && |s.sends| <= |t.sends|
    ensures StillCan(durable, t, goal) ==> StillCan(durable, s, goal)
  {
    GoingOnIsNoSignIn();
    var u := MarkHead(durable, s, d, NoSignIn, goal);
    t := ReadyRefreshes(durable, u, d, goal);
  }

  /** The refresh brings the drain's user back, and the record goes out again. */
  lemma RefreshReturns(durable: Durable, s: State, d: nat, sent: nat)
    requires Canonical(durable) && Reachable(durable, s) && d < |s.drains| && s.drains[d].Refreshing? && s.drains[d].rest != [] && sent <= |s.sends|
    ensures var t := Next(durable, s, OfDrain(d, Refresh(Some(s.drains[d].user)))); t.session.Some? && SentAfter(sent, t)
  {
    var drain := s.drains[d];
    DrainIs(durable, s, d);
    assert drain.rest[0].op.user == drain.user;
    var t := Next(durable, s, OfDrain(d, Refresh(Some(drain.user))));
    assert t == DrainSent(s, d, Second(drain.user, drain.rest)).(session := Some(drain.user));
    assert t.sends[|s.sends|].key.Some?;
  }

  lemma DrainCan(durable: Durable, s: State, d: nat, sent: nat, goal: State -> bool)
    requires Canonical(durable) && Reachable(durable, s) && d < |s.drains| && DrainGoesOn(durable, s, s.drains[d]) && sent <= |s.sends|
    requires forall t: State :: t.session.Some? && SentAfter(sent, t) ==> goal(t)
    ensures StillCan(durable, s, goal)
  {
    var u := ComesToRefresh(durable, s, d, goal);
    RefreshReturns(durable, u, d, sent);
    Arrives(durable, u, OfDrain(d, Refresh(Some(u.drains[d].user))), goal);
  }

  // ---------- exactly when a review is sent ----------

  ghost function Sending(sent: nat): State -> bool { (t: State) => SentAfter(sent, t) }

  lemma QueuedCan(durable: Durable, s: State, tid: nat, sent: nat)
    requires tid in s.senders && WillSend(durable, s.senders[tid]) && sent <= |s.sends|
    ensures StillCan(durable, s, Sending(sent))
  {
    var step := OfSender(tid, Decide(true));
    var t := Next(durable, s, step);
    assert t == Sent(s, tid) && t.sends[|s.sends|].key.Some?;
    Arrives(durable, s, step, Sending(sent));
  }

  lemma StillSendsCan(durable: Durable, s: State, sent: nat)
    requires Canonical(durable) && Reachable(durable, s) && StillSends(durable, s) && sent <= |s.sends|
    ensures StillCan(durable, s, Sending(sent))
  {
    if tid :| tid in s.senders && WillSend(durable, s.senders[tid]) {
      QueuedCan(durable, s, tid, sent);
    } else if tid :| tid in s.intercepted && WillStore(s, s.intercepted[tid]) {
      var u := Queueing(durable, s, tid, Sending(sent));
      QueuedCan(durable, u, tid, sent);
    } else {
      var d :| 0 <= d < |s.drains| && DrainGoesOn(durable, s, s.drains[d]);
      DrainCan(durable, s, d, sent, Sending(sent));
    }
  }

  /** After a logout, a run without a sign-in still sends a review if and only if someone has a request left
      to make: a queued review of the stored payload, an intercepted one that can be stored, or a drain with
      a record before it, at hand, or waiting for a refreshed session. */
  lemma SendsAfterLogoutIff(durable: Durable, steps: seq<Step>)
    requires Canonical(durable)
    ensures var s := Run(durable, steps);
            var out := Next(durable, s, SetSession(None));
            StillSends(durable, s)
            <==> exists more: seq<Step> :: Allowed(NoSignIn, more) && SentAfter(|out.sends|, RunFrom(durable, out, more))
  {
    var s := Run(durable, steps);
    var out := Next(durable, s, SetSession(None));
    ReachNext(durable, s, SetSession(None));
    SameAfterLogout(durable, s, out);
    if StillSends(durable, s) {
      StillSendsCan(durable, out, |out.sends|);
      var more: seq<Step> :| Allowed(NoSignIn, more) && Sending(|out.sends|)(RunFrom(durable, out, more));
      assert SentAfter(|out.sends|, RunFrom(durable, out, more));
    } else {
      ReachableIsGood(durable, out);
      forall more: seq<Step> | Allowed(NoSignIn, more) ensures !SentAfter(|out.sends|, RunFrom(durable, out, more)) {
        SilentRun(durable, out, more, |out.sends|);
      }
    }
  }

  // ---------- exactly when a logout is undone ----------

  ghost function Back(): State -> bool { (t: State) => t.session.Some? }

  /** After a logout, a run without a sign-in has a session again if and only if a drain has a record left to
      send, at hand or waiting for a refreshed session. */
  lemma LogoutUndoneIff(durable: Durable, steps: seq<Step>)
    requires Canonical(durable)
    ensures var s := Run(durable, steps);
            var out := Next(durable, s, SetSession(None));
            SomeDrainGoesOn(durable, s)
            <==> exists more: seq<Step> :: Allowed(NoSignIn, more) && RunFrom(durable, out, more).session.Some?
  {
    var s := Run(durable, steps);
    var out := Next(durable, s, SetSession(None));
    ReachNext(durable, s, SetSession(None));
    SameAfterLogout(durable, s, out);
    if SomeDrainGoesOn(durable, s) {
      var d :| 0 <= d < |out.drains| && DrainGoesOn(durable, out, out.drains[d]);
      DrainCan(durable, out, d, 0, Back());
      var more: seq<Step> :| Allowed(NoSignIn, more) && Back()(RunFrom(durable, out, more));
    } else {
      ReachableIsGood(durable, out);
      forall more: seq<Step> | Allowed(NoSignIn, more) ensures RunFrom(durable, out, more).session == None {
        CalmRun(durable, out, more);
      }
    }
  }

  lemma DrainSameAfterLogout(durable: Durable, s: State, t: State)
    requires t == s.(session := t.session) && SomeDrainGoesOn(durable, s)
    ensures SomeDrainGoesOn(durable, t)
  {
    var d :| 0 <= d < |s.drains| && DrainGoesOn(durable, s, s.drains[d]);
    if s.drains[d].Listing? {
      var op: Operation :| op.user == s.drains[d].user && MayPend(durable, s, op);
      QuietShrinks(durable, t, s);
      assert MayPend(durable, t, op);
    }
    assert DrainGoesOn(durable, t, t.drains[d]);
  }

  lemma SameAfterLogout(durable: Durable, s: State, out: State)
    requires out == s.(session := None)
    ensures StillSends(durable, out) <==> StillSends(durable, s)
    ensures SomeDrainGoesOn(durable, out) <==> SomeDrainGoesOn(durable, s)
  {
    QuietShrinks(durable, s, out);
    QuietShrinks(durable, out, s);
    if SomeDrainGoesOn(durable, s) { DrainSameAfterLogout(durable, s, out); }
    if SomeDrainGoesOn(durable, out) { DrainSameAfterLogout(durable, out, s); }
  }
}
