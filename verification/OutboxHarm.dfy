/** The harm a prune can do: a record of the operation that is still at work marks the review stored anew. */
module OutboxHarm {
  import opened Basics
  import opened OutboxMachine
  import opened OutboxReach
  import opened OutboxPruning

  ghost function NoPruneOf(op: Operation): Step -> bool { step => step != Prune(op) }

  // ---------- nobody left: no harm ----------

  lemma {:induction false} RunStaysTrue(durable: Durable, s: State, more: seq<Step>, op: Operation, v: Status)
    requires Canonical(durable) && Inv(durable, s) && TrueTo(durable, s, op, v) && Allowed(NoPruneOf(op), more) && v != Pending
    ensures TrueTo(durable, RunFrom(durable, s, more), op, v)
    decreases |more|
  {
    if more != [] {
      assert NoPruneOf(op)(more[0]);
      NextStaysTrue(durable, s, more[0], op, v);
      NextKeeps(durable, s, more[0]);
      forall k | 0 <= k < |more[1..]| ensures NoPruneOf(op)(more[1..][k]) { assert more[1..][k] == more[k + 1]; }
      RunStaysTrue(durable, Next(durable, s, more[0]), more[1..], op, v);
    }
  }

  // ---------- somebody left: the review stored anew ----------

  /** Nothing was received or accepted under the key. */
  predicate Untouched(s: State, key: Key) { key !in s.accepted && forall r :: r in s.receipts ==> r.key != key }

  /** The review is stored with a payload and under a key nothing is known of. */
  predicate Anew(s: State, op: Operation, anew: Record) { Current(s.store, op, anew) && Untouched(s, anew.key) }

  /** And yet it is marked. */
  ghost function Harmed(op: Operation, anew: Record, v: Status): State -> bool {
    (t: State) => Anew(t, op, anew) && t.store[op].status == v
  }

  ghost predicate CanHarm(durable: Durable, s: State, op: Operation, anew: Record, v: Status) {
    Can(durable, s, NoPruneOf(op), Harmed(op, anew, v))
  }

  lemma GoingOnPrunesNothing(op: Operation)
    ensures AllowsGoingOn(NoPruneOf(op))
  {
  }

  function CodeFor(v: Status): int { if v == Synced then 200 else 400 }

  lemma AnsweredHarms(durable: Durable, s: State, tid: nat, op: Operation, anew: Record, v: Status)
    requires Anew(s, op, anew) && tid in s.senders && s.senders[tid].op == op
    requires s.senders[tid].Answered? && StatusFor(s.senders[tid].answer) == Some(v)
    ensures CanHarm(durable, s, op, anew, v)
  {
    var step := OfSender(tid, Update);
    var t := Next(durable, s, step);
    assert t == Updated(s, tid);
    CanNow(durable, t, NoPruneOf(op), Harmed(op, anew, v));
    CanNext(durable, s, step, NoPruneOf(op), Harmed(op, anew, v));
  }

  lemma OtherKeyStaysAnew(s: State, t: State, otherOp: Operation, other: Key, op: Operation, anew: Record)
    requires Anew(s, op, anew) && OnlyKey(s, t, otherOp, other) && other != anew.key
    ensures Anew(t, op, anew)
  {
  }

  lemma WaitingHarms(durable: Durable, s: State, tid: nat, op: Operation, anew: Record, v: Status)
    requires Canonical(durable) && Reachable(durable, s) && Anew(s, op, anew) && v != Pending
    requires tid in s.senders && s.senders[tid].op == op && s.senders[tid].Waiting? && s.senders[tid].record.key != anew.key
    requires v == Synced ==> Acceptable(s, op, s.senders[tid].record.body)
    ensures CanHarm(durable, s, op, anew, v)
  {
    GoingOnPrunesNothing(op);
    var t := AnswerSender(durable, s, tid, Got(CodeFor(v)), NoPruneOf(op), Harmed(op, anew, v));
    OtherKeyStaysAnew(s, t, op, s.senders[tid].record.key, op, anew);
    AnsweredHarms(durable, t, tid, op, anew, v);
  }

  lemma SenderHarms(durable: Durable, s: State, tid: nat, op: Operation, anew: Record, v: Status)
    requires Canonical(durable) && Reachable(durable, s) && Anew(s, op, anew) && v != Pending
    requires tid in s.senders && s.senders[tid].op == op && SenderMarks(durable, s, s.senders[tid], v) && s.senders[tid].record.key != anew.key
    ensures CanHarm(durable, s, op, anew, v)
  {
    if s.senders[tid].Queued? {
      var step := OfSender(tid, Decide(true));
      ReachNext(durable, s, step);
      assert Next(durable, s, step) == Sent(s, tid);
      WaitingHarms(durable, Next(durable, s, step), tid, op, anew, v);
      CanNext(durable, s, step, NoPruneOf(op), Harmed(op, anew, v));
    } else if s.senders[tid].Waiting? {
      WaitingHarms(durable, s, tid, op, anew, v);
    } else {
      AnsweredHarms(durable, s, tid, op, anew, v);
    }
  }

  ghost predicate OtherKeys(entries: seq<Entry>, key: Key) { forall k :: 0 <= k < |entries| ==> entries[k].record.key != key }

  lemma MarkHarms(durable: Durable, s: State, d: nat, op: Operation, anew: Record, v: Status)
    requires Canonical(durable) && Reachable(durable, s) && Anew(s, op, anew) && d < |s.drains|
    requires s.drains[d].Marking? && s.drains[d].rest != [] && s.drains[d].rest[0].op == op && MarkStatus(s.drains[d].mark) == v
    ensures CanHarm(durable, s, op, anew, v)
  {
    GoingOnPrunesNothing(op);
    var t := MarkHead(durable, s, d, NoPruneOf(op), Harmed(op, anew, v));
    CanNow(durable, t, NoPruneOf(op), Harmed(op, anew, v));
  }

  lemma MarkForCode(v: Status)
    requires v != Pending
    ensures MarkStatus(MarkFor(CodeFor(v))) == v
  {
  }

  /** A drain that sends goes on, accepted, until it comes to the review. */
  lemma {:induction false} SendingHarms(durable: Durable, s: State, d: nat, op: Operation, anew: Record, v: Status)
    requires Canonical(durable) && Reachable(durable, s) && Anew(s, op, anew) && d < |s.drains| && v != Pending
    requires Sends(s.drains[d]) && Reaches(s, s.drains[d].rest, op, v == Synced) && OtherKeys(s.drains[d].rest, anew.key)
    ensures CanHarm(durable, s, op, anew, v)
    decreases |s.drains[d].rest|, 1
  {
    GoingOnPrunesNothing(op);
    DrainIs(durable, s, d);
    var rest := s.drains[d].rest;
    if rest[0].op == op {
      ReachedHead(durable, s, s.drains[d].user, rest, op, v == Synced);
      var t := AnswerHead(durable, s, d, CodeFor(v), NoPruneOf(op), Harmed(op, anew, v));
      OtherKeyStaysAnew(s, t, rest[0].op, rest[0].record.key, op, anew);
      MarkForCode(v);
      MarkHarms(durable, t, d, op, anew, v);
    } else {
      HeadBefore(s, rest, op, v == Synced);
      var t := AnswerHead(durable, s, d, 200, NoPruneOf(op), Harmed(op, anew, v));
      OtherKeyStaysAnew(s, t, rest[0].op, rest[0].record.key, op, anew);
      RestStaysReachable(durable, s, t, s.drains[d].user, rest, op, v == Synced);
      AcceptedHarms(durable, t, d, op, anew, v);
    }
  }

  lemma {:induction false} AcceptedHarms(durable: Durable, s: State, d: nat, op: Operation, anew: Record, v: Status)
    requires Canonical(durable) && Reachable(durable, s) && Anew(s, op, anew) && d < |s.drains| && v != Pending
    requires s.drains[d].Marking? && s.drains[d].mark == MarkSynced && s.drains[d].rest != []
    requires Reaches(s, s.drains[d].rest[1..], op, v == Synced) && OtherKeys(s.drains[d].rest, anew.key)
    ensures CanHarm(durable, s, op, anew, v)
    decreases |s.drains[d].rest|, 0
  {
    GoingOnPrunesNothing(op);
    var t := MarkHead(durable, s, d, NoPruneOf(op), Harmed(op, anew, v));
    var rest := s.drains[d].rest;
    forall k | 0 <= k < |rest[1..]| ensures rest[1..][k].record.key != anew.key { assert rest[1..][k] == rest[k + 1]; }
    ReachesBefore(t, s, rest[1..], op, v == Synced);
    SendingHarms(durable, t, d, op, anew, v);
  }

  lemma DrainHarms(durable: Durable, s: State, d: nat, op: Operation, anew: Record, v: Status)
    requires Canonical(durable) && Reachable(durable, s) && Anew(s, op, anew) && d < |s.drains| && v != Pending
    requires DrainMarks(s, s.drains[d], op, v) && OtherKeys(s.drains[d].rest, anew.key)
    ensures CanHarm(durable, s, op, anew, v)
  {
    var drain := s.drains[d];
    if drain.Marking? {
      if drain.rest[0].op == op && MarkStatus(drain.mark) == v {
        MarkHarms(durable, s, d, op, anew, v);
      } else {
        AcceptedHarms(durable, s, d, op, anew, v);
      }
    } else if drain.Refreshing? {
      var t := RefreshHead(durable, s, d, NoPruneOf(op), Harmed(op, anew, v));
      ReachesBefore(t, s, drain.rest, op, v == Synced);
      SendingHarms(durable, t, d, op, anew, v);
    } else {
      SendingHarms(durable, s, d, op, anew, v);
    }
  }

  // ---------- the prune and the new copy ----------

  /** After a prune the same user can store the review again, with any payload and under any fresh key;
      nobody else notices. */
  lemma StoredAgain(durable: Durable, s: State, op: Operation, body: Body, tid: nat, key: Key, goal: State -> bool) returns (q: State)
    requires Canonical(durable) && Reachable(durable, s) && op !in s.store && Keeps(durable, body, body)
    requires key !in s.issued && tid !in s.senders && tid !in s.intercepted
    ensures Reachable(durable, q) && Anew(q, op, Record(key, body, Pending, 0)) && q.drains == s.drains && q.events == s.events
    ensures q.issued == s.issued[key := (op, body)]
    ensures forall other :: other in s.senders ==> other in q.senders && q.senders[other] == s.senders[other]
    ensures Can(durable, q, NoPruneOf(op), goal) ==> Can(durable, s, NoPruneOf(op), goal)
  {
    var first, second, third := SetSession(Some(op.user)), OfSender(tid, Intercept(op, body)), OfSender(tid, Enqueue(key));
    var a := Next(durable, s, first);
    ReachNext(durable, s, first);
    var b := Next(durable, a, second);
    ReachNext(durable, a, second);
    assert b == Caught(a, tid, op, body, body);
    q := Next(durable, b, third);
    ReachNext(durable, b, third);
    assert q == Created(Released(b, tid), tid, op, body, Record(key, body, Pending, 0));
    KeyUntouched(durable, s, key);
    if Can(durable, q, NoPruneOf(op), goal) {
      CanNext(durable, b, third, NoPruneOf(op), goal);
      CanNext(durable, a, second, NoPruneOf(op), goal);
      CanNext(durable, s, first, NoPruneOf(op), goal);
    }
  }

  lemma KeyUntouched(durable: Durable, s: State, key: Key)
    requires Canonical(durable) && Reachable(durable, s) && key !in s.issued
    ensures Untouched(s, key)
  {
    ReachableIsGood(durable, s);
  }

  /** What is at work has old keys. */
  lemma OldKeys(durable: Durable, s: State, key: Key)
    requires Canonical(durable) && Reachable(durable, s) && key !in s.issued
    ensures forall tid :: tid in s.senders ==> s.senders[tid].record.key != key
    ensures forall d :: 0 <= d < |s.drains| && !s.drains[d].Listing? && !s.drains[d].Finishing? ==> OtherKeys(s.drains[d].rest, key)
  {
    ReachableIsGood(durable, s);
    forall tid | tid in s.senders ensures s.senders[tid].record.key != key { assert SenderOk(durable, s, s.senders[tid]); }
    forall d | 0 <= d < |s.drains| && !s.drains[d].Listing? && !s.drains[d].Finishing? ensures OtherKeys(s.drains[d].rest, key) {
      assert DrainOk(durable, s, s.drains[d]);
    }
  }

  lemma SameDrainMarks(s: State, q: State, drain: Drain, op: Operation, v: Status)
    requires q.events == s.events && DrainMarks(s, drain, op, v)
    ensures DrainMarks(q, drain, op, v)
  {
    match drain {
      case Listing(_) =>
      case Finishing(_) =>
      case Marking(_, rest, mark) => if mark == MarkSynced && Reaches(s, rest[1..], op, v == Synced) { ReachesBefore(q, s, rest[1..], op, v == Synced); }
      case _ => ReachesBefore(q, s, drain.rest, op, v == Synced);
    }
  }

  lemma MarkedAnew(durable: Durable, s: State, q: State, op: Operation, anew: Record, v: Status)
    requires Canonical(durable) && Reachable(durable, q) && Anew(q, op, anew) && v != Pending && CanMark(durable, s, op, v)
    requires q.drains == s.drains && forall tid :: tid in s.senders ==> tid in q.senders && q.senders[tid] == s.senders[tid]
    requires q.events == s.events
    requires forall tid :: tid in s.senders ==> s.senders[tid].record.key != anew.key
    requires forall d :: 0 <= d < |s.drains| && !s.drains[d].Listing? && !s.drains[d].Finishing? ==> OtherKeys(s.drains[d].rest, anew.key)
    ensures CanHarm(durable, q, op, anew, v)
  {
    if tid :| tid in s.senders && s.senders[tid].op == op && SenderMarks(durable, s, s.senders[tid], v) {
      SenderHarms(durable, q, tid, op, anew, v);
    } else {
      var d :| 0 <= d < |s.drains| && DrainMarks(s, s.drains[d], op, v);
      SameDrainMarks(s, q, s.drains[d], op, v);
      DrainHarms(durable, q, d, op, anew, v);
    }
  }

  lemma PruneCanHarm(durable: Durable, s: State, op: Operation, body: Body, v: Status) returns (anew: Record)
    requires Canonical(durable) && Reachable(durable, s) && op in s.store && s.store[op].status == Synced && v != Pending
    requires CanMark(durable, s, op, v) && Keeps(durable, body, body)
    ensures anew.body == body && CanHarm(durable, Next(durable, s, Prune(op)), op, anew, v)
  {
    var key := FreshKey(s.issued);
    anew := Record(key, body, Pending, 0);
    var tid := AboveAll(s.senders.Keys + s.intercepted.Keys);
    assert tid !in s.senders && tid !in s.intercepted by {
      assert tid in s.senders.Keys + s.intercepted.Keys ==> tid < tid;
    }
    var p := Next(durable, s, Prune(op));
    ReachNext(durable, s, Prune(op));
    OldKeys(durable, s, key);
    var q := StoredAgain(durable, p, op, body, tid, key, Harmed(op, anew, v));
    MarkedAnew(durable, s, q, op, anew, v);
  }

  // ---------- exactly when ----------

  /** Pruning a synced review leads, without another prune of it, to a synced or failed mark with no response
      of that kind for the stored key if and only if someone can still make that mark. */
  lemma PruneHarmsIff(durable: Durable, steps: seq<Step>, op: Operation, v: Status)
    requires Canonical(durable) && v != Pending
    requires op in Run(durable, steps).store && Run(durable, steps).store[op].status == Synced
    ensures var s := Run(durable, steps);
            CanMark(durable, s, op, v)
            <==> exists more: seq<Step> :: Allowed(NoPruneOf(op), more)
                   && Unfounded(RunFrom(durable, Next(durable, s, Prune(op)), more), op, v)
  {
    var s := Run(durable, steps);
    var p := Next(durable, s, Prune(op));
    if CanMark(durable, s, op, v) {
      StoredIsCanonical(durable, s, op);
      var anew := PruneCanHarm(durable, s, op, s.store[op].body, v);
      var more: seq<Step> :| Allowed(NoPruneOf(op), more) && Harmed(op, anew, v)(RunFrom(durable, p, more));
      assert Unfounded(RunFrom(durable, p, more), op, v);
    } else {
      HarmlessStays(durable, steps, op, v);
    }
  }

  lemma StoredIsCanonical(durable: Durable, s: State, op: Operation)
    requires Canonical(durable) && Reachable(durable, s) && op in s.store
    ensures Keeps(durable, s.store[op].body, s.store[op].body)
  {
    ReachableIsGood(durable, s);
    assert RecordOk(s, op, s.store[op]);
  }

  lemma HarmlessStays(durable: Durable, steps: seq<Step>, op: Operation, v: Status)
    requires Canonical(durable) && v != Pending
    requires op in Run(durable, steps).store && Run(durable, steps).store[op].status == Synced && !CanMark(durable, Run(durable, steps), op, v)
    ensures forall more: seq<Step> :: Allowed(NoPruneOf(op), more) ==>
              TrueTo(durable, RunFrom(durable, Next(durable, Run(durable, steps), Prune(op)), more), op, v)
              && Inv(durable, RunFrom(durable, Next(durable, Run(durable, steps), Prune(op)), more))
  {
    var s := Run(durable, steps);
    var p := Next(durable, s, Prune(op));
    RunKeeps(durable, steps);
    NextKeeps(durable, s, Prune(op));
    PruneStaysTrue(durable, s, op, v);
    forall more: seq<Step> | Allowed(NoPruneOf(op), more)
      ensures TrueTo(durable, RunFrom(durable, p, more), op, v) && Inv(durable, RunFrom(durable, p, more))
    {
      RunStaysTrue(durable, p, more, op, v);
      RunFromKeeps(durable, p, more);
    }
  }

  // ---------- an answer the user takes for saved ----------

  /** Stored as synced, while the server has recorded another answer of the review, or none. */
  predicate AnswerLost(s: State, op: Operation) {
    op in s.store && s.store[op].status == Synced && (op in s.events ==> s.events[op] != s.store[op].body)
  }

  /** There is a valid payload besides the one the server recorded. */
  ghost predicate AnotherAnswer(durable: Durable, s: State, op: Operation) {
    exists raw :: durable(raw).Some? && (op in s.events ==> durable(raw).value != s.events[op])
  }

  lemma SyncedIsRecorded(durable: Durable, s: State, op: Operation)
    requires Canonical(durable) && Reachable(durable, s) && op in s.store && s.store[op].status == Synced
    ensures op in s.events
  {
    ReachableIsGood(durable, s);
    assert RecordOk(s, op, s.store[op]);
    var r :| r in s.receipts && r.op == op && ResponseDisposition(r.status) == Accepted;
    assert AcceptedOk(s, r.key);
  }

  /** Pruning a synced review leads, without another prune of it, to a later answer that is marked synced but
      lost if and only if someone can still mark the review synced and there is another answer to give. */
  lemma PruneLosesAnswerIff(durable: Durable, steps: seq<Step>, op: Operation)
    requires Canonical(durable) && op in Run(durable, steps).store && Run(durable, steps).store[op].status == Synced
    ensures var s := Run(durable, steps);
            CanMark(durable, s, op, Synced) && AnotherAnswer(durable, s, op)
            <==> exists more: seq<Step> :: Allowed(NoPruneOf(op), more)
                   && AnswerLost(RunFrom(durable, Next(durable, s, Prune(op)), more), op)
  {
    var s := Run(durable, steps);
    var p := Next(durable, s, Prune(op));
    if !CanMark(durable, s, op, Synced) {
      HarmlessStays(durable, steps, op, Synced);
      forall more: seq<Step> | Allowed(NoPruneOf(op), more) ensures !AnswerLost(RunFrom(durable, p, more), op) {
        FoundedIsRecorded(durable, RunFrom(durable, p, more), op);
      }
    } else if raw :| durable(raw).Some? && (op in s.events ==> durable(raw).value != s.events[op]) {
      SyncedIsRecorded(durable, s, op);
      var anew := PruneCanHarm(durable, s, op, durable(raw).value, Synced);
      var more: seq<Step> :| Allowed(NoPruneOf(op), more) && Harmed(op, anew, Synced)(RunFrom(durable, p, more));
      RunRecords(durable, p, more);
      assert AnswerLost(RunFrom(durable, p, more), op);
    } else {
      RunKeeps(durable, steps);
      NextKeeps(durable, s, Prune(op));
      forall more: seq<Step> ensures !AnswerLost(RunFrom(durable, p, more), op) {
        RunFromKeeps(durable, p, more);
        OnlyAnswer(durable, s, p, more, op);
      }
    }
  }

  lemma OnlyAnswer(durable: Durable, s: State, p: State, more: seq<Step>, op: Operation)
    requires Inv(durable, RunFrom(durable, p, more)) && p.events == s.events && !AnotherAnswer(durable, s, op)
    ensures !AnswerLost(RunFrom(durable, p, more), op)
  {
    var t := RunFrom(durable, p, more);
    RunRecords(durable, p, more);
    if op in t.store {
      assert RecordOk(t, op, t.store[op]);
      assert durable(t.store[op].body).Some?;
    }
  }

  lemma FoundedIsRecorded(durable: Durable, s: State, op: Operation)
    requires Inv(durable, s) && TrueTo(durable, s, op, Synced)
    ensures !AnswerLost(s, op)
  {
    if op in s.store && s.store[op].status == Synced {
      assert ReceivedFor(s, op, s.store[op].key, Accepted) && RecordOk(s, op, s.store[op]);
      assert AcceptedOk(s, s.store[op].key);
    }
  }
}
