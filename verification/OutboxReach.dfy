/** What can still happen to an outbox: continuations of a run, fresh names for them, and the ways a
    request on its way or a drain can be brought to an answer.
 */
module OutboxReach {
  import opened Basics
  import opened OutboxMachine

  // ---------- what the network can still deliver ----------

  ghost predicate HasSend(s: State, key: Key) { exists i :: 0 <= i < |s.sends| && s.sends[i].key == Some(key) }

  /** Whoever waits for an answer has sent a request; responses are for records that were created. */
  ghost predicate Backed(s: State) {
    && (forall tid :: tid in s.senders && s.senders[tid].Waiting? ==> HasSend(s, s.senders[tid].record.key))
    && (forall d :: 0 <= d < |s.drains| ==> DrainBacked(s, s.drains[d]))
    && (forall r :: r in s.receipts ==> r.key in s.issued && s.issued[r.key].0 == r.op)
  }

  ghost predicate DrainBacked(s: State, drain: Drain) {
    (drain.First? || drain.Second?) && drain.rest != [] ==> HasSend(s, drain.rest[0].record.key)
  }

  ghost predicate Good(durable: Durable, s: State) { Inv(durable, s) && Backed(s) }

  lemma SendsGrow(s: State, t: State, key: Key)
    requires HasSend(s, key) && s.sends <= t.sends
    ensures HasSend(t, key)
  {
    var i :| 0 <= i < |s.sends| && s.sends[i].key == Some(key);
    assert t.sends[i] == s.sends[i];
  }

  /** The parts a step leaves alone stay backed. */
  lemma OldPartsBacked(s: State, t: State)
    requires Backed(s) && s.sends <= t.sends
    ensures forall tid :: tid in s.senders && s.senders[tid].Waiting? ==> HasSend(t, s.senders[tid].record.key)
    ensures forall d :: 0 <= d < |s.drains| ==> DrainBacked(t, s.drains[d])
  {
    forall tid | tid in s.senders && s.senders[tid].Waiting? ensures HasSend(t, s.senders[tid].record.key) {
      SendsGrow(s, t, s.senders[tid].record.key);
    }
    forall d | 0 <= d < |s.drains| ensures DrainBacked(t, s.drains[d]) {
      var drain := s.drains[d];
      if (drain.First? || drain.Second?) && drain.rest != [] { SendsGrow(s, t, drain.rest[0].record.key); }
    }
  }

  lemma SentIsBacked(s: State, send: Send, key: Key)
    requires send.key == Some(key)
    ensures HasSend(s.(sends := s.sends + [send]), key)
  {
    assert (s.sends + [send])[|s.sends|].key == Some(key);
  }

  lemma SentBacked(s: State, tid: nat)
    requires Backed(s) && tid in s.senders && s.senders[tid].Queued?
    ensures Backed(Sent(s, tid))
  {
    var q := s.senders[tid];
    OldPartsBacked(s, Sent(s, tid));
    SentIsBacked(s, Send(Some(q.record.key), q.op, q.raw, Some(q.op.user), None), q.record.key);
  }

  lemma HeardBacked(s: State, tid: nat, answer: OutboxMachine.Answer)
    requires Backed(s) && tid in s.senders && s.senders[tid].Waiting? && Issued(s, s.senders[tid].op, s.senders[tid].record)
    ensures Backed(Heard(s, tid, answer))
  {
    OldPartsBacked(s, Heard(s, tid, answer));
  }

  lemma CreatedBacked(s: State, tid: nat, op: Operation, raw: Body, record: Record)
    requires Backed(s) && record.key !in s.issued
    ensures Backed(Created(s, tid, op, raw, record))
  {
    OldPartsBacked(s, Created(s, tid, op, raw, record));
  }

  lemma EnqueuedBacked(s: State, tid: nat, i: Intercepted, key: Key)
    requires Backed(s) && key !in s.issued
    ensures Backed(Enqueued(s, tid, i, key))
  {
    if i.op in s.store {
      OldPartsBacked(s, s.(senders := s.senders[tid := Queued(i.op, s.store[i.op], i.raw)]));
    } else {
      CreatedBacked(s, tid, i.op, i.raw, Record(key, i.body, Pending, 0));
    }
  }

  /** A step that sends nothing, waits for nothing new and hears nothing. */
  lemma QuietBacked(s: State, t: State)
    requires Backed(s) && s.sends <= t.sends && t.receipts == s.receipts && t.issued == s.issued
    requires forall tid :: tid in t.senders ==> tid in s.senders && t.senders[tid] == s.senders[tid]
    requires forall d :: 0 <= d < |t.drains| ==>
               (t.drains[d].First? || t.drains[d].Second?) ==> t.drains[d] in s.drains
    ensures Backed(t)
  {
    OldPartsBacked(s, t);
  }

  lemma SenderBacked(durable: Durable, s: State, tid: nat, action: SenderAction)
    requires Backed(s) && CanSender(durable, s, tid, action)
    requires tid in s.senders ==> SenderOk(durable, s, s.senders[tid])
    ensures Backed(TakeSender(durable, s, tid, action))
  {
    match action {
      case Intercept(op, raw) => QuietBacked(s, Caught(s, tid, op, raw, durable(raw).value));
      case Enqueue(key) =>
        QuietBacked(s, Released(s, tid));
        EnqueuedBacked(Released(s, tid), tid, s.intercepted[tid], key);
      case Decide(online) =>
        SentBacked(s, tid);
        QuietBacked(s, Left(s, tid));
      case Receive(answer) => HeardBacked(s, tid, answer);
      case Update => QuietBacked(s, Updated(s, tid));
    }
  }

  lemma DrainSentBacked(s: State, d: nat, drain: Drain)
    requires Backed(s) && d < |s.drains| && (drain.First? || drain.Second?) && drain.rest != []
    ensures Backed(DrainSent(s, d, drain))
  {
    OldPartsBacked(s, DrainSent(s, d, drain));
    SentIsBacked(s, DrainRequest(drain.rest[0], drain.user), drain.rest[0].record.key);
  }

  lemma TurnBacked(s: State, d: nat, drain: Drain)
    requires Backed(s) && d < |s.drains| && !drain.First? && !drain.Second?
    ensures Backed(Turned(s, d, drain))
  {
    QuietBacked(s, Turned(s, d, drain));
  }

  lemma DrainHeardBacked(s: State, d: nat, answer: OutboxMachine.Answer)
    requires Backed(s) && d < |s.drains| && (s.drains[d].First? || s.drains[d].Second?) && s.drains[d].rest != []
    requires Issued(s, s.drains[d].rest[0].op, s.drains[d].rest[0].record)
    ensures Backed(DrainHeard(s, d, answer))
  {
    TurnBacked(s, d, AfterAnswer(s.drains[d], answer));
  }

  lemma DrainMarkedBacked(s: State, d: nat)
    requires Backed(s) && d < |s.drains| && s.drains[d].Marking? && s.drains[d].rest != []
    ensures Backed(DrainMarked(s, d))
  {
    TurnBacked(s, d, AfterMark(s.drains[d]));
  }

  lemma SessionBacked(s: State, session: Option<string>)
    requires Backed(s)
    ensures Backed(s.(session := session))
  {
    QuietBacked(s, s.(session := session));
  }

  lemma DrainRefreshedBacked(s: State, d: nat, user: Option<string>)
    requires Backed(s) && d < |s.drains| && s.drains[d].Refreshing? && s.drains[d].rest != []
    ensures Backed(DrainRefreshed(s, d, user))
  {
    var drain := s.drains[d];
    if user.None? {
      TurnBacked(s, d, Marking(drain.user, drain.rest, MarkPending));
    } else if user.value != drain.rest[0].op.user {
      TurnBacked(s, d, Finishing(drain.user));
      SessionBacked(Turned(s, d, Finishing(drain.user)), user);
    } else {
      DrainSentBacked(s, d, Second(user.value, drain.rest));
      SessionBacked(DrainSent(s, d, Second(user.value, drain.rest)), user);
    }
  }

  lemma DrainStepBacked(durable: Durable, s: State, d: nat, action: DrainAction)
    requires Backed(s) && CanDrain(s, d, action) && DrainOk(durable, s, s.drains[d])
    ensures Backed(TakeDrain(s, d, action))
  {
    match action {
      case List(entries) => TurnBacked(s, d, Ready(s.drains[d].user, entries));
      case SendFirst => DrainSentBacked(s, d, First(s.drains[d].user, s.drains[d].rest));
      case Answer(answer) => DrainHeardBacked(s, d, answer);
      case Refresh(user) => DrainRefreshedBacked(s, d, user);
      case MarkIt => DrainMarkedBacked(s, d);
      case Finish => QuietBacked(s, TakeDrain(s, d, action));
    }
  }

  lemma BackedNext(durable: Durable, s: State, step: Step)
    requires Good(durable, s)
    ensures Backed(Next(durable, s, step))
  {
    if Enabled(durable, s, step) {
      match step {
        case OfSender(tid, action) => SenderBacked(durable, s, tid, action);
        case OfDrain(d, action) => DrainStepBacked(durable, s, d, action);
        case _ => QuietBacked(s, Next(durable, s, step));
      }
    }
  }

  lemma {:induction false} GoodRunFrom(durable: Durable, s: State, steps: seq<Step>)
    requires Canonical(durable) && Good(durable, s)
    ensures Good(durable, RunFrom(durable, s, steps))
    decreases |steps|
  {
    if steps != [] {
      NextKeeps(durable, s, steps[0]);
      BackedNext(durable, s, steps[0]);
      GoodRunFrom(durable, Next(durable, s, steps[0]), steps[1..]);
    }
  }

  /** A state that some run reaches. */
  ghost predicate Reachable(durable: Durable, s: State) { exists steps :: s == Run(durable, steps) }

  lemma ReachableIsGood(durable: Durable, s: State)
    requires Canonical(durable) && Reachable(durable, s)
    ensures Good(durable, s)
  {
    var steps :| s == Run(durable, steps);
    GoodRunFrom(durable, INITIAL, steps);
  }

  lemma ReachNext(durable: Durable, s: State, step: Step)
    requires Reachable(durable, s)
    ensures Reachable(durable, Next(durable, s, step))
  {
    var steps :| s == Run(durable, steps);
    RunThen(durable, INITIAL, steps, step);
    assert Next(durable, s, step) == Run(durable, steps + [step]);
  }

  lemma SenderIs(durable: Durable, s: State, tid: nat)
    requires Canonical(durable) && Reachable(durable, s) && tid in s.senders
    ensures SenderOk(durable, s, s.senders[tid]) && (s.senders[tid].Waiting? ==> HasSend(s, s.senders[tid].record.key))
  {
    ReachableIsGood(durable, s);
  }

  lemma DrainIs(durable: Durable, s: State, d: nat)
    requires Canonical(durable) && Reachable(durable, s) && d < |s.drains|
    ensures DrainOk(durable, s, s.drains[d]) && DrainBacked(s, s.drains[d]) && |s.drains| == 1
  {
    ReachableIsGood(durable, s);
  }

  lemma SendIs(durable: Durable, s: State, i: nat)
    requires Canonical(durable) && Reachable(durable, s) && i < |s.sends|
    ensures SendOk(durable, s, s.sends[i])
  {
    ReachableIsGood(durable, s);
  }

  // ---------- who is at work ----------

  /** A stored review about to go out: its payload is the stored one. */
  predicate WillSend(durable: Durable, sender: Sender) { sender.Queued? && Keeps(durable, sender.raw, sender.record.body) }

  predicate CanAccept(s: State, entry: Entry) { Acceptable(s, entry.op, entry.record.body) }

  /** A drain can come to entry `k`, of this operation: the server can accept all before it and, if so asked, `k` itself. */
  predicate ComesTo(s: State, entries: seq<Entry>, k: int, op: Operation, accepted: bool) {
    && 0 <= k < |entries| && entries[k].op == op
    && (forall j :: 0 <= j < k ==> CanAccept(s, entries[j])) && (accepted ==> CanAccept(s, entries[k]))
  }

  ghost predicate Reaches(s: State, entries: seq<Entry>, op: Operation, accepted: bool) {
    exists k :: ComesTo(s, entries, k, op, accepted)
  }

  /** What the server accepts later, it could accept before. */
  ghost predicate Records(s: State, t: State) { forall op :: op in s.events ==> op in t.events && t.events[op] == s.events[op] }

  lemma CameBefore(s: State, t: State, entries: seq<Entry>, k: int, op: Operation, accepted: bool)
    requires Records(s, t) && ComesTo(t, entries, k, op, accepted)
    ensures ComesTo(s, entries, k, op, accepted)
  {
    forall j | 0 <= j < k ensures CanAccept(s, entries[j]) { assert CanAccept(t, entries[j]); }
  }

  lemma ReachesBefore(s: State, t: State, entries: seq<Entry>, op: Operation, accepted: bool)
    requires Records(s, t) && Reaches(t, entries, op, accepted)
    ensures Reaches(s, entries, op, accepted)
  {
    var k :| ComesTo(t, entries, k, op, accepted);
    CameBefore(s, t, entries, k, op, accepted);
  }

  /** With the head accepted, whatever the rest comes to is come to. */
  lemma RestComesTo(s: State, entries: seq<Entry>, k: int, op: Operation, accepted: bool)
    requires entries != [] && CanAccept(s, entries[0]) && ComesTo(s, entries[1..], k, op, accepted)
    ensures ComesTo(s, entries, k + 1, op, accepted)
  {
    forall j | 0 <= j < k + 1 ensures CanAccept(s, entries[j]) { if j > 0 { assert CanAccept(s, entries[1..][j - 1]); } }
  }

  lemma RestReached(s: State, entries: seq<Entry>, op: Operation, accepted: bool)
    requires entries != [] && CanAccept(s, entries[0]) && Reaches(s, entries[1..], op, accepted)
    ensures Reaches(s, entries, op, accepted)
  {
    var k :| ComesTo(s, entries[1..], k, op, accepted);
    RestComesTo(s, entries, k, op, accepted);
  }

  lemma ReachedHead(durable: Durable, s: State, user: string, entries: seq<Entry>, op: Operation, accepted: bool)
    requires EntriesOk(durable, s, user, entries) && entries != [] && entries[0].op == op && Reaches(s, entries, op, accepted)
    ensures accepted ==> CanAccept(s, entries[0])
  {
    var k :| ComesTo(s, entries, k, op, accepted);
    assert k == 0;
  }

  lemma HeadBefore(s: State, entries: seq<Entry>, op: Operation, accepted: bool)
    requires entries != [] && entries[0].op != op && Reaches(s, entries, op, accepted)
    ensures CanAccept(s, entries[0])
  {
    var k :| ComesTo(s, entries, k, op, accepted);
  }

  /** A head whose acceptance was heard of was acceptable. */
  lemma HeardIsAcceptable(durable: Durable, s: State, entry: Entry)
    requires Inv(durable, s) && Issued(s, entry.op, entry.record) && entry.record.key in s.accepted
    ensures CanAccept(s, entry)
  {
    assert AcceptedOk(s, entry.record.key);
  }

  // ---------- what a drain leaves alone ----------

  lemma SentFrame(s: State, d: nat, drain: Drain)
    requires d < |s.drains| && (drain.First? || drain.Second?) && drain.rest != []
    ensures var t := DrainSent(s, d, drain); t.store == s.store && t.issued == s.issued && t.events == s.events
  {
  }

  lemma RefreshFrame(s: State, d: nat, user: Option<string>)
    requires d < |s.drains| && s.drains[d].Refreshing? && s.drains[d].rest != []
    ensures DrainRefreshed(s, d, user).store == s.store
    ensures DrainRefreshed(s, d, user).issued == s.issued && DrainRefreshed(s, d, user).events == s.events
  {
    var drain := s.drains[d];
    if user.Some? {
      if user.value == drain.rest[0].op.user { SentFrame(s, d, Second(user.value, drain.rest)); }
    }
  }

  lemma AnswerFrame(s: State, d: nat, answer: OutboxMachine.Answer)
    requires d < |s.drains| && (s.drains[d].First? || s.drains[d].Second?) && s.drains[d].rest != []
    ensures var t := DrainHeard(s, d, answer); t.store == s.store && t.issued == s.issued && t.events == s.events
  {
  }

  lemma MarkFrame(s: State, d: nat)
    requires d < |s.drains| && s.drains[d].Marking? && s.drains[d].rest != []
    ensures var t := DrainMarked(s, d); t.store == MarkedStore(s, s.drains[d]) && t.issued == s.issued && t.events == s.events
  {
  }

  /** A drain creates no record, and changes the store only when it notes a mark. */
  lemma DrainFrame(s: State, d: nat, action: DrainAction)
    requires CanDrain(s, d, action)
    ensures var t := TakeDrain(s, d, action);
            t.issued == s.issued && t.events == s.events && t.store == if action.MarkIt? then MarkedStore(s, s.drains[d]) else s.store
  {
    match action {
      case Refresh(user) => RefreshFrame(s, d, user);
      case Answer(answer) => AnswerFrame(s, d, answer);
      case MarkIt => MarkFrame(s, d);
      case _ =>
    }
  }

  // ---------- continuations ----------

  /** Some continuation of allowed steps reaches a goal. */
  ghost predicate Can(durable: Durable, s: State, ok: Step -> bool, goal: State -> bool) {
    exists more: seq<Step> :: Allowed(ok, more) && goal(RunFrom(durable, s, more))
  }

  ghost predicate Allowed(ok: Step -> bool, steps: seq<Step>) { forall k :: 0 <= k < |steps| ==> ok(steps[k]) }

  lemma CanNow(durable: Durable, s: State, ok: Step -> bool, goal: State -> bool)
    requires goal(s)
    ensures Can(durable, s, ok, goal)
  {
    assert Allowed(ok, []) && goal(RunFrom(durable, s, []));
  }

  lemma CanNext(durable: Durable, s: State, step: Step, ok: Step -> bool, goal: State -> bool)
    requires ok(step) && Can(durable, Next(durable, s, step), ok, goal)
    ensures Can(durable, s, ok, goal)
  {
    var more: seq<Step> :| Allowed(ok, more) && goal(RunFrom(durable, Next(durable, s, step), more));
    var all := [step] + more;
    assert all[1..] == more;
    assert RunFrom(durable, s, all) == RunFrom(durable, Next(durable, s, step), more);
    assert Allowed(ok, all) && goal(RunFrom(durable, s, all));
  }

  /** Created records are never forgotten. */
  ghost predicate Issues(s: State, t: State) { forall key :: key in s.issued ==> key in t.issued && t.issued[key] == s.issued[key] }

  lemma EnqueuedRecords(s: State, tid: nat, i: Intercepted, key: Key)
    requires key !in s.issued
    ensures Enqueued(s, tid, i, key).events == s.events && Issues(s, Enqueued(s, tid, i, key))
  {
  }

  lemma SenderRecords(durable: Durable, s: State, tid: nat, action: SenderAction)
    requires CanSender(durable, s, tid, action)
    ensures TakeSender(durable, s, tid, action).events == s.events && Issues(s, TakeSender(durable, s, tid, action))
  {
    match action {
      case Enqueue(key) => EnqueuedRecords(Released(s, tid), tid, s.intercepted[tid], key);
      case _ => assert TakeSender(durable, s, tid, action).issued == s.issued;
    }
  }

  lemma NextRecords(durable: Durable, s: State, step: Step)
    ensures Records(s, Next(durable, s, step)) && Issues(s, Next(durable, s, step))
  {
    if Enabled(durable, s, step) {
      match step {
        case OfSender(tid, action) => SenderRecords(durable, s, tid, action);
        case OfDrain(d, action) => DrainFrame(s, d, action);
        case _ =>
      }
    }
  }

  lemma {:induction false} RunRecords(durable: Durable, s: State, steps: seq<Step>)
    ensures Records(s, RunFrom(durable, s, steps)) && Issues(s, RunFrom(durable, s, steps))
    decreases |steps|
  {
    if steps != [] {
      NextRecords(durable, s, steps[0]);
      RunRecords(durable, Next(durable, s, steps[0]), steps[1..]);
    }
  }

  // ---------- fresh names ----------

  lemma {:induction false} LongerThanAll(keys: set<Key>) returns (n: nat)
    ensures forall key :: key in keys ==> |key| < n
  {
    if keys == {} {
      n := 0;
    } else {
      var key :| key in keys;
      var m := LongerThanAll(keys - {key});
      n := if m > |key| then m else |key| + 1;
    }
  }

  lemma FreshKey(issued: map<Key, (Operation, Body)>) returns (key: Key)
    ensures key !in issued
  {
    var n := LongerThanAll(issued.Keys);
    key := seq(n, i => 'k');
    assert key in issued.Keys ==> |key| < n;
  }

  lemma {:induction false} AboveAll(ids: set<nat>) returns (n: nat)
    ensures forall id :: id in ids ==> id < n
  {
    if ids == {} {
      n := 0;
    } else {
      var id :| id in ids;
      var rest := ids - {id};
      var m := AboveAll(rest);
      n := if m > id then m else id + 1;
      forall other | other in ids ensures other < n { assert other == id || other in rest; }
    }
  }

  lemma {:induction false} ListOnce(s: State, user: string, ops: set<Operation>) returns (entries: seq<Entry>)
    requires forall op :: op in ops ==> op in s.store
    ensures forall k :: 0 <= k < |entries| ==> entries[k].op in ops && entries[k].record == s.store[entries[k].op]
    ensures forall j, k :: 0 <= j < k < |entries| ==> entries[j].op != entries[k].op
    ensures forall op :: op in ops ==> Entry(op, s.store[op]) in entries
  {
    if ops == {} {
      entries := [];
    } else {
      var op :| op in ops;
      var rest := ListOnce(s, user, ops - {op});
      entries := rest + [Entry(op, s.store[op])];
      forall o | o in ops ensures Entry(o, s.store[o]) in entries {
        if o == op { assert entries[|rest|] == Entry(o, s.store[o]); }
      }
    }
  }

  /** Every queue can be listed. */
  lemma PendingListing(s: State, user: string) returns (entries: seq<Entry>)
    ensures ListsPending(s, user, entries)
  {
    var ops := set op | op in s.store && op.user == user && s.store[op].status == Pending;
    entries := ListOnce(s, user, ops);
    forall k | 0 <= k < |entries| ensures IsPendingOf(s, user, entries[k]) { assert entries[k].op in ops; }
  }

  // ---------- bringing a request to an answer ----------

  /** `t` is `s` but for requests and responses under one key of an operation. */
  ghost predicate OnlyKey(s: State, t: State, op: Operation, key: Key) {
    && t.store == s.store && t.session == s.session && t.intercepted == s.intercepted && t.issued == s.issued
    && s.sends <= t.sends
    && t.accepted.Keys <= s.accepted.Keys + {key}
    && Records(s, t) && (forall o :: o in t.events ==> o in s.events || o == op)
    && forall r :: r in t.receipts ==> r in s.receipts || r.key == key
  }

  /** Accepting sent requests, and drains going on without a refresh. */
  predicate GoesOn(step: Step) {
    step.Accept? || (step.OfDrain? && (step.drainAction.SendFirst? || step.drainAction.Answer? || step.drainAction.MarkIt?))
  }

  ghost predicate AllowsGoingOn(ok: Step -> bool) { forall step :: GoesOn(step) ==> ok(step) }

  lemma AcceptStep(durable: Durable, s: State, i: nat)
    requires i < |s.sends| && s.sends[i].key.Some? && s.sends[i].key.value !in s.accepted && SendOk(durable, s, s.sends[i])
    requires var key := s.sends[i].key.value; Acceptable(s, s.issued[key].0, s.issued[key].1)
    ensures var key, t := s.sends[i].key.value, Next(durable, s, Accept(i));
            OnlyKey(s, t, s.issued[key].0, key) && key in t.accepted && t.senders == s.senders && t.drains == s.drains && t.sends == s.sends
  {
  }

  /** The server can accept what was sent, if it has recorded nothing else for the operation. */
  lemma AcceptSent(durable: Durable, s: State, key: Key, ok: Step -> bool, goal: State -> bool) returns (t: State)
    requires Canonical(durable) && Reachable(durable, s) && HasSend(s, key) && AllowsGoingOn(ok)
    requires key in s.issued && Acceptable(s, s.issued[key].0, s.issued[key].1)
    ensures Reachable(durable, t) && OnlyKey(s, t, s.issued[key].0, key) && key in t.accepted
    ensures t.senders == s.senders && t.drains == s.drains && t.sends == s.sends
    ensures Can(durable, t, ok, goal) ==> Can(durable, s, ok, goal)
  {
    if key in s.accepted {
      t := s;
    } else {
      var i :| 0 <= i < |s.sends| && s.sends[i].key == Some(key);
      SendIs(durable, s, i);
      AcceptStep(durable, s, i);
      t := Next(durable, s, Accept(i));
      ReachNext(durable, s, Accept(i));
      if Can(durable, t, ok, goal) { CanNext(durable, s, Accept(i), ok, goal); }
    }
  }

  /** Before an answer is delivered: a success needs an accepted request. */
  lemma BeforeAnswer(durable: Durable, s: State, key: Key, answer: OutboxMachine.Answer, ok: Step -> bool, goal: State -> bool)
    returns (t: State)
    requires Canonical(durable) && Reachable(durable, s) && HasSend(s, key) && AllowsGoingOn(ok) && key in s.issued
    requires IsSuccess(answer) ==> Acceptable(s, s.issued[key].0, s.issued[key].1)
    ensures Reachable(durable, t) && OnlyKey(s, t, s.issued[key].0, key) && Deliverable(t, key, answer)
    ensures t.senders == s.senders && t.drains == s.drains && t.sends == s.sends
    ensures Can(durable, t, ok, goal) ==> Can(durable, s, ok, goal)
  {
    if IsSuccess(answer) { t := AcceptSent(durable, s, key, ok, goal); } else { t := s; }
  }

  /** A request on its way can get any answer, a success if the server can accept it. */
  lemma AnswerSender(durable: Durable, s: State, tid: nat, answer: OutboxMachine.Answer, ok: Step -> bool, goal: State -> bool)
    returns (t: State)
    requires Canonical(durable) && Reachable(durable, s) && AllowsGoingOn(ok) && ok(OfSender(tid, Receive(answer)))
    requires tid in s.senders && s.senders[tid].Waiting?
    requires IsSuccess(answer) ==> Acceptable(s, s.senders[tid].op, s.senders[tid].record.body)
    ensures Reachable(durable, t) && OnlyKey(s, t, s.senders[tid].op, s.senders[tid].record.key)
    ensures t.senders == s.senders[tid := Answered(s.senders[tid].op, s.senders[tid].record, answer)] && t.drains == s.drains
    ensures Can(durable, t, ok, goal) ==> Can(durable, s, ok, goal)
  {
    SenderIs(durable, s, tid);
    var u := BeforeAnswer(durable, s, s.senders[tid].record.key, answer, ok, goal);
    var step := OfSender(tid, Receive(answer));
    t := Next(durable, u, step);
    ReachNext(durable, u, step);
    assert t == Heard(u, tid, answer);
    if Can(durable, t, ok, goal) { CanNext(durable, u, step, ok, goal); }
  }

  /** A drain that can send its head again and again until it is marked. */
  predicate Sends(drain: Drain) { (drain.Ready? || drain.First? || drain.Second?) && drain.rest != [] }

  function MarkFor(status: int): Mark {
    match ResponseDisposition(status) case Accepted => MarkSynced case Rejected => MarkFailed case _ => MarkPending
  }

  /** The head of such a drain is sent, if it was not yet. */
  lemma SendHead(durable: Durable, s: State, d: nat, ok: Step -> bool, goal: State -> bool) returns (t: State)
    requires Canonical(durable) && Reachable(durable, s) && AllowsGoingOn(ok) && d < |s.drains| && Sends(s.drains[d])
    ensures var drain := s.drains[d];
            && Reachable(durable, t) && OnlyKey(s, t, drain.rest[0].op, drain.rest[0].record.key) && t.senders == s.senders
            && t.drains == s.drains[d := if drain.Ready? then First(drain.user, drain.rest) else drain] && t.events == s.events
    ensures Can(durable, t, ok, goal) ==> Can(durable, s, ok, goal)
  {
    var drain := s.drains[d];
    if drain.Ready? {
      var step := OfDrain(d, SendFirst);
      t := Next(durable, s, step);
      ReachNext(durable, s, step);
      assert t == DrainSent(s, d, First(drain.user, drain.rest));
      if Can(durable, t, ok, goal) { CanNext(durable, s, step, ok, goal); }
    } else {
      t := s;
    }
  }

  lemma HearHead(durable: Durable, s: State, d: nat, status: int, ok: Step -> bool, goal: State -> bool) returns (t: State)
    requires Canonical(durable) && Reachable(durable, s) && AllowsGoingOn(ok) && d < |s.drains| && status != 401
    requires (s.drains[d].First? || s.drains[d].Second?) && s.drains[d].rest != []
    requires Deliverable(s, s.drains[d].rest[0].record.key, Got(status))
    ensures var drain := s.drains[d];
            && Reachable(durable, t) && OnlyKey(s, t, drain.rest[0].op, drain.rest[0].record.key) && t.senders == s.senders
            && t.drains == s.drains[d := Marking(drain.user, drain.rest, MarkFor(status))]
    ensures Can(durable, t, ok, goal) ==> Can(durable, s, ok, goal)
  {
    var step := OfDrain(d, Answer(Got(status)));
    t := Next(durable, s, step);
    ReachNext(durable, s, step);
    assert t == DrainHeard(s, d, Got(status));
    if Can(durable, t, ok, goal) { CanNext(durable, s, step, ok, goal); }
  }

  lemma OnlyKeyTwice(s: State, t: State, u: State, op: Operation, key: Key)
    requires OnlyKey(s, t, op, key) && OnlyKey(t, u, op, key)
    ensures OnlyKey(s, u, op, key)
  {
  }

  lemma SentHeadHears(durable: Durable, s: State, d: nat, status: int, ok: Step -> bool, goal: State -> bool) returns (t: State)
    requires Canonical(durable) && Reachable(durable, s) && AllowsGoingOn(ok) && d < |s.drains| && status != 401
    requires (s.drains[d].First? || s.drains[d].Second?) && s.drains[d].rest != []
    requires IsSuccess(Got(status)) ==> CanAccept(s, s.drains[d].rest[0])
    ensures var drain := s.drains[d];
            && Reachable(durable, t) && OnlyKey(s, t, drain.rest[0].op, drain.rest[0].record.key) && t.senders == s.senders
            && t.drains == s.drains[d := Marking(drain.user, drain.rest, MarkFor(status))]
    ensures Can(durable, t, ok, goal) ==> Can(durable, s, ok, goal)
  {
    var first := s.drains[d].rest[0];
    DrainIs(durable, s, d);
    var u := BeforeAnswer(durable, s, first.record.key, Got(status), ok, goal);
    t := HearHead(durable, u, d, status, ok, goal);
    OnlyKeyTwice(s, u, t, first.op, first.record.key);
  }

  /** The head of such a drain can get any answer but a request for a session, a success if the server
      can accept it. */
  lemma AnswerHead(durable: Durable, s: State, d: nat, status: int, ok: Step -> bool, goal: State -> bool) returns (t: State)
    requires Canonical(durable) && Reachable(durable, s) && AllowsGoingOn(ok) && d < |s.drains| && Sends(s.drains[d]) && status != 401
    requires IsSuccess(Got(status)) ==> CanAccept(s, s.drains[d].rest[0])
    ensures var drain := s.drains[d];
            && Reachable(durable, t) && OnlyKey(s, t, drain.rest[0].op, drain.rest[0].record.key) && t.senders == s.senders
            && t.drains == s.drains[d := Marking(drain.user, drain.rest, MarkFor(status))]
    ensures Can(durable, t, ok, goal) ==> Can(durable, s, ok, goal)
  {
    var first := s.drains[d].rest[0];
    var u := SendHead(durable, s, d, ok, goal);
    t := SentHeadHears(durable, u, d, status, ok, goal);
    OnlyKeyTwice(s, u, t, first.op, first.record.key);
  }

  /** Behind the head stays reachable what was, once the head is accepted. */
  lemma RestStaysReachable(durable: Durable, s: State, t: State, user: string, entries: seq<Entry>, op: Operation, accepted: bool)
    requires EntriesOk(durable, s, user, entries) && entries != [] && entries[0].op != op && Reaches(s, entries, op, accepted)
    requires OnlyKey(s, t, entries[0].op, entries[0].record.key)
    ensures CanAccept(s, entries[0]) && Reaches(t, entries[1..], op, accepted)
  {
    var k :| ComesTo(s, entries, k, op, accepted);
    forall j | 0 <= j < k - 1 ensures CanAccept(t, entries[1..][j]) { assert CanAccept(s, entries[j + 1]); }
    assert ComesTo(t, entries[1..], k - 1, op, accepted);
  }

  /** A mark is noted. */
  lemma MarkHead(durable: Durable, s: State, d: nat, ok: Step -> bool, goal: State -> bool) returns (t: State)
    requires Canonical(durable) && Reachable(durable, s) && AllowsGoingOn(ok) && d < |s.drains| && s.drains[d].Marking? && s.drains[d].rest != []
    ensures Reachable(durable, t) && t == DrainMarked(s, d)
    ensures Can(durable, t, ok, goal) ==> Can(durable, s, ok, goal)
  {
    var step := OfDrain(d, MarkIt);
    t := Next(durable, s, step);
    ReachNext(durable, s, step);
    if Can(durable, t, ok, goal) { CanNext(durable, s, step, ok, goal); }
  }

  /** A refresh that brings the same user back sends the head again. */
  lemma RefreshHead(durable: Durable, s: State, d: nat, ok: Step -> bool, goal: State -> bool) returns (t: State)
    requires Canonical(durable) && Reachable(durable, s) && d < |s.drains| && s.drains[d].Refreshing? && s.drains[d].rest != []
    requires ok(OfDrain(d, Refresh(Some(s.drains[d].user))))
    ensures var drain := s.drains[d];
            && Reachable(durable, t) && t.drains == s.drains[d := Second(drain.user, drain.rest)]
            && t.store == s.store && t.senders == s.senders && t.intercepted == s.intercepted && t.issued == s.issued
            && t.accepted == s.accepted && t.events == s.events && t.receipts == s.receipts
    ensures Can(durable, t, ok, goal) ==> Can(durable, s, ok, goal)
  {
    var drain := s.drains[d];
    DrainIs(durable, s, d);
    assert drain.rest[0].op.user == drain.user;
    var step := OfDrain(d, Refresh(Some(drain.user)));
    t := Next(durable, s, step);
    ReachNext(durable, s, step);
    assert t == DrainRefreshed(s, d, Some(drain.user));
    if Can(durable, t, ok, goal) { CanNext(durable, s, step, ok, goal); }
  }
}
