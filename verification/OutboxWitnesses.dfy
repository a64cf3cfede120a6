/** Runs from the initial state that show what the outbox does not promise. */
module OutboxWitnesses {
  import opened Basics
  import opened OutboxMachine

  lemma Then(durable: Durable, before: seq<Step>, step: Step) returns (steps: seq<Step>)
    ensures steps == before + [step] && Run(durable, steps) == Next(durable, Run(durable, before), step)
  {
    steps := before + [step];
    RunThen(durable, INITIAL, before, step);
  }

  // ---------- a page's request unanswered, a drain's answered ----------

  /** One request of a freshly stored review on its way. */
  function OneWaiting(op: Operation, raw: Body, record: Record): State {
    State(map[op := record], Some(op.user), map[], map[0 := Waiting(op, record, raw)], false, [], map[], map[], [],
      map[record.key := (op, record.body)], [Send(Some(record.key), op, raw, Some(op.user), None)], {})
  }

  /** The same after a drain sent the review, too, and was answered: it is synced, the page's request unanswered. */
  function OneAnswered(op: Operation, raw: Body, record: Record): State {
    var s := OneWaiting(op, raw, record);
    s.(store := map[op := record.(status := Synced, attempts := record.attempts + 1)],
       sends := s.sends + [DrainRequest(Entry(op, record), op.user)],
       accepted := map[record.key := record.body], events := map[op := record.body], eventLog := [op],
       receipts := {Receipt(op, record.key, 200)})
  }

  lemma Enqueueing(durable: Durable, s: State, tid: nat, op: Operation, raw: Body, body: Body, key: Key)
    requires tid !in s.intercepted && tid !in s.senders && s.session == Some(op.user) && durable(raw) == Some(body) && key !in s.issued
    requires s.intercepted == map[]
    ensures Next(durable, Next(durable, s, OfSender(tid, Intercept(op, raw))), OfSender(tid, Enqueue(key)))
            == Enqueued(s, tid, Intercepted(op, raw, body), key)
  {
    var caught := Next(durable, s, OfSender(tid, Intercept(op, raw)));
    assert caught == Caught(s, tid, op, raw, body);
    assert Released(caught, tid) == s by { assert caught.intercepted - {tid} == s.intercepted; }
  }

  lemma FirstCopy(durable: Durable, op: Operation, raw: Body, key: Key) returns (steps: seq<Step>)
    requires durable(raw).Some?
    ensures Run(durable, steps) == OneWaiting(op, raw, Record(key, durable(raw).value, Pending, 0))
  {
    steps := Then(durable, [], SetSession(Some(op.user)));
    Enqueueing(durable, Run(durable, steps), 0, op, raw, durable(raw).value, key);
    steps := Then(durable, steps, OfSender(0, Intercept(op, raw)));
    steps := Then(durable, steps, OfSender(0, Enqueue(key)));
    steps := Then(durable, steps, OfSender(0, Decide(true)));
  }

  /** A drain of a single pending review. */
  lemma ListOne(durable: Durable, s: State, op: Operation, record: Record)
    requires s.store == map[op := record] && record.status == Pending && s.session == Some(op.user) && !s.syncInFlight && s.drains == []
    ensures Next(durable, Next(durable, s, StartDrain), OfDrain(0, List([Entry(op, record)])))
            == s.(syncInFlight := true, drains := [Ready(op.user, [Entry(op, record)])])
  {
    var started := Next(durable, s, StartDrain);
    assert started == s.(syncInFlight := true, drains := [Listing(op.user)]);
    assert ListsPending(started, op.user, [Entry(op, record)]) by {
      assert [Entry(op, record)][0] == Entry(op, record);
    }
  }

  /** The drain's request has gone out and is accepted as the page's. */
  function OneDraining(op: Operation, raw: Body, record: Record): State {
    var s := OneWaiting(op, raw, record);
    s.(syncInFlight := true, drains := [First(op.user, [Entry(op, record)])],
       sends := s.sends + [DrainRequest(Entry(op, record), op.user)],
       accepted := map[record.key := record.body], events := map[op := record.body], eventLog := [op])
  }

  lemma DrainAccepted(durable: Durable, op: Operation, raw: Body, record: Record)
    requires durable(raw) == Some(record.body)
    ensures var s := OneWaiting(op, raw, record).(syncInFlight := true, drains := [Ready(op.user, [Entry(op, record)])]);
            Next(durable, Next(durable, s, OfDrain(0, SendFirst)), Accept(0)) == OneDraining(op, raw, record)
  {
    var s := OneWaiting(op, raw, record).(syncInFlight := true, drains := [Ready(op.user, [Entry(op, record)])]);
    assert Next(durable, s, OfDrain(0, SendFirst)) == DrainSent(s, 0, First(op.user, [Entry(op, record)]));
  }

  lemma HeadMarked(durable: Durable, op: Operation, raw: Body, record: Record)
    ensures var s := OneDraining(op, raw, record).(drains := [Marking(op.user, [Entry(op, record)], MarkSynced)],
                                                   receipts := {Receipt(op, record.key, 200)});
            Next(durable, s, OfDrain(0, MarkIt)) == OneAnswered(op, raw, record).(syncInFlight := true, drains := [Ready(op.user, [])])
  {
    var s := OneDraining(op, raw, record).(drains := [Marking(op.user, [Entry(op, record)], MarkSynced)],
                                           receipts := {Receipt(op, record.key, 200)});
    assert [Entry(op, record)][1..] == [];
    assert Next(durable, s, OfDrain(0, MarkIt)) == DrainMarked(s, 0);
  }

  lemma DrainFinished(durable: Durable, op: Operation, raw: Body, record: Record)
    ensures var s := Next(durable, OneDraining(op, raw, record), OfDrain(0, DrainAction.Answer(Got(200))));
            Next(durable, Next(durable, s, OfDrain(0, MarkIt)), OfDrain(0, Finish)) == OneAnswered(op, raw, record)
  {
    var d := OneDraining(op, raw, record);
    assert Next(durable, d, OfDrain(0, DrainAction.Answer(Got(200))))
           == d.(drains := [Marking(op.user, [Entry(op, record)], MarkSynced)], receipts := {Receipt(op, record.key, 200)});
    HeadMarked(durable, op, raw, record);
  }

  lemma SentTwice(durable: Durable, op: Operation, raw: Body, key: Key) returns (steps: seq<Step>)
    requires durable(raw).Some?
    ensures Run(durable, steps) == OneAnswered(op, raw, Record(key, durable(raw).value, Pending, 0))
  {
    var record := Record(key, durable(raw).value, Pending, 0);
    steps := FirstCopy(durable, op, raw, key);
    ListOne(durable, Run(durable, steps), op, record);
    steps := Then(durable, steps, StartDrain);
    steps := Then(durable, steps, OfDrain(0, List([Entry(op, record)])));
    DrainAccepted(durable, op, raw, record);
    steps := Then(durable, steps, OfDrain(0, SendFirst));
    steps := Then(durable, steps, Accept(0));
    DrainFinished(durable, op, raw, record);
    steps := Then(durable, steps, OfDrain(0, DrainAction.Answer(Got(200))));
    steps := Then(durable, steps, OfDrain(0, MarkIt));
    steps := Then(durable, steps, OfDrain(0, Finish));
  }

  // ---------- a synced review is not final ----------

  lemma LateAnswerNoted(durable: Durable, op: Operation, raw: Body, record: Record, answer: OutboxMachine.Answer)
    requires StatusFor(answer) == Some(Pending) || StatusFor(answer) == Some(Failed)
    ensures var s := OneAnswered(op, raw, record);
            var t := Next(durable, Next(durable, s, OfSender(0, Receive(answer))), OfSender(0, Update));
            op in t.store && Some(t.store[op].status) == StatusFor(answer)
  {
    var s := OneAnswered(op, raw, record);
    assert Next(durable, s, OfSender(0, Receive(answer))) == Heard(s, 0, answer);
  }

  /** A drain has a review accepted while the page's own request for it waits; whatever late answer but a success or
      a request for a session comes to that request, it takes the synced review to pending or failed. */
  lemma LateAnswerReopens(durable: Durable, op: Operation, raw: Body, key: Key, answer: OutboxMachine.Answer)
    returns (before: seq<Step>, steps: seq<Step>)
    requires durable(raw).Some?
    requires StatusFor(answer) == Some(Pending) || StatusFor(answer) == Some(Failed)
    ensures before <= steps && op in Run(durable, before).store && Run(durable, before).store[op].status == Synced
    ensures op in Run(durable, steps).store && Some(Run(durable, steps).store[op].status) == StatusFor(answer)
  {
    before := SentTwice(durable, op, raw, key);
    steps := Then(durable, before, OfSender(0, Receive(answer)));
    steps := Then(durable, steps, OfSender(0, Update));
    LateAnswerNoted(durable, op, raw, Record(key, durable(raw).value, Pending, 0), answer);
  }

  // ---------- a prune with a copy still on its way ----------

  /** The pruned review stored anew with another payload; the first copy still waits with the old record. */
  function StoredAnew(op: Operation, raw: Body, record: Record, newRaw: Body, anew: Record): State {
    Created(OneAnswered(op, raw, record).(store := map[]), 1, op, newRaw, anew)
  }

  lemma PrunedAndStoredAnew(durable: Durable, op: Operation, raw: Body, record: Record, newRaw: Body, body: Body, key: Key)
    requires durable(newRaw) == Some(body) && key != record.key
    ensures var pruned := Next(durable, OneAnswered(op, raw, record), Prune(op));
            Next(durable, Next(durable, pruned, OfSender(1, Intercept(op, newRaw))), OfSender(1, Enqueue(key)))
            == StoredAnew(op, raw, record, newRaw, Record(key, body, Pending, 0))
  {
    var s := OneAnswered(op, raw, record);
    assert s.store - {op} == map[];
    var pruned := Next(durable, s, Prune(op));
    assert pruned == s.(store := map[]);
    Enqueueing(durable, pruned, 1, op, newRaw, body, key);
  }

  lemma LateSuccessMarks(durable: Durable, op: Operation, raw: Body, record: Record, newRaw: Body, anew: Record)
    requires anew.key != record.key
    ensures var heard := Next(durable, StoredAnew(op, raw, record, newRaw, anew), OfSender(0, Receive(Got(200))));
            var s := Next(durable, heard, OfSender(0, Update));
            && op in s.store && s.store[op].status == Synced && s.store[op].body == anew.body
            && s.store[op].key == anew.key && s.accepted == map[record.key := record.body] && s.events == map[op := record.body]
  {
    var s := StoredAnew(op, raw, record, newRaw, anew);
    assert Next(durable, s, OfSender(0, Receive(Got(200)))) == Heard(s, 0, Got(200));
  }

  /** The synced record is pruned and the same card answered anew; the late success of the page's first request
      marks the new answer as synced although the server accepted nothing under its key and has recorded
      the first answer. */
  lemma SyncedButLost(durable: Durable, op: Operation, raw: Body, newRaw: Body, key: Key, newKey: Key) returns (steps: seq<Step>)
    requires durable(raw).Some? && durable(newRaw).Some? && durable(newRaw) != durable(raw) && newKey != key
    ensures var s := Run(durable, steps);
            && op in s.store && s.store[op].status == Synced && Some(s.store[op].body) == durable(newRaw)
            && s.store[op].key !in s.accepted && op in s.events && s.events[op] != s.store[op].body
  {
    var record := Record(key, durable(raw).value, Pending, 0);
    var anew := Record(newKey, durable(newRaw).value, Pending, 0);
    steps := SentTwice(durable, op, raw, key);
    steps := Then(durable, steps, Prune(op));
    steps := Then(durable, steps, OfSender(1, Intercept(op, newRaw)));
    steps := Then(durable, steps, OfSender(1, Enqueue(newKey)));
    PrunedAndStoredAnew(durable, op, raw, record, newRaw, anew.body, newKey);
    steps := Then(durable, steps, OfSender(0, Receive(Got(200))));
    steps := Then(durable, steps, OfSender(0, Update));
    LateSuccessMarks(durable, op, raw, record, newRaw, anew);
  }

  lemma AnewAccepted(durable: Durable, op: Operation, raw: Body, record: Record, newRaw: Body, key: Key)
    requires durable(newRaw) == Some(record.body) && key != record.key
    ensures var sent := Next(durable, StoredAnew(op, raw, record, newRaw, Record(key, record.body, Pending, 0)), OfSender(1, Decide(true)));
            var s := Next(durable, sent, Accept(2));
            s.accepted == map[record.key := record.body, key := record.body] && s.eventLog == [op]
  {
    var s := StoredAnew(op, raw, record, newRaw, Record(key, record.body, Pending, 0));
    assert Next(durable, s, OfSender(1, Decide(true))) == Sent(s, 1);
  }

  /** A card given the same answer again after its record was pruned goes out under a second key; the server
      accepts it, too, without a second event. */
  lemma TwoKeysOneEvent(durable: Durable, op: Operation, raw: Body, key: Key, newKey: Key) returns (steps: seq<Step>)
    requires durable(raw).Some? && newKey != key
    ensures var s := Run(durable, steps); s.accepted.Keys == {key, newKey} && s.eventLog == [op]
  {
    var record := Record(key, durable(raw).value, Pending, 0);
    steps := SentTwice(durable, op, raw, key);
    steps := Then(durable, steps, Prune(op));
    steps := Then(durable, steps, OfSender(1, Intercept(op, raw)));
    steps := Then(durable, steps, OfSender(1, Enqueue(newKey)));
    PrunedAndStoredAnew(durable, op, raw, record, raw, record.body, newKey);
    steps := Then(durable, steps, OfSender(1, Decide(true)));
    steps := Then(durable, steps, Accept(2));
    AnewAccepted(durable, op, raw, record, raw, newKey);
  }

  // ---------- a drain outlives a logout ----------

  /** A pending review with a drain before it. */
  function OneDrained(op: Operation, record: Record, session: Option<string>): State {
    State(map[op := record], session, map[], map[], true, [Ready(op.user, [Entry(op, record)])], map[], map[], [],
      map[record.key := (op, record.body)], [], {})
  }

  lemma QueuedOffline(durable: Durable, op: Operation, raw: Body, key: Key) returns (steps: seq<Step>)
    requires durable(raw).Some?
    ensures var record := Record(key, durable(raw).value, Pending, 0);
            Run(durable, steps) == OneDrained(op, record, Some(op.user)).(syncInFlight := false, drains := [])
  {
    steps := Then(durable, [], SetSession(Some(op.user)));
    Enqueueing(durable, Run(durable, steps), 0, op, raw, durable(raw).value, key);
    steps := Then(durable, steps, OfSender(0, Intercept(op, raw)));
    steps := Then(durable, steps, OfSender(0, Enqueue(key)));
    steps := Then(durable, steps, OfSender(0, Decide(false)));
  }

  /** A review answered offline is drained later; after the logout the drain still sends it under the
      user who has left. */
  lemma DrainSendsAfterLogout(durable: Durable, op: Operation, raw: Body, key: Key) returns (before: seq<Step>, steps: seq<Step>)
    requires durable(raw).Some?
    ensures before <= steps && Run(durable, before).session == None && Run(durable, before).sends == []
    ensures var s := Run(durable, steps);
            s.session == None && |s.sends| == 1 && s.sends[0].key == Some(key) && s.sends[0].drainUser == Some(op.user)
  {
    var record := Record(key, durable(raw).value, Pending, 0);
    before := QueuedOffline(durable, op, raw, key);
    ListOne(durable, Run(durable, before), op, record);
    before := Then(durable, before, StartDrain);
    before := Then(durable, before, OfDrain(0, List([Entry(op, record)])));
    before := Then(durable, before, SetSession(None));
    assert Run(durable, before) == OneDrained(op, record, None);
    steps := Then(durable, before, OfDrain(0, SendFirst));
  }
  /** A drain's request is answered with 401 and its refresh is under way; after the logout the refresh succeeds:
      the session is back and the review goes out again. */
  lemma RefreshUndoesLogout(durable: Durable, op: Operation, raw: Body, key: Key) returns (before: seq<Step>, steps: seq<Step>)
    requires durable(raw).Some?
    ensures before <= steps && Run(durable, before).session == None && |Run(durable, before).sends| == 1
    ensures steps == before + [OfDrain(0, Refresh(Some(op.user)))]
    ensures var s := Run(durable, steps);
            s.session == Some(op.user) && |s.sends| == 2 && s.sends[1].key == Some(key) && s.sends[1].drainUser == Some(op.user)
  {
    var record := Record(key, durable(raw).value, Pending, 0);
    before := QueuedOffline(durable, op, raw, key);
    ListOne(durable, Run(durable, before), op, record);
    before := Then(durable, before, StartDrain);
    before := Then(durable, before, OfDrain(0, List([Entry(op, record)])));
    assert Run(durable, before) == OneDrained(op, record, Some(op.user));
    before := Then(durable, before, OfDrain(0, SendFirst));
    before := Then(durable, before, OfDrain(0, DrainAction.Answer(Got(401))));
    before := Then(durable, before, SetSession(None));
    steps := Then(durable, before, OfDrain(0, Refresh(Some(op.user))));
  }
}
