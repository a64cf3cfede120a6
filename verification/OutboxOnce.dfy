/** One review, its keys and its event: the server records every review once, whatever is pruned; exactly when it
    gets another key, and exactly which keys the server accepts.
 */
module OutboxOnce {
  import opened Basics
  import opened OutboxMachine
  import opened OutboxReach
  import opened OutboxHarm

  /** The keys ever created for an operation. */
  function KeysOf(s: State, op: Operation): set<Key> { set key | key in s.issued && s.issued[key].0 == op }

  /** How often the operation's record is pruned over a run. */
  function Prunes(durable: Durable, s: State, steps: seq<Step>, op: Operation): nat
    decreases |steps|
  {
    if steps == [] then 0
    else (if steps[0] == Prune(op) && Enabled(durable, s, steps[0]) then 1 else 0)
         + Prunes(durable, Next(durable, s, steps[0]), steps[1..], op)
  }

  /** The stored record has a key of its own; every other key is of a pruned record. */
  ghost predicate KeysCounted(s: State, op: Operation, pruned: nat) {
    && |KeysOf(s, op)| <= pruned + (if op in s.store then 1 else 0)
    && (op in s.store ==> s.store[op].key in KeysOf(s, op))
  }

  lemma CreatedCounted(s: State, tid: nat, other: Operation, raw: Body, record: Record, op: Operation, pruned: nat)
    requires KeysCounted(s, op, pruned) && other !in s.store && record.key !in s.issued
    ensures KeysCounted(Created(s, tid, other, raw, record), op, pruned)
  {
    var t := Created(s, tid, other, raw, record);
    if other == op {
      assert KeysOf(t, op) == KeysOf(s, op) + {record.key};
    } else {
      assert KeysOf(t, op) == KeysOf(s, op);
    }
  }

  /** A step that creates nothing and keeps the stored key. */
  lemma SameCounted(s: State, t: State, op: Operation, pruned: nat)
    requires KeysCounted(s, op, pruned) && t.issued == s.issued
    requires op in t.store <==> op in s.store
    requires op in s.store ==> t.store[op].key == s.store[op].key
    ensures KeysCounted(t, op, pruned)
  {
    assert KeysOf(t, op) == KeysOf(s, op);
  }

  lemma EnqueuedCounted(s: State, tid: nat, key: Key, op: Operation, pruned: nat)
    requires KeysCounted(s, op, pruned) && tid in s.intercepted && key !in s.issued
    ensures KeysCounted(Enqueued(Released(s, tid), tid, s.intercepted[tid], key), op, pruned)
  {
    var i := s.intercepted[tid];
    SameCounted(s, Released(s, tid), op, pruned);
    if i.op in s.store {
      SameCounted(s, Enqueued(Released(s, tid), tid, i, key), op, pruned);
    } else {
      CreatedCounted(Released(s, tid), tid, i.op, i.raw, Record(key, i.body, Pending, 0), op, pruned);
    }
  }

  lemma SenderCounted(durable: Durable, s: State, tid: nat, action: SenderAction, op: Operation, pruned: nat)
    requires KeysCounted(s, op, pruned) && CanSender(durable, s, tid, action)
    ensures KeysCounted(TakeSender(durable, s, tid, action), op, pruned)
  {
    match action {
      case Enqueue(key) => EnqueuedCounted(s, tid, key, op, pruned);
      case Update => SameCounted(s, Updated(s, tid), op, pruned);
      case _ => SameCounted(s, TakeSender(durable, s, tid, action), op, pruned);
    }
  }

  lemma DrainCounted(s: State, d: nat, action: DrainAction, op: Operation, pruned: nat)
    requires KeysCounted(s, op, pruned) && CanDrain(s, d, action)
    ensures KeysCounted(TakeDrain(s, d, action), op, pruned)
  {
    DrainFrame(s, d, action);
    SameCounted(s, TakeDrain(s, d, action), op, pruned);
  }

  lemma PrunedCounted(s: State, op: Operation, pruned: nat)
    requires KeysCounted(s, op, pruned) && op in s.store
    ensures KeysCounted(s.(store := s.store - {op}), op, pruned + 1)
  {
    assert KeysOf(s.(store := s.store - {op}), op) == KeysOf(s, op);
  }

  lemma NextCounted(durable: Durable, s: State, step: Step, op: Operation, pruned: nat)
    requires KeysCounted(s, op, pruned)
    ensures KeysCounted(Next(durable, s, step), op, if step == Prune(op) && Enabled(durable, s, step) then pruned + 1 else pruned)
  {
    if Enabled(durable, s, step) {
      match step {
        case OfSender(tid, action) => SenderCounted(durable, s, tid, action, op, pruned);
        case OfDrain(d, action) => DrainCounted(s, d, action, op, pruned);
        case Prune(other) => if other == op { PrunedCounted(s, op, pruned); } else { SameCounted(s, Next(durable, s, step), op, pruned); }
        case _ => SameCounted(s, Next(durable, s, step), op, pruned);
      }
    }
  }

  lemma {:induction false} RunCounted(durable: Durable, s: State, steps: seq<Step>, op: Operation, pruned: nat)
    requires KeysCounted(s, op, pruned)
    ensures KeysCounted(RunFrom(durable, s, steps), op, pruned + Prunes(durable, s, steps, op))
    decreases |steps|
  {
    if steps != [] {
      var next := if steps[0] == Prune(op) && Enabled(durable, s, steps[0]) then pruned + 1 else pruned;
      NextCounted(durable, s, steps[0], op, pruned);
      RunCounted(durable, Next(durable, s, steps[0]), steps[1..], op, next);
    }
  }

  /** Over every run a review has at most one key more than its record is pruned. */
  lemma KeysPerPrune(durable: Durable, steps: seq<Step>, op: Operation)
    ensures |KeysOf(Run(durable, steps), op)| <= 1 + Prunes(durable, INITIAL, steps, op)
  {
    assert KeysOf(INITIAL, op) == {};
    RunCounted(durable, INITIAL, steps, op, 0);
  }

  // ---------- exactly when a review gets another key ----------

  /** A stored review keeps its keys until it is pruned. */
  lemma NextKeepsKeys(durable: Durable, s: State, step: Step, op: Operation)
    requires op in s.store && step != Prune(op)
    ensures var t := Next(durable, s, step); op in t.store && KeysOf(t, op) == KeysOf(s, op)
  {
    var t := Next(durable, s, step);
    if Enabled(durable, s, step) {
      match step {
        case OfSender(tid, action) => SenderKeepsKeys(durable, s, tid, action, op);
        case OfDrain(d, action) => DrainFrame(s, d, action);
        case _ =>
      }
    }
    if t.issued == s.issued { assert KeysOf(t, op) == KeysOf(s, op); }
  }

  lemma SenderKeepsKeys(durable: Durable, s: State, tid: nat, action: SenderAction, op: Operation)
    requires op in s.store && CanSender(durable, s, tid, action)
    ensures var t := TakeSender(durable, s, tid, action); op in t.store && KeysOf(t, op) == KeysOf(s, op)
  {
    var t := TakeSender(durable, s, tid, action);
    if action.Enqueue? && s.intercepted[tid].op !in s.store {
      assert t.issued == s.issued[action.key := (s.intercepted[tid].op, s.intercepted[tid].body)];
    } else {
      assert t.issued == s.issued;
    }
    assert KeysOf(t, op) == KeysOf(s, op);
  }

  lemma {:induction false} RunKeepsKeys(durable: Durable, s: State, more: seq<Step>, op: Operation)
    requires op in s.store && Allowed(NoPruneOf(op), more)
    ensures KeysOf(RunFrom(durable, s, more), op) == KeysOf(s, op)
    decreases |more|
  {
    if more != [] {
      assert NoPruneOf(op)(more[0]);
      NextKeepsKeys(durable, s, more[0], op);
      forall k | 0 <= k < |more[1..]| ensures NoPruneOf(op)(more[1..][k]) { assert more[1..][k] == more[k + 1]; }
      RunKeepsKeys(durable, Next(durable, s, more[0]), more[1..], op);
    }
  }

  ghost function Rekeyed(s: State, op: Operation): State -> bool { (t: State) => KeysOf(t, op) != KeysOf(s, op) }

  lemma UnstoredIsRekeyed(durable: Durable, s: State, op: Operation)
    requires Canonical(durable) && Reachable(durable, s) && KeysOf(s, op) != {} && op !in s.store
    ensures Can(durable, s, NoPruneOf(op), Rekeyed(s, op))
  {
    ReachableIsGood(durable, s);
    var first :| first in KeysOf(s, op);
    var key := FreshKey(s.issued);
    var tid := AboveAll(s.senders.Keys + s.intercepted.Keys);
    assert tid !in s.senders && tid !in s.intercepted by {
      assert tid in s.senders.Keys + s.intercepted.Keys ==> tid < tid;
    }
    var q := StoredAgain(durable, s, op, s.issued[first].1, tid, key, Rekeyed(s, op));
    assert key in KeysOf(q, op) && key !in KeysOf(s, op);
    CanNow(durable, q, NoPruneOf(op), Rekeyed(s, op));
  }

  /** A review that had a key gets another one, without a further prune of it, if and only if its record is
      not stored any more. */
  lemma AnotherKeyIff(durable: Durable, steps: seq<Step>, op: Operation)
    requires Canonical(durable) && KeysOf(Run(durable, steps), op) != {}
    ensures var s := Run(durable, steps);
            op !in s.store <==> exists more: seq<Step> :: Allowed(NoPruneOf(op), more) && KeysOf(RunFrom(durable, s, more), op) != KeysOf(s, op)
  {
    var s := Run(durable, steps);
    if op in s.store {
      forall more: seq<Step> | Allowed(NoPruneOf(op), more) ensures KeysOf(RunFrom(durable, s, more), op) == KeysOf(s, op) {
        RunKeepsKeys(durable, s, more, op);
      }
    } else {
      UnstoredIsRekeyed(durable, s, op);
      var more: seq<Step> :| Allowed(NoPruneOf(op), more) && Rekeyed(s, op)(RunFrom(durable, s, more));
    }
  }

  // ---------- one event for one review ----------

  /** Over every run, pruned or not, the server records at most one event for a review, and every key it has
      accepted for the review stands for the payload of that event. */
  lemma AppliedAtMostOnce(durable: Durable, steps: seq<Step>, op: Operation)
    requires Canonical(durable)
    ensures var s := Run(durable, steps);
            && (forall i, j :: 0 <= i < j < |s.eventLog| ==> !(s.eventLog[i] == op && s.eventLog[j] == op))
            && (forall key :: key in s.accepted && key in KeysOf(s, op) ==> op in s.eventLog && op in s.events && s.accepted[key] == s.events[op])
  {
    var s := Run(durable, steps);
    RunKeeps(durable, steps);
    forall key | key in s.accepted && key in KeysOf(s, op)
      ensures op in s.eventLog && op in s.events && s.accepted[key] == s.events[op]
    {
      assert AcceptedOk(s, key);
    }
  }

  ghost function Taken(key: Key): State -> bool { (t: State) => key in t.accepted }

  ghost function Anything(): Step -> bool { step => true }

  lemma SentCanBeTaken(durable: Durable, s: State, key: Key)
    requires Canonical(durable) && Reachable(durable, s) && HasSend(s, key) && key in s.issued
    requires Acceptable(s, s.issued[key].0, s.issued[key].1)
    ensures exists more: seq<Step> :: key in RunFrom(durable, s, more).accepted
  {
    var t := AcceptSent(durable, s, key, Anything(), Taken(key));
    CanNow(durable, t, Anything(), Taken(key));
    var more: seq<Step> :| Allowed(Anything(), more) && Taken(key)(RunFrom(durable, s, more));
  }

  lemma OtherIsNeverTaken(durable: Durable, s: State, key: Key, more: seq<Step>)
    requires Canonical(durable) && Inv(durable, s) && key in s.issued && !Acceptable(s, s.issued[key].0, s.issued[key].1)
    ensures key !in RunFrom(durable, s, more).accepted
  {
    var t := RunFrom(durable, s, more);
    RunFromKeeps(durable, s, more);
    RunRecords(durable, s, more);
    assert t.issued[key] == s.issued[key];
    assert t.events[s.issued[key].0] == s.events[s.issued[key].0];
  }

  /** A request on the network is accepted under its key, first or second, if and only if the server has recorded
      nothing for its operation yet, or the very payload it carries. */
  lemma KeyAcceptedIff(durable: Durable, steps: seq<Step>, key: Key)
    requires Canonical(durable) && HasSend(Run(durable, steps), key)
    ensures var s := Run(durable, steps);
            && key in s.issued
            && (Acceptable(s, s.issued[key].0, s.issued[key].1) <==> exists more: seq<Step> :: key in RunFrom(durable, s, more).accepted)
  {
    var s := Run(durable, steps);
    var i :| 0 <= i < |s.sends| && s.sends[i].key == Some(key);
    SendIs(durable, s, i);
    if Acceptable(s, s.issued[key].0, s.issued[key].1) {
      SentCanBeTaken(durable, s, key);
    } else {
      RunKeeps(durable, steps);
      forall more: seq<Step> ensures key !in RunFrom(durable, s, more).accepted { OtherIsNeverTaken(durable, s, key, more); }
    }
  }
}
