/** A stored review is never lost: it leaves the device only after the server accepted it. */
module OutboxDurability {
  import opened Basics
  import opened OutboxMachine
  import OutboxLate

  /** The review is stored as it was, whatever became of its status. */
  predicate StillStored(s: State, t: State, op: Operation)
    requires op in s.store
  {
    op in t.store && t.store[op].key == s.store[op].key && t.store[op].body == s.store[op].body
  }

  ghost predicate HeardSuccess(s: State, op: Operation) {
    exists r :: r in s.receipts && r.op == op && 200 <= r.status < 300
  }

  /** An intercepted review of an operation not stored yet is written, pending and untried, with the canonical
      text of its payload, before anything is sent; one already stored is left as it is. */
  lemma WrittenBeforeSent(durable: Durable, s: State, tid: nat, key: Key)
    requires CanSender(durable, s, tid, Enqueue(key))
    ensures var i, t := s.intercepted[tid], Next(durable, s, OfSender(tid, Enqueue(key)));
            && t.sends == s.sends && tid !in t.intercepted
            && t.store == (if i.op in s.store then s.store else s.store[i.op := Record(key, i.body, Pending, 0)])
            && t.senders == s.senders[tid := Queued(i.op, t.store[i.op], i.raw)]
  {
    var i := s.intercepted[tid];
    assert Next(durable, s, OfSender(tid, Enqueue(key))) == Enqueued(Released(s, tid), tid, i, key);
  }

  /** A review without a session, or with an invalid payload, goes out as it is, without a key, and nothing is
      stored for it. */
  lemma PassesAsItIs(durable: Durable, s: State, op: Operation, raw: Body)
    ensures var t := Next(durable, s, PassThrough(op, raw));
            if s.session.None? || durable(raw).None? then t == s.(sends := s.sends + [Send(None, op, raw, s.session, None)])
            else t == s
  {
  }

  lemma StepKeepsStored(durable: Durable, s: State, step: Step, op: Operation)
    requires op in s.store && !(step == Prune(op) && s.store[op].status == Synced)
    ensures StillStored(s, Next(durable, s, step), op)
  {
    if Enabled(durable, s, step) {
      match step {
        case OfSender(tid, action) => OutboxLate.SenderStore(durable, s, tid, action, op);
        case OfDrain(d, action) => OutboxLate.DrainStore(s, d, action, op);
        case _ =>
      }
    }
  }

  lemma RunSplits(durable: Durable, before: seq<Step>, more: seq<Step>)
    requires more != []
    ensures Run(durable, before + more) == Next(durable, Run(durable, before + more[..|more| - 1]), more[|more| - 1])
  {
    var init, last := more[..|more| - 1], more[|more| - 1];
    assert before + more == (before + init) + [last];
    RunThen(durable, INITIAL, before + init, last);
  }

  /** Over every run, a stored review keeps its key and its payload until it is pruned, and by then a 2xx
      response for it was received. */
  lemma {:induction false} LeavesOnlyAccepted(durable: Durable, before: seq<Step>, more: seq<Step>, op: Operation)
    requires Canonical(durable) && op in Run(durable, before).store
    ensures || StillStored(Run(durable, before), Run(durable, before + more), op)
            || exists k :: 0 <= k < |more| && more[k] == Prune(op) && HeardSuccess(Run(durable, before + more[..k]), op)
    decreases |more|
  {
    if more == [] {
      assert before + more == before;
    } else {
      var last := |more| - 1;
      var init := more[..last];
      RunSplits(durable, before, more);
      LeavesOnlyAccepted(durable, before, init, op);
      if StillStored(Run(durable, before), Run(durable, before + init), op) {
        var s := Run(durable, before + init);
        if more[last] == Prune(op) && s.store[op].status == Synced {
          MarkedAfterResponse(durable, before + init, op);
          assert HeardSuccess(Run(durable, before + more[..last]), op);
        } else {
          StepKeepsStored(durable, s, more[last], op);
        }
      } else {
        var k :| 0 <= k < |init| && init[k] == Prune(op) && HeardSuccess(Run(durable, before + init[..k]), op);
        assert init[..k] == more[..k] && more[k] == Prune(op);
      }
    }
  }
}
