/** One drain of the review outbox in isolation: the loop over the pending records, with its network
    answers and session refreshes given.
 */
module OutboxDrain {
  import opened Basics
  import opened OutboxMachine

  /** What the network holds for a record: the answer to the first send, the user of a refreshed session
      if the refresh succeeds, and the answer to the send after it. */
  datatype Attempt = Attempt(first: OutboxMachine.Answer, refreshed: Option<string>, second: OutboxMachine.Answer)

  type Network = Operation -> Attempt

  /** The status a final response gives a record. */
  function FinalStatus(status: int): Status {
    match ResponseDisposition(status) case Accepted => Synced case Rejected => Failed case _ => Pending
  }

  /** The status a drain gives a record; none when it leaves the record as it was. */
  function Verdict(user: string, attempt: Attempt): Option<Status> {
    if attempt.first.Lost? then None
    else if attempt.first.status != 401 then Some(FinalStatus(attempt.first.status))
    else if attempt.refreshed.None? then Some(Pending)
    else if attempt.refreshed.value != user then None
    else if attempt.second.Lost? then Some(Pending)
    else Some(FinalStatus(attempt.second.status))
  }

  function AfterVerdict(store: map<Operation, Record>, entry: Entry, verdict: Option<Status>): map<Operation, Record> {
    match verdict
    case None => store
    case Some(status) => UpdateReview(store, entry.op, status, entry.record.attempts + 1)
  }

  /** The requests made for a record. */
  function RequestsFor(user: string, entry: Entry, attempt: Attempt): seq<Send> {
    if attempt.first == Got(401) && attempt.refreshed == Some(user) then [DrainRequest(entry, user), DrainRequest(entry, user)]
    else [DrainRequest(entry, user)]
  }

  function Requests(user: string, entries: seq<Entry>, network: Network): seq<Send> {
    if entries == [] then []
    else Requests(user, entries[..|entries| - 1], network)
         + RequestsFor(user, entries[|entries| - 1], network(entries[|entries| - 1].op))
  }

  /** The listing of a user's records: each stored one once. */
  ghost predicate Lists(store: map<Operation, Record>, user: string, listing: seq<Entry>) {
    && (forall k :: 0 <= k < |listing| ==> IsRecordOf(store, user, listing[k]))
    && (forall j, k :: 0 <= j < k < |listing| ==> listing[j].op != listing[k].op)
    && (forall op :: op in store && op.user == user ==> Entry(op, store[op]) in listing)
  }

  predicate IsRecordOf(store: map<Operation, Record>, user: string, entry: Entry) {
    entry.op in store && store[entry.op] == entry.record && entry.op.user == user
  }

  function PendingOnly(listing: seq<Entry>): seq<Entry> {
    if listing == [] then []
    else
      var before, last := PendingOnly(listing[..|listing| - 1]), listing[|listing| - 1];
      if last.record.status == Pending then before + [last] else before
  }

  function Tried(record: Record, status: Status): Record { record.(status := status, attempts := record.attempts + 1) }

  predicate Has(entries: seq<Entry>, op: Operation) { exists k :: 0 <= k < |entries| && entries[k].op == op }

  /** What a drain did: it synced the first `n` records, dealt with one more at most, and left the rest alone. */
  ghost predicate Drained(user: string, records: seq<Entry>, network: Network,
                          before: map<Operation, Record>, after: map<Operation, Record>, n: nat) {
    && n <= |records|
    && (forall k :: 0 <= k < n ==> Verdict(user, network(records[k].op)) == Some(Synced))
    && (n < |records| ==> Verdict(user, network(records[n].op)) != Some(Synced))
    && after.Keys == before.Keys
    && (forall op :: op in before ==> after[op] == Expected(user, records, network, op, before[op], n))
  }

  /** A stored record after a drain that synced the first `n` of its records. */
  function Expected(user: string, records: seq<Entry>, network: Network, op: Operation, record: Record, n: nat): Record
    requires n <= |records|
  {
    if Has(records[..n], op) then Tried(record, Synced)
    else if n < |records| && records[n].op == op && Verdict(user, network(op)).Some? then
      Tried(record, Verdict(user, network(op)).value)
    else record
  }

  /** The records a drain sends when it syncs the first `n`. */
  function Attempted(records: seq<Entry>, n: nat): seq<Entry>
    requires n <= |records|
  {
    if n < |records| then records[..n + 1] else records
  }

  /** The session after some records were dealt with: the last refreshed one, if any. */
  function SessionAfter(session: Option<string>, entries: seq<Entry>, network: Network): Option<string> {
    if entries == [] then session
    else
      var attempt := network(entries[|entries| - 1].op);
      if attempt.first == Got(401) && attempt.refreshed.Some? then attempt.refreshed
      else SessionAfter(session, entries[..|entries| - 1], network)
  }

  // ---------- what the listing gives ----------

  lemma {:induction false} PendingOnlyContains(listing: seq<Entry>, entry: Entry)
    ensures entry in PendingOnly(listing) <==> entry in listing && entry.record.status == Pending
  {
    if listing != [] {
      PendingOnlyContains(listing[..|listing| - 1], entry);
      assert listing == listing[..|listing| - 1] + [listing[|listing| - 1]];
    }
  }

  lemma {:induction false} PendingOnlyDistinct(listing: seq<Entry>)
    requires forall j, k :: 0 <= j < k < |listing| ==> listing[j].op != listing[k].op
    ensures var r := PendingOnly(listing); forall j, k :: 0 <= j < k < |r| ==> r[j].op != r[k].op
  {
    if listing != [] {
      var before, last := listing[..|listing| - 1], listing[|listing| - 1];
      PendingOnlyDistinct(before);
      var r := PendingOnly(before);
      forall j | 0 <= j < |r| ensures r[j].op != last.op { PendingOnlyContains(before, r[j]); }
    }
  }

  /** The records keep the order of the listing. */
  lemma {:induction false} PendingInOrder(a: seq<Entry>, b: seq<Entry>)
    ensures PendingOnly(a + b) == PendingOnly(a) + PendingOnly(b)
    decreases |b|
  {
    if b == [] {
      assert a + b == a;
    } else {
      var all, before := a + b, b[..|b| - 1];
      assert all[..|all| - 1] == a + before;
      PendingInOrder(a, before);
    }
  }

  /** The drain's records are the user's pending ones, as the interleaved drain lists them. */
  lemma PendingIsListed(s: State, user: string, listing: seq<Entry>)
    requires Lists(s.store, user, listing)
    ensures ListsPending(s, user, PendingOnly(listing))
  {
    var r := PendingOnly(listing);
    PendingOnlyDistinct(listing);
    forall k | 0 <= k < |r| ensures IsPendingOf(s, user, r[k]) { PendingOnlyContains(listing, r[k]); }
    forall op | op in s.store && op.user == user && s.store[op].status == Pending ensures Entry(op, s.store[op]) in r {
      PendingOnlyContains(listing, Entry(op, s.store[op]));
    }
  }

  // ---------- what a drain means for each record ----------

  /** One drain syncs a prefix, counts one attempt for each record it updates, and leaves every record
      after the first unsynced one untouched. */
  lemma DrainIsAPrefix(user: string, records: seq<Entry>, network: Network,
                       before: map<Operation, Record>, after: map<Operation, Record>, n: nat, k: nat)
    requires Drained(user, records, network, before, after, n) && k < |records|
    requires forall i, j :: 0 <= i < j < |records| ==> records[i].op != records[j].op
    requires forall i :: 0 <= i < |records| ==> records[i].op in before && before[records[i].op] == records[i].record && records[i].record.status == Pending
    ensures after[records[k].op].status == Synced <==> k < n
    ensures k > n ==> after[records[k].op] == records[k].record
    ensures after[records[k].op].attempts <= records[k].record.attempts + 1
    ensures after[records[k].op] != records[k].record ==> after[records[k].op].attempts == records[k].record.attempts + 1
    ensures after[records[k].op].key == records[k].record.key && after[records[k].op].body == records[k].record.body
  {
    var op := records[k].op;
    assert after[op] == Expected(user, records, network, op, before[op], n);
    if k < n { assert records[..n][k].op == op; }
  }

  /** Records that were not pending, and other users' records, stay as they were. */
  lemma OthersUntouched(user: string, records: seq<Entry>, network: Network,
                        before: map<Operation, Record>, after: map<Operation, Record>, n: nat, op: Operation)
    requires Drained(user, records, network, before, after, n) && op in before
    requires forall i :: 0 <= i < |records| ==> records[i].op != op
    ensures after[op] == before[op]
  {
    assert after[op] == Expected(user, records, network, op, before[op], n);
  }

  lemma {:induction false} SyncedKeepUser(user: string, entries: seq<Entry>, network: Network)
    requires forall k :: 0 <= k < |entries| ==> Verdict(user, network(entries[k].op)) == Some(Synced)
    ensures SessionAfter(Some(user), entries, network) == Some(user)
  {
    if entries != [] { SyncedKeepUser(user, entries[..|entries| - 1], network); }
  }

  /** A drain leaves another user's session behind exactly when a refresh at the record it stopped at
      brought that user. */
  lemma SessionChangesOnlyAtTheEnd(user: string, records: seq<Entry>, network: Network,
                                   before: map<Operation, Record>, after: map<Operation, Record>, n: nat)
    requires Drained(user, records, network, before, after, n)
    ensures var session := SessionAfter(Some(user), Attempted(records, n), network);
            && session.Some?
            && (session != Some(user) <==>
                  n < |records| && network(records[n].op).first == Got(401)
                  && network(records[n].op).refreshed.Some? && network(records[n].op).refreshed != Some(user))
  {
    SyncedKeepUser(user, records[..n], network);
    if n < |records| {
      assert records[..n + 1][..n] == records[..n];
    } else {
      assert records[..n] == records;
    }
  }

  function CountOf(sends: seq<Send>, op: Operation): nat {
    if sends == [] then 0
    else CountOf(sends[..|sends| - 1], op) + if sends[|sends| - 1].op == op then 1 else 0
  }

  /** How often a record is sent: twice when its first answer asks for a fresh session and the refresh
      brings the same user back, otherwise once. */
  function SendsFor(user: string, attempt: Attempt): nat {
    if attempt.first == Got(401) && attempt.refreshed == Some(user) then 2 else 1
  }

  lemma HasLast(entries: seq<Entry>, op: Operation)
    requires entries != []
    ensures Has(entries, op) <==> Has(entries[..|entries| - 1], op) || entries[|entries| - 1].op == op
  {
    var rest := entries[..|entries| - 1];
    if Has(rest, op) {
      var k :| 0 <= k < |rest| && rest[k].op == op;
      assert entries[k].op == op;
    }
    if Has(entries, op) && entries[|entries| - 1].op != op {
      var k :| 0 <= k < |entries| && entries[k].op == op;
      assert rest[k].op == op;
    }
  }

  lemma CountOfFor(user: string, before: seq<Send>, entry: Entry, attempt: Attempt, op: Operation)
    ensures var all := before + RequestsFor(user, entry, attempt);
            CountOf(all, op) == CountOf(before, op) + if entry.op == op then SendsFor(user, attempt) else 0
  {
    var one := DrainRequest(entry, user);
    assert (before + [one])[..|before|] == before;
    assert before + [one, one] == (before + [one]) + [one] && ((before + [one]) + [one])[..|before| + 1] == before + [one];
  }

  lemma {:induction false} CountOfRequests(user: string, entries: seq<Entry>, network: Network, op: Operation)
    requires forall j, k :: 0 <= j < k < |entries| ==> entries[j].op != entries[k].op
    ensures CountOf(Requests(user, entries, network), op) == if Has(entries, op) then SendsFor(user, network(op)) else 0
  {
    if entries != [] {
      var rest, last := entries[..|entries| - 1], entries[|entries| - 1];
      CountOfRequests(user, rest, network, op);
      CountOfFor(user, Requests(user, rest, network), last, network(last.op), op);
      HasLast(entries, op);
    }
  }

  /** Every request of a drain goes out under the drain's user, for one of its records and with the stored
      key and body. */
  lemma {:induction false} RequestsAreOwn(user: string, entries: seq<Entry>, network: Network, i: nat)
    requires i < |Requests(user, entries, network)|
    ensures Requests(user, entries, network)[i].drainUser == Some(user)
    ensures exists k :: 0 <= k < |entries| && Requests(user, entries, network)[i] == DrainRequest(entries[k], user)
  {
    var rest, last := entries[..|entries| - 1], |entries| - 1;
    if i < |Requests(user, rest, network)| {
      RequestsAreOwn(user, rest, network, i);
      var k :| 0 <= k < |rest| && Requests(user, rest, network)[i] == DrainRequest(rest[k], user);
      assert entries[k] == rest[k];
    } else {
      assert Requests(user, entries, network)[i] == DrainRequest(entries[last], user);
    }
  }

  // ---------- what the statuses mean ----------

  /** The record has the status, with one attempt more, and every other record is as it was. */
  ghost predicate NotedAs(before: map<Operation, Record>, after: map<Operation, Record>, entry: Entry, status: Status)
    requires entry.op in before
  {
    after == before[entry.op := before[entry.op].(status := status, attempts := entry.record.attempts + 1)]
  }

  /** The response that settles a record: 2xx accepts it, 408, 425, 429, a server error or another request for
      a fresh session leaves it in the queue, and every other status fails it. */
  ghost predicate NotedBy(before: map<Operation, Record>, after: map<Operation, Record>, entry: Entry, response: int, synced: bool)
    requires entry.op in before
  {
    && (synced <==> 200 <= response < 300)
    && (200 <= response < 300 ==> NotedAs(before, after, entry, Synced))
    && (response in {401, 408, 425, 429} || response >= 500 ==> NotedAs(before, after, entry, Pending))
    && (!(200 <= response < 300) && response !in {401, 408, 425, 429} && response < 500 ==> NotedAs(before, after, entry, Failed))
  }

  /** The response a drain comes to for a record: the first, or the one after the same user's session was
      refreshed; none when an answer was lost or no session of the user was to be had. */
  function Response(user: string, attempt: Attempt): Option<int> {
    if attempt.first == Got(401) && attempt.refreshed == Some(user) then StatusOf(attempt.second)
    else if attempt.first == Got(401) then None
    else StatusOf(attempt.first)
  }

  function StatusOf(answer: OutboxMachine.Answer): Option<int> { if answer.Lost? then None else Some(answer.status) }

  /** A drain gets past a record exactly on a 2xx response, and the record it stops at is failed exactly on a
      response that settles it otherwise; with any other outcome it is still in the queue. */
  lemma DrainStopsAt(user: string, records: seq<Entry>, network: Network,
                     before: map<Operation, Record>, after: map<Operation, Record>, n: nat, k: nat)
    requires Drained(user, records, network, before, after, n) && k <= n && k < |records|
    requires forall i, j :: 0 <= i < j < |records| ==> records[i].op != records[j].op
    requires forall i :: 0 <= i < |records| ==> records[i].op in before && before[records[i].op] == records[i].record && records[i].record.status == Pending
    ensures var response := Response(user, network(records[k].op));
            && (k < n <==> response.Some? && 200 <= response.value < 300)
            && (after[records[k].op].status == Synced <==> k < n)
            && (after[records[k].op].status == Failed <==>
                  response.Some? && !(200 <= response.value < 300)
                  && response.value !in {401, 408, 425, 429} && response.value < 500)
  {
    DrainIsAPrefix(user, records, network, before, after, n, k);
    var op := records[k].op;
    assert after[op] == Expected(user, records, network, op, before[op], n);
    if k == n {
      assert !Has(records[..n], op);
    } else {
      assert records[..n][k].op == op;
    }
  }

  // ---------- the loop ----------

  /** The outbox of the page: stored reviews, the session, and the requests made. */
  class Outbox {
    var store: map<Operation, Record>
    var session: Option<string>
    var syncInFlight: bool
    var sends: seq<Send>

    constructor (stored: map<Operation, Record>, user: Option<string>)
      ensures store == stored && session == user && !syncInFlight && sends == []
    {
      store, session, syncInFlight, sends := stored, user, false, [];
    }

    method UpdateLessonReview(op: Operation, status: Status, attempts: nat)
      modifies this`store
      ensures store == UpdateReview(old(store), op, status, attempts)
    {
      if op in store { store := store[op := store[op].(status := status, attempts := attempts)]; }
    }

    method SendQueuedReview(entry: Entry, user: string)
      modifies this`sends
      ensures sends == old(sends) + [DrainRequest(entry, user)]
    {
      sends := sends + [DrainRequest(entry, user)];
    }

    /** One record: sent, and after a refreshed session sent again. `synced` is whether the record was accepted;
        otherwise the drain ends. */
    method DrainOne(user: string, entry: Entry, attempt: Attempt) returns (synced: bool)
      requires entry.op in store && entry.op.user == user
      modifies this`store, this`session, this`sends
      ensures sends == old(sends) + RequestsFor(user, entry, attempt)
      ensures synced <==> Verdict(user, attempt) == Some(Synced)
      ensures store == AfterVerdict(old(store), entry, Verdict(user, attempt))
      ensures session == if attempt.first == Got(401) && attempt.refreshed.Some? then attempt.refreshed else old(session)
      // what the answers come to, by their statuses
      ensures attempt.first.Lost? ==> !synced && store == old(store)
      ensures attempt.first.Got? && attempt.first.status != 401 ==> NotedBy(old(store), store, entry, attempt.first.status, synced)
      ensures attempt.first == Got(401) && attempt.refreshed.None? ==> !synced && NotedAs(old(store), store, entry, Pending)
      ensures attempt.first == Got(401) && attempt.refreshed.Some? && attempt.refreshed.value != user ==> !synced && store == old(store)
      ensures attempt.first == Got(401) && attempt.refreshed == Some(user) && attempt.second.Lost? ==>
                !synced && NotedAs(old(store), store, entry, Pending)
      ensures attempt.first == Got(401) && attempt.refreshed == Some(user) && attempt.second.Got? ==>
                NotedBy(old(store), store, entry, attempt.second.status, synced)
    {
      synced := false;
      SendQueuedReview(entry, user);
      if attempt.first.Lost? { return; }
      var status := attempt.first.status;
      if status == 401 {
        if attempt.refreshed.None? {
          UpdateLessonReview(entry.op, Pending, entry.record.attempts + 1);
          return;
        }
        session := attempt.refreshed;
        if attempt.refreshed.value != entry.op.user { return; }
        SendQueuedReview(entry, attempt.refreshed.value);
        if attempt.second.Lost? {
          UpdateLessonReview(entry.op, Pending, entry.record.attempts + 1);
          return;
        }
        status := attempt.second.status;
      }
      var disposition := ResponseDisposition(status);
      if disposition == Accepted {
        UpdateLessonReview(entry.op, Synced, entry.record.attempts + 1);
        synced := true;
      } else if disposition == Rejected {
        UpdateLessonReview(entry.op, Failed, entry.record.attempts + 1);
      } else {
        UpdateLessonReview(entry.op, Pending, entry.record.attempts + 1);
      }
    }

    /** The records in order, until one is not accepted. */
    method DrainRecords(user: string, records: seq<Entry>, network: Network) returns (synchronized: nat)
      requires Stored(records, user, store)
      modifies this`store, this`session, this`sends
      ensures Drained(user, records, network, old(store), store, synchronized)
      ensures sends == old(sends) + Requests(user, Attempted(records, synchronized), network)
      ensures session == SessionAfter(old(session), Attempted(records, synchronized), network)
    {
      synchronized := 0;
      ghost var before := store;
      while synchronized < |records|
        invariant Progress(user, records, network, before, store, synchronized)
        invariant sends == old(sends) + Requests(user, records[..synchronized], network)
        invariant session == SessionAfter(old(session), records[..synchronized], network)
      {
        assert IsRecordOf(before, user, records[synchronized]);
        ghost var soFar := store;
        var synced := DrainOne(user, records[synchronized], network(records[synchronized].op));
        RequestsStep(user, records, network, synchronized, old(sends));
        Advance(user, records, network, before, soFar, store, synchronized);
        if !synced { return; }
        synchronized := synchronized + 1;
      }
      Finished(user, records, network, before, store);
      assert records[..synchronized] == records;
    }

    /** Drains the session user's pending reviews in listing order, unless a drain is under way, there is
        no session or the page is offline. */
    method SyncPendingReviews(online: bool, listing: seq<Entry>, network: Network) returns (synchronized: nat)
      requires session.Some? ==> Lists(store, session.value, listing)
      modifies this
      ensures syncInFlight == old(syncInFlight)
      ensures old(syncInFlight) || old(session).None? || !online ==>
                synchronized == 0 && store == old(store) && session == old(session) && sends == old(sends)
      ensures !old(syncInFlight) && old(session).Some? && online ==>
                var user, records := old(session).value, PendingOnly(listing);
                && Drained(user, records, network, old(store), store, synchronized)
                && sends == old(sends) + Requests(user, Attempted(records, synchronized), network)
                && session == SessionAfter(old(session), Attempted(records, synchronized), network)
    {
      synchronized := 0;
      if syncInFlight || session.None? || !online { return; }
      syncInFlight := true;
      var user, records := session.value, PendingOnly(listing);
      RecordsAreStored(store, user, listing);
      synchronized := DrainRecords(user, records, network);
      syncInFlight := false;
    }
  }

  ghost predicate Stored(records: seq<Entry>, user: string, store: map<Operation, Record>) {
    && (forall i, j :: 0 <= i < j < |records| ==> records[i].op != records[j].op)
    && (forall i :: 0 <= i < |records| ==> IsRecordOf(store, user, records[i]))
  }

  lemma RecordsAreStored(store: map<Operation, Record>, user: string, listing: seq<Entry>)
    requires Lists(store, user, listing)
    ensures Stored(PendingOnly(listing), user, store)
  {
    var r := PendingOnly(listing);
    PendingOnlyDistinct(listing);
    forall i | 0 <= i < |r| ensures IsRecordOf(store, user, r[i]) { PendingOnlyContains(listing, r[i]); }
  }

  /** After `n` accepted records, before the next. */
  ghost predicate Progress(user: string, records: seq<Entry>, network: Network,
                           before: map<Operation, Record>, now: map<Operation, Record>, n: nat) {
    && n <= |records|
    && (forall k :: 0 <= k < n ==> Verdict(user, network(records[k].op)) == Some(Synced))
    && now.Keys == before.Keys
    && (forall op :: op in before ==> now[op] == if Has(records[..n], op) then Tried(before[op], Synced) else before[op])
  }

  lemma Finished(user: string, records: seq<Entry>, network: Network, before: map<Operation, Record>, now: map<Operation, Record>)
    requires Progress(user, records, network, before, now, |records|)
    ensures Drained(user, records, network, before, now, |records|)
  {
  }

  lemma RequestsStep(user: string, records: seq<Entry>, network: Network, n: nat, start: seq<Send>)
    requires n < |records|
    ensures start + Requests(user, Attempted(records, n), network)
            == start + Requests(user, records[..n], network) + RequestsFor(user, records[n], network(records[n].op))
    ensures Attempted(records, n) == records[..n + 1]
    ensures records[..n + 1][..n] == records[..n]
  {
    assert records[..n + 1][..n] == records[..n];
  }

  lemma Advance(user: string, records: seq<Entry>, network: Network, before: map<Operation, Record>,
                now: map<Operation, Record>, after: map<Operation, Record>, n: nat)
    requires n < |records| && Stored(records, user, before) && Progress(user, records, network, before, now, n)
    requires after == AfterVerdict(now, records[n], Verdict(user, network(records[n].op)))
    ensures if Verdict(user, network(records[n].op)) == Some(Synced)
            then Progress(user, records, network, before, after, n + 1)
            else Drained(user, records, network, before, after, n)
  {
    forall op | op in before
      ensures after[op] == if Verdict(user, network(records[n].op)) != Some(Synced) then Expected(user, records, network, op, before[op], n)
                           else if Has(records[..n + 1], op) then Tried(before[op], Synced) else before[op]
    {
      assert records[..n + 1][..n] == records[..n];
      HasLast(records[..n + 1], op);
      if records[n].op == op { assert IsRecordOf(before, user, records[n]) && !Has(records[..n], op); }
    }
  }
  // ---------- the loop as a run of the interleaved machine ----------

  /** The steps of a drain over one record, up to the next record or the end. */
  function RecordSteps(user: string, attempt: Attempt): seq<Step> {
    [OfDrain(0, SendFirst), OfDrain(0, DrainAction.Answer(attempt.first))] + StepsAfterFirst(user, attempt)
  }

  function StepsAfterFirst(user: string, attempt: Attempt): seq<Step> {
    if attempt.first.Lost? then []
    else if attempt.first.status != 401 then [OfDrain(0, MarkIt)]
    else [OfDrain(0, Refresh(attempt.refreshed))] + StepsAfterRefresh(user, attempt)
  }

  function StepsAfterRefresh(user: string, attempt: Attempt): seq<Step> {
    if attempt.refreshed.None? then [OfDrain(0, MarkIt)]
    else if attempt.refreshed.value != user then []
    else [OfDrain(0, DrainAction.Answer(attempt.second)), OfDrain(0, MarkIt)]
  }

  /** A drain that nothing interrupts. */
  function DrainSteps(user: string, records: seq<Entry>, network: Network): seq<Step> {
    if records == [] then []
    else
      var attempt := network(records[0].op);
      RecordSteps(user, attempt) + if Verdict(user, attempt) == Some(Synced) then DrainSteps(user, records[1..], network) else []
  }

  lemma {:induction false} RunOfConcat(durable: Durable, s: State, a: seq<Step>, b: seq<Step>)
    ensures RunFrom(durable, s, a + b) == RunFrom(durable, RunFrom(durable, s, a), b)
    decreases |a|
  {
    if a == [] {
      assert a + b == b;
    } else {
      assert (a + b)[1..] == a[1..] + b;
      RunOfConcat(durable, Next(durable, s, a[0]), a[1..], b);
    }
  }

  lemma RunOfTwo(durable: Durable, s: State, first: Step, second: Step)
    ensures RunFrom(durable, s, [first]) == Next(durable, s, first)
    ensures RunFrom(durable, s, [first, second]) == Next(durable, Next(durable, s, first), second)
  {
    RunThen(durable, s, [], first);
    RunThen(durable, s, [first], second);
    assert [] + [first] == [first] && [first] + [second] == [first, second];
  }

  /** The network's answers to a record can be delivered: a success is for an accepted key. */
  predicate CanHear(s: State, entry: Entry, attempt: Attempt) {
    Deliverable(s, entry.record.key, attempt.first) && Deliverable(s, entry.record.key, attempt.second)
  }

  /** The first request of a record and its answer. */
  lemma FirstHeard(durable: Durable, s: State, user: string, rest: seq<Entry>, answer: OutboxMachine.Answer)
    requires s.drains == [Ready(user, rest)] && rest != [] && Deliverable(s, rest[0].record.key, answer)
    ensures var t := Next(durable, Next(durable, s, OfDrain(0, SendFirst)), OfDrain(0, DrainAction.Answer(answer)));
            t == s.(drains := [AfterAnswer(First(user, rest), answer)], sends := s.sends + [DrainRequest(rest[0], user)], receipts := t.receipts)
  {
    var sent := Next(durable, s, OfDrain(0, SendFirst));
    assert sent == DrainSent(s, 0, First(user, rest)) && sent.drains == [First(user, rest)];
    var heard := Next(durable, sent, OfDrain(0, DrainAction.Answer(answer)));
    assert heard == DrainHeard(sent, 0, answer);
    assert heard.drains == [AfterAnswer(First(user, rest), answer)];
  }

  lemma MarkNoted(durable: Durable, s: State, user: string, rest: seq<Entry>, mark: Mark)
    requires s.drains == [Marking(user, rest, mark)] && rest != []
    ensures Next(durable, s, OfDrain(0, MarkIt))
            == s.(store := UpdateReview(s.store, rest[0].op, MarkStatus(mark), rest[0].record.attempts + 1),
                  drains := [if mark == MarkSynced then Ready(user, rest[1..]) else Finishing(user)])
  {
  }

  lemma SameUserRefreshed(durable: Durable, s: State, user: string, rest: seq<Entry>)
    requires s.drains == [Refreshing(user, rest)] && rest != [] && rest[0].op.user == user
    ensures Next(durable, s, OfDrain(0, Refresh(Some(user))))
            == s.(drains := [Second(user, rest)], session := Some(user), sends := s.sends + [DrainRequest(rest[0], user)])
  {
    assert Next(durable, s, OfDrain(0, Refresh(Some(user)))) == DrainSent(s, 0, Second(user, rest)).(session := Some(user));
  }

  lemma OtherUserRefreshed(durable: Durable, s: State, user: string, rest: seq<Entry>, refreshed: string)
    requires s.drains == [Refreshing(user, rest)] && rest != [] && rest[0].op.user == user && refreshed != user
    ensures Next(durable, s, OfDrain(0, Refresh(Some(refreshed)))) == s.(drains := [Finishing(user)], session := Some(refreshed))
  {
    assert Next(durable, s, OfDrain(0, Refresh(Some(refreshed)))) == Turned(s, 0, Finishing(user)).(session := Some(refreshed));
  }

  lemma RefreshHeard(durable: Durable, s: State, user: string, rest: seq<Entry>, refreshed: Option<string>)
    requires s.drains == [Refreshing(user, rest)] && rest != [] && rest[0].op.user == user
    ensures var t := Next(durable, s, OfDrain(0, Refresh(refreshed)));
            t == s.(drains := [AfterRefresh(user, rest, refreshed)], session := if refreshed.None? then s.session else refreshed,
                    sends := s.sends + if refreshed == Some(user) then [DrainRequest(rest[0], user)] else [])
  {
    if refreshed.None? {
      assert Next(durable, s, OfDrain(0, Refresh(refreshed))) == Turned(s, 0, Marking(user, rest, MarkPending));
    } else {
      if refreshed.value == user {
        SameUserRefreshed(durable, s, user, rest);
      } else {
        OtherUserRefreshed(durable, s, user, rest, refreshed.value);
      }
    }
  }

  function AfterRefresh(user: string, rest: seq<Entry>, refreshed: Option<string>): Drain {
    if refreshed.None? then Marking(user, rest, MarkPending) else if refreshed.value != user then Finishing(user) else Second(user, rest)
  }

  lemma SecondHeard(durable: Durable, s: State, user: string, rest: seq<Entry>, answer: OutboxMachine.Answer)
    requires s.drains == [Second(user, rest)] && rest != [] && Deliverable(s, rest[0].record.key, answer)
    ensures var t := Next(durable, s, OfDrain(0, DrainAction.Answer(answer)));
            t == s.(drains := [AfterAnswer(Second(user, rest), answer)], receipts := t.receipts)
  {
  }

  /** What a stretch of one record's steps comes to, from its sends and session on. */
  ghost predicate RecordDone(s: State, t: State, user: string, rest: seq<Entry>, attempt: Attempt)
    requires rest != []
  {
    && t.store == AfterVerdict(s.store, rest[0], Verdict(user, attempt))
    && t.drains == [if Verdict(user, attempt) == Some(Synced) then Ready(user, rest[1..]) else Finishing(user)]
    && t.accepted == s.accepted
  }

  lemma SecondDecides(durable: Durable, s: State, user: string, rest: seq<Entry>, attempt: Attempt)
    requires rest != [] && CanHear(s, rest[0], attempt) && attempt.first == Got(401) && attempt.refreshed == Some(user)
    requires s.drains == [Second(user, rest)]
    ensures var t := RunFrom(durable, s, [OfDrain(0, DrainAction.Answer(attempt.second)), OfDrain(0, MarkIt)]);
            RecordDone(s, t, user, rest, attempt) && t.sends == s.sends && t.session == s.session
  {
    RunOfTwo(durable, s, OfDrain(0, DrainAction.Answer(attempt.second)), OfDrain(0, MarkIt));
    SecondHeard(durable, s, user, rest, attempt.second);
    var heard := Next(durable, s, OfDrain(0, DrainAction.Answer(attempt.second)));
    var mark := AfterAnswer(Second(user, rest), attempt.second).mark;
    assert Verdict(user, attempt) == Some(MarkStatus(mark));
    MarkNoted(durable, heard, user, rest, mark);
  }

  lemma RefreshDecides(durable: Durable, s: State, user: string, rest: seq<Entry>, attempt: Attempt)
    requires rest != [] && rest[0].op.user == user && CanHear(s, rest[0], attempt) && attempt.first == Got(401)
    requires s.drains == [AfterRefresh(user, rest, attempt.refreshed)]
    ensures var t := RunFrom(durable, s, StepsAfterRefresh(user, attempt));
            RecordDone(s, t, user, rest, attempt) && t.sends == s.sends && t.session == s.session
  {
    if attempt.refreshed.None? {
      RunOfTwo(durable, s, OfDrain(0, MarkIt), OfDrain(0, MarkIt));
      MarkNoted(durable, s, user, rest, MarkPending);
    } else if attempt.refreshed.value == user {
      SecondDecides(durable, s, user, rest, attempt);
    }
  }

  lemma FirstDecides(durable: Durable, s: State, user: string, rest: seq<Entry>, attempt: Attempt)
    requires rest != [] && rest[0].op.user == user && CanHear(s, rest[0], attempt)
    requires s.drains == [AfterAnswer(First(user, rest), attempt.first)]
    ensures var t := RunFrom(durable, s, StepsAfterFirst(user, attempt));
            && RecordDone(s, t, user, rest, attempt)
            && t.sends == s.sends + (if attempt.first == Got(401) && attempt.refreshed == Some(user) then [DrainRequest(rest[0], user)] else [])
            && t.session == if attempt.first == Got(401) && attempt.refreshed.Some? then attempt.refreshed else s.session
  {
    if attempt.first == Got(401) {
      RunOfTwo(durable, s, OfDrain(0, Refresh(attempt.refreshed)), OfDrain(0, MarkIt));
      RunOfConcat(durable, s, [OfDrain(0, Refresh(attempt.refreshed))], StepsAfterRefresh(user, attempt));
      RefreshHeard(durable, s, user, rest, attempt.refreshed);
      RefreshDecides(durable, Next(durable, s, OfDrain(0, Refresh(attempt.refreshed))), user, rest, attempt);
    } else if attempt.first.Got? {
      RunOfTwo(durable, s, OfDrain(0, MarkIt), OfDrain(0, MarkIt));
      MarkNoted(durable, s, user, rest, s.drains[0].mark);
    }
  }

  /** One record of the interleaved drain is one round of the loop. */
  lemma RecordRuns(durable: Durable, s: State, user: string, rest: seq<Entry>, attempt: Attempt)
    requires s.drains == [Ready(user, rest)] && rest != [] && rest[0].op.user == user && CanHear(s, rest[0], attempt)
    ensures var t := RunFrom(durable, s, RecordSteps(user, attempt));
            && RecordDone(s, t, user, rest, attempt)
            && t.sends == s.sends + RequestsFor(user, rest[0], attempt)
            && t.session == if attempt.first == Got(401) && attempt.refreshed.Some? then attempt.refreshed else s.session
  {
    var send, hear := OfDrain(0, SendFirst), OfDrain(0, DrainAction.Answer(attempt.first));
    RunOfTwo(durable, s, send, hear);
    RunOfConcat(durable, s, [send, hear], StepsAfterFirst(user, attempt));
    FirstHeard(durable, s, user, rest, attempt.first);
    FirstDecides(durable, Next(durable, Next(durable, s, send), hear), user, rest, attempt);
  }

  /** Where a drain of the records stands before record `k`: as the loop does. */
  ghost predicate StandsAt(s: State, user: string, records: seq<Entry>, network: Network, before: map<Operation, Record>,
                           sent: seq<Send>, session: Option<string>, k: nat) {
    && k <= |records| && Stored(records, user, before) && Progress(user, records, network, before, s.store, k)
    && (forall i :: 0 <= i < |records| ==> CanHear(s, records[i], network(records[i].op)))
    && s.sends == sent + Requests(user, records[..k], network) && s.session == SessionAfter(session, records[..k], network)
  }

  /** What a drain of the records has come to, as the loop does. */
  ghost predicate EndsAs(s: State, user: string, records: seq<Entry>, network: Network, before: map<Operation, Record>,
                         sent: seq<Send>, session: Option<string>, n: nat) {
    && Drained(user, records, network, before, s.store, n)
    && s.sends == sent + Requests(user, Attempted(records, n), network)
    && s.session == SessionAfter(session, Attempted(records, n), network)
  }

  lemma RecordAdvances(durable: Durable, s: State, user: string, records: seq<Entry>, network: Network,
                       before: map<Operation, Record>, sent: seq<Send>, session: Option<string>, k: nat)
    requires StandsAt(s, user, records, network, before, sent, session, k) && k < |records| && s.drains == [Ready(user, records[k..])]
    ensures var attempt := network(records[k].op);
            var t := RunFrom(durable, s, RecordSteps(user, attempt));
            if Verdict(user, attempt) == Some(Synced)
            then StandsAt(t, user, records, network, before, sent, session, k + 1) && t.drains == [Ready(user, records[k + 1..])]
            else EndsAs(t, user, records, network, before, sent, session, k)
  {
    var attempt := network(records[k].op);
    var t := RunFrom(durable, s, RecordSteps(user, attempt));
    assert IsRecordOf(before, user, records[k]) && records[k..][1..] == records[k + 1..];
    RecordRuns(durable, s, user, records[k..], attempt);
    RequestsStep(user, records, network, k, sent);
    Advance(user, records, network, before, s.store, t.store, k);
  }

  lemma {:induction false} DrainRuns(durable: Durable, s: State, user: string, records: seq<Entry>, network: Network,
                                     before: map<Operation, Record>, sent: seq<Send>, session: Option<string>, k: nat) returns (n: nat)
    requires StandsAt(s, user, records, network, before, sent, session, k) && s.drains == [Ready(user, records[k..])]
    ensures EndsAs(RunFrom(durable, s, DrainSteps(user, records[k..], network)), user, records, network, before, sent, session, n)
    decreases |records| - k
  {
    n := k;
    if k == |records| {
      Finished(user, records, network, before, s.store);
      assert records[..k] == records;
    } else {
      var attempt := network(records[k].op);
      var t := RunFrom(durable, s, RecordSteps(user, attempt));
      RecordAdvances(durable, s, user, records, network, before, sent, session, k);
      assert records[k..][1..] == records[k + 1..];
      RunOfConcat(durable, s, RecordSteps(user, attempt), if Verdict(user, attempt) == Some(Synced) then DrainSteps(user, records[k + 1..], network) else []);
      if Verdict(user, attempt) == Some(Synced) { n := DrainRuns(durable, t, user, records, network, before, sent, session, k + 1); }
    }
  }

  lemma DrainedOnce(user: string, records: seq<Entry>, network: Network, before: map<Operation, Record>,
                    a: map<Operation, Record>, m: nat, b: map<Operation, Record>, n: nat)
    requires Drained(user, records, network, before, a, m) && Drained(user, records, network, before, b, n)
    ensures m == n && a == b
  {
    assert m == n && a.Keys == b.Keys;
  }

  /** The loop does to the store, the requests and the session what the interleaved drain does when nothing
      comes between its steps, whatever answers the network can deliver. */
  lemma LoopIsDrainRun(durable: Durable, s: State, user: string, records: seq<Entry>, network: Network, after: map<Operation, Record>, n: nat)
    requires s.drains == [Ready(user, records)] && Stored(records, user, s.store)
    requires forall i :: 0 <= i < |records| ==> CanHear(s, records[i], network(records[i].op))
    requires Drained(user, records, network, s.store, after, n)
    ensures var t := RunFrom(durable, s, DrainSteps(user, records, network));
            && t.store == after && t.sends == s.sends + Requests(user, Attempted(records, n), network)
            && t.session == SessionAfter(s.session, Attempted(records, n), network)
  {
    assert records[0..] == records && s.sends + [] == s.sends;
    var m := DrainRuns(durable, s, user, records, network, s.store, s.sends, s.session, 0);
    DrainedOnce(user, records, network, s.store, RunFrom(durable, s, DrainSteps(user, records, network)).store, m, after, n);
  }
}
