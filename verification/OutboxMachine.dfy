/** The write-ahead outbox of lesson reviews as interleaved steps: intercepted sends, one drain of
    the stored queue, an unreliable network, session changes, pruning, and the server, which records one
    review per operation and answers the same review again under any key.
 */
module OutboxMachine {
  import opened Basics

  type Key = string
  type Body = string

  /** One logical review: a user's review of a word of a lesson at a lesson version. */
  datatype Operation = Operation(user: string, lesson: string, word: nat, version: nat)

  datatype Status = Pending | Failed | Synced

  /** What is stored under an operation. */
  datatype Record = Record(key: Key, body: Body, status: Status, attempts: nat)

  datatype Entry = Entry(op: Operation, record: Record)

  // ---------- answers ----------

  datatype Disposition = Accepted | RefreshSession | Retry | Rejected

  function ResponseDisposition(status: int): Disposition {
    if 200 <= status < 300 then Accepted
    else if status == 401 then RefreshSession
    else if status == 408 || status == 425 || status == 429 || status >= 500 then Retry
    else Rejected
  }

  /** The outcome of a request: no response, or a response status. */
  datatype Answer = Lost | Got(status: int)

  // ---------- the participants ----------

  /** An intercepted review: stored, then sent, then answered. `raw` is the body of the page's own request. */
  datatype Sender =
    | Queued(op: Operation, record: Record, raw: Body)
    | Waiting(op: Operation, record: Record, raw: Body)
    | Answered(op: Operation, record: Record, answer: Answer)

  /** A review request caught with the session of that moment, before anything is stored; `body` is the
      canonical text of its own body. */
  datatype Intercepted = Intercepted(op: Operation, raw: Body, body: Body)

  datatype Mark = MarkSynced | MarkFailed | MarkPending

  /** A drain of one user's queue; `rest[0]` is the record at hand. */
  datatype Drain =
    | Listing(user: string)
    | Ready(user: string, rest: seq<Entry>)
    | First(user: string, rest: seq<Entry>)
    | Refreshing(user: string, rest: seq<Entry>)
    | Second(user: string, rest: seq<Entry>)
    | Marking(user: string, rest: seq<Entry>, mark: Mark)
    | Finishing(user: string)

  /** A review request on the network: without a key where the page's request passed through. `session`
      is the one it was intercepted or sent under, `drainUser` that of a drain. */
  datatype Send = Send(key: Option<Key>, op: Operation, raw: Body, session: Option<string>, drainUser: Option<string>)

  /** A response a participant received for a key of an operation. */
  datatype Receipt = Receipt(op: Operation, key: Key, status: int)

  datatype State = State(
    store: map<Operation, Record>,
    session: Option<string>,
    intercepted: map<nat, Intercepted>, senders: map<nat, Sender>,
    syncInFlight: bool, drains: seq<Drain>,
    accepted: map<Key, Body>, events: map<Operation, Body>, eventLog: seq<Operation>,   // the server
    issued: map<Key, (Operation, Body)>,               // history: every record ever created
    sends: seq<Send>, receipts: set<Receipt>)          // history: requests and responses

  const INITIAL := State(map[], None, map[], map[], false, [], map[], map[], [], map[], [], {})

  // ---------- storage ----------

  /** Stores a new status for an operation that is still stored. */
  function UpdateReview(store: map<Operation, Record>, op: Operation, status: Status, attempts: nat): map<Operation, Record> {
    if op in store then store[op := store[op].(status := status, attempts := attempts)] else store
  }

  // ---------- steps ----------

  /** The canonical text of a valid review payload, or none; what the server reads from a body. */
  type Durable = Body -> Option<Body>

  predicate Keeps(durable: Durable, raw: Body, body: Body) { durable(raw) == Some(body) }

  predicate IsSuccess(answer: Answer) { answer.Got? && ResponseDisposition(answer.status) == Accepted }

  /** A response the network may deliver: a success only for a key the server has accepted. */
  predicate Deliverable(s: State, key: Key, answer: Answer) { IsSuccess(answer) ==> key in s.accepted }

  /** The server can accept a review: it has recorded none for the operation, or this very one. */
  predicate Acceptable(s: State, op: Operation, body: Body) { op in s.events ==> s.events[op] == body }

  function Noted(s: State, op: Operation, key: Key, answer: Answer): set<Receipt> {
    if answer.Got? then s.receipts + {Receipt(op, key, answer.status)} else s.receipts
  }

  // an intercepted review

  datatype SenderAction =
    Intercept(op: Operation, raw: Body) | Enqueue(key: Key) | Decide(online: bool) | Receive(answer: Answer) | Update

  /** A review is intercepted under a session and a valid payload; the session may end before it is stored. */
  predicate CanSender(durable: Durable, s: State, tid: nat, action: SenderAction) {
    match action
    case Intercept(op, raw) => tid !in s.intercepted && tid !in s.senders && s.session == Some(op.user) && durable(raw).Some?
    case Enqueue(key) => tid in s.intercepted && key !in s.issued
    case Decide(_) => tid in s.senders && s.senders[tid].Queued?
    case Receive(answer) => tid in s.senders && s.senders[tid].Waiting? && Deliverable(s, s.senders[tid].record.key, answer)
    case Update => tid in s.senders && s.senders[tid].Answered?
  }

  function Caught(s: State, tid: nat, op: Operation, raw: Body, body: Body): State {
    s.(intercepted := s.intercepted[tid := Intercepted(op, raw, body)])
  }

  function Released(s: State, tid: nat): State { s.(intercepted := s.intercepted - {tid}) }

  /** The write before the send: the stored record of the operation, or a new one with the given key. */
  function Enqueued(s: State, tid: nat, i: Intercepted, key: Key): State {
    if i.op in s.store then s.(senders := s.senders[tid := Queued(i.op, s.store[i.op], i.raw)])
    else Created(s, tid, i.op, i.raw, Record(key, i.body, Pending, 0))
  }

  function Created(s: State, tid: nat, op: Operation, raw: Body, record: Record): State {
    s.(store := s.store[op := record], issued := s.issued[record.key := (op, record.body)],
       senders := s.senders[tid := Queued(op, record, raw)])
  }

  /** The intercepted request goes out under the record's key, with the page's own body. */
  function Sent(s: State, tid: nat): State
    requires tid in s.senders && s.senders[tid].Queued?
  {
    var q := s.senders[tid];
    s.(senders := s.senders[tid := Waiting(q.op, q.record, q.raw)],
       sends := s.sends + [Send(Some(q.record.key), q.op, q.raw, Some(q.op.user), None)])
  }

  function Left(s: State, tid: nat): State { s.(senders := s.senders - {tid}) }

  function Heard(s: State, tid: nat, answer: Answer): State
    requires tid in s.senders && s.senders[tid].Waiting?
  {
    var w := s.senders[tid];
    s.(senders := s.senders[tid := Answered(w.op, w.record, answer)], receipts := Noted(s, w.op, w.record.key, answer))
  }

  /** The status an answer gives a review; a request for a fresh session gives none. */
  function StatusFor(answer: Answer): Option<Status> {
    if answer.Lost? then Some(Pending)
    else match ResponseDisposition(answer.status)
      case Accepted => Some(Synced)
      case Rejected => Some(Failed)
      case Retry => Some(Pending)
      case RefreshSession => None
  }

  function WithStatus(store: map<Operation, Record>, op: Operation, status: Option<Status>, attempts: nat): map<Operation, Record> {
    if status.None? then store else UpdateReview(store, op, status.value, attempts)
  }

  /** The store after an answered review is noted. */
  function AfterReview(s: State, a: Sender): map<Operation, Record>
    requires a.Answered?
  {
    WithStatus(s.store, a.op, StatusFor(a.answer), a.record.attempts + 1)
  }

  function Updated(s: State, tid: nat): State
    requires tid in s.senders && s.senders[tid].Answered?
  {
    Left(s.(store := AfterReview(s, s.senders[tid])), tid)
  }

  function TakeSender(durable: Durable, s: State, tid: nat, action: SenderAction): State
    requires CanSender(durable, s, tid, action)
  {
    match action
    case Intercept(op, raw) => Caught(s, tid, op, raw, durable(raw).value)
    case Enqueue(key) => Enqueued(Released(s, tid), tid, s.intercepted[tid], key)
    case Decide(online) =>
      if Keeps(durable, s.senders[tid].raw, s.senders[tid].record.body) && online then Sent(s, tid) else Left(s, tid)
    case Receive(answer) => Heard(s, tid, answer)
    case Update => Updated(s, tid)
  }

  // the drain

  datatype DrainAction = List(entries: seq<Entry>) | SendFirst | Answer(answer: Answer) | Refresh(user: Option<string>) | MarkIt | Finish

  predicate IsPendingOf(s: State, user: string, entry: Entry) {
    entry.op in s.store && s.store[entry.op] == entry.record && entry.record.status == Pending && entry.op.user == user
  }

  /** The user's pending records, each once. */
  predicate ListsPending(s: State, user: string, entries: seq<Entry>) {
    && (forall k :: 0 <= k < |entries| ==> IsPendingOf(s, user, entries[k]))
    && (forall j, k :: 0 <= j < k < |entries| ==> entries[j].op != entries[k].op)
    && (forall op :: op in s.store && op.user == user && s.store[op].status == Pending ==> Entry(op, s.store[op]) in entries)
  }

  predicate CanDrain(s: State, d: nat, action: DrainAction) {
    d < |s.drains| &&
    match action
    case List(entries) => s.drains[d].Listing? && ListsPending(s, s.drains[d].user, entries)
    case SendFirst => s.drains[d].Ready? && s.drains[d].rest != []
    case Answer(answer) =>
      (s.drains[d].First? || s.drains[d].Second?) && s.drains[d].rest != [] && Deliverable(s, s.drains[d].rest[0].record.key, answer)
    case Refresh(_) => s.drains[d].Refreshing? && s.drains[d].rest != []
    case MarkIt => s.drains[d].Marking? && s.drains[d].rest != []
    case Finish => s.drains[d].Finishing? || (s.drains[d].Ready? && s.drains[d].rest == [])
  }

  function Turned(s: State, d: nat, drain: Drain): State
    requires d < |s.drains|
  {
    s.(drains := s.drains[d := drain])
  }

  function DrainRequest(entry: Entry, user: string): Send {
    Send(Some(entry.record.key), entry.op, entry.record.body, Some(user), Some(user))
  }

  /** The drain sends the record at hand, with the stored body. */
  function DrainSent(s: State, d: nat, drain: Drain): State
    requires d < |s.drains| && (drain.First? || drain.Second?) && drain.rest != []
  {
    Turned(s, d, drain).(sends := s.sends + [DrainRequest(drain.rest[0], drain.user)])
  }

  /** How a drain goes on after an answer. A lost first answer ends it without touching the record. */
  function AfterAnswer(drain: Drain, answer: Answer): Drain
    requires drain.First? || drain.Second?
  {
    if answer.Lost? then
      if drain.First? then Finishing(drain.user) else Marking(drain.user, drain.rest, MarkPending)
    else if drain.First? && answer.status == 401 then Refreshing(drain.user, drain.rest)
    else match ResponseDisposition(answer.status)
      case Accepted => Marking(drain.user, drain.rest, MarkSynced)
      case Rejected => Marking(drain.user, drain.rest, MarkFailed)
      case _ => Marking(drain.user, drain.rest, MarkPending)
  }

  function DrainHeard(s: State, d: nat, answer: Answer): State
    requires d < |s.drains| && (s.drains[d].First? || s.drains[d].Second?) && s.drains[d].rest != []
  {
    var first := s.drains[d].rest[0];
    Turned(s, d, AfterAnswer(s.drains[d], answer)).(receipts := Noted(s, first.op, first.record.key, answer))
  }

  /** A refreshed session of the same user resends the record; of another user ends the drain. */
  function DrainRefreshed(s: State, d: nat, user: Option<string>): State
    requires d < |s.drains| && s.drains[d].Refreshing? && s.drains[d].rest != []
  {
    var drain := s.drains[d];
    if user.None? then Turned(s, d, Marking(drain.user, drain.rest, MarkPending))
    else if user.value != drain.rest[0].op.user then Turned(s, d, Finishing(drain.user)).(session := user)
    else DrainSent(s, d, Second(user.value, drain.rest)).(session := user)
  }

  function MarkStatus(mark: Mark): Status {
    match mark case MarkSynced => Synced case MarkFailed => Failed case MarkPending => Pending
  }

  function AfterMark(drain: Drain): Drain
    requires drain.Marking? && drain.rest != []
  {
    if drain.mark == MarkSynced then Ready(drain.user, drain.rest[1..]) else Finishing(drain.user)
  }

  function MarkedStore(s: State, drain: Drain): map<Operation, Record>
    requires drain.Marking? && drain.rest != []
  {
    UpdateReview(s.store, drain.rest[0].op, MarkStatus(drain.mark), drain.rest[0].record.attempts + 1)
  }

  function DrainMarked(s: State, d: nat): State
    requires d < |s.drains| && s.drains[d].Marking? && s.drains[d].rest != []
  {
    Turned(s.(store := MarkedStore(s, s.drains[d])), d, AfterMark(s.drains[d]))
  }

  function TakeDrain(s: State, d: nat, action: DrainAction): State
    requires CanDrain(s, d, action)
  {
    match action
    case List(entries) => Turned(s, d, Ready(s.drains[d].user, entries))
    case SendFirst => DrainSent(s, d, First(s.drains[d].user, s.drains[d].rest))
    case Answer(answer) => DrainHeard(s, d, answer)
    case Refresh(user) => DrainRefreshed(s, d, user)
    case MarkIt => DrainMarked(s, d)
    case Finish => s.(syncInFlight := false, drains := s.drains[..d] + s.drains[d + 1..])
  }

  // everything

  datatype Step =
    | SetSession(session: Option<string>)
    | PassThrough(op: Operation, raw: Body)
    | OfSender(tid: nat, senderAction: SenderAction)
    | StartDrain
    | OfDrain(d: nat, drainAction: DrainAction)
    | Accept(i: nat)
    | Elsewhere(op: Operation, body: Body)
    | Prune(op: Operation)

  predicate Enabled(durable: Durable, s: State, step: Step) {
    match step
    case SetSession(_) => true
    case PassThrough(op, raw) => s.session == None || durable(raw) == None
    case OfSender(tid, action) => CanSender(durable, s, tid, action)
    case StartDrain => !s.syncInFlight && s.session.Some?
    case OfDrain(d, action) => CanDrain(s, d, action)
    case Accept(i) =>
      i < |s.sends| && s.sends[i].key.Some? && durable(s.sends[i].raw).Some? && s.sends[i].key.value !in s.accepted
      && Acceptable(s, s.sends[i].op, durable(s.sends[i].raw).value)
    case Elsewhere(op, _) => op !in s.events
    case Prune(op) => op in s.store && s.store[op].status == Synced
  }

  /** A review event, unless the operation has one; a different device or a request without a key may bring it. */
  function Recorded(s: State, op: Operation, body: Body): State {
    if op in s.events then s else s.(events := s.events[op := body], eventLog := s.eventLog + [op])
  }

  /** The server accepts a request under its key: it records the review, or recovers the one recorded. */
  function AcceptedAt(s: State, op: Operation, key: Key, body: Body): State {
    Recorded(s, op, body).(accepted := s.accepted[key := body])
  }

  /** One step; a step that cannot happen changes nothing. */
  function Next(durable: Durable, s: State, step: Step): State {
    if !Enabled(durable, s, step) then s
    else match step
      case SetSession(session) => s.(session := session)
      case PassThrough(op, raw) => s.(sends := s.sends + [Send(None, op, raw, s.session, None)])
      case OfSender(tid, action) => TakeSender(durable, s, tid, action)
      case StartDrain => s.(syncInFlight := true, drains := s.drains + [Listing(s.session.value)])
      case OfDrain(d, action) => TakeDrain(s, d, action)
      case Accept(i) => AcceptedAt(s, s.sends[i].op, s.sends[i].key.value, durable(s.sends[i].raw).value)
      case Elsewhere(op, body) => Recorded(s, op, body)
      case Prune(op) => s.(store := s.store - {op})
  }

  function RunFrom(durable: Durable, s: State, steps: seq<Step>): State
    decreases |steps|
  {
    if steps == [] then s else RunFrom(durable, Next(durable, s, steps[0]), steps[1..])
  }

  function Run(durable: Durable, steps: seq<Step>): State { RunFrom(durable, INITIAL, steps) }

  // ---------- the invariant of every run ----------

  /** The canonical text is its own canonical text. */
  ghost predicate Canonical(durable: Durable) {
    forall raw :: durable(raw).Some? ==> durable(durable(raw).value) == durable(raw)
  }

  predicate Issued(s: State, op: Operation, record: Record) { record.key in s.issued && s.issued[record.key] == (op, record.body) }

  /** Some response of this kind was received for the operation. */
  ghost predicate Received(s: State, op: Operation, disposition: Disposition) {
    exists r :: r in s.receipts && r.op == op && ResponseDisposition(r.status) == disposition
  }

  ghost predicate ReceivedFor(s: State, op: Operation, key: Key, disposition: Disposition) {
    exists r :: r in s.receipts && r.op == op && r.key == key && ResponseDisposition(r.status) == disposition
  }

  ghost predicate RecordOk(s: State, op: Operation, record: Record) {
    && Issued(s, op, record)
    && (record.status == Synced ==> Received(s, op, Accepted))
    && (record.status == Failed ==> Received(s, op, Rejected))
  }

  ghost predicate StoreOk(s: State) { forall op :: op in s.store ==> RecordOk(s, op, s.store[op]) }

  ghost predicate SenderOk(durable: Durable, s: State, sender: Sender) {
    && Issued(s, sender.op, sender.record)
    && (sender.Waiting? ==> Keeps(durable, sender.raw, sender.record.body))
    && (sender.Answered? && sender.answer.Got? ==> Receipt(sender.op, sender.record.key, sender.answer.status) in s.receipts)
  }

  ghost predicate EntriesOk(durable: Durable, s: State, user: string, entries: seq<Entry>) {
    && (forall k :: 0 <= k < |entries| ==>
          entries[k].op.user == user && Issued(s, entries[k].op, entries[k].record) && Keeps(durable, entries[k].record.body, entries[k].record.body))
    && (forall j, k :: 0 <= j < k < |entries| ==> entries[j].op != entries[k].op)
  }

  ghost predicate DrainOk(durable: Durable, s: State, drain: Drain) {
    && (!drain.Listing? && !drain.Finishing? ==> EntriesOk(durable, s, drain.user, drain.rest))
    && (drain.Marking? && drain.rest != [] && drain.mark == MarkSynced ==>
          ReceivedFor(s, drain.rest[0].op, drain.rest[0].record.key, Accepted))
    && (drain.Marking? && drain.rest != [] && drain.mark == MarkFailed ==>
          ReceivedFor(s, drain.rest[0].op, drain.rest[0].record.key, Rejected))
  }

  ghost predicate SendOk(durable: Durable, s: State, send: Send) {
    && (send.key.None? <==> send.session.None? || durable(send.raw).None?)
    && (send.key.Some? ==> send.key.value in s.issued && s.issued[send.key.value].0 == send.op
                           && Keeps(durable, send.raw, s.issued[send.key.value].1))
    && (send.drainUser.Some? ==> send.drainUser.value == send.op.user)
  }

  /** An accepted key stands for the review recorded for its operation. */
  predicate AcceptedOk(s: State, key: Key)
    requires key in s.accepted
  {
    key in s.issued && s.accepted[key] == s.issued[key].1 && s.issued[key].0 in s.events && s.events[s.issued[key].0] == s.accepted[key]
  }

  ghost predicate ServerOk(s: State) {
    && (forall key :: key in s.accepted ==> AcceptedOk(s, key))
    && (forall op :: op in s.events <==> op in s.eventLog)
    && (forall i, j :: 0 <= i < j < |s.eventLog| ==> s.eventLog[i] != s.eventLog[j])
    && (forall r :: r in s.receipts && ResponseDisposition(r.status) == Accepted ==> r.key in s.accepted)
  }

  ghost predicate Inv(durable: Durable, s: State) {
    && StoreOk(s) && ServerOk(s)
    && (forall key :: key in s.issued ==> Keeps(durable, s.issued[key].1, s.issued[key].1))
    && (forall tid :: tid in s.intercepted ==> Keeps(durable, s.intercepted[tid].raw, s.intercepted[tid].body))
    && (forall tid :: tid in s.senders ==> SenderOk(durable, s, s.senders[tid]))
    && (forall d :: 0 <= d < |s.drains| ==> DrainOk(durable, s, s.drains[d]))
    && (forall i :: 0 <= i < |s.sends| ==> SendOk(durable, s, s.sends[i]))
    && |s.drains| <= 1 && (s.syncInFlight <==> |s.drains| == 1)
  }

  /** History only grows. */
  ghost predicate Grows(s: State, t: State) {
    && (forall key :: key in s.issued ==> key in t.issued && t.issued[key] == s.issued[key])
    && (forall op :: op in s.events ==> op in t.events && t.events[op] == s.events[op])
    && s.receipts <= t.receipts
  }

  lemma ReceivedGrows(s: State, t: State, op: Operation, disposition: Disposition)
    requires Grows(s, t) && Received(s, op, disposition)
    ensures Received(t, op, disposition)
  {
    var r :| r in s.receipts && r.op == op && ResponseDisposition(r.status) == disposition;
    assert r in t.receipts;
  }

  lemma RecordGrows(s: State, t: State, op: Operation, record: Record)
    requires Grows(s, t) && RecordOk(s, op, record)
    ensures RecordOk(t, op, record)
  {
    if record.status == Synced { ReceivedGrows(s, t, op, Accepted); }
    if record.status == Failed { ReceivedGrows(s, t, op, Rejected); }
  }

  lemma ReceivedForGrows(s: State, t: State, entry: Entry, disposition: Disposition)
    requires Grows(s, t) && ReceivedFor(s, entry.op, entry.record.key, disposition)
    ensures ReceivedFor(t, entry.op, entry.record.key, disposition) && Received(t, entry.op, disposition)
  {
    var r :| r in s.receipts && r.op == entry.op && r.key == entry.record.key && ResponseDisposition(r.status) == disposition;
    assert r in t.receipts;
  }

  lemma DrainGrows(durable: Durable, s: State, t: State, drain: Drain)
    requires Grows(s, t) && DrainOk(durable, s, drain)
    ensures DrainOk(durable, t, drain)
  {
    if drain.Marking? && drain.rest != [] && drain.mark == MarkSynced { ReceivedForGrows(s, t, drain.rest[0], Accepted); }
    if drain.Marking? && drain.rest != [] && drain.mark == MarkFailed { ReceivedForGrows(s, t, drain.rest[0], Rejected); }
  }

  /** The invariant for everything a step does not touch. */
  ghost predicate PartsOk(durable: Durable, s: State, t: State) {
    && (forall op :: op in s.store ==> RecordOk(t, op, s.store[op]))
    && (forall tid :: tid in s.senders ==> SenderOk(durable, t, s.senders[tid]))
    && (forall d :: 0 <= d < |s.drains| ==> DrainOk(durable, t, s.drains[d]))
    && (forall i :: 0 <= i < |s.sends| ==> SendOk(durable, t, s.sends[i]))
  }

  lemma PartsStayOk(durable: Durable, s: State, t: State)
    requires Inv(durable, s) && Grows(s, t)
    ensures PartsOk(durable, s, t)
  {
    forall op | op in s.store ensures RecordOk(t, op, s.store[op]) { RecordGrows(s, t, op, s.store[op]); }
    forall d | 0 <= d < |s.drains| ensures DrainOk(durable, t, s.drains[d]) { DrainGrows(durable, s, t, s.drains[d]); }
  }

  lemma SessionKeeps(durable: Durable, s: State, session: Option<string>)
    requires Inv(durable, s)
    ensures Inv(durable, s.(session := session))
  {
    PartsStayOk(durable, s, s.(session := session));
  }

  lemma AddSend(durable: Durable, s: State, send: Send)
    requires Inv(durable, s) && SendOk(durable, s, send)
    ensures Inv(durable, s.(sends := s.sends + [send]))
  {
    PartsStayOk(durable, s, s.(sends := s.sends + [send]));
  }

  lemma SetSender(durable: Durable, s: State, tid: nat, sender: Sender)
    requires Inv(durable, s) && SenderOk(durable, s, sender)
    ensures Inv(durable, s.(senders := s.senders[tid := sender]))
  {
    PartsStayOk(durable, s, s.(senders := s.senders[tid := sender]));
  }

  lemma CatchKeeps(durable: Durable, s: State, tid: nat, op: Operation, raw: Body, body: Body)
    requires Inv(durable, s) && Keeps(durable, raw, body)
    ensures Inv(durable, Caught(s, tid, op, raw, body))
  {
    PartsStayOk(durable, s, Caught(s, tid, op, raw, body));
  }

  lemma ReleaseKeeps(durable: Durable, s: State, tid: nat)
    requires Inv(durable, s)
    ensures Inv(durable, Released(s, tid))
  {
    PartsStayOk(durable, s, Released(s, tid));
  }

  lemma EnqueueKeeps(durable: Durable, s: State, tid: nat, i: Intercepted, key: Key)
    requires Canonical(durable) && Inv(durable, s) && Keeps(durable, i.raw, i.body) && key !in s.issued
    ensures Inv(durable, Enqueued(s, tid, i, key))
  {
    if i.op in s.store {
      assert RecordOk(s, i.op, s.store[i.op]);
      SetSender(durable, s, tid, Queued(i.op, s.store[i.op], i.raw));
    } else {
      CreatedKeeps(durable, s, tid, i.op, i.raw, Record(key, i.body, Pending, 0));
    }
  }

  lemma LeaveKeeps(durable: Durable, s: State, tid: nat)
    requires Inv(durable, s)
    ensures Inv(durable, Left(s, tid))
  {
    PartsStayOk(durable, s, Left(s, tid));
  }

  lemma TurnKeeps(durable: Durable, s: State, d: nat, drain: Drain)
    requires Inv(durable, s) && d < |s.drains| && DrainOk(durable, s, drain)
    ensures Inv(durable, Turned(s, d, drain))
  {
    var t := Turned(s, d, drain);
    PartsStayOk(durable, s, t);
    DrainGrows(durable, s, t, drain);
  }

  lemma SetStore(durable: Durable, s: State, store: map<Operation, Record>)
    requires Inv(durable, s) && StoreOk(s.(store := store))
    ensures Inv(durable, s.(store := store))
  {
    PartsStayOk(durable, s, s.(store := store));
  }

  lemma AddReceipt(durable: Durable, s: State, op: Operation, key: Key, answer: Answer)
    requires Inv(durable, s) && Deliverable(s, key, answer)
    ensures Inv(durable, s.(receipts := Noted(s, op, key, answer)))
  {
    PartsStayOk(durable, s, s.(receipts := Noted(s, op, key, answer)));
  }

  lemma AddIssued(durable: Durable, s: State, op: Operation, body: Body, key: Key)
    requires Inv(durable, s) && key !in s.issued && Keeps(durable, body, body)
    ensures Inv(durable, s.(issued := s.issued[key := (op, body)]))
  {
    PartsStayOk(durable, s, s.(issued := s.issued[key := (op, body)]));
  }

  lemma CreatedKeeps(durable: Durable, s: State, tid: nat, op: Operation, raw: Body, record: Record)
    requires Inv(durable, s) && record.key !in s.issued && Keeps(durable, record.body, record.body) && record.status == Pending
    ensures Inv(durable, Created(s, tid, op, raw, record))
  {
    var t := s.(issued := s.issued[record.key := (op, record.body)]);
    AddIssued(durable, s, op, record.body, record.key);
    var u := t.(store := t.store[op := record]);
    forall o | o in u.store ensures RecordOk(u, o, u.store[o]) {
      if o != op { RecordGrows(t, u, o, t.store[o]); }
    }
    SetStore(durable, t, u.store);
    SetSender(durable, u, tid, Queued(op, record, raw));
  }

  lemma SentKeeps(durable: Durable, s: State, tid: nat)
    requires Inv(durable, s) && tid in s.senders && s.senders[tid].Queued?
    requires Keeps(durable, s.senders[tid].raw, s.senders[tid].record.body)
    ensures Inv(durable, Sent(s, tid))
  {
    var q := s.senders[tid];
    var send := Send(Some(q.record.key), q.op, q.raw, Some(q.op.user), None);
    assert SenderOk(durable, s, q);
    AddSend(durable, s, send);
    SetSender(durable, s.(sends := s.sends + [send]), tid, Waiting(q.op, q.record, q.raw));
  }

  lemma HeardKeeps(durable: Durable, s: State, tid: nat, answer: Answer)
    requires Inv(durable, s) && tid in s.senders && s.senders[tid].Waiting? && Deliverable(s, s.senders[tid].record.key, answer)
    ensures Inv(durable, Heard(s, tid, answer))
  {
    var w := s.senders[tid];
    assert SenderOk(durable, s, w);
    AddReceipt(durable, s, w.op, w.record.key, answer);
    SetSender(durable, s.(receipts := Noted(s, w.op, w.record.key, answer)), tid, Answered(w.op, w.record, answer));
  }

  lemma UpdatedRecordOk(s: State, op: Operation, status: Status, attempts: nat)
    requires StoreOk(s)
    requires status == Synced ==> Received(s, op, Accepted)
    requires status == Failed ==> Received(s, op, Rejected)
    ensures StoreOk(s.(store := UpdateReview(s.store, op, status, attempts)))
  {
    var t := s.(store := UpdateReview(s.store, op, status, attempts));
    forall o | o in t.store ensures RecordOk(t, o, t.store[o]) {
      assert RecordOk(s, o, s.store[o]);
    }
  }

  lemma StatusKeeps(durable: Durable, s: State, op: Operation, status: Status, attempts: nat)
    requires Inv(durable, s)
    requires status == Synced ==> Received(s, op, Accepted)
    requires status == Failed ==> Received(s, op, Rejected)
    ensures Inv(durable, s.(store := UpdateReview(s.store, op, status, attempts)))
  {
    UpdatedRecordOk(s, op, status, attempts);
    SetStore(durable, s, UpdateReview(s.store, op, status, attempts));
  }

  /** The reason for a status is a response of its kind. */
  ghost predicate Justified(s: State, op: Operation, status: Status) {
    match status
    case Synced => Received(s, op, Accepted)
    case Failed => Received(s, op, Rejected)
    case Pending => true
  }

  lemma JustifiedKeeps(durable: Durable, s: State, op: Operation, status: Status, attempts: nat)
    requires Inv(durable, s) && Justified(s, op, status)
    ensures Inv(durable, s.(store := UpdateReview(s.store, op, status, attempts)))
  {
    StatusKeeps(durable, s, op, status, attempts);
  }

  lemma AnswerJustifies(durable: Durable, s: State, a: Sender)
    requires SenderOk(durable, s, a) && a.Answered? && StatusFor(a.answer).Some?
    ensures Justified(s, a.op, StatusFor(a.answer).value)
  {
    if a.answer.Got? { assert Receipt(a.op, a.record.key, a.answer.status) in s.receipts; }
  }

  lemma AfterReviewKeeps(durable: Durable, s: State, a: Sender)
    requires Inv(durable, s) && SenderOk(durable, s, a) && a.Answered?
    ensures Inv(durable, s.(store := AfterReview(s, a)))
  {
    if StatusFor(a.answer).None? {
      assert s.(store := AfterReview(s, a)) == s;
    } else {
      var status := StatusFor(a.answer).value;
      AnswerJustifies(durable, s, a);
      JustifiedKeeps(durable, s, a.op, status, a.record.attempts + 1);
      assert AfterReview(s, a) == UpdateReview(s.store, a.op, status, a.record.attempts + 1);
    }
  }

  lemma UpdatedKeeps(durable: Durable, s: State, tid: nat)
    requires Inv(durable, s) && tid in s.senders && s.senders[tid].Answered?
    ensures Inv(durable, Updated(s, tid))
  {
    AfterReviewKeeps(durable, s, s.senders[tid]);
    LeaveKeeps(durable, s.(store := AfterReview(s, s.senders[tid])), tid);
  }

  lemma SenderKeeps(durable: Durable, s: State, tid: nat, action: SenderAction)
    requires Canonical(durable) && Inv(durable, s) && CanSender(durable, s, tid, action)
    ensures Inv(durable, TakeSender(durable, s, tid, action))
  {
    match action {
      case Intercept(op, raw) => CatchKeeps(durable, s, tid, op, raw, durable(raw).value);
      case Enqueue(key) =>
        ReleaseKeeps(durable, s, tid);
        EnqueueKeeps(durable, Released(s, tid), tid, s.intercepted[tid], key);
      case Decide(online) =>
        if Keeps(durable, s.senders[tid].raw, s.senders[tid].record.body) && online {
          SentKeeps(durable, s, tid);
        } else {
          LeaveKeeps(durable, s, tid);
        }
      case Receive(answer) => HeardKeeps(durable, s, tid, answer);
      case Update => UpdatedKeeps(durable, s, tid);
    }
  }

  lemma ListedKeeps(durable: Durable, s: State, d: nat, entries: seq<Entry>)
    requires Inv(durable, s) && d < |s.drains| && ListsPending(s, s.drains[d].user, entries)
    ensures Inv(durable, Turned(s, d, Ready(s.drains[d].user, entries)))
  {
    var user := s.drains[d].user;
    forall k | 0 <= k < |entries|
      ensures entries[k].op.user == user && Issued(s, entries[k].op, entries[k].record)
              && Keeps(durable, entries[k].record.body, entries[k].record.body)
    {
      assert IsPendingOf(s, user, entries[k]);
      assert RecordOk(s, entries[k].op, entries[k].record);
    }
    TurnKeeps(durable, s, d, Ready(user, entries));
  }

  lemma DrainSentKeeps(durable: Durable, s: State, d: nat, drain: Drain)
    requires Inv(durable, s) && d < |s.drains| && (drain.First? || drain.Second?) && drain.rest != []
    requires EntriesOk(durable, s, drain.user, drain.rest)
    ensures Inv(durable, DrainSent(s, d, drain))
  {
    TurnKeeps(durable, s, d, drain);
    AddSend(durable, Turned(s, d, drain), DrainRequest(drain.rest[0], drain.user));
  }

  lemma DrainHeardKeeps(durable: Durable, s: State, d: nat, answer: Answer)
    requires Inv(durable, s) && d < |s.drains| && (s.drains[d].First? || s.drains[d].Second?) && s.drains[d].rest != []
    requires Deliverable(s, s.drains[d].rest[0].record.key, answer)
    ensures Inv(durable, DrainHeard(s, d, answer))
  {
    var drain := s.drains[d];
    var first := drain.rest[0];
    assert DrainOk(durable, s, drain);
    var t := s.(receipts := Noted(s, first.op, first.record.key, answer));
    AddReceipt(durable, s, first.op, first.record.key, answer);
    assert EntriesOk(durable, t, drain.user, drain.rest);
    if answer.Got? {
      assert Receipt(first.op, first.record.key, answer.status) in t.receipts;
      assert ReceivedFor(t, first.op, first.record.key, ResponseDisposition(answer.status));
    }
    TurnKeeps(durable, t, d, AfterAnswer(drain, answer));
  }

  lemma DrainRefreshedKeeps(durable: Durable, s: State, d: nat, user: Option<string>)
    requires Inv(durable, s) && d < |s.drains| && s.drains[d].Refreshing? && s.drains[d].rest != []
    ensures Inv(durable, DrainRefreshed(s, d, user))
  {
    var drain := s.drains[d];
    assert DrainOk(durable, s, drain) && drain.rest[0].op.user == drain.user;
    if user.None? {
      TurnKeeps(durable, s, d, Marking(drain.user, drain.rest, MarkPending));
    } else if user.value != drain.rest[0].op.user {
      TurnKeeps(durable, s, d, Finishing(drain.user));
      SessionKeeps(durable, Turned(s, d, Finishing(drain.user)), user);
    } else {
      DrainSentKeeps(durable, s, d, Second(user.value, drain.rest));
      SessionKeeps(durable, DrainSent(s, d, Second(user.value, drain.rest)), user);
    }
  }

  lemma MarkedWas(durable: Durable, s: State, drain: Drain)
    requires DrainOk(durable, s, drain) && drain.Marking? && drain.rest != []
    ensures MarkStatus(drain.mark) == Synced ==> Received(s, drain.rest[0].op, Accepted)
    ensures MarkStatus(drain.mark) == Failed ==> Received(s, drain.rest[0].op, Rejected)
  {
    if drain.mark == MarkSynced { ReceivedForGrows(s, s, drain.rest[0], Accepted); }
    if drain.mark == MarkFailed { ReceivedForGrows(s, s, drain.rest[0], Rejected); }
  }

  lemma AfterMarkOk(durable: Durable, s: State, t: State, drain: Drain)
    requires DrainOk(durable, s, drain) && drain.Marking? && drain.rest != [] && Grows(s, t)
    ensures DrainOk(durable, t, AfterMark(drain))
  {
    assert forall k :: 0 <= k < |drain.rest[1..]| ==> drain.rest[1..][k] == drain.rest[k + 1];
  }

  lemma MarkStoreKeeps(durable: Durable, s: State, drain: Drain)
    requires Inv(durable, s) && DrainOk(durable, s, drain) && drain.Marking? && drain.rest != []
    ensures Inv(durable, s.(store := MarkedStore(s, drain)))
  {
    var first, status := drain.rest[0], MarkStatus(drain.mark);
    MarkedWas(durable, s, drain);
    StatusKeeps(durable, s, first.op, status, first.record.attempts + 1);
    assert MarkedStore(s, drain) == UpdateReview(s.store, first.op, status, first.record.attempts + 1);
  }

  lemma DrainMarkedKeeps(durable: Durable, s: State, d: nat)
    requires Inv(durable, s) && d < |s.drains| && s.drains[d].Marking? && s.drains[d].rest != []
    ensures Inv(durable, DrainMarked(s, d))
  {
    var drain := s.drains[d];
    assert DrainOk(durable, s, drain);
    MarkStoreKeeps(durable, s, drain);
    AfterMarkOk(durable, s, s.(store := MarkedStore(s, drain)), drain);
    TurnKeeps(durable, s.(store := MarkedStore(s, drain)), d, AfterMark(drain));
  }

  lemma FinishKeeps(durable: Durable, s: State, d: nat)
    requires Inv(durable, s) && d < |s.drains|
    ensures Inv(durable, s.(syncInFlight := false, drains := s.drains[..d] + s.drains[d + 1..]))
  {
    PartsStayOk(durable, s, s.(syncInFlight := false, drains := s.drains[..d] + s.drains[d + 1..]));
  }

  lemma StartKeeps(durable: Durable, s: State, user: string)
    requires Inv(durable, s) && !s.syncInFlight
    ensures Inv(durable, s.(syncInFlight := true, drains := s.drains + [Listing(user)]))
  {
    PartsStayOk(durable, s, s.(syncInFlight := true, drains := s.drains + [Listing(user)]));
  }

  lemma DrainKeeps(durable: Durable, s: State, d: nat, action: DrainAction)
    requires Inv(durable, s) && CanDrain(s, d, action)
    ensures Inv(durable, TakeDrain(s, d, action))
  {
    assert DrainOk(durable, s, s.drains[d]);
    match action {
      case List(entries) => ListedKeeps(durable, s, d, entries);
      case SendFirst => DrainSentKeeps(durable, s, d, First(s.drains[d].user, s.drains[d].rest));
      case Answer(answer) => DrainHeardKeeps(durable, s, d, answer);
      case Refresh(user) => DrainRefreshedKeeps(durable, s, d, user);
      case MarkIt => DrainMarkedKeeps(durable, s, d);
      case Finish => FinishKeeps(durable, s, d);
    }
  }

  lemma RecordedServerOk(s: State, op: Operation, body: Body)
    requires ServerOk(s)
    ensures ServerOk(Recorded(s, op, body))
  {
    var t := Recorded(s, op, body);
    forall key | key in t.accepted ensures AcceptedOk(t, key) { assert AcceptedOk(s, key); }
  }

  lemma RecordedKeeps(durable: Durable, s: State, op: Operation, body: Body)
    requires Inv(durable, s)
    ensures Inv(durable, Recorded(s, op, body))
  {
    RecordedServerOk(s, op, body);
    if op !in s.events { PartsStayOk(durable, s, Recorded(s, op, body)); }
  }

  lemma AcceptedServerOk(s: State, key: Key)
    requires ServerOk(s) && key in s.issued && s.issued[key].0 in s.events && s.events[s.issued[key].0] == s.issued[key].1
    ensures ServerOk(s.(accepted := s.accepted[key := s.issued[key].1]))
  {
    var t := s.(accepted := s.accepted[key := s.issued[key].1]);
    forall k | k in t.accepted ensures AcceptedOk(t, k) { if k != key { assert AcceptedOk(s, k); } }
  }

  lemma AddAccepted(durable: Durable, s: State, key: Key)
    requires Inv(durable, s) && key in s.issued && s.issued[key].0 in s.events && s.events[s.issued[key].0] == s.issued[key].1
    ensures Inv(durable, s.(accepted := s.accepted[key := s.issued[key].1]))
  {
    AcceptedServerOk(s, key);
    PartsStayOk(durable, s, s.(accepted := s.accepted[key := s.issued[key].1]));
  }

  lemma AcceptedKeeps(durable: Durable, s: State, key: Key)
    requires Inv(durable, s) && key in s.issued && Acceptable(s, s.issued[key].0, s.issued[key].1)
    ensures Inv(durable, AcceptedAt(s, s.issued[key].0, key, s.issued[key].1))
  {
    RecordedKeeps(durable, s, s.issued[key].0, s.issued[key].1);
    AddAccepted(durable, Recorded(s, s.issued[key].0, s.issued[key].1), key);
  }

  lemma PruneKeeps(durable: Durable, s: State, op: Operation)
    requires Inv(durable, s)
    ensures Inv(durable, s.(store := s.store - {op}))
  {
    var t := s.(store := s.store - {op});
    forall o | o in t.store ensures RecordOk(t, o, t.store[o]) { RecordGrows(s, t, o, s.store[o]); }
    SetStore(durable, s, t.store);
  }

  lemma NextKeeps(durable: Durable, s: State, step: Step)
    requires Canonical(durable) && Inv(durable, s)
    ensures Inv(durable, Next(durable, s, step))
  {
    if Enabled(durable, s, step) {
      match step {
        case SetSession(session) => SessionKeeps(durable, s, session);
        case PassThrough(op, raw) => AddSend(durable, s, Send(None, op, raw, s.session, None));
        case OfSender(tid, action) => SenderKeeps(durable, s, tid, action);
        case StartDrain => StartKeeps(durable, s, s.session.value);
        case OfDrain(d, action) => DrainKeeps(durable, s, d, action);
        case Accept(i) =>
          assert SendOk(durable, s, s.sends[i]);
          AcceptedKeeps(durable, s, s.sends[i].key.value);
        case Elsewhere(op, body) => RecordedKeeps(durable, s, op, body);
        case Prune(op) => PruneKeeps(durable, s, op);
      }
    }
  }

  lemma {:induction false} RunFromKeeps(durable: Durable, s: State, steps: seq<Step>)
    requires Canonical(durable) && Inv(durable, s)
    ensures Inv(durable, RunFrom(durable, s, steps))
    decreases |steps|
  {
    if steps != [] {
      NextKeeps(durable, s, steps[0]);
      RunFromKeeps(durable, Next(durable, s, steps[0]), steps[1..]);
    }
  }

  lemma RunKeeps(durable: Durable, steps: seq<Step>)
    requires Canonical(durable)
    ensures Inv(durable, Run(durable, steps))
  {
    RunFromKeeps(durable, INITIAL, steps);
  }

  lemma {:induction false} RunThen(durable: Durable, s: State, steps: seq<Step>, step: Step)
    ensures RunFrom(durable, s, steps + [step]) == Next(durable, RunFrom(durable, s, steps), step)
    decreases |steps|
  {
    if steps == [] {
      assert (steps + [step])[1..] == [];
    } else {
      assert (steps + [step])[1..] == steps[1..] + [step];
      RunThen(durable, Next(durable, s, steps[0]), steps[1..], step);
    }
  }

  // ---------- what every interleaving guarantees ----------

  /** A review goes out with an idempotency key exactly when it has a session and a valid payload; the
      key then belongs to a record stored before, of the same operation and with the same canonical
      payload. A drain sends only its own user's records. */
  lemma SendsAreBacked(durable: Durable, steps: seq<Step>, i: nat)
    requires Canonical(durable) && i < |Run(durable, steps).sends|
    ensures var s, send := Run(durable, steps), Run(durable, steps).sends[i];
            && (send.key.Some? <==> send.session.Some? && durable(send.raw).Some?)
            && (send.key.Some? ==> send.key.value in s.issued && s.issued[send.key.value].0 == send.op
                                   && durable(send.raw) == Some(s.issued[send.key.value].1))
            && (send.drainUser.Some? ==> send.drainUser.value == send.op.user)
  {
    RunKeeps(durable, steps);
    assert SendOk(durable, Run(durable, steps), Run(durable, steps).sends[i]);
  }

  /** Two requests under one key carry the same review. */
  lemma OneKeyOneReview(durable: Durable, steps: seq<Step>, i: nat, j: nat)
    requires Canonical(durable) && i < |Run(durable, steps).sends| && j < |Run(durable, steps).sends|
    requires var sends := Run(durable, steps).sends; sends[i].key.Some? && sends[i].key == sends[j].key
    ensures var sends := Run(durable, steps).sends;
            sends[i].op == sends[j].op && durable(sends[i].raw) == durable(sends[j].raw)
  {
    SendsAreBacked(durable, steps, i);
    SendsAreBacked(durable, steps, j);
  }

  /** A stored review is synced only after a 2xx response for its operation, and failed only after a
      response that settles it otherwise: no 2xx, no request for a fresh session, and none of the
      statuses that ask for a later attempt. */
  lemma MarkedAfterResponse(durable: Durable, steps: seq<Step>, op: Operation)
    requires Canonical(durable) && op in Run(durable, steps).store
    ensures var s := Run(durable, steps);
            && (s.store[op].status == Synced ==> exists r :: r in s.receipts && r.op == op && 200 <= r.status < 300)
            && (s.store[op].status == Failed ==>
                  exists r :: r in s.receipts && r.op == op && !(200 <= r.status < 300)
                              && r.status !in {401, 408, 425, 429} && r.status < 500)
  {
    RunKeeps(durable, steps);
    assert RecordOk(Run(durable, steps), op, Run(durable, steps).store[op]);
  }

  /** However many answers were lost, asked for a fresh session or for a later attempt: a review that got no
      other response is still in the queue. */
  lemma RetriedStaysPending(durable: Durable, steps: seq<Step>, op: Operation)
    requires Canonical(durable) && op in Run(durable, steps).store
    requires forall r :: r in Run(durable, steps).receipts && r.op == op ==> r.status in {401, 408, 425, 429} || r.status >= 500
    ensures Run(durable, steps).store[op].status == Pending
  {
    MarkedAfterResponse(durable, steps, op);
  }

  /** What the page's own request makes of its answer: 2xx syncs the review, 408, 425, 429, a server error or
      no answer leaves it in the queue, a request for a fresh session changes nothing, and every other
      status fails it. */
  lemma AnswerDecides(durable: Durable, s: State, tid: nat)
    requires tid in s.senders && s.senders[tid].Answered? && s.senders[tid].op in s.store
    ensures var a, t := s.senders[tid], Next(durable, s, OfSender(tid, Update));
            && (a.answer == Got(401) ==> t.store == s.store)
            && (a.answer != Got(401) ==>
                  t.store == s.store[a.op := s.store[a.op].(attempts := a.record.attempts + 1, status :=
                    if a.answer.Lost? then Pending
                    else if 200 <= a.answer.status < 300 then Synced
                    else if a.answer.status in {408, 425, 429} || 500 <= a.answer.status then Pending
                    else Failed)])
  {
    var a := s.senders[tid];
    assert Next(durable, s, OfSender(tid, Update)).store == AfterReview(s, a);
  }

  /** The mark a drain makes of an answer, by its status; a lost first answer and a first request for a fresh
      session make none. */
  lemma MarkByNumbers(drain: Drain, answer: Answer)
    requires drain.First? || drain.Second?
    ensures var next := AfterAnswer(drain, answer);
            && (next.Marking? <==> drain.Second? || (answer.Got? && answer.status != 401))
            && (next.Marking? ==>
                  next.rest == drain.rest && MarkStatus(next.mark) ==
                    if answer.Lost? then Pending
                    else if 200 <= answer.status < 300 then Synced
                    else if answer.status in {401, 408, 425, 429} || 500 <= answer.status then Pending
                    else Failed)
  {
  }

  lemma MarkNotes(durable: Durable, s: State, d: nat)
    requires d < |s.drains| && (s.drains[d].Marking? ==> s.drains[d].rest != [] && s.drains[d].rest[0].op in s.store)
    ensures var drain, t := s.drains[d], Next(durable, s, OfDrain(d, MarkIt));
            if !drain.Marking? then t == s
            else t.store == s.store[drain.rest[0].op := s.store[drain.rest[0].op].(attempts := drain.rest[0].record.attempts + 1, status := MarkStatus(drain.mark))]
  {
    if s.drains[d].Marking? { assert Next(durable, s, OfDrain(d, MarkIt)) == DrainMarked(s, d); }
  }

  /** What a drain notes after an answer: nothing after a lost first answer or a first request for a fresh
      session; otherwise synced after 2xx, pending after 408, 425, 429, a server error, a lost second
      answer or a second request for a fresh session, and failed after every other status. */
  lemma DrainDecides(durable: Durable, s: State, d: nat, answer: Answer)
    requires CanDrain(s, d, DrainAction.Answer(answer)) && s.drains[d].rest[0].op in s.store
    ensures var first := s.drains[d].rest[0];
            var t := Next(durable, Next(durable, s, OfDrain(d, DrainAction.Answer(answer))), OfDrain(d, MarkIt));
            if s.drains[d].First? && (answer.Lost? || answer.status == 401) then t.store == s.store
            else t.store == s.store[first.op := s.store[first.op].(attempts := first.record.attempts + 1, status :=
                   if answer.Lost? then Pending
                   else if 200 <= answer.status < 300 then Synced
                   else if answer.status in {401, 408, 425, 429} || 500 <= answer.status then Pending
                   else Failed)]
  {
    var heard := Next(durable, s, OfDrain(d, DrainAction.Answer(answer)));
    assert heard == DrainHeard(s, d, answer) && heard.drains[d] == AfterAnswer(s.drains[d], answer) && heard.store == s.store;
    MarkByNumbers(s.drains[d], answer);
    MarkNotes(durable, heard, d);
  }

  lemma DrainsNeverOverlap(durable: Durable, steps: seq<Step>)
    requires Canonical(durable)
    ensures |Run(durable, steps).drains| <= 1
    ensures Run(durable, steps).syncInFlight <==> |Run(durable, steps).drains| == 1
  {
    RunKeeps(durable, steps);
  }

  /** The first request carries the page's own body: it is the stored text exactly when that text is canonical. */
  lemma FirstRequestKeepsPageBody(durable: Durable, s: State, tid: nat)
    requires Inv(durable, s) && tid in s.senders && s.senders[tid].Queued?
    requires Keeps(durable, s.senders[tid].raw, s.senders[tid].record.body)
    ensures var t := Next(durable, s, OfSender(tid, Decide(true)));
            var send := t.sends[|t.sends| - 1];
            && |t.sends| == |s.sends| + 1
            && (send.raw == s.senders[tid].record.body <==> durable(s.senders[tid].raw) == Some(s.senders[tid].raw))
  {
  }
}
