/** Refreshing the session: the retry loop of one flight, and the single slot all callers share. */
module SessionRefresh {
  import opened Basics

  datatype Kind = Unauthorized | Forbidden | Offline | Timeout | Malformed | Server | Client | Unknown

  datatype Outcome = Session(user: string) | Failure(kind: Kind, code: string)

  /** What a caller asks of the flight it starts, and whether it wants to be sent to the sign-in page. */
  datatype Options = Options(delays: seq<int>, retryTransient: bool, redirectOnInvalid: bool)

  predicate IsRetryable(outcome: Outcome) {
    outcome.Failure?
    && (outcome.code == "refresh_conflict" || outcome.kind == Offline || outcome.kind == Timeout
        || outcome.kind == Server || outcome.kind == Unknown)
  }

  /** Whether attempt `k` with this outcome is followed by another. */
  predicate Retries(o: Options, outcome: Outcome, k: nat) {
    IsRetryable(outcome) && (outcome.code == "refresh_conflict" || o.retryTransient) && k < |o.delays|
  }

  // ---------- one flight ----------

  /** A course of attempts: each but the last called for another. */
  predicate IsTrace(o: Options, attempts: seq<Outcome>) {
    forall k :: 0 <= k < |attempts| - 1 ==> Retries(o, attempts[k], k)
  }

  predicate IsDone(o: Options, attempts: seq<Outcome>) {
    attempts != [] && !Retries(o, attempts[|attempts| - 1], |attempts| - 1)
  }

  /** After which outcomes a course goes on: a refused refresh that another one overtook, and, where the starter
      wants it, no connection, no answer in time, a failure of the server and an unknown one. No session that
      is gone, no forbidden, malformed or rejected request is tried again. */
  predicate AsksAgain(o: Options, outcome: Outcome) {
    match outcome
    case Session(_) => false
    case Failure(kind, code) =>
      code == "refresh_conflict"
      || (o.retryTransient &&
          match kind
          case Offline => true
          case Timeout => true
          case Server => true
          case Unknown => true
          case Unauthorized => false
          case Forbidden => false
          case Malformed => false
          case Client => false)
  }

  /** In a finished course an attempt is followed by another exactly when its outcome asks for one and there is
      a delay left. */
  lemma GoesOnIff(o: Options, attempts: seq<Outcome>, k: nat)
    requires IsTrace(o, attempts) && IsDone(o, attempts) && k < |attempts|
    ensures k < |attempts| - 1 <==> AsksAgain(o, attempts[k]) && k < |o.delays|
  {
    if k < |attempts| - 1 { assert Retries(o, attempts[k], k); }
  }

  /** At most one attempt more than there are delays; the first success or final failure is the last attempt. */
  lemma TraceIsBounded(o: Options, attempts: seq<Outcome>, k: nat)
    requires IsTrace(o, attempts) && k < |attempts|
    ensures |attempts| <= |o.delays| + 1
    ensures attempts[k].Session? || !IsRetryable(attempts[k]) ==> k == |attempts| - 1
    ensures !AsksAgain(o, attempts[k]) ==> k == |attempts| - 1
  {
    if |attempts| > 1 {
      assert Retries(o, attempts[|attempts| - 2], |attempts| - 2);
    }
    if k < |attempts| - 1 {
      assert Retries(o, attempts[k], k);
    }
  }

  /** The same answers end every finished course at the same attempt. */
  lemma TraceIsUnique(o: Options, a: seq<Outcome>, b: seq<Outcome>)
    requires IsTrace(o, a) && IsDone(o, a) && IsTrace(o, b) && IsDone(o, b)
    requires a <= b
    ensures a == b
  {
    assert !Retries(o, b[|a| - 1], |a| - 1);
  }

  /** The retry loop; `network` answers the attempts in order. */
  method PerformRefresh(o: Options, network: nat -> Outcome) returns (result: Outcome, ghost attempts: seq<Outcome>, waited: seq<int>)
    ensures IsTrace(o, attempts) && IsDone(o, attempts)
    ensures forall k :: 0 <= k < |attempts| ==> attempts[k] == network(k)
    ensures forall k :: 0 <= k < |attempts| ==> (k < |attempts| - 1 <==> AsksAgain(o, network(k)) && k < |o.delays|)
    ensures result == network(|waited|) && |attempts| == |waited| + 1
    ensures |waited| <= |o.delays| && waited == o.delays[..|waited|]
  {
    attempts, waited := [], [];
    var attempt := 0;
    while true
      invariant attempt == |attempts| == |waited| <= |o.delays| && waited == o.delays[..attempt]
      invariant forall k :: 0 <= k < attempt ==> attempts[k] == network(k) && Retries(o, network(k), k) && AsksAgain(o, network(k))
      decreases |o.delays| - attempt
    {
      result := network(attempt);
      attempts := attempts + [result];
      if result.Session? { return; }
      var retryable := IsRetryable(result) && (result.code == "refresh_conflict" || o.retryTransient);
      if !retryable || attempt >= |o.delays| { return; }
      waited := waited + [o.delays[attempt]];
      attempt := attempt + 1;
    }
  }

  // ---------- the slot ----------

  /** A flight, with the options of the caller that started it. */
  datatype Flight = Flight(options: Options, attempts: seq<Outcome>, settled: bool)

  /** A caller waits for one flight. */
  datatype Call = Call(flight: nat, redirectOnInvalid: bool)

  datatype State = State(active: Option<nat>, flights: seq<Flight>, calls: seq<Call>,
                         attemptLog: seq<nat>) // history: the flight of every attempt

  const INITIAL := State(None, [], [], [])

  datatype Step = Refresh(options: Options) | Attempt(outcome: Outcome) | Settle

  predicate Running(s: State) {
    s.active.Some? && s.active.value < |s.flights|
    && !IsDone(s.flights[s.active.value].options, s.flights[s.active.value].attempts)
  }

  predicate Finished(s: State) {
    s.active.Some? && s.active.value < |s.flights|
    && IsDone(s.flights[s.active.value].options, s.flights[s.active.value].attempts)
  }

  function Joined(s: State, o: Options): State {
    if s.active.Some? then s.(calls := s.calls + [Call(s.active.value, o.redirectOnInvalid)])
    else State(Some(|s.flights|), s.flights + [Flight(o, [], false)],
               s.calls + [Call(|s.flights|, o.redirectOnInvalid)], s.attemptLog)
  }

  function Attempted(s: State, outcome: Outcome): State
    requires Running(s)
  {
    var f := s.active.value;
    s.(flights := s.flights[f := s.flights[f].(attempts := s.flights[f].attempts + [outcome])], attemptLog := s.attemptLog + [f])
  }

  function Settled(s: State): State
    requires Finished(s)
  {
    var f := s.active.value;
    s.(active := None, flights := s.flights[f := s.flights[f].(settled := true)])
  }

  /** One step; a step that cannot happen changes nothing. */
  function Next(s: State, step: Step): State {
    match step
    case Refresh(o) => Joined(s, o)
    case Attempt(outcome) => if Running(s) then Attempted(s, outcome) else s
    case Settle => if Finished(s) then Settled(s) else s
  }

  function Run(steps: seq<Step>): State {
    if steps == [] then INITIAL else Next(Run(steps[..|steps| - 1]), steps[|steps| - 1])
  }

  /** The outcome a caller gets, once its flight has settled. */
  function OutcomeOf(s: State, call: Call): Option<Outcome> {
    if call.flight < |s.flights| && s.flights[call.flight].settled && s.flights[call.flight].attempts != []
    then Some(s.flights[call.flight].attempts[|s.flights[call.flight].attempts| - 1])
    else None
  }

  ghost predicate FlightOk(flight: Flight) {
    IsTrace(flight.options, flight.attempts) && (flight.settled ==> IsDone(flight.options, flight.attempts))
  }

  ghost predicate SlotOk(s: State) {
    && (s.active.Some? ==> s.active.value == |s.flights| - 1)
    && (forall f :: 0 <= f < |s.flights| ==> (s.flights[f].settled <==> s.active != Some(f)))
  }

  ghost predicate CallsOk(s: State) {
    && (forall c :: 0 <= c < |s.calls| ==> s.calls[c].flight < |s.flights|)
    && (forall c, d :: 0 <= c < d < |s.calls| ==> s.calls[c].flight <= s.calls[d].flight)
  }

  ghost predicate LogOk(s: State) {
    && (forall i :: 0 <= i < |s.attemptLog| ==> s.attemptLog[i] < |s.flights|)
    && (forall i, j :: 0 <= i < j < |s.attemptLog| ==> s.attemptLog[i] <= s.attemptLog[j])
  }

  ghost predicate Inv(s: State) {
    SlotOk(s) && CallsOk(s) && LogOk(s) && forall f :: 0 <= f < |s.flights| ==> FlightOk(s.flights[f])
  }

  lemma AttemptKeeps(s: State, outcome: Outcome)
    requires Inv(s) && Running(s)
    ensures Inv(Attempted(s, outcome))
  {
    var f := s.active.value;
    var flight := s.flights[f];
    var after := flight.(attempts := flight.attempts + [outcome]);
    assert FlightOk(flight) && !flight.settled;
    assert IsTrace(flight.options, after.attempts);
    assert Attempted(s, outcome).flights[f] == after;
  }

  lemma NextKeeps(s: State, step: Step)
    requires Inv(s)
    ensures Inv(Next(s, step))
  {
    if step.Attempt? && Running(s) { AttemptKeeps(s, step.outcome); }
  }

  lemma {:induction false} RunKeeps(steps: seq<Step>)
    ensures Inv(Run(steps))
  {
    if steps != [] {
      RunKeeps(steps[..|steps| - 1]);
      NextKeeps(Run(steps[..|steps| - 1]), steps[|steps| - 1]);
    }
  }

  /** At most one flight is unsettled, it is the one in the slot, and attempts of different flights never
      interleave: each flight makes all of its attempts before the next one starts. */
  lemma OneFlightAtATime(steps: seq<Step>, f: nat, g: nat)
    requires f < |Run(steps).flights| && g < |Run(steps).flights|
    ensures var s := Run(steps);
            && (!s.flights[f].settled && !s.flights[g].settled ==> f == g && s.active == Some(f))
            && (s.active == None ==> s.flights[f].settled)
            && (forall i, j :: 0 <= i < j < |s.attemptLog| ==> s.attemptLog[i] <= s.attemptLog[j])
  {
    RunKeeps(steps);
  }

  /** Every settled flight took a full course of attempts under the options of the caller that started it:
      never more than its delays plus one, ending with the first success or final failure. */
  lemma FlightsAreCourses(steps: seq<Step>, f: nat)
    requires f < |Run(steps).flights|
    ensures var flight := Run(steps).flights[f];
            && |flight.attempts| <= |flight.options.delays| + 1
            && (flight.settled ==> IsTrace(flight.options, flight.attempts) && IsDone(flight.options, flight.attempts))
  {
    RunKeeps(steps);
    var flight := Run(steps).flights[f];
    assert FlightOk(flight);
    if flight.attempts != [] { TraceIsBounded(flight.options, flight.attempts, 0); }
  }

  lemma CallsStay(s: State, step: Step, c: nat)
    requires Inv(s) && c < |s.calls|
    ensures c < |Next(s, step).calls| && Next(s, step).calls[c] == s.calls[c]
    ensures OutcomeOf(s, s.calls[c]).Some? ==> OutcomeOf(Next(s, step), s.calls[c]) == OutcomeOf(s, s.calls[c])
  {
  }

  lemma RunSnoc(before: seq<Step>, step: Step)
    ensures Run(before + [step]) == Next(Run(before), step)
  {
    assert (before + [step])[..|before|] == before;
  }

  lemma CallsStayOn(steps: seq<Step>, step: Step, c: nat)
    requires c < |Run(steps).calls|
    ensures var s, t := Run(steps), Next(Run(steps), step);
            && c < |t.calls| && t.calls[c] == s.calls[c]
            && (OutcomeOf(s, s.calls[c]).Some? ==> OutcomeOf(t, s.calls[c]) == OutcomeOf(s, s.calls[c]))
  {
    RunKeeps(steps);
    CallsStay(Run(steps), step, c);
  }

  lemma {:induction false} OutcomeStays(steps: seq<Step>, more: seq<Step>, c: nat)
    requires c < |Run(steps).calls| && OutcomeOf(Run(steps), Run(steps).calls[c]).Some?
    ensures c < |Run(steps + more).calls| && Run(steps + more).calls[c] == Run(steps).calls[c]
    ensures OutcomeOf(Run(steps + more), Run(steps).calls[c]) == OutcomeOf(Run(steps), Run(steps).calls[c])
  {
    if more == [] {
      assert steps + more == steps;
    } else {
      var rest, last := more[..|more| - 1], more[|more| - 1];
      OutcomeStays(steps, rest, c);
      assert steps + more == (steps + rest) + [last];
      RunSnoc(steps + rest, last);
      CallsStayOn(steps + rest, last, c);
    }
  }

  /** Callers of one flight get the same outcome, and a settled flight keeps it whatever happens later. */
  lemma JoinedCallersAgree(steps: seq<Step>, more: seq<Step>, c: nat, d: nat)
    requires c < |Run(steps).calls| && d < |Run(steps).calls|
    requires Run(steps).calls[c].flight == Run(steps).calls[d].flight
    requires OutcomeOf(Run(steps), Run(steps).calls[c]).Some?
    ensures var s, t := Run(steps), Run(steps + more);
            && c < |t.calls| && d < |t.calls|
            && OutcomeOf(t, t.calls[c]) == OutcomeOf(s, s.calls[c]) == OutcomeOf(t, t.calls[d])
  {
    OutcomeStays(steps, more, c);
    OutcomeStays(steps, more, d);
  }

  // ---------- what a joined caller gets of its own options ----------

  /** The first attempt that ends a course under the options, or the number of attempts. */
  function EndUnder(o: Options, attempts: seq<Outcome>, k: nat): (end: nat)
    requires k <= |attempts|
    ensures k <= end <= |attempts|
    decreases |attempts| - k
  {
    if k == |attempts| || !Retries(o, attempts[k], k) then k else EndUnder(o, attempts, k + 1)
  }

  lemma {:induction false} EndUnderStops(o: Options, attempts: seq<Outcome>, k: nat)
    requires k <= |attempts|
    ensures var end := EndUnder(o, attempts, k);
            && (forall i :: k <= i < end ==> Retries(o, attempts[i], i))
            && (end < |attempts| ==> !Retries(o, attempts[end], end))
    decreases |attempts| - k
  {
    if k < |attempts| && Retries(o, attempts[k], k) { EndUnderStops(o, attempts, k + 1); }
  }

  /** The attempts of a settled flight are a finished course under other options, too, if and only if those
      end at the same attempt; with longer patience the caller is cut off, with less it waits on. */
  lemma JoinedCourseIff(steps: seq<Step>, f: nat, joiner: Options)
    requires f < |Run(steps).flights| && Run(steps).flights[f].settled
    ensures var attempts := Run(steps).flights[f].attempts;
            IsTrace(joiner, attempts) && IsDone(joiner, attempts) <==> EndUnder(joiner, attempts, 0) == |attempts| - 1
  {
    FlightsAreCourses(steps, f);
    var attempts := Run(steps).flights[f].attempts;
    EndUnderStops(joiner, attempts, 0);
  }

  /** A caller that joins gets exactly its own course whatever the network answers if and only if its
      options retry as the starter's do. */
  lemma JoinedOptionsCountIff(starter: Options, joiner: Options)
    ensures (forall attempts :: IsTrace(starter, attempts) && IsDone(starter, attempts) ==> IsTrace(joiner, attempts) && IsDone(joiner, attempts))
            <==> (|joiner.delays| == |starter.delays| && (starter.delays == [] || joiner.retryTransient == starter.retryTransient))
  {
    if |joiner.delays| == |starter.delays| && (starter.delays == [] || joiner.retryTransient == starter.retryTransient) {
      forall attempts | IsTrace(starter, attempts) && IsDone(starter, attempts) ensures IsTrace(joiner, attempts) && IsDone(joiner, attempts) {
        SameOptionsSameCourse(starter, joiner, attempts);
      }
    } else {
      var attempts := Distinguishing(starter, joiner);
      assert IsTrace(starter, attempts) && IsDone(starter, attempts);
    }
  }

  lemma SameOptionsSameCourse(starter: Options, joiner: Options, attempts: seq<Outcome>)
    requires |joiner.delays| == |starter.delays| && (starter.delays == [] || joiner.retryTransient == starter.retryTransient)
    requires IsTrace(starter, attempts) && IsDone(starter, attempts)
    ensures IsTrace(joiner, attempts) && IsDone(joiner, attempts)
  {
    forall k | 0 <= k < |attempts| - 1 ensures Retries(joiner, attempts[k], k) { assert Retries(starter, attempts[k], k); }
  }

  const CONFLICT: Outcome := Failure(Client, "refresh_conflict")
  const OFFLINE: Outcome := Failure(Offline, "")

  /** A course of the starter's that is not one of the joiner's. */
  lemma Distinguishing(starter: Options, joiner: Options) returns (attempts: seq<Outcome>)
    requires !(|joiner.delays| == |starter.delays| && (starter.delays == [] || joiner.retryTransient == starter.retryTransient))
    ensures IsTrace(starter, attempts) && IsDone(starter, attempts)
    ensures !(IsTrace(joiner, attempts) && IsDone(joiner, attempts))
  {
    if |joiner.delays| != |starter.delays| {
      attempts := seq(|starter.delays| + 1, i => CONFLICT);
      var last := |attempts| - 1;
      assert attempts[last] == CONFLICT;
      if |joiner.delays| < |starter.delays| {
        assert attempts[|joiner.delays|] == CONFLICT && !Retries(joiner, attempts[|joiner.delays|], |joiner.delays|);
      } else {
        assert Retries(joiner, attempts[last], last);
      }
    } else if starter.retryTransient {
      attempts := [OFFLINE, Session("")];
      assert !Retries(joiner, attempts[0], 0);
    } else {
      attempts := [OFFLINE];
      assert Retries(joiner, attempts[0], 0);
    }
  }

  /** A caller that joins a flight shares its attempts whatever it asked for: with the starter's options an
      offline failure can be final although the joining caller wanted it retried. */
  lemma JoinedOptionsAreIgnored(starter: Options, joiner: Options)
    requires !starter.retryTransient && joiner.retryTransient && joiner.delays != []
    ensures var offline := Failure(Offline, "");
            var s := Run([Refresh(starter), Refresh(joiner), Attempt(offline), Settle]);
            |s.calls| == 2 && OutcomeOf(s, s.calls[1]) == Some(offline) && Retries(joiner, offline, 0)
  {
    var steps := [Refresh(starter), Refresh(joiner), Attempt(Failure(Offline, "")), Settle];
    assert steps[..3] == [Refresh(starter), Refresh(joiner), Attempt(Failure(Offline, ""))];
    assert steps[..3][..2] == [Refresh(starter), Refresh(joiner)] && steps[..3][..2][..1] == [Refresh(starter)];
    assert Run(steps[..3][..2][..1]) == Next(INITIAL, Refresh(starter)) by { assert steps[..3][..2][..1][..0] == []; }
    assert Run(steps[..3][..2]) == Joined(Joined(INITIAL, starter), joiner);
    var s := Joined(Joined(INITIAL, starter), joiner);
    assert Run(steps[..3]) == Next(s, Attempt(Failure(Offline, "")));
    assert Run(steps) == Next(Run(steps[..3]), Settle);
  }
}
