/** `deliver` of worker.py on one event of the outbox: two transactions around an HTTP request,
    run by any number of workers that may die anywhere. */
module CallbackDelivery {
  import opened Wrappers
  import opened KycTypes

  datatype Event = Event(attempts: nat, nextAttempt: Time, deliveredAt: Option<Time>)

  function PowerOfTwo(n: nat): nat {
    if n == 0 then 1 else 2 * PowerOfTwo(n - 1)
  }

  function Min(a: int, b: int): int {
    if a < b then a else b
  }

  /** The pause after the given attempt, as the code computes it. */
  function Backoff(attempts: nat): Time {
    Min(3600, 10 * PowerOfTwo(Min(attempts, 8))) * SECOND
  }

  const LONGEST: Time := 2560 * SECOND

  /** First transaction; `seen` and `stamp` are its two readings of the clock. */
  function ClaimTx(event: Event, seen: Time, stamp: Time): Option<Event> {
    if event.deliveredAt.Some? || event.nextAttempt > seen then None
    else Some(event.(attempts := event.attempts + 1, nextAttempt := stamp + Backoff(event.attempts + 1)))
  }

  predicate Accepted(status: int) {
    200 <= status < 300
  }

  // ---------------------------------------------------------------- the protocol

  datatype Phase = Posting | Acknowledged

  datatype Step =
    | Claim(worker: nat, seen: Time, stamp: Time)
    | Answer(worker: nat, status: int)     // any HTTP status; an error of the client is a Crash
    | MarkDelivered(worker: nat, stamp: Time)
    | Crash(worker: nat)

  /** `claims` and `answers` are history: the clocks of all claims and all statuses received. */
  datatype State = State(event: Event, workers: map<nat, Phase>, claims: seq<(Time, Time)>, answers: seq<int>)

  predicate Init(s: State, created: Time) {
    s == State(Event(0, created, None), map[], [], [])
  }

  predicate Enabled(s: State, step: Step) {
    match step
    case Claim(worker, seen, stamp) => worker !in s.workers && seen <= stamp
    case Answer(worker, _) => worker in s.workers && s.workers[worker] == Posting
    case MarkDelivered(worker, _) => worker in s.workers && s.workers[worker] == Acknowledged
    case Crash(worker) => worker in s.workers
  }

  function Apply(s: State, step: Step): State
    requires Enabled(s, step)
  {
    match step
    case Claim(worker, seen, stamp) =>
      (match ClaimTx(s.event, seen, stamp)
       case Some(event) => s.(event := event, workers := s.workers[worker := Posting],
           claims := s.claims + [(seen, stamp)])
       case None => s)
    case Answer(worker, status) =>
      s.(workers := if Accepted(status) then s.workers[worker := Acknowledged] else s.workers - {worker},
         answers := s.answers + [status])
    case MarkDelivered(worker, stamp) =>
      s.(event := s.event.(deliveredAt := Some(stamp)), workers := s.workers - {worker})
    case Crash(worker) => s.(workers := s.workers - {worker})
  }

  ghost predicate Reachable(s: State, created: Time) {
    exists steps, s0 :: Init(s0, created) && Legal(s0, steps) && Run(s0, steps) == s
  }

  predicate Legal(s: State, steps: seq<Step>)
    decreases |steps|
  {
    steps != [] ==> Enabled(s, steps[0]) && Legal(Apply(s, steps[0]), steps[1..])
  }

  function Run(s: State, steps: seq<Step>): State
    requires Legal(s, steps)
    decreases |steps|
  {
    if steps == [] then s else Run(Apply(s, steps[0]), steps[1..])
  }

  // ---------------------------------------------------------------- what holds in every state

  /** The 2xx statuses. */
  const OK: set<int> := set status | 200 <= status <= 299

  ghost predicate SomeAccepted(answers: seq<int>) {
    exists i :: 0 <= i < |answers| && answers[i] in OK
  }

  /** The k-th pause is 10 * 2^min(k, 8) seconds: the limit of 3600 seconds is never the smaller one. */
  ghost predicate Paced(claims: seq<(Time, Time)>, created: Time) {
    && (claims != [] ==> created <= claims[0].0)
    && (forall k :: 0 <= k < |claims| ==> claims[k].0 <= claims[k].1)
    && forall k :: 0 <= k < |claims| - 1 ==>
         claims[k].1 + 10 * PowerOfTwo(Min(k + 1, 8)) * SECOND <= claims[k + 1].0
  }

  ghost predicate Inv(s: State, created: Time) {
    && s.event.attempts == |s.claims|
    && Paced(s.claims, created)
    && s.event.nextAttempt == (if s.claims == [] then created
                               else s.claims[|s.claims| - 1].1 + 10 * PowerOfTwo(Min(|s.claims|, 8)) * SECOND)
    && (s.event.deliveredAt.Some? ==> SomeAccepted(s.answers))
    && (forall w :: w in s.workers && s.workers[w] == Acknowledged ==> SomeAccepted(s.answers))
  }

  lemma {:induction false} PowersGrow(m: nat, n: nat)
    requires m <= n
    ensures 1 <= PowerOfTwo(m) <= PowerOfTwo(n)
    decreases n
  {
    if m < n {
      PowersGrow(m, n - 1);
    } else if m > 0 {
      PowersGrow(m - 1, m - 1);
    }
  }

  lemma PowerAtMost(k: nat)
    ensures 1 <= PowerOfTwo(Min(k, 8)) <= 256
  {
    PowersGrow(Min(k, 8), 8);
    assert PowerOfTwo(8) == 2 * PowerOfTwo(7) && PowerOfTwo(7) == 2 * PowerOfTwo(6)
           && PowerOfTwo(6) == 2 * PowerOfTwo(5);
    assert PowerOfTwo(5) == 2 * PowerOfTwo(4) && PowerOfTwo(4) == 2 * PowerOfTwo(3) && PowerOfTwo(3) == 8;
  }

  lemma CapNeverApplies(k: nat)
    ensures Backoff(k) == 10 * PowerOfTwo(Min(k, 8)) * SECOND <= LONGEST < 3600 * SECOND
  {
    PowerAtMost(k);
  }

  lemma Inductive(s: State, step: Step, created: Time)
    requires Inv(s, created) && Enabled(s, step)
    ensures Inv(Apply(s, step), created)
  {
    hide PowerOfTwo;
    if step.Claim? {
      CapNeverApplies(s.event.attempts + 1);
      hide Backoff;
    } else if step.Answer? {
      var answers := s.answers + [step.status];
      if SomeAccepted(s.answers) {
        var i :| 0 <= i < |s.answers| && s.answers[i] in OK;
        assert answers[i] in OK;
      }
      if Accepted(step.status) {
        assert answers[|s.answers|] in OK;
      }
    }
  }

  lemma {:induction false} InvAlongRun(s: State, steps: seq<Step>, created: Time)
    requires Inv(s, created) && Legal(s, steps)
    ensures Inv(Run(s, steps), created)
    decreases |steps|
  {
    hide Inv, Enabled, Apply;
    if steps != [] {
      Inductive(s, steps[0], created);
      InvAlongRun(Apply(s, steps[0]), steps[1..], created);
    }
  }

  /** Over every run: an event counts its attempts, two attempts are at least the pause of the first
      apart, and it is marked delivered only after a request was answered with a 2xx status. */
  lemma DeliveriesArePaced(s: State, created: Time)
    requires Reachable(s, created)
    ensures s.event.attempts == |s.claims| && Paced(s.claims, created)
    ensures s.event.deliveredAt.Some? ==> SomeAccepted(s.answers)
  {
    var steps, s0 :| Init(s0, created) && Legal(s0, steps) && Run(s0, steps) == s;
    InvAlongRun(s0, steps, created);
  }

  /** An undelivered event is due again at most 2560 seconds after its last attempt: a claim then succeeds. */
  lemma DueAgain(s: State, created: Time, worker: nat, seen: Time, stamp: Time)
    requires Reachable(s, created) && s.event.deliveredAt.None?
    requires worker !in s.workers && seen <= stamp
    requires seen >= (if s.claims == [] then created else s.claims[|s.claims| - 1].1 + LONGEST)
    ensures Apply(s, Claim(worker, seen, stamp)).event.attempts == s.event.attempts + 1
  {
    var steps, s0 :| Init(s0, created) && Legal(s0, steps) && Run(s0, steps) == s;
    InvAlongRun(s0, steps, created);
    PowerAtMost(|s.claims|);
  }

  /** A worker goes on to mark the event exactly when it was answered with a 2xx status, and gives up otherwise. */
  lemma AnswerExactly(s: State, worker: nat, status: int)
    requires Enabled(s, Answer(worker, status))
    ensures var s' := Apply(s, Answer(worker, status));
            && (Enabled(s', MarkDelivered(worker, 0)) <==> status in OK)
            && (status !in OK ==> worker !in s'.workers)
            && s'.event == s.event
  {
  }

  /** A delivered event is never attempted again and stays delivered. */
  lemma {:induction false} DeliveredIsFinal(s: State, steps: seq<Step>)
    requires Legal(s, steps) && s.event.deliveredAt.Some?
    ensures Run(s, steps).event.deliveredAt.Some? && Run(s, steps).event.attempts == s.event.attempts
    ensures Run(s, steps).claims == s.claims
    decreases |steps|
  {
    if steps != [] {
      DeliveredIsFinal(Apply(s, steps[0]), steps[1..]);
    }
  }

  // ---------------------------------------------------------------- the row

  /** The event as the two transactions assign its fields. */
  class OutboxRow {
    var attempts: nat
    var nextAttempt: Time
    var deliveredAt: Option<Time>

    ghost function Value(): Event
      reads this
    {
      Event(attempts, nextAttempt, deliveredAt)
    }

    constructor (created: Time)
      ensures Value() == Event(0, created, None)
    {
      attempts, nextAttempt, deliveredAt := 0, created, None;
    }

    method TryClaim(seen: Time, stamp: Time) returns (claimed: bool)
      modifies this
      ensures claimed == ClaimTx(old(Value()), seen, stamp).Some?
      ensures Value() == if claimed then ClaimTx(old(Value()), seen, stamp).value else old(Value())
      ensures claimed <==> old(deliveredAt).None? && old(nextAttempt) <= seen
      ensures claimed ==> attempts == old(attempts) + 1 && deliveredAt.None?
                          && nextAttempt == stamp + 10 * PowerOfTwo(Min(attempts, 8)) * 1_000_000
    {
      CapNeverApplies(attempts + 1);
      if deliveredAt.Some? || nextAttempt > seen {
        return false;
      }
      attempts := attempts + 1;
      nextAttempt := stamp + Backoff(attempts);
      claimed := true;
    }

    /** The answer to the request; only a 2xx status marks the event. */
    method Settle(status: int, stamp: Time) returns (delivered: bool)
      modifies this
      ensures delivered == Accepted(status)
      ensures Value() == if delivered then old(Value()).(deliveredAt := Some(stamp)) else old(Value())
    {
      if !(200 <= status < 300) {
        return false;
      }
      deliveredAt := Some(stamp);
      delivered := true;
    }

    /** `deliver`: claim, request, and mark. `status` is None when the client raises instead. */
    method Deliver(seen: Time, stamp: Time, status: Option<int>, later: Time) returns (delivered: bool)
      modifies this
      ensures delivered <==> old(deliveredAt).None? && old(nextAttempt) <= seen && status.Some? && status.value in OK
      ensures var claimed := ClaimTx(old(Value()), seen, stamp);
              && delivered == (claimed.Some? && status.Some? && Accepted(status.value))
              && Value() == if claimed.None? then old(Value())
                            else if delivered then claimed.value.(deliveredAt := Some(later)) else claimed.value
    {
      var claimed := TryClaim(seen, stamp);
      if !claimed || status.None? {
        return false;
      }
      delivered := Settle(status.value, later);
    }
  }
}
