/** Replay protection of security.py: the timestamp window of `authenticate` together with the
    nonce store of `RedisNonceStore.consume`, for requests handled at the same time. */
module NonceWindow {
  import opened KycTypes

  const WINDOW := 300
  const LIFETIME: Time := 610 * SECOND

  /** int(time.time()) */
  function Truncated(at: Time): int {
    at / SECOND
  }

  predicate InWindow(at: Time, timestamp: int) {
    -WINDOW <= Truncated(at) - timestamp <= WINDOW
  }

  /** 32 lower-case hexadecimal digits. */
  predicate IsNonce(nonce: string) {
    |nonce| == 32 && forall i :: 0 <= i < 32 ==> '0' <= nonce[i] <= '9' || 'a' <= nonce[i] <= 'f'
  }

  /** A request that was let through: when its timestamp was checked, when its nonce was consumed. */
  datatype Request = Request(timestamp: int, nonce: string, checked: Time)
  datatype Acceptance = Acceptance(request: Request, consumed: Time)

  /** `store` maps a nonce to when redis forgets it; `accepted` is history. */
  datatype State = State(now: Time, store: map<string, Time>, pending: map<nat, Request>, accepted: seq<Acceptance>)

  datatype Step = Check(worker: nat, timestamp: int, nonce: string, at: Time) | Consume(worker: nat, at: Time)

  predicate Init(s: State) {
    s.store == map[] && s.pending == map[] && s.accepted == []
  }

  /** `delay` bounds the time between the check of the timestamp and the use of the nonce. */
  predicate Enabled(delay: Time, s: State, step: Step) {
    && s.now <= step.at
    && match step
       case Check(worker, _, _, _) => worker !in s.pending
       case Consume(worker, at) => worker in s.pending && at - s.pending[worker].checked <= delay
  }

  /** `SET key 1 NX EX 610` succeeds. */
  predicate Unknown(store: map<string, Time>, nonce: string, at: Time) {
    nonce in store ==> store[nonce] <= at
  }

  function Apply(s: State, step: Step): State
    requires step.Consume? ==> step.worker in s.pending
  {
    match step
    case Check(worker, timestamp, nonce, at) =>
      if timestamp >= 0 && InWindow(at, timestamp) && IsNonce(nonce) then
        s.(now := at, pending := s.pending[worker := Request(timestamp, nonce, at)])
      else s.(now := at)
    case Consume(worker, at) =>
      var r := s.pending[worker];
      var rest := s.(now := at, pending := s.pending - {worker});
      if Unknown(s.store, r.nonce, at) then
        rest.(store := s.store[r.nonce := at + LIFETIME], accepted := s.accepted + [Acceptance(r, at)])
      else rest
  }

  predicate Legal(delay: Time, s: State, steps: seq<Step>)
    decreases |steps|
  {
    steps != [] ==> Enabled(delay, s, steps[0]) && Legal(delay, Apply(s, steps[0]), steps[1..])
  }

  function Run(delay: Time, s: State, steps: seq<Step>): State
    requires Legal(delay, s, steps)
    decreases |steps|
  {
    if steps == [] then s else Run(delay, Apply(s, steps[0]), steps[1..])
  }

  ghost predicate Reachable(delay: Time, s: State) {
    exists s0, steps :: Init(s0) && Legal(delay, s0, steps) && Run(delay, s0, steps) == s
  }

  /** No pair of timestamp and nonce was let through twice. */
  ghost predicate AtMostOnce(accepted: seq<Acceptance>) {
    forall i, j :: 0 <= i < j < |accepted| ==>
      accepted[i].request.timestamp != accepted[j].request.timestamp
          || accepted[i].request.nonce != accepted[j].request.nonce
  }

  ghost predicate Remembered(s: State, a: Acceptance) {
    && a.request.checked <= a.consumed && InWindow(a.request.checked, a.request.timestamp)
    && a.request.nonce in s.store && a.consumed + LIFETIME <= s.store[a.request.nonce]
  }

  ghost predicate Inv(s: State) {
    && (forall w :: w in s.pending ==>
        InWindow(s.pending[w].checked, s.pending[w].timestamp) && s.pending[w].checked <= s.now)
    && (forall i :: 0 <= i < |s.accepted| ==> Remembered(s, s.accepted[i]))
    && AtMostOnce(s.accepted)
  }

  const SLACK: Time := 9 * SECOND

  /** The second use of a pair that is still in its window comes before redis forgets the first. */
  lemma TooLate(first: Acceptance, second: Request, at: Time, delay: Time)
    requires delay <= SLACK && first.request.checked <= first.consumed
    requires InWindow(first.request.checked, first.request.timestamp) && InWindow(second.checked, second.timestamp)
    requires second.timestamp == first.request.timestamp && at - second.checked <= delay
    ensures at < first.consumed + LIFETIME
  {
  }

  lemma StillKnown(s: State, i: nat, r: Request, at: Time, delay: Time)
    requires i < |s.accepted| && Remembered(s, s.accepted[i]) && delay <= SLACK
    requires InWindow(r.checked, r.timestamp) && at - r.checked <= delay
    requires r.timestamp == s.accepted[i].request.timestamp && r.nonce == s.accepted[i].request.nonce
    ensures !Unknown(s.store, r.nonce, at)
  {
    TooLate(s.accepted[i], r, at, delay);
  }

  lemma Inductive(delay: Time, s: State, step: Step)
    requires delay <= SLACK && Inv(s) && Enabled(delay, s, step)
    ensures Inv(Apply(s, step))
  {
    var s' := Apply(s, step);
    if step.Consume? {
      hide InWindow;
      var r := s.pending[step.worker];
      forall i | 0 <= i < |s.accepted| && s.accepted[i].request.timestamp == r.timestamp
          && s.accepted[i].request.nonce == r.nonce
        ensures !Unknown(s.store, r.nonce, step.at)
      {
        StillKnown(s, i, r, step.at, delay);
      }
      forall i | 0 <= i < |s'.accepted| ensures Remembered(s', s'.accepted[i]) {
        if i < |s.accepted| {
          assert Remembered(s, s.accepted[i]);
        }
      }
    }
  }

  lemma {:induction false} InvAlongRun(delay: Time, s: State, steps: seq<Step>)
    requires delay <= SLACK && Inv(s) && Legal(delay, s, steps)
    ensures Inv(Run(delay, s, steps))
    decreases |steps|
  {
    hide Inv, Apply;
    if steps != [] {
      Inductive(delay, s, steps[0]);
      InvAlongRun(delay, Apply(s, steps[0]), steps[1..]);
    }
  }

  /** A run that lets the same pair through twice when the nonce may be used later than nine seconds
      after the check: once at the start of the window, once after its end. */
  lemma ReplayAfterSlack(delay: Time, timestamp: int, nonce: string) returns (s: State)
    requires delay > SLACK && timestamp >= 0 && IsNonce(nonce)
    ensures Reachable(delay, s) && !AtMostOnce(s.accepted)
  {
    var early, late := (timestamp - WINDOW) * SECOND, (timestamp + WINDOW + 1) * SECOND - 1;
    var s0 := State(early, map[], map[], []);
    var s1 := Apply(s0, Check(0, timestamp, nonce, early));
    var s2 := Apply(s1, Consume(0, early));
    var s3 := Apply(s2, Check(1, timestamp, nonce, late));
    var end := early + LIFETIME;
    s := Apply(s3, Consume(1, end));
    assert InWindow(early, timestamp) && InWindow(late, timestamp);
    assert s.accepted[0].request.nonce == s.accepted[1].request.nonce;
    Chain(delay, s3, Consume(1, end), []);
    Chain(delay, s2, Check(1, timestamp, nonce, late), [Consume(1, end)]);
    Chain(delay, s1, Consume(0, early), [Check(1, timestamp, nonce, late), Consume(1, end)]);
    Chain(delay, s0, Check(0, timestamp, nonce, early),
          [Consume(0, early), Check(1, timestamp, nonce, late), Consume(1, end)]);
  }

  lemma Chain(delay: Time, s: State, step: Step, rest: seq<Step>)
    requires Enabled(delay, s, step) && Legal(delay, Apply(s, step), rest)
    ensures Legal(delay, s, [step] + rest) && Run(delay, s, [step] + rest) == Run(delay, Apply(s, step), rest)
  {
    assert ([step] + rest)[1..] == rest;
  }

  /** A request gets as far as its nonce exactly when its timestamp is within 300 s of the server's clock
      and the nonce is 32 lower-case hexadecimal digits. */
  lemma AdmittedExactly(s: State, worker: nat, timestamp: int, nonce: string, at: Time)
    requires worker !in s.pending
    ensures worker in Apply(s, Check(worker, timestamp, nonce, at)).pending
        <==> && 0 <= timestamp && timestamp * 1_000_000 - 300_000_000 <= at < timestamp * 1_000_000 + 301_000_000
             && |nonce| == 32 && forall c :: c in nonce ==> c in "0123456789abcdef"
  {
    HexDigits(nonce);
  }

  lemma HexDigit(c: char)
    ensures c in "0123456789abcdef" <==> '0' <= c <= '9' || 'a' <= c <= 'f'
  {
    var digits := "0123456789abcdef";
    if '0' <= c <= '9' {
      assert digits[c as int - '0' as int] == c;
    } else if 'a' <= c <= 'f' {
      assert digits[10 + c as int - 'a' as int] == c;
    }
  }

  lemma HexDigits(nonce: string)
    ensures (forall c :: c in nonce ==> c in "0123456789abcdef")
        <==> forall i :: 0 <= i < |nonce| ==> '0' <= nonce[i] <= '9' || 'a' <= nonce[i] <= 'f'
  {
    forall i | 0 <= i < |nonce|
      ensures nonce[i] in "0123456789abcdef" <==> '0' <= nonce[i] <= '9' || 'a' <= nonce[i] <= 'f'
    {
      HexDigit(nonce[i]);
    }
  }

  /** No signed request is let through twice over any run, exactly when at most nine seconds pass
      between checking its timestamp and consuming its nonce. */
  lemma ReplayRejectedExactly(delay: Time)
    ensures (forall s :: Reachable(delay, s) ==> AtMostOnce(s.accepted)) <==> delay <= SLACK
  {
    if delay <= SLACK {
      forall s | Reachable(delay, s) ensures AtMostOnce(s.accepted) {
        var s0, steps :| Init(s0) && Legal(delay, s0, steps) && Run(delay, s0, steps) == s;
        InvAlongRun(delay, s0, steps);
      }
    } else {
      var s := ReplayAfterSlack(delay, WINDOW, seq(32, _ => '0'));
    }
  }

  /** The part of redis `consume` uses. */
  class NonceStore {
    var forgets: map<string, Time>

    constructor ()
      ensures forgets == map[]
    {
      forgets := map[];
    }

    method Consume(nonce: string, at: Time) returns (fresh': bool)
      modifies this
      ensures fresh' == Unknown(old(forgets), nonce, at)
      ensures fresh' <==> nonce !in old(forgets) || old(forgets)[nonce] <= at
      ensures fresh' ==> forgets == old(forgets)[nonce := at + 610_000_000]
      ensures forgets == if fresh' then old(forgets)[nonce := at + LIFETIME] else old(forgets)
    {
      if nonce in forgets && forgets[nonce] > at {
        return false;
      }
      forgets := forgets[nonce := at + LIFETIME];
      fresh' := true;
    }
  }
}
