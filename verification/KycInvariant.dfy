/** What holds in every reachable state of the protocol. */
module KycInvariant {
  import opened Wrappers
  import opened KycTypes
  import opened LiveChallenge
  import opened Decision
  import opened VerificationRow
  import opened KycProtocol

  // ---------------------------------------------------------------- custody of blobs

  predicate Holds(config: Config, task: Task, key: Key) {
    match task
    case Uploaded(_, k) => k == key
    case Cleaning(keys) => key in keys
    case Committing(_, _) => key in FrameKeys(config, task)
    case _ => false
  }

  predicate Settled(h: History, key: Key) {
    key in h.fate && !h.fate[key].InFlight?
  }

  predicate BelongsTo(h: History, key: Key, kind: Kind) {
    key in h.fate && h.fate[key] == Linked(kind)
  }

  ghost predicate TaskCustody(config: Config, s: State, tid: Tid, task: Task) {
    match task
    case Uploaded(_, key) => key in s.blobs && key in s.h.fate && s.h.fate[key] == InFlight(tid)
    case Cleaning(keys) => keys != {} && forall k :: k in keys ==> k in s.h.fate && s.h.fate[k] == Doomed(tid)
    case Analyzing(base, _, _, _) => base.selfieKey.Some? ==> Settled(s.h, base.selfieKey.value)
    case Committing(base, frame) =>
      && (base.selfieKey.Some? ==> Settled(s.h, base.selfieKey.value))
      && forall k :: k in FrameKeys(config, task) ==>
           k in s.blobs && s.blobs[k] == frame.digest && k in s.h.fate && s.h.fate[k] == InFlight(tid)
    case Marked(state) => forall k :: k in state.SelfieKeys() ==> Settled(s.h, k)
    case Swept(state) => forall k :: k in state.SelfieKeys() ==> Settled(s.h, k) && k !in s.blobs
    case Pruning(keys, remaining) =>
      && !Active(s.row) && remaining <= keys && Refs(s.row) <= keys
      && forall k :: k in keys ==> Settled(s.h, k) && (k in remaining || k !in s.blobs)
    case Working(claim, images, _) => ImagesOf(s.h, claim, images)
    case Judged(verdict) => ImagesOf(s.h, verdict.claim, verdict.images)
    case _ => true
  }

  /** `images` are what was once put under the keys of the claimed evidence. */
  ghost predicate ImagesOf(h: History, claim: Claim, images: map<Kind, Digest>) {
    && (forall kind :: kind in claim.evidence ==> claim.evidence[kind] in h.put)
    && (forall kind :: kind in images ==> kind in claim.evidence && images[kind] == h.put[claim.evidence[kind]])
  }

  /** Somebody answers for the blob under `key`: the row, or a task that will commit or delete it. */
  ghost predicate Kept(config: Config, s: State, key: Key) {
    key in s.h.fate &&
    match s.h.fate[key]
    case InFlight(t) => t in s.tasks && Holds(config, s.tasks[t], key)
    case Doomed(t) => t in s.tasks && Holds(config, s.tasks[t], key)
    case Linked(_) => key in Refs(s.row)
    case Lost => true
  }

  ghost predicate RowCustody(row: Row, h: History) {
    && (forall kind :: kind in row.evidence ==> BelongsTo(h, row.evidence[kind], kind))
    && (forall k :: k in row.live.SelfieKeys() ==> BelongsTo(h, k, Selfie))
  }

  ghost predicate Custody(config: Config, s: State) {
    && s.h.fate.Keys == s.h.put.Keys
    && (forall k :: k in s.blobs ==> k in s.h.put && s.blobs[k] == s.h.put[k])
    && RowCustody(s.row, s.h)
    && (forall tid :: tid in s.tasks ==> TaskCustody(config, s, tid, s.tasks[tid]))
    && (forall k :: k in s.blobs ==> Kept(config, s, k))
  }

  // ---------------------------------------------------------------- the challenge

  predicate Issued(h: History, token: Token) {
    token in h.tokens && h.tokens[token].None?
  }

  predicate Reserved(h: History, token: Token, tid: Tid) {
    token in h.tokens && h.tokens[token] == Some(tid)
  }

  function StartOf(h: History): Challenge
    requires h.started.Some?
  {
    Fresh(h.started.value.0, h.started.value.1)
  }

  /** The document the committed frames lead to. */
  function Current(config: Config, h: History): Challenge
    requires h.started.Some?
  {
    Replay(config.live, StartOf(h), h.run)
  }

  /** The row's document is the one its frames lead to, unless the sweeper marked it after expiry. */
  ghost predicate LiveIsCurrent(config: Config, s: State) {
    s.row.live.Running? ==>
      && s.h.started.Some?
      && s.row.profile == OpticalV1
      && Issued(s.h, s.row.live.challenge.token)
      && s.row.liveExpiresAt.Some?
      && (!s.row.live.challenge.complete ==> s.row.liveExpiresAt == Some(s.row.live.challenge.deadline))
      && (s.row.live.challenge.complete ==>
            s.row.liveExpiresAt.value >= s.row.live.challenge.completedAt + COMPLETED_LIFETIME)
      && (|| s.row.live.challenge == Current(config, s.h)
          || (s.row.live.challenge == Current(config, s.h).(failed := true) && s.row.liveExpiresAt.value <= s.now))
  }

  /** A frame task was let through on the row's document, or on one it can no longer replace. */
  ghost predicate BaseOk(s: State, base: Challenge, token: Token, digest: Digest, arrived: Time) {
    && Screen(Running(base), token, digest, arrived) == Analyze
    && arrived <= s.now
    && Issued(s.h, base.token)
    && (LiveToken(s.row.live) == Some(base.token) ==>
          || s.row.live.challenge == base
          || (s.row.live.challenge == base.(failed := true) && base.deadline <= s.now))
  }

  /** A marked document is still the row's, or the row has nothing to do with it any more. */
  ghost predicate SweepOk(s: State, state: Live) {
    && state.Running? && state.challenge.failed && Issued(s.h, state.challenge.token)
    && (s.row.live == state || (LiveToken(s.row.live) != LiveToken(state) && state.SelfieKeys() !! Refs(s.row)))
  }

  ghost predicate TaskLive(s: State, tid: Tid, task: Task) {
    match task
    case Uploading(kind) => kind == Selfie ==> s.row.profile == IssuerV1
    case Uploaded(kind, _) => kind == Selfie ==> s.row.profile == IssuerV1
    case Starting(c) => c == Fresh(c.token, c.deadline - CHALLENGE_LIFETIME) && Reserved(s.h, c.token, tid)
    case Analyzing(base, token, digest, arrived) => BaseOk(s, base, token, digest, arrived)
    case Committing(base, f) => BaseOk(s, base, f.token, f.digest, f.now) && Reserved(s.h, f.nextToken, tid)
    case Marked(state) => SweepOk(s, state)
    case Swept(state) => SweepOk(s, state)
    case _ => true
  }

  /** An optical row's evidence selfie is the reference of its completed challenge, and from
      submission to the verdict that challenge stands. */
  ghost predicate SelfieIsProven(row: Row) {
    && (row.profile == OpticalV1 && Active(row) && Selfie in row.evidence ==>
          row.live.Running? && row.live.challenge.complete &&
          row.live.challenge.selfieKey == Some(row.evidence[Selfie]))
    && (row.status in {Submitted, Processing} ==>
          && RequiredKinds(row.document) <= row.evidence.Keys
          && (row.profile == OpticalV1 ==> row.live.Running? && !row.live.challenge.failed))
  }

  /** The blob put for the reference selfie is the image of the challenge's first match. */
  ghost predicate SelfieContent(config: Config, h: History) {
    h.started.Some? && Current(config, h).selfieKey.Some? ==>
      && Current(config, h).selfieKey.value in h.put
      && ReferenceSelfie(config.live, StartOf(h), h.run, Current(config, h).selfieKey.value,
          h.put[Current(config, h).selfieKey.value])
  }

  ghost predicate TokensUsedOnce(row: Row, h: History) {
    && (forall t :: t in h.consumed ==> Issued(h, t))
    && Distinct(h.consumed)
    && (row.live.Running? ==> row.live.challenge.token !in h.consumed)
  }

  ghost predicate LiveRow(config: Config, s: State) {
    && !s.row.live.MarkOnly?
    && (s.row.live.NoLive? <==> s.row.liveExpiresAt.None?)
    && (s.h.started.Some? ==> Chain(config.live, StartOf(s.h), s.h.run))
    && (s.h.started.None? ==> s.h.run == [])
    && LiveIsCurrent(config, s)
    && SelfieIsProven(s.row)
    && TokensUsedOnce(s.row, s.h)
  }

  ghost predicate LiveInv(config: Config, s: State) {
    && LiveRow(config, s)
    && forall tid :: tid in s.tasks ==> TaskLive(s, tid, s.tasks[tid])
  }

  // ---------------------------------------------------------------- integrity

  /** The only reference that may dangle while the row is active: the selfie of a marked challenge. */
  predicate UnderErasure(row: Row, key: Key) {
    row.live.Running? && row.live.challenge.failed && row.live.challenge.selfieKey == Some(key)
  }

  ghost predicate Intact(row: Row, blobs: map<Key, Digest>) {
    && (forall key :: Active(row) && key in Refs(row) ==> key in blobs || UnderErasure(row, key))
    && (Active(row) ==> !row.evidenceDeleted)
  }

  ghost predicate Integrity(s: State) {
    Intact(s.row, s.blobs)
  }

  // ---------------------------------------------------------------- the worker

  /** A claim is the row as it is, or it is stale and can no longer be committed. */
  ghost predicate ClaimOk(s: State, claim: Claim) {
    && claim.version <= s.row.version
    && (claim.version == s.row.version && s.row.status == Processing ==> claim == ClaimOf(s.row))
  }

  /** The liveness fact `submit` checked still held when the worker read the row. */
  predicate LiveWhenClaimed(claim: Claim) {
    claim.profile == OpticalV1 ==> OpticalLiveness(claim) == Passed
  }

  ghost predicate TaskWork(s: State, task: Task) {
    match task
    case Working(claim, _, _) => ClaimOk(s, claim) && LiveWhenClaimed(claim)
    case Judged(j) => ClaimOk(s, j.claim) && LiveWhenClaimed(j.claim)
    case Selected => s.row.deleteAfter <= s.now
    case _ => true
  }

  /** The facts an optical claim stands on. */
  ghost predicate CaptureProven(config: Config, h: History, claim: Claim) {
    && h.started.Some?
    && claim.live == Running(Current(config, h))
    && claim.live.challenge.complete
    && !claim.live.challenge.failed
    && Selfie in claim.evidence
    && claim.live.challenge.selfieKey == Some(claim.evidence[Selfie])
  }

  ghost predicate DecisionRow(config: Config, row: Row, h: History) {
    && (Active(row) ==> row.result.None?)
    && (row.result.Some? <==> h.decision.Some?)
    && (h.decision.Some? ==>
          var j := h.decision.value;
          && row.result == Some(Verdict(OutcomeOf(config, j).code, OutcomeOf(config, j).checks))
          && (row.status in {Expired, Cancelled} || row.status == OutcomeOf(config, j).status)
          && j.claim.version < row.version
          && j.claim.profile == row.profile && j.claim.document == row.document
          && ImagesOf(h, j.claim, j.images)
          && (j.claim.profile == OpticalV1 ==> CaptureProven(config, h, j.claim)))
    && row.status !in {NotStarted, InProgress}
    && (h.decision.None? ==> row.status in {PendingUpload, Submitted, Processing, Expired, Cancelled})
  }

  ghost predicate WorkInv(s: State) {
    forall tid :: tid in s.tasks ==> TaskWork(s, s.tasks[tid])
  }

  predicate AnnouncesResult(c: Callback) {
    !c.evidenceDeleted
  }

  function ResultCallbacks(outbox: seq<Callback>): seq<Callback> {
    if outbox == [] then []
    else
      ResultCallbacks(outbox[..|outbox| - 1])
      + (if AnnouncesResult(outbox[|outbox| - 1]) then [outbox[|outbox| - 1]] else [])
  }

  /** The callback the commit of `j` enqueued. */
  function CallbackOf(config: Config, j: Judgement): Callback {
    var o := OutcomeOf(config, j);
    Callback(j.claim.version + 1, o.status, Some(Verdict(o.code, o.checks)), false)
  }

  ghost predicate OutboxInv(config: Config, s: State) {
    ResultCallbacks(s.outbox) == (if s.h.decision.Some? then [CallbackOf(config, s.h.decision.value)] else [])
  }

  // ---------------------------------------------------------------- leases

  ghost predicate Spaced(claims: seq<Time>) {
    forall i, j :: 0 <= i < j < |claims| ==> claims[i] + LEASE < claims[j]
  }

  /** The attempt a worker's run counts as. */
  function AttemptOf(task: Task): Option<nat> {
    match task
    case Working(claim, _, _) => Some(claim.attempts)
    case Judged(j) => Some(j.claim.attempts)
    case _ => None
  }

  ghost predicate TaskLease(s: State, tid: Tid, task: Task) {
    AttemptOf(task).Some? ==>
      && 1 <= AttemptOf(task).value <= s.row.attempts
      && (task.Working? && !task.asked ==> task.claim.attempts !in s.h.consulted)
      && forall other :: other in s.tasks && other != tid ==> AttemptOf(s.tasks[other]) != AttemptOf(task)
  }

  ghost predicate LeaseRow(row: Row, h: History) {
    && |h.claims| == row.attempts
    && Spaced(h.claims)
    && (row.status == PendingUpload || row.status == Submitted ==> h.claims == [] && row.leaseUntil == None)
    && (row.status == Processing ==>
          h.claims != [] && row.leaseUntil == Some(h.claims[|h.claims| - 1] + LEASE))
    && Distinct(h.consulted)
    && (forall a :: a in h.consulted ==> 1 <= a <= MAX_ATTEMPTS && a <= row.attempts)
  }

  ghost predicate LeaseInv(s: State) {
    && LeaseRow(s.row, s.h)
    && (s.h.claims != [] ==> s.h.claims[|s.h.claims| - 1] <= s.now)
    && forall tid :: tid in s.tasks ==> TaskLease(s, tid, s.tasks[tid])
  }

  /** An erased row has nothing left, and a tombstone takes the personal data at once. */
  ghost predicate Erased(s: State) {
    && (s.row.evidenceDeleted ==>
          && !Active(s.row) && s.row.personal.None? && s.row.extracted.None?
          && s.row.evidence == map[] && s.row.live == NoLive)
    && (forall tid :: tid in s.tasks && s.tasks[tid].Pruning? ==>
          !Active(s.row) && s.row.personal.None? && s.row.extracted.None?)
  }

  ghost predicate Inv(config: Config, s: State) {
    && Custody(config, s)
    && LiveInv(config, s)
    && SelfieContent(config, s.h)
    && Integrity(s)
    && DecisionRow(config, s.row, s.h)
    && WorkInv(s)
    && OutboxInv(config, s)
    && LeaseInv(s)
    && Erased(s)
  }

  lemma InitInv(config: Config, s: State)
    requires Init(s)
    ensures Inv(config, s)
  {
  }
}
