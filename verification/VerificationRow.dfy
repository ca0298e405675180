/** A verification row and the database transactions on it, each as a function from the
    row it locks to the row it commits. */
module VerificationRow {
  import opened Wrappers
  import opened KycTypes
  import opened LiveChallenge
  import opened Decision

  const LEASE: Time := 300 * SECOND

  /** The stored part of a result. */
  datatype Verdict = Verdict(code: Code, checks: Checks)

  datatype Row = Row(
    status: Status,
    version: nat,
    profile: Profile,
    document: Document,
    live: Live,
    liveExpiresAt: Option<Time>,
    personal: Option<Fields>,
    extracted: Option<Fields>,
    evidence: map<Kind, Key>,
    result: Option<Verdict>,
    leaseUntil: Option<Time>,
    deleteAfter: Time,
    evidenceDeleted: bool,
    attempts: nat)

  /** The row `create` inserts. */
  function Created(profile: Profile, document: Document, personal: Fields, deleteAfter: Time): Row {
    Row(PendingUpload, 1, profile, document, NoLive, None, Some(personal), None, map[], None, None,
        deleteAfter, false, 0)
  }

  /** `can_transition` over the table `TRANSITIONS`. */
  predicate CanTransition(current: Status, target: Status) {
    match current
    case InProgress => target in {PendingUpload, Cancelled}
    case PendingUpload => target in {Submitted, Cancelled, Expired}
    case Submitted => target in {Processing, Cancelled, Expired}
    case Processing => target in {Approved, Rejected, NeedsReview, ActionRequired, Cancelled, Expired}
    case _ => false
  }

  /** Statuses in which the evidence of a row is still going to be read. */
  predicate Active(row: Row) {
    row.status in {PendingUpload, Submitted, Processing}
  }

  /** Every storage key the row mentions. */
  function Refs(row: Row): set<Key> {
    row.evidence.Values + row.live.SelfieKeys()
  }

  // ---------------------------------------------------------------- live capture

  /** `pending`, evaluated at `now`. */
  function NotPending(row: Row, now: Time): Option<Error> {
    if row.status != PendingUpload || row.evidenceDeleted || row.deleteAfter <= now then Some(InvalidStateTransition)
    else if row.profile != OpticalV1 then Some(LiveCaptureNotSupported)
    else None
  }

  /** `start`, second transaction; also the storage keys it makes garbage. */
  function StartTx(row: Row, c: Challenge, now: Time): Result<(Row, set<Key>)> {
    var refusal := NotPending(row, now);
    if refusal.Some? then Err(refusal.value)
    else
      Ok((row.(evidence := row.evidence - {Selfie}, live := Running(c), liveExpiresAt := Some(c.deadline),
               version := row.version + 1),
          row.live.SelfieKeys() + (if Selfie in row.evidence then {row.evidence[Selfie]} else {})))
  }

  /** What `frame` answers before it analyses anything: whether the row is pending at `at` comes
      first, then the screening of the request that arrived at `arrived`. */
  function FrameAnswer(row: Row, token: Token, digest: Digest, arrived: Time, at: Time): Gate {
    var refusal := NotPending(row, at);
    if refusal.Some? then Refuse(refusal.value) else Screen(row.live, token, digest, arrived)
  }

  function LiveToken(live: Live): Option<Token> {
    if live.Running? then Some(live.challenge.token) else None
  }

  /** `frame`, second transaction: the compare-and-swap on the token the request carried. */
  function FrameTx(row: Row, token: Token, next: Challenge, now: Time): Result<Row> {
    var refusal := NotPending(row, now);
    if refusal.Some? then Err(refusal.value)
    else if LiveToken(row.live) != Some(token) then Err(LiveChallengeConflict)
    else if now > next.deadline || now > row.live.challenge.stepDeadline then Err(LiveChallengeExpired)
    else if next.complete then
      if next.selfieKey.None? then Err(KeyMissing)
      else Ok(row.(live := Running(next), liveExpiresAt := Some(now + COMPLETED_LIFETIME),
                   evidence := row.evidence[Selfie := next.selfieKey.value], version := row.version + 1))
    else Ok(row.(live := Running(next)))
  }

  /** `prune_captures`, first transaction: the "failed" mark. */
  function MarkFailed(live: Live): Live {
    if live.Running? then Running(live.challenge.(failed := true)) else MarkOnly
  }

  function SweepMarkTx(row: Row, now: Time): Option<Row> {
    if row.status != PendingUpload || row.liveExpiresAt.None? || row.liveExpiresAt.value > now then None
    else Some(row.(live := MarkFailed(row.live)))
  }

  /** The evidence that does not use `keys`. */
  function WithoutKeys(evidence: map<Kind, Key>, keys: set<Key>): map<Kind, Key> {
    map kind | kind in evidence && evidence[kind] !in keys :: evidence[kind]
  }

  /** `prune_captures`, second transaction; `state` is the marked document. */
  function SweepFinishTx(row: Row, state: Live): Option<Row> {
    if LiveToken(row.live) != LiveToken(state) then None
    else Some(row.(evidence := WithoutKeys(row.evidence, state.SelfieKeys()), live := NoLive, liveExpiresAt := None,
                   version := row.version + 1))
  }

  // ---------------------------------------------------------------- service

  /** `upload`, first transaction. */
  function UploadRefused(row: Row, kind: Kind): Option<Error> {
    if row.status != PendingUpload || row.evidenceDeleted then Some(InvalidStateTransition)
    else if kind == Selfie && row.profile == OpticalV1 then Some(LiveCaptureRequired)
    else None
  }

  /** `upload`, second transaction; also the key it replaces. */
  function UploadTx(row: Row, kind: Kind, key: Key): Result<(Row, Option<Key>)> {
    if row.status != PendingUpload || row.evidenceDeleted then Err(InvalidStateTransition)
    else if kind == Back && !row.document.back then Err(UnexpectedDocumentSide)
    else
      Ok((row.(evidence := row.evidence[kind := key], version := row.version + 1),
          if kind in row.evidence then Some(row.evidence[kind]) else None))
  }

  function RequiredKinds(document: Document): set<Kind> {
    {Selfie} + (if document.front then {Front} else {}) + (if document.back then {Back} else {})
  }

  /** What `submit` demands of the challenge of an optical row. */
  predicate LiveProof(row: Row, now: Time) {
    && row.live.Running?
    && row.live.challenge.complete
    && !row.live.challenge.failed
    && Selfie in row.evidence
    && row.live.challenge.selfieKey == Some(row.evidence[Selfie])
    && now - row.live.challenge.completedAt <= COMPLETED_LIFETIME
  }

  /** `submit`: a row that is no longer pending is returned as it is. */
  function SubmitTx(row: Row, now: Time): Result<Row> {
    if row.evidenceDeleted then Err(EvidenceExpired)
    else if row.status != PendingUpload then Ok(row)
    else if !(RequiredKinds(row.document) <= row.evidence.Keys) then Err(EvidenceIncomplete)
    else if row.profile == OpticalV1 && !LiveProof(row, now) then Err(LiveCaptureRequired)
    else Ok(row.(status := Submitted, version := row.version + 1))
  }

  function EraseTx(row: Row, now: Time): Row {
    row.(status := Cancelled, version := row.version + 1, deleteAfter := now)
  }

  // ---------------------------------------------------------------- worker

  /** `process`, claim; `now` was read before the transaction. */
  function ClaimTx(row: Row, now: Time): Option<Row> {
    if row.status in {Submitted, Processing} && (row.leaseUntil.None? || row.leaseUntil.value < now)
        && !row.evidenceDeleted then
      Some(row.(status := Processing, version := row.version + 1, attempts := row.attempts + 1,
                leaseUntil := Some(now + LEASE)))
    else None
  }

  /** What the claim reads from the row it has just updated. */
  function ClaimOf(row: Row): Claim {
    Claim(row.version, row.attempts, row.evidence, if row.personal.Some? then row.personal.value else map[],
          row.profile, row.document, row.live)
  }

  /** `process`, commit: only on the version and status the claim left. */
  function ResultTx(row: Row, version: nat, outcome: Outcome): Option<Row> {
    if row.version != version || row.status != Processing then None
    else
      Some(row.(status := outcome.status, result := Some(Verdict(outcome.code, outcome.checks)),
                extracted := Some(outcome.extracted), live := NoLive, liveExpiresAt := None,
                version := row.version + 1, leaseUntil := None))
  }

  /** `prune`, candidate selection. */
  predicate Due(row: Row, now: Time) {
    row.deleteAfter <= now && !row.evidenceDeleted
  }

  /** `prune`, tombstone transaction. */
  function TombstoneTx(row: Row): Option<Row> {
    if row.evidenceDeleted then None
    else
      var status := if row.status in {PendingUpload, Submitted, Processing, NeedsReview} then Expired else row.status;
      Some(row.(status := status, version := row.version + 1, personal := None, extracted := None))
  }

  /** `prune`, last transaction: the version stays. */
  function EraseEvidenceTx(row: Row): Row {
    row.(evidence := map[], live := NoLive, liveExpiresAt := None, evidenceDeleted := true)
  }

  /** A callback of the outbox: the parts of the snapshot a receiver orders by. */
  datatype Callback = Callback(version: nat, status: Status, verdict: Option<Verdict>, evidenceDeleted: bool)

  function CallbackFor(row: Row): Callback {
    Callback(row.version, row.status, row.result, row.evidenceDeleted)
  }
}
