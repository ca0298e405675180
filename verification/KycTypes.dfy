/** Values shared by the modules of the verification service: statuses, the
    challenge document sealed into a row, and the error codes of `KycError`. */
module KycTypes {
  import opened Wrappers

  datatype Result<+T> = Ok(value: T) | Err(error: Error)

  /** `KycError.code`; `KeyMissing` stands for the KeyError a damaged challenge document would raise. */
  datatype Error =
    | InvalidStateTransition
    | LiveCaptureNotSupported
    | LiveCaptureRequired
    | LiveChallengeExpired
    | LiveChallengeConflict
    | LiveCaptureTooFast
    | LiveFrameReplay
    | UnexpectedDocumentSide
    | EvidenceExpired
    | EvidenceIncomplete
    | KeyMissing

  /** Fresh random identifiers: storage keys (uuid4) and challenge tokens (token_hex). */
  type Key = nat
  type Token = nat

  /** SHA-256 of a normalized image, taken as injective: it stands for the image. */
  type Digest = nat

  /** Points in time and durations, in microseconds. */
  type Time = int
  const SECOND: Time := 1_000_000

  datatype Status =
    | NotStarted
    | InProgress
    | PendingUpload
    | Submitted
    | Processing
    | NeedsReview
    | ActionRequired
    | Approved
    | Rejected
    | Expired
    | Cancelled

  datatype Kind = Front | Back | Selfie

  datatype Profile = IssuerV1 | OpticalV1

  datatype Mode = Mock | Local | SelfHosted | Provider

  datatype Check = Passed | Failed | Unavailable | MockCheck

  /** The entries of the `personal` and `extracted` dictionaries. */
  datatype Field = FullName | BirthDate | DocumentNumber | ExpirationDate | Nationality | IssuingCountry

  /** A dictionary of fields; Python's None is the empty string, which is just as falsy. */
  type Fields = map<Field, string>

  datatype Action = Center | Left | Right

  datatype Feedback = FollowPrompt | HoldStill | FaceNotClear | Done

  /** The challenge document that `start` creates and `frame` advances. */
  datatype Challenge = Challenge(
    token: Token,
    action: Action,
    step: nat,
    deadline: Time,
    stepDeadline: Time,
    complete: bool,
    hits: nat,
    frames: nat,
    hashes: seq<Digest>,
    lastAt: Time,
    selfieKey: Option<Key>,
    failed: bool,
    last: Option<(Token, Digest)>,
    feedback: Feedback,
    completedAt: Time)
  {
    function SelfieKey(): set<Key> {
      if selfieKey.Some? then {selfieKey.value} else {}
    }
  }

  /** What `unseal(row.live_state)` can yield: the empty dictionary, the dictionary that
      only carries the sweeper's "failed" mark, or a challenge. */
  datatype Live = NoLive | MarkOnly | Running(challenge: Challenge)
  {
    function SelfieKeys(): set<Key> {
      if Running? then challenge.SelfieKey() else {}
    }
  }
}
