/** The row as the object the service updates field by field, and the blob store as the object
    it puts into and deletes from. Every method is tied to the transaction function it carries out. */
module VerificationRecord {
  import opened Wrappers
  import opened KycTypes
  import opened LiveChallenge
  import opened Decision
  import opened VerificationRow

  class BlobStore {
    var blobs: map<Key, Digest>

    constructor ()
      ensures blobs == map[]
    {
      blobs := map[];
    }

    /** Keys are fresh: creating an existing one fails. */
    method Put(key: Key, content: Digest) returns (stored: bool)
      modifies this
      ensures stored <==> key !in old(blobs)
      ensures blobs == if stored then old(blobs)[key := content] else old(blobs)
    {
      stored := key !in blobs;
      if stored {
        blobs := blobs[key := content];
      }
    }

    /** Deleting a key that is not there is no error. */
    method Delete(key: Key)
      modifies this
      ensures blobs == old(blobs) - {key}
    {
      blobs := blobs - {key};
    }

    method DeleteAll(keys: seq<Key>)
      modifies this
      ensures blobs == old(blobs) - (set k | k in keys)
    {
      var i := 0;
      while i < |keys|
        invariant 0 <= i <= |keys|
        invariant blobs == old(blobs) - (set k | k in keys[..i])
      {
        Delete(keys[i]);
        assert keys[..i + 1] == keys[..i] + [keys[i]];
        i := i + 1;
      }
      assert keys[..i] == keys;
    }
  }

  /** `[item["key"] for item in row.evidence.values()]` */
  function EvidenceKeys(evidence: map<Kind, Key>): (keys: seq<Key>)
    ensures (set k | k in keys) == evidence.Values
  {
    var keys := (if Front in evidence then [evidence[Front]] else [])
                + (if Back in evidence then [evidence[Back]] else [])
                + (if Selfie in evidence then [evidence[Selfie]] else []);
    assert forall k :: k in evidence.Values ==> k in keys by {
      forall k | k in evidence.Values ensures k in keys {
        var kind :| kind in evidence && evidence[kind] == k;
        assert kind == Front || kind == Back || kind == Selfie;
      }
    }
    keys
  }

  class Record {
    var status: Status
    var version: nat
    const profile: Profile
    const document: Document
    var live: Live
    var liveExpiresAt: Option<Time>
    var personal: Option<Fields>
    var extracted: Option<Fields>
    var evidence: map<Kind, Key>
    var result: Option<Verdict>
    var leaseUntil: Option<Time>
    var deleteAfter: Time
    var evidenceDeleted: bool
    var attempts: nat

    function Value(): Row
      reads this
    {
      Row(status, version, profile, document, live, liveExpiresAt, personal, extracted, evidence, result,
          leaseUntil, deleteAfter, evidenceDeleted, attempts)
    }

    /** The row takes frames at `now`. */
    predicate PendingAt(now: Time)
      reads this
    {
      status == PendingUpload && !evidenceDeleted && now < deleteAfter && profile == OpticalV1
    }

    constructor (profile: Profile, document: Document, personal: Fields, deleteAfter: Time)
      ensures Value() == Created(profile, document, personal, deleteAfter)
      ensures Value() == Row(PendingUpload, 1, profile, document, NoLive, None, Some(personal), None, map[], None, None,
                             deleteAfter, false, 0)
    {
      this.profile, this.document := profile, document;
      status, version := PendingUpload, 1;
      live, liveExpiresAt := NoLive, None;
      this.personal, extracted := Some(personal), None;
      evidence, result := map[], None;
      leaseUntil, this.deleteAfter, evidenceDeleted, attempts := None, deleteAfter, false, 0;
    }

    /** `pending` */
    method CheckPending(now: Time) returns (refusal: Option<Error>)
      ensures refusal == NotPending(Value(), now)
      ensures refusal.None? <==> PendingAt(now)
      ensures refusal == Some(LiveCaptureNotSupported)
              <==> status == PendingUpload && !evidenceDeleted && now < deleteAfter && profile != OpticalV1
      ensures refusal in {None, Some(LiveCaptureNotSupported), Some(InvalidStateTransition)}
    {
      if status != PendingUpload || evidenceDeleted || deleteAfter <= now {
        return Some(InvalidStateTransition);
      }
      if profile != OpticalV1 {
        return Some(LiveCaptureNotSupported);
      }
      return None;
    }

    /** `start`: the keys to delete once the transaction has committed. */
    method Start(c: Challenge, now: Time) returns (r: Result<set<Key>>)
      modifies this
      ensures match StartTx(old(Value()), c, now)
              case Ok(committed) => r == Ok(committed.1) && Value() == committed.0
              case Err(e) => r == Err(e) && Value() == old(Value())
      ensures r.Ok? <==> old(status) == PendingUpload && !old(evidenceDeleted) && now < old(deleteAfter)
                         && profile == OpticalV1
      ensures r.Ok? ==> Value() == old(Value()).(evidence := old(evidence) - {Selfie}, live := Running(c),
                                                 liveExpiresAt := Some(c.deadline), version := old(version) + 1)
      ensures r.Err? ==> Some(r.error) == NotPending(old(Value()), now)
      ensures r.Ok? ==> forall k :: k in r.value <==>
                (old(live).Running? && old(live).challenge.selfieKey == Some(k))
                || (Selfie in old(evidence) && old(evidence)[Selfie] == k)
    {
      var refusal := CheckPending(now);
      if refusal.Some? {
        return Err(refusal.value);
      }
      var oldKeys: set<Key> := {};
      if live.Running? && live.challenge.selfieKey.Some? {
        oldKeys := oldKeys + {live.challenge.selfieKey.value};
      }
      if Selfie in evidence {
        oldKeys := oldKeys + {evidence[Selfie]};
      }
      assert oldKeys == live.SelfieKeys() + (if Selfie in evidence then {evidence[Selfie]} else {});
      evidence := evidence - {Selfie};
      live := Running(c);
      liveExpiresAt := Some(c.deadline);
      version := version + 1;
      return Ok(oldKeys);
    }

    /** `frame`, the locked compare-and-swap. */
    method CommitFrame(token: Token, next: Challenge, now: Time) returns (error: Option<Error>)
      modifies this
      ensures match FrameTx(old(Value()), token, next, now)
              case Ok(row) => error.None? && Value() == row
              case Err(e) => error == Some(e) && Value() == old(Value())
      ensures !old(PendingAt(now)) ==> error == NotPending(old(Value()), now)
      ensures error == Some(LiveChallengeConflict)
              <==> old(PendingAt(now)) && (!old(live).Running? || old(live).challenge.token != token)
      ensures error == Some(LiveChallengeExpired)
              <==> old(PendingAt(now)) && old(live).Running? && old(live).challenge.token == token
                   && (next.deadline < now || old(live).challenge.stepDeadline < now)
      ensures error.None? <==> old(PendingAt(now)) && old(live).Running? && old(live).challenge.token == token
                               && now <= next.deadline && now <= old(live).challenge.stepDeadline
                               && (next.complete ==> next.selfieKey.Some?)
      ensures error.None? ==>
                Value() == (if next.complete then
                              old(Value()).(live := Running(next), liveExpiresAt := Some(now + 600_000_000),
                                            evidence := old(evidence)[Selfie := next.selfieKey.value],
                                            version := old(version) + 1)
                            else old(Value()).(live := Running(next)))
    {
      var refusal := CheckPending(now);
      if refusal.Some? {
        return refusal;
      }
      if !live.Running? || live.challenge.token != token {
        return Some(LiveChallengeConflict);
      }
      if now > next.deadline || now > live.challenge.stepDeadline {
        return Some(LiveChallengeExpired);
      }
      if next.complete {
        if next.selfieKey.None? {
          return Some(KeyMissing);
        }
        liveExpiresAt := Some(now + COMPLETED_LIFETIME);
        evidence := evidence[Selfie := next.selfieKey.value];
        version := version + 1;
      }
      live := Running(next);
      return None;
    }

    /** `prune_captures`, the mark. */
    method MarkCapture(now: Time) returns (marked: bool)
      modifies this
      ensures match SweepMarkTx(old(Value()), now)
              case Some(row) => marked && Value() == row
              case None => !marked && Value() == old(Value())
      ensures marked <==> old(status) == PendingUpload && old(liveExpiresAt).Some? && old(liveExpiresAt).value <= now
      ensures Value() == old(Value()).(live := live)
      ensures marked && old(live).Running? ==> live == Running(old(live).challenge.(failed := true))
    {
      if status != PendingUpload || liveExpiresAt.None? || liveExpiresAt.value > now {
        return false;
      }
      live := MarkFailed(live);
      return true;
    }

    /** `prune_captures`, once the marked selfie is deleted. */
    method FinishCapture(state: Live) returns (finished: bool)
      modifies this
      ensures match SweepFinishTx(old(Value()), state)
              case Some(row) => finished && Value() == row
              case None => !finished && Value() == old(Value())
      ensures old(live).Running? && state.Running? ==>
                (finished <==> old(live).challenge.token == state.challenge.token)
      ensures finished ==> Value() == old(Value()).(evidence := evidence, live := NoLive, liveExpiresAt := None,
                                                    version := old(version) + 1)
      ensures finished ==> forall kind :: kind in old(evidence) ==>
                if state.Running? && state.challenge.selfieKey == Some(old(evidence)[kind]) then kind !in evidence
                else kind in evidence && evidence[kind] == old(evidence)[kind]
      ensures finished ==> evidence.Keys <= old(evidence).Keys
    {
      if LiveToken(live) != LiveToken(state) {
        return false;
      }
      evidence := WithoutKeys(evidence, state.SelfieKeys());
      live := NoLive;
      liveExpiresAt := None;
      version := version + 1;
      return true;
    }

    /** `upload`, before the image is stored. */
    method CheckUpload(kind: Kind) returns (refusal: Option<Error>)
      ensures refusal == UploadRefused(Value(), kind)
      ensures refusal == Some(InvalidStateTransition) <==> status != PendingUpload || evidenceDeleted
      ensures refusal == Some(LiveCaptureRequired)
              <==> status == PendingUpload && !evidenceDeleted && kind == Selfie && profile == OpticalV1
      ensures refusal in {None, Some(InvalidStateTransition), Some(LiveCaptureRequired)}
    {
      if status != PendingUpload || evidenceDeleted {
        return Some(InvalidStateTransition);
      }
      if kind == Selfie && profile == OpticalV1 {
        return Some(LiveCaptureRequired);
      }
      return None;
    }

    /** `upload`: the key to delete once the transaction has committed. */
    method Upload(kind: Kind, key: Key) returns (r: Result<Option<Key>>)
      modifies this
      ensures match UploadTx(old(Value()), kind, key)
              case Ok(committed) => r == Ok(committed.1) && Value() == committed.0
              case Err(e) => r == Err(e) && Value() == old(Value())
      ensures r.Ok? <==> old(status) == PendingUpload && !old(evidenceDeleted) && (kind == Back ==> document.back)
      ensures r == Err(UnexpectedDocumentSide)
              <==> old(status) == PendingUpload && !old(evidenceDeleted) && kind == Back && !document.back
      ensures r.Err? ==> r.error in {UnexpectedDocumentSide, InvalidStateTransition}
      ensures r.Ok? ==> Value() == old(Value()).(evidence := old(evidence)[kind := key], version := old(version) + 1)
      ensures r.Ok? ==> r.value == if kind in old(evidence) then Some(old(evidence)[kind]) else None
    {
      if status != PendingUpload || evidenceDeleted {
        return Err(InvalidStateTransition);
      }
      if kind == Back && !document.back {
        return Err(UnexpectedDocumentSide);
      }
      var oldKey := if kind in evidence then Some(evidence[kind]) else None;
      evidence := evidence[kind := key];
      version := version + 1;
      return Ok(oldKey);
    }

    method Submit(now: Time) returns (error: Option<Error>)
      modifies this
      ensures match SubmitTx(old(Value()), now)
              case Ok(row) => error.None? && Value() == row
              case Err(e) => error == Some(e) && Value() == old(Value())
      ensures error == Some(EvidenceExpired) <==> old(evidenceDeleted)
      ensures error == Some(EvidenceIncomplete)
              <==> !old(evidenceDeleted) && old(status) == PendingUpload
                   && (Selfie !in old(evidence) || (document.front && Front !in old(evidence))
                       || (document.back && Back !in old(evidence)))
      ensures error.None? && old(status) == PendingUpload ==>
                && Value() == old(Value()).(status := Submitted, version := old(version) + 1)
                && (profile == OpticalV1 ==>
                      && old(live).Running? && old(live).challenge.complete && !old(live).challenge.failed
                      && old(live).challenge.selfieKey == Some(old(evidence)[Selfie])
                      && now - old(live).challenge.completedAt <= 600_000_000)
    {
      if evidenceDeleted {
        return Some(EvidenceExpired);
      }
      if status != PendingUpload {
        return None;
      }
      if Selfie !in evidence || (document.front && Front !in evidence) || (document.back && Back !in evidence) {
        assert !(RequiredKinds(document) <= evidence.Keys);
        return Some(EvidenceIncomplete);
      }
      if profile == OpticalV1 {
        if !live.Running? || !live.challenge.complete || live.challenge.failed
           || live.challenge.selfieKey != Some(evidence[Selfie])
           || now - live.challenge.completedAt > COMPLETED_LIFETIME {
          return Some(LiveCaptureRequired);
        }
      }
      status := Submitted;
      version := version + 1;
      return None;
    }

    method Erase(now: Time)
      modifies this
      ensures Value() == EraseTx(old(Value()), now)
      ensures Value() == old(Value()).(status := Cancelled, version := old(version) + 1, deleteAfter := now)
    {
      status := Cancelled;
      version := version + 1;
      deleteAfter := now;
    }

    /** `process`, first transaction. */
    method ClaimForWork(now: Time) returns (claim: Option<Claim>)
      modifies this
      ensures match ClaimTx(old(Value()), now)
              case Some(row) => Value() == row && claim == Some(ClaimOf(row))
              case None => Value() == old(Value()) && claim.None?
      ensures claim.Some?
              <==> old(status) in {Submitted, Processing} && !old(evidenceDeleted)
                   && (old(leaseUntil).None? || old(leaseUntil).value < now)
      ensures claim.Some? ==>
                && Value() == old(Value()).(status := Processing, version := old(version) + 1,
                                            attempts := old(attempts) + 1, leaseUntil := Some(now + 300_000_000))
                && claim.value.version == version && claim.value.attempts == attempts
                && claim.value.evidence == evidence && claim.value.live == live
                && claim.value.personal == (if personal.Some? then personal.value else map[])
                && claim.value.profile == profile && claim.value.document == document
    {
      if status !in {Submitted, Processing} || (leaseUntil.Some? && leaseUntil.value >= now) || evidenceDeleted {
        return None;
      }
      status := Processing;
      version := version + 1;
      attempts := attempts + 1;
      leaseUntil := Some(now + LEASE);
      var declared := if personal.Some? then personal.value else map[];
      claim := Some(Claim(version, attempts, evidence, declared, profile, document, live));
    }

    /** `process`, second transaction; the callback is enqueued in the same transaction. */
    method CommitResult(claimedVersion: nat, outcome: Outcome) returns (callback: Option<Callback>)
      modifies this
      ensures match ResultTx(old(Value()), claimedVersion, outcome)
              case Some(row) => Value() == row && callback == Some(CallbackFor(row))
              case None => Value() == old(Value()) && callback.None?
      ensures callback.Some? <==> old(status) == Processing && old(version) == claimedVersion
      ensures callback.Some? ==>
                && Value() == old(Value()).(status := outcome.status,
                                            result := Some(Verdict(outcome.code, outcome.checks)),
                                            extracted := Some(outcome.extracted), live := NoLive, liveExpiresAt := None,
                                            version := old(version) + 1, leaseUntil := None)
                && callback.value == Callback(old(version) + 1, outcome.status, result, old(evidenceDeleted))
    {
      if version != claimedVersion || status != Processing {
        return None;
      }
      status, result := outcome.status, Some(Verdict(outcome.code, outcome.checks));
      extracted := Some(outcome.extracted);
      live := NoLive;
      liveExpiresAt := None;
      version := version + 1;
      leaseUntil := None;
      callback := Some(Callback(version, status, result, evidenceDeleted));
    }

    /** `prune`, the tombstone: the keys to delete. */
    method Tombstone() returns (keys: Option<seq<Key>>)
      modifies this
      ensures match TombstoneTx(old(Value()))
              case Some(row) => Value() == row && keys.Some? && (set k | k in keys.value) == Refs(row)
              case None => Value() == old(Value()) && keys.None?
      ensures keys.Some? <==> !old(evidenceDeleted)
      ensures keys.Some? ==>
                && Value() == old(Value()).(status := status, version := old(version) + 1, personal := None,
                                            extracted := None)
                && status == (if old(status) in {PendingUpload, Submitted, Processing, NeedsReview} then Expired
                              else old(status))
                && forall k :: k in keys.value <==>
                     k in evidence.Values || (live.Running? && live.challenge.selfieKey == Some(k))
    {
      hide EvidenceKeys;
      if evidenceDeleted {
        return None;
      }
      if status in {PendingUpload, Submitted, Processing, NeedsReview} {
        status := Expired;
      }
      version := version + 1;
      personal, extracted := None, None;
      var collected := EvidenceKeys(evidence);
      if live.Running? && live.challenge.selfieKey.Some? && live.challenge.selfieKey.value !in collected {
        collected := collected + [live.challenge.selfieKey.value];
      }
      keys := Some(collected);
    }

    /** `prune`, last transaction. */
    method FinishErasure() returns (callback: Callback)
      modifies this
      ensures Value() == EraseEvidenceTx(old(Value())) && callback == CallbackFor(Value())
      ensures Value() == old(Value()).(evidence := map[], live := NoLive, liveExpiresAt := None,
                                       evidenceDeleted := true)
      ensures callback == Callback(old(version), old(status), old(result), true)
    {
      evidence := map[];
      live := NoLive;
      liveExpiresAt := None;
      evidenceDeleted := true;
      callback := Callback(version, status, result, evidenceDeleted);
    }

    /** `prune` for one row, with nobody else at work: the images go, then the references. */
    method Prune(store: BlobStore) returns (callback: Option<Callback>)
      modifies this, store
      ensures match TombstoneTx(old(Value()))
              case Some(row) =>
                && Value() == EraseEvidenceTx(row) && callback == Some(CallbackFor(Value()))
                && store.blobs == old(store.blobs) - Refs(old(Value()))
              case None => Value() == old(Value()) && callback.None? && store.blobs == old(store.blobs)
    {
      var keys := Tombstone();
      if keys.None? {
        return None;
      }
      assert Refs(Value()) == Refs(old(Value()));
      store.DeleteAll(keys.value);
      var c := FinishErasure();
      return Some(c);
    }
  }

  /** Whether the analysed pose answers the prompt. */
  method MatchesPrompt(config: LiveConfig, action: Action, check: Check, ratio: Option<real>) returns (matches: bool)
    ensures matches == Matches(config, action, check, ratio)
  {
    matches := false;
    if check == Passed && ratio.Some? {
      matches := match action
                 case Center => -config.centerTolerance <= ratio.value <= config.centerTolerance
                 case Left => ratio.value >= config.turnThreshold
                 case Right => ratio.value <= -config.turnThreshold;
    }
  }

  /** `frame` between its transactions: the dictionary is updated entry by entry. */
  method ComputeFrame(config: LiveConfig, c: Challenge, f: Frame) returns (state: Challenge, put: Option<Key>,
                      feedback: Feedback)
    ensures state == Advance(config, c, f)
    ensures put == NewKey(config, c, f)
    ensures feedback == state.feedback
  {
    hide Matches;
    state := c;
    var matches := MatchesPrompt(config, state.action, f.check, f.ratio);
    feedback := if matches then HoldStill else if f.check == Unavailable then FaceNotClear else FollowPrompt;
    state := state.(hits := if matches then state.hits + 1 else 0);
    state := state.(frames := state.frames + 1, hashes := state.hashes + [f.digest], lastAt := f.now);
    state := state.(last := Some((f.token, f.digest)), token := f.nextToken, failed := f.check == Failed);
    put := None;
    if matches && state.selfieKey.None? {
      put := Some(f.nextKey);
      state := state.(selfieKey := put);
    }
    if state.hits >= 2 {
      state := state.(step := state.step + 1, hits := 0, stepDeadline := f.now + STEP_LIFETIME);
      state := state.(complete := state.step == TOTAL_STEPS, action := ActionFor(state.step, f.turnLeft));
      feedback := FollowPrompt;
      if state.complete {
        state := state.(completedAt := f.now);
      }
    }
    state := state.(feedback := feedback);
  }
}
