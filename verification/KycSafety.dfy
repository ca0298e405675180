/** What the invariants mean for every run of the service. */
module KycSafety {
  import opened Wrappers
  import opened KycTypes
  import opened LiveChallenge
  import opened Decision
  import opened VerificationRow
  import opened KycProtocol
  import opened KycInvariant
  import opened LiveProof
  import opened CustodyProof
  import opened StepProof
  import DecisionTable

  // ---------------------------------------------------------------- nothing dangles

  /** From submission to the verdict every storage key the row mentions is in the store. */
  lemma EvidenceInStore(config: Config, s: State)
    requires Reachable(config, s) && s.row.status in {Submitted, Processing}
    ensures Refs(s.row) <= s.blobs.Keys
    ensures Selfie in s.row.evidence
    ensures s.row.document.front ==> Front in s.row.evidence
    ensures s.row.document.back ==> Back in s.row.evidence
  {
    ReachableInv(config, s);
    forall k | k in Refs(s.row) ensures k in s.blobs {
      assert !UnderErasure(s.row, k);
    }
  }

  /** A worker whose claim can still be committed finds every image it claimed, unchanged since it was put. */
  lemma CurrentClaimLoads(config: Config, s: State, tid: Tid)
    requires Reachable(config, s) && tid in s.tasks && s.tasks[tid].Working?
    requires s.tasks[tid].claim.version == s.row.version && s.row.status == Processing
    ensures s.tasks[tid].claim == ClaimOf(s.row)
    ensures forall kind :: kind in s.tasks[tid].claim.evidence ==>
              && s.tasks[tid].claim.evidence[kind] in s.blobs
              && (kind in s.tasks[tid].images ==>
                  s.tasks[tid].images[kind] == s.blobs[s.tasks[tid].claim.evidence[kind]])
  {
    ReachableInv(config, s);
    EvidenceInStore(config, s);
    assert TaskWork(s, s.tasks[tid]) && TaskCustody(config, s, tid, s.tasks[tid]);
    hide Kept, LiveRow, LeaseInv, OutboxInv, DecisionRow;
  }

  /** `frame` never commits on a document the sweeper has marked: the mark leaves the token alone,
      so only the clock keeps the two apart, and it does so except at the very instant of the deadline. */
  lemma CommitAfterMark(row: Row, markAt: Time, token: Token, next: Challenge, at: Time)
    requires row.live.Running? && !row.live.challenge.complete && row.liveExpiresAt == Some(row.live.challenge.deadline)
    requires next.deadline == row.live.challenge.deadline && markAt <= at
    requires SweepMarkTx(row, markAt).Some?
    ensures (FrameTx(SweepMarkTx(row, markAt).value, token, next, at).Ok?)
            <==> (FrameTx(row, token, next, at).Ok? && markAt == at == row.live.challenge.deadline)
  {
    assert SweepMarkTx(row, markAt).value.status == PendingUpload;
  }

  // ---------------------------------------------------------------- an approval means a completed challenge

  /** What `inspect_texts` made of the texts read from the claimed images. */
  function DocumentRead(claim: Claim, report: Report, thisYear: nat): (Fields, Check) {
    Optical.InspectTexts(claim.document.key,
      if Front in claim.evidence then report.frontText else "",
      if Back in claim.evidence then report.backText else "",
      report.labelled, thisYear)
  }

  /** Everything an automatic approval of an optical row stands for. */
  ghost predicate Justified(config: Config, s: State, j: Judgement) {
    var claim := j.claim;
    && claim.document == s.row.document && claim.profile == OpticalV1
    && claim.attempts <= MAX_ATTEMPTS
    && s.h.started.Some? && Selfie in claim.evidence && Selfie in j.images
    // the selfie the face was compared with is the first match of one completed challenge
    && GenuineCapture(config.live, s.h.started.value.0, s.h.started.value.1, s.h.run, claim.evidence[Selfie],
        j.images[Selfie])
    && OpticalLiveness(claim) == Passed
    // the other checks of the profile
    && j.report.faceMatch == Passed
    && DocumentRead(claim, j.report, j.today.year).1 == Passed
    && DataMatches(DocumentRead(claim, j.report, j.today.year).0, claim.personal) == Passed
    && (Get(claim.personal, ExpirationDate) != "" ==>
          Optical.FromIso(Get(claim.personal, ExpirationDate)).Some? &&
          !Optical.FromIso(Get(claim.personal, ExpirationDate)).value.Before(j.today))
  }

  /** What an optical approval says about the checks behind it. */
  lemma ApprovalChecks(config: WorkerConfig, claim: Claim, images: map<Kind, Digest>, report: Report,
                       today: Optical.Date)
    requires config.mode != Mock && claim.profile == OpticalV1
    requires Evaluate(config, claim, images, report, today).status == Approved
    ensures config.mode == SelfHosted && claim.attempts <= MAX_ATTEMPTS && claim.evidence.Keys <= images.Keys
            && Selfie in claim.evidence
    ensures OpticalLiveness(claim) == Passed && report.faceMatch == Passed
    ensures DocumentRead(claim, report, today.year).1 == Passed
    ensures DataMatches(DocumentRead(claim, report, today.year).0, claim.personal) == Passed
    ensures Get(claim.personal, ExpirationDate) != "" ==>
              Optical.FromIso(Get(claim.personal, ExpirationDate)).Some? &&
              !Optical.FromIso(Get(claim.personal, ExpirationDate)).value.Before(today)
  {
    hide Optical.InspectTexts, DataMatches, Optical.FromIso, OpticalLiveness;
    var (checks, extracted) := Assess(config, claim, report, today.year);
    assert OpticalDocument in RequiredChecks(OpticalV1) && DocumentData in RequiredChecks(OpticalV1);
    assert Ocr in RequiredChecks(OpticalV1) && FaceMatch in RequiredChecks(OpticalV1)
           && Liveness in RequiredChecks(OpticalV1);
    assert config.mode != SelfHosted ==> OpticalDocument !in checks;
  }

  /** The worker approves an optical claim by itself exactly when it could load everything in time,
      nothing raised, every check of the profile passed, the issuer check did not fail, and a declared
      expiry date is not past. */
  lemma ApprovalExactly(config: WorkerConfig, claim: Claim, images: map<Kind, Digest>, report: Report,
                        today: Optical.Date)
    requires config.mode != Mock && claim.profile == OpticalV1
    ensures Evaluate(config, claim, images, report, today).status == Approved
        <==> && config.mode == SelfHosted && claim.attempts <= MAX_ATTEMPTS
             && claim.evidence.Keys <= images.Keys && Selfie in claim.evidence && report.raised.None?
             && OpticalLiveness(claim) == Passed && report.faceMatch == Passed && report.document != Failed
             && DocumentRead(claim, report, today.year).0 != map[]
                 && DocumentRead(claim, report, today.year).1 == Passed
             && DataMatches(DocumentRead(claim, report, today.year).0, claim.personal) == Passed
             && (Get(claim.personal, ExpirationDate) != "" ==>
                   Optical.FromIso(Get(claim.personal, ExpirationDate)).Some? &&
                   !Optical.FromIso(Get(claim.personal, ExpirationDate)).value.Before(today))
  {
    hide Optical.InspectTexts, DataMatches, Optical.FromIso, OpticalLiveness, Optical.Date.Before;
    if Evaluate(config, claim, images, report, today).status == Approved {
      ApprovalChecks(config, claim, images, report, today);
      var (checks, extracted) := Assess(config, claim, report, today.year);
      assert DocumentIssuer in checks && checks[DocumentIssuer] == report.document;
      assert Ocr in RequiredChecks(OpticalV1) && Failed !in checks.Values;
    }
  }

  /** Outside the mock mode an optical row is approved only on a genuine capture of the scored
      selfie, with every other check of its profile passed. */
  lemma ApprovedIsJustified(config: Config, s: State)
    requires Reachable(config, s) && config.worker.mode != Mock
    requires s.row.profile == OpticalV1 && s.row.status == Approved
    ensures s.h.decision.Some? && Justified(config, s, s.h.decision.value)
  {
    ReachableInv(config, s);
    var j := s.h.decision.value;
    assert CaptureProven(config, s.h, j.claim) && ImagesOf(s.h, j.claim, j.images)
           && OutcomeOf(config, j).status == Approved by {
      hide Custody, LiveInv, Integrity, WorkInv, OutboxInv, LeaseInv, Erased, Evaluate, Current;
    }
    ApprovalChecks(config.worker, j.claim, j.images, j.report, j.today);
    var (token, began) := s.h.started.value;
    hide Custody, Integrity, DecisionRow, WorkInv, OutboxInv, LeaseInv, Erased, Evaluate, GenuineCapture;
    hide Optical.InspectTexts, DataMatches;
    var i := CompletedChallenge(config.live, token, began, s.h.run);
    SelfieShows(config, s, token, began, i);
  }

  /** Outside the mock mode an issuer row is approved only on a claim of at most three attempts whose images,
      selfie included, are the ones stored for it, and on which each of the four engines passed. */
  lemma IssuerApprovedIsJustified(config: Config, s: State)
    requires Reachable(config, s) && config.worker.mode != Mock
    requires s.row.profile == IssuerV1 && s.row.status == Approved
    ensures s.h.decision.Some? && config.worker.mode in {Provider, SelfHosted}
    ensures var j := s.h.decision.value;
            && j.claim.document == s.row.document && j.claim.attempts <= 3 && Selfie in j.claim.evidence
            && (forall kind :: kind in j.claim.evidence ==>
                  kind in j.images && j.claim.evidence[kind] in s.h.put
                  && j.images[kind] == s.h.put[j.claim.evidence[kind]])
            && j.report.ocr != map[] && j.report.document == Passed && j.report.faceMatch == Passed
            && j.report.stillLiveness == Passed && j.report.issuerData != Some(Failed)
            && !DecisionTable.Undated(j.claim.personal) && !DecisionTable.Past(j.claim.personal, j.today)
  {
    ReachableInv(config, s);
    var j := s.h.decision.value;
    hide Custody, LiveInv, Integrity, WorkInv, OutboxInv, LeaseInv, Erased, Evaluate, Current, SelfieContent;
    hide DecisionTable.Undated, DecisionTable.Past, CaptureProven;
    DecisionTable.IssuerApprovalExactly(config.worker, j.claim, j.images, j.report, j.today);
  }

  /** The blob under the reference key is the frame that was committed as the reference. */
  lemma SelfieShows(config: Config, s: State, token: Token, began: Time, i: nat)
    requires s.h.started == Some((token, began)) && Chain(config.live, Fresh(token, began), s.h.run)
             && SelfieContent(config, s.h)
    requires i < |s.h.run| && Current(config, s.h).selfieKey == Some(s.h.run[i].nextKey)
    requires GenuineCapture(config.live, token, began, s.h.run, s.h.run[i].nextKey, s.h.run[i].digest)
    ensures s.h.run[i].nextKey in s.h.put
    ensures GenuineCapture(config.live, token, began, s.h.run, s.h.run[i].nextKey, s.h.put[s.h.run[i].nextKey])
  {
  }

  /** The worker never sees a submitted challenge it has to call unavailable. */
  lemma LivenessNeverUnavailable(config: Config, s: State, tid: Tid)
    requires Reachable(config, s) && tid in s.tasks
    requires s.tasks[tid].Working? || s.tasks[tid].Judged?
    ensures var claim := if s.tasks[tid].Working? then s.tasks[tid].claim else s.tasks[tid].verdict.claim;
            claim.profile == OpticalV1 ==> OpticalLiveness(claim) == Passed
  {
    ReachableInv(config, s);
    assert TaskWork(s, s.tasks[tid]);
    hide Custody, LiveInv, Integrity, DecisionRow, OutboxInv, LeaseInv, Erased;
  }

  // ---------------------------------------------------------------- concurrent frames are a sequence

  /** The document in the row is the sequential replay of the frames committed since `start`, but
      for the sweeper's mark, and each of those frames was let through on its predecessor's document. */
  lemma FramesAreSequential(config: Config, s: State)
    requires Reachable(config, s) && s.row.live.Running?
    ensures s.h.started.Some? && s.row.liveExpiresAt.Some? && Chain(config.live, StartOf(s.h), s.h.run)
    ensures s.row.live.challenge == Current(config, s.h)
            || (s.row.live.challenge == Current(config, s.h).(failed := true) && s.row.liveExpiresAt.value <= s.now)
    ensures Sound(s.row.live.challenge) && s.row.live.challenge.frames == |s.h.run|
  {
    ReachableInv(config, s);
    ChainInvariant(config.live, s.h.started.value.0, s.h.started.value.1, s.h.run);
  }

  lemma RowChangedCommits(config: Config, s: State, step: Step)
    requires Enabled(config, s, step) && step.event.CommitFrame? && Apply(config, s, step).row != s.row
    ensures FrameCommits(config, s, step.tid, step.at)
  {
    hide FrameTx, Advance, NewKey;
  }

  lemma CommittedDocument(config: Config, s: State, step: Step)
    requires Enabled(config, s, step) && step.event.CommitFrame? && FrameCommits(config, s, step.tid, step.at)
    ensures Apply(config, s, step).row.live
            == Running(Advance(config.live, s.tasks[step.tid].base, s.tasks[step.tid].frame))
  {
    hide Advance, NewKey, NotPending;
  }

  /** A frame that commits replaces exactly the document it was computed from. */
  lemma CommitIsOnWhatWasRead(config: Config, s: State, step: Step)
    requires Reachable(config, s) && Enabled(config, s, step) && step.event.CommitFrame?
    requires Apply(config, s, step).row != s.row
    ensures var Committing(base, f) := s.tasks[step.tid];
            && s.h.started.Some? && s.row.live == Running(base) && base == Current(config, s.h)
            && Screen(s.row.live, f.token, f.digest, f.now) == Analyze
            && Apply(config, s, step).row.live == Running(Advance(config.live, base, f))
            && f.token !in s.h.consumed
  {
    hide Custody, Integrity, DecisionRow, WorkInv, OutboxInv, LeaseInv, Erased, Advance, NewKey, Apply, FrameCommits;
    hide Screen, Reachable, SelfieContent, Current, Chain, SelfieIsProven, LiveIsCurrent, FrameOnBase;
    RowChangedCommits(config, s, step);
    CommittedDocument(config, s, step);
    ReachableInv(config, s);
    assert TaskLive(s, step.tid, s.tasks[step.tid]);
    FrameCommitsOnCurrent(config, s, step.tid, step.at);
    ScreenedToken(s.tasks[step.tid].base, s.tasks[step.tid].frame);
  }

  /** A frame that is let through carries the token of the document. */
  lemma ScreenedToken(c: Challenge, f: Frame)
    requires Screen(Running(c), f.token, f.digest, f.now) == Analyze
    ensures f.token == c.token
  {
  }

  /** No token is ever consumed by two committed frames. */
  lemma TokensConsumedOnce(config: Config, s: State)
    requires Reachable(config, s)
    ensures Distinct(s.h.consumed)
    ensures s.row.live.Running? ==> s.row.live.challenge.token !in s.h.consumed
  {
    ReachableInv(config, s);
    hide Custody, Integrity, DecisionRow, WorkInv, OutboxInv, LeaseInv, Erased;
  }

  /** The row's document remembers the last committed frame. */
  lemma LastFrameRemembered(config: Config, s: State)
    requires LiveIsCurrent(config, s) && s.row.live.Running? && s.h.run != []
    ensures s.h.started.Some?
    ensures var c, f, current := s.row.live.challenge, s.h.run[|s.h.run| - 1], Current(config, s.h);
            c.last == Some((f.token, f.digest)) && c == current.(failed := c.failed)
  {
  }

  lemma RetryScreened(c: Challenge, token: Token, digest: Digest, arrived: Time)
    requires c.last == Some((token, digest))
    ensures Screen(Running(c), token, digest, arrived)
         == if arrived <= c.deadline && !c.failed then Acknowledge(MakeReply(c, c.feedback))
             else Refuse(LiveChallengeExpired)
  {
  }

  /** In every state of every run, however much has happened in between, sending the last committed
      frame again changes nothing. It is answered with the reply of its commit exactly while the row
      is pending, still has the challenge, and the challenge is neither past its deadline nor failed. */
  lemma RetryAfterCommit(config: Config, s: State, again: Step)
    requires Reachable(config, s) && s.h.run != [] && Enabled(config, s, again) && again.event.BeginFrame?
    requires var f := s.h.run[|s.h.run| - 1]; again.event.token == f.token && again.event.digest == f.digest
    ensures Apply(config, s, again) == s.(now := again.at)
    ensures s.h.started.Some?
    ensures var BeginFrame(token, digest, arrived) := again.event;
            var c, refusal := Current(config, s.h), NotPending(s.row, again.at);
            FrameAnswer(s.row, token, digest, arrived, again.at)
              == if refusal.Some? then Refuse(refusal.value)
                 else if s.row.live.Running? && !s.row.live.challenge.failed && arrived <= c.deadline then
                   Acknowledge(MakeReply(c, c.feedback))
                 else Refuse(LiveChallengeExpired)
  {
    ReachableInv(config, s);
    assert s.h.started.Some? && !s.row.live.MarkOnly?;
    hide Custody, SelfieContent, Integrity, DecisionRow, WorkInv, OutboxInv, LeaseInv, Erased, Apply, Screen;
    hide NotPending;
    var BeginFrame(token, digest, arrived) := again.event;
    assert Screen(NoLive, token, digest, arrived) == Refuse(LiveChallengeExpired) by {
      NothingToScreen(token, digest, arrived);
    }
    if s.row.live.Running? {
      LastFrameRemembered(config, s);
      RetryScreened(s.row.live.challenge, token, digest, arrived);
    }
    NotAnalyzed(config, s, again);
  }

  lemma NothingToScreen(token: Token, digest: Digest, arrived: Time)
    ensures Screen(NoLive, token, digest, arrived) == Refuse(LiveChallengeExpired)
  {
  }

  lemma NotAnalyzed(config: Config, s: State, step: Step)
    requires Enabled(config, s, step) && step.event.BeginFrame?
    requires Screen(s.row.live, step.event.token, step.event.digest, step.event.arrived) != Analyze
    ensures Apply(config, s, step) == s.(now := step.at)
  {
    hide Screen;
  }
}
