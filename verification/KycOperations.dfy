/** What each operation answers in every state of every run, in terms of what has happened so far. */
module KycOperations {
  import opened Wrappers
  import opened KycTypes
  import opened LiveChallenge
  import opened Decision
  import opened VerificationRow
  import opened KycProtocol
  import opened KycInvariant
  import opened LiveProof
  import opened CustodyProof
  import opened StepProof

  // ---------------------------------------------------------------- frames

  /** The row accepts frames at `at`. */
  predicate Capturing(row: Row, at: Time) {
    row.status == PendingUpload && row.profile == OpticalV1 && at < row.deleteAfter && row.live.Running?
  }

  lemma CurrentIsHistory(config: Config, s: State)
    requires LiveRow(config, s) && s.row.live.Running?
    ensures s.h.started.Some? && Chain(config.live, StartOf(s.h), s.h.run)
    ensures var (token, began) := s.h.started.value;
            var c := s.row.live.challenge;
            && Current(config, s.h) == DocumentOf(config.live, token, began, s.h.run)
            && c == Current(config, s.h).(failed := c.failed)
            && (!c.failed ==> c == Current(config, s.h))
            && (c.failed && !Current(config, s.h).failed ==> s.row.liveExpiresAt.value <= s.now)
  {
    hide Answered, Passing, PromptAfter, StepBegan, FirstAnswer, LastFeedback, DocumentOf, SelfieIsProven, Replay;
    hide Chain;
    DocumentIsHistory(config.live, s.h.started.value.0, s.h.started.value.1, s.h.run);
  }

  lemma MarkedIsExpired(c: Challenge, token: Token, digest: Digest, arrived: Time)
    requires c.failed
    ensures Screen(Running(c), token, digest, arrived) == Refuse(LiveChallengeExpired)
  {
  }

  /** `frame` answers from the history of the challenge: the frames committed since `start`, and
      whether the sweeper has marked it. */
  lemma FrameAnsweredExactly(config: Config, s: State, token: Token, digest: Digest, arrived: Time, at: Time)
    requires Reachable(config, s)
    ensures s.row.live.Running? ==> s.h.started.Some?
    ensures FrameAnswer(s.row, token, digest, arrived, at)
         == if s.row.status != PendingUpload || s.row.deleteAfter <= at then Refuse(InvalidStateTransition)
            else if s.row.profile != OpticalV1 then Refuse(LiveCaptureNotSupported)
            else if !s.row.live.Running? || s.row.live.challenge.failed then Refuse(LiveChallengeExpired)
            else
              var (issued, began) := s.h.started.value;
              AnswerOf(config.live, issued, began, s.h.run, token, digest, arrived)
  {
    ReachableInv(config, s);
    hide Custody, SelfieContent, DecisionRow, WorkInv, OutboxInv, LeaseInv, Erased, AnswerOf, Current, Reachable, Refs;
    hide Answered, Passing, PromptAfter, StepBegan, FirstAnswer, LastFeedback, DocumentOf, SelfieIsProven, Chain;
    hide LiveIsCurrent, TokensUsedOnce, TaskLive;
    assert !s.row.live.MarkOnly?;
    if s.row.live.Running? {
      CurrentIsHistory(config, s);
      var (issued, began) := s.h.started.value;
      if s.row.live.challenge.failed {
        MarkedIsExpired(s.row.live.challenge, token, digest, arrived);
      } else {
        AnswersFromHistory(config.live, issued, began, s.h.run, token, digest, arrived);
        CurrentIsReplay(config, s.h);
      }
    }
    hide Screen;
  }

  lemma CurrentIsReplay(config: Config, h: History)
    requires h.started.Some?
    ensures Current(config, h) == Replay(config.live, Fresh(h.started.value.0, h.started.value.1), h.run)
    ensures StartOf(h) == Fresh(h.started.value.0, h.started.value.1)
  {
  }

  /** A frame commits while the row still accepts frames, has the document the frame was screened on,
      and neither the challenge nor the current step has run out. */
  predicate InTimeToCommit(config: Config, s: State, f: Frame, at: Time) {
    && Capturing(s.row, at) && s.row.live.challenge.token == f.token && s.h.started.Some?
    && at <= s.h.started.value.1 + 120_000_000
    && at <= StepBegan(config.live, s.h.started.value.1, s.h.run) + 20_000_000
  }

  lemma CommitsInTime(config: Config, s: State, tid: Tid, at: Time)
    requires LiveRow(config, s) && Intact(s.row, s.blobs) && s.now < at
    requires tid in s.tasks && s.tasks[tid].Committing? && TaskLive(s, tid, s.tasks[tid])
    ensures FrameCommits(config, s, tid, at) <==> InTimeToCommit(config, s, s.tasks[tid].frame, at)
    ensures FrameCommits(config, s, tid, at) ==> s.row.live == Running(s.tasks[tid].base)
                                                 && s.tasks[tid].base == Current(config, s.h)
  {
    hide Answered, Passing, PromptAfter, StepBegan, FirstAnswer, LastFeedback, SelfieIsProven, Replay, Refs, NewKey;
    hide Chain, TokensUsedOnce, Hit, LiveIsCurrent, Current;
    var Committing(base, f) := s.tasks[tid];
    if s.row.live.Running? {
      CurrentIsHistory(config, s);
      var (token, began) := s.h.started.value;
      if base == DocumentOf(config.live, token, began, s.h.run) {
        NextCompletes(config, token, began, s.h.run, base, f);
      }
    }
  }

  lemma NextCompletes(config: Config, token: Token, began: Time, run: seq<Frame>, base: Challenge, f: Frame)
    requires Chain(config.live, Fresh(token, began), run)
    requires base == DocumentOf(config.live, token, began, run)
             && Screen(Running(base), f.token, f.digest, f.now) == Analyze
    ensures Advance(config.live, base, f).complete ==> Advance(config.live, base, f).selfieKey.Some?
    ensures Chain(config.live, Fresh(token, began), run + [f])
    ensures Advance(config.live, base, f) == DocumentOf(config.live, token, began, run + [f])
  {
    hide Answered, Passing, PromptAfter, StepBegan, FirstAnswer, LastFeedback, Replay, Advance, Screen, DocumentOf;
    hide Chain;
    DocumentIsHistory(config.live, token, began, run);
    ChainSnoc(config.live, Fresh(token, began), run, f);
    DocumentIsHistory(config.live, token, began, run + [f]);
    ChainInvariant(config.live, token, began, run + [f]);
  }

  /** The row a frame leaves that is committed at `at`. */
  ghost function FrameRow(config: Config, row: Row, token: Token, began: Time, run: seq<Frame>, at: Time): Row {
    var next := DocumentOf(config.live, token, began, run);
    if |Passing(config.live, run)| == 9 && next.selfieKey.Some? then
      row.(live := Running(next), liveExpiresAt := Some(at + 600_000_000),
           evidence := row.evidence[Selfie := next.selfieKey.value], version := row.version + 1)
    else row.(live := Running(next))
  }

  lemma CommitRow(config: Config, s: State, tid: Tid, at: Time, token: Token, began: Time)
    requires tid in s.tasks && s.tasks[tid].Committing? && FrameCommits(config, s, tid, at)
    requires var Committing(base, f) := s.tasks[tid];
             Advance(config.live, base, f) == DocumentOf(config.live, token, began, s.h.run + [f])
    ensures var s' := DoCommitFrame(config, s, tid, at);
            && s'.row == FrameRow(config, s.row, token, began, s.h.run + [s.tasks[tid].frame], at)
            && s'.h.run == s.h.run + [s.tasks[tid].frame]
  {
    hide Answered, Passing, PromptAfter, StepBegan, FirstAnswer, LastFeedback, NewKey, Advance, NotPending;
  }

  lemma NoCommitRow(config: Config, s: State, tid: Tid, at: Time)
    requires tid in s.tasks && s.tasks[tid].Committing? && !FrameCommits(config, s, tid, at)
    ensures DoCommitFrame(config, s, tid, at).row == s.row && DoCommitFrame(config, s, tid, at).h.run == s.h.run
  {
    hide NewKey, Advance, FrameTx;
  }

  /** A frame that was let through and is in time replaces the document by the one its history with this
      frame leads to, and the ninth step links the first answer as the selfie; any other frame leaves
      the row as it was. */
  lemma FrameCommitsExactly(config: Config, s: State, tid: Tid, at: Time)
    requires Reachable(config, s) && Enabled(config, s, Step(tid, at, CommitFrame))
    ensures var f, s' := s.tasks[tid].frame, Apply(config, s, Step(tid, at, CommitFrame));
            if InTimeToCommit(config, s, f, at) then
              var (token, began) := s.h.started.value;
              && s'.row == FrameRow(config, s.row, token, began, s.h.run + [f], at)
              && s'.h.run == s.h.run + [f]
              && (|Passing(config.live, s.h.run + [f])| == 9 ==> FirstAnswer(config.live, s.h.run + [f]).Some?)
            else s'.row == s.row && s'.h.run == s.h.run
  {
    ReachableInv(config, s);
    assert TaskLive(s, tid, s.tasks[tid]);
    CommittingFrame(config, s, tid, at);
  }

  lemma CommittingFrame(config: Config, s: State, tid: Tid, at: Time)
    requires LiveRow(config, s) && Intact(s.row, s.blobs) && s.now < at
    requires tid in s.tasks && s.tasks[tid].Committing? && TaskLive(s, tid, s.tasks[tid])
    ensures var f, s' := s.tasks[tid].frame, DoCommitFrame(config, s, tid, at);
            if InTimeToCommit(config, s, f, at) then
              var (token, began) := s.h.started.value;
              && s'.row == FrameRow(config, s.row, token, began, s.h.run + [f], at)
              && s'.h.run == s.h.run + [f]
              && (|Passing(config.live, s.h.run + [f])| == 9 ==> FirstAnswer(config.live, s.h.run + [f]).Some?)
            else s'.row == s.row && s'.h.run == s.h.run
  {
    hide Answered, Passing, PromptAfter, StepBegan, FirstAnswer, LastFeedback, SelfieIsProven, Replay, NewKey, Refs;
    hide LiveIsCurrent, TokensUsedOnce, Screen, Chain, Advance, DoCommitFrame, Current, FrameCommits, FrameRow;
    CommitsInTime(config, s, tid, at);
    var Committing(base, f) := s.tasks[tid];
    if FrameCommits(config, s, tid, at) {
      CurrentIsHistory(config, s);
      var (token, began) := s.h.started.value;
      CurrentIsReplay(config, s.h);
      NextCompletes(config, token, began, s.h.run, base, f);
      CommitRow(config, s, tid, at, token, began);
    } else {
      NoCommitRow(config, s, tid, at);
    }
  }

  // ---------------------------------------------------------------- submission

  /** What `submit` asks of a pending row, by the flags of its document and the fields of the capture. */
  predicate ReadyToSubmit(row: Row, at: Time) {
    && Selfie in row.evidence
    && (row.document.front ==> Front in row.evidence)
    && (row.document.back ==> Back in row.evidence)
    && (row.profile == OpticalV1 ==>
          && row.live.Running? && row.live.challenge.complete && !row.live.challenge.failed
          && row.live.challenge.selfieKey == Some(row.evidence[Selfie])
          && at - row.live.challenge.completedAt <= 600_000_000)
  }

  lemma UnfinishedIsKept(config: Config, s: State)
    requires Reachable(config, s)
    ensures Active(s.row) ==> !s.row.evidenceDeleted
    ensures LeaseRow(s.row, s.h)
  {
    ReachableInv(config, s);
  }

  /** The answers of `submit`. */
  lemma SubmitAnswers(row: Row, at: Time)
    ensures row.evidenceDeleted ==> SubmitTx(row, at) == Err(EvidenceExpired)
    ensures !row.evidenceDeleted && row.status != PendingUpload ==> SubmitTx(row, at) == Ok(row)
    ensures !row.evidenceDeleted && row.status == PendingUpload ==>
              SubmitTx(row, at)
              == if ReadyToSubmit(row, at) then Ok(row.(status := Submitted, version := row.version + 1))
                 else if Selfie !in row.evidence || (row.document.front && Front !in row.evidence)
                     || (row.document.back && Back !in row.evidence) then Err(EvidenceIncomplete)
                 else Err(LiveCaptureRequired)
  {
    assert RequiredKinds(row.document) <= row.evidence.Keys
      <==> Selfie in row.evidence && (row.document.front ==> Front in row.evidence)
           && (row.document.back ==> Back in row.evidence);
  }

  /** `submit` turns a pending row into a submitted one exactly when it is ready, and changes nothing else. */
  lemma SubmitExactly(config: Config, s: State, step: Step)
    requires Reachable(config, s) && Enabled(config, s, step) && step.event.Submit?
    ensures Apply(config, s, step)
         == (if s.row.status == PendingUpload && ReadyToSubmit(s.row, step.at) then
               s.(row := s.row.(status := Submitted, version := s.row.version + 1))
             else s).(now := step.at)
  {
    hide Reachable, SubmitTx, ReadyToSubmit, LeaseRow;
    UnfinishedIsKept(config, s);
    SubmitAnswers(s.row, step.at);
  }

  /** A submitted capture ended at most ten minutes before: its last frame passed the ninth step. */
  lemma SubmittedCapture(config: Config, s: State, at: Time)
    requires Reachable(config, s) && s.row.profile == OpticalV1 && ReadyToSubmit(s.row, at)
    requires s.row.status == PendingUpload
    ensures s.h.started.Some?
    ensures |Passing(config.live, s.h.run)| == 9
    ensures at - StepBegan(config.live, s.h.started.value.1, s.h.run) <= 600_000_000
    ensures FirstAnswer(config.live, s.h.run) == Some(s.row.evidence[Selfie])
  {
    ReachableInv(config, s);
    hide Custody, SelfieContent, DecisionRow, WorkInv, OutboxInv, LeaseInv, Erased, Reachable, Refs, Current;
    hide Answered, Passing, PromptAfter, StepBegan, FirstAnswer, LastFeedback, SelfieIsProven, Replay, Chain;
    hide LiveIsCurrent, TokensUsedOnce;
    CurrentIsHistory(config, s);
  }

  // ---------------------------------------------------------------- claims

  /** Nobody has claimed the row, or the last claim was more than 300 s ago. */
  predicate ClaimIsOver(claims: seq<Time>, clock: Time) {
    claims == [] || claims[|claims| - 1] + 300_000_000 < clock
  }

  /** A worker gets the row exactly when it is submitted or in processing and the last claim of its whole
      history is more than 300 s old, whatever became of the worker that made it. */
  lemma ClaimExactly(config: Config, s: State, step: Step)
    requires Reachable(config, s) && Enabled(config, s, step) && step.event.ClaimRow?
    ensures var clock, s' := step.event.clock, Apply(config, s, step);
            if s.row.status in {Submitted, Processing} && ClaimIsOver(s.h.claims, clock) then
              && s'.row == s.row.(status := Processing, version := s.row.version + 1,
                                  attempts := s.row.attempts + 1, leaseUntil := Some(clock + 300_000_000))
              && s'.h == s.h.(claims := s.h.claims + [clock])
              && s'.tasks == s.tasks[step.tid := Working(
                   Claim(s.row.version + 1, s.row.attempts + 1, s.row.evidence,
                         if s.row.personal.Some? then s.row.personal.value else map[],
                         s.row.profile, s.row.document, s.row.live), map[], false)]
              && s'.blobs == s.blobs && s'.outbox == s.outbox
            else s' == s.(now := step.at)
  {
    hide Reachable, ClaimTx, ClaimIsOver, LeaseRow;
    UnfinishedIsKept(config, s);
    LeaseIsLastClaim(s, step.event.clock);
  }

  lemma LeaseIsLastClaim(s: State, clock: Time)
    requires LeaseRow(s.row, s.h) && (Active(s.row) ==> !s.row.evidenceDeleted)
    ensures ClaimTx(s.row, clock)
         == if s.row.status in {Submitted, Processing} && ClaimIsOver(s.h.claims, clock) then
              Some(s.row.(status := Processing, version := s.row.version + 1, attempts := s.row.attempts + 1,
                          leaseUntil := Some(clock + 300_000_000)))
            else None
  {
  }

  /** A worker asks once, on at most its third attempt and with every image loaded, and the attempt is
      counted before it asks; unless it has to ask and has not, it may judge. */
  lemma ConsultExactly(config: Config, s: State, tid: Tid, at: Time)
    requires tid in s.tasks && s.tasks[tid].Working? && s.now < at
    ensures var claim, images, asked := s.tasks[tid].claim, s.tasks[tid].images, s.tasks[tid].asked;
            var has := config.worker.mode != Mock && claim.attempts <= 3
              && forall kind :: kind in claim.evidence ==> kind in images;
            && (Enabled(config, s, Step(tid, at, Consult)) <==> has && !asked)
            && (has && !asked ==>
                  Apply(config, s, Step(tid, at, Consult))
                  == s.(tasks := s.tasks[tid := Working(claim, images, true)],
                        h := s.h.(consulted := s.h.consulted + [claim.attempts]), now := at))
            && forall report, today ::
                 Enabled(config, s, Step(tid, at, Judge(report, today))) <==> (has ==> asked)
  {
    assert s.tasks[tid].claim.evidence.Keys <= s.tasks[tid].images.Keys
      <==> forall kind :: kind in s.tasks[tid].claim.evidence ==> kind in s.tasks[tid].images;
  }

  // ---------------------------------------------------------------- retention

  /** A sweep takes the row up exactly when its time is over and it is not erased yet. */
  lemma RetentionExactly(config: Config, s: State, step: Step)
    requires Enabled(config, s, step) && step.event.SelectDue?
    ensures Apply(config, s, step)
         == (if s.row.deleteAfter <= step.at && !s.row.evidenceDeleted then s.(tasks := s.tasks[step.tid := Selected])
             else s).(now := step.at)
  {
  }

  /** The tombstone closes the row unless it is erased, takes the personal data and lists every image the
      row refers to. */
  lemma TombstoneExactly(config: Config, s: State, step: Step)
    requires Enabled(config, s, step) && step.event.Tombstone?
    ensures var s' := Apply(config, s, step);
            if s.row.evidenceDeleted then s' == End(s, step.tid).(now := step.at)
            else
              && s'.row == s.row.(status := if s.row.status in {PendingUpload, Submitted, Processing, NeedsReview}
                                            then Expired else s.row.status,
                                  version := s.row.version + 1, personal := None, extracted := None)
              && s'.blobs == s.blobs && s'.h == s.h && s'.outbox == s.outbox
              && step.tid in s'.tasks && s'.tasks[step.tid].Pruning?
              && s'.tasks == s.tasks[step.tid := s'.tasks[step.tid]]
              && s'.tasks[step.tid].keys == s'.tasks[step.tid].remaining
              && forall k :: k in s'.tasks[step.tid].keys <==>
                   k in s.row.evidence.Values || (s.row.live.Running? && s.row.live.challenge.selfieKey == Some(k))
  {
  }

  /** The last step of every request, worker and sweep ends it, or leaves it with blobs to delete. */
  lemma LastStepsEnd(config: Config, s: State, step: Step)
    requires Enabled(config, s, step)
    requires step.event.CommitUpload? || step.event.CommitStart? || step.event.CommitFrame? || step.event.FinishSweep?
             || step.event.FinishPrune? || step.event.CommitResult? || step.event.Crash?
    ensures var s' := Apply(config, s, step);
            && (step.tid in s'.tasks ==> s'.tasks[step.tid].Cleaning? && s'.tasks[step.tid].keys != {})
            && s'.tasks - {step.tid} == s.tasks - {step.tid}
  {
    hide UploadTx, StartTx, FrameTx, SweepFinishTx, EraseEvidenceTx, ResultTx, NewKey, Advance, OutcomeOf;
  }
}
