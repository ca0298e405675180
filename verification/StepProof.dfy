/** The invariant is inductive. */
module StepProof {
  import opened Wrappers
  import opened KycTypes
  import opened LiveChallenge
  import opened Decision
  import opened VerificationRow
  import opened KycProtocol
  import opened KycInvariant
  import opened CustodyProof
  import opened LiveProof
  import opened IntegrityProof
  import opened WorkProof

  // ---------------------------------------------------------------- custody

  lemma CustodyClock(config: Config, s: State, at: Time)
    requires Custody(config, s)
    ensures Custody(config, s.(now := at))
  {
    hide Refs, NewKey;
    var s' := s.(now := at);
    forall t | t in s'.tasks ensures TaskCustody(config, s', t, s'.tasks[t]) {
      assert TaskCustody(config, s, t, s.tasks[t]);
    }
    forall k | k in s'.blobs ensures Kept(config, s', k) {
      assert Kept(config, s, k);
    }
  }

  /** New tasks that only read the row. */
  lemma CustodyBegin(config: Config, s: State, step: Step)
    requires Custody(config, s) && Enabled(config, s, step)
    requires step.event.BeginUpload? || step.event.BeginStart? || step.event.SelectDue?
    ensures Custody(config, Apply(config, s, step))
  {
    hide Refs, NewKey, Kept, RowCustody;
    CustodyLocal(config, s, step.tid, Apply(config, s, step));
  }

  lemma CustodyWork(config: Config, s: State, step: Step)
    requires Custody(config, s) && Enabled(config, s, step)
             && (step.event.Load? || step.event.Consult? || step.event.Judge?)
    ensures Custody(config, Apply(config, s, step))
  {
    hide Refs, NewKey, Kept, RowCustody;
    assert TaskCustody(config, s, step.tid, s.tasks[step.tid]);
    CustodyLocal(config, s, step.tid, Apply(config, s, step));
  }

  lemma CustodyBeginFrame(config: Config, s: State, step: Step)
    requires Custody(config, s) && Enabled(config, s, step) && step.event.BeginFrame?
    ensures Custody(config, Apply(config, s, step))
  {
    assert s.row.live.Running? && s.row.live.challenge.selfieKey.Some? ==>
             BelongsTo(s.h, s.row.live.challenge.selfieKey.value, Selfie);
    hide Refs, NewKey, Kept, RowCustody;
    CustodyLocal(config, s, step.tid, Apply(config, s, step));
  }

  lemma CustodyAnalyzeFrame(config: Config, s: State, step: Step)
    requires Custody(config, s) && Enabled(config, s, step) && step.event.AnalyzeFrame?
    ensures Custody(config, Apply(config, s, step))
  {
    hide Refs, Kept, RowCustody, Hit, NewKey;
    var Step(tid, at, AnalyzeFrame(check, ratio, nextToken, nextKey, turnLeft)) := step;
    var Analyzing(base, token, digest, arrived) := s.tasks[tid];
    var frame := Frame(token, digest, arrived, check, ratio, nextToken, nextKey, turnLeft);
    var s1 := s.(h := s.h.(tokens := s.h.tokens[nextToken := Some(tid)]));
    assert TaskCustody(config, s, tid, s.tasks[tid]);
    CustodyLocal(config, s, tid, s1);
    NewKeyIsNext(config, base, frame);
    if NewKey(config.live, base, frame).Some? {
      CustodyPut(config, s1, tid, nextKey, digest, Committing(base, frame));
      CustodyClock(config, DoAnalyzeFrame(config, s, tid, check, ratio, nextToken, nextKey, turnLeft), at);
    } else {
      CustodyLocal(config, s, tid, Apply(config, s, step));
    }
  }

  lemma NewKeyIsNext(config: Config, base: Challenge, frame: Frame)
    ensures NewKey(config.live, base, frame).Some? ==> NewKey(config.live, base, frame).value == frame.nextKey
  {
  }

  lemma CustodyPutUpload(config: Config, s: State, step: Step)
    requires Custody(config, s) && Enabled(config, s, step) && step.event.PutUpload?
    ensures Custody(config, Apply(config, s, step))
  {
    hide Refs, Kept, RowCustody, NewKey;
    var Step(tid, at, PutUpload(key, content)) := step;
    CustodyPut(config, s, tid, key, content, Uploaded(s.tasks[tid].kind, key));
    CustodyClock(config, DoPutUpload(s, tid, key, content), at);
  }

  lemma CustodySubmit(config: Config, s: State, step: Step)
    requires Custody(config, s) && Enabled(config, s, step) && (step.event.Submit? || step.event.Erase?)
    ensures Custody(config, Apply(config, s, step))
  {
    var row := Apply(config, s, step).row;
    hide Refs, Kept, RowCustody, NewKey, TaskCustody;
    CustodySubmitOrErase(config, s, step.tid, row);
    CustodyClock(config, s.(row := row), step.at);
  }

  /** The facts of the other invariants that the custody of a step rests on. */
  lemma CustodyNeeds(config: Config, s: State, step: Step)
    requires LiveInv(config, s) && Enabled(config, s, step)
    ensures step.event.CommitUpload? && s.tasks[step.tid].kind == Selfie ==> s.row.live.NoLive?
    ensures step.event.CommitStart? ==> s.tasks[step.tid].challenge.selfieKey.None?
    ensures step.event.FinishSweep? ==> SweepOk(s, s.tasks[step.tid].state)
    ensures step.event.DeleteSwept? ==> SweepOk(s, s.tasks[step.tid].state)
    ensures s.row.status == Processing ==> forall k :: k in s.row.live.SelfieKeys() ==> k in s.row.evidence.Values
  {
    hide Refs, NewKey, Replay, Chain, Screen;
    if step.tid in s.tasks {
      assert TaskLive(s, step.tid, s.tasks[step.tid]);
    }
    if s.row.status == Processing && s.row.live.Running? {
      assert Selfie in RequiredKinds(s.row.document);
      assert s.row.evidence[Selfie] in s.row.evidence.Values;
    }
  }

  lemma CustodyFrameNeeds(config: Config, s: State, step: Step)
    requires LiveInv(config, s) && Enabled(config, s, step) && step.event.CommitFrame?
    ensures FrameOnBase(config, s, step.tid, step.at)
  {
    assert TaskLive(s, step.tid, s.tasks[step.tid]);
    hide LiveRow, TaskLive, FrameOnBase, Advance, FrameTx;
    if FrameCommits(config, s, step.tid, step.at) {
      FrameCommitsOnCurrent(config, s, step.tid, step.at);
    } else {
      NoCommitOnBase(config, s, step.tid, step.at);
    }
  }

  lemma NoCommitOnBase(config: Config, s: State, tid: Tid, at: Time)
    requires tid in s.tasks && s.tasks[tid].Committing? && !FrameCommits(config, s, tid, at)
    ensures FrameOnBase(config, s, tid, at)
  {
    hide Advance, FrameTx;
  }

  lemma CustodyInductive(config: Config, s: State, step: Step)
    requires Custody(config, s) && LiveInv(config, s) && s.row.status !in {NotStarted, InProgress}
    requires Enabled(config, s, step)
    ensures Custody(config, Apply(config, s, step))
  {
    hide Custody, LiveInv, SweepOk, FrameOnBase;
    CustodyNeeds(config, s, step);
    if step.event.CommitFrame? {
      CustodyFrameNeeds(config, s, step);
    }
    hide DoBeginUpload, DoPutUpload, DoCommitUpload, DoClean, DoBeginStart, DoCommitStart, DoBeginFrame, DoAnalyzeFrame;
    hide DoCommitFrame, DoSubmit, DoMarkSweep, DoDeleteSwept, DoFinishSweep, DoTombstone, DoDeletePruned, DoFinishPrune;
    hide DoClaim, DoLoad, DoConsult, DoJudge, DoCommitResult, DoCrash;
    var Step(tid, at, event) := step;
    match event
    case PutUpload(_, _) => CustodyPutUpload(config, s, step);
    case CommitUpload => CustodyCommitUpload(config, s, tid); CustodyClock(config, DoCommitUpload(s, tid), at);
    case Clean(key) => CustodyClean(config, s, tid, key); CustodyClock(config, DoClean(s, tid, key), at);
    case CommitStart => CustodyCommitStart(config, s, tid, at); CustodyClock(config, DoCommitStart(s, tid, at), at);
    case BeginFrame(_, _, _) => CustodyBeginFrame(config, s, step);
    case AnalyzeFrame(_, _, _, _, _) => CustodyAnalyzeFrame(config, s, step);
    case CommitFrame =>
      CustodyCommitFrame(config, s, tid, at);
      CustodyClock(config, DoCommitFrame(config, s, tid, at), at);
    case Submit => CustodySubmit(config, s, step);
    case Erase => CustodySubmit(config, s, step);
    case MarkSweep => CustodyMarkSweep(config, s, tid, at); CustodyClock(config, DoMarkSweep(s, tid, at), at);
    case DeleteSwept => CustodyDeleteSwept(config, s, tid); CustodyClock(config, DoDeleteSwept(s, tid), at);
    case FinishSweep => CustodyFinishSweep(config, s, tid); CustodyClock(config, DoFinishSweep(s, tid), at);
    case Tombstone => CustodyTombstone(config, s, tid); CustodyClock(config, DoTombstone(s, tid), at);
    case DeletePruned(key) =>
      CustodyDeletePruned(config, s, tid, key);
      CustodyClock(config, DoDeletePruned(s, tid, key), at);
    case FinishPrune => CustodyFinishPrune(config, s, tid); CustodyClock(config, DoFinishPrune(s, tid), at);
    case ClaimRow(clock) => CustodyClaim(config, s, tid, clock); CustodyClock(config, DoClaim(s, tid, clock), at);
    case CommitResult => CustodyCommitResult(config, s, tid); CustodyClock(config, DoCommitResult(config, s, tid), at);
    case Crash => CustodyCrash(config, s, tid); CustodyClock(config, DoCrash(s, tid), at);
    case Load(_) => CustodyWork(config, s, step);
    case Consult => CustodyWork(config, s, step);
    case Judge(_, _) => CustodyWork(config, s, step);
    case _ => CustodyBegin(config, s, step);
  }

  // ---------------------------------------------------------------- the challenge

  /** Steps of upload, selection and work: they have nothing to do with the challenge. */
  lemma LiveQuiet(config: Config, s: State, step: Step)
    requires Custody(config, s) && LiveInv(config, s) && Enabled(config, s, step)
    requires step.event.BeginUpload? || step.event.PutUpload? || step.event.SelectDue?
    ensures LiveInv(config, Apply(config, s, step))
  {
    hide Refs, NewKey, Kept, RowCustody, LiveRow, TaskCustody, Replay, Chain, BaseOk, SweepOk, Fresh;
    if step.tid in s.tasks {
      assert TaskLive(s, step.tid, s.tasks[step.tid]);
    }
    LiveLocal(config, s, step.tid, Apply(config, s, step));
  }

  lemma LiveWork(config: Config, s: State, step: Step)
    requires Custody(config, s) && LiveInv(config, s) && Enabled(config, s, step)
    requires step.event.Load? || step.event.Consult? || step.event.Judge?
    ensures LiveInv(config, Apply(config, s, step))
  {
    hide Refs, NewKey, Kept, RowCustody, LiveRow, TaskCustody, Replay, Chain, BaseOk, SweepOk, Fresh;
    LiveLocal(config, s, step.tid, Apply(config, s, step));
  }

  /** Deletions and crashes. */
  lemma LiveDelete(config: Config, s: State, step: Step)
    requires Custody(config, s) && LiveInv(config, s) && Enabled(config, s, step)
    requires step.event.Clean? || step.event.DeletePruned? || step.event.Crash? || step.event.DeleteSwept?
    ensures LiveInv(config, Apply(config, s, step))
  {
    hide Refs, NewKey, Kept, RowCustody, LiveRow, TaskCustody, Replay, Chain, BaseOk, Fresh;
    assert TaskLive(s, step.tid, s.tasks[step.tid]);
    LiveLocal(config, s, step.tid, Apply(config, s, step));
  }

  lemma LiveBeginStart(config: Config, s: State, step: Step)
    requires Custody(config, s) && LiveInv(config, s) && Enabled(config, s, step) && step.event.BeginStart?
    ensures LiveInv(config, Apply(config, s, step))
  {
    hide Refs, NewKey, Kept, RowCustody, LiveRow, TaskCustody, Replay, Chain, BaseOk;
    LiveLocal(config, s, step.tid, Apply(config, s, step));
  }

  lemma LiveBeginFrame(config: Config, s: State, step: Step)
    requires Custody(config, s) && LiveInv(config, s) && Enabled(config, s, step) && step.event.BeginFrame?
    ensures LiveInv(config, Apply(config, s, step))
  {
    hide Refs, NewKey, Kept, RowCustody, TaskCustody, Replay, Chain, SelfieIsProven, TokensUsedOnce;
    LiveLocal(config, s, step.tid, Apply(config, s, step));
  }

  lemma LiveAnalyzeFrame(config: Config, s: State, step: Step)
    requires Custody(config, s) && LiveInv(config, s) && Enabled(config, s, step) && step.event.AnalyzeFrame?
    ensures LiveInv(config, Apply(config, s, step))
  {
    hide Refs, NewKey, Kept, RowCustody, LiveRow, TaskCustody, Replay, Chain, Screen;
    assert TaskLive(s, step.tid, s.tasks[step.tid]);
    LiveLocal(config, s, step.tid, Apply(config, s, step));
  }

  lemma LiveCommitUpload(config: Config, s: State, tid: Tid, at: Time)
    requires Custody(config, s) && LiveInv(config, s) && tid in s.tasks && s.tasks[tid].Uploaded? && s.now < at
    ensures LiveInv(config, DoCommitUpload(s, tid).(now := at))
  {
    hide NewKey, Kept, Replay, Chain, BaseOk, TokensUsedOnce;
    assert TaskLive(s, tid, s.tasks[tid]) && TaskCustody(config, s, tid, s.tasks[tid]);
    if UploadTx(s.row, s.tasks[tid].kind, s.tasks[tid].key).Ok? {
      UploadRefs(s.row, s.h, s.tasks[tid].kind, s.tasks[tid].key);
    }
    hide Refs, RowCustody, LiveIsCurrent;
    LiveRowStep(config, s, tid, DoCommitUpload(s, tid).(now := at));
  }

  lemma SweptIsProven(row: Row, state: Live)
    requires SelfieIsProven(row) && row.profile == OpticalV1 && row.live == state
    requires state.Running? && state.challenge.failed && SweepFinishTx(row, state).Some?
    ensures SelfieIsProven(SweepFinishTx(row, state).value)
  {
  }

  lemma LiveFinishSweep(config: Config, s: State, tid: Tid, at: Time)
    requires Custody(config, s) && LiveInv(config, s) && tid in s.tasks && s.tasks[tid].Swept? && s.now < at
    ensures LiveInv(config, DoFinishSweep(s, tid).(now := at))
  {
    hide NewKey, Kept, Replay, Chain, BaseOk, TokensUsedOnce, TaskCustody;
    assert TaskLive(s, tid, s.tasks[tid]);
    var state := s.tasks[tid].state;
    if SweepFinishTx(s.row, state).Some? {
      SweepRefs(s.row, s.h, state);
      assert forall k :: k in Refs(SweepFinishTx(s.row, state).value) ==> k !in state.SelfieKeys();
      SweptIsProven(s.row, state);
    }
    hide Refs, RowCustody, SelfieIsProven;
    LiveRowStep(config, s, tid, DoFinishSweep(s, tid).(now := at));
  }

  /** The row-level half of a live step. */
  ghost predicate KeepsLive(row: Row, row': Row) {
    && row'.profile == row.profile && Refs(row') <= Refs(row) && SelfieIsProven(row')
    && (|| (row'.live == row.live && row'.liveExpiresAt == row.liveExpiresAt)
        || (row'.live == NoLive && row'.liveExpiresAt == None))
    && (row'.live != row.live && row.live.Running? && row.live.challenge.failed ==> row.live.SelfieKeys() !! Refs(row'))
  }

  lemma SubmitKeepsLive(row: Row, at: Time)
    requires SelfieIsProven(row)
    ensures SubmitTx(row, at).Ok? ==> KeepsLive(row, SubmitTx(row, at).value)
    ensures KeepsLive(row, EraseTx(row, at)) && KeepsLive(row, row)
  {
    assert SubmitTx(row, at).Ok? ==> Refs(SubmitTx(row, at).value) == Refs(row);
    assert Refs(EraseTx(row, at)) == Refs(row);
  }

  lemma WorkerKeepsLive(row: Row, clock: Time, version: nat, outcome: Outcome)
    requires SelfieIsProven(row) && outcome.status in {Approved, Rejected, NeedsReview, ActionRequired}
    ensures ClaimTx(row, clock).Some? ==> KeepsLive(row, ClaimTx(row, clock).value)
    ensures ResultTx(row, version, outcome).Some? && (row.live.Running? ==> row.profile == OpticalV1) ==>
              KeepsLive(row, ResultTx(row, version, outcome).value)
    ensures KeepsLive(row, row)
  {
    assert ClaimTx(row, clock).Some? ==> Refs(ClaimTx(row, clock).value) == Refs(row);
  }

  lemma LiveSubmitOrErase(config: Config, s: State, step: Step)
    requires Custody(config, s) && LiveInv(config, s) && Enabled(config, s, step)
             && (step.event.Submit? || step.event.Erase?)
    ensures LiveInv(config, Apply(config, s, step))
  {
    hide Refs, NewKey, Kept, RowCustody, Replay, Chain, LiveIsCurrent, TokensUsedOnce, TaskCustody, TaskLive;
    hide SelfieIsProven, SubmitTx, EraseTx;
    SubmitKeepsLive(s.row, step.at);
    LiveRowStep(config, s, step.tid, Apply(config, s, step));
  }

  lemma TombstoneKeepsLive(row: Row)
    requires TombstoneTx(row).Some? && row.status !in {NotStarted, InProgress}
    ensures var row' := TombstoneTx(row).value;
            && row'.live == row.live && row'.liveExpiresAt == row.liveExpiresAt && row'.profile == row.profile
            && Refs(row') == Refs(row) && (SelfieIsProven(row) ==> SelfieIsProven(row'))
  {
  }

  lemma LiveTombstone(config: Config, s: State, tid: Tid, at: Time)
    requires Custody(config, s) && LiveInv(config, s) && tid in s.tasks && s.tasks[tid].Selected? && s.now < at
    requires s.row.status !in {NotStarted, InProgress}
    ensures LiveInv(config, DoTombstone(s, tid).(now := at))
  {
    hide Refs, NewKey, Kept, RowCustody, Replay, Chain, LiveIsCurrent, TokensUsedOnce, TaskCustody, BaseOk;
    hide TombstoneTx, SelfieIsProven;
    if TombstoneTx(s.row).Some? {
      TombstoneKeepsLive(s.row);
    }
    LiveRowStep(config, s, tid, DoTombstone(s, tid).(now := at));
  }

  lemma LiveFinishPrune(config: Config, s: State, tid: Tid, at: Time)
    requires Custody(config, s) && LiveInv(config, s) && tid in s.tasks && s.tasks[tid].Pruning? && s.now < at
    ensures LiveInv(config, DoFinishPrune(s, tid).(now := at))
  {
    assert TaskCustody(config, s, tid, s.tasks[tid]);
    assert Refs(DoFinishPrune(s, tid).row) == {};
    hide Refs, NewKey, Kept, RowCustody, Replay, Chain, LiveIsCurrent, TokensUsedOnce, BaseOk;
    LiveRowStep(config, s, tid, DoFinishPrune(s, tid).(now := at));
  }

  lemma LiveClaim(config: Config, s: State, tid: Tid, at: Time, clock: Time)
    requires Custody(config, s) && LiveInv(config, s) && tid !in s.tasks && s.now < at
    ensures LiveInv(config, DoClaim(s, tid, clock).(now := at))
  {
    hide Refs, NewKey, Kept, RowCustody, Replay, Chain, LiveIsCurrent, TokensUsedOnce, TaskCustody, BaseOk;
    hide SelfieIsProven, ClaimTx;
    WorkerKeepsLive(s.row, clock, 0, ProcessingError(map[], map[]));
    LiveRowStep(config, s, tid, DoClaim(s, tid, clock).(now := at));
  }

  lemma LiveCommitResult(config: Config, s: State, tid: Tid, at: Time)
    requires Custody(config, s) && LiveInv(config, s) && tid in s.tasks && s.tasks[tid].Judged? && s.now < at
    ensures LiveInv(config, DoCommitResult(config, s, tid).(now := at))
  {
    hide Refs, NewKey, Kept, RowCustody, Replay, Chain, TokensUsedOnce, TaskCustody, BaseOk, SelfieIsProven, ResultTx;
    hide Evaluate;
    WorkerKeepsLive(s.row, 0, s.tasks[tid].verdict.claim.version, OutcomeOf(config, s.tasks[tid].verdict));
    LiveRowStep(config, s, tid, DoCommitResult(config, s, tid).(now := at));
  }

  lemma LiveInductive(config: Config, s: State, step: Step)
    requires Custody(config, s) && LiveInv(config, s) && s.row.status !in {NotStarted, InProgress}
    requires Enabled(config, s, step)
    ensures LiveInv(config, Apply(config, s, step))
  {
    hide Custody, LiveInv;
    hide DoBeginUpload, DoPutUpload, DoCommitUpload, DoClean, DoBeginStart, DoCommitStart, DoBeginFrame, DoAnalyzeFrame;
    hide DoCommitFrame, DoSubmit, DoMarkSweep, DoDeleteSwept, DoFinishSweep, DoTombstone, DoDeletePruned, DoFinishPrune;
    hide DoClaim, DoLoad, DoConsult, DoJudge, DoCommitResult, DoCrash;
    var Step(tid, at, event) := step;
    match event
    case CommitUpload => LiveCommitUpload(config, s, tid, at);
    case BeginStart(_, _) => LiveBeginStart(config, s, step);
    case CommitStart => LiveCommitStart(config, s, tid, at);
    case BeginFrame(_, _, _) => LiveBeginFrame(config, s, step);
    case AnalyzeFrame(_, _, _, _, _) => LiveAnalyzeFrame(config, s, step);
    case CommitFrame => LiveCommitFrame(config, s, tid, at);
    case Submit => LiveSubmitOrErase(config, s, step);
    case Erase => LiveSubmitOrErase(config, s, step);
    case MarkSweep => LiveMarkSweep(config, s, tid, at);
    case FinishSweep => LiveFinishSweep(config, s, tid, at);
    case Tombstone => LiveTombstone(config, s, tid, at);
    case FinishPrune => LiveFinishPrune(config, s, tid, at);
    case ClaimRow(clock) => LiveClaim(config, s, tid, at, clock);
    case CommitResult => LiveCommitResult(config, s, tid, at);
    case Clean(_) => LiveDelete(config, s, step);
    case DeletePruned(_) => LiveDelete(config, s, step);
    case DeleteSwept => LiveDelete(config, s, step);
    case Crash => LiveDelete(config, s, step);
    case Load(_) => LiveWork(config, s, step);
    case Consult => LiveWork(config, s, step);
    case Judge(_, _) => LiveWork(config, s, step);
    case _ => LiveQuiet(config, s, step);
  }

  // ---------------------------------------------------------------- integrity

  lemma IntegrityQuiet(config: Config, s: State, step: Step)
    requires Integrity(s) && Enabled(config, s, step)
    requires step.event.BeginUpload? || step.event.PutUpload? || step.event.BeginStart? || step.event.BeginFrame?
             || step.event.AnalyzeFrame? || step.event.SelectDue? || step.event.Load? || step.event.Consult?
             || step.event.Judge? || step.event.Crash?
    ensures Integrity(Apply(config, s, step))
  {
    hide Refs, Evaluate, Advance, NewKey, Intact;
    var s' := Apply(config, s, step);
    assert s'.row == s.row && forall k :: k in s.blobs ==> k in s'.blobs;
    IntegrityRow(s, s');
  }

  lemma IntegrityTransaction(config: Config, s: State, step: Step)
    requires Integrity(s) && Enabled(config, s, step)
    requires step.event.Submit? || step.event.Erase? || step.event.ClaimRow?
    ensures Integrity(Apply(config, s, step))
  {
    hide Refs, Intact;
    IntegrityRow(s, Apply(config, s, step));
  }

  lemma IntegrityInductive(config: Config, s: State, step: Step)
    requires Custody(config, s) && LiveInv(config, s) && Integrity(s) && s.row.status !in {NotStarted, InProgress}
    requires Enabled(config, s, step)
    ensures Integrity(Apply(config, s, step))
  {
    CustodyNeeds(config, s, step);
    hide Custody, LiveInv, SweepOk, Intact;
    hide DoBeginUpload, DoPutUpload, DoCommitUpload, DoClean, DoBeginStart, DoCommitStart, DoBeginFrame, DoAnalyzeFrame;
    hide DoCommitFrame, DoSubmit, DoMarkSweep, DoDeleteSwept, DoFinishSweep, DoTombstone, DoDeletePruned, DoFinishPrune;
    hide DoClaim, DoLoad, DoConsult, DoJudge, DoCommitResult, DoCrash;
    var Step(tid, at, event) := step;
    match event
    case CommitUpload => IntegrityCommitUpload(config, s, tid);
    case Clean(key) => IntegrityClean(config, s, tid, key);
    case CommitStart => IntegrityCommitStart(config, s, tid, at);
    case CommitFrame => IntegrityCommitFrame(config, s, tid, at);
    case Submit => IntegrityTransaction(config, s, step);
    case Erase => IntegrityTransaction(config, s, step);
    case MarkSweep => IntegrityMarkSweep(s, tid, at);
    case DeleteSwept => IntegrityDeleteSwept(s, tid);
    case FinishSweep => IntegrityFinishSweep(config, s, tid);
    case Tombstone => IntegrityTombstone(s, tid);
    case DeletePruned(key) => IntegrityDeletePruned(config, s, tid, key);
    case FinishPrune => IntegrityFinishPrune(config, s, tid);
    case ClaimRow(_) => IntegrityTransaction(config, s, step);
    case CommitResult => IntegrityCommitResult(config, s, tid);
    case _ => IntegrityQuiet(config, s, step);
  }

  // ---------------------------------------------------------------- claims, verdicts, callbacks, leases, erasure

  /** Steps that leave the row alone. */
  lemma WorkQuiet(config: Config, s: State, step: Step)
    requires WorkAll(config, s) && Enabled(config, s, step)
    requires step.event.BeginUpload? || step.event.BeginStart? || step.event.BeginFrame? || step.event.Load?
    ensures WorkAll(config, Apply(config, s, step))
  {
    hide WorkAll, Screen, NotPending, UploadRefused, Fresh, QuietRow;
    QuietTransactions0(s.row);
    QuietStep(config, s, Apply(config, s, step), step.tid);
  }

  lemma WorkDelete(config: Config, s: State, step: Step)
    requires WorkAll(config, s) && Enabled(config, s, step)
    requires step.event.Clean? || step.event.DeleteSwept? || step.event.DeletePruned? || step.event.Crash?
    ensures WorkAll(config, Apply(config, s, step))
  {
    hide WorkAll, QuietRow;
    QuietTransactions0(s.row);
    QuietStep(config, s, Apply(config, s, step), step.tid);
  }

  lemma QuietTransactions0(row: Row)
    ensures QuietRow(row, row)
  {
  }

  lemma WorkPutUpload(config: Config, s: State, step: Step)
    requires WorkAll(config, s) && Enabled(config, s, step) && step.event.PutUpload? && s.h.fate.Keys == s.h.put.Keys
    ensures WorkAll(config, Apply(config, s, step))
  {
    hide WorkAll, QuietRow;
    QuietTransactions0(s.row);
    QuietStep(config, s, Apply(config, s, step), step.tid);
  }

  lemma WorkAnalyzeFrame(config: Config, s: State, step: Step)
    requires WorkAll(config, s) && Enabled(config, s, step) && step.event.AnalyzeFrame? && s.h.fate.Keys == s.h.put.Keys
    ensures WorkAll(config, Apply(config, s, step))
  {
    hide WorkAll, NewKey, QuietRow;
    QuietTransactions0(s.row);
    QuietStep(config, s, Apply(config, s, step), step.tid);
  }

  lemma WorkCommitUpload(config: Config, s: State, tid: Tid, at: Time)
    requires WorkAll(config, s) && tid in s.tasks && s.tasks[tid].Uploaded? && s.now < at
    ensures WorkAll(config, DoCommitUpload(s, tid).(now := at))
  {
    hide Active, QuietRow, UploadTx, WorkInv, LeaseInv, OutboxInv, DecisionRow;
    QuietTransactions(s.row, s.tasks[tid].kind, s.tasks[tid].key, Fresh(0, 0), 0, at, NoLive);
    hide WorkAll;
    QuietStep(config, s, DoCommitUpload(s, tid).(now := at), tid);
  }

  lemma WorkCommitStart(config: Config, s: State, tid: Tid, at: Time)
    requires WorkAll(config, s) && tid in s.tasks && s.tasks[tid].Starting? && s.now < at
    ensures WorkAll(config, DoCommitStart(s, tid, at).(now := at))
  {
    hide Active, QuietRow, StartTx, WorkInv, LeaseInv, OutboxInv, DecisionRow;
    QuietTransactions(s.row, Front, 0, s.tasks[tid].challenge, 0, at, NoLive);
    hide WorkAll;
    QuietStep(config, s, DoCommitStart(s, tid, at).(now := at), tid);
  }

  lemma WorkCommitFrame(config: Config, s: State, tid: Tid, at: Time)
    requires WorkAll(config, s) && tid in s.tasks && s.tasks[tid].Committing? && s.now < at
    ensures WorkAll(config, DoCommitFrame(config, s, tid, at).(now := at))
  {
    hide Active, QuietRow, FrameTx, WorkInv, LeaseInv, OutboxInv, DecisionRow, Advance, NewKey;
    var Committing(base, f) := s.tasks[tid];
    QuietTransactions(s.row, Front, 0, Advance(config.live, base, f), f.token, at, NoLive);
    hide WorkAll;
    QuietStep(config, s, DoCommitFrame(config, s, tid, at).(now := at), tid);
  }

  lemma WorkSweep(config: Config, s: State, tid: Tid, at: Time)
    requires WorkAll(config, s) && s.now < at
    ensures tid !in s.tasks ==> WorkAll(config, DoMarkSweep(s, tid, at).(now := at))
    ensures tid in s.tasks && s.tasks[tid].Swept? && SweepOk(s, s.tasks[tid].state) ==>
            WorkAll(config, DoFinishSweep(s, tid).(now := at))
  {
    hide Active, QuietRow, SweepMarkTx, SweepFinishTx, WorkInv, LeaseInv, OutboxInv, DecisionRow, Refs;
    if tid in s.tasks && s.tasks[tid].Swept? && SweepOk(s, s.tasks[tid].state) {
      QuietTransactions(s.row, Front, 0, Fresh(0, 0), 0, at, s.tasks[tid].state);
      QuietStep(config, s, DoFinishSweep(s, tid).(now := at), tid);
    } else if tid !in s.tasks {
      QuietTransactions(s.row, Front, 0, Fresh(0, 0), 0, at, NoLive);
      QuietStep(config, s, DoMarkSweep(s, tid, at).(now := at), tid);
    }
  }

  lemma WorkSubmit(config: Config, s: State, step: Step)
    requires WorkAll(config, s) && Enabled(config, s, step)
    requires step.event.Submit? || step.event.Erase? || step.event.SelectDue?
    ensures WorkAll(config, Apply(config, s, step))
  {
    hide WorkAll, SubmitTx, EraseTx, QuietRow;
    var Step(tid, at, event) := step;
    var s' := Apply(config, s, step);
    QuietTransactions0(s.row);
    if event.SelectDue? && Due(s.row, at) {
      WorkSelectDue(config, s, tid, at);
    } else if s'.row == s.row {
      QuietStep(config, s, s', tid);
    } else {
      WorkSubmitOrErase(config, s, tid, at, s'.row);
    }
  }

  /** A worker's verdict rests on the facts of the row it claimed. */
  lemma ProcessingIsProven(config: Config, s: State)
    requires LiveRow(config, s) && s.row.status == Processing && s.row.profile == OpticalV1
    ensures CaptureProven(config, s.h, ClaimOf(s.row))
  {
    hide Replay, Chain, Fresh;
    assert Selfie in RequiredKinds(s.row.document);
  }

  lemma ClaimIsLive(config: Config, s: State, clock: Time)
    requires LiveRow(config, s)
    ensures ClaimTx(s.row, clock).Some? ==> LiveWhenClaimed(ClaimOf(ClaimTx(s.row, clock).value))
  {
    hide Replay, Chain, Fresh;
    assert Selfie in RequiredKinds(s.row.document);
  }

  lemma WorkClaimProven(config: Config, s: State, tid: Tid, at: Time, clock: Time)
    requires WorkAll(config, s) && LiveRow(config, s) && tid !in s.tasks && s.now < at && clock <= at
    ensures WorkAll(config, DoClaim(s, tid, clock).(now := at))
  {
    ClaimIsLive(config, s, clock);
    hide LiveRow, WorkAll, LiveWhenClaimed, DoClaim;
    WorkClaim(config, s, tid, at, clock);
  }

  lemma WorkCommitProven(config: Config, s: State, tid: Tid, at: Time)
    requires WorkAll(config, s) && Custody(config, s) && LiveRow(config, s) && Integrity(s)
    requires tid in s.tasks && s.tasks[tid].Judged? && s.now < at
    ensures WorkAll(config, DoCommitResult(config, s, tid).(now := at))
  {
    assert TaskCustody(config, s, tid, s.tasks[tid]);
    assert Active(s.row) ==> !s.row.evidenceDeleted;
    hide LiveRow, WorkAll, CaptureProven, ImagesOf, DoCommitResult, Refs, Kept, RowCustody;
    if s.row.status == Processing && s.row.profile == OpticalV1 {
      ProcessingIsProven(config, s);
    }
    WorkCommitResult(config, s, tid, at);
  }

  lemma WorkInductive(config: Config, s: State, step: Step)
    requires Inv(config, s) && Enabled(config, s, step)
    ensures WorkAll(config, Apply(config, s, step))
  {
    hide Kept, RowCustody, TaskCustody, TaskWork, TaskLease;
    CustodyNeeds(config, s, step);
    LedgerKeys(config, s);
    hide Custody, LiveRow, SelfieContent, Integrity, SweepOk, DecisionRow, WorkInv, OutboxInv, LeaseInv, Erased;
    hide TaskLive;
    hide DoBeginUpload, DoPutUpload, DoCommitUpload, DoClean, DoBeginStart, DoCommitStart, DoBeginFrame, DoAnalyzeFrame;
    hide DoCommitFrame, DoSubmit, DoMarkSweep, DoDeleteSwept, DoFinishSweep, DoTombstone, DoDeletePruned, DoFinishPrune;
    hide DoClaim, DoLoad, DoConsult, DoJudge, DoCommitResult, DoCrash;
    var Step(tid, at, event) := step;
    match event
    case PutUpload(_, _) => WorkPutUpload(config, s, step);
    case CommitUpload => WorkCommitUpload(config, s, tid, at);
    case CommitStart => WorkCommitStart(config, s, tid, at);
    case AnalyzeFrame(_, _, _, _, _) => WorkAnalyzeFrame(config, s, step);
    case CommitFrame => WorkCommitFrame(config, s, tid, at);
    case Submit => WorkSubmit(config, s, step);
    case Erase => WorkSubmit(config, s, step);
    case MarkSweep => WorkSweep(config, s, tid, at);
    case FinishSweep => WorkSweep(config, s, tid, at);
    case SelectDue => WorkSubmit(config, s, step);
    case Clean(_) => WorkDelete(config, s, step);
    case DeleteSwept => WorkDelete(config, s, step);
    case DeletePruned(_) => WorkDelete(config, s, step);
    case Crash => WorkDelete(config, s, step);
    case BeginUpload(_) => WorkQuiet(config, s, step);
    case BeginStart(_, _) => WorkQuiet(config, s, step);
    case BeginFrame(_, _, _) => WorkQuiet(config, s, step);
    case Load(_) => WorkQuiet(config, s, step);
    case Tombstone => WorkTombstone(config, s, tid, at);
    case FinishPrune => WorkFinishPrune(config, s, tid, at);
    case ClaimRow(clock) => WorkClaimProven(config, s, tid, at, clock);
    case Consult => WorkConsult(config, s, tid, at);
    case Judge(report, today) => WorkJudge(config, s, tid, at, report, today);
    case CommitResult => WorkCommitProven(config, s, tid, at);
  }

  // ---------------------------------------------------------------- what the reference selfie shows

  lemma ReferenceExtends(config: LiveConfig, c: Challenge, run: seq<Frame>, f: Frame, key: Key, content: Digest)
    requires ReferenceSelfie(config, c, run, key, content)
    ensures ReferenceSelfie(config, c, run + [f], key, content)
  {
    var i: nat :| FirstCentredMatch(config, c, run, i) && run[i].nextKey == key && run[i].digest == content;
    assert forall k :: 0 <= k <= i ==> (run + [f])[..k] == run[..k];
    assert FirstCentredMatch(config, c, run + [f], i);
  }

  lemma SelfieContentCommit(config: Config, s: State, tid: Tid, at: Time)
    requires Custody(config, s) && LiveInv(config, s) && SelfieContent(config, s.h)
    requires tid in s.tasks && s.tasks[tid].Committing? && FrameCommits(config, s, tid, at) && s.now < at
    ensures SelfieContent(config, DoCommitFrame(config, s, tid, at).h)
  {
    assert TaskLive(s, tid, s.tasks[tid]) && TaskCustody(config, s, tid, s.tasks[tid]);
    FrameCommitsOnCurrent(config, s, tid, at);
    var Committing(base, f) := s.tasks[tid];
    var (token, began) := s.h.started.value;
    var c, run := StartOf(s.h), s.h.run;
    var h := DoCommitFrame(config, s, tid, at).h;
    assert h.run == run + [f] && h.put == s.h.put && h.started == s.h.started;
    ChainSnoc(config.live, c, run, f);
    hide Custody, LiveInv, RowCustody, Kept, Screen;
    if base.selfieKey.Some? {
      ReferenceExtends(config.live, c, run, f, base.selfieKey.value, s.h.put[base.selfieKey.value]);
    } else if NewKey(config.live, base, f).Some? {
      var i := SelfieIsFirstMatch(config.live, token, began, run + [f]);
      NewReference(config, token, began, run, f, i);
    }
  }

  /** When the last frame stored the reference, it is the first match. */
  lemma NewReference(config: Config, token: Token, at: Time, run: seq<Frame>, f: Frame, i: nat)
    requires Chain(config.live, Fresh(token, at), run)
    requires Replay(config.live, Fresh(token, at), run).selfieKey.None?
    requires FirstCentredMatch(config.live, Fresh(token, at), run + [f], i)
    ensures i == |run| && ReferenceSelfie(config.live, Fresh(token, at), run + [f], f.nextKey, f.digest)
  {
    if i < |run| {
      assert (run + [f])[..i] == run[..i];
      NothingMatchedYet(config.live, token, at, run, i);
    }
  }

  lemma LedgerKeys(config: Config, s: State)
    requires Custody(config, s)
    ensures s.h.fate.Keys == s.h.put.Keys
  {
  }

  /** Neither the record of committed frames nor that of puts changes. */
  ghost predicate SameRun(h: History, h': History) {
    h'.started == h.started && h'.run == h.run && h'.put == h.put
  }

  lemma TransactionsKeepRun(config: Config, s: State, tid: Tid, at: Time, clock: Time)
    ensures tid in s.tasks && s.tasks[tid].Uploaded? ==> SameRun(s.h, DoCommitUpload(s, tid).h)
    ensures SameRun(s.h, DoSubmit(s, at).h) && SameRun(s.h, DoMarkSweep(s, tid, at).h)
    ensures tid in s.tasks && s.tasks[tid].Swept? ==> SameRun(s.h, DoFinishSweep(s, tid).h)
    ensures SameRun(s.h, DoTombstone(s, tid).h) && SameRun(s.h, DoFinishPrune(s, tid).h)
            && SameRun(s.h, DoClaim(s, tid, clock).h)
    ensures tid in s.tasks && s.tasks[tid].Judged? ==> SameRun(s.h, DoCommitResult(config, s, tid).h)
  {
    hide Refs, UploadTx, SubmitTx, SweepMarkTx, SweepFinishTx, ClaimTx, ResultTx, OutcomeOf;
  }

  /** Only `start` and `frame` touch the record of committed frames. */
  lemma RunStays(config: Config, s: State, step: Step)
    requires Enabled(config, s, step)
    requires !step.event.CommitStart? && !step.event.CommitFrame? && !step.event.PutUpload? && !step.event.AnalyzeFrame?
    ensures SameRun(s.h, Apply(config, s, step).h)
  {
    hide Screen, NotPending, Fresh, EraseTx, Due, UploadRefused;
    hide DoCommitUpload, DoSubmit, DoMarkSweep, DoFinishSweep, DoTombstone, DoFinishPrune, DoClaim, DoCommitResult;
    TransactionsKeepRun(config, s, step.tid, step.at, if step.event.ClaimRow? then step.event.clock else 0);
  }

  /** Puts take fresh keys. */
  lemma RunStaysOnPut(config: Config, s: State, step: Step)
    requires s.h.fate.Keys == s.h.put.Keys && Enabled(config, s, step)
             && (step.event.PutUpload? || step.event.AnalyzeFrame?)
    ensures var h := Apply(config, s, step).h;
            h.started == s.h.started && h.run == s.h.run && forall k :: k in s.h.put ==>
                k in h.put && h.put[k] == s.h.put[k]
  {
    hide NewKey;
  }

  lemma SelfieContentStays(config: Config, h: History, h': History)
    requires SelfieContent(config, h) && h'.started == h.started && h'.run == h.run
    requires forall k :: k in h.put ==> k in h'.put && h'.put[k] == h.put[k]
    ensures SelfieContent(config, h')
  {
    hide Replay, Fresh, ReferenceSelfie;
  }

  lemma SelfieContentInductive(config: Config, s: State, step: Step)
    requires Custody(config, s) && LiveInv(config, s) && SelfieContent(config, s.h) && Enabled(config, s, step)
    ensures SelfieContent(config, Apply(config, s, step).h)
  {
    hide Custody, LiveInv, SelfieContent;
    if step.event.CommitFrame? {
      FrameContent(config, s, step.tid, step.at);
    } else if step.event.CommitStart? {
      StartContent(config, s, step.tid, step.at);
    } else {
      LedgerKeys(config, s);
      if step.event.PutUpload? || step.event.AnalyzeFrame? {
        RunStaysOnPut(config, s, step);
      } else {
        RunStays(config, s, step);
      }
      SelfieContentStays(config, s.h, Apply(config, s, step).h);
    }
  }

  lemma FrameContent(config: Config, s: State, tid: Tid, at: Time)
    requires Custody(config, s) && LiveInv(config, s) && SelfieContent(config, s.h)
    requires tid in s.tasks && s.tasks[tid].Committing? && s.now < at
    ensures SelfieContent(config, DoCommitFrame(config, s, tid, at).h)
  {
    hide Custody, LiveInv, SelfieContent, FrameTx, Advance, NewKey;
    if FrameCommits(config, s, tid, at) {
      SelfieContentCommit(config, s, tid, at);
    } else {
      SelfieContentStays(config, s.h, DoCommitFrame(config, s, tid, at).h);
    }
  }

  lemma StartContent(config: Config, s: State, tid: Tid, at: Time)
    requires LiveInv(config, s) && SelfieContent(config, s.h) && tid in s.tasks && s.tasks[tid].Starting?
    ensures SelfieContent(config, DoCommitStart(s, tid, at).h)
  {
    assert TaskLive(s, tid, s.tasks[tid]);
  }

  // ---------------------------------------------------------------- all of it

  lemma Inductive(config: Config, s: State, step: Step)
    requires Inv(config, s) && Enabled(config, s, step)
    ensures Inv(config, Apply(config, s, step))
  {
    assert s.row.status !in {NotStarted, InProgress};
    hide Custody, LiveInv, SelfieContent, Integrity, DecisionRow, WorkInv, OutboxInv, LeaseInv, Erased, Enabled, Apply;
    CustodyInductive(config, s, step);
    LiveInductive(config, s, step);
    SelfieContentInductive(config, s, step);
    IntegrityInductive(config, s, step);
    WorkInductive(config, s, step);
  }

  lemma {:induction false} InvAlongRun(config: Config, s: State, steps: seq<Step>)
    requires Inv(config, s) && Legal(config, s, steps)
    ensures Inv(config, Run(config, s, steps))
    decreases |steps|
  {
    hide Inv, Enabled, Apply;
    if steps != [] {
      Inductive(config, s, steps[0]);
      InvAlongRun(config, Apply(config, s, steps[0]), steps[1..]);
    }
  }

  lemma ReachableInv(config: Config, s: State)
    requires Reachable(config, s)
    ensures Inv(config, s)
  {
    hide Inv, Enabled, Apply, Init;
    var s0, steps :| Init(s0) && Legal(config, s0, steps) && Run(config, s0, steps) == s;
    InitInv(config, s0);
    InvAlongRun(config, s0, steps);
  }
}
