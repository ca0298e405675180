/** Every step keeps the invariants about claims, verdicts, callbacks, leases and erasure. */
module WorkProof {
  import opened Wrappers
  import opened KycTypes
  import opened LiveChallenge
  import opened Decision
  import opened VerificationRow
  import opened KycProtocol
  import opened KycInvariant

  ghost predicate OthersSame(s: State, s': State, tid: Tid) {
    && (forall t :: t != tid ==> (t in s.tasks <==> t in s'.tasks))
    && (forall t :: t != tid && t in s.tasks ==> s'.tasks[t] == s.tasks[t])
  }

  // ---------------------------------------------------------------- claims

  lemma WorkStep(s: State, s': State, tid: Tid)
    requires WorkInv(s) && OthersSame(s, s', tid)
    requires s.row.version <= s'.row.version && s.row.attempts <= s'.row.attempts
    requires s.row.version == s'.row.version && s'.row.status == Processing ==>
               s.row.status == Processing && ClaimOf(s'.row) == ClaimOf(s.row)
    requires s.row.deleteAfter <= s.now ==> s'.row.deleteAfter <= s'.now
    requires tid in s'.tasks ==> TaskWork(s', s'.tasks[tid])
    ensures WorkInv(s')
  {
    hide ClaimOf;
    forall t | t in s'.tasks ensures TaskWork(s', s'.tasks[t]) {
      if t != tid {
        assert TaskWork(s, s.tasks[t]);
      }
    }
  }

  // ---------------------------------------------------------------- the verdict

  /** The verdict stays; only the status may move on. */
  lemma DecisionStep(config: Config, row: Row, h: History, row': Row, h': History)
    requires DecisionRow(config, row, h)
    requires h'.decision == h.decision && row'.result == row.result
    requires row'.profile == row.profile && row'.document == row.document && row.version <= row'.version
    requires row'.status == row.status || row'.status in {Expired, Cancelled}
             || (row'.status in {Submitted, Processing} && Active(row))
    requires forall k :: k in h.put ==> k in h'.put && h'.put[k] == h.put[k]
    requires Active(row) || (h'.started == h.started && h'.run == h.run)
    ensures DecisionRow(config, row', h')
  {
    hide OutcomeOf, Replay, Fresh;
  }

  // ---------------------------------------------------------------- leases

  lemma LeaseStep(s: State, s': State, tid: Tid)
    requires LeaseInv(s) && OthersSame(s, s', tid)
    requires LeaseRow(s'.row, s'.h) && s'.h.consulted == s.h.consulted && s.row.attempts <= s'.row.attempts
    requires s.now <= s'.now
             && (s'.h.claims != [] && s'.h.claims != s.h.claims ==> s'.h.claims[|s'.h.claims| - 1] <= s'.now)
    requires tid in s'.tasks && AttemptOf(s'.tasks[tid]).Some? ==>
               && 1 <= AttemptOf(s'.tasks[tid]).value <= s'.row.attempts
               && (s'.tasks[tid].Working? && !s'.tasks[tid].asked ==> s'.tasks[tid].claim.attempts !in s.h.consulted)
               && forall t :: t in s.tasks && t != tid ==> AttemptOf(s.tasks[t]) != AttemptOf(s'.tasks[tid])
    ensures LeaseInv(s')
  {
    forall t | t in s'.tasks ensures TaskLease(s', t, s'.tasks[t]) {
      if t != tid {
        assert TaskLease(s, t, s.tasks[t]);
      }
    }
  }

  /** A claim's lease clock is later than the lease before it. */
  lemma LeaseClaim(row: Row, h: History, clock: Time)
    requires LeaseRow(row, h) && ClaimTx(row, clock).Some?
    ensures LeaseRow(ClaimTx(row, clock).value, h.(claims := h.claims + [clock]))
  {
  }

  /** Asking the providers for an attempt nobody asked them for. */
  lemma LeaseConsult(s: State, s': State, tid: Tid)
    requires LeaseInv(s) && OthersSame(s, s', tid) && s'.row == s.row && s'.h.claims == s.h.claims && s.now <= s'.now
    requires tid in s.tasks && s.tasks[tid].Working? && !s.tasks[tid].asked
             && s.tasks[tid].claim.attempts <= MAX_ATTEMPTS
    requires tid in s'.tasks && s'.tasks[tid] == s.tasks[tid].(asked := true)
    requires s'.h.consulted == s.h.consulted + [s.tasks[tid].claim.attempts]
    ensures LeaseInv(s')
  {
    assert TaskLease(s, tid, s.tasks[tid]);
    forall t | t in s'.tasks ensures TaskLease(s', t, s'.tasks[t]) {
      if t != tid {
        assert TaskLease(s, t, s.tasks[t]);
      }
    }
  }

  // ---------------------------------------------------------------- erasure

  lemma ErasedStep(s: State, s': State, tid: Tid)
    requires Erased(s) && OthersSame(s, s', tid)
    requires !Active(s.row) ==> !Active(s'.row)
    requires s.row.personal.None? ==> s'.row.personal.None?
    requires s'.row.extracted == s.row.extracted || s'.row.extracted.None? || Active(s.row)
    requires s'.row.evidenceDeleted == s.row.evidenceDeleted
    requires s.row.evidenceDeleted ==> s'.row.evidence == map[] && s'.row.live == NoLive
    requires tid in s'.tasks && s'.tasks[tid].Pruning? ==>
             !Active(s'.row) && s'.row.personal.None? && s'.row.extracted.None?
    ensures Erased(s')
  {
    assert forall t :: t in s'.tasks && s'.tasks[t].Pruning? && t != tid ==> t in s.tasks && s.tasks[t].Pruning?;
  }

  // ---------------------------------------------------------------- whole steps

  ghost predicate WorkAll(config: Config, s: State) {
    && DecisionRow(config, s.row, s.h)
    && WorkInv(s)
    && OutboxInv(config, s)
    && LeaseInv(s)
    && Erased(s)
  }

  /** A transaction of upload, capture or sweep keeps out of the worker's way. */
  ghost predicate QuietRow(row: Row, row': Row) {
    && row' == row.(version := row'.version, evidence := row'.evidence, live := row'.live,
        liveExpiresAt := row'.liveExpiresAt)
    && row.version <= row'.version
    && (row.version == row'.version && row.status == Processing ==>
        row'.evidence == row.evidence && row'.live == row.live)
    && (row.evidenceDeleted ==> row'.evidence == row.evidence && row'.live == row.live)
  }

  lemma QuietTransactions(row: Row, kind: Kind, key: Key, c: Challenge, token: Token, at: Time, state: Live)
    requires row.evidenceDeleted ==> !Active(row) && row.live == NoLive
    ensures QuietRow(row, row)
    ensures UploadTx(row, kind, key).Ok? ==> Active(row) && QuietRow(row, UploadTx(row, kind, key).value.0)
    ensures StartTx(row, c, at).Ok? ==> Active(row) && QuietRow(row, StartTx(row, c, at).value.0)
    ensures FrameTx(row, token, c, at).Ok? ==> Active(row) && QuietRow(row, FrameTx(row, token, c, at).value)
    ensures SweepMarkTx(row, at).Some? ==> QuietRow(row, SweepMarkTx(row, at).value)
    ensures state.Running? && SweepFinishTx(row, state).Some? ==> QuietRow(row, SweepFinishTx(row, state).value)
  {
  }

  ghost predicate QuietTask(s: State, s': State, tid: Tid) {
    && (tid in s'.tasks && s'.tasks[tid].Working? ==>
          tid in s.tasks && s.tasks[tid].Working? && s'.tasks[tid] == s.tasks[tid].(images := s'.tasks[tid].images))
    && (tid in s'.tasks && s'.tasks[tid].Pruning? ==> tid in s.tasks && s.tasks[tid].Pruning?)
    && (tid in s'.tasks ==> !s'.tasks[tid].Judged? && !s'.tasks[tid].Selected?)
  }

  ghost predicate QuietHistory(s: State, s': State) {
    && s'.outbox == s.outbox && s'.h.decision == s.h.decision && s'.h.claims == s.h.claims
        && s'.h.consulted == s.h.consulted
    && (Active(s.row) || (s'.h.started == s.h.started && s'.h.run == s.h.run))
    && (forall k :: k in s.h.put ==> k in s'.h.put && s'.h.put[k] == s.h.put[k])
  }

  lemma QuietStep(config: Config, s: State, s': State, tid: Tid)
    requires WorkAll(config, s) && OthersSame(s, s', tid) && s.now <= s'.now
    requires QuietRow(s.row, s'.row) && QuietTask(s, s', tid) && QuietHistory(s, s')
    ensures WorkAll(config, s')
  {
    hide OutcomeOf, ResultCallbacks, CaptureProven, ImagesOf, CallbackOf;
    DecisionStep(config, s.row, s.h, s'.row, s'.h);
    WorkStep(s, s', tid);
    LeaseStep(s, s', tid);
    ErasedStep(s, s', tid);
  }

  // ---------------------------------------------------------------- the loud steps

  lemma WorkSubmitOrErase(config: Config, s: State, tid: Tid, at: Time, row: Row)
    requires WorkAll(config, s) && tid !in s.tasks && s.now < at
    requires SubmitTx(s.row, at) == Ok(row) || row == EraseTx(s.row, at)
    ensures WorkAll(config, s.(row := row, now := at))
  {
    hide OutcomeOf, ResultCallbacks, CaptureProven, ImagesOf, CallbackOf;
    var s' := s.(row := row, now := at);
    DecisionStep(config, s.row, s.h, s'.row, s'.h);
    WorkStep(s, s', tid);
    LeaseStep(s, s', tid);
    ErasedStep(s, s', tid);
  }

  lemma WorkSelectDue(config: Config, s: State, tid: Tid, at: Time)
    requires WorkAll(config, s) && tid !in s.tasks && s.now < at && Due(s.row, at)
    ensures WorkAll(config, Become(s, tid, Selected).(now := at))
  {
    hide OutcomeOf, ResultCallbacks, CaptureProven, ImagesOf, CallbackOf;
    var s' := Become(s, tid, Selected).(now := at);
    DecisionStep(config, s.row, s.h, s'.row, s'.h);
    WorkStep(s, s', tid);
    LeaseStep(s, s', tid);
    ErasedStep(s, s', tid);
  }

  lemma WorkTombstone(config: Config, s: State, tid: Tid, at: Time)
    requires WorkAll(config, s) && tid in s.tasks && s.tasks[tid].Selected? && s.now < at
    ensures WorkAll(config, DoTombstone(s, tid).(now := at))
  {
    hide OutcomeOf, ResultCallbacks, CaptureProven, ImagesOf, CallbackOf, Refs;
    var s' := DoTombstone(s, tid).(now := at);
    DecisionStep(config, s.row, s.h, s'.row, s'.h);
    WorkStep(s, s', tid);
    LeaseStep(s, s', tid);
    ErasedStep(s, s', tid);
  }

  lemma CallbackAppended(outbox: seq<Callback>, c: Callback)
    ensures ResultCallbacks(outbox + [c]) == ResultCallbacks(outbox) + (if AnnouncesResult(c) then [c] else [])
  {
    assert (outbox + [c])[..|outbox|] == outbox;
  }

  lemma WorkFinishPrune(config: Config, s: State, tid: Tid, at: Time)
    requires WorkAll(config, s) && tid in s.tasks && s.tasks[tid].Pruning? && s.now < at
    ensures WorkAll(config, DoFinishPrune(s, tid).(now := at))
  {
    CallbackAppended(s.outbox, CallbackFor(EraseEvidenceTx(s.row)));
    hide OutcomeOf, ResultCallbacks, CaptureProven, ImagesOf, CallbackOf;
    var s' := DoFinishPrune(s, tid).(now := at);
    DecisionStep(config, s.row, s.h, s'.row, s'.h);
    WorkStep(s, s', tid);
    LeaseStep(s, s', tid);
  }

  lemma WorkClaim(config: Config, s: State, tid: Tid, at: Time, clock: Time)
    requires WorkAll(config, s) && tid !in s.tasks && s.now < at && clock <= at
    requires ClaimTx(s.row, clock).Some? ==> LiveWhenClaimed(ClaimOf(ClaimTx(s.row, clock).value))
    ensures WorkAll(config, DoClaim(s, tid, clock).(now := at))
  {
    hide OutcomeOf, ResultCallbacks, CaptureProven, ImagesOf, CallbackOf, LiveWhenClaimed;
    var s' := DoClaim(s, tid, clock).(now := at);
    if ClaimTx(s.row, clock).Some? {
      LeaseClaim(s.row, s.h, clock);
      DecisionStep(config, s.row, s.h, s'.row, s'.h);
      WorkStep(s, s', tid);
      ErasedStep(s, s', tid);
      assert forall t :: t in s.tasks ==> TaskWork(s, s.tasks[t]);
      LeaseStep(s, s', tid);
    } else {
      LeaseStep(s, s', tid);
      WorkStep(s, s', tid);
    }
  }

  lemma WorkJudge(config: Config, s: State, tid: Tid, at: Time, report: Report, today: Optical.Date)
    requires WorkAll(config, s) && tid in s.tasks && s.tasks[tid].Working? && s.now < at
    ensures WorkAll(config, DoJudge(s, tid, report, today).(now := at))
  {
    hide OutcomeOf, ResultCallbacks, CaptureProven, ImagesOf, CallbackOf;
    var s' := DoJudge(s, tid, report, today).(now := at);
    assert TaskWork(s, s.tasks[tid]);
    DecisionStep(config, s.row, s.h, s'.row, s'.h);
    WorkStep(s, s', tid);
    ErasedStep(s, s', tid);
    LeaseStep(s, s', tid);
  }

  lemma WorkConsult(config: Config, s: State, tid: Tid, at: Time)
    requires WorkAll(config, s) && tid in s.tasks && s.tasks[tid].Working? && !s.tasks[tid].asked && s.now < at
    requires s.tasks[tid].claim.attempts <= MAX_ATTEMPTS
    ensures WorkAll(config, DoConsult(s, tid).(now := at))
  {
    hide OutcomeOf, ResultCallbacks, CaptureProven, ImagesOf, CallbackOf;
    var s' := DoConsult(s, tid).(now := at);
    assert TaskWork(s, s.tasks[tid]);
    DecisionStep(config, s.row, s.h, s'.row, s'.h);
    WorkStep(s, s', tid);
    ErasedStep(s, s', tid);
    LeaseConsult(s, s', tid);
  }

  /** The claim a verdict commits on is the row, so the verdict stands on the row's facts. */
  lemma VerdictRow(config: Config, row: Row, h: History, j: Judgement)
    requires DecisionRow(config, row, h)
    requires ResultTx(row, j.claim.version, OutcomeOf(config, j)).Some? && j.claim == ClaimOf(row)
    requires ImagesOf(h, j.claim, j.images)
    requires row.profile == OpticalV1 ==> CaptureProven(config, h, ClaimOf(row))
    ensures DecisionRow(config, ResultTx(row, j.claim.version, OutcomeOf(config, j)).value, h.(decision := Some(j)))
  {
    hide Evaluate, Replay, Fresh;
  }

  lemma VerdictCallback(config: Config, s: State, j: Judgement)
    requires DecisionRow(config, s.row, s.h) && OutboxInv(config, s) && !s.row.evidenceDeleted
    requires ResultTx(s.row, j.claim.version, OutcomeOf(config, j)).Some?
    ensures var row := ResultTx(s.row, j.claim.version, OutcomeOf(config, j)).value;
            ResultCallbacks(s.outbox + [CallbackFor(row)]) == [CallbackOf(config, j)]
  {
    hide Evaluate;
    var row := ResultTx(s.row, j.claim.version, OutcomeOf(config, j)).value;
    CallbackAppended(s.outbox, CallbackFor(row));
  }

  /** A verdict is committed on the row the worker claimed. */
  lemma WorkCommitResult(config: Config, s: State, tid: Tid, at: Time)
    requires WorkAll(config, s) && tid in s.tasks && s.tasks[tid].Judged? && s.now < at
    requires Active(s.row) ==> !s.row.evidenceDeleted
    requires ImagesOf(s.h, s.tasks[tid].verdict.claim, s.tasks[tid].verdict.images)
    requires s.row.status == Processing && s.row.profile == OpticalV1 ==> CaptureProven(config, s.h, ClaimOf(s.row))
    ensures WorkAll(config, DoCommitResult(config, s, tid).(now := at))
  {
    hide OutcomeOf, ImagesOf, CaptureProven, ResultCallbacks, CallbackOf, DecisionRow;
    var s' := DoCommitResult(config, s, tid).(now := at);
    var j := s.tasks[tid].verdict;
    assert TaskWork(s, s.tasks[tid]);
    if ResultTx(s.row, j.claim.version, OutcomeOf(config, j)).Some? {
      VerdictRow(config, s.row, s.h, j);
      VerdictCallback(config, s, j);
      OutcomeIsFinal(config, j);
      WorkStep(s, s', tid);
      LeaseStep(s, s', tid);
      ErasedStep(s, s', tid);
    } else {
      QuietStep(config, s, s', tid);
    }
  }

  lemma OutcomeIsFinal(config: Config, j: Judgement)
    ensures OutcomeOf(config, j).status in {Approved, Rejected, NeedsReview, ActionRequired}
  {
  }
}
