/** Every step keeps `Integrity`: as long as evidence is going to be read, it is in the store. */
module IntegrityProof {
  import opened KycTypes
  import opened LiveChallenge
  import opened Decision
  import opened VerificationRow
  import opened KycProtocol
  import opened KycInvariant
  import opened CustodyProof
  import opened LiveProof

  /** No reference of an active row appears without its blob, and no blob goes that one needs. */
  lemma IntegrityStep(s: State, s': State)
    requires Integrity(s)
    requires Active(s'.row) ==> Active(s.row) && s'.row.evidenceDeleted == s.row.evidenceDeleted
    requires forall k :: Active(s'.row) && k in Refs(s'.row) ==>
               k in s'.blobs || UnderErasure(s'.row, k)
                   || (k in Refs(s.row) && !UnderErasure(s.row, k) && (k in s.blobs ==> k in s'.blobs))
    ensures Integrity(s')
  {
  }

  lemma IntegrityCommitUpload(config: Config, s: State, tid: Tid)
    requires Custody(config, s) && Integrity(s) && tid in s.tasks && s.tasks[tid].Uploaded?
    requires s.tasks[tid].kind == Selfie ==> s.row.live.NoLive?
    ensures Integrity(DoCommitUpload(s, tid))
  {
    var s' := DoCommitUpload(s, tid);
    assert TaskCustody(config, s, tid, s.tasks[tid]);
    if UploadTx(s.row, s.tasks[tid].kind, s.tasks[tid].key).Ok? {
      UploadRefs(s.row, s.h, s.tasks[tid].kind, s.tasks[tid].key);
    }
    hide Refs, Kept, RowCustody;
    IntegrityStep(s, s');
  }

  lemma IntegrityClean(config: Config, s: State, tid: Tid, key: Key)
    requires Custody(config, s) && Integrity(s) && tid in s.tasks && s.tasks[tid].Cleaning? && key in s.tasks[tid].keys
    ensures Integrity(DoClean(s, tid, key))
  {
    assert TaskCustody(config, s, tid, s.tasks[tid]);
    assert key !in Refs(s.row);
    hide Refs, Kept, RowCustody;
    IntegrityStep(s, DoClean(s, tid, key));
  }

  lemma IntegrityCommitStart(config: Config, s: State, tid: Tid, at: Time)
    requires Custody(config, s) && Integrity(s) && tid in s.tasks && s.tasks[tid].Starting?
    requires s.tasks[tid].challenge.selfieKey.None?
    ensures Integrity(DoCommitStart(s, tid, at))
  {
    if StartTx(s.row, s.tasks[tid].challenge, at).Ok? {
      StartRefs(s.row, s.h, s.tasks[tid].challenge, at);
    }
    hide Refs, Kept, RowCustody, TaskCustody;
    IntegrityStep(s, DoCommitStart(s, tid, at));
  }

  lemma IntegrityCommitFrame(config: Config, s: State, tid: Tid, at: Time)
    requires Custody(config, s) && LiveInv(config, s) && Integrity(s) && tid in s.tasks && s.tasks[tid].Committing?
             && s.now < at
    ensures Integrity(DoCommitFrame(config, s, tid, at))
  {
    hide Replay, Chain, Fresh, NewKey, Hit, Advance;
    assert TaskCustody(config, s, tid, s.tasks[tid]) && TaskLive(s, tid, s.tasks[tid]);
    if FrameCommits(config, s, tid, at) {
      FrameCommitsOnCurrent(config, s, tid, at);
      FrameRefs(config, s, tid, at);
    }
    hide Refs, Kept, RowCustody, LiveRow;
    IntegrityStep(s, DoCommitFrame(config, s, tid, at));
  }

  lemma IntegrityMarkSweep(s: State, tid: Tid, at: Time)
    requires Integrity(s)
    ensures Integrity(DoMarkSweep(s, tid, at))
  {
    if SweepMarkTx(s.row, at).Some? {
      assert SweepMarkTx(s.row, at).value.live.SelfieKeys() == s.row.live.SelfieKeys();
      IntegrityStep(s, DoMarkSweep(s, tid, at));
    }
  }

  lemma IntegrityDeleteSwept(s: State, tid: Tid)
    requires Integrity(s) && tid in s.tasks && s.tasks[tid].Marked? && SweepOk(s, s.tasks[tid].state)
    ensures Integrity(DoDeleteSwept(s, tid))
  {
    hide Refs;
    IntegrityStep(s, DoDeleteSwept(s, tid));
  }

  lemma IntegrityFinishSweep(config: Config, s: State, tid: Tid)
    requires Custody(config, s) && Integrity(s) && tid in s.tasks && s.tasks[tid].Swept?
             && SweepOk(s, s.tasks[tid].state)
    ensures Integrity(DoFinishSweep(s, tid))
  {
    var state := s.tasks[tid].state;
    if SweepFinishTx(s.row, state).Some? {
      SweepRefs(s.row, s.h, state);
      assert forall k :: k in Refs(SweepFinishTx(s.row, state).value) ==> k !in state.SelfieKeys();
    }
    hide Refs, Kept, RowCustody, TaskCustody;
    IntegrityStep(s, DoFinishSweep(s, tid));
  }

  lemma IntegrityDeletePruned(config: Config, s: State, tid: Tid, key: Key)
    requires Custody(config, s) && Integrity(s) && tid in s.tasks && s.tasks[tid].Pruning?
             && key in s.tasks[tid].remaining
    ensures Integrity(DoDeletePruned(s, tid, key))
  {
    assert TaskCustody(config, s, tid, s.tasks[tid]);
  }

  lemma IntegrityFinishPrune(config: Config, s: State, tid: Tid)
    requires Custody(config, s) && Integrity(s) && tid in s.tasks && s.tasks[tid].Pruning?
    ensures Integrity(DoFinishPrune(s, tid))
  {
    assert TaskCustody(config, s, tid, s.tasks[tid]);
  }

  /** Steps that only put blobs, or change other parts of the row. */
  lemma IntegrityRow(s: State, s': State)
    requires Integrity(s)
    requires forall k :: k in s.blobs ==> k in s'.blobs
    requires s'.row.evidence == s.row.evidence && s'.row.live == s.row.live
    requires Active(s'.row) ==> Active(s.row) && s'.row.evidenceDeleted == s.row.evidenceDeleted
    ensures Integrity(s')
  {
  }

  lemma IntegrityTombstone(s: State, tid: Tid)
    requires Integrity(s) && s.row.status !in {NotStarted, InProgress}
    ensures Integrity(DoTombstone(s, tid))
  {
  }

  lemma IntegrityCommitResult(config: Config, s: State, tid: Tid)
    requires Integrity(s) && tid in s.tasks && s.tasks[tid].Judged?
    ensures Integrity(DoCommitResult(config, s, tid))
  {
    hide Evaluate;
  }
}
