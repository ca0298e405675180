/** Every step keeps `LiveInv`: the document in the row is what its frames lead to. */
module LiveProof {
  import opened Wrappers
  import opened KycTypes
  import opened LiveChallenge
  import opened VerificationRow
  import opened KycProtocol
  import opened KycInvariant
  import opened CustodyProof

  /** What a step of `actor` may do to the row's challenge. */
  ghost predicate LiveRespects(s: State, s': State, actor: Tid) {
    && (forall t :: t != actor ==> (t in s.tasks <==> t in s'.tasks))
    && (forall t :: t != actor && t in s.tasks ==> s'.tasks[t] == s.tasks[t])
    && s.now <= s'.now && s'.row.profile == s.row.profile
    && (forall k :: k in s.h.tokens && s.h.tokens[k] != Some(actor) ==>
        k in s'.h.tokens && s'.h.tokens[k] == s.h.tokens[k])
    && (forall k :: k in Refs(s'.row) ==> k in Refs(s.row) || !Settled(s.h, k))
    && (|| s'.row.live == s.row.live
        || (&& s.row.live.Running? && s'.row.live == MarkFailed(s.row.live)
            && (!s.row.live.challenge.complete ==> s.row.live.challenge.deadline <= s'.now))
        || (s'.row.live.Running? && !Issued(s.h, s'.row.live.challenge.token))
        || s'.row.live == NoLive)
    && (s.row.live.Running? && s.row.live.challenge.failed && s'.row.live != s.row.live ==>
          s.row.live.SelfieKeys() !! Refs(s'.row))
  }

  lemma OthersKeepBase(s: State, s': State, actor: Tid, base: Challenge, token: Token, digest: Digest, arrived: Time)
    requires LiveRespects(s, s', actor) && BaseOk(s, base, token, digest, arrived)
    ensures BaseOk(s', base, token, digest, arrived)
  {
    hide Refs;
  }

  lemma OthersKeepSweep(s: State, s': State, actor: Tid, state: Live)
    requires LiveRespects(s, s', actor) && SweepOk(s, state)
    requires forall k :: k in state.SelfieKeys() ==> Settled(s.h, k)
    ensures SweepOk(s', state)
  {
    hide Refs;
  }

  lemma OthersKeepLive(config: Config, s: State, s': State, actor: Tid, t: Tid)
    requires LiveRespects(s, s', actor) && t != actor && t in s.tasks
    requires TaskCustody(config, s, t, s.tasks[t])
    requires TaskLive(s, t, s.tasks[t])
    ensures TaskLive(s', t, s'.tasks[t])
  {
    hide BaseOk, SweepOk, Refs, NewKey;
    match s.tasks[t]
    case Analyzing(base, token, digest, arrived) => OthersKeepBase(s, s', actor, base, token, digest, arrived);
    case Committing(base, f) => OthersKeepBase(s, s', actor, base, f.token, f.digest, f.now);
    case Marked(state) => OthersKeepSweep(s, s', actor, state);
    case Swept(state) => OthersKeepSweep(s, s', actor, state);
    case _ =>
  }

  lemma LiveStep(config: Config, s: State, s': State, actor: Tid)
    requires Custody(config, s) && LiveInv(config, s) && LiveRespects(s, s', actor)
    requires LiveRow(config, s')
    requires actor in s'.tasks ==> TaskLive(s', actor, s'.tasks[actor])
    ensures LiveInv(config, s')
  {
    hide LiveRespects, LiveRow, TaskLive, TaskCustody, RowCustody, Kept;
    forall t | t in s'.tasks ensures TaskLive(s', t, s'.tasks[t]) {
      if t != actor {
        assert t in s.tasks && s'.tasks[t] == s.tasks[t] by {
          SameTasks(s, s', actor, t);
        }
        OthersKeepLive(config, s, s', actor, t);
      }
    }
  }

  lemma SameTasks(s: State, s': State, actor: Tid, t: Tid)
    requires LiveRespects(s, s', actor) && t != actor && t in s'.tasks
    ensures t in s.tasks && s'.tasks[t] == s.tasks[t]
  {
  }

  /** Steps that leave the row and the history of the challenge alone. */
  lemma LiveLocal(config: Config, s: State, tid: Tid, s': State)
    requires Custody(config, s) && LiveInv(config, s)
    requires s'.row == s.row && s'.h.started == s.h.started && s'.h.run == s.h.run && s'.h.consumed == s.h.consumed
    requires forall t :: t != tid ==> (t in s.tasks <==> t in s'.tasks) && (t in s.tasks ==> s'.tasks[t] == s.tasks[t])
    requires forall k :: k in s.h.tokens && s.h.tokens[k] != Some(tid) ==>
             k in s'.h.tokens && s'.h.tokens[k] == s.h.tokens[k]
    requires s.now <= s'.now
    requires tid in s'.tasks ==> TaskLive(s', tid, s'.tasks[tid])
    ensures LiveInv(config, s')
  {
    hide Replay, Chain, Fresh, Refs, TaskLive, TaskCustody, RowCustody, Kept, SelfieIsProven;
    LiveStep(config, s, s', tid);
  }

  /** Steps that change other parts of the row, or drop the challenge. */
  lemma LiveRowStep(config: Config, s: State, tid: Tid, s': State)
    requires Custody(config, s) && LiveInv(config, s)
    requires s'.h.started == s.h.started && s'.h.run == s.h.run && s'.h.consumed == s.h.consumed
             && s'.h.tokens == s.h.tokens
    requires forall t :: t != tid ==> (t in s.tasks <==> t in s'.tasks) && (t in s.tasks ==> s'.tasks[t] == s.tasks[t])
    requires s.now <= s'.now && s'.row.profile == s.row.profile
    requires forall k :: k in Refs(s'.row) ==> k in Refs(s.row) || !Settled(s.h, k)
    requires || (s'.row.live == s.row.live && s'.row.liveExpiresAt == s.row.liveExpiresAt)
             || (s'.row.live == NoLive && s'.row.liveExpiresAt == None)
    requires s'.row.live != s.row.live && s.row.live.Running? && s.row.live.challenge.failed ==>
               s.row.live.SelfieKeys() !! Refs(s'.row)
    requires SelfieIsProven(s'.row)
    requires tid in s'.tasks ==> TaskLive(s', tid, s'.tasks[tid])
    ensures LiveInv(config, s')
  {
    hide Replay, Chain, Fresh, Refs, TaskLive, TaskCustody, RowCustody, Kept, SelfieIsProven;
    LiveStep(config, s, s', tid);
  }

  lemma LiveMarkSweep(config: Config, s: State, tid: Tid, at: Time)
    requires Custody(config, s) && LiveInv(config, s) && tid !in s.tasks && s.now < at
    ensures LiveInv(config, DoMarkSweep(s, tid, at).(now := at))
  {
    hide Replay, Chain, Fresh, TaskCustody, RowCustody, Kept;
    var s' := DoMarkSweep(s, tid, at).(now := at);
    if SweepMarkTx(s.row, at).Some? {
      assert s.row.live.Running?;
      assert s'.row.live.SelfieKeys() == s.row.live.SelfieKeys();
      assert Refs(s'.row) == Refs(s.row);
      hide Refs;
      LiveStep(config, s, s', tid);
    } else {
      hide Refs;
      LiveLocal(config, s, tid, s');
    }
  }

  lemma StartLiveRow(config: Config, s: State, tid: Tid, at: Time)
    requires LiveRow(config, s) && tid in s.tasks && s.tasks[tid].Starting? && TaskLive(s, tid, s.tasks[tid])
    requires StartTx(s.row, s.tasks[tid].challenge, at).Ok?
    ensures LiveRow(config, DoCommitStart(s, tid, at).(now := at))
  {
    hide Refs;
    var s' := DoCommitStart(s, tid, at).(now := at);
    assert s'.h.run == [];
    assert StartOf(s'.h) == s.tasks[tid].challenge;
  }

  lemma StartLiveRespects(config: Config, s: State, tid: Tid, at: Time)
    requires RowCustody(s.row, s.h) && tid in s.tasks && s.tasks[tid].Starting? && TaskLive(s, tid, s.tasks[tid])
    requires StartTx(s.row, s.tasks[tid].challenge, at).Ok? && s.now < at
    ensures LiveRespects(s, DoCommitStart(s, tid, at).(now := at), tid)
  {
    StartRefs(s.row, s.h, s.tasks[tid].challenge, at);
    hide Refs;
  }

  lemma LiveCommitStart(config: Config, s: State, tid: Tid, at: Time)
    requires Custody(config, s) && LiveInv(config, s) && tid in s.tasks && s.tasks[tid].Starting? && s.now < at
    ensures LiveInv(config, DoCommitStart(s, tid, at).(now := at))
  {
    if StartTx(s.row, s.tasks[tid].challenge, at).Ok? {
      assert tid in DoCommitStart(s, tid, at).tasks ==> DoCommitStart(s, tid, at).tasks[tid].Cleaning?;
      hide Refs, TaskCustody, RowCustody, Kept, LiveRow, LiveRespects, StartTx, DoCommitStart;
      StartLiveRow(config, s, tid, at);
      StartLiveRespects(config, s, tid, at);
      LiveStep(config, s, DoCommitStart(s, tid, at).(now := at), tid);
    } else {
      LiveLocal(config, s, tid, DoCommitStart(s, tid, at).(now := at));
    }
  }

  /** A frame commits on the document it was screened on, and that is the current one. */
  lemma FrameCommitsOnCurrent(config: Config, s: State, tid: Tid, at: Time)
    requires LiveRow(config, s) && tid in s.tasks && s.tasks[tid].Committing? && TaskLive(s, tid, s.tasks[tid])
    requires FrameCommits(config, s, tid, at) && s.now < at
    ensures s.row.live == Running(s.tasks[tid].base) && s.h.started.Some?
    ensures s.tasks[tid].base == Current(config, s.h)
    ensures Selfie !in s.row.evidence
    ensures FrameOnBase(config, s, tid, at)
  {
    hide Replay, Chain, Refs;
  }

  lemma FrameLiveIsCurrent(config: Config, s: State, tid: Tid, at: Time)
    requires LiveRow(config, s) && tid in s.tasks && s.tasks[tid].Committing? && TaskLive(s, tid, s.tasks[tid])
    requires FrameCommits(config, s, tid, at) && s.now < at
    ensures var s' := DoCommitFrame(config, s, tid, at).(now := at);
            LiveIsCurrent(config, s') && Chain(config.live, StartOf(s'.h), s'.h.run)
  {
    FrameCommitsOnCurrent(config, s, tid, at);
    var Committing(base, f) := s.tasks[tid];
    ChainSnoc(config.live, StartOf(s.h), s.h.run, f);
    hide Replay, Chain, Refs, Fresh, NewKey, Hit;
    assert Advance(config.live, base, f).deadline == base.deadline;
  }

  lemma FrameLiveRow(config: Config, s: State, tid: Tid, at: Time)
    requires LiveRow(config, s) && tid in s.tasks && s.tasks[tid].Committing? && TaskLive(s, tid, s.tasks[tid])
    requires FrameCommits(config, s, tid, at) && s.now < at
    ensures LiveRow(config, DoCommitFrame(config, s, tid, at).(now := at))
  {
    FrameCommitsOnCurrent(config, s, tid, at);
    FrameLiveIsCurrent(config, s, tid, at);
    hide Replay, Chain, Refs, Fresh, NewKey, Hit, LiveIsCurrent;
    var s' := DoCommitFrame(config, s, tid, at).(now := at);
    assert TokensUsedOnce(s'.row, s'.h) by {
      hide SelfieIsProven;
    }
  }

  lemma FrameLiveRespects(config: Config, s: State, tid: Tid, at: Time)
    requires LiveRow(config, s) && tid in s.tasks && s.tasks[tid].Committing? && TaskLive(s, tid, s.tasks[tid])
    requires RowCustody(s.row, s.h) && TaskCustody(config, s, tid, s.tasks[tid])
    requires FrameCommits(config, s, tid, at) && s.now < at
    ensures LiveRespects(s, DoCommitFrame(config, s, tid, at).(now := at), tid)
  {
    FrameCommitsOnCurrent(config, s, tid, at);
    FrameRefs(config, s, tid, at);
    hide Replay, Chain, Refs, Fresh, NewKey, Hit;
  }

  lemma LiveCommitFrame(config: Config, s: State, tid: Tid, at: Time)
    requires Custody(config, s) && LiveInv(config, s) && tid in s.tasks && s.tasks[tid].Committing? && s.now < at
    ensures LiveInv(config, DoCommitFrame(config, s, tid, at).(now := at))
  {
    hide Refs, Kept, Advance, NewKey, FrameTx, BaseOk;
    if FrameCommits(config, s, tid, at) {
      assert tid !in DoCommitFrame(config, s, tid, at).tasks;
      hide DoCommitFrame, TaskCustody, RowCustody, LiveRow, LiveRespects, TaskLive;
      FrameLiveRow(config, s, tid, at);
      FrameLiveRespects(config, s, tid, at);
      LiveStep(config, s, DoCommitFrame(config, s, tid, at).(now := at), tid);
    } else {
      LiveLocal(config, s, tid, DoCommitFrame(config, s, tid, at).(now := at));
    }
  }
}
