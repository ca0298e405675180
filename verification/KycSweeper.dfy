/** How often the retention sweep announces an erasure: once per sweeper that gets to its last
    transaction, which does not look whether the row is erased already. */
module KycSweeper {
  import opened Wrappers
  import opened KycTypes
  import opened LiveChallenge
  import opened Decision
  import opened VerificationRow
  import opened KycProtocol
  import opened KycInvariant
  import StepProof
  import WorkProof

  function Erasures(outbox: seq<Callback>): nat {
    if outbox == [] then 0
    else Erasures(outbox[..|outbox| - 1]) + (if outbox[|outbox| - 1].evidenceDeleted then 1 else 0)
  }

  lemma ErasuresAppend(outbox: seq<Callback>, c: Callback)
    ensures Erasures(outbox + [c]) == Erasures(outbox) + (if c.evidenceDeleted then 1 else 0)
  {
    assert (outbox + [c])[..|outbox|] == outbox;
  }

  predicate Sweeping(task: Task) {
    task.Selected? || task.Pruning?
  }

  /** The row is selected for erasure only while nobody else is erasing it. */
  predicate OneSweeper(config: Config, s: State, steps: seq<Step>)
    requires Legal(config, s, steps)
    decreases |steps|
  {
    steps != [] ==>
      && (steps[0].event.SelectDue? ==> forall t :: t in s.tasks ==> !Sweeping(s.tasks[t]))
      && OneSweeper(config, Apply(config, s, steps[0]), steps[1..])
  }

  ghost predicate SweepInv(s: State) {
    && (forall t, u :: t in s.tasks && u in s.tasks && Sweeping(s.tasks[t]) && Sweeping(s.tasks[u]) ==> t == u)
    && (forall t :: t in s.tasks && s.tasks[t].Pruning? ==> !s.row.evidenceDeleted && !Active(s.row))
    && (Active(s.row) ==> !s.row.evidenceDeleted)
    && s.row.status !in {NotStarted, InProgress}
  }

  /** What steps other than the sweep's own do: they neither erase nor announce an erasure. */
  ghost predicate NoErasure(s: State, s': State, tid: Tid) {
    && (forall t :: t != tid ==> (t in s.tasks <==> t in s'.tasks) && (t in s.tasks ==> s'.tasks[t] == s.tasks[t]))
    && (tid in s'.tasks && Sweeping(s'.tasks[tid]) ==>
        tid in s.tasks && Sweeping(s.tasks[tid]) && (s'.tasks[tid].Pruning? ==> s.tasks[tid].Pruning?))
    && s'.row.evidenceDeleted == s.row.evidenceDeleted
    && (Active(s'.row) ==> Active(s.row)) && s'.row.status !in {NotStarted, InProgress}
    && (s'.outbox == s.outbox
        || (Active(s.row) && exists c: Callback :: !c.evidenceDeleted && s'.outbox == s.outbox + [c]))
  }

  lemma NoErasureKeeps(s: State, s': State, tid: Tid)
    requires SweepInv(s) && NoErasure(s, s', tid)
    ensures SweepInv(s')
  {
    hide Active;
  }

  lemma UploadStep(config: Config, s: State, step: Step)
    requires Enabled(config, s, step) && s.row.status !in {NotStarted, InProgress}
    requires step.event.CommitUpload? || step.event.CommitStart?
    requires s.row.evidenceDeleted ==> !Active(s.row) && s.row.live == NoLive
    ensures NoErasure(s, Apply(config, s, step), step.tid)
  {
    hide Refs, UploadTx, StartTx, NotPending;
    var Step(tid, at, event) := step;
    if event.CommitUpload? {
      WorkProof.QuietTransactions(s.row, s.tasks[tid].kind, s.tasks[tid].key, Fresh(0, 0), 0, at, NoLive);
    } else {
      WorkProof.QuietTransactions(s.row, Front, 0, s.tasks[tid].challenge, 0, at, NoLive);
    }
  }

  lemma FrameStep(config: Config, s: State, step: Step)
    requires Enabled(config, s, step) && s.row.status !in {NotStarted, InProgress} && step.event.CommitFrame?
    requires s.row.evidenceDeleted ==> !Active(s.row) && s.row.live == NoLive
    ensures NoErasure(s, Apply(config, s, step), step.tid)
  {
    hide Advance, NewKey, FrameTx, NotPending;
    var Committing(base, f) := s.tasks[step.tid];
    WorkProof.QuietTransactions(s.row, Front, 0, Advance(config.live, base, f), f.token, step.at, NoLive);
  }

  lemma CaptureSweepStep(config: Config, s: State, step: Step)
    requires Enabled(config, s, step) && s.row.status !in {NotStarted, InProgress}
    requires step.event.MarkSweep? || (step.event.FinishSweep? && s.tasks[step.tid].state.Running?)
    requires s.row.evidenceDeleted ==> !Active(s.row) && s.row.live == NoLive
    ensures NoErasure(s, Apply(config, s, step), step.tid)
  {
    hide Refs, SweepMarkTx, SweepFinishTx;
    var Step(tid, at, event) := step;
    var state := if event.MarkSweep? then NoLive else s.tasks[tid].state;
    WorkProof.QuietTransactions(s.row, Front, 0, Fresh(0, 0), 0, at, state);
  }

  lemma ServiceStep(config: Config, s: State, step: Step)
    requires Enabled(config, s, step) && s.row.status !in {NotStarted, InProgress}
    requires step.event.Submit? || step.event.Erase? || step.event.ClaimRow?
    ensures NoErasure(s, Apply(config, s, step), step.tid)
  {
  }

  lemma ComputeStep(config: Config, s: State, step: Step)
    requires Enabled(config, s, step) && s.row.status !in {NotStarted, InProgress}
    requires step.event.Judge? || step.event.Load? || step.event.Consult?
    ensures NoErasure(s, Apply(config, s, step), step.tid)
  {
  }

  lemma VerdictStep(config: Config, s: State, step: Step)
    requires Enabled(config, s, step) && step.event.CommitResult? && s.row.status !in {NotStarted, InProgress}
    requires Active(s.row) ==> !s.row.evidenceDeleted
    ensures NoErasure(s, Apply(config, s, step), step.tid)
  {
    hide Evaluate;
    var s' := Apply(config, s, step);
    if s'.outbox != s.outbox {
      assert s'.outbox == s.outbox + [CallbackFor(s'.row)];
    }
  }

  predicate BeginsTask(event: Event) {
    event.BeginUpload? || event.BeginStart? || event.BeginFrame?
  }

  predicate BlobTransfer(event: Event) {
    || event.PutUpload? || event.Clean? || event.AnalyzeFrame? || event.DeleteSwept? || event.DeletePruned?
        || event.Crash?
  }

  lemma BeginStep(config: Config, s: State, step: Step)
    requires Enabled(config, s, step) && s.row.status !in {NotStarted, InProgress} && BeginsTask(step.event)
    ensures NoErasure(s, Apply(config, s, step), step.tid)
  {
    hide Screen, NotPending, UploadRefused, Fresh;
  }

  lemma BlobStep(config: Config, s: State, step: Step)
    requires Enabled(config, s, step) && s.row.status !in {NotStarted, InProgress} && BlobTransfer(step.event)
    ensures NoErasure(s, Apply(config, s, step), step.tid)
  {
    hide NewKey;
  }

  /** A selection and a tombstone announce nothing, and the last transaction erases and announces. */
  lemma SweepTransactions(config: Config, s: State, step: Step)
    requires Enabled(config, s, step) && (step.event.SelectDue? || step.event.Tombstone? || step.event.FinishPrune?)
    ensures var s' := Apply(config, s, step);
            if step.event.FinishPrune? then
              s'.row.evidenceDeleted && Erasures(s'.outbox) == Erasures(s.outbox) + 1
            else s'.outbox == s.outbox && s'.row.evidenceDeleted == s.row.evidenceDeleted
  {
    ErasuresAppend(s.outbox, CallbackFor(EraseEvidenceTx(s.row)));
    hide Erasures, Refs, Due;
  }

  /** Only a selection, a tombstone or the last transaction of a sweep is not a step of this kind. */
  lemma OtherSteps(config: Config, s: State, step: Step)
    requires Inv(config, s) && Enabled(config, s, step)
    requires !step.event.SelectDue? && !step.event.Tombstone? && !step.event.FinishPrune?
    ensures NoErasure(s, Apply(config, s, step), step.tid)
  {
    StepProof.CustodyNeeds(config, s, step);
    assert s.row.status !in {NotStarted, InProgress};
    assert Active(s.row) ==> !s.row.evidenceDeleted;
    assert s.row.evidenceDeleted ==> !Active(s.row) && s.row.live == NoLive;
    hide Inv, Enabled, Apply, NoErasure, Active;
    var event := step.event;
    if event.CommitUpload? || event.CommitStart? {
      UploadStep(config, s, step);
    } else if event.CommitFrame? {
      FrameStep(config, s, step);
    } else if event.MarkSweep? || event.FinishSweep? {
      CaptureSweepStep(config, s, step);
    } else if event.Judge? || event.Load? || event.Consult? {
      ComputeStep(config, s, step);
    } else if event.CommitResult? {
      VerdictStep(config, s, step);
    } else if BeginsTask(event) {
      BeginStep(config, s, step);
    } else if BlobTransfer(event) {
      BlobStep(config, s, step);
    } else {
      ServiceStep(config, s, step);
    }
  }

  // ---------------------------------------------------------------- exactly when once

  function Finishes(steps: seq<Step>): nat {
    if steps == [] then 0 else (if steps[0].event.FinishPrune? then 1 else 0) + Finishes(steps[1..])
  }

  /** Every sweep's last transaction finds the row not erased yet: the guard that transaction lacks. */
  predicate FinishesUnerased(config: Config, s: State, steps: seq<Step>)
    requires Legal(config, s, steps)
    decreases |steps|
  {
    steps != [] ==>
      && (steps[0].event.FinishPrune? ==> !s.row.evidenceDeleted)
      && FinishesUnerased(config, Apply(config, s, steps[0]), steps[1..])
  }

  lemma ErasureStep(config: Config, s: State, step: Step)
    requires Inv(config, s) && Enabled(config, s, step)
    ensures var s', finish := Apply(config, s, step), step.event.FinishPrune?;
            && Erasures(s'.outbox) == Erasures(s.outbox) + (if finish then 1 else 0)
            && s'.row.evidenceDeleted == (s.row.evidenceDeleted || finish)
  {
    hide Inv, Enabled, Apply, Erasures, Active;
    if step.event.SelectDue? || step.event.Tombstone? || step.event.FinishPrune? {
      SweepTransactions(config, s, step);
    } else {
      OtherSteps(config, s, step);
      var s' := Apply(config, s, step);
      if s'.outbox != s.outbox {
        var c: Callback :| !c.evidenceDeleted && s'.outbox == s.outbox + [c];
        ErasuresAppend(s.outbox, c);
      }
    }
  }

  /** Announcements are counted by last transactions, and one of them erases the row. */
  lemma {:induction false} ErasureCount(config: Config, s: State, steps: seq<Step>)
    requires Inv(config, s) && Legal(config, s, steps)
    ensures var s' := Run(config, s, steps);
            && Erasures(s'.outbox) == Erasures(s.outbox) + Finishes(steps)
            && s'.row.evidenceDeleted == (s.row.evidenceDeleted || Finishes(steps) > 0)
    ensures FinishesUnerased(config, s, steps) <==> Finishes(steps) + (if s.row.evidenceDeleted then 1 else 0) <= 1
    decreases |steps|
  {
    hide Inv, Enabled, Apply, Erasures;
    if steps != [] {
      ErasureStep(config, s, steps[0]);
      StepProof.Inductive(config, s, steps[0]);
      ErasureCount(config, Apply(config, s, steps[0]), steps[1..]);
    }
  }

  /** Over every run an erasure is announced once if it happened and never if it did not, exactly
      when every sweep of the run finishes on a row no other one has erased. */
  lemma AnnouncedOnceExactly(config: Config, s: State, steps: seq<Step>)
    requires Init(s) && Legal(config, s, steps)
    ensures var s' := Run(config, s, steps);
            Erasures(s'.outbox) == (if s'.row.evidenceDeleted then 1 else 0) <==> FinishesUnerased(config, s, steps)
  {
    InitInv(config, s);
    hide Inv, Enabled, Apply;
    ErasureCount(config, s, steps);
  }

  // ---------------------------------------------------------------- one sweeper at a time

  /** The sweep's own steps. */
  lemma SweeperStep(config: Config, s: State, step: Step)
    requires SweepInv(s) && Enabled(config, s, step)
    requires step.event.SelectDue? || step.event.Tombstone? || step.event.FinishPrune?
    requires step.event.SelectDue? ==> forall t :: t in s.tasks ==> !Sweeping(s.tasks[t])
    ensures SweepInv(Apply(config, s, step))
  {
    hide Refs, CallbackFor;
  }

  lemma SweepInductive(config: Config, s: State, step: Step)
    requires SweepInv(s) && Enabled(config, s, step) && Inv(config, s)
    requires step.event.SelectDue? ==> forall t :: t in s.tasks ==> !Sweeping(s.tasks[t])
    ensures SweepInv(Apply(config, s, step))
  {
    hide Inv, Enabled, Apply, SweepInv, NoErasure;
    if step.event.SelectDue? || step.event.Tombstone? || step.event.FinishPrune? {
      SweeperStep(config, s, step);
    } else {
      OtherSteps(config, s, step);
      NoErasureKeeps(s, Apply(config, s, step), step.tid);
    }
  }

  lemma FinishUnerased(config: Config, s: State, step: Step)
    requires SweepInv(s) && Enabled(config, s, step) && step.event.FinishPrune?
    ensures !s.row.evidenceDeleted
  {
  }

  lemma {:induction false} SweepsFinishUnerased(config: Config, s: State, steps: seq<Step>)
    requires SweepInv(s) && Inv(config, s) && Legal(config, s, steps) && OneSweeper(config, s, steps)
    ensures FinishesUnerased(config, s, steps)
    decreases |steps|
  {
    hide Inv, Enabled, Apply, SweepInv;
    if steps != [] {
      if steps[0].event.FinishPrune? {
        FinishUnerased(config, s, steps[0]);
      }
      SweepInductive(config, s, steps[0]);
      StepProof.Inductive(config, s, steps[0]);
      SweepsFinishUnerased(config, Apply(config, s, steps[0]), steps[1..]);
    }
  }

  /** Sweeps that do not overlap announce an erasure exactly when it has happened, and once. */
  lemma OneSweeperAnnouncesOnce(config: Config, s: State, steps: seq<Step>)
    requires Init(s) && Legal(config, s, steps) && OneSweeper(config, s, steps)
    ensures var s' := Run(config, s, steps); Erasures(s'.outbox) == if s'.row.evidenceDeleted then 1 else 0
  {
    InitInv(config, s);
    hide Enabled, Apply, Inv;
    SweepsFinishUnerased(config, s, steps);
    AnnouncedOnceExactly(config, s, steps);
  }

  // ---------------------------------------------------------------- two sweepers

  /** The steps of a sweep on a row that has no evidence. */
  lemma SweepSteps(config: Config, s: State, tid: Tid, at: Time)
    requires s.now < at && Refs(s.row) == {}
    ensures tid !in s.tasks && Due(s.row, at) ==>
              Enabled(config, s, Step(tid, at, SelectDue)) &&
              Apply(config, s, Step(tid, at, SelectDue)) == Become(s, tid, Selected).(now := at)
    ensures tid in s.tasks && s.tasks[tid].Selected? && !s.row.evidenceDeleted ==>
              Enabled(config, s, Step(tid, at, Tombstone)) &&
              Apply(config, s, Step(tid, at, Tombstone))
                == Become(s.(row := TombstoneTx(s.row).value), tid, Pruning({}, {})).(now := at)
    ensures tid in s.tasks && s.tasks[tid] == Pruning({}, {}) ==>
              Enabled(config, s, Step(tid, at, FinishPrune)) &&
              Apply(config, s, Step(tid, at, FinishPrune))
                == End(s.(row := EraseEvidenceTx(s.row), outbox := s.outbox + [CallbackFor(EraseEvidenceTx(s.row))]),
                    tid).(now := at)
  {
    assert TombstoneTx(s.row).Some? ==> Refs(TombstoneTx(s.row).value) == Refs(s.row);
  }

  /** Unfolding a run by its first step. */
  lemma RunStep(config: Config, s: State, step: Step, rest: seq<Step>)
    requires Enabled(config, s, step) && Legal(config, Apply(config, s, step), rest)
    ensures Legal(config, s, [step] + rest)
    ensures Run(config, s, [step] + rest) == Run(config, Apply(config, s, step), rest)
  {
    hide Enabled, Apply;
    assert ([step] + rest)[1..] == rest;
  }

  lemma BothFinish(config: Config, s: State)
    requires s.row.evidence == map[] && s.row.live == NoLive
    requires s.tasks == map[1 := Pruning({}, {}), 2 := Pruning({}, {})] && s.outbox == [] && s.now == 4
    ensures var steps := [Step(1, 5, FinishPrune), Step(2, 6, FinishPrune)];
            Legal(config, s, steps) && Erasures(Run(config, s, steps).outbox) == 2
  {
    hide Enabled, Apply;
    var t5, t6 := Step(1, 5, FinishPrune), Step(2, 6, FinishPrune);
    SweepSteps(config, s, 1, 5);
    var s5 := Apply(config, s, t5);
    SweepSteps(config, s5, 2, 6);
    var s6 := Apply(config, s5, t6);
    ErasuresAppend(s.outbox, CallbackFor(s5.row));
    ErasuresAppend(s5.outbox, CallbackFor(s6.row));
    RunStep(config, s5, t6, []);
    RunStep(config, s, t5, [t6]);
    assert [t5] + [t6] == [t5, t6];
  }

  lemma BothPrune(config: Config, s: State)
    requires s.row.evidence == map[] && s.row.live == NoLive && !s.row.evidenceDeleted
    requires s.tasks == map[1 := Selected, 2 := Selected] && s.outbox == [] && s.now == 2
    ensures var steps := [Step(1, 3, Tombstone), Step(2, 4, Tombstone), Step(1, 5, FinishPrune),
            Step(2, 6, FinishPrune)];
            Legal(config, s, steps) && Erasures(Run(config, s, steps).outbox) == 2
  {
    hide Enabled, Apply, Run, Legal;
    var t3, t4, t5, t6 := Step(1, 3, Tombstone), Step(2, 4, Tombstone), Step(1, 5, FinishPrune),
        Step(2, 6, FinishPrune);
    SweepSteps(config, s, 1, 3);
    var s3 := Apply(config, s, t3);
    SweepSteps(config, s3, 2, 4);
    var s4 := Apply(config, s3, t4);
    assert s4.tasks == map[1 := Pruning({}, {}), 2 := Pruning({}, {})];
    BothFinish(config, s4);
    assert [t3] + [t4, t5, t6] == [t3, t4, t5, t6] && [t4] + [t5, t6] == [t4, t5, t6];
    RunStep(config, s3, t4, [t5, t6]);
    RunStep(config, s, t3, [t4, t5, t6]);
  }

  /** Two sweeps that both pass the tombstone each announce the erasure. */
  lemma TwoSweepersAnnounceTwice(config: Config) returns (s: State)
    ensures Reachable(config, s) && Erasures(s.outbox) == 2
  {
    hide Enabled, Apply, Run, Legal;
    var row := Created(IssuerV1, Document("passport", true, false, {BirthDate}), map[], 0);
    var s0 := State(0, row, map[], map[], [], History(map[], map[], map[], None, [], [], [], [], None));
    var t1, t2 := Step(1, 1, SelectDue), Step(2, 2, SelectDue);
    var rest := [Step(1, 3, Tombstone), Step(2, 4, Tombstone), Step(1, 5, FinishPrune), Step(2, 6, FinishPrune)];
    SweepSteps(config, s0, 1, 1);
    var s1 := Apply(config, s0, t1);
    SweepSteps(config, s1, 2, 2);
    var s2 := Apply(config, s1, t2);
    assert s2.tasks == map[1 := Selected, 2 := Selected];
    BothPrune(config, s2);
    RunStep(config, s1, t2, rest);
    RunStep(config, s0, t1, [t2] + rest);
    s := Run(config, s0, [t1] + ([t2] + rest));
    assert Init(s0);
  }

  // ---------------------------------------------------------------- a change the table does not have

  /** The service leaves the transition table: a row the sweep has expired is cancelled by `erase`. */
  lemma TableIsLeft(config: Config) returns (s: State, step: Step)
    ensures Reachable(config, s) && Enabled(config, s, step)
    ensures s.row.status == Expired && Apply(config, s, step).row.status == Cancelled
            && !CanTransition(Expired, Cancelled)
  {
    hide Enabled, Run, Legal;
    var row := Created(IssuerV1, Document("passport", true, false, {BirthDate}), map[], 0);
    var s0 := State(0, row, map[], map[], [], History(map[], map[], map[], None, [], [], [], [], None));
    var t1, t2 := Step(1, 1, SelectDue), Step(1, 2, Tombstone);
    SweepSteps(config, s0, 1, 1);
    var s1 := Apply(config, s0, t1);
    SweepSteps(config, s1, 1, 2);
    s := Apply(config, s1, t2);
    LegalNothing(config, s);
    RunStep(config, s1, t2, []);
    assert [t2] + [] == [t2];
    RunStep(config, s0, t1, [t2]);
    assert Init(s0) && Run(config, s0, [t1] + [t2]) == s;
    step := Step(2, 3, Erase);
    EraseEnabled(config, s, 2, 3);
  }

  lemma LegalNothing(config: Config, s: State)
    ensures Legal(config, s, []) && Run(config, s, []) == s
  {
  }

  lemma EraseEnabled(config: Config, s: State, tid: Tid, at: Time)
    requires tid !in s.tasks && s.now < at
    ensures Enabled(config, s, Step(tid, at, Erase))
  {
  }
}
