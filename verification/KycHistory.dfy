/** Properties of whole runs: what one step may change, and what never changes back. */
module KycHistory {
  import opened KycTypes
  import opened LiveChallenge
  import opened Decision
  import opened VerificationRow
  import opened KycProtocol
  import opened KycInvariant
  import opened StepProof

  // ---------------------------------------------------------------- one step

  /** The fixed order in which a verification's statuses follow one another. */
  function Rank(status: Status): nat {
    match status
    case NotStarted => 0
    case InProgress => 1
    case PendingUpload => 2
    case Submitted => 3
    case Processing => 4
    case Approved => 5
    case Rejected => 5
    case NeedsReview => 5
    case ActionRequired => 5
    case Expired => 6
    case Cancelled => 7
  }

  /** What a transaction may do to status, version and verdict. */
  ghost predicate Forward(row: Row, row': Row) {
    && row.version <= row'.version
    && (row'.status != row.status || row'.result != row.result ==> row.version < row'.version)
    && (row'.status == row.status || Rank(row.status) < Rank(row'.status))
    && (row.result.Some? ==> row'.result == row.result)
    && (row.status == Cancelled ==> row'.result == row.result)
    && (row.evidenceDeleted ==>
        row'.evidenceDeleted && row'.personal.None? && row'.extracted == row.extracted && row'.evidence == map[])
    && row'.profile == row.profile && row'.document == row.document
    && (row'.deleteAfter == row.deleteAfter || row'.status == Cancelled)
    && row.attempts <= row'.attempts
  }

  /** The fourteen edges of the transition table. */
  const EDGES: set<(Status, Status)> := {
    (InProgress, PendingUpload), (InProgress, Cancelled),
    (PendingUpload, Submitted), (PendingUpload, Cancelled), (PendingUpload, Expired),
    (Submitted, Processing), (Submitted, Cancelled), (Submitted, Expired),
    (Processing, Approved), (Processing, Rejected), (Processing, NeedsReview), (Processing, ActionRequired),
    (Processing, Cancelled), (Processing, Expired)
  }

  lemma TransitionsAre(current: Status, target: Status)
    ensures CanTransition(current, target) <==> (current, target) in EDGES
  {
  }

  /** A status left from one of the three unfinished ones follows an edge of the transition table;
      the table has no edge for the two ways out of a finished status. */
  ghost predicate TransitionKept(row: Row, row': Row) {
    row'.status != row.status ==>
      (CanTransition(row.status, row'.status) <==> Active(row)) &&
      (!Active(row) ==> row'.status == Cancelled || (row.status == NeedsReview && row'.status == Expired))
  }

  lemma UserTransactionsForward(row: Row, kind: Kind, key: Key, c: Challenge, token: Token, at: Time, state: Live)
    requires row.evidenceDeleted ==> !Active(row) && row.personal.None? && row.evidence == map[] && row.live == NoLive
    ensures Forward(row, row) && TransitionKept(row, row)
    ensures UploadTx(row, kind, key).Ok? ==>
            Forward(row, UploadTx(row, kind, key).value.0) && TransitionKept(row, UploadTx(row, kind, key).value.0)
    ensures StartTx(row, c, at).Ok? ==>
            Forward(row, StartTx(row, c, at).value.0) && TransitionKept(row, StartTx(row, c, at).value.0)
    ensures FrameTx(row, token, c, at).Ok? ==>
            Forward(row, FrameTx(row, token, c, at).value) && TransitionKept(row, FrameTx(row, token, c, at).value)
    ensures SweepMarkTx(row, at).Some? ==>
            Forward(row, SweepMarkTx(row, at).value) && TransitionKept(row, SweepMarkTx(row, at).value)
    ensures state.Running? && SweepFinishTx(row, state).Some? ==>
              Forward(row, SweepFinishTx(row, state).value) && TransitionKept(row, SweepFinishTx(row, state).value)
  {
  }

  lemma ServiceTransactionsForward(row: Row, at: Time, version: nat, outcome: Outcome)
    requires row.evidenceDeleted ==> !Active(row) && row.personal.None? && row.extracted.None? && row.evidence == map[]
    requires Active(row) ==> row.result.None?
    requires row.status !in {NotStarted, InProgress}
    requires outcome.status in {Approved, Rejected, NeedsReview, ActionRequired}
    ensures SubmitTx(row, at).Ok? ==>
            Forward(row, SubmitTx(row, at).value) && TransitionKept(row, SubmitTx(row, at).value)
    ensures Forward(row, EraseTx(row, at)) && TransitionKept(row, EraseTx(row, at))
    ensures ClaimTx(row, at).Some? ==>
            Forward(row, ClaimTx(row, at).value) && TransitionKept(row, ClaimTx(row, at).value)
    ensures ResultTx(row, version, outcome).Some? ==>
              Forward(row, ResultTx(row, version, outcome).value)
                  && TransitionKept(row, ResultTx(row, version, outcome).value)
    ensures TombstoneTx(row).Some? ==>
            Forward(row, TombstoneTx(row).value) && TransitionKept(row, TombstoneTx(row).value)
    ensures row.personal.None? ==> Forward(row, EraseEvidenceTx(row)) && TransitionKept(row, EraseEvidenceTx(row))
  {
  }

  lemma UserStepForward(config: Config, s: State, step: Step)
    requires Erased(s) && Enabled(config, s, step)
    requires step.event.CommitUpload? || step.event.CommitStart? || step.event.CommitFrame? || step.event.MarkSweep?
             || step.event.FinishSweep?
    requires step.event.FinishSweep? ==> s.tasks[step.tid].state.Running?
    ensures Forward(s.row, Apply(config, s, step).row) && TransitionKept(s.row, Apply(config, s, step).row)
  {
    hide Forward, TransitionKept, UploadTx, StartTx, FrameTx, SweepMarkTx, SweepFinishTx, Advance, NewKey;
    var Step(tid, at, event) := step;
    UserTransactionsForward(s.row, Front, 0, Fresh(0, 0), 0, at, NoLive);
    match event
    case CommitUpload => UserTransactionsForward(s.row, s.tasks[tid].kind, s.tasks[tid].key, Fresh(0, 0), 0, at,
        NoLive);
    case CommitStart => UserTransactionsForward(s.row, Front, 0, s.tasks[tid].challenge, 0, at, NoLive);
    case CommitFrame =>
      UserTransactionsForward(s.row, Front, 0, Advance(config.live, s.tasks[tid].base, s.tasks[tid].frame),
                              s.tasks[tid].frame.token, at, NoLive);
    case FinishSweep => UserTransactionsForward(s.row, Front, 0, Fresh(0, 0), 0, at, s.tasks[tid].state);
    case MarkSweep =>
  }

  lemma ServiceStepForward(config: Config, s: State, step: Step)
    requires Erased(s) && DecisionRow(config, s.row, s.h) && Enabled(config, s, step)
    requires step.event.Submit? || step.event.Erase? || step.event.Tombstone? || step.event.FinishPrune?
    ensures Forward(s.row, Apply(config, s, step).row) && TransitionKept(s.row, Apply(config, s, step).row)
  {
    hide DecisionRow, Forward, TransitionKept, SubmitTx, EraseTx, TombstoneTx, EraseEvidenceTx, Refs;
    RowFacts(config, s);
    SameRowForward(config, s);
    ServiceTransactionsForward(s.row, step.at, 0, ProcessingError(map[], map[]));
  }

  lemma WorkerStepForward(config: Config, s: State, step: Step)
    requires Erased(s) && DecisionRow(config, s.row, s.h) && Enabled(config, s, step)
    requires step.event.ClaimRow? || step.event.CommitResult?
    ensures Forward(s.row, Apply(config, s, step).row) && TransitionKept(s.row, Apply(config, s, step).row)
  {
    hide DecisionRow, Forward, TransitionKept, ClaimTx, ResultTx, OutcomeOf;
    RowFacts(config, s);
    SameRowForward(config, s);
    if step.event.ClaimRow? {
      ServiceTransactionsForward(s.row, step.event.clock, 0, ProcessingError(map[], map[]));
    } else {
      var j := s.tasks[step.tid].verdict;
      WorkProof.OutcomeIsFinal(config, j);
      ServiceTransactionsForward(s.row, 0, j.claim.version, OutcomeOf(config, j));
    }
  }

  lemma RowFacts(config: Config, s: State)
    requires Erased(s) && DecisionRow(config, s.row, s.h)
    ensures Active(s.row) ==> s.row.result.None?
    ensures s.row.status !in {NotStarted, InProgress}
    ensures s.row.evidenceDeleted ==>
              !Active(s.row) && s.row.personal.None? && s.row.extracted.None? && s.row.evidence == map[]
                  && s.row.live == NoLive
    ensures forall tid :: tid in s.tasks && s.tasks[tid].Pruning? ==> s.row.personal.None?
  {
  }

  lemma OtherStepsKeepRow(config: Config, s: State, step: Step)
    requires Enabled(config, s, step)
    requires step.event.BeginUpload? || step.event.PutUpload? || step.event.Clean? || step.event.BeginStart?
             || step.event.BeginFrame?
             || step.event.AnalyzeFrame? || step.event.DeleteSwept? || step.event.SelectDue? || step.event.DeletePruned?
             || step.event.Load? || step.event.Consult? || step.event.Judge? || step.event.Crash?
    ensures Apply(config, s, step).row == s.row
  {
    hide NewKey, Screen, NotPending, UploadRefused, Fresh, Due;
  }

  /** One step of any interleaving. */
  lemma StepForward(config: Config, s: State, step: Step)
    requires Inv(config, s) && Enabled(config, s, step)
    ensures Forward(s.row, Apply(config, s, step).row) && TransitionKept(s.row, Apply(config, s, step).row)
  {
    CustodyNeeds(config, s, step);
    hide Custody, LiveInv, SelfieContent, Integrity, DecisionRow, WorkInv, OutboxInv, LeaseInv, Erased, Forward;
    hide TransitionKept, Apply;
    match step.event
    case CommitUpload => UserStepForward(config, s, step);
    case CommitStart => UserStepForward(config, s, step);
    case CommitFrame => UserStepForward(config, s, step);
    case MarkSweep => UserStepForward(config, s, step);
    case FinishSweep => UserStepForward(config, s, step);
    case Submit => ServiceStepForward(config, s, step);
    case Erase => ServiceStepForward(config, s, step);
    case Tombstone => ServiceStepForward(config, s, step);
    case FinishPrune => ServiceStepForward(config, s, step);
    case ClaimRow(_) => WorkerStepForward(config, s, step);
    case CommitResult => WorkerStepForward(config, s, step);
    case _ =>
      OtherStepsKeepRow(config, s, step);
      SameRowForward(config, s);
  }

  lemma SameRowForward(config: Config, s: State)
    requires Erased(s)
    ensures Forward(s.row, s.row) && TransitionKept(s.row, s.row)
  {
  }

  // ---------------------------------------------------------------- whole runs

  lemma ForwardTransitive(a: Row, b: Row, c: Row)
    requires Forward(a, b) && Forward(b, c)
    ensures Forward(a, c)
  {
  }

  /** Over any run the status only moves up its rank, every change of status or verdict bumps the
      version, a verdict is written once and never after an erasure request, and what an erasure
      removed stays removed. */
  lemma {:induction false} RunForward(config: Config, s: State, steps: seq<Step>)
    requires Inv(config, s) && Legal(config, s, steps)
    ensures Forward(s.row, Run(config, s, steps).row)
    decreases |steps|
  {
    hide Inv, Enabled, Apply, Forward;
    if steps == [] {
      InvSameRow(config, s);
    } else {
      var next := Apply(config, s, steps[0]);
      StepForward(config, s, steps[0]);
      Inductive(config, s, steps[0]);
      RunForward(config, next, steps[1..]);
      ForwardTransitive(s.row, next.row, Run(config, s, steps).row);
    }
  }

  lemma InvSameRow(config: Config, s: State)
    requires Inv(config, s)
    ensures Forward(s.row, s.row)
  {
    hide Custody, LiveInv, SelfieContent, Integrity, DecisionRow, WorkInv, OutboxInv, LeaseInv;
    SameRowForward(config, s);
  }

  /** The history of a verification, from any state some run reaches to any later one. */
  lemma StatusNeverReturns(config: Config, s: State, steps: seq<Step>)
    requires Reachable(config, s) && Legal(config, s, steps)
    ensures var s' := Run(config, s, steps);
            && (s'.row.status == s.row.status || Rank(s.row.status) < Rank(s'.row.status))
            && (s.row.status == Cancelled ==> s'.row.status == Cancelled && s'.row.result == s.row.result)
            && (s.row.result.Some? ==> s'.row.result == s.row.result)
            && s.row.version <= s'.row.version
            && (s'.row.status != s.row.status || s'.row.result != s.row.result ==> s.row.version < s'.row.version)
            && (s.row.evidenceDeleted ==> s'.row.evidenceDeleted && s'.row.evidence == map[] && s'.row.personal.None?)
  {
    hide Reachable, Inv, Legal, Run;
    ReachableInv(config, s);
    RunForward(config, s, steps);
  }

  /** Every status change out of an unfinished status is an edge of the table, and the only changes
      the table does not know are the ways out of a finished one. */
  lemma StatusChangesFollowTable(config: Config, s: State, step: Step)
    requires Reachable(config, s) && Enabled(config, s, step)
    ensures TransitionKept(s.row, Apply(config, s, step).row)
  {
    hide Reachable, Inv, Enabled, Apply, TransitionKept, Forward;
    ReachableInv(config, s);
    StepForward(config, s, step);
  }

  // ---------------------------------------------------------------- the worker

  /** A verdict is only ever written by a worker whose claim still is the row, evidence included,
      and its callback is enqueued in the same transaction. */
  lemma VerdictOnlyOnClaim(config: Config, s: State, step: Step)
    requires Reachable(config, s) && Enabled(config, s, step)
    requires Apply(config, s, step).row.result != s.row.result
    ensures step.event.CommitResult? && s.row.status == Processing && s.row.result.None?
    ensures var j, s' := s.tasks[step.tid].verdict, Apply(config, s, step);
            && j.claim == ClaimOf(s.row)
            && s'.row.version == j.claim.version + 1
            && s'.row.status == OutcomeOf(config, j).status
            && s'.outbox == s.outbox + [CallbackFor(s'.row)]
            && CallbackFor(s'.row) == CallbackOf(config, j)
  {
    OnlyCommitWritesResult(config, s, step);
    CommittedVerdict(config, s, step.tid);
  }

  lemma CommittedVerdict(config: Config, s: State, tid: Tid)
    requires Reachable(config, s) && tid in s.tasks && s.tasks[tid].Judged?
    requires DoCommitResult(config, s, tid).row.result != s.row.result
    ensures s.row.status == Processing && s.row.result.None?
    ensures var j, s' := s.tasks[tid].verdict, DoCommitResult(config, s, tid);
            && j.claim == ClaimOf(s.row)
            && s'.row.version == j.claim.version + 1
            && s'.row.status == OutcomeOf(config, j).status
            && s'.outbox == s.outbox + [CallbackFor(s'.row)]
            && CallbackFor(s'.row) == CallbackOf(config, j)
  {
    hide OutcomeOf, ResultCallbacks, Kept, TaskCustody, RowCustody, TaskLive, LiveRow, SelfieContent, LeaseRow;
    hide TaskLease, ImagesOf, CaptureProven;
    ReachableInv(config, s);
    assert TaskWork(s, s.tasks[tid]);
    assert Active(s.row) ==> !s.row.evidenceDeleted && s.row.result.None?;
  }

  /** Apart from the worker's commit, the transactions leave the verdict alone. */
  lemma TransactionsKeepResult(row: Row, kind: Kind, key: Key, c: Challenge, token: Token, at: Time, state: Live)
    ensures UploadTx(row, kind, key).Ok? ==> UploadTx(row, kind, key).value.0.result == row.result
    ensures StartTx(row, c, at).Ok? ==> StartTx(row, c, at).value.0.result == row.result
    ensures FrameTx(row, token, c, at).Ok? ==> FrameTx(row, token, c, at).value.result == row.result
    ensures SweepMarkTx(row, at).Some? ==> SweepMarkTx(row, at).value.result == row.result
    ensures SweepFinishTx(row, state).Some? ==> SweepFinishTx(row, state).value.result == row.result
    ensures SubmitTx(row, at).Ok? ==> SubmitTx(row, at).value.result == row.result
    ensures ClaimTx(row, at).Some? ==> ClaimTx(row, at).value.result == row.result
    ensures TombstoneTx(row).Some? ==> TombstoneTx(row).value.result == row.result
    ensures EraseTx(row, at).result == EraseEvidenceTx(row).result == row.result
  {
  }

  lemma UserStepKeepsResult(config: Config, s: State, step: Step)
    requires Enabled(config, s, step)
    requires step.event.CommitUpload? || step.event.CommitStart? || step.event.CommitFrame? || step.event.MarkSweep?
             || step.event.FinishSweep?
    ensures Apply(config, s, step).row.result == s.row.result
  {
    hide UploadTx, StartTx, FrameTx, SweepMarkTx, SweepFinishTx, Advance, NewKey;
    var Step(tid, at, event) := step;
    match event
    case CommitUpload => TransactionsKeepResult(s.row, s.tasks[tid].kind, s.tasks[tid].key, Fresh(0, 0), 0, at, NoLive);
    case CommitStart => TransactionsKeepResult(s.row, Front, 0, s.tasks[tid].challenge, 0, at, NoLive);
    case CommitFrame =>
      TransactionsKeepResult(s.row, Front, 0, Advance(config.live, s.tasks[tid].base, s.tasks[tid].frame),
                             s.tasks[tid].frame.token, at, NoLive);
    case FinishSweep => TransactionsKeepResult(s.row, Front, 0, Fresh(0, 0), 0, at, s.tasks[tid].state);
    case MarkSweep => TransactionsKeepResult(s.row, Front, 0, Fresh(0, 0), 0, at, NoLive);
  }

  lemma ServiceStepKeepsResult(config: Config, s: State, step: Step)
    requires Enabled(config, s, step)
    requires step.event.Submit? || step.event.Erase? || step.event.Tombstone? || step.event.FinishPrune?
             || step.event.ClaimRow?
    ensures Apply(config, s, step).row.result == s.row.result
  {
    hide SubmitTx, EraseTx, TombstoneTx, EraseEvidenceTx, ClaimTx, Refs;
    var at := if step.event.ClaimRow? then step.event.clock else step.at;
    TransactionsKeepResult(s.row, Front, 0, Fresh(0, 0), 0, at, NoLive);
  }

  lemma OnlyCommitWritesResult(config: Config, s: State, step: Step)
    requires Enabled(config, s, step) && Apply(config, s, step).row.result != s.row.result
    ensures step.event.CommitResult?
  {
    hide Enabled, Apply;
    match step.event
    case CommitUpload => UserStepKeepsResult(config, s, step);
    case CommitStart => UserStepKeepsResult(config, s, step);
    case CommitFrame => UserStepKeepsResult(config, s, step);
    case MarkSweep => UserStepKeepsResult(config, s, step);
    case FinishSweep => UserStepKeepsResult(config, s, step);
    case Submit => ServiceStepKeepsResult(config, s, step);
    case Erase => ServiceStepKeepsResult(config, s, step);
    case Tombstone => ServiceStepKeepsResult(config, s, step);
    case FinishPrune => ServiceStepKeepsResult(config, s, step);
    case ClaimRow(_) => ServiceStepKeepsResult(config, s, step);
    case CommitResult =>
    case _ => OtherStepsKeepRow(config, s, step);
  }

  /** Exactly one callback announces a verdict, and it carries the version and status of its commit. */
  lemma OneCallbackPerVerdict(config: Config, s: State)
    requires Reachable(config, s)
    ensures s.row.result.Some? <==> s.h.decision.Some?
    ensures ResultCallbacks(s.outbox) == if s.row.result.Some? then [CallbackOf(config, s.h.decision.value)] else []
    ensures s.row.result.Some? ==> s.row.result == CallbackOf(config, s.h.decision.value).verdict
  {
    ReachableInv(config, s);
    hide Custody, LiveInv, Integrity, WorkInv, LeaseInv, Erased, OutcomeOf, ResultCallbacks;
  }

  /** Claims are counted by `attempts`, and two claims of a row are more than a lease apart. */
  lemma ClaimsAreApart(config: Config, s: State, i: nat, j: nat)
    requires Reachable(config, s) && i < j < |s.h.claims|
    ensures |s.h.claims| == s.row.attempts
    ensures s.h.claims[i] + LEASE < s.h.claims[j]
  {
    ReachableInv(config, s);
    hide Custody, LiveInv, Integrity, DecisionRow, WorkInv, OutboxInv, Erased;
  }

  const HARD_TIME_LIMIT: Time := 270 * SECOND

  /** Of two worker runs in flight the one that claimed earlier claimed more than a lease before the
      other one, so it is past its hard time limit: runs that keep to the limit are disjoint. */
  lemma RunsAreDisjoint(config: Config, s: State, older: Tid, newer: Tid)
    requires Reachable(config, s) && older in s.tasks && newer in s.tasks && older != newer
    requires AttemptOf(s.tasks[older]).Some? && AttemptOf(s.tasks[newer]).Some?
    requires AttemptOf(s.tasks[older]).value <= AttemptOf(s.tasks[newer]).value
    ensures var a, b := AttemptOf(s.tasks[older]).value, AttemptOf(s.tasks[newer]).value;
            && 1 <= a < b <= |s.h.claims|
            && s.h.claims[a - 1] + LEASE < s.h.claims[b - 1] <= s.now
            && s.h.claims[a - 1] + HARD_TIME_LIMIT < s.now
  {
    ReachableInv(config, s);
    hide Custody, LiveInv, SelfieContent, Integrity, DecisionRow, WorkInv, OutboxInv, Erased, AttemptOf;
    assert TaskLease(s, older, s.tasks[older]) && TaskLease(s, newer, s.tasks[newer]);
    var b, last := AttemptOf(s.tasks[newer]).value, |s.h.claims| - 1;
    assert b - 1 < last ==> s.h.claims[b - 1] + LEASE < s.h.claims[last];
  }

  /** Over any history of crashes and retries a worker begins to ask the providers at most three
      times, counting the workers that were killed while they asked. */
  lemma ConsultedAtMostThrice(config: Config, s: State)
    requires Reachable(config, s)
    ensures |s.h.consulted| <= 3
    ensures forall i, j :: 0 <= i < j < |s.h.consulted| ==> s.h.consulted[i] != s.h.consulted[j]
  {
    ReachableInv(config, s);
    hide Custody, LiveInv, Integrity, DecisionRow, WorkInv, OutboxInv, Erased;
    AtMostThree(s.h.consulted);
  }

  function Values(c: seq<nat>): set<nat> {
    set x | x in c
  }

  lemma {:induction false} DistinctLength(c: seq<nat>)
    requires Distinct(c)
    ensures |Values(c)| == |c|
  {
    if c != [] {
      var rest := c[..|c| - 1];
      DistinctLength(rest);
      assert c[|c| - 1] !in Values(rest);
      assert c == rest + [c[|c| - 1]];
      assert Values(c) == Values(rest) + {c[|c| - 1]};
    }
  }

  lemma AtMostThree(c: seq<nat>)
    requires Distinct(c) && forall a :: a in c ==> 1 <= a <= 3
    ensures |c| <= 3
  {
    DistinctLength(c);
    var values := Values(c);
    var all := {1, 2, 3};
    assert values <= all;
    assert |all| == |values| + |all - values| by {
      assert all == values + (all - values);
    }
  }

  // ---------------------------------------------------------------- erasure

  /** With no task in flight, every blob still in the store is one the row mentions or one a crash orphaned. */
  lemma StoreIsAccountedFor(config: Config, s: State, key: Key)
    requires Reachable(config, s) && s.tasks == map[] && key in s.blobs
    ensures key in s.h.fate && (key in Refs(s.row) || s.h.fate[key] == Lost)
  {
    ReachableInv(config, s);
    assert Kept(config, s, key);
  }

  /** No task dies while it has to commit or delete a blob it put or replaced. */
  ghost predicate CrashesHoldNothing(config: Config, s: State, steps: seq<Step>)
    requires Legal(config, s, steps)
    decreases |steps|
  {
    steps != [] ==>
      && (steps[0].event.Crash? ==> forall k :: !Holds(config, s.tasks[steps[0].tid], k))
      && CrashesHoldNothing(config, Apply(config, s, steps[0]), steps[1..])
  }

  /** Only the blobs under `lost` are stored with nobody responsible for them. */
  ghost predicate LostIn(s: State, lost: set<Key>) {
    forall k :: k in s.blobs && k in s.h.fate && s.h.fate[k] == Lost ==> k in lost
  }

  predicate IsCapture(event: Event) {
    || event.BeginUpload? || event.PutUpload? || event.CommitUpload? || event.Clean? || event.BeginStart?
        || event.CommitStart?
    || event.BeginFrame? || event.AnalyzeFrame? || event.CommitFrame?
  }

  lemma CaptureLosesNoMore(config: Config, s: State, step: Step, lost: set<Key>)
    requires LostIn(s, lost) && Enabled(config, s, step) && IsCapture(step.event)
    ensures LostIn(Apply(config, s, step), lost)
  {
    hide NewKey, Screen, NotPending, UploadRefused, Fresh, Due, Advance, Refs, OutcomeOf, UploadTx, StartTx, FrameTx;
    hide SubmitTx;
    hide EraseTx, SweepMarkTx, SweepFinishTx, TombstoneTx, ClaimTx, ResultTx, EraseEvidenceTx, CallbackFor;
  }

  lemma ServiceLosesNoMore(config: Config, s: State, step: Step, lost: set<Key>)
    requires LostIn(s, lost) && Enabled(config, s, step) && !IsCapture(step.event) && !step.event.Crash?
    ensures LostIn(Apply(config, s, step), lost)
  {
    hide NewKey, Screen, NotPending, UploadRefused, Fresh, Due, Advance, Refs, OutcomeOf, UploadTx, StartTx, FrameTx;
    hide SubmitTx;
    hide EraseTx, SweepMarkTx, SweepFinishTx, TombstoneTx, ClaimTx, ResultTx, EraseEvidenceTx, CallbackFor;
  }

  lemma CrashLosesNoMore(config: Config, s: State, step: Step, lost: set<Key>)
    requires LostIn(s, lost) && Custody(config, s) && Enabled(config, s, step) && step.event.Crash?
    requires forall k :: !Holds(config, s.tasks[step.tid], k)
    ensures LostIn(Apply(config, s, step), lost)
  {
    hide Holds, TaskCustody, RowCustody, Refs;
    forall k | k in s.blobs && k in s.h.fate ensures s.h.fate[k] != InFlight(step.tid)
        && s.h.fate[k] != Doomed(step.tid) {
      assert Kept(config, s, k);
    }
  }

  lemma StepLosesNoMore(config: Config, s: State, step: Step, lost: set<Key>)
    requires LostIn(s, lost) && Custody(config, s) && Enabled(config, s, step)
    requires step.event.Crash? ==> forall k :: !Holds(config, s.tasks[step.tid], k)
    ensures LostIn(Apply(config, s, step), lost)
  {
    hide LostIn, Enabled, Apply, Custody;
    if step.event.Crash? {
      CrashLosesNoMore(config, s, step, lost);
    } else if IsCapture(step.event) {
      CaptureLosesNoMore(config, s, step, lost);
    } else {
      ServiceLosesNoMore(config, s, step, lost);
    }
  }

  lemma {:induction false} RunLosesNoMore(config: Config, s: State, steps: seq<Step>, lost: set<Key>)
    requires LostIn(s, lost) && Inv(config, s) && Legal(config, s, steps) && CrashesHoldNothing(config, s, steps)
    ensures LostIn(Run(config, s, steps), lost)
    decreases |steps|
  {
    hide LostIn, Enabled, Apply, Custody, LiveInv, SelfieContent, Integrity, DecisionRow, WorkInv, OutboxInv;
    hide LeaseInv, Erased;
    if steps != [] {
      StepLosesNoMore(config, s, steps[0], lost);
      Inductive(config, s, steps[0]);
      RunLosesNoMore(config, Apply(config, s, steps[0]), steps[1..], lost);
    }
  }

  /** Once the retention sweep has finished and every request has ended, no image of the verification
      is left in the store, unless a process died between a put and its commit or between a commit
      and the deletions it calls for. */
  lemma ErasureIsComplete(config: Config, s0: State, steps: seq<Step>)
    requires Init(s0) && Legal(config, s0, steps) && CrashesHoldNothing(config, s0, steps)
    requires var s := Run(config, s0, steps); s.tasks == map[] && s.row.evidenceDeleted
    ensures var s := Run(config, s0, steps);
            s.blobs == map[] && s.row.personal.None? && s.row.extracted.None? && s.row.evidence == map[]
                && s.row.live == NoLive
  {
    var s := Run(config, s0, steps);
    assert Reachable(config, s);
    ReachableInv(config, s);
    InitInv(config, s0);
    RunLosesNoMore(config, s0, steps, {});
    forall k | k in s.blobs ensures false {
      StoreIsAccountedFor(config, s, k);
    }
    hide Custody, LiveInv, Integrity, DecisionRow, WorkInv, OutboxInv, LeaseInv, CrashesHoldNothing;
  }

  // ---------------------------------------------------------------- refusals last

  /** What `pending` refuses at one time it refuses at every later time. */
  lemma RefusalLasts(row: Row, now: Time, row': Row, now': Time)
    requires Forward(row, row') && now <= now' && row.status !in {NotStarted, InProgress}
    requires NotPending(row, now).Some?
    ensures NotPending(row', now').Some?
  {
  }

  lemma {:induction false} ClockAdvances(config: Config, s: State, steps: seq<Step>)
    requires Legal(config, s, steps)
    ensures s.now <= Run(config, s, steps).now
    decreases |steps|
  {
    if steps != [] {
      StepClock(config, s, steps[0]);
      hide Enabled, Apply;
      ClockAdvances(config, Apply(config, s, steps[0]), steps[1..]);
    }
  }

  lemma StepClock(config: Config, s: State, step: Step)
    requires Enabled(config, s, step)
    ensures s.now < Apply(config, s, step).now
  {
  }

  /** Once `pending` refuses a row, at any point of any run, no challenge is started, no new frame is
      let through and no frame commits on it ever after. */
  lemma NeverPendingAgain(config: Config, s: State, steps: seq<Step>, c: Challenge, token: Token, digest: Digest,
                          arrived: Time)
    requires Reachable(config, s) && Legal(config, s, steps) && NotPending(s.row, s.now).Some?
    ensures var s' := Run(config, s, steps);
            && StartTx(s'.row, c, s'.now).Err? && FrameTx(s'.row, token, c, s'.now).Err?
            && FrameAnswer(s'.row, token, digest, arrived, s'.now).Refuse?
  {
    ReachableInv(config, s);
    assert s.row.status !in {NotStarted, InProgress};
    hide Enabled, Apply, Inv, Forward, NotPending;
    RunForward(config, s, steps);
    ClockAdvances(config, s, steps);
    var s' := Run(config, s, steps);
    RefusalLasts(s.row, s.now, s'.row, s'.now);
  }
}
