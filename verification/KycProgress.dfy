/** No row is stuck: whatever has crashed before, one more worker brings a submitted row to a verdict. */
module KycProgress {
  import opened Wrappers
  import opened KycTypes
  import opened LiveChallenge
  import opened Decision
  import opened VerificationRow
  import opened KycProtocol
  import opened KycHistory
  import opened KycErasure
  import KycOperations
  import KycSafety

  /** A worker at `tid` that has claimed the row as it is and loaded some of its images. */
  ghost predicate AtWork(s: State, tid: Tid, loaded: set<Kind>) {
    && s.row.status == Processing && s.row.evidence.Values <= s.blobs.Keys
    && tid in s.tasks && s.tasks[tid].Working? && !s.tasks[tid].asked
    && s.tasks[tid].claim == ClaimOf(s.row)
    && s.tasks[tid].images.Keys == loaded <= s.row.evidence.Keys
    && forall kind :: kind in loaded ==> s.tasks[tid].images[kind] == s.blobs[s.row.evidence[kind]]
  }

  /** The row, the store and every other task are as they were. */
  ghost predicate OnlyWorked(s: State, s': State, tid: Tid) {
    s'.row == s.row && s'.blobs == s.blobs && s'.outbox == s.outbox && s'.tasks - {tid} == s.tasks - {tid}
  }

  lemma LoadOne(config: Config, s: State, tid: Tid, loaded: set<Kind>, kind: Kind)
    requires AtWork(s, tid, loaded) && kind in s.row.evidence
    ensures var step := Step(tid, s.now + 1, Load(kind));
            && Enabled(config, s, step)
            && AtWork(Apply(config, s, step), tid, loaded + {kind}) && OnlyWorked(s, Apply(config, s, step), tid)
  {
  }

  lemma {:induction false} LoadAll(config: Config, s: State, tid: Tid, loaded: set<Kind>) returns (steps: seq<Step>)
    requires AtWork(s, tid, loaded)
    ensures Calm(config, s, steps)
    ensures AtWork(Run(config, s, steps), tid, s.row.evidence.Keys) && OnlyWorked(s, Run(config, s, steps), tid)
    decreases s.row.evidence.Keys - loaded
  {
    hide Enabled, Apply;
    if loaded == s.row.evidence.Keys {
      steps := [];
    } else {
      hide Calm, Run;
      var kind :| kind in s.row.evidence && kind !in loaded;
      LoadOne(config, s, tid, loaded, kind);
      var step := Step(tid, s.now + 1, Load(kind));
      var rest := LoadAll(config, Apply(config, s, step), tid, loaded + {kind});
      FirstThen(config, s, step, rest);
      steps := [step] + rest;
    }
  }

  /** What a worker makes of the row once it has claimed it and loaded everything. */
  ghost function AnswerFor(config: Config, row: Row, blobs: map<Key, Digest>, report: Report, today: Optical.Date)
    : Outcome
    requires row.evidence.Values <= blobs.Keys
  {
    Evaluate(config.worker, ClaimOf(row), map kind | kind in row.evidence :: blobs[row.evidence[kind]], report, today)
  }

  /** The worker has loaded everything and asked the providers if it has to. */
  ghost predicate Informed(config: Config, s: State, tid: Tid) {
    && s.row.status == Processing && s.row.evidence.Values <= s.blobs.Keys
    && tid in s.tasks && s.tasks[tid].Working? && s.tasks[tid].claim == ClaimOf(s.row)
    && s.tasks[tid].images == (map kind | kind in s.row.evidence :: s.blobs[s.row.evidence[kind]])
    && (Asks(config, s.tasks[tid].claim, s.tasks[tid].images) ==> s.tasks[tid].asked)
  }

  lemma AskIfNeeded(config: Config, s: State, tid: Tid) returns (steps: seq<Step>)
    requires AtWork(s, tid, s.row.evidence.Keys)
    ensures Calm(config, s, steps)
    ensures Informed(config, Run(config, s, steps), tid) && OnlyWorked(s, Run(config, s, steps), tid)
  {
    if Asks(config, s.tasks[tid].claim, s.tasks[tid].images) {
      var step := Step(tid, s.now + 1, Consult);
      hide Calm;
      CalmStep(config, s, step);
      steps := [step];
    } else {
      steps := [];
    }
  }

  lemma JudgeAndCommit(config: Config, s: State, tid: Tid, report: Report, today: Optical.Date)
      returns (steps: seq<Step>)
    requires Informed(config, s, tid)
    ensures Calm(config, s, steps)
    ensures var o, row := AnswerFor(config, s.row, s.blobs, report, today), Run(config, s, steps).row;
            && row.status == o.status && row.result == Some(Verdict(o.code, o.checks))
            && row.extracted == Some(o.extracted)
            && Run(config, s, steps).outbox == s.outbox + [CallbackFor(row)]
            && Run(config, s, steps).tasks == s.tasks - {tid}
  {
    hide Evaluate, Calm;
    var judge, commit := Step(tid, s.now + 1, Judge(report, today)), Step(tid, s.now + 2, CommitResult);
    var s1 := Apply(config, s, judge);
    assert s1.tasks == s.tasks[tid := Judged(Judgement(s.tasks[tid].claim, s.tasks[tid].images, report, today))];
    var s2 := Apply(config, s1, commit);
    assert s2.tasks == s.tasks - {tid};
    hide Enabled, Apply, Run;
    CalmStep(config, s1, commit);
    FirstThen(config, s, judge, [commit]);
    steps := [judge] + [commit];
  }

  lemma {:induction false} Unused(tids: set<Tid>) returns (tid: Tid)
    ensures forall t :: t in tids ==> t < tid
  {
    if tids == {} {
      tid := 0;
    } else {
      var t :| t in tids;
      var above := Unused(tids - {t});
      tid := if above <= t then t + 1 else above;
      assert tids == tids - {t} + {t};
    }
  }

  /** The row a worker gets that claims it now. */
  function ClaimedRow(row: Row, clock: Time): Row {
    row.(status := Processing, version := row.version + 1, attempts := row.attempts + 1,
         leaseUntil := Some(clock + 300_000_000))
  }

  /** When a claim is sure to succeed. */
  function ClaimTime(s: State): Time {
    if s.h.claims == [] || s.h.claims[|s.h.claims| - 1] + 300_000_000 <= s.now then s.now + 1
    else s.h.claims[|s.h.claims| - 1] + 300_000_001
  }

  lemma ClaimBegins(config: Config, s: State, tid: Tid)
    requires Reachable(config, s) && s.row.status in {Submitted, Processing} && tid !in s.tasks
    ensures s.row.evidence.Values <= s.blobs.Keys
    ensures var clock := ClaimTime(s);
            var step := Step(tid, clock, ClaimRow(clock));
            && Enabled(config, s, step)
            && var s' := Apply(config, s, step);
               && AtWork(s', tid, {}) && s'.row == ClaimedRow(s.row, clock)
               && s'.blobs == s.blobs && s'.outbox == s.outbox && s'.tasks - {tid} == s.tasks - {tid}
  {
    hide Reachable;
    var step := Step(tid, ClaimTime(s), ClaimRow(ClaimTime(s)));
    assert Enabled(config, s, step);
    hide Apply, Enabled;
    KycOperations.ClaimExactly(config, s, step);
    KycSafety.EvidenceInStore(config, s);
  }

  /** From every reachable state in SUBMITTED or PROCESSING, whatever crashed before and whatever is still
      in flight, a new worker can claim the row, load every image, ask if it has to, and commit what the
      decision makes of whatever the engines answer: a verdict that is final, with its callback. */
  lemma VerdictReachable(config: Config, s: State, report: Report, today: Optical.Date)
      returns (steps: seq<Step>, claimed: Row)
    requires Reachable(config, s) && s.row.status in {Submitted, Processing}
    ensures Legal(config, s, steps) && CrashesHoldNothing(config, s, steps)
    ensures claimed == ClaimedRow(s.row, ClaimTime(s)) && claimed.evidence.Values <= s.blobs.Keys
    ensures var o, s' := AnswerFor(config, claimed, s.blobs, report, today), Run(config, s, steps);
            && s'.row.status == o.status && s'.row.result == Some(Verdict(o.code, o.checks))
            && s'.row.extracted == Some(o.extracted)
            && s'.outbox == s.outbox + [CallbackFor(s'.row)] && s'.tasks == s.tasks
  {
    var tid := Unused(s.tasks.Keys);
    claimed := ClaimedRow(s.row, ClaimTime(s));
    hide Enabled, Apply, Run, Reachable, AtWork, Informed, CrashesHoldNothing, Legal, Evaluate;
    ClaimBegins(config, s, tid);
    var claim := Step(tid, ClaimTime(s), ClaimRow(ClaimTime(s)));
    var s1 := Apply(config, s, claim);
    var load := LoadAll(config, s1, tid, {});
    assert AtWork(Run(config, s1, load), tid, s1.row.evidence.Keys);
    var s2 := Run(config, s1, load);
    var ask := AskIfNeeded(config, s2, tid);
    var s3 := Run(config, s2, ask);
    var answer := JudgeAndCommit(config, s3, tid, report, today);
    Then(config, s2, ask, answer);
    Then(config, s1, load, ask + answer);
    FirstThen(config, s, claim, load + (ask + answer));
    steps := [claim] + (load + (ask + answer));
    assert s.tasks - {tid} == s.tasks;
  }
}
