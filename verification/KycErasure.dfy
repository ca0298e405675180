/** Erasure can always be brought about: from every reachable state the requests in flight, an erasure
    request and one sweep lead to an erased row. */
module KycErasure {
  import opened KycTypes
  import opened LiveChallenge
  import opened VerificationRow
  import opened KycProtocol
  import opened KycInvariant
  import opened KycHistory
  import StepProof

  /** A run in which no task dies that has to commit or delete a blob. */
  ghost predicate Calm(config: Config, s: State, steps: seq<Step>) {
    Legal(config, s, steps) && CrashesHoldNothing(config, s, steps)
  }

  lemma CalmStep(config: Config, s: State, step: Step)
    requires Enabled(config, s, step)
    requires step.event.Crash? ==> forall k :: !Holds(config, s.tasks[step.tid], k)
    ensures Calm(config, s, [step]) && Run(config, s, [step]) == Apply(config, s, step)
  {
    hide Enabled, Apply, Holds;
    var s' := Apply(config, s, step);
    assert [step][1..] == [];
    assert Legal(config, s', []) && CrashesHoldNothing(config, s', []) && Run(config, s', []) == s';
  }

  /** One run after another. */
  lemma {:induction false} Then(config: Config, s: State, a: seq<Step>, b: seq<Step>)
    requires Calm(config, s, a) && Calm(config, Run(config, s, a), b)
    ensures Calm(config, s, a + b) && Run(config, s, a + b) == Run(config, Run(config, s, a), b)
    decreases |a|
  {
    hide Enabled, Apply, Holds;
    if a == [] {
      assert a + b == b;
    } else {
      assert (a + b)[1..] == a[1..] + b;
      Then(config, Apply(config, s, a[0]), a[1..], b);
    }
  }

  /** A first step and what follows it. */
  lemma FirstThen(config: Config, s: State, step: Step, rest: seq<Step>)
    requires Enabled(config, s, step) && Calm(config, Apply(config, s, step), rest)
    requires step.event.Crash? ==> forall k :: !Holds(config, s.tasks[step.tid], k)
    ensures Calm(config, s, [step] + rest)
    ensures Run(config, s, [step] + rest) == Run(config, Apply(config, s, step), rest)
  {
    hide Calm, Enabled, Apply, Holds;
    CalmStep(config, s, step);
    Then(config, s, [step], rest);
  }

  // ---------------------------------------------------------------- ending the tasks in flight

  lemma CrashEnds(config: Config, s: State, tid: Tid) returns (steps: seq<Step>)
    requires tid in s.tasks && forall k :: !Holds(config, s.tasks[tid], k)
    ensures Calm(config, s, steps) && Run(config, s, steps).tasks == s.tasks - {tid}
  {
    hide Calm, Holds;
    var step := Step(tid, s.now + 1, Crash);
    CalmStep(config, s, step);
    steps := [step];
  }

  lemma CleanOne(config: Config, s: State, tid: Tid, key: Key)
    requires tid in s.tasks && s.tasks[tid].Cleaning? && key in s.tasks[tid].keys
    ensures var step := Step(tid, s.now + 1, Clean(key));
            && Enabled(config, s, step)
            && var s', rest := Apply(config, s, step), s.tasks[tid].keys - {key};
               s'.tasks == if rest == {} then s.tasks - {tid} else s.tasks[tid := Cleaning(rest)]
  {
  }

  lemma {:induction false} CleaningEnds(config: Config, s: State, tid: Tid) returns (steps: seq<Step>)
    requires tid in s.tasks && s.tasks[tid].Cleaning?
    ensures Calm(config, s, steps) && Run(config, s, steps).tasks == s.tasks - {tid}
    decreases s.tasks[tid].keys
  {
    hide Enabled, Apply, Calm, Run;
    var keys := s.tasks[tid].keys;
    if keys == {} {
      steps := CrashEnds(config, s, tid);
    } else {
      var key :| key in keys;
      var step := Step(tid, s.now + 1, Clean(key));
      CleanOne(config, s, tid, key);
      if keys - {key} == {} {
        CalmStep(config, s, step);
        steps := [step];
      } else {
        var rest := CleaningEnds(config, Apply(config, s, step), tid);
        FirstThen(config, s, step, rest);
        steps := [step] + rest;
        assert s.tasks[tid := Cleaning(keys - {key})] - {tid} == s.tasks - {tid};
      }
    }
  }

  /** The task ends, or has only deletions left. */
  ghost predicate Closing(s: State, s': State, tid: Tid) {
    s'.tasks == s.tasks - {tid} || exists keys :: s'.tasks == s.tasks[tid := Cleaning(keys)]
  }

  lemma CommitUploadCloses(config: Config, s: State, tid: Tid)
    requires tid in s.tasks && s.tasks[tid].Uploaded?
    ensures var step := Step(tid, s.now + 1, CommitUpload);
            Enabled(config, s, step) && Closing(s, Apply(config, s, step), tid)
  {
    hide UploadTx;
  }

  lemma CommitFrameCloses(config: Config, s: State, tid: Tid)
    requires tid in s.tasks && s.tasks[tid].Committing?
    ensures var step := Step(tid, s.now + 1, CommitFrame);
            Enabled(config, s, step) && Closing(s, Apply(config, s, step), tid)
  {
    hide FrameTx, Advance, NewKey;
  }

  /** Every task can end without losing a blob. */
  lemma TaskEnds(config: Config, s: State, tid: Tid) returns (steps: seq<Step>)
    requires tid in s.tasks
    ensures Calm(config, s, steps) && Run(config, s, steps).tasks == s.tasks - {tid}
  {
    hide Enabled, Apply, Calm, Run, FrameKeys;
    var task := s.tasks[tid];
    if task.Cleaning? {
      steps := CleaningEnds(config, s, tid);
    } else if task.Uploaded? || task.Committing? {
      var step := Step(tid, s.now + 1, if task.Uploaded? then CommitUpload else CommitFrame);
      if task.Uploaded? {
        CommitUploadCloses(config, s, tid);
      } else {
        CommitFrameCloses(config, s, tid);
      }
      var s' := Apply(config, s, step);
      if s'.tasks == s.tasks - {tid} {
        CalmStep(config, s, step);
        steps := [step];
      } else {
        var keys :| s'.tasks == s.tasks[tid := Cleaning(keys)];
        var rest := CleaningEnds(config, s', tid);
        FirstThen(config, s, step, rest);
        steps := [step] + rest;
        assert s.tasks[tid := Cleaning(keys)] - {tid} == s.tasks - {tid};
      }
    } else {
      steps := CrashEnds(config, s, tid);
    }
  }

  lemma {:induction false} AllTasksEnd(config: Config, s: State) returns (steps: seq<Step>)
    ensures Calm(config, s, steps) && Run(config, s, steps).tasks == map[]
    decreases s.tasks.Keys
  {
    hide Enabled, Apply;
    if s.tasks == map[] {
      steps := [];
    } else {
      hide Calm, Run;
      var tid :| tid in s.tasks;
      var first := TaskEnds(config, s, tid);
      var s' := Run(config, s, first);
      assert tid !in s'.tasks;
      var rest := AllTasksEnd(config, s');
      Then(config, s, first, rest);
      steps := first + rest;
    }
  }

  // ---------------------------------------------------------------- the request and the sweep

  ghost predicate Settles(s: State) {
    s.tasks == map[] && s.row.evidenceDeleted
  }

  lemma DeleteOne(config: Config, s: State, tid: Tid, key: Key)
    requires tid in s.tasks && s.tasks[tid].Pruning? && key in s.tasks[tid].remaining
    ensures var step := Step(tid, s.now + 1, DeletePruned(key));
            && Enabled(config, s, step)
            && Apply(config, s, step).tasks
               == s.tasks[tid := Pruning(s.tasks[tid].keys, s.tasks[tid].remaining - {key})]
  {
  }

  lemma {:induction false} PruningEnds(config: Config, s: State, tid: Tid) returns (steps: seq<Step>)
    requires tid in s.tasks && s.tasks[tid].Pruning? && s.tasks == map[tid := s.tasks[tid]]
    ensures Calm(config, s, steps) && Settles(Run(config, s, steps))
    decreases s.tasks[tid].remaining
  {
    hide Calm, Run;
    var Pruning(keys, remaining) := s.tasks[tid];
    if remaining == {} {
      var step := Step(tid, s.now + 1, FinishPrune);
      CalmStep(config, s, step);
      steps := [step];
    } else {
      hide Enabled, Apply;
      var key :| key in remaining;
      var step := Step(tid, s.now + 1, DeletePruned(key));
      DeleteOne(config, s, tid, key);
      var rest := PruningEnds(config, Apply(config, s, step), tid);
      FirstThen(config, s, step, rest);
      steps := [step] + rest;
    }
  }

  /** An erasure request at rest, the selection of the row and its tombstone. */
  lemma SweepBegins(config: Config, s: State)
    requires s.tasks == map[] && !s.row.evidenceDeleted
    ensures var erase, select, mark := Step(0, s.now + 1, Erase), Step(0, s.now + 2, SelectDue),
              Step(0, s.now + 3, Tombstone);
            && Enabled(config, s, erase)
            && var s1 := Apply(config, s, erase);
               && Enabled(config, s1, select)
               && var s2 := Apply(config, s1, select);
                  && Enabled(config, s2, mark)
                  && var s3 := Apply(config, s2, mark);
                     0 in s3.tasks && s3.tasks[0].Pruning? && s3.tasks == map[0 := s3.tasks[0]]
  {
    hide Refs;
  }

  lemma RestIsSwept(config: Config, s: State) returns (steps: seq<Step>)
    requires s.tasks == map[]
    ensures Calm(config, s, steps) && Settles(Run(config, s, steps))
  {
    if s.row.evidenceDeleted {
      steps := [];
    } else {
      hide Enabled, Apply, Calm, Run;
      var erase, select, mark := Step(0, s.now + 1, Erase), Step(0, s.now + 2, SelectDue),
        Step(0, s.now + 3, Tombstone);
      SweepBegins(config, s);
      var s1 := Apply(config, s, erase);
      var s2 := Apply(config, s1, select);
      steps := PruningEnds(config, Apply(config, s2, mark), 0);
      FirstThen(config, s2, mark, steps);
      FirstThen(config, s1, select, [mark] + steps);
      FirstThen(config, s, erase, [select] + ([mark] + steps));
      steps := [erase] + ([select] + ([mark] + steps));
    }
  }

  // ---------------------------------------------------------------- what is left

  lemma NothingElseIsLeft(config: Config, s: State, lost: set<Key>)
    requires Inv(config, s) && Settles(s) && LostIn(s, lost)
    ensures s.blobs.Keys <= lost && s.row.personal.None? && s.row.extracted.None? && s.row.evidence == map[]
            && s.row.live == NoLive
  {
    forall k | k in s.blobs ensures k in lost {
      assert Kept(config, s, k);
    }
  }

  /** From every reachable state some continuation erases the row, and it loses no blob: the requests in
      flight end, the user asks for erasure, one sweep runs. Nothing but blobs an earlier crash had orphaned
      is then left in the store. */
  lemma ErasureReachable(config: Config, s: State) returns (steps: seq<Step>)
    requires Reachable(config, s)
    ensures Legal(config, s, steps) && CrashesHoldNothing(config, s, steps)
    ensures var s' := Run(config, s, steps);
            && s'.tasks == map[] && s'.row.evidenceDeleted && s'.row.evidence == map[] && s'.row.live == NoLive
            && s'.row.personal.None? && s'.row.extracted.None?
            && forall k :: k in s'.blobs ==> k in s.blobs && k in s.h.fate && s.h.fate[k] == Lost
  {
    hide Reachable, Inv, Run, CrashesHoldNothing, Legal;
    var first := AllTasksEnd(config, s);
    var rest := RestIsSwept(config, Run(config, s, first));
    Then(config, s, first, rest);
    steps := first + rest;
    var lost := set k | k in s.blobs && k in s.h.fate && s.h.fate[k] == Lost;
    StepProof.ReachableInv(config, s);
    StepProof.InvAlongRun(config, s, steps);
    RunLosesNoMore(config, s, steps, lost);
    NothingElseIsLeft(config, Run(config, s, steps), lost);
  }
}
