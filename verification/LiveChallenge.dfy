/** The camera challenge of live_capture.py as a state machine: which frames are let
    through (`Screen`) and what an analysed frame makes of the document (`Advance`). */
module LiveChallenge {
  import opened Wrappers
  import opened KycTypes

  const CHALLENGE_LIFETIME: Time := 120 * SECOND
  const STEP_LIFETIME: Time := 20 * SECOND
  const COMPLETED_LIFETIME: Time := 600 * SECOND
  const MIN_FRAME_GAP: Time := 350_000
  const MAX_FRAMES := 80
  const TOTAL_STEPS := 9

  datatype LiveConfig = LiveConfig(centerTolerance: real, turnThreshold: real)

  /** One analysed frame: the request (token, digest, arrival time), the analyser's answer,
      and the random choices made while the next document is computed. */
  datatype Frame = Frame(
    token: Token,
    digest: Digest,
    now: Time,
    check: Check,
    ratio: Option<real>,
    nextToken: Token,
    nextKey: Key,
    turnLeft: bool)

  datatype ReplyAction = Prompt(action: Action) | CompleteAction

  datatype Reply = Reply(
    token: Token,
    action: ReplyAction,
    step: nat,
    expiresAt: Time,
    complete: bool,
    feedback: Feedback)

  function MakeReply(c: Challenge, feedback: Feedback): Reply {
    Reply(c.token, if c.complete then CompleteAction else Prompt(c.action), c.step, c.deadline,
          c.complete, if c.complete then Done else feedback)
  }

  /** The document `start` seals into the row. */
  function Fresh(token: Token, now: Time): Challenge {
    Challenge(token, Center, 0, now + CHALLENGE_LIFETIME, now + STEP_LIFETIME, false, 0, 0, [], 0,
              None, false, None, FollowPrompt, 0)
  }

  datatype Gate = Refuse(error: Error) | Acknowledge(reply: Reply) | Analyze

  /** The checks `frame` makes on the document it read, before any image is analysed. */
  function Screen(live: Live, token: Token, digest: Digest, now: Time): Gate {
    match live
    case NoLive => Refuse(LiveChallengeExpired)
    case MarkOnly => Refuse(KeyMissing)
    case Running(c) =>
      if now > c.deadline || c.failed then Refuse(LiveChallengeExpired)
      else if c.last == Some((token, digest)) then Acknowledge(MakeReply(c, c.feedback))
      else if c.complete || token != c.token then Refuse(LiveChallengeConflict)
      else if now > c.stepDeadline || c.frames >= MAX_FRAMES then Refuse(LiveChallengeExpired)
      else if now - c.lastAt < MIN_FRAME_GAP then Refuse(LiveCaptureTooFast)
      else if digest in c.hashes then Refuse(LiveFrameReplay)
      else Analyze
  }

  predicate Matches(config: LiveConfig, action: Action, check: Check, ratio: Option<real>) {
    check == Passed && ratio.Some? &&
    match action
    case Center => -config.centerTolerance <= ratio.value <= config.centerTolerance
    case Left => ratio.value >= config.turnThreshold
    case Right => ratio.value <= -config.turnThreshold
  }

  predicate Hit(config: LiveConfig, c: Challenge, f: Frame) {
    Matches(config, c.action, f.check, f.ratio)
  }

  /** The first matching frame of a challenge is stored as its reference selfie. */
  function NewKey(config: LiveConfig, c: Challenge, f: Frame): Option<Key> {
    if Hit(config, c, f) && c.selfieKey.None? then Some(f.nextKey) else None
  }

  function ActionFor(step: nat, turnLeft: bool): Action {
    if step % 2 == 0 then Center else if turnLeft then Left else Right
  }

  /** The document after an analysed frame. */
  function Advance(config: LiveConfig, c: Challenge, f: Frame): Challenge {
    var hit := Hit(config, c, f);
    var passedStep := hit && c.hits + 1 >= 2;
    var step := if passedStep then c.step + 1 else c.step;
    Challenge(
      f.nextToken,
      if passedStep then ActionFor(step, f.turnLeft) else c.action,
      step,
      c.deadline,
      if passedStep then f.now + STEP_LIFETIME else c.stepDeadline,
      if passedStep then step == TOTAL_STEPS else c.complete,
      if passedStep || !hit then 0 else c.hits + 1,
      c.frames + 1,
      c.hashes + [f.digest],
      f.now,
      if NewKey(config, c, f).Some? then NewKey(config, c, f) else c.selfieKey,
      f.check == Failed,
      Some((f.token, f.digest)),
      if passedStep then FollowPrompt
      else if hit then HoldStill
      else if f.check == Unavailable then FaceNotClear
      else FollowPrompt,
      if passedStep && step == TOTAL_STEPS then f.now else c.completedAt)
  }

  // ---------------------------------------------------------------- chains of committed frames

  /** The document after the frames of `run`, one after the other. */
  function Replay(config: LiveConfig, c: Challenge, run: seq<Frame>): Challenge {
    if run == [] then c
    else Advance(config, Replay(config, c, run[..|run| - 1]), run[|run| - 1])
  }

  /** Every frame passed the screening on exactly the document its predecessors left. */
  ghost predicate Chain(config: LiveConfig, c: Challenge, run: seq<Frame>) {
    run != [] ==>
      && Chain(config, c, run[..|run| - 1])
      && Screen(Running(Replay(config, c, run[..|run| - 1])),
                run[|run| - 1].token, run[|run| - 1].digest, run[|run| - 1].now) == Analyze
  }

  lemma {:induction false} ChainPrefix(config: LiveConfig, c: Challenge, run: seq<Frame>, n: nat)
    requires Chain(config, c, run) && n <= |run|
    ensures Chain(config, c, run[..n])
    decreases |run|
  {
    if n == |run| {
      assert run[..n] == run;
    } else {
      assert run[..|run| - 1][..n] == run[..n];
      ChainPrefix(config, c, run[..|run| - 1], n);
    }
  }

  /** Frame `i` of a chain was screened, and let through, on the replay of the frames before it. */
  lemma {:induction false} ChainAt(config: LiveConfig, c: Challenge, run: seq<Frame>, i: nat)
    requires Chain(config, c, run) && i < |run|
    ensures Chain(config, c, run[..i])
    ensures Screen(Running(Replay(config, c, run[..i])), run[i].token, run[i].digest, run[i].now) == Analyze
    ensures Replay(config, c, run[..i + 1]) == Advance(config, Replay(config, c, run[..i]), run[i])
  {
    ChainPrefix(config, c, run, i + 1);
    assert run[..i + 1][..i] == run[..i];
  }

  /** Appending to a chain. */
  lemma {:induction false} ChainSnoc(config: LiveConfig, c: Challenge, run: seq<Frame>, f: Frame)
    requires Chain(config, c, run)
    requires Screen(Running(Replay(config, c, run)), f.token, f.digest, f.now) == Analyze
    ensures Chain(config, c, run + [f])
    ensures Replay(config, c, run + [f]) == Advance(config, Replay(config, c, run), f)
  {
    assert (run + [f])[..|run|] == run;
  }

  // ---------------------------------------------------------------- the frames as a history

  function Abs(x: real): real {
    if x < 0.0 then -x else x
  }

  /** A genuine face in the pose that was asked for. */
  predicate Answers(config: LiveConfig, prompt: Action, f: Frame) {
    && f.check == Passed && f.ratio.Some?
    && (prompt == Center ==> Abs(f.ratio.value) <= config.centerTolerance)
    && (prompt == Left ==> f.ratio.value >= config.turnThreshold)
    && (prompt == Right ==> -f.ratio.value >= config.turnThreshold)
  }

  /** Frame `i` answered what was prompted when it was taken. */
  predicate Answered(config: LiveConfig, run: seq<Frame>, i: nat)
    requires i < |run|
    decreases i, 2
  {
    Answers(config, PromptAfter(config, run[..i]), run[i])
  }

  /** The frames that passed a step: the second of two neighbours that both answered, the first of
      which had not passed one already. */
  function Passing(config: LiveConfig, run: seq<Frame>): (p: seq<nat>)
    ensures forall i :: 0 <= i < |p| ==> p[i] < |run|
    decreases |run|, 0
  {
    if |run| < 2 then []
    else
      var n := |run| - 1;
      var p := Passing(config, run[..n]);
      if Answered(config, run, n - 1) && Answered(config, run, n) && n - 1 !in p then p + [n] else p
  }

  /** What is prompted after `run`: facing the camera and a turn by turns, the side as drawn when the
      last step was passed. */
  function PromptAfter(config: LiveConfig, run: seq<Frame>): Action
    decreases |run|, 1
  {
    var p := Passing(config, run);
    if |p| % 2 == 0 then Center else if run[p[|p| - 1]].turnLeft then Left else Right
  }

  /** When the current step began: at the start, or with the last frame that passed a step. */
  function StepBegan(config: LiveConfig, at: Time, run: seq<Frame>): Time {
    var p := Passing(config, run);
    if p == [] then at else run[p[|p| - 1]].now
  }

  /** The key of the first frame that answered. */
  function FirstAnswer(config: LiveConfig, run: seq<Frame>): Option<Key> {
    if run == [] then None
    else
      var n := |run| - 1;
      if FirstAnswer(config, run[..n]).Some? then FirstAnswer(config, run[..n])
      else if Answered(config, run, n) then Some(run[n].nextKey) else None
  }

  function LastFeedback(config: LiveConfig, run: seq<Frame>): Feedback {
    if run == [] || |run| - 1 in Passing(config, run) then FollowPrompt
    else if Answered(config, run, |run| - 1) then HoldStill
    else if run[|run| - 1].check == Unavailable then FaceNotClear
    else FollowPrompt
  }

  function Digests(run: seq<Frame>): (d: seq<Digest>)
    ensures |d| == |run| && forall i :: 0 <= i < |run| ==> d[i] == run[i].digest
  {
    seq(|run|, i requires 0 <= i < |run| => run[i].digest)
  }

  function CurrentToken(token: Token, run: seq<Frame>): Token {
    if run == [] then token else run[|run| - 1].nextToken
  }

  /** The document as the history of its challenge. */
  function DocumentOf(config: LiveConfig, token: Token, at: Time, run: seq<Frame>): Challenge {
    var n, p := |run|, Passing(config, run);
    Challenge(
      CurrentToken(token, run),
      PromptAfter(config, run),
      |p|,
      at + 120_000_000,
      StepBegan(config, at, run) + 20_000_000,
      |p| == 9,
      if run != [] && Answered(config, run, n - 1) && n - 1 !in p then 1 else 0,
      n,
      Digests(run),
      if run == [] then 0 else run[n - 1].now,
      FirstAnswer(config, run),
      run != [] && run[n - 1].check == Failed,
      if run == [] then None else Some((run[n - 1].token, run[n - 1].digest)),
      LastFeedback(config, run),
      if |p| == 9 then StepBegan(config, at, run) else 0)
  }

  lemma AnswersIsMatch(config: LiveConfig, action: Action, f: Frame)
    ensures Answers(config, action, f) <==> Matches(config, action, f.check, f.ratio)
  {
  }

  lemma PassingSnoc(config: LiveConfig, run: seq<Frame>, f: Frame)
    ensures Answered(config, run + [f], |run|) <==> Answers(config, PromptAfter(config, run), f)
    ensures run != [] ==>
              (Answered(config, run + [f], |run| - 1) <==> Answered(config, run, |run| - 1))
    ensures var p, n := Passing(config, run), |run|;
            Passing(config, run + [f])
            == if n > 0 && Answered(config, run, n - 1) && n - 1 !in p && Answers(config, PromptAfter(config, run), f)
               then p + [n] else p
    ensures FirstAnswer(config, run + [f])
         == if FirstAnswer(config, run).Some? then FirstAnswer(config, run)
            else if Answers(config, PromptAfter(config, run), f) then Some(f.nextKey) else None
  {
    var all := run + [f];
    hide Answers;
    assert all[..|run|] == run;
    if run != [] {
      assert all[..|run| - 1] == run[..|run| - 1];
    }
  }

  /** The document `frame` keeps entry by entry is the history of the frames it has accepted. */
  lemma {:induction false} DocumentIsHistory(config: LiveConfig, token: Token, at: Time, run: seq<Frame>)
    requires Chain(config, Fresh(token, at), run)
    ensures Replay(config, Fresh(token, at), run) == DocumentOf(config, token, at, run)
    decreases |run|
  {
    hide Answers, Matches;
    if run == [] {
      assert Digests(run) == [];
    } else {
      var init, f := run[..|run| - 1], run[|run| - 1];
      assert run == init + [f];
      DocumentIsHistory(config, token, at, init);
      PassingSnoc(config, init, f);
      DocumentStep(config, token, at, init, f);
    }
  }

  lemma PromptSnoc(config: LiveConfig, at: Time, run: seq<Frame>, f: Frame)
    ensures var p, q := Passing(config, run), Passing(config, run + [f]);
            && (q == p || q == p + [|run|])
            && (q == p ==>
                PromptAfter(config, run + [f]) == PromptAfter(config, run)
                && StepBegan(config, at, run + [f]) == StepBegan(config, at, run))
            && (q == p + [|run|] ==>
                PromptAfter(config, run + [f]) == ActionFor(|q|, f.turnLeft)
                && StepBegan(config, at, run + [f]) == f.now)
            && |run| !in p
  {
    hide Answers, Passing, Answered;
    PassingSnoc(config, run, f);
    var p := Passing(config, run);
    assert forall i :: 0 <= i < |p| ==> (run + [f])[p[i]] == run[p[i]];
  }

  lemma DocumentStep(config: LiveConfig, token: Token, at: Time, run: seq<Frame>, f: Frame)
    requires Screen(Running(DocumentOf(config, token, at, run)), f.token, f.digest, f.now) == Analyze
    ensures Advance(config, DocumentOf(config, token, at, run), f) == DocumentOf(config, token, at, run + [f])
  {
    hide Answers, Matches, Passing, FirstAnswer, Answered, PromptAfter, StepBegan, ActionFor;
    PassingSnoc(config, run, f);
    PromptSnoc(config, at, run, f);
    AnswersIsMatch(config, PromptAfter(config, run), f);
    assert Digests(run + [f]) == Digests(run) + [f.digest];
  }

  /** What `frame` answers to a request before it analyses anything, from the frames accepted so far:
      120 s for the challenge, 20 s for each step, 80 frames, 0.35 s between two of them. */
  function AnswerOf(config: LiveConfig, token: Token, at: Time, run: seq<Frame>, t: Token, digest: Digest, now: Time)
    : Gate
  {
    var n, p := |run|, Passing(config, run);
    if now > at + 120_000_000 || (n > 0 && run[n - 1].check == Failed) then Refuse(LiveChallengeExpired)
    else if n > 0 && t == run[n - 1].token && digest == run[n - 1].digest then
      Acknowledge(Reply(run[n - 1].nextToken, if |p| == 9 then CompleteAction else Prompt(PromptAfter(config, run)),
                        |p|, at + 120_000_000, |p| == 9, if |p| == 9 then Done else LastFeedback(config, run)))
    else if |p| == 9 || t != CurrentToken(token, run) then Refuse(LiveChallengeConflict)
    else if now > StepBegan(config, at, run) + 20_000_000 || n >= 80 then Refuse(LiveChallengeExpired)
    else if now - (if n == 0 then 0 else run[n - 1].now) < 350_000 then Refuse(LiveCaptureTooFast)
    else if exists i :: 0 <= i < n && run[i].digest == digest then Refuse(LiveFrameReplay)
    else Analyze
  }

  /** The answers of `frame` are those of the history. */
  lemma AnswersFromHistory(config: LiveConfig, token: Token, at: Time, run: seq<Frame>, t: Token, digest: Digest,
                           now: Time)
    requires Chain(config, Fresh(token, at), run)
    ensures Screen(Running(Replay(config, Fresh(token, at), run)), t, digest, now)
         == AnswerOf(config, token, at, run, t, digest, now)
  {
    hide Replay, Chain, Passing, PromptAfter, StepBegan, LastFeedback, FirstAnswer, Answered;
    DocumentIsHistory(config, token, at, run);
    var hashes := Digests(run);
    if exists i :: 0 <= i < |run| && run[i].digest == digest {
      var i :| 0 <= i < |run| && run[i].digest == digest;
      assert hashes[i] in hashes;
    }
  }

  /** Every accepted frame arrived within 20 s of the start of its step. */
  ghost predicate InTime(config: LiveConfig, at: Time, run: seq<Frame>) {
    forall i :: 0 <= i < |run| ==> run[i].now <= StepBegan(config, at, run[..i]) + 20_000_000
  }

  lemma StepsAreTimely(config: LiveConfig, token: Token, at: Time, run: seq<Frame>)
    requires Chain(config, Fresh(token, at), run)
    ensures InTime(config, at, run)
  {
    hide Replay, Chain, Passing, PromptAfter, StepBegan, LastFeedback, Screen;
    forall i | 0 <= i < |run| ensures run[i].now <= StepBegan(config, at, run[..i]) + 20_000_000 {
      ChainAt(config, Fresh(token, at), run, i);
      AnswersFromHistory(config, token, at, run[..i], run[i].token, run[i].digest, run[i].now);
    }
  }

  ghost predicate Distinct<T>(s: seq<T>) {
    forall i, j :: 0 <= i < j < |s| ==> s[i] != s[j]
  }

  /** What every reachable document satisfies. */
  ghost predicate Sound(c: Challenge) {
    && c.frames == |c.hashes| <= MAX_FRAMES
    && Distinct(c.hashes)
    && c.hits <= 1
    && 2 * c.step + c.hits <= c.frames
    && c.step <= TOTAL_STEPS
    && (c.complete <==> c.step == TOTAL_STEPS)
    && (c.complete ==> c.hits == 0)
    && (c.step + c.hits > 0 ==> c.selfieKey.Some?)
    && (c.step % 2 == 0 <==> c.action == Center)
  }

  lemma SoundStep(config: LiveConfig, c: Challenge, f: Frame)
    requires Sound(c) && Screen(Running(c), f.token, f.digest, f.now) == Analyze
    ensures Sound(Advance(config, c, f))
  {
    assert c.hits + 1 >= 2 ==> c.hits == 1;
  }

  lemma {:induction false} ChainSound(config: LiveConfig, c: Challenge, run: seq<Frame>)
    requires Sound(c) && Chain(config, c, run)
    ensures Sound(Replay(config, c, run))
    decreases |run|
  {
    if run != [] {
      ChainSound(config, c, run[..|run| - 1]);
      SoundStep(config, Replay(config, c, run[..|run| - 1]), run[|run| - 1]);
    }
  }

  /** Every reachable document of a challenge: the frame count, the step and the deadline. */
  lemma {:induction false} ChainInvariant(config: LiveConfig, token: Token, at: Time, run: seq<Frame>)
    requires Chain(config, Fresh(token, at), run)
    ensures var c := Replay(config, Fresh(token, at), run);
            Sound(c) && c.frames == |run| && c.deadline == at + 120_000_000
    decreases |run|
  {
    ChainSound(config, Fresh(token, at), run);
    if run != [] {
      ChainInvariant(config, token, at, run[..|run| - 1]);
    }
  }

  /** Frames `i` and `i + 1` both matched the pose prompted for step `j`, and the second one passed it. */
  ghost predicate PassedBy(config: LiveConfig, c: Challenge, run: seq<Frame>, j: nat, i: nat) {
    && i + 1 < |run|
    && var before, between := Replay(config, c, run[..i]), Replay(config, c, run[..i + 1]);
    && before.step == between.step == j
    && before.action == between.action
    && Hit(config, before, run[i])
    && Hit(config, between, run[i + 1])
    && Replay(config, c, run[..i + 2]).step == j + 1
  }

  lemma PassedByExtends(config: LiveConfig, c: Challenge, run: seq<Frame>, f: Frame, j: nat, i: nat)
    requires PassedBy(config, c, run, j, i)
    ensures PassedBy(config, c, run + [f], j, i)
  {
    assert (run + [f])[..i] == run[..i];
    assert (run + [f])[..i + 1] == run[..i + 1];
    assert (run + [f])[..i + 2] == run[..i + 2];
  }

  /** With one hit on the clock, the last frame was a hit on the current step. */
  lemma {:induction false} PendingHit(config: LiveConfig, token: Token, at: Time, run: seq<Frame>)
    requires Chain(config, Fresh(token, at), run)
    requires Replay(config, Fresh(token, at), run).hits == 1
    ensures run != []
    ensures var c, n := Fresh(token, at), |run| - 1;
            && Hit(config, Replay(config, c, run[..n]), run[n])
            && Replay(config, c, run[..n]).step == Replay(config, c, run).step
            && Replay(config, c, run[..n]).action == Replay(config, c, run).action
  {
    if run != [] {
      ChainInvariant(config, token, at, run[..|run| - 1]);
    }
  }

  /** Every step below the current one was passed by two consecutive matching frames. */
  lemma {:induction false} StepsWerePassed(config: LiveConfig, token: Token, at: Time, run: seq<Frame>, j: nat)
    returns (i: nat)
    requires Chain(config, Fresh(token, at), run)
    requires j < Replay(config, Fresh(token, at), run).step
    ensures PassedBy(config, Fresh(token, at), run, j, i)
    decreases |run|
  {
    var c, n := Fresh(token, at), |run| - 1;
    var prefix := run[..n];
    var before := Replay(config, c, prefix);
    assert run == prefix + [run[n]];
    ChainInvariant(config, token, at, prefix);
    if j < before.step {
      i := StepsWerePassed(config, token, at, prefix, j);
      PassedByExtends(config, c, prefix, run[n], j, i);
    } else {
      PendingHit(config, token, at, prefix);
      i := n - 1;
      assert run[..i] == prefix[..i];
      assert run[..i + 1] == prefix;
      assert run[..i + 2] == run;
    }
  }

  /** Frame `i` is the first of the run that matched its prompt, and the prompt was "center". */
  ghost predicate FirstCentredMatch(config: LiveConfig, c: Challenge, run: seq<Frame>, i: nat) {
    && i < |run|
    && Replay(config, c, run[..i]).action == Center
    && Hit(config, Replay(config, c, run[..i]), run[i])
    && forall k :: 0 <= k < i ==> !Hit(config, Replay(config, c, run[..k]), run[k])
  }

  lemma {:induction false} NothingMatchedYet(config: LiveConfig, token: Token, at: Time, run: seq<Frame>, k: nat)
    requires Chain(config, Fresh(token, at), run)
    requires Replay(config, Fresh(token, at), run).selfieKey.None?
    requires k < |run|
    ensures !Hit(config, Replay(config, Fresh(token, at), run[..k]), run[k])
    decreases |run|
  {
    var n := |run| - 1;
    if k < n {
      assert run[..n][..k] == run[..k];
      NothingMatchedYet(config, token, at, run[..n], k);
    }
  }

  lemma FirstMatchExtends(config: LiveConfig, c: Challenge, run: seq<Frame>, i: nat)
    requires run != [] && FirstCentredMatch(config, c, run[..|run| - 1], i)
    ensures FirstCentredMatch(config, c, run, i)
  {
    hide Hit, Replay;
    var prefix := run[..|run| - 1];
    forall k | 0 <= k <= i ensures prefix[..k] == run[..k] && prefix[k] == run[k] {
    }
  }

  lemma AdvanceSetsReference(config: LiveConfig, before: Challenge, f: Frame)
    requires Sound(before) && before.selfieKey.None? && Advance(config, before, f).selfieKey.Some?
    ensures Hit(config, before, f) && before.action == Center && Advance(config, before, f).selfieKey == Some(f.nextKey)
  {
  }

  /** The frame that sets the reference matched the first prompt. */
  lemma ReferenceIsSet(config: LiveConfig, token: Token, at: Time, run: seq<Frame>)
    requires run != [] && Chain(config, Fresh(token, at), run)
    requires Replay(config, Fresh(token, at), run[..|run| - 1]).selfieKey.None?
    requires Replay(config, Fresh(token, at), run).selfieKey.Some?
    ensures var before := Replay(config, Fresh(token, at), run[..|run| - 1]);
            Hit(config, before, run[|run| - 1]) && before.action == Center
    ensures Replay(config, Fresh(token, at), run).selfieKey == Some(run[|run| - 1].nextKey)
  {
    hide Hit, Advance, Sound, Screen;
    ChainInvariant(config, token, at, run[..|run| - 1]);
    AdvanceSetsReference(config, Replay(config, Fresh(token, at), run[..|run| - 1]), run[|run| - 1]);
  }

  /** The reference selfie is the first frame that matched, taken while "center" was prompted. */
  lemma {:induction false} SelfieIsFirstMatch(config: LiveConfig, token: Token, at: Time, run: seq<Frame>)
    returns (i: nat)
    requires Chain(config, Fresh(token, at), run)
    requires Replay(config, Fresh(token, at), run).selfieKey.Some?
    ensures FirstCentredMatch(config, Fresh(token, at), run, i)
    ensures Replay(config, Fresh(token, at), run).selfieKey == Some(run[i].nextKey)
    decreases |run|
  {
    hide Hit;
    var c, n := Fresh(token, at), |run| - 1;
    var before := Replay(config, c, run[..n]);
    if before.selfieKey.Some? {
      i := SelfieIsFirstMatch(config, token, at, run[..n]);
      FirstMatchExtends(config, c, run, i);
    } else {
      i := n;
      ReferenceIsSet(config, token, at, run);
      hide Replay;
      forall k | 0 <= k < i ensures !Hit(config, Replay(config, c, run[..k]), run[k]) {
        assert run[..n][..k] == run[..k];
        NothingMatchedYet(config, token, at, run[..n], k);
      }
    }
  }

  /** Arrivals are spaced, so many frames take long. */
  lemma {:induction false} FramesAreSpaced(config: LiveConfig, token: Token, at: Time, run: seq<Frame>)
    requires run != [] && Chain(config, Fresh(token, at), run)
    ensures run[|run| - 1].now - run[0].now >= (|run| - 1) * 350_000
    ensures run[|run| - 1].now <= at + 120_000_000
    ensures Replay(config, Fresh(token, at), run).lastAt == run[|run| - 1].now
    decreases |run|
  {
    ChainInvariant(config, token, at, run[..|run| - 1]);
    if |run| > 1 {
      FramesAreSpaced(config, token, at, run[..|run| - 1]);
    }
  }

  ghost predicate StepPassed(config: LiveConfig, c: Challenge, run: seq<Frame>, j: nat) {
    exists i: nat :: PassedBy(config, c, run, j, i)
  }

  /** `key` names the image `content` of the run's first match, taken facing the camera. */
  ghost predicate ReferenceSelfie(config: LiveConfig, c: Challenge, run: seq<Frame>, key: Key, content: Digest) {
    exists i: nat :: FirstCentredMatch(config, c, run, i) && run[i].nextKey == key && run[i].digest == content
  }

  /** A completed capture: between 18 and 80 different frames, at least 17 gaps long, inside the
      120 s from the start and each inside the 20 s of its step, the nine steps passed by two consecutive
      matches each, and `key` names the image of the run's first match. */
  ghost predicate GenuineCapture(config: LiveConfig, token: Token, at: Time, run: seq<Frame>, key: Key,
                                 content: Digest) {
    var c := Fresh(token, at);
    && 18 <= |run| <= 80
    && (forall i, j :: 0 <= i < j < |run| ==> run[i].digest != run[j].digest)
    && run[|run| - 1].now - run[0].now >= 17 * 350_000
    && run[|run| - 1].now <= at + 120_000_000
    && InTime(config, at, run)
    && |Passing(config, run)| == 9
    && (forall j: nat | j < 9 :: StepPassed(config, c, run, j))
    && ReferenceSelfie(config, c, run, key, content)
  }

  lemma {:induction false} HashesAreTheFrames(config: LiveConfig, token: Token, at: Time, run: seq<Frame>, k: nat)
    requires Chain(config, Fresh(token, at), run) && k < |run|
    ensures |Replay(config, Fresh(token, at), run).hashes| == |run|
    ensures Replay(config, Fresh(token, at), run).hashes[k] == run[k].digest
    decreases |run|
  {
    var n := |run| - 1;
    ChainInvariant(config, token, at, run);
    ChainInvariant(config, token, at, run[..n]);
    if k < n {
      HashesAreTheFrames(config, token, at, run[..n], k);
    }
  }

  /** A document becomes complete only at the end of a genuine capture. */
  lemma CompletedChallenge(config: LiveConfig, token: Token, at: Time, run: seq<Frame>)
    returns (i: nat)
    requires Chain(config, Fresh(token, at), run)
    requires Replay(config, Fresh(token, at), run).complete
    ensures i < |run| && Replay(config, Fresh(token, at), run).selfieKey == Some(run[i].nextKey)
    ensures GenuineCapture(config, token, at, run, run[i].nextKey, run[i].digest)
  {
    var c := Fresh(token, at);
    ChainInvariant(config, token, at, run);
    FramesAreSpaced(config, token, at, run);
    forall i, j | 0 <= i < j < |run| ensures run[i].digest != run[j].digest {
      HashesAreTheFrames(config, token, at, run, i);
      HashesAreTheFrames(config, token, at, run, j);
    }
    StepsAreTimely(config, token, at, run);
    DocumentIsHistory(config, token, at, run);
    forall j: nat | j < 9 ensures StepPassed(config, c, run, j) {
      var _ := StepsWerePassed(config, token, at, run, j);
    }
    i := SelfieIsFirstMatch(config, token, at, run);
  }

  /** Each frame uses up one of 80: no challenge takes more, and after the last one every frame is
      refused or, as a retry, acknowledged, whatever the analyser would answer. */
  lemma NoEndlessChallenge(config: LiveConfig, token: Token, at: Time, run: seq<Frame>)
    requires Chain(config, Fresh(token, at), run)
    ensures |run| <= 80
    ensures |run| == 80 ==>
              forall t: Token, d: Digest, now: Time ::
                Screen(Running(Replay(config, Fresh(token, at), run)), t, d, now) != Analyze
  {
    ChainInvariant(config, token, at, run);
  }

  /** A retry of the last committed frame, screened on the document it left, is answered with
      the very reply its commit produced, exactly while the challenge is open and not failed. */
  lemma RetryIsAcknowledged(config: LiveConfig, c: Challenge, f: Frame, now: Time)
    requires Screen(Running(c), f.token, f.digest, f.now) == Analyze
    ensures var next := Advance(config, c, f);
            Screen(Running(next), f.token, f.digest, now)
              == (if now <= c.deadline && f.check != Failed then Acknowledge(MakeReply(next, next.feedback))
                  else Refuse(LiveChallengeExpired))
  {
  }

  /** Each frame of a chain consumes the token its predecessor issued. */
  lemma {:induction false} TokensLink(config: LiveConfig, c: Challenge, run: seq<Frame>, i: nat)
    requires Chain(config, c, run) && i < |run|
    ensures run[i].token == (if i == 0 then c.token else run[i - 1].nextToken)
  {
    ChainAt(config, c, run, i);
    if i > 0 {
      assert run[..i][..i - 1] == run[..i - 1];
    }
  }

  // ---------------------------------------------------------------- poses and prompts

  /** No pose answers two different prompts. */
  ghost predicate PosesApart(config: LiveConfig) {
    forall a: Action, b: Action, check: Check, ratio: Option<real> ::
      Matches(config, a, check, ratio) && Matches(config, b, check, ratio) ==> a == b
  }

  /** With both thresholds positive, the poses for the three prompts exclude one another exactly under
      the condition a self-hosted configuration is checked for. */
  lemma PosesApartExactly(config: LiveConfig)
    requires config.centerTolerance > 0.0 && config.turnThreshold > 0.0
    ensures PosesApart(config) <==> config.centerTolerance < config.turnThreshold
  {
    if config.centerTolerance >= config.turnThreshold {
      var ratio := Some(config.turnThreshold);
      assert Matches(config, Center, Passed, ratio) && Matches(config, Left, Passed, ratio);
    }
  }

  lemma PromptAt(config: LiveConfig, token: Token, at: Time, run: seq<Frame>, i: nat)
    requires Chain(config, Fresh(token, at), run) && i <= |run|
    ensures var c := Replay(config, Fresh(token, at), run[..i]); c.step % 2 == 0 <==> c.action == Center
  {
    ChainPrefix(config, Fresh(token, at), run, i);
    ChainInvariant(config, token, at, run[..i]);
  }

  /** The first two steps take two poses. */
  lemma TwoStepsTwoPoses(config: LiveConfig, token: Token, at: Time, run: seq<Frame>, ratio: Option<real>)
    requires Chain(config, Fresh(token, at), run) && Replay(config, Fresh(token, at), run).step >= 2
    requires forall i :: 0 <= i < |run| ==> run[i].ratio == ratio
    ensures !PosesApart(config)
  {
    hide Replay, Chain, Matches, Fresh;
    var i := StepsWerePassed(config, token, at, run, 0);
    var k := StepsWerePassed(config, token, at, run, 1);
    PromptAt(config, token, at, run, i);
    PromptAt(config, token, at, run, k);
    var first, second := Replay(config, Fresh(token, at), run[..i]), Replay(config, Fresh(token, at), run[..k]);
    MatchNeedsPass(config, first.action, run[i].check, ratio);
    MatchNeedsPass(config, second.action, run[k].check, ratio);
    assert Matches(config, first.action, Passed, ratio) && Matches(config, second.action, Passed, ratio);
    assert first.action != second.action;
  }

  /** A face that never moves passes one step at most: the second one asks for another pose. */
  lemma StillFaceNeverCompletes(config: LiveConfig, token: Token, at: Time, run: seq<Frame>, ratio: Option<real>)
    requires PosesApart(config) && Chain(config, Fresh(token, at), run)
    requires forall i :: 0 <= i < |run| ==> run[i].ratio == ratio
    ensures Replay(config, Fresh(token, at), run).step <= 1 && !Replay(config, Fresh(token, at), run).complete
  {
    ChainInvariant(config, token, at, run);
    if Replay(config, Fresh(token, at), run).step >= 2 {
      TwoStepsTwoPoses(config, token, at, run, ratio);
    }
  }

  lemma MatchNeedsPass(config: LiveConfig, action: Action, check: Check, ratio: Option<real>)
    ensures Matches(config, action, check, ratio) ==> check == Passed
  {
  }
}
