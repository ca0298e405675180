/** A run of the service that ends with an approval, for every holder of a printed passport. */
module ApprovedRun {
  import opened Wrappers
  import opened KycTypes
  import opened LiveChallenge
  import opened TextLines
  import opened Optical
  import opened Decision
  import opened DeclaredData
  import opened VerificationRow
  import opened KycProtocol
  import opened KycErasure
  import opened Td3Printer
  import ApprovedPassport

  const KEPT: Time := 1000 * SECOND

  /** What stays as it is until the submission. */
  ghost predicate Open(s: State, document: Document, personal: Fields) {
    && s.row.status == PendingUpload && s.row.profile == OpticalV1 && s.row.document == document
    && s.row.personal == Some(personal) && s.row.result.None? && s.row.leaseUntil.None? && s.row.attempts == 0
    && !s.row.evidenceDeleted && s.row.deleteAfter == KEPT
    && s.tasks == map[]
  }

  // ---------------------------------------------------------------- the front image

  ghost predicate FrontStored(s: State, document: Document, personal: Fields) {
    && Open(s, document, personal) && s.now == 3
    && s.row.evidence == map[Front := 0] && s.row.live == NoLive
    && 0 in s.blobs && s.h.fate.Keys == {0} && s.h.tokens == map[]
  }

  lemma FrontIsStored(config: Config, s: State, document: Document, personal: Fields) returns (steps: seq<Step>)
    requires Open(s, document, personal) && s.now == 0 && s.row.evidence == map[] && s.row.live == NoLive
    requires s.h.fate == map[] && s.h.tokens == map[]
    ensures Calm(config, s, steps) && FrontStored(Run(config, s, steps), document, personal)
  {
    var begin, put, commit := Step(0, 1, BeginUpload(Front)), Step(0, 2, PutUpload(0, 0)), Step(0, 3, CommitUpload);
    var s1 := Apply(config, s, begin);
    assert s1 == s.(tasks := map[0 := Uploading(Front)], now := 1);
    var s2 := Apply(config, s1, put);
    assert s2.tasks == map[0 := Uploaded(Front, 0)] && s2.row == s.row && s2.h.fate == map[0 := InFlight(0)];
    var s3 := Apply(config, s2, commit);
    assert s3.tasks == map[];
    hide Enabled, Apply, Calm, Run;
    CalmStep(config, s2, commit);
    FirstThen(config, s1, put, [commit]);
    FirstThen(config, s, begin, [put] + [commit]);
    steps := [begin] + ([put] + [commit]);
  }

  // ---------------------------------------------------------------- the challenge

  /** After `n` frames, one a second, each of which matched: every second one passed a step. */
  ghost predicate Captured(s: State, document: Document, personal: Fields, n: nat) {
    && Open(s, document, personal) && s.now < (n + 1) * SECOND
    && s.row.evidence == (if n == 2 * TOTAL_STEPS then map[Front := 0, Selfie := 1] else map[Front := 0])
    && 0 in s.blobs && (n > 0 ==> 1 in s.blobs)
    && (forall k :: k in s.h.fate ==> k <= if n > 0 then 1 else 0)
    && (forall t :: t in s.h.tokens ==> t <= n)
    && s.row.live.Running? && OnTime(s.row.live.challenge, n)
  }

  ghost predicate OnTime(c: Challenge, n: nat) {
    && c.token == n && c.step == n / 2 && c.hits == n % 2 && c.frames == n
    && c.deadline >= CHALLENGE_LIFETIME && c.stepDeadline >= (n + 20 - n % 2) * SECOND
    && (c.complete <==> n == 2 * TOTAL_STEPS) && (c.complete ==> c.completedAt == n * SECOND)
    && (forall d :: d in c.hashes ==> d < n)
    && c.lastAt == n * SECOND
    && c.selfieKey == (if n > 0 then Some(1) else None) && !c.failed
    && (c.last.Some? ==> c.last.value.0 < n)
  }

  lemma StartBegins(config: Config, s: State, document: Document, personal: Fields)
    requires FrontStored(s, document, personal)
    ensures var step := Step(0, 4, BeginStart(0, 4));
            && Enabled(config, s, step)
            && Apply(config, s, step)
               == s.(tasks := map[0 := Starting(Fresh(0, 4))], h := s.h.(tokens := map[0 := Some(0)]), now := 4)
  {
    hide Fresh;
  }

  lemma StartCommits(config: Config, s: State, s1: State, document: Document, personal: Fields)
    requires FrontStored(s, document, personal)
    requires s1 == s.(tasks := map[0 := Starting(Fresh(0, 4))], h := s.h.(tokens := map[0 := Some(0)]), now := 4)
    ensures var step := Step(0, 5, CommitStart);
            Enabled(config, s1, step) && Captured(Apply(config, s1, step), document, personal, 0)
  {
    var committed := StartTx(s.row, Fresh(0, 4), 5);
    assert committed.value.1 == {} && committed.value.0.evidence == map[Front := 0];
    hide StartTx;
  }

  lemma ChallengeIsStarted(config: Config, s: State, document: Document, personal: Fields) returns (steps: seq<Step>)
    requires FrontStored(s, document, personal)
    ensures Calm(config, s, steps) && Captured(Run(config, s, steps), document, personal, 0)
  {
    hide Enabled, Apply, Calm, Run, Fresh, FrontStored, Captured;
    var begin, commit := Step(0, 4, BeginStart(0, 4)), Step(0, 5, CommitStart);
    StartBegins(config, s, document, personal);
    var s1 := Apply(config, s, begin);
    StartCommits(config, s, s1, document, personal);
    CalmStep(config, s1, commit);
    FirstThen(config, s, begin, [commit]);
    steps := [begin] + [commit];
  }

  /** The analyser's answer to a face that follows the prompt. */
  function Following(config: LiveConfig, c: Challenge): real {
    match c.action
    case Center => 0.0
    case Left => config.turnThreshold
    case Right => -config.turnThreshold
  }

  function FrameOf(config: LiveConfig, c: Challenge, n: nat): Frame {
    Frame(n, n, (n + 1) * SECOND, Passed, Some(Following(config, c)), n + 1, n + 1, true)
  }

  /** The document the next frame leads to. */
  lemma NextDocument(config: LiveConfig, c: Challenge, n: nat)
    requires OnTime(c, n) && n < 2 * TOTAL_STEPS && config.centerTolerance >= 0.0
    ensures var f := FrameOf(config, c, n);
            && Screen(Running(c), f.token, f.digest, f.now) == Analyze
            && OnTime(Advance(config, c, f), n + 1)
            && NewKey(config, c, f) == (if n == 0 then Some(1) else None)
            && Advance(config, c, f).deadline == c.deadline
  {
    var f := FrameOf(config, c, n);
    assert Hit(config, c, f);
    assert f.digest !in c.hashes;
  }

  lemma FrameIsLetThrough(config: Config, s: State, document: Document, personal: Fields, n: nat)
    requires Captured(s, document, personal, n) && n < 2 * TOTAL_STEPS && config.live.centerTolerance >= 0.0
    ensures var step, c := Step(0, (n + 1) * SECOND, BeginFrame(n, n, (n + 1) * SECOND)), s.row.live.challenge;
            && Enabled(config, s, step)
            && Apply(config, s, step)
               == s.(tasks := map[0 := Analyzing(c, n, n, (n + 1) * SECOND)], now := (n + 1) * SECOND)
  {
    NextDocument(config.live, s.row.live.challenge, n);
    hide Screen, Advance, NewKey;
  }

  lemma FrameIsAnalyzed(config: Config, s: State, document: Document, personal: Fields, n: nat)
    requires Captured(s, document, personal, n) && n < 2 * TOTAL_STEPS && config.live.centerTolerance >= 0.0
    ensures var c, at := s.row.live.challenge, (n + 1) * SECOND + 1;
            var f := FrameOf(config.live, c, n);
            var s1 := s.(tasks := map[0 := Analyzing(c, n, n, (n + 1) * SECOND)], now := (n + 1) * SECOND);
            var step := Step(0, at, AnalyzeFrame(Passed, f.ratio, n + 1, n + 1, true));
            && Enabled(config, s1, step)
            && var s2 := Apply(config, s1, step);
               && s2.tasks == map[0 := Committing(c, f)] && s2.row == s.row && s2.now == at
               && s2.h.tokens == s.h.tokens[n + 1 := Some(0)]
               && (if n == 0 then s2.blobs == s.blobs[1 := 0] && s2.h.fate == s.h.fate[1 := InFlight(0)]
                   else s2.blobs == s.blobs && s2.h.fate == s.h.fate)
  {
    NextDocument(config.live, s.row.live.challenge, n);
    hide Screen, Advance, NewKey;
  }

  lemma FrameIsCommitted(config: Config, s: State, s2: State, document: Document, personal: Fields, n: nat)
    requires Captured(s, document, personal, n) && n < 2 * TOTAL_STEPS && config.live.centerTolerance >= 0.0
    requires s2.tasks == map[0 := Committing(s.row.live.challenge, FrameOf(config.live, s.row.live.challenge, n))]
    requires s2.row == s.row && s2.now == (n + 1) * SECOND + 1 && s2.h.tokens == s.h.tokens[n + 1 := Some(0)]
    requires if n == 0 then s2.blobs == s.blobs[1 := 0] && s2.h.fate == s.h.fate[1 := InFlight(0)]
             else s2.blobs == s.blobs && s2.h.fate == s.h.fate
    ensures var step := Step(0, (n + 1) * SECOND + 2, CommitFrame);
            Enabled(config, s2, step) && Captured(Apply(config, s2, step), document, personal, n + 1)
  {
    hide Screen, Advance, NewKey, OnTime, FrameTx;
    NextDocument(config.live, s.row.live.challenge, n);
    CommitRow(config.live, s.row, n, (n + 1) * SECOND + 2, document, personal);
  }

  lemma CommitRow(config: LiveConfig, row: Row, n: nat, at: Time, document: Document, personal: Fields)
    requires row.status == PendingUpload && row.profile == OpticalV1 && !row.evidenceDeleted && row.deleteAfter == KEPT
    requires row.live.Running? && OnTime(row.live.challenge, n) && n < 2 * TOTAL_STEPS && config.centerTolerance >= 0.0
    requires row.evidence == map[Front := 0] && at == (n + 1) * SECOND + 2
    ensures var c' := Advance(config, row.live.challenge, FrameOf(config, row.live.challenge, n));
            var r := FrameTx(row, n, c', at);
            && r.Ok? && r.value.live == Running(c')
            && r.value == row.(live := Running(c'), liveExpiresAt := r.value.liveExpiresAt,
                               evidence := r.value.evidence, version := r.value.version)
            && r.value.evidence == if n + 1 == 2 * TOTAL_STEPS then map[Front := 0, Selfie := 1] else map[Front := 0]
  {
    NextDocument(config, row.live.challenge, n);
    hide Screen, Advance, NewKey;
  }

  lemma FrameRound(config: Config, s: State, document: Document, personal: Fields, n: nat) returns (steps: seq<Step>)
    requires Captured(s, document, personal, n) && n < 2 * TOTAL_STEPS && config.live.centerTolerance >= 0.0
    ensures Calm(config, s, steps) && Captured(Run(config, s, steps), document, personal, n + 1)
  {
    hide Enabled, Apply, Calm, Run, Captured;
    assert s.row.live.Running? by {
      CapturedRuns(s, document, personal, n);
    }
    var f, at := FrameOf(config.live, s.row.live.challenge, n), (n + 1) * SECOND;
    var begin, analyze, commit := Step(0, at, BeginFrame(n, n, at)),
        Step(0, at + 1, AnalyzeFrame(Passed, f.ratio, n + 1, n + 1, true)), Step(0, at + 2, CommitFrame);
    FrameIsLetThrough(config, s, document, personal, n);
    FrameIsAnalyzed(config, s, document, personal, n);
    var s1 := Apply(config, s, begin);
    var s2 := Apply(config, s1, analyze);
    FrameIsCommitted(config, s, s2, document, personal, n);
    CalmStep(config, s2, commit);
    FirstThen(config, s1, analyze, [commit]);
    FirstThen(config, s, begin, [analyze] + [commit]);
    steps := [begin] + ([analyze] + [commit]);
  }

  lemma CapturedRuns(s: State, document: Document, personal: Fields, n: nat)
    requires Captured(s, document, personal, n)
    ensures s.row.live.Running?
  {
  }

  lemma {:induction false} ChallengeIsCompleted(config: Config, s: State, document: Document, personal: Fields, n: nat)
      returns (steps: seq<Step>)
    requires Captured(s, document, personal, n) && n <= 2 * TOTAL_STEPS && config.live.centerTolerance >= 0.0
    ensures Calm(config, s, steps) && Captured(Run(config, s, steps), document, personal, 2 * TOTAL_STEPS)
    decreases 2 * TOTAL_STEPS - n
  {
    hide Enabled, Apply, Captured;
    if n == 2 * TOTAL_STEPS {
      steps := [];
    } else {
      hide Calm, Run;
      var round := FrameRound(config, s, document, personal, n);
      var rest := ChallengeIsCompleted(config, Run(config, s, round), document, personal, n + 1);
      Then(config, s, round, rest);
      steps := round + rest;
    }
  }

  // ---------------------------------------------------------------- submission and the worker

  const BOTH: map<Kind, Key> := map[Front := 0, Selfie := 1]

  /** The claim of the first worker on a completed capture. */
  ghost predicate Honest(claim: Claim, document: Document, personal: Fields) {
    && claim.attempts == 1 && claim.evidence == BOTH && claim.personal == personal
    && claim.profile == OpticalV1 && claim.document == document && OpticalLiveness(claim) == Passed
  }

  ghost predicate Claimed(s: State, document: Document, personal: Fields, loaded: set<Kind>, asked: bool) {
    && s.row.status == Processing && s.row.profile == OpticalV1
    && 0 in s.blobs && 1 in s.blobs
    && s.tasks.Keys == {0} && s.tasks[0].Working? && s.tasks[0].images.Keys == loaded && s.tasks[0].asked == asked
    && s.tasks[0].claim.version == s.row.version && Honest(s.tasks[0].claim, document, personal)
  }

  lemma RowIsSubmitted(row: Row, document: Document, personal: Fields, at: Time)
    requires row.status == PendingUpload && row.profile == OpticalV1 && !row.evidenceDeleted && row.evidence == BOTH
    requires row.document == document && document.front && !document.back
    requires row.live.Running? && OnTime(row.live.challenge, 2 * TOTAL_STEPS)
    requires 2 * TOTAL_STEPS * SECOND <= at < 100 * SECOND
    ensures SubmitTx(row, at) == Ok(row.(status := Submitted, version := row.version + 1))
  {
    assert RequiredKinds(document) == {Selfie, Front};
  }

  lemma SubmittedAndClaimed(config: Config, s: State, document: Document, personal: Fields)
    requires Captured(s, document, personal, 2 * TOTAL_STEPS) && document.front && !document.back
    ensures var submit, claim := Step(0, 20 * SECOND, Submit), Step(0, 21 * SECOND, ClaimRow(21 * SECOND));
            && Enabled(config, s, submit)
            && var s1 := Apply(config, s, submit);
               && Enabled(config, s1, claim)
               && Claimed(Apply(config, s1, claim), document, personal, {}, false)
               && Apply(config, s1, claim).now == 21 * SECOND
  {
    hide SubmitTx, RequiredKinds;
    RowIsSubmitted(s.row, document, personal, 20 * SECOND);
  }

  lemma ImageIsLoaded(config: Config, s: State, document: Document, personal: Fields, loaded: set<Kind>, kind: Kind)
    requires Claimed(s, document, personal, loaded, false) && kind in BOTH
    ensures var step := Step(0, s.now + 1, Load(kind));
            Enabled(config, s, step) && Claimed(Apply(config, s, step), document, personal, loaded + {kind}, false)
  {
    hide OpticalLiveness;
  }

  /** The two images are loaded and the providers are asked. */
  lemma ProvidersAreAsked(config: Config, s: State, document: Document, personal: Fields)
    requires Claimed(s, document, personal, BOTH.Keys, false) && config.worker.mode != Mock
    ensures var step := Step(0, s.now + 1, Consult);
            Enabled(config, s, step) && Claimed(Apply(config, s, step), document, personal, BOTH.Keys, true)
  {
    hide OpticalLiveness;
  }

  lemma ClaimIsWorkedOn(config: Config, s: State, document: Document, personal: Fields) returns (steps: seq<Step>)
    requires Captured(s, document, personal, 2 * TOTAL_STEPS) && document.front && !document.back
    requires config.worker.mode != Mock
    ensures Calm(config, s, steps) && Claimed(Run(config, s, steps), document, personal, BOTH.Keys, true)
  {
    hide Enabled, Apply, Calm, Run, Captured, Claimed;
    var submit, claim := Step(0, 20 * SECOND, Submit), Step(0, 21 * SECOND, ClaimRow(21 * SECOND));
    SubmittedAndClaimed(config, s, document, personal);
    var s1 := Apply(config, s, submit);
    var s2 := Apply(config, s1, claim);
    var front := Step(0, s2.now + 1, Load(Front));
    ImageIsLoaded(config, s2, document, personal, {}, Front);
    var s3 := Apply(config, s2, front);
    var selfie := Step(0, s3.now + 1, Load(Selfie));
    ImageIsLoaded(config, s3, document, personal, {} + {Front}, Selfie);
    var s4 := Apply(config, s3, selfie);
    assert {} + {Front} + {Selfie} == BOTH.Keys;
    var consult := Step(0, s4.now + 1, Consult);
    ProvidersAreAsked(config, s4, document, personal);
    CalmStep(config, s4, consult);
    FirstThen(config, s3, selfie, [consult]);
    FirstThen(config, s2, front, [selfie] + [consult]);
    FirstThen(config, s1, claim, [front] + ([selfie] + [consult]));
    FirstThen(config, s, submit, [claim] + ([front] + ([selfie] + [consult])));
    steps := [submit] + ([claim] + ([front] + ([selfie] + [consult])));
  }

  /** The worker's answer is committed. */
  lemma AnswerIsCommitted(config: Config, s: State, document: Document, personal: Fields, report: Report, today: Date)
      returns (steps: seq<Step>)
    requires Claimed(s, document, personal, BOTH.Keys, true)
    requires Evaluate(config.worker, s.tasks[0].claim, s.tasks[0].images, report, today).status == Approved
    ensures Calm(config, s, steps)
    ensures Run(config, s, steps).row.profile == OpticalV1 && Run(config, s, steps).row.status == Approved
  {
    hide Evaluate, OpticalLiveness, Calm;
    var judge, commit := Step(0, s.now + 1, Judge(report, today)), Step(0, s.now + 2, CommitResult);
    var s1 := Apply(config, s, judge);
    assert s1.row == s.row && 0 in s1.tasks
           && s1.tasks[0] == Judged(Judgement(s.tasks[0].claim, s.tasks[0].images, report, today));
    var s2 := Apply(config, s1, commit);
    assert s2.row.status == Approved && s2.row.profile == OpticalV1;
    hide Enabled, Apply, Run;
    CalmStep(config, s1, commit);
    FirstThen(config, s, judge, [commit]);
    steps := [judge] + [commit];
  }

  // ---------------------------------------------------------------- the whole run

  /** What the engines answer about the two printed lines and a matching face. */
  function HonestReport(h: Holder): Report
    requires h.Valid()
  {
    Report(None, map[], Unavailable, Passed, Unavailable, None, JoinLines([h.FirstLine(), h.SecondLine()]), "",
           (map[], Unavailable))
  }

  /** A passport of this century, read on a day it is not expired. */
  ghost predicate Current(h: Holder, today: Date) {
    && h.Valid() && h.nationality == "PHL" && 2000 <= today.year <= 2099
    && today.year - 100 < h.birth.year <= today.year && 2000 <= h.expiry.year <= 2099 && !h.expiry.Before(today)
  }

  /** The expiry is declared as a date, if it is declared. */
  predicate DatedExpiry(personal: Fields) {
    Get(personal, ExpirationDate) != "" ==> FromIso(personal[ExpirationDate]).Some?
  }

  lemma HonestAnswer(config: WorkerConfig, claim: Claim, images: map<Kind, Digest>, h: Holder, document: Document,
                     personal: Fields, today: Date)
    requires config.mode == SelfHosted && document.key == "passport" && Current(h, today)
    requires ApprovedPassport.DeclaresPrint(h, personal) && DatedExpiry(personal)
    requires Honest(claim, document, personal) && images.Keys == BOTH.Keys
    ensures Evaluate(config, claim, images, HonestReport(h), today).status == Approved
  {
    hide Evaluate, OpticalLiveness, Shows, JoinLines, Holder.FirstLine, Holder.SecondLine, Holder.Fields, FromIso;
    hide ApprovedPassport.DeclaresPrint;
    PrintedTextShows(h);
    ApprovedPassport.DeclaredExpiry(h, personal);
    ApprovedPassport.HonestPassport(config, claim, images, HonestReport(h), today, h);
  }

  lemma NameIsRequired(h: Holder)
    requires h.Valid()
    ensures FullName in Required(h.Fields())
  {
    assert FullName in h.Fields();
    ApprovedPassport.FieldsSurvive(h, FullName);
  }

  lemma EveryField(h: Holder, k: Field)
    requires h.Valid()
    ensures k in h.Fields()
  {
    match k
    case FullName =>
    case BirthDate =>
    case DocumentNumber =>
    case ExpirationDate =>
    case Nationality =>
    case IssuingCountry =>
  }

  lemma AllDeclared(h: Holder, document: Document)
    requires h.Valid()
    ensures FieldsDeclared(document, h.Fields())
  {
    forall k | k in document.required ensures Get(h.Fields(), k) != "" {
      EveryField(h, k);
      ApprovedPassport.FieldsSurvive(h, k);
    }
  }

  /** The row of an applicant, just created. */
  function NewRow(document: Document, personal: Fields): State {
    State(0, Created(OpticalV1, document, personal, KEPT), map[], map[], [],
          History(map[], map[], map[], None, [], [], [], [], None))
  }

  /** Approval can be reached: for every printed passport that is not expired, declared as it is printed
      up to case, spaces and punctuation, there is a run from the creation of the row to an approval, in
      the self-hosted mode with any thresholds that let a centred face match. */
  lemma HolderIsApproved(config: Config, h: Holder, document: Document, personal: Fields, today: Date)
      returns (steps: seq<Step>)
    requires config.worker.mode == SelfHosted && config.live.centerTolerance >= 0.0
    requires Current(h, today) && document.key == "passport" && document.front && !document.back
    requires ApprovedPassport.DeclaresPrint(h, personal) && DatedExpiry(personal)
    ensures Init(NewRow(document, personal)) && Legal(config, NewRow(document, personal), steps)
    ensures Run(config, NewRow(document, personal), steps).row.profile == OpticalV1
    ensures Run(config, NewRow(document, personal), steps).row.status == Approved
  {
    var s0 := NewRow(document, personal);
    assert Init(s0) && Open(s0, document, personal);
    hide Run, Enabled, Apply, Captured, FrontStored, Claimed, Evaluate, Holder.Fields, Init;
    hide ApprovedPassport.DeclaresPrint, DatedExpiry, Current;
    var first := FrontIsStored(config, s0, document, personal);
    var s1 := Run(config, s0, first);
    var second := ChallengeIsStarted(config, s1, document, personal);
    var s2 := Run(config, s1, second);
    var third := ChallengeIsCompleted(config, s2, document, personal, 0);
    var s3 := Run(config, s2, third);
    var fourth := ClaimIsWorkedOn(config, s3, document, personal);
    var s4 := Run(config, s3, fourth);
    ClaimedIsHonest(s4, document, personal);
    HonestAnswer(config.worker, s4.tasks[0].claim, s4.tasks[0].images, h, document, personal, today);
    var fifth := AnswerIsCommitted(config, s4, document, personal, HonestReport(h), today);
    Then(config, s3, fourth, fifth);
    Then(config, s2, third, fourth + fifth);
    Then(config, s1, second, third + (fourth + fifth));
    Then(config, s0, first, second + (third + (fourth + fifth)));
    steps := first + (second + (third + (fourth + fifth)));
  }

  lemma ClaimedIsHonest(s: State, document: Document, personal: Fields)
    requires Claimed(s, document, personal, BOTH.Keys, true)
    ensures 0 in s.tasks && s.tasks[0].Working? && Honest(s.tasks[0].claim, document, personal)
            && s.tasks[0].images.Keys == BOTH.Keys
  {
  }

  /** The printed fields are a declaration of this kind. */
  lemma PrintIsDeclared(h: Holder, document: Document)
    requires h.Valid()
    ensures ApprovedPassport.DeclaresPrint(h, h.Fields()) && DatedExpiry(h.Fields())
            && FieldsDeclared(document, h.Fields())
  {
    AllDeclared(h, document);
    NameIsRequired(h);
    IsoRoundTrip(h.expiry);
    assert h.Fields()[ExpirationDate] == IsoFormat(h.expiry);
    hide Holder.Fields, FromIso, Agree;
    forall k | k in h.Fields() ensures Agree(h.Fields()[k], h.Fields()[k]) {
      AgreeIsNormalized(h.Fields()[k], h.Fields()[k]);
    }
  }

  /** An approved optical row is reachable, with both dates required and declared. */
  lemma ApprovalIsReachable() returns (config: Config, h: Holder, document: Document, steps: seq<Step>)
    ensures config.worker.mode != Mock && h.Valid() && document.key == "passport"
    ensures {BirthDate, ExpirationDate} <= document.required && FieldsDeclared(document, h.Fields())
    ensures Init(NewRow(document, h.Fields())) && Legal(config, NewRow(document, h.Fields()), steps)
    ensures var s := Run(config, NewRow(document, h.Fields()), steps);
            s.row.profile == OpticalV1 && s.row.status == Approved
  {
    config := Config(LiveConfig(0.1, 0.2), WorkerConfig(SelfHosted, None));
    h := Holder(["REYES"], ["ANA"], "P1234567A", "PHL", Date(1990, 1, 31), 'F', Date(2030, 1, 31), "", '<');
    document := Document("passport", true, false, {BirthDate, ExpirationDate});
    var today := Date(2025, 6, 30);
    assert Join(["REYES"], "<") == "REYES" && Join(["ANA"], "<") == "ANA";
    assert Current(h, today);
    hide Run, Legal, Init, Holder.Fields, FieldsDeclared, ApprovedPassport.DeclaresPrint, DatedExpiry;
    PrintIsDeclared(h, document);
    steps := HolderIsApproved(config, h, document, h.Fields(), today);
  }
}
