/** The concurrent operations of the service on one verification row and the blob store.

    Each request, worker run or sweep is a task that survives between its steps. One step is
    one database transaction or one blob put, get or delete; `Crash` ends a task anywhere.
    `at` is the clock when the step happens, and the clock is later at every step. */
module KycProtocol {
  import opened Wrappers
  import opened KycTypes
  import opened LiveChallenge
  import opened Decision
  import opened VerificationRow

  type Tid = nat

  datatype Config = Config(live: LiveConfig, worker: WorkerConfig)

  /** What a task in flight remembers. */
  datatype Task =
    | Uploading(kind: Kind)
    | Uploaded(kind: Kind, key: Key)
    | Cleaning(keys: set<Key>)
    | Starting(challenge: Challenge)
    | Analyzing(base: Challenge, token: Token, digest: Digest, arrived: Time)
    | Committing(base: Challenge, frame: Frame)
    | Marked(state: Live)
    | Swept(state: Live)
    | Selected
    | Pruning(keys: set<Key>, remaining: set<Key>)
    | Working(claim: Claim, images: map<Kind, Digest>, asked: bool)
    | Judged(verdict: Judgement)

  /** A finished computation of a worker. */
  datatype Judgement = Judgement(claim: Claim, images: map<Kind, Digest>, report: Report, today: Optical.Date)

  datatype Event =
    | BeginUpload(kind: Kind)
    | PutUpload(key: Key, content: Digest)
    | CommitUpload
    | Clean(key: Key)
    | BeginStart(token: Token, began: Time)
    | CommitStart
    | BeginFrame(token: Token, digest: Digest, arrived: Time)
    | AnalyzeFrame(check: Check, ratio: Option<real>, nextToken: Token, nextKey: Key, turnLeft: bool)
    | CommitFrame
    | Submit
    | Erase
    | MarkSweep
    | DeleteSwept
    | FinishSweep
    | SelectDue
    | Tombstone
    | DeletePruned(key: Key)
    | FinishPrune
    | ClaimRow(clock: Time)
    | Load(kind: Kind)
    | Consult
    | Judge(report: Report, today: Optical.Date)
    | CommitResult
    | Crash

  datatype Step = Step(tid: Tid, at: Time, event: Event)

  /** Who is responsible for a blob: the task that put it and has not committed it yet, the row
      (as evidence of a kind, or as the reference selfie), the task that has to delete it, or
      nobody since a crash. */
  datatype Fate = InFlight(tid: Tid) | Linked(kind: Kind) | Doomed(tid: Tid) | Lost

  /** History variables: no transaction reads them. */
  datatype History = History(
    fate: map<Key, Fate>,
    put: map<Key, Digest>,
    tokens: map<Token, Option<Tid>>,   // None once a challenge with that token was committed
    started: Option<(Token, Time)>,    // of the current challenge
    run: seq<Frame>,                   // frames committed since it was started
    consumed: seq<Token>,              // tokens of all frames ever committed
    claims: seq<Time>,                 // lease clocks of all claims
    consulted: seq<nat>,               // attempts that began to ask the providers
    decision: Option<Judgement>)       // whose outcome was committed

  datatype State = State(
    now: Time,
    row: Row,
    blobs: map<Key, Digest>,
    tasks: map<Tid, Task>,
    outbox: seq<Callback>,
    h: History)

  ghost predicate Init(s: State) {
    && (exists profile, document, personal, deleteAfter :: s.row == Created(profile, document, personal, deleteAfter))
    && s.blobs == map[] && s.tasks == map[] && s.outbox == []
    && s.h == History(map[], map[], map[], None, [], [], [], [], None)
  }

  // ---------------------------------------------------------------- small state updates

  function End(s: State, tid: Tid): State {
    s.(tasks := s.tasks - {tid})
  }

  function Become(s: State, tid: Tid, task: Task): State {
    s.(tasks := s.tasks[tid := task])
  }

  /** `tid` ends, or stays to delete `keys`. */
  function CleanUp(s: State, tid: Tid, keys: set<Key>): State {
    if keys == {} then End(s, tid)
    else
      Become(s, tid, Cleaning(keys)).(
        h := s.h.(fate := s.h.fate + (map k | k in keys :: Doomed(tid))))
  }

  function Put(s: State, tid: Tid, key: Key, content: Digest): State {
    s.(blobs := s.blobs[key := content],
       h := s.h.(fate := s.h.fate[key := InFlight(tid)], put := s.h.put[key := content]))
  }

  function KeysOf<T>(key: Option<T>): set<T> {
    if key.Some? then {key.value} else {}
  }

  /** The key a frame task put and still has to commit. */
  function FrameKeys(config: Config, task: Task): set<Key>
    requires task.Committing?
  {
    KeysOf(NewKey(config.live, task.base, task.frame))
  }

  /** The worker gets as far as asking the providers. */
  predicate Asks(config: Config, claim: Claim, images: map<Kind, Digest>) {
    config.worker.mode != Mock && claim.attempts <= MAX_ATTEMPTS && claim.evidence.Keys <= images.Keys
  }

  // ---------------------------------------------------------------- steps

  /** A step is possible: its task is at the right point, random values are fresh, clocks read
      earlier are not later than now. `began` is the clock `start` reads between its transactions. */
  predicate Enabled(config: Config, s: State, step: Step) {
    var Step(tid, at, event) := step;
    && s.now < at
    && match event
       case BeginUpload(kind) => tid !in s.tasks
       case PutUpload(key, content) => tid in s.tasks && s.tasks[tid].Uploading? && key !in s.h.fate
       case CommitUpload => tid in s.tasks && s.tasks[tid].Uploaded?
       case Clean(key) => tid in s.tasks && s.tasks[tid].Cleaning? && key in s.tasks[tid].keys
       case BeginStart(token, began) => tid !in s.tasks && token !in s.h.tokens && at <= began
       case CommitStart =>
         tid in s.tasks && s.tasks[tid].Starting? && s.tasks[tid].challenge.deadline - CHALLENGE_LIFETIME <= at
       case BeginFrame(token, digest, arrived) => tid !in s.tasks && arrived <= at
       case AnalyzeFrame(_, _, nextToken, nextKey, _) =>
         && tid in s.tasks && s.tasks[tid].Analyzing?
         && nextToken !in s.h.tokens && nextKey !in s.h.fate
         && (s.tasks[tid].base.selfieKey.Some? ==> s.tasks[tid].base.selfieKey.value in s.blobs)
       case CommitFrame => tid in s.tasks && s.tasks[tid].Committing?
       case Submit => tid !in s.tasks
       case Erase => tid !in s.tasks
       case MarkSweep => tid !in s.tasks
       case DeleteSwept => tid in s.tasks && s.tasks[tid].Marked?
       case FinishSweep => tid in s.tasks && s.tasks[tid].Swept?
       case SelectDue => tid !in s.tasks
       case Tombstone => tid in s.tasks && s.tasks[tid].Selected?
       case DeletePruned(key) => tid in s.tasks && s.tasks[tid].Pruning? && key in s.tasks[tid].remaining
       case FinishPrune => tid in s.tasks && s.tasks[tid].Pruning? && s.tasks[tid].remaining == {}
       case ClaimRow(clock) => tid !in s.tasks && clock <= at
       case Load(kind) =>
         && tid in s.tasks && s.tasks[tid].Working? && !s.tasks[tid].asked
         && kind in s.tasks[tid].claim.evidence && s.tasks[tid].claim.evidence[kind] in s.blobs
       case Consult =>
         && tid in s.tasks && s.tasks[tid].Working? && !s.tasks[tid].asked
         && Asks(config, s.tasks[tid].claim, s.tasks[tid].images)
       case Judge(_, _) =>
         && tid in s.tasks && s.tasks[tid].Working?
         && (Asks(config, s.tasks[tid].claim, s.tasks[tid].images) ==> s.tasks[tid].asked)
       case CommitResult => tid in s.tasks && s.tasks[tid].Judged?
       case Crash => tid in s.tasks
  }

  function DoBeginUpload(s: State, tid: Tid, kind: Kind): State {
    if UploadRefused(s.row, kind).Some? then s else Become(s, tid, Uploading(kind))
  }

  function DoPutUpload(s: State, tid: Tid, key: Key, content: Digest): State
    requires tid in s.tasks && s.tasks[tid].Uploading?
  {
    Become(Put(s, tid, key, content), tid, Uploaded(s.tasks[tid].kind, key))
  }

  function DoCommitUpload(s: State, tid: Tid): State
    requires tid in s.tasks && s.tasks[tid].Uploaded?
  {
    var Uploaded(kind, key) := s.tasks[tid];
    match UploadTx(s.row, kind, key)
    case Ok(committed) =>
      var (row, replaced) := committed;
      CleanUp(s.(row := row, h := s.h.(fate := s.h.fate[key := Linked(kind)])), tid, KeysOf(replaced))
    case Err(_) => CleanUp(s, tid, {key})
  }

  function DoClean(s: State, tid: Tid, key: Key): State
    requires tid in s.tasks && s.tasks[tid].Cleaning?
  {
    var rest := s.tasks[tid].keys - {key};
    var deleted := s.(blobs := s.blobs - {key});
    if rest == {} then End(deleted, tid) else Become(deleted, tid, Cleaning(rest))
  }

  function DoBeginStart(s: State, tid: Tid, token: Token, began: Time, at: Time): State {
    if NotPending(s.row, at).Some? then s
    else Become(s, tid, Starting(Fresh(token, began))).(h := s.h.(tokens := s.h.tokens[token := Some(tid)]))
  }

  function DoCommitStart(s: State, tid: Tid, at: Time): State
    requires tid in s.tasks && s.tasks[tid].Starting?
  {
    var c := s.tasks[tid].challenge;
    match StartTx(s.row, c, at)
    case Ok(committed) =>
      var (row, stale) := committed;
      CleanUp(s.(row := row,
                 h := s.h.(tokens := s.h.tokens[c.token := None],
                           started := Some((c.token, c.deadline - CHALLENGE_LIFETIME)),
                           run := [])), tid, stale)
    case Err(_) => End(s, tid)
  }

  function DoBeginFrame(s: State, tid: Tid, token: Token, digest: Digest, arrived: Time, at: Time): State {
    if FrameAnswer(s.row, token, digest, arrived, at) != Analyze then s
    else Become(s, tid, Analyzing(s.row.live.challenge, token, digest, arrived))
  }

  function DoAnalyzeFrame(config: Config, s: State, tid: Tid, check: Check, ratio: Option<real>,
                          nextToken: Token, nextKey: Key, turnLeft: bool): State
    requires tid in s.tasks && s.tasks[tid].Analyzing?
  {
    var Analyzing(base, token, digest, arrived) := s.tasks[tid];
    var frame := Frame(token, digest, arrived, check, ratio, nextToken, nextKey, turnLeft);
    var s1 := s.(h := s.h.(tokens := s.h.tokens[nextToken := Some(tid)]));
    Become(if NewKey(config.live, base, frame).Some? then Put(s1, tid, nextKey, digest) else s1,
           tid, Committing(base, frame))
  }

  function DoCommitFrame(config: Config, s: State, tid: Tid, at: Time): State
    requires tid in s.tasks && s.tasks[tid].Committing?
  {
    var Committing(base, f) := s.tasks[tid];
    var stored := FrameKeys(config, s.tasks[tid]);
    match FrameTx(s.row, f.token, Advance(config.live, base, f), at)
    case Ok(row) =>
      End(s.(row := row,
             h := s.h.(fate := s.h.fate + (map k | k in stored :: Linked(Selfie)),
                       tokens := s.h.tokens[f.nextToken := None],
                       run := s.h.run + [f],
                       consumed := s.h.consumed + [f.token])), tid)
    case Err(_) => CleanUp(s, tid, stored)
  }

  function DoSubmit(s: State, at: Time): State {
    match SubmitTx(s.row, at)
    case Ok(row) => s.(row := row)
    case Err(_) => s
  }

  function DoMarkSweep(s: State, tid: Tid, at: Time): State {
    match SweepMarkTx(s.row, at)
    case Some(row) => Become(s.(row := row), tid, Marked(row.live))
    case None => s
  }

  function DoDeleteSwept(s: State, tid: Tid): State
    requires tid in s.tasks && s.tasks[tid].Marked?
  {
    var state := s.tasks[tid].state;
    Become(s.(blobs := s.blobs - state.SelfieKeys()), tid, Swept(state))
  }

  function DoFinishSweep(s: State, tid: Tid): State
    requires tid in s.tasks && s.tasks[tid].Swept?
  {
    match SweepFinishTx(s.row, s.tasks[tid].state)
    case Some(row) => End(s.(row := row), tid)
    case None => End(s, tid)
  }

  function DoTombstone(s: State, tid: Tid): State {
    match TombstoneTx(s.row)
    case Some(row) => Become(s.(row := row), tid, Pruning(Refs(row), Refs(row)))
    case None => End(s, tid)
  }

  function DoDeletePruned(s: State, tid: Tid, key: Key): State
    requires tid in s.tasks && s.tasks[tid].Pruning?
  {
    var Pruning(keys, remaining) := s.tasks[tid];
    Become(s.(blobs := s.blobs - {key}), tid, Pruning(keys, remaining - {key}))
  }

  function DoFinishPrune(s: State, tid: Tid): State {
    var row := EraseEvidenceTx(s.row);
    End(s.(row := row, outbox := s.outbox + [CallbackFor(row)]), tid)
  }

  function DoClaim(s: State, tid: Tid, clock: Time): State {
    match ClaimTx(s.row, clock)
    case Some(row) =>
      Become(s.(row := row, h := s.h.(claims := s.h.claims + [clock])), tid, Working(ClaimOf(row), map[], false))
    case None => s
  }

  function DoLoad(s: State, tid: Tid, kind: Kind): State
    requires tid in s.tasks && s.tasks[tid].Working?
    requires kind in s.tasks[tid].claim.evidence && s.tasks[tid].claim.evidence[kind] in s.blobs
  {
    var Working(claim, images, asked) := s.tasks[tid];
    Become(s, tid, Working(claim, images[kind := s.blobs[claim.evidence[kind]]], asked))
  }

  function DoConsult(s: State, tid: Tid): State
    requires tid in s.tasks && s.tasks[tid].Working?
  {
    var Working(claim, images, _) := s.tasks[tid];
    Become(s, tid, Working(claim, images, true)).(h := s.h.(consulted := s.h.consulted + [claim.attempts]))
  }

  function DoJudge(s: State, tid: Tid, report: Report, today: Optical.Date): State
    requires tid in s.tasks && s.tasks[tid].Working?
  {
    var Working(claim, images, _) := s.tasks[tid];
    Become(s, tid, Judged(Judgement(claim, images, report, today)))
  }

  function OutcomeOf(config: Config, j: Judgement): Outcome {
    Evaluate(config.worker, j.claim, j.images, j.report, j.today)
  }

  function DoCommitResult(config: Config, s: State, tid: Tid): State
    requires tid in s.tasks && s.tasks[tid].Judged?
  {
    var j := s.tasks[tid].verdict;
    match ResultTx(s.row, j.claim.version, OutcomeOf(config, j))
    case Some(row) =>
      End(s.(row := row, outbox := s.outbox + [CallbackFor(row)], h := s.h.(decision := Some(j))), tid)
    case None => End(s, tid)
  }

  /** The keys a task is responsible for are orphaned when it dies. */
  function DoCrash(s: State, tid: Tid): State {
    End(s, tid).(
      h := s.h.(fate := map k | k in s.h.fate ::
        if s.h.fate[k] == InFlight(tid) || s.h.fate[k] == Doomed(tid) then Lost else s.h.fate[k]))
  }

  function Apply(config: Config, s: State, step: Step): State
    requires Enabled(config, s, step)
  {
    var Step(tid, at, event) := step;
    (match event
     case BeginUpload(kind) => DoBeginUpload(s, tid, kind)
     case PutUpload(key, content) => DoPutUpload(s, tid, key, content)
     case CommitUpload => DoCommitUpload(s, tid)
     case Clean(key) => DoClean(s, tid, key)
     case BeginStart(token, began) => DoBeginStart(s, tid, token, began, at)
     case CommitStart => DoCommitStart(s, tid, at)
     case BeginFrame(token, digest, arrived) => DoBeginFrame(s, tid, token, digest, arrived, at)
     case AnalyzeFrame(check, ratio, nextToken, nextKey, turnLeft) =>
       DoAnalyzeFrame(config, s, tid, check, ratio, nextToken, nextKey, turnLeft)
     case CommitFrame => DoCommitFrame(config, s, tid, at)
     case Submit => DoSubmit(s, at)
     case Erase => s.(row := EraseTx(s.row, at))
     case MarkSweep => DoMarkSweep(s, tid, at)
     case DeleteSwept => DoDeleteSwept(s, tid)
     case FinishSweep => DoFinishSweep(s, tid)
     case SelectDue => if Due(s.row, at) then Become(s, tid, Selected) else s
     case Tombstone => DoTombstone(s, tid)
     case DeletePruned(key) => DoDeletePruned(s, tid, key)
     case FinishPrune => DoFinishPrune(s, tid)
     case ClaimRow(clock) => DoClaim(s, tid, clock)
     case Load(kind) => DoLoad(s, tid, kind)
     case Consult => DoConsult(s, tid)
     case Judge(report, today) => DoJudge(s, tid, report, today)
     case CommitResult => DoCommitResult(config, s, tid)
     case Crash => DoCrash(s, tid)).(now := at)
  }

  // ---------------------------------------------------------------- runs

  predicate Legal(config: Config, s: State, steps: seq<Step>)
    decreases |steps|
  {
    steps != [] ==> Enabled(config, s, steps[0]) && Legal(config, Apply(config, s, steps[0]), steps[1..])
  }

  function Run(config: Config, s: State, steps: seq<Step>): State
    requires Legal(config, s, steps)
    decreases |steps|
  {
    if steps == [] then s else Run(config, Apply(config, s, steps[0]), steps[1..])
  }

  /** `s` is what some interleaving from a created row leads to. */
  ghost predicate Reachable(config: Config, s: State) {
    exists s0, steps :: Init(s0) && Legal(config, s0, steps) && Run(config, s0, steps) == s
  }
}
