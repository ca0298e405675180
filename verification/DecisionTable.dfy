/** The outcomes of a worker by what the engines answered: for every claim, report and day which status,
    which reason and which checks it commits. */
module DecisionTable {
  import opened Wrappers
  import opened KycTypes
  import opened TextLines
  import opened Optical
  import opened Decision

  /** The worker gives up: too many attempts, an image that could not be loaded, an engine that raised, or
      no selfie. */
  predicate GivesUp(claim: Claim, images: map<Kind, Digest>, report: Report) {
    || claim.attempts > 3 || (exists kind :: kind in claim.evidence && kind !in images)
    || report.raised.Some? || Selfie !in claim.evidence
  }

  /** A declared expiry that is no date. */
  predicate Undated(personal: Fields) {
    ExpirationDate in personal && personal[ExpirationDate] != "" && FromIso(personal[ExpirationDate]).None?
  }

  /** A declared expiry that is a date before `today`. */
  predicate Past(personal: Fields, today: Date) {
    && ExpirationDate in personal && FromIso(personal[ExpirationDate]).Some?
    && var d := FromIso(personal[ExpirationDate]).value;
       d.year < today.year || (d.year == today.year && (d.month < today.month
         || (d.month == today.month && d.day < today.day)))
  }

  /** The four checks every claim gets outside the optical reader. */
  function PlainChecks(report: Report): Checks {
    var checks := map[Ocr := if report.ocr == map[] then Unavailable else Passed, DocumentIssuer := report.document,
                      FaceMatch := report.faceMatch, Liveness := report.stillLiveness];
    if report.issuerData.Some? then checks[DocumentData := report.issuerData.value] else checks
  }

  predicate SomeFailed(report: Report) {
    || report.document == Failed || report.faceMatch == Failed || report.stillLiveness == Failed
    || report.issuerData == Some(Failed)
  }

  /** An issuer claim, or an optical one where the optical reader does not run. */
  lemma PlainOutcome(config: WorkerConfig, claim: Claim, images: map<Kind, Digest>, report: Report, today: Date)
    requires config.mode != Mock && (claim.profile == IssuerV1 || config.mode != SelfHosted)
    ensures var o := Evaluate(config, claim, images, report, today);
            && (o.status, o.code)
               == (if GivesUp(claim, images, report) || Undated(claim.personal) then (ActionRequired, ProcessingFailed)
                   else if Past(claim.personal, today) then (ActionRequired, DocumentExpired)
                   else if SomeFailed(report) then (NeedsReview, AssuranceCheckFailed)
                   else if claim.profile == IssuerV1 && config.mode != Local && report.ocr != map[]
                       && report.document == Passed && report.faceMatch == Passed && report.stillLiveness == Passed
                   then (Approved, ProviderVerified)
                   else (NeedsReview, ManualReviewRequired))
            && (!GivesUp(claim, images, report) ==> o.checks == PlainChecks(report) && o.extracted == report.ocr)
  {
    NoDate();
    hide FromIso;
    if !GivesUp(claim, images, report) {
      var checks := PlainChecks(report);
      assert Assess(config, claim, report, today.year) == (checks, report.ocr);
      FailedIn(report);
      PlainPassed(report);
      OpticalNeverPlain(report);
    }
  }

  lemma NoDate()
    ensures FromIso("").None?
  {
  }

  lemma FailedIn(report: Report)
    ensures Failed in PlainChecks(report).Values <==> SomeFailed(report)
  {
    var checks := PlainChecks(report);
    if SomeFailed(report) {
      assert DocumentIssuer in checks && FaceMatch in checks && Liveness in checks;
      assert report.issuerData.Some? ==> DocumentData in checks && checks[DocumentData] == report.issuerData.value;
      assert checks[DocumentIssuer] == report.document && checks[FaceMatch] == report.faceMatch
             && checks[Liveness] == report.stillLiveness;
    }
  }

  lemma PlainPassed(report: Report)
    ensures var checks := PlainChecks(report);
            (forall k :: k in RequiredChecks(IssuerV1) ==> k in checks && checks[k] == Passed)
            <==> report.ocr != map[] && report.document == Passed && report.faceMatch == Passed
                 && report.stillLiveness == Passed
  {
    var required := RequiredChecks(IssuerV1);
    assert Ocr in required && DocumentIssuer in required && FaceMatch in required && Liveness in required;
  }

  lemma OpticalNeverPlain(report: Report)
    ensures OpticalDocument in RequiredChecks(OpticalV1) && OpticalDocument !in PlainChecks(report)
  {
  }

  /** An issuer claim is approved exactly when all four engines passed it, the issuer's data did not fail,
      everything was there in three attempts, and a declared expiry is a date not past. */
  lemma IssuerApprovalExactly(config: WorkerConfig, claim: Claim, images: map<Kind, Digest>, report: Report,
                              today: Date)
    requires config.mode != Mock && claim.profile == IssuerV1
    ensures Evaluate(config, claim, images, report, today).status == Approved
        <==> && config.mode in {Provider, SelfHosted} && claim.attempts <= 3
             && claim.evidence.Keys <= images.Keys && Selfie in claim.evidence && report.raised.None?
             && report.ocr != map[] && report.document == Passed && report.faceMatch == Passed
             && report.stillLiveness == Passed && report.issuerData != Some(Failed)
             && !Undated(claim.personal) && !Past(claim.personal, today)
  {
    PlainOutcome(config, claim, images, report, today);
    hide Evaluate, FromIso;
  }

  // ---------------------------------------------------------------- the optical reader

  /** What the reader makes of the texts of the images there are. */
  function ReadTexts(claim: Claim, report: Report, thisYear: nat): (Fields, Check) {
    InspectTexts(claim.document.key, if Front in claim.evidence then report.frontText else "",
                 if Back in claim.evidence then report.backText else "", report.labelled, thisYear)
  }

  /** The selfie is the reference of a challenge that is complete and has not failed. */
  predicate Alive(claim: Claim)
    requires Selfie in claim.evidence
  {
    && claim.live.Running? && claim.live.challenge.complete && !claim.live.challenge.failed
    && claim.live.challenge.selfieKey == Some(claim.evidence[Selfie])
  }

  /** An optical claim in the self-hosted mode. */
  lemma OpticalOutcome(config: WorkerConfig, claim: Claim, images: map<Kind, Digest>, report: Report, today: Date)
    requires config.mode == SelfHosted && claim.profile == OpticalV1
    ensures var o := Evaluate(config, claim, images, report, today);
            var (fields, read) := ReadTexts(claim, report, today.year);
            var data := DataMatches(fields, claim.personal);
            && (o.status, o.code)
               == (if GivesUp(claim, images, report) || Undated(claim.personal) then (ActionRequired, ProcessingFailed)
                   else if Past(claim.personal, today) then (ActionRequired, DocumentExpired)
                   else if report.document == Failed || report.faceMatch == Failed || read == Failed || data == Failed
                   then (NeedsReview, AssuranceCheckFailed)
                   else if fields != map[] && read == Passed && data == Passed && report.faceMatch == Passed
                       && Alive(claim) then (Approved, OpticalVerified)
                   else (NeedsReview, ManualReviewRequired))
            && (!GivesUp(claim, images, report) ==>
                  && o.extracted == fields
                  && o.checks == map[Ocr := if fields == map[] then Unavailable else Passed,
                                     DocumentIssuer := report.document, FaceMatch := report.faceMatch,
                                     Liveness := if Alive(claim) then Passed else Unavailable,
                                     DocumentData := data, OpticalDocument := read])
  {
    NoDate();
    hide FromIso, InspectTexts, DataMatches;
    if !GivesUp(claim, images, report) {
      var (fields, read) := ReadTexts(claim, report, today.year);
      OpticalFailed(fields, read, DataMatches(fields, claim.personal), report, Alive(claim));
      OpticalPassed(fields, read, DataMatches(fields, claim.personal), report, Alive(claim));
    }
  }

  function OpticalChecks(fields: Fields, read: Check, data: Check, report: Report, alive: bool): Checks {
    map[Ocr := if fields == map[] then Unavailable else Passed, DocumentIssuer := report.document,
        FaceMatch := report.faceMatch, Liveness := if alive then Passed else Unavailable, DocumentData := data,
        OpticalDocument := read]
  }

  lemma OpticalFailed(fields: Fields, read: Check, data: Check, report: Report, alive: bool)
    ensures Failed in OpticalChecks(fields, read, data, report, alive).Values
        <==> report.document == Failed || report.faceMatch == Failed || read == Failed || data == Failed
  {
    var checks := OpticalChecks(fields, read, data, report, alive);
    assert DocumentIssuer in checks && FaceMatch in checks && DocumentData in checks && OpticalDocument in checks;
  }

  lemma OpticalPassed(fields: Fields, read: Check, data: Check, report: Report, alive: bool)
    ensures var checks := OpticalChecks(fields, read, data, report, alive);
            (forall k :: k in RequiredChecks(OpticalV1) ==> k in checks && checks[k] == Passed)
            <==> fields != map[] && read == Passed && data == Passed && report.faceMatch == Passed && alive
  {
    var required := RequiredChecks(OpticalV1);
    assert Ocr in required && OpticalDocument in required && DocumentData in required && FaceMatch in required
           && Liveness in required;
  }

  lemma SpaceOnly(s: string)
    ensures AllSpace(s) <==> forall c :: c in s ==> IsSpace(c)
  {
  }

  /** Of the documents only passports are read from the front alone; without the back side of a PhilSys card
      or a driver's licence, and for any other kind, nothing is read and nothing is approved. */
  lemma NoReaderNoApproval(config: WorkerConfig, claim: Claim, images: map<Kind, Digest>, report: Report, today: Date)
    requires config.mode == SelfHosted && claim.profile == OpticalV1 && claim.document.key != "passport"
    requires claim.document.key !in {"philsys", "drivers_license"} || Back !in claim.evidence
             || forall c :: c in report.backText ==> IsSpace(c)
    ensures ReadTexts(claim, report, today.year) == (map[], Unavailable)
    ensures Evaluate(config, claim, images, report, today).status != Approved
  {
    SpaceOnly(report.backText);
    OpticalOutcome(config, claim, images, report, today);
    hide Evaluate, DataMatches, FromIso, AllSpace;
    assert AllSpace("") by {
      SpaceOnly("");
    }
  }

  /** Where there is a reader its answer is taken. */
  lemma LabelsAreRead(claim: Claim, report: Report, thisYear: nat)
    requires claim.document.key in {"philsys", "drivers_license"} && Back in claim.evidence
    requires exists c :: c in report.backText && !IsSpace(c)
    ensures ReadTexts(claim, report, thisYear) == report.labelled
  {
    SpaceOnly(report.backText);
    hide AllSpace, Passport;
  }

  /** An engine that raises leaves what was gathered before it. */
  lemma RaisedOutcome(config: WorkerConfig, claim: Claim, images: map<Kind, Digest>, report: Report, today: Date)
    requires config.mode != Mock && report.raised.Some? && claim.attempts <= 3 && claim.evidence.Keys <= images.Keys
    ensures Evaluate(config, claim, images, report, today)
         == Outcome(ActionRequired, ProcessingFailed, report.raised.value.0, report.raised.value.1)
  {
  }

  // ---------------------------------------------------------------- the mock

  /** The mock commits the outcome it is configured for, on a loaded claim of at most three attempts. */
  lemma MockOutcomeExactly(config: WorkerConfig, claim: Claim, images: map<Kind, Digest>, report: Report, today: Date)
    requires config.mode == Mock
    ensures var o := Evaluate(config, claim, images, report, today);
            if claim.attempts <= 3 && claim.evidence.Keys <= images.Keys
                && config.mockOutcome in {Some(Approved), Some(Rejected), Some(NeedsReview)} then
              Some(o.status) == config.mockOutcome && o.code == MockOutcome && o.extracted == map[]
                  && o.checks.Keys == {DocumentIssuer, FaceMatch, Liveness} && o.checks.Values == {MockCheck}
            else o == Outcome(ActionRequired, ProcessingFailed, map[], map[])
  {
    var checks: Checks := map[DocumentIssuer := MockCheck, FaceMatch := MockCheck, Liveness := MockCheck];
    assert checks.Keys == {DocumentIssuer, FaceMatch, Liveness};
    assert checks[DocumentIssuer] == MockCheck && checks.Values == {MockCheck};
  }
}
