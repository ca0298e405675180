/** What the worker makes of a claimed row: `data_matches`, `decide`, and the body of `process`
    between its two transactions. */
module Decision {
  import opened Wrappers
  import opened KycTypes
  import opened TextLines
  import opened Optical

  predicate IsAlnum(c: char) {
    '0' <= c <= '9' || 'A' <= c <= 'Z'
  }

  /** `normalized`, on ASCII text. */
  function Normalized(s: string): string {
    Filter(MapChars(s, UpperChar), IsAlnum)
  }

  /** dict.get with a missing key as falsy as None. */
  function Get(fields: Fields, k: Field): string {
    if k in fields then fields[k] else ""
  }

  /** The keys with a truthy value. */
  function Required(personal: Fields): set<Field> {
    set k | k in personal && personal[k] != ""
  }

  function DataMatches(extracted: Fields, personal: Fields): Check {
    var required := Required(personal);
    if required == {} || exists k :: k in required && Get(extracted, k) == "" then Unavailable
    else if exists k ::
      k in required && (Normalized(personal[k]) == "" || Normalized(extracted[k]) == "")
    then Unavailable
    else if forall k :: k in required ==> Normalized(personal[k]) == Normalized(extracted[k]) then Passed
    else Failed
  }

  datatype CheckName = Ocr | DocumentIssuer | FaceMatch | Liveness | DocumentData | OpticalDocument

  type Checks = map<CheckName, Check>

  datatype Code =
    | DocumentExpired
    | AssuranceCheckFailed
    | OpticalVerified
    | ProviderVerified
    | ManualReviewRequired
    | MockOutcome
    | ProcessingFailed

  function RequiredChecks(profile: Profile): set<CheckName> {
    match profile
    case IssuerV1 => {Ocr, DocumentIssuer, FaceMatch, Liveness}
    case OpticalV1 => {Ocr, OpticalDocument, DocumentData, FaceMatch, Liveness}
  }

  /** `decide`; None when the declared expiry is no date. */
  function Decide(checks: Checks, personal: Fields, profile: Profile, mode: Mode, today: Date): Option<(Status, Code)> {
    var expiry := Get(personal, ExpirationDate);
    if expiry != "" && FromIso(expiry).None? then None
    else if expiry != "" && FromIso(expiry).value.Before(today) then Some((ActionRequired, DocumentExpired))
    else if Failed in checks.Values then Some((NeedsReview, AssuranceCheckFailed))
    else if mode in {Provider, SelfHosted}
            && forall k :: k in RequiredChecks(profile) ==> k in checks && checks[k] == Passed then
      Some((Approved, if profile == OpticalV1 then OpticalVerified else ProviderVerified))
    else Some((NeedsReview, ManualReviewRequired))
  }

  /** `DocumentType`; `required` holds the fields whose flag is set. */
  datatype Document = Document(key: string, front: bool, back: bool, required: set<Field>)

  /** `CreateVerification.required_fields`: a flagged field is declared. */
  predicate FieldsDeclared(document: Document, personal: Fields) {
    forall k :: k in document.required ==> Get(personal, k) != ""
  }

  /** The values `process` reads in its claim transaction. */
  datatype Claim = Claim(
    version: nat,
    attempts: nat,
    evidence: map<Kind, Key>,
    personal: Fields,
    profile: Profile,
    document: Document,
    live: Live)

  /** Whatever the providers, the OCR engine and the label patterns answer; `raised` holds the
      checks and fields gathered so far when one of them raises instead. */
  datatype Report = Report(
    raised: Option<(Checks, Fields)>,
    ocr: Fields,
    document: Check,
    faceMatch: Check,
    stillLiveness: Check,
    issuerData: Option<Check>,
    frontText: string,
    backText: string,
    labelled: (Fields, Check))

  datatype WorkerConfig = WorkerConfig(mode: Mode, mockOutcome: Option<Status>)

  const MAX_ATTEMPTS := 3

  /** The liveness fact the worker derives for an optical row. */
  function OpticalLiveness(claim: Claim): Check {
    if claim.live.Running? && claim.live.challenge.complete && !claim.live.challenge.failed
       && Selfie in claim.evidence && claim.live.challenge.selfieKey == Some(claim.evidence[Selfie])
    then Passed else Unavailable
  }

  datatype Outcome = Outcome(status: Status, code: Code, checks: Checks, extracted: Fields)

  function ProcessingError(checks: Checks, extracted: Fields): Outcome {
    Outcome(ActionRequired, ProcessingFailed, checks, extracted)
  }

  /** The check dictionary and extracted fields for a row of `claim.profile`. */
  function Assess(config: WorkerConfig, claim: Claim, report: Report, thisYear: nat): (Checks, Fields) {
    if config.mode == SelfHosted && claim.profile == OpticalV1 then
      var (extracted, document) := InspectTexts(claim.document.key,
        if Front in claim.evidence then report.frontText else "",
        if Back in claim.evidence then report.backText else "",
        report.labelled, thisYear);
      (map[Ocr := if extracted != map[] then Passed else Unavailable,
           DocumentIssuer := report.document,
           FaceMatch := report.faceMatch,
           Liveness := OpticalLiveness(claim),
           DocumentData := DataMatches(extracted, claim.personal),
           OpticalDocument := document], extracted)
    else
      var checks := map[Ocr := if report.ocr != map[] then Passed else Unavailable,
                        DocumentIssuer := report.document,
                        FaceMatch := report.faceMatch,
                        Liveness := report.stillLiveness];
      (if report.issuerData.Some? then checks[DocumentData := report.issuerData.value] else checks, report.ocr)
  }

  /** The worker's computation. `images` are the blobs it could load: loading one that is gone raises. */
  function Evaluate(config: WorkerConfig, claim: Claim, images: map<Kind, Digest>, report: Report,
                    today: Date): (o: Outcome)
    ensures o.status in {Approved, Rejected, NeedsReview, ActionRequired}
  {
    if claim.attempts > MAX_ATTEMPTS || !(claim.evidence.Keys <= images.Keys) then ProcessingError(map[], map[])
    else if config.mode == Mock then
      if config.mockOutcome.None? || config.mockOutcome.value !in {Approved, Rejected, NeedsReview} then
        ProcessingError(map[], map[])
      else Outcome(config.mockOutcome.value, MockOutcome,
                   map[DocumentIssuer := MockCheck, FaceMatch := MockCheck, Liveness := MockCheck], map[])
    else if report.raised.Some? then ProcessingError(report.raised.value.0, report.raised.value.1)
    else if Selfie !in claim.evidence then
      ProcessingError(map[], if config.mode == SelfHosted && claim.profile == OpticalV1 then map[] else report.ocr)
    else
      var (checks, extracted) := Assess(config, claim, report, today.year);
      var decided := Decide(checks, claim.personal, claim.profile, config.mode, today);
      if decided.None? then ProcessingError(checks, extracted)
      else Outcome(decided.value.0, decided.value.1, checks, extracted)
  }
}
