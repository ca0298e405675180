/** From the text of a passport to an approval: what an approved optical row says about the dates
    that were declared when it was created. */
module ApprovedPassport {
  import opened Wrappers
  import opened KycTypes
  import opened LiveChallenge
  import opened TextLines
  import opened Optical
  import opened Decision
  import opened DeclaredData
  import opened VerificationRow
  import opened KycProtocol
  import opened KycSafety
  import opened Td3Printer

  // ---------------------------------------------------------------- normalisation

  lemma {:induction false} FilterConcat(a: string, b: string, keep: char -> bool)
    ensures Filter(a + b, keep) == Filter(a, keep) + Filter(b, keep)
  {
    if a == "" {
      assert a + b == b;
    } else {
      assert (a + b)[1..] == a[1..] + b;
      FilterConcat(a[1..], b, keep);
    }
  }

  lemma NormalizedConcat(a: string, b: string)
    ensures Normalized(a + b) == Normalized(a) + Normalized(b)
  {
    FilterConcat(MapChars(a, UpperChar), MapChars(b, UpperChar), IsAlnum);
    assert MapChars(a + b, UpperChar) == MapChars(a, UpperChar) + MapChars(b, UpperChar);
  }

  lemma NormalizedDigits(n: nat)
    requires n < 100
    ensures Normalized(TwoDigits(n)) == TwoDigits(n)
  {
    NumberBack(n);
    var s := TwoDigits(n);
    assert MapChars(s, UpperChar) == s;
    FilterKeeps(s, IsAlnum);
  }

  lemma NormalizedDash()
    ensures Normalized("-") == ""
  {
    assert MapChars("-", UpperChar) == "-";
  }

  function Compact(d: Date): (s: string)
    requires d.year <= 9999 && d.month < 100 && d.day < 100
    ensures |s| == 8
  {
    TwoDigits(d.year / 100) + TwoDigits(d.year % 100) + TwoDigits(d.month) + TwoDigits(d.day)
  }

  lemma NormalizedIso(d: Date)
    requires d.year <= 9999 && d.month < 100 && d.day < 100
    ensures Normalized(IsoFormat(d)) == Compact(d)
  {
    hide TwoDigits, Normalized;
    var century, year, month, day := TwoDigits(d.year / 100), TwoDigits(d.year % 100), TwoDigits(d.month),
        TwoDigits(d.day);
    NormalizedConcat(century + year + "-" + month + "-", day);
    NormalizedConcat(century + year + "-" + month, "-");
    NormalizedConcat(century + year + "-", month);
    NormalizedConcat(century + year, "-");
    NormalizedConcat(century, year);
    NormalizedDigits(d.year / 100);
    NormalizedDigits(d.year % 100);
    NormalizedDigits(d.month);
    NormalizedDigits(d.day);
    NormalizedDash();
  }

  /** Dropping everything but letters and digits loses nothing of a date. */
  lemma NormalizedIsoInjective(d: Date, e: Date)
    requires d.year <= 9999 && d.month < 100 && d.day < 100 && e.year <= 9999 && e.month < 100 && e.day < 100
    requires Normalized(IsoFormat(d)) == Normalized(IsoFormat(e))
    ensures d == e
  {
    NormalizedIso(d);
    NormalizedIso(e);
    hide TwoDigits, Normalized;
    var s := Compact(d);
    assert s[..2] == TwoDigits(d.year / 100) && s[2..4] == TwoDigits(d.year % 100) && s[4..6] == TwoDigits(d.month)
           && s[6..] == TwoDigits(d.day);
    var t := Compact(e);
    assert t[..2] == TwoDigits(e.year / 100) && t[2..4] == TwoDigits(e.year % 100) && t[4..6] == TwoDigits(e.month)
           && t[6..] == TwoDigits(e.day);
    TwoDigitsInjective(d.year / 100, e.year / 100);
    TwoDigitsInjective(d.year % 100, e.year % 100);
    TwoDigitsInjective(d.month, e.month);
    TwoDigitsInjective(d.day, e.day);
  }

  /** A date read from the zone that matches a declared one is the declared one. */
  lemma MatchingDate(value: string, birth: bool, thisYear: nat, d: Date)
    requires d.Valid()
    requires MrzDate(value, birth, thisYear) != ""
             && Normalized(MrzDate(value, birth, thisYear)) == Normalized(IsoFormat(d))
    ensures MrzDate(value, birth, thisYear) == IsoFormat(d)
  {
    hide MrzDate, IsoFormat, Normalized;
    var read := DateIsPrinted(value, birth, thisYear);
    NormalizedIsoInjective(read, d);
  }

  lemma DateIsPrinted(value: string, birth: bool, thisYear: nat) returns (read: Date)
    requires MrzDate(value, birth, thisYear) != ""
    ensures read.Valid() && MrzDate(value, birth, thisYear) == IsoFormat(read)
  {
    hide Number, DaysIn, IsoFormat;
    var year := 2000 + Number(value[..2]);
    read := Date(if birth && year > thisYear then year - 100 else year, Number(value[2..4]), Number(value[4..]));
  }

  // ---------------------------------------------------------------- what a passed document says

  /** The zone that was read: the only two adjacent lines of its form, with five good check digits. */
  ghost predicate ReadFrom(text: string, first: string, second: string) {
    && Pairs(CleanLines(SplitLines(text))) == [(first, second)]
    && |second| == 44 && ChecksPass(second)
  }

  lemma PassedPassport(text: string, thisYear: nat) returns (first: string, second: string)
    requires Passport(text, thisYear).1 == Passed
    ensures ReadFrom(text, first, second)
    ensures var fields := Passport(text, thisYear).0;
            && fields.Keys == {FullName, BirthDate, ExpirationDate, DocumentNumber, IssuingCountry, Nationality}
            && (forall k :: k in fields ==> fields[k] != "")
            && fields[BirthDate] == MrzDate(second[13..19], true, thisYear)
            && fields[ExpirationDate] == MrzDate(second[21..27], false, thisYear)
            && fields[DocumentNumber] == StripRight(second[..9])
  {
    hide Pairs, CleanLines, SplitLines, ChecksPass, MrzDate, FindSeparator, StripRight, FullNameOf, IsFirstLine;
    hide IsSecondLine, OnlyFiller;
    var pairs := Pairs(CleanLines(SplitLines(text)));
    assert |pairs| == 1;
    first, second := pairs[0].0, pairs[0].1;
    assert pairs[0] in pairs;
    SecondLineLength(second);
    assert pairs == [(first, second)];
  }

  lemma SecondLineLength(second: string)
    requires IsSecondLine(second)
    ensures |second| == 44
  {
  }

  lemma NoTextNoPassport(thisYear: nat)
    ensures Passport("", thisYear).1 != Passed
  {
    assert CleanLines(SplitLines("")) == [];
  }

  // ---------------------------------------------------------------- what was declared is what is compared

  /** Until erasure the row holds the data of its creation, and every worker compares with that. */
  ghost predicate DataKept(s: State, document: Document, personal: Fields) {
    && s.row.document == document
    && (Active(s.row) ==> s.row.personal == Some(personal))
    && (forall tid :: tid in s.tasks && s.tasks[tid].Working? ==> s.tasks[tid].claim.personal == personal)
    && (forall tid :: tid in s.tasks && s.tasks[tid].Judged? ==> s.tasks[tid].verdict.claim.personal == personal)
    && (s.h.decision.Some? ==> s.h.decision.value.claim.personal == personal)
  }

  /** What a step may do to the declared data. */
  ghost predicate Keeps(s: State, s': State, tid: Tid, personal: Fields) {
    && s'.row.document == s.row.document
    && (Active(s'.row) ==> Active(s.row) && s'.row.personal == s.row.personal)
    && s'.h.decision == s.h.decision
    && (forall t :: t in s'.tasks && t != tid ==> t in s.tasks && s'.tasks[t] == s.tasks[t])
    && (tid in s'.tasks && s'.tasks[tid].Working? ==> s'.tasks[tid].claim.personal == personal)
    && (tid in s'.tasks && s'.tasks[tid].Judged? ==> s'.tasks[tid].verdict.claim.personal == personal)
  }

  lemma DataUpload(config: Config, s: State, step: Step, document: Document, personal: Fields)
    requires DataKept(s, document, personal) && Enabled(config, s, step)
    requires step.event.BeginUpload? || step.event.PutUpload? || step.event.CommitUpload? || step.event.Clean?
    ensures Keeps(s, Apply(config, s, step), step.tid, personal)
  {
    hide Screen, Advance, NewKey, Evaluate, VerificationRow.LiveProof, RequiredKinds;
  }

  lemma DataStart(config: Config, s: State, step: Step, document: Document, personal: Fields)
    requires DataKept(s, document, personal) && Enabled(config, s, step)
    requires step.event.BeginStart? || step.event.CommitStart? || step.event.BeginFrame?
    ensures Keeps(s, Apply(config, s, step), step.tid, personal)
  {
    hide Screen, Advance, NewKey, Evaluate, VerificationRow.LiveProof, RequiredKinds;
  }

  lemma DataFrame(config: Config, s: State, step: Step, document: Document, personal: Fields)
    requires DataKept(s, document, personal) && Enabled(config, s, step)
    requires step.event.AnalyzeFrame? || step.event.CommitFrame?
    ensures Keeps(s, Apply(config, s, step), step.tid, personal)
  {
    hide Screen, Advance, NewKey, Evaluate, VerificationRow.LiveProof, RequiredKinds;
  }

  lemma DataSweep(config: Config, s: State, step: Step, document: Document, personal: Fields)
    requires DataKept(s, document, personal) && Enabled(config, s, step)
    requires step.event.Submit? || step.event.Erase? || step.event.MarkSweep? || step.event.DeleteSwept?
             || step.event.FinishSweep?
    ensures Keeps(s, Apply(config, s, step), step.tid, personal)
  {
    hide Screen, Advance, NewKey, Evaluate, VerificationRow.LiveProof, RequiredKinds;
  }

  lemma DataPrune(config: Config, s: State, step: Step, document: Document, personal: Fields)
    requires DataKept(s, document, personal) && Enabled(config, s, step)
    requires step.event.SelectDue? || step.event.Tombstone? || step.event.DeletePruned? || step.event.FinishPrune?
             || step.event.Crash?
    ensures Keeps(s, Apply(config, s, step), step.tid, personal)
  {
    hide Screen, Advance, NewKey, Evaluate, VerificationRow.LiveProof, RequiredKinds;
  }

  lemma DataWork(config: Config, s: State, step: Step, document: Document, personal: Fields)
    requires DataKept(s, document, personal) && Enabled(config, s, step)
    requires step.event.ClaimRow? || step.event.Load? || step.event.Consult? || step.event.Judge?
    ensures Keeps(s, Apply(config, s, step), step.tid, personal)
  {
    hide Screen, Advance, NewKey, Evaluate, VerificationRow.LiveProof, RequiredKinds;
  }

  lemma DataStep(config: Config, s: State, step: Step, document: Document, personal: Fields)
    requires DataKept(s, document, personal) && Enabled(config, s, step) && !step.event.CommitResult?
    ensures Keeps(s, Apply(config, s, step), step.tid, personal)
  {
    hide Enabled, Apply, DataKept, Keeps;
    if step.event.BeginUpload? || step.event.PutUpload? || step.event.CommitUpload? || step.event.Clean? {
      DataUpload(config, s, step, document, personal);
    } else if step.event.BeginStart? || step.event.CommitStart? || step.event.BeginFrame? {
      DataStart(config, s, step, document, personal);
    } else if step.event.AnalyzeFrame? || step.event.CommitFrame? {
      DataFrame(config, s, step, document, personal);
    } else if step.event.Submit? || step.event.Erase? || step.event.MarkSweep? || step.event.DeleteSwept?
        || step.event.FinishSweep? {
      DataSweep(config, s, step, document, personal);
    } else if step.event.SelectDue? || step.event.Tombstone? || step.event.DeletePruned? || step.event.FinishPrune?
        || step.event.Crash? {
      DataPrune(config, s, step, document, personal);
    } else {
      DataWork(config, s, step, document, personal);
    }
  }

  lemma DataResult(config: Config, s: State, tid: Tid, document: Document, personal: Fields)
    requires DataKept(s, document, personal) && tid in s.tasks && s.tasks[tid].Judged?
    ensures DataKept(DoCommitResult(config, s, tid), document, personal)
  {
    hide OutcomeOf;
  }

  lemma DataAfterStep(config: Config, s: State, step: Step, document: Document, personal: Fields)
    requires DataKept(s, document, personal) && Enabled(config, s, step)
    ensures DataKept(Apply(config, s, step), document, personal)
  {
    hide DoBeginUpload, DoPutUpload, DoCommitUpload, DoClean, DoBeginStart, DoCommitStart, DoBeginFrame, DoAnalyzeFrame;
    hide DoCommitFrame;
    hide DoSubmit, DoMarkSweep, DoDeleteSwept, DoFinishSweep, DoTombstone, DoDeletePruned, DoFinishPrune, DoClaim;
    hide DoLoad, DoConsult, DoJudge, DoCommitResult, DoCrash;
    if step.event.CommitResult? {
      DataResult(config, s, step.tid, document, personal);
    } else {
      DataStep(config, s, step, document, personal);
    }
  }

  lemma {:induction false} DataAlongRun(config: Config, s: State, steps: seq<Step>, document: Document,
                                        personal: Fields)
    requires DataKept(s, document, personal) && Legal(config, s, steps)
    ensures DataKept(Run(config, s, steps), document, personal)
    decreases |steps|
  {
    hide Apply, Enabled, DataKept;
    if steps != [] {
      DataAfterStep(config, s, steps[0], document, personal);
      DataAlongRun(config, Apply(config, s, steps[0]), steps[1..], document, personal);
    }
  }

  // ---------------------------------------------------------------- the chain

  lemma MatchedField(extracted: Fields, personal: Fields, k: Field)
    requires DataMatches(extracted, personal) == Passed && Get(personal, k) != ""
    ensures k in extracted && extracted[k] != "" && Normalized(extracted[k]) == Normalized(personal[k])
  {
    assert k in Required(personal);
  }

  /** The zone read from the front image carries the two declared dates. */
  ghost predicate DatesConfirmed(text: string, today: Date, birth: Date, expiry: Date)
    requires birth.Valid() && expiry.Valid()
  {
    exists first, second :: ReadFrom(text, first, second)
      && MrzDate(second[13..19], true, today.year) == IsoFormat(birth)
      && MrzDate(second[21..27], false, today.year) == IsoFormat(expiry)
  }

  lemma DocumentConfirms(text: string, today: Date, personal: Fields, birth: Date, expiry: Date)
    requires birth.Valid() && expiry.Valid()
    requires Get(personal, BirthDate) == IsoFormat(birth) && Get(personal, ExpirationDate) == IsoFormat(expiry)
    requires Passport(text, today.year).1 == Passed && DataMatches(Passport(text, today.year).0, personal) == Passed
    ensures DatesConfirmed(text, today, birth, expiry)
  {
    hide DataMatches, Passport, Normalized, IsoFormat, MrzDate, Pairs, CleanLines, SplitLines, ChecksPass;
    var first, second := PassedPassport(text, today.year);
    MatchedField(Passport(text, today.year).0, personal, BirthDate);
    MatchedField(Passport(text, today.year).0, personal, ExpirationDate);
    MatchingDate(second[13..19], true, today.year, birth);
    MatchingDate(second[21..27], false, today.year, expiry);
  }

  /** Over every run from the creation of an optical passport row: once it is approved, the image
      claimed as its front showed one machine readable zone with five good check digits whose birth
      and expiry dates are exactly the declared ones, and the passport was not expired that day. */
  lemma ApprovedPassportDates(config: Config, s0: State, steps: seq<Step>, personal: Fields, birth: Date, expiry: Date)
    requires Init(s0) && Legal(config, s0, steps) && s0.row.personal == Some(personal)
    requires config.worker.mode != Mock && s0.row.document.key == "passport"
    requires {BirthDate, ExpirationDate} <= s0.row.document.required && FieldsDeclared(s0.row.document, personal)
    requires birth.Valid() && (Get(personal, BirthDate) != "" ==> personal[BirthDate] == IsoFormat(birth))
    requires expiry.Valid() && (Get(personal, ExpirationDate) != "" ==> personal[ExpirationDate] == IsoFormat(expiry))
    requires var s := Run(config, s0, steps);
             s.row.profile == OpticalV1 && s.row.status == Approved
    ensures var s := Run(config, s0, steps);
            s.h.decision.Some? &&
            var j := s.h.decision.value;
            && Front in j.claim.evidence
            && DatesConfirmed(j.report.frontText, j.today, birth, expiry)
            && !expiry.Before(j.today)
  {
    hide Init, Legal, Run, DataMatches, Passport, IsoFormat, Normalized, FromIso, DatesConfirmed;
    hide LiveChallenge.GenuineCapture, OpticalLiveness;
    var s := Run(config, s0, steps);
    assert Reachable(config, s);
    ApprovedIsJustified(config, s);
    InitialData(s0, personal);
    DataAlongRun(config, s0, steps, s0.row.document, personal);
    var j := s.h.decision.value;
    assert j.claim.personal == personal && j.claim.document == s0.row.document;
    assert Get(personal, BirthDate) != "" && Get(personal, ExpirationDate) != "";
    NoTextNoPassport(j.today.year);
    DocumentConfirms(j.report.frontText, j.today, personal, birth, expiry);
    IsoRoundTrip(expiry);
  }

  lemma InitialData(s0: State, personal: Fields)
    requires Init(s0) && s0.row.personal == Some(personal)
    ensures DataKept(s0, s0.row.document, personal)
  {
  }

  // ---------------------------------------------------------------- the other direction

  lemma NormalizedKeepsFirst(s: string)
    requires s != "" && IsAlnum(UpperChar(s[0]))
    ensures Normalized(s) != ""
  {
    assert MapChars(s, UpperChar)[0] == UpperChar(s[0]);
  }

  /** No field of a printed passport normalises to nothing. */
  lemma FieldsSurvive(h: Holder, k: Field)
    requires h.Valid() && k in h.Fields()
    ensures h.Fields()[k] != "" && Normalized(h.Fields()[k]) != ""
  {
    var value := h.Fields()[k];
    NumberBack(h.birth.year / 100);
    NumberBack(h.expiry.year / 100);
    hide Normalized, Number;
    assert IsWord((h.given + h.surname)[0]);
    NormalizedKeepsFirst(value);
  }

  /** What was declared is what is printed, up to case, spaces and punctuation. */
  ghost predicate DeclaresPrint(h: Holder, personal: Fields)
    requires h.Valid()
  {
    && Required(personal) != {}
    && forall k :: k in Required(personal) ==> k in h.Fields() && Agree(personal[k], h.Fields()[k])
  }

  /** Such data matches. */
  lemma DeclaredAsPrinted(h: Holder, personal: Fields)
    requires h.Valid() && DeclaresPrint(h, personal)
    ensures DataMatches(h.Fields(), personal) == Passed
  {
    hide Normalized, Holder.Fields, Agree;
    forall k | k in Required(personal)
      ensures Get(h.Fields(), k) != "" && Normalized(h.Fields()[k]) != ""
      ensures Normalized(personal[k]) == Normalized(h.Fields()[k])
    {
      FieldsSurvive(h, k);
      AgreeIsNormalized(personal[k], h.Fields()[k]);
    }
  }

  lemma AllPassed(checks: Checks, personal: Fields, today: Date)
    requires (forall k :: k in RequiredChecks(OpticalV1) ==> k in checks && checks[k] == Passed)
             && Failed !in checks.Values
    ensures var expiry := Get(personal, ExpirationDate);
            Decide(checks, personal, OpticalV1, SelfHosted, today)
            == if expiry != "" && FromIso(expiry).None? then None
               else if expiry != "" && FromIso(expiry).value.Before(today) then Some((ActionRequired, DocumentExpired))
               else Some((Approved, OpticalVerified))
  {
    hide FromIso;
  }

  /** A passport printed for a holder who declares it as printed, up to case, spaces and punctuation, is
      approved by the worker, exactly when the declared expiry, if there is one, is a date and not past. */
  lemma HonestPassport(config: WorkerConfig, claim: Claim, images: map<Kind, Digest>, report: Report, today: Date,
                       h: Holder)
    requires config.mode == SelfHosted && claim.profile == OpticalV1 && claim.document.key == "passport"
    requires claim.attempts <= 3 && {Front, Selfie} <= claim.evidence.Keys <= images.Keys
    requires report.raised.None? && OpticalLiveness(claim) == Passed && report.faceMatch == Passed
             && report.document != Failed
    requires h.Valid() && Shows(report.frontText, h.FirstLine(), h.SecondLine()) && h.nationality == "PHL"
    requires 2000 <= today.year <= 2099 && today.year - 100 < h.birth.year <= today.year
             && 2000 <= h.expiry.year <= 2099
    requires DeclaresPrint(h, claim.personal)
    ensures var expiry, o := Get(claim.personal, ExpirationDate), Evaluate(config, claim, images, report, today);
            (o.status, o.code)
            == if expiry == "" then (Approved, OpticalVerified)
               else if FromIso(expiry) != Some(h.expiry) then (ActionRequired, ProcessingFailed)
               else if h.expiry.Before(today) then (ActionRequired, DocumentExpired)
               else (Approved, OpticalVerified)
  {
    hide Passport, Shows, DataMatches, Holder.Fields, Holder.FirstLine, Holder.SecondLine, Decide, OpticalLiveness;
    hide DeclaresPrint;
    ReadingUndoesPrinting(h, report.frontText, today.year);
    DeclaredAsPrinted(h, claim.personal);
    var (checks, extracted) := Assess(config, claim, report, today.year);
    assert extracted == h.Fields();
    HasFields(h);
    assert checks == map[Ocr := Passed, DocumentIssuer := report.document, FaceMatch := Passed, Liveness := Passed,
                         DocumentData := Passed, OpticalDocument := Passed];
    DeclaredExpiry(h, claim.personal);
    AllPassed(checks, claim.personal, today);
  }

  lemma HasFields(h: Holder)
    requires h.Valid()
    ensures h.Fields() != map[]
  {
    assert FullName in h.Fields();
  }

  lemma IsoOfDigits(century: string, year: string, month: string, day: string)
    requires |century| == |year| == |month| == |day| == 2
    requires All(century, IsDigit) && All(year, IsDigit) && All(month, IsDigit) && All(day, IsDigit)
    ensures var d := Date(100 * Number(century) + Number(year), Number(month), Number(day));
            d.year <= 9999 && d.month < 100 && d.day < 100
                && IsoFormat(d) == century + year + "-" + month + "-" + day
  {
    DigitsPrinted(century);
    DigitsPrinted(year);
    DigitsPrinted(month);
    DigitsPrinted(day);
    hide Number, TwoDigits, All;
    var y := 100 * Number(century) + Number(year);
    assert y / 100 == Number(century) && y % 100 == Number(year);
  }

  /** A declared date is the text of that date. */
  lemma IsoIsPrinted(s: string)
    requires FromIso(s).Some?
    ensures var d := FromIso(s).value; d.Valid() && IsoFormat(d) == s
  {
    hide Number, TwoDigits, DaysIn, IsoFormat, All;
    IsoOfDigits(s[..2], s[2..4], s[5..7], s[8..]) by {
      DigitsOfYear(s[..4]);
      assert s[..4][..2] == s[..2] && s[..4][2..] == s[2..4];
    }
    assert s == s[..2] + s[2..4] + "-" + s[5..7] + "-" + s[8..];
  }

  lemma DigitsOfYear(s: string)
    requires |s| == 4 && All(s, IsDigit)
    ensures All(s[..2], IsDigit) && All(s[2..], IsDigit)
  {
  }

  /** A declared expiry that agrees with the printed one is that date, or no date in the form the
      decision reads. */
  lemma DeclaredExpiry(h: Holder, personal: Fields)
    requires h.Valid() && DeclaresPrint(h, personal)
    ensures var expiry := Get(personal, ExpirationDate);
            expiry != "" && FromIso(expiry).Some? ==> FromIso(expiry) == Some(h.expiry)
  {
    var expiry := Get(personal, ExpirationDate);
    if expiry != "" && FromIso(expiry).Some? {
      assert ExpirationDate in Required(personal);
      assert h.Fields()[ExpirationDate] == IsoFormat(h.expiry);
      hide FromIso, Normalized, IsoFormat, Agree, Holder.Fields;
      IsoIsPrinted(expiry);
      AgreeIsNormalized(expiry, IsoFormat(h.expiry));
      NormalizedIsoInjective(FromIso(expiry).value, h.expiry);
    }
  }
}
