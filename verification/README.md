# What the platform's riskiest code keeps

A Dafny model of the parts of the repository where many small steps, each harmless on its own, have to
add up to a promise: the identity verification service (a row and a blob store changed by concurrent
requests, workers and sweeps), the passport reader it approves documents with, the switch of the live
gateway between two runtimes, the writers and the reader of environment files, the artwork tool's flood
fill, and four smaller algorithms. Verify with `dafny verify dfyconfig.toml`.

## What is modelled

**The verification service.** `KycProtocol` is a state machine. A state holds one verification row, the
blob store, the tasks in flight and the callback outbox. Each request, worker run or sweep is a task
that survives between its steps, and one step is one database transaction or one blob put, get or
delete; a task may die after any step. `VerificationRow` gives every transaction as a function from the
locked row to the committed one, `LiveChallenge` the challenge document a live capture carries through
its frames, `Decision` what a worker makes of the row it claimed. `VerificationRecord` is the same row
and store as objects whose fields the service assigns one by one; each method is proved to carry out its
transaction function. `KycInvariant` is what holds in every reachable state; `CustodyProof`,
`LiveProof`, `IntegrityProof`, `WorkProof` and `StepProof` show that every step of every task keeps it.
`KycSafety`, `KycHistory`, `KycErasure`, `KycProgress` and `KycSweeper` draw the consequences for whole
runs, and `KycOperations` says what each operation answers in every state of every run. `DecisionTable` and
`DeclaredData` say what a worker decides from which answers.

The proof of "nothing dangles, nothing leaks" rests on a ledger no transaction reads: for every blob
ever put it says who has to answer for it (the operation that put it, the row under a kind, the one that
must delete it, or nobody since a crash).

**The passport reader.** `Optical` and `TextLines` are the reader, character by character. `MrzChecks`
says exactly which changes the check digits of section 4.9 of ICAO Doc 9303 Part 3 miss.
`Td3Printer` prints a holder in the layout of Part 4 and shows that reading undoes printing.
`ApprovedPassport` goes all the way from the text on the image to the approval in the row, and back;
`ApprovedRun` is a whole run of the service that ends there.

**The gateway switch.** `GatewaySwitch` runs the commands of the forward script and of the rollback with
any fault at any of them; `GatewayHost` is the host those commands change; `UpstreamFile` is the file
that remembers the active runtime.

**Environment files.** `EnvFile`, `EnvGrammar`, `EnvFileLimits` and `EnvScripts` are `update_env` against `read_env`;
`RegistryEdit`, `RegistryParts` and `RegistryLimits` are the edit of the enrolled gateway's file.

**The flood fill.** `BrandArtwork` works on arrays as the tool does, against a definition of connected
components by paths.

**Smaller algorithms.** `CallbackDelivery` (outbox and back-off), `NonceWindow` (replay protection),
`Ulid` (identifiers), `DependencyClosure` (the lock file's worklist).

## What is taken for granted

- Every transaction and every blob operation is atomic, and the clock is later at every step. The one
  place where the strictness matters is known exactly (`KycSafety.CommitAfterMark`).
- Storage keys, challenge tokens and random bits are fresh; a digest stands for the image it is taken of;
  sealing and unsealing lose nothing.
- The face analysis, the OCR engine, the label patterns of the two other document kinds and the
  assurance providers may answer anything: they are inputs.

## Where the code is narrower than it looks

- `TRANSITIONS` is not consulted by the service. Every change of status out of PENDING_UPLOAD, SUBMITTED
  or PROCESSING is nevertheless one of its edges; `erase` and `prune` leave the finished statuses, which
  the table does not allow (`KycSweeper.TableIsLeft`).
- The last transaction of `prune` does not look whether the row is erased already. An erasure is announced
  once exactly when it never finds it so (`KycSweeper.AnnouncedOnceExactly`), and two overlapping runs
  announce it twice (`KycSweeper.TwoSweepersAnnounceTwice`).
- The rollback of the gateway switch does not check the header its reload should have changed
  (`GatewaySwitch.SwitchExactly`, `GatewaySwitch.StrandedRun`, `GatewaySwitch.StaleRun`).
- The 3600 s limit of the callback back-off is never reached: the longest pause is 2560 s.
- `update_env` refuses a line feed but not the other characters `splitlines` splits at; a value with one
  of them is not read back (`EnvFileLimits.ReadAfterUpdateExactly`, `EnvFileLimits.LostValue`), and the
  next update changes the file again (`EnvFileLimits.UpdateIsIdempotentExactly`).
- The pattern of `save_registry` knows lines that end at line feeds only; in a file with other line breaks
  it may swallow neighbours (`RegistryLimits.SaveReadsExactly`, `RegistryLimits.LostNeighbour`).
- `passport` wants the digit 0 after an empty optional field and fails on the filler that Doc 9303 Part 4
  also allows there (`Td3Printer.FillerForZeroFails`).
- Replay protection holds as long as at most nine seconds pass between the check of a timestamp and the
  use of its nonce, and not beyond (`NonceWindow.ReplayRejectedExactly`).
- An identifier keeps fifty bits of the time (`Ulid.UlidOrder`).

## Model

| member | source | states |
|---|---|---|
| KycSafety.EvidenceInStore | services/kyc-service/app/live_capture.py:154-306 | Under every interleaving of all operations and crashes, a row in SUBMITTED or PROCESSING has a selfie, a front image and a back image where its document asks for them, and references only blobs that are in the store |
| KycSafety.CurrentClaimLoads | services/kyc-service/app/worker.py:38-67 | A worker whose claim could still be committed holds exactly the row's values, finds every claimed image, and loads the bytes that were put under its key |
| KycSafety.ApprovedIsJustified | services/kyc-service/app/worker.py:60-131 | In every reachable state of a non-mock service, an APPROVED optical row was decided on a claim whose challenge is complete and unfailed, whose nine steps were each passed by two consecutive matching frames, whose scored selfie is the image of that run's first match, taken facing the camera, and whose document, data, face and expiry checks passed |
| KycSafety.ApprovalExactly | services/kyc-service/app/worker.py:60-119 | The worker approves an optical claim by itself if and only if all images were loaded within three attempts, nothing raised, every check of the profile passed, the issuer check did not fail and a declared expiry date is not past |
| KycSafety.IssuerApprovedIsJustified | services/kyc-service/app/worker.py:60-131 | In every reachable state of a non-mock service, an APPROVED issuer row was decided on at most the third attempt, on the images stored for it with the selfie among them, with text read, and with document, face match and still liveness each passed by their engine; the issuer data did not fail and a declared expiry is a date not past |
| DecisionTable.PlainOutcome | services/kyc-service/app/providers.py:107-129 | The whole table for issuer claims, and for optical ones where the optical reader does not run: which answers of the engines give which status and reason, and which check carries which answer |
| DecisionTable.IssuerApprovalExactly | services/kyc-service/app/providers.py:107-129 | An issuer claim is approved if and only if the mode is provider or self-hosted, everything was loaded within three attempts with a selfie among it, nothing raised, text was read, each of the three engines passed, the issuer data did not fail, and a declared expiry is a date not past |
| DecisionTable.OpticalOutcome | services/kyc-service/app/worker.py:92-119 | The whole table for optical claims in the self-hosted mode, with the checks and the fields that are committed |
| DecisionTable.RaisedOutcome | services/kyc-service/app/worker.py:116-119 | An engine that raises makes it PROCESSING_FAILED with what was gathered before |
| DecisionTable.MockOutcomeExactly | services/kyc-service/app/worker.py:66-72 | The mock commits the outcome it is configured for with mock checks, or PROCESSING_FAILED |
| DecisionTable.NoReaderNoApproval | services/kyc-service/app/optical.py:83-91 | Without the back side of a PhilSys card or licence, and for any document but these and passports, nothing is read and nothing is approved |
| DecisionTable.LabelsAreRead | services/kyc-service/app/optical.py:83-91 | With a back side that shows any text the answer of the label patterns is taken |
| DeclaredData.DataMatchesExactly | services/kyc-service/app/optical.py:122-138 | The comparison passes if and only if something is declared and every declared value and the one read have the same letters and digits in the same order, case aside, and neither has none; it fails if and only if all say something and one differs; otherwise it is undecided |
| DeclaredData.StyleIsIgnored | services/kyc-service/app/self_hosted.py:93-94 | Case, spaces and punctuation, in the declaration or in what was read, never change the answer |
| KycSafety.LivenessNeverUnavailable | services/kyc-service/app/worker.py:92-110 | The worker's "unavailable" liveness branch is unreachable: what `submit` checked still holds in every claim |
| KycSafety.FramesAreSequential | services/kyc-service/app/live_capture.py:171-247 | Concurrent `frame` calls are a sequence: the stored document is the replay of the committed frames from the fresh one, except for the sweeper's mark after the deadline |
| KycSafety.CommitIsOnWhatWasRead | services/kyc-service/app/live_capture.py:231-247 | A frame that commits replaces exactly the document it was screened on and consumes a token never consumed before |
| KycSafety.TokensConsumedOnce | services/kyc-service/app/live_capture.py:184-215 | No token is consumed by two committed frames, and the current token by none |
| KycSafety.RetryAfterCommit | services/kyc-service/app/live_capture.py:171-189 | In every state of every run, however much has happened in between, sending the last committed frame again changes nothing; it is answered with the reply of its commit exactly while the row is pending, still has the challenge, and the challenge is neither failed nor past its deadline, and is refused otherwise |
| KycOperations.FrameAnsweredExactly | services/kyc-service/app/live_capture.py:171-189 | In every reachable state `frame` answers any request as the history of the challenge says: the row's refusals first, then expiry by the 120 s of the challenge or a failed frame, the acknowledgement of the last frame, the token, the 20 s of the step and the 80 frames, the 0.35 s, the replay |
| KycOperations.FrameCommitsExactly | services/kyc-service/app/live_capture.py:231-247 | A frame that was let through commits if and only if the row still takes frames, has the token it carries, and neither 120 s since the start nor 20 s since the step began are over; it then leaves the document of the history with this frame, the ninth step linking the first answer as selfie for ten minutes, and else the row as it was |
| KycOperations.SubmitAnswers | services/kyc-service/app/service.py:165-186 | What `submit` answers to any row: erased, already submitted, images missing by the flags of the document, no live proof, or submitted |
| KycOperations.SubmitExactly | services/kyc-service/app/service.py:165-186 | In every reachable state `submit` changes a pending row to submitted, and nothing else, if and only if it has a selfie, the sides its document asks for, and, if optical, a complete and unfailed capture of at most 600 s ago whose reference is that selfie |
| KycOperations.SubmittedCapture | services/kyc-service/app/service.py:175-183 | The capture such a row is submitted with passed nine steps, ended at most ten minutes before, and its first answering frame is the selfie |
| KycOperations.ClaimExactly | services/kyc-service/app/worker.py:38-59 | In every reachable state a worker gets the row if and only if it is submitted or in processing and the last claim of its history is more than 300 s old; the claim then holds the values of the row, counts the attempt and lasts 300 s |
| KycOperations.ConsultExactly | services/kyc-service/app/worker.py:60-119 | A worker asks the engines once, outside the mock mode, on at most its third attempt and with every image loaded; the attempt is counted when it begins, and it judges only after that |
| KycOperations.RetentionExactly | services/kyc-service/app/worker.py:177-189 | A sweep takes a row up if and only if its time is over and it is not erased |
| KycOperations.TombstoneExactly | services/kyc-service/app/worker.py:190-208 | The tombstone closes the row, takes the personal data and lists exactly the keys of its images and its reference selfie; an erased row ends the sweep |
| KycOperations.LastStepsEnd | services/kyc-service/app/worker.py:121-131 | The last step of every request, worker and sweep ends it, or leaves it with blobs to delete |
| KycProgress.VerdictReachable | services/kyc-service/app/worker.py:38-131 | From every reachable state in SUBMITTED or PROCESSING, whatever crashed before and is still in flight, one more worker can claim the row, load every image, ask where it has to, and commit as verdict, with its callback, what the decision makes of any answers of the engines |
| StepProof.Inductive | services/kyc-service/app/worker.py:38-229 | Every step of every task keeps the whole invariant: custody of blobs, challenge, references, claims, verdict, callbacks, leases, erasure |
| StepProof.ReachableInv | services/kyc-service/app/worker.py:38-229 | The invariant holds in every state any interleaving leads to |
| CustodyProof.FrameRefs | services/kyc-service/app/live_capture.py:216-247 | A committed frame adds exactly the reference it stored to the row |
| KycHistory.StatusNeverReturns | services/kyc-service/app/schemas.py:24-40 | Over any run from any reachable state the status never moves back in its rank, CANCELLED is final, a verdict never changes, `version` grows with every change of status or verdict, and erased data stays erased |
| KycHistory.StatusChangesFollowTable | services/kyc-service/app/schemas.py:24-40 | Every change of status out of an unfinished status is an edge of `TRANSITIONS`; the others are cancellation of a finished row and expiry of one in review |
| KycHistory.TransitionsAre | services/kyc-service/app/schemas.py:24-40 | The table has these fourteen edges and no other |
| KycHistory.VerdictOnlyOnClaim | services/kyc-service/app/worker.py:121-131 | A stale worker never wins: a verdict is written only on a PROCESSING row without one, whose values, evidence included, are those of the claim, and its callback is enqueued in the same step |
| KycHistory.OneCallbackPerVerdict | services/kyc-service/app/service.py:60-71 | A row with a verdict has exactly one callback announcing it, with the version, status and content of that commit; a row without has none |
| KycHistory.ClaimsAreApart | services/kyc-service/app/worker.py:38-59 | Claims are counted by `attempts`, and any two are more than 300 s apart |
| KycHistory.RunsAreDisjoint | services/kyc-service/app/worker.py:26-59 | Of two workers in flight, computing or done computing, the one with the earlier attempt claimed more than 300 s before the other, so it is past the 270 s hard limit: runs that keep to it never overlap |
| KycHistory.ConsultedAtMostThrice | services/kyc-service/app/worker.py:60-91 | Over any history of crashes at most three workers begin to ask the providers, once per attempt, those killed while they ask included |
| KycHistory.StoreIsAccountedFor | services/kyc-service/app/service.py:130-163 | When no task is in flight every blob in the store is referenced by the row or was orphaned by a crash |
| KycHistory.ErasureIsComplete | services/kyc-service/app/worker.py:177-222 | Once a row is erased and every task has ended, no image is left in the store and no personal data in the row, whatever crashed, unless a task died while it had to commit or delete a blob |
| KycErasure.ErasureReachable | services/kyc-service/app/worker.py:177-222 | From every reachable state some continuation ends every task, runs an erasure request and one sweep where the row is not erased yet, and orphans no blob; it ends with an erased row without personal data and a store that holds nothing but blobs earlier crashes had already orphaned |
| KycSweeper.AnnouncedOnceExactly | services/kyc-service/app/worker.py:177-222 | Over every run an erasure is announced once if it happened and never if it did not, if and only if each sweep's last transaction finds the row not erased yet, which that transaction does not check |
| KycSweeper.OneSweeperAnnouncesOnce | services/kyc-service/app/worker.py:177-222 | So sweeps that do not overlap announce an erasure exactly once |
| KycSweeper.TwoSweepersAnnounceTwice | services/kyc-service/app/worker.py:190-222 | With two overlapping sweeps a reachable state has two announcements |
| KycSweeper.TableIsLeft | services/kyc-service/app/service.py:188-195 | A reachable row that the sweep expired is cancelled by `erase`, a change the table does not have |
| KycHistory.NeverPendingAgain | services/kyc-service/app/live_capture.py:124-132 | Once `pending` refuses a row, at any point of any run, no challenge is started, no new frame is let through and none commits on it ever after |
| LiveChallenge.ChainInvariant | services/kyc-service/app/live_capture.py:139-230 | After any accepted frames: frames equals the number of hashes, all distinct, at most 80; hits is 0 or 1; 2·step + hits ≤ frames; complete iff step is 9; the selfie is set once anything matched; even steps prompt "center"; the deadline is 120 s after the start |
| LiveChallenge.DocumentIsHistory | services/kyc-service/app/live_capture.py:139-230 | The document kept entry by entry is determined by the accepted frames alone: steps passed by the second of two neighbours that both answered, the prompt by their number and the side drawn, the selfie by the first answer, deadlines by the start and by the last passed step |
| LiveChallenge.AnswersFromHistory | services/kyc-service/app/live_capture.py:171-189 | So what `frame` answers before it analyses is a function of the accepted frames, with 120 s, 20 s, 80 frames and 0.35 s as its limits |
| LiveChallenge.StepsAreTimely | services/kyc-service/app/live_capture.py:186-224 | Every accepted frame arrived within 20 s of the start or of the last frame before it that passed a step |
| LiveChallenge.StepsWerePassed | services/kyc-service/app/live_capture.py:197-229 | Every step below the current one was passed by two consecutive frames that match its prompt |
| LiveChallenge.SelfieIsFirstMatch | services/kyc-service/app/live_capture.py:216-220 | The reference selfie is the first frame of the run that matched, prompted "center" |
| LiveChallenge.FramesAreSpaced | services/kyc-service/app/live_capture.py:186-212 | n accepted frames take at least (n - 1)·0.35 s and end within 120 s of the start |
| LiveChallenge.CompletedChallenge | services/kyc-service/app/live_capture.py:186-230 | A complete document is the end of 18 to 80 different frames over at least 17·0.35 s, within 120 s and each within the 20 s of its step, all nine steps passed, with the first match as reference |
| LiveChallenge.NoEndlessChallenge | services/kyc-service/app/live_capture.py:186-187 | No challenge accepts more than 80 frames, whatever the analyser answers |
| LiveChallenge.RetryIsAcknowledged | services/kyc-service/app/live_capture.py:177-183 | The document a frame leaves acknowledges that frame again with its own reply, exactly while it is open and not failed |
| LiveChallenge.TokensLink | services/kyc-service/app/live_capture.py:184-214 | Each accepted frame consumes the token its predecessor issued, the first one that of the start |
| LiveChallenge.PosesApartExactly | services/kyc-service/app/config.py:80-90 | With positive thresholds no pose answers two prompts if and only if the centre tolerance is below the turn threshold, the condition a configuration with liveness models is checked for |
| LiveChallenge.StillFaceNeverCompletes | services/kyc-service/app/live_capture.py:197-229 | Under that condition frames that all show the same pose pass one step at most, so they never complete a challenge |
| VerificationRecord.ComputeFrame | services/kyc-service/app/live_capture.py:197-230 | The entry-by-entry update of the dictionary computes the next document, the key to store and the feedback |
| VerificationRecord.Record.Start | services/kyc-service/app/live_capture.py:153-168 | On a pending optical row, and on no other, installs the document, drops the old selfie, changes nothing else and returns exactly the keys that became garbage |
| VerificationRecord.Record.CommitFrame | services/kyc-service/app/live_capture.py:231-247 | The compare-and-swap on the token: which error on which condition, and the exact row when there is none |
| VerificationRecord.Record.Submit | services/kyc-service/app/service.py:165-186 | Which refusal on which condition by the flags and fields, the exact row when submitted, and no change otherwise |
| VerificationRecord.Record.ClaimForWork | services/kyc-service/app/worker.py:39-59 | Claims exactly an unfinished, unerased row whose lease is absent or over, for 300 s, and returns the values as they are after the claim |
| VerificationRecord.Record.CommitResult | services/kyc-service/app/worker.py:121-131 | Writes status, verdict and fields exactly on the claimed version of a PROCESSING row, ends the lease and the capture, and returns the callback of that state |
| VerificationRecord.Record.Tombstone | services/kyc-service/app/worker.py:192-208 | Closes the four open statuses only, removes personal data and lists every referenced key |
| VerificationRecord.Record.Prune | services/kyc-service/app/worker.py:190-221 | With nobody else at work exactly the referenced blobs leave the store and the row ends erased |
| VerificationRecord.BlobStore.DeleteAll | services/kyc-service/app/storage.py:49-50 | Removes exactly the given keys; a missing one is no error |
| MrzChecks.DigitMissesChange | services/kyc-service/app/optical.py:26-34 | On a string of any length the check digit misses a changed character exactly when the two values agree modulo 10 |
| MrzChecks.DigitMissesSwap | services/kyc-service/app/optical.py:26-34 | On a string of any length it misses the swap of two neighbours exactly when their values agree modulo 5 |
| MrzChecks.SumByThrees | services/kyc-service/app/optical.py:26-34 | The weights 7, 3, 1 repeat from the left, for strings of any length |
| MrzChecks.DigitIsResidue | services/kyc-service/app/optical.py:26-34 | The check digit is that sum modulo 10 |
| MrzChecks.ValueIsPlace | services/kyc-service/app/optical.py:26-34 | A character counts its place in the alphabet of digits and letters, the filler nothing |
| MrzChecks.ChangeGoesUnnoticed | services/kyc-service/app/optical.py:60-68 | A passing second line still passes after the change of one character exactly at the uncovered positions 10 to 12 and 20, or at a data position where the values agree modulo 10; every change of a check digit is caught |
| MrzChecks.SwapGoesUnnoticed | services/kyc-service/app/optical.py:60-68 | At each of the 43 positions, a passing second line still passes after the swap of two neighbours exactly: inside a field when their values agree modulo 5; with the own check digit of the field when besides the data character is a digit; from an uncovered position into a field when they agree modulo 10; otherwise behind a check digit when they are equal; always between uncovered positions |
| Td3Printer.FillerForZeroFails | services/kyc-service/app/optical.py:60-68 | For every holder without optional data, the line that has a filler for the printed zero, which Part 4 allows and which keeps the other four digits good, is "failed" |
| Td3Printer.PassportWithFiller | services/kyc-service/app/optical.py:60-68 | There is such a holder and such a text |
| Td3Printer.ReadingUndoesPrinting | services/kyc-service/app/optical.py:50-80 | Whatever else the text holds, as long as no other line looks like a first line: the printed zone of any holder is read back to exactly the holder's fields and "passed" if and only if the nationality is PHL, the birth year lies in the last hundred years ending this year and the expiry year in 2000 to 2099 |
| Td3Printer.RetypedTextShows | services/kyc-service/app/optical.py:50-59 | The two printed lines below one another, in any case and with white space anywhere, are such a text |
| Td3Printer.ZoneForm | services/kyc-service/app/optical.py:50-56 | The lines of a zone: P, a letter or filler, PHL and 39 letters or fillers; 44 letters, digits or fillers |
| Td3Printer.PassportFailsExactly | services/kyc-service/app/optical.py:50-68 | A text is failed if and only if it shows exactly one zone and one of its check digits is wrong; with no zone or several nothing is read and the answer is open |
| Td3Printer.NamesDecide | services/kyc-service/app/optical.py:69-80 | With good check digits the fields are read if and only if there is a name on either side of the first double filler; they pass if and only if none is empty |
| Td3Printer.FieldsOfPair | services/kyc-service/app/optical.py:72-79 | The issuing country is always PH, the nationality PH or empty, the number what stands before the trailing fillers |
| Td3Printer.OnlyDatesAreRead | services/kyc-service/app/optical.py:37-47 | Whatever is read as a date is the date its six digits print |
| Td3Printer.Calendar | services/kyc-service/app/optical.py:43-46 | The days of the months, with the leap years of the Gregorian calendar |
| Td3Printer.AlterationDetected | services/kyc-service/app/optical.py:50-68 | The text of a passport whose good second line had one character changed is "failed" exactly unless the position is uncovered or the values agree modulo 10 |
| Td3Printer.BirthDateReadBack | services/kyc-service/app/optical.py:37-47 | Six printed digits give a birth date back exactly when it lies in the last hundred years, this year included |
| Td3Printer.ExpiryReadBack | services/kyc-service/app/optical.py:37-47 | Six printed digits give an expiry date back exactly when it lies in this century |
| Td3Printer.NameReadBack | services/kyc-service/app/optical.py:69-73 | Joined by fillers, padded, and split at white space, the names come back as given names and surname with single spaces |
| ApprovedPassport.ApprovedPassportDates | services/kyc-service/app/providers.py:107-129 | Over every run from the creation of a passport row that has to declare both dates: once it is approved, its front image showed exactly one zone with five good check digits whose birth and expiry dates are the declared ones, and the passport was not expired that day |
| ApprovedPassport.HonestPassport | services/kyc-service/app/worker.py:92-110 | A printed passport with dates in those windows, declared as it is printed up to case, spaces and punctuation, with face and liveness passed, is approved by the worker exactly when its declared expiry, if any, is a date and not past; otherwise it is sent back as expired or, if no date, as failed |
| ApprovedRun.HolderIsApproved | services/kyc-service/app/worker.py:38-131 | Approval can be reached: for every printed passport with dates in those windows that is not expired, declared up to case, spaces and punctuation, and any thresholds that let a centred face match, there is a run from the creation of the row through upload, eighteen frames, submission and one worker to an APPROVED row |
| ApprovedRun.ApprovalIsReachable | services/kyc-service/app/worker.py:38-131 | There is such a holder, with both dates required and declared, so the statements about approved rows speak of something |
| ApprovedPassport.NormalizedIsoInjective | services/kyc-service/app/self_hosted.py:93-94 | The comparison of letters and digits only loses nothing of an ISO date |
| ApprovedPassport.DataAlongRun | services/kyc-service/app/service.py:87-114 | What every worker compares with is the personal data the row was created with |
| BrandArtwork.FillSmallHighlights | tools/BrandArtwork.cs:30-70 | Although the image changes between searches, every pixel ends as the specification says for the initial image: painted with the source pixel iff it was transparent, its component has at most 24 pixels and it lies inside the source rectangle, else unchanged |
| BrandArtwork.FilledAt | tools/BrandArtwork.cs:60-68 | By coordinates: the pixel at (x, y) of a component of at most 24 gets the opaque colour of the source pixel at (x - padding, y - padding) if there is one, and every other pixel keeps its own |
| BrandArtwork.NeighboursByCoordinates | tools/BrandArtwork.cs:36-53 | Neighbours are the pixels one step away in one coordinate |
| BrandArtwork.Explore | tools/BrandArtwork.cs:41-58 | The search never overruns its queue, terminates, and ends with exactly the 4-connected component of its start in the queue, each pixel once |
| BrandArtwork.Paint | tools/BrandArtwork.cs:61-68 | Repaints exactly the queued pixels under the source rectangle |
| BrandArtwork.Exhausted | tools/BrandArtwork.cs:44-58 | When the queue is exhausted it is the component by paths, and what is visited are whole components |
| BrandArtwork.QueueFits | tools/BrandArtwork.cs:34-35 | Different pixels of an image never outnumber the queue |
| BrandArtwork.RepaintingIsIdempotent | tools/BrandArtwork.cs:30-70 | Repainting the result again changes nothing, although its components are smaller |
| GatewaySwitch.SwitchExactly | scripts/ocpp-runtime.py:131-153 | With any fault at any command and no reload taken on trust: a switch from a safe state keeps nginx pointing at a running gateway, and some runtime starting at boot, at its end and in every state on the way, if and only if it does not get to stop the target after entering the rollback with the target loaded and having its reload silently do nothing; success leaves only the target running, enabled and active; a completed rollback enables the previous runtime, alone, and leaves nginx on it if and only if it did not find the other one loaded with its own reload doing nothing; a start that fails changes only what runs; an unrecognised file changes nothing |
| GatewaySwitch.SwitchesExactly | scripts/ocpp-runtime.py:131-153 | Through any number of switches, failed rollbacks in between included, every state is safe if and only if none of them strands |
| GatewaySwitch.SwitchRecovers | scripts/ocpp-runtime.py:131-153 | From any safe state with a recognised file a switch that meets no fault succeeds |
| GatewaySwitch.HeaderWouldTell | scripts/ocpp-runtime.py:144-152 | In every such case the header after that reload does not name the previous runtime: the check of the forward path, which the rollback lacks, would have told |
| GatewaySwitch.StrandedRun | scripts/ocpp-runtime.py:131-153 | A run of `switch` from a settled host reports a completed rollback and leaves nginx pointing at the runtime it stopped |
| GatewaySwitch.StaleRun | scripts/ocpp-runtime.py:131-153 | From the state a failed rollback leaves, a run that is safe, reports a completed rollback and leaves nginx on the other runtime |
| GatewaySwitch.RejectedIsNotLoaded | scripts/ocpp-runtime.py:135-138 | A configuration that `nginx -t` rejects is never loaded: the forward part stops there and has changed the file only |
| GatewaySwitch.RejectedIsNotRestored | scripts/ocpp-runtime.py:144-149 | Nor is one that the test of the rollback rejects, and nothing has been stopped or disabled |
| GatewaySwitch.OldRuntimeStays | scripts/ocpp-runtime.py:139-143 | While a check of the new gateway fails the old runtime keeps running and keeps its place at boot |
| GatewaySwitch.ChecksAreMade | scripts/ocpp-runtime.py:135-149 | Both scripts make these tests and checks |
| GatewayHost.Host.SwitchTo | scripts/ocpp-runtime.py:131-153 | The method goes through exactly the states of the specification and ends as it does |
| GatewayHost.Host.GoForward | scripts/ocpp-runtime.py:135-143 | The `try` block runs the forward script to its end or to the command that fails |
| GatewayHost.Host.GoBack | scripts/ocpp-runtime.py:144-152 | The `except` block runs the rollback script likewise, without stopping the target when it is the previous runtime |
| GatewayHost.Host.StartUp | scripts/ocpp-runtime.py:107-112 | Starts a runtime and waits for it |
| GatewayHost.Host.SelectBootRuntime | scripts/ocpp-runtime.py:115-121 | Enables the new runtime before it disables the other |
| UpstreamFile.ActiveModeIsWritten | scripts/ocpp-runtime.py:34-49 | A text is recognised as a runtime exactly when it is the text written for it with the configured port |
| UpstreamFile.UpstreamText | scripts/ocpp-runtime.py:34-41 | The text written for a runtime, for the ports 1024 to 65535 and no other |
| EnvFileLimits.ReadAfterUpdateExactly | scripts/enable-staging-kyc.py:21-40 | For a readable file, environment keys and values the writer accepts, this holds if and only if no value has a character `splitlines` splits at |
| EnvFileLimits.LostValue | scripts/enable-staging-kyc.py:34-38 | A value of one next-line character is accepted and not read back |
| EnvFile.UntouchedLines | scripts/enable-staging-kyc.py:22-33 | For every value the writer accepts: between the line feeds of the new file stand the old lines in their places, one with an updated key replaced by the assignment of that key, and then only assignments of updated keys no old line has |
| EnvFileLimits.UpdateIsIdempotentExactly | scripts/enable-staging-kyc.py:21-40 | Updating an updated file again gives the same text if and only if no value has a character `splitlines` splits at |
| EnvFile.ReadAssign | scripts/validate-kyc-deployment.py:37-48 | A written assignment is read as its key and value, quotes removed and dollars allowed |
| EnvGrammar.SingleQuotedRead | scripts/validate-kyc-deployment.py:37-48 | Between single quotes anything is read as it stands, dollars and inner quotes included, blanks around them dropped |
| EnvGrammar.DoubleQuotedRead | scripts/validate-kyc-deployment.py:37-48 | Between double quotes likewise, but a dollar is refused |
| EnvGrammar.PlainRead | scripts/validate-kyc-deployment.py:37-48 | Any other value is read without the blanks around it, and a dollar is refused |
| EnvGrammar.LineExactly | scripts/validate-kyc-deployment.py:36-48 | What one more line does: blank and comment lines nothing, a line without an environment key is invalid, a key read before is a duplicate, any other adds its key or is refused for its dollar |
| EnvGrammar.UpdateRefusesExactly | scripts/enable-staging-kyc.py:25-35 | The update refuses exactly a file in which two lines start with the same updated key, and else a value with a quote or a line feed |
| EnvFile.AddedInOrder | scripts/enable-staging-kyc.py:33-33 | What is added follows in the order of the updates |
| EnvScripts.ReadEnv | scripts/validate-kyc-deployment.py:31-49 | The loop computes the map the reader is specified by, or its first error |
| EnvScripts.UpdateEnv | scripts/enable-staging-kyc.py:21-40 | The loops compute the specified text, or the error on a repeated key or an unsupported value |
| RegistryLimits.SaveReadsExactly | scripts/ocpp-staging.py:224-253 | For any readable file, any updates and any values: the edit goes through if and only if `dotenv` accepts every value and a line that ends at a line feed starts with the registry; its result is then read as the old map with the new registry, overridden by the updates, if and only if no value has a character `splitlines` splits at and, of each line that ends at a line feed, the reader finds only edited keys if it starts with one and none of them otherwise |
| RegistryLimits.ReadAfterSave | scripts/ocpp-staging.py:224-253 | So with line feeds only and values on one line nothing is ever lost, and the edit goes through exactly when the file has the registry |
| RegistryLimits.SaveRefusesExactly | scripts/ocpp-staging.py:232-245 | For a readable file, a value `dotenv` does not accept is told apart from a missing registry |
| RegistryLimits.TwoRegistriesRefused | scripts/ocpp-staging.py:235-245 | A file with two lines that start with the registry is refused, readable or not |
| RegistryParts.SetAllOnParts | scripts/ocpp-staging.py:246-253 | The edits after that of the registry, each on what the one before has written, are one edit of the pieces between the line feeds that are not empty: those that begin with an edited key are replaced, the keys no piece begins with follow in the order of the updates |
| RegistryParts.SetExactly | scripts/ocpp-staging.py:246-253 | One edit character by character: lines that start with the key become its assignment and every other stays, blank ones included; where there is none it follows the text, one line feed in place of those at its end |
| RegistryEdit.SaveRegistry | scripts/ocpp-staging.py:232-253 | The edits one after the other give the specified text, or the error |
| RegistryLimits.OccursOnce | scripts/ocpp-staging.py:235-245 | In a readable file, whatever its line breaks, the pattern of a key matches at most once |
| RegistryLimits.LostNeighbour | scripts/ocpp-staging.py:232-245 | For every other key there is a readable file whose edit swallows that key behind a vertical tab |
| CallbackDelivery.DeliveriesArePaced | services/kyc-service/app/worker.py:136-173 | With any number of workers and crashes, attempt k + 1 starts at least 10·2^min(k, 8) s after attempt k, attempts are counted, and an event is marked delivered only after a 2xx answer |
| CallbackDelivery.DueAgain | services/kyc-service/app/worker.py:137-152 | An undelivered event can be claimed again 2560 s after its last attempt at the latest |
| CallbackDelivery.AnswerExactly | services/kyc-service/app/worker.py:161-169 | A worker goes on to mark an event exactly on an answer of 200 to 299 |
| CallbackDelivery.CapNeverApplies | services/kyc-service/app/worker.py:149-151 | The limit of 3600 s is never the smaller one |
| CallbackDelivery.DeliveredIsFinal | services/kyc-service/app/worker.py:137-147 | A delivered event is never attempted again |
| CallbackDelivery.OutboxRow.TryClaim | services/kyc-service/app/worker.py:137-152 | Claims exactly an undelivered event that is due, counting the attempt and setting the next one |
| CallbackDelivery.OutboxRow.Deliver | services/kyc-service/app/worker.py:136-173 | Claim, request and mark, one after the other: an event that is not due stays as it is, one that is keeps its claim whatever the client raises or answers, and is delivered only on a 2xx |
| NonceWindow.ReplayRejectedExactly | services/kyc-service/app/security.py:77-105 | No pair of timestamp and nonce is let through twice over any run of concurrent requests, exactly when at most nine seconds pass between checking the timestamp and using the nonce |
| NonceWindow.AdmittedExactly | services/kyc-service/app/security.py:77-86 | A request gets as far as its nonce exactly when its timestamp is within 300 s of the clock in whole seconds and its nonce has 32 lower-case hexadecimal digits |
| NonceWindow.NonceStore.Consume | services/kyc-service/app/security.py:33-34 | Accepts a nonce exactly when it is unknown or forgotten, and then remembers it for 610 s |
| Ulid.DecodeText | services/kyc-service/app/service.py:29-32 | Decoding undoes encoding for every value of 130 bits |
| Ulid.MatchesPattern | services/kyc-service/app/schemas.py:7-7 | At any time, a new identifier has the form the schemas demand exactly when the time modulo 2^50 ms, which is all of it that 26 characters keep, is below 2^48 ms |
| Ulid.OrderIsNumeric | services/kyc-service/app/service.py:29-32 | The order of identifiers as strings is the order of their values |
| Ulid.UlidOrder | services/kyc-service/app/service.py:29-32 | At any two times, identifiers sort by the time modulo 2^50 ms, then by the random bits; so until the year 37648 a later millisecond sorts after an earlier one |
| DependencyClosure.Lock | services/kyc-service/scripts/lock_dependencies.py:11-37 | The loop ends, fails exactly when something needed is not installed, and else pins exactly the names reachable from the project's requirements, at the installed versions |
| DependencyClosure.ClosureIsLeast | services/kyc-service/scripts/lock_dependencies.py:15-37 | What is reachable lies in every set that holds the roots and is closed under the selected dependencies |
| DependencyClosure.MarkerHolds | services/kyc-service/scripts/lock_dependencies.py:26-36 | A dependency is selected when it has no marker or its marker holds for one of the requested extras, or for none requested |

## Left out

- Several rows: the protocol is that of one verification row with its blobs; `scoped`'s tenant check, the
  idempotency fingerprint of `create` and `details`, `read` and `image` are not modelled.
- Ambiguous commits: a transaction is known to have committed or not. A lost connection after a commit
  would let `frame` and `upload` delete a blob the row already references.
- `LocalStorage.prune_expired`: it deletes files by age whatever references them, so the store is the S3 one.
- Locks: the last transaction of `prune` reads the row without a lock and is modelled as atomic.
- Image normalisation, metadata and sharpness; the sizes and formats the schemas check.
- OpenCV, ONNX and Tesseract: their answers are arbitrary inputs. The label patterns and date formats
  that read PhilSys cards and driver's licences are an input as well.
- Text outside ASCII: `upper`, the NFKD step of the normalisation and digits of other scripts.
- `date.fromisoformat` is modelled on the YYYY-MM-DD form the declared dates are stored in.
- The date of the day is one value per decision, for `mrz_date` and `decide` alike.
- `Celery`, the tick that selects work and the limit of 100 rows a sweep takes.
- The gateway's runtimes do not stop by themselves, and nobody else edits the upstream file during a
  switch. Reading the health endpoint is one command that succeeds only when what it observes is so.
- The regular expressions of `save_registry` are modelled by what they match; the lock file, the
  comparison with the expected content and the backup are not part of the model, nor are ownership and
  mode checks of `read_env`.
- A nonce store that loses its data, and the request signature: a pair of timestamp and nonce stands for a
  signed request. The rate limit behind the nonce is left out.
- `BrandArtwork.Transparent`, `Unmatte` and `Monochrome`: floating-point pixel arithmetic and plain loops.
- Pin file text and marker evaluation: a marker is an arbitrary predicate on the requested extra.
- The platform's PHP and TypeScript code.
