# Verified models of a website scanner

Dafny models of the parts of the scanner whose correctness spans many steps, runs or inputs, with proofs of what those
parts are for. `dafny verify dfyconfig.toml` checks everything. Each file holds one module of the same name.

| area | modules |
|---|---|
| durable scan-job pump: wake rows, driver record, pre-arm field | `DurablePump`, `PumpProtocol`, `PumpWakes`, `PumpCallbacks` |
| publication reconciliation: due test, wake, backoff, turns | `Reconciliation`, `ReconciliationTurns`, `ReconciliationCounts` |
| censoring analysis of a calibration study | `CensoringModel`, `CensoringEnumeration`, `CensoringRates`, `CensoringAnalysis`, `CensoringResults`, `CensoringPublication` |
| page collector: bounded text, storage rows | `BoundedText`, `PageStorage` |
| canonical JSON | `JsonText`, `CanonicalJson` |
| remediation of stored reports in R2 | `R2Bucket`, `R2Remediation`, `R2Apply`, `R2Rewrite`, `R2Cuts`, `R2Crash`, `R2Stages`, `R2Run` |
| connection inspection: recorder, publisher, validator | `CallStackPublisher`, `StackTally`, `StackRanking`, `InspectionEvidence`, `ConnectionInspection`, `InspectionTables`, `InspectionRuns`, `InspectionFollows`, `InspectionBounds` |
| small state machines | `AdmissionLimit`, `LatestOperation`, `OperationOwner`, `ResponseBody`, `ConsentPage`, `ConsentTrials`, `ConsentSweep`, `ConsentSearch`, `ImportFrontier`, `ImportTrails` |
| comparison gate, fingerprints and cohorts | `ComparisonGate` |
| shared by all | `Wrappers`, `Utf16` |

## How the models are built

- An object whose methods update its fields is a class with those fields. Each method is one stretch that runs without an
  await, and is proved equal to a function on values; the lemmas about runs, interleavings and crashes are about those
  functions.
- The pump is a step system. An event is one stretch between two awaits, an isolate reset, or a deletion by the base
  class. Any number of callbacks and recomputations may be suspended at once. Identifiers and epochs are fresh when they
  are minted. Admission's wake and its commit are one step.
- Every operation on the R2 bucket happens after an arbitrary number of moves by other writers, and the run may die
  before any operation. An object version is known by its tag, and no tag is used twice.
- The page of a consent search answers every call as an arbitrary function of the number of calls made so far.
- Hashes, redaction, NFC, the Wilson interval, the remediation planner, the managed reader and text handling are
  parameters. What is asked of each is a `requires` of the lemmas that need it: injectivity of a digest, NFC that is
  idempotent and leaves ASCII alone, redaction that publishes hosts and addresses in the published shapes.
- Strings of the browser and of JSON are sequences of UTF-16 code units.

## Where the code does less than its comments say

Each of these is a theorem about the code as it is.

- `PumpProtocol.StaleReturnIsUnsafeIff`: a callback that finds itself stale returns, and its row is deleted only
  afterwards. The driver can be left naming a deleted row exactly when, at the stale check, that row is still the
  candidate of a suspended pre-arm or re-arm. `PumpProtocol.DriverDangles` is such a run, from empty tables.
- `PumpCallbacks.CallbackKeepsWakeIff`: a callback that is not told its own row's identifier can reuse that row as its
  successor just before the row is deleted; the lemma says exactly when no wake is left.
  `PumpWakes.RunKeepsLastingIff` says it for any number of callbacks interleaved in any way, racing or not.
- `PumpCallbacks.CompactedRecomputationMayWakeLate`: the comment at `cloudflare/container-worker.ts` lines 2785-2787 says
  the winner of a concurrent swap wakes no later than the compacted recomputation. A recomputation that read the tables
  earlier but publishes first can win with a later wake. `PumpCallbacks.LoserWakesInTimeIff` says when that is harmless.
- `ReconciliationCounts.MinuteBoundFailsIff`: an attempt that the turn's timer cuts short stores no backoff and costs half
  a minute where the backoff would cost a minute. The bound of the backoff fails exactly when the deadline lies between
  50 s and a minute, or more than 80 s, after settlement. `ReconciliationCounts.UnforcedIff` is the bound that holds, and
  `ReconciliationCounts.KeptIff` the one for turns that all live to leave their successor.
- `CanonicalJson.RoundTrip`: an array with a hole is accepted and prints nothing for it, so the output does not read
  back; `CanonicalJson.HolePrintsAsNothing` shows two values that print alike.
- `CensoringAnalysis.LossesConservedIff`: a loss reason that is the name of a property every object inherits makes the
  analysis refuse the study, and nothing else trips that check.
- `CallStackPublisher.KeysCollideIff`: two different URLs can share a held key in one case: a short URL that spells the
  digest key of a long one.
- `LatestOperation.OrphanedIff`: a run begun inside an abort listener is dropped without being aborted. Its sibling
  `ClientOperationOwner` never forgets a lease (`OperationOwner.LeasesAreAccountedFor`).
- `ComparisonGate.CohortPairsOnlyByAutomation` and `ComparisonGate.PaddingSplitsACohort`: the history cohort trims the
  automation label and the gate does not, so two visits of one cohort can still be refused as different pipelines.
- `ComparisonGate.EligibleIsCompatible`: a strictly eligible pair can have unprovable fingerprints, exactly when the
  automation label is unknown or an active engine has no positive whole number of lists.
- `BoundedText.BoundedNodeText`: text that fits exactly may still be reported as truncated when the character budget is
  spent before the last node; the contract says exactly when it is not.

## Model

| member | source | states |
|---|---|---|
| `DurablePump.PumpStore.IsCurrent` | cloudflare/container-worker.ts:2404-2413 | a payload-free row always runs; an epoch row runs only while its epoch is the driver's |
| `DurablePump.PumpStore.PublishPrearmedSuccessor` | cloudflare/container-worker.ts:2421-2449 | the swap of a pre-armed successor: refused without effect if the candidate is gone, else driver, compaction, own row and pre-arm field exactly as specified |
| `DurablePump.PumpStore.PublishRearmedSuccessor` | cloudflare/container-worker.ts:2776-2813 | the closing transaction of a recomputation, including that a compacted candidate is not published |
| `DurablePump.PumpStore.PersistImmediateFallback` | cloudflare/container-worker.ts:2382-2402 | afterwards exactly one payload-free row, no driver, and the pre-arm field names the row |
| `DurablePump.PumpStore.PersistParkedSchedule` | cloudflare/container-worker.ts:2474-2497 | afterwards exactly one payload-free row at the parked time, no driver and no pre-arm |
| `DurablePump.PumpStore.ParkWithNothingRetained` | cloudflare/container-worker.ts:2268-2271 | parking with nothing left removes every row and the driver |
| `DurablePump.PumpStore.DiscardPrearmSchedule` | cloudflare/container-worker.ts:2504-2519 | the temporary row goes, with the driver if and only if the driver names it |
| `DurablePump.PumpStore.EarliestReusable` | cloudflare/container-worker.ts:2752-2764 | finds a reusable row exactly when there is one, and then an earliest one |
| `DurablePump.PumpStore.BeginRearmSchedule` | cloudflare/container-worker.ts:2730-2775 | a recomputation up to its await: cleared, reused, or a candidate row written before anything is removed |
| `DurablePump.PumpStore.EnsureImmediatePumpWake` | cloudflare/container-worker.ts:2196-2216 | the admission wake writes a payload-free row unless an effective row is due within the second |
| `PumpProtocol.StepKeepsInv` | cloudflare/container-worker.ts:1492-1505 | the invariant - a present driver names an existing row that carries its epoch, rows carry the payload they were written with, epochs are never shared, and a row about to be deleted is nobody's driver or candidate - is kept by every step but one, a stale callback returning while its row is still a candidate, and that one always breaks it |
| `PumpProtocol.RunKeepsInv` | cloudflare/container-worker.ts:2350-2519 | over runs of any length with crashes and interleaved re-arms: the invariant holds at every step exactly if no stale callback races a publication |
| `PumpProtocol.PublishedIffStillStored` | cloudflare/container-worker.ts:2776-2811 | a candidate becomes the driver exactly when no concurrent swap has compacted it; otherwise nothing changes |
| `PumpProtocol.StaleReturnIsUnsafeIff` | cloudflare/container-worker.ts:1492-1492 | after a stale callback returns, some run leaves the driver naming a deleted row if and only if the row is still some suspended operation's candidate |
| `PumpProtocol.DanglingRun` | cloudflare/container-worker.ts:1492-1498 | the two steps by which that happens, from any state where it can |
| `PumpProtocol.DriverDangles` | cloudflare/container-worker.ts:1492-1498 | from the empty tables: a recomputation, a stale callback on its candidate, the publication and the deletion leave the driver naming a row that is gone, and no wake |
| `PumpWakes.LastingIff` | cloudflare/container-worker.ts:1493-1497 | a stored row is a lasting wake, one that no callback in flight takes with it, exactly if a wake is left whichever of those callbacks return and lose their rows |
| `PumpWakes.StepKeepsLastingIff` | cloudflare/container-worker.ts:2415-2450 | in every reachable state each step keeps a lasting wake, with exactly these exceptions: parking with nothing retained; and, when no other row lasts, a recomputation that finds no wake time, one that reuses a doomed row, and the publication of a doomed row |
| `PumpProtocol.RunKeepsSound` | cloudflare/container-worker.ts:2350-2519 | whatever races: rows carry the payload they were written with, epochs are never shared, the driver names a row that was written with its epoch |
| `PumpWakes.RunKeepsLastingIff` | cloudflare/container-worker.ts:2350-2519 | so over every run, racing or not, of callbacks told their identifiers or not: a lasting wake is there at every await and through every reset exactly if none of those steps occurs |
| `PumpWakes.WakeIsNeverLost` | cloudflare/container-worker.ts:1492-1511 | when callbacks are told their identifiers: once a reachable state holds an effective row, as at callback entry, every later state does until a recomputation finds no wake time |
| `PumpCallbacks.WholeCallbackIsRun` | cloudflare/container-worker.ts:1488-1512 | pre-arm, closing recomputation and deletion of the row, composed, are what the protocol does with a callback that nothing interrupts |
| `PumpCallbacks.CallbackKeepsWakeIff` | cloudflare/container-worker.ts:1488-1512 | an uninterrupted callback leaves an effective row exactly when it knew its own identifier, ran on an epoch row, wrote a new row, or another payload-free row remains |
| `PumpCallbacks.LoserWakesInTimeIff` | cloudflare/container-worker.ts:2785-2788 | what a compacted recomputation is left with: woken by its own target exactly when the winner's row or another payload-free row is due by then |
| `PumpCallbacks.RearmWakesInTime` | cloudflare/container-worker.ts:2751-2775 | a recomputation that is not compacted leaves an effective row due by the computed wake, or within the next second |
| `PumpCallbacks.CompactedRecomputationMayWakeLate` | cloudflare/container-worker.ts:2785-2788 | a legal run in which the published winner wakes later than the recomputation it compacted |
| `Reconciliation.BackoffStore.ReconciliationIsDue` | cloudflare/container-worker.ts:2521-2531 | due means settled, and no future backoff of the same generation unless the deadline has passed |
| `Reconciliation.BackoffStore.Record` | cloudflare/container-worker.ts:2545-2563 | the stored row after an attempt: next attempt number, 5 s / 15 s / 60 s later, never beyond the deadline; other jobs unchanged |
| `Reconciliation.BackoffStore.Prune` | cloudflare/container-worker.ts:2570-2575 | exactly the rows owned by a publishing job of the same generation remain, unchanged |
| `Reconciliation.BackoffStore.WakeForPublishing` | cloudflare/container-worker.ts:2697-2712 | the aggregate of the publishing query, row by row |
| `Reconciliation.WakeIsFirstDue` | cloudflare/container-worker.ts:2521-2543 | the computed wake of a job is never after its deadline, and at any later time the job is due exactly when the wake has come |
| `Reconciliation.WakeIsNeverLate` | cloudflare/container-worker.ts:2697-2712 | with any stored row whatever, no due time is slept through |
| `Reconciliation.PublishingWakeIsFirstDue` | cloudflare/container-worker.ts:2694-2712 | over all publishing jobs: some job is due at a later time exactly when the aggregate wake has come |
| `Reconciliation.ParkedWakeAgrees` | cloudflare/container-worker.ts:2234-2243 | the parked query, which takes the deadline last, computes the same wake |
| `ReconciliationCounts.AttemptsIff` | cloudflare/container-worker.ts:1605-1650 | how many attempts a job can complete, lose to the timer, and lose with a turn whose isolate ends before it leaves a successor: exactly the numbers whose backoffs, windows and whole seconds let the last be listed before the deadline |
| `ReconciliationCounts.UnforcedIff` | lib/durable-scan-job-pump-controller.ts:294-339 | n attempts that no reset cuts short fit exactly when the cheapest mix of backoffs and windows does, isolates ending after a time-out included |
| `ReconciliationCounts.AtMostThreePlusOnePerHalfMinute` | lib/durable-scan-job-pump-controller.ts:308-331 | hence at most three attempts and one more for each half minute from settlement to deadline, those cut short by a reset apart |
| `ReconciliationCounts.AtMostThreePlusOnePerMinute` | cloudflare/container-worker.ts:2553-2555 | of the attempts that run to their own end, at most three and one more for each whole minute |
| `ReconciliationCounts.MinuteBoundFailsIff` | cloudflare/container-worker.ts:2088-2106 | timed-out attempts, which store nothing, exceed the bound of the backoff exactly when the deadline lies between 50 s and a minute, or more than 80 s, after settlement |
| `ReconciliationCounts.KeptIff` | cloudflare/container-worker.ts:2375-2402 | the same when every turn lives to leave its successor, which waits for the next whole second: 31 s for each time-out, from the whole second of the settlement on |
| `ReconciliationCounts.KeptMinuteBoundFailsIff` | cloudflare/container-worker.ts:2375-2402 | then the thresholds are 51 s, with a deadline within a minute, and 82 s |
| `ReconciliationCounts.ResetsIff` | cloudflare/container-worker.ts:2415-2450 | a job can be reset in mid-attempt exactly once in each whole second that the time from settlement to deadline touches, and once more by a callback entered before: each callback leaves its successor for the next second |
| `ReconciliationCounts.UnforcedAreBounded` | lib/durable-scan-job-pump-controller.ts:294-339 | so the unforced attempts of every life, those cut short by a reset included, are bounded |
| `ReconciliationCounts.TotalDelayClosedForm` | cloudflare/container-worker.ts:2554-2555 | the backoff before attempt n+1 adds up to 20 s and 60 s for every attempt after the second |
| `ReconciliationTurns.EndsIff` | cloudflare/container-worker.ts:1621-1695 | over a whole life: the job is settled exactly if the last attempt found it published, or ended by itself past the deadline, in either phase; no earlier attempt did |
| `ReconciliationTurns.RowsStayAfterSettlement` | cloudflare/container-worker.ts:2545-2563 | every row stored in a life meets what the agreement of wake and due test needs |
| `ReconciliationTurns.ServedIffWakeHasCome` | cloudflare/container-worker.ts:1598-1656 | at every point of every life a later turn can attempt the job exactly when the computed wake has come: in the expired phase before the deadline, in the deadline phase from then on |
| `ReconciliationTurns.LatenessIsBounded` | lib/durable-scan-job-pump-controller.ts:181-204 | with turns at most a lag late, a job that k cut-off deadline attempts left publishing is ready for the next by a stated time, in whole seconds |
| `ReconciliationTurns.LatenessIsAttained` | lib/durable-scan-job-pump-controller.ts:164-204 | a life that attains that bound, for every k and lag |
| `CensoringModel.AssignableIffRealizable` | lib/calibration-censoring-analysis.ts:38-46 | a confusion table comes from an assignment of unknowns to cells exactly when it comes from completing every case one by one |
| `CensoringModel.CountsPartition` | lib/calibration-censoring-analysis.ts:279-304 | known and unknown cases together are all cases |
| `CensoringEnumeration.VisitedIffRealizable` | lib/calibration-censoring-analysis.ts:363-387 | the nested loops visit exactly the tables that some completion produces |
| `CensoringEnumeration.VisitedCount` | lib/calibration-censoring-analysis.ts:306-311 | the number of iterations is the closed form that the ceiling is checked against |
| `CensoringRates.EnvelopeIsExact` | lib/calibration-censoring-analysis.ts:318-361 | a running envelope holds the attained least and greatest values over the tables seen, and whether a denominator was empty |
| `CensoringAnalysis.FindDefect` | lib/calibration-censoring-analysis.ts:259-271 | reports the first case without an identifier, with a repeated one, or fatal |
| `CensoringAnalysis.Tally` | lib/calibration-censoring-analysis.ts:273-302 | one pass computes the known cells, the five kinds of unknowns and the loss reasons |
| `CensoringAnalysis.LossesConservedIff` | lib/calibration-censoring-analysis.ts:429-436 | the loss-reason check fires exactly for a reason named like an inherited property |
| `CensoringAnalysis.LossCounts` | lib/calibration-censoring-analysis.ts:274-278 | the recorded count of every other reason is the number of unknown cases that gave it |
| `CensoringAnalysis.Consider` | lib/calibration-censoring-analysis.ts:338-361 | one more table extends the envelope of every rate |
| `CensoringAnalysis.LoopB3` | lib/calibration-censoring-analysis.ts:369-383 | the innermost loop accumulates its part of the visiting order |
| `CensoringAnalysis.LoopsB1B2` | lib/calibration-censoring-analysis.ts:367-384 | the loops over b1 and b2 accumulate theirs |
| `CensoringAnalysis.LoopsX3X4` | lib/calibration-censoring-analysis.ts:365-385 | the loops over x3 and x4 accumulate theirs |
| `CensoringAnalysis.Enumerate` | lib/calibration-censoring-analysis.ts:363-387 | all seven loops leave, for every rate, the envelope over exactly the visited tables |
| `CensoringResults.AnalyzeCensoring` | lib/calibration-censoring-analysis.ts:246-484 | the analysis with its refusals in order |
| `CensoringResults.AnalyzedIff` | lib/calibration-censoring-analysis.ts:250-316 | exactly the studies that account once for every planned case and stay under the ceiling are analysed |
| `CensoringResults.EnvelopesAreExact` | lib/calibration-censoring-analysis.ts:390-411 | every number of a policy-C envelope is the attained extreme over all completions, and the empty-denominator flag is true exactly if some completion empties it |
| `CensoringResults.MarginIsAttainedMinimum` | lib/calibration-censoring-analysis.ts:462-467 | each guaranteed margin is the attained minimum of its class over all completions |
| `CensoringResults.EmptyDenominatorIffNoMargin` | lib/calibration-censoring-analysis.ts:114-127 | a denominator can be empty exactly when its class has margin zero; accuracy's never |
| `CensoringResults.CompleteCaseInsideEnvelope` | lib/calibration-censoring-analysis.ts:413-427 | whenever the policy-B estimate exists, policy C's envelope contains it |
| `CensoringPublication.EvaluatePublication` | lib/calibration-censoring-analysis.ts:494-547 | lists exactly the problems of the claims, each rate by the first test it fails; publishable exactly when there is none |
| `CensoringPublication.PublishableIff` | lib/calibration-censoring-analysis.ts:487-493 | the gate opens exactly when, over every completion, every claimed class keeps its minimum and every claimed rate stays defined with interval ends within the limit |
| `BoundedText.FullTextIsGathered` | lib/bounded-page-collector.ts:238-303 | the recursive text of a tree is the text of its unskipped nodes in document order |
| `BoundedText.Advance` | lib/bounded-page-collector.ts:284-299 | one move goes to the next unskipped node in document order, or ends exactly when there is none |
| `BoundedText.Append` | lib/bounded-page-collector.ts:253-272 | a text node is appended with one space at an unspaced boundary, cut to the budget, and reported as cut exactly if it was |
| `BoundedText.StopIsUnique` | lib/bounded-page-collector.ts:249-250 | there is one place where the budgets stop the walk |
| `BoundedText.BoundedNodeText` | lib/bounded-page-collector.ts:238-303 | the value is the text of the nodes up to the place where a budget is spent, cut to the budget; not truncated exactly when everything fits, and then it is the whole recursive text |
| `PageStorage.Utf8Length` | lib/bounded-page-collector.ts:188-203 | the counting loop returns the length of the string's UTF-8 encoding (section 3 of RFC 3629), an unpaired surrogate read as U+FFFD |
| `PageStorage.ReadRow` | lib/bounded-page-collector.ts:401-436 | one row is published, omitted, or stops the reading with everything left counted as omitted |
| `PageStorage.CollectStorage` | lib/bounded-page-collector.ts:361-443 | the records are exactly the nameable rows before the first spent budget, in order, and with the omitted count they account for every stored row |
| `PageStorage.PublishedWithinBudgets` | lib/bounded-page-collector.ts:363-367 | whatever the page stored, what is published stays inside every budget |
| `JsonText.ParseInvertsText` | lib/canonical-json.ts:39-54 | a reader of RFC 8259 returns the value whose text it is given exactly if nothing in it is left to normalize or refuse and no array has a hole |
| `JsonText.ReadsBackString` | lib/canonical-json.ts:42-47 | the escaping of section 7 of RFC 8259, surrogates included, reads back as the same code units |
| `CanonicalJson.SortSorts` | lib/canonical-json.ts:68-71 | defined members come out in strictly ascending order of their names |
| `CanonicalJson.OrderIsUnique` | lib/canonical-json.ts:68-71 | two ordered lists with the same names have them at the same places |
| `CanonicalJson.AcceptedIff` | lib/canonical-json.ts:20-28 | a value is refused exactly when it contains a non-finite number, an undefined element, a name that is not NFC, or something that is not JSON |
| `CanonicalJson.RefusalNamesCulprit` | lib/canonical-json.ts:122-128 | the path of a refusal leads to the very thing that is refused, for the reason given |
| `CanonicalJson.RoundTrip` | lib/canonical-json.ts:29-31 | parsing the output gives the input with string values normalized, members sorted and undefined members dropped, exactly when no array in it has a hole |
| `JsonText.TextIsInjective` | lib/canonical-json.ts:39-66 | no two values have one text when no array is a single hole |
| `CanonicalJson.PrintsAlikeIff` | lib/canonical-json.ts:20-28 | two values print the same text exactly when they agree, whatever the order of members, and with an array of one hole read as the empty array |
| `CanonicalJson.HolePrintsAsNothing` | lib/canonical-json.ts:55-66 | the array of one hole prints the text of the empty array |
| `CanonicalJson.NormalEqualIffAgree` | lib/canonical-json.ts:20-28 | agreement, defined member by member without any order, is equality of normal forms |
| `CanonicalJson.CanonicalFormIsStable` | lib/canonical-json.ts:33-36 | serializing what was read back gives the same text |
| `CanonicalJson.Serializer.Serialize` | lib/canonical-json.ts:38-120 | the recursion with its shared path and key cache gives the outcome that the value alone determines |
| `CanonicalJson.Serializer.SerializeItems` | lib/canonical-json.ts:55-66 | the array branch does, holes skipped and joined as nothing |
| `CanonicalJson.Serializer.CheckNames` | lib/canonical-json.ts:99-110 | the names are checked in order, and the cache skips no refusal |
| `CanonicalJson.Serializer.SerializeMembers` | lib/canonical-json.ts:111-117 | the object branch, its names taken from the cache or encoded afresh, does |
| `CanonicalJson.CanonicalJsonOf` | lib/canonical-json.ts:29-31 | the outcome starts from an empty path and an empty cache |
| `R2Bucket.Bucket.Put` | cloudflare/r2-remediation-worker.ts:298-303 | a conditional write happens only over an object that meets the condition, and is recorded with what it replaced |
| `R2Remediation.ReadEntry` | cloudflare/r2-remediation-worker.ts:158-203 | one listed report becomes a record, an issue, or an unreadable entry, determined by the versions read |
| `R2Remediation.PreflightAll` | cloudflare/r2-remediation-worker.ts:149-205 | preflight is the survey of the listed keys and the versions it read; undisturbed, of the bucket itself |
| `R2Apply.GetBoth` | cloudflare/r2-remediation-worker.ts:238-238 | two reads under way at once each return what stood at some moment since they began, in either order |
| `R2Apply.ConfirmUnchanged` | cloudflare/r2-remediation-worker.ts:232-247 | if the barrier passes, there was one moment at which every object stood as preflight read it; undisturbed, it passes |
| `R2Apply.BarrierIsASnapshot` | cloudflare/r2-remediation-worker.ts:96-101 | what preflight collected over time is then what a survey of that one moment finds |
| `R2Rewrite.ReplanAgreesIff` | cloudflare/r2-remediation-worker.ts:272-291 | planning again from matching versions agrees with the record exactly when the record is to be rewritten |
| `R2Rewrite.WriteBoth` | cloudflare/r2-remediation-worker.ts:293-321 | report first, sidecar second, each over the recorded version; what is written is a beginning of the planned pair |
| `R2Rewrite.CheckReadback` | cloudflare/r2-remediation-worker.ts:337-380 | the readback checks accept exactly the planned contents, metadata and clock that the planner calls current |
| `R2Rewrite.VerifyReadback` | cloudflare/r2-remediation-worker.ts:326-380 | readback passes only at a fixed point of the planner; undisturbed, exactly when the stored pair reads back |
| `R2Rewrite.ApplyOne` | cloudflare/r2-remediation-worker.ts:254-324 | one record: its writes are a beginning of the planned ones under any interleaving; undisturbed, it succeeds exactly when the plan can be attested, and touches no other object |
| `R2Crash.NothingNewerIsOverwritten` | cloudflare/r2-remediation-worker.ts:293-321 | every planned write replaces exactly the version preflight recorded, or nothing |
| `R2Crash.CrashPointsAreCuts` | cloudflare/r2-remediation-worker.ts:137-139 | wherever the run stops, all pairs before one record are new, all after it are old, and that one is old/old, new/old or new/new |
| `R2Stages.RewriteReaches` | cloudflare/r2-remediation-worker.ts:120-124 | a record applied extends everything known of the run by that record |
| `R2Run.DryRun` | cloudflare/r2-remediation-worker.ts:95-108 | a ready dry run reports what a survey of one single moment finds and writes nothing; undisturbed, its receipt is the one the survey of the bucket determines |
| `R2Run.ApplyAll` | cloudflare/r2-remediation-worker.ts:120-124 | the loop ends with everything written, or with a true count of applied records and a beginning of the plan |
| `R2Run.QuietRunLeavesACut` | cloudflare/r2-remediation-worker.ts:137-144 | without other writers the bucket is at such a cut wherever the run ended |
| `R2Run.EndIsClean` | cloudflare/r2-remediation-worker.ts:125-135 | after every rewrite of a clean preflight, a survey finds the same reports, no issue and nothing to rewrite |
| `R2Run.ApplyPlanned` | cloudflare/r2-remediation-worker.ts:114-145 | barrier, rewrites and postflight of a clean preflight |
| `R2Run.Apply` | cloudflare/r2-remediation-worker.ts:85-145 | no write without a clean preflight and a passed barrier; what is written is a beginning of the plan; the applied count is true; done only after a postflight with the same reports and nothing to rewrite; undisturbed, done exactly when the preflight is clean and every plan can be attested |
| `CallStackPublisher.KeysCollideIff` | lib/call-stack-publisher.ts:92-100 | two URLs share a held key exactly when they differ at most in the fragment, or one spells the other's digest key |
| `CallStackPublisher.PublishedStack` | lib/call-stack-publisher.ts:208-231 | the loop publishes the hosts and scripts of requested frames up to a fifth host |
| `CallStackPublisher.PublishedShape` | lib/call-stack-publisher.ts:204-231 | a published stack names only requested frames, has one to four hosts with none after itself, and at most eight distinct scripts |
| `CallStackPublisher.GroupKeyIsInjective` | lib/connection-inspection.ts:98-100 | groups are keyed by everything they publish |
| `StackTally.AddCounts` | lib/call-stack-publisher.ts:242-248 | adding a category raises its own count by one and no other |
| `StackTally.JoinCounts` | lib/call-stack-publisher.ts:283-306 | every count gains exactly the requests that belong there, so the join adds one unit for each counted request, for every predicate, list and dropped count |
| `StackTally.AmbiguousRequestsTakeNothing` | lib/call-stack-publisher.ts:274-282 | when only some requests are counted and some are unseen, every counted one is unobserved |
| `StackTally.OrderChangesNothing` | lib/call-stack-publisher.ts:277-280 | when every request is counted, the order of observations changes no count |
| `StackTally.Tally.Add` | lib/call-stack-publisher.ts:242-248 | the tally object follows its specification |
| `StackTally.Tally.JoinObservations` | lib/call-stack-publisher.ts:283-306 | the join loop follows its specification |
| `StackRanking.RankedIsRanked` | lib/call-stack-publisher.ts:251-255 | groups are ranked by count and then by key, strictly |
| `StackRanking.SumOfRanked` | lib/call-stack-publisher.ts:251-261 | ranking keeps the sum of counts |
| `InspectionEvidence.EncodedPassesIff` | lib/connection-inspection-evidence.ts:146-161 | the encoding of evidence passes the validator exactly when the evidence is valid |
| `InspectionEvidence.AcceptsIff` | lib/connection-inspection-evidence.ts:146-161 | the validator accepts a value exactly when the value encodes valid evidence |
| `ConnectionInspection.ConnectionInspectionRecorder.NotePageRequest` | lib/connection-inspection.ts:125-136 | one page request, against the recorder's specification |
| `ConnectionInspection.ConnectionInspectionRecorder.Observe` | lib/connection-inspection.ts:139-146 | one session observation, against the same |
| `ConnectionInspection.ConnectionInspectionRecorder.Matches` | lib/connection-inspection.ts:220-229 | the match cache changes no answer |
| `ConnectionInspection.ConnectionInspectionRecorder.TrackedEntry` | lib/connection-inspection.ts:211-218 | finds or makes the entry of a key, or neither when the table is full |
| `ConnectionInspection.ConnectionInspectionRecorder.Evidence` | lib/connection-inspection.ts:159-168 | freezes, and hands out what was built exactly when recording did not fail and the validator accepts it |
| `ConnectionInspection.ConnectionInspectionRecorder.BuildFromStacks` | lib/connection-inspection.ts:170-193 | the evidence built from the tables |
| `InspectionRuns.RunKeepsInv` | lib/connection-inspection.ts:102-230 | after every sequence of events the tables are consistent, within bounds, and hold the stack of every group |
| `InspectionRuns.MatchedCountsRequests` | lib/connection-inspection.ts:125-136 | matched is the number of matching page requests before the freeze and before any failure |
| `InspectionRuns.RankingNeverThrows` | lib/call-stack-publisher.ts:256-260 | no group ever loses its stack |
| `InspectionRuns.CountsAddUp` | lib/connection-inspection.ts:170-193 | matched is the sum of the groups' counts and the five other counts |
| `InspectionRuns.EvidenceIsNullIff` | lib/connection-inspection.ts:153-168 | the built evidence always passes the validator, so evidence is withheld exactly when recording failed |
| `InspectionBounds.BoundsOnlyUnlist` | lib/connection-inspection.ts:72-78 | a bound never raises a count other than not listed, nor changes matched |
| `InspectionBounds.EvidenceWithinUnbounded` | lib/connection-inspection.ts:182-191 | each listed group and each other count is at most what it would be without bounds |
| `InspectionBounds.UnboundedListsAll` | lib/connection-inspection.ts:195-209 | without bounds nothing is left unlisted |
| `AdmissionLimit.AdmissionAttempts.Charge` | lib/admission-attempt-limit.ts:16-57 | one charge: the new table and the decision |
| `AdmissionLimit.ChargeKeepsTableSmall` | lib/admission-attempt-limit.ts:31-37 | the table never exceeds the ceiling and only an admission adds a row |
| `AdmissionLimit.AllowedIff` | lib/admission-attempt-limit.ts:43-56 | allowed exactly when the 100th newest row overall and the 10th newest of the client are no longer live |
| `AdmissionLimit.RetrySucceedsIff` | lib/admission-attempt-limit.ts:52-54 | with no admission in between, a retry succeeds exactly once the unrounded wait is over, and the rounded one is less than a second longer |
| `AdmissionLimit.EveryWindowIsBounded` | lib/admission-attempt-limit.ts:11-13 | with a clock that never goes back, every 10 s window admits at most 100 attempts and at most 10 of each client |
| `AdmissionLimit.TableIsAlwaysSmall` | lib/admission-attempt-limit.ts:35-37 | the table holds at most 100 rows after any charges, whatever the clock does |
| `LatestOperation.LatestClientOperation.CancelStart` | lib/client-fetch-policy.ts:244-246 | the epoch advances before the abort is dispatched |
| `LatestOperation.LatestClientOperation.CancelEnd` | lib/client-fetch-policy.ts:246-248 | the controller is cleared, whichever it is by then |
| `LatestOperation.LatestClientOperation.BeginEnd` | lib/client-fetch-policy.ts:250-256 | a ticket carries the epoch of that moment and a new controller |
| `LatestOperation.LatestClientOperation.Settle` | lib/client-fetch-policy.ts:258-266 | only the owner settles |
| `LatestOperation.AtMostOneOwner` | lib/client-fetch-policy.ts:258-260 | at most one ticket owns the operation |
| `LatestOperation.CallsAreForTheOwner` | lib/client-fetch-policy.ts:215-242 | a handler is called only for the ticket that owns the operation |
| `LatestOperation.LossIsForever` | lib/client-fetch-policy.ts:206-210 | once superseded, a ticket never owns again and none of its handlers is called again, under every interleaving |
| `LatestOperation.HandlersAtMostOnce` | lib/client-fetch-policy.ts:262-266 | no handler is called twice, and onSettled only after the handler of the same ticket |
| `LatestOperation.OwnerStays` | lib/client-fetch-policy.ts:258-266 | an owner stays the owner through other tasks settling and handlers returning |
| `LatestOperation.OrphanedIff` | lib/client-fetch-policy.ts:244-256 | a ticket neither aborted nor settled is lost exactly when it was begun while an abort was being dispatched |
| `LatestOperation.OrphanExists` | lib/client-fetch-policy.ts:244-256 | three runs by which that happens |
| `OperationOwner.ClientOperationOwner.Claim` | lib/client-operation-ownership.ts:24-29 | a claim succeeds exactly when there is no owner |
| `OperationOwner.ClientOperationOwner.SupersedeStart` | lib/client-operation-ownership.ts:32-39 | the new owner is installed before the old one is aborted |
| `OperationOwner.ClientOperationOwner.Release` | lib/client-operation-ownership.ts:48-52 | only the exact owner is released |
| `OperationOwner.ClientOperationOwner.CancelEnd` | lib/client-operation-ownership.ts:55-62 | after the listeners only the lease being cancelled is cleared |
| `OperationOwner.LeasesAreAccountedFor` | lib/client-operation-ownership.ts:16-78 | tokens strictly increase, at most one lease owns, and whoever does not was aborted or released |
| `OperationOwner.LossIsForever` | lib/client-operation-ownership.ts:43-62 | a lost lease stays lost, and releasing or cancelling it changes nothing |
| `OperationOwner.ListenersCannotOccupyTheGap` | lib/client-operation-ownership.ts:33-37 | claims made by listeners fail while a lease is installed |
| `OperationOwner.CancelEndIsExact` | lib/client-operation-ownership.ts:58-61 | the end of a cancel clears its own lease and no other |
| `ResponseBody.Accept` | lib/client-fetch-policy.ts:308-319 | one chunk leaves exactly the bytes so far in the same array or a larger one within the limit |
| `ResponseBody.ReadBounded` | lib/client-fetch-policy.ts:275-334 | the outcome, with every capacity within the limit and copying below twice the limit |
| `ResponseBody.AcceptedIff` | lib/client-fetch-policy.ts:282-307 | a body is accepted, as the concatenation of its chunks, exactly when neither its declaration nor its bytes exceed the limit and nothing interrupts it |
| `ConsentSearch.FindRoots` | lib/consent-interaction.ts:913-928 | the document, then without repetition exactly the shadow roots that opened for the known hosts |
| `ConsentSearch.ClickSearch.Poll` | lib/consent-interaction.ts:946-956 | looks at once and then every 25 ms for 350 ms, until the control has reacted |
| `ConsentSearch.ClickSearch.ActivateControl` | lib/consent-interaction.ts:939-956 | at most twelve attempts, each recorded with what it saw before and after |
| `ConsentSearch.ClickSearch.SweepKnown` | lib/consent-interaction.ts:973-996 | one known selector in one root: every result passed over, a control that reacted, or the candidate budget spent |
| `ConsentSearch.ClickSearch.TryKnown` | lib/consent-interaction.ts:969-997 | the known tier: every selector in every root, or the first candidates up to the budget |
| `ConsentSearch.ClickSearch.RecognizedLabel` | lib/consent-interaction.ts:1011-1027 | a recognized label belongs to a control seen clickable, is short and matches; otherwise the page gave a reason to pass |
| `ConsentSearch.ClickSearch.TryGeneric` | lib/consent-interaction.ts:1005-1034 | the generic tier over every root |
| `ConsentSearch.FindAndClick` | lib/consent-interaction.ts:881-1037 | for every page: at most twelve clicks, each on a control seen clickable before; a click is reported only for the control that reacted, under the known control it was first clicked as; no click is reported only if nothing reacted and every candidate of every query was ruled out, clicked, or beyond the budgets |
| `ImportTrails.Walk` | lib/client-import-graph.ts:51-61 | from one root: a shortest import path if the target is reachable, none otherwise, on graphs with cycles too |
| `ImportTrails.Expand` | lib/client-import-graph.ts:53-60 | one turn of the queue keeps the breadth-first order |
| `ImportTrails.ClientImportTrails` | lib/client-import-graph.ts:43-63 | one shortest trail for each root that reaches the target, in root order, and none for any other; the two refusals exactly when they apply |
| `ComparisonGate.ComparisonEligibility` | lib/comparison-eligibility.ts:104-346 | the strict gate lists its reasons in order |
| `ComparisonGate.WithoutSnapshotKeepsTheRest` | lib/comparison-eligibility.ts:359-367 | the temporal gate forgives only the list snapshot |
| `ComparisonGate.EligibleIsCompatible` | lib/comparison-decision.ts:265-284 | a strictly eligible pair has one subject and a compatibility that is never false; it is unprovable exactly when a fact the gate does not ask for is unknown |
| `ComparisonGate.FamiliesWithinPair` | lib/comparison-decision.ts:300-381 | no family is comparable unless the pair is, on one subject; Shields only with fingerprints that do not differ |
| `ComparisonGate.SubjectReasonsDecide` | lib/comparison-eligibility.ts:478-481 | neither gate passes visits of different subjects, and whatever the strict gate passes the temporal gate passes |
| `ComparisonGate.StrictCohortIff` | lib/comparison-decision.ts:168-215 | the history cohort is the strict one but for the list snapshot: every visit with the one has the other, and two share the strict cohort exactly if they share the history cohort and the snapshot |
| `ComparisonGate.CohortPairsOnlyByAutomation` | lib/comparison-decision.ts:179-263 | two visits of one history cohort get no environment, device, engine or held-constant reason from the temporal gate, and a pipeline reason exactly when their automation labels differ in padding |
| `ComparisonGate.PaddingSplitsACohort` | lib/comparison-decision.ts:180-189 | for every visit with a cohort, padding its label keeps the cohort and draws the reason |

## Left out

- The base Container class, its alarm loop and its `schedule()` are not in the repository: a row is taken to be stored before the alarm is awaited, its time to be the floor of the seconds, and a finished callback's row to be deleted after it returns. Alarm kicks, rows of other callbacks and driver rows without a task are left out.
- The gap between admission's wake and its commit, and the HTTP shell of the worker, are left out.
- The job store, the watch store and the purge enter only through their effect on a publishing job's life: a job ends, is retried, or is cut short.
- Reconciliation turns: dispatch, optional work and other jobs enter only as delays, and an attempt may take no time. One callback is taken to run per successor row, wall and turn clock to advance alike, and an exception that is neither a time-out nor a failed request is left out. So are the attempts made while the pump is disabled (`maintainDisabledDurableJobs`), which have no timer and do not wait for their backoff.
- Safe-integer checks on timestamps are left out; times are unbounded integers.
- Censoring: floating-point rounding is not modelled (rates are reals), the Wilson interval is any function, and loss reasons are not sorted by locale. The seven loops are split over several methods.
- Bounded text: the document is a fixed tree, references are paths in it, and whether a panel renders is an attribute of the node.
- Page storage: the wire format and the failure answer of the collector are left out, and the areas do not change while they are read.
- Canonical JSON: a finite number is the token ECMAScript prints for it, NFC is a parameter, and the digest is left out.
- R2: the planner and the managed reader are parameters, tags are never reused, a paginated listing is one operation, a put whose outcome stays unknown ends the run, and resource limits, the JSON summary and authorization are left out.
- Connection inspection: protocol payloads are already parsed, redaction is total, an exception inside recording is one event that stops recording, and the scroll check's mode without scripts and its host cache are left out.
- PumpWakes.WakeIsNeverLost: asks that no stale callback races a publication and that each callback was told its own row's identifier, because it is false otherwise; `PumpWakes.RunKeepsLastingIff` gives the exact condition for all runs.
- ReconciliationCounts.AtMostThreePlusOnePerMinute: counts attempts that ran to their own end, because the bound is false of the others; `ReconciliationCounts.MinuteBoundFailsIff` says exactly when.
- AdmissionLimit.EveryWindowIsBounded: needs a clock that never goes back; `AdmissionLimit.TableIsAlwaysSmall` does not. The refusal page around the limiter is left out.
- Response body: the stream reader and its abort are a list of what each read came to.
- Client operations: abort listeners are arbitrary calls made while an abort is being dispatched; promises are events in any order.
- Consent search: `findVisibleConsentControl`, which makes the same queries without clicking, is left out; a page function that throws is left out.
- Import graph: reading files and resolving specifiers are left out; the graph of resolved imports is given.
- Comparison gate: reasons are constructors in place of sentences; text, URL and date handling are parameters; the decision for reports that record their own fingerprints is left out.
- React pages, copy, presentation, configuration and command lines are left out: they add no properties of this kind.
- `lib/corpus-representative.ts`, `lib/category-rollups.ts`, `lib/comparison-visit-order.ts` and `lib/compare-reports.ts` are left out, since they would add only easy members.
