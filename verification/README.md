# Formal model of the lottery worker and the trading-side ledgers

This project models, in Dafny, the parts of the repository whose correctness spans several calls or several
concurrent workers, and proves what they keep over whole runs:

- **Official data refresh** (`lotto-worker/src/ingest.ts`, `parser.ts`): CSV reading, the draw fingerprint, the
  insert/update/retire diff, and the lease protocol under which any number of workers publish it. Modules `Csv`,
  `Draws`, `OfficialFile`, `SourceDiff`, `Refresh`, `RefreshStore`, `ShortcutGap`.
- **Ticket Lab evidence** (`ticket-lab.ts`, `scheduler.ts`, `shadow.ts`): append-only eligibility events, ledger
  grades and shadow trials under concurrent creators, reconcilers, manual decisions, ingestion and graders. Modules
  `Eligibility`, `EvidenceStore`, `Shadow`, `ShadowStore`.
- **Delivery outbox** (`delivery.ts`): a leased work queue with reclaim, bounded retries and absorbing end states.
  Modules `Delivery`, `DeliveryOutbox`.
- **Generation** (`autonomy.ts`): one run per game and date, worked on by scheduled ticks and manual requests that may
  overlap, throw or die. Modules
  `Generation`, `GenerationTick`.
- **Score keeping and listing** (`ticket-lab.ts`, `api.ts`): whole-cent spend shares, the matched comparison, page
  cursors and keyset pagination. Modules `Scorecard`, `MatchedComparison`, `Cursors`, `Paging`.
- **Paper ledger** (`src/PaperLedger.ts`): FIFO lots, profit and fee conservation. Module `PaperLedger`.
- **Anomaly detector** (`src/agents/AnomalyDetector.ts`): Welford statistics over pruned one-second buckets. Modules
  `Welford`, `AnomalyDetector`.

Protocols are transition systems: each database call, and each database batch, is one atomic step, and a run is any
sequence of steps of any number of workers. Where the program updates tables or arrays in place there is a class or a
method with loops whose contract ties it to the step functions.

Conventions used throughout: calendar dates are day numbers ordered like their ISO text (day numbers divisible by
seven are Sundays); clocks are arbitrary parameters of each step; tokens from `crypto.randomUUID` are values never
issued before; SHA-256 digests are injective, so a digest is represented by what it digests; money is in integer
cents, paper-ledger sizes in integer 1e-8 units; prices, fees and statistics are real numbers. Database uniqueness is
assumed as the migrations declare it: one draw per game, date and session; one eligibility event per event id and per
ledger and idempotency key; one grade per ledger and revision and per ledger and fingerprint.

Results worth knowing where the code falls short of what one might expect:

- The unchanged-digest shortcut agrees with full re-ingestion exactly when no quarantined row of the stored revision
  has fallen due since (`Refresh.ShortcutAgreesExactly`). For every configured source and any two lines that read as
  its draws of consecutive days, `ShortcutGap.ShortcutCanDisagree` gives the run from the empty store in which it does
  not.
- The reconciler's exclusion takes effect exactly when the ledger is excluded already or neither the exclusion's id nor
  its key is taken (`Eligibility.ExclusionTakesExactly`). A manual reinstatement checked before a result is ingested and
  written after the exclusion therefore stands for good: `Eligibility.LateReinstatementStands` gives the run from the
  empty store, for every ledger proposed in its window. Without a reinstatement exclusions always stand
  (`Eligibility.ExclusionStandsUnlessReinstated`). Grades rest on draws first seen after the proposal in either case.
- A recorded reinstatement that should not stand is always such a late one: its result was not stored when it was checked
  (`Eligibility.ViolatingReinstatementWasLate`).
- A result that is corrected and then corrected back is not graded again: ledger and fingerprint are unique among
  grades, so the latest grade stays that of the withdrawn content (`EvidenceStore.RevertedResultIsNotRegraded`). Grading
  follows the draw exactly when no superseded grade is of its content (`EvidenceStore.GradeIsCurrentExactly`).
- A paper fill smaller than half a unit is accepted, counts its fee in the total and charges it to nothing
  (`PaperLedger.ExactFeeIdentity`, `PaperLedger.TinyFillBreaksIdentity`).
- "At most three attempts" holds throughout a run exactly when no step records an attempt that was counted when three
  had been recorded (`Generation.BoundHoldsExactly`); a tick or manual request that is granted its lease keeps it exactly
  when the run is generated or has room at that moment (`Generation.TickKeepsBoundExactly`,
  `Generation.RequestKeepsBoundExactly`). For every game and date two runs from the empty tables record a fourth: two
  ticks that chose the run at its last attempt and work one after the other (`Generation.OverlapRecordsFourth`), and,
  without any overlap, a tick that records a missed deadline and then throws, so that the error handler records it
  again (`Generation.DoubleRecordRecordsFourth`).

## Model

| member | source | states |
|---|---|---|
| `Csv.CsvLine` | lotto-worker/src/parser.ts:44-86 | the character loop computes the recursive split, and refuses exactly the lines it refuses |
| `Csv.RenderedLineRoundTrip` | lotto-worker/src/parser.ts:44-86 | splitting any rendering under section 2 of RFC 4180, bare or quoted field by field (with blanks allowed after a closing quote), returns the fields without their blank tail; the whole list if and only if the last field is not blank |
| `Csv.AcceptedExactly` | lotto-worker/src/parser.ts:44-86 | a line is accepted if and only if it is such a rendering of some fields, and then it says those |
| `Draws.FingerprintIdentifiesContent` | lotto-worker/src/parser.ts:205-238 | for one key, equal fingerprints mean equal numbers, bonus numbers and metadata |
| `OfficialFile.ParseOfficialCsv` | lotto-worker/src/parser.ts:478-555 | the line loop with its lists and identity set computes the scan; the file is accepted exactly when some line becomes a draw, not both of the last two records are bad, and bad records are fewer than two or at most a fifth |
| `OfficialFile.ParseRow` | lotto-worker/src/parser.ts:505-516 | a line becomes a draw exactly when it splits into a permitted number of fields that the reader reads as a draw not in the future |
| `OfficialFile.EachLineAccountedOnce` | lotto-worker/src/parser.ts:497-555 | every non-blank line is exactly once a draw or an issue |
| `OfficialFile.LinesAreKeptExactly` | lotto-worker/src/parser.ts:497-555 | of the lines that read as draws whose day has come, exactly the first of each day is kept; every other non-blank line is quarantined |
| `OfficialFile.ScanShape` | lotto-worker/src/parser.ts:497-555 | draws have distinct keys, the source's game and session, and no future date |
| `OfficialFile.DrawIsItsLine` | lotto-worker/src/parser.ts:497-523 | each draw is what the fields of its own non-blank line read as, under the source's game and session, with the fingerprint of that content |
| `OfficialFile.SameScanLater` | lotto-worker/src/parser.ts:114-136 | parsing the same bytes on a later day gives the same scan when no row fell due in between |
| `OfficialFile.DueRowIsKept` | lotto-worker/src/parser.ts:114-136 | a readable row is in the scan under its key once its day has come |
| `OfficialFile.CleanFileStaysClean` | lotto-worker/src/parser.ts:497-555 | a file that quarantines nothing has no row that could fall due later |
| `OfficialFile.QuarantinedRowCanFallDue` | lotto-worker/src/parser.ts:114-136 | any two lines that read as draws of consecutive days make an accepted file whose second row is quarantined on the first day and a draw on the second |
| `SourceDiff.CountChanges` | lotto-worker/src/ingest.ts:485-521 | the diff loop's list is that of the specification, and its counters count every draw once as new, kept or updated, and the reactivated ones |
| `SourceDiff.LatestOfKeys` | lotto-worker/src/ingest.ts:433-463 | the loop finds the latest date of a set of keys |
| `SourceDiff.ComputePlan` | lotto-worker/src/ingest.ts:433-532 | a plan is computed exactly when no stored active draw is later than everything in the file and the file drops at most four active draws or one in two hundred |
| `SourceDiff.GuardRefusesExactly` | lotto-worker/src/ingest.ts:433-463 | the completeness guard refuses exactly the other files |
| `SourceDiff.PublishIsReplacement` | lotto-worker/src/ingest.ts:485-571 | the incremental writes leave the source's active content equal to the parsed file, or to the file laid over the old content when rows were quarantined, and touch no other source |
| `SourceDiff.RowsAfter` | lotto-worker/src/ingest.ts:359-395 | a publish keeps every row with its owner and first-seen time; a row it adds is first seen at that publish |
| `SourceDiff.ApplyPlanWrites` | lotto-worker/src/ingest.ts:342-571 | row by row: written draws get content, fingerprint, owner and first-seen time, retired slots of the source become inactive, all else stays |
| `SourceDiff.PlanCountsActiveSet` | lotto-worker/src/ingest.ts:522-571 | the count and latest date derived from the counters are the size and maximum of the new active set |
| `SourceDiff.PublishDropsFew` | lotto-worker/src/ingest.ts:433-463 | one publish drops at most four active draws or one in two hundred, and never moves the latest date back |
| `SourceDiff.PublishSettles` | lotto-worker/src/ingest.ts:485-532 | after a publish the table shows the scan, so that diffing it again finds nothing to do |
| `SourceDiff.ReplayIsNoOp` | lotto-worker/src/ingest.ts:485-532 | diffing a settled source against its scan writes and retires nothing and recomputes the stored count and date |
| `Refresh.PublishAllOrNothing` | lotto-worker/src/ingest.ts:476-629 | the chunked batch, whose every statement checks the lease, applies the whole plan with the lease and nothing without it |
| `Refresh.LostTokenStaysLost` | lotto-worker/src/ingest.ts:728-747 | a token that is not a source's lease never becomes it again |
| `Refresh.KeptTokenMeansQuiet` | lotto-worker/src/ingest.ts:728-747 | while a source keeps a token, nobody acquires its lease and its draws do not change |
| `Refresh.RunIsSound` | lotto-worker/src/ingest.ts:718-832 | every step of every interleaving keeps the store's invariants |
| `Refresh.CommitMeansUndisturbed` | lotto-worker/src/ingest.ts:602-629 | a publish that commits proves that since its worker acquired the lease nobody else did and the source's draws did not change |
| `Refresh.LostLeaseWritesNothing` | lotto-worker/src/ingest.ts:310-400 | a worker that lost its lease, or whose lease ran out, changes no draw and no source row; a failure is still recorded under an expired lease |
| `Refresh.CommittedPublishReplaces` | lotto-worker/src/ingest.ts:485-571 | in every run a publish under a live lease is the wholesale replacement, drops few draws and leaves other sources alone |
| `Refresh.FirstSeenIsFirstPublish` | lotto-worker/src/ingest.ts:359-395 | in every run a row's first-seen time is the clock of the publish that first wrote its key |
| `Refresh.StoredCountsDescribeDraws` | lotto-worker/src/ingest.ts:522-571 | in every reachable state the stored count and latest date are those of the active draws |
| `Refresh.SourceNeverGoesBack` | lotto-worker/src/ingest.ts:433-463 | over every run a filled source never becomes empty and its latest date never moves back |
| `Refresh.ShortcutAgreesExactly` | lotto-worker/src/ingest.ts:773-787 | taking the digest shortcut agrees with re-ingesting if and only if no row has fallen due since the publish |
| `Refresh.CleanRevisionShortcutAgrees` | lotto-worker/src/ingest.ts:773-787 | when the published revision quarantined nothing, re-ingesting writes and retires nothing on any later day |
| `ShortcutGap.ShortcutCanDisagree` | lotto-worker/src/ingest.ts:773-787 | for every configured source and such a file, a run from the empty store after which the shortcut is taken under the lease and ingesting the file again would not be a no-op |
| `RefreshStore.SplitIntoChunks` | lotto-worker/src/ingest.ts:78-84 | the slicing loop yields the chunks that concatenate to its input |
| `RefreshStore.Store.AcquireLease` | lotto-worker/src/ingest.ts:728-747 | takes the lease for ten minutes exactly when the source is enabled and its lease is free or expired |
| `RefreshStore.Store.PublishPlan` | lotto-worker/src/ingest.ts:533-629 | under a live lease the chunked upserts, the retirement and the source row are written exactly as planned, first-seen times included; otherwise nothing is |
| `RefreshStore.Store.MarkSourceUnchanged` | lotto-worker/src/ingest.ts:645-704 | the guarded update of an unchanged source: status, failure count and lease change, what it says about draws does not |
| `RefreshStore.Store.RecordFailure` | lotto-worker/src/ingest.ts:271-320 | the token-guarded update of a failed refresh: one more failure, lease given back, nothing said about draws changes |
| `RefreshStore.IngestChanged` | lotto-worker/src/ingest.ts:465-629 | under the lease a file is published, and shown from then on, exactly when it parses and passes the guard; otherwise the source only fails; the lease is given back |
| `RefreshStore.RefreshSource` | lotto-worker/src/ingest.ts:718-832 | an undisturbed refresh is busy exactly when the lease cannot be taken, skips exactly the stored revision, and otherwise publishes exactly an acceptable file, with the status, failures, counts and first-seen times of each outcome |
| `Eligibility.RunIsSound` | lotto-worker/src/ticket-lab.ts:1675-1842 | every step of every run keeps events, operations in flight and grade chains sound |
| `Eligibility.WindowExactly` | lotto-worker/src/scheduler.ts:140-185 | a sales window exists exactly when an intraday game names a session and another game none; sales are open exactly while the Texas clock is before the cutoff of an official draw day |
| `Eligibility.CutoffsInOrder` | lotto-worker/src/scheduler.ts:34-47 | sessions end sales one after the other, then Powerball, Mega Millions, and last the remaining games together with the night session |
| `Eligibility.DrawDays` | lotto-worker/src/scheduler.ts:22-32 | nothing is drawn on Sundays; how the games share the other days |
| `Eligibility.CountingMeansBeforeCutoff` | lotto-worker/src/ticket-lab.ts:485-574 | in every run a ledger whose latest event counts as eligible was proposed before the sales cutoff of an official draw day |
| `Eligibility.NewGradeIsForwardEvidence` | lotto-worker/src/ticket-lab.ts:2207-2310 | a committed grade's ledger counts at the commit, was proposed in its window, rests on a draw first seen strictly after the proposal, and continues the ledger's chain |
| `Eligibility.GradesFormOneChain` | lotto-worker/src/ticket-lab.ts:2254-2300 | revisions of a ledger are 1, 2, and so on, each superseding the one before, no fingerprint twice |
| `Eligibility.CommitExtendsChain` | lotto-worker/src/ticket-lab.ts:2284-2300 | the unique revision makes a commit prove that nobody graded the ledger since its predecessor was read |
| `Eligibility.EvidenceIsPermanent` | lotto-worker/src/ticket-lab.ts:2284-2310 | ledgers, grades and first-seen times are never changed later |
| `Eligibility.FirstSeenIsFirstIngest` | lotto-worker/src/ingest.ts:359-395 | in every run a draw is stored exactly when it was ever ingested, first seen when that first happened |
| `Eligibility.ActiveIsLastShown` | lotto-worker/src/ingest.ts:359-571 | in every run the active content of a draw is what was last ingested and not retired since |
| `Eligibility.CreationDecides` | lotto-worker/src/ticket-lab.ts:485-574 | a new ledger counts exactly when it was proposed in its window and no official result had been seen by then, and the reason on record is the one that decided |
| `Eligibility.RecreationGrantsNothing` | lotto-worker/src/ticket-lab.ts:485-574 | creating an existing ledger again can only take eligibility away |
| `Eligibility.RecreationIsIdempotent` | lotto-worker/src/ticket-lab.ts:485-574 | creating a valid ledger again changes nothing |
| `Eligibility.ExclusionTakesExactly` | lotto-worker/src/ticket-lab.ts:1710-1749 | the reconciler's exclusion takes effect if and only if the ledger is excluded already or neither the exclusion's id nor its key is taken |
| `Eligibility.ExclusionStandsUnlessReinstated` | lotto-worker/src/ticket-lab.ts:1710-1749 | in every run, after reconciling, a ledger whose result was already present is excluded unless it was ever reinstated by hand |
| `Eligibility.LateReinstatementStands` | lotto-worker/src/ticket-lab.ts:2829-2864 | for every ledger proposed in its window, the run from an empty store after which the ledger counts although its result was already present, and no reconciliation excludes it |
| `Eligibility.ReinstatementWasChecked` | lotto-worker/src/ticket-lab.ts:2829-2864 | in every run a recorded reinstatement was checked before it was written, and at its check the ledger was in its window and no stored result had been there at its proposal |
| `Eligibility.ViolatingReinstatementWasLate` | lotto-worker/src/ticket-lab.ts:2829-2864 | a reinstated ledger whose result was there at its proposal was reinstated late: at the check its result was not stored yet |
| `EvidenceStore.Evidence.CreateLedger` | lotto-worker/src/ticket-lab.ts:485-574 | the creation batch, in place |
| `EvidenceStore.Evidence.AppendLedgerEligibilityEvent` | lotto-worker/src/ticket-lab.ts:2785-2890 | a manual decision is recorded exactly when the ledger exists, the key has eight characters, its id and key are free, and a reinstatement is for a ledger in its window with no stored result first seen by its proposal; then it decides |
| `EvidenceStore.Evidence.ReconcileLedgerEligibility` | lotto-worker/src/ticket-lab.ts:1675-1842 | afterwards every listed ledger has a decision in place of its neutral attestation; one that counts was proposed in its window, with no result there at the proposal unless it was reinstated |
| `EvidenceStore.ReconciliationDecides` | lotto-worker/src/ticket-lab.ts:1675-1842 | reconciling a neutral ledger makes it count exactly when it was proposed in its window and no stored result had been there |
| `EvidenceStore.Evidence.GradeLedger` | lotto-worker/src/ticket-lab.ts:2207-2358 | a ledger is graded exactly when it counts, its active draw was first seen after its proposal and none of its grades is of that content; the grade is the next of its chain |
| `EvidenceStore.GradeIsCurrentExactly` | lotto-worker/src/ticket-lab.ts:2207-2300 | grading leaves the latest grade on the draw as it is now if and only if no superseded grade of the ledger is of that content |
| `EvidenceStore.RevertedResultIsNotRegraded` | lotto-worker/src/ticket-lab.ts:2280-2300 | for every ledger proposed in its window, the run from an empty store in which a corrected result is corrected back and the latest grade stays that of the withdrawn content |
| `Shadow.GradesFormOneChain` | lotto-worker/src/shadow.ts:535-550 | a trial's grades form one chain without forks, and neighbours differ in outcome |
| `Shadow.CommittedGradeIsCurrent` | lotto-worker/src/shadow.ts:419-565 | whatever happened since the read, a committed grade names the current eligibility events and draw; it is excluded if and only if a ledger does not count, no active draw exists, the draw was seen by the capture or the capture was not before the cutoff, with the first such reason; otherwise it is pending exactly when a prize is, and carries the scored arms |
| `Shadow.CaptureIsForward` | lotto-worker/src/shadow.ts:203-350 | a trial is captured before the cutoff, before any official result, while both of its ledgers count |
| `Shadow.EvidenceIsPermanent` | lotto-worker/src/shadow.ts:535-565 | trials, grades and first-seen times are never changed later |
| `Shadow.FirstSeenIsFirstIngest` | lotto-worker/src/ingest.ts:359-395 | in every run a draw is stored exactly when it was ever ingested, first seen when that first happened |
| `Shadow.ActiveIsLastShown` | lotto-worker/src/ingest.ts:359-571 | in every run the active content of a draw is what was last ingested and not retired since |
| `ShadowStore.Trials.CaptureTrial` | lotto-worker/src/shadow.ts:203-350 | a variant is captured exactly when it is new, no result row exists, both ledgers count and sales are open at the start and at the commit |
| `ShadowStore.Trials.GradeTrial` | lotto-worker/src/shadow.ts:404-565 | afterwards the latest grade of a readable trial is judged as above by the tables and its score; old grades stay and at most one is added |
| `ShadowStore.Trials.GradeShadowTrials` | lotto-worker/src/shadow.ts:374-590 | the loop keeps old grades, counts those it adds, and leaves every candidate with a latest grade judged as above by the tables and its score |
| `Delivery.RunIsSound` | lotto-worker/src/delivery.ts:147-239 | every step of every interleaving keeps rows, log, completers and tokens sound |
| `Delivery.LeasedExactlyWithToken` | lotto-worker/src/delivery.ts:147-239 | a delivery is leased exactly when it carries a token, and no two carry the same one |
| `Delivery.AttemptsAreAccountedFor` | lotto-worker/src/delivery.ts:327-407 | the attempt count is the sum of the logged attempts and at most 15, and at most 12 results are ever committed |
| `Delivery.FinalIsForever` | lotto-worker/src/delivery.ts:327-407 | sent, ambiguous and dead rows never change again |
| `Delivery.StatusFollowsReport` | lotto-worker/src/delivery.ts:327-407 | in every run a delivery is sent, or ambiguous, exactly when the last result committed for it says so; dead after a failure without local attempts or with twelve in all, and otherwise only if it reports a grade; retried only after a failure |
| `Delivery.ClaimTakesExactly` | lotto-worker/src/delivery.ts:199-239 | a claim takes effect exactly when its token is new and the row is due, waiting or with an expired lease, and not of a grade that does not count; the lease lasts half an hour |
| `Delivery.SuppressEndsExactly` | lotto-worker/src/ticket-lab.ts:1844-1866 | suppression ends exactly the waiting deliveries of excluded grades |
| `Delivery.WaitingCanBeClaimed` | lotto-worker/src/delivery.ts:199-239 | a new delivery, or a waiting one put back, can be claimed at once |
| `Delivery.ReclaimSpendsToken` | lotto-worker/src/delivery.ts:147-239 | a leased delivery is handed out again only after its lease expired, and the old token is spent |
| `Delivery.SpentNeverCommits` | lotto-worker/src/delivery.ts:442-519 | a superseded token never commits a result |
| `DeliveryOutbox.Outbox.SelectCandidate` | lotto-worker/src/delivery.ts:199-239 | finds a claimable delivery of the lowest rank, or none exactly when there is none |
| `DeliveryOutbox.Outbox.ClaimDelivery` | lotto-worker/src/delivery.ts:147-239 | leases that delivery under a new token, in place |
| `DeliveryOutbox.Outbox.CompleteDelivery` | lotto-worker/src/delivery.ts:293-407 | records a result exactly when the token still holds the lease; the status is sent or ambiguous exactly as reported, dead exactly for a failure without local attempts or with twelve in all, and otherwise a retry half an hour later |
| `Generation.RetriesWaitForFirstAttempts` | lotto-worker/src/autonomy.ts:1137-1184 | a tick takes the first due game never attempted, else the first whose retry is due with attempts left; it is idle only when there is neither |
| `Generation.FailedRunsAreNoticed` | lotto-worker/src/autonomy.ts:737-816 | in every interleaving, throws and deaths included, a failed run without a retry time has its alert queued, and one with a retry time has attempts left |
| `Generation.GeneratedIsForever` | lotto-worker/src/autonomy.ts:959-1072 | a generated run never reverts |
| `Generation.LeaseEndsExactly` | lotto-worker/src/autonomy.ts:157-193 | a lease stands until the tick that took it releases it or another takes it over after its fifteen minutes |
| `Generation.LeaseIsGrantedExactly` | lotto-worker/src/autonomy.ts:157-193 | a tick is granted the lease exactly when there is none or it has expired; otherwise it leaves without a trace |
| `Generation.LeaseHasOneHolder` | lotto-worker/src/autonomy.ts:157-193 | in every run no two ticks carry the same token |
| `Generation.StepKeepsBoundExactly` | lotto-worker/src/autonomy.ts:737-800 | from counts of at most three, a step keeps them if and only if it does not record, on a run not generated, an attempt counted when three had been recorded |
| `Generation.BoundHoldsExactly` | lotto-worker/src/autonomy.ts:737-1072 | over every run, the bound holds throughout if and only if no step is such a record |
| `Generation.TickKeepsBoundExactly` | lotto-worker/src/autonomy.ts:859-1135 | a tick granted its lease and left alone keeps the bound if and only if at that moment the run is generated or has room for what the tick records |
| `Generation.RequestKeepsBoundExactly` | lotto-worker/src/api.ts:615-617 | the same condition decides for a manual request, which does not look at the count |
| `Generation.AtMostThreeAttempts` | lotto-worker/src/autonomy.ts:157-193 | choices may overlap and ticks may die: while leases are taken with attempts left and from nobody still at work, and no tick records twice, every run stays within three attempts |
| `Generation.OverlapRecordsFourth` | lotto-worker/src/autonomy.ts:859-875 | for every game and date, a run from the empty tables in which two ticks that chose the run at its last attempt record a fourth |
| `Generation.DoubleRecordRecordsFourth` | lotto-worker/src/autonomy.ts:882-906 | for every game and date, a run from the empty tables, without overlap, in which a missed deadline is recorded twice and becomes the fourth |
| `GenerationTick.Generator.ChooseGame` | lotto-worker/src/autonomy.ts:1163-1183 | the two searches find the first unattempted, else the first retryable, due game |
| `GenerationTick.Generator.ScheduledTick` | lotto-worker/src/autonomy.ts:1137-1184 | a tick on its own works on the game whose turn it is if its lease is free, records a success or a failure with its count, retry time, picks and alert, touches no other run and gives its lease back; it keeps the bound if and only if the run has room for what it records |
| `GenerationTick.Generator.RecordFailure` | lotto-worker/src/autonomy.ts:737-800 | a failure leaves a generated run alone; otherwise it counts, and sets a retry a minute later unless the deadline was missed or three attempts are used up, which raises an alert |
| `Scorecard.SharesAddUp` | lotto-worker/src/ticket-lab.ts:3509-3519 | the whole-cent shares of ordinals 1 through the ticket count add up to the spend |
| `Scorecard.SharesAreFair` | lotto-worker/src/ticket-lab.ts:3509-3519 | earlier tickets never pay less than later ones, and at most a cent more |
| `Scorecard.OpenSpendIsSound` | lotto-worker/src/ticket-lab.ts:3497-3540 | for complete sets in any row order, open spend is exactly the shares of the tickets not graded yet, and zero once all are graded |
| `Scorecard.SettlingNeverLowers` | lotto-worker/src/ticket-lab.ts:3445-3523 | settling pending prizes at any non-negative amounts never lowers the known net |
| `Scorecard.SettlingAddsExactly` | lotto-worker/src/ticket-lab.ts:3445-3523 | settling adds exactly the settled amounts of graded tickets to what was won and takes exactly that many off the pending prizes |
| `Scorecard.WinningsAreFixedOrSettled` | lotto-worker/src/ticket-lab.ts:3445-3523 | what was won is the fixed prizes not settled otherwise plus the settlements |
| `Scorecard.ConfirmedScorecard` | lotto-worker/src/ticket-lab.ts:3457-3540 | the loop counts the sets, their spend once each, the graded shares, winnings and pending prizes; open spend is the ungraded shares and the net is withheld while a prize is pending |
| `Scorecard.LongestLosingStreak` | lotto-worker/src/ticket-lab.ts:3478-3486 | the loop finds the longest run of losing tickets: there is one of that length and none is longer |
| `MatchedComparison.EqualInEveryStratum` | lotto-worker/src/ticket-lab.ts:3619-3634 | in every stratum each compared origin contributes as many tickets as the one with fewest has, and none when some origin has none |
| `MatchedComparison.EqualTotals` | lotto-worker/src/ticket-lab.ts:3596-3637 | all compared origins get the same total |
| `MatchedComparison.OrderDoesNotMatter` | lotto-worker/src/ticket-lab.ts:3596-3637 | every permutation of the rows gives the same origins and the same selection |
| `MatchedComparison.ChosenAreLowest` | lotto-worker/src/ticket-lab.ts:3625-3633 | chosen tickets are graded tickets of that stratum and origin, with the lowest ids there |
| `MatchedComparison.SelectedExactly` | lotto-worker/src/ticket-lab.ts:3596-3637 | a ticket is selected if and only if it is an eligible graded ticket of the origin and fewer of them in its stratum have a lower id than the quota |
| `MatchedComparison.QuotaIsSmallestCohort` | lotto-worker/src/ticket-lab.ts:3619-3624 | the quota is the size of the smallest compared cohort |
| `MatchedComparison.GroupRows` | lotto-worker/src/ticket-lab.ts:3608-3618 | the nested maps filled row by row hold exactly the graded tickets of every stratum and origin |
| `MatchedComparison.MatchedComparisonRows` | lotto-worker/src/ticket-lab.ts:3596-3637 | grouping, sorting the strata and taking the smallest cohort from each gives every origin exactly those tickets, in equal numbers, counts the shared strata, and compares users exactly when one has an eligible graded ticket |
| `Cursors.Base64RoundTrip` | lotto-worker/src/api.ts:299-304 | decoding an encoding gives the text back; it uses the alphabet of section 5 of RFC 4648 without padding |
| `Cursors.TestVectors` | lotto-worker/src/api.ts:299-304 | the first test vectors of section 10 of RFC 4648 |
| `Cursors.CursorRoundTrip` | lotto-worker/src/api.ts:299-337 | a cursor handed out decodes to the date and session it was made from |
| `Cursors.CursorAcceptedExactly` | lotto-worker/src/api.ts:314-337 | a cursor is accepted exactly when it has at most 100 characters of the alphabet, not one more than a multiple of four, that decode to a date, a bar and a session name, and then it names these |
| `Paging.FollowingVisitsAll` | lotto-worker/src/api.ts:487-517 | following row cursors through a listed table visits every row exactly once in order, for every page size |
| `Paging.FollowingTextsVisitsAll` | lotto-worker/src/api.ts:456-517 | however the table keeps its rows, following cursor texts from the first page visits every active draw of the game exactly once, newest first, for every page size |
| `Paging.AfterRow` | lotto-worker/src/api.ts:487-502 | the query after a row returns exactly the rows listed behind it |
| `Paging.QueryIsAfter` | lotto-worker/src/api.ts:487-502 | filtering an unordered table by game, activity and cursor and then ordering it gives the rows listed behind the cursor |
| `Paging.OrderedIsListed` | lotto-worker/src/api.ts:487-493 | ordering lists all rows, each once, newest first |
| `Paging.ResponseIsPage` | lotto-worker/src/api.ts:456-517 | a request with a cursor text that was handed out is answered with the page behind its row and the text of the next cursor |
| `Paging.PageIsFull` | lotto-worker/src/api.ts:456-517 | the first page and the page behind every row hold the next `limit` draws or all that are left, with a cursor exactly when more are left |
| `Paging.SessionsRankThroughTheDay` | lotto-worker/src/api.ts:306-312 | sessions rank in the order in which their sales end |
| `PaperLedger.NormalizeFills` | src/PaperLedger.ts:145-150 | the fill list is that of the specification below |
| `PaperLedger.FillsAreTheValidOnes` | src/PaperLedger.ts:145-329 | the fills worked on are, in time order, the nearest fills on the 1e-8 grid to exactly the valid executions, negative fees counting as none |
| `PaperLedger.SortingIsInOrder` | src/PaperLedger.ts:331-345 | fills are processed by execution time, creation time and trade id, and none is lost or added |
| `PaperLedger.SortingIsStable` | src/PaperLedger.ts:331-345 | fills that tie keep their order |
| `PaperLedger.ProcessFill` | src/PaperLedger.ts:156-272 | one fill closes opposite lots, oldest first, and opens the remainder: it moves the position by its signed size, and its events say how |
| `PaperLedger.BuildPaperLedger` | src/PaperLedger.ts:145-285 | the fill loop computes a ledger whose every asset matches the unit-at-a-time reference below |
| `PaperLedger.LotsAreTheFifoRemainder` | src/PaperLedger.ts:156-272 | for every fill sequence the open lots are on one side and are, unit for unit, what unit-at-a-time FIFO leaves, with its gross profit; realized net and held fees are those of matched and queued units with their own entry and exit fees, together within half a unit per event |
| `PaperLedger.ExactLotsAreTheFifoRemainder` | src/PaperLedger.ts:186-246 | without rounding lots, fees per unit, gross and net equal those of the reference exactly |
| `PaperLedger.PositionAndProfitConserved` | src/PaperLedger.ts:347-410 | the signed open quantity is total bought minus total sold, and realized gross is proceeds minus cost plus the signed entry value of the open lots |
| `PaperLedger.FeesAreConserved` | src/PaperLedger.ts:186-246 | total fees are gross minus net plus held fees plus the fees of fills of no units, within half a unit per event, and no lot's fee is negative |
| `PaperLedger.BuiltLedgerConservesFees` | src/PaperLedger.ts:145-285 | whatever executions are recorded, the ledger built from them satisfies that identity |
| `PaperLedger.ExactFeeIdentity` | src/PaperLedger.ts:186-246 | without rounding the identity holds if and only if no fee was charged on a fill of no units |
| `PaperLedger.TinyFill` | src/PaperLedger.ts:306-329 | a valid fill becomes one of no units exactly when it is smaller than half a unit |
| `PaperLedger.TinyFillBreaksIdentity` | src/PaperLedger.ts:306-329 | such a fill with a fee breaks the identity |
| `PaperLedger.RoundingIsClose` | src/PaperLedger.ts:473-475 | rounding moves a value by at most half a unit and keeps it non-negative |
| `PaperLedger.LastEventDescribesMove` | src/PaperLedger.ts:207-272 | a fill moves the position by its signed size; all its events but the last close the other side, and the last is an entry from flat, an increase, a flip to its side, or a reduction or exit that does not cross flat |
| `PaperLedger.EventsAccountForLots` | src/PaperLedger.ts:207-272 | on each side, opened minus closed quantities are the open size, and lots opened minus exits are the open lots |
| `PaperLedger.TotalsCountEveryFill` | src/PaperLedger.ts:169-178 | the reported fees and sizes bought and sold are those of the asset's fills |
| `Welford.PushAbout` | src/agents/AnomalyDetector.ts:636-647 | one update adds one squared deviation from every point of reference |
| `Welford.MergeAbout` | src/agents/AnomalyDetector.ts:649-666 | one merge adds the squared deviations of both sides from every point of reference |
| `Welford.AboutDeterminesStats` | src/agents/AnomalyDetector.ts:636-666 | statistics that agree with a list about every point are its count, mean and sum of squared deviations |
| `AnomalyDetector.MergedStatsAreWindowStats` | src/agents/AnomalyDetector.ts:523-530 | with ordered times the merged buckets are the plain statistics of all earlier mid prices whose second lies in the window |
| `AnomalyDetector.TotalsAreWindowTotals` | src/agents/AnomalyDetector.ts:539-550 | after pruning the totals are the exact event counts of the window |
| `AnomalyDetector.PruningKeepsWindowPrices` | src/agents/AnomalyDetector.ts:289-299 | with ordered times pruning never drops a price a later window needs |
| `AnomalyDetector.PruningKeepsWindowEvents` | src/agents/AnomalyDetector.ts:289-299 | with ordered times pruning never drops an event a later window needs |
| `AnomalyDetector.FindBucket` | src/agents/AnomalyDetector.ts:462-521 | finds the bucket of a second, or that there is none |
| `AnomalyDetector.BucketIsItsSecond` | src/agents/AnomalyDetector.ts:697-699 | a bucket is the whole second of its time, and lies in a window exactly when that time is not before the first full second after the cutoff |
| `AnomalyDetector.Detector.RecordMidPrice` | src/agents/AnomalyDetector.ts:237-249 | files a price in its second's bucket |
| `AnomalyDetector.Detector.RecordTopOfBookEvents` | src/agents/AnomalyDetector.ts:274-287 | files events in their second's bucket |
| `AnomalyDetector.Detector.Prune` | src/agents/AnomalyDetector.ts:289-299 | drops whole buckets with exactly the samples they hold |
| `AnomalyDetector.Detector.Evaluate` | src/agents/AnomalyDetector.ts:121-149 | each observation reads the exact window statistics and totals, and an unreadable time changes nothing |

## Left out

- Per-game row rules (widths by era, number ranges, launch dates, metadata): the row reader is a parameter; it may accept or refuse any row.
- Byte-level reading of a file: byte-order mark, HTML detection and line splitting; files are lists of lines.
- Quarantine records, the ingestion log, raw storage in R2, downloads and their retries: they do not feed back into the draws.
- Registration of sources, conditional requests and the order in which sources are refreshed.
- Time zones: a moment carries what the Texas clock shows then; nothing is assumed about how the two relate.
- Evidence JSON, reasons and message texts of events, alerts and deliveries; conflicts between equal keys are compared by decision only.
- Prize tables, ticket grading, purchases, settlements and result notifications: a grade is its ledger, revision, predecessor and fingerprint; a shadow score is arbitrary text.
- The work table that spaces out shadow grading, and the query's choice of which trials to look at: any trial may be read at any time.
- The in-memory retry of a claim that loses a race, and the two outbox tables as separate tables: they share one machine ordered by rank.
- The daily summary, ticket generation and configuration checks of a generation run: they decide only how it ends.
- GenerationTick.Generator.ScheduledTick: one tick with nobody interfering; overlapping, throwing and dying ticks are the runs of `Generation`.
- RefreshStore.RefreshSource: one worker with nobody interfering that finishes within its lease; concurrent workers are the runs of `Refresh`.
- Scorecard.ConfirmedScorecard: money totals only; best hit, modelled tickets, percentages and the display order of tickets are not modelled, and neither is the shadow scorecard.
- String collation: ticket and stratum order is the order of numbers that stand for the concatenated keys.
- The ledger-entry list: its cursor has the same form and its query the same shape as the draw list's.
- Asset name normalisation and derived averages of the paper ledger; trade ids are compared as numbers.
- Volume buckets, z-scores (square roots) and thresholds, top-of-book classification and hydration of the detector; event counts are inputs, and statistics are over the reals without floating-point error.
- HTTP routing, authentication, configuration and the remaining agents.
