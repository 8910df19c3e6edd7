# Shift-report ledger: a verified model

This project models the transactional core of a fuel-station back office and
proves what it promises over all inputs and all runs.

* **Ledger** (`LedgerTables`, `DraftSteps`, `SubmitSteps`, `GovernanceSteps`).
  The tables of shifts, drafts, reports, decisions, supersessions, amendments
  and idempotency rows are one value. Every transaction has a specification
  that gives the new tables or the error that rolls it back. `LedgerInvariant`
  states what holds in every reachable state, `LedgerSteps` proves that each
  transaction keeps it, and `LedgerRuns` extends this to any interleaving.
  The theorem modules (`GovernanceTheorems`, `AmendmentMeaning`,
  `SubmissionTheorems`, `PromotionTheorems`, `DraftTheorems`, `MeterChain`)
  draw the conclusions. `DraftOutcomes`, `SubmitOutcomes` and
  `GovernanceOutcomes` say of each transaction, in terms of rows and requests,
  exactly when it is accepted and what it leaves behind, with `LedgerLookups`
  and `AmendmentItems` for its searches and items; `LedgerOrigins` traces every
  row back to the event that made it. The classes in `DraftRepository`,
  `SubmissionRepository` and `GovernanceRepository` carry the transactions out
  step by step on a shared `Database`, with the loops of the source, and are
  proved equal to the specifications.
* **Meter arithmetic** (`DecimalText`, `Reconciliation`, `MeterCatalog`).
  Decimals are texts; their values are reals. Deltas roll over a dial, sales
  round half up.
* **Canonical JSON and the audit chain** (`JsonString`, `TextOrder`,
  `Canonical`, `CanonicalBuffer`, `AuditText`, `AuditChain`, `AuditOrigins`,
  `AuditRepository`). SHA-256 is a function parameter; that it does not
  collide is assumed only of the finitely many texts of two compared logs.
  `strconv.ParseFloat` is a predicate parameter, assumed to accept nothing but
  texts of digits, letters, signs, points and underscores other than the JSON
  words. The layout of a timestamp is a parameter assumed to be one-to-one.
* **Outbox relay** (`Relay`, `RelayProgress`): leases, backoff and workers that
  may stop anywhere.
* **Rate limiter** (`RateLimiter`): slices filtered in place.
* **Role grants** (`RoleGrants`, `RoleMeaning`) and **alerts** (`Alerts`,
  `AlertMeaning`, `AlertRepository`).

Conventions: time is an integer number of microseconds (the limiter works in
any unit); a generated UUID is the next value of a counter, and zero is the
nil UUID; in the audit chain a UUID is its sixteen bytes. A transaction under
row locks is one atomic step; the failure note after a submission is a step of
its own, and anything may run in between. Policies, the rows of the meter
reset and baseline tables, and whether the variance alerts could be evaluated,
are inputs of a submission, which looks its resets and baselines up itself.
The hash of a submitted payload and the decoded payload are inputs too. The
business date of a shift, which follows from its opening time and the station's
time zone, is an input of opening it. No transaction of the source commits an
idempotency row that is still in progress; because the code reads such rows,
they may appear in a run by themselves.

Where the code does not do what its surroundings suggest, the model follows
the code:

* `decimalAddTenth` drops the sign of its input and cuts digits after the
  first; the exact condition is `MeterCatalog.AddTenthIsExactIff`. The type and
  check of the column it reads (migrations/000002_catalog_tables.up.sql:27) are
  what make the condition hold always (`MeterCatalog.CatalogMaximumIsExact`).
* Nothing finalizes staged evidence, so an evidence policy with types and a
  loss in the draft exclude each other (`SubmissionTheorems.PolicyBlocksLosses`).
* When a failure other than a conflict is noted, its idempotency key is closed
  for good exactly when the station has the shift and the key has no row, a
  failed row, or an unsuccessful row of the same payload. An attempt that had
  loaded its rows always closes its key if nothing ran before the note; one
  refused earlier, say for a disabled station, may meet a succeeded row, which
  stays and replays (`SubmissionTheorems.FailedAttemptIsFinal`).
* A clear recorded for the wrong hour makes every pass of the starvation
  scheduler that loads the locked shift with its rule fail, for all shifts,
  because a pass is one transaction. Nothing but a recorded clear of the blocked
  event itself ends this (`Alerts.EvaluationFailsIff`, `Alerts.PassesStayBlocked`).
* The limiter reads its clock before it takes its lock, so two calls may be
  counted against the order of time, and a window can then hold more than the
  limit (`RateLimiter.WindowsBoundedIff`).
* The refusal of an acknowledgement as already decided is unreachable
  (`GovernanceTheorems.NeverAlreadyDecided`).
* The audit hash covers neither the outcome nor the absence of later rows
  (`AuditChain.OutcomeIsNotHashed`, `AuditChain.PrefixIsAccepted`).

`dafny verify dfyconfig.toml` checks everything.

## Model
| member | source | states |
|---|---|---|
| Reconciliation.MeterDeltaAccepts | internal/service/reconciliation/reconciliation.go:28-58 | A delta is calculated exactly for decimals that lie on the dial and whose rollover, if any, stays within the threshold; every other input is refused. |
| Reconciliation.MeterDeltaIsExact | internal/service/reconciliation/reconciliation.go:28-58 | The printed delta parses back to the forward distance from start to end, is a plain decimal, and carries no trailing zero. |
| Reconciliation.ForwardIsTheResidue | internal/service/reconciliation/reconciliation.go:46-57 | The forward distance is the only number on the dial that leads from start to end modulo the dial, with one turn exactly when the end is below the start. |
| Reconciliation.FormatIsExact | internal/service/reconciliation/reconciliation.go:129-138 | Printing a number that has at most the given fraction digits and trimming its zeros loses no value. |
| Reconciliation.RoundHalfUpIs | internal/service/reconciliation/reconciliation.go:98-103 | Rounding gives the nearest whole number, and the upper of two that are as near. |
| Reconciliation.ExpectedSaleMeaning | internal/service/reconciliation/reconciliation.go:87-106 | The expected sale is liters times price rounded half up, for whatever reduced fraction the rational holds, and overflow is reported exactly when that whole number passes the column bound. |
| Reconciliation.ExpectedSaleIsMonotone | internal/service/reconciliation/reconciliation.go:87-106 | More liters or a higher price never lowers the expected sale and never turns an overflow into a result. |
| Reconciliation.TotalRoundingError | internal/repository/submission/repository.go:296-308 | Summing n separately rounded sales differs from the exact sum by at most n/2 rupiah. |
| MeterCatalog.AddTenthMeaning | internal/repository/shift/repository.go:249-272 | The dial size is a one-decimal text worth the magnitude cut to tenths plus one tenth. |
| MeterCatalog.AddTenthIsExactIff | internal/repository/shift/repository.go:249-272 | The dial size is the maximum plus a tenth if and only if the maximum is non-negative and has whole tenths. |
| MeterCatalog.CatalogMaximumIsExact | internal/repository/shift/repository.go:249-272 | For every maximum the catalogue column can hold, a non-negative number with at most one fraction digit, the dial size is exactly a tenth more. |
| MeterCatalog.AddTenthDropsTheSign | internal/repository/shift/repository.go:257-259 | Outside the column the condition is needed: -1.0 gives 1.1, the sign is dropped. |
| MeterCatalog.DialCoversTheMaximum | internal/repository/shift/repository.go:249-272 | With the dial sized this way, one-decimal readings are out of range exactly when one of them exceeds the catalogue maximum. |
| TextTrim.TrimmedAwayIffBlank | internal/repository/governance/repository.go:211-212 | A text counts as missing exactly when it is all white space. |
| TextTrim.SpacesAre | internal/repository/governance/repository.go:211-212 | White space is the 25 characters of Unicode's property. |
| TextTrim.TrimMeaning | internal/repository/governance/repository.go:211-212 | Trimming cuts white space off both ends, and all of it. |
| LedgerRuns.RunKeeps | internal/repository/governance/repository.go:105-470 | Every interleaving of the ledger transactions keeps the whole invariant: keys, one active shift for each station, one draft for each shift, revisions, version chains, heads, statuses, decisions, separation, pending amendments, digests, provenance and idempotency rows. |
| LedgerRuns.ReachableIsGood | internal/repository/governance/repository.go:105-470 | Every state some run leads to from an initial ledger satisfies the invariant. |
| LedgerRuns.InitialIsGood | internal/repository/submission/repository.go:76-104 | The empty ledger satisfies the invariant. |
| LedgerSteps.OpenKeeps | internal/repository/shift/repository.go:37-140 | Opening a shift keeps the invariant. |
| LedgerSteps.ClaimKeeps | internal/repository/draft/repository.go:33-66 | Claiming a draft keeps the invariant. |
| LedgerSteps.ExtendKeeps | internal/repository/draft/repository.go:69-94 | A heartbeat keeps the invariant. |
| LedgerSteps.WriteKeeps | internal/repository/draft/repository.go:97-240 | A draft write of any kind keeps the invariant. |
| LedgerSteps.SubmitKeeps | internal/repository/submission/repository.go:53-187 | A submission keeps the invariant, replays included. |
| LedgerSteps.MarkKeeps | internal/repository/submission/repository.go:189-205 | Noting a failed submission keeps the invariant. |
| LedgerSteps.LeaveKeeps | internal/repository/submission/repository.go:85-104 | An unfinished idempotency row appearing for a shift of its station, as another release could leave it, keeps the invariant. |
| LedgerSteps.AckKeeps | internal/repository/governance/repository.go:105-197 | An acknowledgement keeps the invariant. |
| LedgerSteps.RequestKeeps | internal/repository/governance/repository.go:238-313 | Requesting an amendment keeps the invariant. |
| LedgerSteps.RejectKeeps | internal/repository/governance/repository.go:316-363 | Rejecting an amendment keeps the invariant. |
| LedgerSteps.ApproveKeeps | internal/repository/governance/repository.go:366-470 | Approving an amendment keeps the invariant. |
| LedgerOrigins.EveryReportHasItsEvent | internal/repository/submission/repository.go:144-149 | Every report of a state after a run was made by one accepted event of it: a first version by a submission, in the submitter's name, or the next version of its base by an approval, in the approver's. |
| LedgerOrigins.SubmitterNeverDecides | internal/repository/governance/repository.go:140-142 | Whoever submits a shift never decides the report of that submission, whatever runs afterwards. |
| LedgerOrigins.EveryDecisionHasItsEvent | internal/repository/governance/repository.go:122-170 | Every decision was made by one accepted acknowledgement and says what its request said; its actor then held the approving role named, and the report was the current one of a shift of that station. |
| LedgerOrigins.LockedOnlyByAcknowledgement | internal/repository/governance/repository.go:174-182 | A shift of a reachable state is locked only if the run accepted an acknowledgement of its current version, and in correction only if it accepted a rejection of it. |
| LedgerOrigins.EveryAmendmentHasItsRequest | internal/repository/governance/repository.go:238-313 | Every amendment was made by one accepted request of a supervisor about the then current report, with its digest, and still says what the request said, break-glass included. |
| LedgerOrigins.DecidedAmendmentIsFinal | internal/repository/governance/repository.go:316-470 | Once approved or rejected, an amendment is the same after every run and is never decided again. |
| LedgerOrigins.RejectionIsFinal | internal/repository/governance/repository.go:316-363 | After an accepted rejection the amendment is rejected by that approver in every later state, and no event approves it. |
| LedgerOrigins.EveryShiftHasItsOpening | internal/repository/shift/repository.go:37-140 | Every shift was opened by one accepted request; its station, supervisor, times, backfill key and catalogue are the request's in every later state, and its number was the next one of its station. |
| LedgerOrigins.ClosedBySubmission | internal/repository/submission/repository.go:159-161 | A shift has a closing time exactly when it is not open, and that is the time of its accepted first submission. |
| LedgerOrigins.SequencesHaveNoGaps | internal/repository/shift/repository.go:50-53 | In every state the numbers below a shift's number are all taken at its station. |
| GovernanceOutcomes.AcknowledgedIff | internal/repository/governance/repository.go:105-160 | An acknowledgement is accepted if and only if it names the current, awaiting version at an enabled station, its actor holds an approving role there and neither submitted the version nor entered a row, and its reasons fit the decision. |
| GovernanceOutcomes.AcknowledgementMeaning | internal/repository/governance/repository.go:157-182 | An accepted one puts one new decision in force that says what the request said, reasons trimmed, locks the shift exactly for an acknowledgement and sends it to correction exactly for a rejection, and changes nothing else. |
| GovernanceOutcomes.AmendmentRequestedIff | internal/repository/governance/repository.go:238-300 | A request is accepted if and only if it names the current report, its requester is a supervisor there, nothing is pending on the report, every item is permitted and named once, and both reasons fit. |
| GovernanceOutcomes.AmendmentRejectedIff | internal/repository/governance/repository.go:316-363 | A rejection is accepted if and only if the amendment is pending, the caller is an approver of its station other than the requester, and gives a reason. |
| GovernanceOutcomes.AmendmentApprovedIff | internal/repository/governance/repository.go:366-470 | An approval is accepted if and only if the amendment is pending, the approver may decide it, shows the digest of the base as it stands, is not the requester except under break-glass, every item fits and every row can take its items, and no other shift of the station is active. |
| GovernanceTheorems.StatusMeaning | internal/repository/governance/repository.go:122-182 | In every reachable state a shift is open exactly while it has no report; otherwise its status says whether a decision is in force on the current version and which one, and no superseded version has a decision in force. |
| GovernanceTheorems.OneDecisionPerVersion | internal/repository/governance/repository.go:157-182 | A version is decided at most once, always with sequence number one. |
| GovernanceTheorems.NeverAlreadyDecided | internal/repository/governance/repository.go:144-156 | In no reachable state is an acknowledgement refused as already decided: that branch is never reached. |
| GovernanceTheorems.DecisionCount | internal/repository/governance/repository.go:433-445 | The number of decisions is the number of active heads plus the number of supersessions. |
| GovernanceTheorems.VersionsAreOneChain | internal/repository/governance/repository.go:420-449 | The reports of a shift are exactly the links of one chain of versions that starts at the current report. |
| GovernanceTheorems.VersionCount | internal/repository/governance/repository.go:420-449 | A shift has as many reports as its current version number says. |
| GovernanceTheorems.PendingIsFresh | internal/repository/governance/repository.go:255-285 | A shift has at most one pending amendment; it is based on the current report, and its stored digest is the digest of that report now. |
| GovernanceTheorems.CreatorsOfVersions | internal/repository/governance/repository.go:530-593 | Every version of a report has rows by the same people as its ancestors. |
| GovernanceTheorems.CreatorsNeverDecide | internal/repository/governance/repository.go:140-142 | Whoever entered a sale or loss of version one never decides any version of the report, and nobody decides a version they submitted. |
| GovernanceTheorems.ApproversAreSeparate | internal/repository/governance/repository.go:393-395 | An approver never decides the version their approval made, and approves an own request only under break-glass. |
| AmendmentMeaning.ApprovalMeaning | internal/repository/governance/repository.go:366-470 | An approval adds one report, leaves every earlier report and its rows untouched, copies readings unchanged, and gives every sale and loss the values of the items that name it. |
| AmendmentMeaning.CopyMeaning | internal/repository/governance/repository.go:516-595 | The copied rows stand one for one against the base rows: fields no item names are unchanged, named fields have the last item's value, all keep their creator. |
| AmendmentMeaning.SaleRefusedIff | internal/repository/governance/repository.go:541-557 | Copying a sale fails exactly when some item that names it carries no decimal. |
| AmendmentMeaning.LossRefusedIff | internal/repository/governance/repository.go:571-592 | Copying a loss fails exactly when some item that names it carries a value its column cannot take. |
| AmendmentMeaning.ItemOrderIsIrrelevant | internal/repository/governance/repository.go:414-416 | Because items name distinct fields, the order in which they are read back never changes an amended sale or its refusal. |
| AmendmentMeaning.LossOrderIsIrrelevant | internal/repository/governance/repository.go:414-416 | The same for losses. |
| AmendmentMeaning.DeclaredTotalIsConserved | internal/repository/governance/repository.go:534-562 | The declared total of the new version is the base total plus exactly the sum of the changes the items ask for. |
| AmendmentItems.FieldAllowedIff | internal/repository/governance/repository.go:500-514 | The nine permitted pairs of kind and field. |
| AmendmentItems.ItemsFitIff | internal/repository/governance/repository.go:472-514 | The items fit the base report if and only if each is permitted and its old value is what stands in the column it names, of a row of the base; otherwise the error is that of the first that does not. |
| AmendmentItems.SaleItemMeaning | internal/repository/governance/repository.go:483-557 | An item of a sale writes its new value to the very column its old value was compared with, and nothing else. |
| AmendmentItems.SaleItemsWithoutChange | internal/repository/governance/repository.go:541-557 | Items that ask a sale for the values it has leave it as it is. |
| AmendmentItems.LossItemWithoutChange | internal/repository/governance/repository.go:571-592 | An accepted item that asks a loss for the value it has changes nothing, except that an absent note becomes an empty one, or an empty one absent, exactly for the two values that read alike. |
| SubmissionTheorems.OutcomeIsFinal | internal/repository/submission/repository.go:178-205 | Along any run a succeeded key keeps its row and a failed key stays failed, where a key is a station, a shift and the caller's text. |
| SubmissionTheorems.SuccessIsRecorded | internal/repository/submission/repository.go:159-176 | After a success the row of the key holds the report that was answered and the hash of its payload. |
| SubmissionTheorems.FailedAttemptIsFinal | internal/repository/submission/repository.go:178-205 | When an attempt fails with anything but a conflict and any run passes before its failure is noted, the note leaves the key failed if and only if the station has the shift and the key then has no row, a failed row, or an unsuccessful row of the same payload; with nothing in between this holds for every attempt that loaded its rows. After any further run a failed key only ever answers a loading error or a conflict. |
| SubmissionTheorems.NoteMeaning | internal/repository/submission/repository.go:189-205 | The note fails the row of its key and ends its lease, or adds a failed row, or changes nothing, and touches no other row. |
| SubmissionTheorems.OneReportPerShift | internal/repository/submission/repository.go:75-187 | Two successful submissions for one shift, whatever runs between them and whatever their keys, answer the same report, and the later one changes nothing. |
| SubmissionTheorems.SubmissionKeepsEveryRow | internal/repository/submission/repository.go:274-362 | A first submission at revision r that is not backfilled turns the r - 1 rows of the draft one for one into r - 1 report rows of the same kind with the same content and creator. |
| SubmissionTheorems.EvidenceNeedsNoLosses | internal/repository/submission/repository.go:436-481 | With nothing finalized, a policy accepts the staged objects exactly when each fits a type and there is no loss or no type. |
| SubmissionTheorems.PolicyBlocksLosses | internal/repository/submission/repository.go:354-361 | No step ever finalizes a staged object, so a first submission with a loss under a policy with types never succeeds in any run. |
| PromotionTheorems.EveryReadingIsPriced | internal/repository/submission/repository.go:274-313 | A first report that is not backfilled has one reading for each draft reading; each takes the catalogue price, and its expected sale is its forward distance times that price, rounded half up. |
| PromotionTheorems.WrittenRowIsReported | internal/repository/draft/repository.go:97-240 | Whatever happens between an accepted draft write and the first submission, the report says what was written and by whom. |
| SubmitOutcomes.SubmittedIff | internal/repository/submission/repository.go:53-177 | A submission is carried out if and only if its rows are there, its key is open, the caller holds the open shift's draft at the revision given, the policies could be read, and every reading, loss and staged object passes; it is answered from the record if and only if its key succeeded with this payload. |
| SubmitOutcomes.ConflictIff | internal/repository/submission/repository.go:76-115 | It is refused as a conflict if and only if its rows are there and the key is taken otherwise or the caller may not submit. |
| SubmitOutcomes.SubmissionMeaning | internal/repository/submission/repository.go:144-170 | A submission that is carried out writes the first report in the caller's name with an undecided head, moves shift, draft and key on, takes the losses, and changes nothing else. |
| SubmitOutcomes.StartFitsIff | internal/service/reconciliation/reconciliation.go:61-84 | A meter start is accepted if and only if it equals the reset when there is one, else the baseline, else the predecessor's end, else is any decimal. |
| SubmitOutcomes.LossesAreReportedOnce | internal/repository/submission/repository.go:318-347 | In every reachable state a loss is reported by at most one row of one first version. |
| LedgerLookups.InputForIs | internal/repository/submission/repository.go:234-252 | Of several submitted entries for a nozzle the last counts, and the nil nozzle has none. |
| LedgerLookups.ResetValueIs | internal/repository/submission/repository.go:625-634 | The first approved reset for station, nozzle and shift counts. |
| LedgerLookups.BaselineValueIs | internal/repository/submission/repository.go:635-642 | The current baseline counts from its first sequence number on. |
| LedgerLookups.NoPredecessorIff | internal/repository/submission/repository.go:643-646 | There is no predecessor if and only if no locked shift of the station has a smaller number. |
| LedgerLookups.PredecessorIs | internal/repository/submission/repository.go:643-646 | The predecessor is a locked shift of the station below the number with no locked one in between. |
| LedgerLookups.EvidenceValidIff | internal/repository/submission/repository.go:436-481 | The policy accepts if and only if every staged object fits its type and every loss has, for every type, enough finalized objects for the mode. |
| DraftOutcomes.ShiftOpenedIff | internal/repository/shift/repository.go:37-140 | A shift is opened if and only if the station is enabled, has a catalogue and no active shift, and the backfill is in order and not taken, or nothing about a backfill is named. |
| DraftOutcomes.OpenedDraft | internal/repository/shift/repository.go:110-121 | It comes with one empty draft at revision one, owned by its opener and unclaimed. |
| DraftOutcomes.DraftClaimedIff | internal/repository/draft/repository.go:33-56 | A claim is accepted if and only if the station is enabled and no lease of somebody else is running. |
| DraftOutcomes.LeaseExtendedIff | internal/repository/draft/repository.go:69-94 | A heartbeat is accepted if and only if it comes from the owner with the token of a running lease of a draft being edited. |
| DraftOutcomes.RowWrittenIff | internal/repository/draft/repository.go:97-240 | A write is accepted if and only if it comes from the holder of a running lease who saw the last revision, and the row is new and well-formed. |
| DraftOutcomes.RowWrittenMeaning | internal/repository/draft/repository.go:97-240 | It adds one row that says what was written and by whom, moves the revision on by one, and changes nothing else. |
| DraftOutcomes.EveryUseHasItsLease | internal/repository/draft/repository.go:17-118 | On any run an accepted heartbeat, write or first submission comes from the user of an accepted claim, with the token of that claim, less than ten minutes after the claim or after that user's last accepted heartbeat. |
| DraftOutcomes.LeaseRunsOut | internal/repository/draft/repository.go:50-56 | Ten minutes after the last accepted claim or heartbeat anybody may claim the draft. |
| DraftTheorems.RetiredTokenStaysRetired | internal/repository/draft/repository.go:50-66 | A token a draft no longer carries is never carried by it again. |
| DraftTheorems.RetiredTokenIsRefused | internal/repository/draft/repository.go:84-118 | A token replaced by a claim or cleared by a submission never again authorises a write, a heartbeat or a first submission, whatever runs in between. |
| DraftTheorems.LeaseIsExclusive | internal/repository/draft/repository.go:50-56 | While a lease of up to ten minutes runs and the draft is not handed in, nobody but its owner takes the draft, on any run with a clock that does not go back. |
| DraftTheorems.WritesAreConsecutive | internal/repository/draft/repository.go:215-240 | The n-th accepted write after any state names exactly the n-th revision from there: no update is lost. |
| DraftTheorems.RevisionCountsRows | internal/repository/draft/repository.go:235-240 | In every reachable state the revision is one more than the number of rows of the draft. |
| MeterChain.MetersAreFinal | internal/repository/governance/repository.go:521-527 | Once a shift has a report, its meters are the same in every later state, whatever is amended. |
| MeterChain.CheckedStartsAtEnd | internal/service/reconciliation/reconciliation.go:61-84 | With no reset and no baseline, an accepted meter starts at the value where the predecessor's reading ended. |
| MeterChain.CheckedDelta | internal/repository/submission/repository.go:296-303 | The delta used in the chain is the one the submission calculated. |
| MeterChain.MeterConservation | internal/repository/submission/repository.go:254-312 | Along predecessor links on one dial the accepted deltas add up to last end minus first start plus the dial for each rollover, at the end of any run. |
| MeterChain.BackfillRepeatsTheSource | internal/repository/submission/repository.go:254-273 | A backfilled report has one reading for each catalogue nozzle, each repeating meters, price and sale of its source and naming it. |
| DraftRepository.Shifts.OpenShift | internal/repository/shift/repository.go:37-140 | Step by step: either the specified error and untouched tables, or one more shift with the next sequence number of its station and one empty draft. One active shift for each station and one shift for each backfilled day and number are enforced. |
| DraftRepository.Shifts.CheckBackfill | internal/repository/shift/repository.go:56-93 | A backfilled shift needs a real day, a positive number, a reason and an approver with exactly one of the two roles, and no later locked day may have carried readings forward; any other shift may name none of these. |
| DraftRepository.Drafts.Claim | internal/repository/draft/repository.go:33-66 | Either the specified error and untouched tables, or the draft held by the caller under a fresh token for ten minutes. |
| DraftRepository.Drafts.Heartbeat | internal/repository/draft/repository.go:69-94 | Extends the lease exactly for its current owner and token. |
| DraftRepository.Drafts.WriteReading | internal/repository/draft/repository.go:97-133 | One reading row and the next revision, or an error and untouched tables. |
| DraftRepository.Drafts.WriteSales | internal/repository/draft/repository.go:136-157 | One sales row and the next revision, or an error and untouched tables. |
| DraftRepository.Drafts.WriteLoss | internal/repository/draft/repository.go:160-189 | One loss row and the next revision, or an error and untouched tables; a direction other than loss or gain and a blank reason code are refused by the table. |
| DraftRepository.Drafts.StageEvidence | internal/repository/draft/repository.go:192-213 | One staged object and the next revision, or an error and untouched tables; blank kinds and types are refused by the table. |
| DraftRepository.Drafts.LockDraftForMutation | internal/repository/draft/repository.go:215-233 | The draft is handed out exactly when caller, token, lease and revision fit. |
| LedgerDatabase.QueryPredecessor | internal/repository/submission/repository.go:625-640 | The search returns the locked shift of the station with the greatest smaller sequence number, or none. |
| SubmissionRepository.Submissions.SubmitInTransaction | internal/repository/submission/repository.go:53-177 | The attempt ends in the specified tables or leaves them alone; on success the key's row names the report answered, and only a replay changes nothing. |
| SubmissionRepository.Submissions.Submit | internal/repository/submission/repository.go:178-187 | A failed attempt that is not a conflict additionally leaves exactly the specified failure note. |
| SubmissionRepository.Submissions.MarkSubmitFailed | internal/repository/submission/repository.go:189-205 | Notes a failure on the key of the station and shift, unless it succeeded or belongs to another payload; a shift of another station breaks the foreign key and nothing is noted. |
| SubmissionRepository.Submissions.PromoteDraftChildren | internal/repository/submission/repository.go:229-364 | The loops over readings, sales, losses and evidence build the specified rows or the first error in that order. |
| SubmissionRepository.ValidateStagedEvidence | internal/repository/submission/repository.go:436-481 | The maps of types and counts accept exactly what the policy demands of every staged object and of every loss and type. |
| SubmissionRepository.MeterContinuity | internal/repository/submission/repository.go:625-663 | Finds what a start is checked against: the end in the current report of the last locked shift before, the first approved reset for shift and nozzle, and a baseline already in effect. |
| GovernanceRepository.Governance.Acknowledge | internal/repository/governance/repository.go:105-197 | Either the specified error and untouched tables, or one decision that its report's head points to and a shift with the status it implies. |
| GovernanceRepository.Governance.RequestAmendment | internal/repository/governance/repository.go:238-313 | Either the specified error and untouched tables, or one pending amendment with the digest of its base; a blank reason and a break-glass flag without its reason are refused. |
| GovernanceRepository.Governance.RejectAmendment | internal/repository/governance/repository.go:316-363 | Either the specified error and untouched tables, or the amendment rejected by the caller. |
| GovernanceRepository.Governance.ApproveAmendment | internal/repository/governance/repository.go:366-470 | Either the specified error and untouched tables, or the next version of the base with everything that goes with it. |
| GovernanceRepository.ValidateAmendmentItems | internal/repository/governance/repository.go:472-514 | Reports the first item that does not fit the base report. |
| GovernanceRepository.CopyAmendedReportChildren | internal/repository/governance/repository.go:516-595 | The nested loops over rows and items build the specified rows or the first error. |
| JsonString.StringRoundTrip | internal/canonical/canonical.go:109-116 | Reading a written string gives back its characters and leaves what follows it. |
| JsonString.QuotedIsPlain | internal/canonical/canonical.go:109-116 | Whatever a text contains is written without control characters, HTML characters and line separators. |
| JsonString.PlainIsUnchanged | internal/canonical/canonical.go:109-116 | A text of other characters without quotes and backslashes is written as it is. |
| Canonical.MarshalsIff | internal/canonical/canonical.go:14-127 | A value has a canonical text if and only if it contains no float, nothing of an unknown type, and only numbers that parse and have no plus sign in front. |
| Canonical.DecodeUndoesMarshal | internal/canonical/canonical.go:36-127 | For every value that is accepted, reading its canonical text gives the value back, integers as numbers with their digits. |
| Canonical.MarshalIsInjective | internal/canonical/canonical.go:14-21 | Two accepted values have the same text if and only if a reader cannot tell them apart. |
| TextOrder.BeforeIff | internal/canonical/canonical.go:86-86 | The order compares the first characters that differ, and a proper beginning comes first. |
| TextOrder.OneIncreasingList | internal/canonical/canonical.go:81-86 | A set of keys has one sorted list, so the text does not depend on the order in which a map yields its keys. |
| TextOrder.SortStrings | internal/canonical/canonical.go:86-86 | Sorting the collected keys in any order yields that list. |
| CanonicalBuffer.AppendValue | internal/canonical/canonical.go:36-107 | The recursion over a shared buffer appends exactly the text of the value, and fails exactly on unsupported values. |
| CanonicalBuffer.MarshalValue | internal/canonical/canonical.go:14-21 | Gives the text of a supported value and nothing otherwise. |
| AuditChain.EveryRunVerifies | internal/repository/audit/repository.go:80-128 | Any run of appends keeps every organization's chain valid with sequence 1..n, and log, outbox and relay state hold the same events, each once. |
| AuditOrigins.RowHashMeaning | internal/repository/audit/repository.go:154-167 | A row hash is the digest of one canonical text: version one, organization, sequence, event, type, payload, time and previous hash, in this order. |
| AuditOrigins.UuidTextMeaning | internal/repository/audit/repository.go:162-162 | Identifiers are hashed as 36 characters, the sixteen bytes in order in lower-case hexadecimal with four hyphens. |
| AuditOrigins.AppendedIff | internal/repository/audit/repository.go:80-128 | An append is accepted if and only if the request is complete, its payload has a canonical form, its event is new and the digest has 32 bytes; it adds one row next in its chain, one outbox entry with its type, payload and time, and a delivery that is pending and due at once. |
| AuditOrigins.EveryRowWasAsked | internal/repository/audit/repository.go:80-128 | After any calls every row says what one of them asked, and outbox and delivery state carry its type, payload and time. |
| AuditRepository.BuiltLogIsAccepted | internal/repository/audit/repository.go:131-152 | Verification accepts every log that appends built from nothing. |
| AuditChain.LastHashFixesTheLog | internal/repository/audit/repository.go:131-167 | If no two of the hashed texts collide, two accepted non-empty logs with the same last hash have the same length and agree on every hashed field of every row. |
| AuditChain.PrefixIsAccepted | internal/repository/audit/repository.go:131-152 | Every prefix of an accepted log is accepted: rows missing from the tail are not noticed. |
| AuditChain.OutcomeIsNotHashed | internal/repository/audit/repository.go:154-167 | Changing an outcome never changes whether a log is accepted. |
| AuditRepository.AuditRepository.AppendInTransaction | internal/repository/audit/repository.go:80-128 | Adds exactly one row to log, outbox and relay state, or leaves the tables alone with an error; keeps the audit invariant. |
| AuditRepository.AuditRepository.Verify | internal/repository/audit/repository.go:131-152 | The loop accepts exactly the logs whose rows, in sequence order, are numbered 1..n, linked and hashed. |
| AuditRepository.OrderKeepsRows | internal/repository/audit/repository.go:136-138 | Ordering the rows loses none and makes none up. |
| Relay.DeliveredOnce | internal/repository/relay/repository.go:74-105 | Over any interleaving of workers, stopped workers included, an event is finished successfully at most once, delivered means the sink took that event's payload, and the attempt count is the number of claims. |
| Relay.DeliveredIsAbsorbing | internal/repository/relay/repository.go:43-45 | A delivered row is never written again. |
| Relay.ClaimsKeepTheirDistance | internal/repository/relay/repository.go:46-104 | With a clock that does not go back, claims k and k + 1 of an event are at least min(300, 2^min(k, 12)) seconds apart. |
| RelayProgress.ClaimSucceedsIff | internal/repository/relay/repository.go:34-66 | An idle worker's claim of a known event succeeds if and only if it is pending, its lease is over, or its backoff is over; it then leases the row for 300 seconds and hands out the payload. |
| RelayProgress.FinishSucceedsIff | internal/repository/relay/repository.go:74-105 | A finish is recorded if and only if the worker's token is on the leased row and the lease has not ended; a failure waits 2^min(k, 12) seconds from then. |
| RelayProgress.WaitDoubles | internal/repository/relay/repository.go:96-101 | The wait starts at one second and doubles for twelve attempts. |
| RelayProgress.UndeliveredCanBeDelivered | internal/repository/relay/repository.go:34-105 | In every state after any run an undelivered event can be claimed from 300 seconds after its last claim while leased, or from the backoff after its last failed finish, and an accepting send with a finish in time then delivers it. |
| RelayProgress.NotBeforeItsTime | internal/repository/relay/repository.go:34-66 | Before that no claim succeeds. |
| Relay.RelayRepository.ClaimAt | internal/repository/relay/repository.go:34-66 | Leases the event exactly when it is due; the tables are those of the claim step. |
| Relay.RelayRepository.FinishAt | internal/repository/relay/repository.go:74-105 | Records a result exactly for the lease in force, with the backoff the attempt count gives. |
| Relay.RelayRepository.Deliver | internal/service/relay/service.go:41-59 | A delivery that nothing interleaves is claim, send and finish of one worker. |
| RateLimiter.AdmittedIff | internal/httpapi/account/handlers.go:53-73 | When the clock readings, in lock order, do not go back, a call is admitted if and only if fewer than limit earlier admissions of its address, out of the whole history, lie in its window. |
| RateLimiter.NoWindowOverflows | internal/httpapi/account/handlers.go:53-73 | When the clock readings, in lock order, do not go back, no window, wherever it ends, holds more than limit admissions of one address. |
| RateLimiter.WindowsBoundedIff | internal/httpapi/account/handlers.go:57-58 | Calls read the clock before they take the lock. If readings may lag behind an earlier locked call by at most some time, windows stay bounded for all calls if and only if that time is zero or the limit is one. |
| RateLimiter.ClockGoingBackOverflows | internal/httpapi/account/handlers.go:57-58 | The calls that show it: with a limit of at least two, readings one unit behind put limit + 1 admissions into one window. |
| RateLimiter.ListsStayShort | internal/httpapi/account/handlers.go:67-72 | A stored list never exceeds the limit, whatever the clock does. |
| RateLimiter.Limiter.FilterInPlace | internal/httpapi/account/handlers.go:60-66 | Filtering over the slice's own backing array keeps exactly the later times in order. |
| RateLimiter.Limiter.Allow | internal/httpapi/account/handlers.go:53-73 | Decides by the filtered list and stores it, with the call added when admitted; no other address changes. |
| RoleGrants.ReplayGivesTheTable | internal/repository/identity/repository.go:119-142 | Replaying an organization's role events over its initial grants always gives exactly its role table. |
| RoleGrants.SeparationHolds | internal/repository/identity/repository.go:395-410 | If no user starts with Supervisor beside an approver role at one station, no run produces one. |
| RoleGrants.OwnerStays | internal/repository/identity/repository.go:182-190 | An organization with an Owner grant never loses its last one. |
| RoleMeaning.AssignedIff | internal/repository/identity/repository.go:93-147 | A role is assigned if and only if the actor may change it, the station is the organization's, the grant is new and mixes no two sides; exactly that grant and its event are added. |
| RoleMeaning.RemovedIff | internal/repository/identity/repository.go:150-207 | A role is removed if and only if the actor may change it, the user has it, and for an owner's role another owner remains; exactly that grant goes and its event is added. |
| RoleMeaning.InvitedIff | internal/repository/identity/repository.go:464-531 | An invitation is accepted if and only if the station is the organization's and nobody has the address; exactly one user, one grant and one event are added. |
| RoleMeaning.StepByOwner | internal/repository/identity/repository.go:106-108 | An owner changes only other people's roles, in the own organization, and no owner's or superadmin's role. |
| RoleMeaning.OwnersRaiseNobody | internal/repository/identity/repository.go:106-108 | Over any changes by owners the owners and superadmins stay the same. |
| RoleGrants.IdentityRepository.AssignRole | internal/repository/identity/repository.go:93-147 | One more grant with its event, or an error and untouched tables. |
| RoleGrants.IdentityRepository.RemoveRole | internal/repository/identity/repository.go:150-207 | One grant fewer with its event, or an error and untouched tables. |
| RoleGrants.IdentityRepository.CreateInvitation | internal/repository/identity/repository.go:464-531 | One new user with one grant and its event, or an error and untouched tables. |
| RoleGrants.IdentityRepository.RoleCombinationBreaksSeparation | internal/repository/identity/repository.go:395-410 | The loop finds a break exactly when the roles held and the role added contain both sides. |
| Alerts.AlertsAreUnique | internal/repository/governance/repository.go:614-737 | Over any history of shifts, rules and both operations, a rule fires about a subject at most once an hour and a fired event is cleared at most once. |
| Alerts.SecondPassAddsNothing | internal/repository/governance/repository.go:662-737 | An immediate second pass changes nothing, and a pass only adds rows. |
| AlertMeaning.PassMeaning | internal/repository/governance/repository.go:662-737 | After a successful pass every listed open or unconfirmed shift opened at least 24 hours ago has, under each enabled starvation rule of its station, a fired alert in the hour of its opening, and every fired alert of a locked shift under such a rule is cleared; the pass added nothing but such alerts and clears. |
| AlertMeaning.OccurrenceMeaning | internal/repository/governance/repository.go:614-659 | An accepted occurrence adds one event that says the same, unless it is on record or fires under a disabled rule. |
| Alerts.EvaluationFailsIff | internal/repository/governance/repository.go:662-737 | A pass fails if and only if an uncleared fired event of a loaded locked shift shares its hour with another recorded clear of the same rule and shift. |
| Alerts.MisplacedClearStopsThePass | internal/repository/governance/repository.go:625-652 | Three recorded occurrences that reach a state in which a pass fails: a clear of one fired event recorded for the hour of another. |
| Alerts.PassesStayBlocked | internal/repository/governance/repository.go:662-737 | From such a state on, whatever occurrences and passes follow, every pass that loads the shift as locked with its rule fails as a whole, until a clear of the blocked event itself is recorded. |
| Alerts.OccurrenceRefusedIff | internal/repository/governance/repository.go:614-659 | A recorded occurrence is refused if and only if its rule is unknown, it clears nothing, or it is not on record yet, its rule counts, and it does not fit: version and source disagree, or it clears an event that does not exist or in an hour already taken. |
| AlertRepository.AlertRepository.RecordAlertOccurrence | internal/repository/governance/repository.go:614-659 | Inserts one event or answers the one already there. |
| AlertRepository.AlertRepository.EvaluateStarvation | internal/repository/governance/repository.go:662-737 | The nested loops give the specified table, and the count returned is the number of rows added. |

## Left out

- HTTP handlers, sessions, tokens, password hashing, organization and station administration, reporting views and exports: plumbing or lists of guards.
- Recovery of stale submissions: nothing here writes the status it looks for.
- Writing policy revisions, policy snapshots, meter resets and baselines, and evaluating variance alerts: a submission takes the rows it reads, and whether the alerts could be evaluated, as inputs.
- Station time zones: the business date of a shift is an input.
- The checks on idempotency rows beyond their keys (a key that is not blank, a payload hash of 32 bytes): the service refuses blank keys and every hash it writes has that length.
- The width and precision of numeric columns, except the catalogue maximum and the bound of an expected sale.
- The audit rows that ledger, role and policy transactions append: the chain is modelled on its own.
- PostgreSQL storage: numeric columns are taken to return the text that was stored, jsonb columns the decoded value that was stored (in PostgreSQL a number such as 1e2 comes back as 100), timestamps are whole microseconds.
- Unique keys that are implied: one report for each shift and version, one sales row for each dispenser and one loss row for each loss of a report follow from the modelled checks and are not checked again.
- The report status column: the modelled code only ever writes "submitted".
- Catalogue snapshots are well-formed lists of nozzles with their dial and price; a malformed snapshot is not modelled.
- Amendment items on deliveries and dip readings pass the field check and change nothing, as in the source; their tables are not modelled.
- Free texts that are stored and never read (reasons once they passed their checks, error details, object keys, display names) and the tokens of invitations.
- Texts are sequences of Unicode scalar values; UTF-8 itself and the replacement of invalid UTF-8 are not modelled.
- Full conformance of the encoder to RFC 8785 (keys sorted by UTF-16 units in section 3.2.3, string escapes in section 3.2.2.2): the encoder differs, and only unambiguity is proved.
- A relay run works on a fixed set of outbox events; the 32-bit width of the attempt counter is not modelled.
- The mutex of the limiter: calls are taken in lock order.
- Rules and shifts enter an alert pass as lists in their query order, and fired events are cleared in the order of insertion.
- Evidence of later versions: an approval copies no evidence events, as in the source.
- Meter chains across a reset or baseline: with one in force the source accepts its value instead of the predecessor's end.
- The checks services make before they call a repository, such as that the caller of a role change claims an administrative role.
- Checks for missing dependencies and the zero time.
