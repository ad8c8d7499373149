# Background jobs, keys and sessions: a verified model

The repository is a multi-tenant student-visa and finance system. Its risky code is not the CRUD but a handful of small
protocols: rotating the keys that encrypt personal data, anchoring the audit chain incrementally, aging receivables while
people pay, retrying outgoing messages, mirroring a foreign CRM, and caching revocations. This project models those
protocols in Dafny and proves what each of them keeps, over every run, interleaving and failure pattern it can meet.

`dafny verify dfyconfig.toml` checks everything. One module per component:

| module | what it is about |
|---|---|
| `Kms`, `Envelope`, `Rewrap` | the key registry, the two envelope layouts, and the resumable re-wrap; together: when retired keys can go |
| `HashAnchor` | the delta-folded audit anchor equals a fold of the covered log |
| `Billing`, `LateFees` | the receivables pipeline and the late fee under the row lock |
| `Outbox`, `ReminderDispatch`, `ReminderScan` | message retries and digest, the multi-worker reminder claim, the chunked reminder insert |
| `Ingest`, `FeeSeed` | convergence of the CRM mirror, and the fee seeding behind two unique indexes |
| `Runner`, `JobLock` | the job runner under every failure pattern, and FNV-1a as a lock key |
| `Revocation`, `Refresh` | the server's revocation caches, and the browser's single-flight refresh |
| `Money` | decimal strings and minor units |
| `Ordering`, `Arith`, `Text`, `Wrappers` | shared: ordered selection from sets, division, `trim`/`split`, Option and Result |

Where the source updates state step by step, the model is a class whose methods carry the loops of the source and are tied
by their `ensures` to a specification function; the properties are lemmas about that function. Actors outside a component
(other requests, other workers, a dying process, a failing statement) are parameters or events, so every theorem ranges over
all of them. Cryptography is a pair of functions `seal` and `open` in the sense of NIST SP 800-38D sections 7.1 and 7.2:
what is sealed opens again under the same key and IV. Nothing more is assumed, except in the one theorem about envelopes
that name no key, which needs the other loaded keys to reject them.

## What turned out false

Each of these is kept as the code has it, with a witness and, where there is one, the exact condition.

- The anti-join of the re-wrap ignores which key a progress row was for, so rows moved by one rotation are skipped by the
  next (`Rewrap.NextRotationSkips`; exact condition in `Rewrap.ResumedRewrapExact`).
- The header of `hashAnchor.ts` (lines 16-18) says an anchor without a watermark is recomputed from scratch; the code folds
  the whole log onto the old root, over every later history, unless the old anchor covered nothing
  (`HashAnchor.LegacyAnchorFoldsTwice`, `HashAnchor.CoveredRowsFoldTwice`). A row that arrives at or behind the watermark is
  never anchored (`HashAnchor.WholeLogExact`).
- A failed insert of the RUNNING row makes a run that did its work record SKIPPED_LOCKED (`Runner.SkippedExact`,
  `Runner.SucceededButSkipped`).
- A job whose last rejection is `undefined` (or any value `JSON.stringify` maps to it) has no message, and recording its
  failure throws: the RUNNING row stays, and a second, FAILED row is attempted (`Runner.RowsExact`).
- The comment at `billingDaily.ts:137-138` says per-row errors stay isolated. Each step is one transaction, so one failing
  write undoes the step and fails the rest of it, while the counters keep what they had counted
  (`Billing.OneBadRowLosesTheBatch`; exactly when counters are right: `Billing.CounterExact`).
- A plan is completed by a write that checks only its own status, so one whose installment was reopened since the scan is
  completed all the same (`Billing.ReopenedPlanCloses`; exact condition in `Billing.StaleClosingExact`).
- Late-fee runs that overlap across midnight can exceed `max_per_installment` (exactly when: `LateFees.CommitExceedsExact`;
  always so in `LateFees.MidnightOverlapExceedsCap`; never while runs overlap within one day only, `LateFees.CapHolds`).
- Retries back off from the clock read at the start of the pass, not from the call, so two provider calls can be closer than
  5 or 30 minutes by as much as the first lagged behind its pass (`Outbox.CallsAreApart`, `Outbox.GapReached`; exact
  condition in `Outbox.FullSpacingExact`).
- The comment at `commsDigest.ts:123-124` says that the dispatcher will not send again what the digest took. It does if it had
  picked the message before (`Outbox.SentInBoth`; exact condition in `Outbox.InBothExact`).
- A reminder deleted after the dispatcher's scan is fired all the same (`ReminderDispatch.DeletionIsIgnored`).
- The comment at `v2Ingest.ts:164` says an erased lead is never filled in again. One erased after the loop has read the erased
  leads is (exact condition in `Ingest.LateErasureExact`).
- The key of an intake reminder names the intake, not the enrollment, so of the students who share an intake only the first
  is reminded (`ReminderScan.FirstSourceWins`; exact condition in `ReminderScan.EveryoneRemindedExact`).
- The label index kept beside the new course index still gates seeding: of two courses of one lead with the same name one
  never gets its fee (`FeeSeed.TwinCoursesGetOneFee`; exact condition in `FeeSeed.EveryCourseSeeded`). And a fee from before
  the course key does not stop a renamed course from getting a second one (`FeeSeed.OldFeeExact`).
- The comment at `middlewares/auth.ts:94-97` bounds the life of a revoked token by one TTL after logout; with a lookup in
  flight at logout the TTL starts only when that lookup returns (exactly then: `Revocation.WindowExact`). Issue times have
  whole seconds, so a token issued right after the stamp, in the same second, is refused (`Revocation.SameSecondRefused`).
- A key id outside ASCII is encrypted under a name that does not decode to itself (`Envelope.FreshWriteReads`). The comments
  at `shared/encryption.ts:50-51` and `:127-129` still say a v1 blob is opened with the active key only; the code tries every
  loaded key, and the model follows the code.

## Model

| member | source | states |
|---|---|---|
| `Kms.WrapSplits` | apps/backend/src/config/kms.ts:150-166 | The wrapped form splits back into exactly its IV, ciphertext and tag, whatever their contents, and opens under the key that made it |
| `Kms.LocalKms.Create` | apps/backend/src/config/kms.ts:84-114 | Construction succeeds exactly for a 32-byte key whose id is not also retired; the service then holds that key alone under its id, and every retired key as it was given |
| `Kms.LocalKms.DecryptDek` | apps/backend/src/config/kms.ts:160-186 | The loop returns what the first key that opens the wrap yields; it fails with NoKeyOpens exactly if there are candidates and none of them opens it, with WrappedTooShort below 28 bytes, and otherwise with the error of the candidate choice |
| `Kms.CandidatesExact` | apps/backend/src/config/kms.ts:133-148 | The key the envelope names alone, or all keys with the active one first; an unknown id is an error |
| `Kms.GuardExact` | apps/backend/src/config/kms.ts:88-110 | Every retired id still resolves to its own key if and only if the active id is not a retired id of other key material |
| `Kms.RotateKeepsReachable` | apps/backend/src/config/kms.ts:117-148 | A rotation the constructor admits keeps the key of every earlier wrap selectable |
| `Kms.RunKeepsInv` | apps/backend/src/config/kms.ts:84-158 | Over every history of wraps and rotations, every wrap ever made stays reachable and opens |
| `Kms.HistoryUnwraps` | apps/backend/src/config/kms.ts:116-186 | Every data key ever wrapped still unwraps to itself after any rotations: always when its envelope names a key, by authentication when it names none |
| `Kms.HistoryKeepsWraps` | apps/backend/src/config/kms.ts:116-158 | Every data key a history wraps is among its wraps, in order, with the id or without one as its envelope has it |
| `Kms.ActiveNeedsNoRetired` | apps/backend/src/config/kms.ts:136-186 | A wrap naming the active key unwraps alike with and without the retired keys |
| `Kms.LoadPreviousKeks` | apps/backend/src/config/kms.ts:327-354 | The registry loads completely or fails: success holds one key per non-blank entry in order, failure happens exactly on a malformed, wrong-length or repeated entry |
| `Kms.ParseEntryExact` | apps/backend/src/config/kms.ts:332-351 | An entry is well formed exactly if it has a colon that is not its first character and 32 bytes of key after it; the id is what precedes its first colon |
| `Envelope.ParseSerializedV2` | apps/backend/src/shared/encryption.ts:91-160 | What the v2 writer lays out, the parser splits back into the same parts, and the scan reads the same id |
| `Envelope.ParseSerializedV1` | apps/backend/src/shared/encryption.ts:121-160 | The v1 layout parses back to its parts and names no key |
| `Envelope.ScanAgreesWithParse` | apps/backend/src/shared/encryption.ts:178-183 | On every blob the parser accepts, the cheap scan and the parser agree on the key id |
| `Envelope.NamesAKeyExact` | apps/backend/src/shared/encryption.ts:130-183 | Exactly the version 2 blobs whose id is neither empty nor cut short name a key |
| `Envelope.AsciiExact` | apps/backend/src/shared/encryption.ts:93-142 | The key id that comes back is the one written if and only if it is ASCII |
| `Envelope.EncryptStamps` | apps/backend/src/shared/encryption.ts:74-106 | Encryption succeeds exactly for ids of 1 to 255 units, and the blob names the active id exactly when it is ASCII |
| `Envelope.EncryptNamesId` | apps/backend/src/shared/encryption.ts:91-105 | The id a written blob names is decided by the header alone |
| `Envelope.FieldRoundTrip` | apps/backend/src/shared/encryption.ts:74-171 | Decrypting what was encrypted gives the plaintext back through any later key service that still selects the writer's key |
| `Envelope.DecryptAuthenticates` | apps/backend/src/shared/encryption.ts:121-171 | Nothing unauthenticated is returned: a blob decrypts exactly if a candidate key opens its wrapped data key and the data key of the first such candidate opens the body, and then to what that gives |
| `Envelope.FreshWriteReads` | apps/backend/src/shared/encryption.ts:91-171 | What was just written reads back if the id is ASCII, and fails as an unknown key otherwise |
| `Envelope.ActiveBlobNeedsNoRetired` | apps/backend/src/shared/encryption.ts:121-171 | A blob under the active key decrypts to the same outcome without any retired key |
| `Rewrap.ReencryptPage` | apps/backend/scripts/rewrap-secrets.ts:192-218 | Returns if and only if every row of the page reads, given a key service that can write; then exactly the rows not under the active key were re-encrypted, each to the same plaintext under the active id |
| `Rewrap.PageCoversPrefix` | apps/backend/scripts/rewrap-secrets.ts:172-187 | A page is exactly the candidates up to its last row, so nothing is skipped and the cursor strictly grows |
| `Rewrap.PageAdvances` | apps/backend/scripts/rewrap-secrets.ts:187-238 | After a page, every candidate up to the new cursor is settled and everything past it is untouched |
| `Rewrap.Database.RewrapColumn` | apps/backend/scripts/rewrap-secrets.ts:143-255 | Terminates; crashed or not it makes only allowed changes to its own column, none in a dry run, and with a tenant named none to other tenants' cells; a normal return visited every candidate once and left each under the active key; and it returns normally if and only if every candidate reads, given a working key service and no crash |
| `Rewrap.Database.RunRewrap` | apps/backend/scripts/rewrap-secrets.ts:257-292 | An unknown table fails untouched; otherwise every selected column is done, in one step each, with per-column and grand totals that add up; without a crash the run succeeds if and only if every candidate of every selected column reads |
| `Rewrap.SelectedColumns` | apps/backend/scripts/rewrap-secrets.ts:268-281 | The run works on each column of the named table, or on all, exactly once |
| `Rewrap.RunStepTransitive` | apps/backend/scripts/rewrap-secrets.ts:143-255 | What two runs may do in a row is what one run may do |
| `Rewrap.RunsCompose` | apps/backend/scripts/rewrap-secrets.ts:143-255 | Any number of runs, crashed or complete, amounts to one allowed step |
| `Rewrap.ResumedRewrapExact` | apps/backend/scripts/rewrap-secrets.ts:169-235 | After any crashed runs and one that returned, all in-scope cells are under the active key if and only if the initial progress rows named cells that already were |
| `Rewrap.RunsKeepPlaintext` | apps/backend/scripts/rewrap-secrets.ts:206-227 | No sequence of runs, finished or not, changes what any cell decrypts to |
| `Rewrap.RetiredKeysCanGo` | apps/backend/scripts/rewrap-secrets.ts:131-255 | After a finished run, a key service without any retired key reads every in-scope cell exactly as the old service read it before |
| `Rewrap.NextRotationSkips` | apps/backend/scripts/rewrap-secrets.ts:178-183 | Whatever one rotation moved, the next rotation's runs leave alone, and it is unreadable once the retired keys are dropped |
| `HashAnchor.AuditStore.FoldRows` | apps/backend/src/jobs/hashAnchor.ts:107 | The reduce over the rows is the left fold of their hashes from the seed: no row leaves the seed, one row makes h(seed + its hash) |
| `HashAnchor.AuditStore.ComputeDeltas` | apps/backend/src/jobs/hashAnchor.ts:43-120 | Every tenant's delta result, computed before anything is written |
| `HashAnchor.AuditStore.ComputeTenantRoots` | apps/backend/src/jobs/hashAnchor.ts:37-153 | Each tenant's chain moves by one independent run; a failed write loses only its own anchor |
| `HashAnchor.FoldConcat` | apps/backend/src/jobs/hashAnchor.ts:99-107 | Folding in two pieces equals folding at once |
| `HashAnchor.FoldOrder` | apps/backend/src/jobs/hashAnchor.ts:90-94 | Rows are folded by creation time, and by id where that ties |
| `HashAnchor.FoldIsRounds` | apps/backend/src/jobs/hashAnchor.ts:99-107 | A fold is its rounds: the accumulator starts at the seed, and each row in turn makes h(accumulator + its hash) of it |
| `HashAnchor.AnchorsExact` | apps/backend/src/jobs/hashAnchor.ts:51-151 | For every log and unmarked chain to start from, every split of the rows into runs and every pattern of failed writes, the latest anchor is the fold from the chain's seed of exactly the covered rows in (created_at, id) order, with their count and last row |
| `HashAnchor.TamperEvident` | apps/backend/src/jobs/hashAnchor.ts:99-151 | For any two histories whose latest anchors cover the same rows with hashes of one length: if the roots agree, so do the hash of every covered row and the seed, or the hash function has collided; and what agrees gives one root |
| `HashAnchor.LogIsEverything` | apps/backend/src/jobs/hashAnchor.ts:51-97 | The log of a history is what it started from and every row that arrived, each with the hash it arrived with first |
| `HashAnchor.WholeLogExact` | apps/backend/src/jobs/hashAnchor.ts:62-151 | A persisted run anchors every row that did not arrive at or behind the watermark of its time; so for a new chain it anchors the whole log, as a from-scratch fold, if and only if no row ever did |
| `HashAnchor.IdleRun` | apps/backend/src/jobs/hashAnchor.ts:127-133 | With nothing new a run changes nothing; with something new and a working write it adds one anchor |
| `HashAnchor.LegacyAnchorFoldsTwice` | apps/backend/src/jobs/hashAnchor.ts:74-107 | Over every history from a chain whose anchors have no watermark, all rows are folded onto the old root and counted on top of the old count; the count is that of the rows if and only if the old anchor covered none |
| `HashAnchor.CoveredRowsFoldTwice` | apps/backend/src/jobs/hashAnchor.ts:74-107 | Where the old anchor was the fold of rows still in the log, the next run folds each of those rows twice |
| `Billing.TenantBilling.Age` | apps/backend/src/jobs/billingDaily.ts:163-287 | One transaction: the scan, then one guarded write per scanned row, among the others' transactions and whichever statements fail; committed tables and counters are those of the specified step, in which the first failing statement dooms all later ones and the COMMIT |
| `Billing.TenantBilling.ClosePlans` | apps/backend/src/jobs/billingDaily.ts:447-516 | The same for plans: those ready at the scan are completed if still ACTIVE at the write |
| `Billing.TenantBilling.ProcessTenant` | apps/backend/src/jobs/billingDaily.ts:84-519 | A disabled tenant is untouched; otherwise committed tables and counters are those of the four steps in a row, among any other actors and failures |
| `Billing.StepIsAtomic` | apps/backend/src/shared/tenantTx.ts:22-32 | A step commits every write that found its row, or, if any statement of it fails, nothing; the others' transactions stay either way |
| `Billing.CounterExact` | apps/backend/src/jobs/billingDaily.ts:163-287 | For all environments, a step's counter is what it had taken before its first failure, and is the number of rows it changed if and only if no statement of the step failed or nothing had been taken before |
| `Billing.ErrorsExact` | apps/backend/src/jobs/billingDaily.ts:163-287 | A step counts one error for a scan that fails; otherwise one for every write from the first failure on, and one for a COMMIT that throws |
| `Billing.OneBadRowLosesTheBatch` | apps/backend/src/jobs/billingDaily.ts:134-138 | In any table, if only the write of the j-th scanned row fails, the step changes nothing, reports j rows as moved and counts all the rest as errors |
| `Billing.QuietRunIsPass` | apps/backend/src/jobs/billingDaily.ts:84-519 | An undisturbed run within the row limits is the function Pass on sets, and its counters are the numbers of rows each step finds |
| `Billing.AgedClosedForm` | apps/backend/src/jobs/billingDaily.ts:116-287 | The three scans in a row equal one function of a row's status, due date, plan and today |
| `Billing.PassClosedForm` | apps/backend/src/jobs/billingDaily.ts:116-516 | A whole undisturbed pass, row by row and plan by plan |
| `Billing.AgingKeepsCompletable` | apps/backend/src/modules/billing/pricing.ts:228-242 | Aging never changes which plans are ready to close |
| `Billing.SettledExact` | apps/backend/src/modules/billing/fsm-def.ts:79-159 | Paid, waived, cancelled and refunded are exactly the states the system cannot leave without an ADMIN and a reason |
| `Billing.CatchUp` | apps/backend/src/jobs/billingDaily.ts:116-287 | A pass on one day and one on a later day leave the same installments, versions included, and plan statuses as the later pass alone |
| `Billing.SameDayNoOp` | apps/backend/src/jobs/billingDaily.ts:163-516 | A second pass on the same day changes nothing |
| `Billing.HistoriesArePaths` | apps/backend/src/jobs/billingDaily.ts:163-287 | Over any history of cron writes, from scans of any age, and other transactions, and between any two moments at which only the cron touched an installment: a settled, suspended, overdue or part-paid row is the same row, and any other only moved forward, one version per edge |
| `Billing.PlansCloseOnce` | apps/backend/src/jobs/billingDaily.ts:447-516 | Between two moments at which only the cron touched a plan, one that was not ACTIVE is unchanged and an ACTIVE one is closed exactly if a closing came, once and with the date of the first |
| `Billing.ClosingsWereReady` | apps/backend/src/jobs/billingDaily.ts:455-473 | Every plan the job completes was ready at the scan of its step |
| `Billing.StaleClosingExact` | apps/backend/src/jobs/billingDaily.ts:454-495 | A plan ready at the scan is completed without being ready then if and only if some other transaction in between reopened or added one of its installments, took the last of them away, or deleted the plan, and it was not undone |
| `Billing.ReopenedPlanCloses` | apps/backend/src/jobs/billingDaily.ts:471-495 | Whenever a settled installment of a ready plan is reopened before the write, the plan is completed with an open installment |
| `Billing.EveryStepIsAnEdge` | apps/backend/src/modules/billing/fsm-def.ts:79-159 | While the others obey the machines, every event of every history moves each installment and each plan along an edge of its machine, the cron's own along edges that need no reason |
| `Billing.TerminalIsForEver` | apps/backend/src/modules/billing/fsm-def.ts:79-159 | Over every such history, between any two moments an installment's status moves only as MachineReachExact says: cancelled and refunded are for ever, and nothing becomes scheduled again |
| `Billing.MachineReachExact` | apps/backend/src/modules/billing/fsm-def.ts:79-159 | Two installment statuses are connected by edges of the machine if and only if they are equal, or the first is neither cancelled nor refunded and the second is not scheduled |
| `Billing.InstallmentEdges` | apps/backend/src/modules/billing/fsm-def.ts:91-158 | Every edge of the installment machine, without and with a reason |
| `Billing.PlansOnlyAdvance` | apps/backend/src/modules/billing/fsm-def.ts:37-57 | Over every such history a plan never goes back from completed or cancelled, nor from active or paused to draft |
| `Billing.RunIsHistory` | apps/backend/src/jobs/billingDaily.ts:84-519 | What the disturbed job commits is such a history, failures included, so all of these hold of it |
| `Billing.RunCarriesRow` | apps/backend/src/jobs/billingDaily.ts:84-519 | The whole disturbed job leaves a settled row that the others leave alone exactly as it was, and only carries a pipeline row forward |
| `LateFees.LateFeeStep.ChargeOverdue` | apps/backend/src/jobs/billingDaily.ts:289-441 | However disturbed, accounts and counters end as the turns of the scan make them: decided on the scanned row, charged on the row as it is under the lock |
| `LateFees.QuietStepIsFeePass` | apps/backend/src/jobs/billingDaily.ts:289-441 | An undisturbed step charges exactly the accounts the policies charge, and counts fees and bad amounts exactly |
| `LateFees.StepChargesAtMostOnce` | apps/backend/src/jobs/billingDaily.ts:66-82 | An account the others leave alone comes out of a disturbed step as it went in, or with exactly one fee if its policy called for it at the scan; never without a truthy `enabled` |
| `LateFees.StepKeepsOneFee` | apps/backend/src/jobs/billingDaily.ts:289-441 | A disturbed step keeps at most one late fee per installment and day, while the others add none |
| `LateFees.ChargeLocked` | apps/backend/src/jobs/billingDaily.ts:372-435 | The locked transaction charges exactly an overdue, live row without a fee today, and recomputes net and balance |
| `LateFees.ChargeAppliesExact` | apps/backend/src/jobs/billingDaily.ts:373-401 | Chargeable is exactly an overdue, live row without a late fee dated today; anything else is left as it is |
| `LateFees.ChargeMoney` | apps/backend/src/jobs/billingDaily.ts:416-434 | A charge touches neither gross, paid nor status, appends exactly the fee, leaves net and balance consistent, and grows the balance by exactly the fee if and only if the account was not overpaid |
| `LateFees.FirstAdjustment` | apps/backend/src/jobs/billingDaily.ts:403-434 | With no other adjustment a charge makes the net gross plus fee and the balance that less the payments, neither below zero |
| `LateFees.AdjustmentIsGross` | apps/backend/src/jobs/billingDaily.ts:416-429 | An adjustment of any kind, anywhere in the list, counts as so much gross: taking it out and adding its amount to the gross leaves net and balance of every charge the same |
| `LateFees.AtMostOnePerDay` | apps/backend/src/jobs/billingDaily.ts:388-401 | However many runs overlap, on whatever days and under whatever policies, an installment carries at most one late fee per day |
| `LateFees.CommitExceedsExact` | apps/backend/src/jobs/billingDaily.ts:345-401 | A commit exceeds the cap of its policy if and only if its run decided to charge at the scan, the row is still chargeable without a fee of that day, and since the scan at least as many fees of other days arrived as the cap then left room for |
| `LateFees.CapHolds` | apps/backend/src/jobs/billingDaily.ts:345-401 | If no run has a commit by a run of another day between its scan and its commit, no fee is added beyond max_per_installment (its ceiling, if fractional) |
| `LateFees.CountStaysWithin` | apps/backend/src/jobs/billingDaily.ts:345-401 | Under the same condition the number of late fees stays within the largest cap any run scanned |
| `LateFees.MidnightOverlapExceedsCap` | apps/backend/src/jobs/billingDaily.ts:345-401 | For every policy, account and pair of days: two runs that both find the last fee of the cap due and then both commit leave one fee beyond it |
| `LateFees.SecondRunChargesNobody` | apps/backend/src/jobs/billingDaily.ts:289-441 | A second run on the same day charges nobody and changes nothing |
| `LateFees.NestedPolicyIsThePolicy` | apps/backend/src/jobs/billingDaily.ts:66-69 | A policy nested under late_fee_policy means the same as the policy itself |
| `LateFees.PolicyExact` | apps/backend/src/jobs/billingDaily.ts:66-82 | What a policy object says, field by field |
| `LateFees.SignsExact` | apps/backend/src/jobs/billingDaily.ts:325-337 | A text amount is digits after at most one sign, and anything else is no integer |
| `LateFees.AmountAliases` | apps/backend/src/jobs/billingDaily.ts:72-78 | fee_minor counts exactly when amount_minor is absent or null |
| `Outbox.OutboxSafe` | apps/backend/src/jobs/commsDispatcher.ts:28-242 | Over every interleaving of passes, deliveries, digests and new messages: at most three attempts and three provider calls per message, in passes whose clocks are at least 5 and then 30 minutes apart |
| `Outbox.CallsAreApart` | apps/backend/src/jobs/commsDispatcher.ts:178-240 | In every run two successive calls are apart by at least the backoff less the lag of the earlier call behind its pass clock |
| `Outbox.GapReached` | apps/backend/src/jobs/commsDispatcher.ts:51-220 | For either retry and every lag some run comes exactly that close |
| `Outbox.FullSpacingExact` | apps/backend/src/jobs/commsDispatcher.ts:51-220 | The full backoff between the calls themselves is guaranteed if and only if the earlier call did not lag behind its pass clock |
| `Outbox.SentIsAbsorbing` | apps/backend/src/jobs/commsDispatcher.ts:121-235 | A SENT message stays SENT, with its attempts and its digest back-pointer |
| `Outbox.StatusExact` | apps/backend/src/jobs/commsDispatcher.ts:115-237 | Over every run, a message is SENT exactly if some delivery found no provider, an opt-out or acceptance, or a digest flipped it, and QUEUED exactly if neither a delivery nor a digest took it |
| `Outbox.AcceptedIsLastCall` | apps/backend/src/jobs/commsDispatcher.ts:199-213 | Over every run, a delivery the provider accepted leaves its message SENT without a retry time, and is its last call |
| `Outbox.RetryAfterFailure` | apps/backend/src/jobs/commsDispatcher.ts:214-235 | Over every run, a message awaits a retry only if its last provider call failed |
| `Outbox.AttemptsExact` | apps/backend/src/jobs/commsDispatcher.ts:159-237 | Over every run, attempts counts exactly the deliveries without an address or through a provider to a message not yet SENT |
| `Outbox.PickedInTime` | apps/backend/src/jobs/commsDispatcher.ts:72-100 | A queued message with r older live messages is picked, or taken by the digest, within floor(3r/100)+1 passes whatever else happens |
| `Outbox.LiveBeforeExact` | apps/backend/src/jobs/commsDispatcher.ts:80-93 | And the older live messages are those QUEUED, or FAILED with a retry ahead |
| `Outbox.PassesExact` | apps/backend/src/jobs/commsDispatcher.ts:72-100 | The passes counted there are the scans that find the previous pass done |
| `Outbox.PassSpendsSlack` | apps/backend/src/jobs/commsDispatcher.ts:80-93 | A pass that leaves a queued message out spends a full batch on older ones |
| `Outbox.GivesUpExact` | apps/backend/src/jobs/commsDispatcher.ts:159-237 | A delivery counts as terminal exactly when the message can never be picked again |
| `Outbox.Store.DispatchPass` | apps/backend/src/jobs/commsDispatcher.ts:101-248 | One pass is a scan followed by its deliveries, and each counter is the number of deliveries of its kind |
| `Outbox.Store.CollapseFor` | apps/backend/src/jobs/commsDigest.ts:59-136 | The digest collapses only the user's queued e-mails, at most 500, all of them if there are fewer, into one new message |
| `Outbox.DigestFlips` | apps/backend/src/jobs/commsDigest.ts:123-132 | Exactly the sources still QUEUED become SENT with a back-pointer to the digest |
| `Outbox.InBothExact` | apps/backend/src/jobs/commsDigest.ts:59-132 | Over every run, a message is both named by a digest and handed to the provider exactly if a digest flips it between its pick and its delivery, or names it after it has been handed over |
| `Outbox.SentInBoth` | apps/backend/src/jobs/commsDigest.ts:123-132 | Whenever a digest takes the message that is delivered next, it is in the digest and goes out alone as well |
| `ReminderDispatch.DispatchedOnce` | apps/backend/src/jobs/reminderDispatcher.ts:117-258 | For any number of workers, scans of any age and any rollbacks: at most one IN_APP message, one EMAIL and one fire_count increment per reminder, which stays PENDING exactly while every claim on it rolled back |
| `ReminderDispatch.Worker.DispatchPending` | apps/backend/src/jobs/reminderDispatcher.ts:117-258 | A pass is one claim per candidate in order, with any claims of other workers before each; sent counts exactly its claims that won and had a thread, failed exactly its rollbacks |
| `ReminderDispatch.PassIsAttempts` | apps/backend/src/jobs/reminderDispatcher.ts:117-258 | A pass among other workers is one sequence of claims, so what DispatchedOnce says of any claims holds of it |
| `ReminderDispatch.SentArePosted` | apps/backend/src/jobs/reminderDispatcher.ts:139-258 | A pass counts no more as sent than IN_APP messages were written meanwhile, and exactly that number when it is alone |
| `ReminderDispatch.BatchFacts` | apps/backend/src/jobs/reminderDispatcher.ts:117-136 | The batch holds distinct due reminders, at most 200, and all of them when there are no more |
| `ReminderDispatch.WinningClaimWrites` | apps/backend/src/jobs/reminderDispatcher.ts:139-233 | A winning claim writes to the assignee, or else to the fallback admin: an IN_APP message if there is a thread, an e-mail if there is also a recipient; and dates the reminder |
| `ReminderDispatch.PickedAreDue` | apps/backend/src/jobs/reminderDispatcher.ts:117-136 | A scan picks pending reminders, not deleted and scheduled by now, soonest first, up to 200; below the limit all of them, at it none later than one it leaves |
| `ReminderDispatch.DeletionIsIgnored` | apps/backend/src/jobs/reminderDispatcher.ts:160-183 | Reminders deleted after a scan are fired by the claims of that scan exactly as if they had not been, over any sequence of claims |
| `ReminderDispatch.CleanPassClears` | apps/backend/src/jobs/reminderDispatcher.ts:139-258 | A pass whose transactions all commit leaves nothing due, if the batch was large enough |
| `ReminderScan.ScheduledAtNine` | apps/backend/src/jobs/reminderScanner.ts:74-88 | A reminder fires at 09:00 UTC on the calendar day n before the deadline, and each offset has its own time |
| `ReminderScan.OffersExact` | apps/backend/src/jobs/reminderScanner.ts:266-294 | Exactly the steps of the staircase that are not yet past are offered |
| `ReminderScan.KeysApart` | apps/backend/src/jobs/reminderScanner.ts:153-158 | Two rows have one key exactly if kind, entity and calendar day of the reminder agree |
| `ReminderScan.AddedArePending` | apps/backend/src/jobs/reminderScanner.ts:266-292 | Every row a section adds is PENDING, for one of its sources and offsets, with that source's entity, deadline and text |
| `ReminderScan.LaterOffersFewer` | apps/backend/src/jobs/reminderScanner.ts:266-294 | With unchanged sources a later scan offers exactly those earlier rows that are still ahead |
| `ReminderScan.Reminders.BulkInsert` | apps/backend/src/jobs/reminderScanner.ts:159-197 | For any failing chunks the table is what one insert of the surviving rows makes it, no statement exceeds 500 rows, and inserted + duplicates + failed = rows |
| `ReminderScan.FirstWins` | apps/backend/src/jobs/reminderScanner.ts:172-177 | Of several rows with one key, the first lands |
| `ReminderScan.InsertKeepsOld` | apps/backend/src/jobs/reminderScanner.ts:172-177 | An existing reminder is never rewritten |
| `ReminderScan.Reminders.ScanSection` | apps/backend/src/jobs/reminderScanner.ts:266-296 | One section offers its future steps, counts the past ones, and inserts |
| `ReminderScan.Reminders.ScanForTenant` | apps/backend/src/jobs/reminderScanner.ts:220-296 | The ten sections in turn, any of whose queries may fail, with exact counters |
| `ReminderScan.CleanScanReaches` | apps/backend/src/jobs/reminderScanner.ts:159-197 | A scan that loses nothing reaches exactly the old keys and the offered ones |
| `ReminderScan.CountersExact` | apps/backend/src/jobs/reminderScanner.ts:203-222 | The counters of a scan are sums over the ten kinds, those whose query failed counting nothing |
| `ReminderScan.BrokenKindIsSkipped` | apps/backend/src/jobs/reminderScanner.ts:230-243 | A kind whose query fails gets no reminder from this scan |
| `ReminderScan.RescanAddsNothing` | apps/backend/src/jobs/reminderScanner.ts:153-197 | With unchanged sources no scan after a clean one changes the table |
| `ReminderScan.EveryoneRemindedExact` | apps/backend/src/jobs/reminderScanner.ts:266-296 | A lossless insert of everything a section offers reminds on behalf of every source if and only if no two of them share a key |
| `ReminderScan.FirstSourceWins` | apps/backend/src/jobs/reminderScanner.ts:266-296 | Of the sources that share a key, the first in the scan is the one whose reminder lands |
| `ReminderScan.LostRowsRecovered` | apps/backend/src/jobs/reminderScanner.ts:156-195 | What one scan lost, the next clean scan recovers exactly when its time has not passed |
| `Ingest.OrderIsTopological` | apps/backend/src/jobs/v2Ingest.ts:111-364 | Every table comes after the tables its foreign keys point to |
| `Ingest.ForeignKeys` | apps/backend/src/jobs/v2Ingest.ts:124-364 | Which parents each table has, and which it cannot do without |
| `Ingest.Mirror.UpsertRows` | apps/backend/src/jobs/v2Ingest.ts:94-161 | One table's loop: identity and owned columns stay, only keys with a usable row are written or mapped, counts add up; without failures every usable key holds its latest row |
| `Ingest.Mirror.IngestForTenant` | apps/backend/src/jobs/v2Ingest.ts:84-364 | processed + failed = the rows of the sixteen tables less those of leads marked erased, whatever fails, and every row pointing at a marked lead is among the failed; marked leads keep their rows, and so do keys named only on behalf of marked leads; without failures the mirror converges and exactly the mirrorable rows are processed |
| `Ingest.MappedIsPresent` | apps/backend/src/jobs/v2Ingest.ts:88-92 | After a clean run the id maps hold exactly the keys the dump can provide |
| `Ingest.ConvergedFromLevels` | apps/backend/src/jobs/v2Ingest.ts:84-364 | From any earlier mirror, a clean run makes every providable row's columns and foreign keys a function of the dump and the erased leads; extra_scores keeps its old value only where the dump has none |
| `Ingest.MirrorsAgree` | apps/backend/src/jobs/v2Ingest.ts:84-364 | Two mirrors converged on one dump agree on all source columns, and their foreign keys name the same v2 parents |
| `Ingest.ErasedStayFrozen` | apps/backend/src/jobs/v2Ingest.ts:164-180 | A key the dump mentions only on behalf of erased leads keeps its row unchanged, or gets none; Ingest.Erased is exactly the leads stored with the mark |
| `Ingest.ErasedStays` | apps/backend/src/jobs/v2Ingest.ts:164-211 | No run changes which leads are erased |
| `Ingest.LeadMirror.UpsertLeads` | apps/backend/src/jobs/v2Ingest.ts:164-213 | The lead loop among erasures, with the erased leads as they were read before it |
| `Ingest.LateErasureExact` | apps/backend/src/jobs/v2Ingest.ts:164-213 | A lead erased while the loop is under way stays redacted exactly if no later row writes it; otherwise the dump fills it in again, and only the mark stays |
| `FeeSeed.NormalizeExact` | apps/backend/src/jobs/v2Ingest.ts:68 | Two legacy labels are the same to the ingest exactly when they have the same words up to case |
| `FeeSeed.VisaAcceptedExact` | apps/backend/src/jobs/v2Ingest.ts:61-72 | A lead-course seeds a fee exactly for the typed state, or, with no valid typed state, for the words "visa accepted" or "visa granted" |
| `FeeSeed.OtherLabels` | apps/backend/src/jobs/v2Ingest.ts:25-72 | Exactly fifteen legacy labels are mapped; VisaLabels, OfferLabels and DecisionLabels say to which state |
| `FeeSeed.FeeTable.SeedFees` | apps/backend/src/jobs/v2Ingest.ts:377-403 | The table becomes the specified pass, existing rows stay as they were, and the counter is what was added |
| `FeeSeed.WantedAreGrounded` | apps/backend/src/jobs/v2Ingest.ts:377-396 | Every fee wanted comes from a visa-accepted lead-course with a start date and a mapped lead, priced by its course |
| `FeeSeed.WantedExact` | apps/backend/src/jobs/v2Ingest.ts:380-396 | What a wanted fee is, field by field |
| `FeeSeed.AllAreWanted` | apps/backend/src/jobs/v2Ingest.ts:377-396 | Conversely every visa-accepted lead-course with a start date, a mapped lead and a priced course is wanted |
| `FeeSeed.PassFacts` | apps/backend/prisma/migrations/20991231236001_crm_lead_fee_seed_course_key/migration.sql:45-47 | A pass only appends wanted fees, never a negative one, and keeps both unique indexes |
| `FeeSeed.ClashExact` | apps/backend/prisma/migrations/20991231236001_crm_lead_fee_seed_course_key/migration.sql:45-47 | Which rows exclude each other: live seeded fees of one lead with one course id, or with one label |
| `FeeSeed.OneFeePerCourse` | apps/backend/src/jobs/v2Ingest.ts:370-376 | Over every history of passes and other writes, at most one live seeded fee per lead and course, renames included |
| `FeeSeed.LaterPassesLeaveFee` | apps/backend/src/jobs/v2Ingest.ts:366-376 | Once a course has its fee, no later pass adds to it or changes it |
| `FeeSeed.OldFeeExact` | apps/backend/src/jobs/v2Ingest.ts:370-398 | A course whose only fee dates from before the course key gets a second one if and only if it has been renamed since |
| `FeeSeed.EveryCourseSeeded` | apps/backend/prisma/migrations/20991231235986b_crm_v2_mirror/migration.sql:409 | A pass that loses nothing gives every wanted course its fee if and only if the labels of the missing fees are free |
| `FeeSeed.DumpSeedsEveryCourse` | apps/backend/src/jobs/v2Ingest.ts:377-403 | So it is for the fees of any dump |
| `FeeSeed.TwinCoursesGetOneFee` | apps/backend/src/jobs/v2Ingest.ts:386-398 | Of any two courses of one lead that share a label, at most one ever gets its fee, over any number of passes and whatever they lose |
| `JobLock.HashToBigint` | apps/backend/src/jobs/lock.ts:81-92 | The loop computes the key and stays below 2^63 |
| `JobLock.PrimeInvertible` | apps/backend/src/jobs/lock.ts:83-87 | Multiplication by the FNV prime modulo 2^64 is undone by an explicit inverse |
| `JobLock.RoundInjective` | apps/backend/src/jobs/lock.ts:85-88 | For each code unit a round is injective on 64-bit states |
| `JobLock.SuffixInjective` | apps/backend/src/jobs/lock.ts:85-88 | Different states stay different through every suffix |
| `JobLock.OneCharacterApart` | apps/backend/src/jobs/lock.ts:81-92 | Names that differ in one character have different states, and share a lock key exactly when those differ only in bit 63 |
| `JobLock.KeysCoincide` | apps/backend/src/jobs/lock.ts:81-92 | Two names share a key exactly when their states agree up to bit 63 |
| `Runner.JobStore.WithRetry` | apps/backend/src/jobs/runner.ts:55-86 | The result and the calls of the retry loop, for every pattern of failures |
| `Runner.JobStore.Locked` | apps/backend/src/jobs/runner.ts:104-200 | What the locked body attempts and records is determined by the failures; it throws exactly when every attempt rejected and the last rejection has no message |
| `Runner.JobStore.WithJobLock` | apps/backend/src/jobs/lock.ts:40-75 | Throws exactly when the lock statement or the body throws, and releases whatever it took unless the unlock itself fails |
| `Runner.JobStore.RunJob` | apps/backend/src/jobs/runner.ts:93-252 | Always returns; its trace of attempts and the rows it leaves are functions of the failures alone |
| `Runner.CallsBounded` | apps/backend/src/jobs/runner.ts:61-85 | The job is called at least once, at most max(1, attempts) times, and never after a success |
| `Runner.CallsExact` | apps/backend/src/jobs/runner.ts:55-86 | A job that always rejects is called exactly max(1, attempts) times, one that succeeds at once exactly once |
| `Runner.TraceIsSafe` | apps/backend/src/jobs/runner.ts:93-252 | Calls happen exactly under the lock and before the one unlock, which is issued on every path that acquired |
| `Runner.SkippedExact` | apps/backend/src/jobs/runner.ts:203-224 | SKIPPED_LOCKED is attempted exactly when the lock was not taken, or when it was but the RUNNING insert failed and the body returned |
| `Runner.SucceededButSkipped` | apps/backend/src/jobs/runner.ts:113-224 | A job that succeeded can leave only a row saying it was skipped |
| `Runner.RowsExact` | apps/backend/src/jobs/runner.ts:119-262 | Exactly when the recorded rows tell the truth about the job, partial and full success apart, and when a second row is written |
| `Runner.RecordsExact` | apps/backend/src/jobs/runner.ts:104-252 | What a run attempts to record, and when it leaves no row at all |
| `Revocation.NegCache.KnownNotDenied` | apps/backend/src/middlewares/auth.ts:109-113 | A hit is an entry younger than the TTL |
| `Revocation.StoreExact` | apps/backend/src/middlewares/auth.ts:131-139 | The answer is stored; of the others, a store above 10000 entries drops exactly those older than one TTL |
| `Revocation.NegCache.Answer` | apps/backend/src/middlewares/auth.ts:129-140 | A denial is never cached; any other answer is, and the sweep loop drops exactly the expired entries |
| `Revocation.NegCache.InvalidateDenylistCache` | apps/backend/src/middlewares/auth.ts:104-107 | Logout drops exactly its token's entry, so the next check of the token is a lookup |
| `Revocation.RevokedOnlyThroughStaleAnswer` | apps/backend/src/middlewares/auth.ts:64-141 | Over every interleaving, a revoked token is accepted only through a lookup that read before the revocation and was stored less than a TTL ago |
| `Revocation.FromBoot` | apps/backend/src/middlewares/auth.ts:59-141 | So it is over every run of a fresh process |
| `Revocation.LookupTellsTheRow` | apps/backend/src/middlewares/auth.ts:71-140 | A lookup nothing delays refuses exactly if the row says so: by its expiry for the denylist, by the stamp for sessions |
| `Revocation.FreshEntryAnswers` | apps/backend/src/middlewares/auth.ts:63-113 | Within one TTL of a stored answer a request is told what was stored, without a lookup |
| `Revocation.InvalidationExact` | apps/backend/src/middlewares/auth.ts:59-107 | After the row is written and the entry dropped, some continuation accepts the token if and only if a stale lookup is still in flight |
| `Revocation.PassesOnlyThroughStaleAnswers` | apps/backend/src/middlewares/auth.ts:143-186 | Over every interleaving of both checks, a token that passes although a table denies it at its check there was admitted by a stale answer of that check |
| `Revocation.AuthenticateExact` | apps/backend/src/middlewares/auth.ts:143-186 | Both checks together, for a token logged out, with its sessions stamped, or both, each followed by its invalidation: some continuation lets a request of it pass if and only if every check that should refuse it has a stale lookup in flight |
| `Revocation.WindowAfterRevocation` | apps/backend/src/middlewares/auth.ts:93-103 | Without invalidation, but with no answered lookup pending at the revocation that admits the token, acceptance ends within one TTL of it |
| `Revocation.WindowExact` | apps/backend/src/middlewares/auth.ts:93-103 | Without invalidation, a token can be accepted one TTL after its revocation or later if and only if a lookup that admits it had been answered and not yet returned |
| `Revocation.SweepInvisible` | apps/backend/src/middlewares/auth.ts:132-139 | Over every run, sweeping at any size limit changes no answer |
| `Revocation.SameSecondRefused` | apps/backend/src/middlewares/auth.ts:173-179 | Tokens issued before the stamp are refused, and of later ones exactly those of the same second |
| `Refresh.ApiClient.Refresh` | apps/frontend/lib/api.ts:165-196 | Joins the call in flight, or starts one with the current cookie |
| `Refresh.ApiClient.Send` | apps/frontend/lib/api.ts:97-138 | The request interceptors add the bearer token, and a key only to a mutating request without one |
| `Refresh.ApiClient.HandleResponse` | apps/frontend/lib/api.ts:233-273 | The reply handler, on status and error body: a first 401 outside the auth routes waits for a refresh unless its code is a step-up code; everything else ends the request; logout on a repeated 401 |
| `Refresh.AuthRouteExact` | apps/frontend/lib/api.ts:203-206 | The auth routes are the URLs with a path segment "auth": one of the pieces between slashes, but not the first |
| `Refresh.ApiClient.ResumeAfterRefresh` | apps/frontend/lib/api.ts:255-265 | Retries with the new token, or logs out |
| `Refresh.RunsAreSingleFlight` | apps/frontend/lib/api.ts:165-273 | Over every run: one refresh on the network at a time, nobody waits for a lost one, and every request goes out at most twice under one key |
| `Refresh.SettledOnce` | apps/frontend/lib/api.ts:146-196 | Everyone who joined a refresh sees the same result |
| `Refresh.ReplyTakesEffect` | apps/frontend/lib/api.ts:165-196 | A reply settles its refresh: access token, cookie and the result of all joiners change together |
| `Refresh.StepUpIsSilent` | apps/frontend/lib/api.ts:221-248 | Over every run: take all step-up challenges out, with all later replies to those requests, and refreshes, tokens, logouts, the server and every other request are the same |
| `Refresh.NoRotatedTokenPresented` | apps/frontend/lib/api.ts:146-196 | While the replies of the server's rotations arrive and no request is handled after the client gave up on it, no interleaving ever presents a rotated token |
| `Refresh.FromPageLoad` | apps/frontend/lib/api.ts:146-196 | Both hold from a page load on |
| `Refresh.LostRotationIsTheft` | apps/frontend/lib/api.ts:187-193 | After a lost reply to a rotation of the tab's cookie, the next refresh is taken for theft |
| `Refresh.StragglerIsTheft` | apps/frontend/lib/api.ts:187-193 | A refresh request handled after the tab gave up on it is theft at once if its token was rotated meanwhile, and otherwise makes the next refresh with that cookie theft |
| `Refresh.RefreshesBounded` | apps/frontend/lib/api.ts:250-260 | Each bootstrap and each request starts at most one refresh, so there is no refresh loop |
| `Money.DecimalToMinorExact` | apps/backend/src/shared/money.ts:32-47 | Exactly the well-formed strings are accepted, and their exact value is rounded half up, away from zero |
| `Money.MajorToMinorAgrees` | apps/frontend/lib/money.ts:26-38 | The browser accepts the same strings as the server and prints their exact value rounded half up, which is the server's result |
| `Money.IntToStringInjective` | apps/frontend/lib/money.ts:37 | Printing an amount loses nothing |
| `Money.ToMinorTruncates` | packages/utils/src/money.ts:6-13 | On well-formed strings toMinor truncates the exact value, and differs from the rounding conversion by at most one |
| `Money.ToMajorParses` | packages/utils/src/money.ts:15-23 | What toMajor prints is well formed and has the exact value |
| `Money.MoneyRoundTrip` | packages/utils/src/money.ts:6-23 | Both conversions invert toMajor, for every integer and exponent |
| `Money.WholeUnitsRound` | apps/backend/src/jobs/reminderScanner.ts:101-110 | The amount in a reminder title is the exact value rounded half up to whole units |

## Left out

- React components, styling, query hooks, Zod schemas, environment parsing, HTTP headers and routing: declarative or display code.
- Real AES, SHA-256, base64 and the cloud key services: abstract functions, with the contracts named above.
- SQL text, row-level security, connection pools and isolation levels: tables are maps or sequences, a transaction is one step (in `Billing`, a sequence of statements under READ COMMITTED with row locks), a unique index is a key set. Advisory locks are taken to stay with their session, as the operator note in `lock.ts` requires.
- Logging, metrics, audit writes, Sentry and notifications, except where the runner's failures depend on them.
- The loops over tenants and users around each job, and the expiry, retention, cleanup and visa-watch jobs: they would only add easy members.
- Strings are sequences of UTF-16 code units without surrogate pairs; lower-casing in fee seeding is ASCII, which is exact for the labels it looks up.
- Row ids stand for primary keys in key order. Scans without an ORDER BY are taken in id order, and rows that tie on created_at in a fixed order.
- Rewrap.Database.RewrapColumn: the UPDATE is keyed by id only, so no other writer may change a cell between its read and its write; the script's own process is the only writer in the model.
- Rewrap.RetiredKeysCanGo: speaks of cells present when the first run starts; new cells are written under the active key by `encryptField`, which `Envelope.EncryptStamps` covers.
- Billing.TenantBilling.ProcessTenant: the row limit cuts each scan in id order; a COMMIT that throws is taken as rolled back; the opening of a transaction counts as part of its scan; late fees (step 3) act on the accounts of `LateFees`, not on the aging ledger.
- LateFees.ParsePolicy: a policy or amount given as a JSON array, and the hexadecimal, octal and binary forms BigInt accepts, are not modelled.
- LateFees.LateFeeStep.ChargeOverdue: the scan itself does not fail; if it does, the step charges nothing and counts one error.
- LateFees.CapHolds: other actors are taken not to add LATE_FEE adjustments, and one installment is followed at a time.
- Outbox.PickedInTime: one dispatcher at a time, whose passes do not overlap; exceptions inside a row's delivery, and senders that write attempts themselves, are outside the model.
- Outbox.Store.CollapseFor: the digest's preferences query and the text of the summary are not modelled.
- ReminderDispatch.DispatchedOnce: threads are not modelled, only whether one can be had.
- ReminderScan.Reminders.ScanForTenant: titles, assignees and links are one opaque text; the deadline of a commission claim, computed in server-local days, is an input. Sources without a deadline, which the queries or the loops filter out, are not in the input.
- Ingest.ErasedStayFrozen: no erasure happens during the run; `Ingest.LateErasureExact` adds erasures to the lead loop, but not to the loops of a lead's children.
- Ingest.ConvergedFromLevels: the columns of a row are one opaque text, so the mapping of single columns (priorities, enums, currency codes, synced_at) is not stated; the count of upserted students is not modelled.
- FeeSeed.VisaAcceptedExact: a legacy label that names a property of Object.prototype (such as "constructor") yields that property in the source and None here; neither seeds a fee.
- FeeSeed.WantedAreGrounded: currency digits and upper-casing are parameters.
- Revocation.InvalidationExact: a denylist row is not deleted, and a stamp is written at the moment it is taken; token verification and the idle stamp are not modelled.
- Refresh.NoRotatedTokenPresented: one tab; sign-out during a refresh and cookies shared between tabs are not modelled.
- Money.ToMinorTruncates: number-typed input and the Intl lookup of the exponent are left out; the exponent is a parameter.
