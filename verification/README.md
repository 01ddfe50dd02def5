# Verified model of the audit, retention, collections and ingestion core

This project models the parts of the system whose correctness is about whole runs or unbounded
inputs, and proves what they promise:

- the **audit log**: the canonical JSON printer, the hash input built from it, the appender and the
  chain of hashes it leaves behind;
- the **embedding rate limiter** with its gap between `check` and `consume`, and the order of the
  steps of a similarity query;
- **legal holds, the retention guard and the nightly scheduler**, as one protocol;
- **payment plans**: instalment schedules, allocation of payments, and the lifecycle reconciler;
- the **text algorithms**: PII span detection and tokenisation, the sentence chunker and the SQL
  statement splitter;
- **M-of-N approvals, the KMS backfill, IMAP checkpointing, login lockout** and the two workflow
  state machines (email ingestion and autolearn jobs).

Database tables are maps or sequences in the fields of a class. Methods are proved against
functions of the old state, and the properties are proved about runs of those functions. Money is
integer cents, times are integers, the clock never runs backwards. Clocks, generated ids, nonces,
key material and the matches of regular expressions are parameters. SHA-256, HMAC, AES-GCM, base64
and `toLowerCase` are uninterpreted functions; what is assumed of them stands in the `requires` of
the lemma that needs it.

Calls that touch the database in several statements are modelled in two ways. As one step, they
are what they would be inside a transaction that isolates them. Statement by statement, they
interleave freely: no transaction or lock binds the statements of an email transition, of a
retention guard and its DELETE, of an autolearn step, of a login check, the count of its
failure and its deadline, or of a query and the rate limiter; `FOR UPDATE` in the hold and approval
calls holds its lock only inside a transaction of the caller, and the callers in
`apps/server/src/api/approvals.ts:242-272` and `apps/server/src/api/legal-hold.ts:147-226` pass the
pooled client and open none; plan creation checks and inserts in a transaction of default isolation.
For each of these the statements are separate steps, and the results say when
the promise of the single step survives, and what holds whatever the interleaving. Calls that
are modelled as one step only are named under "Left out".

## What the proofs found

- `canonicalJson` is exact on JSON values: its text, read by RFC 8259, is the value with its keys
  sorted, and texts are equal exactly for values equal up to key order. It
  collapses values outside JSON: `[undefined]` prints as `[]` and `NaN` as `null`. A hash
  recomputed from a stored row of plain data matches exactly when no `undefined` was hidden in it.
- The audit log, listed by time, is one chain exactly when rows were inserted in time order.
- A hold placed between the retention guard and its DELETE does not stop the deletion; unless hold
  calls overlap, that gap is the only way a held tenant loses a row. The guard does not read
  entity-type overrides or the `legal_hold` column of the row, although
  `packages/db/retention-scheduler.ts:128-130` says it checks overrides.
- Without a transaction around them, an approval and a rejection that overlap reactivate a removed
  hold, two overlapping executions of an approved request both succeed, a voter who writes late
  brings an executed request back to be executed again, two overlapping approvals leave more than M
  of them, two overlapping plan creations leave two current plans on a case, and n overlapping
  calls make n transitions of one autolearn job. For tallies, executions, plans and autolearn
  histories the condition that rules this out is exact. For "removed stays removed" it is
  sufficient, and a run shows the failure it rules out; what is exact for holds is that every status
  change is a legal one.
- With at most k attempts of one user between check and end, n failed logins take as long as every
  k-th of the waits, and that is met for every n and k, as long as no deadline is written over a
  later one. The failure is counted and its deadline written by two statements, and two attempts
  that fail together can write in the wrong order: seven failures then take eleven seconds instead of
  fifteen minutes, a lockout lifted on the way. For a user who starts with four failures or more the
  lockouts count in every interleaving.
- `UNIQUE (hold_id, status, requested_by)` makes the second rejection of one officer's requests on
  one hold fail for ever, so that request can only be approved.
- With many small instalments the last one is negative. Allocations then miss the payments exactly
  while the equal instalments are not covered; "all paid" still means the money is in.
- Re-adding a trimmed name uses `indexOf`, so "Hi Hi Hi" yields a span whose `raw` is not the text
  at its indices; the exact condition is proved. Overlaps are resolved leftmost first, then
  longest (`packages/core/pii-tokeniser.ts:443`), not longest first as line 314 says.
- Saving `highestUid` verbatim, as the example at `packages/core/imap-etl-worker.ts:364` does, resets
  the checkpoint after an empty fetch and delivers the mailbox again: some message comes twice
  precisely when a fetch after the first delivery is empty and another one follows.
- An email transition is not atomic, whatever `packages/db/email-ingestion-state-machine.ts:260` says.
  The history is the true course of the email exactly when no call updated a state that had
  moved and the log rows came in the order of the updates; a late log row alone breaks it.
- In every interleaving an indexed email was ANONYMISING before its first STORING. But an email whose
  anonymisation failed can be retried at STORING and get indexed; the one transition
  that does this is characterised exactly.
- The requester of a privileged operation may approve it; at least M - 1 approvers are someone else.

## Model

| member | source | states |
|---|---|---|
| CanonicalJson.CanonicalPrintsNormal | packages/core/audit.ts:39-51 | the printer, which sorts keys as it goes, equals a plain printer applied to the normalised value (keys sorted at every depth, a non-finite number turned to `null`, `[undefined]` to `[]`); what that prints is settled by the readers below |
| JsonReader.EscapeCharReads | packages/core/audit.ts:41-48 | every character is printed so that a reader written from section 7 of RFC 8259, with no reference to the printer, reads it back |
| JsonReader.EscapeCharIsShortest | packages/core/audit.ts:41-48 | and no text that reads as that character is shorter; hexadecimal digits are lower case |
| JsonReader.QuoteReads | packages/core/audit.ts:41-48 | a quoted string is read back as the string, whatever text follows it |
| JsonReader.PrintReads | packages/core/audit.ts:39-51 | every printed normal form is read back as itself by that reader, up to the delimiter that follows |
| JsonUnambiguous.CanonicalReadsBack | packages/core/audit.ts:39-51 | the canonical text of every value, read as JSON, is its normal form |
| JsonEquality.CanonicalIsSortedText | packages/core/audit.ts:33-51 | for every JSON value, the text read as JSON is the same value up to key order, with the keys of every object in ascending order of their UTF-16 code units |
| Strings.LessIffSmallerUnits | packages/core/audit.ts:46-47 | the key order is the lexicographic order of UTF-16 code units (section 2.1 of RFC 2781) |
| JsonUnambiguous.PrintUnique | packages/core/audit.ts:39-51 | so printed text is uniquely decodable: two values followed by any delimited rest give the same text only if the values and the rests are equal |
| JsonEquality.CanonicalEqualIffNormalEqual | packages/core/audit.ts:39-51 | for every value, JSON or not, texts are equal exactly when the normalised values are |
| JsonEquality.CanonicalEqualIffSame | packages/core/audit.ts:33-51 | on JSON values, texts are equal exactly when the values are equal up to object key order at every depth |
| JsonEquality.UndefinedElementCollides | packages/core/audit.ts:39-51 | concrete collisions outside JSON: `[undefined]` with `[]`, a non-finite number with `null` |
| JsonEquality.RoundTripStableIffDefined | packages/core/audit.ts:33-38 | for plain data, whatever key order a JSONB column returns, the text of the re-read value equals the text that was hashed exactly when the value hides no `undefined` |
| AuditChain.PreimageEqualIffSame | packages/core/audit.ts:60-71 | two hash inputs are equal exactly when the previous hashes and all seven payload fields are (JSON fields up to key order) |
| AuditChain.BodyReadsBack | packages/core/audit.ts:69-71 | the text hashed behind the previous hash, read as JSON, is the object of the seven payload fields under their names, in order |
| AuditChain.RereadRowMatchesIffDefined | packages/core/audit.ts:53-71 | for plain data, recomputing the hash input from a stored row gives the original exactly when neither JSON column hid an `undefined` |
| AuditChain.AuditLog.WriteAuditEvent | packages/db/corpus-chunk-store.ts:285-344 | appends one row whose every column is stated, hashed onto the previous hash: sixty-four zeros on an empty table, else the hash of a row with no later instant and, among equals, no greater id; keeps the log the outcome of the run of events so far; a duplicate id changes nothing |
| AuditChain.RunLinkedIffInTimeOrder | packages/db/corpus-chunk-store.ts:297-302 | for every run of this appender with pairwise distinct hashes, the log ordered by (ts, id) is linked row by row exactly when rows were inserted in that order |
| AuditChain.LateStampBreaksChain | packages/db/corpus-chunk-store.ts:297-302 | any second row stamped before the first leaves a log that does not link |
| AuditChain.OrderedRunIsChain | packages/db/corpus-chunk-store.ts:285-337 | a run inserted in time order is a hash chain from the genesis hash |
| AuditChain.LastHashDeterminesLog | packages/core/audit.ts:60-78 | two chains without digest collisions and with the same last hash have the same length and the same rows |
| RateLimiter.EmbeddingRateLimiter.constructor | packages/db/corpus-chunk-store.ts:103-111 | starts with an empty store and the given window and limit |
| RateLimiter.EmbeddingRateLimiter.Check | packages/db/corpus-chunk-store.ts:117-129 | allows exactly when fewer than maxRequests stamps lie strictly inside the window; counted, this request and remaining add up to the limit, a refusal has none remaining; resetAt is the first whole second at which the oldest counted stamp has left the window |
| RateLimiter.CheckTells | packages/db/corpus-chunk-store.ts:117-129 | the same of the check as a function, on the set of live indices |
| RateLimiter.EmbeddingRateLimiter.Consume | packages/db/corpus-chunk-store.ts:132-138 | prunes one key's stamps to the window, appends now, leaves other keys alone |
| RateLimiter.EmbeddingRateLimiter.Reset | packages/db/corpus-chunk-store.ts:141-143 | clears the store |
| RateLimiter.ResetFreesASlot | packages/db/corpus-chunk-store.ts:125-128 | at `resetAt` or later, strictly fewer of the counted stamps are left in the window |
| RateLimiter.PrunedCheckIsExact | packages/db/corpus-chunk-store.ts:117-138 | after every run, the pruned store answers `check` exactly as the full history would |
| RateLimiter.WindowBound | packages/db/corpus-chunk-store.ts:374-397 | in every interleaving with at most k queries of a tenant between check and consume, no window holds more than maxRequests + k - 1 consumed requests |
| RateLimiter.WindowBoundIsTight | packages/db/corpus-chunk-store.ts:374-397 | for every limit and every k some run reaches that bound exactly |
| RateLimiter.AuditBeforeRead | packages/db/corpus-chunk-store.ts:383-397 | in every run, queries served never exceed requests consumed, which never exceed audit events written |
| LegalHold.LegalHolds.PlaceLegalHold | packages/db/legal-hold.ts:154-184 | refuses exactly those who are neither superuser nor compliance officer; otherwise a new active hold in their name, and nothing else changes |
| LegalHold.LegalHolds.RequestHoldRemoval | packages/db/legal-hold.ts:307-363 | refuses the same people and every hold that is not active; otherwise adds a pending request in their name and marks the hold pending_removal |
| LegalHold.LegalHolds.ApproveHoldRemoval | packages/db/legal-hold.ts:386-444 | refuses the same people, the requester and non-pending requests; otherwise records the co-approver and removes the hold |
| LegalHold.LegalHolds.RejectHoldRemoval | packages/db/legal-hold.ts:466-520 | refuses the same people and non-pending requests; otherwise resolves the request and makes the hold active again, unless the unique constraint refuses it |
| LegalHold.RunIsConsistent | packages/db/legal-hold.ts:307-520 | calls as single steps, every reachable state: a hold is pending_removal exactly when exactly one pending request is on it, a removed hold has a request approved by someone other than its requester, no approved request is on a hold that is not removed; and no later run loses a hold or brings a removed one back |
| LegalHold.OfficersSignEverything | packages/db/legal-hold.ts:154-520 | over every run, whoever placed a hold, asked for its removal or co-approved it made a call of that run as superuser or compliance officer |
| LegalHold.RemovedIsFinal | packages/db/legal-hold.ts:386-520 | calls as single steps: along every run holds never vanish, keep their tenant, and stay removed once removed, although approve and reject never read the hold's status |
| LegalHold.SecondRequestCannotBeRejected | packages/db/legal-hold.ts:466-520 | once an officer had a request on a hold rejected, their next request on it is pending or approved after any run whatsoever |
| LegalHold.RejectionSucceedsIff | packages/db/legal-hold.ts:466-520 | in every reachable state an authorised rejection of a pending request succeeds, and reactivates the hold, exactly when its requester has no rejected request on that hold |
| LegalHold.SecondRejectionFails | packages/db/legal-hold.ts:466-520 | a concrete run that reaches a pending request whose rejection is refused |
| HoldStatements.WritesAreLegalIffNeverStale | packages/db/legal-hold.ts:307-520 | statement by statement, in every interleaving: every status change of holds and requests is one the design knows exactly when no call's first write landed on a row that had moved since its read |
| HoldStatements.FreshWritesKeepHolds | packages/db/legal-hold.ts:307-520 | without such writes the tables are consistent whenever no call is between its two writes, and removed holds stay removed |
| HoldStatements.FourEyesAlways | packages/db/legal-hold.ts:386-444 | in every interleaving whatsoever an approved request carries a co-approver other than its requester |
| HoldStatements.OverlapReactivatesHold | packages/db/legal-hold.ts:386-520 | a concrete run in which an approval removes a hold and an overlapping rejection makes it active again |
| HoldStatements.CallAsOne | packages/db/legal-hold.ts:307-520 | inside a transaction the statements of a call are the single step above, and never stale |
| Retention.GuardBlocksIff | packages/db/retention-engine.ts:380-427 | in numbers: a row of a tenant with an active or pending_removal hold is blocked; otherwise a row of a known class is blocked exactly while now is before created_at plus its floor days times 86,400,000 milliseconds, which is also the date reported; every other row passes |
| Retention.DeletionIsGuarded | packages/db/retention-engine.ts:380-470 | in every interleaving of hold statements, guards and DELETEs a row of a known class disappears only at or after created_at plus its floor days times 86,400,000 milliseconds; its tenant is under a hold at that moment exactly when a hold was placed since the guard or one the guard saw removed came back; and none comes back unless a hold call wrote over a row that had moved |
| Retention.HoldComesBackInGap | packages/db/retention-engine.ts:456-469 | a concrete run in which a hold the guard saw removed is active again at the DELETE |
| Retention.AtomicDeletionRespectsHolds | packages/db/retention-engine.ts:444-470 | run without interleaving, the guarded delete removes no row of a held tenant and no row of a known class before its floor, in milliseconds as above |
| Retention.HoldPlacedInGapIsIgnored | packages/db/retention-engine.ts:456-469 | a concrete run in which a hold placed after the guard does not stop the DELETE |
| Retention.EligibleIffGuardPasses | packages/db/retention-scheduler.ts:174-198 | the eligibility query selects exactly the rows the guard passes that have a known class whose floor, in milliseconds as above, has elapsed, and no entity-level hold, with the empty tenant the guard skips spelled out |
| Retention.RetentionStore.DeleteEntityPastRetention | packages/db/retention-engine.ts:444-470 | deletes the row exactly when it exists and the guard does not block, so never before its floor in milliseconds; a missing row counts as deleted |
| Retention.RetentionStore.SelectEligible | packages/db/retention-scheduler.ts:174-198 | the query's answer: the oldest eligible rows, each once, exactly min(batchSize, eligible) of them |
| Retention.RetentionStore.DeleteRows | packages/db/retention-scheduler.ts:200-253 | one result per selected row in order, deleted + skipped = selected, and the table loses exactly the deletable selected rows, even when the selection is stale |
| Retention.RetentionStore.RunRetentionScheduler | packages/db/retention-scheduler.ts:145-253 | query and loop with nothing else writing: every selected row is deleted and none skipped; one step of the nights below |
| Retention.SelectedRowsAreDeletable | packages/db/retention-scheduler.ts:155-198 | with a frozen clock nothing the query selected is skipped |
| Retention.OneNight | packages/db/retention-scheduler.ts:174-253 | one run removes exactly min(batchSize, eligible) eligible rows and makes no other row eligible |
| Retention.NightsDrain | packages/db/retention-scheduler.ts:174-253 | n runs leave exactly max(0, eligible - n * batchSize) eligible rows and every ineligible row untouched |
| Installments.BuildPaymentPlanInstallments | packages/db/payment-plans.ts:128-159 | the loop with its running remainder computes the schedule: numbers from one, dates thirty days apart, equal dues with the rest on the last, allocated amounts, and paid exactly when the due is covered |
| Installments.RoundedShare | packages/db/payment-plans.ts:433-433 | the share is the total over the count rounded to the nearest cent, halves up |
| Installments.DuesSumToTotal | packages/db/payment-plans.ts:141-145 | for every count and amount the dues add up to the plan total |
| Installments.AllocationClosedForm | packages/db/payment-plans.ts:138-156 | for non-negative dues, instalment i gets min(due, max(0, payments - earlier dues)) |
| Installments.AllocationConserves | packages/db/payment-plans.ts:138-156 | for non-negative dues, the allocations add up to min(payments, total) |
| Installments.AllocationIsMonotone | packages/db/payment-plans.ts:138-156 | more payments never lower any share, whatever the signs of the dues |
| Installments.ScheduleConservesIff | packages/db/payment-plans.ts:128-159 | including schedules with a negative last due: the allocations equal min(payments, total) exactly when that due is not negative or the equal instalments are covered |
| Installments.LastInstallmentCanBeNegative | packages/db/payment-plans.ts:142-145 | five cents over ten instalments end with -4 |
| Installments.AllPaidIff | packages/db/payment-plans.ts:185-204 | exactly how much money makes every instalment read paid, for every schedule |
| Installments.FullyPaidIffCovered | packages/db/payment-plans.ts:185-204 | counting paid instalments calls a plan paid exactly when payments reach its total, so the completion guard never trips |
| PaymentPlans.PaidIffReached | packages/db/payment-plans.ts:138-156 | an instalment reads paid exactly when the payments reach the end of it |
| PaymentPlans.OpenPlanHasNextDue | packages/db/payment-plans.ts:185-204 | a plan has a next due date exactly when it is not covered, and is breached exactly when that date has passed |
| PaymentPlans.NextDueDate | packages/db/payment-plans.ts:185-204 | in numbers, for payments that are not negative: the next due date of an uncovered plan is the first due date, or the day of creation where none is stored, plus thirty days for every whole amount paid, at most up to the last instalment |
| PaymentPlans.NextStatusIff | packages/db/payment-plans.ts:542-559 | an open plan is completed exactly when the payments on its invoice reach its total, a current one, for payments that are not negative, breached exactly when they do not and that date has passed; every other plan keeps its status |
| PaymentPlans.PlanTable.CreatePaymentPlan | packages/db/payment-plans.ts:390-475 | as a single step: succeeds exactly for a positive total, a count of at least 1, a date not in the past, an existing case and no current plan on it; keeps one current plan per case |
| PlanCreation.OneCurrentIffNeverCrossed | packages/db/payment-plans.ts:408-452 | check and insert as separate statements, in every interleaving of creations and status changes: a case never has two current plans exactly when no creation was crossed by another between its check and its insert |
| PlanCreation.CrossedIffMeetsCurrent | packages/db/payment-plans.ts:421-452 | an insert meets a current plan of its case exactly when a plan created since its check is current still |
| PlanCreation.OverlappingCreationsBothSucceed | packages/db/payment-plans.ts:421-452 | from every table without a current plan on the case, two overlapping creations leave two |
| PlanCreation.UninterruptedIsNeverCrossed | packages/db/payment-plans.ts:408-452 | a creation that nothing interrupts is never crossed |
| PaymentPlans.PlanTable.UpdatePaymentPlanStatus | packages/db/payment-plans.ts:477-527 | error cases, and completion resolving the case and paying the invoice; keeps every completed plan covered, its case resolved and its invoice paid |
| PaymentPlans.PlanTable.ReconcileOne | packages/db/payment-plans.ts:542-559 | completes or breaches one plan as its payments and dates demand; the completion call never fails |
| PaymentPlans.PlanTable.OpenPlans | packages/db/payment-plans.ts:535-540 | the query's answer: exactly the current and breached plans, each once, oldest first |
| PaymentPlans.PlanTable.ReconcilePaymentPlanLifecycle | packages/db/payment-plans.ts:529-562 | one pass moves every plan to the status its payments and dates demand, reports exactly the open plans it completed and breached, and closes the cases of the completed ones |
| PaymentPlans.ClosedIff | packages/db/payment-plans.ts:477-527 | a pass resolves exactly the cases and pays exactly the invoices of the plans it completed |
| PaymentPlans.NextStatusIsStable | packages/db/payment-plans.ts:529-562 | a plan's new status calls for no further change the same day |
| PaymentPlans.SecondPassIsEmpty | packages/db/payment-plans.ts:529-562 | of two passes the same day with no payment between, each over its own query result, the first reports every change once and no plan in both lists; the second returns two empty lists and changes nothing |
| PiiSpans.DropCommonWords | packages/core/pii-tokeniser.ts:417-439 | the splice loop yields the surviving candidates followed by the re-added trimmed names |
| PiiSpans.RetrimmedAgreesIff | packages/core/pii-tokeniser.ts:427-431 | a re-added span names the text at its indices exactly when the trimmed name occurs nowhere earlier in the match |
| PiiSpans.RepeatedNameDisagrees | packages/core/pii-tokeniser.ts:427-431 | "Hi Hi Hi" is re-added with indices that do not fit |
| PiiSpans.ResolveOverlaps | packages/core/pii-tokeniser.ts:444-451 | the cursor loop computes the greedy sweep |
| PiiSpans.SweepIsOrdered | packages/core/pii-tokeniser.ts:443-451 | accepted spans are ordered and disjoint |
| PiiSpans.RejectedOverlap | packages/core/pii-tokeniser.ts:446-450 | a rejected non-empty candidate overlaps an accepted span or lies behind the start cursor |
| PiiSpans.LeftmostBeatsLongest | packages/core/pii-tokeniser.ts:443-450 | of two overlapping candidates the one starting first is kept, however long the other |
| PiiSpans.DetectPiiSpans | packages/core/pii-tokeniser.ts:416-452 | filter, sort and sweep composed, on the candidates the expressions found; which candidates those are and which of them win is stated by the next two rows |
| PiiSpans.CandidateIff | packages/core/pii-tokeniser.ts:416-440 | on the matches themselves: one that is no PERSON or does not begin with a common word is a candidate as it is; one that does is replaced by what follows its first word, from where that first occurs, if it has the shape of a name, and otherwise dropped |
| PiiSpans.LongestAtItsStart | packages/core/pii-tokeniser.ts:442-451 | no candidate that starts where a returned span starts is longer, and among those of the same extent the returned one was found first |
| PiiSpans.DetectedSpansAreMaximal | packages/core/pii-tokeniser.ts:416-452 | the result is ordered and disjoint, and every non-empty candidate left out overlaps a span returned |
| PiiSpans.DetectedSpansName | packages/core/pii-tokeniser.ts:416-452 | detected spans lie inside the text, and name the text they cover when no trimmed name repeats |
| PiiTokeniser.InMemoryIdentityStore.Register | packages/core/pii-tokeniser.ts:148-155 | refuses a token that names another value, otherwise records it; nothing else changes |
| PiiTokeniser.InMemoryIdentityStore.Lookup | packages/core/pii-tokeniser.ts:157-159 | returns what was registered for the tenant and token |
| PiiTokeniser.StoreKeysAreUnique | packages/core/pii-tokeniser.ts:142-159 | the joined store key keeps tenants and tokens apart as long as tokens hold no colon |
| PiiTokeniser.Tokeniser.Anonymise | packages/core/pii-tokeniser.ts:223-236 | splicing right to left equals building the text left to right; the dictionary holds every token, in the order of first insertion |
| PiiTokeniser.DictionaryNames | packages/core/pii-tokeniser.ts:230-236 | a token is in the dictionary exactly when it is derived from the kind and the lower-cased, trimmed value of some span, and stands for the leftmost such span |
| PiiTokeniser.Tokeniser.Tokenise | packages/core/pii-tokeniser.ts:223-243 | fails exactly when a token already names another value; the store gains exactly the tokens that come before the first refused one, all of them on success, and no earlier registration is lost |
| PiiTokeniser.DetectedSpansFit | packages/core/pii-tokeniser.ts:223-236 | whatever the expressions match, the detected spans can be spliced |
| PiiTokeniser.SpliceAgain | packages/core/pii-tokeniser.ts:230-236 | the tokens stand in the anonymised text at computable places, and splicing other values there equals splicing them into the original |
| PiiTokeniser.ValuesKeepCanonicalForm | packages/core/pii-tokeniser.ts:223-243 | with an injective token derivation every resolved value equals the original up to letter case and outer space |
| PiiTokeniser.RestoreIsExactIff | packages/core/pii-tokeniser.ts:223-243 | putting the values back in the anonymised text restores it verbatim if no token stands for two spellings, and only then when the spellings of a token have one length |
| PiiTokeniser.DifferentLengthsCanCancel | packages/core/pii-tokeniser.ts:223-243 | the length condition cannot be dropped: three spans share a token, the text comes back verbatim, and spellings were lost |
| Words.CountTokensCountsWords | packages/core/chunker.ts:85-89 | `countTokens` is the number of maximal runs of non-space characters |
| Whitespace.SpacesAre | packages/core/chunker.ts:85-89 | the characters that trim and split treat as space, one by one |
| Words.JoinKeepsWords | packages/core/chunker.ts:186-189 | words joined with single spaces read back as the same words |
| Chunker.EmitSlices | packages/core/chunker.ts:158-170 | the oversized-sentence loop emits consecutive slices of maxTokens words |
| Chunker.ChunkText | packages/core/chunker.ts:130-183 | a range error exactly for maxTokens below 1; otherwise the loop computes the packing of the sentences that the rows below describe |
| Chunker.ChunksHoldTheText | packages/core/chunker.ts:130-183 | the words of the chunks are exactly the words of the text, in order |
| Chunker.ChunksAreBounded | packages/core/chunker.ts:130-189 | each chunk has 1 to maxTokens words, its text is those words joined by single spaces and reads back as them, and `tokenCount` counts them |
| Chunker.EndsSentenceIff | packages/core/chunker.ts:111-111 | the lookbehind holds exactly where a mark precedes with nothing but closing punctuation and space between |
| Chunker.FirstBreakIsFirst | packages/core/chunker.ts:108-113 | the splitter cuts at the first break and at no space before it |
| Chunker.SentenceIsListed | packages/core/chunker.ts:108-113 | every stretch between breaks that has a word is one of the sentences packed, behind exactly the words before it |
| Chunker.ShortSentencesStayWhole | packages/core/chunker.ts:108-183 | on the indices of the text: call a space a break when the last character before it that is neither space nor closing punctuation is ".", "!" or "?"; a stretch from one break to the next with none inside, of at most maxTokens words, lies inside one chunk |
| Chunker.ChunksAreGreedy | packages/core/chunker.ts:144-180 | no chunk is closed early: it ends where the next sentence would not fit, or it is a slice of an oversized sentence, full unless it is the last one |
| SqlSplitter.SplitSqlStatements | packages/db/index.ts:117-152 | the scanning loop computes the trimmed non-empty pieces between top-level semicolons |
| SqlSplitter.PiecesRebuildScript | packages/db/index.ts:117-152 | the pieces joined by semicolons are the script, no piece has a top-level semicolon, all but the last are balanced in `$$` |
| SqlSplitter.PiecesLieBetweenCuts | packages/db/index.ts:117-152 | on the indices of the script: every piece is the text between two neighbouring semicolons that have an even number of `$$` before them, counted backwards from each, and the pieces follow one another |
| SqlSplitter.StatementsAreClean | packages/db/index.ts:117-152 | statements are trimmed, non-empty, without a top-level semicolon, and all but possibly the last are balanced |
| SqlSplitter.SplitIsStable | packages/db/index.ts:117-152 | for every script, joining the statements with ";" and splitting again gives the same list |
| Encryption.DecryptUndoesEncrypt | packages/core/encryption.ts:167-218 | decrypting an encrypted field gives the plaintext back, also one that already looks encrypted; with encryption on the field starts with `enc:v1:` and its nonce, with encryption off it is the plaintext |
| Encryption.OthersReadAsTheyStand | packages/core/encryption.ts:193-201 | only a value that starts with `enc:v1:` and has a colon behind that is opened, and only with encryption on; every other value is returned as it is |
| KmsBackfill.CheckNeedsBackfill | packages/db/kms-backfill.ts:135-145 | true exactly when some sensitive field of the row is plaintext |
| KmsBackfill.EncryptPlaintextFields | packages/db/kms-backfill.ts:153-166 | the copy loop encrypts exactly the plaintext sensitive fields |
| KmsBackfill.BackfilledRowReadsBack | packages/db/kms-backfill.ts:135-166 | rewritten fields decrypt to their old text, all others are untouched, and the row still needs backfill only if encryption is off |
| KmsBackfill.FetchPage | packages/db/kms-backfill.ts:209-217 | the first rows of the type behind the cursor, ascending, at most the limit |
| KmsBackfill.TurnPage | packages/db/kms-backfill.ts:208-259 | a page takes table, report and cursor to "exactly the rows up to the cursor, each once", and leaves strictly fewer rows |
| KmsBackfill.Backfill.ProcessRow | packages/db/kms-backfill.ts:225-254 | rewrites the row if it needs it, can be written and this is no dry run, and counts it in the right column |
| KmsBackfill.Backfill.ProcessPage | packages/db/kms-backfill.ts:225-254 | a page is its rows, each processed and counted once |
| KmsBackfill.Backfill.ProcessType | packages/db/kms-backfill.ts:205-259 | cursor pagination terminates for every batch size and visits every row of the type once, in ascending order |
| KmsBackfill.BackfillEntities | packages/db/kms-backfill.ts:184-264 | the whole run: exactly the rows in scope are processed, scanned = updated + skipped + errors, and for distinct types each counter is the exact number of its rows |
| KmsBackfill.SecondRunFindsNothing | packages/db/kms-backfill.ts:184-264 | after a run a row still needs backfill exactly when it did before and encryption was off, it was a dry run, or the row failed |
| KmsBackfill.SecondRunUpdatesNothing | packages/db/kms-backfill.ts:184-264 | with encryption on, the second run's report shows no update |
| ImapWorker.LandMessages | packages/core/imap-etl-worker.ts:238-253 | the fetch loop lands the first batch of messages with a source above the checkpoint |
| ImapWorker.BatchLandsNew | packages/core/imap-etl-worker.ts:238-253 | only messages with a UID above the checkpoint and a source land, no more than a batch of them (one at least), and all of them when they are fewer |
| ImapWorker.FetchNewMessages | packages/core/imap-etl-worker.ts:394-414 | every landed UID is among the messages exactly when it parses and among the failed UIDs exactly when it does not, each as often as it landed; the reported UID is the largest that landed, 0 if none did |
| ImapWorker.FetchLandsNextBatch | packages/core/imap-etl-worker.ts:230-253 | under the `n:*` rule (section 6.4.8 of RFC 3501) a fetch lands exactly the next batch of waiting messages, never an old one |
| ImapWorker.RunIsExactlyOnce | packages/core/imap-etl-worker.ts:230-414 | over any rounds, batch sizes, arrivals and parse failures, everything the checkpoint passed was handed over once and in order |
| ImapWorker.RunHandsOverByParse | packages/core/imap-etl-worker.ts:230-414 | over every run, the parsed list holds exactly the UIDs at or below the checkpoint that carry a source and parse, the failed list exactly those that carry one and do not |
| ImapWorker.PassedMessageIsHandedOverOnce | packages/core/imap-etl-worker.ts:398-414 | each passed message's UID occurs exactly once among parsed and failed together |
| ImapWorker.RoundDrainsBatch | packages/core/imap-etl-worker.ts:230-253 | a round on a quiet mailbox takes exactly a batch off the waiting list |
| ImapWorker.VerbatimCheckpointRedelivers | packages/core/imap-etl-worker.ts:358-396 | saving `highestUid` after an empty fetch makes the next fetch start from the first message |
| ImapWorker.VerbatimIsMaximumIff | packages/core/imap-etl-worker.ts:394-405 | the UID a fetch reports is the maximum checkpoint exactly when something was waiting or nothing was passed yet |
| ImapWorker.VerbatimIsExactlyOnceIff | packages/core/imap-etl-worker.ts:358-405 | over every run, saving it verbatim keeps checkpoint and deliveries in agreement precisely when no fetch after the first delivery is empty |
| ImapWorker.VerbatimRedeliversIff | packages/core/imap-etl-worker.ts:358-405 | over every run, some message is handed over twice precisely when a fetch after the first delivery is empty and another fetch follows it |
| Approvals.ApprovalStore.CreateApprovalRequest | packages/db/approvals.ts:105-153 | refuses exactly the operations other than root_key_rotate, bulk_export and enable_worm, then quorums below 1; otherwise a pending request with the quorum asked for, two where none was |
| Approvals.ApprovalStore.CastVote | packages/db/approvals.ts:187-286 | one vote per approver on a pending request; a rejection ends it, the quorum approves it |
| Approvals.ApprovalStore.MarkExecuted | packages/db/approvals.ts:298-346 | only an approved request becomes executed |
| Approvals.ApprovalStore.AssertApproved | packages/db/approvals.ts:467-491 | clears exactly the requests whose status is approved, which are those that could be executed now |
| Approvals.RunIsConsistent | packages/db/approvals.ts:187-346 | calls as single steps, over every run: pending has fewer than M approvals and no rejection, approved and executed have exactly M from distinct approvers and no rejection, rejected has one rejection and fewer than M approvals |
| Approvals.QuorumIsAsAsked | packages/db/approvals.ts:105-153 | over every run, operation, requester and quorum of a request are those some call asked for, the operation one of the three and the quorum two where the call named none |
| Approvals.ExecutedAtMostOnce | packages/db/approvals.ts:298-346 | calls as single steps: in every run a request is executed at most once |
| Approvals.OverIsFinal | packages/db/approvals.ts:187-346 | calls as single steps: executed and rejected requests never change again |
| Approvals.RequesterMayApproveOwnRequest | packages/db/approvals.ts:187-263 | with M = 1 the requester's own vote approves the request |
| Approvals.OthersBehindApproval | packages/db/approvals.ts:187-286 | in every run an approved or executed request has at least M - 1 approvers other than its requester, and M exactly when the requester did not approve it |
| ApprovalStatements.TalliedIffNoLateVote | packages/db/approvals.ts:187-286 | statement by statement, in every interleaving: once no voter is halfway, status and votes agree as above exactly when no vote came in after the votes had settled the request |
| ApprovalStatements.StatusHasVotesBehindIt | packages/db/approvals.ts:187-346 | in every interleaving whatsoever an approved or executed request has at least M distinct approvers, a rejected one at least one rejection, and a pending one with no voter halfway is one the votes have not settled |
| ApprovalStatements.OverIsFinalIfNeverStale | packages/db/approvals.ts:187-346 | without stale writes executed and rejected requests never change again |
| ApprovalStatements.ExecutedAtMostOnceIfNeverStale | packages/db/approvals.ts:298-346 | without stale writes a request is executed at most once |
| ApprovalStatements.ExecutionsAreClearedCalls | packages/db/approvals.ts:298-346 | in every interleaving, executions plus calls about to execute equal the calls that found the request approved |
| ApprovalStatements.ExecutedOnceIffClearedOnce | packages/db/approvals.ts:298-346 | when none is under way, executed at most once exactly when at most one call found it approved |
| ApprovalStatements.ClearedTwiceIff | packages/db/approvals.ts:187-346 | in every interleaving, a request is cleared for execution twice exactly when some call reads it approved while another execution of it is under way, or after a voter wrote a status over its executed one; once none is under way the same holds for executed twice |
| ApprovalStatements.LateVoterRevivesExecuted | packages/db/approvals.ts:240-325 | from every state with two voters about to count enough votes, a run executes the request twice, with no vote late and no two executions overlapping: the second voter writes approved over executed |
| ApprovalStatements.ExecutedTwiceWithoutOverlap | packages/db/approvals.ts:187-346 | one whole run that does so from nothing |
| ApprovalStatements.TwoCountingIsReachable | packages/db/approvals.ts:187-240 | two approvers of two reach such a state without a late vote |
| ApprovalStatements.OverlappingExecutions | packages/db/approvals.ts:298-346 | from every state with an approved request, two overlapping executions both succeed |
| ApprovalStatements.OverlappingApprovals | packages/db/approvals.ts:187-286 | from every state with one approval missing, two overlapping approvals leave one too many |
| ApprovalStatements.ApprovedIsReachable | packages/db/approvals.ts:187-286 | a concrete run that reaches an approved request with no call under way |
| ApprovalStatements.CallAsOne | packages/db/approvals.ts:105-346 | inside a transaction the statements of a call are the single step above, never stale and never a late vote |
| AuthLockout.LockoutTable.CheckLockout | packages/db/auth-lockout.ts:50-83 | locked out exactly while the lockout lies ahead, blocked exactly while that or the delay does; the remaining time is rounded up to whole seconds, 0 if not blocked |
| AuthLockout.LockoutTable.RecordFailedAttempt | packages/db/auth-lockout.ts:89-133 | counts the failure; the first four in a row impose 1, 2, 4 and 8 seconds of delay, from the fifth on a lockout of 900 seconds; returns what a check at that moment would |
| AuthLockout.LockoutTable.ResetLockout | packages/db/auth-lockout.ts:138-148 | clears one user's counter and deadlines |
| AuthLockout.RunPossibleIffSpaced | packages/db/auth-lockout.ts:31-133 | a run of unblocked failures is possible exactly when the first is unblocked and consecutive ones are spaced by the enforced waits |
| AuthLockout.FailuresTakeAtLeast | packages/db/auth-lockout.ts:31-133 | from any row, n failures take at least 2^(n-1) - 1 seconds for n <= 5 and 15 + 900 * (n - 5) beyond |
| AuthLockout.BoundIsMet | packages/db/auth-lockout.ts:31-133 | for every n some run of n failures takes exactly that long |
| AuthLockout.NoUserFailsFaster | packages/db/auth-lockout.ts:50-148 | one attempt of a user at a time: from any table and in any interleaving of users, the bound holds for each user between two of their successes |
| AuthLockout.OverlappingFailuresTakeAtLeast | packages/db/auth-lockout.ts:50-133 | check, count and deadline as separate statements: from any row, in every interleaving with at most k attempts of a user between check and end in which no deadline is written over a later one, n failures take at least the waits after failures n - k, n - 2k, ... |
| AuthLockout.InOrderNeverShortens | packages/db/auth-lockout.ts:91-125 | deadlines written in the order of their counts are never written over a later one |
| AuthLockout.LockedFailuresTakeAtLeast | packages/db/auth-lockout.ts:102-117 | from a row with at least four failures, in every interleaving whatsoever, more than m * k failures take at least m lockouts |
| AuthLockout.ShortenedDeadlinesBreakBound | packages/db/auth-lockout.ts:91-125 | a concrete run of two attempts at a time with deadlines written over later ones: seven failures in eleven seconds, where the bound is 905 |
| AuthLockout.FailureAsOne | packages/db/auth-lockout.ts:89-133 | the two statements of a failure in a row are the single failure above |
| AuthLockout.OverlappingBoundIsMet | packages/db/auth-lockout.ts:50-133 | for every n and k some run, no deadline written over a later one, takes exactly that long |
| AuthLockout.OneAtATime | packages/db/auth-lockout.ts:31-133 | for k = 1 it is the bound above |
| AuthLockout.NoUserFailsFasterOverlapping | packages/db/auth-lockout.ts:50-148 | both bounds for each user of a table, in any interleaving of users and statements, between two of their successes: the first if none of that user's deadlines is written over a later one, the second from four failures on without condition |
| EmailStates.EmailIngestion.InitEmailState | packages/db/email-ingestion-state-machine.ts:214-235 | uninterrupted, the two inserts one after the other: a new email starts at IMAP_RECEIVED with one log row, an existing one is refused |
| EmailStates.EmailIngestion.Transition | packages/db/email-ingestion-state-machine.ts:267-304 | uninterrupted, its read, update and log statements one after the other; succeeds exactly on the eight listed pairs of states; missing and illegal requests change nothing |
| EmailStates.LegalIffInTable | packages/db/email-ingestion-state-machine.ts:74-84 | the legal transitions are exactly eight pairs of states, listed one by one |
| EmailStates.EmailIngestion.GetTransitionHistory | packages/db/email-ingestion-state-machine.ts:309-319 | the rows of one email, oldest first |
| EmailStates.HistoryIsTrueIffOrderly | packages/db/email-ingestion-state-machine.ts:214-304 | in every interleaving of statements, logged pairs are legal, the updates lead legally from IMAP_RECEIVED to the stored state, and the log lacks exactly the rows of calls still to log; the history is the true course, and that course one path, exactly when no update was stale and rows were logged in the order of updates |
| EmailStates.OrderlyHistoryIsComplete | packages/db/email-ingestion-state-machine.ts:267-319 | once no call is behind, the history is the whole course, linked and ending in the stored state, exactly for such runs |
| EmailStates.LateLogBreaksHistory | packages/db/email-ingestion-state-machine.ts:288-301 | a concrete run without a stale update whose log rows come in the wrong order: the history neither links nor ends in the stored state |
| EmailStates.OverlappingCallsBothSucceed | packages/db/email-ingestion-state-machine.ts:267-304 | two overlapping calls can both take an email from IMAP_RECEIVED to ANONYMISING |
| EmailStates.OrderlyHistoryIsLegalPath | packages/db/email-ingestion-state-machine.ts:74-84 | in an orderly run the history is a legal path from IMAP_RECEIVED, up to the stored state once no call is behind |
| EmailStates.IndexedWasAnonymised | packages/db/email-ingestion-state-machine.ts:74-304 | in every interleaving of statements, stale updates included, an email that reached INDEXED was ANONYMISING before its first STORING, and QUEUED between that and INDEXED |
| EmailStates.StoringWasAnonymising | packages/db/email-ingestion-state-machine.ts:74-84 | the same for every email that reached STORING, on any course of legal updates that start from states reached before |
| EmailStates.StoredCleanIffNeverSkipping | packages/db/email-ingestion-state-machine.ts:74-304 | in every interleaving, some call took the email from ANONYMISING to STORING before it was stored exactly when no call retried at STORING an email that had not been there |
| EmailStates.IndexedWasAnonymisingBeforeStoring | packages/db/email-ingestion-state-machine.ts:74-84 | on a legal path: ANONYMISING before the first STORING, the end is STORING, QUEUED, INDEXED, and QUEUED and INDEXED occur only there |
| EmailStates.TransitionStoresCleanIff | packages/db/email-ingestion-state-machine.ts:74-84 | a legal transition leaves a clean path exactly when the path was clean and it does not retry at STORING an email that never reached STORING |
| EmailStates.StoredCleanIffNoSkip | packages/db/email-ingestion-state-machine.ts:74-84 | a legal path keeps that promise exactly when it contains no such retry |
| EmailStates.FailedAnonymisationCanBeIndexed | packages/db/email-ingestion-state-machine.ts:74-84 | a legal path to INDEXED whose anonymisation failed |
| AutolearnStates.AutolearnJobs.CreateAutolearnJob | packages/db/autolearn-state-machine.ts:205-228 | a new job in WORKER_STARTED without error or version |
| AutolearnStates.AutolearnJobs.AdvanceAutolearnState | packages/db/autolearn-state-machine.ts:251-287 | only legal successors are written; the error is kept for FAILED alone, the version when given |
| AutolearnStates.LegalIffStretch | packages/db/autolearn-state-machine.ts:103-120 | a path from WORKER_STARTED is legal exactly when it is a stretch of the pipeline, perhaps ended by FAILED before COMPLETE or by REJECTED at the review |
| AutolearnStates.AtMostNineTransitions | packages/db/autolearn-state-machine.ts:251-287 | calls as single steps: in every run of the table a job makes at most nine transitions, and a COMPLETE one went through every stage in order |
| AutolearnStates.StretchIffNeverHarmed | packages/db/autolearn-state-machine.ts:251-287 | read and update as separate statements, in every interleaving: a job's states are a stretch of the pipeline, with at most nine transitions, exactly when no call moved a job that had moved since its read, other than to report the failure of one that had not ended |
| AutolearnStates.OverlappingCallsHaveNoBound | packages/db/autolearn-state-machine.ts:251-287 | for every n some run of overlapping calls makes n transitions of one job |
| AutolearnStates.ErrorsBelongToFailures | packages/db/autolearn-state-machine.ts:272-284 | over every run only FAILED jobs carry an error, and a recorded wiki version is never lost |

## Left out

- Unpaired UTF-16 surrogates: strings are sequences of Unicode scalar values; sorting follows UTF-16 code units.
- Digests, ciphers, HMAC, HKDF, base64, the KMS clients and the derived-key cache: uninterpreted, with the assumptions (decrypt undoes encrypt, output without ":", no collision) stated where used.
- Regular expressions for emails, phones and names, and the list of common words: parameters; the proofs hold for any of them.
- Floating-point money: amounts are integer cents, rounding is to the nearest cent.
- Date strings and their format checks: dates are day numbers.
- Objects with a `toJSON` method, such as `Date`, and class instances in an audit payload: values are plain data. The printer shows such an object's own keys (a `Date` as `{}`) where the column stores its `toJSON` text.
- AuditChain.RunLinkedIffInTimeOrder: is about a table this appender alone writes and needs distinct hashes. `packages/db/annotation-state-machine.ts:250-275` inserts into the same table, linking by annotation; those rows are not modelled.
- Database triggers, row-level security and role grants; with them `recordPayment` and the invoice transitions.
- Retention entity-type overrides: the deletion guard does not read them.
- Calls that die between two statements are calls that never take their next step and stay in flight; retries and the connection pool are not modelled.
- Status changes of payment plans, the reconciler's passes and the backfill's rows run one call at a time; two overlapping passes are not modelled.
- Email histories are ordered by the time of the log insert, and those times are assumed distinct.
- PiiTokeniser.RestoreIsExactIff: the "only then" half needs the spellings of one token to have one length; PiiTokeniser.DifferentLengthsCanCancel shows why.
- ImapWorker.RunIsExactlyOnce: messages without a source are skipped by the fetch and are outside the claim, as are messages expunged between rounds.
- KmsBackfill.BackfillEntities: rows whose id is the empty string lie behind the first cursor and are never visited; rows inserted during a run are not modelled.
- The audit-writer callbacks of holds, approvals and the scheduler, logging, telemetry and notifications.
- Dashboards, reports, customer-value and health scores, tenant policies, feature flags, scripts and deployment: only easy members.
