# A verified model of the Mosaic bot's pool management, billing and claim protocols

The bot schedules which proxy candidates to probe, keeps the groups of its proxy pool healthy, charges
wallets by the day, and hands out things that may be taken only once: a browser login, a sponsored invite,
a place in a rate-limit window. This project models those parts in Dafny and proves what they promise over
all inputs, all interleavings and all runs.

* **Scheduler.** `SchedulerModel` says what one call decides (`IsPlan`), `Scheduler` carries the call out
  statement by statement, with its three tiers, the weighted round robin and the state writes. `Quotas` and
  `SchedulerTheorems` prove what a call amounts to: no budget is wasted, the refresh quota and the country quotas
  hold, and exploration is fair. `Starvation` and `Rotation` prove that it starves neither a candidate nor a source,
  `SchedulerState` and `ProbeRuns` that every run keeps the records sound and true to the probes there were.
  `Exploration` holds the invariant of the round robin, `Cooldown` the backoff and re-verification arithmetic.
* **Pool health.** `PoolHealth` specifies one health cycle and what all cycles keep, `CycleFields` what it comes to
  on the fields of the configuration and the probe results, `QuietCycle` when it changes nothing. `HealthCheck`
  performs a cycle on the two files, including dry runs, failed validation, failed restarts and rollback.
* **Billing.** `Billing` has the transactions and conservation, `BillingRuns` all sequences of transactions,
  `BillingSources` where each amount comes from, `DailyBilling` their interleavings with the provider calls of the
  daily run, `BillingStore` the functions as they are executed.
* **Claims.** `LoginChallenge`, `LoginRuns` and `LoginStore` are the browser login, with `poll` and `approve`
  split into a read and a later write and again with whole calls atomic. `SponsoredInvites` and `InviteStore`
  are the invite table and the redemption handlers racing for it, and `RedemptionRuns` what a redemption
  settles for good.
* **Slices of the bot.** `Sharding` is the seeded shuffle and the quality band; `RateLimit` the pruned
  sliding-window table against the full history of calls.

`Collections` holds the sequence vocabulary all of them share: filtering, prefixes and a stable sort.

Where a method changes state, its contract ties the whole new state to a specification function of the old
one, and the lemmas are about that function, down to the recorded fields and the numbers. Floats are reals and
digests are parameters.

Four promises hold only under a condition, and the exact condition is proved:

* `verify_ttl` is called an overall cap on every re-verification interval. It is one exactly when it is at
  least 60 seconds and either below the flat default of 7200 or no shorter than any tier
  (`Cooldown.CeilingIsACapIff`); with the default tiers a ceiling of 10000 seconds fails
  (`Cooldown.DefaultCeilingIsACapIff`).
* A health cycle that learns nothing from its probes changes neither file exactly when the saved state is up to
  date and every group is undisturbed: its settings are the fixed ones, and its members are its active candidates
  below the threshold in their order, or, when there are none of these, all valid and missing only if it has no
  candidate at all (`QuietCycle.SilentCycleIsIdleIff`, for files of any origin).
  A cycle whose state file could not be written can leave files that fail this
  (`QuietCycle.UnsavedCycleIsUndone`). After a cycle whose configuration and state were both written, all that can
  fail is a lone member below the threshold that its candidate list holds more than once
  (`PoolHealth.SilentCycleChangesNothing`, with a concrete case in `PoolHealth.LastResortCanRepeat` and the usual
  situation in `PoolHealth.RepeatFreeIsKept`).
* A shard's extra nodes come from the top half of the remaining ranking exactly while the target asks for no
  more of them than that half has (`Sharding.ExtrasInTopHalfIff`); any seven candidates break it for the default
  target of six (`Sharding.SevenBreakTheDefault`).
* No sequence of transactions overdraws a wallet exactly when the amounts that callers may invoice are bounded
  below by zero; nothing in the ledger itself forbids a negative one (`BillingRuns.NeverOverdrawnIff`).

## Model

| member | source | states |
|---|---|---|
| Cooldown.ComputeCooldown | bot/mosaic_pool_scheduler.py:145-171 | for every digest and every parameter the cooldown lies between zero and the ceiling, and is zero without failures |
| Cooldown.BackoffGrowsIffJitterSmall | bot/mosaic_pool_scheduler.py:160-171 | while the doubled base stays below the ceiling, one more failure waits strictly longer for all digests if and only if the jitter ratio is below one third (the scheduler uses 0.2) |
| Cooldown.VerifyTtlFor | bot/mosaic_pool_scheduler.py:108-134 | for every choice of tiers an interval is at least a minute, never longer than its tier, and shorter only when the caller lowered the ceiling below the flat default, which then bounds it |
| Cooldown.CeilingIsACapIff | bot/mosaic_pool_scheduler.py:105-134 | exactly for which `verify_ttl` and tiers the documented cap holds for every tier |
| Cooldown.DefaultCeilingIsACapIff | bot/mosaic_pool_scheduler.py:86-134 | the same for the default tiers, and a ceiling of 10000 seconds that a healthy node exceeds |
| Scheduler.PoolScheduler.Dedup | bot/mosaic_pool_scheduler.py:364-375 | one copy per non-empty fingerprint in order of first appearance: the first copy that knows its country, else the first |
| Scheduler.PoolScheduler.TouchNodes | bot/mosaic_pool_scheduler.py:380-410 | every incoming node is created or marked seen, and only an unknown source or country is filled in |
| Scheduler.PoolScheduler.SelectEligible | bot/mosaic_pool_scheduler.py:412-420 | keeps, in order, exactly the nodes that are not backing off |
| Scheduler.PoolScheduler.ScheduleNode | bot/mosaic_pool_scheduler.py:425-437 | appends exactly when the limit is not reached and the fingerprint is new, and then alone records the schedule time, if recording |
| Scheduler.PoolScheduler.Fill | bot/mosaic_pool_scheduler.py:464-471 | a tier's loop adds exactly the first still unscheduled nodes of its list, up to its cap, and stamps exactly those |
| Scheduler.PoolScheduler.SplitOverdue | bot/mosaic_pool_scheduler.py:444-460 | the verified nodes due by their own tier, oldest verification first, and the others in feed order |
| Scheduler.PoolScheduler.CountHealthy | bot/mosaic_pool_scheduler.py:480-499 | per country the number of verified, fresh, recently seen, not failing candidates |
| Scheduler.PoolScheduler.FindDeficits | bot/mosaic_pool_scheduler.py:501-506 | the lacking countries in order and by how many each is short |
| Scheduler.PoolScheduler.PickDeficits | bot/mosaic_pool_scheduler.py:526-536 | serves the countries, largest deficit first, to a prefix of what they want, up to the ceiling |
| Scheduler.PoolScheduler.RunPass | bot/mosaic_pool_scheduler.py:608-620 | one pass over the sources keeps the round-robin invariant and either schedules something or leaves every source out of weight or out of candidates |
| Scheduler.PoolScheduler.Explore | bot/mosaic_pool_scheduler.py:603-626 | the round robin terminates although it resets its own counts, and its picks are a budgeted exploration: fronts of the queues, whole rounds by weight, first pass in cursor order |
| Scheduler.PoolScheduler.GroupBySource | bot/mosaic_pool_scheduler.py:541-581 | each source's remaining nodes, least recently scheduled first |
| Scheduler.PoolScheduler.Discover | bot/mosaic_pool_scheduler.py:541-639 | exploration, cursor and backfill complete the decision, leaving the recorded state and the cursor as specified |
| Scheduler.PoolScheduler.FillLeftovers | bot/mosaic_pool_scheduler.py:551-559 | when nothing is left to explore, the deficit leftovers are empty as well and the loop adds nothing |
| Scheduler.PoolScheduler.Select | bot/mosaic_pool_scheduler.py:422-639 | the selection on eligible nodes is a plan, in the order returned, with its state writes and cursor |
| Scheduler.PoolScheduler.ScheduleCandidates | bot/mosaic_pool_scheduler.py:322-639 | exactly min(max(0, limit), eligible fingerprints) nodes, all different, all from the input, none backing off; the decision is a plan, the new state and cursor are given in full, and the call is one step of the state machine the run theorems are about |
| SchedulerTheorems.WorkConserving | bot/mosaic_pool_scheduler.py:422-639 | no plan wastes budget, in spite of the refresh cap, the deficit ceiling and the round robin |
| Quotas.RefreshCount | bot/mosaic_pool_scheduler.py:444-471 | of D nodes due by their tier, time and ratio and F others exactly min(D, max(quota, limit - F)) are returned, the quota being max(1, floor(limit * ratio)) with the ratio clamped to [0.1, 1]; beyond the quota every node not due is returned |
| Quotas.OldestAreRefreshed | bot/mosaic_pool_scheduler.py:454-460 | nobody due is returned before one verified longer ago, and those verified at the same time are returned in feed order |
| Quotas.TiersInOrder | bot/mosaic_pool_scheduler.py:422-639 | the selection starts with the due nodes within the quota, goes on with the deficit picks and the explored nodes, none of them due, and ends with the due nodes that fill it up |
| Quotas.NeedIs | bot/mosaic_pool_scheduler.py:480-506 | a country lacks its last unmet target less its candidates that are verified within their own interval, recently seen, not failing and not backing off |
| Quotas.CountryIsServed | bot/mosaic_pool_scheduler.py:508-536 | a country gets its first available nodes in feed order, never more than it lacks, and all of those unless the tier reached its quota, which leaves exploration its reserve at a limit of five or more |
| Quotas.LargestNeedFirst | bot/mosaic_pool_scheduler.py:526-536 | no country gets anything before every country that lacks more got all it lacks or all there is |
| Quotas.WeightByYield | bot/mosaic_pool_scheduler.py:590-601 | the weight is 1 up to a yield of a sixth, 2 below a half, 3 up to five sixths and 4 above, and 3 without a record |
| SchedulerTheorems.ExplorationIsFair | bot/mosaic_pool_scheduler.py:590-626 | a source left with candidates holds any other to its share by weight, so to at most 4 (n + 1) picks |
| SchedulerTheorems.EverySourceServed | bot/mosaic_pool_scheduler.py:583-620 | with at least as many exploration picks as sources, every source got one |
| Starvation.ExploresLeastRecent | bot/mosaic_pool_scheduler.py:569-581 | within a source whoever is explored was scheduled less recently than whoever is not selected, or at the same time with no greater digest |
| Starvation.PickedWasAhead | bot/mosaic_pool_scheduler.py:569-581 | whoever is explored while a candidate of the same source waits was ahead of it |
| Starvation.AheadNeverGrows | bot/mosaic_pool_scheduler.py:431-437 | no recorded run that passes a candidate over puts any other ahead of it |
| Starvation.WaitersAdvance | bot/mosaic_pool_scheduler.py:431-437 | each recorded run that explores the source leaves a waiting candidate strictly fewer others ahead of it |
| Starvation.StepSchedules | bot/mosaic_pool_scheduler.py:380-437 | one step of the state machine changes when a candidate was last scheduled only by recording it, or by forgetting the candidate |
| Starvation.HistoryIsSuccession | bot/mosaic_pool_scheduler.py:322-639 | consecutive recorded runs anywhere in a history of scheduling and updating see exactly the schedule times the runs before them recorded, all in the past |
| Starvation.NoStarvation | bot/mosaic_pool_scheduler.py:569-620 | in every history, consecutive recorded runs of which m see the same m candidates of a source and explore some of them schedule every one of the m |
| Rotation.StrLeIsLexicographic | bot/mosaic_pool_scheduler.py:583-588 | the sources are ordered lexicographically |
| Rotation.FirstRoundInOrder | bot/mosaic_pool_scheduler.py:583-620 | the first picks take one node of each source in the sorted order, from the cursor on and round |
| Rotation.NextTurn | bot/mosaic_pool_scheduler.py:583-630 | the cursor moves on by one source when exploration is reached, and not otherwise |
| Rotation.CursorIsServed | bot/mosaic_pool_scheduler.py:583-620 | the source under the cursor is explored whenever exploration is reached, even with one node of budget |
| Rotation.Laps | bot/mosaic_pool_scheduler.py:583-630 | the persisted cursor comes round to a source at least every n runs that reach exploration, n being the number of sources |
| Rotation.NoSourceStarves | bot/mosaic_pool_scheduler.py:569-630 | in every history, while n sources are explored and one of them keeps its m candidates, consecutive recorded runs of which n * m reach exploration schedule every one of the m |
| Scheduler.PoolScheduler.TakeResult | bot/mosaic_pool_scheduler.py:676-767 | one probe result updates the candidate and, if conclusive, its source's yield, and nothing else |
| Scheduler.PoolScheduler.UpdateState | bot/mosaic_pool_scheduler.py:642-777 | taking all results and pruning is one step of the state machine the run theorems are about |
| Scheduler.PoolScheduler.Prune | bot/mosaic_pool_scheduler.py:277-319 | drops exactly the stale unverified candidates, then just enough of those no more valuable than any kept |
| ProbeRuns.RecordTellsProbes | bot/mosaic_pool_scheduler.py:676-767 | in every run a retained candidate's record is exactly what the probes since it was taken in say: the failures since the last success, several in one cycle each counted, the lifetime counts, the last verdict, the times of the last probe and success, and when the backoff ends |
| ProbeRuns.TakenIn | bot/mosaic_pool_scheduler.py:682-692 | every candidate there is was taken in at some event and retained since, so the record theorem applies to it |
| ProbeRuns.CooldownInNumbers | bot/mosaic_pool_scheduler.py:156-171 | the backoff is the base doubled for each failure but the first, sixteen times at most, and capped, times 0.8 to 1.2 by the digest and capped again |
| ProbeRuns.BackoffGrowsInRuns | bot/mosaic_pool_scheduler.py:740-748 | in every run, of two moments at which a retained candidate stands broken, the one with more failures in a row waits strictly longer, while the doubled base stays below the ceiling |
| ProbeRuns.YieldTellsOutcomes | bot/mosaic_pool_scheduler.py:724-763 | in every run a source's yield is the average of its conclusive probes discounted exponentially from a half, its checks their number and its successes those that worked |
| ProbeRuns.ProbesPlace | bot/mosaic_pool_scheduler.py:706-709 | probing names a known candidate's last country, fills in a missing source, and leaves when it was seen and scheduled |
| ProbeRuns.PruningInFields | bot/mosaic_pool_scheduler.py:277-319 | pruning drops every unverified candidate unseen for longer than the limit, and others only when full, unverified before verified and the longest unseen first |
| ProbeRuns.TouchingInFields | bot/mosaic_pool_scheduler.py:380-410 | a scheduling call marks its nodes as seen, takes in new ones with nothing known, fills in a missing source or country, and leaves every other candidate alone |
| SchedulerState.RunIsSound | bot/mosaic_pool_scheduler.py:642-777 | in every run: not known broken implies no failures and no cooldown, consecutive failures never exceed lifetime ones, a cooldown ends within the maximum after the last failure, yields stay in [0, 1], successes never exceed checks, and checks equal the conclusive probes ever processed |
| SchedulerState.YieldsSound | bot/mosaic_pool_scheduler.py:724-763 | probe results keep all yields sound and count one check per conclusive probe of the source |
| SchedulerState.ChecksSound | bot/mosaic_pool_scheduler.py:711-767 | probe results keep a candidate's counters and cooldown sound relative to its last failure |
| SchedulerState.BackoffEnds | bot/mosaic_pool_scheduler.py:740-748 | from the maximum cooldown after its last failure on, a retained candidate is eligible |
| SchedulerState.RunAddsEvidence | bot/mosaic_pool_scheduler.py:719-745 | while a candidate is retained its lifetime verifications and failures never decrease |
| SchedulerState.DegradedStaysDegraded | bot/mosaic_pool_scheduler.py:114-125 | a retained candidate once degraded is degraded whenever it is verified again |
| HealthCheck.HealthChecker.RunHealthCheck | bot/mosaic_pool_health.py:903-1190 | the outcome and both files for every combination of dry run, validation, restart, rollback and saving: the configuration is replaced only by a changed and validated one and put back when a failed restart can be rolled back; the state is saved by every finished cycle that is no dry run and whose state file can be written |
| HealthCheck.HealthChecker.Refresh | bot/mosaic_pool_health.py:954-1071 | the new state: merged candidate lists without deleted and forbidden tags, and the counts of valid tags with this cycle's verdicts applied |
| HealthCheck.HealthChecker.Synchronise | bot/mosaic_pool_health.py:954-967 | every named group's members are merged into its candidate list in order, without repeating one |
| HealthCheck.HealthChecker.CountFailures | bot/mosaic_pool_health.py:1056-1071 | each referenced tag's count is reset, raised up to 100 or left, by its verdict |
| HealthCheck.HealthChecker.HarmoniseAll | bot/mosaic_pool_health.py:1073-1122 | all groups get their new members and settings, and `changed` tells exactly whether any differs |
| HealthCheck.HealthChecker.Harmonise | bot/mosaic_pool_health.py:1081-1113 | a group's new members: who qualifies, else the valid old ones, else the least failed candidate |
| PoolHealth.Best | bot/mosaic_pool_health.py:1111-1111 | the last resort is a candidate with the fewest failures |
| CycleFields.CandidatesByFields | bot/mosaic_pool_health.py:954-987 | after a cycle a group's candidates are exactly the configured proxies on allowed hosts among its saved candidates and its members |
| CycleFields.MembersByFields | bot/mosaic_pool_health.py:1075-1122 | a group becomes its candidates below the threshold that were members or answered as authenticated proxies, in their order; else its allowed old members; else the first of the least failed candidates; and its settings are the fixed ones |
| CycleFields.SafetyByFields | bot/mosaic_pool_health.py:1075-1117 | members are allowed candidates, a group with a candidate is not emptied, who answered as an authenticated proxy is a member, and who was out and did not comes back only as the sole fallback |
| CycleFields.LeavesByFields | bot/mosaic_pool_health.py:1089-1113 | a configured proxy on an allowed host leaves its group only in a cycle whose count for it reaches the threshold |
| CycleFields.CountByFields | bot/mosaic_pool_health.py:106-131 | per result: failed other than by the own infrastructure counts one more, up to 100; alive without a caveat that withholds proof resets; unsure, missing, unproven and infrastructure results leave the count |
| QuietCycle.GroupStaysIff | bot/mosaic_pool_health.py:1081-1122 | for any lists of valid candidates, a silent cycle keeps a group if and only if its settings are right and its members are its active candidates below the threshold in order, or else all valid and missing only without candidates |
| QuietCycle.SilentCycleKeepsGroupsIff | bot/mosaic_pool_health.py:1056-1122 | for any two files a silent cycle reports no change if and only if every group is such |
| QuietCycle.SilentCycleKeepsStateIff | bot/mosaic_pool_health.py:954-1071 | for any two files a silent cycle leaves lists and counts if and only if every named group and its valid members are listed and nothing else than valid tags is |
| QuietCycle.SilentCycleIsIdleIff | bot/mosaic_pool_health.py:954-1122 | both together, as one condition on the two files, the valid tags and the threshold |
| QuietCycle.UnsavedCycleIsUndone | bot/mosaic_pool_health.py:811-821 | a concrete cycle whose state was not saved, after which a silent cycle takes a member out again |
| PoolHealth.SilentCycleChangesNothing | bot/mosaic_pool_health.py:1056-1122 | after a cycle whose configuration and state were both written, a silent one changes no list and no count, and no group if and only if no group it finds has a lone member below the threshold that its candidate list repeats |
| PoolHealth.GroupIsStable | bot/mosaic_pool_health.py:1102-1113 | the same for one group, fallback included |
| PoolHealth.LastResortCanRepeat | bot/mosaic_pool_health.py:1081-1117 | a concrete configuration and state whose second silent cycle still rewrites a group |
| PoolHealth.RepeatFreeIsKept | bot/mosaic_pool_health.py:954-991 | lists without repetitions stay so, and then silent cycles change nothing |
| PoolHealth.CountIsDeadSince | bot/mosaic_pool_health.py:1056-1071 | over any run a continuously valid candidate's count is min(100, failures other than by the own infrastructure since it last answered as an authenticated proxy) |
| Billing.PostConserves | bot/mosaic_billing.py:105-109 | moving an amount together with its row keeps the books balanced |
| Billing.CreditConserves | bot/mosaic_billing.py:98-111 | crediting keeps the books balanced and uses its key exactly when it credits |
| Billing.DebitConserves | bot/mosaic_billing.py:113-133 | a daily debit keeps the books balanced and its ledger key with its debit record |
| Billing.CompleteConservesIff | bot/mosaic_billing.py:210-215 | completing a payment keeps the books balanced if and only if it moves nothing or its key is still free |
| Billing.GrantConserves | bot/mosaic_billing.py:784-801 | a bulk grant keeps the books balanced and touches only grant keys |
| Billing.GrantIsIdempotent | bot/mosaic_billing.py:787-795 | each account is granted once per operation key, however often the grant is repeated and at whatever price |
| BillingRuns.BooksAreConserved | bot/mosaic_billing.py:98-218 | however credits, debits, refunds of any account and day, payments and grants interleave, each wallet is the sum of its rows, each row's balance follows from the one before, keys are unique and agree with debits and payments |
| BillingRuns.NegativeInvoiceOverdraws | bot/mosaic_billing.py:188-218 | an invoice of any amount, negative ones included, becomes the balance of an empty wallet |
| BillingRuns.NeverOverdrawnIff | bot/mosaic_billing.py:188-218 | no sequence of transactions overdraws a wallet if and only if callers never invoice below zero |
| BillingSources.RowsAreExplained | bot/mosaic_billing.py:98-218 | however transactions interleave, every ledger row moves exactly the amount that a performed transaction of its kind asked for, to or from that account: a credit its amount, a debit its price, a refund what the debit recorded or its own price, a payment the invoiced amount, a grant its days at its price |
| BillingSources.DebitInNumbers | bot/mosaic_billing.py:113-133 | a debit takes effect exactly when the day is not charged and the wallet holds the price, and then the wallet falls by that price, which is recorded |
| BillingSources.CompletionInNumbers | bot/mosaic_billing.py:197-218 | completing an invoice takes effect exactly while it is pending, by the invoiced amount |
| BillingSources.RefundInNumbers | bot/mosaic_billing.py:135-141 | a refund gives back what was taken, or its own price if nothing was |
| BillingSources.GrantInNumbers | bot/mosaic_billing.py:784-801 | a grant raises each wallet it names by its amount unless the operation reached it before |
| DailyBilling.BooksOfRun | bot/mosaic_billing.py:153-169 | the books of every interleaving with the daily run are those of its transactions, so the results above hold of it |
| DailyBilling.LedgerIsConserved | bot/mosaic_billing.py:98-218 | in every interleaving the books are conserved and agree with the provider log on every account and day |
| DailyBilling.ChargedBy | bot/mosaic_billing.py:113-133 | every recorded charge was made by one event, at whose price the wallet fell and which it was able to pay |
| DailyBilling.ChargedOnceAndExactly | bot/mosaic_billing.py:113-169 | per account and day at most one extension succeeds, only on the provider's agreement and after a charge; once settled the net effect is minus the price of the event that charged exactly when one did, and nothing otherwise, although the price may change in between |
| DailyBilling.AccountInNumbers | bot/mosaic_billing.py:155-169 | in one account of a run the provider extends exactly when the day was not charged, the wallet holds the price, the account has a user and the provider agrees, and the wallet falls by the price exactly then |
| DailyBilling.DailyRunSettles | bot/mosaic_billing.py:153-169 | a completed daily run keeps the ledger sound and leaves no charge half done |
| DailyBilling.RerunLeavesCharged | bot/mosaic_billing.py:153-158 | running a day again leaves every charge begun before as it stands: none is repeated, and one left half done by a killed run is neither extended nor refunded |
| BillingStore.Store.CreditWallet | bot/mosaic_billing.py:98-111 | credits and appends one row exactly when the amount is positive, the key is new and the wallet exists, and says which of these failed otherwise |
| BillingStore.Store.DebitOneDay | bot/mosaic_billing.py:113-133 | charges the price once per account and day and records it, or answers already done or insufficient funds with nothing changed; a rejected ledger key rolls the whole back |
| BillingStore.Store.RefundDebit | bot/mosaic_billing.py:135-141 | credits what the debit recorded, or the current price without a record, once per account and day, with the answer of the credit |
| BillingStore.Store.RecordPayment | bot/mosaic_billing.py:188-194 | an invoice is recorded once |
| BillingStore.Store.CompleteInvoice | bot/mosaic_billing.py:197-218 | credits exactly pending payments of known wallets, and tells unknown, already paid and not payable ones apart |
| BillingStore.Store.BulkGrantDays | bot/mosaic_billing.py:773-802 | grants every account not yet reached and reports how many |
| BillingStore.Store.RunDailyDebits | bot/mosaic_billing.py:153-169 | the loop over accounts is the daily run the theorems are about |
| LoginRuns.ConsumedAtMostOnce | bot/onboarding_auth.py:217-236 | in every interleaving of split polls and approvals with consumptions and pruning, at most one consumption succeeds, and the row records its token |
| LoginRuns.EventKeepsSingleUse | bot/onboarding_auth.py:240-488 | no write, however stale, breaks the single-use invariant |
| LoginRuns.WinnerIsBoundAndLast | bot/onboarding_auth.py:416-481 | in every interleaving of a fresh challenge whoever consumes it does so first, before it expired, with its secret and a working exchange, and is told an account that some caller approved it for before it expired |
| LoginRuns.ExpiredIsNeverConsumed | bot/onboarding_auth.py:416-419 | from its expiry on nobody consumes a challenge, whatever happened before |
| LoginRuns.ConsumeInFields | bot/onboarding_auth.py:392-488 | consuming succeeds exactly on an approved, unused, unexpired challenge that is not locked out, with its secret and a working exchange; a wrong secret is counted, and every other refusal changes nothing |
| LoginRuns.PollInFields | bot/onboarding_auth.py:240-270 | polling reveals the account exactly to whoever knows the secret of an approved, unused, unexpired challenge, and marks a pending one expired when its time is over |
| LoginRuns.ApproveInFields | bot/onboarding_auth.py:317-387 | approving succeeds exactly on a pending, unused, unexpired challenge bound to nobody, and binds it to the approving account |
| LoginRuns.FailedExchangesRollBack | bot/onboarding_auth.py:461-470 | however often the exchange of an approved challenge fails, the row is unchanged, and a working one at any moment before it expires consumes it |
| LoginRuns.GuessesAreBounded | bot/onboarding_auth.py:213-236 | with whole calls atomic, wrong guesses never exceed the limit, the counter counts them, and the row is locked exactly when they reach it |
| LoginRuns.LockIsFinal | bot/onboarding_auth.py:213-236 | no call unlocks a challenge |
| LoginRuns.LockedOutForGood | bot/onboarding_auth.py:213-238 | after the last guess no poll, approval or consumption succeeds again |
| LoginRuns.LockoutCoversApprovalIff | bot/onboarding_auth.py:338-343 | exhausted guesses also block approval if and only if the limit is positive |
| LoginRuns.BindingIsForGood | bot/onboarding_auth.py:345-370 | with whole calls atomic, a bound account never changes |
| LoginStore.BrowserLoginStore.Create | bot/onboarding_auth.py:119-152 | a fresh pending row, or nothing when the id exists |
| LoginStore.MintedIsWellFormed | bot/onboarding_auth.py:119-152 | what is drawn for a new challenge passes the format checks, and tokens of other lengths or characters do not |
| LoginStore.BrowserLoginStore.VerifyAndCount | bot/onboarding_auth.py:195-238 | answers malformed, not found, locked or invalid secret, or lets the caller pass, and only a compared wrong secret changes anything: the count, and the status once the limit is reached |
| LoginStore.BrowserLoginStore.PollChallenge | bot/onboarding_auth.py:240-270 | answers a passed caller expired, used, approved with the bound account, or pending, marks a pending row expired when its time is over, and touches no other row |
| LoginStore.BrowserLoginStore.ApproveChallenge | bot/onboarding_auth.py:272-387 | binds the account and the first 64 characters of its name to exactly a live, pending, unbound challenge, and otherwise says why not and changes nothing |
| LoginStore.BrowserLoginStore.ConsumeChallenge | bot/onboarding_auth.py:392-488 | takes exactly an approved, unused, unexpired challenge when the exchange works; a failed exchange leaves the row as it was |
| LoginStore.BrowserLoginStore.PruneExpired | bot/onboarding_auth.py:490-500 | removes exactly the rows that expired before the cutoff and counts them |
| SponsoredInvites.RunsAreOk | bot/sponsored_invites.py:255-402 | in every interleaving an invite is unclaimed exactly while pending or revoked, and every winner holds a claimed invite of the amount it read |
| SponsoredInvites.RedeemedAtMostOnce | bot/bot.py:5961-6043 | per invite at most one claim wins and at most one provider credit is issued, none is both claimed and revoked, and credited days never exceed claimed days |
| SponsoredInvites.FinalStaysFinal | bot/sponsored_invites.py:353-402 | claimant and amount never change and finished or revoked invites never move |
| InviteStore.SponsoredInviteStore.Create | bot/sponsored_invites.py:115-214 | from the trimmed label and request: a new invite, the one the request made before, or a conflict, keeping tokens and requests unique |
| InviteStore.SponsoredInviteStore.ClaimToken | bot/sponsored_invites.py:255-351 | answers for the one invite behind the trimmed token and binds the claimant exactly when it is pending, unclaimed and unexpired |
| InviteStore.SponsoredInviteStore.FinishInvite | bot/sponsored_invites.py:353-380 | moves exactly a processing invite to the given final status |
| InviteStore.SponsoredInviteStore.RevokeInvite | bot/sponsored_invites.py:382-402 | revokes exactly an own, pending, unexpired invite |
| InviteStore.SponsoredInviteStore.Redeem | bot/bot.py:5961-6043 | one provider call exactly when the claim was won, the final status its outcome calls for, and otherwise the claim's refusal with nothing changed |
| RedemptionRuns.RedemptionIsFinal | bot/bot.py:5961-6043 | once a handler that called the provider recorded an outcome, then over any further events no other handler holds its invite, the provider was called for it exactly once and for its amount, and every later claim before expiry is turned away, the claimant with the recorded outcome |
| RedemptionRuns.RunUnderWay | bot/sponsored_invites.py:255-380 | in every interleaving a winner's invite is being processed until the winner is done, and was credited exactly once, for its amount, after the winner called |
| RedemptionRuns.ClaimInFields | bot/sponsored_invites.py:291-325 | a claim is won exactly before expiry on a pending invite that nobody claimed, and the refusals tell expired, revoked, repeated and taken invites apart |
| RedemptionRuns.InvitesAreTraced | bot/sponsored_invites.py:115-402 | in every interleaving each invite is what some call created, its claimant claimed it before expiry, its own admin revoked it before expiry, and its outcome was recorded by a handler |
| Sharding.ShuffleIsPermutation | bot/bot.py:5361-5371 | for every seed and count the shuffle permutes 0 to count - 1 |
| Sharding.StepIsInvertible | bot/bot.py:5366-5368 | every step of the generator can be undone, so that no two states are confused |
| Sharding.ShuffleOfFour | bot/bot.py:5361-5371 | a reference value of the shuffle |
| Sharding.ShuffleIndices | bot/bot.py:5361-5371 | the loop swapping in place computes that shuffle |
| Sharding.RankedBestFirst | bot/bot.py:5380-5396 | the ranking rearranges the candidates by measured speed, missing ones last, then by latency, missing ones counted as 10000, and keeps equal ones in order |
| Sharding.ShardOtherwise | bot/bot.py:5374-5400 | a list that needs no cutting is given out as it is, and one cut to fewer than two gives the two best |
| Sharding.ShardIsWithinBand | bot/bot.py:5374-5414 | a longer list yields exactly `target` different nodes for every seed: the two best ranked, then what the seeded shuffle of the next max(target - 2, ceil((n - 2) / 2)) puts first |
| Sharding.ShardSizeIff | bot/bot.py:5374-5414 | the shard has min(target, n) nodes if and only if nothing needs cutting or the target has room for both anchors |
| Sharding.ExtrasInTopHalfIff | bot/bot.py:5403-5413 | the extras come from the top half of the rest if and only if the target asks for no more than that half has |
| Sharding.SevenBreakTheDefault | bot/bot.py:5374-5414 | seven candidates with the default target of six always draw a node from below that half |
| RateLimit.TableIsFaithful | bot/bot.py:2651-2669 | after any run, whoever pruned it, the table holds only allowed calls and all that can still count |
| RateLimit.RefinesFullHistory | bot/bot.py:2651-2669 | a call is allowed if and only if the full history has fewer than the maximum of allowed instants in its window |
| RateLimit.RefinesCallHistory | bot/bot.py:2651-2669 | the same counted in calls, when a user's calls come at different instants |
| RateLimit.WindowIsNeverExceeded | bot/bot.py:2651-2669 | no interval as long as the window holds more than the maximum of allowed instants |
| RateLimit.LimitHolds | bot/bot.py:2651-2669 | the same counted in calls, when a user's calls come at different instants |
| RateLimit.PublishedLimitsHold | bot/bot.py:2641-2649 | with the published numbers: no user exceeds five messages a minute, ten referral clicks a day, three tickets or promo codes an hour, one rating a day, one broadcast or ten other calls a minute, and none is turned away before |
| RateLimit.RepeatedInstantIsFree | bot/bot.py:2666-2667 | a call at an instant already recorded uses nothing up |
| RateLimit.RateLimiter.Check | bot/bot.py:2651-2669 | allows the call exactly when fewer than the maximum of its user's rows lie in the window, drops the action's expired rows and inserts the allowed call |

## Left out

- Cooldown.ComputeCooldown: the jitter digest is any fraction in [0, 1] handed in; floats are reals, so rounding at the exact thresholds is not modelled.
- Scheduler.PoolScheduler.ScheduleCandidates: nodes and state are typed; trimming and upper-casing of strings, recovery of malformed state (`sanitize_state`) and JSON persistence are left out, and the selection reads the state as touched, which recording the schedule times does not affect.
- Scheduler.PoolScheduler.Prune: which of several equally valuable candidates goes follows dictionary order in the code and is left open.
- Starvation.NoStarvation: assumes that the candidates are retained between the runs and that recorded runs happen at ever later positive times.
- HealthCheck.HealthChecker.RunHealthCheck: probing over TCP, UDP and HTTP is an arbitrary result per tag, including the second HTTP stage; file locking and atomic replacement are one step, and the summary counters, apart from `changed`, are left out.
- CycleFields.SafetyByFields: the statements are for groups with a tag; a group without one has no candidate list in the code either.
- PoolHealth.CountIsDeadSince: starts from any saved count up to 100 and adds it while the tag was never verified.
- BillingStore.Store.DebitOneDay: the account status and subscription updates are left out; every transaction is atomic and the daily price, read just before it, is a parameter; the table definitions are not part of the repository, so unique ledger keys are taken from the conflict clauses.
- BillingStore.Store.CreditWallet: the account status update and the metadata column are left out; callers are taken to stay out of the `cryptopay:`, debit, refund and grant key namespaces, and new wallets start at zero.
- BillingStore.Store.RefundDebit: the account status update of the credit is left out.
- BillingStore.Store.CompleteInvoice: the account status update and the payment time are left out.
- BillingStore.Store.BulkGrantDays: reactivated accounts, the user names it returns and the audit row are left out.
- BillingStore.Store.RunDailyDebits: the query for active accounts and `disable_user` are left out; the provider's answer is arbitrary, and a process killed between debit and refund leaves its charge unsettled.
- LoginStore.BrowserLoginStore.PollChallenge: one atomic step here; its split read and write are in `LoginRuns`.
- LoginStore.BrowserLoginStore.ApproveChallenge: one atomic step here; its split read and update are in `LoginRuns`. Account numbers arrive parsed, user names as text, and instants are integers.
- LoginRuns.BindingIsForGood: claimed for whole calls only; under split reads and writes neither this nor the bound on guesses is claimed.
- InviteStore.SponsoredInviteStore.Create: ids, tokens and the token hash are parameters, and the second look-up after a rejected insert is covered by the transaction.
- InviteStore.SponsoredInviteStore.ClaimToken: the claimant label and claim time columns are left out.
- InviteStore.SponsoredInviteStore.FinishInvite: the completion time, result and error columns are left out, and ids are taken as stored.
- SponsoredInvites.RedeemedAtMostOnce: a handler that fails while looking the user up counts as one that called the provider.
- Sharding.ShuffleIsPermutation: the seed's digest is any integer.
- RateLimit.RateLimiter.Check: one call is one transaction.
- `stratify_candidates` in the collector: a smaller one-shot budgeted selection, not modelled and not covered by any lemma here.
- `score_node`, promo codes, trial claims, referral rewards, sessions, password accounts and admin snapshots: little beyond single look-ups.
- `get` and `list` of invites and `get_challenge`: read-only views.
- Telegram handlers, web routing, payment and panel clients, the Go, Flutter and site code: plumbing around the parts above.
