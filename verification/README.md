# Verified model of Agent Authority

A Dafny model of the parts of Agent Authority that carry its guarantees: no overspend, no widening of delegated
authority, no replay, and receipts that show tampering. `dafny verify dfyconfig.toml` checks all of it.

State that the Go code updates in place is a class whose methods are proved against functions on its abstract value;
runs, interleavings and crashes are then lemmas about those functions. Random identifiers, clocks, store failures, hash
functions and serialisations are parameters. A result that rests on a hash is stated as "equal, or here are the two
strings that collide", with the place of the collision, never as injectivity.

## Parts

- **Leases.** `LeaseManager` and `LeaseManagerRuns` are one replica's reservations; `BudgetAuthority` and `Ledger` the
  authority's transactions; `LeaseProtocol` puts one authority, any number of replicas, delayed and repeated replies,
  crashes and a sweeper with stale listings into one step system. `LeaseClosing` says exactly when a close is safe and
  that spending then stays within the budget, `LeaseOverspend` that it need not, and without bound,
  `OverspendCondition` exactly when it can be exceeded. `BudgetSpec` is the TLA+ module. `LeaseRefinement` with
  `LeaseRefinementSteps` shows that disciplined runs refine it: since the stored consumption is always zero, those
  reclaim only leases under which nothing was committed, so an expiry after spending is not refined, and
  `LeaseRefinementSteps.ReclaimRefinesIff` shows that it cannot be.
- **Answers.** `LeaseAnswers`, `BudgetAnswers`, `LeaseDelivery`, `PassportAnswers`, `DelegationLinks` and
  `ReceiptAnswers` say what each operation answers and writes, in terms of the request and the stored records alone.
- **Pipeline.** `Pipeline` is the runner and the budget stage, `PipelineRuns` many requests in sequence or interleaved.
- **Delegation.** `Delegation` verifies a chain, `DelegationChains` and `DelegationGaps` say what that gives end to
  end and where it ends; `PassportAuthority` mints and revokes, `PassportRuns` covers every reachable store,
  `ChainHashes` the hash.
- **Receipts.** `Receipts` appends and verifies; `ReceiptRuns` interleaves Appends over a store with one receipt per
  number, `ReceiptOverlaps` shows what non-overlapping ones leave and when nothing is lost, `ReceiptRounds` what a round
  of overlapping ones loses; `ReceiptBinding` says what a verified list commits to.
- **Signing.** `CanonicalString` is the signed string and its decoder, `CanonicalPath` the sorted query,
  `PathReadings` the requests that share one, `Signing` the agreement of client and firewall.
- **Replay.** `Replay` is the timestamp window, the nonce cache and the two together.

`Results`, `Meters` and `Text` are shared: result types, sums over maps, and the byte order of strings.

## Where the code and its documents disagree

The model follows the code. Each of these but the number of steps is a lemma with the failing input, beside the exact
condition under which the documented property does hold.

- `docs/adr/0004-pre-deducted-leases.md:12` promises `S <= B`. The authority stores a lease's consumption as zero and
  never updates it, so the sweeper charges nothing and the whole grant is spendable again
  (`LeaseOverspend.SweptLeasesOverspend`, for every lease fraction and without bound; for the exact condition
  `OverspendCondition.CloseOverspendIff` and, in every reachable state, `OverspendCondition.ReachableOverspendIff`).
- A renewal's reply carries zero consumption as well; installing it as it is forgets what was spent
  (`LeaseManagerRuns.RefreshSafeIff`).
- `formal/budget.tla:20-21` leaves the reserved quantities out of NoOverspend (`BudgetSpec.NoOverspendAsWrittenFails`).
- `spec/AIP-1.md:22-26` prefixes every field of the canonical string with its length; the code does not prefix Spec
  (`CanonicalString.SharedCanonical`). The header stage admits one Spec only, so requests that reach the signature
  stage are not affected (`Signing.OneSignatureOneRequest`).
- Section 4 of `spec/AIP-1.md` announces sixteen steps; fifteen are listed and implemented.
- The timestamp window is symmetric in the specification; in the code the difference of two times saturates and the
  negation of the least duration overflows, which lets times more than 2^63 ns ahead through (`Replay.BeyondMeasure`).
- The canonical path writes the decoded path, keys and values as they are, so different requests share a signature
  (`Signing.ParameterInPath`, `Signing.ParameterInValue`). Every request with a query shares its signature with another
  unless question marks in decoded paths are refused, for instance with the one whose path is all of it
  (`Signing.SharesWithAnotherIff`); with them refused, exactly those do whose query text holds two equals signs, so any
  with two parameters (`Signing.SharesWithPlainIff`). Between two requests that lack separators a signature fixes
  the request (`Signing.OneSignatureOneRequest`).
- `README.md:41` promises a tamper-evident receipt for every decision. Appends of one execution that overlap write to
  one number of the store, where the last write wins: the other receipts were handed out and are gone, and verification
  passes (`ReceiptRounds.RoundKeepsOne`; `ReceiptOverlaps.NothingLostIff` for when nothing is lost). If the last to
  publish is not the last to have written, the next Append breaks the chain (`ReceiptRounds.AfterRoundIff`).
- Link-by-link narrowing stops at a passport that omits a budget amount, a number of calls or an expiry
  (`DelegationGaps.FieldHeldIff`).

## Hypotheses of the run theorems

- A budget is created once per execution, identifiers are fresh, and limits and reserved values are not negative.
- A replacement lease covers what is open; a renewal reply is merged with the replica's own consumption.
- A release may report anything, negative consumption included, as the authority checks no report.
- Refinement of the TLA+ module, which has one grant per replica and no work after closing, needs the discipline stated
  in `LeaseRefinement.Disciplined`: one live lease per replica, a release with nothing open and a report of what was
  committed, no work under a closed lease, a reclaim only when the stored consumption is what was committed.
- Passport operations are atomic, and so are Append's two critical sections and its write to the store. Only
  `ReceiptOverlaps.AppendedChainsVerify` supposes that Appends of one execution do not overlap.
- An execution's receipt numbers do not reach the largest 64-bit integer.
- The clock does not go back between two calls of the nonce cache.

## Model

| member | source | states |
|---|---|---|
| LeaseManager.Manager.AvailableOf | pkg/budget/leasemanager/manager.go:64-72 | the accumulation loop over reservations computes granted minus consumed minus everything open, held reservations included, whatever order the map is walked in |
| LeaseManager.Manager.Reserve | pkg/budget/leasemanager/manager.go:74-109 | succeeds exactly when there is a lease for that execution and every requested meter is available, opening one reservation under the next number; otherwise changes nothing and answers with the code of a meter that falls short |
| LeaseManager.Manager.Commit | pkg/budget/leasemanager/manager.go:111-129 | an open reservation's values are added to consumed and it is gone; an unknown or held one is an error that changes nothing |
| LeaseManager.Manager.Release | pkg/budget/leasemanager/manager.go:131-144 | drops an open reservation, leaves a held or unknown one alone |
| LeaseManager.Manager.Hold | pkg/budget/leasemanager/manager.go:146-156 | marks a reservation held and touches nothing else |
| LeaseManager.Manager.Stats | pkg/budget/leasemanager/manager.go:158-193 | the doubly nested totals: reserved is the open sum of every meter and available is what AvailableOf would give for every granted meter, floored at zero |
| LeaseManager.Manager.RefreshLease | pkg/budget/leasemanager/manager.go:195-199 | replaces the lease and keeps reservations and numbering |
| LeaseManagerRuns.StepKeepsSound | pkg/budget/leasemanager/manager.go:74-199 | every call, a covering refresh included, keeps consumed plus open within granted for every meter |
| LeaseManagerRuns.NoLocalOverspend | pkg/budget/leasemanager/manager.go:64-199 | over every sequence of calls with covering refreshes, consumed plus open reservations never exceeds granted, so availability is never negative |
| LeaseManagerRuns.SettledForever | pkg/budget/leasemanager/manager.go:47-144 | a committed or released identifier is never handed out or open again, for all continuations |
| LeaseManagerRuns.HeldForever | pkg/budget/leasemanager/manager.go:111-156 | held is absorbing: no later call commits, releases or alters a held reservation |
| LeaseManagerRuns.IdentifiersUsedOnce | pkg/budget/leasemanager/manager.go:47-129 | of two calls in one run, a later reservation gets a larger number, and what the earlier one committed the later cannot |
| LeaseManagerRuns.ReservationsConserved | pkg/budget/leasemanager/manager.go:74-144 | conservation over runs: open before plus reserved equals open after plus committed plus released |
| LeaseManagerRuns.ConsumedIsCommitted | pkg/budget/leasemanager/manager.go:111-129 | under one lease, consumed grows by exactly the values of the reservations that commit |
| LeaseManagerRuns.SpendTheRest | pkg/budget/leasemanager/manager.go:74-129 | from any sound state there is a run that commits everything granted, not consumed and not held |
| LeaseManagerRuns.RefreshSafeIff | pkg/budget/leasemanager/manager.go:195-199 | installing a covering lease keeps all future spending within its grant if and only if its consumed plus the held reservations account for what was already spent |
| LeaseAnswers.ReservesIff | pkg/budget/leasemanager/manager.go:74-109 | a reservation opens, under the next number and with the values asked for, if and only if the lease is for that execution and consumed plus everything open plus the value is within the grant for every meter; else nothing changes |
| LeaseAnswers.RefusedWith | pkg/budget/leasemanager/manager.go:78-99 | a refusal answers that there is no such lease, or with the code of a meter that falls short: the call limit for calls, the distinct limit for either spelling of distinct resources, the exhausted budget for any other |
| LeaseAnswers.RefusedForOne | test/e2e/scenarios_test.go:303-312 | a refused request for one meter is answered with the code of its name |
| LeaseAnswers.SettlesOpen | pkg/budget/leasemanager/manager.go:111-144 | a commit consumes exactly the values of an open reservation and a release none; both end it, and neither touches a held one |
| LeaseAnswers.HoldsAndUnknown | pkg/budget/leasemanager/manager.go:111-156 | a hold keeps the values and changes no other reservation; commit, release and hold ignore numbers that are not open |
| LeaseAnswers.ReserveThenCommit | pkg/budget/leasemanager/manager.go:74-129 | reserving and committing consumes exactly the values and leaves the other reservations as they were |
| BudgetAuthority.Authority.CreateBudget | pkg/budget/budgetauth/authority.go:170-188 | the new record starts with everything remaining and replaces whatever was stored for the execution |
| BudgetAuthority.Authority.AcquireLease | pkg/budget/budgetauth/authority.go:190-283 | the meter loop, in any order: refuses an unknown budget, another epoch or an exhausted meter without writing, or grants min(hint, remaining, fraction of the limit) floored at zero on every meter and writes budget and lease |
| BudgetAuthority.Authority.FindLease | pkg/budget/budgetauth/authority.go:296-302 | the listing scan returns a stored lease with that identifier, or none when no lease has it |
| BudgetAuthority.Authority.RenewLease | pkg/budget/budgetauth/authority.go:285-362 | pushes the expiry out and tops hinted meters up out of what remains; the lookup, the missing budget and the empty hint included |
| BudgetAuthority.Authority.RenewMeters | pkg/budget/budgetauth/authority.go:316-346 | the top-up loop moves each positive top-up once from remaining to granted, whatever the order of the hints |
| BudgetAuthority.Authority.CreditMeters | pkg/budget/budgetauth/authority.go:103-123 | the credit loop gives back max(0, granted - consumed) per granted meter |
| BudgetAuthority.Authority.ReleaseLease | pkg/budget/budgetauth/authority.go:364-419 | closes the found lease against the reported consumption, does nothing for an unknown one |
| BudgetAuthority.Authority.ReclaimLease | pkg/budget/budgetauth/authority.go:81-132 | re-reads the lease in its own transaction and closes it only if it is still stored and still expired |
| BudgetAuthority.Authority.Sweep | pkg/budget/budgetauth/authority.go:63-79 | after a sweep exactly the leases not expired at its start are left, unchanged, and every budget has got back exactly the credit of the expired ones |
| BudgetAuthority.Authority.BumpEpoch | pkg/budget/budgetauth/authority.go:421-437 | adds one to the epoch, wrapping at 64 bits, and nothing else |
| BudgetAnswers.RefusedIff | pkg/budget/budgetauth/authority.go:193-227 | a lease is refused if and only if the budget is unknown, the request names another epoch than zero or the budget's, or a meter is exhausted; the code of the epoch belongs to exactly the second |
| BudgetAnswers.BumpShutsOut | pkg/budget/budgetauth/authority.go:202-206 | after a bump, which adds one to the epoch and nothing else, every request that names the epoch before it is refused with the epoch's code and changes nothing |
| BudgetAnswers.AcquireWrites | pkg/budget/budgetauth/authority.go:246-283 | a grant writes one lease for the asking replica under the budget's epoch, with nothing consumed and the time to live, and takes exactly its quantities out of what remains; no other record changes |
| BudgetAnswers.GrantedIff | pkg/budget/budgetauth/authority.go:224-245 | an acquired lease holds at least x of a meter if and only if x is within the hint, what remains and the configured fraction times the limit |
| BudgetAnswers.RenewalRaisesIff | pkg/budget/budgetauth/authority.go:316-346 | a renewal raises a meter by at least x if and only if the meter is hinted and limited and x is within the hint, what remains and the configured fraction times the limit; what remains falls by as much, and any other meter is untouched |
| BudgetAnswers.RenewalKeeps | pkg/budget/budgetauth/authority.go:285-362 | a renewal sets the expiry to now plus the time to live and changes nothing else of the lease, no other lease, no other budget; with an empty hint no budget at all |
| BudgetAnswers.RenewalFails | pkg/budget/budgetauth/authority.go:296-315 | fails, without a write, exactly for an unknown lease and, if meters are hinted, for a missing budget, each with its error |
| BudgetAnswers.CloseGivesBack | pkg/budget/budgetauth/authority.go:103-123 | a close removes the lease and gives every granted meter the granted less the reported quantity back, if that is positive; no other record changes |
| BudgetAnswers.ReclaimClosesIff | pkg/budget/budgetauth/authority.go:81-132 | a reclaim changes anything if and only if the lease is stored and its stored expiry has come, and then charges its stored consumption |
| BudgetAnswers.CreateWrites | pkg/budget/budgetauth/authority.go:170-188 | a new budget has all of its limits remaining and epoch zero, and no other record changes |
| Ledger.StepConserves | pkg/budget/budgetauth/authority.go:81-437 | every transaction keeps remaining + granted to live leases + charged to closed leases = limit, for every execution and meter, with remaining never negative |
| Ledger.BudgetConserved | pkg/budget/budgetauth/authority.go:103-419 | that equation in every state any run of transactions reaches, charged being min(granted, consumption) |
| Ledger.GrantIsLargest | pkg/budget/budgetauth/authority.go:224-245 | a grant is the largest amount within the hint, what remains and the fraction of the limit, or zero |
| Ledger.StepShape | pkg/budget/budgetauth/authority.go:190-419 | a transaction opens one fresh lease, renews one without taking anything from it, closes one, or leaves all leases alone |
| Ledger.ClosesOneExpired | pkg/budget/budgetauth/authority.go:63-132 | a lease is closed only by a release that names it or by a reclaim at a time its current expiry has passed, and that one step pays exactly its credit |
| Ledger.CreditedOnce | pkg/budget/budgetauth/authority.go:81-132 | once closed, a lease is never live again and never credited again, over all continuations, stale sweeps included |
| Ledger.LivesUntilExpiry | pkg/budget/budgetauth/authority.go:63-132 | over all interleavings a lease that is not released by name stays live until its expiry, and renewals only push that out |
| Ledger.ReclaimedForGood | pkg/budget/budgetauth/authority.go:70-77 | a sweep's transaction on an expired lease ends it for good, whatever transactions run between the sweep's own |
| Ledger.RenewalDefersReclaim | pkg/budget/budgetauth/authority.go:85-93 | after a renewal, a sweep acting on any older copy of the lease leaves it alone until the renewed expiry |
| Ledger.ReclaimAgrees | pkg/budget/budgetauth/authority.go:81-132 | the step used in runs is the transaction the reclaiming method performs |
| Ledger.RunConsumesNothing | pkg/budget/budgetauth/authority.go:254-259 | the stored consumption of a live lease is zero in every reachable state |
| Ledger.ReclaimChargesNothing | pkg/budget/budgetauth/authority.go:108-123 | so a reclaim charges nothing and gives the whole grant back |
| LeaseProtocol.StepKeepsInv | pkg/budget/budgetauth/authority.go:81-419 | every event of the whole protocol, in any order, keeps the ledger equation, the soundness of every replica and the backing of every message in flight |
| LeaseProtocol.SpendBound | pkg/budget/budgetauth/authority.go:81-419 | in every state of the invariant, all spending plus what remains is at most the limit plus the uncharged part of closed leases |
| LeaseProtocol.SpendWithinLimitPlusUncharged | docs/adr/0004-pre-deducted-leases.md:12 | the documented S <= B in the form the code meets: in every run over any replicas, leases and crashes, committed spend is at most the limit plus, over closed leases, what was committed and not charged |
| LeaseProtocol.NoOverspendWhenCharged | docs/adr/0004-pre-deducted-leases.md:12 | S <= B exactly as written, for every run whose closes charge at least what was committed |
| LeaseDelivery.RenewalDelivers | pkg/budget/budgetauth/authority.go:285-362 | a replica can install the renewal of its live lease at once: what it has available grows by at least the top-up, and neither its reservations nor what it consumed change |
| LeaseDelivery.CrashForgets | pkg/budget/leasemanager/manager.go:33-45 | a crashed replica makes no call and takes no renewal until it gets another lease, and then has no reservation left |
| LeaseClosing.CloseMovesClaims | pkg/budget/budgetauth/authority.go:81-132 | closing a lease raises the claims on a budget by what was committed less what is charged |
| LeaseClosing.ReleaseSafeIff | pkg/budget/budgetauth/authority.go:364-419 | with the budget fully claimed, a release keeps the claims, which bound all spending, within the limit if and only if the report covers what was committed on each granted meter |
| LeaseClosing.ReclaimSafeIff | pkg/budget/budgetauth/authority.go:81-132 | with the budget fully claimed, a reclaim does so if and only if nothing was committed under the lease |
| LeaseClosing.ExactClaims | pkg/budget/budgetauth/authority.go:81-419 | where every close charged exactly what was committed, the claims are exactly the limit |
| LeaseClosing.SpentWithinClaims | pkg/budget/budgetauth/authority.go:81-419 | everything ever committed and what remains are together within the claims on a budget |
| LeaseClosing.ClaimsMove | pkg/budget/budgetauth/authority.go:81-419 | no event but a close, or a commit under a closed lease, moves the claims; each by what it leaves uncharged |
| LeaseClosing.ChargedRunKeepsBudget | docs/adr/0004-pre-deducted-leases.md:12 | from claims within the limit, every continuation that charges its closes in full keeps S <= B |
| LeaseClosing.SafeReleaseKeepsBudget | pkg/budget/budgetauth/authority.go:364-419 | so a release whose report covers what was committed leaves a state from which S <= B keeps holding |
| LeaseOverspend.LeaseAndSpendRun | pkg/budget/budgetauth/authority.go:190-283 | a replica new to a budget can lease the fraction of a meter's limit, or what remains of it, and commit all of it, leaving the other meters alone |
| LeaseOverspend.SpendRemaining | pkg/budget/budgetauth/authority.go:207-250 | lump by lump all that remains of a meter can be leased and spent, as long as something remains of the others |
| LeaseOverspend.SweptLeasesOverspend | pkg/budget/budgetauth/authority.go:63-132 | S <= B fails as written, for every budget and at every lease fraction f: an admissible run that leases, spends and sweeps n times commits n times the fraction of a meter's limit |
| LeaseOverspend.OverspendUnbounded | pkg/budget/budgetauth/authority.go:63-132 | so for every budget at every lease fraction there is a run that commits at least any given amount |
| LeaseOverspend.SweptLeaseSpentTwice | cmd/agentd/main.go:102-106 | with the daemon's fraction of a quarter eight sweeps commit twice the limit of any meter |
| OverspendCondition.Quieten | pkg/budget/budgetauth/authority.go:364-419 | from any state all live leases of an execution can be released by name in an admissible, fully charged run that leaves its spending, the claims on a meter and the charges of the other meters as they were |
| OverspendCondition.OverspendIff | docs/adr/0004-pre-deducted-leases.md:12 | the exact condition, whatever leases are live: a continuation that charges its closes in full can overspend a meter if and only if the claims on it exceed its limit, as long as no other meter was charged in full |
| OverspendCondition.RunKeepsStuck | pkg/budget/budgetauth/authority.go:207-235 | without live leases and with nothing left of one meter no continuation that charges a meter's closes in full commits anything more of that meter |
| OverspendCondition.OverspendAtRestIff | docs/adr/0004-pre-deducted-leases.md:12 | without live leases: overspent already, or claims above the limit and something left of every other meter |
| OverspendCondition.RunKeepsWhole | pkg/budget/budgetauth/authority.go:224-250 | over every run the live leases of an execution are granted something, or nothing, of every meter of its budget |
| OverspendCondition.OverspendAnywhereIff | pkg/budget/budgetauth/authority.go:364-419 | the exact condition with nothing asked of other meters: overspent already, or claims above the limit and a live lease or something left of every other meter |
| OverspendCondition.ReachableOverspendIff | docs/adr/0004-pre-deducted-leases.md:12 | the same in every state an admissible run reaches from the start |
| OverspendCondition.CloseOverspendIff | pkg/budget/budgetauth/authority.go:81-132 | closing a lease of a fully claimed meter lets such a continuation overspend if and only if it is charged less than was committed, and a lease is live or something is left of every other meter |
| BudgetSpec.StepInv | formal/budget.tla:33-102 | every action keeps remaining + granted + reserved + consumed = Total with no column negative |
| BudgetSpec.BehaviourInv | formal/budget.tla:93-104 | so does every behaviour |
| BudgetSpec.SpecTheorem | formal/budget.tla:104-106 | for any set of replicas and any total: TypeOK and SafetyInvariant always hold, and NoOverspend holds if and only if nothing is reserved |
| BudgetSpec.NoOverspendAsWrittenFails | formal/budget.tla:20-21 | a behaviour that violates NoOverspend as written, for every total |
| LeaseRefinement.LocalRefines | pkg/budget/leasemanager/manager.go:74-156 | a replica's Reserve, Commit and Release are its abstract Reserve, CommitReserve and ReleaseReserve of the amount its columns show, or a stutter; Hold is a stutter |
| LeaseRefinement.ActsRefines | formal/budget.tla:93-102 | each named action is one abstract step, or a crash and an expiry |
| LeaseRefinementSteps.AuthorityRefines | pkg/budget/budgetauth/authority.go:81-419 | an acquisition or renewal is the abstract Acquire of the lease's replica, a release its Release, a reclaim its Expire, after a Crash if it is up, or each a stutter; creating and bumping always are |
| LeaseRefinementSteps.ReclaimRefinesIff | pkg/budget/budgetauth/authority.go:81-132 | whatever the discipline, a reclaim is abstract actions if and only if it charges what was committed under the lease |
| LeaseRefinementSteps.ReclaimRefinesIffUnspent | pkg/budget/budgetauth/authority.go:254-259 | as the stored consumption is zero, if and only if nothing was committed under it |
| LeaseRefinementSteps.StepRefines | formal/budget.tla:93-102 | every disciplined event of the code-level protocol is none, one or two abstract actions |
| LeaseRefinementSteps.ProtocolRefinesSpec | formal/budget.tla:104-106 | every disciplined run, projected on any execution and meter, is a behaviour of the abstract protocol with the limit as Total, so its safety invariant carries over |
| Pipeline.Runner.BudgetStage | pkg/firewall/stages/15_budget.go:42-75 | reserves exactly when a passport, a lease manager and meters are there and the manager can, and otherwise says which of them was missing and changes nothing |
| Pipeline.Runner.Handle | pkg/firewall/runner.go:56-190 | one request: stages up to the first that stops, settlement by the upstream's answer, exactly one receipt, or none where no chain is configured or appending fails; without a lease manager nothing gets past the budget stage |
| Pipeline.Runner.Settle | pkg/firewall/runner.go:91-132 | commits, releases or holds the reservation by the upstream's answer, as PipelineRuns.SettledByStatus spells out by number, and answers with that number or 502 |
| Pipeline.FirstStop | pkg/firewall/runner.go:62-83 | no answer if and only if every stage continues; otherwise the answer of the first that does not |
| PipelineRuns.SettledByStatus | pkg/firewall/runner.go:91-132 | from 200 to 299 exactly the reservation's values are consumed and it is gone; from 400 to 499 it is gone and the lease is as before; for every other number and both upstream failures it is held with its values and the lease is as before |
| PipelineRuns.AnsweredIff | pkg/firewall/runner.go:85-171 | the upstream's number is answered if and only if the request reserved and the upstream answered, 202 if and only if the first stage to stop asked for approval |
| PipelineRuns.DeniedWith | pkg/firewall/runner.go:62-83 | a denial carries the code of the stage that denied, the misconfiguration code for a stage that failed, or why the last stage could not reserve |
| PipelineRuns.RecordedAs | pkg/firewall/runner.go:173-200 | a receipt says ALLOW if and only if the request was forwarded and answered; otherwise it carries the code of the denial, misconfiguration for a 502 |
| PipelineRuns.WithoutLeases | pkg/firewall/stages/15_budget.go:42-60 | where no lease manager is configured nothing is forwarded, and the answer names what was missing first |
| PipelineRuns.NoTrace | pkg/firewall/runner.go:62-132 | a request denied by a stage, or rejected upstream, leaves lease and reservations as they were |
| PipelineRuns.HandledIsTwoSteps | pkg/firewall/runner.go:56-171 | a request handled alone is its reservation and its settlement back to back |
| PipelineRuns.SequentialRequests | pkg/firewall/runner.go:56-171 | after any completed requests only held reservations are open, consumed grew by exactly the meters answered 2xx, open by exactly the ambiguous ones, and both stay within the grant |
| PipelineRuns.StepAccounts | pkg/firewall/runner.go:56-171 | any half of any request keeps open, unheld reservations in bijection with the requests in flight, and moves each meter by what it charges or withholds |
| PipelineRuns.ConcurrentRequests | pkg/firewall/runner.go:56-171 | from an unused lease under any interleaving: that bijection holds, consumed is the sum of the 2xx meters, and 2xx plus withheld meters never exceed the grant |
| Delegation.ToSet | pkg/delegation/chain.go:151-157 | the set has exactly the listed strings |
| Delegation.CheckSubset | pkg/delegation/chain.go:167-175 | accepts exactly the subsets, in any order of the map |
| Delegation.CheckFields | pkg/delegation/chain.go:87-99 | accepts exactly the per-request fields the parent has, with no maximum after the parent's as text |
| Delegation.CheckMonotonicity | pkg/delegation/chain.go:72-109 | fails, with the monotonicity code, exactly where a child asks for more in a field both carry |
| DelegationLinks.FieldsWithinIff | pkg/delegation/chain.go:87-99 | fields pass if and only if the parent has every one of them and none has a maximum that is larger at the first difference |
| DelegationLinks.LargerMaximumRejected | pkg/delegation/chain.go:94-97 | a child whose maximum has the larger character at the first difference is rejected, whatever else it holds |
| DelegationLinks.LinkIff | pkg/delegation/chain.go:54-132 | a link holds if and only if it names its parent, is one deeper, every capability, audience, resource and field is the parent's too, no maximum is raised, neither amount grows and the expiry is no later |
| DelegationLinks.UnraisedIsAccepted | pkg/delegation/chain.go:87-99 | where no maximum is raised and no field is new, fields never decide about a link |
| DelegationLinks.RejectionCodes | pkg/delegation/chain.go:33-66 | too deep if and only if the chain ends at the leaf and is longer than the limit; monotonicity if and only if it also starts at a root and the first failing link names its parent and counts right; a broken chain otherwise |
| Delegation.Verify | pkg/delegation/chain.go:33-66 | accepts exactly the chains that end at the leaf, are within the depth, start at a root and whose every link holds; any other is answered with the code of the first check that fails |
| Delegation.Stage | pkg/firewall/stages/14_delegation.go:56-105 | without ancestors nothing is checked; a missing passport, a missing verifier and a rejected token are answered in that order with their codes; otherwise the verdict, and the code of a rejection, is that on the ancestors followed by the caller's own passport, with eight as the default depth |
| DelegationChains.EndToEnd | pkg/delegation/chain.go:33-139 | between any two passports of an accepted chain the capability, audience, resource and field-name sets only shrink, and depth counts the links |
| DelegationChains.AllDistinct | pkg/delegation/chain.go:56-60 | no passport occurs twice in an accepted chain |
| DelegationChains.ValuesNarrow | pkg/delegation/chain.go:100-139 | amount, calls and expiry never grow between two passports where all between them carry the field |
| DelegationChains.MaximaNarrow | pkg/delegation/chain.go:93-98 | nor does the text of a field's maximum |
| DelegationChains.PrefixAccepted | pkg/delegation/chain.go:33-66 | every non-empty prefix of an accepted chain is accepted |
| DelegationChains.ExtendAccepted | pkg/delegation/chain.go:33-66 | a longer chain is accepted if and only if the shorter one is and the new link holds |
| DelegationChains.AmountSurvivesIff | pkg/delegation/chain.go:112-139 | a grandchild is held to the root's amount if and only if the passport between them carries a number, or a malformed text that no chain gets past |
| DelegationGaps.FieldHeldIff | pkg/delegation/chain.go:100-139 | for amount, calls and expiry, and any stretch of any accepted chain: the last is held to the first if and only if all passports of the stretch carry the field as a number, or no accepted chain has such a stretch |
| PassportAuthority.Authority.Issue | pkg/passport/passportauth/authority.go:114-188 | stores a root at depth zero without parent or chain hash |
| PassportAuthority.Authority.Index | pkg/passport/passportauth/authority.go:198-201 | the index is the store, in whatever order passports are listed |
| PassportAuthority.Authority.CheckAncestors | pkg/passport/passportauth/authority.go:220-230 | the walk ends, because depth falls at every step, at the first missing or revoked ancestor or at the root |
| PassportAuthority.Authority.Delegate | pkg/passport/passportauth/authority.go:192-296 | refuses in the order of the checks without writing, or stores one child: one deeper, its expiry the earlier of parent and request, its hash chained to the parent's |
| PassportAuthority.Authority.Revoke | pkg/passport/passportauth/authority.go:298-323 | marks the one passport revoked and says whether it was there |
| PassportAnswers.IssuesWhatIsAsked | pkg/passport/passportauth/authority.go:114-188 | a grant is stored as a root with exactly the fields and the expiry given, and no other passport changes |
| PassportAnswers.DelegatesWhatIsAsked | pkg/passport/passportauth/authority.go:241-296 | a delegation that succeeds stores one child with exactly the audience, capabilities, resources, fields, amount and calls asked for, its expiry at most the parent's and the one asked for and equal to one of them; one that fails changes nothing |
| PassportAnswers.DelegationSucceedsIff | pkg/passport/passportauth/authority.go:202-290 | past the checks of existence, revocation, expiry and depth it succeeds if and only if every requested field is within the parent's, and otherwise answers monotonicity |
| PassportAnswers.DelegationRefusals | pkg/passport/passportauth/authority.go:202-239 | which of the other answers is given when: unknown, revoked, expired, ancestor, too deep, with eight as the default limit |
| PassportAnswers.StoppedIff | pkg/passport/passportauth/authority.go:220-230 | the walk answers with the revocation error if and only if some passport above is revoked, and otherwise lets the delegation pass |
| PassportAnswers.RevokesOnePhase | pkg/passport/passportauth/authority.go:298-323 | revoking sets the phase of the named passport and changes nothing else of it or of any other |
| PassportAnswers.RevokedForGood | pkg/passport/passportauth/authority.go:208-323 | from the revocation of any stored passport on, in every continuation: it stays revoked, a delegation from it is refused as revoked and one from below it too unless that parent has expired itself, and its strict descendants are those it had before |
| PassportRuns.StepKeepsGood | pkg/passport/passportauth/authority.go:114-323 | issuing, delegating and revoking keep every stored passport a root or a narrower, correctly chained child of a stored parent |
| PassportRuns.RootInDepthHops | pkg/passport/passportauth/authority.go:220-230 | following Parent from any passport reaches a root in exactly Depth hops |
| PassportRuns.NoMissingAncestor | pkg/passport/passportauth/authority.go:221-225 | in reachable stores the broken-chain error of the walk never arises |
| PassportRuns.MintingAgreesWithVerifying | pkg/passport/passportauth/authority.go:192-296 | in every reachable store the chain of every passport passes verification for a depth limit if and only if its depth is within it |
| PassportRuns.BelowRevokedIsRefused | pkg/passport/passportauth/authority.go:226-228 | the walk from any passport below a revoked one ends in the revocation error |
| PassportRuns.RevocationFreezes | pkg/passport/passportauth/authority.go:208-323 | once x is revoked, over all continuations x stays revoked and the set of its strict descendants does not change |
| PassportRuns.RunKeepsOutlived | pkg/passport/passportauth/authority.go:246-249 | in every reachable store no passport outlives its parent, whatever expiry was asked for |
| PassportRuns.DelegatedWithinAllExpiries | pkg/passport/passportauth/authority.go:211-218 | a delegation succeeds only while no passport on the way to the root has expired, and the child outlives none of them |
| PassportRuns.DepthsWithin | pkg/passport/passportauth/authority.go:232-239 | if no request asks for a limit above d, and d is at least eight where one asks for none, no passport is ever deeper than d |
| ChainHashes.ChainHashIsFold | pkg/delegation/chain.go:141-149 | a minted passport's chain hash is the fold over the identifiers from its root to itself |
| ChainHashes.EqualFolds | pkg/delegation/chain.go:141-149 | two lists of identifiers with one fold are equal, or the place of a collision among the strings hashed is returned |
| ChainHashes.ChainHashCommits | pkg/passport/passportauth/authority.go:251-255 | two delegated passports with one chain hash are the same passport, or a collision is returned |
| Receipts.ReceiptChain.Capture | pkg/receipt/receiptchain/chain.go:179-190 | the first critical section reads the link the next receipt needs |
| Receipts.ReceiptChain.Append | pkg/receipt/receiptchain/chain.go:173-236 | uninterrupted: the receipt carries that link and becomes the head; a failure to serialise or store leaves the head where it was |
| Receipts.ReceiptChain.GetHead | pkg/receipt/receiptchain/chain.go:238-246 | the last hash and number, or empty and -1 |
| Receipts.VerifyReceipts | cmd/agentctl/verify.go:88-124 | the count of number, link and signature failures, which is zero if and only if every receipt follows the one before and every signature is valid |
| Receipts.NoErrorsIffVerified | cmd/agentctl/verify.go:88-124 | the same for every prefix |
| ReceiptAnswers.FirstLink | pkg/receipt/receiptchain/chain.go:67-70 | the first receipt links to the prefix and the sum of the execution's identifier and has the first number |
| ReceiptAnswers.SecondLink | pkg/receipt/receiptchain/chain.go:179-190 | a receipt appended after another links to the prefix and the sum of that one as serialised, and has the next number |
| ReceiptAnswers.AppendedHolds | pkg/receipt/receiptchain/chain.go:192-217 | an appended receipt carries the identifier, execution and content given and a signature over all of itself but the signature |
| ReceiptAnswers.ErrorsCounted | cmd/agentctl/verify.go:88-124 | the check counts each wrong number, each wrong link and, with a key, each wrong signature exactly once |
| ReceiptBinding.SuffixOrCollision | cmd/agentctl/verify.go:88-106 | two linked lists with one last receipt agree place by place from the end as far as both go, or the place of two serialisations with one hash is returned |
| ReceiptBinding.HeadCommits | pkg/receipt/receiptchain/chain.go:238-246 | the same where only the hash of the last receipt is known |
| ReceiptBinding.EditReported | cmd/agentctl/verify.go:88-124 | replacing a receipt before the last by one that serialises differently is reported, or yields a collision |
| ReceiptBinding.CutsUnseen | cmd/agentctl/verify.go:88-124 | any contiguous part of a verified list verifies: receipts missing at either end are not seen |
| ReceiptRuns.OneAppend | pkg/receipt/receiptchain/chain.go:173-236 | uninterrupted, the three steps of an Append are what the Append of the class does to head and store |
| ReceiptRuns.RunKeepsPlaced | pkg/receipt/receiptchain/chain.go:224-233 | over any run, overlaps included, the stored receipts of an execution have the numbers from seqStart on without a gap |
| ReceiptRuns.PutKeepsChainIff | pkg/store/bbolt/bbolt.go:104-125 | writing a receipt keeps the stored chain if and only if it links to the one stored before its number and hashes like any followed one that it replaces |
| ReceiptRuns.RunsApart | pkg/receipt/receiptchain/chain.go:179-233 | however Appends of different executions interleave, each execution has the run of its own steps |
| ReceiptOverlaps.IssuedChainedIff | pkg/receipt/receiptchain/chain.go:179-233 | over any run, the receipts handed out form a chain in the order of publication if and only if every publishing Append found its link still current |
| ReceiptOverlaps.ExportVerifiesIff | cmd/agentctl/verify.go:88-124 | an export of receipts that this chain signed verifies with no error if and only if they are linked |
| ReceiptOverlaps.StepKeepsOrderly | pkg/receipt/receiptchain/chain.go:173-236 | any step of Appends that do not overlap keeps head, store and handed-out receipts in agreement |
| ReceiptOverlaps.AppendedChainsVerify | pkg/receipt/receiptchain/chain.go:173-264 | without overlap the export starts from the first link, each receipt follows the one before, it verifies with no error and is every receipt handed out, and Head is the last |
| ReceiptOverlaps.NothingLostIff | pkg/receipt/receiptchain/chain.go:179-233 | over any run from the start, overlaps included, the store holds the last write under each number; once no Append is under way, every receipt handed out is in the export if and only if no number was written with two different receipts |
| ReceiptRounds.RoundKeepsOne | pkg/receipt/receiptchain/chain.go:179-233 | after any number of overlapping Appends of one execution the export has one receipt more, the one written last; the others were handed out and are gone, and verification passes |
| ReceiptRounds.AfterRoundIff | pkg/receipt/receiptchain/chain.go:179-233 | the next Append then verifies if and only if the receipt published last hashes like the one written last |
| CanonicalString.ReadLP | pkg/crypto/canonical.go:40-43 | a length-prefixed field in front of any bytes reads back as itself, decimal length included |
| CanonicalString.FieldsRoundTrip | pkg/crypto/canonical.go:57 | the joined fields read back, for any number of fields with any bytes |
| CanonicalString.DecimalIs | pkg/crypto/canonical.go:40-43 | a length is written in decimal digits of that value without leading zeros |
| CanonicalString.CanonicalText | pkg/crypto/canonical.go:45-58 | nine lines: Spec as it is, then execution, passport, method, audience, path, timestamp, nonce and payload hash, each with its length and a colon in front |
| CanonicalString.RoundTripIff | pkg/crypto/canonical.go:45-58 | decoding undoes Canonical if and only if Spec holds no newline |
| CanonicalString.EqualIff | pkg/crypto/canonical.go:45-58 | two requests with one canonical string are equal if and only if their Specs are equally long |
| CanonicalString.SharedCanonical | pkg/crypto/canonical.go:46-47 | for every Spec there are two different requests with one canonical string |
| CanonicalString.DocumentedInjective | spec/AIP-1.md:22-26 | the documented form, with Spec prefixed, determines every field of any request |
| Signing.SameBytesIff | sdk/go/client.go:69-83 | the firewall reconstructs the very bytes the client signed if and only if they agree on every field, the method in upper case and the path canonical |
| Signing.SignedBegins | sdk/go/client.go:62-83 | what the client signs begins with the line of the version, and a missing body counts as an empty one |
| Signing.UpperIs | pkg/firewall/stages/09_signature.go:78 | of the method only the letters from a to z change, each to its capital |
| Signing.OneSignatureIff | pkg/firewall/stages/09_signature.go:74-87 | two received requests reconstruct one string if and only if they agree in every part, with the method in upper case, the canonical path and the body's hash |
| Signing.OneSignatureOneRequest | pkg/firewall/stages/09_signature.go:74-87 | where paths hold no question mark and parameters no separator, if and only if they differ in nothing but parameter order and letter case of the method, or their bodies hash alike |
| Signing.SharesWithAnotherIff | pkg/firewall/stages/09_signature.go:74-135 | a signature serves another request, with a different path or other parameters, if and only if its own has a query or a path that holds a question mark and a later equals sign |
| Signing.SharesWithPlainIff | pkg/firewall/stages/09_signature.go:74-135 | were question marks in decoded paths refused, it would do so if and only if the query text holds two equals signs |
| Signing.ParameterInPath | pkg/firewall/stages/09_signature.go:104-109 | with a question mark in the path, one signature serves a request with a parameter and one with that text in its path |
| Signing.ParameterInValue | pkg/firewall/stages/09_signature.go:128-130 | with an ampersand in a value, one signature serves a request with two parameters and one with a single one |
| CanonicalPath.SortedKeys | pkg/firewall/stages/09_signature.go:111-115 | all keys of the query in strictly ascending order, whatever the order of the map |
| CanonicalPath.Compute | pkg/firewall/stages/09_signature.go:104-135 | the path alone without a query; otherwise path, question mark and every pair of the query sorted by key, then value |
| CanonicalPath.SortedUnique | pkg/firewall/stages/09_signature.go:115-123 | a multiset of pairs has one sorted arrangement |
| Text.LessIff | pkg/firewall/stages/09_signature.go:115-123 | the order of strings is that of the characters at the first difference, a proper prefix first |
| CanonicalPath.SmallerFirst | pkg/firewall/stages/09_signature.go:111-135 | of any two pairs the one whose key, or under one key whose value, has the smaller character at the first difference is written first |
| CanonicalPath.TwoKeys | pkg/firewall/stages/09_signature.go:111-135 | the exact text for two keys: the smaller at the first difference first |
| CanonicalPath.TwoValues | pkg/firewall/stages/09_signature.go:120-135 | the exact text for two values of one key, in whatever order the request gives them |
| CanonicalPath.OrderIsIrrelevant | pkg/firewall/stages/09_signature.go:104-135 | queries with the same multiset of pairs give the same path |
| CanonicalPath.PathDeterminesPairsIff | pkg/firewall/stages/09_signature.go:128-130 | without separators in keys and values, equal paths if and only if equal multisets of pairs |
| CanonicalPath.WholeDeterminesIff | pkg/firewall/stages/09_signature.go:104-135 | without question marks in the decoded paths either, if and only if equal paths and equal multisets of pairs |
| CanonicalPath.QuestionMarkClash | pkg/firewall/stages/09_signature.go:104-119 | a path that holds a question mark has the canonical path of another with a query |
| CanonicalPath.SeparatorsClash | pkg/firewall/stages/09_signature.go:128-130 | with separators in a value, a family of different queries that share a path |
| PathReadings.AnotherIff | pkg/firewall/stages/09_signature.go:104-135 | another path, or other pairs, have the same canonical path if and only if there is a query or a path that could be read as one, for every path and query |
| PathReadings.AnotherPlainIff | pkg/firewall/stages/09_signature.go:104-135 | among paths without a question mark, if and only if the query text holds two equals signs |
| Replay.CheckTimestamp | pkg/firewall/stages/07_timestamp.go:35-65 | lets through exactly the times within the tolerance and those so far ahead that the 64-bit difference saturates |
| Replay.NonceCache.Evict | pkg/firewall/stages/08_nonce.go:55-59 | deletes exactly the entries older than the window, in any order |
| Replay.NonceCache.Seen | pkg/firewall/stages/08_nonce.go:49-66 | answers whether the nonce survived eviction, and records it if not |
| Replay.SeenIsExact | pkg/firewall/stages/08_nonce.go:49-66 | the answer is whether the unbounded history holds an acceptance within the window, and the entries stay its last acceptances |
| Replay.CacheRefinesHistory | pkg/firewall/stages/08_nonce.go:33-66 | over every sequence of calls on a non-decreasing clock the cache is exactly the window's part of the history, so eviction never changes an answer |
| Replay.PassingTwiceNeedsRoom | pkg/firewall/stages/08_nonce.go:80-96 | if one timestamp and nonce pass both stages twice in a run, whatever the timestamp, then timestamp - first pass + tolerance + delay exceeds the window |
| Replay.NoReplay | pkg/firewall/stages/07_timestamp.go:52-62 | nothing passes twice, in any run, where the window is at least twice the tolerance plus the second request's delay between the two clock readings, for timestamps less than 2^63 ns ahead of the clock at first pass |
| Replay.NoReplayAsShipped | pkg/firewall/stages/07_timestamp.go:27 | with the shipped thirty seconds on both sides that covers timestamps at least the delay behind the clock at first pass |
| Replay.ThirtySeconds | pkg/firewall/stages/08_nonce.go:27 | the shipped windows: thirty seconds either way for the timestamp and thirty for the nonce, the last nanosecond included |
| Replay.ReplayIff | pkg/firewall/stages/08_nonce.go:49-66 | the bound is exact for every timestamp: after a first pass a second one exists if and only if there is room for it |
| Replay.BeyondMeasure | pkg/firewall/stages/07_timestamp.go:53-57 | for times beyond what a duration holds, the two stages pass the same pair again once the nonce is forgotten |

## Left out

- Decimal strings and float64: meters are exact reals, and a quantity that does not parse (the code skips it, refuses it or reads it as 0) does not occur; rounding, NaN and infinite meters are not modelled. Budget limits in passports keep unset, malformed and NaN apart; infinities are left out there.
- Meters in `budget.tla` range over naturals bounded by Total; here over non-negative reals, so an action's amount need not be whole.
- `Budget.Leased`, `Lease.Reserved` and `Lease.IssuedAt`: stored once and never maintained.
- LeaseManager.Manager.Reserve: does not model the wrap-around of the 64-bit reservation counter after 2^63 reservations.
- LeaseManager.Manager.Commit: a commit without any lease, which the Go code cannot survive, is shut out by the method's precondition; it cannot follow a successful Reserve unless the lease was replaced by none.
- BudgetAuthority.Authority.FindLease: which of two leases with one identifier is found depends on the listing's byte order, which is not modelled; well-formed ledgers have no two.
- Store failures inside a transaction, and the store's own atomicity.
- Ledger.StepConserves: creating a budget over a live one is shut out by hypothesis.
- BudgetAuthority.Authority.Sweep: stated for a sweep that no other transaction interrupts, on a store whose leases are under their own keys; interrupted sweeps are the reclaim transactions of Ledger, each of which re-reads its lease.
- OverspendCondition.OverspendAnywhereIff: stated for meters with a positive limit; a budget with a limit of zero is never leased.
- Epoch bumps do not reach held leases in the code; nothing is stated about epochs beyond acquisition.
- Namespaces of passports: identifiers are unique across them, so the store is keyed by identifier alone.
- PassportAuthority.Authority.Delegate: the token that is signed and returned, the inherited agent, policy, confirmation and epoch fields, and a revocation between its listing and its write are not modelled.
- Delegation.CheckFields: only the maximum is compared, as text, because the code compares nothing else.
- Sibling budgets that together exceed their parent's, and narrowing of distinct resources: the code checks neither.
- Stages 1 to 13: arbitrary outcomes before the budget stage, except the timestamp, nonce and signature stages, which are modelled on their own. The delegation stage runs in the same place.
- HTTP headers, bodies and response streaming; the table of statuses for denials; the remaining-budget header; reason texts.
- Ed25519, JWS (section 7.1 of RFC 7515), X.509 and JSON: functions given as parameters. That a serialisation determines the previous hash it contains is a hypothesis of the binding results.
- Order of exported receipts: keys are listed in byte order, which differs from number order once the width of the number changes, and an execution whose identifier continues another's after a slash is listed with it; the results are about number order within one execution.
- A receipt chain without a store, which hands receipts out and exports nothing.
- Parsing of query strings and timestamps: their results are inputs.
- Policy engine, OIDC, SCIM, controllers, API server, command line and deployment files: thin wrappers or straight-line checks.
