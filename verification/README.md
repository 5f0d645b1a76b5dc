# OVRFLO: a verified model of the lending client and its ledger

OVRFLO lends against vesting token streams. Lenders queue liquidity at an interest-rate tick,
borrowers pledge a stream and consume that queue, and lenders later claim their share of what the
stream and the borrower pay back. This project models the parts of the web client and of the
lending contract where money or a signature can go wrong, and proves what every input, every run or
every reachable state keeps.

**Claim All queue** (`ClaimTx`, `ClaimPlan`, `Preflight`, `QueueModel`, `QueueSafety`, `QueueRepeats`,
`QueueOutcomes`, `QueueProgress`, `QueueResume`, `QueueRefresh`, `TxQueue`).
The planner turns loose claims into one transaction per group; the preflight cache decides when the
plan may be reviewed; the queue works through it while wallets change and old promises resolve late.
`QueueModel` is the queue as a state machine in which every stretch of code between two awaits is
one step. `QueueSafety` proves what every run keeps, and `QueueRepeats` exactly when something can be
handed to the executor twice. `QueueOutcomes` says what each answer leads to. `QueueProgress` proves
that every generation ends and that an undisturbed one works off its whole list, `QueueResume` when a
resumed queue goes on and when it stops for a review, and `QueueRefresh` that a claim whose refresh
failed is only ever refreshed again. `TxQueue.Hook` is the hook itself: each of its methods takes exactly
the machine's step, and each callback keeps the queue's invariant and its history.

**Action execution** (`ActionRuntime`, `ExecutionRegistry`, `ExecutionMemory`, `ZeroFirstApprove`). `ActionRuntime`
runs the rebuild, authorise, simulate, submit, receipt, refresh protocol against an environment that
may answer, reject or switch wallet at each call; a trace records the calls. `ExecutionRegistry` is
the keyed registry around it, over every interleaving of calls and settlements, and `ExecutionMemory`
says how long it remembers a failed refresh. `ZeroFirstApprove` is the approval retry machine.

**Arithmetic of display and choice** (`Payoff`, `Router`, `Amounts`, `Digits`, `BigintCodec`,
`StreamBook`). Vesting and its inverse, optimal lender selection, exact amount text, stored values
and page walking.

**The lending contract** (`TickTree`, `PackedWord`, `LendingTape`, `Pricing`, `ProRata`, `ClaimPot`,
`LoanPager`, `ClaimDiscovery`). The packed eight-way tree refines a plain sequence. An epoch is that sequence with a
fill counter: positions and loans are two divisions of one tape. `ClaimPot` is the money side of a
loan and `LoanPager` the claim discovery view together with the client loop that pages through it;
`ClaimDiscovery` joins the two.

`Sequences`, `Text`, `Wrappers`, `Identities`, `Arithmetic` and `PrefixSums` hold shared notions.

Conventions. Integers are unbounded; where the contract checks a width (64-bit tree nodes, 128-bit
amounts) the check is part of the model. A call that reverts leaves the state alone. Answers of
wallets, nodes and clocks are parameters or arbitrary values. Addresses are text compared without
regard to case. A review is its terms, as text, with the authorizations it lists; revalidation
compares the terms and each authorization without the allowance it found.

Places where the code does not do what one would expect, each with the exact condition:

- `coverDate` reports a zero-length stream as covered before it has started (`CoverDateExact`,
  `DegenerateScheduleNotExact`).
- The amount box loses the decimal point in a locale that groups by dots (`AmountInputRoundTrip`,
  `DotLost`).
- A stored record that binds the bigint tag to a string does not come back as itself (`RoundTrip`,
  `TaggedRecordNotRestored`).
- Published depth splits into its three parts only without negative liquidity of a usable lender
  (`SelectHydratedRoute`, `NegativeLiquidityBreaksSplit`).
- `claimable + locked` is not `remaining` when the streamed figure is behind what was withdrawn
  (`BucketsConserve`, `LaggingClockBreaksBuckets`).
- A clock behind the last read loses that read on a zero-length stream past its start
  (`ClockBackHoldsIff`).
- An approval submitted while an earlier allowance is being cleared gets no fallback of its own, and
  after it only a failure ends the clearing (`RevertClearsIff`, `ClearingEndsIff`).
- A refresh retry that resolves while another run is in flight under the active key, whether it
  succeeds or fails again, makes a second run of a key possible; only a wallet change does not
  (`SecondRunPossibleIff`, `RetryCanBreakSingleFlight`, `ResetCanBreakSingleFlight`).
- Eviction goes by insertion, so a refresh that has just failed is itself forgotten exactly when 128
  or more of the entries inserted after it are retained failures (`FailureRememberedIff`,
  `FailureCanBeForgottenAtOnce`).
- A confirmation that succeeds after its generation has passed is dropped, and what it claimed can
  be handed to the executor again (`CanConfirmAgainIff`, `LateSuccessIsDropped`,
  `DroppedFromIdle`).

## Model

| member | source | states |
|---|---|---|
| QueueSafety.ConfirmedNeverRepeats | web/hooks/useTxQueue.ts:139-440 | Over every run (starts, resumes, reviews, unmounts, wallet changes, late results), a key once confirmed stays in the history and is in no transaction handed to a rebuild or the executor until the next start |
| QueueSafety.FinishedNeverRepeats | web/hooks/useTxQueue.ts:309-440 | From any state with the invariant, a key of a finished row, confirmed or skipped, stays finished and is handed to no call until the next start |
| QueueRepeats.CanConfirmAgainIff | web/hooks/useTxQueue.ts:180-440 | Without a new start, a key can be handed to the executor again in some continuation if and only if no finished row claims it |
| QueueRepeats.ConfirmFinishesIff | web/hooks/useTxQueue.ts:236-287 | A confirmation finishes what it claims exactly when it settles in its own generation with success or nothing left to claim; a late one changes no row |
| QueueRepeats.LateSuccessIsDropped | web/hooks/useTxQueue.ts:244-249 | While a confirmation is outstanding its key can be handed over a second time, and the first one's success then changes no row |
| QueueRepeats.DroppedFromIdle | web/hooks/useTxQueue.ts:180-440 | Such a queue is reached from the idle one for every transaction, wallet and key, and there the key is handed over twice and the first success is dropped |
| QueueProgress.PlanIsClaimed | web/hooks/useTxQueue.ts:139-307 | From any queue whatever, on one wallet with the invariants holding, a started plan in which each row is claimed, is gone when rebuilt, or has nothing left when confirmed ends at rest with every row confirmed or skipped accordingly, exactly the rows still there handed to the executor, once each, in plan order |
| QueueProgress.ReviewIsClaimed | web/hooks/useTxQueue.ts:413-440 | The same after an accepted review, for what is left of the reviewed plan, with all finished rows kept |
| QueueProgress.CurrentIsPlan | web/hooks/useTxQueue.ts:413-440 | A plan none of whose keys is completed is taken up as it is, in order |
| QueueResume.ResumeGoesOn | web/hooks/useTxQueue.ts:361-411 | Without a retained failure, on any wallet with the invariants holding, if what the fresh plan has for each unfinished row is that row and nothing in it is new, a resume makes exactly one call, a rebuild of the first unfinished row still listed, and none without one |
| QueueResume.ResumedPlanIsClaimed | web/hooks/useTxQueue.ts:361-411 | Such a resume then works off every remaining row as a started plan does, rows no longer listed being skipped, with all finished rows kept |
| QueueResume.ResumeStopsForReview | web/hooks/useTxQueue.ts:361-411 | Otherwise, for a plan with one transaction per group, a resume calls nothing, comes to rest, and some row shows for review what the plan has now |
| QueueRefresh.FailedRefreshIsOnlyRetried | web/hooks/useTxQueue.ts:250-253 | Over every continuation of a live confirmation that ended in a failed refresh, until a start, an accepted review or a successful retry, no transaction is handed to anyone, and a resume with the invariants holding calls exactly a refresh retry of that row |
| QueueRefresh.ResumeRetries | web/hooks/useTxQueue.ts:320-340 | A resume with a retained failure makes that one call and marks that one row |
| QueueRefresh.ResumePauses | web/hooks/useTxQueue.ts:320-328 | With the invariants broken it pauses at that row, with the reason, and still retains the failure |
| QueueOutcomes.RebuildOutcomes | web/hooks/useTxQueue.ts:207-243 | What a live rebuild leads to for each answer: the row shown failed, skipped with the queue going on, or for review with the new transaction; handed to the executor, or paused with the reason the guard gives |
| QueueOutcomes.ConfirmOutcomes | web/hooks/useTxQueue.ts:244-289 | What a live confirmation leads to for each answer: which status its row shows, whether the refresh failure is retained, which of chain and account is blamed, and that success or nothing left goes on with the next unfinished row |
| QueueOutcomes.RetryOutcomes | web/hooks/useTxQueue.ts:336-359 | What a live refresh retry leads to: success confirms the row, lets go of the failure and goes on with the next unfinished row; nothing else lets go of it |
| QueueOutcomes.StartOutcome | web/hooks/useTxQueue.ts:290-307 | Starting lists the plan afresh for the current wallet and takes up its first row, or pauses there |
| QueueOutcomes.AcceptOutcome | web/hooks/useTxQueue.ts:413-440 | Accepting a review keeps what is finished and takes up what is left of the plan, or comes to rest |
| QueueOutcomes.NothingToBegin | web/hooks/useTxQueue.ts:290-440 | Without a wallet no callback does anything, nor does starting on an empty plan |
| QueueProgress.GenerationEnds | web/hooks/useTxQueue.ts:139-307 | However promises settle and wallets change, until a callback is invoked at most two live results per row move the queue, and after that many nothing outstanding can |
| QueueSafety.EveryCallGuarded | web/hooks/useTxQueue.ts:169-289 | Every call of every run is made while the current wallet is the queue's owner and the invariants are ready, for a row with only finished rows before it and only waiting or skipped rows after it |
| QueueSafety.StaleContinuationIsInert | web/hooks/useTxQueue.ts:207-244 | A result that belongs to an older generation changes no row and causes no call |
| QueueSafety.ResumeLosesNothing | web/hooks/useTxQueue.ts:309-411 | Without a retained refresh failure, resuming keeps every uncompleted key of the fresh plan in some row, leaves to be executed only what the fresh plan lists, and calls nothing but a rebuild of such a row |
| QueueSafety.ResumeOnlyRetries | web/hooks/useTxQueue.ts:320-359 | With a retained refresh failure, resuming makes at most one call, a refresh retry of that row, and touches no other row |
| QueueSafety.ResumeCovers | web/hooks/useTxQueue.ts:361-402 | Each uncompleted key of a plan is covered by a reconciled row's transaction or its replacement |
| QueueSafety.WaitingIsReviewed | web/lib/claim-all.ts:421-429 | A row left pending by reconciliation equals, address spelling aside, what the fresh plan lists for its group |
| QueueSafety.RunningIsHonest | web/hooks/useTxQueue.ts:180-440 | While mounted, the queue says it is running exactly when a live continuation is at work on it |
| QueueSafety.RunKeeps | web/hooks/useTxQueue.ts:139-445 | The queue's invariant (keys apart, one active row, every call guarded) holds after every run fed with one-transaction-per-group plans |
| QueueSafety.RunContinues | web/hooks/useTxQueue.ts:309-440 | Without a new start, everything confirmed or skipped stays so, calls are only added, and each was made with that history in place |
| QueueSafety.StepKeeps | web/hooks/useTxQueue.ts:139-445 | Each single event keeps the queue's invariant |
| TxQueue.Hook.constructor | web/hooks/useTxQueue.ts:107-127 | A new hook is the machine's idle queue and satisfies the invariant |
| TxQueue.Hook.UpdateRow | web/hooks/useTxQueue.ts:139-157 | Only the named, unconfirmed row changes |
| TxQueue.Hook.PauseAt | web/hooks/useTxQueue.ts:159-167 | Pausing takes the machine's pause step |
| TxQueue.Hook.InvariantNow | web/hooks/useTxQueue.ts:169-178 | The guard holds if and only if the outside invariants hold and the current wallet is the queue's owner; otherwise it names the chain before the account |
| TxQueue.Hook.ProcessAt | web/hooks/useTxQueue.ts:180-206 | Processing from a row takes the machine's step up to the next await |
| TxQueue.Hook.Start | web/hooks/useTxQueue.ts:292-307 | Starting takes the machine's start step, keeping the invariant; without a plan or a wallet nothing is lost |
| TxQueue.Hook.Resume | web/hooks/useTxQueue.ts:309-411 | Resuming takes the machine's resume step, keeping the invariant, the history and the honesty of the running flag |
| TxQueue.Hook.ResumeRefresh | web/hooks/useTxQueue.ts:320-331 | The retained-failure branch takes the machine's step up to its await |
| TxQueue.Hook.ReconcileRows | web/hooks/useTxQueue.ts:371-395 | The first loop yields the machine's reconciled rows, the groups matched and whether a review is due |
| TxQueue.Hook.AddUnmatched | web/hooks/useTxQueue.ts:396-400 | The second loop adds exactly the plan's unmatched transactions, for review |
| TxQueue.Hook.AcceptReview | web/hooks/useTxQueue.ts:413-440 | Accepting a reviewed plan takes the machine's step, keeping the invariant, the history and the honesty of the running flag |
| TxQueue.Hook.OnRebuild | web/hooks/useTxQueue.ts:207-236 | The continuation of a rebuild, whenever it resolves, takes the machine's step, keeping the invariant, the history and the honesty of the running flag |
| TxQueue.Hook.OnConfirm | web/hooks/useTxQueue.ts:237-287 | The continuation of a confirmation, whenever it resolves, takes the machine's step, keeping the invariant, the history and the honesty of the running flag |
| TxQueue.Hook.OnRetry | web/hooks/useTxQueue.ts:332-356 | The continuation of a refresh retry, whenever it resolves, takes the machine's step, keeping the invariant, the history and the honesty of the running flag |
| TxQueue.Hook.Unmount | web/hooks/useTxQueue.ts:442-445 | After unmounting every outstanding continuation belongs to an older generation, and no history is lost |
| TxQueue.Hook.Render | web/hooks/useTxQueue.ts:110-111 | A render replaces the wallet the hook sees, keeping the invariant, the history and the honesty of the running flag |
| ClaimTx.WithoutCompleted | web/hooks/useTxQueue.ts:82-96 | What remains of a transaction covers exactly its uncompleted keys, in the same group; nothing remains only if all are completed |
| ClaimTx.StrikesOnlyClaims | web/hooks/useTxQueue.ts:82-96 | What remains differs only in the claims struck out: same contract and asset, surviving claims for their amounts in order, a stream claim whole; nothing remains exactly when all keys are completed |
| ClaimTx.NothingStruck | web/hooks/useTxQueue.ts:82-96 | A transaction none of whose keys is completed is left as it is |
| ClaimTx.KeysShareGroup | web/hooks/useTxQueue.ts:68-80 | All coverage keys of a transaction belong to its group |
| ClaimTx.SameTxSameKeys | web/lib/claim-all.ts:402-406 | Transactions equal up to spelling cover the same keys in the same group |
| ClaimTx.SameTxIff | web/lib/claim-all.ts:402-406 | Two transactions compare equal exactly when every field agrees, letter case of addresses aside |
| ClaimTx.OnePerGroupDisjoint | web/hooks/useTxQueue.ts:68-80 | A plan with one transaction per group never covers a key twice |
| ClaimPlan.PlanClaimAll | web/lib/claim-all.ts:57-106 | Planning throws exactly on inconsistent pools; otherwise, for distinct stream ids, the result is the plan the relational specification describes |
| ClaimPlan.GroupByLending | web/lib/claim-all.ts:58-82 | Grouping fails only on inconsistent pools and otherwise holds each positive claim once under its lending contract |
| ClaimPlan.PlanIgnoresOrder | web/lib/claim-all.ts:408-419 | Inputs with the same claims in any order or repetition have plans equal under the plan comparison |
| ClaimPlan.FailureIgnoresOrder | web/lib/claim-all.ts:70-79 | Permuted inputs are both planned or both refused |
| ClaimPlan.PlanInBothOrders | web/lib/claim-all.ts:57-106 | Planning two permutations of one input: both are refused or neither, exactly on inconsistent pools, and with distinct stream ids both results are plans of their input and compare equal |
| ClaimPlan.StreamsDistinctAnyOrder | web/lib/claim-all.ts:99-105 | Distinct ids among positive streams stay distinct under any permutation |
| ClaimPlan.PlanCoversInput | web/lib/claim-all.ts:242-253 | The plan's keys are exactly the candidates of the input |
| ClaimPlan.PlanIsOnePerGroup | web/lib/claim-all.ts:84-105 | Every plan has one transaction per group and disjoint keys, as the queue needs |
| ClaimPlan.EachClaimOnce | web/lib/claim-all.ts:73-81 | Each positive pool claim appears in one transaction, once, for its amount |
| ClaimPlan.EachStreamOnce | web/lib/claim-all.ts:95-104 | Each positive stream is claimed by one transaction, for its whole amount and in its asset |
| Preflight.MergePreflightCache | web/lib/claim-all.ts:191-222 | The loop over sources computes the merge that the session theorems speak of |
| Preflight.SessionIsEffective | web/lib/claim-all.ts:186-222 | After any session of attempts, each source holds exactly what the current unbroken run of one wallet and block supports |
| Preflight.CurrentRunIsSuffix | web/lib/claim-all.ts:195-199 | The current run is the longest suffix of attempts for one wallet and block |
| Preflight.CachedOutcomeHasSource | web/lib/claim-all.ts:195-221 | Every cached outcome was read by an attempt for the current wallet and block, with no change since |
| Preflight.FreshStaysFresh | web/lib/claim-all.ts:207-214 | Within a run a fresh source other than the verifier never stops being fresh |
| Preflight.SameCandidatesIffSameSet | web/lib/claim-all.ts:224-240 | Comparing deduplicated sorted lists decides equality of sets |
| Preflight.CanReviewIff | web/lib/claim-all.ts:309-395 | Review opens exactly when all four sources are fresh and pinned to the target, and verifier and hydration each equal markets and streams together, as sets |
| Preflight.VerdictIff | web/lib/claim-all.ts:309-395 | Each other verdict exactly: the first of verifier, primaries and hydration not fresh, loading while it is being read and blocked otherwise; then a source off the target block; then a disagreeing verifier; then a disagreeing hydration |
| Preflight.ReviewedCandidates | web/lib/claim-all.ts:370-394 | The candidates shown for review are those the verifier found |
| ActionRuntime.RunActionExecution | web/lib/action-runtime.ts:156-315 | Over every behaviour of the environment the loop ends, the trace is disciplined, the verdict is explained by the trace, and the calls are bounded by the authorization keys attempted |
| ActionRuntime.CurrentOrConnectedIdentity | web/lib/action-runtime.ts:104-113 | At most an identity read and a connect, no prompt and no write, and any stop is explained by what was answered |
| ActionRuntime.RebuildAccepted | web/lib/action-runtime.ts:122-147 | Exactly one rebuild; a draft goes on exactly when it is for the accepted wallet, its terms are the accepted ones and its authorizations match the accepted ones one for one; any stop is explained |
| ActionRuntime.MaterialIffUnchanged | web/lib/actions/registry.ts:66-119 | Revalidation accepts exactly when the terms are equal and the authorizations agree, place by place, in kind, token, spender and amounts or token id |
| ActionRuntime.AuthorizeOne | web/lib/action-runtime.ts:200-240 | One prompt, for the first open authorization, adds at most one new key and keeps the trace disciplined |
| ActionRuntime.AuthorizeAndRebuild | web/lib/action-runtime.ts:184-259 | One round of the loop ends with a draft that revalidated after the prompt and a wallet seen on the accepted identity, or with an explained stop |
| ActionRuntime.SimulateAndSubmit | web/lib/action-runtime.ts:262-290 | What is submitted is what the simulation of the newest draft returned, after a fresh identity check |
| ActionRuntime.Confirm | web/lib/action-runtime.ts:292-314 | Success and refresh failure both rest on a successful receipt for the submitted hash |
| ActionRuntime.RetryCriticalRefresh | web/lib/action-runtime.ts:317-347 | A retry never prompts or writes, and keeps hash, receipt, draft and identity whenever it reports success or another refresh failure |
| ActionRuntime.SubmitsAtMostOnce | web/lib/action-runtime.ts:280-315 | Every disciplined trace writes at most once, and only receipt and refresh follow |
| ActionRuntime.SubmitIsReviewed | web/lib/action-runtime.ts:262-290 | Every write follows directly on an identity check that saw the accepted chain and account and signs what the last simulation returned for the newest draft, whose terms and authorizations are those of the accepted review, one for one, all satisfied |
| ActionRuntime.AuthorizeIsReviewed | web/lib/action-runtime.ts:200-213 | Every authorization prompt follows directly on such a check, with the newest draft unchanged from the accepted review, asks for the first authorization that draft lacks, and is for one the accepted review lists |
| ActionRuntime.ChangedRebuildEnds | web/lib/action-runtime.ts:122-147 | A rebuild for the accepted wallet that differs in terms or in any authorization is the last call of its run, and the verdict hands that draft back for review |
| ActionRuntime.VerdictIsDetermined | web/lib/action-runtime.ts:156-315 | The calls and their answers admit only one verdict |
| ActionRuntime.AttemptsDistinct | web/lib/action-runtime.ts:182-198 | No authorization key is attempted twice |
| ActionRuntime.AttemptsBounded | web/lib/action-runtime.ts:182-198 | Keys drawn from a finite set bound the number of attempts |
| ActionRuntime.AttemptsWithinReview | web/lib/actions/registry.ts:85-119 | No run prompts more often than the accepted review lists authorizations, nor for anything it did not list |
| ActionRuntime.OpenKeyIsReviewed | web/lib/actions/registry.ts:66-95 | A draft that revalidates asks only for authorizations the accepted review listed |
| ActionRuntime.VerdictTellsSubmission | web/lib/action-runtime.ts:156-315 | Verdicts before signing imply no write; success, refresh failure and revert imply one; success and refresh failure imply a successful receipt of the submitted hash |
| ExecutionRegistry.NeverTwoInFlight | web/hooks/useTransactionExecutor.ts:37-60 | Over every interleaving whose retries resolve apart from runs, each key has at most one unsettled run |
| ExecutionRegistry.SecondRunPossibleIff | web/hooks/useTransactionExecutor.ts:37-130 | After a retry resolves, some later interleaving of confirmations, settlements, resets and retries apart from runs puts two runs of one key in flight, if and only if the retry wrote the registry (it succeeded or failed again) while a run was in flight under the active key |
| ExecutionRegistry.SecondRunIff | web/hooks/useTransactionExecutor.ts:92-118 | The one-step case: the very next confirmation of the active key starts a second run if and only if the retry succeeded while a run was in flight under it |
| ExecutionRegistry.RunKeeps | web/hooks/useTransactionExecutor.ts:37-130 | From any state with registry and runs in step, every interleaving whose retries resolve apart from runs keeps them in step and each key at one unsettled run |
| ExecutionRegistry.ConfirmStartsIff | web/hooks/useTransactionExecutor.ts:37-60 | Confirming starts exactly one run when the key has no entry, and otherwise changes nothing |
| ExecutionRegistry.SuccessFreesKey | web/hooks/useTransactionExecutor.ts:46-56 | A run that ends well removes its key, and the next confirmation of it starts a new run |
| ExecutionRegistry.RetryCanBreakSingleFlight | web/hooks/useTransactionExecutor.ts:92-118 | It can happen: a refresh fails, another key is confirmed, the first one's retry succeeds, and confirming again starts a second run |
| ExecutionRegistry.ResetCanBreakSingleFlight | web/hooks/useTransactionExecutor.ts:92-130 | So can a retry that fails again: it hides the run in flight, a reset removes what hid it, and confirming again starts a second run |
| ExecutionRegistry.FailureRememberedIff | web/hooks/useTransactionExecutor.ts:24-56 | In every state with the invariant, within the bound or past it, a refresh that just failed is remembered if and only if fewer than 128 failures inserted after it are retained |
| ExecutionMemory.FailureCanBeForgottenAtOnce | web/hooks/useTransactionExecutor.ts:24-56 | From the empty registry, a run that outlasts 128 later ones which all failed their refresh is forgotten the moment its own fails |
| ExecutionMemory.NotRunAgainUnlessEvicted | web/hooks/useTransactionExecutor.ts:21-60 | Over every interleaving of confirmations and settlements, a key that ended in a failed refresh is remembered and has no run in flight, unless at some settlement it was the oldest failure of a full registry |
| ExecutionMemory.FailedIsNotRunAgain | web/hooks/useTransactionExecutor.ts:21-130 | The same with retries and resets: confirming such a key starts nothing until an event evicts it, resets it or refreshes it at last |
| ExecutionMemory.StepMemory | web/hooks/useTransactionExecutor.ts:24-130 | Each event forgets a remembered key exactly when it evicts it, resets it or refreshes it at last |
| ExecutionRegistry.FailureForgetsIff | web/hooks/useTransactionExecutor.ts:24-56 | When a run settles with a failed refresh, a remembered failure stays if and only if at most 128 are retained from it on, the failing run included when it was inserted later |
| ExecutionRegistry.SuccessForgetsIff | web/hooks/useTransactionExecutor.ts:24-54 | When a run settles otherwise, a remembered failure stays if and only if at most 128 are retained from it on; so within the bound none is lost |
| ExecutionRegistry.EvictionInOrder | web/hooks/useTransactionExecutor.ts:29-34 | Eviction removes exactly the first retained entries, in insertion order |
| ExecutionRegistry.DropKeeps | web/hooks/useTransactionExecutor.ts:29-34 | Eviction never removes a pending entry and adds none |
| ExecutionRegistry.TrimBounds | web/hooks/useTransactionExecutor.ts:22-35 | After trimming at most 128 failures are retained |
| ExecutionRegistry.BoundAlwaysHolds | web/hooks/useTransactionExecutor.ts:24-118 | Over every interleaving whose retries resolve apart from runs, at most 128 failures are retained, plus the retries that failed again since a run last settled |
| ExecutionRegistry.ExecuteKeeps | web/hooks/useTransactionExecutor.ts:37-60 | Executing keeps registry and runs in step |
| ExecutionRegistry.SettleKeeps | web/hooks/useTransactionExecutor.ts:46-56 | Settling keeps them in step and restores the bound |
| ExecutionRegistry.ResetKeeps | web/hooks/useTransactionExecutor.ts:120-130 | Resetting keeps them in step |
| ExecutionRegistry.Registry.TrimRegistry | web/hooks/useTransactionExecutor.ts:24-35 | The in-place loop computes the trimmed registry |
| ExecutionRegistry.Registry.ExecuteOnce | web/hooks/useTransactionExecutor.ts:37-60 | Calling it takes the machine's execute step |
| ExecutionRegistry.Registry.OnSettled | web/hooks/useTransactionExecutor.ts:46-56 | A settlement takes the machine's settle step |
| ZeroFirstApprove.AtMostThreeWrites | web/hooks/useZeroFirstApprove.ts:57-132 | In every run a submission sends at most the amount, zero and the same amount again, for its own token and spender, and zero only on an observed revert with non-zero allowance and amount |
| ZeroFirstApprove.FallbackHappensOnce | web/hooks/useZeroFirstApprove.ts:67-132 | A submission that has used its fallback sends nothing more |
| ZeroFirstApprove.RevertClearsIff | web/hooks/useZeroFirstApprove.ts:109-132 | A submission whose approval is seen to revert sends zero next if and only if allowance and amount are non-zero and no earlier clearing is under way |
| ZeroFirstApprove.OtherwiseOneWrite | web/hooks/useZeroFirstApprove.ts:98-124 | A confirmation, or a failure that is no revert, leaves it at one approval and ends the attempt |
| ZeroFirstApprove.FallbackCompletes | web/hooks/useZeroFirstApprove.ts:67-96 | After the revert, a settled flow and a confirmation give exactly amount, zero, amount; a failed clearing sends nothing more |
| ZeroFirstApprove.UnsettledWaits | web/hooks/useZeroFirstApprove.ts:68-76 | Until the flow has shown itself idle, no outcome is taken for that of the clearing |
| ZeroFirstApprove.ClearingEndsIff | web/hooks/useZeroFirstApprove.ts:57-96 | A clearing ends exactly on a settled failure, or a settled confirmation with an amount still to approve, which any submission meanwhile drops |
| ZeroFirstApprove.StepKeeps | web/hooks/useZeroFirstApprove.ts:57-132 | Every submission and every observation keeps the machine's invariant |
| ZeroFirstApprove.Hook.SubmitApproval | web/hooks/useZeroFirstApprove.ts:57-65 | Submitting takes the machine's step, keeps the invariant, and leaves earlier submissions as they were |
| ZeroFirstApprove.Hook.Effect | web/hooks/useZeroFirstApprove.ts:67-132 | The effect takes the machine's step, keeps the invariant, and sends at most one approval, none for a submission that has sent three |
| Payoff.CoverDateExact | web/lib/payoff.ts:55-79 | For a positive debt the answer is exact (covered iff reached now, projected iff the least later time, uncovered iff never) if and only if the schedule is proper, or has started, or the debt exceeds what remains |
| Payoff.CoverDateClosedForm | web/lib/payoff.ts:67-78 | On a proper schedule the ceiling date decides alone: neither fallback is ever taken |
| Payoff.DegenerateScheduleNotExact | web/lib/payoff.ts:63-65 | A zero-length stream is called covered before it starts |
| Payoff.CoverDateMonotone | web/lib/payoff.ts:55-79 | A larger debt is never covered earlier |
| Payoff.RepayNeverLater | web/lib/payoff.ts:81-93 | A repay of any size never moves the cover date later, and a full one covers at once |
| Payoff.RepayPreviewExact | web/lib/payoff.ts:81-93 | The date shown after a repay is exact for the debt it leaves, under the same condition as any cover date; a repay of nothing changes nothing |
| Payoff.StreamedMonotone | web/lib/payoff.ts:29-40 | The streamed amount never falls and never exceeds the cap |
| Payoff.StreamedIsLinear | web/lib/payoff.ts:29-40 | Nothing until the start, all from the end on, and in between the elapsed share of the deposit to within one unit, cut at the cap |
| Payoff.StreamedReaches | web/lib/payoff.ts:36-68 | An amount is streamed exactly from its ceiling date on, through both roundings |
| Payoff.CountdownClosedForm | web/lib/payoff.ts:95-108 | The countdown is the last debt less what has streamed since, floored at zero |
| Payoff.CountdownPathIndependent | web/lib/payoff.ts:95-108 | Refreshing on the way changes nothing, despite clamps and floors |
| Payoff.CountdownNonIncreasing | web/lib/payoff.ts:95-108 | The countdown never rises and never exceeds the last debt |
| Payoff.CountdownMeetsCoverDate | web/lib/payoff.ts:55-108 | With everything vested already withdrawn, the countdown is zero exactly from the projected cover date on |
| Payoff.InterpolatedWithinCap | web/lib/payoff.ts:42-53 | The interpolated amount, held reads included, never exceeds the cap |
| Payoff.ClockBackHoldsIff | web/lib/payoff.ts:42-53 | A clock behind the last read shows the curve at that read, if and only if the schedule is not degenerate and read past its start |
| Payoff.ClaimablePays | web/lib/payoff.ts:132-142 | The claimable bucket covers a debt exactly when the cover date says the stream pays it now |
| Payoff.BucketsConserve | web/lib/lending-math.ts:63-77 | Claimable plus locked is what remains if and only if the streamed figure is not behind what was withdrawn, or nothing is left to lock |
| Payoff.LaggingClockBreaksBuckets | web/lib/lending-math.ts:63-77 | Half withdrawn while a tenth counts as streamed: the buckets add up to 90 of a remaining 50 |
| Router.SelectHydratedRoute | web/lib/router.ts:59-128 | Throws exactly on a bad limit, reports failed conservation exactly when depths differ; otherwise ready iff some allowed set covers the target, with the fewest members. Always selects the largest usable positions, smaller ids first among equals; short of the target all of the executable depth, called fragmented exactly when more positions would draw more. Executable depth is the most within the limit, executable and fragmented the most without one, self-excluded the sum of own positions, and the three split the published depth iff no usable lender is negative |
| Router.TakeUntil | web/lib/router.ts:101-107 | The selection is the shortest ranked prefix that reaches the target |
| Router.ExecutableMaximal | web/lib/router.ts:97-98 | No allowed set of lenders within the limit has more depth than the executable depth |
| Router.RankedIsMost | web/lib/router.ts:83-100 | All usable positions together draw the most any set without own supply can |
| Router.MoreIffDeeper | web/lib/router.ts:99-118 | More positions would draw more exactly when that exceeds the executable depth |
| Router.PrefixRankedFirst | web/lib/router.ts:90-97 | A ranked prefix leaves no larger position behind, and no equal one with a smaller id |
| Router.GreedyOptimal | web/lib/router.ts:83-118 | The shortest covering ranked prefix is optimal among all covering sets (exchange argument) |
| Router.NoShorterRoute | web/lib/router.ts:101-107 | No covering set has fewer members than the greedy choice |
| Router.DepthSplits | web/lib/router.ts:75-100 | Own and usable depth make up the whole exactly when no other lender is negative |
| Router.NegativeLiquidityBreaksSplit | web/lib/router.ts:75-100 | One lender with a negative amount: the depth is negative and its parts are zero |
| Amounts.ParseFormat | web/lib/units.ts:124-149 | Formatting succeeds exactly for 0 to 77 decimals, and parsing what was formatted gives the amount back |
| Amounts.FormatParse | web/lib/units.ts:124-149 | Formatting what was parsed restores the text with its fraction padded |
| Amounts.ParsesText | web/lib/units.ts:135-149 | Every canonical text is worth its whole part in tokens plus its fraction in parts of one, and is refused exactly when it has more digits than decimals or these are out of range |
| Amounts.AmountInputRoundTrip | web/components/borrow/quote.ts:433-440 | The amount put into the box parses back to itself if and only if the locale does not group by dots or the amount is whole |
| Amounts.ReadsLocaleText | web/lib/parse.ts:106-133 | Any amount written with the locale's separators, grouped in any way and with blanks around, reads for what it is worth, and is refused only for too many digits |
| Amounts.EmptyOrNegativeIff | web/lib/parse.ts:106-116 | Exactly blank text is called empty, and exactly text that leads with a minus negative |
| Amounts.DotLost | web/lib/parse.ts:117-133 | Under dot grouping every fractional amount reads back wrong or not at all |
| BigintCodec.RoundTrip | web/lib/parse.ts:135-161 | A stored tree comes back unchanged if and only if no record at any depth binds the tag key to a string |
| BigintCodec.EncodedIsPlain | web/lib/parse.ts:135-142 | Encoding leaves no bigint anywhere, and leaves alone what had none |
| BigintCodec.IntTextIs | web/lib/parse.ts:137-139 | The stored text is the digits of the magnitude, with a minus exactly for negative numbers |
| BigintCodec.TaggedRecordNotRestored | web/lib/parse.ts:147-156 | A record with digits under the tag comes back as a bigint, and one with other text there is refused |
| BigintCodec.IntTextRoundTrip | web/lib/parse.ts:137-153 | Every integer's text matches the tag pattern and reads back as the integer |
| StreamBook.WalkRestores | web/lib/stream-book.ts:14-31 | Walking the windows from zero reads the whole source once, in order, without gap or overlap |
| StreamBook.WalkIsConsecutive | web/lib/stream-book.ts:14-31 | Each window begins where the previous one stopped, and the last stops at the count |
| StreamBook.FoldStreamIds | web/lib/stream-book.ts:47-66 | Folding keeps every id in order, and the duplicate is absent iff all ids differ, else the id whose repeat comes first |
| StreamBook.FoldPage | web/lib/stream-book.ts:53-63 | Adding a page keeps the list whole and the duplicate the earliest |
| TickTree.Tree.constructor | src/TickTree.sol:35-39 | An untouched tree stands for the empty sequence |
| TickTree.Tree.Append | src/TickTree.sol:49-61 | Appends at the end of the sequence the tree stands for and returns its index, or refuses exactly at 8^7 leaves or when the total would pass 64 bits, leaving the storage as it was |
| TickTree.AppendTakenIff | src/TickTree.sol:49-61 | A leaf is taken exactly while there are fewer than 2,097,152 and the sum stays below 2^64 |
| TickTree.Tree.SetLeaf | src/TickTree.sol:70-75 | Replaces one member of the sequence, or refuses exactly for a missing leaf or a total past 64 bits, leaving the storage as it was |
| TickTree.SetTakenIff | src/TickTree.sol:70-75 | An existing leaf can be set exactly when the sum of all stays below 2^64 |
| TickTree.Tree.Prefix | src/TickTree.sol:83-94 | The base-8 digit walk returns the sum of all leaves before the index |
| TickTree.Tree.Leaf | src/TickTree.sol:100-103 | Returns the member at the index, or reports it missing |
| TickTree.Tree.Root | src/TickTree.sol:110-113 | The top segment sums to all leaves |
| TickTree.Tree.Grow | src/TickTree.sol:125-130 | Adding a level leaves the sequence as it was |
| TickTree.Tree.ReplaceLeaf | src/TickTree.sol:133-152 | One write per level re-establishes every subtotal, and only the root check can refuse |
| TickTree.Tree.UpdateAncestors | src/TickTree.sol:140-151 | After the loop every node of every level is again the sum of its leaves |
| TickTree.Tree.SumNodes | src/TickTree.sol:155-170 | Two words read field by field give the sum of up to eight nodes |
| TickTree.Tree.SumPacked | src/TickTree.sol:173-177 | The loop adds the lowest fields of a word |
| TickTree.Tree.ReadNode | src/TickTree.sol:180-184 | Reads the node stored at a level and index |
| TickTree.Tree.StoreNode | src/TickTree.sol:187-194 | Writes one node and no other |
| PackedWord.FieldOfPut | src/TickTree.sol:187-194 | A field written into a word is read back and its three neighbours are untouched |
| TickTree.LevelUpdated | src/TickTree.sol:141-151 | A leaf's change moves exactly one node of each level, by the same difference, within 64 bits |
| TickTree.PrecedingSiblings | src/TickTree.sol:88-92 | The preceding siblings of a node sum the leaves between its segment's start and its own |
| TickTree.Grown | src/TickTree.sol:125-130 | Copying the old root into the new level's first node makes a taller tree for the same sequence |
| LendingTape.FrozenHistory | src/OVRFLOLending.sol:756-773 | Whatever is later supplied, withdrawn or borrowed, a loan keeps its stretch, every position keeps its contribution to it, and newer positions contribute nothing |
| LendingTape.LoanFullyFunded | src/OVRFLOLending.sol:960-985 | In every reachable epoch the contributions to a loan add up to the loan |
| LendingTape.HistoryIsContributions | src/OVRFLOLending.sol:453-458 | A position's consumed part is the sum of its contributions to all loans |
| LendingTape.EscrowCovers | src/OVRFLOLending.sol:408-470 | Over every run, underlying taken in less what was paid out is what all lenders together could still withdraw |
| LendingTape.HistoryNeverShrinks | src/OVRFLOLending.sol:441-463 | The consumed part of a position never falls |
| LendingTape.SupplyThenWithdraw | src/OVRFLOLending.sol:408-470 | Supplying and withdrawing before a fill refunds everything and moves nobody |
| LendingTape.WithdrawIsFinal | src/OVRFLOLending.sol:446-470 | A withdrawal leaves that position nothing to withdraw and every other position exactly what it had |
| LendingTape.RunFreezes | src/OVRFLOLending.sol:441-445 | Over every run no coordinate below the fill counter moves and loans are only added |
| LendingTape.RunKeeps | src/OVRFLOLending.sol:408-470 | Every reachable epoch has its loans tiling the consumed part, within the supplied total |
| LendingTape.InflowMatches | src/OVRFLOLending.sol:426-467 | Each call changes the available depth by exactly the underlying it moves |
| LendingTape.FirstInFirstLent | src/OVRFLOLending.sol:1175-1182 | First in, first lent: a borrow takes from each position what all earlier ones could not give |
| LendingTape.Epoch.Supply | src/OVRFLOLending.sol:416-426 | Supplying to the tree takes the tape's step and refuses exactly when the tree must |
| LendingTape.Epoch.SupplyAmount | src/OVRFLOLending.sol:408-426 | An amount becomes a position of exactly that amount, or is refused as zero, unaligned or too small, in that order, or by the tree, changing nothing |
| LendingTape.Epoch.Withdraw | src/OVRFLOLending.sol:446-470 | Refunds exactly the unfilled part and takes the tape's step, or reports nothing to withdraw |
| LendingTape.Epoch.Consume | src/OVRFLOLending.sol:1175-1182 | A sized fill takes the tape's borrow step and numbers the loan next |
| LendingTape.Epoch.AvailableUnits | src/OVRFLOLending.sol:998-999 | Root less filled is the depth of the tape |
| LendingTape.Epoch.OverlapUnits | src/OVRFLOLending.sol:963-985 | The overlap computed from the tree is the position's contribution, and none is reported as such |
| Pricing.GrossPriceIsTheCap | src/StreamPricing.sol:103-127 | The obligation fits in the stream if and only if the borrow is within the gross price, through floor and ceiling |
| Pricing.ObligationWithinStream | src/StreamPricing.sol:114-151 | Within the gross price a fill owes at least what it advances and at most what the stream still pays |
| Pricing.ObligationMonotone | src/StreamPricing.sol:140-151 | Borrowing more never owes less, the jump to the whole stream at the price included |
| Pricing.FactorIsLinear | src/StreamPricing.sol:93-101 | The factor is one plus the annual rate's share of the time to within one unit: one at maturity, the annual rate over a year, and never less for more rate or time |
| Pricing.ObligationIsInterest | src/StreamPricing.sol:114-151 | A loan owes its principal times the factor, rounded up by less than one unit, and exactly the whole stream at the gross price |
| Pricing.PriceFalls | src/StreamPricing.sol:103-112 | A higher rate or longer wait never raises the price, which is never above face and is face at maturity |
| Pricing.FeeWithin | src/StreamPricing.sol:153-160 | The fee is the rate's share rounded down by less than one unit, and never exceeds the amount |
| Pricing.SizeFill | src/OVRFLOLending.sol:1135-1173 | The fill is the largest that target, depth and price allow, is accepted by the tape and covered by the stream, with a fee within the principal; it is refused only when empty or when no fill reaches the minimum |
| ProRata.SharesOfWhole | src/OVRFLOLending.sol:685-696 | Floored shares of a whole never exceed it and lose less than one unit a contributor |
| ProRata.UnpaidCovered | src/OVRFLOLending.sol:685-696 | If nobody was paid beyond their share, what was not paid covers anybody's unpaid share |
| ClaimPot.ClaimPaysInFull | src/OVRFLOLending.sol:727-738 | In every reachable loan a claim is paid the lesser of what it asks and what it is owed, whoever claimed before |
| ClaimPot.ClaimOrderIrrelevant | src/OVRFLOLending.sol:694-696 | After any claims in any order, claiming everything brings a contributor to the same total |
| ClaimPot.MaxClaimSettles | src/OVRFLOLending.sol:702-742 | Claiming everything brings a contributor to exactly its entitlement |
| ClaimPot.ClaimReaches | src/OVRFLOLending.sol:703-742 | Claiming everything brings a contributor of an open loan to its floored share of what was repaid, drawn and is withdrawable, up to the obligation, and of a closed one to its share of the obligation |
| ClaimPot.ClaimFromHistory | src/OVRFLOLending.sol:633-750 | After any run, claiming everything brings a contributor to its floored share of all that was repaid and vested, up to the obligation, whoever claimed what |
| ClaimPot.SoleContributorPaid | src/OVRFLOLending.sol:633-750 | A sole contributor of a new loan is paid in all exactly what was repaid and vested, up to the obligation |
| ClaimPot.PartialClaim | src/OVRFLOLending.sol:726-742 | A claim pays the lesser of what it asks and what a claim for everything would, moves nobody else's total, and changes nobody's final total |
| ClaimPot.RecoveredNeverFalls | src/OVRFLOLending.sol:720-725 | No call lowers the recovered value, and no claim changes it |
| ClaimPot.StepKeeps | src/OVRFLOLending.sol:633-750 | Every accrual, repay, close and claim keeps the books balanced and nobody beyond their share |
| ClaimPot.StepConserves | src/OVRFLOLending.sol:641-744 | The pot and all payouts always add up to what was drawn and repaid |
| ClaimPot.DustIsBounded | src/OVRFLOLending.sol:695-696 | Once everyone is paid out of a closed loan, less than one unit a contributor is stranded |
| ClaimPot.VestedLoanCloses | src/OVRFLOLending.sol:654-683 | Once the stream has vested the obligation, an open loan can be closed, whatever was repaid or claimed on the way |
| ClaimPot.ClosesInFull | src/OVRFLOLending.sol:633-683 | A loan closes only with its obligation recovered, and stays closed |
| ClaimPot.RepayClosesIff | src/OVRFLOLending.sol:637-646 | A repay reduces the outstanding by its amount and closes the loan exactly when nothing is left |
| ClaimPot.RepayTaken | src/OVRFLOLending.sol:633-652 | An open loan takes every repayment up to what is outstanding, all of it into the pot, and no other |
| ClaimPot.ClaimableIsPaid | src/OVRFLOLending.sol:1062-1079 | The claimable figure shown is exactly what a claim for everything pays |
| ClaimPot.FundingIsFrozen | src/OVRFLOLending.sol:756-773 | A loan's funding adds up to the loan and stays the same whatever happens to the tape |
| ClaimPot.Account.constructor | src/OVRFLOLending.sol:507-520 | A new loan satisfies the invariant with nothing drawn, repaid or received |
| ClaimPot.Account.Repay | src/OVRFLOLending.sol:633-652 | Repaying takes the loan's step and is refused exactly when the step is |
| ClaimPot.Account.Close | src/OVRFLOLending.sol:665-683 | Closing takes the loan's step and is refused exactly when the step is |
| ClaimPot.Account.Claim | src/OVRFLOLending.sol:703-750 | Claiming takes the loan's step and, when accepted, pays the whole request |
| ClaimPot.Account.Terms | src/OVRFLOLending.sol:719-733 | The request is cut to the unpaid entitlement and only the shortfall is drawn from the stream |
| LoanPager.CollectPairs | web/lib/live-action-plan.ts:497-517 | For every pager with bounded resume points the loop ends, reads from zero, follows the resume points, never reads one twice, and gathers what it read; from a faithful pager that is every share with something to claim, in order |
| LoanPager.FaithfulCollects | web/lib/live-action-plan.ts:497-517 | From a faithful pager the loop collects every share with something to claim, in order |
| LoanPager.ClaimablePairs | web/lib/live-action-plan.ts:496-517 | Run against the contract's pages the loop returns the positive shares of the whole loan list |
| LoanPager.PairsAreClaims | web/lib/live-action-plan.ts:509-511 | For any claimable figure, a pair is returned if and only if the position funded that loan and the figure is positive |
| LoanPager.PairsAscend | web/lib/live-action-plan.ts:509-511 | Pairs come in fill order, each loan once |
| LoanPager.LoansOf | src/OVRFLOLending.sol:900-942 | Binary search entry and early stop return the same page as scanning every loan from the resume point |
| LoanPager.FirstOverlappingSeq | src/OVRFLOLending.sol:1046-1060 | Finds the first loan that ends past the position's start |
| LoanPager.ScanFrom | src/OVRFLOLending.sol:922-941 | The scan loop returns the specified page |
| LoanPager.PageIsPrefix | src/OVRFLOLending.sol:882-899 | A page and what follows its resume point are exactly the shares from where it began |
| LoanPager.PageAdvances | src/OVRFLOLending.sol:894-899 | A page that is not the last is full and resumes strictly further on |
| LoanPager.ContractIsFaithful | src/OVRFLOLending.sol:882-942 | The contract's pages make a faithful pager with bounded resume points |
| LoanPager.ReachableLoansOrdered | src/OVRFLOLending.sol:1041-1045 | The loan list of every reachable epoch is sorted and without overlap, as the search assumes |
| ClaimDiscovery.DiscoverClaims | web/lib/live-action-plan.ts:494-517 | In every valid book the client returns exactly the loans on which claiming everything would be accepted, each once, in fill order, with the amount it pays |
| ClaimDiscovery.DueIsPaid | src/OVRFLOLending.sol:1067-1079 | The view's figure for a pair is what a claim for everything on it pays |
| ClaimDiscovery.BookStepKeeps | src/OVRFLOLending.sol:408-750 | Whatever is supplied, withdrawn, borrowed, accrued, repaid, closed or claimed, a valid book stays valid |
| ClaimDiscovery.BookAfter | src/OVRFLOLending.sol:408-750 | Every book reached from the empty one by any history of calls is valid |
| ClaimDiscovery.SizedLoanCloses | src/OVRFLOLending.sol:1135-1173 | A loan opened on a valid book with the size the contract gives it can be closed, if still open, once its stream has paid out what remained at opening, whatever was repaid or claimed |

## Left out

- React rendering, wallet and node libraries, the query cache and generated interface data: input and output around the modelled logic; their answers are arbitrary here.
- The queue's `error` field and all progress messages: text for display only.
- The queue theorems and callbacks take plans that list no key twice, which `PlanIsOnePerGroup` shows the planner gives for distinct stream ids; plans from elsewhere are not covered.
- `confirm` in `useTransactionExecutor` beyond its use of the registry: status and result shown to the user.
- `buildLadder`: sums positions per tick for the teaser rate on display; no route or transaction is chosen from it.
- `estimateSkew` and `adjustedNow`: one clock sample, which reaches the modelled arithmetic only as its `now`.
- `sub` and `min` on amounts: written as plain arithmetic where they are used.
- Locale lookup and the text syntax of JSON: separators are parameters, stored values are trees.
- TxQueue.Hook.InvariantNow: the outside invariants are a parameter read once for each stretch of code between awaits.
- ClaimPlan.PlanClaimAll: for repeated stream ids only failure is characterised, since the source's comparator then leaves the order to the engine.
- LoanPager.LoansOf: a loan is named by its sequence number, not by its global id, and the position lookup that can fail is not modelled.
- LendingTape.Epoch.Supply: takes whole units, and the opening of a new epoch at capacity is left to the caller; `SupplyAmount` adds the checks on the amount.
- LendingTape.Epoch.SupplyAmount: the tick and market checks before it, and the opening of a new epoch at capacity, are not modelled.
- LendingTape.Epoch.OverlapUnits: both arguments are of one epoch, so the revert for another epoch does not arise.
- LendingTape.Epoch.Withdraw: the check that the caller owns the position is not modelled; nor are the other caller checks.
- Epoch rollover, the epoch cursor and tick validation of the lending contract: an epoch is modelled on its own.
- ClaimDiscovery.SizedLoanCloses: takes an obligation that fits 128 bits, which the contract's narrowing enforces.
- ClaimDiscovery.BookAfter: histories whose obligations fit 128 bits, as the contract's narrowing enforces.
- Pricing.SizeFill: market and stream eligibility checks are not modelled, and the 128-bit narrowing of wei amounts is not part of it.
- ClaimPot.Account.Repay: disposal of the stream on completion is not modelled.
- ClaimPot.Account.Close: disposal of the stream is not modelled.
- ClaimPot.Account.Claim: the account is of an existing loan and the caller owns the position, so those two reverts do not arise.
- The vault, the factory and the token contracts.
- Reentrancy and token transfer behaviour: each call is one step.
