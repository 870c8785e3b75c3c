# The auction engine, as a proved model

This project models the transactional engine of a lowest-unique-bid auction platform and proves
what it promises. Five parts share one database: the wallet ledger, the bidding engine, the auction
lifecycle with its stock reservations, the closing workflow (LUB_V1, result, order), and the
participation-fee refunds with their crash recovery. Beside them stand smaller models of row
locking, statement-level interleaving of wallet movements, the transaction wrapper, refresh-token
families, history paging and money as text.

## How it is laid out

- **The database as a value.** `Platform.State` holds every table. Each transaction of the services
  is a function from a state to a refusal or a new state: `Lifecycle`, `Bidding`, `Closing`, over
  `Ledger`, `Catalog`, `Auctions`, `BidRules` and `Lub`.
- **Runs.** `Runs.Step` is one transaction with any arguments, or time passing; a run is any
  sequence of them. A crash between two transactions is a run that continues differently.
  `Invariants` says what every reachable state satisfies; `LifecycleKeeps`, `BiddingKeeps` and
  `ClosingKeeps` prove that every transaction keeps it.
- **Theorems over runs.** `Conservation` (fees and refunds), `Records` (redundant records,
  reservations, time), `Retry` (request keys), `Settlement` (interrupted closings), `Verdicts`
  (results and orders), `Suspension` (what a suspension interrupts comes back), `Refusals` (why a
  bid is refused), `Sweep` and `Recovery` (crash recovery and progress; `Recovery` says what a sweep
  leaves in the columns of the tables). `Effects` gives every administrative transaction's refusals
  and whole effect on a sound platform. `DollarRefund` is a counterexample.
- **The services as they run.** `Ledger.Wallets`, `Catalog.Inventory` and `Services.Engine` are the
  mutable tables; `Services`, `LifecycleServices`, `ResultServices` and `SweepWorker` change them
  statement by statement, with loops, early returns and rollback, and every method is proved to have
  exactly the effect of the corresponding function. So what is proved of the functions holds of
  them. `SweepWorker` requires the invariant of its database on entry; every run establishes it.
- **Concurrency.** `MovementLocks` interleaves the single statements of any number of movements;
  `LockOrder` is a lock manager over the rows each transaction takes.

`dafny verify dfyconfig.toml` checks the whole project.

## Where the code and what is said about it differ

The model follows the code.

- Fees are charged in the auction's currency, but a refund names no currency and is booked in the
  default one, birr. `RefundSettlesExactlyInBirr` states exactly when a refund settles, and
  `DollarFeeIsNotReturned` gives a run in which it does not.
- The written lock order lists the wallet before the participant. The code takes the participant
  first; `LockOrder` uses that order.
- A retry is replayed only while the auction is live, because the status is checked before the key
  is claimed. `RetryReplays` states it as an if-and-only-if.
- Reconciliation finds every deletion but one: a tail of the ledger removed together with its cached
  balance. `DeletionDetected` states it as an if-and-only-if.
- Closing a completed auction again reports no order. States are compared, not answers, and
  `ResultServices.CloseAuction` states the answer.
- The sweep reads both due lists before it opens anything, so an auction opened already overdue is
  closed by the next sweep; the progress measure accounts for it.

## Model

| member | source | states |
|---|---|---|
| Sweep.SweepFinishesEverything | apps/worker/src/jobs/auction-lifecycle.ts:305-371 | from every reachable state, wherever a crash left it, one sweep over a backlog that fits the batch gives every auction that was live and due, closing, calculating, or cancelled with participants its result, and leaves none of its payers unpaid |
| Recovery.EverythingDueIsDone | apps/worker/src/jobs/auction-lifecycle.ts:305-371 | from every reachable state with at most a hundred auctions on each list, after one sweep: due scheduled ones are live or cancelled; live ones past the deadline, closing and calculating ones are completed; those and the cancelled ones somebody bid in have their result and nobody owed |
| Recovery.OverdueIsCompleted | apps/worker/src/jobs/auction-lifecycle.ts:184-200 | every live auction the sweep lists ends completed, its result written and nobody owed, whatever else is outstanding |
| Recovery.DueIsOpenedOrCancelled | apps/worker/src/jobs/auction-lifecycle.ts:145-169 | every scheduled auction the sweep lists ends live or cancelled |
| Recovery.ClosesForGood | apps/api/src/modules/results/resultService.ts:98-178 | closing is refused exactly before the end of bidding; otherwise the auction ends decided, as a cancellation exactly if it was cancelled, with every fee that must go back in its payer’s birr ledger |
| Recovery.DueInColumns | apps/api/src/modules/auctions/auctionRepository.ts:502-520 | the two due lists are the scheduled auctions with a start, and the live ones with an end, at or before now |
| Recovery.AwaitingInColumns | apps/api/src/modules/results/resultsRepository.ts:340-357 | the undecided are those without a result that are closing, calculating, or cancelled with a participant |
| Recovery.UnpaidInColumns | apps/api/src/modules/results/resultsRepository.ts:292-316 | the unpaid are those of a fee-returning outcome with a payer for whom no ledger has an entry returning the fee |
| Sweep.SweepMakesProgress | apps/worker/src/jobs/auction-lifecycle.ts:276-304 | whatever the backlog, a sweep that finds outstanding work leaves strictly less of it, and one that finds none leaves the database untouched |
| Sweep.PassesNeverAddWork | apps/worker/src/jobs/auction-lifecycle.ts:305-371 | no pass moves any auction further from being finished |
| Sweep.PassDone | apps/worker/src/jobs/auction-lifecycle.ts:315-346 | a whole pass finishes each listed auction and leaves every other auction as it was |
| Sweep.JobDone | apps/worker/src/jobs/auction-lifecycle.ts:145-238 | a job whose turn has come is never refused and takes its auction closer to being settled |
| Sweep.OpenOne | apps/worker/src/jobs/auction-lifecycle.ts:145-169 | an auction due to open opens or is cancelled for want of stock; it is never refused, and ends without a result owed |
| Sweep.AwaitingShrinks | apps/api/src/modules/results/resultsRepository.ts:340-357 | the opening and closing passes add nothing to the list of auctions awaiting a result |
| Sweep.UnpaidShrinks | apps/api/src/modules/results/resultsRepository.ts:292-316 | the first three passes add nothing to the list of auctions that still owe refunds |
| Sweep.LedgerKnowsWhoIsOwed | apps/api/src/modules/results/resultsRepository.ts:292-316 | the query over refund entries finds exactly the payers whose refund key is not booked |
| Sweep.UnpaidIsOwed | apps/api/src/modules/results/resultsRepository.ts:292-316 | an auction is listed as unpaid exactly when its outcome returns fees and some payer has not been paid |
| SweepWorker.RunSweep | apps/worker/src/jobs/auction-lifecycle.ts:305-371 | on a sound database the sweep has exactly the effect of its four passes over what its queries found, fails on nothing, and its counters equal the lengths of the four listings; with at most a hundred due, every scheduled auction whose start has come ends live or cancelled, and every live one past its deadline ends completed, with its result and nobody owed a fee |
| SweepWorker.SweepOutstandingRefunds | apps/api/src/modules/results/refunds.ts:173-200 | works through the auctions with a fee-returning outcome and a payer whose ledgers show no return of it, all of them when they fit the limit; each pass it reports moved money for at least one payer |
| SweepWorker.RunOpen | apps/worker/src/jobs/auction-lifecycle.ts:145-169 | an early job is not a failure; otherwise the open, reported as a change only when the database changed |
| SweepWorker.RunClose | apps/worker/src/jobs/auction-lifecycle.ts:184-200 | closes the bidding and then decides; an early job stops after the refusal and changes nothing |
| SweepWorker.RunDecide | apps/worker/src/jobs/auction-lifecycle.ts:216-238 | the whole closing workflow, reported as a change only by the call that decided |
| SweepWorker.FindDueToOpen | apps/api/src/modules/auctions/auctionRepository.ts:502-510 | scheduled auctions whose start has come, none twice, in order of their starts; one is left out only when the limit is reached and everything listed starts no later |
| SweepWorker.FindDueToClose | apps/api/src/modules/auctions/auctionRepository.ts:512-520 | live auctions whose end has come, none twice, in order of their ends; one is left out only when the limit is reached and everything listed ends no later |
| SweepWorker.FindAuctionsAwaitingResult | apps/api/src/modules/results/resultsRepository.ts:340-357 | auctions without a result that are closing, calculating, or cancelled after somebody bid, none twice, in order of their ends; one is left out only when the limit is reached and everything listed ends no later |
| Queries.Earliest | apps/api/src/modules/auctions/auctionRepository.ts:502-520 | an ordered, limited query leaves out nothing that comes before what it lists |
| Queries.ListFeePayers | apps/api/src/modules/results/resultsRepository.ts:211-229 | exactly the participants who paid a fee, in strictly rising user id |
| Conservation.FeesAccounted | apps/api/src/modules/results/refunds.ts:80-124 | after any run, in each of a user’s wallets: fees charged in full in the auction’s currency and nowhere else, returned in full, in birr, exactly when the refund is booked |
| Conservation.FeesConserved | apps/api/src/modules/results/refunds.ts:96-124 | in a birr auction fees plus refunds come to minus the total fees until refunded and to zero afterwards, and to zero in every other currency |
| Conservation.RefundSettlesExactlyInBirr | apps/api/src/modules/wallet/walletService.ts:147-170 | a refund brings every wallet of the user to zero for the auction if and only if the auction was in birr, because a refund names no currency |
| DollarRefund.DollarFeeIsNotReturned | apps/api/src/modules/results/refunds.ts:107-116 | a concrete run of a dollar auction whose booked refund leaves the paying wallet five short and the birr wallet five over |
| Conservation.RefundIsJustified | apps/api/src/modules/results/refunds.ts:96-124 | a refund exists only for a payer of a `no_unique_bid` or `cancelled` auction, once at most |
| Conservation.EveryRefundIsEarned | apps/api/src/modules/results/refunds.ts:96-124 | every refund entry in any ledger is in birr, of the whole fee its owner paid in an auction without a unique bid or cancelled, and the only one for it |
| Recovery.RefundsReachTheWallets | apps/api/src/modules/results/refunds.ts:96-124 | a refund pass raises each payer’s birr balance by exactly the fee still owed to them and no other balance at all |
| Recovery.ReportedIsWhatMoved | apps/api/src/modules/results/refunds.ts:96-158 | the sum a pass reports is what its payers’ balances rose by, all together |
| Conservation.RefundNeverRepeats | apps/api/src/modules/results/refunds.ts:83-95 | in every continuation a booked refund stays booked, repeating it changes nothing, and the net in each wallet is final |
| Conservation.RefundsBooked | apps/api/src/modules/results/refunds.ts:80-81 | a wallet’s refund entries for one auction come to the owner’s whole fee if the refund key is there and to nothing if not |
| Conservation.ChargedInOwnCurrency | apps/api/src/modules/bidding/bidService.ts:394-436 | the fee entries of the auction’s own currency come to minus the participant’s total fees |
| WalletKeys.RenderInjective | apps/api/src/modules/results/refunds.ts:80-81 | bid-fee, refund and client keys share a stored text only when they are the same key |
| ClosingKeeps.RefundSucceeds | apps/api/src/modules/results/refunds.ts:106-124 | a refund that is owed is never refused: the first books the whole fee, every later one replays and changes nothing |
| Settlement.ClosingResumes | apps/api/src/modules/results/resultService.ts:98-149 | interrupted after any number of its transactions and run again from the top, a closing ends in the state it would have reached uninterrupted |
| Settlement.ClosingResumesAnyNumberOfTimes | apps/api/src/modules/results/resultService.ts:20-58 | the same after any number of interruptions, each anywhere |
| Settlement.ClosingTwiceIsOnce | apps/api/src/modules/results/resultService.ts:115-129 | closing an auction that is already settled changes nothing |
| Settlement.CloseAuctionSettles | apps/api/src/modules/results/resultService.ts:98-149 | closing a closable auction is never refused, leaves it decided with every payer paid when fees go back, and touches no other auction |
| Settlement.DecidesFromAnywhere | apps/api/src/modules/results/resultService.ts:158-252 | the first two transactions succeed from every closable status and change no bid, seat or wallet |
| Settlement.RefundAllPays | apps/api/src/modules/results/refunds.ts:96-124 | a pass over the payers of a refundable auction never fails and leaves each of them paid back |
| Settlement.RefundAllStops | apps/api/src/modules/results/refunds.ts:106-124 | a pass that fails part way is the pass up to its failure |
| Settlement.RefundAllOnly | apps/api/src/modules/results/refunds.ts:96-124 | a pass books no refund but those of its own auction and payers |
| Settlement.AscendingIsUnique | apps/api/src/modules/results/resultsRepository.ts:211-229 | the ordering makes the listing of payers unique, so every pass visits the same users in the same order |
| Verdicts.VerdictIsPermanent | apps/api/src/modules/results/resultService.ts:546-619 | once written, a result and its order never change in any continuation, and verifying the result keeps succeeding |
| Verdicts.VerdictIsFixedWhenBiddingStops | apps/api/src/modules/results/resultService.ts:188-252 | from the moment bidding stops, any result ever published is the one its bids already determine, unless the auction is cancelled first |
| Verdicts.VerificationDetectsAnyChange | apps/api/src/modules/results/resultService.ts:546-619 | over any bid table at all, verification succeeds exactly when the auction’s lines are those it was decided on |
| Verdicts.WinnerIsTheRule | apps/api/src/modules/results/resultService.ts:188-232 | the stored winner, bid and amount are the one line the published rule picks; the outcome is `winner` exactly when the rule picks one |
| Verdicts.OrderExactlyForTheWinner | apps/api/src/modules/orders/orderService.ts:33-86 | an order exists exactly when the outcome is `winner`, for that winner, amount, product and currency |
| Verdicts.DecidedExactlyWhenCompleted | apps/api/src/modules/results/resultService.ts:234-250 | a result other than a cancellation exists exactly when the status is completed |
| Verdicts.StatisticsMatchCounters | apps/api/src/modules/results/lubCalculator.ts:186-224 | the figures stored with a result equal the live counters and imply its outcome |
| ResultServices.VerifyResult | apps/api/src/modules/results/resultService.ts:564-619 | names exactly the fields that disagree with a recomputation, and reports ok exactly when none does |
| ResultServices.CloseAuction | apps/api/src/modules/results/resultService.ts:98-149 | the three stages, with the effect of the workflow’s specification; a fresh decision answers an order exactly when its outcome is winner, the stored order, for the stored winner and amount and the auction’s product and currency; a completed auction is reported without its order and as not decided |
| ResultServices.DecideAuction | apps/api/src/modules/results/resultService.ts:188-252 | the decision commits whole or leaves no trace; it reports the stored result, whether this call wrote it, and the stored order exactly when there is a winner |
| ResultServices.InsertResult | apps/api/src/modules/results/resultsRepository.ts:111-150 | the first result stands: a conflicting insert returns the row already there |
| ResultServices.ApplyConsequences | apps/api/src/modules/results/resultService.ts:292-332 | the winner’s order, or the unit back on the shelf |
| ResultServices.RefundParticipationFees | apps/api/src/modules/results/refunds.ts:96-158 | reports exactly the payers still owed, how many were already paid, and the sum moved; stops at the first failure |
| ResultServices.Refund | apps/api/src/modules/results/refunds.ts:107-116 | one credit to one wallet in the default currency, with the deterministic key |
| ResultServices.SettleAuction | apps/api/src/modules/results/resultService.ts:440-457 | money moves only for `no_unique_bid` and `cancelled`, and its failure does not fail the close |
| Records.AcceptedExactlyWhen | apps/api/src/modules/bidding/bidService.ts:90-229 | after any run a submission is accepted if and only if it meets every rule and can be paid for; neither the reservation check nor a stale wallet key ever decides |
| Records.AnswerTellsTheState | apps/api/src/modules/bidding/bidService.ts:212-228 | what an accepted caller is told is what the database then holds: the new bids, their count, what is left of the limit, the instant, the balance after the fee, totals equal to a recount |
| Records.AnswerTellsThePrice | apps/api/src/modules/bidding/validation.ts:112-114 | a batch costs the auction’s fee once for each of its bids |
| Records.StatusDecidesTheRefusal | apps/api/src/modules/bidding/bidService.ts:97-116 | a well-formed request to an auction the public may not see is refused as not found, to one not yet or no longer bidding as not live, and only a live one goes on to its ladder |
| Refusals.RefusalTellsTheCause | apps/api/src/modules/bidding/bidService.ts:90-229 | after any run every refusal is true of the tables: the deadline has passed, the bids counted exceed the limit, the amount is off the ladder or already placed, the key answered another request, the wallet is frozen or short; and no other refusal is ever given |
| Records.CountersMatchRecount | apps/api/src/modules/bidding/bidRepository.ts:305-319 | after any run the live totals are the number of bid rows and of distinct bidders among them |
| Records.SeatsMatchRows | apps/api/src/modules/bidding/bidRepository.ts:272-289 | a participant row is the count and the fee sum of that user’s bid rows, and exists exactly when there is a bid |
| Records.SeatFitsTheLadder | apps/api/src/modules/bidding/validation.ts:78-102 | a user’s amounts are distinct rungs of the ladder, hence at most the user limit and at most the ladder’s size |
| Records.TermsAreFinal | apps/api/src/modules/auctions/auctionService.ts:249-320 | once anyone has bid no continuation changes the terms, and every edit is refused |
| Records.BatchesArePaidOnce | apps/api/src/modules/bidding/bidService.ts:394-436 | each accepted request has one entry under its key for minus fee times batch size, and its bids point at it; a free one has none |
| Records.LiveIsReserved | apps/api/src/modules/bidding/bidService.ts:325-339 | a submission to a live auction is never refused for want of a reservation |
| Records.BidsFellInsideTheWindow | apps/api/src/modules/bidding/bidService.ts:285-308 | every bid was decided in the half-open window, and closing and closed instants agree at or after the deadline |
| Records.ClockIsRespected | apps/api/src/modules/auctions/lifecycle.ts:338-347 | no auction is ever live before its start or past bidding before its deadline, and none has a bid before its start |
| Records.BidSetIsFinal | apps/api/src/modules/auctions/lifecycle.ts:464-595 | from closing on, nothing in any continuation changes the bid set, the terms or the closing instant |
| Records.HeldExactlyWhenOwed | apps/api/src/modules/catalog/inventory.ts:56-183 | after any run an auction holds a unit exactly when live, closing, calculating, suspended from live, or completed with a winner |
| Records.ReservedMatchesRows | apps/api/src/modules/catalog/inventory.ts:209-236 | the cached reserved count is the sum of the held rows and lies between zero and the stock |
| Records.SuspensionCanBeLifted | apps/api/src/modules/auctions/lifecycle.ts:712-764 | every suspension can be lifted, to a status that may be suspended, live exactly when a unit is held |
| Suspension.SuspendThenResume | apps/api/src/modules/auctions/lifecycle.ts:656-764 | suspending and resuming a pending, scheduled or live auction gives the very same database back |
| Suspension.ResumeRestoresWhatWasInterrupted | apps/api/src/modules/auctions/lifecycle.ts:712-764 | however a run left an auction suspended, resuming restores the whole row it had when it was last suspended, status and all |
| Suspension.SuspensionIsInert | apps/api/src/modules/auctions/lifecycle.ts:656-764 | until it is resumed or cancelled nothing else touches a suspended auction, whatever runs in between |
| Retry.RequestIgnoresOrder | apps/api/src/modules/bidding/idempotency.ts:45-57 | two submissions share a request identity exactly when auction, user and amounts as a bag agree |
| Retry.RetryReplays | apps/api/src/modules/bidding/idempotency.ts:91-138 | a retry, amounts in any order, after any continuation, is answered exactly while the auction is live, with the original numbers and bids, and changes nothing |
| Retry.KeyAnswersOneRequest | apps/api/src/modules/bidding/idempotency.ts:117-126 | a key that answered one request never answers or accepts another in any later state |
| Retry.RejectedLeavesNoTrace | apps/api/src/modules/bidding/bidService.ts:117-121 | a refused or replayed submission leaves the state as it was, its key unclaimed |
| Retry.RepeatsAndRefusalsDoNotMatter | apps/api/src/modules/bidding/idempotency.ts:91-152 | any run ends as the run without its repeats and refusals, in which every submission is accepted under a fresh key |
| Services.Engine.SubmitBids | apps/api/src/modules/bidding/bidService.ts:90-229 | statement by statement, the whole effect of the specification on success and the untouched database on every refusal |
| Services.Engine.PlaceBatch | apps/api/src/modules/bidding/bidService.ts:118-229 | the transaction body: claim, lock, check, write, answer, with the refusal of the first rule broken |
| Services.Engine.ClaimKey | apps/api/src/modules/bidding/idempotency.ts:91-138 | claims a new key or reports what the stored row makes of this request |
| Services.Engine.CompleteKey | apps/api/src/modules/bidding/idempotency.ts:141-152 | stores the answer under the claimed key and nothing else |
| Services.Engine.LockAndCheck | apps/api/src/modules/bidding/bidService.ts:134-166 | refuses in the order of the rules; otherwise takes the participant row and reports whether it is new |
| Services.Engine.InsertBids | apps/api/src/modules/bidding/bidRepository.ts:131-166 | all rows land exactly when the batch repeats nothing, in itself or already placed |
| Services.Engine.WriteBatch | apps/api/src/modules/bidding/bidService.ts:171-228 | bids, fee, counters and stored answer together make the specified next state |
| Services.Engine.FinishBatch | apps/api/src/modules/bidding/bidService.ts:177-228 | counters and stored answer complete the specified next state |
| Services.Engine.ChargeFee | apps/api/src/modules/bidding/bidService.ts:394-436 | one debit for the batch with each bid pointing at its entry; a free batch moves no money |
| Services.Engine.AttachWalletEntry | apps/api/src/modules/bidding/bidRepository.ts:176-185 | exactly the range of bids named gets the entry |
| Services.Engine.LockOrCreateParticipant | apps/api/src/modules/bidding/bidRepository.ts:247-263 | exactly one row for the seat, reported new or not |
| Services.Engine.AddParticipantBids | apps/api/src/modules/bidding/bidRepository.ts:272-289 | adds to the counters of that seat only |
| Services.Engine.AddBidCounters | apps/api/src/modules/auctions/auctionRepository.ts:316-331 | adds to the totals of that auction only |
| Services.Engine.FindExistingAmounts | apps/api/src/modules/bidding/bidRepository.ts:82-95 | comes back empty exactly when the user holds none of the amounts |
| Services.Engine.FindBidsByKey | apps/api/src/modules/bidding/bidRepository.ts:98-109 | exactly the bids carrying the key for that auction and user |
| Services.Engine.AssertAmountsAllowed | apps/api/src/modules/bidding/validation.ts:88-90 | the refusal of the first amount off the ladder, or none |
| Services.Engine.Rollback | apps/api/src/db/transaction.ts:65-66 | the database exactly as it was saved |
| BidRules.LadderIsRungs | apps/api/src/modules/bidding/validation.ts:100-102 | the ladder has exactly (max − min) / increment + 1 rungs, max among them, and they are the amounts accepted |
| BidRules.AtMostLadderSize | apps/api/src/modules/bidding/validation.ts:78-102 | distinct ladder amounts cannot outnumber the rungs |
| BidRules.AmountError | apps/api/src/modules/bidding/validation.ts:78-85 | no refusal exactly for the amounts on the ladder, and out of range exactly for those outside its ends |
| BidRules.LadderError | apps/api/src/modules/bidding/validation.ts:88-90 | no refusal exactly when every amount is on the ladder, otherwise that of the first amount off it |
| BidRules.AssertNoRepeats | apps/api/src/modules/bidding/validation.ts:61-69 | refuses exactly the requests that repeat an amount |
| BidRules.ParsesExactly | apps/api/src/modules/bidding/validation.ts:39-52 | an amount is one to nineteen decimal digits, not all of them zero, and nothing else |
| BidRules.ParseAmounts | apps/api/src/modules/bidding/validation.ts:39-52 | all amounts parsed in order with their values, or a refusal exactly when there are too many or one is malformed or zero |
| BidList.ParseAmountList | packages/shared/src/schemas/bid.ts:171-194 | accepts exactly lists of one to a hundred non-zero whole numbers; each keeps its value, loses its leading zeros, and fits the bid schema |
| BidList.TokensKeepEverything | packages/shared/src/schemas/bid.ts:171-175 | the tokens joined are the input without its separators |
| BidList.TokensAreRuns | packages/shared/src/schemas/bid.ts:171-175 | each token is a run of the input that ends only at a separator or at the end |
| BidList.SeparatedAmounts | packages/shared/src/schemas/bid.ts:171-175 | two amounts with a comma, a semicolon, a space, a tab or a line break between them are read as those two |
| BidList.DuplicateAmounts | packages/shared/src/schemas/bid.ts:204-212 | exactly the amounts named at least twice, each reported once |
| BiddingKeeps.SubmitKeeps | apps/api/src/modules/bidding/bidService.ts:118-229 | an accepted submission keeps every invariant of every table |
| Lub.WinnerIsLowestUnique | apps/api/src/modules/results/lubCalculator.ts:118-157 | the query returns the single bid at the least amount bid exactly once, and nobody exactly when no amount stands alone |
| Lub.NobodyWins | apps/api/src/modules/results/lubCalculator.ts:118-157 | nobody wins exactly when no amount is unique |
| Lub.WinnerIgnoresOrder | apps/api/src/modules/results/lubCalculator.ts:118-157 | permuting the bids does not change the winner |
| Lub.OneMoreBid | apps/api/src/modules/results/lubCalculator.ts:118-157 | one more bid changes the winner only as the rule allows, case by case against the winning amount |
| Lub.OutcomeMatchesStatistics | apps/api/src/modules/results/resultService.ts:266-274 | the outcome can be read off the statistics: winner, no bids and no unique bid, each if and only if |
| Effects.FiguresAreCounts | apps/api/src/modules/results/lubCalculator.ts:186-224 | the figures of a result are counts over the bid table: the bids, the different bidders, and the amounts on which exactly one bid was placed |
| Lub.DistributionCounts | apps/api/src/modules/results/lubCalculator.ts:240-254 | the distribution lists each amount once, rising, with its number of bids |
| Lub.LowestUniqueAmount | packages/shared/src/schemas/result.ts:168-177 | the least amount with exactly one bidder, or none |
| Lub.RestatementAgrees | packages/shared/src/schemas/result.ts:157-177 | any answer meeting the loop’s contract on the distribution is the query’s winning amount |
| Ledger.ApplyKeepsSound | apps/api/src/modules/wallet/ledger.ts:173-289 | a movement that succeeds keeps the ledger gap-free, its balances equal to the replay and never negative, and books at most one entry |
| Ledger.FrozenNeverLoses | apps/api/src/modules/wallet/ledger.ts:213-217 | whatever succeeds on a frozen wallet is a credit or a replay |
| Ledger.RepeatIsReplay | apps/api/src/modules/wallet/ledger.ts:192-211 | repeating a keyed movement after any later ones, frozen or not, books nothing and reports the original entry |
| Ledger.Wallets.EnsureWallet | apps/api/src/modules/wallet/walletRepository.ts:56-74 | one wallet per user and currency, created at most once and never reset |
| Ledger.Wallets.ApplyMovement | apps/api/src/modules/wallet/ledger.ts:173-289 | lock, replay, check, cache, entry: the specified account and receipt, or a refusal with nothing changed; what it books raises or lowers the balance by the amount as the kind of entry says, a replay changes nothing |
| Ledger.CreditsRaise | packages/shared/src/schemas/wallet.ts:15-21 | a fresh deposit, refund, admin credit or prize raises the balance by its amount, frozen or not |
| Ledger.DebitsLower | packages/shared/src/schemas/wallet.ts:23-29 | a fresh withdrawal, fee, payment, admin debit or payout lowers the balance by its amount, and is refused exactly when frozen or short |
| Ledger.HoldsAreRefused | apps/api/src/modules/wallet/ledger.ts:150-172 | a hold or its release is never booked as a movement |
| Ledger.Wallets.Move | apps/api/src/modules/wallet/walletService.ts:147-195 | creates the wallet first, so it survives a refused movement; what it books moves the balance as the kind of entry says |
| Ledger.Wallets.SetFrozen | apps/api/src/modules/wallet/walletService.ts:243-295 | freezing and thawing are idempotent and move no money |
| MovementLocks.InterleavingIsSerial | apps/api/src/modules/wallet/ledger.ts:173-289 | any interleaving of the statements of any number of movements and freezes leaves each unlocked wallet as running the committed ones in lock order would, with the same answers |
| MovementLocks.InterleavingKeepsLedgersSound | apps/api/src/modules/wallet/ledger.ts:228-254 | no interleaving makes a balance negative, skips a number, or parts the version from the entry count |
| MovementLocks.FrozenDebitsOnlyReplay | apps/api/src/modules/wallet/walletService.ts:252-257 | a debit ordered after a freeze moves no money; if it commits, it replayed |
| MovementLocks.CommitRunsLast | apps/api/src/modules/wallet/ledger.ts:181-183 | committing the last transaction to lock a wallet adds it at the end of that wallet’s history |
| LockOrder.NoDeadlock | apps/api/src/modules/bidding/bidService.ts:126-175 | any number of bids, transitions, closes, refunds and stock edits under any schedule: nobody waits in a circle, and while anything is unfinished something can move |
| LockOrder.NoCycle | apps/api/src/modules/bidding/bidService.ts:44-66 | the wait-for graph has no cycle of any length when locks are taken in rising rank |
| LockOrder.EverythingFinishes | apps/api/src/modules/bidding/bidService.ts:44-66 | from any point some schedule finishes every transaction in exactly the steps that are left |
| LockOrder.CodeTakesLocksInOrder | apps/api/src/modules/bidding/bidService.ts:126-175 | each kind of transaction takes key, auction, product or participant, wallet in strictly rising rank |
| LockOrder.WalletFirstDeadlocks | apps/api/src/modules/bidding/bidService.ts:59-61 | a transaction that took the wallet before the auction can deadlock with a bid |
| Reconciliation.ConsistentIsExact | apps/api/src/modules/wallet/reconciliation.ts:42-82 | over distinct positive numbers, a clean report means exactly: numbered 1..n, every balance the prefix sum, the cache the total |
| Reconciliation.PigeonholeSeqs | apps/api/src/modules/wallet/walletRepository.ts:339-346 | the largest number equals the count exactly when nothing is missing |
| Reconciliation.DeletionDetected | apps/api/src/modules/wallet/walletRepository.ts:290-346 | removing any entries and rewriting the cache to anything is reported, except removing a tail together with its balance |
| Reconciliation.SoundReconciles | apps/api/src/modules/wallet/reconciliation.ts:42-82 | every ledger the service can produce reports consistent |
| Reconciliation.DriftIsTheDifference | apps/api/src/modules/wallet/reconciliation.ts:52-58 | on a ledger the service produced, the drift is what the entries exceed the cache by, signed, and nothing else is reported |
| Reconciliation.GapsAreMissingNumbers | apps/api/src/modules/wallet/walletRepository.ts:339-346 | over any rows the gaps are the numbers below the highest that no row carries |
| Reconciliation.ListWalletIds | apps/api/src/modules/wallet/walletRepository.ts:349-357 | the next page of identifiers after the cursor, in order |
| Reconciliation.ReconcileAllWallets | apps/api/src/modules/wallet/reconciliation.ts:102-147 | every wallet is checked exactly once, the inconsistent ones are reported in order, and the walk ends |
| History.WalkIsTheLedger | apps/api/src/modules/wallet/walletService.ts:80-91 | walking the pages while entries are appended between them returns the ledger as of the first page, each entry once, in descending number |
| History.PageIs | apps/api/src/modules/wallet/walletRepository.ts:241-255 | a page is the run of entries just below its cursor, and its cursor is absent exactly when nothing is left |
| Money.FormatThenParse | packages/shared/src/money.ts:103-128 | parsing the printed number gives the amount back, negative or shorter than the exponent included, for any exponent |
| Money.ParseThenFormat | packages/shared/src/money.ts:116-128 | every accepted text formats to its normal form: no spare zeros, a full fraction, no sign on zero |
| Money.TwoDecimalsAndTheCode | packages/shared/src/money.ts:103-110 | the display form: whole units, a point, two digits of the minor unit, and the currency’s code |
| Money.MoneyRoundTrips | packages/shared/src/money.ts:103-128 | the same through the display form of every amount in every currency |
| Runs.RunsAreSound | apps/api/src/db/transaction.ts:50-76 | every invariant holds after every run of transactions in any order with any arguments |
| Runs.RunIsPermanent | apps/api/src/modules/auctions/lifecycle.ts:446-523 | bids, answers, ledgers, results and orders only ever grow, and once bidding has stopped an auction’s bids, seats and terms are final |
| Auctions.TableShape | apps/api/src/modules/auctions/transitions.ts:27-54 | nothing leaves a terminal status and no edge leads from closing back to bidding |
| Effects.TableReadBackwards | apps/api/src/modules/auctions/transitions.ts:27-49 | the table read from each status: the actions an auction in it may undergo, and no others |
| Effects.ValidConfigIsSane | apps/api/src/modules/auctions/auctionService.ts:57-107 | a configuration is valid exactly when its window is not empty, its maximum is a rung of its ladder, and its fee and limits are sensible |
| Effects.CreatesExactly | apps/api/src/modules/auctions/auctionService.ts:125-247 | a draft is created exactly with valid terms and a product with a unit no unfinished auction counts on, and never oversubscribes the product |
| Effects.EditsExactly | apps/api/src/modules/auctions/auctionService.ts:249-320 | terms are replaced exactly before an auction opens, and nobody can have bid in it |
| Effects.OpensExactly | apps/api/src/modules/auctions/lifecycle.ts:325-435 | a due auction goes live taking one unit of its product, or with none free is cancelled with the stock as it was |
| Effects.CancelsExactly | apps/api/src/modules/auctions/lifecycle.ts:773-841 | cancelling works from everything before calculating; the unit goes back exactly when the auction was live, closing, or suspended out of live |
| LifecycleServices.Begin | apps/api/src/modules/auctions/lifecycle.ts:93-112 | already there, refused, or free to proceed, by the table |
| LifecycleServices.ApplyTransition | apps/api/src/modules/auctions/auctionRepository.ts:333-409 | updates the row exactly when its status is the expected one |
| LifecycleServices.Transition | apps/api/src/modules/auctions/lifecycle.ts:149-295 | submit, approve, reject and complete change the status and nothing else; a repeat is no change |
| LifecycleServices.Open | apps/api/src/modules/auctions/lifecycle.ts:325-435 | goes live with one unit reserved, is cancelled when none is free, and is refused before its start |
| LifecycleServices.Close | apps/api/src/modules/auctions/lifecycle.ts:464-523 | records the closing instant once the deadline has passed; past closing is more than done |
| LifecycleServices.Suspend | apps/api/src/modules/auctions/lifecycle.ts:656-702 | remembers the interrupted status and keeps the unit |
| LifecycleServices.Resume | apps/api/src/modules/auctions/lifecycle.ts:712-764 | restores the interrupted status |
| LifecycleServices.Cancel | apps/api/src/modules/auctions/lifecycle.ts:773-841 | gives back the unit with the status, or neither |
| LifecycleServices.UpdateAuction | apps/api/src/modules/auctions/auctionService.ts:249-320 | edits the terms only while they are not locked and the new ones are valid |
| LifecycleKeeps.OpenKeeps | apps/api/src/modules/auctions/lifecycle.ts:325-435 | opening keeps every invariant, whether it reserves or cancels |
| LifecycleKeeps.CloseBiddingKeeps | apps/api/src/modules/auctions/lifecycle.ts:464-523 | stopping the bidding keeps every invariant |
| LifecycleKeeps.SuspendKeeps | apps/api/src/modules/auctions/lifecycle.ts:656-702 | suspending keeps every invariant |
| LifecycleKeeps.ResumeKeeps | apps/api/src/modules/auctions/lifecycle.ts:712-764 | resuming keeps every invariant |
| LifecycleKeeps.CancelKeeps | apps/api/src/modules/auctions/lifecycle.ts:773-841 | cancelling keeps every invariant |
| LifecycleKeeps.BeginResultKeeps | apps/api/src/modules/auctions/lifecycle.ts:555-595 | beginning to calculate keeps every invariant |
| LifecycleKeeps.CreateKeeps | apps/api/src/modules/auctions/auctionService.ts:166-247 | a new draft keeps every invariant |
| LifecycleKeeps.EditKeeps | apps/api/src/modules/auctions/auctionService.ts:249-320 | an edit keeps every invariant, because an editable auction has no participant |
| ClosingKeeps.DecideKeeps | apps/api/src/modules/results/resultService.ts:188-252 | deciding keeps every invariant |
| ClosingKeeps.DecideAgain | apps/api/src/modules/results/resultService.ts:214-222 | deciding an auction that has its result changes nothing at all |
| ClosingKeeps.OutsideKeeps | apps/api/src/modules/wallet/walletService.ts:124-195 | any other wallet movement keeps every invariant of the platform |
| Effects.RestocksExactly | apps/api/src/modules/catalog/catalogService.ts:530-543 | a stock level is accepted exactly when it covers what is reserved, and only the level changes |
| Catalog.ReservesExactly | apps/api/src/modules/catalog/inventory.ts:56-121 | units are refused exactly when neither held already nor free; otherwise the count moves by just that many with one row for them |
| Catalog.ReserveKeeps | apps/api/src/modules/catalog/inventory.ts:56-121 | reserving keeps the books, and from then on exactly this auction holds a unit more |
| Catalog.ReleaseKeeps | apps/api/src/modules/catalog/inventory.ts:136-183 | releasing never fails on sound books and frees exactly this auction’s unit |
| Catalog.SetStockKeeps | apps/api/src/modules/catalog/catalogService.ts:530-543 | stock never drops below what is held |
| Catalog.Inventory.ReserveUnit | apps/api/src/modules/catalog/inventory.ts:56-121 | row and cached count move together; an existing hold is returned as it is |
| Catalog.Inventory.ReleaseUnit | apps/api/src/modules/catalog/inventory.ts:136-183 | row and cached count move back together; nothing held is nothing to do |
| Catalog.Inventory.AdjustReservedQuantity | apps/api/src/modules/catalog/catalogRepository.ts:726-734 | moves one product’s cached count by the delta |
| Catalog.Inventory.UpdateStock | apps/api/src/modules/catalog/catalogService.ts:530-543 | refuses a level below the held rows |
| Transactions.Database.WithTransaction | apps/api/src/db/transaction.ts:50-76 | the rows and the answer of the attempts in turn, at most one more than the retries allowed, all but the last having failed with a conflict |
| Transactions.CommitsOnceOrNotAtAll | apps/api/src/db/transaction.ts:50-76 | success is one attempt’s effect on the rows as they were; an error leaves them exactly as they were |
| Transactions.ConflictsAreRiddenOut | apps/api/src/db/transaction.ts:33-76 | attempts lost to the two conflicts cost nothing while retries are left: the first that goes through is the answer |
| Transactions.OtherFailuresAreNotRetried | apps/api/src/db/transaction.ts:33-38 | a failure that is not one of the two conflicts ends the first attempt |
| Sessions.FamiliesStaySound | apps/api/src/modules/auth/session.service.ts:87-193 | after any run every family is a chain in which at most the newest session lives, and a dead family never regains one |
| Sessions.RotationExtendsTheChain | apps/api/src/modules/auth/session.service.ts:114-166 | a rotation adds one session at the end of its chain, linked from the one it replaces, and touches no other family |
| Sessions.RotatesExactlyWhen | apps/api/src/modules/auth/session.service.ts:114-166 | from chained rows a rotation succeeds exactly when some row carries the token, is unrevoked and unexpired, the user is active and the new token unused |
| Sessions.RefusalWritesNothing | apps/api/src/modules/auth/session.service.ts:120-131 | a token that is unknown, or unrevoked but expired, or of an inactive user, is refused with the rows untouched |
| Sessions.LogOutEndsTheFamily | apps/api/src/modules/auth/session.service.ts:178-193 | after a logout with a known token no session of its family lives |
| Sessions.ReuseEndsTheFamily | apps/api/src/modules/auth/session.service.ts:87-98 | presenting any token but the newest refuses the caller and ends the family for good |
| Sessions.OnlyTheNewestLives | apps/api/src/modules/auth/session.service.ts:107-113 | every session but the newest of its family is revoked |
| Sessions.SessionStore.RotateSession | apps/api/src/modules/auth/session.service.ts:114-176 | the rotation, with the family’s revocation surviving the refusal of a reused token |
| Sessions.SessionStore.RevokeSessionFamily | apps/api/src/modules/auth/repository.ts:283-292 | revokes exactly the family’s live sessions; zero reported exactly when none was live |
| Sessions.SessionStore.RevokeByRefreshToken | apps/api/src/modules/auth/session.service.ts:178-193 | ends the token’s family; an unknown token changes nothing |
| Sessions.SessionStore.IssueSession | apps/api/src/modules/auth/session.service.ts:29-68 | a first session in a family of its own |
| Sessions.SessionStore.CreateSession | apps/api/src/modules/auth/repository.ts:223-252 | one new live row, refused when the token is taken |

## Left out

- Controllers, routes, middleware, the Telegram handlers and the web client: transport over the services modelled here.
- Redis, queues, events, rate limits and drafts: the code never treats them as truth; a worker is any call of its jobs at any time.
- Audit rows and logging: they carry no decision.
- Hashing, signing and token generation: identifiers, tokens and digests are the values they stand for, which makes them injective.
- Row identifiers are naturals compared for equality and order; a bid's identifier is its position in the table.
- Timestamps that decide nothing: when a result was computed or an order created. The unpaid-refunds listing is therefore ordered by auction identifier, and no theorem depends on the order.
- The order of the bids within an answer, which both paths sort for display: answers carry the set of bids.
- Expiry of request keys: no code of the repository deletes a key row, so keys answer for good.
- Bid voiding and hold entries: no code writes them, so every bid is valid and nothing is reserved in a wallet.
- Which configuration rule was broken, and the wording and translation of refusals: one coded refusal for an invalid configuration, and the wallet's own codes for a refused fee.
- Slugs, titles, images, categories, sellers, roles and ownership: single-branch checks beside the state machine.
- Archiving a product and the keyset listings of products and auctions: they would only add easy members.
- Failures of the database itself inside a sweep: a sweep that is cut short is a reachable state from which the next one starts.
- A logout running between the statements of a rotation: sessions are modelled with each operation as one serializable step.
- Other currencies' minor units: the three currencies share one exponent, and the round trips are proved for every exponent.
