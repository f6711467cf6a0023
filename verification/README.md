# AppBid, modelled and proved in Dafny

AppBid is a reverse auction for car loans. A dealer publishes a bid request; lender agents
underwrite it with a language model and post bids through a paid gate; the dealer accepts one
bid, which pays a win premium out in three transfers and closes the request. This project
models the four parts where something can go wrong across several steps, and proves what the
marketplace can rely on.

`dafny verify dfyconfig.toml` checks the whole project.

## How it is modelled

- **Money** is counted in micro-USDC. Amounts in the ledger (columns Numeric(18,6)) are
  integers; rates, multipliers and amounts a model proposes are exact rationals (`real`).
  `Decimal.quantize` is rounding half to even (section 4.3.1 of IEEE 754-2019), `int(...)`
  truncates towards zero.
- **The ledger** is a class whose methods are single transactions; its abstract value is a
  `Store` of two maps and a sequence of settlement rows. The chain is a class holding
  balances and a log of landed transfers; a transaction hash of a settlement is a place in
  that log. Which transfers the network refuses is a parameter, as are clocks, fresh
  identifiers, the model's output and the fate of every HTTP message.
- **The settlement protocol** is a step relation with a program counter per handler
  (`Protocol`), one step per ledger transaction or transfer. It is studied at two levels:
  1. `Interleaving`: handlers interleave freely and any may be abandoned between steps. The
     theorems here need no assumption. `Races` gives runs that show what is *not* true at
     this level, because the code takes no lock: two settlements of one request (by two
     accepts that overlap, or by one after another that was abandoned past its row), an open
     bid on a closed request, an accepted bid that becomes lost.
  2. `Exclusive`: **assuming at most one mutating handler in flight per request and none
     abandoned**; handlers of different requests still interleave. "No open bid on a closed
     request" and a ledger in order between handlers hold at this level.

  In between, `SecondSettlement` and `StaleSnapshots` say, over all runs of the first level,
  what each of those outcomes takes, and that it can follow whenever that occurs:
  - a second settlement: two accepts in flight together, or one abandoned between inserting
    its row and closing the request;
  - an open bid on a closed request: a bid about to be inserted while an accept of the
    request marks its losers;
  - an accepted bid that becomes lost: the bid about to be accepted while another accept
    still has it on its list of losers.

  `Accounting` follows the money of the same runs: every transfer that landed is recorded by
  a settlement row or belongs to an accept that is still paying, failed, or was abandoned.

  `SettleRoute.AcceptBid` is the handler as one imperative method; `SoloAccept` and
  `SoloPayment` prove that the protocol's handler, run alone, does to the ledger and to the
  chain what the method does.
- **The lender agents** are a second step relation on top of the first (`LenderProtocol`):
  every evaluation is cut at its awaits, evaluations of any number of lenders interleave with
  each other and with the marketplace's handlers, and any HTTP message may be lost. All bids
  come from agents that pay from a wallet, one process per lender, on a network that never
  gives out a hash twice. `LenderSafety` holds the theorems over whole runs; they include
  everything proved of the marketplace, since the marketplace's part of such a run is a run
  of `Protocol`; `LenderSchedule` proves that each lender's part is a run of its polling
  loop. `BidRoute.EvaluateAndBid` is one evaluation as an imperative method, and
  `SoloEvaluation` proves that an evaluation run alone does what the method does.
- **The normaliser, the ranking and the scheduler** are loops over local variables or fields
  in the code and loops in methods here, each proved against a specification function about
  which the properties are then proved.

| files | code |
|---|---|
| Models, Schemas, Quantize, Digits | entities and bounds, rounding, decimal texts |
| Ledger, Wallets, Settler | store, transfers, splits |
| Protocol, Interleaving, SecondSettlement, StaleSnapshots, Exclusive, Races, Accounting | accept and bid handlers as interleaved steps |
| SettleRoute, SoloAccept, SoloPayment, Treasury | the accept route as a method, the treasury's report |
| BidPolicies, Underwriter, Guardrails, Normalizer, Parsing, Salvage | policy tables, normaliser, parse paths |
| Ranker, Ranking | `list_bids`, scoring, stable order |
| Scheduler | the polling loop of a lender |
| Handshake, BidRoute | the fee gate, the payers, one evaluation as methods |
| LenderProtocol, PaidBids, LenderSafety, LenderSchedule, SoloEvaluation | agents and marketplace together |

## What turned out false

Each of these is a property one might expect; the code does not have it. The lemmas named
give an instance and, where the property fails for a family of inputs, the exact condition.

- The marketplace's share is not monotone in the premium or the loan: 10 micro-USDC of
  premium leave it 3, 11 leave it 2 (`Settler.MarketplaceShareIsNotMonotone`). Exactly
  which two premiums, and which two loans, show it: `Settler.MarketplaceFallsExactly`,
  `Settler.LargerLoanCostsMarketplaceExactly`.
- Normalising a decision is not idempotent: `Guardrails.NegativeReserveIsDefaultedTwice` and
  `Guardrails.SubMicroProposalIsLiftedTwice` are two valid decisions on which a second pass
  changes the reserve or the amount, and `Guardrails.NormalizingTwice` says exactly when it
  changes nothing.
- A higher proposal can end with a lower amount: `Guardrails.LowProposalOvertakesHigher`,
  `Guardrails.ProposalOrderBreaksExactly`.
- A positive fee worth less than one micro-USDC is quoted as "0", which no wallet-backed payer
  can pay, so only the stub payer gets a bid in: `Handshake.QuotePayVerify`.
- A request can have two settlements (`Races.TwoSettlementsForOneRequest`,
  `Races.SettledAgainAfterAbandonment`). What it takes:
  `SecondSettlement.SecondSettlementTakes`; from where it follows:
  `SecondSettlement.PayingOnSettledSettlesAgain`.
- A closed request can have an open bid (`Races.OpenBidOnClosedRequest`). What it takes:
  `StaleSnapshots.OpenBidOnClosedTakes`; from where it follows:
  `StaleSnapshots.InsertBehindMarkingStaysOpen`.
- An accepted bid can become lost (`Races.AcceptedBidIsLost`). What it takes:
  `StaleSnapshots.LosingAcceptedTakes`; from where it follows:
  `StaleSnapshots.ListedWinnerIsLost`.

## Model

| member | source | states |
|---|---|---|
| Interleaving.EveryRunIsSafe | marketplace/routes/settle.py:70-134 | in every run, whatever interleaves or is abandoned: a closed request has a settlement, an accepted bid one naming it, a lost bid one of its own request naming another bid, every settlement names a bid of its own request and stands on three landed transfers of exactly the computed shares; no closed request reopens, no bid returns to open, nothing is deleted |
| Interleaving.StepKeepsInv | marketplace/ledger.py:59-136 | every single transaction of either handler, and abandonment, keeps the inductive invariant and only grows the store |
| Interleaving.FailedAcceptWritesNothing | marketplace/routes/settle.py:70-106 | an accept that fails for any reason changed nothing in the ledger at any of its steps, in any interleaving |
| Interleaving.LateHandlersAreShutOut | marketplace/routes/bids.py:22-29 | a handler that has not read the request when it closes is answered 409 if it is answered at all, accept or bid |
| Interleaving.LegsAreNotShared | marketplace/routes/settle.py:106-128 | no landed transfer pays for two settlements |
| Interleaving.SettledPremiumIsElevenOrMore | marketplace/routes/settle.py:87-106 | a settlement row exists only for a request whose premium is at least 11 micro-USDC |
| Interleaving.DetailIsShownExactly | marketplace/routes/settle.py:163-192 | for a request in the ledger: its row and the splits of its loan are shown exactly when it has one row and no more, whatever its status; not found exactly without a row; failed exactly with two |
| Interleaving.DetailReportsWhatWasPaid | marketplace/routes/settle.py:163-192 | the recomputed shares shown are the amounts of the transfers whose hashes the row records; and the same is shown in every later state unless a second row of the request goes in |
| SecondSettlement.SecondSettlementTakes | marketplace/routes/settle.py:70-134 | in every run, two settlements of one request take two accepts, the later of which read the request open while the earlier had not begun, was in flight, or was abandoned past its row; so the two were in flight together at some moment, or the earlier was abandoned past its row before the later read |
| SecondSettlement.SerialAcceptsSettleOnce | marketplace/routes/settle.py:70-134 | if no accept on a request begins while another is in flight, and none is abandoned between its row and closing, the request has at most one settlement at every moment, however bids are created meanwhile |
| SecondSettlement.PayingOnSettledSettlesAgain | marketplace/routes/settle.py:104-128 | from any state that keeps the invariant of every run, with a settled request and an accept paying on it, a second settlement is reachable |
| StaleSnapshots.OpenBidOnClosedTakes | marketplace/routes/bids.py:22-48 | in every run, whatever overlaps or is abandoned: a closed request has an open bid only if earlier a bid was about to be inserted while an accept of the request marked its losers |
| StaleSnapshots.InsertBehindMarkingStaysOpen | marketplace/routes/settle.py:131-134 | from any state that keeps the invariant of every run, whenever that occurs, an open bid on the closed request is reachable |
| StaleSnapshots.LosingAcceptedTakes | marketplace/routes/settle.py:130-133 | in every run, an accepted bid stops being accepted only if earlier it was about to be accepted while another accept had it on its list of losers |
| StaleSnapshots.AcceptedStaysWithoutOverlap | marketplace/routes/settle.py:130-133 | so, as long as no two accepts of its request are in flight together, an accepted bid stays accepted, whatever is abandoned and however bids are created |
| StaleSnapshots.ListedWinnerIsLost | marketplace/routes/settle.py:130-133 | from any state that keeps the invariant of every run, whenever a bid is about to be accepted while listed as a loser, a state where it is accepted and a later one where it is lost are reachable |
| Accounting.EveryLegIsAccountedFor | marketplace/routes/settle.py:102-128 | in every run, each landed transfer is recorded by the settlement row of the accept that sent it, or that accept has no row and is still paying, was answered 502, or was abandoned |
| Accounting.ChainIsPaidOutPlusStranded | marketplace/routes/settle.py:102-128 | at every moment of every run, all settlement transfers together are what the rows paid out plus exactly those stranded ones |
| Exclusive.ExclusiveRunKeepsOrder | marketplace/routes/settle.py:70-134 | with one mutating handler per request and no abandonment, what the ledger holds of each request fits the place of its handler, in every run |
| Exclusive.QuiescentRequests | marketplace/routes/settle.py:112-134 | under that assumption an idle request is open with no settlement and only open bids, or closed with exactly one settlement, its winner the one accepted bid, all others lost |
| Exclusive.AtMostOneSettlement | marketplace/ledger.py:139-145 | under that assumption the settlement query never finds two rows, and a closed request has no open bid, at every moment |
| Exclusive.ClosedRequestShowsSettlement | marketplace/routes/settle.py:163-192 | under that assumption an idle closed request shows its one settlement |
| Races.TwoSettlementsForOneRequest | marketplace/routes/settle.py:70-128 | without it: a reachable state with two settlement rows for one request, on which the query raises |
| Races.SettledAgainAfterAbandonment | marketplace/routes/settle.py:128-134 | with no overlap at all: an accept abandoned past its row leaves the request open with one row and nothing in flight, and a later accept settles it again |
| Races.OpenBidOnClosedRequest | marketplace/routes/bids.py:22-48 | without it: a reachable state with an open bid on a closed request |
| Races.AcceptedBidIsLost | marketplace/routes/settle.py:129-133 | without it: a run in which an accepted bid becomes lost |
| SettleRoute.AcceptBid | marketplace/routes/settle.py:64-152 | on 200 the ledger becomes the accepted store, otherwise it is unchanged; the chain gains exactly the payouts that landed before the first failure; a 200 gives the dealer's wallet exactly the dealer's share and the reserve wallet exactly the reserve, at the expense of the marketplace's, and leaves every other wallet as it was |
| SettleRoute.AcceptAnswersExactly | marketplace/routes/settle.py:70-120 | when each answer is given: 404, 409, 503 exactly when a wallet is named nowhere, 200 exactly when the premium is at least 11 micro-USDC and the network refuses none of the three transfers, else 502 |
| SettleRoute.SettleAndClose | marketplace/routes/settle.py:119-134 | row inserted, winner accepted, every other open bid of the request lost, request closed, all else unchanged |
| SettleRoute.AcceptedStoreIsQuietClosed | marketplace/routes/settle.py:119-134 | from an open request with only open bids this leaves exactly one settlement, one accepted bid, all others lost; other requests are untouched |
| SoloPayment.SoloAcceptRefinesMethod | marketplace/routes/settle.py:64-152 | the protocol's handler run alone answers as the method does on a network with the same refusals, leaves the same ledger, and puts exactly the same transfers on the chain |
| Ledger.Database.SaveRequest | marketplace/ledger.py:24-39 | inserts the row unless its identifier is taken; nothing else changes |
| Ledger.Database.UpdateRequestStatus | marketplace/ledger.py:59-64 | sets one request's status, or raises when it is missing; nothing else changes |
| Ledger.Database.SaveBid | marketplace/ledger.py:70-91 | inserts the row unless its identifier is taken; nothing else changes |
| Ledger.Database.ListBidsForRequest | marketplace/ledger.py:102-110 | exactly the request's bids, each once, oldest first |
| Ledger.Database.UpdateBidStatus | marketplace/ledger.py:113-118 | sets one bid's status, or raises when it is missing; nothing else changes |
| Ledger.Database.SaveSettlement | marketplace/ledger.py:124-136 | appends the row; nothing forbids a second one for a request |
| Ledger.Database.GetSettlementForRequest | marketplace/ledger.py:139-145 | none exactly when no row is the request's, a row exactly when it is the only one, an error when two different rows are |
| Ledger.MatchingFinds | marketplace/ledger.py:139-145 | the query selects exactly the rows of the request |
| Schemas.RequestEdges | shared/models.py:64-73 | of every bounded field of a request, the last values that validate and the first that do not |
| Schemas.DecisionEdges | shared/models.py:159-174 | the same for a decision, whose amount may be zero |
| Schemas.BidEdges | shared/models.py:195-209 | a posted bid is bounded as its decision, but its amount may not be zero |
| Quantize.RoundHalfEven | marketplace/settler.py:26-43 | the nearest integer, at most half away, the even one when tied |
| Quantize.RoundingIsUnique | marketplace/settler.py:26-43 | no other integer meets that description |
| Quantize.RoundingIsMonotone | marketplace/settler.py:26-43 | rounding keeps order |
| Settler.SplitsAreExact | marketplace/settler.py:31-43 | for every loan and rate the shares are not negative and add up to the premium; all three legs are positive if and only if the premium is at least 11 micro-USDC |
| Settler.MarketplaceWithinThreeQuarters | marketplace/settler.py:39-43 | the marketplace's remainder is within 3/4 micro-USDC of 25 percent |
| Settler.SharesHavePeriodForty | marketplace/settler.py:39-43 | the rounding pattern of the shares repeats every 40 micro-USDC of premium |
| Settler.SplitsGrowWithLoan | marketplace/settler.py:31-43 | premium, dealer's share and reserve never fall as the loan grows; the marketplace's falls by one micro-USDC at most |
| Settler.MarketplaceFallsExactly | marketplace/settler.py:39-43 | for any two premiums p <= q, q leaves the marketplace less exactly when p is 9 modulo 40 and q is p + 2, p is 10 modulo 40 and q is p + 1, or p is 29 modulo 40 and q is p + 1 or p + 2 |
| Settler.LargerLoanCostsMarketplaceExactly | marketplace/settler.py:31-43 | the same for any two loans at any rate, by the premiums they come to |
| Settler.MarketplaceShareIsNotMonotone | marketplace/settler.py:39-43 | a premium of 10 gives it 3, one of 11 gives it 2 |
| Settler.SettlementGoesThroughFromEleven | shared/wallets.py:198-199 | on a willing network all three legs land if and only if the premium is at least 11 micro-USDC |
| Settler.ResolutionNamesWallets | marketplace/settler.py:52-71 | resolution succeeds exactly when all three wallets are named; a setting wins over the file, the dealer's comes from the file, and the marketplace's pays |
| Settler.SettlementMovesShares | marketplace/settler.py:84-96 | what a completed settlement does to the balance of any wallet |
| Settler.SettlementCostsDealerPlusReserve | marketplace/settler.py:84-96 | a completed settlement costs the marketplace's wallet exactly the dealer's share and the reserve |
| Wallets.Network.TransferUsdc | shared/wallets.py:196-238 | a non-positive amount raises; otherwise the transfer lands as a balance move and a log entry, or the network refuses it and nothing changes |
| Wallets.Network.BatchedTransfer | shared/wallets.py:241-255 | either every payout landed and the hashes align with them, or it raised and exactly the prefix before the first failure landed |
| Wallets.LandedCountIs | shared/wallets.py:251-255 | that prefix is the only one that lands up to a failing payout |
| Wallets.SendAllAppends | shared/wallets.py:251-255 | sending extends the log by exactly the payouts, in order, and moves exactly their amounts |
| Wallets.TransfersConserveTotal | shared/wallets.py:241-255 | the total over any list of wallets naming both ends of every transfer never changes |
| Treasury.ReportedTotalsDriftByRounding | marketplace/routes/treasury.py:38-52 | the report computed from the sum of loans is within (n + 1)/2, 0.85(n + 1), 0.525(n + 1) and 0.875(n + 1) micro-USDC of the sums of the n individual splits; its own parts add up exactly |
| Treasury.PaidOutIsSumOfSplits | marketplace/routes/treasury.py:38-52 | what settled rows moved on the chain is the sum of the splits of the joined loans |
| Treasury.TreasuryTracksChain | marketplace/routes/treasury.py:27-63 | at every moment of every run the report is within those bounds of what was really paid out |
| Treasury.FiledBidRaisesFees | marketplace/routes/treasury.py:46-57 | one more bid raises the reported bids by one and the reported fees by exactly the fee, and changes nothing else |
| Treasury.InsertedRowRaisesSettlements | marketplace/routes/treasury.py:32-44 | one more row raises the reported settlements by one and adds the loan of its request to the sum that is split |
| BidPolicies.TablesAreSound | data/bid_policies.py:307-372 | for listed and unlisted lenders: bands, reserves, multipliers and caps lie where the guardrails need them |
| Normalizer.SheetsOnTwentyThousand | data/bid_policies.py:335-372 | the most each lender, and an unlisted one, allows on 20,000 USDC at three scores; the hard cap of the one that has one |
| Normalizer.SheetsOnLongTerm | data/bid_policies.py:335-372 | the same on a term that carries the penalty |
| Normalizer.SheetsAtTheEnds | data/bid_policies.py:307-333 | what each makes of an APR far too low or too high, of a large reserve and of none |
| Underwriter.NormalizeDecision | agents/underwriter.py:149-232 | the reassignments and early return compute the specified decision |
| Underwriter.RescaleApr | agents/underwriter.py:172-184 | the factor loop and clamp compute the specified APR |
| Underwriter.ApplyAdjustments | agents/underwriter.py:194-208 | the adjustments in turn compute the specified multiplier |
| Underwriter.LimitAmount | agents/underwriter.py:186-224 | lift, cap, floor and rounding compute the specified amount |
| Guardrails.MaxAllowedIsMonotone | agents/underwriter.py:186-212 | the most a lender may approve is monotone in loan and score, antitone in term, ordered used, new, electric, for every lender |
| Guardrails.AmountShape | agents/underwriter.py:209-224 | the chain of reassignments comes to: near par, the ceiling; else the smaller of proposal and ceiling, rounded |
| Guardrails.AmountIsBounded | agents/underwriter.py:186-224 | the amount lies between the smaller of loan and hard cap and the ceiling, and is never below the rounding of the smaller of proposal and ceiling |
| Guardrails.AprIsInBand | agents/underwriter.py:172-184 | the APR lands in the lender's band, twice is once, and an APR already in the band stays |
| Normalizer.DriftIsUndone | agents/underwriter.py:175-184 | an APR in the band that drifted by one or two decimal places is read as it was meant |
| Normalizer.AprOutsideBand | agents/underwriter.py:172-184 | what becomes of any APR outside the band: a tenth wins over a hundredth, and without either the nearer end |
| Normalizer.ReserveUnderCap | agents/underwriter.py:150-160 | under a cap a positive reserve is kept up to it, a negative one dropped, and zero stands for the default |
| Normalizer.MultiplierByScore | agents/underwriter.py:194-199 | the multiplier steps at scores of 620 and 740 |
| Normalizer.MultiplierByTermAndVehicle | agents/underwriter.py:201-208 | the penalty beyond 72 months and the two points of a used car, both floored at par, and the point of an electric one |
| Normalizer.OfferKeepsTheRest | agents/underwriter.py:226-232 | an approval or counter keeps all but its APR, reserve and amount |
| Normalizer.DeclineOffersNothing | agents/underwriter.py:162-171 | a decline has no APR, amount or cash down and the term asked for, and keeps the rest |
| Guardrails.ReserveIsStable | agents/underwriter.py:150-160 | the reserve lands in its policy's range; exactly when a second pass leaves it |
| Guardrails.NormalizingTwice | agents/underwriter.py:149-232 | exactly when normalising twice equals normalising once |
| Guardrails.NegativeReserveIsDefaultedTwice | agents/underwriter.py:150-160 | a reserve of -100 becomes 0 at the first pass and the default of 200 at the second, on any valid request |
| Guardrails.SubMicroProposalIsLiftedTwice | agents/underwriter.py:209-224 | a proposal of 101.3 on a loan of 100 becomes 101 at the first pass and 108 at the second |
| Guardrails.NormalizingIsIdempotentOnGrid | agents/underwriter.py:149-232 | it always does for a proposal in whole micro-USDC and a reserve that is not negative |
| Guardrails.NormalizedFitsSheet | agents/underwriter.py:226-232 | amount, APR and reserve of the unvalidated copy lie on the lender's sheet: the amount between the smaller of loan and hard cap and the most allowed, the APR in the band, the reserve as the policy has it |
| Guardrails.ProposalOrderBreaksExactly | agents/underwriter.py:209-224 | exactly when a higher proposal ends with a lower amount |
| Guardrails.LowProposalOvertakesHigher | agents/underwriter.py:209-224 | an instance of that |
| Parsing.ParseDecision | agents/underwriter.py:235-264 | strict reading, else salvage, else fallback if allowed, else an error; then normalised |
| Parsing.Evaluate | agents/underwriter.py:296-320 | the retry loop: the first attempt that parses decides, only the second may fall back |
| Parsing.EvaluationFailsExactly | agents/underwriter.py:296-320 | underwriting fails if and only if the second call fails after the first failed or was unreadable |
| Parsing.FallbackDeclines | agents/underwriter.py:109-146 | the fallback always validates and always declines |
| Salvage.WordDecides | agents/underwriter.py:44-60 | exactly which words salvage reads as an approval and as a counter-offer; every other, and a missing one, declines |
| Salvage.SpelledOfferIsRead | agents/underwriter.py:109-146 | salvage agrees with the strict reading: a valid offer within the band, spelled out as a payload, is read as itself |
| Salvage.SpelledDeclineIsCleared | agents/underwriter.py:109-146 | a spelled decline is read as one that offers nothing |
| Salvage.MissingFieldsDefault | agents/underwriter.py:109-146 | the default of every missing and of every empty field |
| Salvage.SalvagedAprIsClamped | agents/underwriter.py:126-132 | salvage clamps an APR and undoes no drift |
| Salvage.SalvageFailsExactly | agents/underwriter.py:109-146 | salvage raises exactly when a numeric field holds something that is not empty and no number |
| Salvage.StrictReadingWins | agents/underwriter.py:235-246 | what validates strictly is never salvaged |
| Salvage.SalvageIsNext | agents/underwriter.py:246-264 | else a valid salvage decides, and only then the fallback, which declines, or an error |
| Salvage.FirstReadableDecides | agents/underwriter.py:296-320 | a readable first answer decides, whatever the second would be |
| Parsing.EveryApprovalIsPostable | agents/lender.py:42-55 | whatever the model answers, an approval satisfies every bid bound, the strictly positive amount included, and the lender's sheet, both ends of the amount and the reserve included |
| Ranker.ReputationBook.SetReputation | marketplace/ranker.py:24-25 | the value clamped to the unit interval, for that lender only |
| Ranker.ListBids | marketplace/routes/bids.py:51-66 | the dictionary loop and the sort compute the specified listing of the request's bids |
| Ranking.LoopKeepsLatestOnly | marketplace/routes/bids.py:56-62 | the loop keeps exactly the last bid of each lender, in the order of the lenders' first bids |
| Ranking.RankedIsStablySorted | marketplace/ranker.py:47-58 | ranking keeps every entry, orders by score then age, and keeps ties in place |
| Ranking.StableSortIsUnique | marketplace/ranker.py:47-58 | nothing else is a stable sort |
| Ranking.ListingRefinesSpec | marketplace/routes/bids.py:56-66 | `list_bids` is exactly the stably sorted list of each lender's latest bid |
| Ranking.NewBidLeavesOthers | marketplace/routes/bids.py:56-62 | a new bid of one lender leaves the listing of all others exactly as it was |
| Ranking.BetterRebidStandsNoLater | marketplace/ranker.py:28-58 | a re-bid with a strictly lower score never worsens its lender's place |
| Ranking.ListingIgnoresStatus | marketplace/ranker.py:28-44 | listing the same bids with other statuses gives the same order and scores |
| Ranking.AcceptKeepsRanking | marketplace/routes/settle.py:129-134 | whatever the query lists after an accept, in whatever order it puts bids of the same instant, it may have listed before, and the two rank alike with the same scores |
| Ranking.RelistedRanksTheSame | marketplace/routes/bids.py:56-66 | conversely, whatever the query may list before an accept it may list after it, ranking alike with the same scores |
| Ranking.AcceptKeepsTheRanking | marketplace/ledger.py:102-110 | in particular, when the request's bids were created at different times, every listing after the accept ranks as every listing before it |
| Ranking.DominatingScoresLower | marketplace/ranker.py:28-44 | no worse on all six criteria and better on one means a strictly lower score |
| Ranking.DominatingStandsAhead | marketplace/ranker.py:47-58 | such a bid stands strictly ahead, so the first bid is dominated by none |
| Ranking.StipulationIsWorth | marketplace/ranker.py:28-44 | the rates of exchange: one stipulation weighs 50 points, as much as 50 bps of APR, 100 bps of reserve, 50,000 USDC of cash down, one half of confidence or one quarter of reputation |
| Ranking.ListedByScoreThenAge | marketplace/ranker.py:47-58 | of two listed bids the one with the lower score stands first, and with equal scores the older |
| Ranking.ListedScoresAreTheirs | marketplace/ranker.py:57-58 | a listed score is that of its bid with its lender's reputation |
| Scheduler.Lender.PollOpenRequests | agents/lender.py:175-189 | the loop over one window computes the specified agent state |
| Scheduler.Lender.OnDone | agents/lender.py:189 | a finished task leaves the running set and stays seen |
| Scheduler.EveryAgentRunIsOk | agents/lender.py:167-194 | over every run of one process: at most one evaluation per request, never more than the limit at once, seen is running plus finished, nothing is seen without an evaluation |
| Scheduler.VisitStartsFirstUnseen | agents/lender.py:175-189 | a poll starts exactly the first unseen requests of its window, in order, as many as there are free slots |
| Scheduler.PollStartsFirstOfWindow | agents/lender.py:159-165 | of a list longer than the window a poll starts exactly the first unseen requests among the first `maxOpen` |
| Scheduler.StartAllStarts | agents/lender.py:182-189 | starting them adds each to the seen and the running set, in order, and changes nothing else |
| Scheduler.VisitStartsUpToLimit | agents/lender.py:176-178 | unless the limit is reached nothing in the window is left unseen; what the limit skips stays unseen, to be found again |
| Scheduler.AllStartedExactly | agents/lender.py:167-194 | in every run in which n open requests fit the window, none arrive and tasks finish between polls, all are started after k answered polls if and only if n is at most k times the limit |
| Scheduler.SteadyRunExists | agents/lender.py:167-194 | any windows showing the open requests can be polled one after another in such a run |
| LenderSchedule.LenderRunsItsLoop | agents/lender.py:167-194 | in every run of all agents, the evaluations one lender begins are those a run of its polling loop starts, in the same order, with the same seen, running and finished requests, under any in-flight limit the lender keeps |
| LenderSchedule.NoSecondEvaluation | agents/lender.py:179-189 | no lender begins two evaluations of one request |
| Digits.ParsePrint | agents/payment.py:38-57 | `int(str(n)) == n`, so different amounts print differently |
| Digits.PrintParseExactly | agents/payment.py:38-57 | `str(int(s)) == s` exactly for texts in canonical form: no white space, plus sign, underscore or leading zero |
| Handshake.AtomicRoundTrip | shared/wallets.py:28-29 | an amount survives the division to USDC and the way back to atomic units |
| Handshake.TransferIsTheQuote | agents/payment.py:38-43 | the wallet-backed payer transfers exactly when the quote is a positive number, and then that number of atomic units |
| Handshake.GateOpensExactly | marketplace/x402_service.py:48-60 | with a positive fee a payment gets through if and only if its hash is well formed and its amount is the required one in canonical form |
| Handshake.GateOverAnyHeader | marketplace/x402_middleware.py:93-128 | over every header: without a fee everything passes without a hash; with one only an envelope that pays it passes, with its hash, a missing header is quoted the whole units of the fee, and all else is refused |
| Handshake.WellFormedHashesAre | marketplace/x402_service.py:21 | the hash pattern: 0x, 64 hexadecimal digits of either case, and nothing more but possibly one line feed |
| Handshake.QuotePayVerify | marketplace/x402_middleware.py:89-128 | quote, pay, verify completes exactly for a fee of at least one atomic unit; the transfer is the whole units of the fee; the hash goes with the bid |
| BidRoute.CreateBid | marketplace/routes/bids.py:20-48 | 404, 409 or exactly one new open bid carrying the verified hash |
| BidRoute.CreateAnswersExactly | marketplace/routes/bids.py:22-29 | when each answer is given |
| BidRoute.PostBid | marketplace/x402_middleware.py:84-128 | with a fee, any header but an envelope that pays it leaves the ledger unchanged and is answered 402; otherwise a valid body on an open request is filed, with the verified hash; no answer comes back exactly when the transport fails |
| BidRoute.PayQuote | agents/payment.py:33-57 | exactly one transfer of the quoted amount or none; a failure after it leaves it landed |
| BidRoute.EvaluateAndBid | agents/lender.py:72-157 | the number of posts, the transfer and the filed bid are exactly those described for the decision and its circumstances; decline, counter, failure and a package that breaks a bound post nothing; the identifier is returned only for a bid that was filed |
| SoloEvaluation.SoloEvaluationRefinesMethod | agents/lender.py:72-157 | an evaluation of the interleaved agents, run alone to its end, makes the posts, the payment and the bid that the method makes for the decision its replies come to |
| BidRoute.UnderwrittenBidIsFiledExactly | agents/lender.py:77-157 | an underwritten approval is filed exactly when the posts arrive, the request is open and the fee is paid: the schemas never stand in the way |
| BidRoute.FiledBidCarriesDecision | agents/lender.py:42-55 | a filed bid is the approved decision itself, for its lender, on its open request, with the hash of the accepted payment |
| PaidBids.WorldStepKeepsInv | agents/lender.py:77-157 | every step of every agent and of the marketplace keeps the joint invariant of posts, payments, handlers and bids |
| LenderSafety.EvaluationIsBounded | agents/lender.py:77-157 | in every run each lender makes at most two posts and one payment for a request and never has more than one bid on it |
| LenderSafety.NoApprovalNoTrace | agents/lender.py:77-97 | a decline, a counter or an underwriter failure leaves no post, no payment and no bid for the rest of the run |
| LenderSafety.EveryBidIsWithinSheet | agents/underwriter.py:226-258 | every bid ever in the ledger satisfies every schema bound and its lender's sheet for the request: amount, APR and reserve |
| LenderSafety.EveryBidIsPaidFor | marketplace/x402_middleware.py:89-128 | where all bidders are lender agents paying from wallets, and the fee is positive, every bid carries the hash of exactly one payment, by its own lender for its own request, of the whole units of the fee; no two bids share a hash |
| LenderSafety.ReportedFeesAreCollected | marketplace/routes/treasury.py:46 | reported insertion fees exceed the payments received by less than one micro-USDC a bid, and not at all for a fee in whole micro-USDC |
| LenderSafety.MarketIsARun | marketplace/routes/bids.py:20-48 | in every run of the agents the marketplace's part is a run of its own protocol |
| LenderSafety.EverySettlementStandsOnAPaidBid | marketplace/routes/settle.py:87-128 | every settlement was paid out in three exact transfers and its winning bid is within the sheet of a lender who paid the fee for it |
| LenderSafety.BeginsExactlyWhenOpen | agents/lender.py:159-186 | an evaluation can begin exactly for an open request its lender has not seen |
| LenderSafety.ApprovalGetsToPosting | agents/lender.py:77-99 | from any reachable point an evaluation of an open request can begin, and an approval gets it to the point of posting |
| LenderSafety.HonestBidGoesThrough | agents/lender.py:99-157 | from any reachable point an approved bid on an open request can be quoted, paid, posted again and inserted |

## Left out

- HTTP, routing, FastAPI, SQLAlchemy and pydantic internals; validation is a predicate on field bounds and each ledger call one atomic step. The path pattern and the method test of the gate are not modelled: every post here is a post of a bid.
- UUIDs, clocks, environment settings and logging: identifiers and times are parameters.
- The inference call, prompts, JSON and base64 decoding, `_extract_json_object`, `_normalize_stipulations` and the stripping and lower-casing of the decision word: the model's output enters as what it strictly validates to and as a salvaged object, either of which may be missing.
- Float rounding, NaN and infinities in the score and in the salvage path (exact reals here); the 28-digit context of Decimal; the rounding of a stored confidence to Numeric(4,3).
- Parsing.ParseDecision: stipulations arrive normalised, and what `float` and `int` make of a text is given with the text.
- The CDP SDK, its legacy mode, address look-ups and the chain itself: a transfer is an ideal balance move that may be refused. The stub settlement executor, faucet and wallet-creation code, and reading wallets.json.
- The remote facilitator, the server cache of `get_x402_server` and the x402 library: verification is the local facilitator's.
- Digits.ParsePrint: ASCII digits and white space only, and no limit on the length of an integer text.
- `FUNDED_PENDING` is declared but set nowhere; no request reaches it here (it is answered like any request that is not open).
- Fields no decision depends on: names filled in for display, the settlement's own timestamp and network, response bodies beyond status, quote and identifier.
- `list_requests` and its order: the scheduler takes any window of identifiers.
- LenderProtocol has one process per lender and wallet-backed payers only; a restarted process forgets what it has seen and could bid again. The stub payer appears in Handshake and BidRoute.
- LenderSafety.EveryBidIsPaidFor: speaks of runs in which every bidder is a lender agent paying from a wallet; the gate itself trusts a well-formed hash from anyone, and signatures, on-chain receipts and hashes used by others are not modelled.
- User interfaces, GPU telemetry, training, synthetic data, benchmarks, deployment and demonstration scripts.
