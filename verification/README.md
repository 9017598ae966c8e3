# Verified model of the myDex block consumer

The consumer follows Solana slots, stores one row per slot, derives a SOL price from the swaps of each block and prices
pump.fun trades with it. This project models that logic in Dafny and proves what holds for every block, every run and
every interleaving.

Go maps of pointers, arrays and services are classes that their methods update in place; each method is proved against
a value-level specification, and the properties are lemmas about that specification. The workers, the two channels, the
scanner of failed slots and the table form one state machine of interleaved steps; the method that handles a single slot
is shown to be a path through it.

## The parts

- `TokenAccounts`, `TransactionEvents`, `AccountHistory`: the token account map of a block, updated in place, what a
  transaction says about it, and what it holds after any number of transactions.
- `SwapMatching`, `SwapOwners`, `SwapPrice`, `SwapPriceProperties`: the greedy pairing of WSOL with USDC transfers and
  the price of a group of transfers.
- `TrimmedMean`, `TrimmedMeanProperties`: the aggregate that drops one smallest and one largest price.
- `WalkOrder`, `BlockOutcomes`: what the order of a map walk may change, in one pass and in a whole block.
- `SolPrice`, `PricedLists`, `SolPriceProperties`: from a block to its price.
- `PriceByOrder`, `BlockPriceByOrder`, `PriceExample`: when the order of the walks can change a price.
- `BlockFetch`, `BlockStore`, `HandlingProperties`: the bounded retry loop, the block table and the handling of a slot.
- `Pipeline`, `PipelineProperties`, `PipelineChannels`: all interleavings.
- `SlotRescan`: the loop that sends failed slots back.
- `SlotProducer`: the reconnecting subscription that yields the slots.
- `EventCursor`, `PumpEvents`, `PumpProperties`: the event cursor shared by the pump instructions of a block, and the
  prices of the events.
- `AccountFlags`: signer and writable flags in eight-bit arithmetic.
- `GoArith`, `Picking`, `Chain`: Go arithmetic and strings, lists characterized by counting, and the block data.

## Where the code falls short of what one would expect

Each of these is proved with its exact condition, and with an input that shows it where one is named.

- The decimals pass ends as some order of the map decides (`DecimalsPassIff`). It keeps an account's decimals for every
  order exactly if all accounts of the mint already agree (`DecimalsSurviveIff`), and a block has one course exactly if
  its events alone keep them in agreement (`OneRunIff`). An account initialized inside a transaction enters with 0
  decimals and can erase the others (`InitializeMayEraseDecimals`).
- So the order can decide a price (`PriceDependsOnOrder`). It does not for a list of transfers exactly if WSOL and USDC
  each go into the pass with one number of decimals (`ListPriceIff`), and not for the prices of a block exactly if each
  can have but one after every priced transaction (`BlockPricesIff`). How much is at stake is a power of ten for each
  decimal (`WsolScale`, `UsdcScale`).
- Only the index of the pump events is reset between transactions, not the events. A transaction is sure to read its own
  events exactly if none are held when it starts (`OwnEventsIff`); otherwise it reads those of the first transaction
  that filled the list (`BlockPricedWithFirstEvents`, `SecondBuyHasFirstPrice`).
- A rejected buy or sell leaves its event in the list. A later one reads the event at its own place exactly if none
  before it was rejected (`ReadsOwnPlaceIff`, `RejectedBuyLeavesEvent`).
- The unsigned amounts of a pump event are read as signed numbers. The price is unaffected exactly if both are below
  2^63, one is 0, or they are equal (`SignedPriceIff`); it may be negative (`PriceSign`,
  `LargeAmountsGiveNegativePrices`).
- The account flags are right for all keys exactly up to 255 keys, or at 256 keys of which some are readonly and
  unsigned (`FlagsFollowLayoutIff`).
- A skipped slot is recognised at the first request exactly if the message matches no retry pattern
  (`SkippedAtOnceIff`); a slot number containing 429 does (`SkippedSlotReadsAsRateLimit`).
- A processed row may be saved as failed later (`ProcessedMayBecomeFailed`). It stays processed exactly as long as no
  error is saved over it (`ProcessedStaysIff`, `ProcessedDuringIff`), and is processed again exactly if a block is saved
  after every such error (`ProcessedAtIff`).
- The price is never written to the table, so the two fallbacks give a price exactly if the row, or the nearest earlier
  processed row, had one before the run (`PricesStayAsStarted`, `FallbacksGivePriceIff`).

The schema comment lists statuses 1 and 2 only; the code also writes 3 for skipped slots, and the model follows the code.

## Hypotheses

- The history lemmas speak of lists of events, one list a transaction; a block is the instance
  `AccountHistory.EventLists`.
- Program indices and account indices of balances are in range, as are the accounts that the code reads of an initialize
  or transfer instruction, and token instructions carry a tag byte (`Chain.InRange`): the Go code panics otherwise. Only
  for account 3 of a pump instruction is the panic itself modelled.
- A transaction has its metadata. Without it the Go code already panics when it looks for inner instructions
  (myConsumer/internal/logic/block/sol_price_service.go:348), before any price and any pump instruction.
- `BlockPriceBetweenRates` assumes that no 64-bit total overflows and that every matched pair moves some WSOL, otherwise
  a pair has no rate. The wrap-around itself is modelled in the totals, and the statements on matching, conservation and
  sign need neither assumption.

## Model

| member | source | states |
|---|---|---|
| TokenAccounts.AddPreBalance | myConsumer/internal/logic/block/sol_price_service.go:376-390 | a pre balance enters its account only when the map does not know it yet; a known entry is untouched |
| TokenAccounts.UpdateEntry | myConsumer/internal/logic/block/sol_price_service.go:397-407 | a post balance of a known account reopens the entry, sets PostValue, keeps everything else, replaces the decimals only by non-zero ones, and reports whether PreValue differs |
| TokenAccounts.AddPostBalance | myConsumer/internal/logic/block/sol_price_service.go:394-421 | the same, or a new entry with PreValue 0; a new entry never reports a change |
| TokenAccounts.FilterIntializeAccount | myConsumer/internal/logic/block/sol_price_service.go:467-509 | an initialize instruction that is long enough replaces its account by a fresh entry with 0 decimals unless the mint is already that of the entry; anything else changes nothing and asks to skip |
| TokenAccounts.AddInitializedAccounts | myConsumer/internal/logic/block/sol_price_service.go:427-436 | the token-program instructions of a list are applied in order, all others are ignored |
| TokenAccounts.AddInnerInitializedAccounts | myConsumer/internal/logic/block/sol_price_service.go:439-453 | likewise for every list of inner instructions, in order |
| TokenAccounts.AddPreBalances | myConsumer/internal/logic/block/sol_price_service.go:375-391 | the map after the loop over pre balances is the replay of their events |
| TokenAccounts.AddPostBalances | myConsumer/internal/logic/block/sol_price_service.go:393-422 | the map after the loop over post balances is the replay of their events, and hasChange is true exactly if one of them reports a change when reached |
| TokenAccounts.CollectDecimals | myConsumer/internal/logic/block/sol_price_service.go:455-458 | whatever the walking order, every mint of the map gets decimals that one of its accounts holds |
| TokenAccounts.WriteDecimals | myConsumer/internal/logic/block/sol_price_service.go:459-461 | every entry takes the decimals of its mint, updated in place; nothing else changes |
| TokenAccounts.UnifyDecimals | myConsumer/internal/logic/block/sol_price_service.go:455-461 | for every walking order: one number of decimals per mint, held before by an account of the mint, and no other change |
| TokenAccounts.ApplyTransaction | myConsumer/internal/logic/block/sol_price_service.go:371-453 | the map before the decimals pass is the replay of pre, post, outer and inner initialize events, in that order |
| TokenAccounts.FillTokenAccountMap | myConsumer/internal/logic/block/sol_price_service.go:371-465 | the in-place update of the shared map is one replay step followed by one decimals pass, and returns hasChange |
| TokenAccounts.HasChangeIff | myConsumer/internal/logic/block/sol_price_service.go:393-404 | hasChange is true exactly if some post entry finds its account in the map with another PreValue at the moment it is reached |
| AccountHistory.DecimalsUniform | myConsumer/internal/logic/block/sol_price_service.go:455-461 | after every transaction of every block, accounts of one mint agree on decimals that were held before the pass |
| AccountHistory.RunIsReplay | myConsumer/internal/logic/block/sol_price_service.go:371-465 | at any point of any block the map is, up to decimals, the plain replay of all events so far: the decimals pass commutes with everything else |
| AccountHistory.ReplayExplained | myConsumer/internal/logic/block/sol_price_service.go:376-421 | an entry exists exactly if it was born; its owner, mint and PreValue are those of its birth event, PostValue is the last post amount since, and it is closed exactly if it was born from a pre balance and not posted since |
| AccountHistory.BirthIsFirstTouch | myConsumer/internal/logic/block/sol_price_service.go:496-507 | the birth event is the first event naming the account exactly if no later initialize instruction carries another mint |
| AccountHistory.MapHistory | myConsumer/internal/logic/block/sol_price_service.go:371-509 | the two previous statements for the map of any block, at any transaction; keys equal addresses |
| AccountHistory.KeysPersist | myConsumer/internal/logic/block/sol_price_service.go:371-509 | no account is ever removed from the map |
| AccountHistory.ChangeHistory | myConsumer/internal/logic/block/sol_price_service.go:393-404 | hasChange of a transaction, read off the block's events alone: some post amount differs from the PreValue with which its account's entry was born |
| TransactionEvents.InitEventsListed | myConsumer/internal/logic/block/sol_price_service.go:467-493 | the initialize events of a list are those of its token instructions with tag 1, 16 or 18 that are long enough, with their account, owner and mint, in order |
| TransactionEvents.EventsListed | myConsumer/internal/logic/block/sol_price_service.go:371-453 | the events of a transaction are its pre balances, its post balances, and the initialize instructions of all its outer and then all its inner lists |
| TransactionEvents.PreIsEntered | myConsumer/internal/logic/block/sol_price_service.go:376-391 | every account of a pre balance is in the map afterwards |
| TransactionEvents.PostIsEntered | myConsumer/internal/logic/block/sol_price_service.go:393-421 | every account of a post balance is in the map afterwards |
| TransactionEvents.InitializedIsEntered | myConsumer/internal/logic/block/sol_price_service.go:424-453 | every account that an outer or inner instruction initializes is in the map afterwards, under its mint unless a later instruction names it again |
| TransactionEvents.InnerInitializedIsEntered | myConsumer/internal/logic/block/sol_price_service.go:439-453 | the same by position, for inner instruction i of record r |
| TransactionEvents.DecimalsExplained | myConsumer/internal/logic/block/sol_price_service.go:376-421 | without the passes an entry has the decimals of its birth until a post balance brings other ones that are not 0 |
| WalkOrder.DecimalsPassIff | myConsumer/internal/logic/block/sol_price_service.go:455-461 | the outcomes admitted for the decimals pass are exactly those of visiting the map's accounts in some order, the last account of each mint winning |
| WalkOrder.DecimalsSurviveIff | myConsumer/internal/logic/block/sol_price_service.go:455-461 | an account keeps its decimals under every walking order exactly if all accounts of its mint already hold them |
| WalkOrder.OneOutcomeIff | myConsumer/internal/logic/block/sol_price_service.go:455-461 | the pass has a single outcome exactly if no mint holds conflicting decimals before it |
| WalkOrder.InitializeMayEraseDecimals | myConsumer/internal/logic/block/sol_price_service.go:501-507 | one transaction, with one balance record and one initialize instruction, after which FillTokenAccountMap may leave a known account with 0 decimals or with its 9 |
| BlockOutcomes.TracksReplay | myConsumer/internal/logic/block/sol_price_service.go:371-465 | as long as the plain replay of a block's events never holds different decimals for a mint, every run has the mint's accounts exactly as the replay has them |
| BlockOutcomes.ConflictsOfRun | myConsumer/internal/logic/block/sol_price_service.go:455-461 | whether the passes of a run ever meet different decimals for a mint is decided by the events alone, so it is the same for all runs |
| BlockOutcomes.OneRunIff | myConsumer/internal/logic/block/sol_price_service.go:30-47 | a block has a single course of maps and changes exactly if replaying its events without any pass never leaves the accounts of a mint with different decimals |
| BlockOutcomes.MayHoldIff | myConsumer/internal/logic/block/sol_price_service.go:371-465 | the decimals that a mint may have after a transaction, computed from the block's events, are exactly those that some run gives it |
| BlockOutcomes.MixRuns | myConsumer/internal/logic/block/sol_price_service.go:371-465 | mints are independent: one mint as in one run and all others as in another is again a run |
| PriceByOrder.MatchingSame | myConsumer/internal/logic/block/sol_price_service.go:264-310 | maps that are equal up to decimals give the same pairs and the same totals |
| PriceByOrder.WsolScale | myConsumer/internal/logic/block/sol_price_service.go:314-319 | n more decimals for WSOL make a price 10^n times as large |
| PriceByOrder.UsdcScale | myConsumer/internal/logic/block/sol_price_service.go:314-319 | n more decimals for USDC make it 10^n times as small |
| PriceByOrder.LastPairScales | myConsumer/internal/logic/block/sol_price_service.go:294-319 | the price is the ratio of the 64-bit totals with the decimals of the accounts that the last pair moves from |
| PriceByOrder.ListPriceIff | myConsumer/internal/logic/block/sol_price_service.go:253-320 | a list with a pair and positive totals has the same price for every walking order exactly if, before the pass, the accounts of WSOL agree on their decimals and those of USDC as well |
| BlockPriceByOrder.GroupsSame | myConsumer/internal/logic/block/sol_price_service.go:70-179 | which transfer lists are priced does not depend on decimals |
| BlockPriceByOrder.OneBlockPrice | myConsumer/internal/logic/block/sol_price_service.go:29-61 | when the plain replay never holds different decimals for WSOL, nor for USDC, all runs of a block have the same prices and settle on the same price, whatever the other mints do |
| BlockPriceByOrder.BlockPricesIff | myConsumer/internal/logic/block/sol_price_service.go:29-47 | all runs of a block have the same prices exactly if after every priced transaction WSOL can have but one number of decimals, and USDC as well, as computed from the events |
| PriceExample.PriceDependsOnOrder | myConsumer/internal/logic/block/sol_price_service.go:29-61 | a block of one transaction which settles on a positive price in one run and on 10^9 times that price in another |
| SwapMatching.Mate | myConsumer/internal/logic/block/sol_price_service.go:276-309 | the first free transfer after i that is compatible with i; everything before it is taken or incompatible |
| SwapMatching.LoopStateHolds | myConsumer/internal/logic/block/sol_price_service.go:265-310 | after n rounds: disjoint compatible pairs in order, use marks exactly their transfers, and no compatible pair with a left end below n is entirely free |
| SwapMatching.GreedyIsMaximal | myConsumer/internal/logic/block/sol_price_service.go:264-310 | the final pairs are a valid matching in which each left transfer took its first free mate, and no two compatible transfers are both left over |
| SwapMatching.GreedyIsHalfOptimal | myConsumer/internal/logic/block/sol_price_service.go:264-310 | for every list, account map and matching of WSOL transfers to owner-compatible USDC transfers, the greedy pairing has at least half as many pairs |
| SwapMatching.HalfIsSharp | myConsumer/internal/logic/block/sol_price_service.go:264-310 | a concrete list where the greedy pairing finds one pair and two are possible |
| SwapOwners.CompatibleIff | myConsumer/internal/logic/block/sol_price_service.go:276-309 | two listed transfers pass the test exactly if one moves WSOL, the other USDC, and somebody is on the sending side of one and on the receiving side of the other |
| SwapOwners.PairsAreSwaps | myConsumer/internal/logic/block/sol_price_service.go:264-310 | every pair that is totalled is such a swap of its WSOL leg for its USDC leg |
| SwapOwners.SwapsArePaired | myConsumer/internal/logic/block/sol_price_service.go:264-310 | of any two transfers that swap, one is paired |
| SwapOwners.PairedIffSwap | myConsumer/internal/logic/block/sol_price_service.go:264-319 | something is paired exactly if two transfers swap; without a swap the price is 0 |
| SwapOwners.DepositHasNoPrice | myConsumer/internal/logic/block/sol_price_service.go:322-339 | a deposit of WSOL and USDC by one owner to another is not paired and has no price |
| SwapPrice.IsSwapTransfer | myConsumer/internal/logic/block/sol_price_service.go:322-339 | the test on the shared objects is: one side of the two transfers has the same owner |
| SwapPrice.FindMate | myConsumer/internal/logic/block/sol_price_service.go:276-309 | the inner loop finds the first free compatible transfer, or none |
| SwapPrice.AddPair | myConsumer/internal/logic/block/sol_price_service.go:288-307 | a matched pair adds its USDC leg and its WSOL leg, whichever comes first, to the right 64-bit total, and keeps their accounts |
| SwapPrice.PairFrom | myConsumer/internal/logic/block/sol_price_service.go:265-310 | one outer iteration marks exactly the pair found and totals it |
| SwapPrice.TotalsAreSums | myConsumer/internal/logic/block/sol_price_service.go:290-305 | the running totals are the sums over the matched legs modulo 2^64 |
| SwapPrice.UnitsIsQuotient | myConsumer/internal/logic/block/sol_price_service.go:314-315 | the scaling used in the proofs is division by a power of ten |
| SwapPrice.CalcPriceOnAllTransferBySwapGroup | myConsumer/internal/logic/block/sol_price_service.go:253-320 | the loop over the use array returns the quotient of the matched totals, scaled with the accounts of the last pair, or 0 |
| SwapPriceProperties.LegMints | myConsumer/internal/logic/block/sol_price_service.go:288-298 | in a list of swap legs every pair has one USDC and one WSOL leg, so the two mint branches are exhaustive |
| SwapPriceProperties.SumsAreUsed | myConsumer/internal/logic/block/sol_price_service.go:290-305 | per mint, the totals are the amounts of exactly the transfers marked as used |
| SwapPriceProperties.AmountsConserved | myConsumer/internal/logic/block/sol_price_service.go:260-310 | per mint, matched plus unmatched amounts are the amounts of the list |
| SwapPriceProperties.PricePositiveIff | myConsumer/internal/logic/block/sol_price_service.go:311-319 | the price is positive exactly if some pair matched and both 64-bit totals are positive |
| SwapPriceProperties.AnyPairScales | myConsumer/internal/logic/block/sol_price_service.go:294-315 | with uniform decimals any matched pair could supply the scale that the code takes from the last one |
| SwapPriceProperties.PriceOfSums | myConsumer/internal/logic/block/sol_price_service.go:314-319 | without overflow the price is the quotient of the summed amounts in whole coins |
| SwapPriceProperties.PriceIsWeightedMean | myConsumer/internal/logic/block/sol_price_service.go:314-319 | a positive price lies in every interval that contains the rates of all its pairs |
| TrimmedMean.SearchFinds | myConsumer/internal/logic/block/sol_price_service.go:192-204 | the search with its two sentinels finds positions of minimum and maximum, or all values are equal, for all finite floats including the sentinels themselves |
| TrimmedMean.FilteredMean | myConsumer/internal/logic/block/sol_price_service.go:206-219 | the mean of what is kept is (sum - min - max) / (n - 2), also when only one of n equal values is dropped; the divisor is never 0 |
| TrimmedMean.RemoveMinAndMaxAndCalculateAverage | myConsumer/internal/logic/block/sol_price_service.go:181-220 | the loops return that closed form for n >= 3, and below that 0, the value, or half the sum |
| TrimmedMeanProperties.AggregateOfFew | myConsumer/internal/logic/block/sol_price_service.go:181-190 | no prices give 0, one price gives itself, and twice the result for two prices is their sum |
| TrimmedMeanProperties.AggregateOfMany | myConsumer/internal/logic/block/sol_price_service.go:192-219 | n copies of the result for n + 2 prices are their sum without the smallest and the largest |
| TrimmedMeanProperties.AggregateWithinRange | myConsumer/internal/logic/block/sol_price_service.go:181-220 | the aggregate lies between the smallest and the largest price |
| TrimmedMeanProperties.AggregateClamps | myConsumer/internal/logic/block/sol_price_service.go:192-219 | for n >= 3 one price enters only after being clamped to the range of the others |
| TrimmedMeanProperties.AggregateWithinOthers | myConsumer/internal/logic/block/sol_price_service.go:192-219 | for n >= 3 the aggregate lies in the range of the prices other than any chosen one |
| TrimmedMeanProperties.AggregateIsRobust | myConsumer/internal/logic/block/sol_price_service.go:192-219 | for n >= 3 replacing one price by any value leaves the aggregate in the range of the others |
| TrimmedMeanProperties.AggregateIsMonotoneAt | myConsumer/internal/logic/block/sol_price_service.go:181-220 | raising one price never lowers the aggregate |
| TrimmedMeanProperties.HigherPricesHigherAggregate | myConsumer/internal/logic/block/sol_price_service.go:181-220 | prices that are pointwise higher have an aggregate that is no lower |
| TrimmedMeanProperties.AggregateOfPermutation | myConsumer/internal/logic/block/sol_price_service.go:181-220 | the aggregate does not depend on the order of the prices |
| SolPrice.TransferRoundTrip | myConsumer/internal/logic/block/sol_price_service.go:222-251 | a Transfer or TransferChecked instruction in the token program's layout is read back as its source, destination and amount |
| SolPrice.TransfersOf | myConsumer/internal/logic/block/sol_price_service.go:84-114 | every transfer let into a list has both ends in the map, one mint on both, and that mint WSOL or USDC |
| SolPrice.CollectTransfers | myConsumer/internal/logic/block/sol_price_service.go:84-114 | the filtering loop keeps exactly those transfers, in order |
| SolPrice.MakeInnerInstWithOuterMap | myConsumer/internal/logic/block/sol_price_service.go:346-354 | the map has an entry exactly for the outer instructions with a record; of several records the last one stays |
| SolPrice.GetInnerInstructionByInner | myConsumer/internal/logic/block/sol_price_service.go:357-368 | the instructions after the start, or nothing when there are too few |
| SolPrice.PriceOf | myConsumer/internal/logic/block/sol_price_service.go:117-122 | a list contributes its price if and only if it is positive |
| SolPrice.OuterPrice | myConsumer/internal/logic/block/sol_price_service.go:78-122 | an outer DEX instruction with an inner record contributes one list |
| SolPrice.WindowPrice | myConsumer/internal/logic/block/sol_price_service.go:127-173 | an inner DEX instruction contributes the list of the two instructions after it |
| SolPrice.OuterPrices | myConsumer/internal/logic/block/sol_price_service.go:77-123 | the prices of the outer path, in order |
| SolPrice.WindowPrices | myConsumer/internal/logic/block/sol_price_service.go:126-174 | the prices of one inner record, in order |
| SolPrice.InnerPrices | myConsumer/internal/logic/block/sol_price_service.go:125-175 | the prices of the inner path, in order |
| SolPrice.PricesOfGroups | myConsumer/internal/logic/block/sol_price_service.go:77-177 | outer prices followed by inner prices are the positive prices of all groups of the transaction |
| SolPrice.GroupsAreSwapLegs | myConsumer/internal/logic/block/sol_price_service.go:85-116 | every list that is priced, on either path, holds swap legs only, which discharges every dereference of the matching |
| SolPrice.GetSolPriceBySwap | myConsumer/internal/logic/block/sol_price_service.go:70-179 | the two loops return the positive prices of all groups |
| SolPrice.GroupPriceIsFinite | myConsumer/internal/logic/block/sol_price_service.go:314-319 | for all 64-bit totals and 8-bit decimals the price stays in the range of finite floats, so the aggregate's sentinels are sound |
| SolPrice.BlockPricesAreFinite | myConsumer/internal/logic/block/sol_price_service.go:29-47 | all prices of a block are positive and finite |
| SolPrice.PriceTransaction | myConsumer/internal/logic/block/sol_price_service.go:32-47 | one transaction: fill the map, then price its groups if and only if a change was reported |
| SolPrice.PriceNext | myConsumer/internal/logic/block/sol_price_service.go:30-47 | one iteration of the loop: the run of the map is extended by a step and the prices by those of the transaction |
| SolPrice.PriceTransactions | myConsumer/internal/logic/block/sol_price_service.go:30-47 | the loop over a block yields a run of the map and the prices of its transactions |
| SolPrice.GetSolPrice | myConsumer/internal/logic/block/sol_price_service.go:29-61 | the aggregate if it is positive, else the row's price if positive, else the nearest row's price, else 0 |
| PricedLists.GetTransferIff | myConsumer/internal/logic/block/sol_price_service.go:222-251 | an instruction is read as a transfer exactly if it is a Transfer (tag 3) or TransferChecked (tag 12) of one of the two token programs and long enough for its form |
| PricedLists.TransfersListed | myConsumer/internal/logic/block/sol_price_service.go:84-114 | a list holds exactly the transfers with both ends known, one mint on both and that mint WSOL or USDC, each at the place given by the number of those before it |
| PricedLists.GroupsListed | myConsumer/internal/logic/block/sol_price_service.go:77-177 | the priced lists are exactly those under the outer instructions of the four DEX programs that have a record, followed by those of the two instructions after each inner one, record by record |
| SolPriceProperties.GroupPriceWithinRates | myConsumer/internal/logic/block/sol_price_service.go:314-319 | a positive group price lies between the rates of its pairs |
| SolPriceProperties.BlockPricesWithinRates | myConsumer/internal/logic/block/sol_price_service.go:29-47 | all prices of a block lie in every interval that contains the rates of all pairs behind them |
| SolPriceProperties.BlockPriceBetweenRates | myConsumer/internal/logic/block/sol_price_service.go:29-61 | when a block prices at least one swap, GetSolPrice returns a positive price between the lowest and the highest rate of the pairs matched anywhere in it |
| BlockFetch.FirstStop | myConsumer/internal/logic/block/block_service.go:254-287 | the first request that is not followed by another one, at most the eleventh |
| BlockFetch.GetSolBlockInfo | myConsumer/internal/logic/block/block_service.go:245-289 | the loop stops at that request, with as many waits and the answer that goes with it |
| BlockFetch.FetchIsBounded | myConsumer/internal/logic/block/block_service.go:245-289 | at most 11 requests and 10 waits; the result is the first answer that is not retryable, the eleventh answer, or the cancellation |
| BlockFetch.RetryableIff | myConsumer/internal/logic/block/block_service.go:291-303 | a message is retried exactly if, in lower case, it contains one of the five texts |
| BlockFetch.SaysSkippedIff | myConsumer/internal/logic/block/block_service.go:112 | a slot counts as skipped exactly if the message contains the two words somewhere, in either case |
| BlockFetch.SkippedIsReturned | myConsumer/internal/logic/block/block_service.go:260-276 | a node that keeps answering that a slot was skipped is believed, whatever its messages contain |
| BlockFetch.SkippedAtOnceIff | myConsumer/internal/logic/block/block_service.go:254-303 | a first answer that the slot was skipped is what comes back, whatever the node would say next, exactly if its message matches no retry pattern |
| BlockFetch.SkippedSlotReadsAsRateLimit | myConsumer/internal/logic/block/block_service.go:298-302 | a skipped answer naming a slot that contains 429 is retried |
| BlockStore.BlockModel.FindOneBySlot | model/solmodel/blockmodel_gen.go:82-89 | the row of a slot, or none exactly if no row has the slot |
| BlockStore.BlockModel.FindOneNearSlot | model/solmodel/blockmodel.go:48-58 | the processed row with the largest slot below the given one |
| BlockStore.BlockModel.Insert | model/solmodel/blockmodel.go:60-62 | a new id for a new slot; a second row for a slot is refused |
| BlockStore.BlockModel.Update | model/solmodel/blockmodel_gen.go:91-95 | the row under its id is replaced unless another row has its slot |
| BlockStore.BlockModel.SaveOrUpdateSlot | myConsumer/internal/logic/block/block_service.go:184-192 | rows with an id are updated, others inserted |
| BlockStore.SavesKeepTableOk | model/sql/sol.sql:13-14 | no save breaks the primary key or the unique key on slot |
| BlockStore.DictatedIff | myConsumer/internal/logic/block/block_service.go:110-157 | status 1 for a block, 3 for an error that says skipped, 2 for any other error, as pkg/constant/constant.go numbers them |
| BlockStore.LookUp | myConsumer/internal/logic/block/block_service.go:97-108 | the stored row, or a new one for the slot |
| BlockStore.Record | myConsumer/internal/logic/block/block_service.go:111-157 | a crash exactly for a nil block without error, nothing to write exactly without transactions; otherwise id, slot and price are kept, the status is the dictated one, and message, time and height come from the answer, the clock or the old row |
| BlockStore.PriceBlock | myConsumer/internal/logic/block/block_service.go:163-164 | the price of a saved block settles from its transactions, the row and the nearest earlier processed row |
| BlockStore.FinishBlock | myConsumer/internal/logic/block/block_service.go:163-181 | a saved block settles on a price and, if that is positive, its pump instructions are parsed with the block's account map and a fresh cursor |
| BlockStore.HandleTransacton | myConsumer/internal/logic/block/block_service.go:91-182 | slot 0 and failed lookups change nothing; otherwise the answer dictates crash, drop, or one saved row, and a saved block is priced and its pump instructions parsed |
| HandlingProperties.HandledIff | myConsumer/internal/logic/block/block_service.go:91-161 | which of the six outcomes comes about, decided by the slot, the answer and the database alone; an error is never priced |
| HandlingProperties.FinishedIff | myConsumer/internal/logic/block/block_service.go:163-181 | the price of a saved block is settled from its transactions, the row's price and that of the processed row with the largest smaller slot, if the query succeeds; only a positive price leads to parsing |
| HandlingProperties.SavedFields | myConsumer/internal/logic/block/block_service.go:110-157 | message, time and height of a saved row come from the answer, the clock or the stored row |
| HandlingProperties.SavedAsDictated | myConsumer/internal/logic/block/block_service.go:91-161 | whatever one handling saves is the row of its slot, with the dictated status and the price it had; no other row changes, and a row is added exactly where the slot had none |
| Pipeline.SaveHitsOwnRow | myConsumer/internal/logic/block/block_service.go:184-192 | in every reachable state an update hits the row of the worker's slot and is never refused by the unique key; an insert succeeds exactly if the slot has no row |
| Pipeline.StoreGrows | myConsumer/internal/logic/block/block_service.go:110-161 | a save keeps all ids, slots and prices and touches no other slot's row |
| Pipeline.StoreReplays | myConsumer/internal/logic/block/block_service.go:110-161 | after a save the table is still what the last saves per slot wrote |
| Pipeline.ScannerKeepsInv | myConsumer/internal/logic/slot/err_slot_service.go:50-71 | scanning and resending keep the invariant: what is on the way back is a slot with a row above the bound |
| Pipeline.StepKeepsInv | myConsumer/internal/logic/block/block_service.go:71-192 | every step of every worker, channel and scanner keeps the invariant |
| Pipeline.RunKeepsInv | myConsumer/internal/logic/block/block_service.go:71-192 | the invariant holds at every moment of every interleaving of any number of workers |
| PipelineProperties.RowsPersist | myConsumer/internal/logic/block/block_service.go:97-108 | over time no row disappears or changes its slot or price |
| PipelineProperties.TableIsLastSaves | myConsumer/internal/logic/block/block_service.go:110-161 | each slot has at most one row, which is what its last successful save wrote, with the status its answer dictates, or is untouched since the start |
| PipelineProperties.StoreTouchesOneSlot | myConsumer/internal/logic/block/block_service.go:110-161 | only a worker about to save stores, and it leaves all other slots' rows alone |
| PipelineProperties.RetryWorkersUpdate | myConsumer/internal/logic/slot/err_slot_service.go:63-69 | workers on the channel of failed slots always update an existing row and never insert |
| PipelineProperties.SecondInsertFails | model/sql/sol.sql:13-14 | of any two inserts of one slot in a run, with any steps in between, at most one changes the table |
| PipelineProperties.PendingIsRestOfScan | myConsumer/internal/logic/slot/err_slot_service.go:63-71 | what the scanner has still to send is the rest of the batch of its latest scan |
| PipelineProperties.ResentWasFailed | myConsumer/internal/logic/slot/err_slot_service.go:55-69 | every slot sent back was, in the latest scan, a failed row above the bound |
| PipelineProperties.PricesStayAsStarted | myConsumer/internal/logic/block/block_service.go:157-164 | at every moment of every run a row's price is the one its id had at the start, or 0 for a row inserted since |
| PipelineProperties.FallbacksGivePriceIff | myConsumer/internal/logic/block/sol_price_service.go:53-59 | for a block saved at one moment and priced at any later one, without priced swaps: the price is what its row, else the nearest earlier processed row, was worth at the start; it is positive exactly if one of them was |
| PipelineProperties.StatusAfterStep | myConsumer/internal/logic/block/block_service.go:110-161 | a step changes a row's status exactly by saving over it, to what the worker's answer dictates |
| PipelineProperties.ProcessedStaysIff | myConsumer/internal/logic/block/block_service.go:110-161 | a processed row stays processed in a step exactly if the step does not save an error over it |
| PipelineProperties.ProcessedAtIff | myConsumer/internal/logic/block/block_service.go:110-161 | over a run, a row processed at one moment is processed at a later one exactly if every error saved over it in between is followed by a block saved over it |
| PipelineProperties.ProcessedDuringIff | myConsumer/internal/logic/block/block_service.go:110-161 | it is processed at all moments in between exactly if no error is saved over it |
| PipelineProperties.ProcessedMayBecomeFailed | myConsumer/internal/logic/block/block_service.go:110-138 | a run in which a processed row ends up failed |
| PipelineProperties.HandlingIsAPath | myConsumer/internal/logic/block/block_service.go:91-161 | what HandleTransacton promises is an uninterrupted path of at most four steps of the machine |
| PipelineChannels.LiveSlotsArrive | myConsumer/internal/logic/block/block_service.go:71-89 | in every run the slots produced are those that workers took followed by those still on the channel, in order and exactly once |
| PipelineChannels.RetrySlotsArrive | myConsumer/internal/logic/slot/err_slot_service.go:63-71 | the same for the slots sent back |
| PipelineChannels.TakenIsLookedUp | myConsumer/internal/logic/block/block_service.go:91-97 | a slot that a worker takes is looked up next, unless it is 0 |
| PipelineChannels.RunIsBounded | myConsumer/internal/logic/block/block_service.go:91-95 | in every run the channels keep their capacities and no worker handles slot 0 |
| PipelineChannels.ScanTakesHighest | model/solmodel/blockmodel.go:36-46 | a scan takes at most 50 rows, only failed ones, and leaves out only lower slots |
| PipelineChannels.OnlyFailedAreResent | myConsumer/internal/logic/slot/err_slot_service.go:55-69 | a slot whose row was skipped or processed at the latest scan is not sent back |
| SlotProducer.SlotService.constructor | myConsumer/internal/logic/slot/slot_service.go:36-45 | a new service holds no connection and no subscription |
| SlotProducer.ReconnectsIff | myConsumer/internal/logic/slot/slot_service.go:77-96 | the connection is replaced exactly for a transient network error, the end of the stream, and an error whose text names a timeout, a close or a broken pipe |
| SlotProducer.AcceptedIff | myConsumer/internal/logic/slot/slot_service.go:146-176 | a dial is accepted exactly with a written subscription whose acknowledgement has no error text and this non-zero id |
| SlotProducer.PassedOnIff | myConsumer/internal/logic/slot/slot_service.go:97-119 | a slot is passed on exactly for a slot notification without error text, and 0 for any error that is not a lost connection |
| SlotProducer.SlotService.ConnectWs | myConsumer/internal/logic/slot/slot_service.go:123-182 | an existing connection is kept; otherwise every dial is tried in order until the first accepted one, and every refused socket is closed |
| SlotProducer.SlotService.ResetConn | myConsumer/internal/logic/slot/slot_service.go:184-190 | the connection is closed and the subscription forgotten |
| SlotProducer.SlotService.HandleRead | myConsumer/internal/logic/slot/slot_service.go:72-118 | one read passes on a slot, a 0 or nothing; the connection is replaced exactly after the errors that name a lost connection |
| SlotProducer.SlotService.ReadUntilSlot | myConsumer/internal/logic/slot/slot_service.go:71-119 | reading goes on until something is passed on, never without a connection |
| SlotProducer.SlotService.GetSlot | myConsumer/internal/logic/slot/slot_service.go:68-120 | one call consumes reads up to the first that passes something on |
| SlotProducer.SlotService.Start | myConsumer/internal/logic/slot/slot_service.go:53-65 | the slots sent are, in order and exactly once, what the reads pass on; a connection is held exactly while there is a subscription id, and no socket leaks |
| SlotProducer.ConsumersSeeNotifiedSlots | myConsumer/internal/logic/slot/slot_service.go:72-118 | without zeros the sent slots are the notified slots; each unclassified error adds one element and nothing else does |
| SlotRescan.HandleSlotNotCompleted | myConsumer/internal/logic/slot/err_slot_service.go:34-75 | the slots of all batches before the first empty scan are sent, in order and complete; without a start nothing is |
| SlotRescan.ScansOfRun | myConsumer/internal/logic/slot/err_slot_service.go:50-62 | in every run of the pipeline each scan has the failed rows above the bound, or none when the query fails; none but the last is empty, and the scanner has ended exactly after an empty one |
| SlotRescan.SentAndPending | myConsumer/internal/logic/slot/err_slot_service.go:50-71 | in every run the slots sent and those still pending are the slots of all scans so far, in order |
| SlotRescan.ScannerIsLoop | myConsumer/internal/logic/slot/err_slot_service.go:50-75 | the scanner of the pipeline refines this loop: once nothing is pending it has sent exactly what the loop sends for the same scans, and it has ended exactly when the loop has |
| SlotRescan.SentWereFailed | myConsumer/internal/logic/slot/err_slot_service.go:50-71 | every slot sent was that of a failed row above the bound when its scan was made |
| EventCursor.PlayConsumes | myConsumer/internal/logic/block/pumpfun_service.go:91-113 | the instructions of a transaction, up to the first that panics, consume one event for each that reaches the cursor |
| EventCursor.PlayPanics | myConsumer/internal/logic/block/pumpfun_service.go:85 | whether a transaction panics does not depend on the cursor: exactly if an instruction reads past the account keys |
| EventCursor.ConsumesInOrder | myConsumer/internal/logic/block/pumpfun_service.go:91-113 | calls consume events 0, 1, 2, ... of their source, none skipped, repeated or out of range, and the index never passes the end |
| EventCursor.OwnEventsIff | myConsumer/internal/logic/block/block_service.go:214-216 | a transaction is sure to be priced with its own events exactly if no events are held when it starts |
| EventCursor.ReadsEvent | myConsumer/internal/logic/block/pumpfun_service.go:91-113 | an instruction that reaches the cursor reads the event whose number is the count of instructions before it that reached the cursor |
| EventCursor.TransactionConsumes | myConsumer/internal/logic/block/block_service.go:214-241 | what one transaction consumes and leaves behind, with or without a panic |
| EventCursor.FirstEventsStay | myConsumer/internal/logic/block/block_service.go:195-216 | the events of the first transaction that fills the cursor are held for the rest of the block |
| EventCursor.BlockReadsFirstEvents | myConsumer/internal/logic/block/block_service.go:195-242 | so later transactions of a block are priced with the events of that first one |
| PumpEvents.DecodePumpEvents | myConsumer/internal/logic/block/pumpfun_service.go:151-183 | the decoded events of the matching log lines, in log order |
| PumpEvents.TagBytes | myConsumer/internal/logic/block/pumpfun_service.go:185-191 | an instruction is a buy, or a sell, exactly if its data starts with the eight bytes of that tag |
| PumpEvents.CheckInstruction | myConsumer/internal/logic/block/pumpfun_service.go:45-85 | the checks before the cursor; account 3 out of range is exactly what remains unchecked and panics |
| PumpEvents.TakeEvent | myConsumer/internal/logic/block/pumpfun_service.go:87-113 | the list is filled from the log when empty, and the next event is taken if there is one |
| PumpEvents.PriceEvent | myConsumer/internal/logic/block/pumpfun_service.go:115-145 | the price times the tokens that moved is the SOL that moved, in USD, on signed 64-bit amounts; 0 when no token moved |
| PumpEvents.DecodePumpTranscation | myConsumer/internal/logic/block/pumpfun_service.go:43-148 | the cursor moves exactly when an event is taken, and the result is its price |
| PumpEvents.ParseInstruction | myConsumer/internal/logic/block/block_service.go:222-238 | one pump instruction |
| PumpEvents.ParseTransaction | myConsumer/internal/logic/block/block_service.go:214-241 | the index restarts at 0, the held events stay, and the pump instructions run in order until one panics |
| PumpEvents.ParsedNext | myConsumer/internal/logic/block/block_service.go:195-242 | one more transaction consumes the events that its place in the block gives it |
| PumpEvents.ParseTxInstruction | myConsumer/internal/logic/block/block_service.go:194-243 | exactly the transactions before the first failed or unsigned one are parsed, each consuming the events just described; a panic ends the parsing in the first transaction with one, after the events before it |
| PumpProperties.ReadingIff | myConsumer/internal/logic/block/pumpfun_service.go:45-85 | an instruction reaches the cursor exactly if its data starts with one of the two tags, it has six accounts, account 5 names a known token account and account 3 a key; without the last it panics |
| PumpProperties.ReadingsIff | myConsumer/internal/logic/block/block_service.go:222-238 | of a transaction only the instructions of the pump program are looked at |
| PumpProperties.EventsOfLog | myConsumer/internal/logic/block/pumpfun_service.go:151-183 | the events are those of the lines longer than 100 characters that start like pump program data and decode, in log order |
| PumpProperties.LamportsPerSol | myConsumer/internal/logic/block/pumpfun_service.go:120-121 | a SOL has 10^9 lamports |
| PumpProperties.TokenPriceIs | myConsumer/internal/logic/block/pumpfun_service.go:120-136 | the price turns the tokens of the event back into its SOL in USD; 0 without tokens or event |
| PumpProperties.SaleReadsNextEvent | myConsumer/internal/logic/block/pumpfun_service.go:55-113 | a purchase and a sale in one transaction each read their own event |
| PumpProperties.PriceSign | myConsumer/internal/logic/block/pumpfun_service.go:120-136 | with a positive SOL price, a token price is positive, or negative, exactly if the signed amounts have the same sign, or opposite signs |
| PumpProperties.SignedPriceIff | myConsumer/internal/logic/block/pumpfun_service.go:120-136 | the price is that of the unsigned amounts exactly if both are below 2^63, one is 0, or they are equal |
| PumpProperties.LargeAmountsGiveNegativePrices | myConsumer/internal/logic/block/pumpfun_service.go:120-136 | an event with a negative price |
| PumpProperties.ReadsOwnPlaceIff | myConsumer/internal/logic/block/pumpfun_service.go:66-113 | that number is the instruction's own place among the buys and sells of the transaction exactly if none before it was rejected; a rejected one leaves its event to the next |
| PumpProperties.RejectedBuyLeavesEvent | myConsumer/internal/logic/block/pumpfun_service.go:76-113 | two purchases in one transaction, the first by an unknown account: the second reads the first one's event |
| PumpProperties.BlockPricedWithFirstEvents | myConsumer/internal/logic/block/block_service.go:194-243 | in whatever ParseTxInstruction did, transactions after the first one that filled the cursor consumed that one's events |
| PumpProperties.SecondBuyReadsFirstEvent | myConsumer/internal/logic/block/block_service.go:214-239 | two transactions with one event each, of which the second consumes the event of the first |
| PumpProperties.SecondBuyHasFirstPrice | myConsumer/internal/logic/block/block_service.go:214-239 | two such transactions whose events have different prices |
| AccountFlags.FlagsRight | myConsumer/internal/logic/block/pump_service.go:160-198 | up to 255 keys, or 256 with a readonly unsigned one, the eight-bit tests give every key its flags |
| AccountFlags.MisplacedIsWrong | myConsumer/internal/logic/block/pump_service.go:160-198 | for any other number of keys some key gets wrong flags |
| AccountFlags.FlagsFollowLayoutIff | myConsumer/internal/logic/block/pump_service.go:160-198 | the flags are right for all keys exactly in the first case |
| AccountFlags.FlagsOfAnyHeader | myConsumer/internal/logic/block/pump_service.go:160-198 | the flags for any header at all, also one whose counts overlap, up to 255 keys |
| AccountFlags.CountsMatchHeader | myConsumer/internal/logic/block/pump_service.go:160-198 | then as many keys are signers and as many are writable as the header announces |
| GoArith.BytesRoundTrip | myConsumer/internal/logic/block/sol_price_service.go:222-251 | little-endian decoding undoes encoding, whatever bytes follow |
| GoArith.LittleEndian64Injective | myConsumer/internal/logic/block/pumpfun_service.go:185-191 | two instruction tags are equal exactly if their first eight bytes are |
| GoArith.ContainsAnyIff | myConsumer/internal/logic/block/block_service.go:298-302 | a message matches a list of patterns exactly if one of them occurs in it |

## Left out

- RemoveMinAndMaxAndCalculateAverage: computes in exact reals; IEEE rounding, NaN and infinities are not modelled. That
  all inputs are finite is proved.
- CalcPriceOnAllTransferBySwapGroup: divides in exact reals; the rounding of the conversion from 64-bit integers to
  floats is not modelled.
- PriceEvent: the rounding of the decimal library is not modelled.
- HandleTransacton: the clock, the next auto-increment id and database failures are parameters. On the error path the
  block is always absent, so its time is never read. In `Pipeline` what follows a save is one step that may end the
  worker.
- BlockModel.Update: the insert that gorm falls back to when no row matched is merged into the update; `SaveHitsOwnRow`
  shows that an update always matches.
- ParseTxInstruction: the service being stopped between two transactions is not modelled.
- SlotService.Start: the network is two finite scripts, of dials and of reads; a concurrent Stop, sleeping, and the
  panic of the websocket library after many reads from a failed connection are not modelled.
- HandleSlotNotCompleted: the scans are given with the tables they were made on; the tickers and a stop in the middle of
  a batch are not modelled. In `Pipeline` the scan bound is any number.
- Liveness of the rescans: the bound never advances and an empty scan ends the loop; only safety is stated.
- Public keys are opaque values, and base58, base64, borsh and JSON are outside the model: a message, a log line or an
  instruction comes with what it decodes to.
- Lower-casing of error messages covers ASCII letters only.
- The display strings and the Init flag of a token account, which are copied and never read.
- The reserves of a pump event, which are only printed, and the field-by-field transcription of pump buy and sell
  accounts.
- Logging, tickers, configuration, gRPC and HTTP.
