# okexchain, verified in Dafny

A model of six parts of okexchain and proofs of what they promise. Each part is modelled twice where the
original changes state: functions on values say what an operation computes, and classes with methods do it
step by step. The properties are proved of the functions, for all inputs, all runs and all reachable states, and
the methods of the classes state and keep them: every transaction of the swap and the token keeper keeps the
invariants of its module. What a message does to accounts, supplies and records, and every reason for which it may be
refused, is stated beside the functions in terms of balances and reserves alone: `Effect` and `Justified` of the two
keepers name none of the functions that compute it.

| part | modules |
|---|---|
| the automated market maker (`x/ammswap`) | `FixedPoint`, `Pricing`, `Liquidity`, `SwapNames`, `Swap`, `SwapSafety`, `SwapShares`, `SwapTrading`, `SwapEffects`, `SwapRefusals`, `SwapAccounts`, `SwapKeeper`, `Sums` |
| the stream module: many nodes, one lock, one stored task (`x/stream`) | `StreamTask`, `FanOut`, `StreamProtocol`, `StreamStart`, `StreamProgress`, `StreamNode` |
| token ownership and escrow (`x/token`) | `Token`, `TokenEscrow`, `TokenSupply`, `TokenOwnership`, `TokenEffects`, `TokenRefusals`, `TokenKeeper` |
| candles (`x/backend`) | `KlinePadding`, `KlineRows`, `KlineTables`, `KlineKeeper`, `KlinePrices`, `KlineCleanUp`, `KlineMerges`, `KlineJobs` |
| the yield of farm pools (`x/farm`) | `FarmYield` |
| contract storage written to a file and read back (`x/evm`) | `StorageFile` |

Amounts are integers in raw units. A decimal is such an integer over an arbitrary positive `precision` (the
original's 10^18 is one of them), and every truncation of the original's decimal arithmetic is written out.
`dafny verify dfyconfig.toml` checks the whole project.

## What is assumed

- A message reaches a handler only after its own basic validation; the swap fee rate lies between 0 and 1; the
  names of tradable coins hold no underscore. The first two are enforced by the original's own checks, the last by
  the pattern the SDK demands of a denomination.
- Module accounts and the black-hole address sign no messages, and the token module's account is among the accounts
  that may not receive transfers, as `app/app.go` sets it up.
- The lock service grants the lock only when it is free, releases it or stores a state only for its holder, and
  does both in one instant. It may lose any answer, and the lock may run out at any moment.
- Other modules never take from the swap module account nor touch pairs or locked coins, and neither make nor destroy
  pool shares; apart from that they may change anything between two messages. What they mint or burn is counted in
  the supply.
- Block time never runs backwards. Match results and deals carry the time of their block, and a product has results in
  a block exactly when it has deals in it.
- For the coarse candle tables no result is older than one period after the start of 1970, since the code takes time 0
  for no time; when a merging job starts the wall clock is not before the latest candle; one-minute candles are deleted
  only after they have been merged, and the newest of them is still there when a process starts again.

## What turned out to be conditional

- The stream protocol skips a block or panics for some schedule (`StreamStart.UnevenStartGoesWrong`) unless all
  nodes start at the same height (`StreamStart.SafeExactlyFromCommonStart`).
- A settled batch of orders leaves the escrow backed exactly when its payouts equal what was unlocked
  (`TokenEscrow.BatchBackedExactlyWhenBalanced`; `TokenEscrow.UnbalancedBatchBreaksEscrow` is one that does not). The
  token keeper itself does not check this.
- A candle job that starts before it has seen a block ends its first call by the wall clock. Results stored
  afterwards are then missed exactly when there is a candle or a result to start from and that moment lies in a minute
  after the latest block (`KlineTables.BeginIsSafeExactlyBehindTheChain`, with `KlineTables.WallClockStartLosesResults`).
- A deposit keeps the quote coin per share, and the base coin per share exactly when its two roundings fall the right
  way (`SwapTrading.AddKeepsBaseShareExactly`); otherwise earlier holders lose less than one raw unit in all.
  `SwapTrading.DepositThatDilutesHolders` is a deposit that costs them.
- When old one-minute candles are deleted, the next merge overwrites a coarse window with part of its volume exactly
  when it reaches the window and the deletion split it for that product, leaving candles on both sides
  (`KlineCleanUp.CleanUpSpoilsExactlyCutWindows`). This happens when a process starts again, in any table
  (`KlineCleanUp.CutWindowLosesVolume`), and in a running process, in a table whose windows are long enough to be still
  open when their first minutes are deleted (`KlineCleanUp.RunningMergeLosesVolume`). Over whole runs all other windows
  stay exact (`KlineJobs.CoarseTableIsExact`).
- `handleMsgConfirmOwnership` deletes an expired request and then fails. The failing transaction is undone, so
  the request stays stored; `TokenKeeper.Keeper.DeliverTx` does the same.

## Model

| member | source | states |
|---|---|---|
| `FixedPoint.MulAndQuoIsFloor` | x/common/util.go:132-138 | the scaled multiply-and-divide chain, with its three truncations, is one exact floor of a*b/c |
| `Pricing.PriceIsFloor` | x/ammswap/keeper/keeper.go:193-197 | the price is one floor, never reaches the whole output reserve, and leaves the reserves on or above the constant-product curve of the input after the fee |
| `Pricing.FeeIsSuperadditive` | x/ammswap/keeper/keeper.go:193-194 | charging the fee on two sales apart never leaves more input than charging it once on their sum |
| `Pricing.ProductGrows` | x/ammswap/keeper/keeper.go:178-197 | one sale in either direction never lowers the product of the reserves and never empties a reserve |
| `Pricing.ProductNeverShrinks` | x/ammswap/keeper/keeper.go:178-197 | over any run of sales in either direction, fees changing on the way, both reserves stay positive and their product never falls |
| `Pricing.NoFreeWithdrawal` | x/ammswap/keeper/keeper.go:178-197 | no run of sales leaves one reserve lower without the other higher |
| `Pricing.ThereAndBack` | x/ammswap/keeper/keeper.go:178-197 | selling what was bought never returns more than was put in |
| `Pricing.SplittingNeverPays` | x/ammswap/keeper/keeper.go:178-197 | selling an amount in any number of pieces never buys more than selling it at once |
| `Liquidity.AddDilution` | x/ammswap/handler.go:122-134 | a deposit keeps the quote coin per share and costs the base side less than one raw unit in all |
| `Liquidity.AddKeepsBaseExactly` | x/ammswap/handler.go:122-134 | a deposit keeps the base coin per share too if and only if its base was rounded up to one unit or the remainder on the shares, in proportion, is at least the one on the base |
| `Liquidity.DepositThatDilutes` | x/ammswap/handler.go:122-134 | at every precision joining a pool of 15 to 10 with 10 shares by 1 lowers the base coin per share |
| `Liquidity.AddThenRemove` | x/ammswap/handler.go:122-134 | redeeming the minted shares at once gives back no more of either coin than went in |
| `Liquidity.RedeemBound` | x/ammswap/handler.go:186-193 | a redemption is the floor of the shares' exact part of the reserve, neither more nor one unit less; it takes all of the reserve exactly for all shares and dilutes nobody |
| `SwapNames.LessIsTotal` | x/ammswap/types/swap.go:74-79 | byte order of names is total and strict, so base and quote are always told apart |
| `SwapNames.PairNameSymmetric` | x/ammswap/types/swap.go:69-79 | a pair has the same name whichever coin is named first |
| `SwapNames.PairNameInjective` | x/ammswap/types/swap.go:69-79 | two pairs of valid coins share a name exactly when they are the same two coins |
| `SwapNames.PoolTokenNotTradable` | x/ammswap/types/swap.go:97-109 | the name of a pool share is never a valid name of a coin to trade |
| `Swap.TokenToBuy` | x/ammswap/keeper/keeper.go:178-191 | the coin bought has the asked denomination and is less than the reserve on the side it comes from |
| `SwapSafety.SortedTwo` | x/ammswap/handler.go:359-368 | the coins of a pair come out the same whichever way round they are listed: base first, zero coins dropped |
| `SwapSafety.MintKeepsHeld` | x/ammswap/keeper/keeper.go:111-118 | minting shares to a user never fails, adds exactly them to the supply and to what the user holds, and leaves the module account as it was |
| `SwapSafety.BurnKeepsHeld` | x/ammswap/keeper/keeper.go:120-127 | burning at most the supply fails only if the user lacks the shares; otherwise the supply falls by them and the module account is as before |
| `SwapSafety.CreateSafe` | x/ammswap/handler.go:60-102 | creating a pair keeps the invariant and fails only for reasons its sender can see |
| `SwapSafety.AddSafe` | x/ammswap/handler.go:104-173 | a deposit keeps the invariant; it never fails for lack of pool funds, a zero supply, an uneven pair or mixed coins |
| `SwapSafety.RemoveSafe` | x/ammswap/handler.go:175-231 | a withdrawal keeps the invariant and is never refused for lack of pool funds |
| `SwapSafety.ExchangeSafe` | x/ammswap/handler.go:331-357 | one leg of a swap keeps the invariant and can fail only because the sender cannot pay |
| `SwapSafety.RoutedSafe` | x/ammswap/handler.go:269-329 | a routed swap keeps the invariant although both legs are priced before either moves, for any recipient |
| `SwapSafety.HandleSafe` | x/ammswap/handler.go:51-357 | every message, failed ones rolled back, keeps solvency, naming and shares-iff-reserves of all pairs |
| `SwapSafety.ReachableStatesAreSafe` | x/ammswap/handler.go:51-357 | in every reachable state the module account holds of every coin at least what all pairs together claim |
| `SwapSafety.PayoutsNeverFail` | x/ammswap/handler.go:205-225 | in every reachable state no message of any kind fails for lack of pool funds or in a coin panic |
| `SwapSafety.LastShareTakesAll` | x/ammswap/handler.go:186-218 | a withdrawal empties both reserves exactly when it redeems all shares |
| `SwapShares.DeliverConserves` | x/ammswap/handler.go:51-357 | no message changes the difference between the recorded supply of any coin and what all accounts hold of it |
| `SwapShares.SharesAlwaysHeld` | x/ammswap/keeper/keeper.go:106-127 | in every reachable state the supply of each pool token is what all accounts together hold of it |
| `SwapShares.HolderCanRedeem` | x/ammswap/handler.go:175-231 | a holder redeeming no more shares than they hold is paid if and only if the deadline has not passed and neither minimum is above the shares' exact part of its reserve |
| `SwapShares.HoldersAreNeverLockedOut` | x/ammswap/handler.go:175-231 | in every reachable state such a withdrawal fails only for its deadline or its minimums, and without minimums it always succeeds in time |
| `SwapTrading.ExchangeIsSale` | x/ammswap/handler.go:331-357 | a leg moves its own pair exactly along the priced sale and no other pair; the sender pays exactly what is sold, the recipient gets exactly what is bought, and nobody else pays or gets anything |
| `SwapTrading.SplitSwapNeverPays` | x/ammswap/handler.go:233-267 | after a swap went through, a second one in the same direction brings no more in total than one swap of the sum |
| `SwapTrading.RoutingIsTwoSwaps` | x/ammswap/handler.go:269-329 | for a sender who is the recipient a routed swap succeeds exactly when two direct swaps through the native token do, and ends in exactly their state |
| `SwapTrading.QueryPredictsSwap` | x/ammswap/keeper/querier.go:71-120 | on the same state the query's amount is exactly what a successful swap, direct or routed, adds to the recipient |
| `SwapTrading.SwapRunKeepsProducts` | x/ammswap/handler.go:51-58 | over any run of swap messages of any kind no pair's product of reserves ever falls |
| `SwapTrading.DepositThenWithdraw` | x/ammswap/handler.go:104-231 | depositing and then withdrawing the minted shares leaves the sender with no more of either coin than before |
| `SwapTrading.AddKeepsShares` | x/ammswap/handler.go:119-160 | a successful deposit keeps quote per share, and all earlier shares together lose less than one raw unit of base |
| `SwapTrading.AddKeepsBaseShareExactly` | x/ammswap/handler.go:119-160 | a successful deposit keeps base per share if and only if the pool was empty or its inputs meet the condition on the two remainders |
| `SwapTrading.DepositThatDilutesHolders` | x/ammswap/handler.go:119-160 | at any block time, in a state that meets the invariant and whose shares are all held, a valid deposit goes through and leaves earlier shares with less base |
| `SwapTrading.RemoveKeepsShares` | x/ammswap/handler.go:186-218 | a successful withdrawal lowers neither coin per remaining share |
| `SwapEffects.MintMoves` | x/ammswap/keeper/keeper.go:111-118 | newly minted shares end with the user and with nobody else |
| `SwapEffects.BurnMoves` | x/ammswap/keeper/keeper.go:120-127 | burned shares are taken from the user and from nobody else |
| `SwapEffects.AddEffects` | x/ammswap/handler.go:104-173 | a deposit takes from its sender the quote coin named and the base coin in proportion, a floor and at least one unit, gives the sender the proportional floor of shares, adds the two amounts to the one pair, and changes no other account, pair or supply |
| `SwapEffects.RemoveEffects` | x/ammswap/handler.go:175-231 | a withdrawal pays its sender the floor of the shares' part of each reserve, at least the minimums, takes the shares, and changes no other account, pair or supply |
| `SwapEffects.SwapTokensEffects` | x/ammswap/handler.go:233-357 | a swap moves exactly what is sold from the sender into the pair and the priced floor from the pair to the recipient; a routed one does so in both pairs and moves the native coin between; no other account, pair or supply changes |
| `SwapRefusals.QueryAnswers` | x/ammswap/keeper/querier.go:71-120 | the query answers the priced floor of the reserves, through the native token when there is no direct pair, and nothing exactly when a pair it needs has no reserves |
| `SwapRefusals.HandleJustified` | x/ammswap/handler.go:51-357 | every message goes through if and only if none of its reasons for refusal holds, each an inequality on deadline, balances, reserves and supply, and a refused one names a reason that holds |
| `SwapAccounts.HandleEffects` | x/ammswap/handler.go:51-357 | every message that goes through has the effect on accounts, pairs and supplies stated for its kind |
| `SwapAccounts.EffectKeepsSurplus` | x/ammswap/handler.go:51-357 | no message, except a swap paid out to the module account itself, changes what that account holds of any coin beyond what all pairs claim |
| `SwapAccounts.DepositorGetsShares` | x/ammswap/handler.go:145-166 | the depositor's pool tokens grow by exactly the growth of their supply, the module account holds as many of them as before, and no third account changes |
| `SwapAccounts.HolderGetsPart` | x/ammswap/handler.go:186-225 | the sender's two coins grow by exactly what the two reserves fall by, each the floor of the shares' part, and no third account changes |
| `SwapAccounts.SenderGivesWhatIsSold` | x/ammswap/handler.go:331-357 | direct or routed, the sender's holding of the sold coin falls by exactly the amount sold, and accounts other than sender, recipient and module keep everything |
| `SwapKeeper.SortCoins` | x/ammswap/handler.go:359-368 | the loop and the sort give exactly the coins above zero, each as often as given, ordered by name |
| `SwapKeeper.CoinSortSorts` | x/ammswap/handler.go:359-368 | the order of names is kept and the coins above zero are a permutation of the result, for any number of coins |
| `SwapKeeper.Keeper.SendCoins` | x/ammswap/keeper/keeper.go:129-137 | all coins are moved, or the transfer is refused exactly when the payer cannot cover one of them |
| `SwapKeeper.Keeper.HandleMsgCreateExchange` | x/ammswap/handler.go:60-102 | keeps solvency, naming and all shares held; adds exactly one empty pair and its pool token, and is refused exactly when a coin was not issued or the pair or its token exists |
| `SwapKeeper.Keeper.HandleMsgAddLiquidity` | x/ammswap/handler.go:104-173 | keeps the same invariant, quote per share, and base per share up to one raw unit; the sender pays exactly the two amounts due and gets exactly the new shares, nobody else's account changes, and it is refused exactly for the stated reasons |
| `SwapKeeper.Keeper.HandleMsgRemoveLiquidity` | x/ammswap/handler.go:175-231 | keeps the invariant and both coins per remaining share; the sender gets the floor of the shares' part of each reserve, both reserves fall by just that, nobody else's account changes, and a holder is refused exactly for deadline or minimums |
| `SwapKeeper.Keeper.HandleMsgTokenToToken` | x/ammswap/handler.go:51-58 | keeps the invariant and every pair's product; the sender gives exactly what is sold, the recipient gets exactly the query's amount on the state before, the module account moves by exactly the change of all reserves, nobody else's account changes, and it is refused exactly for the stated reasons |
| `SwapKeeper.Keeper.DeliverTx` | x/ammswap/handler.go:18-49 | every transaction keeps the invariant and the coins in circulation; it goes through exactly when nothing hinders it and then has its stated effect on every account; a failed one changes nothing and never fails for pool funds or in a coin panic |
| `StreamTask.ValidAtomTaskCount` | x/stream/task.go:75-83 | the loop counts exactly the sinks not yet done |
| `StreamTask.GetStatus` | x/stream/task.go:85-103 | success, failure and partial success each exactly when all, none or some sinks are done; the invalid status never |
| `FanOut.RunAtomTask` | x/stream/task.go:123-140 | a runner sends exactly one result for its own sink, a success exactly when there was no data or the engine reported one and did not panic |
| `FanOut.PrepareAtomTasks` | x/stream/coordinator.go:34-57 | exactly one runner for each sink not done; the panic exactly when a sink has no engine kind |
| `FanOut.ConfiguredSinksHaveEngines` | x/stream/engine.go:47-59 | every sink a configuration can name has an engine, so that panic is out of reach |
| `FanOut.SendsNeverBlock` | x/stream/coordinator.go:59-93 | in every interleaving, before or after the timer, a runner that has not sent can send |
| `FanOut.RoundEnds` | x/stream/coordinator.go:73-91 | a round is over after a bounded number of steps and at most as many results as runners, and it ends on its own once all have reported; until then the timer can end it |
| `FanOut.MarkedOnlyOnSuccess` | x/stream/coordinator.go:83-85 | a sink that becomes done in a round had its runner report success in that round |
| `FanOut.Collect` | x/stream/coordinator.go:73-91 | the collecting loop is a run of the round that ends it; it marks exactly the sinks whose success it heard, and stops only at the timer or when it heard every runner |
| `StreamProtocol.StepKeeps` | x/stream/endblocker.go:47-195 | every step of any node or of the lock service keeps the invariant that ties nodes, lock and stored task together |
| `StreamProtocol.NeverPanics` | x/stream/endblocker.go:82-84 | in every interleaving, with expiry, lost answers and crashes, no node reaches the branch that panics |
| `StreamProtocol.StoreMovesByOne` | x/stream/endblocker.go:138-158 | each step leaves the stored task alone, adds done sinks at its height, or moves to the next height, the last only from a task fully done |
| `StreamProtocol.StoreIsMonotone` | x/stream/endblocker.go:138-158 | the stored height never decreases; at one height done sinks stay done and undone ones never grow in number |
| `StreamProtocol.EveryBlockIsFinished` | x/stream/endblocker.go:65-86 | before the store is at a height, every lower height from the start on was stored with all sinks done |
| `StreamProtocol.DoneSinksAreNotRunAgain` | x/stream/endblocker.go:73-78 | the lock holder starts no runner for a sink that the stored task of its height has as done |
| `StreamProtocol.DoneWasReported` | x/stream/coordinator.go:83-91 | every sink done in a stored task, or in a node's, had a runner of some node report success for that height |
| `StreamStart.UnevenStartGoesWrong` | x/stream/endblocker.go:79-86 | with two nodes that start at different heights some schedule skips a block or panics |
| `StreamStart.SafeExactlyFromCommonStart` | x/stream/endblocker.go:79-86 | no schedule goes wrong if and only if all nodes start at one height |
| `StreamProgress.ReadDecides` | x/stream/endblocker.go:65-86 | a node that reads the store jumps exactly when a later block is stored or its own with all sinks done, goes on with the stored task exactly when that is its block with a sink undone, starts anew exactly when nothing or the block before is stored, and gives up exactly when the store is further behind |
| `StreamProgress.DoneBlockIsLeft` | x/stream/endblocker.go:70-75 | a lock holder that reads a finished block and gets its release answered is finished with the block, the store as before and the lock free |
| `StreamProgress.FinishedMeansDone` | x/stream/endblocker.go:160-195 | in every reachable state the block of a finished node is stored with all sinks done, or a later one is |
| `StreamProgress.EveryNodeCanFinish` | x/stream/endblocker.go:47-195 | from every reachable state every node can finish its block by its own steps and the running out of the lock, whatever the other nodes had begun |
| `StreamNode.Stream.PrepareStreamTask` | x/stream/endblocker.go:47-88 | jumps, returns the stored task, starts a new one, gives up or restarts exactly for the stated contents of cache and store and answers of the lock service; the cache becomes what was read, and the steps are the protocol's |
| `StreamNode.Stream.ExecuteStreamTask` | x/stream/endblocker.go:138-158 | afterwards exactly the sinks done before, or reported as a success in time, are done; it jumps exactly when the task was stored with all sinks done, and is a run of the protocol |
| `StreamNode.Stream.Execute` | x/stream/endblocker.go:160-195 | the loop returns only when the node's block is done, panics only when the store is too far behind, tries again only if no pass had all answers and successes, and is a run of the protocol |
| `TokenEscrow.LockedUpdated` | x/token/keeper.go:203-249 | locking adds to all locked coins together, unlocking takes from them, exactly the coins named |
| `TokenEscrow.LockKeepsBacked` | x/token/keeper.go:194-200 | locking keeps the module account equal to all locked coins together |
| `TokenEscrow.UnlockKeepsBacked` | x/token/keeper.go:252-264 | unlocking keeps it too, and never fails for lack of module funds |
| `TokenEscrow.LockThenUnlock` | x/token/keeper.go:194-264 | unlocking what was just locked succeeds and restores every balance and every record of locked coins |
| `TokenEscrow.MessagesLeaveEscrow` | x/token/handler.go:85-458 | no message of the token module, transfers to one or many included, changes locked coins or what the module account holds |
| `TokenEscrow.BalancedBatchSettles` | x/token/keeper.go:314-328 | a batch whose payouts equal its unlocked coins settles in full, in the order given, and leaves the escrow backed |
| `TokenEscrow.BatchBackedExactlyWhenBalanced` | x/token/keeper.go:314-328 | a settled batch leaves the escrow backed if and only if payouts equal unlocked coins |
| `TokenEscrow.UnbalancedBatchBreaksEscrow` | x/token/keeper.go:314-328 | one settlement that gives up a locked coin and pays nobody goes through and leaves the escrow not backed |
| `TokenEscrow.AlwaysBacked` | x/token/keeper.go:194-328 | over any run of locks, unlocks, balanced batches and messages the module account holds exactly the locked coins |
| `TokenSupply.BurnFromExact` | x/token/handler.go:165-176 | burning coins succeeds exactly when the account holds them; it never fails on the module's side |
| `TokenSupply.MessagesKeepSupply` | x/token/handler.go:85-458 | every message keeps the supply of every token equal to what all accounts hold of it |
| `TokenSupply.SupplyAlwaysExact` | x/token/keeper.go:181-328 | over any run of messages, locks, unlocks and settlements, balanced or not, supply and holdings agree |
| `TokenOwnership.OwnerChange` | x/token/handler.go:321-412 | an owner changes only by its own request to the black hole or by confirming an open transfer |
| `TokenOwnership.IndexAlwaysExact` | x/token/keeper.go:146-162 | in every run the index lists a token under an owner exactly when the token's record names that owner |
| `TokenOwnership.NeverMissing` | x/token/handler.go:388-392 | a confirmation never meets a request for a token that has no record |
| `TokenOwnership.OpenRequestFreezesOwner` | x/token/handler.go:328-331 | while a transfer is open the owner and the request stay as they are until it is confirmed |
| `TokenOwnership.PendingWasRequested` | x/token/handler.go:321-373 | every open transfer was requested by the one who owns the token now, to that address |
| `TokenOwnership.BlackHoleKeeps` | x/token/handler.go:333-337 | a token of the black hole never gets another owner, not even by a transfer requested before |
| `TokenEffects.NameIs` | x/token/keeper.go:406-423 | the name found is the last candidate that is free or ill formed, if well formed, and there is no name exactly when there is no such candidate |
| `TokenEffects.HandleEffect` | x/token/handler.go:85-458 | every message that goes through moves exactly the coins it names and its fee between exactly the accounts it names, changes the supply of exactly its token, and changes exactly its record or request, with the time the request ends; all else stays |
| `TokenEffects.LockEffect` | x/token/keeper.go:194-200 | locking moves exactly the coins from the owner to the module account and adds them to that owner's lock of that kind only |
| `TokenEffects.UnlockEffect` | x/token/keeper.go:252-264 | unlocking moves exactly the coins back to the owner and takes them from that owner's lock of that kind only |
| `TokenEffects.SettlesFor` | x/token/keeper.go:314-328 | a settlement pays exactly the input to the address settled and to nobody else, and takes exactly the output from that address's quantity lock and from no other |
| `TokenEffects.BatchPaysEach` | x/token/keeper.go:314-328 | over a batch in any order each address gets the sum of its own inputs and gives up the sum of its own outputs |
| `TokenRefusals.HandleJustified` | x/token/handler.go:85-458 | every message goes through if and only if none of its reasons for refusal holds, and a refused one names a reason that holds |
| `TokenRefusals.LockJustified` | x/token/keeper.go:194-200 | locking goes through exactly when the owner covers the coins and the kind is known |
| `TokenRefusals.UnlockJustified` | x/token/keeper.go:252-264 | unlocking goes through exactly when the owner has the coins locked in a known kind |
| `TokenRefusals.SettleJustified` | x/token/keeper.go:314-328 | a settlement goes through exactly when the address has the output locked and the module account covers the input |
| `TokenKeeper.AddTokenSuffix` | x/token/keeper.go:406-423 | a name is found exactly when the last candidate that is free or ill formed is well formed, it is that candidate, and no token has it yet |
| `TokenKeeper.HandledProperly` | x/token/handler.go:85-458 | every message keeps an exact index, backed escrow and exact supplies, and none fails for module funds or a lost record |
| `TokenKeeper.Keeper.GetUserTokensInfo` | x/token/keeper.go:105-120 | lists the record of every token the owner has, each once, and no other |
| `TokenKeeper.Keeper.LockCoins` | x/token/keeper.go:194-200 | keeps the module's invariants when it succeeds; moves exactly the coins from the owner to the escrow and that owner's lock, touching nobody else, and is refused exactly for lack of coins or an unknown kind |
| `TokenKeeper.Keeper.UnlockCoins` | x/token/keeper.go:252-264 | keeps the invariants always; gives exactly the coins from that owner's lock back to the owner, touching nobody else, is refused exactly when they are not locked or the kind is unknown, and never lacks module funds |
| `TokenKeeper.Keeper.BalanceAccount` | x/token/keeper.go:314-328 | when it succeeds the balance of the address settled grows by exactly the input, the module account falls by it, the output leaves that address's quantity lock only, and nobody else is touched; it is refused exactly when the output is not locked or the module account lacks the input |
| `TokenKeeper.Keeper.HandleMsgTokenIssue` | x/token/handler.go:85-154 | keeps the invariants; the token gets the name found from its symbol and the transaction's hash, well formed and new, the sender owns it, gets the whole supply and pays the fee; refused exactly for the stated reasons |
| `TokenKeeper.Keeper.HandleMsgTokenBurn` | x/token/handler.go:156-202 | keeps the invariants; only the owner burns, the supply and the owner's balance fall by exactly the amount, the owner pays the fee, and it is refused exactly for the stated reasons |
| `TokenKeeper.Keeper.HandleMsgTokenMint` | x/token/handler.go:204-260 | keeps the invariants; only the owner mints, the supply and the owner's balance grow by exactly the amount, within the bound, the owner pays the fee, and it is refused exactly for the stated reasons |
| `TokenKeeper.Keeper.HandleMsgTransferOwnership` | x/token/handler.go:321-373 | keeps the invariants; the owner stays until confirmation and the request is stored with its address and its end, block time plus the window, or the black hole owns the token at once; refused exactly for the stated reasons |
| `TokenKeeper.Keeper.HandleMsgConfirmOwnership` | x/token/handler.go:375-412 | keeps the invariants; the confirming address owns the token, that request is gone, nothing else changes; refused exactly when there is no request, it ended, or it names another address |
| `TokenKeeper.Keeper.HandleMsgTokenModify` | x/token/handler.go:414-458 | keeps the invariants, the owner and all supplies; exactly the description changes and the owner pays the fee; refused exactly for the stated reasons |
| `TokenKeeper.Keeper.HandleMsgSend` | x/token/handler.go:295-319 | keeps the invariants and what the module account holds; the payer gives and the recipient gets exactly the coins, and it is refused exactly when sending is off, the recipient is barred or the payer lacks coins |
| `TokenKeeper.Keeper.HandleMsgMultiSend` | x/token/handler.go:262-293 | the loop keeps the invariants; every account changes by exactly the sum of the transfers it is part of, and it fails as a whole exactly when sending is off, some recipient is barred or the payer runs out before some transfer |
| `TokenKeeper.Keeper.DeliverTx` | x/token/handler.go:16-83 | every transaction keeps the invariants and the escrow; it goes through exactly when nothing hinders it and then has its stated effect on every account and record; a failed one, an expired confirmation included, leaves no trace |
| `KlinePadding.AnchorAligned` | x/backend/types/klines.go:179-183 | the anchor of a time is a whole period, and for times from 1970 on the last one not after it |
| `KlinePadding.PaddedSeries` | x/backend/types/klines.go:776-827 | padding gives a series with one candle for each period from the oldest to the current one, keeps every candle and the volume, and fills each gap with candles of no volume whose four prices are the last close before |
| `KlinePadding.OneSortedOrder` | x/backend/types/klines.go:822-824 | candles at different times can be sorted in one way only |
| `KlinePadding.ToIKlinesArray` | x/backend/types/klines.go:776-827 | the two loops and the sort give exactly that filled-up series, or without padding the candles in ascending order |
| `KlineTables.NextKeeps` | x/backend/orm/orm.go:515-610 | every step of the service keeps the candles exact up to a mark that only grows |
| `KlineTables.EveryResultIsCountedOnce` | x/backend/keeper/keeper_channel.go:33-86 | over any run of blocks, jobs and restarts each result before the anchor lies in exactly one candle; every candle's volume is the sum of its minute's results, its high and low the greatest and least of their prices, and it opens and closes with an earliest and a latest deal |
| `KlineTables.AlwaysQuoted` | x/backend/orm/orm.go:563-570 | in every reachable state results and deals match and every candle has the prices of its minute's deals; later deals change no finished candle's prices |
| `KlineTables.MergingLosesNothing` | x/backend/orm/orm.go:783-825 | over any window of whole minutes candles and results have the same sum of volumes, greatest high and least low, and have none together |
| `KlineTables.BeginIsSafeExactlyBehindTheChain` | x/backend/keeper/keeper_channel.go:37-50 | over every later run of blocks, results, jobs and restarts all results before the anchor are counted if and only if the first call has nothing to start from or its end time is not in a minute after the latest block |
| `KlineTables.WallClockStartLosesResults` | x/backend/keeper/keeper_channel.go:37-50 | a concrete start from the wall clock after which a stored result is in no candle |
| `KlineKeeper.SelectGroups` | x/backend/orm/orm.go:503-578 | a grouped query and the prices read for it give one candle for each product that has rows in the window, with the sum of their volumes, their greatest high and least low, and the prices of an earliest and a latest quote |
| `KlineKeeper.CollectWindows` | x/backend/orm/orm.go:544-589 | the window loop collects one candle for each product and window with rows, each once, up to the last window that ends in time |
| `KlineKeeper.Backend.CreateKline1M` | x/backend/orm/orm.go:515-610 | adds exactly the missing candles of the covered minutes, each with the sum, greatest and least of its minute's results and its open and close, under keys not yet taken, or reports a bad range or nothing to do |
| `KlineKeeper.Backend.StoreDealAndMatchResult` | x/backend/abci.go:60-82 | the end of a block moves the block time and adds its results and deals; the candles stay exact and priced |
| `KlineKeeper.Backend.Start` | x/backend/keeper/keeper_channel.go:33-50 | the first call is the service's first step, by block time once this process has seen a block and by the wall clock before; it keeps the candles exact and all results counted unless it goes past the chain's latest block, which by block time it never does |
| `KlineKeeper.Backend.DoWork` | x/backend/keeper/keeper_channel.go:59-86 | one round is a step of the service, keeps the candles exact and all results before the anchor counted; before any block it changes nothing |
| `KlineKeeper.Backend.MergeKlineM1` | x/backend/orm/orm.go:738-854 | writes the covered windows anew, each with the sum of volumes, greatest high, least low, open and close of its candles, keeps all other rows and tables and one row for each key, and fails exactly in its three cases |
| `KlineMerges.MergeFinishes` | x/backend/orm/orm.go:752-850 | a merge of the candles that deletions have left leaves every row, written now or before, exact unless a deletion split its window, and leaves no candle up to its time without a row |
| `KlineMerges.BeforeFirst` | x/backend/orm/orm.go:752-778 | starting at the latest row not after the notice, at the notice's window, or at the oldest candle left, a merge passes over only windows before the latest row, windows that end by the notice when all rows are after it, and windows before the oldest candle left |
| `KlineMerges.LateCandlesKeep` | x/backend/orm/orm.go:544-606 | candles written later change nothing the coarse table shows as finished |
| `KlineMerges.DropKeeps` | x/backend/orm/orm.go:612-626 | deleting old rows of the coarse table leaves the rest exact and nothing newer missing |
| `KlineJobs.CalledIsCreated` | x/backend/orm/orm.go:525-543 | a one-minute call on what deletions have left does the same as one on all candles there ever were |
| `KlineJobs.StepKeeps` | x/backend/keeper/keeper_channel.go:59-236 | every block, job, notice, merge, deletion and restart keeps table, channel and candles consistent |
| `KlineJobs.CoarseTableIsExact` | x/backend/keeper/keeper_channel.go:141-236 | in any run, deletions included, right after every merge each coarse row whose window no deletion split has the sum of volumes, the greatest and the least price of its window's results and opens and closes with an earliest and a latest deal of it, up to the mark the one-minute candles have reached; no window with results up to the time merged to is missing unless its row was deleted |
| `KlineCleanUp.CleanUpSpoilsExactlyCutWindows` | x/backend/keeper/keeper_channel.go:196-225 | after a deletion and a merge, by the running process or a new one, a coarse window still shows its whole aggregate if and only if the merge does not reach it or the deletion did not split it for its product |
| `KlineCleanUp.CutWindowLosesVolume` | x/backend/keeper/keeper_channel.go:151-153 | a window of 3 minutes that the first merge of a new process, after a deletion, leaves with less than its results |
| `KlineCleanUp.RunningMergeLosesVolume` | x/backend/keeper/keeper_channel.go:160-169 | a window of 3 days that a later merge of the same process, after a deletion, leaves with less than its results |
| `KlineRows.OpenClose` | x/backend/orm/orm.go:367-386 | the open and close of a window are prices of an earliest and a latest row in it, and there are none exactly when it has no row |
| `KlineRows.OverIs` | x/backend/orm/orm.go:503-507 | the aggregate of a window is empty exactly when no row is in it; otherwise its volume is the sum over exactly its rows, its high is one of theirs and none is above, its low is one of theirs and none is below; nothing else has these properties |
| `KlinePrices.CoarsePricesAreDeals` | x/backend/orm/orm.go:805-817 | over any window of whole minutes that the service's candles have reached they open and close with an earliest and a latest deal of the window, and there is no candle exactly when there is no deal |
| `FarmYield.ShareBounds` | x/farm/abci.go:49-50 | a truncated share is never above the exact one and short of it by less than S/V + 1 raw units |
| `FarmYield.YieldIsSharedOut` | x/farm/abci.go:42-68 | the parts are never negative and add up to exactly the yield; each but the last falls short of its exact share by less than S/V + 1 |
| `FarmYield.ValuedIsExact` | x/farm/abci.go:91-104 | every pool with value is in the list and, if pools are listed once, once |
| `FarmYield.Allot` | x/farm/abci.go:45-52 | one turn allots exactly the pool's part of what is left |
| `FarmYield.Keeper.CalculateAllocateInfo` | x/farm/abci.go:83-106 | the pools with value in store order, their values and the total of these |
| `FarmYield.Keeper.ShareOut` | x/farm/abci.go:42-68 | after the loop nothing is left, each pool's rewards grew by its part and nobody else's changed |
| `FarmYield.Keeper.BeginBlocker` | x/farm/abci.go:14-75 | with pools of value the whole yield moves and rewards grow by exactly it; otherwise it stays or is burned; the leftover panic is out of reach |
| `StorageFile.HexRoundTrip` | x/evm/export_operation.go:279-335 | a 32-byte word printed in hexadecimal is read back unchanged |
| `StorageFile.LineRoundTrip` | x/evm/export_operation.go:279-335 | a printed line parses to exactly its key and value, and its only line feed is its last character |
| `StorageFile.LoadedIsStored` | x/evm/export_operation.go:326-340 | reading a printed file stores exactly its slots, in order |
| `StorageFile.FileRoundTrip` | x/evm/export_operation.go:273-340 | for every storage, walked in any order, reading the printed file gives back exactly that storage |
| `StorageFile.WriteStorage` | x/evm/export_operation.go:273-285 | the callback's lines make the printed file; an empty storage leaves none |
| `StorageFile.ReadStorage` | x/evm/export_operation.go:318-340 | the line loop loads the file, and without a file nothing changes |
| `StorageFile.ExportAndImport` | x/evm/export_operation.go:273-340 | writing and reading back gives the same storage |

## Left out

- Order matching, dex, governance, staking, distribution, slashing and evidence: their central keepers are not part of this model.
- `GetRedeemableAssets`: it repeats the amounts of a withdrawal, which are modelled there.
- Overflow of 256-bit decimals, codecs, JSON, SQL failures, logging, events and gas.
- A stored task that does not parse: the original keeps the half-filled task before it fails, but only tasks it printed itself are ever stored.
- The time a task was updated: it decides nothing.
- How long a node waits between tries, and that a node which can finish does: whether it gets the lock in the end depends on the lock service and the clock.
- The order in which Go walks a map: sinks, candles and pools are covered for any order that leaves the result the same.
- The buffer behind `RefreshTickers`.
- Rounding of floating-point sums: prices and volumes of candles are real numbers.
- A process that starts when all one-minute candles have been deleted: it would write them all again from the results.
- A job between the two inserts of a block's results and its deals: neither is in a minute the job may finish.
- TokenKeeper.AddTokenSuffix: which names are well formed is a parameter, because the SDK's pattern of a denomination is not part of this model; what is stated holds for any pattern.
- The counter of tokens that `NewToken` keeps and the whole name of a token: nothing modelled reads them; a change of the whole name is one more change of the description.
- Periods of farm rewards and the value of what a pool has locked: both come from code that is not part of this model.
- Contract code and the file system: a file is its text, or absent.
