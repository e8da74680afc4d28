# Verification of the blockchain state engine

A Dafny model of `libraries/blockchain`: the tree of blocks and the switching between forks, the layers of
pending and undo state, the ledger with every registered operation, the extension of the chain by a block, the
account indexes, the schedule of delegates, and the arithmetic these rest on. `dafny verify dfyconfig.toml`
checks it.

## What is proved

- **Forks** (`ForkTree`, `ChainDatabase`). Blocks arrive in any order. In every reachable state, also after
  switches that failed halfway, the linked and invalid flags mean what they should and the included blocks are
  exactly the head and its ancestors. Pushing a block never lowers the head number, and a head it switches to arrived
  before every other acceptable block of its number (`FirstOfItsNumber`), in the order in which the blocks were pushed.
  If the head was the highest acceptable block before, it still is afterwards *if and only if* the new block is not `Overshadowed`: a block that
  others waited for is reported only through them, so when they all carry smaller numbers the block itself is passed over
  (`OvershadowHappens`). `PushOutcome` gives the exact head after a push, however many forks fail on the way, and says
  exactly when a push does not return. It always returns when no acceptable block is numbered zero. The header checks let
  such a block through, and popping is stuck exactly when one lies between the head and the fork point;
  `NumberZeroBlocksPopping` is a run of four pushes that ends that way.
- **Operations** (`Operations`, `Effects`, `Transactions`, `Evaluation`). `Evaluation` is the imperative evaluation of a
  transaction. Every operation of it is accepted exactly under a stated condition and leaves exactly the state of a function
  in `Operations`, and so does the whole transaction (`Evaluated`). `Effects` says in amounts what each of these states
  is and that no other record is touched (`StepDoes`). `Transactions` reasons over whole runs of operations: in an
  accepted transaction of deposits and withdrawals of assets that are not market-issued every balance changes by its deposits
  less its withdrawals and the collected fees by the difference, a plain transfer is accepted exactly with the owner's
  signature and cover, and a registered account is there at the end.
- **Ledger** (`Records`, `Ledger`, `Evaluation`, `Packets`, `Vesting`). Through every operation, records plus the
  running total of the transaction make up the supply of every asset, and every delegate's recorded votes, with the
  pending corrections, are its pay plus the base shares whose slate names it. At the end of an accepted transaction
  both hold of the records alone. No balance, fee pool, pay or reward pool goes below zero, and no address but that of the
  null key belongs to two accounts. Claims of a red packet in the name of account -1, the id that marks a share as
  unclaimed, are paid and left in the packet as well. The books exceed the supply by exactly what was paid twice, which an
  operation changes if and only if it is an accepted claim of -1 and the next share is positive; `PacketIsPaidTwice` is
  a run that does it and fails the supply check.
- **Blocks** (`Blocks`, `Rewards`, `Schedule`). A run of blocks keeps all of that. Each block is charged to the delegate
  whose turn it was, and each slot passed over to the delegate whose turn that was, delegate by delegate over the whole
  run. A block is accepted exactly when it passes the header checks, the slots it passes over belong to delegates, its
  producer's pay rate is at most 100, its rewards can be drawn and none of its transactions is refused. It then leaves
  exactly what charging the slots, paying the producer, evaluating the transactions in order and paying the rewards yields. So
  every balance has moved by the deposits and withdrawals of the block and the prizes of the day (`BlockMoves`), and every
  account it registers is there (`BlockRegisters`). The slot totals match the time from the first block to the head; a
  block keeps this so exactly when it is numbered from one and, unless it is the first, later than the head. A second
  block numbered one is accepted without that and breaks it (`FirstAgain`); `FirstBlockTwice` runs this over any genesis
  state (`Genesis`), which is sound exactly when no two first delegates share a key. The active delegates are the true top
  by votes, shuffled: each has more votes than every listed delegate left out, or as many and a lower id. Pay, daily share,
  prizes and yield are pinned in numbers with their rounding. No note position wins twice, however large the binomial
  counts become and wrap around, the winners are the ones that the random numbers stand for, and every owner gets what was won.
- **Supply check** (`Supplies`). The check that looks only at what a layer touches decides whether the books of the
  whole state balance; between two states of the ledger it fails exactly when something was paid twice.
- **Layers** (`Layers`). Applying a layer makes the one below answer every lookup as the layer did, at any depth.
  Popping n blocks restores every record to what it was, except advertisements and the reward pool: taking back a
  block restores everything exactly when the block left those alone, and a pool that is left behind unbalances the
  books exactly when its contents differ (`PoolLeftBehind`).
- **Account indexes** (`AccountIndex`). Whatever happens, every address but that of the null key finds the account that has
  it, also in a layer whose erased entries uncover those below. The name and vote indexes agree with the records. The
  address index is exact through every store, removal and operation under an exact condition for each. The condition
  includes the null key: an account that was registered with it as owner key loses its entry when another account erases
  the null key from its histories (`NullOwnerIsLost`), and the null key is then accepted as the owner key of a further
  account (`NullOwnerTwice`). The top delegates are the true top.
- **Replay** (`Replay`). From an exact unique set a block never repeats a transaction, and the set stays exact if and only
  if no transaction applied before expired after the time of the block and up to the head; for blocks numbered above one
  there is none, although expired transactions are forgotten. After a pop the set is exact if and only if no remaining
  transaction expired between the two head times. `ReplayAfterPop` and `ReplayWithoutPop` apply a transaction twice
  when these conditions fail.
- **Smaller pieces**. The red-packet split and its combinatorics, vesting and yield, the price text
  (`PriceText`, an exact round trip if and only if the ratio is below 2^64) and the interpolation search
  (`BlockSearch`), which agrees with a linear scan unless a guess is rounded up to the end of its range, and then goes on
  forever.

## Reading guide

Amounts are unbounded integers; where the original wraps around (counts of packet units, binomial counts, note
counts, the parsed integer part of a price, the yield divisor) the model does too. A block id determines the
block and its ancestors, a balance id is its withdraw condition, and a transaction stands for its digest. Public keys and
their addresses are one value. Signatures are the set of signing addresses. Block validation beyond the number rule is
a fixed function of the block and its ancestors. A call that would not return is an outcome of its own, `PopsForever` or
`Endless`.

The record under `ReferenceKey` is the one record that the original does not have: it counts production slots and
shares that were paid twice, as the reference for the production counters and the books.

Where comments and code of the original disagree the code is followed: records are removed before others are
stored when a layer is applied, block pay is a share of the collected fees rather than a halving issue, and note
rewards are paid every 8640 blocks.

## Model

| member | source | states |
|---|---|---|
| ChainDatabase.ChainDatabase.PushBlock | libraries/blockchain/chain_database.cpp:2004-2096 | all invariants kept, the head number never falls, refused exactly outside the undo history; the head after it is `PushOutcome`, and the call does not return exactly when that is none, never without an acceptable block numbered zero; the head stays the best block if and only if the pushed block is not overshadowed; a head it switches to arrived before every other acceptable block of its number |
| ChainDatabase.ChainDatabase.AddBlock | libraries/blockchain/chain_database.cpp:2037-2090 | the same for a new block, which joins the arrivals as the last |
| ChainDatabase.ChainDatabase.Receive | libraries/blockchain/chain_database.cpp:2037-2059 | storing a block: whether a switch is tried, and that only an overshadowed block is lost |
| ChainDatabase.ChainDatabase.TryForks | libraries/blockchain/chain_database.cpp:2055-2088 | trying forks from the highest number down ends exactly where the series of switches leads, or does not return exactly when it is blocked; never below the old head, and at the best block if the search starts high enough |
| ChainDatabase.ChainDatabase.Reorganise | libraries/blockchain/chain_database.cpp:2055-2088 | whatever forks fail on the way, the head it ends at arrived before every other acceptable block of its number |
| ChainDatabase.ChainDatabase.TryForksAt | libraries/blockchain/chain_database.cpp:2063-2086 | the forks listed at one number are tried in the order of the list: exactly that part of the series, with the failures it adds |
| ChainDatabase.ChainDatabase.TryFork | libraries/blockchain/chain_database.cpp:2068-2085 | does not return exactly when the fork can be linked and is blocked; otherwise a failed switch leaves the head before the first unacceptable block of the fork and marks exactly what is above |
| ChainDatabase.ChainDatabase.SwitchToFork | libraries/blockchain/chain_database.cpp:706-723 | stuck exactly when a block between the head and the fork point is numbered zero; otherwise succeeds exactly if the whole chain of the block is acceptable, and else marks the block invalid |
| ChainDatabase.ChainDatabase.PopTo | libraries/blockchain/chain_database.cpp:712-717 | the pop loop reaches the common ancestor exactly when no block on the way is numbered zero, and else stays at such a block |
| ChainDatabase.BlockedMeansZero | libraries/blockchain/chain_database.cpp:1403-1410 | a blocked switch shows an acceptable received block numbered zero |
| ChainDatabase.SeriesIsSafe | libraries/blockchain/chain_database.cpp:2055-2088 | a series of switches, however many fail, ends no lower than it began and at a best block, or meets an acceptable block numbered zero |
| ChainDatabase.SeriesFindsGood | libraries/blockchain/chain_database.cpp:2063-2086 | a series by falling numbers never passes over an acceptable block |
| ChainDatabase.FirstArrivalWins | libraries/blockchain/chain_database.cpp:2063-2086 | a series of switches ends at the first arrival among the acceptable blocks of the number it ends at |
| ChainDatabase.ArrivedNext | libraries/blockchain/chain_database.cpp:571-575 | the list of each number stays in the order of arrival when a block is received |
| ChainDatabase.HighestWins | libraries/blockchain/chain_database.cpp:2049-2088 | an acceptable block above the head, first of its number, becomes the head, or exactly when it is blocked the push does not return |
| ChainDatabase.LowBlockIsPassed | libraries/blockchain/chain_database.cpp:2049-2090 | a block nobody waited for that is not above the head leaves the head alone |
| ChainDatabase.ChainDatabase.ExtendAlong | libraries/blockchain/chain_database.cpp:718-722 | re-extension reaches the block or marks it invalid |
| ChainDatabase.ChainDatabase.GetForkHistory | libraries/blockchain/chain_database.cpp:1372-1401 | the path to the nearest included ancestor; the dead-end assertion never fires |
| ChainDatabase.ChainDatabase.PopBlock | libraries/blockchain/chain_database.cpp:1403-1441 | takes exactly the head out of the included set |
| ChainDatabase.ChainDatabase.ExtendChain | libraries/blockchain/chain_database.cpp:1267-1364 | accepted exactly when the block extends its parent, and then included; otherwise it and its descendants are invalid |
| ChainDatabase.ChainDatabase.StoreAndIndex | libraries/blockchain/chain_database.cpp:541-648 | the new tree and the reported longest fork, for a new node and for a filled placeholder |
| ChainDatabase.ChainDatabase.AttachBlock | libraries/blockchain/chain_database.cpp:557-597 | block, node and parent node after a block is received; its id comes last among those of its number, and the lists of other numbers stay |
| ChainDatabase.ChainDatabase.RecursiveMarkAsLinked | libraries/blockchain/chain_database.cpp:465-498 | links exactly the received descendants and finds the highest of them |
| ChainDatabase.ChainDatabase.RecursiveMarkAsInvalid | libraries/blockchain/chain_database.cpp:499-517 | invalidates exactly the received descendants |
| ChainDatabase.ChainDatabase.MarkBlockInvalid | libraries/blockchain/chain_database.cpp:650-660 | a block and all its received descendants become invalid |
| ChainDatabase.ChainDatabase.FetchBlocksAtNumber | libraries/blockchain/chain_database.cpp:436-442 | the received blocks of a number, all of them and no others |
| ChainDatabase.ChainDatabase.constructor | libraries/blockchain/chain_database.cpp:413-419 | the genesis node satisfies the invariants |
| ChainDatabase.ReportIsEnough | libraries/blockchain/chain_database.cpp:2037-2059 | a stored block leads to a switch, or the head is still the best, unless it is overshadowed |
| ChainDatabase.NewGoodChains | libraries/blockchain/chain_database.cpp:541-648 | every newly acceptable chain passes through the stored block |
| ChainDatabase.GoodBlockIsNext | libraries/blockchain/chain_database.cpp:541-648 | an acceptable new block is at most one above the best head |
| ChainDatabase.OvershadowHappens | libraries/blockchain/chain_database.cpp:594-624 | a concrete tree in which the best block is passed over |
| ChainDatabase.NumberZeroBlocksPopping | libraries/blockchain/chain_database.cpp:811-820 | four pushes, the first numbered zero, after which the last push does not return |
| ForkTree.StoreKeepsInv | libraries/blockchain/chain_database.cpp:541-648 | storing a block in any order keeps shape, flags, number index and included set |
| ForkTree.StoreKeepsFlags | libraries/blockchain/chain_database.cpp:465-517 | a linked, valid parent links its known children, and linked blocks have linked known parents |
| ForkTree.MarkInvalidKeepsInv | libraries/blockchain/chain_database.cpp:650-660 | invalidating a rejected block keeps the invariants |
| ForkTree.IncludeKeepsInv | libraries/blockchain/chain_database.cpp:689-704 | including an accepted child of the head keeps the included set the head's ancestry |
| ForkTree.PopKeepsInv | libraries/blockchain/chain_database.cpp:1403-1433 | so does popping the head |
| ForkTree.LinkedChain | libraries/blockchain/chain_database.cpp:465-498 | a linkable block has known, linked, not-invalid ancestors down to genesis |
| ForkTree.GoodChainCanLink | libraries/blockchain/chain_database.cpp:465-517 | a received acceptable chain is linked and not marked invalid |
| ForkTree.HeadNumberIsDetermined | libraries/blockchain/chain_database.cpp:2004-2096 | two nodes with the same blocks and best heads agree on the head number |
| Ledger.PutBalance | libraries/blockchain/transaction_evaluation_state.cpp:186-239 | storing a balance moves shares out of the running total and votes with them |
| Ledger.PutAccount | libraries/blockchain/account_operations.cpp:144-168 | storing an account moves pay against the running total and the tally with the pay; a new delegate has no votes yet |
| Ledger.PutAsset | libraries/blockchain/asset_operations.cpp:33-162 | new supply joins the running total, collected fees and collateral leave it |
| Ledger.PutPacket | libraries/blockchain/balance_operations.cpp:437-605 | packet shares leave the running total and come back when claimed |
| Ledger.PutReward | libraries/blockchain/balance_operations.cpp:386-435 | the reward pool is part of the books |
| Ledger.PutSlate | libraries/blockchain/slate_operations.cpp:7-33 | a new slate changes no tally |
| Ledger.PutCharge | libraries/blockchain/chain_database.cpp:876-909 | a slot is charged to one delegate, and its votes and pay stay |
| Ledger.UnnamedHasNoVotes | libraries/blockchain/slate_operations.cpp:15-28 | slates name only delegates, so nobody else has votes |
| Evaluation.TransactionEvaluation.AdjustVote | libraries/blockchain/transaction_evaluation_state.cpp:186-200 | the corrections gain the amount for exactly the non-negative members of the slate; fails exactly on an unknown slate |
| Evaluation.TransactionEvaluation.Deposit | libraries/blockchain/balance_operations.cpp:116-183 | accepted exactly under `MayDeposit`; books and tallies kept, and the state is then `AfterDeposit`, with the effect of `DepositDoes` |
| Effects.DepositDoes | libraries/blockchain/balance_operations.cpp:116-183 | the balance gains what the running total loses, its date becomes the mean by amount rounded down, and nothing else changes |
| Evaluation.TransactionEvaluation.TakeYield | libraries/blockchain/balance_operations.cpp:249-263 | the yield that is due moves from the collected fees of the asset to the balance |
| Evaluation.TransactionEvaluation.Withdraw | libraries/blockchain/balance_operations.cpp:185-273 | accepted exactly under `MayWithdrawFrom`; books and tallies kept, and the state is then `AfterWithdraw`, with the effect of `WithdrawDoes` |
| Effects.WithdrawDoes | libraries/blockchain/balance_operations.cpp:185-273 | the balance loses the amount and gains the yield, the running total gains the amount, the collected fees lose the yield, and the withdrawal fee is required without the authority of the asset |
| Evaluation.TransactionEvaluation.RequireWithdrawalFee | libraries/blockchain/balance_operations.cpp:269-270 | the required fees become `FeeRaised`: the maximum with the withdrawal fee when that is due |
| Operations.Context.OnlyOwnersSpend | libraries/blockchain/balance_operations.cpp:194-243 | without the right to retract, the amount is spendable and some owner has signed, or the lock asks for no signature |
| Operations.Context.RefusedUnlessMaySpend | libraries/blockchain/balance_operations.cpp:194-243 | a withdrawal passes exactly with the issuer's right to retract or an unlocked lock and no halt, within what is spendable |
| Operations.Context.RefusedUnlessMayUpdateVote | libraries/blockchain/balance_operations.cpp:784-815 | a vote update passes exactly with the signatures of all owners for a new restricted owner, and otherwise, an hour after the last change, with theirs or the restricted owner's |
| Evaluation.TransactionEvaluation.Burn | libraries/blockchain/balance_operations.cpp:275-317 | accepted exactly under `MayBurn`; books and tallies kept, and the state is then `AfterBurn`, with the effect of `BurnDoes` |
| Effects.BurnDoes | libraries/blockchain/balance_operations.cpp:275-317 | supply and running total fall by the amount, and the message is stored |
| Evaluation.TransactionEvaluation.Advertise | libraries/blockchain/balance_operations.cpp:319-384 | accepted exactly under `MayAdvertise`; books and tallies kept, and the state is then `AfterAd`, with the effect of `AdDoes` |
| Effects.AdDoes | libraries/blockchain/balance_operations.cpp:319-384 | the owner of the space gets what exceeds the price of the message, which is required as a fee |
| Evaluation.TransactionEvaluation.WriteNote | libraries/blockchain/balance_operations.cpp:386-435 | accepted exactly under `MayWriteNote`; books and tallies kept, and the state is then `AfterNote`, with the effect of `NoteDoes` |
| Effects.NoteDoes | libraries/blockchain/balance_operations.cpp:386-435 | three tenths, rounded down, are required as a fee and the rest joins the reward pool |
| Evaluation.TransactionEvaluation.CreatePacket | libraries/blockchain/balance_operations.cpp:437-545 | accepted exactly under `MaySendPacket`; books and tallies kept, and the state is then `AfterPacket`, with the effect of `PacketDoes` |
| Effects.PacketDoes | libraries/blockchain/balance_operations.cpp:437-545 | the packet holds exactly what left the running total, in the asked number of unclaimed shares |
| Evaluation.TransactionEvaluation.ClaimPacket | libraries/blockchain/balance_operations.cpp:547-605 | accepted exactly under `ClaimPays`; books and tallies kept, and the state is then `AfterClaim`, with the effect of `ClaimDoes` |
| Effects.ClaimDoes | libraries/blockchain/balance_operations.cpp:547-605 | the balance of the active key gains the share and the packet loses it, except that for -1 it stays and, when positive, counts as paid twice |
| Evaluation.TransactionEvaluation.UpdateBalanceVote | libraries/blockchain/balance_operations.cpp:751-854 | accepted exactly under `MayVote`; books and tallies kept, and the state is then `AfterVote`, with the effect of `VoteDoes` |
| Effects.VoteDoes | libraries/blockchain/balance_operations.cpp:751-854 | the balance less the fee moves under the new slate of the same owner, also when the slate stays |
| Evaluation.TransactionEvaluation.DefineSlate | libraries/blockchain/slate_operations.cpp:7-33 | accepted exactly under `MayDefineSlate`; books and tallies kept, and the state is then `AfterSlate`, with the effect of `SlateDoes` |
| Effects.SlateDoes | libraries/blockchain/slate_operations.cpp:7-33 | exactly the named ids stand under the id of the slate |
| Evaluation.TransactionEvaluation.RegisterAccount | libraries/blockchain/account_operations.cpp:14-66 | accepted exactly under `MayRegister`; books and tallies kept, and the state is then `AfterRegister`, with the effect of `RegisterDoes` |
| Effects.RegisterDoes | libraries/blockchain/account_operations.cpp:14-66 | one new account under the next id, with the given name, owner key and active key, a delegate exactly when the pay rate is at most 100 |
| Evaluation.TransactionEvaluation.UpdateAccount | libraries/blockchain/account_operations.cpp:78-142 | accepted exactly under `MayUpdate`; books and tallies kept, and the state is then `AfterUpdate`, with the effect of `UpdateDoes` |
| Effects.UpdateDoes | libraries/blockchain/account_operations.cpp:78-142 | name, owner key, pay and tally stay; the active key and the pay rate become the given ones, and a delegate stays one |
| Operations.Context.UpdateKeepsDelegate | libraries/blockchain/account_operations.cpp:78-142 | what an accepted update can change of a delegate |
| Evaluation.TransactionEvaluation.WithdrawPay | libraries/blockchain/account_operations.cpp:144-168 | accepted exactly under `MayWithdrawPay`; books and tallies kept, and the state is then `AfterPay` (the delegate, or a parent, has signed and the pay covers the amount), with the effect of `PayDoes` |
| Effects.PayDoes | libraries/blockchain/account_operations.cpp:144-168 | the pay loses what the running total gains, and the delegate as many votes |
| Evaluation.TransactionEvaluation.UpdateSigningKey | libraries/blockchain/account_operations.cpp:170-193 | accepted exactly under `MaySetSigningKey`; books and tallies kept, and the state is then `AfterSigningKey`, with the effect of `SigningKeyDoes` |
| Effects.SigningKeyDoes | libraries/blockchain/account_operations.cpp:170-193 | only the history of a delegate's signing keys changes, by the new key at the head |
| Evaluation.TransactionEvaluation.CreateAsset | libraries/blockchain/asset_operations.cpp:33-126 | accepted exactly under `MayCreateAsset`; books and tallies kept, and the state is then `AfterCreateAsset`, with the effect of `CreateAssetDoes` |
| Effects.CreateAssetDoes | libraries/blockchain/asset_operations.cpp:33-126 | one new asset under the next id with its issuer as authority; the initial supply joins the running total and the collateral is paid from it |
| Evaluation.TransactionEvaluation.IssueAsset | libraries/blockchain/asset_operations.cpp:128-162 | accepted exactly under `MayIssue`; books and tallies kept, and the state is then `AfterIssue`, with the effect of `IssueDoes` |
| Effects.IssueDoes | libraries/blockchain/asset_operations.cpp:128-162 | supply and running total grow by the amount, or for a negated id the collected fees lose what the running total gains |
| Evaluation.TransactionEvaluation.UpdateAsset | libraries/blockchain/asset_operations.cpp:164-335 | accepted exactly under `MayChangeAsset`; books and tallies kept, and the state is then `AfterChange`, with the effect of `ChangeDoes` |
| Effects.ChangeDoes | libraries/blockchain/asset_operations.cpp:164-335 | exactly the given parts are replaced, under the signature of the authority unless only the whitelist changes; with shares outstanding no permission is regained and the limits move only under an active flag |
| Evaluation.TransactionEvaluation.BuyChips | libraries/blockchain/market_operations.cpp:136-179 | accepted exactly under `MayBuyChips`; books and tallies kept, and the state is then `AfterChips`, with the effect of `ChipsDo` |
| Effects.ChipsDo | libraries/blockchain/market_operations.cpp:136-179 | the owner gets the new supply, and the collateral is paid from the running total |
| Evaluation.TransactionEvaluation.ValidateFees | libraries/blockchain/transaction_evaluation_state.cpp:96-128 | accepted exactly when no fee is negative, below the minimum or in an unknown asset; then `Collected` |
| Evaluation.TransactionEvaluation.UpdateDelegateVotes | libraries/blockchain/transaction_evaluation_state.cpp:70-82 | every correction reaches its delegate once, which is `Counted`; the delegate assertion never fails |
| Evaluation.TransactionEvaluation.UpdateRp | libraries/blockchain/transaction_evaluation_state.cpp:84-94 | only the reputation of the writing account changes |
| Evaluation.TransactionEvaluation.EvaluateOperation | libraries/blockchain/transaction_evaluation_state.cpp:181-184 | every registered operation is accepted exactly under `Accepts` and then leaves the state of `Step`, which keeps records plus running total equal to the supply plus what was paid twice, the tallies exact and addresses other than the null key unique; `StepDoes` gives the effect of each |
| Effects.StepDoes | libraries/blockchain/transaction_evaluation_state.cpp:181-184 | what each of the registered operations does to balances, assets, accounts, packets, pools, fees and the running total, and that it touches no other record |
| Effects.StepKeeps | libraries/blockchain/transaction_evaluation_state.cpp:181-184 | no operation changes a production counter, removes an account or changes its name or owner key; what was paid twice changes if and only if an accepted claim of -1 pays a positive share, by that share |
| Evaluation.TransactionEvaluation.Evaluate | libraries/blockchain/transaction_evaluation_state.cpp:130-179 | accepted exactly when `Evaluated` is some, and then exactly its records: the operations in order, then fees, votes and reputation; balanced books, exact tallies and unique addresses other than the null key are left |
| Transactions.TransfersMove | libraries/blockchain/transaction_evaluation_state.cpp:130-179 | in an accepted transaction of deposits and withdrawals of assets that are not market-issued every balance changes by its deposits less its withdrawals and the collected fees of each asset by the difference |
| Transactions.TransferIsAccepted | libraries/blockchain/transaction_evaluation_state.cpp:130-179 | a withdrawal and a deposit of base shares are accepted exactly with the signature of the owner, within the balance, and when no more is deposited than withdrawn |
| Transactions.RegistrationLasts | libraries/blockchain/transaction_evaluation_state.cpp:130-179 | the account that an operation registers is there at the end of the transaction under a new id with its name and owner key |
| Transactions.SettledIs | libraries/blockchain/transaction_evaluation_state.cpp:70-128 | at the end each asset collects its part of the running total, every delegate gains its corrections, one account reputation, and no other record changes |
| Transactions.EvaluatedKeeps | libraries/blockchain/transaction_evaluation_state.cpp:130-179 | an accepted transaction keeps accounts and production counters, and pays nothing twice without a claim of -1 |
| Transactions.LoneClaim | libraries/blockchain/transaction_evaluation_state.cpp:130-179 | a transaction that only claims base shares is accepted exactly when the claim is |
| Vesting.SpendableIsCovered | libraries/blockchain/balance_record.cpp:28-73 | what is spendable is held |
| Vesting.VestingIsRespected | libraries/blockchain/balance_record.cpp:38-65 | over any withdrawals in time order no more than the released part leaves, and all of it can once the duration has passed |
| Vesting.ReleasedMonotone | libraries/blockchain/balance_record.cpp:38-65 | the released part never shrinks |
| Vesting.ReleasedIs | libraries/blockchain/balance_record.cpp:38-65 | nothing before the start, everything after the duration, and in between the elapsed part rounded down |
| Vesting.SpendableIs | libraries/blockchain/balance_record.cpp:28-73 | all of a balance is spendable without a schedule, and nothing without a lock |
| Vesting.YieldIsCovered | libraries/blockchain/balance_operations.cpp:37-99 | yield never empties the pool and never exceeds the proportional part |
| Vesting.YieldIs | libraries/blockchain/balance_operations.cpp:37-99 | the yield in numbers: the part of the pool by the shares outside of it after a year, before that the part e (8 year + 2 e) / (10 year year) short by less than four millionths, rounded down, and nothing that is not less than the pool |
| Vesting.NoYield | libraries/blockchain/balance_operations.cpp:37-56 | no yield in the first day, on nothing, or from an empty pool |
| Packets.CoarsenUnits | libraries/blockchain/balance_operations.cpp:475-485 | the halving loop gives `Coarse` |
| Packets.CoarseIsEnough | libraries/blockchain/balance_operations.cpp:475-485 | halving ends between the number of shares and twice that plus two, within the amount, and the remainder is below a unit if and only if the unit count fits 32 bits |
| Packets.SharesFromCuts | libraries/blockchain/balance_operations.cpp:509-527 | one share more than cuts, each at least a unit, summing to the whole, and each the distance of neighbouring cuts |
| Packets.Split | libraries/blockchain/balance_operations.cpp:475-539 | the shares are `SplitOf` the amount, the count and the seed |
| Packets.SplitIs | libraries/blockchain/balance_operations.cpp:475-539 | succeeds exactly when the unit count cut to 32 bits is enough or there is one share; then exactly the asked number of shares that sum to the used amount, each at least a unit unless nothing is used |
| Packets.NextAvailableClaimIndex | libraries/blockchain/packet_record.cpp:7-22 | the first unclaimed share, or the number of shares |
| Packets.LeftPacketAmount | libraries/blockchain/packet_record.cpp:29-44 | the sum of the unclaimed shares |
| Packets.ClaimShare | libraries/blockchain/balance_operations.cpp:570-600 | the outcome of one claim: exhausted, already claimed, or the next share |
| Packets.ClaimIs | libraries/blockchain/balance_operations.cpp:570-600 | the first share that nobody has claimed is paid and marked, unless the claimant has one before it |
| Packets.ExhaustedIs | libraries/blockchain/balance_operations.cpp:570-573 | nothing is left to claim exactly when every share is claimed |
| Packets.ClaimKeepsOrder | libraries/blockchain/balance_operations.cpp:576-600 | claimed shares stay a prefix with distinct claimants |
| Packets.ClaimsConserve | libraries/blockchain/balance_operations.cpp:547-605 | over any sequence of claims, paid plus left is the original amount |
| Packets.ExhaustedStays | libraries/blockchain/balance_operations.cpp:570-573 | claims after exhaustion change nothing |
| Combinatorics.Cnr | libraries/utilities/combinatorics.cpp:7-59 | the in-place Pascal rows give the binomial coefficient modulo 2^64 |
| Combinatorics.Unranking | libraries/utilities/combinatorics.cpp:73-102 | the search loop gives `Combination`: k increasing values below n for every number, also when counts wrap, and the combination with that number when none does |
| Combinatorics.CombinationIs | libraries/utilities/combinatorics.cpp:73-102 | the same of the greedy choice of largest values by the wrapped counts |
| Combinatorics.RankInjective | libraries/utilities/combinatorics.cpp:61-71 | different combinations have different numbers |
| Blocks.ChainState.UpdateProductionInfo | libraries/blockchain/chain_database.cpp:857-911 | accepted exactly when producer and passed slots belong to delegates; the producer is charged the block and every passed slot goes to the delegate whose turn it was, nobody else; exactly the records of `WithProduction` |
| Blocks.SignerIsExpected | libraries/blockchain/chain_database.cpp:832-862 | the account found under the signing key of a block is the delegate whose turn it is |
| Blocks.ChainState.ChargeMissed | libraries/blockchain/chain_database.cpp:889-909 | the loop visits exactly the slots between head and block |
| Blocks.TurnsAreSlots | libraries/blockchain/chain_database.cpp:889-909 | the turns charged to a delegate are the number of the passed slots it owns |
| Blocks.ProductionIsCharged | libraries/blockchain/chain_database.cpp:876-909 | charging the block and the passed slots adds to each counter what the entry says and keeps the delegates |
| Blocks.AccountedNext | libraries/blockchain/chain_database.cpp:813-909 | the slot account stays right after a block if and only if the block is numbered from one and later than the head |
| Blocks.ChainState.PayDelegate | libraries/blockchain/chain_database.cpp:745-789 | accepted exactly for a delegate with a rate of at most 100; a 120960th of the collected fees leaves them, rounded down, the producer gets twice the rate's percentage of it, rounded down, all of it at 100 and nothing at 0, and supply changes by the part taken less the rest; the fees are never overdrawn |
| Blocks.AcceptedIsPart | libraries/blockchain/chain_database.cpp:757-772 | the assertions on the shares of a paycheck never fail |
| Blocks.ChainState.PayOperationRewards | libraries/blockchain/chain_database.cpp:990-1155 | accepted exactly when no reward is due or the notes of the day are known and winners can be drawn; at most a fourteenth of the pool is paid, only once a day, to the winners that the random numbers draw among the notes of the day, each owner exactly what was won, and no other record but the pool changes |
| Blocks.DailyShareIs | libraries/blockchain/chain_database.cpp:998-1002 | a day's share is a fourteenth of the pool, rounded down |
| Blocks.PaidIsByWins | libraries/blockchain/chain_database.cpp:1035-1143 | an owner is paid once for each winning note |
| Blocks.ChainState.CollectNotes | libraries/blockchain/chain_database.cpp:1009-1028 | the signers of all notes of the blocks of the day, in order |
| Blocks.WonIs | libraries/blockchain/chain_database.cpp:1035-1143 | an owner wins 40 percent of the share for a note of the first level, 15 for each of the second and 6 for each of the third, rounded down |
| Blocks.OpNotesJoin | libraries/blockchain/chain_database.cpp:1009-1028 | the notes of operations come in their order |
| Blocks.NotesJoin | libraries/blockchain/chain_database.cpp:1009-1028 | the notes of transactions come in their order |
| Blocks.DaysJoin | libraries/blockchain/chain_database.cpp:1009-1028 | the notes of blocks come in their order |
| Blocks.ChainState.PayLevels | libraries/blockchain/chain_database.cpp:1035-1143 | every owner gets the reward of each level for each of its winning notes |
| Blocks.ChainState.ApplyTransactions | libraries/blockchain/chain_database.cpp:725-743 | accepted exactly when no transaction is refused, evaluated in order on the records the ones before it left, and then exactly the records and last ids of the last |
| Blocks.ChainState.ApplyTransaction | libraries/blockchain/chain_database.cpp:725-743 | accepted exactly when the evaluation of the transaction is, and then exactly what it leaves; a refused one leaves all as it was |
| Blocks.AppliedKeeps | libraries/blockchain/chain_database.cpp:725-743 | from any transaction on accounts and production counters stay, and nothing is paid twice without a claim of -1 |
| Blocks.AppliedMoves | libraries/blockchain/chain_database.cpp:725-743 | transactions of deposits and withdrawals move every balance by its deposits less its withdrawals, and the collected fees by the difference |
| Blocks.RegistrationsLast | libraries/blockchain/chain_database.cpp:725-743 | every account that one of the transactions registers is there after all of them |
| Blocks.ChainState.UpdateActiveDelegates | libraries/blockchain/chain_database.cpp:926-964 | at the end of a round the shuffled top by votes of the state before the block, without repeats: each has more votes than every listed delegate left out, or as many and a lower id |
| Blocks.TopIsTrue | libraries/blockchain/chain_database.cpp:1463-1482 | the top are listed delegates without repeats, by falling votes and at equal votes rising ids, at most 101 and all if fewer; each has more votes than every listed delegate left out, or as many and a lower id |
| Blocks.ChainState.Extend | libraries/blockchain/chain_database.cpp:1267-1345 | accepted exactly when `Acceptable` and no transaction is refused; then slots are charged and the producer paid, the transactions evaluated in order on those records, and the rewards paid, exactly (`Transacted`); every invariant is kept, each delegate charged exactly its block and its passed slots, refused blocks change nothing, and slots stay accounted for if and only if the block is numbered from one and, unless it is the first, later than the head |
| Blocks.BlockMoves | libraries/blockchain/chain_database.cpp:1267-1345 | after an accepted block of deposits and withdrawals every balance has moved by its deposits less its withdrawals and by the prizes of the day, and the collected fees by the difference |
| Blocks.BlockRegisters | libraries/blockchain/chain_database.cpp:1267-1345 | after an accepted block every account that its transactions register is there |
| Blocks.BlockIsCharged | libraries/blockchain/chain_database.cpp:1267-1345 | transactions and rewards leave the charges of the block alone |
| Blocks.PreparedKeeps | libraries/blockchain/chain_database.cpp:745-911 | before its transactions a block touches only delegates, the slot count and the base asset, and every account stays |
| Blocks.ChainState.ExtendAll | libraries/blockchain/chain_database.cpp:1267-1345 | the same over every run of blocks: each counter of each delegate grows by what the log of the accepted blocks says |
| Blocks.ChainState.ExtendNext | libraries/blockchain/chain_database.cpp:1267-1345 | one block of a run: it enters the log exactly when it is accepted |
| Blocks.ChainState.FirstAgain | libraries/blockchain/chain_database.cpp:811-837 | a block numbered one, not later than the head and without transactions, is accepted and the slots are no longer accounted for |
| Blocks.FirstBlockTwice | libraries/blockchain/chain_database.cpp:811-837 | over every genesis state a run of two blocks numbered one that ends so |
| Genesis.GenesisIsSound | libraries/blockchain/chain_database.cpp:270-433 | the genesis state is sound if and only if no two first delegates share a key |
| Genesis.GenesisIs | libraries/blockchain/chain_database.cpp:270-433 | its accounts are the first delegates in order, every owner holds the total of its balances, and the supply is the total of all |
| Rewards.PickWinners | libraries/blockchain/chain_database.cpp:1032-1121 | up to eight distinct positions; defined exactly when the truncated and wrapped counts allow it; the first level is the position the first random number stands for, and each further level is drawn by its number from the positions left |
| Rewards.Draw | libraries/blockchain/chain_database.cpp:1059-1078 | what is drawn and what is left make up the entries; drawn are the positions of the combination with that number |
| Rewards.EraseAll | libraries/blockchain/chain_database.cpp:1074-1077 | erasing from the back leaves exactly the entries at the other positions, in order |
| Rewards.RewardsFitShare | libraries/blockchain/chain_database.cpp:1038-1128 | one, two and five rewards of 40, 15 and 6 percent never exceed the share |
| Rewards.RewardIs | libraries/blockchain/chain_database.cpp:1038-1128 | the levels win 40, 15 and 6 percent of the share, rounded down |
| Schedule.Shuffle | libraries/blockchain/chain_database.cpp:936-961 | the in-place exchange loop yields a permutation for every seed |
| Schedule.EveryOrderIsReached | libraries/blockchain/chain_database.cpp:937-961 | every order of the delegates comes out for some draws |
| Schedule.EveryDelegateHasOneTurn | libraries/blockchain/chain_database.cpp:1811-1822 | of any 101 consecutive slots each delegate gets exactly one |
| Schedule.SigneeIs | libraries/blockchain/chain_database.cpp:1811-1822 | position p of the list signs the ten-second slots that leave the remainder p after whole rounds of 101 |
| Schedule.SlotLater | libraries/blockchain/time.cpp:98-111 | slot numbers count intervals |
| Schedule.NextProducible | libraries/blockchain/chain_database.cpp:1824-1842 | the earliest slot of a wanted delegate, none after a full round without one, or the position at which the list is too short |
| Schedule.NoneWantedIffInactive | libraries/blockchain/chain_database.cpp:1824-1842 | with a full list there is no slot exactly when no given delegate is active |
| Supplies.CheckSupplies | libraries/blockchain/pending_chain_state.cpp:295-463 | passes if and only if for every asset the supply has changed as the shares held have |
| Supplies.StoredDeltas | libraries/blockchain/pending_chain_state.cpp:302-413 | the deltas of stored records are the change of the shares held |
| Supplies.RemovedDeltas | libraries/blockchain/pending_chain_state.cpp:316-420 | likewise for removed records |
| Supplies.CheckDecidesBalance | libraries/blockchain/pending_chain_state.cpp:446-462 | on balanced books the check decides balance of the whole new state |
| Supplies.CheckFindsDoublePayment | libraries/blockchain/pending_chain_state.cpp:446-462 | between two states of the ledger the check passes if and only if nothing was paid twice |
| Supplies.ClaimForMarker | libraries/blockchain/balance_operations.cpp:547-605 | a claim of base shares for -1 is accepted exactly when the claim is, and the check then passes if and only if there was nothing to pay |
| Supplies.PacketIsPaidTwice | libraries/blockchain/balance_operations.cpp:547-605 | a run from sound records to records that fail the check |
| Supplies.PoolLeftBehind | libraries/blockchain/pending_chain_state.cpp:104-115 | a reward pool that is not undone keeps the books balanced if and only if it holds the same shares |
| Layers.State.Store | libraries/blockchain/pending_chain_state.cpp:675-689 | one lookup changes, all others stay, at any depth |
| Layers.State.Remove | libraries/blockchain/pending_chain_state.cpp:675-695 | one lookup becomes empty, all others stay |
| Layers.State.ApplyChanges | libraries/blockchain/pending_chain_state.cpp:39-78 | the layer below answers every lookup as this layer did |
| Layers.State.BuildUndoState | libraries/blockchain/pending_chain_state.cpp:98-115 | the undo layer reads as the layer below, for every record that can be undone |
| Layers.State.UndoRemoved | libraries/blockchain/include/bts/blockchain/pending_chain_state.hpp:56-60 | the part of it for removed records |
| Layers.State.UndoStored | libraries/blockchain/include/bts/blockchain/pending_chain_state.hpp:61-67 | the part of it for stored records |
| Layers.UndoChain.Extend | libraries/blockchain/chain_database.cpp:791-809 | the database after a block, and a saved undo state that takes it back |
| Layers.UndoChain.Pop | libraries/blockchain/chain_database.cpp:1403-1433 | restores every undoable record and touches no other |
| Layers.UndoChain.PopMany | libraries/blockchain/chain_database.cpp:1403-1433 | n pops undo n extensions |
| Layers.UndoChain.ExtendAndPop | libraries/blockchain/pending_chain_state.cpp:98-115 | a block is taken back exactly if and only if it left advertisements and the reward pool alone |
| AccountIndex.AccountDb.Store | libraries/blockchain/account_record.cpp:132-198 | the three indexes after a store |
| AccountIndex.AccountDb.Remove | libraries/blockchain/account_record.cpp:200-232 | every address stays covered; an exact address index stays exact if and only if the null key of another account is not erased |
| AccountIndex.AccountDb.StoreExact | libraries/blockchain/account_record.cpp:132-198 | every address stays covered if and only if the name is free and no other account has one of the addresses; an exact index stays exact if and only if name and addresses are free, no old address stays behind and the null key of another account is not erased |
| AccountIndex.StoreAddresses | libraries/blockchain/account_record.cpp:132-198 | the condition for an exact address index alone |
| AccountIndex.StoreCovers | libraries/blockchain/account_record.cpp:132-198 | in a layer over any state below, addresses other than the null key find their accounts after a store if and only if no other account has one of them |
| AccountIndex.IndexAnswers | libraries/blockchain/pending_chain_state.cpp:508-517 | a lookup in such an index answers as the operations assume |
| AccountIndex.UpdateIsUnowned | libraries/blockchain/account_operations.cpp:78-142 | an accepted update takes no address of another account |
| AccountIndex.RemoveAddresses | libraries/blockchain/account_record.cpp:200-232 | the removal condition for the address index alone |
| AccountIndex.StoreNames | libraries/blockchain/account_record.cpp:132-198 | the same for the name index |
| AccountIndex.StoreVotes | libraries/blockchain/account_record.cpp:150-198 | exactly one vote entry for each delegate that is not retracted |
| AccountIndex.BlockStepHasNoStaleKeys | libraries/blockchain/account_record.cpp:132-198 | storing the record of a block, or its parent's back over it, leaves no address behind |
| AccountIndex.AccountDb.TakeBack | libraries/blockchain/account_record.cpp:132-198 | undoing a block keeps every address covered if and only if the earlier addresses are free; when only the latest keys changed, an exact index stays exact if and only if the earlier keys are free and the null key of another account is kept |
| AccountIndex.AccountDb.Register | libraries/blockchain/account_operations.cpp:14-66 | accepted exactly for a name and keys that the indexes do not find; every address stays covered and an exact index stays exact |
| AccountIndex.AccountDb.Update | libraries/blockchain/account_operations.cpp:78-142 | every address stays covered; an exact index stays exact if and only if the new record can be stored, and always when no key was set in the future |
| AccountIndex.AccountDb.SetSigningKey | libraries/blockchain/account_operations.cpp:170-193 | accepted exactly as in the original; every address stays covered; an exact index stays exact if and only if the new record can be stored, which with no key set in the future means that the null key of another account is kept |
| AccountIndex.NullOwnerIsLost | libraries/blockchain/account_record.cpp:152-162 | a run over four blocks after which an account is no longer found under its owner key |
| AccountIndex.NullOwnerTwice | libraries/blockchain/account_operations.cpp:23-25 | in the fifth block a further account with the same owner key, the null key, is accepted |
| AccountIndex.AccountDb.GetDelegatesByVote | libraries/blockchain/chain_database.cpp:1468-1482 | the asked range of the listed delegates, exactly as many as there are, each at the rank that is the number of delegates with more votes, or as many and a lower id |
| AccountIndex.TopIsTrue | libraries/blockchain/chain_database.cpp:1463-1482 | the first n are listed delegates without repeats, by falling votes and at equal votes rising ids, and each has more votes than every listed delegate left out, or as many and a lower id |
| Replay.TransactionLog.Evaluate | libraries/blockchain/transaction_evaluation_state.cpp:134-143 | accepted exactly if unexpired, not too far ahead and not known |
| Replay.TransactionLog.Purge | libraries/blockchain/chain_database.cpp:1350-1353 | exactly the expired transactions are forgotten |
| Replay.TransactionLog.Extend | libraries/blockchain/chain_database.cpp:1267-1353 | from an exact log no transaction is repeated, and the log stays exact if and only if no transaction applied before expired after the time of the block and up to the head |
| Replay.TransactionLog.ExtendAll | libraries/blockchain/chain_database.cpp:1267-1353 | no repeats over every run without pops in which only the first block of the chain is numbered one or less |
| Replay.TransactionLog.Pop | libraries/blockchain/transaction_record.cpp:18-32 | the unique set is exact after a pop if and only if no remaining transaction expired between the two head times |
| Replay.ReplayAfterPop | libraries/blockchain/chain_database.cpp:1350-1353 | a run with a pop in which a transaction is applied twice |
| Replay.ReplayWithoutPop | libraries/blockchain/chain_database.cpp:813-820 | a run without pops in which a block numbered one takes the time back and a transaction is applied twice |
| PriceText.RatioString | libraries/blockchain/asset.cpp:175-187 | integer part, point, and eighteen decimals without trailing zeros |
| PriceText.ParseRatio | libraries/blockchain/asset.cpp:125-173 | the parsed ratio and length of every text |
| PriceText.ReadDecimals | libraries/blockchain/asset.cpp:150-170 | the signed accumulators stay in range exactly up to eighteen decimals |
| PriceText.RoundTrip | libraries/blockchain/asset.cpp:125-187 | parsing a printed ratio gives it back if and only if it is below 2^64 |
| PriceText.ReadBack | libraries/blockchain/asset.cpp:125-187 | what parsing gives back for every ratio |
| BlockSearch.FindBlockNum | libraries/blockchain/chain_database.cpp:1968-1997 | agrees with a linear scan, clamped to the first and the head block, or goes on forever exactly when some range it reaches is not done and its guess is the end |
| BlockSearch.EndlessIsStuck | libraries/blockchain/chain_database.cpp:1978-1995 | the loop is never done if and only if it reaches such a range |
| BlockSearch.InterpolatedInRange | libraries/blockchain/chain_database.cpp:1979-1982 | whatever monotone rounding that keeps whole numbers is applied to quotient, product and sum, the guess lies in the range |
| BlockSearch.ExactIsBeforeEnd | libraries/blockchain/chain_database.cpp:1979-1982 | without rounding it is never the end |
| BlockSearch.SumReachesEnd | libraries/blockchain/chain_database.cpp:1981 | rounding the sum to multiples of 2^-24, the spacing of doubles at 2^28, can yield the end |

## Left out

- Market engine, bids, asks, feeds, escrow release and limit fee: the operations are not registered.
- Undo history is not limited to 1080 blocks: the fork point is taken to lie inside it; the restart that checks stored blocks again is not part of the model.
- Undo of market history, market status, dirty markets and game data.
- Reputation index, statistics, operation deltas and the yield accounting of transaction records: nothing depends on them.
- Well-formed names and symbols, parent accounts, chip prices, price feeds and hashes: their outcomes are inputs.
- Wall clock checks of headers, checkpoints, observers, storage and the loading of a genesis file.
- Evaluation.TransactionEvaluation.Evaluate: the expiry and replay checks are in `Replay`, and the worth of the fees in base shares is an input.
- Evaluation.TransactionEvaluation.RegisterAccount: the form of the name and the signature of a parent are an input; the entries of the address index beyond the addresses of the accounts are an input.
- Evaluation.TransactionEvaluation.CreateAsset: the form of the symbol, the parent asset and a game as issuer are an input.
- Blocks.ChainState.Extend: the checks of parent id, clock, digest, repeated transactions and secret are an input; the key recovered from a signature is taken not to be the null key; on failure the earlier state is put back directly, and `Layers` has the overlay that does it.
- Genesis.GenesisIsSound: vesting balances of the genesis file are not part of the model.
- Packets.Split: the assertion on the arguments of the binomial count is taken as a failure.
- Supplies.CheckSupplies: visits records in one pass over the layer instead of one pass for each kind, and has no orders.
- Combinatorics.Unranking: the 16-bit width of the counts is applied by its callers.
- BlockSearch.FindBlockNum: the timestamps of the chain are taken to increase; the rounding of the interpolation is any monotone one that keeps whole numbers.
- Schedule.Shuffle: the hash that yields the draws is an input.
