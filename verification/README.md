# A Dafny model of the StarkEx batch programs

This project models the programs that validate batches in the StarkEx system and proves what their
documentation promises. `dafny verify dfyconfig.toml` checks all of it.

**The perpetual batch** (`src/services/perpetual/cairo`). A state maps position ids to positions: an
owner key, collateral, and a sorted array of synthetic assets with cached funding indices. Every
transaction goes through `update_position`: apply deferred funding, rounded down; add collateral; add a
synthetic amount; normalise an empty position; test the leverage rule. All eleven transaction types are
modelled: deposit, withdrawal, forced withdrawal, transfer, conditional transfer, trade, forced trade,
liquidation, deleverage, funding tick and oracle prices tick; so are the configuration and oracle price
checks that open a batch, and the words that publish the changed positions.

**The spot batch** (`src/starkware/cairo/dex`). A ledger of L2 and L1 vaults changed by settlements,
transfers, mints, modifications and false full withdrawals, with partial fills, fees, minimal starting
balances of L1 vaults, and the pair-packed stream of changed vaults.

**Encoders and transformers.** The message hashes of signed orders, the variable-length multi-asset
order, the position hash, the expression printer and the induced update tree.

## How the programs are represented

- A field element is an integer, its signed representative modulo P = 2^251 + 17 * 2^192 + 1. Sums and
  products are formed on integers; every comparison reduces its operand modulo P, as the range-check
  builtin does (module `Felt`). That a reduced comparison decides the integer one is proved wherever
  it is used.
- A failing `assert` is the outcome `Abort`: such an execution does not exist. In the classes a method
  returns false there, and nothing is said about the fields an impossible execution leaves behind.
- A hint is a free choice of the prover. It is either an input (the path through a funding tick, the
  table positions of the vault stream, the recomputation flags of the hash dictionary) or the honest
  value, with a lemma that the asserts admit no other (`Status.RiskFactorUnique`,
  `Orders.OrderIdUnique`, `Oracle.DivRemUnique`, `Dex.BalanceBeforeUnique`).
- Code that works in place is a class with the same fields (`BatchMachine.Machine`,
  `DexMachine.Exchange`, `L1Minimal.BalanceUpdates`, `Volition.Writer`, `SerializeChange.DataWriter`,
  `MultiAssetOrders.Encoder`). Each method is tied to a function on values, and the theorems are about
  that function. Expressions and recursions over read-only arrays are functions.
- A dictionary log that is squashed at the end is a map: an access reads the current value of its key.
  The position tree is the sequence of its leaves; an id outside it has no step.
- The pair hash is a parameter on integers, and commitment results assume that it is injective. The
  packed words of limit orders, transfers and withdrawals are reduced modulo P before they are hashed,
  as a field element is; lemmas say when they stay below P, and `DexRollupMessages` what happens where
  they do not. Signature verification is a parameter, too.
- The products that amount checks compare are formed by `Felt.Times`, which is `*`
  (`Felt.TimesIsProduct`): it keeps them out of proofs that do not need their values.

## Main results

1. *Acceptance, exactly* (`UpdateAcceptance.AcceptedExactly`, `BatchAcceptance.TransactionExactly`,
   `BatchEntry.AcceptedExactly`, `DexAcceptance.BatchExactly`): an update, a transaction of any type, and
   a whole batch are accepted if and only if integer conditions hold of amounts, keys, signatures,
   times, balances and the leverage rule; on the spot side the ledger after it is stated, too. A forced
   request that is marked invalid is accepted exactly when it has to be refused
   (`BatchAcceptance.ForcedWithdrawalOneAnswer`, `BatchAcceptance.ForcedTradeOneAnswer`).
2. *Accounting of the perpetual system* (`BatchEntry.AcceptedBatch`, `BatchRuns.RunAccounts`): over any
   accepted batch the total of each synthetic asset is unchanged, and the total equity (collateral minus
   deferred funding) never exceeds its start plus net deposits and falls short of that by less than one
   unit per funding application.
3. *State invariant* (`BatchRuns.ReachablePositions`): no debt without assets, key zero exactly when
   empty, at most 64 assets.
4. *Who gets what* (`BatchJournal.TransactionBooked`, `DexJournal.TransactionBooked`): each transaction
   books exactly the amounts of its roles on the positions and vaults it names, and touches no other.
   *Who may take* (`BatchAuthorization.PositionIsGuarded`, `DexAuthorization.VaultIsGuarded`): over any
   batch nothing is taken from a position without a verified signature that acts for its owner (key 0
   acts for every owner, `BatchAuthorization.RequestKeyExact`), an on-chain request, a liquidation or
   a deleverage; and nothing from a vault without a verified signature of its key or a modification,
   but for the fees of orders that ask for nothing (`DexAuthorization.PartyDebitsExact`). An L1 balance
   falls only if the output names it (`DexL1Messages.L1VaultIsGuarded`,
   `DexL1Messages.BatchAddsMessages`).
5. *Leverage rule* (`Transition.TransitionExact`, `PositionHistory.HistoryIsSafer`): the field
   computation is the integer rule, and the rule composes along histories.
6. *Deleveraging is tight* (`DeleverageTightness.AcceptedDeleverageIsTight`), and takes what is held
   (`BatchAcceptance.DeleveragerGivesWhatItHolds`).
7. *Data availability* (`DataAvailability.StreamRebuildsState`, `VolitionRuns.StreamRebuildsVaults`):
   over any accepted batch the published words rebuild the funding table and every position, and every
   rollup vault.
8. *Spot conservation* (`DexConservation.BatchConserves`) and minimal L1 balances
   (`L1Minimal.MinimalStart`, `L1Runs.ComputedDictionaryRuns`).
9. *Signed orders* (`Fills.OrderOwnerIsProtected`, `DexFills.OrderOwnerIsProtected`,
   `Fills.SpentOnce`, `DexFills.TransferredOnce`, `DexFills.MintedOnce`): over any batch all fills of
   one signed message respect its amounts, prices and fees, and what moves something executes once
   (what moves nothing repeats, exactly: `Fills.OneTimeRepeats`, `DexFills.TransferRepeats`).
10. *Commitments* (`PositionHash.PositionHashCommits`, `MultiAssetOrders.MultiAssetOrderHashCommits`,
    `MessageHashes.TransferHashCommits`, `DexMessages.Hash31Commits`, `DexMessages.FormatsApart`) in the
    documented layouts (`MessageLayouts`), with the exact conditions where they end
    (`MultiAssetOrders.CommitmentCondition`, `MultiAssetOrders.FeltsExact`,
    `MultiAssetOrders.MultiAssetOrderMeetsWithdrawal`, `DexRollupMessages.InTreeCollisions`,
    `DexVaultIds.AcceptedOrdersCommit`).
11. *Oracle prices* (`Oracle.QuorumOfSigners`, `Oracle.HonestMajorityBoundsPrice`,
    `BatchEntry.TickPricesWithinSigned`).
12. *Printing* (`ExpressionStrings.PrintingPreservesValue`, `ExpressionStrings.DivisionCondition`,
    `ExpressionParentheses.ParenthesesAreNeeded`) and *update trees* (`MerkleTrees.BuildUpdateTree`).

`DexExamples` holds concrete batches at the edges of these guarantees. `Examples.DeleverageAccepted` is
a concrete state and batch that meet the hypotheses of the accounting and deleverage theorems.

## Where code and documentation differ

The model follows the code.

- `order_validate_fee` (`src/starkware/cairo/dex/fee.cairo:29-41`): for an order that asks for nothing
  the comment gives fees in [0, 2^63); the checks also admit negative ones. `FeeUnboundedBelow` states
  the exact range, `FeeNonNegative` that any other order pays a non-negative fee. A negative fee is
  taken from the vault it should reach, whose key signs nothing: `PartyDebitsExact` says when exactly
  an order's debits are all signed for, and `UnsignedVaultPays` is such a settlement.
- `execute_transfer` records the amount as the new value of the order entry, so a transfer of nothing
  leaves its entry unset and may run again, with its fee: `TransferMarksMessage`, `TransferRepeats`,
  `TransferOfNothingRepeats`. Every other transfer runs once (`TransferredOnce`).
- `order_and_transfer_hash_31` assumes vault ids below 2^31, but rollup vaults have ids from 2^63 on.
  `AcceptedOrderFits` and `AcceptedTransferFits`: accepted messages meet the assumption exactly when
  they name no rollup vault. With one, the packed word overflows its fields and wraps modulo P. The
  hash still tells apart messages that sell from the same tree (`SameTreeCommits`,
  `AcceptedOrdersCommit`), but a message that sells from rollup vault 2^63 + 272 + k has the hash of
  one that sells from validium vault k with the nonce before (`RollupMeetsValidium`), and the
  signature of the latter is accepted for the former (`ValidiumSignatureSellsRollupVault`).
  `CollisionExact`, `InTreeCollisions` and `RollupSellOrders` state for which messages that happens.
- `limit_order_hash` assumes a fee limit in [0, 2^64). The spot batch accepts negative fee limits:
  `AcceptedFeeOrderFits` states that this is the only way out of the ranges, `NegativeFeeBorrows` the
  collision. `AcceptedFeeTransferFits`: transfers cannot leave theirs.
- A perpetual transfer or withdrawal of nothing leaves its order entry unset, so it may run again and
  writes its condition or its record again, exactly then (`OneTimeRepeats`).
- `multi_asset_order_hash` assumes that give vaults belong to the signer, and does not check it.
  `FeltsExact` states what the felts determine without that, `GiveKeysCollide` two orders that they
  confuse.
- Withdrawals and multi-asset orders share the order type 6: `MultiAssetOrderMeetsWithdrawal` states
  exactly which ones have equal hashes.
- `multi_asset_order_hash`: the hash of an order that gives, receives and requires nothing is its bare
  metadata word. `CommitmentCondition` is the exact condition under which the hash commits: both orders
  are empty, or both are not; `EmptyOrderCollides` builds the collision in the other case.
- `check_price_signature` admits the timestamp 2^32 itself; `MessageDetermines` states what the message
  then determines. Its comment calls the denominator 96 bits wide; it can reach 124 bits, and the
  library division then refuses divisors above P / 2^128.
- `check_valid_balance` admits -2^63, `get_risk_factor` does not: `StatusInnerExact` and
  `AddAssetInnerExact` keep the two apart. The constants' comment excludes -2^63. So a forced trade
  that would leave a holding at -2^63 is accepted under neither flag, which the assumptions of
  `execute_forced_trade` do not mention: `ForcedTradeOneAnswer` states that this is the only such case
  for positions that can be evaluated.
- `expression_string.py` promises no unnecessary parentheses. Those around a power that is raised to a
  power are always added, as its comments say; `ParenthesesAreNeeded` states that no other ones around
  binary operands can be dropped.
- The assumption of `apply_funding_inner` speaks of a sum of 95-bit values; `DeferredBound` shows
  127-bit values, which still cannot overflow.
- `build_update_tree`'s docstring describes leaves as pairs of index and modification; they are the
  bare modifications.

## Model

| member | source | states |
|---|---|---|
| Felt.IsNn | src/services/perpetual/cairo/position/check_smaller_holdings.cairo:48-76 | A range check on a field element decides the sign of every integer between 2^128 - P and P. |
| Felt.ReduceIsRemainder | src/services/perpetual/cairo/position/check_smaller_holdings.cairo:48-76 | The reduction behind every range check is the remainder modulo P. |
| Felt.Is250Bit | src/services/perpetual/cairo/transactions/deleverage.cairo:160-165 | The 250-bit check decides the sign and size of every integer between 2^250 - P and P. |
| Funding.ApplyFundingInnerExact | src/services/perpetual/cairo/position/funding.cairo:31-78 | The fold charges exactly the sum of index change times balance, keeps ids, balances and their order, and makes every cached index the global one. |
| Funding.DeferredBound | src/services/perpetual/cairo/position/funding.cairo:12-30 | What a stored position owes stays within 64 * 2^127, far below the field size, so the charge does not wrap. |
| Funding.FundingRoundsDown | src/services/perpetual/cairo/position/funding.cairo:82-127 | Applying funding never creates collateral and loses less than one collateral unit; key, ids and balances are kept. |
| Funding.ApplyFundingDefined | src/services/perpetual/cairo/position/funding.cairo:82-127 | Funding is defined exactly when every held asset has a global index and the equity, rounded down, is a valid balance; that is the new collateral. |
| Funding.FundingIdempotent | src/services/perpetual/cairo/position/funding.cairo:82-127 | Applying funding a second time under the same indices changes nothing but the timestamp. |
| Funding.ApplyFundingInnerDefined | src/services/perpetual/cairo/position/funding.cairo:31-78 | The fold aborts exactly when some held asset has no global index. |
| Status.RiskFactorUnique | src/services/perpetual/cairo/definitions/general_config.cairo:48-85 | Whatever segment the prover guesses, the asserts accept only the one that covers the amount, so the risk factor is a function of the amount. |
| Status.RiskBound | src/services/perpetual/cairo/position/status.cairo:24-89 | Total risk is at least the number of assets and bounded above: it is zero exactly for positions without synthetic assets. |
| Status.StatusInnerExact | src/services/perpetual/cairo/position/status.cairo:24-89 | The accumulators end at the sums of price * balance and price * size * risk factor, and the fold aborts exactly when some asset is unpriced, unconfigured or at balance -2^63. |
| Status.StatusExact | src/services/perpetual/cairo/position/status.cairo:104-152 | The status computed modulo P succeeds exactly when value and risk are defined and in range over the integers, and then returns them. |
| Transition.BalanceComparison | src/services/perpetual/cairo/position/check_smaller_holdings.cairo:48-76 | The product and square comparisons modulo P decide whether a balance keeps its sign and does not grow. |
| Transition.CheckSmallerExact | src/services/perpetual/cairo/position/check_smaller_holdings.cairo:8-102 | The two-pointer pass over both arrays succeeds exactly when every holding is zero, or keeps its sign and does not grow. |
| Transition.RatioComparison | src/services/perpetual/cairo/position/validate_state_transition.cairo:66-84 | The shifted field comparison decides tv0 * tr1 <= tv1 * tr0 also for negative values. |
| Transition.TransitionExact | src/services/perpetual/cairo/position/validate_state_transition.cairo:20-94 | The leverage rule computed modulo P accepts exactly the transitions that are legal over the integers: well leveraged, or smaller holdings with a ratio that does not fall and the zero-risk case. |
| Transition.RatioTransitive | src/services/perpetual/cairo/position/validate_state_transition.cairo:66-93 | The ratio rule is transitive, also through a position without risk. |
| Transition.SaferTransitive | src/services/perpetual/cairo/position/validate_state_transition.cairo:45-93 | The second leverage rule composes: two such updates give such an update. |
| Transition.SaferReflexive | src/services/perpetual/cairo/position/validate_state_transition.cairo:45-93 | The second leverage rule never refuses to stay the same, so it is a preorder. |
| AddAsset.FoundIsHeld | src/services/perpetual/cairo/position/add_asset.cairo:17-59 | The asset that the split finds is the held one: its balance is the holding, and it is absent exactly when the holding is zero. |
| AddAsset.AddAssetInnerExact | src/services/perpetual/cairo/position/add_asset.cairo:63-146 | On a sorted array the rebuilt array is the map update holding += delta with removal at zero; ids stay strictly increasing, balances non-zero and in range; and it fails exactly for a missing index or a balance out of range. |
| AddAsset.PositionAddAssetExact | src/services/perpetual/cairo/position/add_asset.cairo:152-209 | The test against 65 refuses exactly a further asset for a position that holds 64; otherwise key and assets are replaced and the rest is kept. |
| UpdatePosition.LegalKeepsSolvency | src/services/perpetual/cairo/position/validate_state_transition.cairo:38-93 | A legal transition cannot end in debt without synthetic assets. |
| UpdatePosition.ChangeFundedExact | src/services/perpetual/cairo/position/update_position.cairo:130-217 | An accepted change of a funded position moves the collateral and one holding by the requested deltas, ends in a valid, stamped position and is a legal transition; a refused one returns the funded position. |
| UpdatePosition.ApplyExact | src/services/perpetual/cairo/position/update_position.cairo:73-217 | What an answered update leaves: the position invariant on every path; on success balances moved by exactly the deltas, on failure only funding applied; only the owner key, or no key, changes an occupied position; equity is accounted for up to one unit. When it succeeds is UpdateAcceptance.AcceptedExactly. |
| UpdatePosition.IdleAgain | src/services/perpetual/cairo/position/update_position.cairo:73-217 | An update without deltas that was accepted is accepted again on its result. |
| UpdateAcceptance.AcceptedExactly | src/services/perpetual/cairo/position/update_position.cairo:73-217 | update_position reports success if and only if funding is defined, the asset is -1 without delta or priced and indexed, the key is the owner's, 0, or any on a free position, collateral and holding stay valid balances, it is no 65th asset, and the position with those balances is a legal transition from the funded one; a free position without a key is accepted without deltas only. It answers at all if and only if it can evaluate what the leverage rule looks at. |
| UpdateAcceptance.CandidateUnique | src/services/perpetual/cairo/position/add_asset.cairo:63-209 | Holdings and current indices determine the asset array, so the conditions on holdings speak of one position. |
| UpdateAcceptance.CollateralAcceptable | src/services/perpetual/cairo/position/position.cairo:77-110 | A request to move collateral is acceptable exactly when its key is permitted, the new collateral is a valid balance, debt included, and gives a legal transition. |
| UpdateAcceptance.AnsweredExactly | src/services/perpetual/cairo/position/position.cairo:77-90 | A request on a position that can be funded and evaluated gets an answer, unless it passes every check and its holding ends at -2^63. |
| BatchAcceptance.OrderExactly | src/services/perpetual/cairo/order/order.cairo:132-166 | A signed order passes exactly when its hash fits, its signature verifies, it expires at or after the minimum expiration of the batch and below 2^32, its nonce fits, and it has room for the amount. |
| BatchAcceptance.DepositExactly | src/services/perpetual/cairo/transactions/deposit.cairo:26-90 | A deposit is accepted exactly when its amount fits and the credit is acceptable. |
| BatchAcceptance.WithdrawalExactly | src/services/perpetual/cairo/transactions/withdrawal.cairo:79-160 | A withdrawal is accepted exactly when its order passes and the debit is acceptable. |
| BatchAcceptance.ForcedWithdrawalExactly | src/services/perpetual/cairo/transactions/forced_withdrawal.cairo:54-78 | A forced withdrawal marked valid is accepted exactly when the debit is acceptable; marked invalid, exactly when it is answered and not acceptable. |
| BatchAcceptance.ForcedWithdrawalOneAnswer | src/services/perpetual/cairo/transactions/forced_withdrawal.cairo:54-78 | For an amount in range and a position that can be funded and evaluated, exactly one of the two flags is accepted. |
| BatchAcceptance.TransferExactly | src/services/perpetual/cairo/transactions/transfer.cairo:70-161 | A transfer, conditional or not, is accepted exactly when sender and receiver differ, it is in collateral, its order passes, and the debit and the credit are acceptable. |
| BatchAcceptance.FillExactly | src/services/perpetual/cairo/transactions/execute_limit_order.cairo:37-156 | A fill is accepted exactly when the party is not the fee position, amounts are in range, price and fee are fair, its order passes, and the fee and the trade are acceptable for their positions. |
| BatchAcceptance.TradeExactly | src/services/perpetual/cairo/transactions/trade.cairo:23-105 | A trade is accepted exactly when a buyer and a seller of one asset, at different positions, can be filled in turn. |
| BatchAcceptance.ForcedTradeExactly | src/services/perpetual/cairo/transactions/forced_trade.cairo:114-243 | A forced trade marked valid is accepted exactly when both sides are acceptable; marked invalid, exactly when both are answered and one is not acceptable. |
| BatchAcceptance.ForcedTradeOneAnswer | src/services/perpetual/cairo/transactions/forced_trade.cairo:97-243 | For amounts in range, a configured asset and positions that can be funded and evaluated, exactly one of the two flags is accepted, and none when a side would end at a balance of -2^63. |
| BatchAcceptance.LiquidationExactly | src/services/perpetual/cairo/transactions/liquidate.cairo:35-175 | The liquidated side is updated exactly when it can be evaluated and is not well leveraged, holds what it gives, and the update is acceptable. |
| BatchAcceptance.LiquidateExactly | src/services/perpetual/cairo/transactions/liquidate.cairo:35-175 | A liquidation is accepted exactly when the liquidated side can be updated and then the liquidator order can be filled. |
| BatchAcceptance.DeleverageExactly | src/services/perpetual/cairo/transactions/deleverage.cairo:26-183 | A deleverage is accepted exactly when both updates are acceptable, the deleverager holds what it gives, the other side is insolvent, and the trade is the tightest one. |
| BatchAcceptance.DeleveragerGivesWhatItHolds | src/services/perpetual/cairo/transactions/deleverage.cairo:107-128 | An accepted deleverage takes from the deleverager at most what it holds, on the right side, so that its holding moves toward zero. |
| BatchAcceptance.FundingTickPossible | src/services/perpetual/cairo/transactions/funding_tick.cairo:248-302 | Some path of the prover makes a funding tick acceptable exactly when time does not fall and its indices are sorted, in range, cover all previous ones and moved within the rate. |
| BatchAcceptance.PriceTickExactly | src/services/perpetual/cairo/transactions/oracle_prices_tick.cairo:161-208 | A price tick is accepted exactly when time does not fall, its ids climb and its prices lie within the signed bounds. |
| BatchAcceptance.FreshExact | src/services/perpetual/cairo/execute_batch.cairo:104-111 | The field check decides over the integers that the last funding tick is at most the validity period older than the system time. |
| BatchAcceptance.TransactionExactly | src/services/perpetual/cairo/execute_batch.cairo:44-290 | Every transaction is accepted if and only if it is allowed, all types included. |
| BatchAcceptance.BatchExactly | src/services/perpetual/cairo/execute_batch.cairo:296-340 | A batch is accepted if and only if every transaction is allowed in the state that those before it leave. |
| BatchAcceptance.BatchIsFresh | src/services/perpetual/cairo/execute_batch.cairo:104-111 | In every accepted batch the system time never falls, and whatever is no tick runs while the last funding tick is at most the validity period old. |
| BatchAcceptance.BatchOrdersAreLive | src/services/perpetual/cairo/order/order.cairo:132-166 | Every signed order of an accepted batch expires at or after the minimum expiration of the batch, with expiration and nonce of 32 bits. |
| PositionHistory.HistoryIsSafer | src/services/perpetual/cairo/position/validate_state_transition.cairo:45-93 | Along any sequence of accepted updates at fixed prices and indices, while no result is well leveraged, the last position is safer than the funded first one: holdings only moved toward zero and the value to risk ratio did not fall. |
| BatchMachine.Machine.UpdatePositionInDict | src/services/perpetual/cairo/position/update_position.cairo:229-279 | The dictionary entry is written with the updated position, also when a code is reported, and nothing else changes. |
| BatchMachine.Machine.FulfillOrder | src/services/perpetual/cairo/order/order.cairo:79-127 | The order entry grows by the update amount exactly when the checks on the remaining capacity pass. |
| BatchMachine.Machine.ValidateAndFulfillOrder | src/services/perpetual/cairo/order/order.cairo:132-166 | Signature, expiration and nonce are checked before the fulfilment is updated. |
| BatchMachine.Machine.Deposit | src/services/perpetual/cairo/transactions/deposit.cairo:26-90 | The in-place deposit reaches the specified state: one position credited, one modification record appended. |
| BatchMachine.Machine.Withdraw | src/services/perpetual/cairo/transactions/withdrawal.cairo:79-160 | The in-place withdrawal fulfils the order, debits the position and appends the record. |
| BatchMachine.Machine.ForcedWithdraw | src/services/perpetual/cairo/transactions/forced_withdrawal.cairo:32-120 | A forced withdrawal marked valid must succeed and one marked invalid must fail; only the former writes a record. |
| BatchMachine.Machine.Transfer | src/services/perpetual/cairo/transactions/transfer.cairo:70-161 | The in-place transfer fulfils the order, then updates the sender, then the receiver. |
| BatchMachine.Machine.TransferUnderCondition | src/services/perpetual/cairo/transactions/conditional_transfer.cairo:24-124 | A conditional transfer is a transfer whose condition is appended to the output. |
| BatchMachine.Machine.FillLimitOrder | src/services/perpetual/cairo/transactions/execute_limit_order.cairo:37-156 | A limit order checks fairness, fulfils the order, credits the fee position and then updates the party. |
| BatchMachine.Machine.Trade | src/services/perpetual/cairo/transactions/trade.cairo:23-105 | A trade runs the buying order, then the selling order, at the same amounts. |
| BatchMachine.Machine.ForcedTrade | src/services/perpetual/cairo/transactions/forced_trade.cairo:114-243 | Both positions are replaced by the updated ones, or both by the funded ones, as the validity flag says. |
| BatchMachine.Machine.ReduceLiquidated | src/services/perpetual/cairo/transactions/liquidate.cairo:66-139 | The liquidated position must be under-leveraged and hold what it gives before it is updated. |
| BatchMachine.Machine.Liquidate | src/services/perpetual/cairo/transactions/liquidate.cairo:35-175 | The liquidated position is reduced, then the liquidator order is filled at the same amounts. |
| BatchMachine.Machine.Deleverage | src/services/perpetual/cairo/transactions/deleverage.cairo:26-183 | Both positions are updated first; then holdings, insolvency and tightness are checked. |
| BatchMachine.Machine.TickFunding | src/services/perpetual/cairo/transactions/funding_tick.cairo:248-302 | A validated tick replaces the indices, advances the time and appends to the funding table. |
| BatchMachine.Machine.TickPrices | src/services/perpetual/cairo/transactions/oracle_prices_tick.cairo:161-208 | A validated tick replaces the prices by the merge and advances the time. |
| BatchMachine.Machine.Execute | src/services/perpetual/cairo/execute_batch.cairo:44-294 | The dispatch of all eleven types in place, with the freshness check that BatchAcceptance.FreshExact decides. |
| BatchMachine.Machine.Run | src/services/perpetual/cairo/execute_batch.cairo:296-343 | The machine run in place reaches exactly the specified state, and the accounts of the batch hold of it. |
| BatchJournal.CreditsAdd | src/services/perpetual/cairo/position/funding.cairo:82-127 | Funding the same position again under the same indices changes no balance, so credits of one position in one transaction add up. |
| BatchJournal.UpdateBooked | src/services/perpetual/cairo/position/update_position.cairo:229-279 | One dictionary update credits exactly the named position, under a key that owns it or finds it unowned, or only funds it. |
| BatchJournal.CollateralBooked | src/services/perpetual/cairo/transactions/withdrawal.cairo:79-160 | Deposits and withdrawals move collateral of the named position only, under the named key. |
| BatchJournal.TransferBooked | src/services/perpetual/cairo/transactions/transfer.cairo:70-161 | The sender pays and the receiver gets the amount; both keys are respected; nobody else changes. |
| BatchJournal.LimitOrderBooked | src/services/perpetual/cairo/transactions/execute_limit_order.cairo:37-156 | The fee goes to the fee position, the amounts to the party, in the direction of the order. |
| BatchJournal.TradeBooked | src/services/perpetual/cairo/transactions/trade.cairo:23-105 | The buyer pays collateral for the synthetic amount, the seller the reverse, and each pays its fee. |
| BatchJournal.ForcedTradeBooked | src/services/perpetual/cairo/transactions/forced_trade.cairo:34-243 | A valid forced trade books both sides with opposite amounts; an invalid one only funds both positions. |
| BatchJournal.LiquidateBooked | src/services/perpetual/cairo/transactions/liquidate.cairo:35-175 | The liquidated position and the liquidator book opposite amounts; also when the fee position is the liquidated one. |
| BatchJournal.DeleverageBooked | src/services/perpetual/cairo/transactions/deleverage.cairo:51-105 | The deleveragable position and the deleverager book opposite amounts. |
| BatchJournal.TransactionBooked | src/services/perpetual/cairo/execute_batch.cairo:44-294 | Every accepted transaction credits exactly the positions it names with the amounts of their roles, and changes no other position. |
| BatchJournal.TransactionWrites | src/services/perpetual/cairo/execute_batch.cairo:44-294 | Every accepted transaction appends exactly its modification record, condition or funding entry. |
| BatchJournal.BatchWrites | src/services/perpetual/cairo/execute_batch.cairo:296-343 | The outputs of a batch list its deposits and accepted withdrawals, its conditions and its funding ticks, each in order. |
| BatchAuthorization.RequestKeyExact | src/services/perpetual/cairo/position/update_position.cairo:104-160 | An occupied position moves under the key of its owner and under request key 0, which does the same, and under no other key. |
| BatchAuthorization.DebitsAuthorised | src/services/perpetual/cairo/execute_batch.cairo:44-294 | Every transaction that takes collateral from a position or changes its synthetic balance carries a verified signature for it, carries out an on-chain request on it, or liquidates or deleverages it. |
| BatchAuthorization.EquityGapFixed | src/services/perpetual/cairo/position/funding.cairo:31-78 | Two positions with the same holdings keep their difference in equity under any change of the funding indices. |
| BatchAuthorization.PositionIsGuarded | src/services/perpetual/cairo/execute_batch.cairo:296-343 | Over any batch a position keeps its owner, every synthetic balance and, under any funding indices, its equity up to one unit of rounding per transaction, unless some transaction authorises otherwise: by a verified signature that acts for the owner, an on-chain request, a liquidation or a deleverage. |
| BatchInvariants.LeafMoves | src/services/perpetual/cairo/position/update_position.cairo:229-279 | Replacing one position by the result of update_position moves the totals of the system by exactly the accepted deltas, up to one unit of rounding. |
| BatchInvariants.DepositMoves | src/services/perpetual/cairo/transactions/deposit.cairo:26-90 | A deposit keeps the state valid and raises the system equity by the amount, up to rounding. |
| BatchInvariants.WithdrawalMoves | src/services/perpetual/cairo/transactions/withdrawal.cairo:79-160 | A withdrawal keeps the state valid and lowers the system equity by the amount, up to rounding. |
| BatchInvariants.ForcedWithdrawalMoves | src/services/perpetual/cairo/transactions/forced_withdrawal.cairo:32-120 | A forced withdrawal lowers the system equity by the amount if it is valid and by nothing but rounding otherwise. |
| BatchInvariants.TransferMoves | src/services/perpetual/cairo/transactions/transfer.cairo:70-161 | A transfer keeps the state valid and all totals, up to rounding. |
| BatchInvariants.LimitOrderMoves | src/services/perpetual/cairo/transactions/execute_limit_order.cairo:37-156 | One limit order moves the totals by its collateral and synthetic amounts; its fee stays in the system. |
| BatchInvariants.TradeMoves | src/services/perpetual/cairo/transactions/trade.cairo:23-105 | The two orders of a trade cancel in every total. |
| BatchInvariants.ForcedTradeMoves | src/services/perpetual/cairo/transactions/forced_trade.cairo:114-243 | A forced trade keeps every total whether it succeeds or fails. |
| BatchInvariants.LiquidateMoves | src/services/perpetual/cairo/transactions/liquidate.cairo:35-175 | A liquidation keeps every total. |
| BatchInvariants.DeleverageMoves | src/services/perpetual/cairo/transactions/deleverage.cairo:26-183 | A deleverage keeps every total. |
| Totals.FundingIsATransfer | src/services/perpetual/cairo/position/funding.cairo:82-127 | When every asset nets to zero, replacing the funding indices leaves the total equity unchanged. |
| BatchRuns.StepAccounts | src/services/perpetual/cairo/execute_batch.cairo:44-294 | Every transaction keeps the state invariant, the total of each synthetic asset and the accounting of collateral. |
| BatchRuns.RunAccounts | src/services/perpetual/cairo/execute_batch.cairo:296-343 | Over any batch the total of each synthetic asset never changes, and, when assets net to zero, equity never exceeds its start plus net deposits and falls short of that by less than one unit per funding application. |
| BatchRuns.ReachablePositions | src/services/perpetual/cairo/position/position.cairo:41-74 | In every reachable state no position without synthetic assets is in debt, the key is zero exactly for the empty position, and no position holds more than 64 assets. |
| BatchRuns.SameTimeSameIndices | src/services/perpetual/cairo/transactions/funding_tick.cairo:28-43 | A funding tick at the time of the previous one cannot change an index. |
| BatchRuns.RunLogs | src/services/perpetual/cairo/execute_batch.cairo:296-343 | Throughout a batch every changed position carries the indices that the funding table records for its timestamp. |
| BatchRuns.OutputRebuildsState | src/services/perpetual/cairo/position/serialize_change.cairo:102-132 | For every single position a batch changed, the emitted words rebuild its final value from its previous one, the previous indices and the funding table. |
| BatchEntry.EntryChecksEstablish | src/services/perpetual/cairo/execute_batch.cairo:363-425 | The checks before the first transaction establish the configuration and price bounds that the invariants rely on. |
| BatchEntry.AcceptedBatch | src/services/perpetual/cairo/execute_batch.cairo:345-445 | An accepted batch from a valid state keeps all accounts, ends at the announced time and indexes only configured assets, whatever configuration, prices and transactions were supplied. |
| BatchEntry.AcceptedExactly | src/services/perpetual/cairo/execute_batch.cairo:345-445 | A batch is accepted if and only if its configuration and signed prices pass, every transaction is allowed in its turn, every funded asset is configured at the end, and the end time is the announced one. |
| BatchEntry.TickPricesWithinSigned | src/services/perpetual/cairo/execute_batch.cairo:374-412 | Every price that a tick of an accepted batch sets lies between a signed minimal and a signed maximal price of its asset. |
| BatchEntry.SignedPricesAreRecent | src/services/perpetual/cairo/execute_batch.cairo:360-391 | Every signature on a signed price of an accepted batch is verified, under configured signer and asset names, and was made within the price validity period before the batch or during it. |
| Ticks.TickExact | src/services/perpetual/cairo/transactions/funding_tick.cairo:64-246 | Whatever path the prover takes, an accepted tick has sorted, in-range indices and moves every previous index within the rate bound of a priced asset. |
| Ticks.HonestTapeAccepted | src/services/perpetual/cairo/transactions/funding_tick.cairo:76-101 | The path that the hint takes is accepted for every tick that meets these conditions. |
| Ticks.TickAcceptedExactly | src/services/perpetual/cairo/transactions/funding_tick.cairo:64-246 | Some path is accepted if and only if the new indices are sorted and in range, cover every previous index, and moved within the rate bound. |
| Ticks.RateExact | src/services/perpetual/cairo/transactions/funding_tick.cairo:28-43 | The rate check decides over the integers that an index moves by at most the rate times price and elapsed time. |
| Ticks.NoTimeNoChange | src/services/perpetual/cairo/transactions/funding_tick.cairo:28-43 | With no time between ticks the rate bound admits only a difference of zero. |
| Ticks.MergeExact | src/services/perpetual/cairo/transactions/oracle_prices_tick.cairo:29-159 | The merge yields sorted prices in range; ticked assets get the tick price, all others keep theirs. |
| Ticks.MergeAcceptedExactly | src/services/perpetual/cairo/transactions/oracle_prices_tick.cairo:29-159 | A price tick is accepted if and only if its ids climb below 2^120 and every price lies between the signed bounds of its asset. |
| SerializeChange.DataWriter.WriteAssets | src/services/perpetual/cairo/position/serialize_change.cairo:35-99 | The merge over both arrays appends the specified words. |
| SerializeChange.DataWriter.WriteChange | src/services/perpetual/cairo/position/serialize_change.cairo:102-132 | The header and the asset words are appended and the size slot in front is filled in last. |
| SerializeChange.WordRoundTrip | src/services/perpetual/cairo/position/serialize_change.cairo:17-22 | A packed asset word stays below P and unpacks to its id and balance. |
| SerializeChange.MergeIsExact | src/services/perpetual/cairo/position/serialize_change.cairo:35-99 | The merge emits exactly the assets whose balance changed, in order, with balance 0 for deleted ones. |
| SerializeChange.ReplayExact | src/services/perpetual/cairo/position/serialize_change.cairo:35-132 | Replaying the emitted changes on the previous assets gives the new holdings. |
| SerializeChange.RebuildsPosition | src/services/perpetual/cairo/position/serialize_change.cairo:102-132 | The words rebuild key, collateral, balances and cached indices of the new position. |
| DataAvailability.WriteTable | src/services/perpetual/cairo/definitions/objects.cairo:11-34 | The table is appended with the number of elements in front of each array and the timestamp behind each list of indices. |
| DataAvailability.WriteAvailabilityData | src/services/perpetual/cairo/output/data_availability.cairo:24-81 | The output segment grows by exactly the words of the funding table and of every listed position. |
| DataAvailability.InfosRoundTrip | src/services/perpetual/cairo/definitions/objects.cairo:11-34 | The words of the funding table are read back to the table, whatever follows them. |
| DataAvailability.PositionsRoundTrip | src/services/perpetual/cairo/output/data_availability.cairo:24-41 | The size-prefixed records are read back one by one: every listed position becomes the new one and no other changes. |
| DataAvailability.RunAccess | src/services/perpetual/cairo/state/state.cairo:67-97 | Throughout a batch every accessed position carries the indices that the funding table records for its timestamp, and every other position is as it was. |
| DataAvailability.StreamRebuildsState | src/services/perpetual/cairo/output/data_availability.cairo:43-81 | The whole stream of a batch, read with the previous state at hand, gives back the funding table and every position of the final state. |
| DeleverageTightness.TightnessComparison | src/services/perpetual/cairo/transactions/deleverage.cairo:152-165 | The 250-bit check decides the strict integer inequality of the ratios despite negative values. |
| DeleverageTightness.AcceptedDeleverageIsTight | src/services/perpetual/cairo/transactions/deleverage.cairo:129-165 | The deleveragable side was insolvent with positive risk, and the same trade giving it one collateral unit less is refused. |
| DeleverageTightness.GivesWhatItHolds | src/services/perpetual/cairo/transactions/deleverage.cairo:107-128 | The balance check moves the holding toward zero by at most its size. |
| DeleverageTightness.AcceptedLiquidation | src/services/perpetual/cairo/transactions/liquidate.cairo:82-125 | Only a position that is not well leveraged is liquidated, and its holding moves toward zero. |
| Examples.DeleverageAccepted | src/services/perpetual/cairo/transactions/deleverage.cairo:26-183 | From a valid zero-sum state with an insolvent position, the deleverage that closes it is accepted and leaves both positions without assets. |
| Examples.MarginPurchaseAccepted | src/services/perpetual/cairo/position/update_position.cairo:73-217 | A concrete purchase for more collateral than the position has is accepted and leaves a debt. |
| PositionHash.PackedWords | src/services/perpetual/cairo/position/hash.cairo:14-43 | No packed asset word reaches P, and a word determines id, cached index and balance. |
| PositionHash.PositionHashCommits | src/services/perpetual/cairo/position/hash.cairo:22-74 | Two in-range positions of any asset counts have equal hashes exactly when key, collateral and all assets agree. |
| PositionHash.LeavesCommit | src/services/perpetual/cairo/position/hash.cairo:22-74 | Over any batch a leaf of the position tree changes exactly when the position changed in more than its timestamp, and it is the leaf of an empty position exactly when the position has no owner. |
| PositionHash.HashUpdatesExact | src/services/perpetual/cairo/position/hash.cairo:76-119 | Whichever branch the prover takes, the hashed dictionary holds the hashes of both positions, and shows a change exactly when the position changed in more than its timestamp. |
| PositionHash.FillHashedUpdates | src/services/perpetual/cairo/position/hash.cairo:76-119 | The array is filled with exactly these entries. |
| Orders.OrderIdUnique | src/services/perpetual/cairo/order/order.cairo:23-59 | Every accepted unpacking of a message hash yields its 64 leading bits, although it is checked modulo P. |
| Orders.OrderIdExists | src/services/perpetual/cairo/order/order.cairo:23-59 | The honest unpacking is accepted. |
| Orders.FulfillmentExact | src/services/perpetual/cairo/order/order.cairo:79-127 | Fulfilment succeeds exactly when the capacity left covers the amount, adds it to this order only, and keeps amounts in range. |
| Orders.FairnessExact | src/services/perpetual/cairo/order/validate_limit_order.cairo:25-77 | The range checks decide the signed price and fee ratios over the integers. |
| Fills.RunFills | src/services/perpetual/cairo/order/order.cairo:79-127 | Over any batch the fills of one signed message, under any keys and signatures, are fair and total at most what was open. |
| Fills.OrderOwnerIsProtected | src/services/perpetual/cairo/order/validate_limit_order.cairo:25-77 | All fills of one signed message together, whatever key and signature they carry, stay within its synthetic amount and fee ratio; k of them cost a buyer at most the signed collateral plus k - 1, and bring a seller whose order is filled completely at least the signed collateral minus k - 1. |
| Fills.MessageAgrees | src/services/perpetual/cairo/order/order.cairo:132-166 | One signed message has one order id, one set of fair fills and one amount. |
| Fills.SameMessageIsSameHash | src/services/perpetual/cairo/order/limit_order.cairo:24-52 | The fills counted for an order are exactly those whose message has its hash, if the pair hash has no collisions. |
| Fills.OneTimeBook | src/services/perpetual/cairo/order/order.cairo:79-127 | A transfer or withdrawal finds its order entry at zero and leaves its own amount in it. |
| Fills.SpentOnce | src/services/perpetual/cairo/order/order.cairo:79-127 | Over any batch, transfers and withdrawals that move something execute at most once under one order id, and not at all once its entry is set. |
| Fills.OneTimeRepeats | src/services/perpetual/cairo/order/order.cairo:79-127 | Right after an accepted transfer or withdrawal the same one is accepted again exactly when its amount is zero, and then writes its condition or its record again. |
| MessageHashes.LimitOrderHashCommits | src/services/exchange/cairo/signature_message_hashes.cairo:56-91 | Equal limit order hashes mean equal orders. |
| MessageHashes.NegativeFeeBorrows | src/services/exchange/cairo/signature_message_hashes.cairo:56-91 | A negative fee limit, which the packing does not exclude, borrows from the bought amount: two different limit orders then have one hash under every pair hash. |
| MessageHashes.TransferHashCommits | src/services/exchange/cairo/signature_message_hashes.cairo:128-170 | Equal transfer hashes mean equal transfers and equal conditions, also between conditional and unconditional ones. |
| MessageHashes.WordsBelowPrime | src/services/exchange/cairo/signature_message_hashes.cairo:63-88 | Every packed word stays below 2^251 and starts with its order type. |
| MessageHashes.LimitOrderIsNoTransfer | src/services/exchange/cairo/signature_message_hashes.cairo:17-20 | No limit order shares a hash with a transfer. |
| MessageHashes.WithdrawalHashCommits | src/services/perpetual/cairo/transactions/withdrawal.cairo:46-77 | For one signer equal withdrawal hashes mean equal withdrawals, also between the two owner-key forms. |
| MessageHashes.WithdrawalIsNoOther | src/services/perpetual/cairo/transactions/withdrawal.cairo:19-77 | A withdrawal shares its hash with no limit order and no transfer. |
| MessageLayouts.CutWord | src/services/exchange/cairo/signature_message_hashes.cairo:36-49 | Fields that fit can be cut out of the word that holds them side by side. |
| MessageLayouts.LimitOrderLayout | src/services/exchange/cairo/signature_message_hashes.cairo:36-91 | A limit order has the documented hash h(h(h(h(w1, w2), w3), w4), w5) of the documented words. |
| MessageLayouts.PerpetualOrderLayout | src/services/perpetual/cairo/order/limit_order.cairo:22-52 | A perpetual order is signed as an exchange order that sells what its fill takes from the position, buys what it gives, and pays its fee in collateral. |
| MessageLayouts.TransferLayout | src/services/exchange/cairo/signature_message_hashes.cairo:103-165 | A transfer has the documented hash, its condition after the receiver, and the documented words. |
| MessageLayouts.PerpetualTransferLayout | src/services/perpetual/cairo/transactions/transfer.cairo:46-68 | A perpetual transfer is signed as an exchange transfer without fee, with the sender as the payer of the fee. |
| MessageLayouts.WithdrawalLayout | src/services/perpetual/cairo/transactions/withdrawal.cairo:32-77 | A withdrawal has the documented hash and word, the owner key hashed in when it is not the signer's. |
| MessageLayouts.Message31Layout | src/starkware/cairo/dex/message_hashes.cairo:24-97 | A message without fee has the documented hash and the documented word of 4, 31, 31, 63, 63, 31 and 22 bits. |
| MessageLayouts.SpotOrderLayout | src/starkware/cairo/dex/execute_limit_order.cairo:30-53 | A spot order is signed with its own fields in either format. |
| MessageLayouts.SpotTransferLayout | src/starkware/cairo/dex/execute_transfer.cairo:180-210 | A spot transfer is signed with its own fields in either format. |
| MessageLayouts.MetadataLayout | src/services/exchange/cairo/signature_message_hashes.cairo:370-458 | The metadata word of a multi-asset order has the documented fields. |
| MessageLayouts.PriceLayout | src/services/perpetual/cairo/oracle/oracle_price.cairo:88-98 | An oracle signs the asset name and a word of price and time. |
| MessageLayouts.PositionLayout | src/services/perpetual/cairo/position/hash.cairo:22-74 | A position is hashed as its assets in order, its key, and a word of collateral and count, all shifted to naturals. |
| MultiAssetOrders.Encoder.VaultInfoToArrays | src/services/exchange/cairo/signature_message_hashes.cairo:292-332 | The four buffers grow by exactly the fields, keys and indices of the list. |
| MultiAssetOrders.Encoder.AppendVaultsAndAmounts | src/services/exchange/cairo/signature_message_hashes.cairo:263-290 | The buffer grows by the fields packed three to a felt. |
| MultiAssetOrders.Encoder.AppendThirdPartyIndices | src/services/exchange/cairo/signature_message_hashes.cairo:246-260 | The buffer grows by the indices packed twenty to a felt. |
| MultiAssetOrders.Encoder.Hash | src/services/exchange/cairo/signature_message_hashes.cairo:387-471 | The buffers end as the specified felt list, and its fold is the order hash. |
| MultiAssetOrders.WordsFit | src/services/exchange/cairo/signature_message_hashes.cairo:206-290 | No packed word of an in-range order reaches 2^251. |
| MultiAssetOrders.MetadataDetermines | src/services/exchange/cairo/signature_message_hashes.cairo:430-458 | The metadata word determines the fixed fields and the lengths of all arrays. |
| MultiAssetOrders.KeysDetermined | src/services/exchange/cairo/signature_message_hashes.cairo:292-332 | Third-party keys and indices determine the key of every entry. |
| MultiAssetOrders.FeltsExact | src/services/exchange/cairo/signature_message_hashes.cairo:347-458 | For one signer, without the assumption that give keys are his, two felt lists are equal exactly when the orders have the same entries but for their keys, the same third-party keys and the same positions of these. |
| MultiAssetOrders.FeltsDetermineOrder | src/services/exchange/cairo/signature_message_hashes.cairo:347-458 | For one signer, and give keys that are his, two felt lists are equal exactly when the orders are the same. |
| MultiAssetOrders.GiveKeysCollide | src/services/exchange/cairo/signature_message_hashes.cairo:292-385 | Without the assumption one third party may own the receive entry or the give entry at the same position: two different orders have one hash under every pair hash. |
| MultiAssetOrders.MetadataOutermost | src/services/exchange/cairo/signature_message_hashes.cairo:459-471 | The metadata is the outermost value of the hash chain, unless it is the only one. |
| MultiAssetOrders.MultiAssetOrderHashExact | src/services/exchange/cairo/signature_message_hashes.cairo:347-471 | For any give keys, two orders of one signer that are both empty, or both not, have equal hashes exactly when their felt lists hold the same. |
| MultiAssetOrders.MultiAssetOrderHashCommits | src/services/exchange/cairo/signature_message_hashes.cairo:387-471 | Two orders of one signer that are both empty, or both not, have equal hashes exactly when they are the same order. |
| MultiAssetOrders.MultiAssetOrderIsNoLimitOrTransfer | src/services/exchange/cairo/signature_message_hashes.cairo:16-20 | A multi-asset order that is not empty shares its hash with no limit order and no transfer. |
| MultiAssetOrders.MultiAssetOrderMeetsWithdrawal | src/services/perpetual/cairo/transactions/withdrawal.cairo:19-77 | It shares its hash with a withdrawal, which has the same order type 6, exactly when the withdrawal goes to the signer, the chain in front of the metadata is the collateral asset and the packed words agree. |
| MultiAssetOrders.WithdrawalLikeOrders | src/services/perpetual/cairo/transactions/withdrawal.cairo:19-77 | If the collateral asset id is no hash value, that is exactly an order that gives and receives nothing, has the collateral asset as its one condition, and whose nonce, expiration and system id are laid out as that withdrawal. |
| MultiAssetOrders.OrderHashIsWithdrawalHash | src/services/exchange/cairo/signature_message_hashes.cairo:387-471 | Under every pair hash, one such order has the hash of the withdrawal of 2^48 units from position 0. |
| MultiAssetOrders.EmptyOrderCollides | src/services/exchange/cairo/signature_message_hashes.cairo:459-471 | An order that gives, receives and requires nothing, and any order that is not so, get the same hash under some injective pair hash. |
| MultiAssetOrders.CommitmentCondition | src/services/exchange/cairo/signature_message_hashes.cairo:387-471 | Equal hashes mean equal orders for every injective pair hash, if and only if both orders are empty or both are not. |
| ConfigChecks.RiskFunctionExact | src/services/perpetual/cairo/execute_batch_utils.cairo:76-96 | The check accepts exactly strictly increasing bounds ending in 2^128 - 1 with risk factors in range. |
| ConfigChecks.AssetsConfigExact | src/services/perpetual/cairo/execute_batch_utils.cairo:98-138 | The check accepts exactly strictly increasing asset ids below 2^120 with valid risk functions, quorums and resolutions. |
| ConfigChecks.GeneralConfigEstablishes | src/services/perpetual/cairo/execute_batch_utils.cairo:154-177 | An accepted configuration makes every position evaluable. |
| ConfigChecks.GeneralConfigExact | src/services/perpetual/cairo/execute_batch_utils.cairo:140-177 | A general configuration is accepted exactly when its asset ids climb below 2^120 with valid entries, the collateral asset id is below 2^250, its resolution is in range, and the assets are fewer than 2^16. |
| ConfigChecks.FundingIndicesExact | src/services/perpetual/cairo/execute_batch_utils.cairo:31-74 | On sorted arrays the one-pass check accepts exactly when every indexed asset is configured. |
| Oracle.DivRemUnique | src/services/perpetual/cairo/oracle/oracle_price.cairo:133-150 | Below the library bound on the divisor, every accepted quotient is the integer one. |
| Oracle.ConversionRounds | src/services/perpetual/cairo/oracle/oracle_price.cairo:133-150 | The converted price is within half a unit of the exact quotient, and halves round up. |
| Oracle.NumeratorFits | src/services/perpetual/cairo/oracle/oracle_price.cairo:140-145 | Configured resolutions keep the conversion below P. |
| Oracle.SignatureExact | src/services/perpetual/cairo/oracle/oracle_price.cairo:64-127 | A signature passes exactly when its price is below 2^120, its time is at most 2^32 and within the bounds, it verifies, and its key and asset name are configured. |
| Oracle.InnerExact | src/services/perpetual/cairo/oracle/oracle_price.cairo:177-239 | The walk accepts exactly valid signatures under strictly increasing keys, and counts both sides of the median. |
| Oracle.CheckOraclePriceExact | src/services/perpetual/cairo/oracle/oracle_price.cairo:244-287 | A price is accepted exactly when it is in range, has a quorum, and at least half of the converted prices lie on either side. |
| Oracle.QuorumOfSigners | src/services/perpetual/cairo/oracle/oracle_price.cairo:244-287 | An accepted price carries valid signatures of at least quorum distinct configured signers. |
| Oracle.HonestMajorityBoundsPrice | src/services/perpetual/cairo/oracle/oracle_price.cairo:281-285 | If more than half of the signed prices are honest, an accepted price lies between two honest converted prices. |
| Oracle.MessageDetermines | src/services/perpetual/cairo/oracle/oracle_price.cairo:88-98 | The signed message determines asset, price and time, except that the admitted time 2^32 reads as the next price at time 0. |
| Oracle.AcceptedPricesInBounds | src/services/perpetual/cairo/oracle/oracle_price.cairo:289-378 | Every price of an accepted list is in range and was accepted for the configured asset of its id. |
| Dex.BalanceBeforeUnique | src/starkware/cairo/dex/vault_update.cairo:49-66 | The guessed balance before is forced by the vault. |
| DexMessages.Hash31Commits | src/starkware/cairo/dex/message_hashes.cairo:56-97 | Equal 31-bit message hashes mean equal order type, fields and condition. |
| DexRollupMessages.CollisionExact | src/starkware/cairo/dex/message_hashes.cairo:46-97 | Whatever its vault ids, a message shares its hash with some message in range if and only if its packed word modulo P has an in-range type (and, where that type is conditional and the message is not, its token is itself a hash of two values). |
| DexRollupMessages.InTreeCollisions | src/starkware/cairo/dex/message_hashes.cairo:46-97 | For messages about rollup vaults of trees with 31 levels: with a rollup sell vault, exactly those whose word reaches past 2^22 * P by less than 3 * 2^241 share their hash with a message in range; with a rollup buy vault alone, only orders whose sold token is itself a hash. |
| DexRollupMessages.RollupMeetsValidium | src/starkware/cairo/dex/message_hashes.cairo:74-81 | Under every pair hash, the message that sells from rollup vault 2^63 + 272 + k with nonce n + 1 has the hash of the one that sells from validium vault k with nonce n. |
| DexRollupMessages.RollupSellOrders | src/starkware/cairo/dex/message_hashes.cairo:46-97 | For orders from a rollup to a validium vault a colliding message in range exists exactly from rollup index 272 on (at 272, unless everything but the expiration is zero). |
| DexRollupMessages.InTreeHashesExact | src/starkware/cairo/dex/message_hashes.cairo:46-97 | Two messages about vaults of the trees have equal hashes exactly when their hashed prefixes agree and their words are equal, or differ by 2^22 * P where just one of them sells from a rollup vault. |
| DexRollupMessages.SameTreeCommits | src/starkware/cairo/dex/message_hashes.cairo:46-97 | Among messages that sell from the same tree and are all conditional or all not, equal hashes are equal messages, rollup vaults included. |
| DexRollupMessages.TokenKeepsFormatsApart | src/starkware/cairo/dex/execute_limit_order.cairo:30-53 | Whatever vaults it names, a message without fee is no message of the format with fee, unless its token is itself a hash. |
| DexVaultIds.AcceptedOrderFits | src/starkware/cairo/dex/main.cairo:205-300 | An order without fee in an accepted batch that fits the vault trees, the validium one of at most 31 levels, is in the ranges of its message exactly when neither vault is a rollup vault. |
| DexVaultIds.AcceptedTransferFits | src/starkware/cairo/dex/main.cairo:205-300 | A transfer without fee in an accepted batch that fits the vault trees, the validium one of at most 31 levels, is in the ranges of its message exactly when neither vault is a rollup vault. |
| DexVaultIds.AcceptedOrdersCommit | src/starkware/cairo/dex/main.cairo:205-300 | Two orders without fee of an accepted batch, on trees of at most 31 levels, that sell from the same tree have equal hashes exactly when they are the same message; if just one sells from a rollup vault, exactly when tokens agree and its word is ahead by 2^22 * P. |
| DexVaultIds.AcceptedTransfersCommit | src/starkware/cairo/dex/main.cairo:205-300 | The same of two transfers without fee that are both conditional or both not. |
| DexVaultIds.AcceptedFeeOrderFits | src/starkware/cairo/dex/main.cairo:205-300 | An accepted order with a fee, on trees of at most 31 levels, is in the ranges of its message exactly when its fee limit is not negative. |
| DexVaultIds.AcceptedFeeTransferFits | src/starkware/cairo/dex/main.cairo:205-300 | An accepted transfer with a fee, on trees of at most 31 levels, is always in the ranges of its message. |
| DexMessages.FormatsApart | src/starkware/cairo/dex/execute_limit_order.cairo:30-53 | No message of the format without fee is a message of the format with fee. |
| DexMachine.Exchange.WriteVault | src/starkware/cairo/dex/vault_update.cairo:49-66 | The vault entry is replaced exactly when key, token and balance before match. |
| DexMachine.Exchange.AddToVault | src/starkware/cairo/dex/vault_update.cairo:70-98 | The vault changes by the difference exactly when the balance after is in range and the owner matches. |
| DexMachine.Exchange.AddToL1Vault | src/starkware/cairo/dex/l1_vault_update.cairo:104-133 | The L1 entry changes by the difference exactly when the balances before and after are in range. |
| DexMachine.Exchange.AddToUserVault | src/starkware/cairo/dex/fee.cairo:44-76 | The source of a fee is an L1 or an L2 vault. |
| DexMachine.Exchange.PayFee | src/starkware/cairo/dex/fee.cairo:81-108 | The fee leaves the source vault and enters the destination vault. |
| DexMachine.Exchange.UpdateVaultsAndVerifySignature | src/starkware/cairo/dex/execute_limit_order.cairo:102-183 | An L1 order adds its message once and updates L1 vaults; an L2 order updates L2 vaults and is signed. |
| DexMachine.Exchange.FillLimitOrder | src/starkware/cairo/dex/execute_limit_order.cairo:204-357 | The in-place limit order reaches the specified ledger. |
| DexMachine.Exchange.Settle | src/starkware/cairo/dex/execute_settlement.cairo:16-156 | Party A is executed before party B on the ledger that A left. |
| DexMachine.Exchange.TransferUnits | src/starkware/cairo/dex/execute_transfer.cairo:30-261 | Sender, receiver and fee vaults are updated in sequence; the order entry must be zero before and holds the amount after. |
| DexMachine.Exchange.MintUnit | src/starkware/cairo/dex/execute_offchain_minting.cairo:18-94 | One unit is added, with a fresh order entry when uniqueness is enforced. |
| DexMachine.Exchange.Modify | src/starkware/cairo/dex/execute_modification.cairo:30-119 | The record is written and the vault replaced. |
| DexMachine.Exchange.RefuseFullWithdrawal | src/starkware/cairo/dex/execute_false_full_withdrawal.cairo:11-66 | The record names a requester other than the owner; the vault does not change. |
| DexMachine.Exchange.Run | src/starkware/cairo/dex/execute_batch.cairo:16-216 | The batch run in place reaches exactly the specified ledger, and conserves every token. |
| DexConservation.OrderFeeExact | src/starkware/cairo/dex/fee.cairo:34-41 | The field checks decide the fee ratio over the integers. |
| DexConservation.FeeNonNegative | src/starkware/cairo/dex/fee.cairo:29-41 | A fee is non-negative whenever the order asks for something. |
| DexConservation.FeeUnboundedBelow | src/starkware/cairo/dex/fee.cairo:29-41 | When the order asks for nothing only the range checks bound the fee, and -1 is admitted. |
| DexAuthorization.PartyDebitsExact | src/starkware/cairo/dex/execute_limit_order.cairo:61-183 | All vaults that an accepted order takes from are signed for, if and only if its fee is not negative or the order itself signs for the vault that receives fees; a negative fee needs an order that asks for nothing. |
| DexAuthorization.DebitsAuthorised | src/starkware/cairo/dex/execute_batch.cairo:16-216 | Every other debit of an accepted transaction is one that its own signature or modification names. |
| DexAuthorization.VaultIsGuarded | src/starkware/cairo/dex/execute_batch.cairo:16-216 | Over any batch whose fees are not negative or whose orders ask for something, an L2 vault keeps its key, its token and its units, unless a transaction carries a verified signature of its key that names the vault, or modifies it. |
| DexExamples.UnsignedVaultPays | src/starkware/cairo/dex/fee.cairo:29-41 | A settlement in which an order that asks for nothing has a negative fee is accepted, and empties a vault of a key under which no signature verifies. |
| DexExamples.ValidiumSignatureSellsRollupVault | src/starkware/cairo/dex/message_hashes.cairo:46-97 | Under every pair hash a batch whose vaults all lie in the trees sells from rollup vault 2^63 + 277 although its owner has signed only an order that sells from validium vault 5. |
| DexConservation.TransferFeeExact | src/starkware/cairo/dex/fee.cairo:22-27 | The fee of a transfer lies between 0 and the limit, which is below 2^63. |
| DexConservation.UserVaultMoves | src/starkware/cairo/dex/vault_update.cairo:49-98 | One vault update moves the total of its token by the difference and keeps all balances in range. |
| DexConservation.LimitOrderMoves | src/starkware/cairo/dex/execute_limit_order.cairo:204-357 | A limit order moves only the sold and the bought token, whatever vaults it shares with its fee. |
| DexConservation.SettlementMoves | src/starkware/cairo/dex/execute_settlement.cairo:73-145 | A settlement conserves every token, also when one vault plays several roles. |
| DexConservation.TransferMoves | src/starkware/cairo/dex/execute_transfer.cairo:110-180 | A transfer with or without fee conserves every token. |
| DexConservation.MintMoves | src/starkware/cairo/dex/execute_offchain_minting.cairo:18-94 | A mint adds exactly one unit of its token. |
| DexConservation.ActionRoundTrip | src/starkware/cairo/dex/execute_modification.cairo:12-25 | A packed action word stays below P and unpacks to flag, vault and difference. |
| DexConservation.ModificationConserves | src/starkware/cairo/dex/execute_modification.cairo:30-119 | The token total changes by exactly the difference that the output record reports. |
| DexConservation.FalseWithdrawalConserves | src/starkware/cairo/dex/execute_false_full_withdrawal.cairo:11-66 | No vault changes and the record reports a difference of zero. |
| DexConservation.BatchConserves | src/starkware/cairo/dex/execute_batch.cairo:16-216 | Over any batch and for every token, the final total over L2 and L1 vaults is the initial one plus the reported differences plus the minted units, and every balance stays in [0, 2^63). |
| DexJournal.UserVaultBooked | src/starkware/cairo/dex/vault_update.cairo:70-98 | One update credits the named vault under the key and token that own it. |
| DexJournal.PartyBooked | src/starkware/cairo/dex/execute_limit_order.cairo:204-357 | A party sells from, buys into and pays its fee from the vaults its order names. |
| DexJournal.SettlementBooked | src/starkware/cairo/dex/execute_settlement.cairo:16-156 | What one party sells the other buys, from and into the vaults of both orders. |
| DexJournal.TransferBooked | src/starkware/cairo/dex/execute_transfer.cairo:110-180 | The sender vault pays and the receiver vault gets the amount; the fee follows. |
| DexJournal.TransactionBooked | src/starkware/cairo/dex/execute_batch.cairo:16-216 | Every transaction changes exactly the vaults of its roles by the amounts of its roles. |
| DexJournal.TransactionWrites | src/starkware/cairo/dex/execute_batch.cairo:16-216 | Every transaction appends exactly its modification record or condition. |
| DexFills.ChecksDecide | src/starkware/cairo/dex/execute_limit_order.cairo:248-292 | The range checks accept exactly the fills at the signed price or better of orders in range that have not expired. |
| DexFills.RunFills | src/starkware/cairo/dex/execute_limit_order.cairo:262-298 | Over any batch the fills of one signed message, under any keys and signatures, are fair and total at most what was open. |
| DexFills.OrderOwnerIsProtected | src/starkware/cairo/dex/execute_limit_order.cairo:262-298 | All fills of one signed message together, whatever key and signature they carry, on L1 or L2, never sell more than was open of the signed amount, buy at the signed price or better in total, and keep the total fee in ratio. |
| DexFills.MessageAgrees | src/starkware/cairo/dex/execute_limit_order.cairo:30-53 | One signed message has one hash, one set of fair fills and one amount. |
| DexFills.MatchesIsSameHash | src/starkware/cairo/dex/execute_limit_order.cairo:30-53 | The fills counted for an order are exactly those that the order dictionary enters under its hash, if the pair hash has no collisions. |
| DexFills.SameTransferIsSameHash | src/starkware/cairo/dex/execute_transfer.cairo:180-210 | Transfers in range have one hash exactly when they are one message in one format, if the pair hash has no collisions. |
| DexFills.TransferMarksMessage | src/starkware/cairo/dex/execute_transfer.cairo:234-241 | An accepted transfer finds its entry at zero and leaves it at zero exactly when its amount is zero. |
| DexFills.TransferredOnce | src/starkware/cairo/dex/execute_transfer.cairo:234-241 | Over any batch, transfers of a non-zero amount with one message execute at most once, and not at all once the entry is set. |
| DexFills.TransferRepeats | src/starkware/cairo/dex/execute_transfer.cairo:234-241 | Right after an accepted transfer the same one is accepted again exactly when its amount is zero and the vaults can pay its fee once more. |
| DexExamples.TransferOfNothingRepeats | src/starkware/cairo/dex/execute_transfer.cairo:30-261 | A signed transfer of nothing with a fee limit of five runs twice in one batch and takes ten. |
| DexFills.MintableExact | src/starkware/cairo/dex/execute_offchain_minting.cairo:34-46 | The check accepts exactly ids with the minting bit, clear control bits and a lower part below 2^240. |
| DexFills.MintedOnce | src/starkware/cairo/dex/execute_offchain_minting.cairo:50-66 | With unique minting a batch mints a token at most once, and never once its entry is set. |
| DexAcceptance.UpdateIsMove | src/starkware/cairo/dex/vault_update.cairo:49-98 | A vault update succeeds exactly when the vault is free or belongs to key and token and the new balance is in range, and leaves that balance, or a free vault. |
| DexAcceptance.FillExactly | src/starkware/cairo/dex/execute_limit_order.cairo:204-357 | A fill is accepted exactly when the order is live, in range, at the signed price or better, open for the amount, signed or sent from L1, with a fee in ratio, and the vaults admit its movements in turn; the ledger after it is stated. |
| DexAcceptance.SettlementExactly | src/starkware/cairo/dex/execute_settlement.cairo:16-156 | A settlement is accepted exactly when tokens are opposite, amounts in range and both fills allowed in turn; the ledger after it is stated. |
| DexAcceptance.TransferExactly | src/starkware/cairo/dex/execute_transfer.cairo:30-261 | A transfer is accepted exactly when it is live, in range, signed, unspent, with a fee within its limit, and the vaults admit its movements in turn; the ledger after it is stated. |
| DexAcceptance.MintExactly | src/starkware/cairo/dex/execute_offchain_minting.cairo:18-94 | A mint is accepted exactly when the token is mintable, unset where uniqueness is enforced, and the vault usable; the ledger after it is stated. |
| DexAcceptance.ModificationExactly | src/starkware/cairo/dex/execute_modification.cairo:30-119 | A modification is accepted exactly when key and token own the vault or it is free, index and balance are in range, and a full withdrawal leaves nothing; the ledger after it is stated. |
| DexAcceptance.FullWithdrawalEmpties | src/starkware/cairo/dex/execute_modification.cairo:30-119 | An accepted full withdrawal leaves an empty vault and reports all that it held. |
| DexAcceptance.FalseFullWithdrawalExactly | src/starkware/cairo/dex/execute_false_full_withdrawal.cairo:11-66 | A false full withdrawal is accepted exactly when the named owner is the vault's and not the requester; the ledger after it is stated. |
| DexAcceptance.TransactionExactly | src/starkware/cairo/dex/execute_batch.cairo:16-216 | Every transaction is accepted if and only if it is allowed, and leaves the stated ledger. |
| DexAcceptance.BatchExactly | src/starkware/cairo/dex/execute_batch.cairo:16-216 | A batch is accepted if and only if every transaction is allowed on the ledger that those before it leave. |
| DexL1Messages.NewsExact | src/starkware/cairo/dex/execute_limit_order.cairo:118-130 | No message is lost and none is written twice. |
| DexL1Messages.TransactionAddsMessages | src/starkware/cairo/dex/execute_limit_order.cairo:118-130 | Every accepted transaction adds exactly the messages of its L1 parties that were not there. |
| DexL1Messages.BatchAddsMessages | src/starkware/cairo/dex/execute_limit_order.cairo:118-130 | Over any batch the messages in the output are those before it, followed, each once and in order, by exactly the messages of its L1 parties. |
| DexL1Messages.L1VaultIsGuarded | src/starkware/cairo/dex/execute_limit_order.cairo:102-183 | Over any batch an L1 balance falls only if the output holds a message of a party of the batch that names the vault under its key, to sell from it or to pay the fee. |
| L1Minimal.BalanceUpdates.UpdateOrderVaults | src/starkware/cairo/dex/main_hint_functions.py:63-96 | The dictionary tracks lowest and current running sums over the sell, buy and fee events of an order. |
| L1Minimal.BalanceUpdates.UpdateBatch | src/starkware/cairo/dex/main_hint_functions.py:99-122 | After the loop the dictionary tracks all events of the batch, party A before party B. |
| L1Minimal.UpdateL1VaultBalances | src/starkware/cairo/dex/main_hint_functions.py:99-131 | For any keys: every touched vault has its hash input in both results, and under every hash input stands a touched vault with that input and its negated minimum. |
| L1Minimal.MinimalDictionaryExact | src/starkware/cairo/dex/main_hint_functions.py:122-131 | With 160-bit addresses the results hold exactly the touched vaults, under the keys of the program. |
| L1Minimal.HashInputIsDictKey | src/starkware/cairo/dex/main_hint_functions.py:16-20 | For a 160-bit address the bitwise or of the hint is the sum that the program hashes. |
| L1Minimal.MinPrefixIsLeast | src/starkware/cairo/dex/main_hint_functions.py:52-60 | The tracked minimum is the least running sum, the initial 0 included. |
| L1Minimal.MinimalStart | src/starkware/cairo/dex/main_hint_functions.py:63-75 | The negated minimum keeps every balance non-negative, no smaller start does, and it is feasible as soon as some start is. |
| L1Minimal.HashInputInjective | src/starkware/cairo/dex/l1_vault_update.cairo:30-39 | Within 160-bit addresses the hashed pair determines the vault. |
| L1Minimal.RunL1Exact | src/starkware/cairo/dex/l1_vault_update.cairo:104-133 | The dictionary updates succeed exactly when every touched vault starts feasibly, and each vault ends at its start plus its sum. |
| L1Minimal.BatchRunsEvents | src/starkware/cairo/dex/execute_batch.cairo:16-216 | An accepted batch updates the L1 dictionary by exactly the tracked events, in order. |
| L1Minimal.BatchDiffs | src/starkware/cairo/dex/l1_vault_update.cairo:50-100 | The emitted difference of a vault is the sum of its events, and its start was at least the computed minimum. |
| L1Minimal.MinimalStartSuffices | src/starkware/cairo/dex/main_hint_functions.py:99-108 | If a list of L1 updates succeeds from any start, it succeeds from the computed one. |
| L1Runs.BatchSwaps | src/starkware/cairo/dex/execute_batch.cairo:16-216 | A batch accepted from one L1 dictionary is accepted from every other one on which its L1 updates succeed, and ends the same on the rest of the ledger. |
| L1Runs.ComputedDictionaryRuns | src/starkware/cairo/dex/main_hint_functions.py:99-131 | A batch accepted from some L1 balances is accepted from the computed dictionary; every touched vault ends at its minimum plus the sum of its changes, and its output record is accepted exactly for a 31-bit index and gives back vault, minimum and sum. |
| L1Minimal.OutputL1VaultUpdateData | src/starkware/cairo/dex/l1_vault_update.cairo:50-100 | One record is written for each entry, exactly when ranges and explicit keys check out. |
| L1Minimal.OutputRoundTrip | src/starkware/cairo/dex/l1_vault_update.cairo:9-27 | A record stays below P and unpacks to vault, minimal balance and difference. |
| Volition.Writer.SerializeVaultChange | src/starkware/cairo/dex/volition.cairo:84-96 | A change waits for its other half under the sentinel -1, or completes a word. |
| Volition.Writer.WriteChanges | src/starkware/cairo/dex/volition.cairo:99-167 | Unchanged vaults are skipped, changes are paired, and an odd last one is written twice. |
| Volition.Writer.WriteVolitionData | src/starkware/cairo/dex/volition.cairo:181-237 | The stream is both tables followed by the paired changes. |
| Volition.DecodeEncode | src/starkware/cairo/dex/volition.cairo:51-80 | A 124-bit change unpacks to vault, key, token and balance for any table position the prover chose. |
| Volition.UnpairPair | src/starkware/cairo/dex/volition.cairo:84-120 | Words unpack to the change list, for odd and even counts. |
| Volition.VolitionRoundTrip | src/starkware/cairo/dex/volition.cairo:169-237 | For distinct vaults the stream decodes to exactly the changed vaults with their new states, in order. |
| VolitionRuns.StreamRebuildsVaults | src/starkware/cairo/dex/volition.cairo:99-237 | For every accepted batch and any tables and table positions that the program accepts, the stream decodes, and its records applied to the vaults before the batch give every rollup vault after it and touch no other. |
| ExpressionStrings.ChainValue | src/starkware/python/expression_string.py:78-86 | Regrouping an unparenthesised sum keeps its value. |
| ExpressionStrings.ProductChainValue | src/starkware/python/expression_string.py:88-96 | Regrouping an unparenthesised product keeps its value under every division into whose dividend a product may be drawn. |
| ExpressionStrings.ParenParses | src/starkware/python/expression_string.py:132-140 | A parenthesised operand is read as one unit. |
| ExpressionStrings.TermsParse | src/starkware/python/expression_string.py:78-86 | After a plus the terms of an unparenthesised operand are read one by one. |
| ExpressionStrings.FactorsParse | src/starkware/python/expression_string.py:88-96 | After a times the factors of an unparenthesised operand are read one by one. |
| ExpressionStrings.WholeParses | src/starkware/python/expression_string.py:78-124 | Every printed text is read completely, to the regrouped tree. |
| ExpressionStrings.PrintingPreservesValue | src/starkware/python/expression_string.py:1-12 | For every expression and every such division the printed text parses to a tree of the same value, whether unary minus binds loosely or tightly. |
| ExpressionStrings.FlatPrintingRegroups | src/starkware/python/expression_string.py:88-96 | a * (b / c) is printed flat and read as (a * b) / c. |
| ExpressionStrings.ExactDivisionAssociates | src/starkware/python/expression_string.py:88-96 | Exact division is such a division. |
| ExpressionStrings.DivisionCondition | src/starkware/python/expression_string.py:88-96 | Printing keeps the value of every expression under every meaning of its other symbols, if and only if a product may be drawn into a dividend. |
| ExpressionStrings.FloorDivisionChangesValue | src/starkware/python/expression_string.py:88-96 | With division rounded down 2 * (1 / 2) has the value 0 and its text is read back as 1. |
| ExpressionParentheses.OperatorsDecide | src/starkware/python/expression_string.py:140-151 | Whether an operand with a binary operator is put in parentheses depends on the two operators and the side alone. |
| ExpressionParentheses.FlatReads | src/starkware/python/expression_string.py:19-32 | A text of three names and two operators is read by precedence and from the left. |
| ExpressionParentheses.ParenthesesAreNeeded | src/starkware/python/expression_string.py:75-112 | For every pair of binary operators and either side: the printer leaves the parentheses out if and only if the text without them has the same value under every meaning in which a product may be drawn into a dividend, but for a power of a power, which it always parenthesises. |
| MerkleTrees.DecodeNode | src/starkware/python/merkle_tree.py:29-44 | The case says which children are present, and the assert fails exactly when neither is. |
| MerkleTrees.DecodeNeverFails | src/starkware/python/merkle_tree.py:29-44 | The assert never fires on a node of a built tree. |
| MerkleTrees.BottomLayer | src/starkware/python/merkle_tree.py:12-19 | The last modification of an index wins. |
| MerkleTrees.ParentIsLayer | src/starkware/python/merkle_tree.py:21-23 | One round pairs the subtrees of a layer into the layer above. |
| MerkleTrees.BuildUpdateTree | src/starkware/python/merkle_tree.py:4-26 | It fails exactly when an index does not fit the height; walking by an index gives its last modification, and every inner node has a child. |

## Left out

- Elliptic-curve arithmetic, the Pedersen hash, ECDSA and the nonce generation of section 3.2 of RFC 6979: a
  hash and a verification predicate are parameters.
- Library bodies (squash_dict, merkle_multi_update, patricia_update, search and find): dictionaries are
  maps and lookups are searches; the heights of the trees bound no id, except as the condition of
  `DexVaultIds`.
- Comparisons of asset ids in the two ticks are made on integers: ids climb by less than 2^128 per entry,
  so a wrap around P would take 2^122 entries.
- Arrays of the configuration and signature lists are assumed shorter than 2^63 where counts are
  compared, as memory offsets of the machine are.
- The dictionary of forced actions, the fixed-layout program output, the configuration hash, error code
  hints, memory pages and fact topology: bookkeeping without further properties.
- Squashing of the position dictionary and hashing of the tree leaves between batches: `PositionHash`
  covers the hash, not the tree.
- Tree update of the L2 vaults and the vault hash; the split of the vault dictionary into two trees.
- `set_add` lets the prover claim that a message is not yet in the set; the model adds a message once, as
  the hint does. A repeated message in the output would name nothing new.
- Unary operators put every compound operand in parentheses, needed or not: `ExpressionParentheses` speaks
  of binary operators.
- Spacing and character-level text of printed expressions, and `prepend`: texts are token sequences.
- Modifications whose value is None in `build_update_tree`: such a leaf reads as an absent one.
- `Run` of both machines takes a list of transactions that the prover would choose step by step.
- BatchMachine.Machine.TickFunding: the walk over the three arrays is the function `ValidateTick`, because the source recurses over read-only arrays.
- The order in which Python walks a dictionary: it decides only which of two vaults with addresses
  beyond 160 bits stands under a hash input that they share.
- L1 orders: the check of their messages and balances on the L1 side is not part of this model.
- Volition.Writer.WriteChanges: vault indices and balances are required to be in the range that the vault tree enforces before the stream is written.
- Build scripts, command line tools, message builders in other languages, key derivation and test utilities.
