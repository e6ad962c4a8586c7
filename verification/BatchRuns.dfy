/** Theorems over whole batches: the invariant of every reachable state, conservation of each
    synthetic asset and of the system's collateral, and rebuilding positions from the output. */
module BatchRuns {
  import opened Felt
  import opened Options
  import opened PerpetualTypes
  import opened Funding
  import opened UpdatePosition
  import opened Totals
  import opened Batch
  import opened BatchInvariants
  import Ticks
  import SerializeChange

  /** Funding applications made by a transaction. */
  function Applications(tx: Transaction): nat {
    match tx
    case Deposit(_, _, _) => 1
    case Withdrawal(_, _, _, _) => 1
    case ForcedWithdrawal(_, _, _, _) => 1
    case PlainTransfer(_) => 2
    case ConditionalTransfer(_, _) => 2
    case Trade(_, _, _, _, _, _) => 4
    case ForcedTrade(_, _, _, _, _, _, _, _, _) => 2
    case Liquidate(_, _, _, _, _) => 4
    case Deleverage(_, _, _, _, _, _) => 2
    case FundingTick(_, _, _) => 0
    case OraclePricesTick(_, _) => 0
  }

  function AllApplications(txs: seq<Transaction>): nat {
    if txs == [] then 0 else Applications(txs[0]) + AllApplications(txs[1..])
  }

  /** Net collateral that entered the system according to the output: deposits minus withdrawals. */
  function NetModifications(ms: seq<Modification>): int {
    if ms == [] then 0 else ms[0].biasedDelta - AMOUNT_UPPER_BOUND + NetModifications(ms[1..])
  }

  lemma {:induction false} NetModificationsAppend(ms: seq<Modification>, m: Modification)
    ensures NetModifications(ms + [m]) == NetModifications(ms) + m.biasedDelta - AMOUNT_UPPER_BOUND
  {
    if ms == [] {
      assert ms + [m] == [m];
    } else {
      assert (ms + [m])[1..] == ms[1..] + [m];
      NetModificationsAppend(ms[1..], m);
    }
  }

  /** Every synthetic asset nets to zero over all positions. */
  ghost predicate ZeroSum(s: State) {
    forall id :: TotalHolding(s.positions, id) == 0
  }

  function SystemEquity(s: State): int {
    TotalEquity(s.positions, s.funding.indices)
  }

  ghost predicate SameTotals(s: State, t: State) {
    forall id :: TotalHolding(t.positions, id) == TotalHolding(s.positions, id)
  }

  /** The collateral that left the books without being paid out. */
  function RoundingLoss(s: State, t: State): int {
    SystemEquity(s) + (NetModifications(t.modifications) - NetModifications(s.modifications)) * FXP_32_ONE
    - SystemEquity(t)
  }

  /** What a step, or a run, from s to t with n funding applications keeps. */
  ghost predicate Accounts(s: State, t: State, n: nat) {
    && ValidState(t)
    && |t.positions| == |s.positions|
    && SameTotals(s, t)
    && (ZeroSum(s) ==> 0 <= RoundingLoss(s, t) <= n * (FXP_32_ONE - 1))
  }

  lemma {:induction false} AccountsCompose(a: State, b: State, c: State, n1: nat, n2: nat)
    requires Accounts(a, b, n1) && Accounts(b, c, n2)
    ensures Accounts(a, c, n1 + n2)
  {
    assert ZeroSum(a) ==> ZeroSum(b);
  }

  /** A transaction that moves positions under fixed funding indices. */
  lemma {:induction false} MovesAccount(s: State, t: State, n: nat, id: int)
    requires ValidState(t) && t.funding == s.funding
    requires Moves(s.positions, t.positions, s.funding, n,
                   NetModifications(t.modifications) - NetModifications(s.modifications), id, 0)
    ensures Accounts(s, t, n)
  {
  }

  lemma {:induction false} StepAccountsCollateral(s: State, cfg: BatchConfig, tx: Transaction)
    requires Ready(s, cfg) && (tx.Deposit? || tx.Withdrawal? || tx.ForcedWithdrawal?)
    requires ExecuteTransaction(s, cfg, tx).Done?
    ensures Accounts(s, ExecuteTransaction(s, cfg, tx).value, Applications(tx))
    ensures SameMarket(s, ExecuteTransaction(s, cfg, tx).value)
    ensures Restamps(s.positions, ExecuteTransaction(s, cfg, tx).value.positions, s.funding)
  {
    hide ExecuteDeposit, ExecuteWithdrawal, ExecuteForcedWithdrawal;
    var t := ExecuteTransaction(s, cfg, tx).value;
    if tx.Deposit? {
      DepositMoves(s, cfg, tx);
      NetModificationsAppend(s.modifications,
                             Modification(tx.publicKey, tx.positionId, tx.amount + AMOUNT_UPPER_BOUND));
      DepositOutputs(s, cfg, tx);
    } else if tx.Withdrawal? {
      WithdrawalMoves(s, cfg, tx);
      NetModificationsAppend(s.modifications, Modification(tx.ownerKey, tx.positionId, AMOUNT_UPPER_BOUND - tx.amount));
      WithdrawalOutputs(s, cfg, tx);
    } else {
      ForcedWithdrawalMoves(s, cfg, tx);
      NetModificationsAppend(s.modifications,
                             Modification(tx.publicKey, tx.positionId, AMOUNT_UPPER_BOUND - tx.amount));
      ForcedWithdrawalOutputs(s, cfg, tx);
    }
    MovesAccount(s, t, 1, NO_SYNTHETIC_DELTA_ASSET_ID);
  }

  lemma {:induction false} DepositOutputs(s: State, cfg: BatchConfig, tx: Transaction)
    requires tx.Deposit? && ExecuteDeposit(s, cfg, tx).Done?
    ensures ExecuteDeposit(s, cfg, tx).value.modifications ==
            s.modifications + [Modification(tx.publicKey, tx.positionId, tx.amount + AMOUNT_UPPER_BOUND)]
  {
    hide UpdatePosition.Apply;
  }

  lemma {:induction false} WithdrawalOutputs(s: State, cfg: BatchConfig, tx: Transaction)
    requires tx.Withdrawal? && ExecuteWithdrawal(s, cfg, tx).Done?
    ensures ExecuteWithdrawal(s, cfg, tx).value.modifications ==
            s.modifications + [Modification(tx.ownerKey, tx.positionId, AMOUNT_UPPER_BOUND - tx.amount)]
  {
    hide UpdatePosition.Apply;
  }

  lemma {:induction false} ForcedWithdrawalOutputs(s: State, cfg: BatchConfig, tx: Transaction)
    requires tx.ForcedWithdrawal? && ExecuteForcedWithdrawal(s, cfg, tx).Done?
    ensures ExecuteForcedWithdrawal(s, cfg, tx).value.modifications ==
            if tx.isValid then
              s.modifications + [Modification(tx.publicKey, tx.positionId, AMOUNT_UPPER_BOUND - tx.amount)]
            else
              s.modifications
  {
    hide UpdatePosition.Apply;
  }

  /** Every leaf that changed carries the stamp of the funding it was touched under. */
  ghost predicate Restamps(a: seq<Position>, b: seq<Position>, funding: FundingInfo) {
    |b| == |a| && forall i :: 0 <= i < |a| ==> b[i] == a[i] || Stamped(b[i], funding)
  }

  lemma {:induction false} StepAccountsInternal(s: State, cfg: BatchConfig, tx: Transaction)
    requires Ready(s, cfg)
    requires tx.PlainTransfer? || tx.ConditionalTransfer? || tx.Trade? || tx.ForcedTrade? || tx.Liquidate?
             || tx.Deleverage?
    requires ExecuteTransaction(s, cfg, tx).Done?
    ensures Accounts(s, ExecuteTransaction(s, cfg, tx).value, Applications(tx))
    ensures SameMarket(s, ExecuteTransaction(s, cfg, tx).value)
    ensures Restamps(s.positions, ExecuteTransaction(s, cfg, tx).value.positions, s.funding)
  {
    hide ExecuteTransfer, ExecuteTrade, ExecuteForcedTrade, ExecuteLiquidate, ExecuteDeleverage, Accounts, ValidState;
    var t := ExecuteTransaction(s, cfg, tx).value;
    if tx.PlainTransfer? || tx.ConditionalTransfer? {
      TransferMoves(s, cfg, tx.transfer, if tx.PlainTransfer? then 0 else tx.condition);
      MovesAccount(s, t, 2, NO_SYNTHETIC_DELTA_ASSET_ID);
    } else if tx.Trade? {
      TradeMoves(s, cfg, tx);
      MovesAccount(s, t, 4, tx.partyA.assetIdSynthetic);
    } else if tx.ForcedTrade? {
      ForcedTradeMoves(s, cfg, tx);
      MovesAccount(s, t, 2, tx.syntheticAssetId);
    } else if tx.Liquidate? {
      LiquidateMoves(s, cfg, tx);
      MovesAccount(s, t, 4, tx.liquidatorOrder.assetIdSynthetic);
    } else {
      DeleverageMoves(s, cfg, tx);
      MovesAccount(s, t, 2, tx.syntheticAssetId);
    }
  }

  /** A funding tick moves no equity, because every asset nets to zero. */
  lemma {:induction false} FundingTickAccounts(s: State, cfg: BatchConfig, tx: Transaction)
    requires Ready(s, cfg) && tx.FundingTick? && ExecuteFundingTick(s, cfg, tx).Done?
    ensures Accounts(s, ExecuteFundingTick(s, cfg, tx).value, 0)
  {
    var t := ExecuteFundingTick(s, cfg, tx).value;
    Ticks.TickExact(s.funding.indices, tx.indices, s.prices, -1, cfg.general.maxFundingRate,
                    tx.timestamp - s.funding.timestamp, tx.tape);
    hide Ticks.AllCovered, ValidateTick;
    if ZeroSum(s) {
      FundingIsATransfer(s.positions, s.funding.indices, t.funding.indices);
    }
  }

  lemma {:induction false} OracleTickAccounts(s: State, cfg: BatchConfig, tx: Transaction)
    requires Ready(s, cfg) && tx.OraclePricesTick? && ExecuteOraclePricesTick(s, cfg, tx).Done?
    ensures Accounts(s, ExecuteOraclePricesTick(s, cfg, tx).value, 0)
  {
    Ticks.MergeExact(s.prices, tx.tickPrices, -1, cfg);
  }

  /** Every transaction keeps the state invariant and the accounts. */
  lemma {:induction false} StepAccounts(s: State, cfg: BatchConfig, tx: Transaction)
    requires Ready(s, cfg) && ExecuteTransaction(s, cfg, tx).Done?
    ensures Accounts(s, ExecuteTransaction(s, cfg, tx).value, Applications(tx))
  {
    hide ExecuteFundingTick, ExecuteOraclePricesTick, Accounts;
    if tx.FundingTick? {
      FundingTickAccounts(s, cfg, tx);
    } else if tx.OraclePricesTick? {
      OracleTickAccounts(s, cfg, tx);
    } else if tx.Deposit? || tx.Withdrawal? || tx.ForcedWithdrawal? {
      StepAccountsCollateral(s, cfg, tx);
    } else {
      StepAccountsInternal(s, cfg, tx);
    }
  }

  /** Over any batch: the state invariant holds in every reachable state; the total of each
      synthetic asset never changes; and when the totals are zero, the system's equity never
      exceeds its start plus the recorded deposits minus withdrawals, and falls short of it by
      less than one collateral unit per funding application. */
  lemma {:induction false} RunAccounts(s: State, cfg: BatchConfig, txs: seq<Transaction>)
    requires Ready(s, cfg) && ExecuteTransactions(s, cfg, txs).Done?
    ensures Accounts(s, ExecuteTransactions(s, cfg, txs).value, AllApplications(txs))
    decreases |txs|
  {
    hide ExecuteTransaction, ValidState;
    if txs != [] {
      var s1 := ExecuteTransaction(s, cfg, txs[0]).value;
      StepAccounts(s, cfg, txs[0]);
      RunAccounts(s1, cfg, txs[1..]);
      AccountsCompose(s, s1, ExecuteTransactions(s1, cfg, txs[1..]).value, Applications(txs[0]),
                      AllApplications(txs[1..]));
    }
  }

  /** In every reachable state a position without synthetic assets owes nothing, the public key is
      zero exactly for the empty position, and no position holds more than 64 assets. */
  lemma {:induction false} ReachablePositions(s: State, cfg: BatchConfig, txs: seq<Transaction>, i: nat)
    requires Ready(s, cfg) && ExecuteTransactions(s, cfg, txs).Done? && i < |s.positions|
    ensures var t := ExecuteTransactions(s, cfg, txs).value;
      && i < |t.positions|
      && (t.positions[i].assets == [] ==> t.positions[i].collateral >= 0)
      && (t.positions[i].publicKey == 0 <==> t.positions[i].collateral == 0 && t.positions[i].assets == [])
      && |t.positions[i].assets| <= POSITION_MAX_SUPPORTED_N_ASSETS
  {
    hide ExecuteTransactions;
    RunAccounts(s, cfg, txs);
    var t := ExecuteTransactions(s, cfg, txs).value;
    assert ValidPosition(t.positions[i]);
  }

  // ---- Rebuilding positions from the output ----

  /** The log a reader of the output has: the indices of the previous state, then the table. */
  function Log(initial: FundingInfo, s: State): seq<FundingInfo> {
    [initial] + s.fundingTable
  }

  predicate TimeOrdered(log: seq<FundingInfo>) {
    forall i, j :: 0 <= i < j < |log| ==> log[i].timestamp <= log[j].timestamp
  }

  /** The log ends in the current indices, and every leaf that differs from the initial one is
      described by the log. */
  ghost predicate Logged(s0: State, s: State) {
    var log := Log(s0.funding, s);
    && log[|log| - 1] == s.funding
    && TimeOrdered(log)
    && |s.positions| == |s0.positions|
    && forall i :: 0 <= i < |s.positions| ==>
         s.positions[i] == s0.positions[i] || SerializeChange.Described(s.positions[i], log)
  }

  lemma {:induction false} LastEntryFound(log: seq<FundingInfo>)
    requires log != []
    ensures SerializeChange.LookupLog(log, log[|log| - 1].timestamp) == Some(log[|log| - 1])
  {
  }

  /** A position stamped with the current indices is described by a log that ends in them. */
  lemma {:induction false} StampedIsDescribed(p: Position, log: seq<FundingInfo>)
    requires log != [] && Stamped(p, log[|log| - 1])
    ensures SerializeChange.Described(p, log)
  {
    LastEntryFound(log);
  }

  lemma {:induction false} StepLogsOrdinary(s0: State, s: State, t: State)
    requires Logged(s0, s) && SameMarket(s, t) && Restamps(s.positions, t.positions, s.funding)
    ensures Logged(s0, t)
  {
    var log := Log(s0.funding, s);
    assert Log(s0.funding, t) == log;
    forall i | 0 <= i < |t.positions|
      ensures t.positions[i] == s0.positions[i] || SerializeChange.Described(t.positions[i], log)
    {
      if Stamped(t.positions[i], s.funding) { StampedIsDescribed(t.positions[i], log); }
    }
  }

  /** The next funding entry agrees with the last one on every indexed asset if it carries the same
      timestamp: the rate bound is then zero. */
  lemma {:induction false} SameTimeSameIndices(s: State, cfg: BatchConfig, tx: Transaction, id: int)
    requires Ready(s, cfg) && tx.FundingTick? && ExecuteFundingTick(s, cfg, tx).Done?
    requires tx.timestamp == s.funding.timestamp && FindIndex(s.funding.indices, id).Some?
    ensures FindIndex(ToIndices(tx.indices), id) == FindIndex(s.funding.indices, id)
  {
    Ticks.TickExact(s.funding.indices, tx.indices, s.prices, -1, cfg.general.maxFundingRate, 0, tx.tape);
    var k := FindIndexWitness(s.funding.indices, id);
    assert Ticks.Covered(s.funding.indices[k], tx.indices, s.prices, cfg.general.maxFundingRate, 0);
    hide RateInRange;
    Ticks.FindTickIsFindIndex(tx.indices, id);
    Ticks.NoTimeNoChange(cfg.general.maxFundingRate,
                         Ticks.FindTick(tx.indices, id).value - s.funding.indices[k].fundingIndex,
                         FindPrice(s.prices, id).value);
  }

  /** Appending an entry leaves older descriptions intact. */
  lemma {:induction false} DescriptionSurvives(p: Position, log: seq<FundingInfo>, info: FundingInfo)
    requires log != [] && TimeOrdered(log) && log[|log| - 1].timestamp <= info.timestamp
    requires SerializeChange.Described(p, log)
    requires info.timestamp == log[|log| - 1].timestamp ==>
               forall id :: FindIndex(log[|log| - 1].indices, id).Some? ==>
                 FindIndex(info.indices, id) == FindIndex(log[|log| - 1].indices, id)
    ensures SerializeChange.Described(p, log + [info])
  {
    var last := log[|log| - 1];
    assert (log + [info])[..|log|] == log;
    if p.fundingTimestamp == info.timestamp {
      if info.timestamp == last.timestamp {
        LastEntryFound(log);
        forall i | 0 <= i < |p.assets|
          ensures FindIndex(info.indices, p.assets[i].assetId) == Some(p.assets[i].cachedFundingIndex)
        {
          assert FindIndex(last.indices, p.assets[i].assetId) == Some(p.assets[i].cachedFundingIndex);
        }
      } else {
        NotYetLogged(log, info.timestamp);
        NoIndicesNoAssets(p.assets);
      }
    }
  }

  lemma {:induction false} NoIndicesNoAssets(assets: seq<PositionAsset>)
    ensures UpToDate(assets, []) <==> assets == []
  {
    if assets != [] {
      assert FindIndex([], assets[0].assetId) != Some(assets[0].cachedFundingIndex);
    }
  }

  lemma {:induction false} NotYetLogged(log: seq<FundingInfo>, timestamp: int)
    requires forall i :: 0 <= i < |log| ==> log[i].timestamp < timestamp
    ensures SerializeChange.LookupLog(log, timestamp) == None
    decreases |log|
  {
    if log != [] {
      NotYetLogged(log[..|log| - 1], timestamp);
    }
  }

  lemma {:induction false} StepLogsTick(s0: State, s: State, cfg: BatchConfig, tx: Transaction)
    requires Ready(s, cfg) && Logged(s0, s) && tx.FundingTick? && ExecuteFundingTick(s, cfg, tx).Done?
    ensures Logged(s0, ExecuteFundingTick(s, cfg, tx).value)
  {
    var t := ExecuteFundingTick(s, cfg, tx).value;
    var log := Log(s0.funding, s);
    assert Log(s0.funding, t) == log + [t.funding];
    if tx.timestamp == s.funding.timestamp {
      forall id | FindIndex(s.funding.indices, id).Some?
        ensures FindIndex(t.funding.indices, id) == FindIndex(s.funding.indices, id)
      {
        SameTimeSameIndices(s, cfg, tx, id);
      }
    }
    hide ValidateTick;
    forall i | 0 <= i < |t.positions|
      ensures t.positions[i] == s0.positions[i] || SerializeChange.Described(t.positions[i], log + [t.funding])
    {
      if t.positions[i] != s0.positions[i] { DescriptionSurvives(t.positions[i], log, t.funding); }
    }
  }

  lemma {:induction false} StepLogs(s0: State, s: State, cfg: BatchConfig, tx: Transaction)
    requires Ready(s, cfg) && Logged(s0, s) && ExecuteTransaction(s, cfg, tx).Done?
    ensures Logged(s0, ExecuteTransaction(s, cfg, tx).value)
  {
    hide ExecuteFundingTick, Accounts, MergePrices;
    if tx.FundingTick? {
      StepLogsTick(s0, s, cfg, tx);
    } else if tx.OraclePricesTick? {
      assert Log(s0.funding, ExecuteTransaction(s, cfg, tx).value) == Log(s0.funding, s);
    } else {
      if tx.Deposit? || tx.Withdrawal? || tx.ForcedWithdrawal? {
        StepAccountsCollateral(s, cfg, tx);
      } else {
        StepAccountsInternal(s, cfg, tx);
      }
      StepLogsOrdinary(s0, s, ExecuteTransaction(s, cfg, tx).value);
    }
  }

  lemma {:induction false} RunLogs(s0: State, s: State, cfg: BatchConfig, txs: seq<Transaction>)
    requires Ready(s, cfg) && Logged(s0, s) && ExecuteTransactions(s, cfg, txs).Done?
    ensures Logged(s0, ExecuteTransactions(s, cfg, txs).value)
    decreases |txs|
  {
    hide ExecuteTransaction, Logged, Accounts;
    if txs != [] {
      StepLogs(s0, s, cfg, txs[0]);
      StepAccounts(s, cfg, txs[0]);
      assert Accounts(s, ExecuteTransaction(s, cfg, txs[0]).value, Applications(txs[0]));
      AccountsValid(s, ExecuteTransaction(s, cfg, txs[0]).value, Applications(txs[0]));
      RunLogs(s0, ExecuteTransaction(s, cfg, txs[0]).value, cfg, txs[1..]);
    }
  }

  lemma {:induction false} AccountsValid(s: State, t: State, n: nat)
    requires Accounts(s, t, n)
    ensures ValidState(t)
  {
  }

  /** Data availability over a whole batch: for every position that the batch changed, the words
      written to the output rebuild its final value from its previous value, the funding indices
      of the previous state and the table of funding ticks. */
  lemma {:induction false} OutputRebuildsState(s: State, cfg: BatchConfig, txs: seq<Transaction>, i: nat)
    requires Ready(s, cfg) && s.fundingTable == [] && ExecuteTransactions(s, cfg, txs).Done?
    requires i < |s.positions|
    ensures var t := ExecuteTransactions(s, cfg, txs).value;
      && i < |t.positions|
      && (t.positions[i] != s.positions[i] ==>
            SerializeChange.Rebuild(s.positions[i], SerializeChange.Serialize(i, s.positions[i], t.positions[i]),
                                    Log(s.funding, t))
            == Some((i, t.positions[i])))
  {
    hide ExecuteTransactions;
    RunAccounts(s, cfg, txs);
    assert Log(s.funding, s) == [s.funding];
    RunLogs(s, s, cfg, txs);
    var t := ExecuteTransactions(s, cfg, txs).value;
    if t.positions[i] != s.positions[i] {
      assert ValidPosition(s.positions[i]) && ValidPosition(t.positions[i]);
      SerializeChange.RebuildsPosition(i, s.positions[i], t.positions[i], Log(s.funding, t));
    }
  }
}
