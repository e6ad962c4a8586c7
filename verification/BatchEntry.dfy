/** The whole batch (execute_batch.cairo): the checks made before the first transaction establish
    what the transactions rely on, and those made after the last hold of the final state. */
module BatchEntry {
  import opened Felt
  import opened PerpetualTypes
  import opened MessageHashes
  import opened Batch
  import opened BatchInvariants
  import opened BatchRuns
  import opened BatchAcceptance
  import opened ConfigChecks
  import opened Oracle

  datatype ProgramInput = ProgramInput(
    general: GeneralConfig,
    priceValidityPeriod: int,
    signedMinPrices: seq<AssetOraclePrice>,
    signedMaxPrices: seq<AssetOraclePrice>,
    minExpiration: felt,
    txs: seq<Transaction>,
    endSystemTime: felt,
    pedersen: PairHash,
    verify: Verifier)

  function ConfigOf(input: ProgramInput): BatchConfig {
    BatchConfig(input.general, SignedPricesToPrices(input.signedMinPrices), SignedPricesToPrices(input.signedMaxPrices),
                input.minExpiration, input.pedersen, input.verify)
  }

  function BoundsOf(s: State, input: ProgramInput): TimeBounds {
    TimeBounds(Signed(s.systemTime - input.priceValidityPeriod), input.endSystemTime)
  }

  /** execute_batch. */
  function ExecuteBatch(s: State, input: ProgramInput): Outcome<State> {
    var _ :- ValidateGeneralConfig(input.general);
    var bounds := BoundsOf(s, input);
    var _ :- CheckOraclePrices(input.pedersen, input.verify, bounds, input.signedMinPrices, input.general.infos,
                               input.general.collateralResolution);
    var _ :- CheckOraclePrices(input.pedersen, input.verify, bounds, input.signedMaxPrices, input.general.infos,
                               input.general.collateralResolution);
    var t :- ExecuteTransactions(s, ConfigOf(input), input.txs);
    var _ :- ValidateFundingIndices(t.funding.indices, input.general.infos);
    var _ :- Require(t.systemTime == input.endSystemTime);
    Done(t)
  }

  /** Array lengths and field representatives of the machine's memory. */
  predicate InMemory(input: ProgramInput) {
    && FeltInfos(input.general.infos) && |input.general.infos| < MEMORY_BOUND - 1
    && IsFelt(input.general.collateralResolution)
    && (forall i :: 0 <= i < |input.signedMinPrices| ==> |input.signedMinPrices[i].signedPrices| < MEMORY_BOUND)
    && (forall i :: 0 <= i < |input.signedMaxPrices| ==> |input.signedMaxPrices[i].signedPrices| < MEMORY_BOUND)
  }

  /** The checks before the first transaction. */
  predicate EntryChecks(s: State, input: ProgramInput) {
    var bounds := BoundsOf(s, input);
    && ValidateGeneralConfig(input.general).Done?
    && CheckOraclePrices(input.pedersen, input.verify, bounds, input.signedMinPrices, input.general.infos,
                         input.general.collateralResolution).Done?
    && CheckOraclePrices(input.pedersen, input.verify, bounds, input.signedMaxPrices, input.general.infos,
                         input.general.collateralResolution).Done?
  }

  lemma {:induction false} ChecksEstablish(s: State, input: ProgramInput)
    requires InMemory(input) && EntryChecks(s, input)
    ensures ValidConfig(ConfigOf(input))
    ensures SortedInfos(input.general.infos, -1)
  {
    hide ValidateGeneralConfig, CheckOraclePrices, AcceptedPrice, ValidInfo, ValidSegments;
    GeneralConfigEstablishes(input.general);
    AcceptedPricesInBounds(input.pedersen, input.verify, BoundsOf(s, input), input.signedMinPrices,
                           input.general.infos, input.general.collateralResolution);
    AcceptedPricesInBounds(input.pedersen, input.verify, BoundsOf(s, input), input.signedMaxPrices,
                           input.general.infos, input.general.collateralResolution);
  }

  /** The entry checks establish the configuration under which every transaction keeps its
      invariants. */
  lemma {:induction false} EntryChecksEstablish(s: State, input: ProgramInput)
    requires InMemory(input) && ExecuteBatch(s, input).Done?
    ensures ValidConfig(ConfigOf(input))
    ensures SortedInfos(input.general.infos, -1)
  {
    hide ValidateGeneralConfig, CheckOraclePrices, ExecuteTransactions, ValidateFundingIndices, ValidConfig;
    ChecksEstablish(s, input);
  }

  lemma {:induction false} BatchIsRun(s: State, input: ProgramInput)
    requires ExecuteBatch(s, input).Done?
    ensures ExecuteTransactions(s, ConfigOf(input), input.txs) == ExecuteBatch(s, input)
    ensures ValidateFundingIndices(ExecuteBatch(s, input).value.funding.indices, input.general.infos).Done?
    ensures ExecuteBatch(s, input).value.systemTime == input.endSystemTime
  {
    hide ValidateGeneralConfig, CheckOraclePrices, ExecuteTransactions, ValidateFundingIndices;
  }

  /** An accepted batch from a valid state, with no assumption on its configuration, signed prices or
      transactions: the final state is valid, every asset total is unchanged, the system's equity is
      accounted for up to rounding, and every funded asset is configured. */
  lemma {:induction false} AcceptedBatch(s: State, input: ProgramInput)
    requires ValidState(s) && InMemory(input) && ExecuteBatch(s, input).Done?
    ensures var t := ExecuteBatch(s, input).value;
      && Accounts(s, t, AllApplications(input.txs))
      && t.systemTime == input.endSystemTime
      && forall i :: 0 <= i < |t.funding.indices| ==> Configured(t.funding.indices[i].assetId, input.general.infos)
  {
    hide ExecuteBatch, ExecuteTransactions, ValidateFundingIndices, Configured, SignedPricesToPrices;
    EntryChecksEstablish(s, input);
    BatchIsRun(s, input);
    RunAccounts(s, ConfigOf(input), input.txs);
    var t := ExecuteBatch(s, input).value;
    FundingIndicesExact(t.funding.indices, input.general.infos);
  }

  // ---- When a batch is accepted ----

  /** No time of the input wraps. */
  predicate TimelyInput(s: State, input: ProgramInput) {
    && Timely(s, ConfigOf(input))
    && 0 <= input.priceValidityPeriod <= HALF
  }

  /** A batch is accepted if and only if its configuration and signed prices pass, every transaction is
      allowed in its turn, every funded asset is configured at the end, and the time is the announced one. */
  lemma {:induction false} AcceptedExactly(s: State, input: ProgramInput)
    requires ValidState(s) && InMemory(input) && TimelyInput(s, input)
    ensures ExecuteBatch(s, input).Done? <==>
            && EntryChecks(s, input)
            && AllAllowed(s, ConfigOf(input), input.txs)
            && var t := ExecuteTransactions(s, ConfigOf(input), input.txs);
            && t.Done?
            && (forall i :: 0 <= i < |t.value.funding.indices| ==>
                  Configured(t.value.funding.indices[i].assetId, input.general.infos))
            && t.value.systemTime == input.endSystemTime
  {
    hide ValidateGeneralConfig, CheckOraclePrices, ExecuteTransactions, ValidateFundingIndices, AllAllowed, Configured,
      ValidConfig, ConfigOf, Accounts;
    if EntryChecks(s, input) {
      ChecksEstablish(s, input);
      BatchExactly(s, ConfigOf(input), input.txs);
      var t := ExecuteTransactions(s, ConfigOf(input), input.txs);
      if t.Done? {
        RunAccounts(s, ConfigOf(input), input.txs);
        AccountsValid(s, t.value, AllApplications(input.txs));
        FundingIndicesExact(t.value.funding.indices, input.general.infos);
      }
    }
  }

  // ---- What the signed prices bound ----

  /** The signed lists bound the price of an asset. */
  predicate WithinSigned(input: ProgramInput, id: int, price: int) {
    && (exists i :: 0 <= i < |input.signedMinPrices| && input.signedMinPrices[i].assetId == id
                    && input.signedMinPrices[i].price <= price)
    && (exists i :: 0 <= i < |input.signedMaxPrices| && input.signedMaxPrices[i].assetId == id
                    && price <= input.signedMaxPrices[i].price)
  }

  /** Every price that a tick of an accepted batch sets lies between a signed minimal and a signed maximal
      price of its asset. */
  lemma {:induction false} TickPricesWithinSigned(s: State, input: ProgramInput, k: nat, i: nat)
    requires ValidState(s) && InMemory(input) && TimelyInput(s, input) && ExecuteBatch(s, input).Done?
    requires k < |input.txs| && input.txs[k].OraclePricesTick? && i < |input.txs[k].tickPrices|
    ensures WithinSigned(input, input.txs[k].tickPrices[i].assetId, input.txs[k].tickPrices[i].price)
  {
    hide ExecuteBatch, ExecuteTransaction, ExecuteTransactions, ValidConfig, ValidState;
    EntryChecksEstablish(s, input);
    BatchIsRun(s, input);
    var cfg := ConfigOf(input);
    StateBefore(s, cfg, input.txs, k);
    var at := ExecuteTransactions(s, cfg, input.txs[..k]).value;
    TransactionExactly(at, cfg, input.txs[k]);
    var id := input.txs[k].tickPrices[i].assetId;
    var low := FindPriceWitness(cfg.minPrices, id);
    var high := FindPriceWitness(cfg.maxPrices, id);
    assert input.signedMinPrices[low].assetId == id && input.signedMaxPrices[high].assetId == id;
  }

  /** A signature that the entry checks accepted is verified, under a configured key, and was made between
      the end of the price validity period before the batch and its end. */
  lemma {:induction false} SignedPricesAreRecent(s: State, input: ProgramInput, price: AssetOraclePrice, j: nat)
    requires ValidState(s) && InMemory(input) && TimelyInput(s, input) && ExecuteBatch(s, input).Done?
    requires price in input.signedMinPrices || price in input.signedMaxPrices
    requires j < |price.signedPrices|
    ensures var sig := price.signedPrices[j];
      && s.systemTime - input.priceValidityPeriod <= sig.timestamp <= input.endSystemTime
      && input.verify(PriceMessage(input.pedersen, sig), sig.signerKey, sig.signatureR, sig.signatureS)
      && exists i :: 0 <= i < |input.general.infos| && input.general.infos[i].assetId == price.assetId
                     && sig.signerKey in input.general.infos[i].oracleSigners
                     && sig.signedAssetId in input.general.infos[i].oracleSignedAssetIds
  {
    hide ValidateGeneralConfig, CheckOraclePrices, ExecuteTransactions, ValidateFundingIndices, AcceptedPrice,
      ValidInfo, ValidSegments, ValidState;
    var bounds := BoundsOf(s, input);
    GeneralConfigEstablishes(input.general);
    var list := if price in input.signedMinPrices then input.signedMinPrices else input.signedMaxPrices;
    AcceptedPricesInBounds(input.pedersen, input.verify, bounds, list, input.general.infos,
                           input.general.collateralResolution);
    var k :| 0 <= k < |list| && list[k] == price;
    var i :| 0 <= i < |input.general.infos| && input.general.infos[i].assetId == price.assetId
             && AcceptedPrice(input.pedersen, input.verify, bounds, price, input.general.infos[i],
                              input.general.collateralResolution);
    SignatureTime(input.pedersen, input.verify, bounds, price, input.general.infos[i],
                  input.general.collateralResolution, j);
  }

  lemma {:induction false} SignatureTime(h: PairHash, verify: Verifier, bounds: TimeBounds, price: AssetOraclePrice,
                                         info: SyntheticAssetInfo, collateralResolution: int, j: nat)
    requires AcceptedPrice(h, verify, bounds, price, info, collateralResolution) && j < |price.signedPrices|
    requires -HALF <= bounds.minTime <= HALF && -HALF <= bounds.maxTime <= HALF
    ensures var sig := price.signedPrices[j];
      && bounds.minTime <= sig.timestamp <= bounds.maxTime
      && verify(PriceMessage(h, sig), sig.signerKey, sig.signatureR, sig.signatureS)
      && sig.signerKey in info.oracleSigners && sig.signedAssetId in info.oracleSignedAssetIds
  {
    hide InternalPrice;
    assert SignatureChecks(h, verify, bounds, info, price.signedPrices[j]);
  }
}
