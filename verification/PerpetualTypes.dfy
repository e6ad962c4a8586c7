/** Entities of the perpetual batch: positions, funding indices, prices and the configuration,
    with the array lookups of the Cairo library on them. */
module PerpetualTypes {
  import opened Options

  const AMOUNT_UPPER_BOUND: int := 0x10000000000000000
  const BALANCE_UPPER_BOUND: int := 0x8000000000000000
  const BALANCE_LOWER_BOUND: int := -0x8000000000000000
  const FUNDING_INDEX_UPPER_BOUND: int := 0x8000000000000000
  const FUNDING_INDEX_LOWER_BOUND: int := -0x8000000000000000
  const PRICE_LOWER_BOUND: int := 1
  const PRICE_UPPER_BOUND: int := 0x10000000000000000
  const RISK_LOWER_BOUND: int := 1
  const RISK_UPPER_BOUND: int := 0x100000000
  const RISK_FACTOR_SEGMENT_UPPER_BOUND: int := 0x100000000000000000000000000000000
  const ASSET_ID_UPPER_BOUND: int := 0x1000000000000000000000000000000
  const N_ASSETS_UPPER_BOUND: int := 0x10000
  const FXP_32_ONE: int := 0x100000000
  const POSITION_MAX_SUPPORTED_N_ASSETS: int := 64
  const EXPIRATION_TIMESTAMP_UPPER_BOUND: int := 0x100000000
  const NONCE_UPPER_BOUND: int := 0x100000000
  const NO_SYNTHETIC_DELTA_ASSET_ID: int := -1

  datatype ErrorCode =
    | Success
    | EnlargingSyntheticHoldings
    | NoRiskReducedValue
    | ReducingTotalValueRiskRatio
    | InvalidPublicKey
    | MissingGlobalFundingIndex
    | MissingOraclePrice
    | OutOfRangeBalance
    | OutOfRangeTotalRisk
    | OutOfRangeTotalValue
    | TooManySyntheticAssets

  datatype PositionAsset = PositionAsset(assetId: int, balance: int, cachedFundingIndex: int)

  datatype Position = Position(
    publicKey: int, collateral: int, assets: seq<PositionAsset>, fundingTimestamp: int)

  const EMPTY_POSITION := Position(0, 0, [], 0)

  datatype FundingIndex = FundingIndex(assetId: int, fundingIndex: int)
  datatype FundingInfo = FundingInfo(indices: seq<FundingIndex>, timestamp: int)

  datatype OraclePrice = OraclePrice(assetId: int, price: int)

  datatype RiskFactorSegment = RiskFactorSegment(upperBound: int, risk: int)

  datatype SyntheticAssetInfo = SyntheticAssetInfo(
    assetId: int,
    resolution: int,
    segments: seq<RiskFactorSegment>,
    oracleSignedAssetIds: seq<int>,
    oracleQuorum: int,
    oracleSigners: seq<int>)

  datatype GeneralConfig = GeneralConfig(
    maxFundingRate: int,
    collateralAssetId: int,
    collateralResolution: int,
    feePositionId: int,
    feePublicKey: int,
    infos: seq<SyntheticAssetInfo>,
    fundingValidityPeriod: int,
    isRiskByBalanceOnly: bool)

  // ---- Lookups: find_element and search_sorted on arrays with distinct keys ----

  function FindIndex(indices: seq<FundingIndex>, id: int): Option<int> {
    if indices == [] then None
    else if indices[0].assetId == id then Some(indices[0].fundingIndex)
    else FindIndex(indices[1..], id)
  }

  function FindPrice(prices: seq<OraclePrice>, id: int): Option<int> {
    if prices == [] then None
    else if prices[0].assetId == id then Some(prices[0].price)
    else FindPrice(prices[1..], id)
  }

  function FindInfo(infos: seq<SyntheticAssetInfo>, id: int): Option<SyntheticAssetInfo> {
    if infos == [] then None
    else if infos[0].assetId == id then Some(infos[0])
    else FindInfo(infos[1..], id)
  }

  function FindAsset(assets: seq<PositionAsset>, id: int): Option<PositionAsset> {
    if assets == [] then None
    else if assets[0].assetId == id then Some(assets[0])
    else FindAsset(assets[1..], id)
  }

  // ---- The arrays as the source keeps them ----

  predicate SortedAssets(assets: seq<PositionAsset>) {
    forall i, j :: 0 <= i < j < |assets| ==> assets[i].assetId < assets[j].assetId
  }

  predicate ValidAsset(a: PositionAsset) {
    && 0 <= a.assetId < ASSET_ID_UPPER_BOUND
    && a.balance != 0
    && BALANCE_LOWER_BOUND < a.balance < BALANCE_UPPER_BOUND
    && FUNDING_INDEX_LOWER_BOUND <= a.cachedFundingIndex < FUNDING_INDEX_UPPER_BOUND
  }

  predicate ValidAssets(assets: seq<PositionAsset>) {
    && SortedAssets(assets)
    && (forall i :: 0 <= i < |assets| ==> ValidAsset(assets[i]))
    && |assets| <= POSITION_MAX_SUPPORTED_N_ASSETS
  }

  predicate ValidBalance(b: int) {
    BALANCE_LOWER_BOUND <= b < BALANCE_UPPER_BOUND
  }

  predicate SortedIndices(indices: seq<FundingIndex>) {
    forall i, j :: 0 <= i < j < |indices| ==> indices[i].assetId < indices[j].assetId
  }

  predicate ValidIndices(indices: seq<FundingIndex>) {
    && SortedIndices(indices)
    && forall i :: 0 <= i < |indices| ==>
         && 0 <= indices[i].assetId < ASSET_ID_UPPER_BOUND
         && FUNDING_INDEX_LOWER_BOUND <= indices[i].fundingIndex < FUNDING_INDEX_UPPER_BOUND
  }

  predicate ValidPrices(prices: seq<OraclePrice>) {
    && (forall i, j :: 0 <= i < j < |prices| ==> prices[i].assetId < prices[j].assetId)
    && forall i :: 0 <= i < |prices| ==>
         && 0 <= prices[i].assetId < ASSET_ID_UPPER_BOUND
         && PRICE_LOWER_BOUND <= prices[i].price < PRICE_UPPER_BOUND
  }

  /** What validate_risk_factor_function establishes, together with the check on the first
      upper bound. */
  predicate ValidSegments(segments: seq<RiskFactorSegment>) {
    && |segments| > 0
    && segments[0].upperBound >= 0
    && (forall i, j :: 0 <= i < j < |segments| ==> segments[i].upperBound < segments[j].upperBound)
    && segments[|segments| - 1].upperBound == RISK_FACTOR_SEGMENT_UPPER_BOUND - 1
    && forall i :: 0 <= i < |segments| ==> RISK_LOWER_BOUND <= segments[i].risk < RISK_UPPER_BOUND
  }

  predicate ValidInfos(infos: seq<SyntheticAssetInfo>) {
    forall i :: 0 <= i < |infos| ==> ValidSegments(infos[i].segments)
  }

  // ---- Holdings ----

  /** The balance of `id` in an asset array: additive over the array, so that totals over
      positions can be formed. On a sorted array it is the one stored balance. */
  function Holding(assets: seq<PositionAsset>, id: int): int {
    if assets == [] then 0
    else (if assets[0].assetId == id then assets[0].balance else 0) + Holding(assets[1..], id)
  }

  lemma {:induction false} HoldingConcat(a: seq<PositionAsset>, b: seq<PositionAsset>, id: int)
    ensures Holding(a + b, id) == Holding(a, id) + Holding(b, id)
  {
    if a == [] {
      assert a + b == b;
    } else {
      assert (a + b)[1..] == a[1..] + b;
      HoldingConcat(a[1..], b, id);
    }
  }

  lemma {:induction false} HoldingAbsent(a: seq<PositionAsset>, id: int)
    requires forall i :: 0 <= i < |a| ==> a[i].assetId != id
    ensures Holding(a, id) == 0
  {
    if a != [] {
      HoldingAbsent(a[1..], id);
    }
  }

  lemma {:induction false} HoldingAt(a: seq<PositionAsset>, k: nat)
    requires SortedAssets(a) && k < |a|
    ensures Holding(a, a[k].assetId) == a[k].balance
    ensures FindAsset(a, a[k].assetId) == Some(a[k])
  {
    if k == 0 {
      HoldingAbsent(a[1..], a[0].assetId);
    } else {
      HoldingAt(a[1..], k - 1);
    }
  }

  lemma {:induction false} FindAssetAbsent(a: seq<PositionAsset>, id: int)
    requires forall i :: 0 <= i < |a| ==> a[i].assetId != id
    ensures FindAsset(a, id) == None
  {
    if a != [] {
      FindAssetAbsent(a[1..], id);
    }
  }

  /** position_get_asset_balance. */
  function GetAssetBalance(p: Position, id: int): int {
    match FindAsset(p.assets, id)
    case None => 0
    case Some(a) => a.balance
  }

  lemma {:induction false} AssetBalanceIsHolding(p: Position, id: int)
    requires SortedAssets(p.assets)
    ensures GetAssetBalance(p, id) == Holding(p.assets, id)
  {
    if k :| 0 <= k < |p.assets| && p.assets[k].assetId == id {
      HoldingAt(p.assets, k);
    } else {
      HoldingAbsent(p.assets, id);
      FindAssetAbsent(p.assets, id);
    }
  }

  lemma {:induction false} FindIndexAt(s: seq<FundingIndex>, k: nat)
    requires SortedIndices(s) && k < |s|
    ensures FindIndex(s, s[k].assetId) == Some(s[k].fundingIndex)
  {
    if k != 0 {
      FindIndexAt(s[1..], k - 1);
    }
  }

  /** A successful lookup points at an entry of the array. */
  lemma {:induction false} FindIndexWitness(s: seq<FundingIndex>, id: int) returns (k: nat)
    requires FindIndex(s, id).Some?
    ensures k < |s| && s[k].assetId == id && s[k].fundingIndex == FindIndex(s, id).value
  {
    if s[0].assetId == id {
      k := 0;
    } else {
      var j := FindIndexWitness(s[1..], id);
      k := j + 1;
    }
  }

  lemma {:induction false} FindPriceWitness(s: seq<OraclePrice>, id: int) returns (k: nat)
    requires FindPrice(s, id).Some?
    ensures k < |s| && s[k].assetId == id && s[k].price == FindPrice(s, id).value
  {
    if s[0].assetId == id {
      k := 0;
    } else {
      var j := FindPriceWitness(s[1..], id);
      k := j + 1;
    }
  }

  lemma {:induction false} FindInfoWitness(s: seq<SyntheticAssetInfo>, id: int) returns (k: nat)
    requires FindInfo(s, id).Some?
    ensures k < |s| && s[k] == FindInfo(s, id).value && s[k].assetId == id
  {
    if s[0].assetId == id {
      k := 0;
    } else {
      var j := FindInfoWitness(s[1..], id);
      k := j + 1;
    }
  }

  /** Sorted arrays of non-zero balances are determined by their holdings and cached indices. */
  lemma {:induction false} AssetsDetermined(a: seq<PositionAsset>, b: seq<PositionAsset>)
    requires SortedAssets(a) && SortedAssets(b)
    requires forall id :: FindAsset(a, id) == FindAsset(b, id)
    ensures a == b
  {
    var probeA := if a != [] then a[0].assetId else 0;
    var probeB := if b != [] then b[0].assetId else 0;
    assert FindAsset(a, probeA) == FindAsset(b, probeA);
    assert FindAsset(a, probeB) == FindAsset(b, probeB);
    if a != [] {
      if a[0].assetId < b[0].assetId {
        FindAssetAbsent(b, a[0].assetId);
      } else if b[0].assetId < a[0].assetId {
        FindAssetAbsent(a, b[0].assetId);
      }
      forall id
        ensures FindAsset(a[1..], id) == FindAsset(b[1..], id)
      {
        assert FindAsset(a, id) == FindAsset(b, id);
        if id == a[0].assetId {
          FindAssetAbsent(a[1..], id);
          FindAssetAbsent(b[1..], id);
        }
      }
      AssetsDetermined(a[1..], b[1..]);
    }
  }
}
