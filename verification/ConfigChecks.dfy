/** Validation of the general configuration and of the funding indices against it
    (execute_batch_utils.cairo): what the field comparisons establish over the integers. */
module ConfigChecks {
  import opened Felt
  import opened PerpetualTypes

  const ORACLE_PRICE_QUORUM_LOWER_BOUND: int := 1
  const ORACLE_PRICE_QUORUM_UPPER_BOUND: int := 0x100000000
  const ASSET_RESOLUTION_LOWER_BOUND: int := 1
  const ASSET_RESOLUTION_UPPER_BOUND: int := 0x10000000000000000
  const COLLATERAL_ASSET_ID_UPPER_BOUND: int := BOUND_250

  /** Offsets into a memory segment of the Cairo machine are below 2^63, and so is the length of
      every array. */
  const MEMORY_BOUND: int := 0x8000000000000000

  predicate IsFelt(x: int) {
    -HALF <= x <= HALF
  }

  /** validate_risk_factor_function. */
  function ValidateRiskFactorFunction(segments: seq<RiskFactorSegment>): Outcome<()>
    requires segments != []
  {
    var _ :- Require(IsInRange(segments[0].risk, RISK_LOWER_BOUND, RISK_UPPER_BOUND));
    if |segments| == 1 then Require(segments[0].upperBound == RISK_FACTOR_SEGMENT_UPPER_BOUND - 1)
    else
      var _ :- Require(IsLe(segments[0].upperBound, segments[1].upperBound - 1));
      ValidateRiskFactorFunction(segments[1..])
  }

  /** validate_assets_config_inner. */
  function ValidateAssetsConfig(infos: seq<SyntheticAssetInfo>, prevAssetId: int): Outcome<()> {
    if infos == [] then Require(IsLe(prevAssetId, ASSET_ID_UPPER_BOUND - 1))
    else
      var info := infos[0];
      var _ :- Require(IsLe(prevAssetId, info.assetId - 1));
      var _ :- Require(IsLe(0, |info.segments| - 1) && info.segments != []);
      var _ :- Require(IsNn(info.segments[0].upperBound));
      var _ :- ValidateRiskFactorFunction(info.segments);
      var _ :- Require(IsInRange(info.oracleQuorum, ORACLE_PRICE_QUORUM_LOWER_BOUND, ORACLE_PRICE_QUORUM_UPPER_BOUND));
      var _ :- Require(IsInRange(info.resolution, ASSET_RESOLUTION_LOWER_BOUND, ASSET_RESOLUTION_UPPER_BOUND));
      ValidateAssetsConfig(infos[1..], info.assetId)
  }

  /** validate_general_config. */
  function ValidateGeneralConfig(config: GeneralConfig): Outcome<()> {
    var _ :- ValidateAssetsConfig(config.infos, -1);
    var _ :- Require(IsLeFelt(config.collateralAssetId, COLLATERAL_ASSET_ID_UPPER_BOUND - 1));
    var _ :- Require(IsInRange(config.collateralResolution, ASSET_RESOLUTION_LOWER_BOUND,
                               ASSET_RESOLUTION_UPPER_BOUND));
    Require(IsNnLe(|config.infos|, N_ASSETS_UPPER_BOUND - 1))
  }

  /** validate_funding_indices_in_general_config_inner: advances through the configuration until
      every index has been met. */
  function ValidateFundingIndices(indices: seq<FundingIndex>, infos: seq<SyntheticAssetInfo>): Outcome<()>
    decreases |infos|
  {
    if indices == [] then Done(())
    else
      var _ :- Require(infos != []);
      if indices[0].assetId == infos[0].assetId then ValidateFundingIndices(indices[1..], infos[1..])
      else ValidateFundingIndices(indices, infos[1..])
  }

  // ---- Over the integers ----

  predicate FeltSegments(segments: seq<RiskFactorSegment>) {
    forall i :: 0 <= i < |segments| ==> IsFelt(segments[i].upperBound) && IsFelt(segments[i].risk)
  }

  predicate FeltInfos(infos: seq<SyntheticAssetInfo>) {
    forall i :: 0 <= i < |infos| ==>
      && IsFelt(infos[i].assetId) && IsFelt(infos[i].oracleQuorum) && IsFelt(infos[i].resolution)
      && FeltSegments(infos[i].segments) && |infos[i].segments| < MEMORY_BOUND
  }

  /** One strictly increasing step under a range check, from a value that cannot wrap. */
  lemma {:induction false} IncreasingStep(a: int, b: felt, k: nat)
    requires -1 <= a <= k * RC_BOUND && k <= MEMORY_BOUND
    ensures IsLe(a, b - 1) <==> a < b <= a + RC_BOUND
  {
  }

  lemma {:induction false} RiskInRange(risk: felt)
    ensures IsInRange(risk, RISK_LOWER_BOUND, RISK_UPPER_BOUND) <==> RISK_LOWER_BOUND <= risk < RISK_UPPER_BOUND
  {
  }

  /** validate_risk_factor_function accepts exactly strictly increasing bounds that end in 2^128 - 1,
      with every risk factor in range. */
  lemma {:induction false} RiskFunctionExact(segments: seq<RiskFactorSegment>, k: nat)
    requires segments != [] && FeltSegments(segments)
    requires 0 <= segments[0].upperBound <= k * RC_BOUND && k + |segments| <= MEMORY_BOUND
    ensures ValidateRiskFactorFunction(segments).Done? <==> ValidSegments(segments)
    decreases |segments|
  {
    hide IsInRange, IsLe;
    RiskInRange(segments[0].risk);
    if |segments| > 1 {
      IncreasingStep(segments[0].upperBound, segments[1].upperBound, k);
      var rest := segments[1..];
      if segments[0].upperBound < segments[1].upperBound <= segments[0].upperBound + RC_BOUND {
        RiskFunctionExact(rest, k + 1);
      }
      assert forall i :: 1 <= i < |segments| ==> segments[i] == rest[i - 1];
      if ValidSegments(segments) {
        forall i, j | 0 <= i < j < |rest|
          ensures rest[i].upperBound < rest[j].upperBound
        {
          assert segments[i + 1].upperBound < segments[j + 1].upperBound;
        }
        assert segments[1].upperBound <= segments[|segments| - 1].upperBound;
      }
      if ValidSegments(rest) && segments[0].upperBound < segments[1].upperBound {
        forall i, j | 0 <= i < j < |segments|
          ensures segments[i].upperBound < segments[j].upperBound
        {
          if i == 0 && j > 1 { assert rest[0].upperBound < rest[j - 1].upperBound; }
          if i > 0 { assert rest[i - 1].upperBound < rest[j - 1].upperBound; }
        }
      }
    }
  }

  predicate ValidInfo(info: SyntheticAssetInfo) {
    && ValidSegments(info.segments)
    && ORACLE_PRICE_QUORUM_LOWER_BOUND <= info.oracleQuorum < ORACLE_PRICE_QUORUM_UPPER_BOUND
    && ASSET_RESOLUTION_LOWER_BOUND <= info.resolution < ASSET_RESOLUTION_UPPER_BOUND
  }

  predicate SortedInfos(infos: seq<SyntheticAssetInfo>, prevAssetId: int) {
    && (forall i :: 0 <= i < |infos| ==> prevAssetId < infos[i].assetId < ASSET_ID_UPPER_BOUND)
    && forall i, j :: 0 <= i < j < |infos| ==> infos[i].assetId < infos[j].assetId
  }

  /** The checks on one entry of the configuration. */
  function ValidateInfo(info: SyntheticAssetInfo): Outcome<()> {
    var _ :- Require(IsLe(0, |info.segments| - 1) && info.segments != []);
    var _ :- Require(IsNn(info.segments[0].upperBound));
    var _ :- ValidateRiskFactorFunction(info.segments);
    var _ :- Require(IsInRange(info.oracleQuorum, ORACLE_PRICE_QUORUM_LOWER_BOUND, ORACLE_PRICE_QUORUM_UPPER_BOUND));
    Require(IsInRange(info.resolution, ASSET_RESOLUTION_LOWER_BOUND, ASSET_RESOLUTION_UPPER_BOUND))
  }

  lemma {:induction false} InfoExact(info: SyntheticAssetInfo)
    requires FeltInfos([info])
    ensures ValidateInfo(info).Done? <==> ValidInfo(info)
  {
    assert [info][0] == info;
    if info.segments != [] && 0 <= info.segments[0].upperBound < RC_BOUND {
      RiskFunctionExact(info.segments, 1);
    }
    if ValidSegments(info.segments) {
      assert info.segments[0].upperBound <= info.segments[|info.segments| - 1].upperBound;
    }
  }

  lemma {:induction false} ConfigStep(infos: seq<SyntheticAssetInfo>, prevAssetId: int)
    requires infos != []
    ensures ValidateAssetsConfig(infos, prevAssetId).Done? <==>
            IsLe(prevAssetId, infos[0].assetId - 1) && ValidateInfo(infos[0]).Done?
            && ValidateAssetsConfig(infos[1..], infos[0].assetId).Done?
  {
    hide ValidateRiskFactorFunction, IsInRange, IsLe, IsNn;
  }

  /** validate_assets_config establishes the configuration the transactions rely on: sorted asset
      ids below 2^120, valid risk functions, quorums and resolutions. When ids lie less than 2^128
      apart, as ids in range do, it accepts nothing less. */
  lemma {:induction false} AssetsConfigExact(infos: seq<SyntheticAssetInfo>, prevAssetId: int, k: nat)
    requires FeltInfos(infos)
    requires -1 <= prevAssetId <= k * RC_BOUND && k + |infos| < MEMORY_BOUND
    ensures ValidateAssetsConfig(infos, prevAssetId).Done? && prevAssetId < ASSET_ID_UPPER_BOUND <==>
            prevAssetId < ASSET_ID_UPPER_BOUND && SortedInfos(infos, prevAssetId)
            && forall i :: 0 <= i < |infos| ==> ValidInfo(infos[i])
    ensures ValidateAssetsConfig(infos, prevAssetId).Done? ==> prevAssetId < ASSET_ID_UPPER_BOUND
    decreases |infos|
  {
    hide ValidInfo, ValidateInfo, IsLe;
    if infos == [] {
      IncreasingStep(prevAssetId, ASSET_ID_UPPER_BOUND, k);
    } else {
      ConfigStep(infos, prevAssetId);
      hide ValidateAssetsConfig;
      IncreasingStep(prevAssetId, infos[0].assetId, k);
      InfoExact(infos[0]);
      var rest := infos[1..];
      assert forall i :: 1 <= i < |infos| ==> infos[i] == rest[i - 1];
      if prevAssetId < infos[0].assetId <= prevAssetId + RC_BOUND {
        AssetsConfigExact(rest, infos[0].assetId, k + 1);
      }
      SortedInfosSplit(infos, prevAssetId);
    }
  }

  lemma {:induction false} SortedInfosSplit(infos: seq<SyntheticAssetInfo>, prevAssetId: int)
    requires infos != []
    ensures SortedInfos(infos, prevAssetId) <==>
            prevAssetId < infos[0].assetId < ASSET_ID_UPPER_BOUND && SortedInfos(infos[1..], infos[0].assetId)
  {
    var rest := infos[1..];
    assert forall i :: 1 <= i < |infos| ==> infos[i] == rest[i - 1];
    if SortedInfos(infos, prevAssetId) {
      forall i, j | 0 <= i < j < |rest|
        ensures rest[i].assetId < rest[j].assetId
      {
        assert infos[i + 1].assetId < infos[j + 1].assetId;
      }
    }
  }

  /** An accepted general configuration is one under which positions can be evaluated. */
  lemma {:induction false} GeneralConfigEstablishes(config: GeneralConfig)
    requires FeltInfos(config.infos) && |config.infos| < MEMORY_BOUND - 1 && IsFelt(config.collateralResolution)
    requires ValidateGeneralConfig(config).Done?
    ensures ValidInfos(config.infos) && SortedInfos(config.infos, -1)
    ensures forall i :: 0 <= i < |config.infos| ==> ValidInfo(config.infos[i])
    ensures ASSET_RESOLUTION_LOWER_BOUND <= config.collateralResolution < ASSET_RESOLUTION_UPPER_BOUND
    ensures |config.infos| < N_ASSETS_UPPER_BOUND
  {
    AssetsConfigExact(config.infos, -1, 0);
  }

  /** A general configuration is accepted if and only if its asset ids climb below 2^120 with valid entries,
      the collateral asset id is below 2^250, its resolution is in range, and the assets are fewer than 2^16. */
  lemma {:induction false} GeneralConfigExact(config: GeneralConfig)
    requires FeltInfos(config.infos) && |config.infos| < MEMORY_BOUND - 1
    requires IsFelt(config.collateralResolution) && IsFelt(config.collateralAssetId)
    ensures ValidateGeneralConfig(config).Done? <==>
            && SortedInfos(config.infos, -1)
            && (forall i :: 0 <= i < |config.infos| ==> ValidInfo(config.infos[i]))
            && 0 <= config.collateralAssetId < COLLATERAL_ASSET_ID_UPPER_BOUND
            && ASSET_RESOLUTION_LOWER_BOUND <= config.collateralResolution < ASSET_RESOLUTION_UPPER_BOUND
            && |config.infos| < N_ASSETS_UPPER_BOUND
  {
    AssetsConfigExact(config.infos, -1, 0);
    hide ValidateAssetsConfig, SortedInfos, ValidInfo;
  }

  // ---- Funding indices ----

  predicate Configured(id: int, infos: seq<SyntheticAssetInfo>) {
    exists j :: 0 <= j < |infos| && infos[j].assetId == id
  }

  lemma {:induction false} ConfiguredTail(id: int, infos: seq<SyntheticAssetInfo>)
    requires infos != []
    ensures Configured(id, infos) <==> infos[0].assetId == id || Configured(id, infos[1..])
  {
    if Configured(id, infos) {
      var j :| 0 <= j < |infos| && infos[j].assetId == id;
      if j > 0 { assert infos[1..][j - 1].assetId == id; }
    }
    if Configured(id, infos[1..]) {
      var j :| 0 <= j < |infos[1..]| && infos[1..][j].assetId == id;
      assert infos[j + 1].assetId == id;
    }
  }

  /** On sorted arrays the one-pass check accepts exactly when every indexed asset is configured. */
  lemma {:induction false} FundingIndicesExact(indices: seq<FundingIndex>, infos: seq<SyntheticAssetInfo>)
    requires SortedIndices(indices)
    requires forall i, j :: 0 <= i < j < |infos| ==> infos[i].assetId < infos[j].assetId
    ensures ValidateFundingIndices(indices, infos).Done? <==>
            forall i :: 0 <= i < |indices| ==> Configured(indices[i].assetId, infos)
    decreases |infos|
  {
    if indices != [] && infos == [] {
      assert !Configured(indices[0].assetId, infos);
    } else if indices != [] {
      var rest := infos[1..];
      forall i | 0 <= i < |indices|
        ensures Configured(indices[i].assetId, infos) <==>
                infos[0].assetId == indices[i].assetId || Configured(indices[i].assetId, rest)
      {
        ConfiguredTail(indices[i].assetId, infos);
      }
      if indices[0].assetId == infos[0].assetId {
        var later := indices[1..];
        FundingIndicesExact(later, rest);
        assert forall i :: 1 <= i < |indices| ==> indices[i] == later[i - 1] && indices[0].assetId < indices[i].assetId;
        assert forall i :: 0 <= i < |later| ==> later[i] == indices[i + 1];
        assert Configured(indices[0].assetId, infos);
        assert forall i :: 1 <= i < |indices| ==>
               (Configured(indices[i].assetId, infos) <==> Configured(indices[i].assetId, rest));
      } else {
        FundingIndicesExact(indices, rest);
        assert forall i :: 1 <= i < |indices| ==> indices[0].assetId < indices[i].assetId;
        if indices[0].assetId < infos[0].assetId {
          assert !Configured(indices[0].assetId, infos) && !Configured(indices[0].assetId, rest);
        } else {
          assert forall i :: 0 <= i < |indices| ==>
                 (Configured(indices[i].assetId, infos) <==> Configured(indices[i].assetId, rest));
        }
      }
    }
  }
}
