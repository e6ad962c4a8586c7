/** Total value and total risk of a position (position/status.cairo) and the risk factor step
    function (definitions/general_config.cairo). */
module Status {
  import opened Felt
  import opened Options
  import opened PerpetualTypes
  import opened Arithmetic

  /** The prover's choice of a segment: the first one that covers the amount. */
  function SegmentHint(segments: seq<RiskFactorSegment>, amount: int): nat
    requires |segments| > 0
  {
    if |segments| == 1 || amount <= segments[0].upperBound then 0
    else 1 + SegmentHint(segments[1..], amount)
  }

  /** The asserts of get_risk_factor on the guessed segment index. */
  predicate SegmentAccepted(segments: seq<RiskFactorSegment>, amount: int, idx: int) {
    && IsNnLe(idx, |segments| - 1)
    && 0 <= idx < |segments|
    && (idx != 0 ==> IsLe(segments[idx - 1].upperBound, amount - 1))
    && IsLe(amount, segments[idx].upperBound)
  }

  function RiskAmount(byBalance: bool, absBalance: int, price: int): int {
    if byBalance then absBalance else absBalance * price
  }

  /** get_risk_factor, run with the honest hint. */
  function GetRiskFactor(segments: seq<RiskFactorSegment>, byBalance: bool, absBalance: int, price: int)
    : Outcome<int>
  {
    if IsNnLe(absBalance, BALANCE_UPPER_BOUND - 1) && IsNnLe(price, PRICE_UPPER_BOUND - 1) && |segments| > 0 then
      var amount := RiskAmount(byBalance, absBalance, price);
      var idx := SegmentHint(segments, amount);
      if idx < |segments| && SegmentAccepted(segments, amount, idx) then Done(segments[idx].risk) else Abort
    else Abort
  }

  /** The risk step function itself. */
  function RiskAt(segments: seq<RiskFactorSegment>, amount: int): int
    requires |segments| > 0
  {
    if |segments| == 1 || amount <= segments[0].upperBound then segments[0].risk
    else RiskAt(segments[1..], amount)
  }

  lemma {:induction false} HintCovers(segments: seq<RiskFactorSegment>, amount: int)
    requires |segments| > 0
    requires forall i, j :: 0 <= i < j < |segments| ==> segments[i].upperBound < segments[j].upperBound
    requires amount <= segments[|segments| - 1].upperBound
    ensures var k := SegmentHint(segments, amount);
      && k < |segments|
      && segments[k].risk == RiskAt(segments, amount)
      && amount <= segments[k].upperBound
      && (k != 0 ==> segments[k - 1].upperBound < amount)
  {
    if |segments| > 1 && segments[0].upperBound < amount {
      HintCovers(segments[1..], amount);
    }
  }

  /** Upper bounds are distinct naturals below 2^128, so there are at most 2^128 segments. */
  lemma {:induction false} IndexBelowUpperBound(segments: seq<RiskFactorSegment>, i: nat)
    requires ValidSegments(segments) && i < |segments|
    ensures i <= segments[i].upperBound < RISK_FACTOR_SEGMENT_UPPER_BOUND
  {
    if i > 0 { IndexBelowUpperBound(segments, i - 1); }
    if i < |segments| - 1 { assert segments[i].upperBound < segments[|segments| - 1].upperBound; }
  }

  /** The asserts pin the segment down: whatever index the prover supplies, on a validated step
      function it is the covering segment, so the risk factor is a function of the amount. */
  lemma {:induction false} RiskFactorUnique(segments: seq<RiskFactorSegment>, amount: int, idx: int)
    requires ValidSegments(segments) && 0 <= amount < RISK_FACTOR_SEGMENT_UPPER_BOUND
    ensures SegmentAccepted(segments, amount, idx) <==> idx == SegmentHint(segments, amount)
    ensures SegmentAccepted(segments, amount, idx) ==> segments[idx].risk == RiskAt(segments, amount)
  {
    HintCovers(segments, amount);
    var k := SegmentHint(segments, amount);
    IndexBelowUpperBound(segments, |segments| - 1);
    IndexBelowUpperBound(segments, k);
    if k != 0 { IndexBelowUpperBound(segments, k - 1); }
    assert forall i, j :: 0 <= i <= j < |segments| ==> segments[i].upperBound <= segments[j].upperBound;
    if SegmentAccepted(segments, amount, idx) {
      IndexBelowUpperBound(segments, idx);
      if idx != 0 { IndexBelowUpperBound(segments, idx - 1); }
    }
  }

  lemma {:induction false} RiskAtInRange(segments: seq<RiskFactorSegment>, amount: int)
    requires |segments| > 0
    requires forall i :: 0 <= i < |segments| ==> RISK_LOWER_BOUND <= segments[i].risk < RISK_UPPER_BOUND
    ensures RISK_LOWER_BOUND <= RiskAt(segments, amount) < RISK_UPPER_BOUND
  {
    if |segments| > 1 && segments[0].upperBound < amount {
      RiskAtInRange(segments[1..], amount);
    }
  }

  // ---- position_get_status ----

  /** position_get_status_inner, with its two accumulators. */
  function StatusInner(assets: seq<PositionAsset>, prices: seq<OraclePrice>, config: GeneralConfig, tv: int, tr: int)
    : Outcome<(int, int)>
  {
    if assets == [] then Done((tv, tr))
    else
      match FindPrice(prices, assets[0].assetId)
      case None => Abort
      case Some(price) =>
        match FindInfo(config.infos, assets[0].assetId)
        case None => Abort
        case Some(info) =>
          var absBalance := Abs(assets[0].balance);
          var risk :- GetRiskFactor(info.segments, config.isRiskByBalanceOnly, absBalance, price);
          StatusInner(assets[1..], prices, config,
                      tv + price * assets[0].balance, tr + price * absBalance * risk)
  }

  datatype PositionStatus = PositionStatus(tv: int, tr: int, code: ErrorCode)

  const TV_LOWER_REP: int := -0x800000000000000000000000
  const TV_UPPER_REP: int := 0x800000000000000000000000
  const TR_UPPER_REP: int := 0x100000000000000000000000000000000

  /** position_get_status. */
  function GetStatus(p: Position, prices: seq<OraclePrice>, config: GeneralConfig): Outcome<PositionStatus> {
    var (tv, tr) :- StatusInner(p.assets, prices, config, p.collateral * FXP_32_ONE, 0);
    if !IsInRange(tv, TV_LOWER_REP, TV_UPPER_REP) then Done(PositionStatus(0, 0, OutOfRangeTotalValue))
    else if !IsLe(tr, TR_UPPER_REP - 1) then Done(PositionStatus(0, 0, OutOfRangeTotalRisk))
    else Done(PositionStatus(tv, tr, Success))
  }

  // ---- Value and risk as sums over the integers ----

  /** The asset can be evaluated: it is priced, configured and its balance is not -2^63. */
  predicate Evaluable(a: PositionAsset, prices: seq<OraclePrice>, config: GeneralConfig) {
    && FindPrice(prices, a.assetId).Some?
    && FindInfo(config.infos, a.assetId).Some?
    && BALANCE_LOWER_BOUND < a.balance
  }

  predicate AllEvaluable(assets: seq<PositionAsset>, prices: seq<OraclePrice>, config: GeneralConfig) {
    forall i :: 0 <= i < |assets| ==> Evaluable(assets[i], prices, config)
  }

  function AssetValue(a: PositionAsset, prices: seq<OraclePrice>): int
    requires FindPrice(prices, a.assetId).Some?
  {
    FindPrice(prices, a.assetId).value * a.balance
  }

  function AssetRisk(a: PositionAsset, prices: seq<OraclePrice>, config: GeneralConfig): int
    requires Evaluable(a, prices, config) && ValidInfos(config.infos)
  {
    var price := FindPrice(prices, a.assetId).value;
    var info := FindInfo(config.infos, a.assetId).value;
    if |info.segments| == 0 then 0
    else price * Abs(a.balance) * RiskAt(info.segments, RiskAmount(config.isRiskByBalanceOnly, Abs(a.balance), price))
  }

  function SyntheticValue(assets: seq<PositionAsset>, prices: seq<OraclePrice>, config: GeneralConfig): int
    requires AllEvaluable(assets, prices, config)
  {
    if assets == [] then 0
    else AssetValue(assets[0], prices) + SyntheticValue(assets[1..], prices, config)
  }

  function Risk(assets: seq<PositionAsset>, prices: seq<OraclePrice>, config: GeneralConfig): int
    requires AllEvaluable(assets, prices, config) && ValidInfos(config.infos)
  {
    if assets == [] then 0
    else AssetRisk(assets[0], prices, config) + Risk(assets[1..], prices, config)
  }

  function Value(p: Position, prices: seq<OraclePrice>, config: GeneralConfig): int
    requires AllEvaluable(p.assets, prices, config)
  {
    p.collateral * FXP_32_ONE + SyntheticValue(p.assets, prices, config)
  }

  /** The market parameters under which positions are evaluated. */
  predicate ValidMarket(prices: seq<OraclePrice>, config: GeneralConfig) {
    ValidPrices(prices) && ValidInfos(config.infos)
  }

  /** Balances as check_valid_balance admits them: -2^63 included. */
  predicate InRangeAssets(assets: seq<PositionAsset>) {
    && SortedAssets(assets)
    && |assets| <= POSITION_MAX_SUPPORTED_N_ASSETS
    && forall i :: 0 <= i < |assets| ==> assets[i].balance != 0 && ValidBalance(assets[i].balance)
  }

  const VALUE_PER_ASSET: int := 0x80000000000000000000000000000000
  const RISK_PER_ASSET: int := 0x8000000000000000000000000000000000000000

  lemma {:induction false} AssetBounds(a: PositionAsset, prices: seq<OraclePrice>, config: GeneralConfig)
    requires ValidMarket(prices, config) && a.balance != 0 && ValidBalance(a.balance)
    requires Evaluable(a, prices, config)
    ensures -VALUE_PER_ASSET <= AssetValue(a, prices) <= VALUE_PER_ASSET
    ensures 1 <= AssetRisk(a, prices, config) <= RISK_PER_ASSET
    ensures GetRiskFactor(FindInfo(config.infos, a.assetId).value.segments, config.isRiskByBalanceOnly,
                          Abs(a.balance), FindPrice(prices, a.assetId).value).Done?
    ensures AssetRisk(a, prices, config) ==
            FindPrice(prices, a.assetId).value * Abs(a.balance) *
            GetRiskFactor(FindInfo(config.infos, a.assetId).value.segments, config.isRiskByBalanceOnly,
                          Abs(a.balance), FindPrice(prices, a.assetId).value).value
  {
    var price := FindPrice(prices, a.assetId).value;
    var _ := FindPriceWitness(prices, a.assetId);
    var k := FindInfoWitness(config.infos, a.assetId);
    var segments := config.infos[k].segments;
    var b := Abs(a.balance);
    ProductBound(price, a.balance, 0x10000000000000000, 0x8000000000000000);
    AmountBounds(price, b);
    var amount := RiskAmount(config.isRiskByBalanceOnly, b, price);
    HintCovers(segments, amount);
    RiskFactorUnique(segments, amount, SegmentHint(segments, amount));
    var r := RiskAt(segments, amount);
    RiskAtInRange(segments, amount);
    RiskBounds(price * b, r);
  }

  lemma {:induction false} AmountBounds(price: int, b: int)
    requires 1 <= price < PRICE_UPPER_BOUND && 1 <= b < BALANCE_UPPER_BOUND
    ensures 1 <= price * b < 0x80000000000000000000000000000000
    ensures b * price == price * b
  {
    assert price * b >= 1 * b;
    assert price * b <= 0x10000000000000000 * b;
  }

  lemma {:induction false} RiskBounds(v: int, r: int)
    requires 1 <= v < 0x80000000000000000000000000000000 && 1 <= r < RISK_UPPER_BOUND
    ensures 1 <= v * r <= RISK_PER_ASSET
  {
    PositiveProduct(v, r);
    var m, n := 0x80000000000000000000000000000000, 0x100000000;
    ProductBound(v, r, m, n);
    assert m * n == RISK_PER_ASSET;
  }

  /** Total risk is zero exactly for positions without synthetic assets: prices and risk factors
      are at least 1 and no stored balance is zero. */
  lemma {:induction false} RiskBound(assets: seq<PositionAsset>, prices: seq<OraclePrice>, config: GeneralConfig)
    requires ValidMarket(prices, config) && AllEvaluable(assets, prices, config)
    requires forall i :: 0 <= i < |assets| ==> assets[i].balance != 0 && ValidBalance(assets[i].balance)
    ensures |assets| <= Risk(assets, prices, config) <= |assets| * RISK_PER_ASSET
    ensures -|assets| * VALUE_PER_ASSET <= SyntheticValue(assets, prices, config) <= |assets| * VALUE_PER_ASSET
  {
    if assets != [] {
      AssetBounds(assets[0], prices, config);
      RiskBound(assets[1..], prices, config);
    }
  }

  lemma {:induction false} AbortsOnUnevaluable(a: PositionAsset, prices: seq<OraclePrice>, config: GeneralConfig)
    requires ValidBalance(a.balance) && !(BALANCE_LOWER_BOUND < a.balance)
    requires FindInfo(config.infos, a.assetId).Some? && FindPrice(prices, a.assetId).Some?
    ensures GetRiskFactor(FindInfo(config.infos, a.assetId).value.segments, config.isRiskByBalanceOnly,
                          Abs(a.balance), FindPrice(prices, a.assetId).value).Abort?
  {
  }

  /** The accumulators of position_get_status_inner add up value and risk, and it fails exactly
      when some asset cannot be evaluated. */
  lemma {:induction false} StatusInnerExact(assets: seq<PositionAsset>, prices: seq<OraclePrice>,
                                            config: GeneralConfig, tv: int, tr: int)
    requires ValidMarket(prices, config)
    requires forall i :: 0 <= i < |assets| ==> assets[i].balance != 0 && ValidBalance(assets[i].balance)
    ensures StatusInner(assets, prices, config, tv, tr) ==
            if AllEvaluable(assets, prices, config)
            then Done((tv + SyntheticValue(assets, prices, config), tr + Risk(assets, prices, config)))
            else Abort
  {
    if assets != [] {
      var a := assets[0];
      var rest := assets[1..];
      if Evaluable(a, prices, config) {
        AssetBounds(a, prices, config);
        StatusInnerExact(rest, prices, config, tv + AssetValue(a, prices), tr + AssetRisk(a, prices, config));
        if AllEvaluable(rest, prices, config) {
          assert AllEvaluable(assets, prices, config);
        } else {
          var i :| 0 <= i < |rest| && !Evaluable(rest[i], prices, config);
          assert !Evaluable(assets[i + 1], prices, config);
        }
      } else if FindInfo(config.infos, a.assetId).Some? && FindPrice(prices, a.assetId).Some? {
        AbortsOnUnevaluable(a, prices, config);
      }
    }
  }

  predicate StatusInRange(p: Position, prices: seq<OraclePrice>, config: GeneralConfig)
    requires ValidMarket(prices, config)
  {
    && AllEvaluable(p.assets, prices, config)
    && TV_LOWER_REP <= Value(p, prices, config) < TV_UPPER_REP
    && Risk(p.assets, prices, config) < TR_UPPER_REP
  }

  /** position_get_status, computed modulo P, succeeds exactly when value and risk are defined
      and in range over the integers, and then it returns them. */
  lemma {:induction false} StatusExact(p: Position, prices: seq<OraclePrice>, config: GeneralConfig)
    requires ValidMarket(prices, config) && InRangeAssets(p.assets) && ValidBalance(p.collateral)
    ensures GetStatus(p, prices, config).Done? <==> AllEvaluable(p.assets, prices, config)
    ensures GetStatus(p, prices, config).Done? ==>
              (GetStatus(p, prices, config).value.code == Success <==> StatusInRange(p, prices, config))
    ensures StatusInRange(p, prices, config) ==>
              GetStatus(p, prices, config) ==
              Done(PositionStatus(Value(p, prices, config), Risk(p.assets, prices, config), Success))
  {
    StatusInnerExact(p.assets, prices, config, p.collateral * FXP_32_ONE, 0);
    if AllEvaluable(p.assets, prices, config) {
      RiskBound(p.assets, prices, config);
    }
  }
}
