/** The leverage rule (position/validate_state_transition.cairo) and the comparison of synthetic
    holdings it uses (position/check_smaller_holdings.cairo). */
module Transition {
  import opened Felt
  import opened PerpetualTypes
  import opened Status
  import opened Arithmetic

  /** check_smaller_in_synthetic_holdings_inner: one pass over both sorted arrays. */
  function CheckSmaller(updated: seq<PositionAsset>, initial: seq<PositionAsset>): ErrorCode {
    if updated == [] then Success
    else if initial == [] then EnlargingSyntheticHoldings
    else if updated[0].assetId != initial[0].assetId then CheckSmaller(updated, initial[1..])
    else
      var u, i := updated[0].balance, initial[0].balance;
      if !IsNn(u * i) then EnlargingSyntheticHoldings
      else if !IsLe(u * u, i * i) then EnlargingSyntheticHoldings
      else CheckSmaller(updated[1..], initial[1..])
  }

  const TWO_224: int := 0x100000000000000000000000000000000000000000000000000000000

  /** check_valid_transition. */
  function CheckValidTransition(updated: Position, initial: Position, prices: seq<OraclePrice>,
                                config: GeneralConfig): Outcome<ErrorCode>
  {
    var s1 :- GetStatus(updated, prices, config);
    if s1.code != Success then Done(s1.code)
    else if IsLe(s1.tr, s1.tv * FXP_32_ONE) then Done(Success)
    else
      var s0 :- GetStatus(initial, prices, config);
      if s0.code != Success then Done(s0.code)
      else
        var code := CheckSmaller(updated.assets, initial.assets);
        if code != Success then Done(code)
        else if !IsLeFelt(TWO_224 + s0.tv * s1.tr, TWO_224 + s1.tv * s0.tr) then
          Done(ReducingTotalValueRiskRatio)
        else if s0.tr == 0 && !IsLe(s0.tv, s1.tv) then Done(NoRiskReducedValue)
        else Done(Success)
  }

  // ---- The rule over the integers ----

  predicate TowardZero(u: int, i: int) {
    u == 0 || (Abs(u) <= Abs(i) && (u > 0 <==> i > 0))
  }

  /** Every synthetic holding is zero, or keeps its sign and does not grow in size. */
  ghost predicate NoLarger(updated: seq<PositionAsset>, initial: seq<PositionAsset>) {
    forall id :: TowardZero(Holding(updated, id), Holding(initial, id))
  }

  ghost predicate WellLeveraged(p: Position, prices: seq<OraclePrice>, config: GeneralConfig)
    requires ValidMarket(prices, config) && AllEvaluable(p.assets, prices, config)
  {
    Risk(p.assets, prices, config) <= Value(p, prices, config) * FXP_32_ONE
  }

  /** Rule 2 of the source: smaller holdings, a value to risk ratio that does not fall, and a value
      that does not fall when there was no risk. */
  ghost predicate Safer(updated: Position, initial: Position, prices: seq<OraclePrice>, config: GeneralConfig)
    requires ValidMarket(prices, config)
    requires AllEvaluable(updated.assets, prices, config) && AllEvaluable(initial.assets, prices, config)
  {
    var tv0, tr0 := Value(initial, prices, config), Risk(initial.assets, prices, config);
    var tv1, tr1 := Value(updated, prices, config), Risk(updated.assets, prices, config);
    && NoLarger(updated.assets, initial.assets)
    && tv0 * tr1 <= tv1 * tr0
    && (tr0 == 0 ==> tv0 <= tv1)
  }

  ghost predicate LegalTransition(updated: Position, initial: Position, prices: seq<OraclePrice>, config: GeneralConfig)
    requires ValidMarket(prices, config)
  {
    && StatusInRange(updated, prices, config)
    && (|| WellLeveraged(updated, prices, config)
        || (StatusInRange(initial, prices, config) && Safer(updated, initial, prices, config)))
  }

  // ---- The two-pointer pass decides NoLarger ----

  lemma {:induction false} SquareOrder(u: int, i: int)
    ensures u * u <= i * i <==> Abs(u) <= Abs(i)
  {
    var a, b := Abs(u), Abs(i);
    assert u * u == a * a && i * i == b * b;
    if a <= b { assert a * a <= a * b <= b * b; }
    else { assert b * b <= a * b; assert a * b < a * a; }
  }

  lemma {:induction false} SignOfProduct(u: int, i: int)
    requires u != 0 && i != 0
    ensures u * i >= 0 <==> (u > 0 <==> i > 0)
  {
    if u > 0 && i > 0 { assert u * i > 0; }
    else if u < 0 && i < 0 { assert u * i == (-u) * (-i); assert (-u) * (-i) > 0; }
    else if u > 0 { assert u * (-i) > 0; }
    else { assert (-u) * i > 0; }
  }

  /** For balances in range the two field comparisons decide sign and size. */
  lemma {:induction false} BalanceComparison(u: int, i: int)
    requires u != 0 && i != 0 && ValidBalance(u) && ValidBalance(i)
    ensures IsNn(u * i) && IsLe(u * u, i * i) <==> TowardZero(u, i)
  {
    var m := 0x8000000000000000;
    ProductBound(u, i, m, m);
    ProductBound(u, u, m, m);
    ProductBound(i, i, m, m);
    SquareOrder(u, i);
    SignOfProduct(u, i);
  }

  lemma {:induction false} HoldingTail(a: seq<PositionAsset>, id: int)
    requires a != [] && SortedAssets(a)
    ensures id != a[0].assetId ==> Holding(a, id) == Holding(a[1..], id)
    ensures id == a[0].assetId ==> Holding(a, id) == a[0].balance && Holding(a[1..], id) == 0
  {
    HoldingAbsent(a[1..], a[0].assetId);
  }

  predicate Balances(assets: seq<PositionAsset>) {
    SortedAssets(assets)
    && forall i :: 0 <= i < |assets| ==> assets[i].balance != 0 && ValidBalance(assets[i].balance)
  }

  /** The two-pointer pass accepts exactly when no holding grows or changes sign. */
  lemma {:induction false} CheckSmallerExact(updated: seq<PositionAsset>, initial: seq<PositionAsset>)
    requires Balances(updated) && Balances(initial)
    ensures CheckSmaller(updated, initial) == Success <==> NoLarger(updated, initial)
    decreases |initial|
  {
    if updated == [] {
    } else if initial == [] {
      HoldingTail(updated, updated[0].assetId);
      assert !TowardZero(Holding(updated, updated[0].assetId), Holding(initial, updated[0].assetId));
    } else if updated[0].assetId != initial[0].assetId {
      CheckSmallerExact(updated, initial[1..]);
      if updated[0].assetId < initial[0].assetId {
        // The updated array holds an id the initial one has passed: both sides fail.
        var id := updated[0].assetId;
        HoldingTail(updated, id);
        HoldingAbsent(initial, id);
        HoldingAbsent(initial[1..], id);
        assert !TowardZero(Holding(updated, id), Holding(initial, id));
        assert !TowardZero(Holding(updated, id), Holding(initial[1..], id));
      } else {
        HoldingAbsent(updated, initial[0].assetId);
        forall id
          ensures TowardZero(Holding(updated, id), Holding(initial, id))
                  <==> TowardZero(Holding(updated, id), Holding(initial[1..], id))
        {
          HoldingTail(initial, id);
        }
      }
    } else {
      var first := updated[0].assetId;
      BalanceComparison(updated[0].balance, initial[0].balance);
      CheckSmallerExact(updated[1..], initial[1..]);
      HoldingTail(updated, first);
      HoldingTail(initial, first);
      assert TowardZero(Holding(updated, first), Holding(initial, first))
        <==> TowardZero(updated[0].balance, initial[0].balance);
      forall id | id != first
        ensures TowardZero(Holding(updated, id), Holding(initial, id))
                <==> TowardZero(Holding(updated[1..], id), Holding(initial[1..], id))
      {
        HoldingTail(updated, id);
        HoldingTail(initial, id);
      }
    }
  }

  // ---- The field computation decides the integer rule ----

  lemma {:induction false} LeverageComparison(tv: int, tr: int)
    requires TV_LOWER_REP <= tv < TV_UPPER_REP && 0 <= tr < TR_UPPER_REP
    ensures IsLe(tr, tv * FXP_32_ONE) <==> tr <= tv * FXP_32_ONE
  {
  }

  lemma {:induction false} RatioComparison(tv0: int, tr0: int, tv1: int, tr1: int)
    requires TV_LOWER_REP <= tv0 < TV_UPPER_REP && 0 <= tr0 < TR_UPPER_REP
    requires TV_LOWER_REP <= tv1 < TV_UPPER_REP && 0 <= tr1 < TR_UPPER_REP
    ensures IsLeFelt(TWO_224 + tv0 * tr1, TWO_224 + tv1 * tr0) <==> tv0 * tr1 <= tv1 * tr0
    ensures -TWO_224 < tv0 * tr1 < TWO_224 && -TWO_224 < tv1 * tr0 < TWO_224
  {
    var m, n := TV_UPPER_REP, TR_UPPER_REP;
    ProductBound(tv0, tr1, m, n);
    ProductBound(tv1, tr0, m, n);
    assert m * n == 0x80000000000000000000000000000000000000000000000000000000;
  }

  /** check_valid_transition, computed on field elements, accepts exactly the legal transitions
      over the integers. */
  lemma {:induction false} TransitionExact(updated: Position, initial: Position, prices: seq<OraclePrice>,
                                           config: GeneralConfig)
    requires ValidMarket(prices, config)
    requires InRangeAssets(updated.assets) && ValidBalance(updated.collateral)
    requires InRangeAssets(initial.assets) && ValidBalance(initial.collateral)
    ensures CheckValidTransition(updated, initial, prices, config) == Done(Success)
            <==> LegalTransition(updated, initial, prices, config)
  {
    StatusExact(updated, prices, config);
    StatusExact(initial, prices, config);
    if StatusInRange(updated, prices, config) {
      RiskBound(updated.assets, prices, config);
      LeverageComparison(Value(updated, prices, config), Risk(updated.assets, prices, config));
      if StatusInRange(initial, prices, config) {
        RiskBound(initial.assets, prices, config);
        CheckSmallerExact(updated.assets, initial.assets);
        RatioComparison(Value(initial, prices, config), Risk(initial.assets, prices, config),
                        Value(updated, prices, config), Risk(updated.assets, prices, config));
      }
    }
  }

  // ---- Chains of updates ----

  /** Ratio comparison is transitive as long as zero risk in the middle implies zero risk after. */
  lemma {:induction false} RatioTransitive(tv0: int, tr0: int, tv1: int, tr1: int, tv2: int, tr2: int)
    requires 0 <= tr0 && 0 <= tr1 && 0 <= tr2
    requires tv0 * tr1 <= tv1 * tr0 && tv1 * tr2 <= tv2 * tr1
    requires tr1 == 0 ==> tr2 == 0 && tv1 <= tv2
    ensures tv0 * tr2 <= tv2 * tr0
  {
    if tr1 > 0 {
      ScaleNonNegative(tv0 * tr1, tv1 * tr0, tr2);
      ScaleNonNegative(tv1 * tr2, tv2 * tr1, tr0);
      assert (tv0 * tr2) * tr1 == (tv0 * tr1) * tr2;
      assert (tv1 * tr0) * tr2 == (tv1 * tr2) * tr0;
      assert (tv2 * tr0) * tr1 == (tv2 * tr1) * tr0;
      CancelPositive(tv0 * tr2, tv2 * tr0, tr1);
    } else {
      assert tv0 * tr1 == 0;
      ScaleNonNegative(tv1, tv2, tr0);
    }
  }

  lemma {:induction false} NoHoldingsNoAssets(assets: seq<PositionAsset>)
    requires Balances(assets) && forall id :: Holding(assets, id) == 0
    ensures assets == []
  {
    if assets != [] {
      HoldingTail(assets, assets[0].assetId);
    }
  }

  /** The second rule is a preorder: composing two such updates gives such an update, also
      through positions without risk. */
  lemma {:induction false} SaferTransitive(p0: Position, p1: Position, p2: Position, prices: seq<OraclePrice>,
                                           config: GeneralConfig)
    requires ValidMarket(prices, config)
    requires Balances(p0.assets) && Balances(p1.assets) && Balances(p2.assets)
    requires AllEvaluable(p0.assets, prices, config) && AllEvaluable(p1.assets, prices, config)
    requires AllEvaluable(p2.assets, prices, config)
    requires Safer(p1, p0, prices, config) && Safer(p2, p1, prices, config)
    ensures Safer(p2, p0, prices, config)
  {
    forall id
      ensures TowardZero(Holding(p2.assets, id), Holding(p0.assets, id))
    {
      assert TowardZero(Holding(p1.assets, id), Holding(p0.assets, id));
      assert TowardZero(Holding(p2.assets, id), Holding(p1.assets, id));
    }
    RiskBound(p0.assets, prices, config);
    RiskBound(p1.assets, prices, config);
    RiskBound(p2.assets, prices, config);
    if p1.assets == [] { ShrinksToNothing(p2.assets, p1.assets); }
    if p0.assets == [] { ShrinksToNothing(p1.assets, p0.assets); }
    RatioTransitive(Value(p0, prices, config), Risk(p0.assets, prices, config),
                    Value(p1, prices, config), Risk(p1.assets, prices, config),
                    Value(p2, prices, config), Risk(p2.assets, prices, config));
  }

  lemma {:induction false} ShrinksToNothing(updated: seq<PositionAsset>, initial: seq<PositionAsset>)
    requires Balances(updated) && NoLarger(updated, initial) && initial == []
    ensures updated == []
  {
    forall id
      ensures Holding(updated, id) == 0
    {
      assert TowardZero(Holding(updated, id), Holding(initial, id));
    }
    NoHoldingsNoAssets(updated);
  }

  /** Staying the same is never refused. */
  lemma {:induction false} SaferReflexive(p: Position, prices: seq<OraclePrice>, config: GeneralConfig)
    requires ValidMarket(prices, config) && AllEvaluable(p.assets, prices, config)
    ensures Safer(p, p, prices, config)
  {
  }
}
