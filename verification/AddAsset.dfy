/** Changing one synthetic balance of a position (position/add_asset.cairo): the sorted asset
    array behaves as a map from asset id to balance in which zero balances do not occur. */
module AddAsset {
  import opened Felt
  import opened Options
  import opened PerpetualTypes
  import opened Funding
  import Status

  /** A computation that reports a return code instead of a value. */
  datatype Checked<+T> = Good(value: T) | Bad(code: ErrorCode)

  /** check_valid_balance: for every operand that a stored balance and a felt can add up to, the
      two range checks decide the signed 64-bit range. */
  predicate CheckValidBalance(balance: int)
    ensures BALANCE_LOWER_BOUND - HALF <= balance <= BALANCE_UPPER_BOUND + HALF ==>
              (CheckValidBalance(balance) <==> ValidBalance(balance))
  {
    IsNnLe(balance - BALANCE_LOWER_BOUND, BALANCE_UPPER_BOUND - BALANCE_LOWER_BOUND - 1)
  }

  /** search_sorted_lower: the first position whose id is at least `id`. */
  function LowerBound(assets: seq<PositionAsset>, id: int): (k: nat)
    ensures k <= |assets|
    ensures forall i :: 0 <= i < k ==> assets[i].assetId < id
    ensures k < |assets| ==> id <= assets[k].assetId
  {
    if assets == [] || id <= assets[0].assetId then 0 else 1 + LowerBound(assets[1..], id)
  }

  function LeftPart(assets: seq<PositionAsset>, id: int): seq<PositionAsset> {
    assets[..LowerBound(assets, id)]
  }

  predicate Found(assets: seq<PositionAsset>, id: int) {
    var k := LowerBound(assets, id);
    k < |assets| && assets[k].assetId == id
  }

  function Prior(assets: seq<PositionAsset>, id: int): seq<PositionAsset> {
    if Found(assets, id) then [assets[LowerBound(assets, id)]] else []
  }

  function RightPart(assets: seq<PositionAsset>, id: int): seq<PositionAsset> {
    assets[if Found(assets, id) then LowerBound(assets, id) + 1 else LowerBound(assets, id)..]
  }

  /** get_old_asset: balance and funding index the change starts from. */
  function GetOldAsset(assets: seq<PositionAsset>, k: nat, found: bool, indices: seq<FundingIndex>, id: int)
    : Checked<(int, int)>
    requires found ==> k < |assets|
  {
    if found then Good((assets[k].balance, assets[k].cachedFundingIndex))
    else
      match FindIndex(indices, id)
      case None => Bad(MissingGlobalFundingIndex)
      case Some(index) => Good((0, index))
  }

  /** add_asset_inner: splits the array around `id` and rebuilds it. */
  function AddAssetInner(assets: seq<PositionAsset>, indices: seq<FundingIndex>, id: int, delta: int)
    : Checked<seq<PositionAsset>>
  {
    match GetOldAsset(assets, LowerBound(assets, id), Found(assets, id), indices, id)
    case Bad(code) => Bad(code)
    case Good((balance, index)) =>
      if !CheckValidBalance(balance + delta) then Bad(OutOfRangeBalance)
      else if balance + delta == 0 then Good(LeftPart(assets, id) + RightPart(assets, id))
      else Good(LeftPart(assets, id) + [PositionAsset(id, balance + delta, index)] + RightPart(assets, id))
  }

  /** position_add_asset. */
  function PositionAddAsset(p: Position, indices: seq<FundingIndex>, id: int, delta: int, publicKey: int)
    : Checked<Position>
  {
    if delta == 0 then Good(p)
    else
      match AddAssetInner(p.assets, indices, id, delta)
      case Bad(code) => Bad(code)
      case Good(assets) =>
        if |assets| == POSITION_MAX_SUPPORTED_N_ASSETS + 1 then Bad(TooManySyntheticAssets)
        else Good(Position(publicKey, p.collateral, assets, p.fundingTimestamp))
  }

  lemma {:induction false} FindAssetConcat(a: seq<PositionAsset>, b: seq<PositionAsset>, id: int)
    ensures FindAsset(a + b, id) == if FindAsset(a, id).Some? then FindAsset(a, id) else FindAsset(b, id)
  {
    if a == [] {
      assert a + b == b;
    } else {
      assert (a + b)[1..] == a[1..] + b;
      FindAssetConcat(a[1..], b, id);
    }
  }

  /** The middle of the rebuilt array: the changed asset, or nothing when its balance is zero. */
  function Middle(id: int, balance: int, index: int): seq<PositionAsset> {
    if balance == 0 then [] else [PositionAsset(id, balance, index)]
  }

  lemma {:induction false} SplitConcat(assets: seq<PositionAsset>, id: int)
    ensures assets == LeftPart(assets, id) + Prior(assets, id) + RightPart(assets, id)
  {
    var k := LowerBound(assets, id);
    if Found(assets, id) {
      assert assets == assets[..k] + [assets[k]] + assets[k + 1..];
    } else {
      assert assets == assets[..k] + [] + assets[k..];
    }
  }

  lemma {:induction false} SplitOrder(assets: seq<PositionAsset>, id: int)
    requires SortedAssets(assets)
    ensures SortedAssets(LeftPart(assets, id)) && SortedAssets(RightPart(assets, id))
    ensures forall i :: 0 <= i < |Prior(assets, id)| ==> Prior(assets, id)[i].assetId == id
    ensures forall i :: 0 <= i < |LeftPart(assets, id)| ==> LeftPart(assets, id)[i].assetId < id
    ensures forall i :: 0 <= i < |RightPart(assets, id)| ==> id < RightPart(assets, id)[i].assetId
  {
    var k := LowerBound(assets, id);
    var right := RightPart(assets, id);
    var n := if Found(assets, id) then k + 1 else k;
    forall i | 0 <= i < |right|
      ensures id < right[i].assetId
    {
      assert right[i] == assets[n + i];
      if n + i > k { assert assets[k].assetId < assets[n + i].assetId; }
    }
  }

  /** The lower bound finds the asset exactly when the array holds it. */
  lemma {:induction false} FoundIsHeld(assets: seq<PositionAsset>, id: int)
    requires SortedAssets(assets)
    ensures Found(assets, id) <==> FindAsset(assets, id).Some?
    ensures Found(assets, id) ==>
              && FindAsset(assets, id) == Some(assets[LowerBound(assets, id)])
              && Holding(assets, id) == assets[LowerBound(assets, id)].balance
    ensures !Found(assets, id) ==> Holding(assets, id) == 0
  {
    var k := LowerBound(assets, id);
    if Found(assets, id) {
      HoldingAt(assets, k);
    } else {
      forall i | 0 <= i < |assets|
        ensures assets[i].assetId != id
      {
        if k < i { assert assets[k].assetId < assets[i].assetId; }
      }
      FindAssetAbsent(assets, id);
      HoldingAbsent(assets, id);
    }
  }

  /** Replacing the middle of a split array changes that id only. */
  lemma {:induction false} ReplaceMiddle(left: seq<PositionAsset>, prior: seq<PositionAsset>, mid: seq<PositionAsset>,
                      right: seq<PositionAsset>, id: int)
    requires forall i :: 0 <= i < |left| ==> left[i].assetId < id
    requires forall i :: 0 <= i < |right| ==> id < right[i].assetId
    requires forall i :: 0 <= i < |prior| ==> prior[i].assetId == id
    requires forall i :: 0 <= i < |mid| ==> mid[i].assetId == id
    ensures forall x :: x != id ==>
              && Holding(left + mid + right, x) == Holding(left + prior + right, x)
              && FindAsset(left + mid + right, x) == FindAsset(left + prior + right, x)
    ensures Holding(left + mid + right, id) == Holding(mid, id)
    ensures FindAsset(left + mid + right, id) == FindAsset(mid, id)
  {
    forall x
      ensures Holding(left + mid + right, x) == Holding(left, x) + Holding(mid, x) + Holding(right, x)
      ensures Holding(left + prior + right, x) == Holding(left, x) + Holding(prior, x) + Holding(right, x)
      ensures x != id ==> Holding(mid, x) == 0 && Holding(prior, x) == 0
      ensures x != id ==> FindAsset(left + mid + right, x) == FindAsset(left + prior + right, x)
    {
      HoldingConcat(left + mid, right, x);
      HoldingConcat(left, mid, x);
      HoldingConcat(left + prior, right, x);
      HoldingConcat(left, prior, x);
      FindAssetConcat(left + mid, right, x);
      FindAssetConcat(left, mid, x);
      FindAssetConcat(left + prior, right, x);
      FindAssetConcat(left, prior, x);
      if x != id {
        HoldingAbsent(mid, x);
        HoldingAbsent(prior, x);
        FindAssetAbsent(mid, x);
        FindAssetAbsent(prior, x);
      }
    }
    HoldingAbsent(left, id);
    HoldingAbsent(right, id);
    FindAssetAbsent(left, id);
    FindAssetAbsent(right, id);
    FindAssetConcat(left + mid, right, id);
    FindAssetConcat(left, mid, id);
  }

  /** The funding index a changed asset carries: its cached one, or the global one when it is new. */
  function StartIndex(assets: seq<PositionAsset>, indices: seq<FundingIndex>, id: int): int {
    if FindAsset(assets, id).Some? then FindAsset(assets, id).value.cachedFundingIndex else IndexOr0(indices, id)
  }

  lemma {:induction false} AddAssetInnerShape(assets: seq<PositionAsset>, indices: seq<FundingIndex>, id: int,
                                              delta: felt)
    requires Status.InRangeAssets(assets)
    ensures var balance := Holding(assets, id) + delta;
      AddAssetInner(assets, indices, id, delta).Good? <==>
        (FindAsset(assets, id).Some? || FindIndex(indices, id).Some?) && ValidBalance(balance)
    ensures var balance := Holding(assets, id) + delta;
      AddAssetInner(assets, indices, id, delta).Good? ==>
        AddAssetInner(assets, indices, id, delta).value ==
        LeftPart(assets, id) + Middle(id, balance, StartIndex(assets, indices, id)) + RightPart(assets, id)
  {
    hide SortedAssets, LeftPart, RightPart;
    FoundIsHeld(assets, id);
    assert ValidBalance(Holding(assets, id));
    assert LeftPart(assets, id) + [] + RightPart(assets, id) == LeftPart(assets, id) + RightPart(assets, id);
  }

  lemma {:induction false} ConcatSorted(left: seq<PositionAsset>, mid: seq<PositionAsset>, right: seq<PositionAsset>,
                                        id: int)
    requires SortedAssets(left) && SortedAssets(right)
    requires forall i :: 0 <= i < |left| ==> left[i].assetId < id
    requires forall i :: 0 <= i < |right| ==> id < right[i].assetId
    requires |mid| <= 1 && forall i :: 0 <= i < |mid| ==> mid[i].assetId == id
    ensures SortedAssets(left + mid + right)
  {
  }

  /** The rebuilt array is sorted and holds the old entries apart from `id`. */
  lemma {:induction false} RebuiltSorted(assets: seq<PositionAsset>, mid: seq<PositionAsset>, id: int)
    requires SortedAssets(assets)
    requires |mid| <= 1 && forall i :: 0 <= i < |mid| ==> mid[i].assetId == id
    ensures var r := LeftPart(assets, id) + mid + RightPart(assets, id);
      && SortedAssets(r)
      && |r| <= |assets| + 1
      && forall i :: 0 <= i < |r| ==> r[i] in assets || r[i] in mid
  {
    SplitConcat(assets, id);
    SplitOrder(assets, id);
    hide LeftPart, RightPart, Prior, SortedAssets;
    ConcatSorted(LeftPart(assets, id), mid, RightPart(assets, id), id);
  }

  /** add_asset_inner refines the map update m[id] += delta with removal at zero: it succeeds
      exactly when the asset has a funding index to start from and the new balance is in range,
      and then the result is again a sorted array of non-zero balances that differs from the
      original at `id` only. */
  lemma {:induction false} AddAssetInnerExact(assets: seq<PositionAsset>, indices: seq<FundingIndex>, id: int,
                                              delta: felt)
    requires Status.InRangeAssets(assets)
    ensures AddAssetInner(assets, indices, id, delta).Good? <==>
            (FindAsset(assets, id).Some? || FindIndex(indices, id).Some?) && ValidBalance(Holding(assets, id) + delta)
    ensures AddAssetInner(assets, indices, id, delta).Good? ==>
      var r := AddAssetInner(assets, indices, id, delta).value;
      var balance := Holding(assets, id) + delta;
      && SortedAssets(r)
      && |r| <= |assets| + 1
      && (forall i :: 0 <= i < |r| ==> r[i].balance != 0 && ValidBalance(r[i].balance))
      && (forall i :: 0 <= i < |r| ==>
          r[i] in assets || r[i] == PositionAsset(id, balance, StartIndex(assets, indices, id)))
      && (forall x :: x != id ==> Holding(r, x) == Holding(assets, x) && FindAsset(r, x) == FindAsset(assets, x))
      && Holding(r, id) == balance
      && FindAsset(r, id) ==
         (if balance == 0 then None else Some(PositionAsset(id, balance, StartIndex(assets, indices, id))))
  {
    hide LeftPart, RightPart, Prior, AddAssetInner;
    AddAssetInnerShape(assets, indices, id, delta);
    if AddAssetInner(assets, indices, id, delta).Good? {
      var mid := Middle(id, Holding(assets, id) + delta, StartIndex(assets, indices, id));
      RebuiltSorted(assets, mid, id);
      SplitConcat(assets, id);
      SplitOrder(assets, id);
      ReplaceMiddle(LeftPart(assets, id), Prior(assets, id), mid, RightPart(assets, id), id);
    }
  }

  /** position_add_asset with a non-zero delta: the test against 65 refuses exactly a further asset
      for a position that already holds 64, so the cap is kept by an inequality. */
  lemma {:induction false} PositionAddAssetExact(p: Position, indices: seq<FundingIndex>, id: int, delta: felt,
                                                 publicKey: int)
    requires Status.InRangeAssets(p.assets) && delta != 0
    ensures var inner, r := AddAssetInner(p.assets, indices, id, delta),
            PositionAddAsset(p, indices, id, delta, publicKey);
      && (r.Good? <==> inner.Good? && !(|p.assets| == POSITION_MAX_SUPPORTED_N_ASSETS && FindAsset(p.assets, id).None?))
      && (r.Good? ==>
            && Status.InRangeAssets(r.value.assets)
            && r.value == p.(publicKey := publicKey, assets := inner.value))
  {
    hide AddAssetInner, StartIndex, Holding, FindAsset;
    AddAssetInnerExact(p.assets, indices, id, delta);
    if AddAssetInner(p.assets, indices, id, delta).Good? { RebuiltCount(p.assets, indices, id, delta); }
    FoundIsHeld(p.assets, id);
  }

  /** A change adds one entry for a new asset and drops one at balance zero. */
  lemma {:induction false} RebuiltCount(assets: seq<PositionAsset>, indices: seq<FundingIndex>, id: int, delta: felt)
    requires Status.InRangeAssets(assets) && AddAssetInner(assets, indices, id, delta).Good?
    ensures |AddAssetInner(assets, indices, id, delta).value| ==
            |assets| - (if FindAsset(assets, id).Some? then 1 else 0)
                + (if Holding(assets, id) + delta == 0 then 0 else 1)
  {
    hide LeftPart, RightPart, AddAssetInner, StartIndex, SortedAssets;
    AddAssetInnerShape(assets, indices, id, delta);
    SplitConcat(assets, id);
    FoundIsHeld(assets, id);
  }
}
