/** Who gets what: every transaction of the perpetual batch books its amounts on the positions it
    names and on no others, under the keys it names, and writes the outputs it stands for. */
module BatchJournal {
  import opened Felt
  import opened PerpetualTypes
  import opened Funding
  import opened Status
  import opened Transition
  import opened UpdatePosition
  import opened MessageHashes
  import opened Orders
  import opened Batch
  import opened BatchInvariants

  /** An amount of collateral and of a synthetic asset credited to a position. */
  datatype Entry = Entry(position: int, collateral: int, synthetic: int)

  function CollateralOf(es: seq<Entry>, i: int): int {
    if es == [] then 0 else (if es[0].position == i then es[0].collateral else 0) + CollateralOf(es[1..], i)
  }

  function SyntheticOf(es: seq<Entry>, i: int): int {
    if es == [] then 0 else (if es[0].position == i then es[0].synthetic else 0) + SyntheticOf(es[1..], i)
  }

  predicate Touches(es: seq<Entry>, i: int) {
    es != [] && (es[0].position == i || Touches(es[1..], i))
  }

  /** Some entry takes collateral from the position or changes its synthetic balance. */
  predicate Debits(es: seq<Entry>, i: int) {
    es != [] && ((es[0].position == i && (es[0].collateral < 0 || es[0].synthetic != 0)) || Debits(es[1..], i))
  }

  lemma {:induction false} NoDebitSums(es: seq<Entry>, i: int)
    requires !Debits(es, i)
    ensures 0 <= CollateralOf(es, i) && SyntheticOf(es, i) == 0
  {
    if es != [] { NoDebitSums(es[1..], i); }
  }

  lemma {:induction false} UntouchedSums(es: seq<Entry>, i: int)
    requires !Touches(es, i)
    ensures CollateralOf(es, i) == 0 && SyntheticOf(es, i) == 0
  {
    if es != [] { UntouchedSums(es[1..], i); }
  }

  lemma {:induction false} EntriesConcat(a: seq<Entry>, b: seq<Entry>, i: int)
    ensures CollateralOf(a + b, i) == CollateralOf(a, i) + CollateralOf(b, i)
    ensures SyntheticOf(a + b, i) == SyntheticOf(a, i) + SyntheticOf(b, i)
    ensures Touches(a + b, i) <==> Touches(a, i) || Touches(b, i)
    ensures Debits(a + b, i) <==> Debits(a, i) || Debits(b, i)
  {
    if a == [] {
      assert a + b == b;
    } else {
      assert (a + b)[1..] == a[1..] + b;
      EntriesConcat(a[1..], b, i);
    }
  }

  /** q is p after funding, with the amounts added. */
  ghost predicate Credited(p: Position, q: Position, funding: FundingInfo, collateral: int, id: int, synthetic: int) {
    && ValidPosition(q) && Stamped(q, funding)
    && ApplyFunding(p, funding).Done?
    && q.collateral == ApplyFunding(p, funding).value.collateral + collateral
    && forall x :: Holding(q.assets, x) == Holding(p.assets, x) + (if x == id then synthetic else 0)
  }

  /** Funding a second time under the same indices changes no balance, so credits add up. */
  lemma {:induction false} CreditsAdd(p: Position, q: Position, r: Position, funding: FundingInfo, id: int, c1: int,
                                      s1: int, c2: int, s2: int)
    requires Credited(p, q, funding, c1, id, s1) && Credited(q, r, funding, c2, id, s2)
    ensures Credited(p, r, funding, c1 + c2, id, s1 + s2)
  {
    hide ApplyFunding;
    FundingIdempotent(q, funding);
  }

  /** One update keeps the owner of a position or leaves the position empty. */
  predicate KeepsOwner(p: Position, q: Position) {
    p.publicKey != 0 ==> q.publicKey == p.publicKey || q == EMPTY_POSITION
  }

  /** A position that only gained collateral is not empty. */
  lemma {:induction false} CreditKeepsOwner(p: Position, q: Position, funding: FundingInfo, collateral: int, id: int)
    requires ValidPosition(p) && ValidIndices(funding.indices) && p.publicKey != 0 && KeepsOwner(p, q)
    requires Credited(p, q, funding, collateral, id, 0) && 0 <= collateral
    ensures q.publicKey == p.publicKey
  {
    hide ApplyFunding;
    FundingRoundsDown(p, funding);
    if p.assets != [] {
      HoldingAt(p.assets, 0);
      assert Holding(q.assets, p.assets[0].assetId) == p.assets[0].balance;
    }
  }

  /** The positions after the entries have been booked: untouched positions are the same, and a
      position that no entry debits keeps its owner. */
  ghost predicate Booked(ps: seq<Position>, qs: seq<Position>, funding: FundingInfo, id: int, es: seq<Entry>) {
    && |qs| == |ps|
    && (forall i :: 0 <= i < |ps| ==>
          if Touches(es, i) then Credited(ps[i], qs[i], funding, CollateralOf(es, i), id, SyntheticOf(es, i))
          else qs[i] == ps[i])
    && (forall i :: 0 <= i < |ps| && ps[i].publicKey != 0 && !Debits(es, i) ==> qs[i].publicKey == ps[i].publicKey)
  }

  lemma {:induction false} BookedInTurn(a: seq<Position>, b: seq<Position>, c: seq<Position>, funding: FundingInfo,
                                        id: int, es: seq<Entry>, fs: seq<Entry>)
    requires Booked(a, b, funding, id, es) && Booked(b, c, funding, id, fs)
    ensures Booked(a, c, funding, id, es + fs)
  {
    hide Credited;
    forall i | 0 <= i < |a|
      ensures
        if Touches(es + fs, i) then
          Credited(a[i], c[i], funding, CollateralOf(es + fs, i), id, SyntheticOf(es + fs, i))
        else c[i] == a[i]
      ensures a[i].publicKey != 0 && !Debits(es + fs, i) ==> c[i].publicKey == a[i].publicKey
    {
      EntriesConcat(es, fs, i);
      if !Touches(es, i) {
        UntouchedSums(es, i);
      } else if !Touches(fs, i) {
        UntouchedSums(fs, i);
      } else {
        CreditsAdd(a[i], b[i], c[i], funding, id, CollateralOf(es, i), SyntheticOf(es, i), CollateralOf(fs, i),
                   SyntheticOf(fs, i));
      }
    }
  }

  lemma {:induction false} SingleEntry(e: Entry, i: int)
    ensures CollateralOf([e], i) == (if e.position == i then e.collateral else 0)
    ensures SyntheticOf([e], i) == (if e.position == i then e.synthetic else 0)
    ensures Touches([e], i) <==> e.position == i
    ensures Debits([e], i) <==> e.position == i && (e.collateral < 0 || e.synthetic != 0)
  {
    assert [e][1..] == [];
  }

  lemma {:induction false} LeafBooked(ps: seq<Position>, q: Position, funding: FundingInfo, id: int, e: Entry)
    requires 0 <= e.position < |ps| && Credited(ps[e.position], q, funding, e.collateral, id, e.synthetic)
    requires ValidPosition(ps[e.position]) && ValidIndices(funding.indices) && KeepsOwner(ps[e.position], q)
    ensures Booked(ps, ps[e.position := q], funding, id, [e])
  {
    hide Credited, ValidPosition;
    var p := ps[e.position];
    if p.publicKey != 0 && 0 <= e.collateral && e.synthetic == 0 { CreditKeepsOwner(p, q, funding, e.collateral, id); }
    forall i | 0 <= i < |ps|
      ensures CollateralOf([e], i) == (if e.position == i then e.collateral else 0)
      ensures SyntheticOf([e], i) == (if e.position == i then e.synthetic else 0)
      ensures Touches([e], i) <==> e.position == i
      ensures Debits([e], i) <==> e.position == i && (e.collateral < 0 || e.synthetic != 0)
    {
      SingleEntry(e, i);
    }
  }

  lemma {:induction false} OthersUntouched(ps: seq<Position>, qs: seq<Position>, funding: FundingInfo, id: int,
                                           e: Entry, i: int)
    requires Booked(ps, qs, funding, id, [e])
    ensures |qs| == |ps|
    ensures 0 <= i < |ps| && i != e.position ==> qs[i] == ps[i]
  {
    hide Credited;
    SingleEntry(e, i);
  }

  /** The request key of an update: no key, or the key of the position, or any key of a position
      without an owner. */
  predicate MayUpdate(p: Position, requestKey: int) {
    requestKey == 0 || p.publicKey == 0 || p.publicKey == requestKey
  }

  /** An accepted update_position_in_dict books its deltas. When the request carries no synthetic
      delta the asset does not matter. */
  lemma {:induction false} UpdateBooked(s: State, cfg: BatchConfig, position: int, requestKey: int, collateral: felt,
                                        assetId: int, synthetic: felt, id: int)
    requires Ready(s, cfg) && (assetId == id || synthetic == 0)
    requires UpdateInDict(s, cfg, position, requestKey, collateral, assetId, synthetic).Done?
    ensures var u := UpdateInDict(s, cfg, position, requestKey, collateral, assetId, synthetic).value;
      && 0 <= position < |s.positions|
      && (u.code == Success ==>
          Booked(s.positions, u.positions, s.funding, id, [Entry(position, collateral, synthetic)])
          && MayUpdate(s.positions[position], requestKey))
      && (u.code != Success ==> Booked(s.positions, u.positions, s.funding, id, [Entry(position, 0, 0)]))
  {
    hide UpdatePosition.Apply, ApplyFunding, LegalTransition, Equity, Booked;
    var u := UpdatePosition.Apply(s.positions[position], requestKey, collateral, assetId, synthetic, s.funding,
                                  s.prices, cfg.general).value;
    ApplyExact(s.positions[position], requestKey, collateral, assetId, synthetic, s.funding, s.prices, cfg.general);
    var ok := u.code == Success;
    FundingRoundsDown(s.positions[position], s.funding);
    LeafBooked(s.positions, u.updated, s.funding, id,
               Entry(position, if ok then collateral else 0, if ok then synthetic else 0));
  }

  lemma {:induction false} UpdateOrAbortBooked(s: State, cfg: BatchConfig, position: int, requestKey: int,
                                               collateral: felt, assetId: int, synthetic: felt, id: int)
    requires Ready(s, cfg) && (assetId == id || synthetic == 0)
    requires UpdateOrAbort(s, cfg, position, requestKey, collateral, assetId, synthetic).Done?
    ensures var t := UpdateOrAbort(s, cfg, position, requestKey, collateral, assetId, synthetic).value;
      && t == s.(positions := t.positions) && Ready(t, cfg)
      && 0 <= position < |s.positions| && MayUpdate(s.positions[position], requestKey)
      && Booked(s.positions, t.positions, s.funding, id, [Entry(position, collateral, synthetic)])
  {
    hide UpdatePosition.Apply, Booked, Moves;
    UpdateBooked(s, cfg, position, requestKey, collateral, assetId, synthetic, id);
    UpdateOrAbortMoves(s, cfg, position, requestKey, collateral, assetId, synthetic);
  }

  // ---- The journal of each transaction ----

  /** A limit order: its fee goes to the fee position, its amounts to the party. */
  function OrderEntries(cfg: BatchConfig, o: LimitOrder, collateral: int, synthetic: int, fee: int): seq<Entry> {
    [Entry(cfg.general.feePositionId, fee, 0)]
    + [Entry(o.positionId, (if o.isBuyingSynthetic then -collateral else collateral) - fee,
             if o.isBuyingSynthetic then synthetic else -synthetic)]
  }

  function TransferEntries(t: Transfer): seq<Entry> {
    [Entry(t.senderPositionId, -t.amount, 0)] + [Entry(t.receiverPositionId, t.amount, 0)]
  }

  /** What the two sides of a forced trade book when it is valid; otherwise both are only funded. */
  function ForcedTradeEntries(tx: Transaction): seq<Entry>
    requires tx.ForcedTrade?
  {
    var c :=
      if !tx.isValid then 0 else if tx.isPartyABuyingSynthetic then -tx.amountCollateral
      else tx.amountCollateral;
    var d := if !tx.isValid then 0 else if tx.isPartyABuyingSynthetic then tx.amountSynthetic else -tx.amountSynthetic;
    [Entry(tx.positionIdA, c, d)] + [Entry(tx.positionIdB, -c, -d)]
  }

  function Entries(cfg: BatchConfig, tx: Transaction): seq<Entry> {
    match tx
    case Deposit(_, position, amount) => [Entry(position, amount, 0)]
    case Withdrawal(_, position, amount, _) => [Entry(position, -amount, 0)]
    case ForcedWithdrawal(_, position, amount, isValid) => [Entry(position, if isValid then -amount else 0, 0)]
    case PlainTransfer(t) => TransferEntries(t)
    case ConditionalTransfer(t, _) => TransferEntries(t)
    case Trade(a, b, collateral, synthetic, feeA, feeB) =>
      OrderEntries(cfg, a, collateral, synthetic, feeA) + OrderEntries(cfg, b, collateral, synthetic, feeB)
    case ForcedTrade(_, _, _, _, _, _, _, _, _) => ForcedTradeEntries(tx)
    case Liquidate(o, position, collateral, synthetic, fee) =>
      [Entry(position, if o.isBuyingSynthetic then collateral else -collateral,
             if o.isBuyingSynthetic then -synthetic else synthetic)]
      + OrderEntries(cfg, o, collateral, synthetic, fee)
    case Deleverage(deleveragable, deleverager, _, synthetic, collateral, buying) =>
      [Entry(deleveragable, if buying then collateral else -collateral, if buying then -synthetic else synthetic)]
      + [Entry(deleverager, if buying then -collateral else collateral, if buying then synthetic else -synthetic)]
    case FundingTick(_, _, _) => []
    case OraclePricesTick(_, _) => []
  }

  /** The synthetic asset a transaction is about. */
  function AssetOf(tx: Transaction): int {
    if tx.Trade? then tx.partyA.assetIdSynthetic
    else if tx.ForcedTrade? || tx.Deleverage? then tx.syntheticAssetId
    else if tx.Liquidate? then tx.liquidatorOrder.assetIdSynthetic
    else NO_SYNTHETIC_DELTA_ASSET_ID
  }

  /** The positions that a transaction acts on in somebody's name, with the key it names. */
  function Requests(tx: Transaction): seq<(int, int)> {
    match tx
    case Deposit(key, position, _) => [(position, key)]
    case Withdrawal(base, position, _, _) => [(position, base.publicKey)]
    case ForcedWithdrawal(key, position, _, isValid) => if isValid then [(position, key)] else []
    case PlainTransfer(t) => [(t.senderPositionId, t.base.publicKey), (t.receiverPositionId, t.receiverPublicKey)]
    case ConditionalTransfer(t, _) => [(t.senderPositionId, t.base.publicKey),
                                       (t.receiverPositionId, t.receiverPublicKey)]
    case Trade(a, b, _, _, _, _) => [(a.positionId, a.base.publicKey), (b.positionId, b.base.publicKey)]
    case ForcedTrade(keyA, keyB, a, b, _, _, _, _, isValid) => if isValid then [(a, keyA), (b, keyB)] else []
    case Liquidate(o, _, _, _, _) => [(o.positionId, o.base.publicKey)]
    case Deleverage(_, _, _, _, _, _) => []
    case FundingTick(_, _, _) => []
    case OraclePricesTick(_, _) => []
  }

  predicate AllMayUpdate(ps: seq<Position>, requests: seq<(int, int)>) {
    forall k :: 0 <= k < |requests| ==> 0 <= requests[k].0 < |ps| && MayUpdate(ps[requests[k].0], requests[k].1)
  }

  lemma {:induction false} CollateralBooked(s: State, cfg: BatchConfig, tx: Transaction)
    requires Ready(s, cfg) && (tx.Deposit? || tx.Withdrawal? || tx.ForcedWithdrawal?)
    requires ExecuteTransaction(s, cfg, tx).Done?
    ensures Booked(s.positions, ExecuteTransaction(s, cfg, tx).value.positions, s.funding, AssetOf(tx),
                   Entries(cfg, tx))
    ensures AllMayUpdate(s.positions, Requests(tx))
  {
    hide UpdateInDict, Booked, ValidateOrderAndUpdateFulfillment, WithdrawalHash, IsAmount, FundingIsFresh;
    var none := NO_SYNTHETIC_DELTA_ASSET_ID;
    if tx.Deposit? {
      UpdateBooked(s, cfg, tx.positionId, tx.publicKey, tx.amount, none, 0, none);
    } else if tx.ForcedWithdrawal? {
      UpdateBooked(s, cfg, tx.positionId, tx.publicKey, -tx.amount, none, 0, none);
    } else {
      var fields := WithdrawalFields(tx.positionId, tx.ownerKey, tx.amount, tx.base.nonce, tx.base.expirationTimestamp);
      var hash := WithdrawalHash(cfg.pedersen, fields, tx.base.publicKey, cfg.general.collateralAssetId);
      OrdersStayValid(s.orders, hash, tx.base, cfg.minExpiration, tx.amount, tx.amount, cfg.verify);
      var orders := ValidateOrderAndUpdateFulfillment(s.orders, hash, tx.base, cfg.minExpiration, tx.amount, tx.amount,
                                                      cfg.verify).value;
      UpdateBooked(s.(orders := orders), cfg, tx.positionId, tx.base.publicKey, -tx.amount, none, 0, none);
    }
  }

  lemma {:induction false} MoveCollateralBooked(s: State, cfg: BatchConfig, t: Transfer)
    requires Ready(s, cfg) && MoveCollateral(s, cfg, t).Done?
    ensures Booked(s.positions, MoveCollateral(s, cfg, t).value.positions, s.funding, NO_SYNTHETIC_DELTA_ASSET_ID,
                   TransferEntries(t))
    ensures 0 <= t.senderPositionId < |s.positions| && MayUpdate(s.positions[t.senderPositionId], t.base.publicKey)
    ensures 0 <= t.receiverPositionId < |s.positions|
    ensures t.senderPositionId != t.receiverPositionId ==>
            MayUpdate(s.positions[t.receiverPositionId], t.receiverPublicKey)
  {
    hide UpdateOrAbort, Booked;
    var none := NO_SYNTHETIC_DELTA_ASSET_ID;
    UpdateOrAbortBooked(s, cfg, t.senderPositionId, t.base.publicKey, -t.amount, none, 0, none);
    var s1 := UpdateOrAbort(s, cfg, t.senderPositionId, t.base.publicKey, -t.amount, none, 0).value;
    UpdateOrAbortBooked(s1, cfg, t.receiverPositionId, t.receiverPublicKey, t.amount, none, 0, none);
    OthersUntouched(s.positions, s1.positions, s.funding, none, Entry(t.senderPositionId, -t.amount, 0),
                    t.receiverPositionId);
    var s2 := UpdateOrAbort(s1, cfg, t.receiverPositionId, t.receiverPublicKey, t.amount, none, 0).value;
    BookedInTurn(s.positions, s1.positions, s2.positions, s.funding, none,
                 [Entry(t.senderPositionId, -t.amount, 0)], [Entry(t.receiverPositionId, t.amount, 0)]);
  }

  lemma {:induction false} TransferBooked(s: State, cfg: BatchConfig, t: Transfer, condition: int)
    requires Ready(s, cfg) && ExecuteTransfer(s, cfg, t, condition).Done?
    ensures Booked(s.positions, ExecuteTransfer(s, cfg, t, condition).value.positions, s.funding,
                   NO_SYNTHETIC_DELTA_ASSET_ID, TransferEntries(t))
    ensures AllMayUpdate(s.positions,
                         [(t.senderPositionId as int, t.base.publicKey as int),
                          (t.receiverPositionId as int, t.receiverPublicKey as int)])
  {
    hide MoveCollateral, Booked, ValidateOrderAndUpdateFulfillment, TransferHash, IsAmount;
    var fields := TransferFields(t.assetId, 0, t.receiverPublicKey, t.senderPositionId, t.receiverPositionId,
                                 t.senderPositionId, t.amount, 0, t.base.nonce, t.base.expirationTimestamp);
    var hash := TransferHash(cfg.pedersen, fields, condition);
    OrdersStayValid(s.orders, hash, t.base, cfg.minExpiration, t.amount, t.amount, cfg.verify);
    var orders := ValidateOrderAndUpdateFulfillment(s.orders, hash, t.base, cfg.minExpiration, t.amount, t.amount,
                                                    cfg.verify).value;
    MoveCollateralBooked(s.(orders := orders), cfg, t);
  }

  lemma {:induction false} FillBooked(s: State, cfg: BatchConfig, o: LimitOrder, collateral: felt, synthetic: felt,
                                      fee: felt)
    requires Ready(s, cfg) && IsAmount(collateral) && IsAmount(fee)
    requires FillOrder(s, cfg, o, collateral, synthetic, fee).Done?
    ensures Booked(s.positions, FillOrder(s, cfg, o, collateral, synthetic, fee).value.positions, s.funding,
                   o.assetIdSynthetic, OrderEntries(cfg, o, collateral, synthetic, fee))
    ensures 0 <= o.positionId < |s.positions|
    ensures o.positionId != cfg.general.feePositionId ==> MayUpdate(s.positions[o.positionId], o.base.publicKey)
  {
    hide UpdateOrAbort, Booked;
    var none := NO_SYNTHETIC_DELTA_ASSET_ID;
    var feeId, feeKey := cfg.general.feePositionId, cfg.general.feePublicKey;
    var c := (if o.isBuyingSynthetic then -collateral else collateral) - fee;
    var d := if o.isBuyingSynthetic then synthetic else -synthetic;
    UpdateOrAbortBooked(s, cfg, feeId, feeKey, fee, none, 0, o.assetIdSynthetic);
    var s1 := UpdateOrAbort(s, cfg, feeId, feeKey, fee, none, 0).value;
    UpdateOrAbortBooked(s1, cfg, o.positionId, o.base.publicKey, c, o.assetIdSynthetic, d, o.assetIdSynthetic);
    OthersUntouched(s.positions, s1.positions, s.funding, o.assetIdSynthetic, Entry(feeId, fee, 0), o.positionId);
    var s2 := UpdateOrAbort(s1, cfg, o.positionId, o.base.publicKey, c, o.assetIdSynthetic, d).value;
    BookedInTurn(s.positions, s1.positions, s2.positions, s.funding, o.assetIdSynthetic, [Entry(feeId, fee, 0)],
                 [Entry(o.positionId, c, d)]);
  }

  lemma {:induction false} NotTheFeePosition(s: State, cfg: BatchConfig, o: LimitOrder, collateral: int,
                                             synthetic: int, fee: int)
    requires ExecuteLimitOrder(s, cfg, o, collateral, synthetic, fee).Done?
    ensures o.positionId != cfg.general.feePositionId
  {
    hide FillOrder, ValidateFairness, ValidateOrderAndUpdateFulfillment, LimitOrderHash, IsAmount, IsInRange, IsLe;
  }

  lemma {:induction false} LimitOrderBooked(s: State, cfg: BatchConfig, o: LimitOrder, collateral: felt,
                                            synthetic: felt, fee: felt)
    requires Ready(s, cfg) && IsAmount(collateral) && IsAmount(fee)
    requires ExecuteLimitOrder(s, cfg, o, collateral, synthetic, fee).Done?
    ensures Booked(s.positions, ExecuteLimitOrder(s, cfg, o, collateral, synthetic, fee).value.positions, s.funding,
                   o.assetIdSynthetic, OrderEntries(cfg, o, collateral, synthetic, fee))
    ensures 0 <= o.positionId < |s.positions| && o.positionId != cfg.general.feePositionId
    ensures MayUpdate(s.positions[o.positionId], o.base.publicKey)
  {
    hide FillOrder, Booked, ExecuteLimitOrder;
    NotTheFeePosition(s, cfg, o, collateral, synthetic, fee);
    LimitOrderIsFill(s, cfg, o, collateral, synthetic, fee);
    OrdersStayValid(s.orders, LimitOrderHash(cfg.pedersen, ExchangeFields(o)), o.base, cfg.minExpiration, synthetic,
                    o.amountSynthetic, cfg.verify);
    FillBooked(s.(orders := LimitOrderBook(s, cfg, o, synthetic).value), cfg, o, collateral, synthetic, fee);
  }

  /** A limit order leaves every position but the fee position and its own alone. */
  lemma {:induction false} PartyUntouched(s: State, t: State, cfg: BatchConfig, o: LimitOrder, collateral: int,
                                          synthetic: int, fee: int, i: int)
    requires Booked(s.positions, t.positions, s.funding, o.assetIdSynthetic,
                    OrderEntries(cfg, o, collateral, synthetic, fee))
    requires 0 <= i < |s.positions| && i != o.positionId && i != cfg.general.feePositionId
    ensures t.positions[i] == s.positions[i]
  {
    hide Credited;
    var es := OrderEntries(cfg, o, collateral, synthetic, fee);
    EntriesConcat([es[0]], [es[1]], i);
    SingleEntry(es[0], i);
    SingleEntry(es[1], i);
  }

  lemma {:induction false} TradeBooked(s: State, cfg: BatchConfig, tx: Transaction)
    requires Ready(s, cfg) && tx.Trade? && ExecuteTrade(s, cfg, tx).Done?
    ensures Booked(s.positions, ExecuteTrade(s, cfg, tx).value.positions, s.funding, AssetOf(tx), Entries(cfg, tx))
    ensures AllMayUpdate(s.positions, Requests(tx))
  {
    hide ExecuteLimitOrder, Booked, OrderEntries, Moves;
    LimitOrderBooked(s, cfg, tx.partyA, tx.actualCollateral, tx.actualSynthetic, tx.actualAFee);
    LimitOrderMoves(s, cfg, tx.partyA, tx.actualCollateral, tx.actualSynthetic, tx.actualAFee);
    var s1 := ExecuteLimitOrder(s, cfg, tx.partyA, tx.actualCollateral, tx.actualSynthetic, tx.actualAFee).value;
    LimitOrderBooked(s1, cfg, tx.partyB, tx.actualCollateral, tx.actualSynthetic, tx.actualBFee);
    var s2 := ExecuteLimitOrder(s1, cfg, tx.partyB, tx.actualCollateral, tx.actualSynthetic, tx.actualBFee).value;
    PartyUntouched(s, s1, cfg, tx.partyA, tx.actualCollateral, tx.actualSynthetic, tx.actualAFee, tx.partyB.positionId);
    BookedInTurn(s.positions, s1.positions, s2.positions, s.funding, AssetOf(tx),
                 OrderEntries(cfg, tx.partyA, tx.actualCollateral, tx.actualSynthetic, tx.actualAFee),
                 OrderEntries(cfg, tx.partyB, tx.actualCollateral, tx.actualSynthetic, tx.actualBFee));
  }

  /** One side of a forced trade, updated or only funded. */
  lemma {:induction false} SideCredited(s: State, cfg: BatchConfig, p: Position, requestKey: int, collateral: felt,
                                        assetId: int, synthetic: felt)
    requires Ready(s, cfg) && ValidPosition(p)
    requires UpdatePosition.Apply(p, requestKey, collateral, assetId, synthetic, s.funding, s.prices, cfg.general).Done?
    ensures var u := UpdatePosition.Apply(p, requestKey, collateral, assetId, synthetic, s.funding, s.prices,
                                          cfg.general).value;
      && (u.code == Success ==>
          Credited(p, u.updated, s.funding, collateral, assetId, synthetic) && MayUpdate(p, requestKey)
          && KeepsOwner(p, u.updated))
      && Credited(p, u.funded, s.funding, 0, assetId, 0) && KeepsOwner(p, u.funded)
  {
    hide UpdatePosition.Apply, ApplyFunding, LegalTransition, Equity;
    ApplyExact(p, requestKey, collateral, assetId, synthetic, s.funding, s.prices, cfg.general);
    FundingRoundsDown(p, s.funding);
  }

  lemma {:induction false} TryToTradeCredits(s: State, cfg: BatchConfig, buyer: Position, seller: Position,
                                             keyBuyer: int, keySeller: int, assetId: int, collateral: felt,
                                             synthetic: felt)
    requires Ready(s, cfg) && ValidPosition(buyer) && ValidPosition(seller)
    requires TryToTrade(s, cfg, buyer, seller, keyBuyer, keySeller, assetId, collateral, synthetic).Done?
    ensures var r := TryToTrade(s, cfg, buyer, seller, keyBuyer, keySeller, assetId, collateral, synthetic).value;
      var ok := r.code == Success;
      && (ok ==> MayUpdate(buyer, keyBuyer) && MayUpdate(seller, keySeller))
      && Credited(buyer, r.buyer, s.funding, if ok then -collateral else 0, assetId, if ok then synthetic else 0)
      && Credited(seller, r.seller, s.funding, if ok then collateral else 0, assetId, if ok then -synthetic else 0)
      && KeepsOwner(buyer, r.buyer) && KeepsOwner(seller, r.seller)
  {
    hide UpdatePosition.Apply, Credited;
    SideCredited(s, cfg, buyer, keyBuyer, -collateral, assetId, synthetic);
    SideCredited(s, cfg, seller, keySeller, collateral, assetId, -synthetic);
  }

  lemma {:induction false} TwoLeavesBooked(ps: seq<Position>, a: Entry, b: Entry, qa: Position, qb: Position,
                                           funding: FundingInfo, id: int)
    requires 0 <= a.position < |ps| && 0 <= b.position < |ps| && a.position != b.position
    requires Credited(ps[a.position], qa, funding, a.collateral, id, a.synthetic)
    requires Credited(ps[b.position], qb, funding, b.collateral, id, b.synthetic)
    requires ValidPosition(ps[a.position]) && ValidPosition(ps[b.position]) && ValidIndices(funding.indices)
    requires KeepsOwner(ps[a.position], qa) && KeepsOwner(ps[b.position], qb)
    ensures Booked(ps, ps[a.position := qa][b.position := qb], funding, id, [a] + [b])
  {
    hide Credited, Booked;
    LeafBooked(ps, qa, funding, id, a);
    LeafBooked(ps[a.position := qa], qb, funding, id, b);
    BookedInTurn(ps, ps[a.position := qa], ps[a.position := qa][b.position := qb], funding, id, [a], [b]);
  }

  lemma {:induction false} ForcedTradeBooked(s: State, cfg: BatchConfig, tx: Transaction)
    requires Ready(s, cfg) && tx.ForcedTrade? && ExecuteForcedTrade(s, cfg, tx).Done?
    ensures Booked(s.positions, ExecuteForcedTrade(s, cfg, tx).value.positions, s.funding, tx.syntheticAssetId,
                   ForcedTradeEntries(tx))
    ensures AllMayUpdate(s.positions, Requests(tx))
  {
    hide TryToTrade, Credited, Booked, IsAmount;
    var a, b := s.positions[tx.positionIdA], s.positions[tx.positionIdB];
    var es := ForcedTradeEntries(tx);
    var t := ExecuteForcedTrade(s, cfg, tx).value;
    if tx.isPartyABuyingSynthetic {
      TryToTradeCredits(s, cfg, a, b, tx.publicKeyA, tx.publicKeyB, tx.syntheticAssetId, tx.amountCollateral,
                        tx.amountSynthetic);
    } else {
      TryToTradeCredits(s, cfg, b, a, tx.publicKeyB, tx.publicKeyA, tx.syntheticAssetId, tx.amountCollateral,
                        tx.amountSynthetic);
    }
    TwoLeavesBooked(s.positions, es[0], es[1], t.positions[tx.positionIdA], t.positions[tx.positionIdB], s.funding,
                    tx.syntheticAssetId);
  }

  lemma {:induction false} LiquidatedBooked(s: State, cfg: BatchConfig, tx: Transaction)
    requires Ready(s, cfg) && tx.Liquidate? && LiquidatePosition(s, cfg, tx).Done?
    ensures var o := tx.liquidatorOrder;
      Booked(s.positions, LiquidatePosition(s, cfg, tx).value.positions, s.funding, o.assetIdSynthetic,
             [Entry(tx.liquidatedPositionId, if o.isBuyingSynthetic then tx.actualCollateral else -tx.actualCollateral,
                    if o.isBuyingSynthetic then -tx.actualSynthetic else tx.actualSynthetic)])
  {
    hide GetStatus, Is250Bit, GetAssetBalance, IsNnLe, UpdatePosition.Apply, ApplyFunding, Equity, LegalTransition,
      Booked;
    var o, i := tx.liquidatorOrder, tx.liquidatedPositionId;
    var c := if o.isBuyingSynthetic then tx.actualCollateral else -tx.actualCollateral;
    var d := if o.isBuyingSynthetic then -tx.actualSynthetic else tx.actualSynthetic;
    var p := s.positions[i];
    FundingRoundsDown(p, s.funding);
    var funded := ApplyFunding(p, s.funding).value;
    SideCredited(s, cfg, funded, funded.publicKey, c, o.assetIdSynthetic, d);
    var u := UpdatePosition.Apply(funded, funded.publicKey, c, o.assetIdSynthetic, d, s.funding, s.prices,
                                  cfg.general).value;
    CreditsAdd(p, funded, u.updated, s.funding, o.assetIdSynthetic, 0, 0, c, d);
    LeafBooked(s.positions, u.updated, s.funding, o.assetIdSynthetic, Entry(i, c, d));
  }

  lemma {:induction false} LiquidationLeavesOthers(s: State, cfg: BatchConfig, tx: Transaction)
    requires tx.Liquidate? && LiquidatePosition(s, cfg, tx).Done?
    ensures var ps := LiquidatePosition(s, cfg, tx).value.positions;
      |ps| == |s.positions| && forall i :: 0 <= i < |ps| && i != tx.liquidatedPositionId ==> ps[i] == s.positions[i]
  {
    hide GetStatus, Is250Bit, GetAssetBalance, IsNnLe, UpdatePosition.Apply, ApplyFunding;
  }

  lemma {:induction false} LiquidateBooked(s: State, cfg: BatchConfig, tx: Transaction)
    requires Ready(s, cfg) && tx.Liquidate? && ExecuteLiquidate(s, cfg, tx).Done?
    ensures Booked(s.positions, ExecuteLiquidate(s, cfg, tx).value.positions, s.funding, AssetOf(tx), Entries(cfg, tx))
    ensures AllMayUpdate(s.positions, Requests(tx))
  {
    hide LiquidatePosition, ExecuteLimitOrder, Booked, OrderEntries, Moves;
    var o := tx.liquidatorOrder;
    LiquidatedBooked(s, cfg, tx);
    LiquidatePositionMoves(s, cfg, tx);
    LiquidationLeavesOthers(s, cfg, tx);
    var s1 := LiquidatePosition(s, cfg, tx).value;
    LimitOrderBooked(s1, cfg, o, tx.actualCollateral, tx.actualSynthetic, tx.actualLiquidatorFee);
    var s2 := ExecuteLimitOrder(s1, cfg, o, tx.actualCollateral, tx.actualSynthetic, tx.actualLiquidatorFee).value;
    BookedInTurn(s.positions, s1.positions, s2.positions, s.funding, o.assetIdSynthetic,
                 [Entry(tx.liquidatedPositionId,
                        if o.isBuyingSynthetic then tx.actualCollateral else -tx.actualCollateral,
                        if o.isBuyingSynthetic then -tx.actualSynthetic else tx.actualSynthetic)],
                 OrderEntries(cfg, o, tx.actualCollateral, tx.actualSynthetic, tx.actualLiquidatorFee));
  }

  lemma {:induction false} DeleverageBooked(s: State, cfg: BatchConfig, tx: Transaction)
    requires Ready(s, cfg) && tx.Deleverage? && ExecuteDeleverage(s, cfg, tx).Done?
    ensures Booked(s.positions, ExecuteDeleverage(s, cfg, tx).value.positions, s.funding, AssetOf(tx), Entries(cfg, tx))
  {
    hide UpdateOrAbort, Booked, ExecuteDeleverage;
    DeleverageIsTwoUpdates(s, cfg, tx);
    var d := if tx.deleveragerIsBuyingSynthetic then tx.amountSynthetic else -tx.amountSynthetic;
    var c := if tx.deleveragerIsBuyingSynthetic then -tx.amountCollateral else tx.amountCollateral;
    var id := tx.syntheticAssetId;
    UpdateOrAbortBooked(s, cfg, tx.deleveragablePositionId, 0, -c, id, -d, id);
    var s1 := UpdateOrAbort(s, cfg, tx.deleveragablePositionId, 0, -c, id, -d).value;
    UpdateOrAbortBooked(s1, cfg, tx.deleveragerPositionId, 0, c, id, d, id);
    var s2 := UpdateOrAbort(s1, cfg, tx.deleveragerPositionId, 0, c, id, d).value;
    BookedInTurn(s.positions, s1.positions, s2.positions, s.funding, id,
                 [Entry(tx.deleveragablePositionId, -c, -d)], [Entry(tx.deleveragerPositionId, c, d)]);
  }

  lemma {:induction false} TickBooked(s: State, cfg: BatchConfig, tx: Transaction)
    requires tx.FundingTick? || tx.OraclePricesTick?
    requires ExecuteTransaction(s, cfg, tx).Done?
    ensures Booked(s.positions, ExecuteTransaction(s, cfg, tx).value.positions, s.funding, AssetOf(tx), [])
  {
    hide ValidateTick, MergePrices;
  }

  /** Every accepted transaction books exactly its journal: each position it names is funded and
      credited with the amounts the transaction states for its roles, and no other position changes.
      Where it acts in somebody's name, the position is theirs or nobody's, unless it names no key. */
  lemma {:induction false} TransactionBooked(s: State, cfg: BatchConfig, tx: Transaction)
    requires Ready(s, cfg) && ExecuteTransaction(s, cfg, tx).Done?
    ensures Booked(s.positions, ExecuteTransaction(s, cfg, tx).value.positions, s.funding, AssetOf(tx),
                   Entries(cfg, tx))
    ensures AllMayUpdate(s.positions, Requests(tx))
  {
    hide ExecuteTransfer, ExecuteTrade, ExecuteForcedTrade, ExecuteLiquidate, ExecuteDeleverage, ExecuteDeposit,
      ExecuteWithdrawal, ExecuteForcedWithdrawal, ExecuteFundingTick, ExecuteOraclePricesTick, Booked, OrderEntries,
      TransferEntries, ForcedTradeEntries, FundingIsFresh;
    if tx.FundingTick? || tx.OraclePricesTick? {
      TickBooked(s, cfg, tx);
    } else if tx.Deposit? || tx.Withdrawal? || tx.ForcedWithdrawal? {
      CollateralBooked(s, cfg, tx);
    } else if tx.PlainTransfer? {
      TransferBooked(s, cfg, tx.transfer, 0);
    } else if tx.ConditionalTransfer? {
      TransferBooked(s, cfg, tx.transfer, tx.condition);
    } else if tx.Trade? {
      TradeBooked(s, cfg, tx);
    } else if tx.ForcedTrade? {
      ForcedTradeBooked(s, cfg, tx);
    } else if tx.Liquidate? {
      LiquidateBooked(s, cfg, tx);
    } else {
      DeleverageBooked(s, cfg, tx);
    }
  }

  // ---- Outputs ----

  /** The modification records a transaction writes. */
  function ModificationsOf(tx: Transaction): seq<Modification> {
    match tx
    case Deposit(key, position, amount) => [Modification(key, position, amount + AMOUNT_UPPER_BOUND)]
    case Withdrawal(_, position, amount, ownerKey) => [Modification(ownerKey, position, AMOUNT_UPPER_BOUND - amount)]
    case ForcedWithdrawal(key, position, amount, isValid) =>
      if isValid then [Modification(key, position, AMOUNT_UPPER_BOUND - amount)] else []
    case _ => []
  }

  function ConditionsOf(tx: Transaction): seq<int> {
    if tx.ConditionalTransfer? then [tx.condition] else []
  }

  function FundingsOf(tx: Transaction): seq<FundingInfo> {
    if tx.FundingTick? then [FundingInfo(ToIndices(tx.indices), tx.timestamp)] else []
  }

  predicate Wrote(s: State, t: State, ms: seq<Modification>, cs: seq<int>, fs: seq<FundingInfo>) {
    t.modifications == s.modifications + ms && t.conditions == s.conditions + cs
        && t.fundingTable == s.fundingTable + fs
  }

  lemma {:induction false} TransferWrites(s: State, cfg: BatchConfig, t: Transfer, condition: int)
    requires ExecuteTransfer(s, cfg, t, condition).Done?
    ensures Wrote(s, ExecuteTransfer(s, cfg, t, condition).value, [], [], [])
  {
    hide UpdateInDict, ValidateOrderAndUpdateFulfillment, TransferHash, IsAmount;
  }

  lemma {:induction false} LimitOrderWrites(s: State, cfg: BatchConfig, o: LimitOrder, collateral: int, synthetic: int,
                                            fee: int)
    requires ExecuteLimitOrder(s, cfg, o, collateral, synthetic, fee).Done?
    ensures Wrote(s, ExecuteLimitOrder(s, cfg, o, collateral, synthetic, fee).value, [], [], [])
  {
    hide UpdateInDict, ValidateOrderAndUpdateFulfillment, LimitOrderHash, IsAmount, IsInRange, IsLe, ValidateFairness;
  }

  lemma {:induction false} TradesWrite(s: State, cfg: BatchConfig, tx: Transaction)
    requires tx.Trade? || tx.ForcedTrade? || tx.Liquidate? || tx.Deleverage?
    requires ExecuteTransaction(s, cfg, tx).Done?
    ensures Wrote(s, ExecuteTransaction(s, cfg, tx).value, [], [], [])
  {
    hide UpdateInDict, ExecuteLimitOrder, TryToTrade, LiquidatePosition, ValidateDeleverage, IsAmount, FundingIsFresh;
    if tx.Trade? {
      LimitOrderWrites(s, cfg, tx.partyA, tx.actualCollateral, tx.actualSynthetic, tx.actualAFee);
      var s1 := ExecuteLimitOrder(s, cfg, tx.partyA, tx.actualCollateral, tx.actualSynthetic, tx.actualAFee).value;
      LimitOrderWrites(s1, cfg, tx.partyB, tx.actualCollateral, tx.actualSynthetic, tx.actualBFee);
    } else if tx.Liquidate? {
      LiquidationWrites(s, cfg, tx);
      LimitOrderWrites(LiquidatePosition(s, cfg, tx).value, cfg, tx.liquidatorOrder, tx.actualCollateral,
                       tx.actualSynthetic, tx.actualLiquidatorFee);
    }
  }

  lemma {:induction false} LiquidationWrites(s: State, cfg: BatchConfig, tx: Transaction)
    requires tx.Liquidate? && LiquidatePosition(s, cfg, tx).Done?
    ensures Wrote(s, LiquidatePosition(s, cfg, tx).value, [], [], [])
  {
    hide GetStatus, Is250Bit, GetAssetBalance, IsNnLe, UpdatePosition.Apply, ApplyFunding;
  }

  lemma {:induction false} CollateralWrites(s: State, cfg: BatchConfig, tx: Transaction)
    requires tx.Deposit? || tx.Withdrawal? || tx.ForcedWithdrawal? || tx.FundingTick? || tx.OraclePricesTick?
    requires ExecuteTransaction(s, cfg, tx).Done?
    ensures Wrote(s, ExecuteTransaction(s, cfg, tx).value, ModificationsOf(tx), [], FundingsOf(tx))
  {
    hide UpdateInDict, ValidateOrderAndUpdateFulfillment, WithdrawalHash, ValidateTick, MergePrices, IsAmount,
      FundingIsFresh;
  }

  lemma {:induction false} TransfersWrite(s: State, cfg: BatchConfig, tx: Transaction)
    requires tx.PlainTransfer? || tx.ConditionalTransfer?
    requires ExecuteTransaction(s, cfg, tx).Done?
    ensures Wrote(s, ExecuteTransaction(s, cfg, tx).value, [], ConditionsOf(tx), [])
  {
    hide ExecuteTransfer, FundingIsFresh;
    TransferWrites(s, cfg, tx.transfer, if tx.PlainTransfer? then 0 else tx.condition);
  }

  /** What one transaction adds to the outputs. */
  lemma {:induction false} TransactionWrites(s: State, cfg: BatchConfig, tx: Transaction)
    requires ExecuteTransaction(s, cfg, tx).Done?
    ensures Wrote(s, ExecuteTransaction(s, cfg, tx).value, ModificationsOf(tx), ConditionsOf(tx), FundingsOf(tx))
  {
    hide ExecuteTransaction;
    if tx.Trade? || tx.ForcedTrade? || tx.Liquidate? || tx.Deleverage? {
      TradesWrite(s, cfg, tx);
    } else if tx.PlainTransfer? || tx.ConditionalTransfer? {
      TransfersWrite(s, cfg, tx);
    } else {
      CollateralWrites(s, cfg, tx);
    }
  }

  function ModificationsOver(txs: seq<Transaction>): seq<Modification> {
    if txs == [] then [] else ModificationsOf(txs[0]) + ModificationsOver(txs[1..])
  }

  function ConditionsOver(txs: seq<Transaction>): seq<int> {
    if txs == [] then [] else ConditionsOf(txs[0]) + ConditionsOver(txs[1..])
  }

  function FundingsOver(txs: seq<Transaction>): seq<FundingInfo> {
    if txs == [] then [] else FundingsOf(txs[0]) + FundingsOver(txs[1..])
  }

  /** The outputs of a batch list exactly its deposits and accepted withdrawals, its conditions and
      its funding ticks, each in order. */
  lemma {:induction false} BatchWrites(s: State, cfg: BatchConfig, txs: seq<Transaction>)
    requires ExecuteTransactions(s, cfg, txs).Done?
    ensures Wrote(s, ExecuteTransactions(s, cfg, txs).value, ModificationsOver(txs), ConditionsOver(txs),
                  FundingsOver(txs))
    decreases |txs|
  {
    hide ExecuteTransaction, ModificationsOf, ConditionsOf, FundingsOf;
    if txs != [] {
      TransactionWrites(s, cfg, txs[0]);
      BatchWrites(ExecuteTransaction(s, cfg, txs[0]).value, cfg, txs[1..]);
    }
  }
}
