/** The layouts of signed messages and hashed positions as their documentation gives them: fields one after
    the other, the most significant first, and values hashed from left to right. Each word and hash of the
    programs is the documented one, and cutting a word at the documented widths gives back its fields. */
module MessageLayouts {
  import opened Felt
  import opened Arithmetic
  import opened PerpetualTypes
  import opened MessageHashes
  import opened Orders
  import opened Batch
  import opened PositionHash
  import BatchAuthorization
  import Dex
  import DexMessages
  import MultiAssetOrders
  import Oracle

  // ---- Fields and chains ----

  /** A field that takes values below its bound, a power of two. */
  datatype Field = Field(value: int, bound: int)

  predicate Fit(fs: seq<Field>) {
    forall i :: 0 <= i < |fs| ==> 0 <= fs[i].value < fs[i].bound
  }

  /** The fields side by side in one word. */
  function Word(fs: seq<Field>): int {
    if fs == [] then 0 else Word(fs[..|fs| - 1]) * fs[|fs| - 1].bound + fs[|fs| - 1].value
  }

  /** The word cut at the bounds of the fields. */
  function Cut(word: int, fs: seq<Field>): seq<int>
    decreases |fs|
  {
    if fs == [] then []
    else
      var (high, low) := Split(word, fs[|fs| - 1].bound);
      Cut(high, fs[..|fs| - 1]) + [low]
  }

  /** What stands before and in a field of the given bound. */
  function Split(word: int, bound: int): (int, int) {
    if bound > 0 then (word / bound, word % bound) else (word, 0)
  }

  /** A word of fields that fit can be cut into them again. */
  lemma {:induction false} CutWord(fs: seq<Field>)
    requires Fit(fs)
    ensures |Cut(Word(fs), fs)| == |fs| && forall i :: 0 <= i < |fs| ==> Cut(Word(fs), fs)[i] == fs[i].value
    decreases |fs|
  {
    if fs != [] {
      var init, last := fs[..|fs| - 1], fs[|fs| - 1];
      CutWord(init);
      Digits(Word(init), last.value, last.bound);
    }
  }

  /** h(h(h(w1, w2), w3), ...). */
  function Chain(h: PairHash, ws: seq<int>): int
    requires ws != []
  {
    if |ws| == 1 then ws[0] else h(Chain(h, ws[..|ws| - 1]), ws[|ws| - 1])
  }

  lemma {:induction false} WordStep(fs: seq<Field>, f: Field)
    ensures Word(fs + [f]) == Word(fs) * f.bound + f.value
  {
    assert (fs + [f])[..|fs|] == fs;
  }

  lemma {:induction false} ChainStep(h: PairHash, ws: seq<int>, w: int)
    requires ws != []
    ensures Chain(h, ws + [w]) == h(Chain(h, ws), w)
  {
    assert (ws + [w])[..|ws|] == ws;
  }

  lemma {:induction false} Two(a: Field, b: Field)
    ensures Word([a, b]) == a.value * b.bound + b.value
  {
    assert Word([]) == 0;
    WordStep([], a);
    assert [] + [a] == [a];
    WordStep([a], b);
    assert [a] + [b] == [a, b];
  }

  lemma {:induction false} Four(a: Field, b: Field, c: Field, d: Field)
    ensures Word([a, b, c, d]) == (Word([a, b]) * c.bound + c.value) * d.bound + d.value
  {
    WordStep([a, b], c);
    assert [a, b] + [c] == [a, b, c];
    WordStep([a, b, c], d);
    assert [a, b, c] + [d] == [a, b, c, d];
  }

  lemma {:induction false} Six(a: Field, b: Field, c: Field, d: Field, e: Field, f: Field)
    ensures Word([a, b, c, d, e, f]) == (Word([a, b, c, d]) * e.bound + e.value) * f.bound + f.value
  {
    WordStep([a, b, c, d], e);
    assert [a, b, c, d] + [e] == [a, b, c, d, e];
    WordStep([a, b, c, d, e], f);
    assert [a, b, c, d, e] + [f] == [a, b, c, d, e, f];
  }

  lemma {:induction false} ChainTwo(h: PairHash, a: int, b: int)
    ensures Chain(h, [a, b]) == h(a, b)
  {
    ChainStep(h, [a], b);
    assert [a] + [b] == [a, b];
  }

  lemma {:induction false} ChainThree(h: PairHash, a: int, b: int, c: int)
    ensures Chain(h, [a, b, c]) == h(h(a, b), c)
  {
    ChainTwo(h, a, b);
    ChainStep(h, [a, b], c);
    assert [a, b] + [c] == [a, b, c];
  }

  lemma {:induction false} ChainFive(h: PairHash, a: int, b: int, c: int, d: int, e: int)
    ensures Chain(h, [a, b, c, d, e]) == h(h(h(h(a, b), c), d), e)
  {
    ChainThree(h, a, b, c);
    ChainStep(h, [a, b, c], d);
    assert [a, b, c] + [d] == [a, b, c, d];
    ChainStep(h, [a, b, c, d], e);
    assert [a, b, c, d] + [e] == [a, b, c, d, e];
  }

  // ---- Widths ----

  const TWO_10: int := 0x400
  const TWO_12: int := 0x1000
  const TWO_16: int := 0x10000
  const TWO_22: int := 0x400000
  const TWO_31: int := 0x80000000
  const TWO_63: int := 0x8000000000000000
  const TWO_120: int := 0x1000000000000000000000000000000
  const TWO_126: int := 0x40000000000000000000000000000000

  // ---- Limit orders ----

  function LimitFields4(o: LimitFields): seq<Field> {
    [Field(o.amountSell, TWO_64), Field(o.amountBuy, TWO_64), Field(o.amountFee, TWO_64), Field(o.nonce, TWO_32)]
  }

  function LimitFields5(o: LimitFields): seq<Field> {
    [Field(3, TWO_10), Field(o.vaultFee, TWO_64), Field(o.vaultSell, TWO_64), Field(o.vaultBuy, TWO_64),
     Field(o.expirationTimestamp, TWO_32), Field(0, TWO_17)]
  }

  /** A limit order is hashed as the tokens sold, bought and paid as fee, then both words. */
  lemma {:induction false} LimitOrderLayout(h: PairHash, o: LimitFields)
    requires ValidLimitFields(o)
    ensures LimitOrderHash(h, o) ==
            Chain(h, [o.assetIdSell, o.assetIdBuy, o.assetIdFee, Word(LimitFields4(o)), Word(LimitFields5(o))])
    ensures Fit(LimitFields4(o)) && Fit(LimitFields5(o))
  {
    LimitWordsFit(o);
    var f, g := LimitFields4(o), LimitFields5(o);
    Two(f[0], f[1]);
    Four(f[0], f[1], f[2], f[3]);
    Two(g[0], g[1]);
    Four(g[0], g[1], g[2], g[3]);
    Six(g[0], g[1], g[2], g[3], g[4], g[5]);
    hide Reduce, Word;
    ChainFive(h, o.assetIdSell, o.assetIdBuy, o.assetIdFee, Word(f), Word(g));
  }

  /** A perpetual order is the message of an exchange order that sells what its fill takes from the position,
      buys what it gives, and pays its fee in collateral, all from and to the position. */
  lemma {:induction false} PerpetualOrderLayout(h: PairHash, o: LimitOrder)
    requires ValidLimitFields(ExchangeFields(o))
    ensures var f := ExchangeFields(o);
      var sold, bought := if o.isBuyingSynthetic then o.amountCollateral else o.amountSynthetic,
                          if o.isBuyingSynthetic then o.amountSynthetic else o.amountCollateral;
      var gives, takes := if o.isBuyingSynthetic then o.assetIdCollateral else o.assetIdSynthetic,
                          if o.isBuyingSynthetic then o.assetIdSynthetic else o.assetIdCollateral;
      && LimitFields4(f) == [Field(sold, TWO_64), Field(bought, TWO_64), Field(o.amountFee, TWO_64),
                             Field(o.base.nonce, TWO_32)]
      && LimitFields5(f) == [Field(3, TWO_10), Field(o.positionId, TWO_64), Field(o.positionId, TWO_64),
                             Field(o.positionId, TWO_64), Field(o.base.expirationTimestamp, TWO_32), Field(0, TWO_17)]
      && LimitOrderHash(h, f) ==
         Chain(h, [gives, takes, o.assetIdCollateral, Word(LimitFields4(f)), Word(LimitFields5(f))])
  {
    LimitOrderLayout(h, ExchangeFields(o));
    hide LimitOrderHash, Chain, Word;
  }

  /** A perpetual transfer is the message of an exchange transfer between the two positions, without a fee
      token and a fee, with the sender as the payer of the fee. */
  lemma {:induction false} PerpetualTransferLayout(cfg: BatchConfig, t: Transfer, condition: int)
    requires Fits64(t.senderPositionId) && Fits64(t.receiverPositionId) && Fits64(t.amount)
    requires Fits32(t.base.nonce) && Fits32(t.base.expirationTimestamp)
    ensures BatchAuthorization.TransferMessage(cfg, t, condition) ==
            Chain(cfg.pedersen,
                  [t.assetId, 0, t.receiverPublicKey] + (if condition == 0 then [] else [condition])
                  + [Word([Field(t.senderPositionId, TWO_64), Field(t.receiverPositionId, TWO_64),
                           Field(t.senderPositionId, TWO_64), Field(t.base.nonce, TWO_32)])]
                  + [Word([Field(if condition == 0 then 4 else 5, TWO_10), Field(t.amount, TWO_64), Field(0, TWO_64),
                           Field(t.base.expirationTimestamp, TWO_32), Field(0, TWO_81)])])
  {
    var fields := TransferFields(t.assetId, 0, t.receiverPublicKey, t.senderPositionId, t.receiverPositionId,
                                 t.senderPositionId, t.amount, 0, t.base.nonce, t.base.expirationTimestamp);
    TransferLayout(cfg.pedersen, fields, condition);
    hide TransferHash, Chain, Word;
  }

  // ---- Transfers ----

  function TransferFields4(t: TransferFields): seq<Field> {
    [Field(t.senderVaultId, TWO_64), Field(t.receiverVaultId, TWO_64), Field(t.srcFeeVaultId, TWO_64),
     Field(t.nonce, TWO_32)]
  }

  function TransferFields5(t: TransferFields, condition: int): seq<Field> {
    [Field(if condition == 0 then 4 else 5, TWO_10), Field(t.amount, TWO_64), Field(t.maxAmountFee, TWO_64),
     Field(t.expirationTimestamp, TWO_32), Field(0, TWO_81)]
  }

  /** A transfer is hashed as its token, fee token and receiver, its condition if there is one, then both
      words. */
  lemma {:induction false} TransferLayout(h: PairHash, t: TransferFields, condition: int)
    requires ValidTransferFields(t)
    ensures TransferHash(h, t, condition) ==
            Chain(h, [t.assetId, t.assetIdFee, t.receiverPublicKey] + (if condition == 0 then [] else [condition])
                     + [Word(TransferFields4(t))] + [Word(TransferFields5(t, condition))])
    ensures Fit(TransferFields4(t)) && Fit(TransferFields5(t, condition))
  {
    TransferWordsFit(t, condition);
    var f, g := TransferFields4(t), TransferFields5(t, condition);
    Two(f[0], f[1]);
    Four(f[0], f[1], f[2], f[3]);
    Two(g[0], g[1]);
    Four(g[0], g[1], g[2], g[3]);
    WordStep(g[..4], g[4]);
    assert g[..4] == [g[0], g[1], g[2], g[3]] && g[..4] + [g[4]] == g;
    hide Reduce, Word;
    var start := [t.assetId, t.assetIdFee, t.receiverPublicKey];
    ChainThree(h, t.assetId, t.assetIdFee, t.receiverPublicKey);
    if condition != 0 { ChainStep(h, start, condition); } else { assert start + [] == start; }
    var inner := start + if condition == 0 then [] else [condition];
    ChainStep(h, inner, Word(f));
    ChainStep(h, inner + [Word(f)], Word(g));
  }

  // ---- Withdrawals ----

  function WithdrawalWordFields(w: WithdrawalFields, kind: int): seq<Field> {
    [Field(kind, TWO_10), Field(w.positionId, TWO_64), Field(w.nonce, TWO_32), Field(w.amount, TWO_64),
     Field(w.expirationTimestamp, TWO_32), Field(0, TWO_49)]
  }

  /** A withdrawal is hashed as the collateral asset, the owner's key if it is not the signer's, then the
      word. */
  lemma {:induction false} WithdrawalLayout(h: PairHash, w: WithdrawalFields, publicKey: int, collateralAssetId: int)
    requires ValidWithdrawalFields(w)
    ensures var toOther := w.ownerKey != publicKey;
      var fields := WithdrawalWordFields(w, if toOther then 7 else 6);
      && Fit(fields)
      && WithdrawalHash(h, w, publicKey, collateralAssetId) ==
         Chain(h, [collateralAssetId] + (if toOther then [w.ownerKey] else []) + [Word(fields)])
  {
    var toOther := w.ownerKey != publicKey;
    var kind := if toOther then 7 else 6;
    var f := WithdrawalWordFields(w, kind);
    Two(f[0], f[1]);
    Four(f[0], f[1], f[2], f[3]);
    Six(f[0], f[1], f[2], f[3], f[4], f[5]);
    assert 0 <= WithdrawalWord(w, kind) < P;
    hide Reduce, Word;
    var start := [collateralAssetId];
    if toOther { ChainStep(h, start, w.ownerKey); } else { assert start + [] == start; }
    ChainStep(h, start + if toOther then [w.ownerKey] else [], Word(f));
  }

  // ---- Messages of the spot exchange without fee ----

  function Fields31(m: DexMessages.Message31): seq<Field> {
    [Field(m.orderType, 0x10), Field(m.vault0, TWO_31), Field(m.vault1, TWO_31), Field(m.amount0, TWO_63),
     Field(m.amount1, TWO_63), Field(m.nonce, TWO_31), Field(m.expiration, TWO_22)]
  }

  /** A message is hashed as its two tokens, or its token and receiver, its condition if there is one, then
      the word. */
  lemma {:induction false} Message31Layout(h: PairHash, m: DexMessages.Message31)
    requires DexMessages.Valid31(m)
    ensures DexMessages.HashOf(h, m) ==
            Chain(h, [m.token0, m.token1OrKey] + (if m.condition == 0 then [] else [m.condition]) + [Word(Fields31(m))])
    ensures Fit(Fields31(m))
  {
    var f := Fields31(m);
    Two(f[0], f[1]);
    Four(f[0], f[1], f[2], f[3]);
    Six(f[0], f[1], f[2], f[3], f[4], f[5]);
    WordStep(f[..6], f[6]);
    assert f[..6] == [f[0], f[1], f[2], f[3], f[4], f[5]] && f[..6] + [f[6]] == f;
    assert 0 <= Word(f) < P;
    hide Reduce, Word;
    var start := [m.token0, m.token1OrKey];
    ChainTwo(h, m.token0, m.token1OrKey);
    if m.condition != 0 { ChainStep(h, start, m.condition); } else { assert start + [] == start; }
    ChainStep(h, start + if m.condition == 0 then [] else [m.condition], Word(f));
  }

  /** A spot order is signed as the exchange order with its own fields, or without fee as a 31-bit message
      that sells from its sell vault and buys into its buy vault. */
  lemma {:induction false} SpotOrderLayout(h: PairHash, o: Dex.ExchangeOrder)
    ensures var f := Dex.FieldsOf(o);
      && LimitFields4(f) == [Field(o.amountSell, TWO_64), Field(o.amountBuy, TWO_64), Field(o.amountFee, TWO_64),
                             Field(o.base.nonce, TWO_32)]
      && LimitFields5(f) == [Field(3, TWO_10), Field(o.vaultFee, TWO_64), Field(o.vaultSell, TWO_64),
                             Field(o.vaultBuy, TWO_64), Field(o.base.expirationTimestamp, TWO_32), Field(0, TWO_17)]
      && (ValidLimitFields(f) ==>
            Dex.GetOrderHash(h, o, true) ==
            Chain(h, [o.assetIdSell, o.assetIdBuy, o.assetIdFee, Word(LimitFields4(f)), Word(LimitFields5(f))]))
    ensures DexMessages.Valid31(DexMessages.OrderMessage31(o)) ==>
              Dex.GetOrderHash(h, o, false) ==
              Chain(h, [o.assetIdSell, o.assetIdBuy,
                        Word([Field(0, 0x10), Field(o.vaultSell, TWO_31), Field(o.vaultBuy, TWO_31),
                              Field(o.amountSell, TWO_63), Field(o.amountBuy, TWO_63), Field(o.base.nonce, TWO_31),
                              Field(o.base.expirationTimestamp, TWO_22)])])
  {
    hide LimitOrderHash, Chain, Word, DexMessages.HashOf, DexMessages.Valid31;
    if ValidLimitFields(Dex.FieldsOf(o)) { LimitOrderLayout(h, Dex.FieldsOf(o)); }
    var m := DexMessages.OrderMessage31(o);
    if DexMessages.Valid31(m) {
      DexMessages.OrderHashIs31(h, o);
      Message31Layout(h, m);
      assert [m.token0, m.token1OrKey] + [] + [Word(Fields31(m))] == [m.token0, m.token1OrKey, Word(Fields31(m))];
    }
  }

  /** A spot transfer is signed as the exchange transfer with its own fields, or without fee as a 31-bit
      message from the sender's vault to the receiver's. */
  lemma {:induction false} SpotTransferLayout(h: PairHash, t: Dex.ExchangeTransfer, condition: int)
    ensures var f := Dex.FieldsOfTransfer(t);
      && TransferFields4(f) == [Field(t.senderVaultId, TWO_64), Field(t.receiverVaultId, TWO_64),
                                Field(t.srcFeeVaultId, TWO_64), Field(t.base.nonce, TWO_32)]
      && TransferFields5(f, condition) ==
         [Field(if condition == 0 then 4 else 5, TWO_10), Field(t.amount, TWO_64), Field(t.maxAmountFee, TWO_64),
          Field(t.base.expirationTimestamp, TWO_32), Field(0, TWO_81)]
      && (ValidTransferFields(f) ==>
            Dex.TransferMessage(h, t, condition, true) ==
            Chain(h, [t.assetId, t.assetIdFee, t.receiverPublicKey] + (if condition == 0 then [] else [condition])
                     + [Word(TransferFields4(f))] + [Word(TransferFields5(f, condition))]))
    ensures DexMessages.Valid31(DexMessages.TransferMessage31(t, condition)) ==>
              Dex.TransferMessage(h, t, condition, false) ==
              Chain(h, [t.assetId, t.receiverPublicKey] + (if condition == 0 then [] else [condition])
                       + [Word([Field(if condition == 0 then 1 else 2, 0x10), Field(t.senderVaultId, TWO_31),
                                Field(t.receiverVaultId, TWO_31), Field(t.amount, TWO_63), Field(0, TWO_63),
                                Field(t.base.nonce, TWO_31), Field(t.base.expirationTimestamp, TWO_22)])])
  {
    hide TransferHash, Chain, Word, DexMessages.HashOf, DexMessages.Valid31;
    if ValidTransferFields(Dex.FieldsOfTransfer(t)) { TransferLayout(h, Dex.FieldsOfTransfer(t), condition); }
    var m := DexMessages.TransferMessage31(t, condition);
    if DexMessages.Valid31(m) {
      DexMessages.TransferHashIs31(h, t, condition);
      Message31Layout(h, m);
    }
  }

  // ---- Multi-asset orders ----

  function MetadataFields(o: MultiAssetOrders.MultiAssetOrder, nThirdParty: int): seq<Field> {
    [Field(6, TWO_10), Field(o.base.nonce, TWO_32), Field(o.base.expirationTimestamp, TWO_32),
     Field(|o.give|, TWO_12), Field(|o.receive|, TWO_12), Field(nThirdParty, TWO_12), Field(|o.conditions|, TWO_12),
     Field(o.systemId, TWO_126), Field(0, 8)]
  }

  /** The metadata of a multi-asset order. */
  lemma {:induction false} MetadataLayout(o: MultiAssetOrders.MultiAssetOrder, nThirdParty: int)
    ensures MultiAssetOrders.Metadata(o, nThirdParty) == Word(MetadataFields(o, nThirdParty))
  {
    var f := MetadataFields(o, nThirdParty);
    Two(f[0], f[1]);
    Four(f[0], f[1], f[2], f[3]);
    Six(f[0], f[1], f[2], f[3], f[4], f[5]);
    WordStep(f[..6], f[6]);
    assert f[..6] == [f[0], f[1], f[2], f[3], f[4], f[5]] && f[..6] + [f[6]] == f[..7];
    WordStep(f[..7], f[7]);
    assert f[..7] + [f[7]] == f[..8];
    WordStep(f[..8], f[8]);
    assert f[..8] + [f[8]] == f;
  }

  // ---- Oracle prices and positions ----

  /** An oracle signs the asset name, then price and time in one word. */
  lemma {:induction false} PriceLayout(h: PairHash, sig: Oracle.SignedOraclePrice)
    ensures Oracle.PriceMessage(h, sig) ==
            Chain(h, [sig.signedAssetId, Word([Field(sig.externalPrice, TWO_120), Field(sig.timestamp, TWO_32)])])
  {
    Two(Field(sig.externalPrice, TWO_120), Field(sig.timestamp, TWO_32));
    ChainTwo(h, sig.signedAssetId, Word([Field(sig.externalPrice, TWO_120), Field(sig.timestamp, TWO_32)]));
  }

  /** An asset in the hash of its position: id, cached funding index and balance, both shifted to naturals. */
  function AssetFields(a: PositionAsset): seq<Field> {
    [Field(a.assetId, TWO_120), Field(a.cachedFundingIndex + TWO_63, TWO_64), Field(a.balance + TWO_63, TWO_64)]
  }

  function AssetWords(assets: seq<PositionAsset>): seq<int> {
    if assets == [] then [] else AssetWords(assets[..|assets| - 1]) + [Word(AssetFields(assets[|assets| - 1]))]
  }

  function CountFields(p: Position): seq<Field> {
    [Field(p.collateral + TWO_63, TWO_64), Field(|p.assets|, TWO_16)]
  }

  /** A position is hashed as zero, its assets in order, its owner's key, and collateral and count in one
      word. */
  lemma {:induction false} PositionLayout(h: PairHash, p: Position)
    ensures PositionHash.PositionHash(h, p) ==
            Chain(h, [0] + AssetWords(p.assets) + [p.publicKey] + [Word(CountFields(p))])
    ensures Hashable(p) ==> Fit(CountFields(p)) && forall i :: 0 <= i < |p.assets| ==> Fit(AssetFields(p.assets[i]))
  {
    Two(CountFields(p)[0], CountFields(p)[1]);
    var words := [0] + AssetWords(p.assets);
    AssetsLayout(h, p.assets);
    ChainStep(h, words, p.publicKey);
    ChainStep(h, words + [p.publicKey], Word(CountFields(p)));
  }

  lemma {:induction false} AssetsLayout(h: PairHash, assets: seq<PositionAsset>)
    ensures PositionHashAssets(h, assets, 0) == Chain(h, [0] + AssetWords(assets))
    decreases |assets|
  {
    if assets == [] {
      assert [0] + AssetWords(assets) == [0];
    } else {
      var init, last := assets[..|assets| - 1], assets[|assets| - 1];
      AssetsLayout(h, init);
      LastAsset(h, init, last, 0);
      assert init + [last] == assets;
      ChainStep(h, [0] + AssetWords(init), Word(AssetFields(last)));
      assert [0] + AssetWords(assets) == [0] + AssetWords(init) + [Word(AssetFields(last))];
      AssetWordIsPacked(last);
    }
  }

  lemma {:induction false} AssetWordIsPacked(a: PositionAsset)
    ensures Word(AssetFields(a)) == AssetPacked(a)
  {
    var f := AssetFields(a);
    Two(f[0], f[1]);
    WordStep([f[0], f[1]], f[2]);
    assert [f[0], f[1]] + [f[2]] == f;
  }

  lemma {:induction false} LastAsset(h: PairHash, init: seq<PositionAsset>, last: PositionAsset, start: int)
    ensures PositionHashAssets(h, init + [last], start) == h(PositionHashAssets(h, init, start), AssetPacked(last))
    decreases |init|
  {
    if init == [] {
      assert [] + [last] == [last] && [last][1..] == [];
      assert PositionHashAssets(h, [], h(start, AssetPacked(last))) == h(start, AssetPacked(last));
    } else {
      assert (init + [last])[1..] == init[1..] + [last];
      LastAsset(h, init[1..], last, h(start, AssetPacked(init[0])));
    }
  }
}
