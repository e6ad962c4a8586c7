/** The multi-asset order hash (exchange/cairo/signature_message_hashes.cairo): an order of variable
    length is linearised into felts that are folded into one hash. The linear form determines the
    order, and so does the hash. */
module MultiAssetOrders {
  import opened Felt
  import opened Arithmetic
  import opened MessageHashes

  const MULTI_ASSET_OFFCHAIN_ORDER_TYPE: int := 6
  const LIST_SIZE_BOUND: int := 0x1000
  const SYSTEM_ID_BOUND: int := 0x40000000000000000000000000000000
  const MAX_INDICES_PACKED: int := 20
  const PADDING: int := 8
  const TWO_46: int := 0x400000000000
  const TWO_48: int := 0x1000000000000
  const TWO_78: int := 0x40000000000000000000

  datatype VaultInfo = VaultInfo(vaultId: int, publicKey: int, assetId: int, amount: int)

  datatype MultiAssetOrder = MultiAssetOrder(
    base: OrderBase, systemId: int, give: seq<VaultInfo>, receive: seq<VaultInfo>, conditions: seq<int>)

  // ---- The arrays taken from the give and receive lists ----

  function VaultsAndAmounts(infos: seq<VaultInfo>): (r: seq<int>)
    ensures |r| == 2 * |infos|
  {
    if infos == [] then [] else [infos[0].vaultId, infos[0].amount] + VaultsAndAmounts(infos[1..])
  }

  function Assets(infos: seq<VaultInfo>): (r: seq<int>)
    ensures |r| == |infos|
  {
    if infos == [] then [] else [infos[0].assetId] + Assets(infos[1..])
  }

  /** The keys of vaults that the signer does not own. */
  function ThirdPartyKeys(infos: seq<VaultInfo>, signer: int): (r: seq<int>)
    ensures |r| <= |infos|
  {
    if infos == [] then []
    else (if infos[0].publicKey != signer then [infos[0].publicKey] else []) + ThirdPartyKeys(infos[1..], signer)
  }

  /** Where those vaults stand in the list, counted from `index`. */
  function ThirdPartyIndices(infos: seq<VaultInfo>, signer: int, index: nat): (r: seq<int>)
    ensures |r| == |ThirdPartyKeys(infos, signer)|
    ensures forall i :: 0 <= i < |r| ==> index <= r[i] < index + |infos|
  {
    if infos == [] then []
    else (if infos[0].publicKey != signer then [index] else []) + ThirdPartyIndices(infos[1..], signer, index + 1)
  }

  lemma {:induction false} AppendOne<T>(s: seq<T>, x: T, rest: seq<T>)
    ensures s + [x] + rest == s + ([x] + rest)
  {
  }

  lemma {:induction false} AppendTwo<T>(s: seq<T>, x: T, y: T, rest: seq<T>)
    ensures s + [x] + [y] + rest == s + ([x] + ([y] + rest))
  {
  }

  /** One more entry of the list. */
  lemma {:induction false} ArraysStep(infos: seq<VaultInfo>, signer: int, index: nat)
    requires index < |infos|
    ensures var info, rest := infos[index], infos[index + 1..];
      && VaultsAndAmounts(infos[index..]) == [info.vaultId] + ([info.amount] + VaultsAndAmounts(rest))
      && Assets(infos[index..]) == [info.assetId] + Assets(rest)
      && (info.publicKey != signer ==>
            && ThirdPartyKeys(infos[index..], signer) == [info.publicKey] + ThirdPartyKeys(rest, signer)
            && ThirdPartyIndices(infos[index..], signer, index) == [index] + ThirdPartyIndices(rest, signer, index + 1))
      && (info.publicKey == signer ==>
            && ThirdPartyKeys(infos[index..], signer) == ThirdPartyKeys(rest, signer)
            && ThirdPartyIndices(infos[index..], signer, index) == ThirdPartyIndices(rest, signer, index + 1))
  {
    assert infos[index..][0] == infos[index] && infos[index..][1..] == infos[index + 1..];
  }

  // ---- Packing ----

  /** pack_third_party_indices_inner. */
  function PackIndices(indices: seq<int>, msg: int): int {
    if indices == [] then msg else PackIndices(indices[1..], msg * LIST_SIZE_BOUND + indices[0])
  }

  /** num_indices_to_pack. */
  function NumIndicesToPack(n: nat): (k: nat)
    ensures k <= n && (n > 0 ==> k > 0) && k <= n
    ensures n < P - RC_BOUND ==> k <= MAX_INDICES_PACKED
  {
    if IsLe(n, MAX_INDICES_PACKED) then n else MAX_INDICES_PACKED
  }

  /** append_third_party_indices. */
  function PackedIndices(indices: seq<int>): seq<int>
    decreases |indices|
  {
    if indices == [] then []
    else
      var k := NumIndicesToPack(|indices|);
      [PackIndices(indices[..k], 0)] + PackedIndices(indices[k..])
  }

  /** append_vaults_and_amounts: three 64-bit fields to a felt. */
  function PackedVaultsAndAmounts(v: seq<int>): seq<int>
    decreases |v|
  {
    if v == [] then []
    else if |v| == 1 then [v[0]]
    else if |v| == 2 then [v[0] * TWO_64 + v[1]]
    else [(v[0] * TWO_64 + v[1]) * TWO_64 + v[2]] + PackedVaultsAndAmounts(v[3..])
  }

  /** packed_metadata: the order type, the fixed fields and the lengths of all arrays. */
  function Metadata(o: MultiAssetOrder, nThirdParty: int): int {
    (((((((MULTI_ASSET_OFFCHAIN_ORDER_TYPE * TWO_32 + o.base.nonce) * TWO_32 + o.base.expirationTimestamp)
         * LIST_SIZE_BOUND + |o.give|) * LIST_SIZE_BOUND + |o.receive|) * LIST_SIZE_BOUND + nThirdParty)
      * LIST_SIZE_BOUND + |o.conditions|) * SYSTEM_ID_BOUND + o.systemId) * PADDING
  }

  function Keys(o: MultiAssetOrder): seq<int> {
    ThirdPartyKeys(o.receive, o.base.publicKey) + ThirdPartyKeys(o.give, o.base.publicKey)
  }

  function Indices(o: MultiAssetOrder): seq<int> {
    ThirdPartyIndices(o.receive, o.base.publicKey, 0) + ThirdPartyIndices(o.give, o.base.publicKey, 0)
  }

  /** The felts that multi_asset_order_hash folds; the metadata is the last one. */
  function FeltsToHash(o: MultiAssetOrder): seq<int> {
    o.conditions
    + (Assets(o.receive) + Assets(o.give))
    + Keys(o)
    + PackedVaultsAndAmounts(VaultsAndAmounts(o.receive) + VaultsAndAmounts(o.give))
    + PackedIndices(Indices(o))
    + [Metadata(o, |Indices(o)|)]
  }

  /** hash_felts_no_padding. */
  function HashFelts(h: PairHash, data: seq<int>, initial: int): int {
    if data == [] then initial else HashFelts(h, data[1..], h(initial, data[0]))
  }

  /** multi_asset_order_hash. */
  function MultiAssetOrderHash(h: PairHash, o: MultiAssetOrder): int {
    var felts := FeltsToHash(o);
    HashFelts(h, felts[1..], felts[0])
  }

  // ---- The encoder, with its growing buffers ----

  class Encoder {
    var vaultsAndAmounts: seq<int>
    var assets: seq<int>
    var thirdPartyKeys: seq<int>
    var thirdPartyIndices: seq<int>
    var feltsToHash: seq<int>

    constructor ()
      ensures vaultsAndAmounts == [] && assets == [] && thirdPartyKeys == [] && thirdPartyIndices == []
              && feltsToHash == []
    {
      vaultsAndAmounts, assets, thirdPartyKeys, thirdPartyIndices, feltsToHash := [], [], [], [], [];
    }

    /** vault_info_to_arrays_inner. */
    method VaultInfoToArrays(signer: int, index: nat, infos: seq<VaultInfo>)
      requires index <= |infos|
      modifies this`vaultsAndAmounts, this`assets, this`thirdPartyKeys, this`thirdPartyIndices
      ensures vaultsAndAmounts == old(vaultsAndAmounts) + VaultsAndAmounts(infos[index..])
      ensures assets == old(assets) + Assets(infos[index..])
      ensures thirdPartyKeys == old(thirdPartyKeys) + ThirdPartyKeys(infos[index..], signer)
      ensures thirdPartyIndices == old(thirdPartyIndices) + ThirdPartyIndices(infos[index..], signer, index)
      decreases |infos| - index
    {
      if index == |infos| {
        assert infos[index..] == [];
        return;
      }
      ArraysStep(infos, signer, index);
      hide VaultsAndAmounts, Assets, ThirdPartyKeys, ThirdPartyIndices;
      var info := infos[index];
      assets := assets + [info.assetId];
      vaultsAndAmounts := vaultsAndAmounts + [info.vaultId];
      vaultsAndAmounts := vaultsAndAmounts + [info.amount];
      if info.publicKey != signer {
        thirdPartyIndices := thirdPartyIndices + [index];
        thirdPartyKeys := thirdPartyKeys + [info.publicKey];
      }
      VaultInfoToArrays(signer, index + 1, infos);
      AppendTwo(old(vaultsAndAmounts), info.vaultId, info.amount, VaultsAndAmounts(infos[index + 1..]));
      AppendOne(old(assets), info.assetId, Assets(infos[index + 1..]));
      AppendOne(old(thirdPartyKeys), info.publicKey, ThirdPartyKeys(infos[index + 1..], signer));
      AppendOne(old(thirdPartyIndices), index, ThirdPartyIndices(infos[index + 1..], signer, index + 1));
    }

    /** append_vaults_and_amounts. */
    method AppendVaultsAndAmounts(v: seq<int>)
      modifies this`feltsToHash
      ensures feltsToHash == old(feltsToHash) + PackedVaultsAndAmounts(v)
      decreases |v|
    {
      if |v| == 0 { return; }
      if |v| == 1 {
        feltsToHash := feltsToHash + [v[0]];
        return;
      }
      var packed := v[0] * TWO_64 + v[1];
      if |v| == 2 {
        feltsToHash := feltsToHash + [packed];
        return;
      }
      packed := packed * TWO_64 + v[2];
      feltsToHash := feltsToHash + [packed];
      AppendVaultsAndAmounts(v[3..]);
    }

    /** append_third_party_indices. */
    method AppendThirdPartyIndices(indices: seq<int>)
      modifies this`feltsToHash
      ensures feltsToHash == old(feltsToHash) + PackedIndices(indices)
      decreases |indices|
    {
      if |indices| == 0 { return; }
      var packLen := NumIndicesToPack(|indices|);
      feltsToHash := feltsToHash + [PackIndices(indices[..packLen], 0)];
      AppendThirdPartyIndices(indices[packLen..]);
    }

    /** multi_asset_order_hash. */
    method Hash(h: PairHash, o: MultiAssetOrder) returns (orderHash: int)
      requires vaultsAndAmounts == [] && assets == [] && thirdPartyKeys == [] && thirdPartyIndices == []
               && feltsToHash == []
      modifies this
      ensures feltsToHash == FeltsToHash(o)
      ensures orderHash == MultiAssetOrderHash(h, o)
    {
      hide PackedVaultsAndAmounts, PackedIndices, VaultsAndAmounts, Assets, ThirdPartyKeys, ThirdPartyIndices, Metadata,
        HashFelts;
      assert o.receive[0..] == o.receive && o.give[0..] == o.give;
      VaultInfoToArrays(o.base.publicKey, 0, o.receive);
      assert vaultsAndAmounts == VaultsAndAmounts(o.receive) && assets == Assets(o.receive);
      assert thirdPartyKeys == ThirdPartyKeys(o.receive, o.base.publicKey);
      assert thirdPartyIndices == ThirdPartyIndices(o.receive, o.base.publicKey, 0);
      VaultInfoToArrays(o.base.publicKey, 0, o.give);
      var nThirdParty := |thirdPartyIndices|;
      feltsToHash := feltsToHash + o.conditions;
      assert feltsToHash == o.conditions;
      feltsToHash := feltsToHash + assets;
      feltsToHash := feltsToHash + thirdPartyKeys;
      AppendVaultsAndAmounts(vaultsAndAmounts);
      AppendThirdPartyIndices(thirdPartyIndices);
      feltsToHash := feltsToHash + [Metadata(o, nThirdParty)];
      orderHash := HashFelts(h, feltsToHash[1..], feltsToHash[0]);
    }
  }

  // ---- In-range orders ----

  predicate ValidInfo(v: VaultInfo) {
    Fits64(v.vaultId) && Fits64(v.amount)
  }

  /** The field sizes that multi_asset_order_hash assumes, and a count of third-party keys that fits. */
  predicate Encodable(o: MultiAssetOrder) {
    && Fits32(o.base.nonce) && Fits32(o.base.expirationTimestamp)
    && 0 <= o.systemId < SYSTEM_ID_BOUND
    && |o.give| < LIST_SIZE_BOUND && |o.receive| < LIST_SIZE_BOUND && |o.conditions| < LIST_SIZE_BOUND
    && |Indices(o)| < LIST_SIZE_BOUND
    && (forall i :: 0 <= i < |o.receive| ==> ValidInfo(o.receive[i]))
    && (forall i :: 0 <= i < |o.give| ==> ValidInfo(o.give[i]))
  }

  /** All assumptions of multi_asset_order_hash: every give vault is the signer's, too. */
  predicate ValidOrder(o: MultiAssetOrder) {
    Encodable(o) && forall i :: 0 <= i < |o.give| ==> o.give[i].publicKey == o.base.publicKey
  }

  /** The fields that the user signs. */
  predicate SameOrder(a: MultiAssetOrder, b: MultiAssetOrder) {
    && a.base.nonce == b.base.nonce && a.base.expirationTimestamp == b.base.expirationTimestamp
    && a.systemId == b.systemId && a.give == b.give && a.receive == b.receive && a.conditions == b.conditions
  }

  // ---- Packed words ----

  function PowerOfListSize(n: nat): nat {
    if n == 0 then 1 else LIST_SIZE_BOUND * PowerOfListSize(n - 1)
  }

  lemma {:induction false} PackIndicesBound(indices: seq<int>, msg: nat, limit: nat)
    requires msg < limit
    requires forall i :: 0 <= i < |indices| ==> 0 <= indices[i] < LIST_SIZE_BOUND
    ensures 0 <= PackIndices(indices, msg) < limit * PowerOfListSize(|indices|)
    decreases |indices|
  {
    if indices != [] {
      var next := msg * LIST_SIZE_BOUND + indices[0];
      PackIndicesBound(indices[1..], next, limit * LIST_SIZE_BOUND);
      var p := PowerOfListSize(|indices| - 1);
      assert (limit * LIST_SIZE_BOUND) * p == limit * (LIST_SIZE_BOUND * p);
    }
  }

  lemma {:induction false} PowerGrows(n: nat, m: nat)
    requires n <= m
    ensures 1 <= PowerOfListSize(n) <= PowerOfListSize(m)
    decreases m
  {
    if n < m {
      PowerGrows(n, m - 1);
    } else if n > 0 {
      PowerGrows(n - 1, n - 1);
    }
  }

  /** Twenty indices take 240 bits. */
  lemma {:induction false} TwentyIndicesFit()
    ensures PowerOfListSize(20) * 0x800 == TWO_251
  {
    assert PowerOfListSize(4) == 0x1000000000000 by { assert PowerOfListSize(2) == 0x1000000; }
    assert PowerOfListSize(6) == LIST_SIZE_BOUND * PowerOfListSize(5)
           == LIST_SIZE_BOUND * LIST_SIZE_BOUND * PowerOfListSize(4);
    assert PowerOfListSize(8) == LIST_SIZE_BOUND * PowerOfListSize(7)
           == LIST_SIZE_BOUND * LIST_SIZE_BOUND * PowerOfListSize(6);
    assert PowerOfListSize(10) == LIST_SIZE_BOUND * PowerOfListSize(9)
           == LIST_SIZE_BOUND * LIST_SIZE_BOUND * PowerOfListSize(8);
    assert PowerOfListSize(12) == LIST_SIZE_BOUND * PowerOfListSize(11)
           == LIST_SIZE_BOUND * LIST_SIZE_BOUND * PowerOfListSize(10);
    assert PowerOfListSize(14) == LIST_SIZE_BOUND * PowerOfListSize(13)
           == LIST_SIZE_BOUND * LIST_SIZE_BOUND * PowerOfListSize(12);
    assert PowerOfListSize(16) == LIST_SIZE_BOUND * PowerOfListSize(15)
           == LIST_SIZE_BOUND * LIST_SIZE_BOUND * PowerOfListSize(14);
    assert PowerOfListSize(18) == LIST_SIZE_BOUND * PowerOfListSize(17)
           == LIST_SIZE_BOUND * LIST_SIZE_BOUND * PowerOfListSize(16);
    assert PowerOfListSize(20) == LIST_SIZE_BOUND * PowerOfListSize(19)
           == LIST_SIZE_BOUND * LIST_SIZE_BOUND * PowerOfListSize(18);
  }

  predicate AllBelow(s: seq<int>, bound: int) {
    forall i :: 0 <= i < |s| ==> 0 <= s[i] < bound
  }

  /** No word of packed indices reaches 2^240. */
  lemma {:induction false} IndexWordsFit(indices: seq<int>)
    requires AllBelow(indices, LIST_SIZE_BOUND) && |indices| < P - RC_BOUND
    ensures AllBelow(PackedIndices(indices), TWO_251)
    decreases |indices|
  {
    if indices != [] {
      var k := NumIndicesToPack(|indices|);
      PackIndicesBound(indices[..k], 0, 1);
      PowerGrows(k, 20);
      TwentyIndicesFit();
      IndexWordsFit(indices[k..]);
    }
  }

  /** No word of packed vaults and amounts reaches 2^192. */
  lemma {:induction false} VaultWordsFit(v: seq<int>)
    requires AllBelow(v, TWO_64)
    ensures AllBelow(PackedVaultsAndAmounts(v), TWO_251)
    decreases |v|
  {
    if |v| >= 3 { VaultWordsFit(v[3..]); }
  }

  lemma {:induction false} PackIndicesInjective(a: seq<int>, b: seq<int>, msgA: int, msgB: int)
    requires |a| == |b| && AllBelow(a, LIST_SIZE_BOUND) && AllBelow(b, LIST_SIZE_BOUND)
    requires PackIndices(a, msgA) == PackIndices(b, msgB)
    ensures msgA == msgB && a == b
    decreases |a|
  {
    if a != [] {
      PackIndicesInjective(a[1..], b[1..], msgA * LIST_SIZE_BOUND + a[0], msgB * LIST_SIZE_BOUND + b[0]);
      DigitsUnique(msgA, a[0], msgB, b[0], LIST_SIZE_BOUND);
      assert a == [a[0]] + a[1..] && b == [b[0]] + b[1..];
    }
  }

  /** How many words n packed indices, or n packed 64-bit fields, take. */
  lemma {:induction false} SameWordCounts(a: seq<int>, b: seq<int>)
    requires |a| == |b|
    ensures |PackedIndices(a)| == |PackedIndices(b)|
    ensures |PackedVaultsAndAmounts(a)| == |PackedVaultsAndAmounts(b)|
    decreases |a|
  {
    if a != [] {
      var k := NumIndicesToPack(|a|);
      SameWordCounts(a[k..], b[k..]);
    }
    if |a| >= 3 { SameWordCounts(a[3..], b[3..]); }
  }

  lemma {:induction false} PackedIndicesInjective(a: seq<int>, b: seq<int>)
    requires |a| == |b| && AllBelow(a, LIST_SIZE_BOUND) && AllBelow(b, LIST_SIZE_BOUND)
    requires PackedIndices(a) == PackedIndices(b)
    ensures a == b
    decreases |a|
  {
    if a != [] {
      var k := NumIndicesToPack(|a|);
      assert PackedIndices(a)[1..] == PackedIndices(a[k..]) && PackedIndices(b)[1..] == PackedIndices(b[k..]);
      assert PackedIndices(a)[0] == PackedIndices(b)[0];
      PackIndicesInjective(a[..k], b[..k], 0, 0);
      PackedIndicesInjective(a[k..], b[k..]);
      assert a == a[..k] + a[k..] && b == b[..k] + b[k..];
    }
  }

  lemma {:induction false} PackedVaultsInjective(a: seq<int>, b: seq<int>)
    requires |a| == |b| && AllBelow(a, TWO_64) && AllBelow(b, TWO_64)
    requires PackedVaultsAndAmounts(a) == PackedVaultsAndAmounts(b)
    ensures a == b
    decreases |a|
  {
    if |a| == 1 {
      assert PackedVaultsAndAmounts(a)[0] == PackedVaultsAndAmounts(b)[0];
    } else if |a| == 2 {
      assert PackedVaultsAndAmounts(a)[0] == PackedVaultsAndAmounts(b)[0];
      DigitsUnique(a[0], a[1], b[0], b[1], TWO_64);
    } else if |a| >= 3 {
      assert PackedVaultsAndAmounts(a)[1..] == PackedVaultsAndAmounts(a[3..])
             && PackedVaultsAndAmounts(b)[1..] == PackedVaultsAndAmounts(b[3..]);
      assert PackedVaultsAndAmounts(a)[0] == PackedVaultsAndAmounts(b)[0];
      DigitsUnique(a[0] * TWO_64 + a[1], a[2], b[0] * TWO_64 + b[1], b[2], TWO_64);
      DigitsUnique(a[0], a[1], b[0], b[1], TWO_64);
      PackedVaultsInjective(a[3..], b[3..]);
      assert a == [a[0], a[1], a[2]] + a[3..] && b == [b[0], b[1], b[2]] + b[3..];
    }
  }

  /** The lengths in the metadata, as one number. */
  function LengthWord(o: MultiAssetOrder, nThirdParty: int): int {
    ((|o.give| * LIST_SIZE_BOUND + |o.receive|) * LIST_SIZE_BOUND + nThirdParty) * LIST_SIZE_BOUND + |o.conditions|
  }

  const LENGTHS_BOUND: int := 0x1000000000000

  function HeadWord(o: MultiAssetOrder): int {
    (MULTI_ASSET_OFFCHAIN_ORDER_TYPE * TWO_32 + o.base.nonce) * TWO_32 + o.base.expirationTimestamp
  }

  lemma {:induction false} MetadataParts(o: MultiAssetOrder, n: int)
    requires Encodable(o) && 0 <= n < LIST_SIZE_BOUND
    ensures Metadata(o, n)
            == ((HeadWord(o) * LENGTHS_BOUND + LengthWord(o, n)) * SYSTEM_ID_BOUND + o.systemId) * PADDING
    ensures 0 <= LengthWord(o, n) < LENGTHS_BOUND
    ensures MULTI_ASSET_OFFCHAIN_ORDER_TYPE * TWO_64 <= HeadWord(o) < (MULTI_ASSET_OFFCHAIN_ORDER_TYPE + 1) * TWO_64
  {
  }

  /** The lengths are read back from their word. */
  lemma {:induction false} LengthsDetermined(a: MultiAssetOrder, b: MultiAssetOrder, nA: int, nB: int)
    requires Encodable(a) && Encodable(b) && 0 <= nA < LIST_SIZE_BOUND && 0 <= nB < LIST_SIZE_BOUND
    requires LengthWord(a, nA) == LengthWord(b, nB)
    ensures |a.give| == |b.give| && |a.receive| == |b.receive| && nA == nB && |a.conditions| == |b.conditions|
  {
    DigitsUnique((|a.give| * LIST_SIZE_BOUND + |a.receive|) * LIST_SIZE_BOUND + nA, |a.conditions|,
                 (|b.give| * LIST_SIZE_BOUND + |b.receive|) * LIST_SIZE_BOUND + nB, |b.conditions|, LIST_SIZE_BOUND);
    DigitsUnique(|a.give| * LIST_SIZE_BOUND + |a.receive|, nA, |b.give| * LIST_SIZE_BOUND + |b.receive|, nB,
                 LIST_SIZE_BOUND);
    DigitsUnique(|a.give|, |a.receive|, |b.give|, |b.receive|, LIST_SIZE_BOUND);
  }

  lemma {:induction false} HeadDetermined(a: MultiAssetOrder, b: MultiAssetOrder)
    requires Encodable(a) && Encodable(b) && HeadWord(a) == HeadWord(b)
    ensures a.base.nonce == b.base.nonce && a.base.expirationTimestamp == b.base.expirationTimestamp
  {
  }

  /** The metadata stays below 2^251, and its top ten bits are the order type. */
  lemma {:induction false} MetadataFits(o: MultiAssetOrder, n: int)
    requires Encodable(o) && 0 <= n < LIST_SIZE_BOUND
    ensures 0 <= Metadata(o, n) < TWO_251
    ensures MULTI_ASSET_OFFCHAIN_ORDER_TYPE * TWO_241 <= Metadata(o,
                                                                  n) < (MULTI_ASSET_OFFCHAIN_ORDER_TYPE + 1) * TWO_241
  {
    MetadataParts(o, n);
    hide Metadata, LengthWord, HeadWord;
  }

  /** The metadata determines the fixed fields and all lengths. */
  lemma {:induction false} MetadataDetermines(a: MultiAssetOrder, b: MultiAssetOrder, nA: int, nB: int)
    requires Encodable(a) && Encodable(b) && 0 <= nA < LIST_SIZE_BOUND && 0 <= nB < LIST_SIZE_BOUND
    requires Metadata(a, nA) == Metadata(b, nB)
    ensures && a.base.nonce == b.base.nonce && a.base.expirationTimestamp == b.base.expirationTimestamp
            && |a.give| == |b.give| && |a.receive| == |b.receive| && nA == nB
            && |a.conditions| == |b.conditions| && a.systemId == b.systemId
  {
    hide Metadata, LengthWord, HeadWord;
    MetadataParts(a, nA);
    MetadataParts(b, nB);
    assert 0 <= a.systemId < SYSTEM_ID_BOUND && 0 <= b.systemId < SYSTEM_ID_BOUND;
    hide Encodable;
    var wa, wb := HeadWord(a) * LENGTHS_BOUND + LengthWord(a, nA), HeadWord(b) * LENGTHS_BOUND + LengthWord(b, nB);
    assert wa * SYSTEM_ID_BOUND + a.systemId == wb * SYSTEM_ID_BOUND + b.systemId;
    DigitsUnique(wa, a.systemId, wb, b.systemId, SYSTEM_ID_BOUND);
    DigitsUnique(HeadWord(a), LengthWord(a, nA), HeadWord(b), LengthWord(b, nB), LENGTHS_BOUND);
    LengthsDetermined(a, b, nA, nB);
    HeadDetermined(a, b);
  }

  // ---- The arrays determine the lists ----

  /** Third-party keys and indices determine every key of the list. */
  lemma {:induction false} KeysDetermined(a: seq<VaultInfo>, b: seq<VaultInfo>, signer: int, index: nat)
    requires |a| == |b|
    requires ThirdPartyKeys(a, signer) == ThirdPartyKeys(b, signer)
    requires ThirdPartyIndices(a, signer, index) == ThirdPartyIndices(b, signer, index)
    ensures forall i :: 0 <= i < |a| ==> a[i].publicKey == b[i].publicKey
    decreases |a|
  {
    if a != [] {
      HeadKeys(a, signer, index);
      HeadKeys(b, signer, index);
      KeysDetermined(a[1..], b[1..], signer, index + 1);
      assert forall i :: 1 <= i < |a| ==> a[i] == a[1..][i - 1] && b[i] == b[1..][i - 1];
    }
  }

  /** Whether the head of the list belongs to a third party can be read from the indices. */
  lemma {:induction false} HeadKeys(infos: seq<VaultInfo>, signer: int, index: nat)
    requires infos != []
    ensures var ks, ns := ThirdPartyKeys(infos, signer), ThirdPartyIndices(infos, signer, index);
      && (infos[0].publicKey != signer <==> ns != [] && ns[0] == index)
      && (infos[0].publicKey != signer ==>
            && ks != [] && ks[0] == infos[0].publicKey
            && ThirdPartyKeys(infos[1..], signer) == ks[1..]
            && ThirdPartyIndices(infos[1..], signer, index + 1) == ns[1..])
      && (infos[0].publicKey == signer ==>
            ThirdPartyKeys(infos[1..], signer) == ks && ThirdPartyIndices(infos[1..], signer, index + 1) == ns)
  {
    var rest := ThirdPartyIndices(infos[1..], signer, index + 1);
    assert [] + rest == rest && [] + ThirdPartyKeys(infos[1..], signer) == ThirdPartyKeys(infos[1..], signer);
  }

  lemma {:induction false} FieldsDetermined(a: seq<VaultInfo>, b: seq<VaultInfo>)
    requires |a| == |b| && Assets(a) == Assets(b) && VaultsAndAmounts(a) == VaultsAndAmounts(b)
    ensures forall i :: 0 <= i < |a| ==>
            a[i].assetId == b[i].assetId && a[i].vaultId == b[i].vaultId && a[i].amount == b[i].amount
    decreases |a|
  {
    if a != [] {
      var va, vb := VaultsAndAmounts(a), VaultsAndAmounts(b);
      assert va[0] == a[0].vaultId && va[1] == a[0].amount && vb[0] == b[0].vaultId && vb[1] == b[0].amount;
      assert va[2..] == VaultsAndAmounts(a[1..]) && vb[2..] == VaultsAndAmounts(b[1..]);
      assert Assets(a)[0] == a[0].assetId && Assets(b)[0] == b[0].assetId;
      assert Assets(a)[1..] == Assets(a[1..]) && Assets(b)[1..] == Assets(b[1..]);
      FieldsDetermined(a[1..], b[1..]);
    }
  }

  lemma {:induction false} NoThirdParties(infos: seq<VaultInfo>, signer: int, index: nat)
    requires forall i :: 0 <= i < |infos| ==> infos[i].publicKey == signer
    ensures ThirdPartyKeys(infos, signer) == [] && ThirdPartyIndices(infos, signer, index) == []
    decreases |infos|
  {
    if infos != [] { NoThirdParties(infos[1..], signer, index + 1); }
  }

  lemma {:induction false} VaultFieldsFit(infos: seq<VaultInfo>)
    requires forall i :: 0 <= i < |infos| ==> ValidInfo(infos[i])
    ensures AllBelow(VaultsAndAmounts(infos), TWO_64)
    decreases |infos|
  {
    if infos != [] { VaultFieldsFit(infos[1..]); }
  }

  // ---- The felt list determines the order ----

  /** What an order's arrays look like. */
  lemma {:induction false} OrderArrays(o: MultiAssetOrder)
    requires Encodable(o)
    ensures |Indices(o)| == |Keys(o)| < LIST_SIZE_BOUND && AllBelow(Indices(o), LIST_SIZE_BOUND)
    ensures AllBelow(VaultsAndAmounts(o.receive) + VaultsAndAmounts(o.give), TWO_64)
  {
    VaultFieldsFit(o.receive);
    VaultFieldsFit(o.give);
  }

  /** In a valid order all third parties are in the receive list; their count then fits by itself. */
  lemma {:induction false} GiveIsOwn(o: MultiAssetOrder)
    requires forall i :: 0 <= i < |o.give| ==> o.give[i].publicKey == o.base.publicKey
    ensures Keys(o) == ThirdPartyKeys(o.receive, o.base.publicKey)
    ensures Indices(o) == ThirdPartyIndices(o.receive, o.base.publicKey, 0)
    ensures |Indices(o)| <= |o.receive|
  {
    NoThirdParties(o.give, o.base.publicKey, 0);
  }

  /** The packed words and the metadata never reach P: the encoding does not wrap. */
  lemma {:induction false} WordsFit(o: MultiAssetOrder)
    requires Encodable(o)
    ensures AllBelow(PackedVaultsAndAmounts(VaultsAndAmounts(o.receive) + VaultsAndAmounts(o.give)), TWO_251)
    ensures AllBelow(PackedIndices(Indices(o)), TWO_251)
    ensures 0 <= Metadata(o, |Indices(o)|) < TWO_251 < P
  {
    OrderArrays(o);
    VaultWordsFit(VaultsAndAmounts(o.receive) + VaultsAndAmounts(o.give));
    IndexWordsFit(Indices(o));
    MetadataFits(o, |Indices(o)|);
  }

  lemma {:induction false} ConcatSplit<T>(a: seq<T>, b: seq<T>, c: seq<T>, d: seq<T>)
    requires a + b == c + d && |a| == |c|
    ensures a == c && b == d
  {
    assert a == (a + b)[..|a|] && c == (c + d)[..|c|];
    assert b == (a + b)[|a|..] && d == (c + d)[|c|..];
  }

  lemma {:induction false} FeltsLength(o: MultiAssetOrder)
    ensures |FeltsToHash(o)| == |o.conditions| + |o.receive| + |o.give| + |Keys(o)|
                                + |PackedVaultsAndAmounts(VaultsAndAmounts(o.receive) + VaultsAndAmounts(o.give))|
                                    + |PackedIndices(Indices(o))| + 1
  {
    hide Metadata, PackedIndices, PackedVaultsAndAmounts, Assets, VaultsAndAmounts, Keys, Indices;
  }

  /** Same metadata, same lengths of every array. */
  lemma {:induction false} SameLengths(a: MultiAssetOrder, b: MultiAssetOrder)
    requires Encodable(a) && Encodable(b) && a.base.publicKey == b.base.publicKey
    requires Metadata(a, |Indices(a)|) == Metadata(b, |Indices(b)|)
    ensures |a.conditions| == |b.conditions| && |a.receive| == |b.receive| && |a.give| == |b.give|
    ensures |Keys(a)| == |Keys(b)| && |Indices(a)| == |Indices(b)|
    ensures |FeltsToHash(a)| == |FeltsToHash(b)|
  {
    hide Metadata, Encodable, PackedIndices, PackedVaultsAndAmounts, Assets, VaultsAndAmounts, ThirdPartyKeys,
      ThirdPartyIndices, Keys, Indices, FeltsToHash, AllBelow;
    OrderArrays(a);
    OrderArrays(b);
    MetadataDetermines(a, b, |Indices(a)|, |Indices(b)|);
    FeltsLength(a);
    FeltsLength(b);
    SameWordCounts(Indices(a), Indices(b));
    SameWordCounts(VaultsAndAmounts(a.receive) + VaultsAndAmounts(a.give),
                   VaultsAndAmounts(b.receive) + VaultsAndAmounts(b.give));
  }

  /** The same entries but for the keys of their owners. */
  predicate SameButKeys(a: seq<VaultInfo>, b: seq<VaultInfo>) {
    |a| == |b| && forall i :: 0 <= i < |a| ==> a[i].(publicKey := 0) == b[i].(publicKey := 0)
  }

  /** What the felt list holds of an order: everything but the keys, and of these only one list of
      third-party keys and one of positions, for receive and give entries together. */
  predicate SameFelts(a: MultiAssetOrder, b: MultiAssetOrder) {
    && a.base.nonce == b.base.nonce && a.base.expirationTimestamp == b.base.expirationTimestamp
    && a.systemId == b.systemId && a.conditions == b.conditions
    && SameButKeys(a.receive, b.receive) && SameButKeys(a.give, b.give)
    && Keys(a) == Keys(b) && Indices(a) == Indices(b)
  }

  /** For one signer and in-range fields, without the assumption on give keys: equal felt lists are
      exactly orders with the same entries, third-party keys and positions. */
  lemma {:induction false} FeltsExact(a: MultiAssetOrder, b: MultiAssetOrder)
    requires Encodable(a) && Encodable(b) && a.base.publicKey == b.base.publicKey
    ensures FeltsToHash(a) == FeltsToHash(b) <==> SameFelts(a, b)
  {
    hide Metadata, PackedIndices, PackedVaultsAndAmounts, Assets, VaultsAndAmounts, ThirdPartyKeys, ThirdPartyIndices,
      Keys, Indices;
    if FeltsToHash(a) == FeltsToHash(b) { EqualFeltsMean(a, b); }
    if SameFelts(a, b) { SameFeltsEqual(a, b); }
  }

  lemma {:induction false} EqualFeltsMean(a: MultiAssetOrder, b: MultiAssetOrder)
    requires Encodable(a) && Encodable(b) && a.base.publicKey == b.base.publicKey
    requires FeltsToHash(a) == FeltsToHash(b)
    ensures SameFelts(a, b)
  {
    hide Metadata, PackedIndices, PackedVaultsAndAmounts, Assets, VaultsAndAmounts, ThirdPartyKeys, ThirdPartyIndices,
      Keys, Indices;
    var la, lb := |FeltsToHash(a)| - 1, |FeltsToHash(b)| - 1;
    assert FeltsToHash(a)[la] == Metadata(a, |Indices(a)|) && FeltsToHash(b)[lb] == Metadata(b, |Indices(b)|);
    SameLengths(a, b);
    OrderArrays(a);
    OrderArrays(b);
    MetadataDetermines(a, b, |Indices(a)|, |Indices(b)|);
    var va, vb := VaultsAndAmounts(a.receive) + VaultsAndAmounts(a.give),
        VaultsAndAmounts(b.receive) + VaultsAndAmounts(b.give);
    SameWordCounts(va, vb);
    SplitFelts(a, b, va, vb);
    PackedVaultsInjective(va, vb);
    PackedIndicesInjective(Indices(a), Indices(b));
    ConcatSplit(VaultsAndAmounts(a.receive), VaultsAndAmounts(a.give), VaultsAndAmounts(b.receive),
                VaultsAndAmounts(b.give));
    ConcatSplit(Assets(a.receive), Assets(a.give), Assets(b.receive), Assets(b.give));
    FieldsDetermined(a.receive, b.receive);
    FieldsDetermined(a.give, b.give);
  }

  lemma {:induction false} SameFeltsEqual(a: MultiAssetOrder, b: MultiAssetOrder)
    requires SameFelts(a, b)
    ensures FeltsToHash(a) == FeltsToHash(b)
  {
    hide Keys, Indices;
    SameArrays(a.receive, b.receive);
    SameArrays(a.give, b.give);
    hide PackedIndices, PackedVaultsAndAmounts, Assets, VaultsAndAmounts;
  }

  lemma {:induction false} SameArrays(a: seq<VaultInfo>, b: seq<VaultInfo>)
    requires SameButKeys(a, b)
    ensures Assets(a) == Assets(b) && VaultsAndAmounts(a) == VaultsAndAmounts(b)
    decreases |a|
  {
    if a != [] {
      assert a[0].(publicKey := 0) == b[0].(publicKey := 0);
      assert forall i :: 0 <= i < |a[1..]| ==> a[1..][i] == a[i + 1] && b[1..][i] == b[i + 1];
      SameArrays(a[1..], b[1..]);
    }
  }

  /** For one signer and valid orders, the felt list determines the whole order. */
  lemma {:induction false} FeltsDetermineOrder(a: MultiAssetOrder, b: MultiAssetOrder)
    requires ValidOrder(a) && ValidOrder(b) && a.base.publicKey == b.base.publicKey
    ensures FeltsToHash(a) == FeltsToHash(b) <==> SameOrder(a, b)
  {
    FeltsExact(a, b);
    hide FeltsToHash, Encodable, Keys, Indices;
    if SameFelts(a, b) {
      GiveIsOwn(a);
      GiveIsOwn(b);
      KeysDetermined(a.receive, b.receive, a.base.publicKey, 0);
      SameEntries(a.receive, b.receive);
      SameEntries(a.give, b.give);
    }
    if SameOrder(a, b) { SameKeys(a, b); }
  }

  lemma {:induction false} SameEntries(a: seq<VaultInfo>, b: seq<VaultInfo>)
    requires SameButKeys(a, b) && forall i :: 0 <= i < |a| ==> a[i].publicKey == b[i].publicKey
    ensures a == b
  {
    forall i | 0 <= i < |a|
      ensures a[i] == b[i]
    {
      assert a[i].(publicKey := 0) == b[i].(publicKey := 0);
    }
  }

  lemma {:induction false} SameKeys(a: MultiAssetOrder, b: MultiAssetOrder)
    requires SameOrder(a, b) && a.base.publicKey == b.base.publicKey
    ensures Keys(a) == Keys(b) && Indices(a) == Indices(b)
  {
  }

  /** Without the assumption a position is ambiguous: one third party may own the receive entry or the
      give entry at the same position, with one hash under every pair hash. */
  lemma {:induction false} GiveKeysCollide(h: PairHash, signer: felt, other: int, r: VaultInfo, g: VaultInfo)
    requires signer != other && ValidInfo(r) && ValidInfo(g)
    ensures var base := OrderBase(0, signer, 0, 0, 0);
      var a := MultiAssetOrder(base, 0, [g.(publicKey := signer)], [r.(publicKey := other)], []);
      var b := MultiAssetOrder(base, 0, [g.(publicKey := other)], [r.(publicKey := signer)], []);
      && ValidOrder(a) && Encodable(b) && !ValidOrder(b)
      && !SameOrder(a, b) && MultiAssetOrderHash(h, a) == MultiAssetOrderHash(h, b)
  {
    var base := OrderBase(0, signer, 0, 0, 0);
    var a := MultiAssetOrder(base, 0, [g.(publicKey := signer)], [r.(publicKey := other)], []);
    var b := MultiAssetOrder(base, 0, [g.(publicKey := other)], [r.(publicKey := signer)], []);
    OneEntry(g.(publicKey := signer), signer);
    OneEntry(g.(publicKey := other), signer);
    OneEntry(r.(publicKey := signer), signer);
    OneEntry(r.(publicKey := other), signer);
    assert Keys(a) == [other] && Keys(b) == [other] && Indices(a) == [0] && Indices(b) == [0];
    assert a.give[0].publicKey == signer && b.give[0].publicKey == other;
    assert a.give[0].(publicKey := 0) == b.give[0].(publicKey := 0)
           && a.receive[0].(publicKey := 0) == b.receive[0].(publicKey := 0);
    SameFeltsEqual(a, b);
    hide FeltsToHash;
  }

  lemma {:induction false} OneEntry(info: VaultInfo, signer: int)
    ensures ThirdPartyKeys([info], signer) == if info.publicKey != signer then [info.publicKey] else []
    ensures ThirdPartyIndices([info], signer, 0) == if info.publicKey != signer then [0] else []
  {
    assert [info][1..] == [];
  }

  /** Cutting equal felt lists at equal lengths. */
  lemma {:induction false} SplitFelts(a: MultiAssetOrder, b: MultiAssetOrder, va: seq<int>, vb: seq<int>)
    requires FeltsToHash(a) == FeltsToHash(b)
    requires va == VaultsAndAmounts(a.receive) + VaultsAndAmounts(a.give)
             && vb == VaultsAndAmounts(b.receive) + VaultsAndAmounts(b.give)
    requires |a.conditions| == |b.conditions| && |a.receive| == |b.receive| && |a.give| == |b.give|
             && |Keys(a)| == |Keys(b)|
    requires |PackedVaultsAndAmounts(va)| == |PackedVaultsAndAmounts(vb)|
    ensures a.conditions == b.conditions && Assets(a.receive) + Assets(a.give) == Assets(b.receive) + Assets(b.give)
    ensures Keys(a) == Keys(b) && PackedVaultsAndAmounts(va) == PackedVaultsAndAmounts(vb)
    ensures PackedIndices(Indices(a)) == PackedIndices(Indices(b))
  {
    hide Metadata, PackedIndices, PackedVaultsAndAmounts, Assets, VaultsAndAmounts, Keys, Indices;
    var aa, ab := Assets(a.receive) + Assets(a.give), Assets(b.receive) + Assets(b.give);
    var pa, pb := PackedVaultsAndAmounts(va), PackedVaultsAndAmounts(vb);
    var ia, ib := PackedIndices(Indices(a)), PackedIndices(Indices(b));
    var ma, mb := [Metadata(a, |Indices(a)|)], [Metadata(b, |Indices(b)|)];
    ConcatSplit(a.conditions + aa + Keys(a) + pa, ia + ma, b.conditions + ab + Keys(b) + pb, ib + mb) by {
      assert FeltsToHash(a) == (a.conditions + aa + Keys(a) + pa) + (ia + ma);
      assert FeltsToHash(b) == (b.conditions + ab + Keys(b) + pb) + (ib + mb);
    }
    assert |ia + ma| == |ib + mb|;
    ConcatSplit(ia, ma, ib, mb);
    ConcatSplit(a.conditions + aa + Keys(a), pa, b.conditions + ab + Keys(b), pb);
    ConcatSplit(a.conditions + aa, Keys(a), b.conditions + ab, Keys(b));
    ConcatSplit(a.conditions, aa, b.conditions, ab);
  }

  // ---- The hash ----

  lemma {:induction false} HashFeltsLast(h: PairHash, data: seq<int>, initial: int)
    requires data != []
    ensures HashFelts(h, data, initial) == h(HashFelts(h, data[..|data| - 1], initial), data[|data| - 1])
    decreases |data|
  {
    if |data| > 1 {
      HashFeltsLast(h, data[1..], h(initial, data[0]));
      assert data[1..][..|data| - 2] == data[..|data| - 1][1..];
    } else {
      assert data[1..] == [] && data[..0] == [];
    }
  }

  /** Chains of equal length commit to their start and to every felt. */
  lemma {:induction false} HashFeltsInjective(h: PairHash, a: seq<int>, b: seq<int>, startA: int, startB: int)
    requires Injective(h) && |a| == |b|
    requires HashFelts(h, a, startA) == HashFelts(h, b, startB)
    ensures startA == startB && a == b
    decreases |a|
  {
    if a != [] {
      HashFeltsInjective(h, a[1..], b[1..], h(startA, a[0]), h(startB, b[0]));
      LinkInjective(h, startA, a[0], startB, b[0]);
      assert a == [a[0]] + a[1..] && b == [b[0]] + b[1..];
    } else {
      assert b == [];
    }
  }

  /** An order that gives, receives and requires nothing: its felt list is the metadata alone. */
  predicate IsEmpty(o: MultiAssetOrder) {
    o.give == [] && o.receive == [] && o.conditions == []
  }

  lemma {:induction false} EmptyIsMetadata(o: MultiAssetOrder)
    ensures IsEmpty(o) ==> FeltsToHash(o) == [Metadata(o, 0)]
    ensures !IsEmpty(o) ==> |FeltsToHash(o)| > 1
    ensures FeltsToHash(o)[|FeltsToHash(o)| - 1] == Metadata(o, |Indices(o)|)
  {
    hide Metadata;
    if IsEmpty(o) { assert Indices(o) == []; }
  }

  /** The metadata is the outermost value of the chain. */
  lemma {:induction false} MetadataOutermost(h: PairHash, o: MultiAssetOrder)
    requires !IsEmpty(o)
    ensures exists inner :: MultiAssetOrderHash(h, o) == h(inner, Metadata(o, |Indices(o)|))
  {
    hide Metadata, FeltsToHash;
    EmptyIsMetadata(o);
    var felts := FeltsToHash(o);
    HashFeltsLast(h, felts[1..], felts[0]);
    assert MultiAssetOrderHash(h, o) == h(HashFelts(h, felts[1..][..|felts| - 2], felts[0]), felts[|felts| - 1]);
  }

  /** For one signer and in-range fields, orders that are both empty, or both not, have equal hashes
      exactly when their felt lists hold the same. */
  lemma {:induction false} MultiAssetOrderHashExact(h: PairHash, a: MultiAssetOrder, b: MultiAssetOrder)
    requires Injective(h) && Encodable(a) && Encodable(b) && a.base.publicKey == b.base.publicKey
    requires IsEmpty(a) <==> IsEmpty(b)
    ensures MultiAssetOrderHash(h, a) == MultiAssetOrderHash(h, b) <==> SameFelts(a, b)
  {
    hide FeltsToHash, Metadata, Indices, Keys, SameFelts;
    EmptyIsMetadata(a);
    EmptyIsMetadata(b);
    FeltsExact(a, b);
    if MultiAssetOrderHash(h, a) == MultiAssetOrderHash(h, b) {
      var fa, fb := FeltsToHash(a), FeltsToHash(b);
      if !IsEmpty(a) {
        MetadataOutermost(h, a);
        MetadataOutermost(h, b);
        SameLengths(a, b);
        HashFeltsInjective(h, fa[1..], fb[1..], fa[0], fb[0]);
      }
      assert fa == [fa[0]] + fa[1..] && fb == [fb[0]] + fb[1..];
    }
  }

  /** The order hash commits to the whole order, for one signer: two valid orders that are both empty, or
      both not, have equal hashes exactly when they are the same order. */
  lemma {:induction false} MultiAssetOrderHashCommits(h: PairHash, a: MultiAssetOrder, b: MultiAssetOrder)
    requires Injective(h) && ValidOrder(a) && ValidOrder(b) && a.base.publicKey == b.base.publicKey
    requires IsEmpty(a) <==> IsEmpty(b)
    ensures MultiAssetOrderHash(h, a) == MultiAssetOrderHash(h, b) <==> SameOrder(a, b)
  {
    hide FeltsToHash, Encodable, SameFelts, SameOrder, MultiAssetOrderHash;
    MultiAssetOrderHashExact(h, a, b);
    FeltsExact(a, b);
    FeltsDetermineOrder(a, b);
  }

  /** A multi-asset order that is not empty shares its hash with no limit order and no transfer. */
  lemma {:induction false} MultiAssetOrderIsNoLimitOrTransfer(h: PairHash, o: MultiAssetOrder, limit: LimitFields,
                                                              t: TransferFields, condition: int)
    requires Injective(h) && Encodable(o) && !IsEmpty(o) && ValidLimitFields(limit) && ValidTransferFields(t)
    ensures MultiAssetOrderHash(h, o) != LimitOrderHash(h, limit)
    ensures MultiAssetOrderHash(h, o) != TransferHash(h, t, condition)
  {
    hide Metadata, FeltsToHash, LimitWord0, LimitWord1, TransferWord0, TransferWord1, Encodable, Indices;
    OrderArrays(o);
    MetadataFits(o, |Indices(o)|);
    MetadataOutermost(h, o);
    WordsBelowPrime(limit, t, condition);
    var inner :| MultiAssetOrderHash(h, o) == h(inner, Metadata(o, |Indices(o)|));
    if MultiAssetOrderHash(h, o) == LimitOrderHash(h, limit) {
      LinkInjective(h, inner, Metadata(o, |Indices(o)|),
                    h(h(h(limit.assetIdSell, limit.assetIdBuy), limit.assetIdFee), LimitWord0(limit)),
                        LimitWord1(limit));
    }
    var m := h(h(t.assetId, t.assetIdFee), t.receiverPublicKey);
    if MultiAssetOrderHash(h, o) == TransferHash(h, t, condition) {
      LinkInjective(h, inner, Metadata(o, |Indices(o)|),
                    h(if condition != 0 then h(m, condition) else m, TransferWord0(t)), TransferWord1(t, condition));
    }
  }

  // ---- Withdrawals ----

  /** The metadata of an order that gives and receives nothing and has one condition is the packed
      word of this withdrawal: both formats have order type 6. */
  predicate SharesWord(o: MultiAssetOrder, w: WithdrawalFields) {
    && w.positionId == o.base.nonce * TWO_32 + o.base.expirationTimestamp
    && w.nonce == 0
    && w.amount == TWO_48 + o.systemId / TWO_78
    && w.expirationTimestamp == o.systemId / TWO_46 % TWO_32
    && o.systemId % TWO_46 == 0
  }

  lemma {:induction false} SharedWordExact(o: MultiAssetOrder, w: WithdrawalFields)
    requires Encodable(o) && ValidWithdrawalFields(w)
    requires o.give == [] && o.receive == [] && |o.conditions| == 1
    ensures Metadata(o, 0) == WithdrawalWord(w, WITHDRAWAL_TYPE) <==> SharesWord(o, w)
  {
    var high, mid, low := o.systemId / TWO_78, o.systemId / TWO_46 % TWO_32, o.systemId % TWO_46;
    var position := o.base.nonce * TWO_32 + o.base.expirationTimestamp;
    SystemIdParts(o.systemId);
    assert Metadata(o, 0) == FiveFields(position, 0, TWO_48 + high, mid, low);
    assert WithdrawalWord(w, WITHDRAWAL_TYPE) == FiveFields(w.positionId, w.nonce, w.amount, w.expirationTimestamp, 0);
    hide Metadata, WithdrawalWord, FiveFields;
    FiveFieldsDetermine(position, 0, TWO_48 + high, mid, low, w.positionId, w.nonce, w.amount, w.expirationTimestamp,
                        0);
  }

  /** A word of type 6 with the fields of a withdrawal and 46 bits below them. */
  function FiveFields(position: int, nonce: int, amount: int, expiration: int, low: int): int {
    (((((WITHDRAWAL_TYPE * TWO_64 + position) * TWO_32 + nonce) * TWO_64 + amount) * TWO_32 + expiration) * TWO_46
     + low) * PADDING
  }

  lemma {:induction false} SystemIdParts(id: int)
    requires 0 <= id < SYSTEM_ID_BOUND
    ensures id == (id / TWO_78 * TWO_32 + id / TWO_46 % TWO_32) * TWO_46 + id % TWO_46
    ensures 0 <= id / TWO_78 < TWO_48 && 0 <= id / TWO_46 % TWO_32 < TWO_32
  {
  }

  lemma {:induction false} FiveFieldsDetermine(p: int, n: int, a: int, e: int, l: int, p2: int, n2: int, a2: int,
                                               e2: int, l2: int)
    requires Fits64(p) && Fits32(n) && Fits64(a) && Fits32(e) && 0 <= l < TWO_46
    requires Fits64(p2) && Fits32(n2) && Fits64(a2) && Fits32(e2) && 0 <= l2 < TWO_46
    ensures FiveFields(p, n, a, e, l) == FiveFields(p2, n2, a2, e2, l2) <==>
            p == p2 && n == n2 && a == a2 && e == e2 && l == l2
  {
    var w1, w2 := WITHDRAWAL_TYPE * TWO_64 + p, WITHDRAWAL_TYPE * TWO_64 + p2;
    var x1, x2 := w1 * TWO_32 + n, w2 * TWO_32 + n2;
    var y1, y2 := x1 * TWO_64 + a, x2 * TWO_64 + a2;
    var z1, z2 := y1 * TWO_32 + e, y2 * TWO_32 + e2;
    if FiveFields(p, n, a, e, l) == FiveFields(p2, n2, a2, e2, l2) {
      DigitsUnique(z1, l, z2, l2, TWO_46);
      DigitsUnique(y1, e, y2, e2, TWO_32);
      DigitsUnique(x1, a, x2, a2, TWO_64);
      DigitsUnique(w1, n, w2, n2, TWO_32);
    }
  }

  /** The chain of an order up to its metadata. */
  function BeforeMetadata(h: PairHash, o: MultiAssetOrder): int {
    var felts := FeltsToHash(o);
    if |felts| == 1 then felts[0] else HashFelts(h, felts[1..][..|felts| - 2], felts[0])
  }

  /** A multi-asset order that is not empty shares its hash with a withdrawal exactly when the
      withdrawal goes to the signer, the chain in front of the metadata is the collateral asset, and
      the packed words agree. */
  lemma {:induction false} MultiAssetOrderMeetsWithdrawal(h: PairHash, o: MultiAssetOrder, w: WithdrawalFields,
                                                          publicKey: int, asset: int)
    requires Injective(h) && Encodable(o) && !IsEmpty(o) && ValidWithdrawalFields(w)
    ensures MultiAssetOrderHash(h, o) == WithdrawalHash(h, w, publicKey, asset) <==>
            w.ownerKey == publicKey && BeforeMetadata(h, o) == asset
                && Metadata(o, |Indices(o)|) == WithdrawalWord(w, WITHDRAWAL_TYPE)
  {
    hide Metadata, FeltsToHash, WithdrawalWord, Encodable, ValidWithdrawalFields;
    var kind := if w.ownerKey != publicKey then WITHDRAWAL_TO_OWNER_KEY_TYPE else WITHDRAWAL_TYPE;
    var start := if w.ownerKey != publicKey then h(asset, w.ownerKey) else asset;
    var felts, metadata := FeltsToHash(o), Metadata(o, |Indices(o)|);
    EmptyIsMetadata(o);
    OrderArrays(o);
    MetadataFits(o, |Indices(o)|);
    WithdrawalWordFits(w, kind);
    HashFeltsLast(h, felts[1..], felts[0]);
    assert MultiAssetOrderHash(h, o) == h(BeforeMetadata(h, o), metadata);
    if MultiAssetOrderHash(h, o) == WithdrawalHash(h, w, publicKey, asset) {
      LinkInjective(h, BeforeMetadata(h, o), metadata, start, WithdrawalWord(w, kind));
    }
  }

  /** If the collateral asset id is no value of the pair hash, these are exactly the orders that give
      and receive nothing, have the collateral asset as their one condition, and share the word. */
  lemma {:induction false} WithdrawalLikeOrders(h: PairHash, o: MultiAssetOrder, w: WithdrawalFields, publicKey: int,
                                                asset: int)
    requires Injective(h) && (forall x, y :: h(x, y) != asset)
    requires Encodable(o) && !IsEmpty(o) && ValidWithdrawalFields(w)
    ensures MultiAssetOrderHash(h, o) == WithdrawalHash(h, w, publicKey, asset) <==>
            o.give == [] && o.receive == [] && o.conditions == [asset] && w.ownerKey == publicKey && SharesWord(o, w)
  {
    MultiAssetOrderMeetsWithdrawal(h, o, w, publicKey, asset);
    EmptyIsMetadata(o);
    ShortOrder(o);
    ChainIsAsset(h, o, asset);
    hide Metadata, FeltsToHash, WithdrawalWord, Encodable, ValidWithdrawalFields, SharesWord, MultiAssetOrderHash,
      BeforeMetadata;
    if |FeltsToHash(o)| == 2 { SharedWordExact(o, w); }
  }

  lemma {:induction false} ChainIsAsset(h: PairHash, o: MultiAssetOrder, asset: int)
    requires (forall x, y :: h(x, y) != asset) && |FeltsToHash(o)| > 1
    ensures BeforeMetadata(h, o) == asset <==> |FeltsToHash(o)| == 2 && FeltsToHash(o)[0] == asset
  {
    hide FeltsToHash, HashFelts;
    InnerIsAsset(h, FeltsToHash(o)[1..][..|FeltsToHash(o)| - 2], FeltsToHash(o)[0], asset);
  }

  /** A chain that ends in no hash value has no link. */
  lemma {:induction false} InnerIsAsset(h: PairHash, data: seq<int>, start: int, asset: int)
    requires forall x, y :: h(x, y) != asset
    ensures HashFelts(h, data, start) == asset <==> data == [] && start == asset
  {
    if data != [] {
      HashFeltsLast(h, data, start);
      var x, y := HashFelts(h, data[..|data| - 1], start), data[|data| - 1];
      assert h(x, y) != asset;
    }
  }

  /** The orders whose chain has one link. */
  lemma {:induction false} ShortOrder(o: MultiAssetOrder)
    ensures |FeltsToHash(o)| == 2 <==> o.give == [] && o.receive == [] && |o.conditions| == 1
    ensures |FeltsToHash(o)| == 2 ==> FeltsToHash(o)[0] == o.conditions[0] && Indices(o) == []
  {
    hide Metadata, PackIndices;
  }

  /** For every pair hash: the order with the one condition and no other content, nonce, expiration and
      system id zero, is the withdrawal of 2^48 units from position 0. */
  lemma {:induction false} OrderHashIsWithdrawalHash(h: PairHash, publicKey: int, asset: int)
    ensures var o := MultiAssetOrder(OrderBase(0, 0, 0, 0, 0), 0, [], [], [asset]);
      ValidOrder(o) && MultiAssetOrderHash(h, o)
          == WithdrawalHash(h, WithdrawalFields(0, publicKey, TWO_48, 0, 0), publicKey, asset)
  {
    var o := MultiAssetOrder(OrderBase(0, 0, 0, 0, 0), 0, [], [], [asset]);
    var w := WithdrawalFields(0, publicKey, TWO_48, 0, 0);
    SharedWordExact(o, w);
    hide Metadata, WithdrawalWord;
    ShortOrder(o);
    EmptyIsMetadata(o);
    hide FeltsToHash, Indices;
    assert FeltsToHash(o) == [asset, Metadata(o, 0)];
    assert FeltsToHash(o)[1..] == [Metadata(o, 0)] && [Metadata(o, 0)][1..] == [];
    assert HashFelts(h, [Metadata(o, 0)], asset) == HashFelts(h, [], h(asset, Metadata(o, 0)));
  }

  // ---- Empty orders ----

  /** A pair hash like h, with the values u and v exchanged. */
  function Exchange(h: PairHash, u: int, v: int): PairHash {
    (x: int, y: int) => if h(x, y) == u then v else if h(x, y) == v then u else h(x, y)
  }

  lemma {:induction false} ExchangeInjective(h: PairHash, u: int, v: int)
    requires Injective(h)
    ensures Injective(Exchange(h, u, v))
  {
  }

  /** An injective hash like h whose values are all at least `low`. */
  function Above(h: PairHash, low: int): PairHash {
    (x: int, y: int) => if h(x, y) >= 0 then low + 2 * h(x, y) else low - 2 * h(x, y) - 1
  }

  lemma {:induction false} AboveInjective(h: PairHash, low: int)
    requires Injective(h)
    ensures Injective(Above(h, low))
    ensures forall x, y :: Above(h, low)(x, y) >= low
  {
  }

  lemma {:induction false} ChainStep(h: PairHash, data: seq<int>, start: int, i: nat)
    requires i < |data|
    ensures HashFelts(h, data[..i + 1], start) == h(HashFelts(h, data[..i], start), data[i])
  {
    HashFeltsLast(h, data[..i + 1], start);
    assert data[..i + 1][..i] == data[..i];
  }

  /** A chain that starts below all hash values never meets one value twice. */
  lemma {:induction false} ChainValuesDiffer(h: PairHash, low: int, data: seq<int>, start: int, i: nat, j: nat)
    requires Injective(h) && (forall x, y :: h(x, y) >= low) && start < low
    requires i < j <= |data|
    ensures HashFelts(h, data[..i], start) != HashFelts(h, data[..j], start)
    decreases i
  {
    ChainStep(h, data, start, j - 1);
    if i == 0 {
      assert HashFelts(h, data[..i], start) == start;
      var inner, x := HashFelts(h, data[..j - 1], start), data[j - 1];
      assert h(inner, x) >= low;
      assert HashFelts(h, data[..j], start) == h(inner, x);
    } else {
      ChainStep(h, data, start, i - 1);
      ChainValuesDiffer(h, low, data, start, i - 1, j - 1);
      if HashFelts(h, data[..i], start) == HashFelts(h, data[..j], start) {
        LinkInjective(h, HashFelts(h, data[..i - 1], start), data[i - 1], HashFelts(h, data[..j - 1], start),
                      data[j - 1]);
      }
    }
  }

  /** Exchanging a value below the hash values with the last value of a chain changes its last link only. */
  lemma {:induction false} ExchangedChain(h: PairHash, low: int, data: seq<int>, start: int, target: int, i: nat)
    requires Injective(h) && (forall x, y :: h(x, y) >= low) && start < low && target < low
    requires i < |data|
    ensures HashFelts(Exchange(h, HashFelts(h, data, start), target), data[..i], start)
            == HashFelts(h, data[..i], start)
    decreases i
  {
    var g := Exchange(h, HashFelts(h, data, start), target);
    if i == 0 {
      assert data[..0] == [];
    } else {
      ExchangedChain(h, low, data, start, target, i - 1);
      ChainStep(h, data, start, i - 1);
      ChainStep(g, data, start, i - 1);
      ChainValuesDiffer(h, low, data, start, i, |data|);
      assert data[..|data|] == data;
    }
  }

  /** Without a link in the chain, the hash of an empty order is its bare metadata, which some
      injective hash also gives to any order that is not empty. */
  lemma {:induction false} EmptyOrderCollides(h: PairHash, empty: MultiAssetOrder,
                                              other: MultiAssetOrder) returns (g: PairHash)
    requires Injective(h) && IsEmpty(empty) && !IsEmpty(other)
    ensures Injective(g) && MultiAssetOrderHash(g, empty) == MultiAssetOrderHash(g, other)
    ensures !SameOrder(empty, other)
  {
    hide FeltsToHash, Metadata, Indices;
    EmptyIsMetadata(empty);
    EmptyIsMetadata(other);
    var felts, target := FeltsToHash(other), Metadata(empty, 0);
    var data, start := felts[1..], felts[0];
    var low := (if start > target then start else target) + 1;
    AboveInjective(h, low);
    var above := Above(h, low);
    var last := HashFelts(above, data, start);
    g := Exchange(above, last, target);
    ExchangeInjective(above, last, target);
    var n := |data| - 1;
    ExchangedChain(above, low, data, start, target, n);
    ChainStep(above, data, start, n);
    ChainStep(g, data, start, n);
    assert data[..n + 1] == data;
    assert FeltsToHash(empty)[1..] == [];
  }

  /** For which pairs of orders the hash commits: exactly those that are both empty or both not. */
  lemma {:induction false} CommitmentCondition(h: PairHash, a: MultiAssetOrder, b: MultiAssetOrder)
    requires Injective(h) && ValidOrder(a) && ValidOrder(b) && a.base.publicKey == b.base.publicKey
    ensures (forall g: PairHash :: Injective(g) && MultiAssetOrderHash(g, a) == MultiAssetOrderHash(g, b) ==>
             SameOrder(a, b))
            <==> (IsEmpty(a) <==> IsEmpty(b))
  {
    hide MultiAssetOrderHash, Injective, ValidOrder;
    if IsEmpty(a) <==> IsEmpty(b) {
      forall g: PairHash | Injective(g) && MultiAssetOrderHash(g, a) == MultiAssetOrderHash(g, b)
        ensures SameOrder(a, b)
      {
        MultiAssetOrderHashCommits(g, a, b);
      }
    } else if IsEmpty(a) {
      var g := EmptyOrderCollides(h, a, b);
    } else {
      var g := EmptyOrderCollides(h, b, a);
    }
  }
}
