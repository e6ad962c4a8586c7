/** The position hash that the state tree stores (position/hash.cairo), as a commitment. */
module PositionHash {
  import opened Felt
  import opened PerpetualTypes
  import opened MessageHashes
  import opened UpdatePosition
  import opened Arithmetic
  import opened Batch
  import opened BatchInvariants
  import opened BatchRuns

  const FUNDING_INDEX_RANGE: int := FUNDING_INDEX_UPPER_BOUND - FUNDING_INDEX_LOWER_BOUND
  const BALANCE_RANGE: int := BALANCE_UPPER_BOUND - BALANCE_LOWER_BOUND

  /** asset_packed in position_hash_assets. */
  function AssetPacked(a: PositionAsset): int {
    (a.assetId * FUNDING_INDEX_RANGE + (a.cachedFundingIndex - FUNDING_INDEX_LOWER_BOUND)) * BALANCE_RANGE
    + (a.balance - BALANCE_LOWER_BOUND)
  }

  /** position_hash_assets: folds the packed words into the current hash. */
  function PositionHashAssets(h: PairHash, assets: seq<PositionAsset>, currentHash: int): int {
    if assets == [] then currentHash
    else PositionHashAssets(h, assets[1..], h(currentHash, AssetPacked(assets[0])))
  }

  function CountWord(p: Position): int {
    (p.collateral - BALANCE_LOWER_BOUND) * N_ASSETS_UPPER_BOUND + |p.assets|
  }

  /** position_hash. */
  function PositionHash(h: PairHash, p: Position): int {
    h(h(PositionHashAssets(h, p.assets, 0), p.publicKey), CountWord(p))
  }

  /** The ranges position_hash assumes. */
  predicate HashableAsset(a: PositionAsset) {
    && 0 <= a.assetId < ASSET_ID_UPPER_BOUND
    && FUNDING_INDEX_LOWER_BOUND <= a.cachedFundingIndex < FUNDING_INDEX_UPPER_BOUND
    && BALANCE_LOWER_BOUND <= a.balance < BALANCE_UPPER_BOUND
  }

  predicate Hashable(p: Position) {
    && ValidBalance(p.collateral)
    && |p.assets| < N_ASSETS_UPPER_BOUND
    && forall i :: 0 <= i < |p.assets| ==> HashableAsset(p.assets[i])
  }

  /** Every stored position is in the ranges that hashing assumes. */
  lemma {:induction false} ValidIsHashable(p: Position)
    requires ValidPosition(p)
    ensures Hashable(p)
  {
    forall i | 0 <= i < |p.assets|
      ensures HashableAsset(p.assets[i])
    {
      assert ValidAsset(p.assets[i]);
    }
  }

  /** No packed word reaches the field size, so packing does not wrap, and it is injective. */
  lemma {:induction false} PackedWords(a: PositionAsset, b: PositionAsset)
    requires HashableAsset(a) && HashableAsset(b)
    ensures 0 <= AssetPacked(a) < P
    ensures AssetPacked(a) == AssetPacked(b) ==> a == b
  {
    var ha := a.assetId * FUNDING_INDEX_RANGE + (a.cachedFundingIndex - FUNDING_INDEX_LOWER_BOUND);
    var hb := b.assetId * FUNDING_INDEX_RANGE + (b.cachedFundingIndex - FUNDING_INDEX_LOWER_BOUND);
    if AssetPacked(a) == AssetPacked(b) {
      DigitsUnique(ha, a.balance - BALANCE_LOWER_BOUND, hb, b.balance - BALANCE_LOWER_BOUND, BALANCE_RANGE);
      DigitsUnique(a.assetId, a.cachedFundingIndex - FUNDING_INDEX_LOWER_BOUND,
                   b.assetId, b.cachedFundingIndex - FUNDING_INDEX_LOWER_BOUND, FUNDING_INDEX_RANGE);
    }
  }

  lemma {:induction false} CountWords(p: Position, q: Position)
    requires Hashable(p) && Hashable(q)
    ensures 0 <= CountWord(p) < P
    ensures CountWord(p) == CountWord(q) ==> p.collateral == q.collateral && |p.assets| == |q.assets|
  {
    if CountWord(p) == CountWord(q) {
      DigitsUnique(p.collateral - BALANCE_LOWER_BOUND, |p.assets|, q.collateral - BALANCE_LOWER_BOUND, |q.assets|,
                   N_ASSETS_UPPER_BOUND);
    }
  }

  /** Chains of the same length commit to their start and to every word. */
  lemma {:induction false} AssetChainInjective(h: PairHash, a: seq<PositionAsset>, b: seq<PositionAsset>, startA: int,
                                               startB: int)
    requires Injective(h) && |a| == |b|
    requires forall i :: 0 <= i < |a| ==> HashableAsset(a[i]) && HashableAsset(b[i])
    requires PositionHashAssets(h, a, startA) == PositionHashAssets(h, b, startB)
    ensures startA == startB && a == b
  {
    if a != [] {
      AssetChainInjective(h, a[1..], b[1..], h(startA, AssetPacked(a[0])), h(startB, AssetPacked(b[0])));
      PackedWords(a[0], b[0]);
      assert a == [a[0]] + a[1..] && b == [b[0]] + b[1..];
    }
  }

  /** The position hash commits to the key, the collateral and the whole asset list, for positions
      of any asset counts: the count sits in the outermost word. It does not commit to the funding
      timestamp. */
  lemma {:induction false} PositionHashCommits(h: PairHash, p: Position, q: Position)
    requires Injective(h) && Hashable(p) && Hashable(q)
    ensures PositionHash(h, p) == PositionHash(h, q) <==>
            p.publicKey == q.publicKey && p.collateral == q.collateral && p.assets == q.assets
  {
    if PositionHash(h, p) == PositionHash(h, q) {
      CountWords(p, q);
      AssetChainInjective(h, p.assets, q.assets, 0, 0);
    }
  }

  /** Over any batch, a leaf of the position tree changes exactly when the position has changed in more
      than its timestamp, and it is the leaf of an empty position exactly when the position has no owner. */
  lemma {:induction false} LeavesCommit(h: PairHash, s: State, cfg: BatchConfig, txs: seq<Transaction>, i: nat)
    requires Injective(h) && Ready(s, cfg) && ExecuteTransactions(s, cfg, txs).Done? && i < |s.positions|
    ensures var ps := ExecuteTransactions(s, cfg, txs).value.positions;
      && i < |ps|
      && (PositionHash(h, ps[i]) == PositionHash(h, s.positions[i]) <==>
            ps[i] == s.positions[i].(fundingTimestamp := ps[i].fundingTimestamp))
      && (PositionHash(h, ps[i]) == PositionHash(h, EMPTY_POSITION) <==> ps[i].publicKey == 0)
  {
    hide ExecuteTransactions, PositionHash, Hashable;
    RunAccounts(s, cfg, txs);
    var p, q := s.positions[i], ExecuteTransactions(s, cfg, txs).value.positions[i];
    assert ValidPosition(p) && ValidPosition(q) && ValidPosition(EMPTY_POSITION);
    ValidIsHashable(p);
    ValidIsHashable(q);
    ValidIsHashable(EMPTY_POSITION);
    PositionHashCommits(h, q, p);
    PositionHashCommits(h, q, EMPTY_POSITION);
  }

  // ---- hash_position_updates ----

  datatype DictEntry = DictEntry(key: int, prev: Position, next: Position)
  datatype HashedEntry = HashedEntry(key: int, prev: int, next: int)

  /** hash_position_updates_inner. The prover chooses for each entry whether the new hash is
      recomputed; the branch that reuses the old hash asserts that the position did not change. */
  function HashUpdates(h: PairHash, updates: seq<DictEntry>, recompute: seq<bool>): Outcome<seq<HashedEntry>>
    requires |recompute| == |updates|
  {
    if updates == [] then Done([])
    else
      var u := updates[0];
      var prev := PositionHash(h, u.prev);
      var _ :- Require(recompute[0] || u.prev == u.next);
      var rest :- HashUpdates(h, updates[1..], recompute[1..]);
      Done([HashedEntry(u.key, prev, if recompute[0] then PositionHash(h, u.next) else prev)] + rest)
  }

  /** Whatever the prover chooses, an accepted run maps every entry to the hashes of its positions;
      and a hashed entry shows a change exactly when the position changed in more than its
      timestamp. */
  lemma {:induction false} HashUpdatesExact(h: PairHash, updates: seq<DictEntry>, recompute: seq<bool>)
    requires |recompute| == |updates|
    requires Injective(h) && forall i :: 0 <= i < |updates| ==> Hashable(updates[i].prev) && Hashable(updates[i].next)
    requires HashUpdates(h, updates, recompute).Done?
    ensures var r := HashUpdates(h, updates, recompute).value;
      && |r| == |updates|
      && forall i :: 0 <= i < |updates| ==>
           && r[i] == HashedEntry(updates[i].key, PositionHash(h, updates[i].prev), PositionHash(h, updates[i].next))
           && (r[i].prev == r[i].next <==>
               updates[i].next == updates[i].prev.(fundingTimestamp := updates[i].next.fundingTimestamp))
  {
    hide PositionHash, Injective, Hashable;
    if updates != [] {
      var rest := updates[1..];
      HashUpdatesExact(h, rest, recompute[1..]);
      var r := HashUpdates(h, updates, recompute).value;
      var tail := HashUpdates(h, rest, recompute[1..]).value;
      forall i | 0 <= i < |updates|
        ensures r[i] == HashedEntry(updates[i].key, PositionHash(h, updates[i].prev), PositionHash(h, updates[i].next))
        ensures r[i].prev == r[i].next <==>
                updates[i].next == updates[i].prev.(fundingTimestamp := updates[i].next.fundingTimestamp)
      {
        if i == 0 {
          PositionHashCommits(h, updates[0].prev, updates[0].next);
        } else {
          assert r[i] == tail[i - 1] && updates[i] == rest[i - 1];
        }
      }
    }
  }

  /** hash_position_updates_inner as it fills the output array from position i on. */
  method FillHashedUpdates(h: PairHash, updates: seq<DictEntry>, recompute: seq<bool>, i: nat,
                           hashed: array<HashedEntry>) returns (ok: bool)
    requires |recompute| == |updates| == hashed.Length && i <= |updates|
    modifies hashed
    ensures ok <==> HashUpdates(h, updates[i..], recompute[i..]).Done?
    ensures ok ==> hashed[i..] == HashUpdates(h, updates[i..], recompute[i..]).value
    ensures hashed[..i] == old(hashed[..i])
    decreases |updates| - i
  {
    hide PositionHash;
    if i == |updates| { return true; }
    var u := updates[i];
    var prev := PositionHash(h, u.prev);
    if !recompute[i] && u.prev != u.next { return false; }
    hashed[i] := HashedEntry(u.key, prev, if recompute[i] then PositionHash(h, u.next) else prev);
    ghost var entry := hashed[i];
    ok := FillHashedUpdates(h, updates, recompute, i + 1, hashed);
    assert updates[i..][1..] == updates[i + 1..] && recompute[i..][1..] == recompute[i + 1..];
    assert hashed[i] == hashed[..i + 1][i] == entry;
    assert hashed[i..] == [hashed[i]] + hashed[i + 1..];
    assert hashed[..i] == hashed[..i + 1][..i];
  }
}
