/** Sums over the vault dictionaries, and how one dictionary write changes them. */
module DexTotals {
  import opened Dex

  /** The sum of a finite map's values, taken in an arbitrary order. */
  ghost function SumMap<K>(m: map<K, int>): int
    decreases |m|
  {
    if m == map[] then 0
    else
      var k :| k in m;
      m[k] + SumMap(m - {k})
  }

  /** The order does not matter: any key can be taken out first. */
  lemma {:induction false} SumMapRemove<K>(m: map<K, int>, k: K)
    requires k in m
    ensures SumMap(m) == m[k] + SumMap(m - {k})
    decreases |m|
  {
    var first :| first in m && SumMap(m) == m[first] + SumMap(m - {first});
    if first != k {
      SumMapRemove(m - {first}, k);
      SumMapRemove(m - {k}, first);
      assert m - {first} - {k} == m - {k} - {first};
    }
  }

  /** Writing one key changes the sum by the change of its value. */
  lemma {:induction false} SumMapUpdate<K>(m: map<K, int>, k: K, v: int)
    ensures SumMap(m[k := v]) == SumMap(m) - (if k in m then m[k] else 0) + v
  {
    var n := m[k := v];
    SumMapRemove(n, k);
    if k in m {
      SumMapRemove(m, k);
      assert n - {k} == m - {k};
    } else {
      assert n - {k} == m;
    }
  }

  /** The units of a token that a vault holds. */
  function UnitsOf(v: VaultState, tokenId: int): int {
    if v.tokenId == tokenId then v.balance else 0
  }

  ghost function L2Total(vaults: Vaults, tokenId: int): int {
    SumMap(map i | i in vaults :: UnitsOf(vaults[i], tokenId))
  }

  ghost function L1Total(l1Vaults: L1Vaults, tokenId: int): int {
    SumMap(map k | k in l1Vaults :: if k.tokenId == tokenId then l1Vaults[k] else 0)
  }

  /** All units of a token on the ledger. */
  ghost function Total(s: Ledger, tokenId: int): int {
    L2Total(s.vaults, tokenId) + L1Total(s.l1Vaults, tokenId)
  }

  lemma {:induction false} L2TotalUpdate(vaults: Vaults, index: int, v: VaultState, tokenId: int)
    ensures L2Total(vaults[index := v], tokenId) ==
            L2Total(vaults, tokenId) - UnitsOf(VaultAt(vaults, index), tokenId) + UnitsOf(v, tokenId)
  {
    var m := map i | i in vaults :: UnitsOf(vaults[i], tokenId);
    var after := vaults[index := v];
    SumMapUpdate(m, index, UnitsOf(v, tokenId));
    assert (map i | i in after :: UnitsOf(after[i], tokenId)) == m[index := UnitsOf(v, tokenId)];
  }

  lemma {:induction false} L1TotalUpdate(l1Vaults: L1Vaults, key: L1Key, balance: int, tokenId: int)
    requires key in l1Vaults
    ensures L1Total(l1Vaults[key := balance], tokenId) ==
            L1Total(l1Vaults, tokenId) + (if key.tokenId == tokenId then balance - l1Vaults[key] else 0)
  {
    var m := map k | k in l1Vaults :: if k.tokenId == tokenId then l1Vaults[k] else 0;
    var after := l1Vaults[key := balance];
    var x := if key.tokenId == tokenId then balance else 0;
    SumMapUpdate(m, key, x);
    assert (map k | k in after :: if k.tokenId == tokenId then after[k] else 0) == m[key := x];
  }
}
