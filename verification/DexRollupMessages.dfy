/** What the 31-bit messages commit to when they name rollup vaults, whose ids start at 2^63: the packed
    word overflows its fields and is a field element, so it is taken modulo P. The collisions with
    messages that are in range are determined exactly. */
module DexRollupMessages {
  import opened Felt
  import opened Arithmetic
  import opened MessageHashes
  import opened Dex
  import opened DexMessages

  /** What is left when P is taken off the word of a rollup sell vault: 2^22 * P, which is
      2^273 + 272 * 2^210 + 2^22. */
  const WRAP: int := 0x400000 * P

  /** The least excess of a rollup vault index at which the wrapped word is not negative. */
  const WRAPPED_VAULTS: int := 272

  function Word31(m: Message31): int {
    Packed31(m.orderType, m.vault0, m.vault1, m.amount0, m.amount1, m.nonce, m.expiration)
  }

  /** What the checks of a transaction establish of its message: everything but the vault ids. */
  predicate Checked31(m: Message31) {
    && 0 <= m.orderType <= CONDITIONAL_TRANSFER_ORDER_TYPE_31
    && 0 <= m.vault0 && 0 <= m.vault1
    && 0 <= m.amount0 < BALANCE_BOUND && 0 <= m.amount1 < BALANCE_BOUND
    && 0 <= m.nonce < DEX_NONCE_BOUND && 0 <= m.expiration < DEX_EXPIRATION_BOUND
    && (m.condition != 0 <==> m.orderType == CONDITIONAL_TRANSFER_ORDER_TYPE_31)
  }

  predicate IsRollup(vault: int) {
    ROLLUP_VAULT_BIT <= vault < ROLLUP_VAULT_BIT + VAULT_SHIFT_31
  }

  /** A vault of one of the two trees, of at most 31 levels each. */
  predicate InTree(vault: int) {
    0 <= vault < VAULT_SHIFT_31 || IsRollup(vault)
  }

  predicate InTrees31(m: Message31) {
    Checked31(m) && InTree(m.vault0) && InTree(m.vault1)
  }

  // ---- Words ----

  lemma {:induction false} HashIsLink(h: PairHash, m: Message31)
    ensures HashOf(h, m) == h(Partial31(h, m), Reduce(Word31(m)))
  {
    hide Packed31, Reduce;
  }

  /** In-range messages have words below 3 * 2^241, and their type is the leading digit. */
  lemma {:induction false} ValidWord(m: Message31)
    requires Valid31(m)
    ensures m.orderType * TWO_241 <= Word31(m) < (m.orderType + 1) * TWO_241
    ensures Reduce(Word31(m)) == Word31(m)
  {
    hide Reduce;
  }

  /** The in-range fields of a word. */
  function Unpacked(r: int, token0: int, token1OrKey: int, condition: int): Message31 {
    var n := r / DEX_EXPIRATION_BOUND;
    var a1 := n / DEX_NONCE_BOUND;
    var a0 := a1 / BALANCE_BOUND;
    var v1 := a0 / BALANCE_BOUND;
    var v0 := v1 / VAULT_SHIFT_31;
    Message31(v0 / VAULT_SHIFT_31, v0 % VAULT_SHIFT_31, v1 % VAULT_SHIFT_31, a0 % BALANCE_BOUND, a1 % BALANCE_BOUND,
              token0, token1OrKey, n % DEX_NONCE_BOUND, r % DEX_EXPIRATION_BOUND, condition)
  }

  lemma {:induction false} UnpackedPacks(r: int, token0: int, token1OrKey: int, condition: int)
    requires 0 <= r < 3 * TWO_241
    requires condition != 0 <==> r >= 2 * TWO_241
    ensures var m := Unpacked(r, token0, token1OrKey, condition);
      Valid31(m) && Word31(m) == r
  {
    var n := r / DEX_EXPIRATION_BOUND;
    var a1 := n / DEX_NONCE_BOUND;
    var a0 := a1 / BALANCE_BOUND;
    var v1 := a0 / BALANCE_BOUND;
    var v0 := v1 / VAULT_SHIFT_31;
    assert r == n * DEX_EXPIRATION_BOUND + r % DEX_EXPIRATION_BOUND;
    assert n == a1 * DEX_NONCE_BOUND + n % DEX_NONCE_BOUND;
    assert a1 == a0 * BALANCE_BOUND + a1 % BALANCE_BOUND;
    assert a0 == v1 * BALANCE_BOUND + a0 % BALANCE_BOUND;
    assert v1 == v0 * VAULT_SHIFT_31 + v1 % VAULT_SHIFT_31;
    assert v0 == v0 / VAULT_SHIFT_31 * VAULT_SHIFT_31 + v0 % VAULT_SHIFT_31;
  }

  // ---- The exact collisions with in-range messages ----

  /** The token of the message stands for a hashed pair, as a conditional transfer has in its place. */
  ghost predicate HidesCondition(h: PairHash, m: Message31) {
    m.token1OrKey != 0 && exists x, y :: h(x, y) == m.token0
  }

  /** The reduced word has an in-range type, which may be the conditional one only where the chain has
      room for a condition. */
  ghost predicate Collides(h: PairHash, m: Message31) {
    var r := Reduce(Word31(m));
    r < 3 * TWO_241 && (r >= 2 * TWO_241 && m.condition == 0 ==> HidesCondition(h, m))
  }

  lemma {:induction false} CollisionFound(h: PairHash, m: Message31) returns (b: Message31)
    requires Collides(h, m)
    ensures Valid31(b) && HashOf(h, b) == HashOf(h, m)
  {
    hide Word31, Reduce, Unpacked;
    var r := Reduce(Word31(m));
    HashIsLink(h, m);
    if r >= 2 * TWO_241 && m.condition == 0 {
      var x, y :| h(x, y) == m.token0;
      b := Unpacked(r, x, y, m.token1OrKey);
      UnpackedPacks(r, x, y, m.token1OrKey);
      UnpackedKeeps(r, x, y, m.token1OrKey);
    } else if r < 2 * TWO_241 && m.condition != 0 {
      b := Unpacked(r, h(m.token0, m.token1OrKey), m.condition, 0);
      UnpackedPacks(r, h(m.token0, m.token1OrKey), m.condition, 0);
      UnpackedKeeps(r, h(m.token0, m.token1OrKey), m.condition, 0);
    } else {
      b := Unpacked(r, m.token0, m.token1OrKey, m.condition);
      UnpackedPacks(r, m.token0, m.token1OrKey, m.condition);
      UnpackedKeeps(r, m.token0, m.token1OrKey, m.condition);
    }
    ValidWord(b);
    HashIsLink(h, b);
  }

  lemma {:induction false} UnpackedKeeps(r: int, token0: int, token1OrKey: int, condition: int)
    ensures var m := Unpacked(r, token0, token1OrKey, condition);
      m.token0 == token0 && m.token1OrKey == token1OrKey && m.condition == condition
  {
  }

  lemma {:induction false} CollisionMeans(h: PairHash, m: Message31, b: Message31)
    requires Injective(h) && Valid31(b) && HashOf(h, b) == HashOf(h, m)
    ensures Collides(h, m)
  {
    hide Word31, Reduce, Valid31;
    HashIsLink(h, m);
    HashIsLink(h, b);
    ValidWord(b);
    LinkInjective(h, Partial31(h, b), Reduce(Word31(b)), Partial31(h, m), Reduce(Word31(m)));
    if Reduce(Word31(m)) >= 2 * TWO_241 && m.condition == 0 {
      TypeOfWord(b);
      LinkInjective(h, h(b.token0, b.token1OrKey), b.condition, m.token0, m.token1OrKey);
    }
    TypeBound(b);
  }

  lemma {:induction false} TypeOfWord(b: Message31)
    requires Valid31(b) && Word31(b) >= 2 * TWO_241
    ensures b.condition != 0
  {
    hide Word31;
    ValidWord(b);
  }

  lemma {:induction false} TypeBound(b: Message31)
    requires Valid31(b)
    ensures Word31(b) < 3 * TWO_241
  {
    hide Word31;
    ValidWord(b);
  }

  /** A message whose vaults are out of range shares its hash with some in-range message if and only if
      its reduced word has an in-range type. */
  lemma {:induction false} CollisionExact(h: PairHash, m: Message31)
    requires Injective(h)
    ensures (exists b :: Valid31(b) && HashOf(h, b) == HashOf(h, m)) <==> Collides(h, m)
  {
    hide HashOf, Valid31, Collides;
    if b :| Valid31(b) && HashOf(h, b) == HashOf(h, m) { CollisionMeans(h, m, b); }
    if Collides(h, m) { var b := CollisionFound(h, m); }
  }

  // ---- Messages about vaults of the two trees ----

  /** The word of a rollup sell vault, taken modulo P. */
  lemma {:induction false} WordOfRollupSell(m: Message31)
    requires InTrees31(m) && IsRollup(m.vault0)
    ensures -TWO_241 < Word31(m) - WRAP < 8 * TWO_241
    ensures Reduce(Word31(m)) == if WRAP <= Word31(m) then Word31(m) - WRAP else Word31(m) - WRAP + P
  {
    var w := Word31(m);
    assert -TWO_241 < w - WRAP < 8 * TWO_241;
    hide Word31, Packed31, Reduce;
    WrapsAround(w);
  }

  lemma {:induction false} WrapsAround(w: int)
    requires -TWO_241 < w - WRAP < 8 * TWO_241
    ensures Reduce(w) == if WRAP <= w then w - WRAP else w - WRAP + P
  {
    hide Reduce;
    ReduceIsRemainder(w);
    var d := w - WRAP;
    if WRAP <= w { Digits(0x400000, d, P); } else { Digits(0x3fffff, d + P, P); }
  }

  /** Without a rollup sell vault the word stays below P. */
  lemma {:induction false} WordOfValidiumSell(m: Message31)
    requires InTrees31(m) && !IsRollup(m.vault0)
    ensures 0 <= Word31(m) < 8 * TWO_241
    ensures Reduce(Word31(m)) == Word31(m)
    ensures IsRollup(m.vault1) ==> (Word31(m) < 3 * TWO_241 <==> m.orderType == 0) && 2 * TWO_241 <= Word31(m)
  {
    hide Reduce;
  }

  /** Which messages about vaults of the trees share their hash with an in-range one: with a rollup sell
      vault, those whose word lies between WRAP and WRAP + 3 * 2^241; with a rollup buy vault alone, only
      orders, and only if the sold token is the hash of a token and a key. Where the type that comes out
      is the conditional one, the token must be such a hash, too. */
  lemma {:induction false} InTreeCollisions(h: PairHash, m: Message31)
    requires Injective(h) && InTrees31(m) && !Valid31(m)
    ensures (exists b :: Valid31(b) && HashOf(h, b) == HashOf(h, m)) <==>
            if IsRollup(m.vault0) then
              && WRAP <= Word31(m) < WRAP + 3 * TWO_241
              && (Word31(m) >= WRAP + 2 * TWO_241 && m.condition == 0 ==> HidesCondition(h, m))
            else m.orderType == SETTLEMENT_ORDER_TYPE_31 && HidesCondition(h, m)
  {
    CollisionExact(h, m);
    hide HashOf, Word31, Reduce, HidesCondition;
    if IsRollup(m.vault0) { WordOfRollupSell(m); } else { WordOfValidiumSell(m); }
  }

  /** An order or transfer from rollup vault 2^63 + 272 + k with a positive nonce has, under every pair
      hash, the hash of the one from validium vault k with the nonce before. */
  lemma {:induction false} RollupMeetsValidium(h: PairHash, m: Message31)
    requires Checked31(m) && m.vault1 < VAULT_SHIFT_31
    requires WRAPPED_VAULTS <= m.vault0 - ROLLUP_VAULT_BIT < WRAPPED_VAULTS + VAULT_SHIFT_31 && 0 < m.nonce
    ensures var b := m.(vault0 := m.vault0 - ROLLUP_VAULT_BIT - WRAPPED_VAULTS, nonce := m.nonce - 1);
      Valid31(b) && HashOf(h, b) == HashOf(h, m)
  {
    var b := m.(vault0 := m.vault0 - ROLLUP_VAULT_BIT - WRAPPED_VAULTS, nonce := m.nonce - 1);
    assert Word31(m) == Word31(b) + WRAP;
    ValidWord(b);
    HashIsLink(h, m);
    HashIsLink(h, b);
    hide Word31, Packed31, Reduce, HashOf;
    WrapsAround(Word31(m));
  }

  /** For an order between a rollup sell vault and a validium buy vault: a colliding in-range message
      exists if and only if the vault index is beyond 272, or equals 272 and the rest of the word is not
      a bare expiration. */
  lemma {:induction false} RollupSellOrders(h: PairHash, m: Message31)
    requires Injective(h) && InTrees31(m) && m.orderType == SETTLEMENT_ORDER_TYPE_31
    requires IsRollup(m.vault0) && m.vault1 < VAULT_SHIFT_31
    ensures var index := m.vault0 - ROLLUP_VAULT_BIT;
      (exists b :: Valid31(b) && HashOf(h, b) == HashOf(h, m)) <==>
        index > WRAPPED_VAULTS
            || (index == WRAPPED_VAULTS && (m.vault1 > 0 || m.amount0 > 0 || m.amount1 > 0 || m.nonce > 0))
  {
    InTreeCollisions(h, m);
    SellWord(m);
    hide HashOf, Word31;
  }

  lemma {:induction false} SellWord(m: Message31)
    requires InTrees31(m) && m.orderType == SETTLEMENT_ORDER_TYPE_31
    requires IsRollup(m.vault0) && m.vault1 < VAULT_SHIFT_31
    ensures var index := m.vault0 - ROLLUP_VAULT_BIT;
      WRAP <= Word31(m) <==>
        index > WRAPPED_VAULTS
            || (index == WRAPPED_VAULTS && (m.vault1 > 0 || m.amount0 > 0 || m.amount1 > 0 || m.nonce > 0))
    ensures Word31(m) < WRAP + 2 * TWO_241
  {
  }

  // ---- Which pairs of messages are told apart ----

  /** Equal hashes of two messages about vaults of the trees: equal words, or words that differ by
      WRAP where one sells from a rollup vault and the other does not. */
  lemma {:induction false} InTreeHashesExact(h: PairHash, a: Message31, b: Message31)
    requires Injective(h) && InTrees31(a) && InTrees31(b)
    ensures HashOf(h, a) == HashOf(h, b) <==>
            && Partial31(h, a) == Partial31(h, b)
            && Word31(a) == Word31(b)
               + (if IsRollup(a.vault0) then WRAP else 0) - (if IsRollup(b.vault0) then WRAP else 0)
  {
    HashIsLink(h, a);
    HashIsLink(h, b);
    if IsRollup(a.vault0) { WordOfRollupSell(a); } else { WordOfValidiumSell(a); }
    if IsRollup(b.vault0) { WordOfRollupSell(b); } else { WordOfValidiumSell(b); }
    hide HashOf, Word31, Reduce, InTrees31, IsRollup;
    if HashOf(h, a) == HashOf(h, b) {
      LinkInjective(h, Partial31(h, a), Reduce(Word31(a)), Partial31(h, b), Reduce(Word31(b)));
    }
  }

  /** The message hash commits to every field among messages about vaults of the trees that sell from the
      same tree and are both conditional or both not. */
  lemma {:induction false} SameTreeCommits(h: PairHash, a: Message31, b: Message31)
    requires Injective(h) && InTrees31(a) && InTrees31(b)
    requires (IsRollup(a.vault0) <==> IsRollup(b.vault0)) && (a.condition == 0 <==> b.condition == 0)
    ensures HashOf(h, a) == HashOf(h, b) <==> a == b
  {
    InTreeHashesExact(h, a, b);
    if HashOf(h, a) == HashOf(h, b) {
      PartialDetermines(h, a, b);
      SameTreeWords(a, b);
    }
  }

  lemma {:induction false} WordSplits(m: Message31)
    requires Checked31(m)
    ensures Word31(m) == Upper31(m) * LOWER_BOUND_31 + Lower31(m) && 0 <= Lower31(m) < LOWER_BOUND_31
  {
  }

  lemma {:induction false} SameTreeWords(a: Message31, b: Message31)
    requires InTrees31(a) && InTrees31(b) && Word31(a) == Word31(b)
    requires (IsRollup(a.vault0) <==> IsRollup(b.vault0)) && (a.condition == 0 <==> b.condition == 0)
    ensures a.orderType == b.orderType && a.vault0 == b.vault0 && a.vault1 == b.vault1
    ensures a.amount0 == b.amount0 && a.amount1 == b.amount1 && a.nonce == b.nonce && a.expiration == b.expiration
  {
    hide Word31, Upper31, Lower31;
    WordSplits(a);
    WordSplits(b);
    DigitsUnique(Upper31(a), Lower31(a), Upper31(b), Lower31(b), LOWER_BOUND_31);
    LowerFields(a, b);
    UpperFields(a, b);
  }

  lemma {:induction false} LowerFields(a: Message31, b: Message31)
    requires Checked31(a) && Checked31(b) && Lower31(a) == Lower31(b)
    ensures a.amount0 == b.amount0 && a.amount1 == b.amount1 && a.nonce == b.nonce && a.expiration == b.expiration
  {
    var ua, ub := a.amount0 * BALANCE_BOUND + a.amount1, b.amount0 * BALANCE_BOUND + b.amount1;
    DigitsUnique(ua * DEX_NONCE_BOUND + a.nonce, a.expiration, ub * DEX_NONCE_BOUND + b.nonce, b.expiration,
                 DEX_EXPIRATION_BOUND);
    DigitsUnique(ua, a.nonce, ub, b.nonce, DEX_NONCE_BOUND);
    DigitsUnique(a.amount0, a.amount1, b.amount0, b.amount1, BALANCE_BOUND);
  }

  lemma {:induction false} UpperFields(a: Message31, b: Message31)
    requires InTrees31(a) && InTrees31(b) && Upper31(a) == Upper31(b)
    requires (IsRollup(a.vault0) <==> IsRollup(b.vault0)) && (a.condition == 0 <==> b.condition == 0)
    ensures a.orderType == b.orderType && a.vault0 == b.vault0 && a.vault1 == b.vault1
  {
  }

  // ---- Other formats ----

  /** The inner chain of a 64-bit message is one link longer than that of a 31-bit message. */
  lemma {:induction false} ChainsDiffer(h: PairHash, m: Message31, x: int, y: int, z: int, w: int)
    requires Injective(h) && forall u, v :: h(u, v) != m.token0
    ensures Partial31(h, m) != h(h(h(x, y), z), w)
  {
    var inner, token := h(h(x, y), z), h(x, y);
    assert inner != m.token0 && token != m.token0;
    if Partial31(h, m) == h(inner, w) {
      if m.condition == 0 {
        LinkInjective(h, m.token0, m.token1OrKey, inner, w);
      } else {
        LinkInjective(h, h(m.token0, m.token1OrKey), m.condition, inner, w);
        LinkInjective(h, m.token0, m.token1OrKey, token, z);
      }
    }
  }

  /** Whatever vaults a 31-bit message names, it is no 64-bit message, unless its first token is a value
      of the pair hash. */
  lemma {:induction false} TokenKeepsFormatsApart(h: PairHash, m: Message31, o: LimitFields, t: TransferFields,
                                                  condition: int)
    requires Injective(h) && forall x, y :: h(x, y) != m.token0
    ensures HashOf(h, m) != LimitOrderHash(h, o) && HashOf(h, m) != TransferHash(h, t, condition)
  {
    HashIsLink(h, m);
    hide HashOf, Partial31, Word31, Reduce, LimitWord0, LimitWord1, TransferWord0, TransferWord1;
    var word := Reduce(Word31(m));
    var w0, w1 := Reduce(LimitWord0(o)), Reduce(LimitWord1(o));
    ChainsDiffer(h, m, o.assetIdSell, o.assetIdBuy, o.assetIdFee, w0);
    if HashOf(h, m) == LimitOrderHash(h, o) {
      LinkInjective(h, Partial31(h, m), word, h(h(h(o.assetIdSell, o.assetIdBuy), o.assetIdFee), w0), w1);
    }
    var v0, v1 := Reduce(TransferWord0(t)), Reduce(TransferWord1(t, condition));
    var assets, inner := h(t.assetId, t.assetIdFee), h(h(t.assetId, t.assetIdFee), t.receiverPublicKey);
    ChainsDiffer(h, m, assets, t.receiverPublicKey, condition, v0);
    ChainsDiffer(h, m, t.assetId, t.assetIdFee, t.receiverPublicKey, v0);
    if HashOf(h, m) == TransferHash(h, t, condition) {
      LinkInjective(h, Partial31(h, m), word, h(if condition != 0 then h(inner, condition) else inner, v0), v1);
    }
  }
}
