/** The on-chain data stream of the rollup vaults (starkware/cairo/dex/volition.cairo): two encoding
    tables, then the changed vaults, two 124-bit changes to a word. */
module Volition {
  import opened Felt
  import opened Options
  import opened Arithmetic
  import opened Dex

  const KEY_INDEX_BOUND: int := 0x8000
  const TOKEN_INDEX_BOUND: int := 0x8000
  const VAULT_ID_BOUND: int := 0x80000000
  const VAULT_CHANGE_SHIFT: int := 0x10000000000000000000000000000000

  /** An entry of the squashed vault dictionary. */
  datatype VaultChange = VaultChange(index: int, prev: VaultState, next: VaultState)

  datatype Tables = Tables(keys: seq<int>, tokens: seq<int>)

  /** The table positions that find_element is given by the prover. */
  datatype Position = Position(keyIndex: int, tokenIndex: int)

  /** The result of get_vault_change_encoding. */
  function Encode(c: VaultChange, at: Position): int {
    ((c.index * BALANCE_BOUND + c.next.balance) * KEY_INDEX_BOUND + at.keyIndex) * TOKEN_INDEX_BOUND + at.tokenIndex
  }

  /** find_element: the guessed position must hold the element that is looked for. */
  predicate Found(table: seq<int>, element: int, position: int) {
    0 <= position < |table| && table[position] == element
  }

  /** get_vault_change_encoding. */
  function EncodeChange(tables: Tables, c: VaultChange, at: Position): Outcome<int> {
    var _ :- Require(Found(tables.keys, c.next.starkKey, at.keyIndex));
    var _ :- Require(Found(tables.tokens, c.next.tokenId, at.tokenIndex));
    Done(Encode(c, at))
  }

  predicate Changed(c: VaultChange) {
    c.next.balance != c.prev.balance || c.next.starkKey != c.prev.starkKey || c.next.tokenId != c.prev.tokenId
  }

  /** The encoded changes, one for each changed vault, in order. */
  function EncodeAll(tables: Tables, changes: seq<VaultChange>, at: seq<Position>): Outcome<seq<int>>
    requires |at| == |changes|
  {
    if changes == [] then Done([])
    else if !Changed(changes[0]) then EncodeAll(tables, changes[1..], at[1..])
    else
      var e :- EncodeChange(tables, changes[0], at[0]);
      var rest :- EncodeAll(tables, changes[1..], at[1..]);
      Done([e] + rest)
  }

  /** Two encodings to a word; a last single one is written twice. */
  function Pair(es: seq<int>): seq<int> {
    if es == [] then []
    else if |es| == 1 then [es[0] * VAULT_CHANGE_SHIFT + es[0]]
    else [es[0] * VAULT_CHANGE_SHIFT + es[1]] + Pair(es[2..])
  }

  // ---- The writer ----

  /** The encoding waiting for its other half, as a list. */
  function Pending(partialWord: int): seq<int> {
    if partialWord == -1 then [] else [partialWord]
  }

  /** The output pointer and the partial word that the recursion carries. */
  class Writer {
    var output: seq<int>
    var partialWord: int

    constructor ()
      ensures output == [] && partialWord == -1
    {
      output, partialWord := [], -1;
    }

    /** initialize_encoding_table. */
    method WriteTable(values: seq<int>)
      modifies this`output
      ensures output == old(output) + [|values|] + values
    {
      output := output + [|values|];
      output := output + values;
    }

    /** serialize_vault_change: the sentinel -1 marks that no encoding is waiting. */
    method SerializeVaultChange(encodedChange: int)
      modifies this
      ensures if old(partialWord) == -1 then output == old(output) && partialWord == encodedChange
              else output == old(output) + [old(partialWord) * VAULT_CHANGE_SHIFT + encodedChange] && partialWord == -1
    {
      if partialWord + 1 == 0 {
        partialWord := encodedChange;
      } else {
        output := output + [partialWord * VAULT_CHANGE_SHIFT + encodedChange];
        partialWord := -1;
      }
    }

    /** output_volition_data_inner: unchanged vaults are skipped, and one more call at the end flushes
        an odd last change. */
    method WriteChanges(tables: Tables, changes: seq<VaultChange>, at: seq<Position>) returns (ok: bool)
      requires |at| == |changes| && InRange(changes)
      modifies this
      ensures ok <==> EncodeAll(tables, changes, at).Done?
      ensures ok ==> output == old(output) + Pair(Pending(old(partialWord)) + EncodeAll(tables, changes, at).value)
      decreases |changes|
    {
      hide Encode, Changed, EncodeAll, EncodeChange, Pair;
      ghost var pending := Pending(partialWord);
      if changes == [] {
        FlushPending(partialWord);
        assert EncodeAll(tables, changes, at) == Done([]) by { NoChanges(tables); }
        assert pending + [] == pending;
        SerializeVaultChange(partialWord);
        return true;
      }
      EncodeAllStep(tables, changes, at);
      if !Changed(changes[0]) {
        ok := WriteChanges(tables, changes[1..], at[1..]);
        return;
      }
      var e := EncodeChange(tables, changes[0], at[0]);
      if e.Abort? { return false; }
      EncodedIsNatural(tables, changes[0], at[0]);
      ghost var rest := EncodeAll(tables, changes[1..], at[1..]);
      SerializeVaultChange(e.value);
      ok := WriteChanges(tables, changes[1..], at[1..]);
      if ok { PairStep(pending, e.value, rest.value); }
    }

    /** output_volition_data: both tables, then the changes. */
    method WriteVolitionData(tables: Tables, changes: seq<VaultChange>, at: seq<Position>) returns (ok: bool)
      requires |at| == |changes| && InRange(changes)
      requires output == [] && partialWord == -1
      requires |tables.keys| < P && |tables.tokens| < P
      modifies this
      ensures ok <==> OutputVolitionData(tables, changes, at).Done?
      ensures ok ==> output == OutputVolitionData(tables, changes, at).value
    {
      WriteTable(tables.keys);
      if !IsNnLe(|tables.keys|, KEY_INDEX_BOUND - 1) { return false; }
      WriteTable(tables.tokens);
      if !IsNnLe(|tables.tokens|, TOKEN_INDEX_BOUND - 1) { return false; }
      ok := WriteChanges(tables, changes, at);
      assert ok ==> Pending(-1) + EncodeAll(tables, changes, at).value == EncodeAll(tables, changes, at).value;
    }
  }

  /** The last call writes a pending encoding next to itself, or nothing. */
  lemma {:induction false} FlushPending(partialWord: int)
    ensures Pair(Pending(partialWord)) ==
            if partialWord == -1 then [] else [partialWord * VAULT_CHANGE_SHIFT + partialWord]
  {
  }

  lemma {:induction false} NoChanges(tables: Tables)
    ensures EncodeAll(tables, [], []) == Done([])
  {
  }

  lemma {:induction false} EncodeAllStep(tables: Tables, changes: seq<VaultChange>, at: seq<Position>)
    requires |at| == |changes| && changes != []
    ensures !Changed(changes[0]) ==> EncodeAll(tables, changes, at) == EncodeAll(tables, changes[1..], at[1..])
    ensures var e, rest := EncodeChange(tables, changes[0], at[0]), EncodeAll(tables, changes[1..], at[1..]);
      Changed(changes[0]) ==>
        && (EncodeAll(tables, changes, at).Done? <==> e.Done? && rest.Done?)
        && (e.Done? && rest.Done? ==> EncodeAll(tables, changes, at) == Done([e.value] + rest.value))
  {
  }

  lemma {:induction false} EncodedIsNatural(tables: Tables, c: VaultChange, at: Position)
    requires 0 <= c.index < VAULT_ID_BOUND && 0 <= c.next.balance < BALANCE_BOUND
    requires EncodeChange(tables, c, at).Done?
    ensures 0 <= EncodeChange(tables, c, at).value
  {
    EncodingInRange(c, at);
  }

  /** Adding one encoding behind a pending one, or making it the pending one. */
  lemma {:induction false} PairStep(pending: seq<int>, e: int, rest: seq<int>)
    requires |pending| <= 1
    ensures |pending| == 1 ==> Pair(pending + ([e] + rest)) == [pending[0] * VAULT_CHANGE_SHIFT + e] + Pair(rest)
    ensures |pending| == 0 ==> pending + ([e] + rest) == [e] + rest
    ensures [] + rest == rest
  {
    if |pending| == 1 {
      var es := pending + ([e] + rest);
      assert es[0] == pending[0] && es[1] == e && es[2..] == rest;
    }
  }

  /** Table sizes are range checked; a table has at most 2^128 entries. */
  lemma {:induction false} SmallTables(tables: Tables)
    requires IsNnLe(|tables.keys|, KEY_INDEX_BOUND - 1) && IsNnLe(|tables.tokens|, TOKEN_INDEX_BOUND - 1)
    requires |tables.keys| < P && |tables.tokens| < P
    ensures |tables.keys| < KEY_INDEX_BOUND && |tables.tokens| < TOKEN_INDEX_BOUND
  {
  }

  /** output_volition_data. */
  function OutputVolitionData(tables: Tables, changes: seq<VaultChange>, at: seq<Position>): Outcome<seq<int>>
    requires |at| == |changes|
  {
    var _ :- Require(IsNnLe(|tables.keys|, KEY_INDEX_BOUND - 1) && IsNnLe(|tables.tokens|, TOKEN_INDEX_BOUND - 1));
    var es :- EncodeAll(tables, changes, at);
    Done([|tables.keys|] + tables.keys + [|tables.tokens|] + tables.tokens + Pair(es))
  }

  // ---- Reading the stream back ----

  /** The new state of a changed vault. */
  datatype Record = Record(index: int, state: VaultState)

  function RecordsOf(changes: seq<VaultChange>): seq<Record> {
    if changes == [] then []
    else (if Changed(changes[0]) then [Record(changes[0].index, changes[0].next)] else []) + RecordsOf(changes[1..])
  }

  /** Splits words into encodings; a last word with equal halves holds one. */
  function Unpair(words: seq<int>): seq<int> {
    if words == [] then []
    else
      var high, low := words[0] / VAULT_CHANGE_SHIFT, words[0] % VAULT_CHANGE_SHIFT;
      if |words| == 1 then (if high == low then [high] else [high, low])
      else [high, low] + Unpair(words[1..])
  }

  function DecodeChange(tables: Tables, e: int): Option<Record> {
    var tokenIndex := e % TOKEN_INDEX_BOUND;
    var keyIndex := e / TOKEN_INDEX_BOUND % KEY_INDEX_BOUND;
    var upper := e / TOKEN_INDEX_BOUND / KEY_INDEX_BOUND;
    if keyIndex < |tables.keys| && tokenIndex < |tables.tokens| then
      Some(Record(upper / BALANCE_BOUND,
                  VaultState(tables.keys[keyIndex], tables.tokens[tokenIndex], upper % BALANCE_BOUND)))
    else None
  }

  function DecodeAll(tables: Tables, es: seq<int>): Option<seq<Record>> {
    if es == [] then Some([])
    else
      match (DecodeChange(tables, es[0]), DecodeAll(tables, es[1..]))
      case (Some(r), Some(rest)) => Some([r] + rest)
      case _ => None
  }

  /** A length-prefixed table and what follows it. */
  function ReadTable(stream: seq<int>): Option<(seq<int>, seq<int>)> {
    if stream != [] && 0 <= stream[0] < |stream| then
      Some((stream[1..1 + stream[0]], stream[1 + stream[0]..]))
    else
      None
  }

  function DecodeVolitionData(stream: seq<int>): Option<seq<Record>> {
    match ReadTable(stream)
    case None => None
    case Some((keys, rest)) =>
      match ReadTable(rest)
      case None => None
      case Some((tokens, words)) => DecodeAll(Tables(keys, tokens), Unpair(words))
  }

  // ---- The round trip ----

  /** The ranges the vault tree guarantees. */
  predicate InRange(changes: seq<VaultChange>) {
    forall i :: 0 <= i < |changes| ==>
        0 <= changes[i].index < VAULT_ID_BOUND && 0 <= changes[i].next.balance < BALANCE_BOUND
  }

  predicate DistinctIndices(changes: seq<VaultChange>) {
    forall i, j :: 0 <= i < j < |changes| ==> changes[i].index != changes[j].index
  }

  lemma {:induction false} EncodingInRange(c: VaultChange, at: Position)
    requires 0 <= c.index < VAULT_ID_BOUND && 0 <= c.next.balance < BALANCE_BOUND
    ensures 0 <= at.keyIndex < KEY_INDEX_BOUND && 0 <= at.tokenIndex < TOKEN_INDEX_BOUND ==>
            0 <= Encode(c, at) < VAULT_CHANGE_SHIFT
    ensures 0 <= at.keyIndex && 0 <= at.tokenIndex ==> 0 <= Encode(c, at)
  {
  }

  lemma {:induction false} DecodeEncode(tables: Tables, c: VaultChange, at: Position)
    requires InRange([c]) && EncodeChange(tables, c, at).Done?
    requires |tables.keys| <= KEY_INDEX_BOUND && |tables.tokens| <= TOKEN_INDEX_BOUND
    ensures DecodeChange(tables, Encode(c, at)) == Some(Record(c.index, c.next))
  {
    assert [c][0] == c;
    var upper := c.index * BALANCE_BOUND + c.next.balance;
    var middle := upper * KEY_INDEX_BOUND + at.keyIndex;
    assert Encode(c, at) == middle * TOKEN_INDEX_BOUND + at.tokenIndex;
    Digits(middle, at.tokenIndex, TOKEN_INDEX_BOUND);
    Digits(upper, at.keyIndex, KEY_INDEX_BOUND);
    Digits(c.index, c.next.balance, BALANCE_BOUND);
  }

  /** The index of an encoding tells two changes apart. */
  lemma {:induction false} DistinctEncodings(tables: Tables, a: VaultChange, b: VaultChange, atA: Position,
                                             atB: Position)
    requires InRange([a]) && InRange([b]) && a.index != b.index
    requires EncodeChange(tables, a, atA).Done? && EncodeChange(tables, b, atB).Done?
    requires |tables.keys| <= KEY_INDEX_BOUND && |tables.tokens| <= TOKEN_INDEX_BOUND
    ensures Encode(a, atA) != Encode(b, atB)
  {
    DecodeEncode(tables, a, atA);
    DecodeEncode(tables, b, atB);
  }

  /** Unpacking pairs: exact unless an even list ends in two equal encodings. */
  lemma {:induction false} UnpairPair(es: seq<int>)
    requires forall i :: 0 <= i < |es| ==> 0 <= es[i] < VAULT_CHANGE_SHIFT
    requires |es| >= 2 && |es| % 2 == 0 ==> es[|es| - 2] != es[|es| - 1]
    ensures Unpair(Pair(es)) == es
    decreases |es|
  {
    if |es| == 1 {
      Digits(es[0], es[0], VAULT_CHANGE_SHIFT);
      assert Pair(es)[1..] == [];
    } else if |es| >= 2 {
      Digits(es[0], es[1], VAULT_CHANGE_SHIFT);
      UnpairPair(es[2..]);
      assert Pair(es)[1..] == Pair(es[2..]);
      assert es == [es[0], es[1]] + es[2..];
      assert Pair(es[2..]) == [] <==> |es| == 2;
    }
  }

  /** Every encoding comes from a changed vault of the list. */
  lemma {:induction false} EncodingsOf(tables: Tables, changes: seq<VaultChange>, at: seq<Position>,
                                       k: nat) returns (i: nat)
    requires |at| == |changes| && EncodeAll(tables, changes, at).Done? && k < |EncodeAll(tables, changes, at).value|
    ensures i < |changes| && EncodeChange(tables, changes[i], at[i]) == Done(EncodeAll(tables, changes, at).value[k])
  {
    if Changed(changes[0]) && k == 0 {
      i := 0;
    } else {
      var j := EncodingsOf(tables, changes[1..], at[1..], if Changed(changes[0]) then k - 1 else k);
      i := j + 1;
    }
  }

  /** Over distinct vaults the encodings are in range, and consecutive ones differ. */
  lemma {:induction false} EncodingsDistinct(tables: Tables, changes: seq<VaultChange>, at: seq<Position>)
    requires |at| == |changes| && InRange(changes) && DistinctIndices(changes)
    requires |tables.keys| <= KEY_INDEX_BOUND && |tables.tokens| <= TOKEN_INDEX_BOUND
    requires EncodeAll(tables, changes, at).Done?
    ensures var es := EncodeAll(tables, changes, at).value;
      && (forall k :: 0 <= k < |es| ==> 0 <= es[k] < VAULT_CHANGE_SHIFT)
      && (forall j, k :: 0 <= j < k < |es| ==> es[j] != es[k])
    decreases |changes|
  {
    hide Encode;
    if changes != [] {
      var rest := changes[1..];
      assert DistinctIndices(rest) by { assert forall i :: 0 <= i < |rest| ==> rest[i] == changes[i + 1]; }
      EncodingsDistinct(tables, rest, at[1..]);
      if Changed(changes[0]) {
        EncodingInRange(changes[0], at[0]);
        var tail := EncodeAll(tables, rest, at[1..]).value;
        forall k | 0 <= k < |tail|
          ensures tail[k] != Encode(changes[0], at[0])
        {
          var i := EncodingsOf(tables, rest, at[1..], k);
          assert rest[i] == changes[i + 1];
          DistinctEncodings(tables, changes[0], rest[i], at[0], at[1..][i]);
        }
      }
    }
  }

  lemma {:induction false} DecodeEncodeAll(tables: Tables, changes: seq<VaultChange>, at: seq<Position>)
    requires |at| == |changes| && InRange(changes)
    requires |tables.keys| <= KEY_INDEX_BOUND && |tables.tokens| <= TOKEN_INDEX_BOUND
    requires EncodeAll(tables, changes, at).Done?
    ensures DecodeAll(tables, EncodeAll(tables, changes, at).value) == Some(RecordsOf(changes))
    decreases |changes|
  {
    hide Encode, DecodeChange;
    if changes != [] {
      DecodeEncodeAll(tables, changes[1..], at[1..]);
      if Changed(changes[0]) {
        DecodeEncode(tables, changes[0], at[0]);
        var es := EncodeAll(tables, changes, at).value;
        assert es[1..] == EncodeAll(tables, changes[1..], at[1..]).value;
      } else {
        assert [] + RecordsOf(changes[1..]) == RecordsOf(changes[1..]);
      }
    }
  }

  lemma {:induction false} ReadWrittenTable(values: seq<int>, rest: seq<int>)
    ensures ReadTable([|values|] + values + rest) == Some((values, rest))
  {
    var stream := [|values|] + values + rest;
    assert stream[1..1 + |values|] == values && stream[1 + |values|..] == rest;
  }

  /** The stream decodes to exactly the changed vaults with their new states, in order, for odd and
      even counts, whatever table positions the prover chose. */
  lemma {:induction false} VolitionRoundTrip(tables: Tables, changes: seq<VaultChange>, at: seq<Position>)
    requires |at| == |changes| && InRange(changes) && DistinctIndices(changes)
    requires |tables.keys| < P && |tables.tokens| < P
    requires OutputVolitionData(tables, changes, at).Done?
    ensures DecodeVolitionData(OutputVolitionData(tables, changes, at).value) == Some(RecordsOf(changes))
  {
    hide EncodeAll, Pair, Unpair, DecodeAll, IsNnLe, ReadTable;
    SmallTables(tables);
    var es := EncodeAll(tables, changes, at).value;
    EncodingsDistinct(tables, changes, at);
    UnpairPair(es);
    DecodeEncodeAll(tables, changes, at);
    var inner := [|tables.tokens|] + tables.tokens + Pair(es);
    ReadWrittenTable(tables.tokens, Pair(es));
    ReadWrittenTable(tables.keys, inner);
    assert OutputVolitionData(tables, changes, at).value == [|tables.keys|] + tables.keys + inner;
  }
}
