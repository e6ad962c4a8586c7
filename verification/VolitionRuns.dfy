/** On-chain data of a whole spot batch: what the program writes for the squashed rollup vaults, applied
    to the rollup vaults before the batch, gives those after it. */
module VolitionRuns {
  import opened Felt
  import opened Dex
  import opened DexConservation
  import opened DexJournal
  import opened Volition

  // ---- The squashed rollup dictionary ----

  /** A transaction accesses the vault. The state plays no part: it decides amounts only. */
  ghost predicate Accesses(tx: Transaction, vault: int) {
    exists s :: Touches(Entries(s, tx), vault)
  }

  lemma {:induction false} AccessesAre(s: Ledger, tx: Transaction, vault: int)
    ensures Accesses(tx, vault) <==> Touches(Entries(s, tx), vault)
  {
    if t :| Touches(Entries(t, tx), vault) { SameEntries(s, t, tx, vault); }
  }

  lemma {:induction false} SameEntries(s: Ledger, t: Ledger, tx: Transaction, vault: int)
    ensures Touches(Entries(s, tx), vault) <==> Touches(Entries(t, tx), vault)
  {
    hide PartyEntries, TransferEntries;
    if tx.Modification? {
      assert Entries(s, tx)[0].vault == tx.vaultIndex && Entries(t, tx)[0].vault == tx.vaultIndex;
    }
  }

  ghost predicate Accessed(txs: seq<Transaction>, vault: int) {
    exists k :: 0 <= k < |txs| && Accesses(txs[k], vault)
  }

  /** The entries of the squashed dictionary above bit 63, with that bit taken off their keys: every
      accessed rollup vault once, with its states before and after the batch. */
  ghost predicate RollupDictionary(changes: seq<VaultChange>, txs: seq<Transaction>, before: Vaults, after: Vaults) {
    && DistinctIndices(changes)
    && (forall i :: 0 <= i < |changes| ==>
          && 0 <= changes[i].index < VAULT_ID_BOUND
          && changes[i].prev == VaultAt(before, ROLLUP_VAULT_BIT + changes[i].index)
          && changes[i].next == VaultAt(after, ROLLUP_VAULT_BIT + changes[i].index))
    && (forall v :: ROLLUP_VAULT_BIT <= v && Accessed(txs, v) ==> Listed(changes, v - ROLLUP_VAULT_BIT))
  }

  predicate Listed(changes: seq<VaultChange>, index: int) {
    exists i :: 0 <= i < |changes| && changes[i].index == index
  }

  // ---- The reader ----

  /** Applies the decoded records to the rollup vaults. */
  function Apply(vaults: Vaults, records: seq<Record>): Vaults
    decreases |records|
  {
    if records == [] then vaults
    else Apply(vaults[ROLLUP_VAULT_BIT + records[0].index := records[0].state], records[1..])
  }

  lemma {:induction false} ListedTail(changes: seq<VaultChange>, index: int)
    requires changes != []
    ensures Listed(changes, index) <==> changes[0].index == index || Listed(changes[1..], index)
  {
    if Listed(changes, index) {
      var i :| 0 <= i < |changes| && changes[i].index == index;
      assert i > 0 ==> changes[1..][i - 1].index == index;
    }
    if Listed(changes[1..], index) {
      var i :| 0 <= i < |changes[1..]| && changes[1..][i].index == index;
      assert changes[i + 1].index == index;
    }
  }

  /** The records of distinct vaults write exactly the listed vaults whose state changed. */
  lemma {:induction false} RecordsApply(vaults: Vaults, changes: seq<VaultChange>, before: Vaults, after: Vaults,
                                        v: int)
    requires DistinctIndices(changes)
    requires forall i :: 0 <= i < |changes| ==>
               && changes[i].prev == VaultAt(before, ROLLUP_VAULT_BIT + changes[i].index)
               && changes[i].next == VaultAt(after, ROLLUP_VAULT_BIT + changes[i].index)
    ensures VaultAt(Apply(vaults, RecordsOf(changes)), v) ==
            if Listed(changes, v - ROLLUP_VAULT_BIT) && VaultAt(before, v) != VaultAt(after, v) then VaultAt(after, v)
            else VaultAt(vaults, v)
    decreases |changes|
  {
    if changes == [] { return; }
    hide RecordsOf, Apply;
    var c, rest := changes[0], changes[1..];
    assert forall i :: 0 <= i < |rest| ==> rest[i] == changes[i + 1];
    assert !Listed(rest, c.index);
    ListedTail(changes, v - ROLLUP_VAULT_BIT);
    hide Listed;
    var next := if Changed(c) then vaults[ROLLUP_VAULT_BIT + c.index := c.next] else vaults;
    RecordsApply(next, rest, before, after, v);
    ApplyStep(vaults, changes);
  }

  lemma {:induction false} ApplyStep(vaults: Vaults, changes: seq<VaultChange>)
    requires changes != []
    ensures Apply(vaults, RecordsOf(changes)) ==
            Apply(if Changed(changes[0]) then vaults[ROLLUP_VAULT_BIT + changes[0].index := changes[0].next]
                  else vaults, RecordsOf(changes[1..]))
  {
    var rest := RecordsOf(changes[1..]);
    if Changed(changes[0]) {
      assert RecordsOf(changes) == [Record(changes[0].index, changes[0].next)] + rest;
      assert RecordsOf(changes)[1..] == rest;
    } else {
      assert RecordsOf(changes) == rest;
    }
  }

  // ---- The batch ----

  /** A vault that no transaction accesses keeps its state. */
  lemma {:induction false} UnaccessedKept(s: Ledger, ctx: Context, txs: seq<Transaction>, v: int)
    requires ValidLedger(s) && ExecuteBatch(s, ctx, txs).Done?
    ensures ValidLedger(ExecuteBatch(s, ctx, txs).value)
    ensures !Accessed(txs, v) ==> VaultAt(ExecuteBatch(s, ctx, txs).value.vaults, v) == VaultAt(s.vaults, v)
    decreases |txs|
  {
    hide ExecuteTransaction, Accesses, Entries, Touches, ValidLedger;
    if txs != [] {
      var s1 := ExecuteTransaction(s, ctx, txs[0]).value;
      StepConserves(s, ctx, txs[0]);
      ConservesIsValid(s, s1, [txs[0]]);
      TransactionBooked(s, ctx, txs[0]);
      AccessesAre(s, txs[0], v);
      UnaccessedKept(s1, ctx, txs[1..], v);
      if Accessed(txs[1..], v) {
        var k :| 0 <= k < |txs[1..]| && Accesses(txs[1..][k], v);
        assert txs[k + 1] == txs[1..][k];
      }
    }
  }

  lemma {:induction false} BalancesInRange(changes: seq<VaultChange>, txs: seq<Transaction>, before: Vaults,
                                           after: Ledger)
    requires RollupDictionary(changes, txs, before, after.vaults) && ValidLedger(after)
    ensures InRange(changes)
  {
  }

  /** Data availability of the rollup vaults: for every accepted batch and any encoding tables and table
      positions that the program accepts, the stream decodes, and its records applied to the vaults
      before the batch give every rollup vault after it and touch no other vault. */
  lemma {:induction false} StreamRebuildsVaults(s: Ledger, ctx: Context, txs: seq<Transaction>, tables: Tables,
                                                changes: seq<VaultChange>, at: seq<Position>)
    requires ValidLedger(s) && ExecuteBatch(s, ctx, txs).Done?
    requires RollupDictionary(changes, txs, s.vaults, ExecuteBatch(s, ctx, txs).value.vaults)
    requires |at| == |changes| && |tables.keys| < P && |tables.tokens| < P
    requires OutputVolitionData(tables, changes, at).Done?
    ensures var after := ExecuteBatch(s, ctx, txs).value.vaults;
      var records := DecodeVolitionData(OutputVolitionData(tables, changes, at).value);
      && records.Some?
      && forall v :: VaultAt(Apply(s.vaults, records.value), v) ==
           if ROLLUP_VAULT_BIT <= v then VaultAt(after, v) else VaultAt(s.vaults, v)
  {
    var t := ExecuteBatch(s, ctx, txs).value;
    UnaccessedKept(s, ctx, txs, 0);
    BalancesInRange(changes, txs, s.vaults, t);
    VolitionRoundTrip(tables, changes, at);
    hide ExecuteBatch, DecodeVolitionData, OutputVolitionData, Accessed, InRange, RecordsOf, Apply, ValidLedger;
    forall v
      ensures VaultAt(Apply(s.vaults, RecordsOf(changes)), v) ==
              if ROLLUP_VAULT_BIT <= v then VaultAt(t.vaults, v) else VaultAt(s.vaults, v)
    {
      RecordsApply(s.vaults, changes, s.vaults, t.vaults, v);
      UnaccessedKept(s, ctx, txs, v);
    }
  }
}
