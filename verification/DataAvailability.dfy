/** The whole on-chain data of a batch (output/data_availability.cairo): the table of funding indices
    and the records of all accessed positions, and the reader that rebuilds the new state from them. */
module DataAvailability {
  import opened Felt
  import opened Options
  import opened PerpetualTypes
  import opened UpdatePosition
  import opened SerializeChange
  import opened Batch
  import opened BatchInvariants
  import opened BatchRuns
  import opened BatchJournal

  // ---- The words ----

  /** funding_index_serialize for each index. */
  function IndexWords(indices: seq<FundingIndex>): (r: seq<int>)
    ensures |r| == 2 * |indices|
  {
    if indices == [] then []
    else [indices[0].assetId, indices[0].fundingIndex - FUNDING_INDEX_LOWER_BOUND] + IndexWords(indices[1..])
  }

  /** funding_indices_info_serialize: serialize_array puts the number of elements first. */
  function InfoWords(info: FundingInfo): seq<int> {
    [|info.indices|] + IndexWords(info.indices) + [info.timestamp]
  }

  function InfosWords(table: seq<FundingInfo>): seq<int> {
    if table == [] then [] else InfoWords(table[0]) + InfosWords(table[1..])
  }

  function TableWords(table: seq<FundingInfo>): seq<int> {
    [|table|] + InfosWords(table)
  }

  predicate IdsBelow(ids: seq<int>, n: int) {
    forall k :: 0 <= k < |ids| ==> 0 <= ids[k] < n
  }

  /** output_changed_positions, for the ids of the squashed dictionary. */
  function PositionWords(ids: seq<int>, prev: seq<Position>, next: seq<Position>): seq<int>
    requires IdsBelow(ids, |prev|) && |next| == |prev|
  {
    if ids == [] then [] else Serialize(ids[0], prev[ids[0]], next[ids[0]]) + PositionWords(ids[1..], prev, next)
  }

  /** output_availability_data. */
  function AvailabilityWords(table: seq<FundingInfo>, ids: seq<int>, prev: seq<Position>, next: seq<Position>): seq<int>
    requires IdsBelow(ids, |prev|) && |next| == |prev|
  {
    TableWords(table) + PositionWords(ids, prev, next)
  }

  // ---- The writer ----

  method WriteInfo(writer: DataWriter, info: FundingInfo)
    modifies writer
    ensures writer.output == old(writer.output) + InfoWords(info)
  {
    writer.SerializeWord(|info.indices|);
    var i := 0;
    assert info.indices[0..] == info.indices;
    while i < |info.indices|
      invariant 0 <= i <= |info.indices|
      invariant writer.output + IndexWords(info.indices[i..]) == old(writer.output) + [|info.indices|]
                + IndexWords(info.indices)
    {
      var index := info.indices[i];
      assert info.indices[i..][0] == index && info.indices[i..][1..] == info.indices[i + 1..];
      ghost var rest := IndexWords(info.indices[i + 1..]);
      AppendTwo(writer.output, index.assetId, index.fundingIndex - FUNDING_INDEX_LOWER_BOUND, rest);
      writer.SerializeWord(index.assetId);
      writer.SerializeWord(index.fundingIndex - FUNDING_INDEX_LOWER_BOUND);
      i := i + 1;
    }
    assert info.indices[i..] == [] && writer.output + [] == writer.output;
    writer.SerializeWord(info.timestamp);
  }

  lemma {:induction false} AppendTwo(s: seq<int>, x: int, y: int, rest: seq<int>)
    ensures s + [x] + [y] + rest == s + ([x, y] + rest)
  {
  }

  /** serialize_array over the funding table. */
  method WriteTable(writer: DataWriter, table: seq<FundingInfo>)
    modifies writer
    ensures writer.output == old(writer.output) + TableWords(table)
  {
    writer.SerializeWord(|table|);
    var i := 0;
    assert table[0..] == table;
    hide InfoWords;
    while i < |table|
      invariant 0 <= i <= |table|
      invariant writer.output + InfosWords(table[i..]) == old(writer.output) + [|table|] + InfosWords(table)
    {
      assert table[i..][0] == table[i] && table[i..][1..] == table[i + 1..];
      ghost var before := writer.output;
      WriteInfo(writer, table[i]);
      assert before + (InfoWords(table[i]) + InfosWords(table[i + 1..])) == writer.output + InfosWords(table[i + 1..]);
      i := i + 1;
    }
    assert table[i..] == [] && writer.output + [] == writer.output;
  }

  /** output_changed_positions. */
  method WritePositions(writer: DataWriter, ids: seq<int>, prev: seq<Position>, next: seq<Position>)
    requires IdsBelow(ids, |prev|) && |next| == |prev|
    modifies writer
    ensures writer.output == old(writer.output) + PositionWords(ids, prev, next)
    decreases |ids|
  {
    hide Serialize;
    if ids == [] { return; }
    writer.WriteChange(ids[0], prev[ids[0]], next[ids[0]]);
    WritePositions(writer, ids[1..], prev, next);
  }

  /** output_availability_data. */
  method WriteAvailabilityData(writer: DataWriter, table: seq<FundingInfo>, ids: seq<int>, prev: seq<Position>,
                               next: seq<Position>)
    requires IdsBelow(ids, |prev|) && |next| == |prev|
    modifies writer
    ensures writer.output == old(writer.output) + AvailabilityWords(table, ids, prev, next)
  {
    hide TableWords, PositionWords;
    WriteTable(writer, table);
    WritePositions(writer, ids, prev, next);
  }

  // ---- The reader ----

  function ReadIndices(words: seq<int>, n: nat): Option<(seq<FundingIndex>, seq<int>)>
    decreases n
  {
    if n == 0 then Some(([], words))
    else if |words| < 2 then None
    else
      match ReadIndices(words[2..], n - 1)
      case None => None
      case Some((indices, rest)) => Some(([FundingIndex(words[0], words[1] + FUNDING_INDEX_LOWER_BOUND)] + indices,
                                          rest))
  }

  function ReadInfo(words: seq<int>): Option<(FundingInfo, seq<int>)> {
    if words == [] || words[0] < 0 then None
    else
      match ReadIndices(words[1..], words[0])
      case None => None
      case Some((indices, rest)) => if rest == [] then None else Some((FundingInfo(indices, rest[0]), rest[1..]))
  }

  function ReadInfos(words: seq<int>, n: nat): Option<(seq<FundingInfo>, seq<int>)>
    decreases n
  {
    if n == 0 then Some(([], words))
    else
      match ReadInfo(words)
      case None => None
      case Some((info, rest)) =>
        match ReadInfos(rest, n - 1)
        case None => None
        case Some((table, last)) => Some(([info] + table, last))
  }

  /** Applies the records one after the other to the previous positions. */
  function ReadPositions(words: seq<int>, positions: seq<Position>, log: seq<FundingInfo>): Option<seq<Position>>
    decreases |words|
  {
    if words == [] then Some(positions)
    else if !(1 <= words[0] < |words| && 0 <= words[1] < |positions|) then None
    else
      match Rebuild(positions[words[1]], words[..words[0] + 1], log)
      case None => None
      case Some((_, position)) => ReadPositions(words[words[0] + 1..], positions[words[1] := position], log)
  }

  /** Rebuilds table and positions from the previous indices, the previous positions and the words. */
  function ReadAvailabilityData(words: seq<int>, initial: FundingInfo,
                                positions: seq<Position>): Option<(seq<FundingInfo>, seq<Position>)>
  {
    if words == [] || words[0] < 0 then None
    else
      match ReadInfos(words[1..], words[0])
      case None => None
      case Some((table, rest)) =>
        match ReadPositions(rest, positions, [initial] + table)
        case None => None
        case Some(next) => Some((table, next))
  }

  // ---- Round trips ----

  lemma {:induction false} IndicesRoundTrip(indices: seq<FundingIndex>, rest: seq<int>)
    ensures ReadIndices(IndexWords(indices) + rest, |indices|) == Some((indices, rest))
  {
    var words := IndexWords(indices) + rest;
    if indices == [] {
      assert words == rest;
    } else {
      IndicesRoundTrip(indices[1..], rest);
      assert words[2..] == IndexWords(indices[1..]) + rest;
      assert [indices[0]] + indices[1..] == indices;
    }
  }

  lemma {:induction false} InfoRoundTrip(info: FundingInfo, rest: seq<int>)
    ensures ReadInfo(InfoWords(info) + rest) == Some((info, rest))
  {
    var words := InfoWords(info) + rest;
    IndicesRoundTrip(info.indices, [info.timestamp] + rest);
    assert words[1..] == IndexWords(info.indices) + ([info.timestamp] + rest);
    assert ([info.timestamp] + rest)[1..] == rest;
  }

  lemma {:induction false} InfosRoundTrip(table: seq<FundingInfo>, rest: seq<int>)
    ensures ReadInfos(InfosWords(table) + rest, |table|) == Some((table, rest))
  {
    hide ReadInfo, InfoWords;
    if table == [] {
      assert InfosWords(table) + rest == rest;
    } else {
      var others := InfosWords(table[1..]) + rest;
      assert InfosWords(table) + rest == InfoWords(table[0]) + others;
      InfoRoundTrip(table[0], others);
      InfosRoundTrip(table[1..], rest);
      assert [table[0]] + table[1..] == table;
    }
  }

  predicate Increasing(ids: seq<int>) {
    forall j, k :: 0 <= j < k < |ids| ==> ids[j] < ids[k]
  }

  /** The records are read back one by one: every listed position becomes the new one. */
  lemma {:induction false} PositionsRoundTrip(ids: seq<int>, positions: seq<Position>, prev: seq<Position>,
                                              next: seq<Position>, log: seq<FundingInfo>)
    requires IdsBelow(ids, |prev|) && |next| == |prev| == |positions| && Increasing(ids)
    requires ValidPositions(prev) && ValidPositions(next)
    requires forall k :: 0 <= k < |ids| ==> positions[ids[k]] == prev[ids[k]] && Described(next[ids[k]], log)
    ensures var r := ReadPositions(PositionWords(ids, prev, next), positions, log);
      && r.Some? && |r.value| == |positions|
      && forall i :: 0 <= i < |positions| ==> r.value[i] == if i in ids then next[i] else positions[i]
    decreases |ids|
  {
    hide Rebuild, Described;
    if ids != [] {
      var id := ids[0];
      var record, others := Serialize(id, prev[id], next[id]), PositionWords(ids[1..], prev, next);
      var words := record + others;
      RecordShape(id, prev[id], next[id]);
      assert words[..words[0] + 1] == record && words[words[0] + 1..] == others;
      assert ValidPosition(prev[id]) && ValidPosition(next[id]);
      RebuildsPosition(id, prev[id], next[id], log);
      hide Serialize, PositionWords;
      var updated := positions[id := next[id]];
      PositionsRoundTrip(ids[1..], updated, prev, next, log);
      assert ids == [id] + ids[1..];
    }
  }

  lemma {:induction false} RecordShape(key: int, prev: Position, next: Position)
    ensures var words := Serialize(key, prev, next); |words| >= 5 && words[0] == |words| - 1 && words[1] == key
  {
  }

  /** The words of a batch determine table and positions: they are read back from the previous ones,
      if every listed position can be described by the funding log and no other one has changed. */
  lemma {:induction false} AvailabilityRoundTrip(initial: FundingInfo, table: seq<FundingInfo>, ids: seq<int>,
                                                 prev: seq<Position>, next: seq<Position>)
    requires IdsBelow(ids, |prev|) && |next| == |prev| && Increasing(ids)
    requires ValidPositions(prev) && ValidPositions(next)
    requires forall k :: 0 <= k < |ids| ==> Described(next[ids[k]], [initial] + table)
    requires forall i :: 0 <= i < |prev| && i !in ids ==> next[i] == prev[i]
    ensures ReadAvailabilityData(AvailabilityWords(table, ids, prev, next), initial, prev) == Some((table, next))
  {
    hide ReadInfos, InfosWords, ReadPositions, Described;
    var records := PositionWords(ids, prev, next);
    assert AvailabilityWords(table, ids, prev, next) == [|table|] + (InfosWords(table) + records);
    InfosRoundTrip(table, records);
    PositionsRoundTrip(ids, prev, prev, next, [initial] + table);
    assert ReadPositions(records, prev, [initial] + table).value == next;
  }

  // ---- The accessed positions of a batch ----

  /** Some transaction accesses the position. */
  predicate Accessed(cfg: BatchConfig, txs: seq<Transaction>, i: int) {
    exists k :: 0 <= k < |txs| && Touches(Entries(cfg, txs[k]), i)
  }

  /** The keys of the squashed dictionary below n, in order. */
  function AccessedIds(cfg: BatchConfig, txs: seq<Transaction>, n: nat): (ids: seq<int>)
    ensures IdsBelow(ids, n) && Increasing(ids)
    ensures forall i :: 0 <= i < n ==> (i in ids <==> Accessed(cfg, txs, i))
  {
    if n == 0 then []
    else
      var ids := AccessedIds(cfg, txs, n - 1);
      if Accessed(cfg, txs, n - 1) then ids + [n - 1] else ids
  }

  /** After the transactions `done`: accessed positions are described by the log, the others are as
      they were. */
  ghost predicate AccessLogged(s0: State, s: State, cfg: BatchConfig, done: seq<Transaction>) {
    && |s.positions| == |s0.positions|
    && forall i :: 0 <= i < |s.positions| ==>
         if Accessed(cfg, done, i) then Described(s.positions[i], Log(s0.funding, s))
         else s.positions[i] == s0.positions[i]
  }

  lemma {:induction false} AccessedAppend(cfg: BatchConfig, done: seq<Transaction>, tx: Transaction, i: int)
    ensures Accessed(cfg, done + [tx], i) <==> Accessed(cfg, done, i) || Touches(Entries(cfg, tx), i)
  {
    hide Entries, Touches;
    var all := done + [tx];
    assert all[|done|] == tx;
    assert forall k :: 0 <= k < |done| ==> all[k] == done[k];
  }

  /** The log only grows, and what it described it still describes. */
  lemma {:induction false} StepDescribes(s0: State, s: State, cfg: BatchConfig, tx: Transaction, p: Position)
    requires Ready(s, cfg) && Logged(s0, s) && ExecuteTransaction(s, cfg, tx).Done?
    requires Described(p, Log(s0.funding, s))
    ensures Described(p, Log(s0.funding, ExecuteTransaction(s, cfg, tx).value))
  {
    var t := ExecuteTransaction(s, cfg, tx).value;
    var log := Log(s0.funding, s);
    hide ExecuteTransaction, Described;
    TransactionWrites(s, cfg, tx);
    if tx.FundingTick? {
      TickDescribes(s0, s, cfg, tx, p);
    } else {
      assert Log(s0.funding, t) == log;
    }
  }

  lemma {:induction false} TickDescribes(s0: State, s: State, cfg: BatchConfig, tx: Transaction, p: Position)
    requires Ready(s, cfg) && Logged(s0, s) && tx.FundingTick? && ExecuteTransaction(s, cfg, tx).Done?
    requires Described(p, Log(s0.funding, s))
    ensures Described(p, Log(s0.funding, ExecuteTransaction(s, cfg, tx).value))
  {
    var t := ExecuteTransaction(s, cfg, tx).value;
    var log := Log(s0.funding, s);
    assert Log(s0.funding, t) == log + [t.funding];
    hide Described, ValidateTick;
    if tx.timestamp == s.funding.timestamp {
      forall id | FindIndex(s.funding.indices, id).Some?
        ensures FindIndex(t.funding.indices, id) == FindIndex(s.funding.indices, id)
      {
        SameTimeSameIndices(s, cfg, tx, id);
      }
    }
    DescriptionSurvives(p, log, t.funding);
  }

  lemma {:induction false} StepAccess(s0: State, s: State, cfg: BatchConfig, done: seq<Transaction>, tx: Transaction)
    requires Ready(s, cfg) && Logged(s0, s) && AccessLogged(s0, s, cfg, done) && ExecuteTransaction(s, cfg, tx).Done?
    ensures AccessLogged(s0, ExecuteTransaction(s, cfg, tx).value, cfg, done + [tx])
  {
    var t := ExecuteTransaction(s, cfg, tx).value;
    TransactionBooked(s, cfg, tx);
    TransactionWrites(s, cfg, tx);
    hide ExecuteTransaction, Entries, Touches, Described, Accessed;
    forall i | 0 <= i < |t.positions|
      ensures
        if Accessed(cfg, done + [tx], i) then Described(t.positions[i], Log(s0.funding, t))
        else t.positions[i] == s0.positions[i]
    {
      AccessedAppend(cfg, done, tx, i);
      if Touches(Entries(cfg, tx), i) {
        TouchedIsStamped(s, t, cfg, tx, i);
        assert Log(s0.funding, t) == Log(s0.funding, s);
        StampedIsDescribed(t.positions[i], Log(s0.funding, t));
      } else if Accessed(cfg, done, i) {
        StepDescribes(s0, s, cfg, tx, s.positions[i]);
      }
    }
  }

  lemma {:induction false} TouchedIsStamped(s: State, t: State, cfg: BatchConfig, tx: Transaction, i: int)
    requires Booked(s.positions, t.positions, s.funding, AssetOf(tx), Entries(cfg, tx))
    requires 0 <= i < |s.positions| && Touches(Entries(cfg, tx), i)
    ensures Stamped(t.positions[i], s.funding) && !tx.FundingTick?
  {
  }

  lemma {:induction false} RunAccess(s0: State, s: State, cfg: BatchConfig, done: seq<Transaction>,
                                     txs: seq<Transaction>)
    requires Ready(s, cfg) && Logged(s0, s) && AccessLogged(s0, s, cfg, done) && ExecuteTransactions(s, cfg, txs).Done?
    ensures AccessLogged(s0, ExecuteTransactions(s, cfg, txs).value, cfg, done + txs)
    decreases |txs|
  {
    hide ExecuteTransaction, Logged, Accounts, AccessLogged;
    if txs == [] {
      assert done + txs == done;
    } else {
      var s1 := ExecuteTransaction(s, cfg, txs[0]).value;
      StepAccess(s0, s, cfg, done, txs[0]);
      StepLogs(s0, s, cfg, txs[0]);
      StepAccounts(s, cfg, txs[0]);
      AccountsValid(s, s1, Applications(txs[0]));
      RunAccess(s0, s1, cfg, done + [txs[0]], txs[1..]);
      assert done + [txs[0]] + txs[1..] == done + txs;
    }
  }

  /** Data availability of a whole batch: the words written for the funding table and for every
      accessed position, read with the previous state at hand, give back the whole table and every
      position of the final state. */
  lemma {:induction false} StreamRebuildsState(s: State, cfg: BatchConfig, txs: seq<Transaction>)
    requires Ready(s, cfg) && s.fundingTable == [] && ExecuteTransactions(s, cfg, txs).Done?
    ensures var t := ExecuteTransactions(s, cfg, txs).value;
      var ids := AccessedIds(cfg, txs, |s.positions|);
      && |t.positions| == |s.positions|
      && ReadAvailabilityData(AvailabilityWords(t.fundingTable, ids, s.positions, t.positions), s.funding, s.positions)
         == Some((t.fundingTable, t.positions))
  {
    hide ExecuteTransactions, Described, Entries, Touches;
    RunAccounts(s, cfg, txs);
    var t := ExecuteTransactions(s, cfg, txs).value;
    var ids := AccessedIds(cfg, txs, |s.positions|);
    assert Log(s.funding, s) == [s.funding];
    NothingAccessed(s, cfg);
    RunAccess(s, s, cfg, [], txs);
    assert [] + txs == txs;
    forall k | 0 <= k < |ids|
      ensures Described(t.positions[ids[k]], [s.funding] + t.fundingTable)
    {
      assert ids[k] in ids;
    }
    AvailabilityRoundTrip(s.funding, t.fundingTable, ids, s.positions, t.positions);
  }

  lemma {:induction false} NothingAccessed(s: State, cfg: BatchConfig)
    ensures AccessLogged(s, s, cfg, [])
  {
  }
}
