/** On-chain data availability (position/serialize_change.cairo): the words emitted for a changed
    position, and the reader that rebuilds the position from the previous one. */
module SerializeChange {
  import opened Felt
  import opened Options
  import opened PerpetualTypes
  import opened Funding
  import opened AddAsset

  const BALANCE_SPAN: int := 0x10000000000000000

  /** serialize_asset: the packed word. */
  function AssetWord(id: int, balance: int): int {
    id * BALANCE_SPAN + (balance - BALANCE_LOWER_BOUND)
  }

  /** get_asset_id_or_bound. */
  function AssetIdOrBound(assets: seq<PositionAsset>): int {
    if assets != [] then assets[0].assetId else ASSET_ID_UPPER_BOUND
  }

  /** serialize_position_change_inner: a merge of the two arrays with a sentinel id. The inner
      emptiness tests only guard reads past the end, which ids below the sentinel never cause. */
  function SerializeInner(prev: seq<PositionAsset>, next: seq<PositionAsset>): seq<int>
    decreases |prev| + |next|
  {
    var prevId, nextId := AssetIdOrBound(prev), AssetIdOrBound(next);
    if prevId == nextId then
      if prevId == ASSET_ID_UPPER_BOUND then []
      else
        (if next[0].balance != prev[0].balance then [AssetWord(nextId, next[0].balance)] else [])
        + SerializeInner(prev[1..], next[1..])
    else if IsLe(prevId, nextId) then
      if prev == [] then [] else [AssetWord(prevId, 0)] + SerializeInner(prev[1..], next)
    else
      if next == [] then [] else [AssetWord(nextId, next[0].balance)] + SerializeInner(prev, next[1..])
  }

  /** serialize_position_change: the size is filled in last, in front of the words it counts. */
  function Serialize(key: int, prev: Position, next: Position): seq<int> {
    var body := [key, next.publicKey, next.collateral - BALANCE_LOWER_BOUND, next.fundingTimestamp]
                + SerializeInner(prev.assets, next.assets);
    [|body|] + body
  }

  lemma {:induction false} AppendOne(s: seq<int>, x: int, rest: seq<int>)
    ensures s + [x] + rest == s + ([x] + rest)
  {
  }

  /** One step of the merge. */
  lemma {:induction false} SerializeStep(prev: seq<PositionAsset>, next: seq<PositionAsset>)
    ensures var prevId, nextId := AssetIdOrBound(prev), AssetIdOrBound(next);
      && (prevId == nextId == ASSET_ID_UPPER_BOUND ==> SerializeInner(prev, next) == [])
      && (prevId == nextId != ASSET_ID_UPPER_BOUND ==>
            SerializeInner(prev, next) ==
            if next[0].balance != prev[0].balance then [AssetWord(nextId, next[0].balance)]
                + SerializeInner(prev[1..], next[1..])
            else SerializeInner(prev[1..], next[1..]))
      && (prevId != nextId && IsLe(prevId, nextId) ==>
            SerializeInner(prev, next) == if prev == [] then []
                else [AssetWord(prevId, 0)] + SerializeInner(prev[1..], next))
      && (prevId != nextId && !IsLe(prevId, nextId) ==>
            SerializeInner(prev, next) == if next == [] then []
                else [AssetWord(nextId, next[0].balance)] + SerializeInner(prev, next[1..]))
  {
    hide AssetWord;
  }

  // ---- The writer ----

  /** The output segment that the words are appended to. */
  class DataWriter {
    var output: seq<int>

    constructor ()
      ensures output == []
    {
      output := [];
    }

    /** serialize_word. */
    method SerializeWord(word: int)
      modifies this
      ensures output == old(output) + [word]
    {
      output := output + [word];
    }

    /** serialize_asset. */
    method SerializeAsset(id: int, balance: int)
      modifies this
      ensures output == old(output) + [AssetWord(id, balance)]
    {
      SerializeWord(id * BALANCE_SPAN + (balance - BALANCE_LOWER_BOUND));
    }

    /** serialize_position_change_inner. */
    method WriteAssets(prev: seq<PositionAsset>, next: seq<PositionAsset>)
      modifies this
      ensures output == old(output) + SerializeInner(prev, next)
      decreases |prev| + |next|
    {
      SerializeStep(prev, next);
      hide SerializeInner, AssetWord;
      ghost var before := output;
      var prevId, nextId := AssetIdOrBound(prev), AssetIdOrBound(next);
      if prevId == nextId {
        if prevId != ASSET_ID_UPPER_BOUND {
          if next[0].balance != prev[0].balance {
            SerializeAsset(nextId, next[0].balance);
          }
          WriteAssets(prev[1..], next[1..]);
          AppendOne(before, AssetWord(nextId, next[0].balance), SerializeInner(prev[1..], next[1..]));
        }
      } else if IsLe(prevId, nextId) {
        if prev != [] {
          SerializeAsset(prev[0].assetId, 0);
          WriteAssets(prev[1..], next);
          AppendOne(before, AssetWord(prevId, 0), SerializeInner(prev[1..], next));
        }
      } else if next != [] {
        SerializeAsset(next[0].assetId, next[0].balance);
        WriteAssets(prev, next[1..]);
        AppendOne(before, AssetWord(nextId, next[0].balance), SerializeInner(prev, next[1..]));
      }
    }

    /** serialize_position_change: a word is kept free for the size and filled in at the end. */
    method WriteChange(key: int, prev: Position, next: Position)
      modifies this
      ensures output == old(output) + Serialize(key, prev, next)
    {
      var start := |output|;
      SerializeWord(0);
      SerializeWord(key);
      SerializeWord(next.publicKey);
      SerializeWord(next.collateral - BALANCE_LOWER_BOUND);
      SerializeWord(next.fundingTimestamp);
      WriteAssets(prev.assets, next.assets);
      var size := |output| - start - 1;
      output := output[start := size];
    }
  }

  // ---- The reader ----

  datatype Change = Change(assetId: int, balance: int)

  function DecodeWord(w: int): Change {
    Change(w / BALANCE_SPAN, w % BALANCE_SPAN + BALANCE_LOWER_BOUND)
  }

  function DecodeWords(words: seq<int>): (r: seq<Change>)
    ensures |r| == |words|
    ensures forall i :: 0 <= i < |words| ==> r[i] == DecodeWord(words[i])
  {
    if words == [] then [] else [DecodeWord(words[0])] + DecodeWords(words[1..])
  }

  /** Sets one balance; a zero balance deletes the asset. Cached indices are filled in later. */
  function Put(assets: seq<PositionAsset>, c: Change): seq<PositionAsset> {
    LeftPart(assets, c.assetId) + Middle(c.assetId, c.balance, 0) + RightPart(assets, c.assetId)
  }

  function Replay(assets: seq<PositionAsset>, changes: seq<Change>): seq<PositionAsset>
    decreases |changes|
  {
    if changes == [] then assets else Replay(Put(assets, changes[0]), changes[1..])
  }

  function Restamp(assets: seq<PositionAsset>, indices: seq<FundingIndex>): (r: seq<PositionAsset>)
    ensures |r| == |assets|
    ensures forall i :: 0 <= i < |r| ==> r[i] == assets[i].(cachedFundingIndex := IndexOr0(indices, assets[i].assetId))
  {
    if assets == [] then []
    else [assets[0].(cachedFundingIndex := IndexOr0(indices, assets[0].assetId))] + Restamp(assets[1..], indices)
  }

  /** The funding indices of a timestamp: the last entry of the log that carries it. */
  function LookupLog(log: seq<FundingInfo>, timestamp: int): Option<FundingInfo>
    decreases |log|
  {
    if log == [] then None
    else if log[|log| - 1].timestamp == timestamp then Some(log[|log| - 1])
    else LookupLog(log[..|log| - 1], timestamp)
  }

  function IndicesAt(log: seq<FundingInfo>, timestamp: int): seq<FundingIndex> {
    match LookupLog(log, timestamp)
    case None => []
    case Some(info) => info.indices
  }

  /** Rebuilds key and position from the previous position, the words and the log of indices. */
  function Rebuild(prev: Position, words: seq<int>, log: seq<FundingInfo>): Option<(int, Position)> {
    if |words| < 5 || words[0] != |words| - 1 then None
    else
      var assets := Replay(prev.assets, DecodeWords(words[5..]));
      Some((words[1], Position(words[2], words[3] + BALANCE_LOWER_BOUND,
                               Restamp(assets, IndicesAt(log, words[4])), words[4])))
  }

  // ---- Correctness ----

  lemma {:induction false} WordRoundTrip(id: int, balance: int)
    requires 0 <= id < ASSET_ID_UPPER_BOUND && ValidBalance(balance)
    ensures DecodeWord(AssetWord(id, balance)) == Change(id, balance)
    ensures 0 <= AssetWord(id, balance) < P
  {
  }

  function FindChange(changes: seq<Change>, id: int): Option<int> {
    if changes == [] then None
    else if changes[0].assetId == id then Some(changes[0].balance)
    else FindChange(changes[1..], id)
  }

  predicate SortedChanges(changes: seq<Change>) {
    forall i, j :: 0 <= i < j < |changes| ==> changes[i].assetId < changes[j].assetId
  }

  predicate Above(changes: seq<Change>, id: int) {
    forall i :: 0 <= i < |changes| ==> id < changes[i].assetId
  }

  predicate SomeAssets(assets: seq<PositionAsset>) {
    SortedAssets(assets) && forall i :: 0 <= i < |assets| ==> ValidAsset(assets[i])
  }

  predicate AssetsAbove(assets: seq<PositionAsset>, id: int) {
    forall i :: 0 <= i < |assets| ==> id < assets[i].assetId
  }

  /** What the merge emits, as changes. */
  ghost function Diff(prev: seq<PositionAsset>, next: seq<PositionAsset>): seq<Change> {
    DecodeWords(SerializeInner(prev, next))
  }

  lemma {:induction false} TailHolding(a: seq<PositionAsset>, x: int)
    requires a != [] && SomeAssets(a)
    ensures x < a[0].assetId ==> Holding(a, x) == 0
    ensures x == a[0].assetId ==> Holding(a, x) == a[0].balance && Holding(a[1..], x) == 0
    ensures x != a[0].assetId ==> Holding(a, x) == Holding(a[1..], x)
  {
    HoldingAbsent(a[1..], a[0].assetId);
    if x < a[0].assetId { HoldingAbsent(a, x); }
  }

  lemma {:induction false} DecodeCons(w: int, ws: seq<int>)
    ensures DecodeWords([w] + ws) == [DecodeWord(w)] + DecodeWords(ws)
  {
    assert ([w] + ws)[1..] == ws;
  }

  lemma {:induction false} SortedCons(c: Change, cs: seq<Change>, low: int)
    requires SortedChanges(cs) && Above(cs, c.assetId) && low < c.assetId
    ensures SortedChanges([c] + cs) && Above([c] + cs, low)
    ensures forall x :: FindChange([c] + cs, x) == if x == c.assetId then Some(c.balance) else FindChange(cs, x)
  {
    assert ([c] + cs)[1..] == cs;
  }

  lemma {:induction false} AboveWeaken(cs: seq<Change>, id: int, low: int)
    requires Above(cs, id) && low <= id
    ensures Above(cs, low)
  {
  }

  /** The change the merge must report for one id. */
  ghost function ExpectedChange(prev: seq<PositionAsset>, next: seq<PositionAsset>, x: int): Option<int> {
    if Holding(prev, x) == Holding(next, x) then None else Some(Holding(next, x))
  }

  ghost predicate DiffIsExact(prev: seq<PositionAsset>, next: seq<PositionAsset>, low: int) {
    && SortedChanges(Diff(prev, next))
    && Above(Diff(prev, next), low)
    && forall x :: FindChange(Diff(prev, next), x) == ExpectedChange(prev, next, x)
  }

  lemma {:induction false} DiffSame(prev: seq<PositionAsset>, next: seq<PositionAsset>, low: int)
    requires SomeAssets(prev) && SomeAssets(next) && prev != [] && next != []
    requires prev[0].assetId == next[0].assetId && low < prev[0].assetId
    requires DiffIsExact(prev[1..], next[1..], prev[0].assetId)
    ensures DiffIsExact(prev, next, low)
  {
    var id := next[0].assetId;
    var rest := SerializeInner(prev[1..], next[1..]);
    forall x
      ensures x != id ==> ExpectedChange(prev, next, x) == ExpectedChange(prev[1..], next[1..], x)
      ensures x == id ==> ExpectedChange(prev[1..], next[1..], x) == None
    {
      TailHolding(prev, x);
      TailHolding(next, x);
    }
    TailHolding(prev, id);
    TailHolding(next, id);
    if next[0].balance != prev[0].balance {
      WordRoundTrip(id, next[0].balance);
      DecodeCons(AssetWord(id, next[0].balance), rest);
      SortedCons(Change(id, next[0].balance), Diff(prev[1..], next[1..]), low);
    } else {
      assert SerializeInner(prev, next) == rest;
      AboveWeaken(Diff(prev[1..], next[1..]), id, low);
    }
  }

  lemma {:induction false} DiffDeleted(prev: seq<PositionAsset>, next: seq<PositionAsset>, low: int)
    requires SomeAssets(prev) && SomeAssets(next) && prev != []
    requires next == [] || prev[0].assetId < next[0].assetId
    requires low < prev[0].assetId
    requires DiffIsExact(prev[1..], next, prev[0].assetId)
    ensures DiffIsExact(prev, next, low)
  {
    var id := prev[0].assetId;
    assert SerializeInner(prev, next) == [AssetWord(id, 0)] + SerializeInner(prev[1..], next);
    WordRoundTrip(id, 0);
    DecodeCons(AssetWord(id, 0), SerializeInner(prev[1..], next));
    SortedCons(Change(id, 0), Diff(prev[1..], next), low);
    forall x
      ensures FindChange(Diff(prev, next), x) == ExpectedChange(prev, next, x)
    {
      TailHolding(prev, x);
      if next != [] { TailHolding(next, id); }
    }
  }

  lemma {:induction false} DiffAdded(prev: seq<PositionAsset>, next: seq<PositionAsset>, low: int)
    requires SomeAssets(prev) && SomeAssets(next) && next != []
    requires prev == [] || next[0].assetId < prev[0].assetId
    requires low < next[0].assetId
    requires DiffIsExact(prev, next[1..], next[0].assetId)
    ensures DiffIsExact(prev, next, low)
  {
    var id := next[0].assetId;
    var b := next[0].balance;
    assert SerializeInner(prev, next) == [AssetWord(id, b)] + SerializeInner(prev, next[1..]);
    WordRoundTrip(id, b);
    DecodeCons(AssetWord(id, b), SerializeInner(prev, next[1..]));
    SortedCons(Change(id, b), Diff(prev, next[1..]), low);
    forall x
      ensures FindChange(Diff(prev, next), x) == ExpectedChange(prev, next, x)
    {
      TailHolding(next, x);
      if prev != [] { TailHolding(prev, id); }
    }
  }

  /** The merge reports exactly the ids whose balance changed, once each and in order, with the
      new balance, zero for a deleted asset. */
  lemma {:induction false} MergeIsExact(prev: seq<PositionAsset>, next: seq<PositionAsset>, low: int)
    requires SomeAssets(prev) && SomeAssets(next)
    requires AssetsAbove(prev, low) && AssetsAbove(next, low)
    ensures DiffIsExact(prev, next, low)
    decreases |prev| + |next|
  {
    if prev == [] && next == [] {
    } else if prev != [] && next != [] && prev[0].assetId == next[0].assetId {
      MergeIsExact(prev[1..], next[1..], prev[0].assetId);
      DiffSame(prev, next, low);
    } else if prev != [] && (next == [] || prev[0].assetId < next[0].assetId) {
      if next != [] { AboveHead(next, prev[0].assetId); }
      MergeIsExact(prev[1..], next, prev[0].assetId);
      DiffDeleted(prev, next, low);
    } else {
      if prev != [] { AboveHead(prev, next[0].assetId); }
      MergeIsExact(prev, next[1..], next[0].assetId);
      DiffAdded(prev, next, low);
    }
  }

  lemma {:induction false} AboveHead(a: seq<PositionAsset>, low: int)
    requires SomeAssets(a) && a != [] && low < a[0].assetId
    ensures AssetsAbove(a, low)
  {
    forall i | 0 <= i < |a|
      ensures low < a[i].assetId
    {
      if i > 0 { assert a[0].assetId < a[i].assetId; }
    }
  }

  /** Balances of an array while it is being replayed. */
  predicate Replaying(assets: seq<PositionAsset>) {
    SortedAssets(assets) && forall i :: 0 <= i < |assets| ==> assets[i].balance != 0
  }

  lemma {:induction false} PutExact(assets: seq<PositionAsset>, c: Change)
    requires Replaying(assets)
    ensures Replaying(Put(assets, c))
    ensures forall x :: Holding(Put(assets, c), x) == if x == c.assetId then c.balance else Holding(assets, x)
  {
    var mid := Middle(c.assetId, c.balance, 0);
    RebuiltSorted(assets, mid, c.assetId);
    SplitConcat(assets, c.assetId);
    SplitOrder(assets, c.assetId);
    ReplaceMiddle(LeftPart(assets, c.assetId), Prior(assets, c.assetId), mid, RightPart(assets, c.assetId), c.assetId);
    forall i | 0 <= i < |Put(assets, c)|
      ensures Put(assets, c)[i].balance != 0
    {
      var a := Put(assets, c)[i];
      if a in assets { var j :| 0 <= j < |assets| && assets[j] == a; }
    }
  }

  lemma {:induction false} FindChangeAbsent(changes: seq<Change>, id: int)
    requires Above(changes, id)
    ensures FindChange(changes, id) == None
  {
    if changes != [] {
      FindChangeAbsent(changes[1..], id);
    }
  }

  lemma {:induction false} ReplayExact(assets: seq<PositionAsset>, changes: seq<Change>)
    requires Replaying(assets) && SortedChanges(changes)
    ensures Replaying(Replay(assets, changes))
    ensures forall x :: Holding(Replay(assets, changes), x) ==
              if FindChange(changes, x).Some? then FindChange(changes, x).value else Holding(assets, x)
    decreases |changes|
  {
    if changes != [] {
      PutExact(assets, changes[0]);
      ReplayExact(Put(assets, changes[0]), changes[1..]);
      FindChangeAbsent(changes[1..], changes[0].assetId);
    }
  }

  /** Arrays of non-zero balances with the same holdings list the same ids and balances. */
  lemma {:induction false} SameHoldings(a: seq<PositionAsset>, b: seq<PositionAsset>)
    requires Replaying(a) && Replaying(b)
    requires forall x :: Holding(a, x) == Holding(b, x)
    ensures |a| == |b|
    ensures forall i :: 0 <= i < |a| ==> a[i].assetId == b[i].assetId && a[i].balance == b[i].balance
  {
    var idA := if a != [] then a[0].assetId else 0;
    var idB := if b != [] then b[0].assetId else 0;
    HeadHolding(a, idA);
    HeadHolding(a, idB);
    HeadHolding(b, idA);
    HeadHolding(b, idB);
    if a != [] {
      forall x
        ensures Holding(a[1..], x) == Holding(b[1..], x)
      {
        HeadHolding(a, x);
        HeadHolding(b, x);
      }
      SameHoldings(a[1..], b[1..]);
    }
  }

  lemma {:induction false} HeadHolding(a: seq<PositionAsset>, x: int)
    requires Replaying(a)
    ensures a != [] && x < a[0].assetId ==> Holding(a, x) == 0
    ensures a != [] && x == a[0].assetId ==> Holding(a, x) == a[0].balance && Holding(a[1..], x) == 0
    ensures a != [] && x != a[0].assetId ==> Holding(a, x) == Holding(a[1..], x)
  {
    if a != [] {
      HoldingAbsent(a[1..], a[0].assetId);
      if x < a[0].assetId { HoldingAbsent(a, x); }
    }
  }

  /** The cached indices of `p` can be read off the log at the timestamp stored with it. */
  predicate Described(p: Position, log: seq<FundingInfo>) {
    UpToDate(p.assets, IndicesAt(log, p.fundingTimestamp))
  }

  /** Data availability round trip: the words emitted for a change, replayed on the previous
      position, rebuild the new position completely: key, collateral, balances, timestamp, and the
      cached funding indices that the words do not carry. */
  lemma {:induction false} RebuildsPosition(key: int, prev: Position, next: Position, log: seq<FundingInfo>)
    requires ValidAssets(prev.assets) && ValidAssets(next.assets)
    requires Described(next, log)
    ensures Rebuild(prev, Serialize(key, prev, next), log) == Some((key, next))
  {
    var words := Serialize(key, prev, next);
    assert words[5..] == SerializeInner(prev.assets, next.assets);
    MergeIsExact(prev.assets, next.assets, -1);
    ReplayExact(prev.assets, Diff(prev.assets, next.assets));
    var assets := Replay(prev.assets, Diff(prev.assets, next.assets));
    SameHoldings(assets, next.assets);
    var indices := IndicesAt(log, next.fundingTimestamp);
    assert Restamp(assets, indices) == next.assets;
  }
}
