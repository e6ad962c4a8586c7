/** The tree induced by leaf modifications (starkware/python/merkle_tree.py): built bottom up, layer
    by layer, with absent subtrees left out. */
module MerkleTrees {
  import opened Felt
  import opened Options
  import opened Arithmetic

  /** A leaf holds the bare modification; an inner node a pair of children of which one may be absent. */
  datatype Tree<+V> = Leaf(value: V) | Node(left: Option<Tree<V>>, right: Option<Tree<V>>)

  datatype Modification<+V> = Modification(index: int, value: V)

  type Layer<V> = map<int, Tree<V>>

  function Pow2(n: nat): (p: nat)
    ensures p >= 1
  {
    if n == 0 then 1 else 2 * Pow2(n - 1)
  }

  // ---- What the tree should say ----

  /** The last modification of an index. */
  function LastModification<V>(ms: seq<Modification<V>>, index: int): Option<V> {
    if ms == [] then None
    else if ms[|ms| - 1].index == index then Some(ms[|ms| - 1].value)
    else LastModification(ms[..|ms| - 1], index)
  }

  /** Walking down from a subtree of the given height by the bits of the index, highest first. */
  function Walk<V>(t: Option<Tree<V>>, height: nat, index: nat): Option<V>
    requires index < Pow2(height)
    decreases height
  {
    if t.None? then None
    else if height == 0 then (if t.value.Leaf? then Some(t.value.value) else None)
    else if t.value.Leaf? then None
    else if index < Pow2(height - 1) then Walk(t.value.left, height - 1, index)
    else Walk(t.value.right, height - 1, index - Pow2(height - 1))
  }

  /** All leaves at the bottom, and no inner node without children. */
  predicate WellFormed<V>(t: Tree<V>, height: nat)
    decreases height
  {
    if height == 0 then t.Leaf?
    else
      && t.Node?
      && (t.left.Some? || t.right.Some?)
      && (t.left.Some? ==> WellFormed(t.left.value, height - 1))
      && (t.right.Some? ==> WellFormed(t.right.value, height - 1))
  }

  // ---- decode_node ----

  datatype Case = Both | Left | Right

  /** decode_node; Abort is its failing assert. */
  function DecodeNode<V>(left: Option<Tree<V>>,
                         right: Option<Tree<V>>): (r: Outcome<(Option<Tree<V>>, Option<Tree<V>>, Case)>)
    ensures r.Done? <==> left.Some? || right.Some?
    ensures r.Done? ==> r.value.0 == left && r.value.1 == right
    ensures r.Done? ==> (r.value.2 == Both <==> left.Some? && right.Some?) && (r.value.2 == Left <==> right.None?)
  {
    if left.None? then
      var _ :- Require(right.Some?);
      Done((left, right, Right))
    else if right.None? then Done((left, right, Left))
    else Done((left, right, Both))
  }

  /** The inner nodes of a tree, as the pairs that are passed to decode_node. */
  predicate InnerNode<V(==)>(t: Option<Tree<V>>, height: nat, left: Option<Tree<V>>, right: Option<Tree<V>>)
    decreases height
  {
    && t.Some? && t.value.Node? && height > 0
    && (|| (t.value.left == left && t.value.right == right)
        || InnerNode(t.value.left, height - 1, left, right)
        || InnerNode(t.value.right, height - 1, left, right))
  }

  /** decode_node's assert never fires on a node of a well-formed tree. */
  lemma {:induction false} DecodeNeverFails<V>(t: Option<Tree<V>>, height: nat, left: Option<Tree<V>>,
                                               right: Option<Tree<V>>)
    requires t.Some? ==> WellFormed(t.value, height)
    requires InnerNode(t, height, left, right)
    ensures DecodeNode(left, right).Done?
    decreases height
  {
    if t.value.left == left && t.value.right == right {
    } else if InnerNode(t.value.left, height - 1, left, right) {
      DecodeNeverFails(t.value.left, height - 1, left, right);
    } else {
      DecodeNeverFails(t.value.right, height - 1, left, right);
    }
  }

  // ---- build_update_tree ----

  function Get<V>(layer: Layer<V>, index: int): Option<Tree<V>> {
    if index in layer then Some(layer[index]) else None
  }

  /** dict(modifications): the last entry of an index wins. */
  method BottomLayer<V>(ms: seq<Modification<V>>) returns (layer: Layer<V>)
    ensures LayerOf(layer, ms, 0)
  {
    layer := map[];
    var i := 0;
    while i < |ms|
      invariant 0 <= i <= |ms|
      invariant forall index :: index in layer <==> LastModification(ms[..i], index).Some?
      invariant forall index :: index in layer ==> layer[index] == Leaf(LastModification(ms[..i], index).value)
    {
      assert ms[..i + 1][..i] == ms[..i];
      layer := layer[ms[i].index := Leaf(ms[i].value)];
      i := i + 1;
    }
    assert ms[..i] == ms;
    ModifiedIff(ms);
    BottomIsLayer(layer, ms);
  }

  predicate Modified<V>(ms: seq<Modification<V>>, index: int) {
    exists i :: 0 <= i < |ms| && ms[i].index == index
  }

  lemma {:induction false} LastIffModified<V>(ms: seq<Modification<V>>, index: int)
    ensures LastModification(ms, index).Some? <==> Modified(ms, index)
    decreases |ms|
  {
    if ms != [] {
      var init := ms[..|ms| - 1];
      LastIffModified(init, index);
      if Modified(init, index) {
        var i :| 0 <= i < |init| && init[i].index == index;
        assert ms[i].index == index;
      }
      if Modified(ms, index) && ms[|ms| - 1].index != index {
        var i :| 0 <= i < |ms| && ms[i].index == index;
        assert init[i].index == index;
      }
    }
  }

  lemma {:induction false} ModifiedIff<V>(ms: seq<Modification<V>>)
    ensures forall index :: LastModification(ms, index).Some? <==> Modified(ms, index)
  {
    forall index
      ensures LastModification(ms, index).Some? <==> Modified(ms, index)
    {
      LastIffModified(ms, index);
    }
  }

  /** A layer of subtrees of height k: one for each block of 2^k indices that contains a modified
      one, and walking a subtree gives the last modifications of its block. */
  ghost predicate LayerOf<V>(layer: Layer<V>, ms: seq<Modification<V>>, k: nat) {
    && (forall q :: q in layer <==> exists i :: 0 <= i < |ms| && Block(ms[i].index, k) == q)
    && (forall q :: q in layer ==> WellFormed(layer[q], k))
    && forall q: int, r: nat :: r < Pow2(k) ==> Agrees(layer, ms, k, q, r)
  }

  /** The subtree of block q says the right thing at offset r. */
  predicate Agrees<V(==)>(layer: Layer<V>, ms: seq<Modification<V>>, k: nat, q: int, r: nat)
    requires r < Pow2(k)
  {
    Walk(Get(layer, q), k, r) == LastModification(ms, IndexIn(q, k, r))
  }

  /** The block of an index at height k, and the index at an offset in a block. */
  function Block(index: int, k: nat): int {
    index / Pow2(k)
  }

  function IndexIn(q: int, k: nat, r: nat): int {
    q * Pow2(k) + r
  }

  lemma {:induction false} BottomIsLayer<V>(layer: Layer<V>, ms: seq<Modification<V>>)
    requires forall index :: index in layer <==> LastModification(ms, index).Some?
    requires forall index :: index in layer ==> layer[index] == Leaf(LastModification(ms, index).value)
    requires forall index :: LastModification(ms, index).Some? <==> Modified(ms, index)
    ensures LayerOf(layer, ms, 0)
  {
    forall q
      ensures q in layer <==> exists i :: 0 <= i < |ms| && Block(ms[i].index, 0) == q
    {
      assert q in layer <==> Modified(ms, q);
      if Modified(ms, q) {
        var i :| 0 <= i < |ms| && ms[i].index == q;
        assert Block(ms[i].index, 0) == q;
      }
    }
  }

  /** One round of the loop: pairs of neighbouring subtrees become their parents. */
  function ParentLayer<V>(layer: Layer<V>): Layer<V> {
    var parents := set index | index in layer :: index / 2;
    map index | index in parents :: Node(Get(layer, 2 * index), Get(layer, 2 * index + 1))
  }

  lemma {:induction false} BlockOfBlock(index: int, k: nat)
    ensures Block(index, k + 1) == Block(index, k) / 2
  {
    var p := Pow2(k);
    var q, r := index / p, index % p;
    var q2, r2 := q / 2, q % 2;
    assert index == q * p + r && q == 2 * q2 + r2;
    Halves(p, q2, r2, r);
    Digits(q2, r2 * p + r, 2 * p);
  }

  lemma {:induction false} Halves(p: nat, q: int, bit: int, r: int)
    requires 0 <= bit <= 1 && 0 <= r < p
    ensures (2 * q + bit) * p + r == q * (2 * p) + (bit * p + r)
    ensures 0 <= bit * p + r < 2 * p
  {
    Distribute(2 * q, bit, p);
    if bit == 1 { assert bit * p == p; } else { assert bit * p == 0; }
  }

  lemma {:induction false} ParentWalk<V>(layer: Layer<V>, q: int, k: nat, r: nat)
    requires r < Pow2(k + 1)
    ensures Walk(Get(ParentLayer(layer), q), k + 1, r) ==
            if r < Pow2(k) then Walk(Get(layer, 2 * q), k, r) else Walk(Get(layer, 2 * q + 1), k, r - Pow2(k))
  {
    assert (2 * q) / 2 == q && (2 * q + 1) / 2 == q;
  }

  lemma {:induction false} OffsetSplits(q: int, k: nat, r: nat)
    requires r < Pow2(k + 1)
    ensures r < Pow2(k) ==> IndexIn(2 * q, k, r) == IndexIn(q, k + 1, r)
    ensures r >= Pow2(k) ==> IndexIn(2 * q + 1, k, r - Pow2(k)) == IndexIn(q, k + 1, r)
  {
    var p := Pow2(k);
    assert (2 * q) * p == q * (2 * p);
    assert (2 * q + 1) * p == q * (2 * p) + p;
  }

  lemma {:induction false} ParentIsLayer<V>(layer: Layer<V>, ms: seq<Modification<V>>, k: nat)
    requires LayerOf(layer, ms, k)
    ensures LayerOf(ParentLayer(layer), ms, k + 1)
  {
    var up := ParentLayer(layer);
    forall q
      ensures q in up <==> exists i :: 0 <= i < |ms| && Block(ms[i].index, k + 1) == q
    {
      ParentKeys(layer, ms, k, q);
    }
    forall q | q in up
      ensures WellFormed(up[q], k + 1)
    {
      var child :| child in layer && child / 2 == q;
      assert child == 2 * q || child == 2 * q + 1;
    }
    var k1 := k + 1;
    forall q: int, r: nat | r < Pow2(k1)
      ensures Agrees(up, ms, k1, q, r)
    {
      ParentAgrees(layer, ms, k, q, r);
    }
  }

  lemma {:induction false} ParentAgrees<V>(layer: Layer<V>, ms: seq<Modification<V>>, k: nat, q: int, r: nat)
    requires LayerOf(layer, ms, k) && r < Pow2(k + 1)
    ensures Agrees(ParentLayer(layer), ms, k + 1, q, r)
  {
    hide ParentLayer, Walk;
    ParentWalk(layer, q, k, r);
    OffsetSplits(q, k, r);
    if r < Pow2(k) {
      assert Agrees(layer, ms, k, 2 * q, r);
    } else {
      assert Agrees(layer, ms, k, 2 * q + 1, r - Pow2(k));
    }
  }

  lemma {:induction false} ParentKeys<V>(layer: Layer<V>, ms: seq<Modification<V>>, k: nat, q: int)
    requires forall p :: p in layer <==> exists i :: 0 <= i < |ms| && Block(ms[i].index, k) == p
    ensures q in ParentLayer(layer) <==> exists i :: 0 <= i < |ms| && Block(ms[i].index, k + 1) == q
  {
    if q in ParentLayer(layer) {
      var child :| child in layer && child / 2 == q;
      var i :| 0 <= i < |ms| && Block(ms[i].index, k) == child;
      BlockOfBlock(ms[i].index, k);
    }
    if i :| 0 <= i < |ms| && Block(ms[i].index, k + 1) == q {
      BlockOfBlock(ms[i].index, k);
      assert Block(ms[i].index, k) in layer;
    }
  }

  predicate AllBelow<V>(ms: seq<Modification<V>>, bound: int) {
    forall i :: 0 <= i < |ms| ==> 0 <= ms[i].index < bound
  }

  lemma {:induction false} BlockZero(index: int, height: nat)
    ensures Block(index, height) == 0 <==> 0 <= index < Pow2(height)
  {
    var p := Pow2(height);
    if 0 <= index < p { Digits(0, index, p); }
  }

  /** At the top the layer is the root alone exactly when every index is in range. */
  lemma {:induction false} RootLayer<V>(layer: Layer<V>, ms: seq<Modification<V>>, height: nat)
    requires ms != [] && LayerOf(layer, ms, height)
    ensures |layer| == 1 && 0 in layer <==> AllBelow(ms, Pow2(height))
  {
    if AllBelow(ms, Pow2(height)) {
      forall q
        ensures q in layer <==> q == 0
      {
        BlockZero(ms[0].index, height);
        if q in layer {
          var i :| 0 <= i < |ms| && Block(ms[i].index, height) == q;
          BlockZero(ms[i].index, height);
        }
      }
      assert layer.Keys == {0};
    }
    if |layer| == 1 && 0 in layer {
      assert layer.Keys == {0} by {
        assert layer.Keys - {0} == {} by { assert |layer.Keys - {0}| == 0; }
      }
      forall i | 0 <= i < |ms|
        ensures 0 <= ms[i].index < Pow2(height)
      {
        assert Block(ms[i].index, height) in layer.Keys;
        BlockZero(ms[i].index, height);
      }
    }
  }

  /** What build_update_tree promises: walking by any index gives the last modification of it, and
      every inner node has a child. */
  ghost predicate IsUpdateTree<V>(t: Tree<V>, height: nat, ms: seq<Modification<V>>) {
    && WellFormed(t, height)
    && forall index: nat :: index < Pow2(height) ==> Walk(Some(t), height, index) == LastModification(ms, index)
  }

  /** build_update_tree. It fails exactly when some index does not fit the height. */
  method BuildUpdateTree<V>(height: nat, modifications: seq<Modification<V>>) returns (r: Outcome<Option<Tree<V>>>)
    ensures r.Done? <==> modifications == [] || AllBelow(modifications, Pow2(height))
    ensures modifications == [] ==> r == Done(None)
    ensures modifications != [] && r.Done? ==> r.value.Some? && IsUpdateTree(r.value.value, height, modifications)
  {
    if |modifications| == 0 { return Done(None); }
    var layer := BottomLayer(modifications);
    var i := 0;
    while i < height
      invariant 0 <= i <= height
      invariant LayerOf(layer, modifications, i)
    {
      ParentIsLayer(layer, modifications, i);
      layer := ParentLayer(layer);
      i := i + 1;
    }
    RootLayer(layer, modifications, height);
    if |layer| != 1 || 0 !in layer { return Abort; }
    forall index: nat | index < Pow2(height)
      ensures Walk(Some(layer[0]), height, index) == LastModification(modifications, index)
    {
      assert Agrees(layer, modifications, height, 0, index);
      assert Get(layer, 0) == Some(layer[0]) && IndexIn(0, height, index) == index;
    }
    return Done(Some(layer[0]));
  }
}
