/** Bitcoin's Merkle tree as dapp/burn-deposit-assembler.js computes it (merkleSiblings, merkleRoot, witnessPath): a
    lone last node is hashed with itself. */
module BlockMerkle {
  import opened Wrappers
  import opened MerkleLayers
  import opened Words
  import LeanTree

  function Above<N>(h: (N, N) -> N, layer: seq<N>): (next: seq<N>)
    ensures |next| == (|layer| + 1) / 2
  {
    Up(h, Doubled, layer)
  }

  function Root<N>(h: (N, N) -> N, layer: seq<N>): N
    requires layer != []
    decreases |layer|
  {
    if |layer| == 1 then layer[0] else Root(h, Above(h, layer))
  }

  function Siblings<N>(h: (N, N) -> N, layer: seq<N>, i: nat): seq<N>
    requires i < |layer|
    decreases |layer|
  {
    if |layer| == 1 then []
    else [layer[if Neighbour(i) < |layer| then Neighbour(i) else i]] + Siblings(h, Above(h, layer), i / 2)
  }

  /** `merkleRoot`. */
  method MerkleRoot<N>(h: (N, N) -> N, txids: seq<N>) returns (r: Result<N>)
    ensures r == if txids == [] then Err("merkleRoot: empty block") else Ok(Root(h, txids))
  {
    if txids == [] {
      return Err("merkleRoot: empty block");
    }
    var layer := txids;
    while |layer| > 1
      invariant layer != [] && Root(h, txids) == Root(h, layer)
      decreases |layer|
    {
      layer := NextLayer(h, Doubled, layer);
    }
    return Ok(layer[0]);
  }

  // ----- the root, said without layers

  /** The last place of level d over n leaves. */
  function LastAt(n: nat, d: nat): nat
    requires n > 0
  {
    if d == 0 then n - 1 else LastAt(n, d - 1) / 2
  }

  /** The tree over the leaves in which every place past the last of its level holds what the last one does. */
  function Node<N>(h: (N, N) -> N, leaves: seq<N>, d: nat, j: nat): N
    requires leaves != []
  {
    var last := LastAt(|leaves|, d);
    var k := if j < last then j else last;
    if d == 0 then leaves[k] else h(Node(h, leaves, d - 1, 2 * k), Node(h, leaves, d - 1, 2 * k + 1))
  }

  ghost predicate IsLevel<N(!new)>(h: (N, N) -> N, leaves: seq<N>, d: nat, layer: seq<N>)
    requires leaves != []
  {
    |layer| == LastAt(|leaves|, d) + 1 && forall j :: 0 <= j < |layer| ==> layer[j] == Node(h, leaves, d, j)
  }

  lemma NextLevel<N(!new)>(h: (N, N) -> N, leaves: seq<N>, d: nat, layer: seq<N>)
    requires leaves != [] && IsLevel(h, leaves, d, layer)
    ensures IsLevel(h, leaves, d + 1, Above(h, layer))
  {
    var above := Above(h, layer);
    forall j | 0 <= j < |above| ensures above[j] == Node(h, leaves, d + 1, j) {
      assert layer[2 * j] == Node(h, leaves, d, 2 * j);
      if 2 * j + 1 < |layer| {
        assert layer[2 * j + 1] == Node(h, leaves, d, 2 * j + 1);
      } else {
        assert Node(h, leaves, d, 2 * j + 1) == Node(h, leaves, d, 2 * j);
      }
    }
  }

  lemma {:induction false} RootAbove<N(!new)>(h: (N, N) -> N, leaves: seq<N>, d: nat, layer: seq<N>)
    requires leaves != [] && layer != [] && IsLevel(h, leaves, d, layer)
    ensures Root(h, layer) == Node(h, leaves, d + LeanTree.CeilLog(|layer|), 0)
    decreases |layer|
  {
    if |layer| > 1 {
      NextLevel(h, leaves, d, layer);
      RootAbove(h, leaves, d + 1, Above(h, layer));
    }
  }

  /** The layered root is the root of that tree, ceil(log2 n) levels up. */
  lemma RootIsNode<N(!new)>(h: (N, N) -> N, leaves: seq<N>)
    requires leaves != []
    ensures Root(h, leaves) == Node(h, leaves, LeanTree.CeilLog(|leaves|), 0)
  {
    RootAbove(h, leaves, 0, leaves);
  }

  // ----- paths

  /** Every place `merkleSiblings` has siblings for: those in the list, and the one just past an odd list, where the copy of
      the last node stands; below 2^31, beyond which `^` gives a negative number. A lone node needs none. */
  predicate HasSiblings(n: nat, i: nat) {
    n <= 1 || (i < 0x8000_0000 && (i < n || (i == n && n % 2 == 1)))
  }

  /** The siblings at such a place: the copy has those of the node it copies. */
  function SiblingsAt<N>(h: (N, N) -> N, layer: seq<N>, i: nat): seq<N>
    requires HasSiblings(|layer|, i)
  {
    if |layer| <= 1 then [] else if i < |layer| then Siblings(h, layer, i) else Siblings(h, layer, i - 1)
  }

  lemma InListStep<N(!new)>(h: (N, N) -> N, layer: seq<N>, i: nat)
    requires |layer| > 1 && i < |layer|
    ensures var at := if Neighbour(i) < |layer| then Neighbour(i) else i;
            Siblings(h, layer, i) == [layer[at]] + Siblings(h, Above(h, layer), i / 2)
  {
  }

  /** The next sibling at such a place, and the place above. */
  lemma SiblingsStep<N(!new)>(h: (N, N) -> N, layer: seq<N>, i: nat)
    requires |layer| > 1 && HasSiblings(|layer|, i)
    ensures var at := if Neighbour(i) < |layer| then Neighbour(i) else i;
            && at < |layer| && HasSiblings(|Above(h, layer)|, i / 2)
            && SiblingsAt(h, layer, i) == [layer[at]] + SiblingsAt(h, Above(h, layer), i / 2)
  {
    var k: nat := if i < |layer| then i else i - 1;
    InListStep(h, layer, k);
    assert k / 2 == i / 2 < |Above(h, layer)|;
    assert SiblingsAt(h, layer, i) == Siblings(h, layer, k);
    assert SiblingsAt(h, Above(h, layer), i / 2) == Siblings(h, Above(h, layer), i / 2);
  }

  lemma Cat<N>(a: seq<N>, b: seq<N>, c: seq<N>)
    ensures a + (b + c) == (a + b) + c
  {
  }

  /** `merkleSiblings`: refused exactly where there are none, when the bytes of a missing node are asked for. */
  method MerkleSiblings<N(!new)>(h: (N, N) -> N, txids: seq<N>, index: int) returns (r: Result<seq<N>>)
    ensures var i := Uint32(index);
            r == if HasSiblings(|txids|, i) then Ok(SiblingsAt(h, txids, i)) else Err("no such node")
  {
    var sibs: seq<N> := [];
    var layer, idx: nat := txids, Uint32(index);
    ghost var start := idx;
    while |layer| > 1
      invariant idx < 0x1_0000_0000
      invariant HasSiblings(|txids|, start) <==> HasSiblings(|layer|, idx)
      invariant HasSiblings(|layer|, idx) ==> SiblingsAt(h, txids, start) == sibs + SiblingsAt(h, layer, idx)
      decreases |layer|
    {
      Int32Is(idx);
      var beside := Neighbour(Int32(idx));
      var at := if beside < |layer| then beside else idx;
      if at < 0 || at >= |layer| {
        return Err("no such node");
      }
      ghost var before := sibs;
      SiblingsStep(h, layer, idx);
      sibs := sibs + [layer[at]];
      Cat(before, [layer[at]], SiblingsAt(h, Above(h, layer), idx / 2));
      layer := NextLayer(h, Doubled, layer);
      idx := idx / 2;
    }
    assert sibs + [] == sibs;
    return Ok(sibs);
  }

  /** Folding the siblings by the bits of the position reaches the root. */
  lemma {:induction false} SiblingsFoldToRoot<N(!new)>(h: (N, N) -> N, layer: seq<N>, i: nat)
    requires i < |layer|
    ensures Fold(h, layer[i], i, Siblings(h, layer, i)) == Root(h, layer)
    decreases |layer|
  {
    if |layer| > 1 {
      var above, sibs := Above(h, layer), Siblings(h, layer, i);
      SiblingsFoldToRoot(h, above, i / 2);
      assert sibs[1..] == Siblings(h, above, i / 2);
      assert Join(h, i, layer[i], sibs[0]) == above[i / 2];
    }
  }

  /** So does folding from the copy of an odd list's last node, one place further. */
  lemma CopyFoldsToRoot<N(!new)>(h: (N, N) -> N, layer: seq<N>)
    requires |layer| > 1 && |layer| % 2 == 1
    ensures Fold(h, layer[|layer| - 1], |layer|, Siblings(h, layer, |layer| - 1)) == Root(h, layer)
  {
    var n, last := |layer|, layer[|layer| - 1];
    var sibs := Siblings(h, layer, n - 1);
    InListStep(h, layer, n - 1);
    SiblingsFoldToRoot(h, layer, n - 1);
    assert sibs[0] == last && (n - 1) / 2 == n / 2;
    assert Join(h, n, last, last) == Join(h, n - 1, last, last);
  }

  /** The witness tree's leaves: the coinbase stands as zero. */
  function WitnessLeaves<N>(wtxids: seq<N>, zero: N): seq<N> {
    if wtxids == [] then [] else [zero] + wtxids[1..]
  }

  /** A record's lists, position and raw coinbase, each of which may be missing. */
  datatype Block<N> = Block(txids: Option<seq<N>>, wtxids: Option<seq<N>>, index: int, coinbase: Option<string>)

  datatype Witness<N> = Witness(wtxidSiblings: seq<N>, coinbase: string, coinbaseTxidSiblings: seq<N>)

  predicate RecordOk<N>(b: Block<N>) {
    && b.txids.Some? && b.wtxids.Some? && |b.txids.value| == |b.wtxids.value| && 0 < b.index < |b.txids.value|
    && b.coinbase.Some? && "0x" <= b.coinbase.value && b.index < 0x8000_0000
  }

  /** `witnessPath`: refused exactly for missing or unequal lists, the coinbase's own position or none in the list, or a
      coinbase that is not raw hex; otherwise both paths fold, the transaction's to the witness root and the coinbase's to
      the block's root. */
  method WitnessPath<N(!new)>(h: (N, N) -> N, zero: N, b: Block<N>) returns (r: Result<Witness<N>>)
    requires b.txids.Some? ==> |b.txids.value| < 0x1_0000_0000  // an array's length is a 32-bit number
    ensures r.Ok? <==> RecordOk(b)
    ensures r.Ok? ==>
              && Fold(h, b.wtxids.value[b.index], b.index, r.value.wtxidSiblings) == Root(h, WitnessLeaves(b.wtxids.value, zero))
              && Fold(h, b.txids.value[0], 0, r.value.coinbaseTxidSiblings) == Root(h, b.txids.value)
              && Some(r.value.coinbase) == b.coinbase
  {
    if b.txids.None? || b.wtxids.None? {
      return Err("blockTxids and blockWtxids required");
    }
    var txids, wtxids := b.txids.value, b.wtxids.value;
    if |txids| != |wtxids| || b.index <= 0 || b.index >= |txids| {
      return Err("witness arrays/index invalid");
    }
    if b.coinbase.None? || !("0x" <= b.coinbase.value) {
      return Err("raw coinbase required");
    }
    var leaves := WitnessLeaves(wtxids, zero);
    var w := MerkleSiblings(h, leaves, b.index);
    var c := MerkleSiblings(h, txids, 0);
    SiblingsFoldToRoot(h, leaves, b.index);
    SiblingsFoldToRoot(h, txids, 0);
    assert leaves[b.index] == wtxids[b.index];
    return if w.Ok? then Ok(Witness(w.value, b.coinbase.value, c.value)) else Err(w.error);
  }
}
