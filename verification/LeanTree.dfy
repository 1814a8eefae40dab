/** The lean incremental tree of dapp/assoc-pool.js (levelsOf, rootOf, proofOf): a node without a right sibling moves
    up unchanged, and a proof skips the levels where that happens. */
module LeanTree {
  import opened Wrappers
  import opened MerkleLayers
  import opened Words

  function Above<N>(h: (N, N) -> N, leaves: seq<N>): (next: seq<N>)
    ensures |next| == (|leaves| + 1) / 2
  {
    Up(h, Itself, leaves)
  }

  function Levels<N>(h: (N, N) -> N, leaves: seq<N>): seq<seq<N>>
    decreases |leaves|
  {
    if |leaves| <= 1 then [leaves] else [leaves] + Levels(h, Above(h, leaves))
  }

  /** `levelsOf`. */
  method LevelsOf<N>(h: (N, N) -> N, leaves: seq<N>) returns (levels: seq<seq<N>>)
    ensures levels == Levels(h, leaves)
  {
    levels := [leaves];
    var cur := leaves;
    while |cur| > 1
      invariant levels != [] && levels[|levels| - 1] == cur
      invariant Levels(h, leaves) == levels[..|levels| - 1] + Levels(h, cur)
      decreases |cur|
    {
      var next := NextLayer(h, Itself, cur);
      assert levels[..|levels| - 1] + [cur] == levels;
      assert Levels(h, leaves) == levels + Levels(h, next);
      levels := levels + [next];
      assert levels[..|levels| - 1] + [next] == levels;
      cur := next;
    }
    assert levels[..|levels| - 1] + [cur] == levels;
  }

  /** The one node of the last level. */
  function Root<N>(h: (N, N) -> N, leaves: seq<N>): N
    requires leaves != []
    decreases |leaves|
  {
    if |leaves| == 1 then leaves[0] else Root(h, Above(h, leaves))
  }

  lemma {:induction false} RootIsLastLevel<N(!new)>(h: (N, N) -> N, leaves: seq<N>)
    requires leaves != []
    ensures var levels := Levels(h, leaves);
            levels != [] && levels[|levels| - 1] == [Root(h, leaves)]
    decreases |leaves|
  {
    if |leaves| > 1 {
      RootIsLastLevel(h, Above(h, leaves));
    }
  }

  // ----- the same root by halving

  /** The largest power of two below n. */
  function Split(n: nat): (k: nat)
    requires n >= 2
    ensures k < n <= 2 * k && 1 <= k
  {
    if n == 2 then 1 else 2 * Split((n + 1) / 2)
  }

  predicate IsPowerOfTwo(k: nat) {
    k == 1 || (k > 1 && k % 2 == 0 && IsPowerOfTwo(k / 2))
  }

  lemma {:induction false} SplitIsPower(n: nat)
    requires n >= 2
    ensures IsPowerOfTwo(Split(n))
  {
    if n > 2 {
      SplitIsPower((n + 1) / 2);
    }
  }

  /** The tree said recursively: a full left part of the largest size that leaves something on the right. */
  function Halved<N>(h: (N, N) -> N, leaves: seq<N>): N
    requires leaves != []
    decreases |leaves|
  {
    if |leaves| == 1 then leaves[0] else
    var k := Split(|leaves|);
    h(Halved(h, leaves[..k]), Halved(h, leaves[k..]))
  }

  lemma AboveSplits<N(!new)>(h: (N, N) -> N, leaves: seq<N>, k: nat)
    requires k % 2 == 0 && k <= |leaves|
    ensures Above(h, leaves)[..k / 2] == Above(h, leaves[..k]) && Above(h, leaves)[k / 2..] == Above(h, leaves[k..])
  {
  }

  lemma RootOfAbove<N(!new)>(h: (N, N) -> N, leaves: seq<N>)
    requires leaves != []
    ensures Above(h, leaves) != [] && Root(h, Above(h, leaves)) == Root(h, leaves)
  {
    if |leaves| == 1 {
      assert Above(h, leaves) == leaves;
    }
  }

  /** The layered build and the recursive one agree. */
  lemma {:induction false} LayersAreHalves<N(!new)>(h: (N, N) -> N, leaves: seq<N>)
    requires leaves != []
    ensures Root(h, leaves) == Halved(h, leaves)
    decreases |leaves|
  {
    var n := |leaves|;
    if n == 2 {
      assert Above(h, leaves) == [h(leaves[0], leaves[1])];
    } else if n > 2 {
      var k := Split(n);
      var up := Above(h, leaves);
      LayersAreHalves(h, up);
      assert Split(|up|) == k / 2;
      AboveSplits(h, leaves, k);
      LayersAreHalves(h, Above(h, leaves[..k]));
      LayersAreHalves(h, Above(h, leaves[k..]));
      RootOfAbove(h, leaves[..k]);
      RootOfAbove(h, leaves[k..]);
      LayersAreHalves(h, leaves[..k]);
      LayersAreHalves(h, leaves[k..]);
    }
  }

  // ----- proofs

  datatype Proof<!N> = Proof(sides: seq<bool>, siblings: seq<N>)

  function HasSibling(i: nat, n: nat): bool {
    i % 2 == 1 || i + 1 < n
  }

  /** The sides and siblings of leaf i, from the bottom, where there is a sibling. */
  function ProofFor<N>(h: (N, N) -> N, leaves: seq<N>, i: nat): Proof<N>
    requires i < |leaves|
    decreases |leaves|
  {
    if |leaves| == 1 then Proof([], []) else
    var above := ProofFor(h, Above(h, leaves), i / 2);
    if HasSibling(i, |leaves|) then Proof([i % 2 == 1] + above.sides, [leaves[Neighbour(i)]] + above.siblings) else above
  }

  /** The index read from the sides, the lowest first. */
  function IndexOf(sides: seq<bool>): nat {
    if sides == [] then 0 else (if sides[0] then 1 else 0) + 2 * IndexOf(sides[1..])
  }

  function After<N>(sides: seq<bool>, siblings: seq<N>, rest: Proof<N>): Proof<N> {
    Proof(sides + rest.sides, siblings + rest.siblings)
  }

  lemma AfterPush<N>(sides: seq<bool>, siblings: seq<N>, x: bool, y: N, above: Proof<N>)
    ensures After(sides, siblings, Proof([x] + above.sides, [y] + above.siblings))
            == After(sides + [x], siblings + [y], above)
  {
    assert sides + ([x] + above.sides) == (sides + [x]) + above.sides;
    assert siblings + ([y] + above.siblings) == (siblings + [y]) + above.siblings;
  }

  /** What 32-bit shifts leave of a proof from place 2^31 on: the sibling of the leaf itself, if it has one. */
  function BottomOnly<N>(leaves: seq<N>, i: nat): Proof<N>
    requires i < |leaves|
  {
    if |leaves| > 1 && HasSibling(i, |leaves|) then Proof([i % 2 == 1], [leaves[Neighbour(i)]]) else Proof([], [])
  }

  /** The sibling `levels[l][right ? i - 1 : i + 1]` of a level, none at a negative place or beyond the end. */
  predicate SiblingAt(i: int, n: nat) {
    0 <= Neighbour(i) < n
  }

  /** `proofOf`: the loop over the levels, and the index from the sides. The shift `i >>= 1` sees 32 bits, so the proof is
      whole exactly below place 2^31. */
  method ProofOf<N>(h: (N, N) -> N, leaves: seq<N>, leafIndex: int) returns (r: Result<(nat, seq<N>)>)
    requires |leaves| < 0x1_0000_0000  // an array's length is a 32-bit number
    ensures r.Err? <==> leafIndex < 0 || leafIndex >= |leaves|
    ensures r.Ok? ==>
              var p := if leafIndex < 0x8000_0000 then ProofFor(h, leaves, leafIndex) else BottomOnly(leaves, leafIndex);
              r.value == (IndexOf(p.sides), p.siblings)
  {
    if leafIndex < 0 || leafIndex >= |leaves| {
      return Err("leaf not in the tree");
    }
    var cur, i := leaves, leafIndex;
    var sides: seq<bool>, siblings: seq<N> := [], [];
    ghost var low := leafIndex < 0x8000_0000;
    while |cur| > 1
      invariant low ==> 0 <= i < |cur| && i < 0x8000_0000
      invariant low ==> ProofFor(h, leaves, leafIndex) == After(sides, siblings, ProofFor(h, cur, i))
      invariant !low ==> (cur == leaves && i == leafIndex && sides == [] && siblings == [])
                         || (-0x8000_0000 <= i < 0 && Proof(sides, siblings) == BottomOnly(leaves, leafIndex))
      invariant |cur| < 0x1_0000_0000
      decreases |cur|
    {
      Int32Is(i);
      if SiblingAt(i, |cur|) {
        if low {
          AfterPush(sides, siblings, i % 2 == 1, cur[Neighbour(i)], ProofFor(h, Above(h, cur), i / 2));
        }
        sides, siblings := sides + [i % 2 == 1], siblings + [cur[Neighbour(i)]];
      }
      var next := NextLayer(h, Itself, cur);
      cur, i := next, Int32(i) / 2;
    }
    assert sides + [] == sides && siblings + [] == siblings;
    return Ok((IndexOf(sides), siblings));
  }

  /** Folding the siblings by the compressed index reaches the root. */
  lemma {:induction false} ProofFoldsToRoot<N(!new)>(h: (N, N) -> N, leaves: seq<N>, i: nat)
    requires i < |leaves|
    ensures var p := ProofFor(h, leaves, i);
            Fold(h, leaves[i], IndexOf(p.sides), p.siblings) == Root(h, leaves)
    decreases |leaves|
  {
    if |leaves| > 1 {
      var above := Above(h, leaves);
      ProofFoldsToRoot(h, above, i / 2);
      var p, q := ProofFor(h, leaves, i), ProofFor(h, above, i / 2);
      if HasSibling(i, |leaves|) {
        var index := IndexOf(p.sides);
        assert p.sides[1..] == q.sides && p.siblings[1..] == q.siblings;
        assert index % 2 == i % 2 && index / 2 == IndexOf(q.sides);
        assert Join(h, index, leaves[i], p.siblings[0]) == above[i / 2];
      } else {
        assert above[i / 2] == leaves[i];
      }
    }
  }

  // ----- how long a proof is

  /** ceil(log2 n). */
  function CeilLog(n: nat): nat
    requires n >= 1
  {
    if n == 1 then 0 else 1 + CeilLog((n + 1) / 2)
  }

  /** The least power of two that is not below n. */
  lemma {:induction false} CeilLogIs(n: nat)
    requires n >= 1
    ensures n <= Two(CeilLog(n)) && (n > 1 ==> Two(CeilLog(n) - 1) < n)
  {
    if n > 1 {
      CeilLogIs((n + 1) / 2);
    }
  }

  /** A proof has at most ceil(log2 n) siblings, one side for each, and there are that many levels above the leaves. */
  lemma {:induction false} ProofIsShort<N(!new)>(h: (N, N) -> N, leaves: seq<N>, i: nat)
    requires i < |leaves|
    ensures var p := ProofFor(h, leaves, i);
            |p.siblings| == |p.sides| <= CeilLog(|leaves|) && |Levels(h, leaves)| == CeilLog(|leaves|) + 1
    decreases |leaves|
  {
    if |leaves| > 1 {
      ProofIsShort(h, Above(h, leaves), i / 2);
    }
  }
}
