/** One layer of a Merkle tree from the one below, and folding a leaf up by its siblings. The three trees of the
    repository differ only in what becomes of a last node without a sibling. */
module MerkleLayers {
  import opened Words

  /** What a lone last node becomes: hashed with a given node, itself, or hashed with itself. */
  datatype Lone<N> = With(other: N) | Itself | Doubled

  function Alone<N>(h: (N, N) -> N, lone: Lone<N>, x: N): N {
    match lone
    case With(other) => h(x, other)
    case Itself => x
    case Doubled => h(x, x)
  }

  /** Node j of the layer above. */
  function Parent<N>(h: (N, N) -> N, lone: Lone<N>, cur: seq<N>, j: nat): N
    requires 2 * j < |cur|
  {
    if 2 * j + 1 < |cur| then h(cur[2 * j], cur[2 * j + 1]) else Alone(h, lone, cur[2 * j])
  }

  /** The layer above: neighbours hashed in pairs. */
  function Up<N>(h: (N, N) -> N, lone: Lone<N>, cur: seq<N>): (next: seq<N>)
    ensures |next| == (|cur| + 1) / 2
    ensures forall j :: 0 <= j < |next| ==> next[j] == Parent(h, lone, cur, j)
  {
    seq((|cur| + 1) / 2, j requires 0 <= j < (|cur| + 1) / 2 => Parent(h, lone, cur, j))
  }

  /** The loop that pushes one node for every two. */
  method NextLayer<N>(h: (N, N) -> N, lone: Lone<N>, cur: seq<N>) returns (next: seq<N>)
    ensures next == Up(h, lone, cur)
  {
    next := [];
    var i := 0;
    while i < |cur|
      invariant 0 <= i <= |cur| + 1 && i % 2 == 0 && |next| == i / 2
      invariant forall j :: 0 <= j < |next| ==> next[j] == Parent(h, lone, cur, j)
    {
      next := next + [if i + 1 < |cur| then h(cur[i], cur[i + 1]) else Alone(h, lone, cur[i])];
      i := i + 2;
    }
  }

  /** A node and its sibling hashed in the order of their places. */
  function Join<N>(h: (N, N) -> N, i: nat, cur: N, sibling: N): N {
    if i % 2 == 1 then h(sibling, cur) else h(cur, sibling)
  }

  /** A leaf folded up by its siblings, the sides taken from the bits of its place. */
  function Fold<N>(h: (N, N) -> N, cur: N, i: nat, siblings: seq<N>): N
    decreases |siblings|
  {
    if siblings == [] then cur else Fold(h, Join(h, i, cur, siblings[0]), i / 2, siblings[1..])
  }

  method FoldLoop<N>(h: (N, N) -> N, leaf: N, index: nat, siblings: seq<N>) returns (cur: N)
    ensures cur == Fold(h, leaf, index, siblings)
  {
    cur := leaf;
    var i := index;
    for d := 0 to |siblings|
      invariant Fold(h, leaf, index, siblings) == Fold(h, cur, i, siblings[d..])
    {
      assert siblings[d..][1..] == siblings[d + 1..];
      cur := Join(h, i, cur, siblings[d]);
      i := i / 2;
    }
    assert siblings[|siblings|..] == [];
  }
}

/** The pool's sparse tree (dapp/btc-pool-zk.js tree, path, rootFromPath; dapp/btc-pool-client.js pathsAt): depth 32,
    absent nodes stand for subtrees of zero leaves. */
module SparseTree {
  import opened Wrappers
  import opened MerkleLayers
  import opened Words

  const DEPTH := 32

  /** The hash and the zero leaf. */
  datatype Hash<!N> = Hash(h: (N, N) -> N, zero: N)

  /** The root of a full subtree of zero leaves. */
  function Zero<N>(t: Hash<N>, d: nat): N {
    if d == 0 then t.zero else t.h(Zero(t, d - 1), Zero(t, d - 1))
  }

  /** The full tree: leaves padded with zeros for ever, node j of level d. */
  function Node<N>(t: Hash<N>, leaves: seq<N>, d: nat, j: nat): N {
    if d == 0 then (if j < |leaves| then leaves[j] else t.zero)
    else t.h(Node(t, leaves, d - 1, 2 * j), Node(t, leaves, d - 1, 2 * j + 1))
  }

  /** The stored layer d. */
  function Layer<N>(t: Hash<N>, leaves: seq<N>, d: nat): seq<N> {
    if d == 0 then leaves else Up(t.h, With(Zero(t, d - 1)), Layer(t, leaves, d - 1))
  }

  function At<N>(t: Hash<N>, layer: seq<N>, d: nat, j: nat): N {
    if j < |layer| then layer[j] else Zero(t, d)
  }

  /** A stored layer, with zeros beyond its end, is that level of the full tree. */
  lemma {:induction false} LayerIsLevel<N(!new)>(t: Hash<N>, leaves: seq<N>, d: nat, j: nat)
    ensures At(t, Layer(t, leaves, d), d, j) == Node(t, leaves, d, j)
  {
    if d > 0 {
      LayerIsLevel(t, leaves, d - 1, 2 * j);
      LayerIsLevel(t, leaves, d - 1, 2 * j + 1);
    }
  }

  ghost predicate AreLayers<N(!new)>(t: Hash<N>, leaves: seq<N>, layers: seq<seq<N>>) {
    forall d :: 0 <= d < |layers| ==> layers[d] == Layer(t, leaves, d)
  }

  lemma OneMoreLayer<N(!new)>(t: Hash<N>, leaves: seq<N>, layers: seq<seq<N>>, d: nat)
    requires AreLayers(t, leaves, layers) && |layers| == d + 1
    ensures AreLayers(t, leaves, layers + [Up(t.h, With(Zero(t, d)), layers[d])])
  {
    var more := layers + [Up(t.h, With(Zero(t, d)), layers[d])];
    forall e | 0 <= e < |more| ensures more[e] == Layer(t, leaves, e) {
      if e == d + 1 {
        assert Layer(t, leaves, d + 1) == Up(t.h, With(Zero(t, d)), Layer(t, leaves, d));
      }
    }
  }

  /** `tree`: the layers, bottom up. */
  method Layers<N(!new)>(t: Hash<N>, leaves: seq<N>) returns (layers: seq<seq<N>>)
    ensures |layers| == DEPTH + 1 && AreLayers(t, leaves, layers)
  {
    layers := [leaves];
    var zero := t.zero;
    var d := 0;
    while d < DEPTH
      invariant 0 <= d <= DEPTH && |layers| == d + 1 && zero == Zero(t, d) && AreLayers(t, leaves, layers)
    {
      OneMoreLayer(t, leaves, layers, d);
      var next := NextLayer(t.h, With(zero), layers[d]);
      layers := layers + [next];
      zero := t.h(zero, zero);
      d := d + 1;
    }
  }

  method Root<N(!new)>(t: Hash<N>, leaves: seq<N>) returns (root: N)
    ensures root == Node(t, leaves, DEPTH, 0)
  {
    var layers := Layers(t, leaves);
    LayerIsLevel(t, leaves, DEPTH, 0);
    root := At(t, layers[DEPTH], DEPTH, 0);
  }

  /** The place of a leaf's ancestor at level d. */
  function Ancestor(i: nat, d: nat): nat
    decreases d
  {
    if d == 0 then i else Ancestor(i / 2, d - 1)
  }

  /** The path of leaf i: at every level the neighbour of its ancestor in the full tree. */
  ghost predicate IsPath<N(!new)>(t: Hash<N>, leaves: seq<N>, i: nat, path: seq<N>) {
    |path| == DEPTH && forall d :: 0 <= d < DEPTH ==> path[d] == Node(t, leaves, d, Neighbour(Ancestor(i, d)))
  }

  lemma {:induction false} AncestorNext(i: nat, d: nat)
    ensures Ancestor(i, d + 1) == Ancestor(i, d) / 2
  {
    if d > 0 {
      AncestorNext(i / 2, d - 1);
    }
  }

  /** What indexing a stored layer by `i ^ 1` gives: the zero beyond its end, and nothing at all below its start, where
      32 bits have made the place negative. */
  function Beside<N>(t: Hash<N>, layer: seq<N>, d: nat, i: int): Option<N> {
    var j := Neighbour(Int32(i));
    if j < 0 then None else Some(At(t, layer, d, j))
  }

  /** `path`: the siblings, an absent one read as that level's zero. From place 2^31 on, `^` and `>>` see a negative number
      and every sibling is missing. */
  method Path<N(!new)>(t: Hash<N>, leaves: seq<N>, index: int) returns (path: Result<seq<Option<N>>>)
    requires |leaves| < 0x1_0000_0000  // an array's length is a 32-bit number
    ensures path.Err? <==> index < 0 || index >= |leaves|
    ensures path.Ok? ==> |path.value| == DEPTH
    ensures path.Ok? && index < 0x8000_0000 ==>
              AllThere(path.value) && IsPath(t, leaves, index, There(path.value))
    ensures path.Ok? && index >= 0x8000_0000 ==> forall d :: 0 <= d < DEPTH ==> path.value[d] == None
  {
    if index < 0 || index >= |leaves| {
      return Err("index out of range");
    }
    var layers := Layers(t, leaves);
    var out: seq<Option<N>> := [];
    var i := index;
    Int32Is(index);
    for d := 0 to DEPTH
      invariant |out| == d
      invariant index < 0x8000_0000 ==> i == Ancestor(index, d) < 0x8000_0000 && PathSoFar(t, leaves, index, out)
      invariant index >= 0x8000_0000 ==> Int32(i) < 0 && forall e :: 0 <= e < d ==> out[e] == None
    {
      Int32Is(i);
      Int32Is(Int32(i) / 2);
      if index < 0x8000_0000 {
        LayerIsLevel(t, leaves, d, Neighbour(i));
        AncestorNext(index, d);
      }
      out := out + [Beside(t, layers[d], d, i)];
      i := Int32(i) / 2;
    }
    return Ok(out);
  }

  predicate AllThere<N>(path: seq<Option<N>>) {
    forall d :: 0 <= d < |path| ==> path[d].Some?
  }

  function There<N>(path: seq<Option<N>>): (p: seq<N>)
    requires AllThere(path)
    ensures |p| == |path| && forall d :: 0 <= d < |p| ==> path[d] == Some(p[d])
  {
    seq(|path|, d requires 0 <= d < |path| => path[d].value)
  }

  ghost predicate PathSoFar<N(!new)>(t: Hash<N>, leaves: seq<N>, index: nat, out: seq<Option<N>>) {
    forall e :: 0 <= e < |out| ==> out[e] == Some(Node(t, leaves, e, Neighbour(Ancestor(index, e))))
  }

  /** Folding from level d on by the true neighbours climbs to the top. */
  lemma {:induction false} ClimbsFrom<N(!new)>(t: Hash<N>, leaves: seq<N>, i: nat, path: seq<N>, d: nat)
    requires IsPath(t, leaves, i, path) && d <= DEPTH
    ensures Fold(t.h, Node(t, leaves, d, Ancestor(i, d)), Ancestor(i, d), path[d..]) == Node(t, leaves, DEPTH, Ancestor(i, DEPTH))
    decreases DEPTH - d
  {
    if d < DEPTH {
      ClimbsFrom(t, leaves, i, path, d + 1);
      AncestorNext(i, d);
      assert path[d..][0] == path[d] && path[d..][1..] == path[d + 1..];
    }
  }

  lemma {:induction false} AncestorOfSmall(i: nat, d: nat)
    requires i < Two(d)
    ensures Ancestor(i, d) == 0
    decreases d
  {
    if d > 0 {
      AncestorOfSmall(i / 2, d - 1);
    }
  }

  /** Every path folds back to the root, for every leaf of every tree. */
  lemma PathFoldsToRoot<N(!new)>(t: Hash<N>, leaves: seq<N>, i: nat, path: seq<N>)
    requires i < |leaves| && i < 0x1_0000_0000 && IsPath(t, leaves, i, path)
    ensures Fold(t.h, leaves[i], i, path) == Node(t, leaves, DEPTH, 0)
  {
    ClimbsFrom(t, leaves, i, path, 0);
    assert path[0..] == path;
    Two32();
    AncestorOfSmall(i, 32);
  }

  /** With a hash that never collides, a path proves one leaf only. */
  lemma {:induction false} FoldIsInjective<N(!new)>(t: Hash<N>, x: N, y: N, i: nat, p: seq<N>, q: seq<N>)
    requires forall a, b, c, d :: t.h(a, b) == t.h(c, d) ==> a == c && b == d
    requires |p| == |q| && Fold(t.h, x, i, p) == Fold(t.h, y, i, q)
    ensures x == y && p == q
    decreases |p|
  {
    if p != [] {
      FoldIsInjective(t, Join(t.h, i, x, p[0]), Join(t.h, i, y, q[0]), i / 2, p[1..], q[1..]);
      assert p == [p[0]] + p[1..] && q == [q[0]] + q[1..];
    }
  }

  // ----- the client's copy

  datatype Entry<!N> = Entry(leaf: N, height: int, leafIndex: int)

  function LeavesOf<N>(feed: seq<Entry<N>>, n: nat): (leaves: seq<N>)
    requires n <= |feed|
    ensures |leaves| == n && forall i :: 0 <= i < n ==> leaves[i] == feed[i].leaf
  {
    seq(n, i requires 0 <= i < n => feed[i].leaf)
  }

  /** How many entries from the front are at or below the height. */
  function Through<N>(feed: seq<Entry<N>>, h: int, n: nat): (m: nat)
    requires n <= |feed|
    ensures n <= m <= |feed|
    ensures forall i :: n <= i < m ==> feed[i].height <= h
    ensures m < |feed| ==> feed[m].height > h
    decreases |feed| - n
  {
    if n < |feed| && feed[n].height <= h then Through(feed, h, n + 1) else n
  }

  /** In a feed ordered by height, those are all the entries at or below it. */
  lemma ThroughIsAll<N(!new)>(feed: seq<Entry<N>>, h: int)
    requires forall i, j :: 0 <= i < j < |feed| ==> feed[i].height <= feed[j].height
    ensures forall i :: 0 <= i < |feed| ==> (feed[i].height <= h <==> i < Through(feed, h, 0))
  {
  }

  /** One path of the client's copy: `node` at `floor(index / 2^d) ^ 1` for each level. A negative place has no node, and
      making a word of it fails. */
  method PathIn<N(!new)>(t: Hash<N>, leaves: seq<N>, layers: seq<seq<N>>, index: nat) returns (path: Result<seq<N>>)
    requires index < |leaves| < 0x1_0000_0000 && |layers| == DEPTH + 1 && AreLayers(t, leaves, layers)
    ensures path.Ok? <==> index < 0x8000_0000
    ensures path.Ok? ==> IsPath(t, leaves, index, path.value)
  {
    var out: seq<N> := [];
    var i := index;
    for d := 0 to DEPTH
      invariant |out| == d && i == Ancestor(index, d) && 0 <= i <= index && (d > 0 ==> index < 0x8000_0000)
      invariant forall e :: 0 <= e < d ==> out[e] == Node(t, leaves, e, Neighbour(Ancestor(index, e)))
    {
      Int32Is(i);
      var sibling := Beside(t, layers[d], d, i);
      if sibling.None? {
        return Err("no node at a negative place");
      }
      LayerIsLevel(t, leaves, d, Neighbour(Int32(i)));
      AncestorNext(index, d);
      out := out + [sibling.value];
      i := i / 2;
    }
    return Ok(out);
  }

  /** An index the client's copy has no path for: newer than the anchor, or not below 2^31. */
  predicate Unplaced(n: nat, index: nat) {
    index >= n || index >= 0x8000_0000
  }

  /** `pathsAt`: the root and the paths of the leaves through block h, refused exactly for a feed with a gap or an index
      that has no path. */
  method PathsAt<N(!new)>(t: Hash<N>, feed: seq<Entry<N>>, h: int, indexes: seq<nat>) returns (r: Result<(N, seq<seq<N>>)>)
    requires |feed| < 0x1_0000_0000  // an array's length is a 32-bit number
    ensures var n := Through(feed, h, 0);
            && (r.Err? <==> (exists i :: 0 <= i < n && feed[i].leafIndex != i) || (exists k :: 0 <= k < |indexes| && Unplaced(n, indexes[k])))
            && (r.Ok? ==>
                  && r.value.0 == Node(t, LeavesOf(feed, n), DEPTH, 0)
                  && |r.value.1| == |indexes|
                  && forall k :: 0 <= k < |indexes| ==> IsPath(t, LeavesOf(feed, n), indexes[k], r.value.1[k]))
  {
    var n := 0;
    while n < |feed| && feed[n].height <= h
      invariant 0 <= n <= |feed| && Through(feed, h, 0) == Through(feed, h, n)
      invariant forall i :: 0 <= i < n ==> feed[i].leafIndex == i
    {
      if feed[n].leafIndex != n {
        return Err("the note feed has a gap");
      }
      n := n + 1;
    }
    if k :| 0 <= k < |indexes| && indexes[k] >= n {
      assert Unplaced(n, indexes[k]);
      return Err("a note is newer than the anchor");
    }
    var leaves := LeavesOf(feed, n);
    var layers := Layers(t, leaves);
    var paths: seq<seq<N>> := [];
    for k := 0 to |indexes|
      invariant |paths| == k
      invariant forall m :: 0 <= m < k ==> !Unplaced(n, indexes[m]) && IsPath(t, leaves, indexes[m], paths[m])
    {
      var path := PathIn(t, leaves, layers, indexes[k]);
      if path.Err? {
        assert Unplaced(n, indexes[k]);
        return Err(path.error);
      }
      paths := paths + [path.value];
    }
    var root := Root(t, leaves);
    return Ok((root, paths));
  }
}
