/** Where the pool's promises end: for each protocol fee beyond the thresholds of AmmInvariant, a list of operations the
    replay accepts and that breaks the promise. */
module AmmFees {
  import opened Wrappers
  import opened Isqrt
  import opened AmmReplay
  import opened AmmInvariant

  /** A pool of (a, b), two hops that leave it at (a', b') for one unit out each, and a fee claim. */
  function Fattened(a: int, b: int, a': int, b': int): seq<Op> {
    [Init(a, b, None, 0),
     Route([Hop(0, a, b, 0, a' + 1 - a, 1), Hop(0, a' + 1, b - 1, 1, 1, b' + 1 - b)]),
     FeeClaim]
  }

  /** What the two hops need of the curve's floor, at a pool fee of zero. */
  predicate HopsFit(a: nat, b: nat, a': nat, b': nat) {
    && a > 0 && b > 1 && a' >= a && b' >= b && Root(a * b) > MINIMUM_LIQUIDITY
    && a' + 1 <= b * (a' + 1 - a) && b' <= (a' + 1) * (b' + 1 - b)
  }

  lemma HopsGo(s: Pool, a': nat, b': nat)
    requires s.a >= 0 && s.b >= 0 && s.feeBps == 0 && HopsFit(s.a, s.b, a', b')
    ensures OnHop(s, Hop(0, s.a, s.b, 0, a' + 1 - s.a, 1)) == Ok(s.(a := a' + 1, b := s.b - 1))
    ensures OnHop(s.(a := a' + 1, b := s.b - 1), Hop(0, a' + 1, s.b - 1, 1, 1, b' + 1 - s.b)) == Ok(s.(a := a', b := b'))
  {
  }

  lemma TwoHops(s: Pool, first: Hop, second: Hop)
    requires OnHop(s, first).Ok?
    ensures OnHops(s, [first, second]) == OnHop(OnHop(s, first).value, second)
  {
    assert [first, second][..1] == [first] && [first][..0] == [];
    assert OnHops(s, [first]) == OnHop(s, first);
  }

  /** The replay accepts the list: the first two leave the checkpoint behind, the third catches it up. */
  lemma FattenedIsAccepted(cfg: Config, a: nat, b: nat, a': nat, b': nat)
    requires HopsFit(a, b, a', b')
    ensures var ops, s := Fattened(a, b, a', b'), Pool(true, a', b', Root(a * b), a * b, 0);
            && Fold(cfg, ops[..1]) == Ok(Pool(true, a, b, Root(a * b), a * b, 0))
            && Fold(cfg, ops) == Ok(Crystallize(cfg, s))
  {
    var ops, s0 := Fattened(a, b, a', b'), Pool(true, a, b, Root(a * b), a * b, 0);
    HopsGo(s0, a', b');
    TwoHops(s0, ops[1].hops[0], ops[1].hops[1]);
    Threes(cfg, ops[0], ops[1], ops[2]);
    assert a * b > 0 by { assert Root(a * b) > 0; }
    assert ops[..1] == [ops[0]];
    assert ops == [ops[0], ops[1], ops[2]];
  }

  lemma Threes(cfg: Config, x: Op, y: Op, z: Op)
    ensures Fold(cfg, [x]) == Apply(cfg, EMPTY, x)
    ensures Fold(cfg, [x]).Ok? ==> Fold(cfg, [x, y]) == Apply(cfg, Fold(cfg, [x]).value, y)
    ensures Fold(cfg, [x, y]).Ok? ==> Fold(cfg, [x, y, z]) == Apply(cfg, Fold(cfg, [x, y]).value, z)
  {
    assert [x][..0] == [] && [x, y][..1] == [x] && [x, y, z][..2] == [x, y];
  }

  /** With more than half as the fee, the pool of (bps, bps + 2) grown to (bps + 2, bps + 2). */
  lemma ValueFalls(bps: nat)
    requires bps > 5000
    ensures var ops := Fattened(bps, bps + 2, bps + 2, bps + 2);
            var cfg := Config(true, bps);
            && Fold(cfg, ops).Ok? && Fold(cfg, ops[..1]).Ok?
            && var s, s' := Fold(cfg, ops[..1]).value, Fold(cfg, ops).value;
               && s.kLast > 0 && s.shares > 0 && s'.kLast > 0 && s'.shares > 0
               && !ValueKept(s.kLast, s.shares, s'.kLast, s'.shares)
  {
    BetweenSquares(bps);
    FattenedIsAccepted(Config(true, bps), bps, bps + 2, bps + 2, bps + 2);
    HighFeeTakesTooMuch(bps);
  }

  lemma EvenHopsFit(n: nat)
    requires n > 10000
    ensures HopsFit(n, n, n + 10000, n + 10000)
  {
    ExactRoot(n);
  }

  /** With more than the whole growth as the fee, the pool of (bps, bps) grown by 10000 on both sides. */
  lemma SharesPassRoot(bps: nat)
    requires bps > 10000
    ensures var ops := Fattened(bps, bps, bps + 10000, bps + 10000);
            Fold(Config(true, bps), ops).Ok? && !PoolInv(Fold(Config(true, bps), ops).value)
  {
    EvenHopsFit(bps);
    FattenedIsAccepted(Config(true, bps), bps, bps, bps + 10000, bps + 10000);
    ExactRoot(bps);
    OverWholeFee(bps);
  }

  /** What ShareValueNeverFalls says of one replay. */
  ghost predicate ValueNeverFalls(cfg: Config, ops: seq<Op>) {
    Fold(cfg, ops).Ok? ==>
      forall k {:trigger ops[..k]} :: 0 < k <= |ops| && Fold(cfg, ops[..k]).Ok? ==>
        var s, s' := Fold(cfg, ops[..k]).value, Fold(cfg, ops).value;
        s.kLast >= 0 && s.shares >= 0 && s'.kLast >= 0 && s'.shares >= 0 && ValueKept(s.kLast, s.shares, s'.kLast, s'.shares)
  }

  /** Every accepted replay keeps the value of a share exactly when the protocol's fee is at most one half. */
  lemma ShareValueExactly(bps: nat)
    ensures (forall ops :: ValueNeverFalls(Config(true, bps), ops)) <==> bps <= 5000
  {
    var cfg := Config(true, bps);
    if bps <= 5000 {
      forall ops ensures ValueNeverFalls(cfg, ops) {
        if Fold(cfg, ops).Ok? {
          forall k | 0 < k <= |ops| && Fold(cfg, ops[..k]).Ok?
            ensures var s, s' := Fold(cfg, ops[..k]).value, Fold(cfg, ops).value;
                    && s.kLast >= 0 && s.shares >= 0 && s'.kLast >= 0 && s'.shares >= 0
                    && ValueKept(s.kLast, s.shares, s'.kLast, s'.shares)
          {
            ShareValueNeverFalls(cfg, ops, k);
          }
        }
      }
    } else {
      ValueFalls(bps);
      assert !ValueNeverFalls(cfg, Fattened(bps, bps + 2, bps + 2, bps + 2));
    }
  }

  /** Every accepted replay keeps the pool's invariant exactly when the protocol's fee is at most the whole growth. */
  lemma PoolInvariantExactly(bps: nat)
    ensures (forall ops :: Fold(Config(true, bps), ops).Ok? ==> PoolInv(Fold(Config(true, bps), ops).value)) <==> bps <= 10000
  {
    var cfg := Config(true, bps);
    if bps <= 10000 {
      forall ops | Fold(cfg, ops).Ok? ensures PoolInv(Fold(cfg, ops).value) {
        ReplayKeepsPool(cfg, ops);
      }
    } else {
      SharesPassRoot(bps);
    }
  }
}
