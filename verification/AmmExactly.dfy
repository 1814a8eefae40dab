/** What each operation of the replay does (dapp/amm-replay.js), said by inequalities: which reserve a swap pays into and
    which it draws on, and that every amount is the one floor its operation is meant to take. */
module AmmExactly {
  import opened Wrappers
  import opened Isqrt
  import opened AmmReplay
  import opened AmmInvariant

  /** q is the floor of num / den. */
  predicate IsFloor(q: int, num: int, den: int) {
    q * den <= num < (q + 1) * den
  }

  lemma FloorUnique(x: int, y: int, num: int, den: int)
    requires den > 0 && IsFloor(x, num, den) && IsFloor(y, num, den)
    ensures x == y
  {
    if x < y {
      Scale(x + 1, y, den);
    } else if y < x {
      Scale(y + 1, x, den);
    }
  }

  // ----- swaps

  /** What a swap of `amountIn` into rIn takes out of rOut. */
  predicate IsOut(rIn: int, rOut: int, amountIn: int, feeBps: int, out: int) {
    var g := (10000 - feeBps) * amountIn;
    IsFloor(out, rOut * g, rIn * 10000 + g)
  }

  lemma OutIs(rIn: nat, rOut: nat, amountIn: nat, feeBps: nat, out: int)
    requires rIn > 0 && rOut > 0 && feeBps <= 10000 && IsOut(rIn, rOut, amountIn, feeBps, out)
    ensures out == CurveOut(rIn, rOut, amountIn, feeBps) && 0 <= out < rOut
  {
    var g := (10000 - feeBps) * amountIn;
    CurveOutOnCurve(rIn, rOut, amountIn, feeBps);
    assert g >= 0;
    FloorUnique(out, CurveOut(rIn, rOut, amountIn, feeBps), rOut * g, rIn * 10000 + g);
    assert rOut * (rIn * 10000 + g) == rOut * (rIn * 10000) + rOut * g;
    assert rOut * (rIn * 10000) > 0;
    if out >= rOut {
      Scale(rOut, out, rIn * 10000 + g);
    }
  }

  /** A swap is taken when its numbers fit, and pays into its own reserve, drawing the floor from the other; one that gets
      nothing, or less than it asks for, leaves the pool as it is. */
  lemma SwapExactly(cfg: Config, s: Pool, direction: int, amountIn: int, minOut: Option<int>, out: int)
    requires s.live && s.a > 0 && s.b > 0
    requires direction == 0 && amountIn > 0 && s.feeBps <= 1000 ==> IsOut(s.a, s.b, amountIn, s.feeBps, out)
    requires direction == 1 && amountIn > 0 && s.feeBps <= 1000 ==> IsOut(s.b, s.a, amountIn, s.feeBps, out)
    ensures var r := Apply(cfg, s, Swap(direction, amountIn, minOut));
            && (r.Ok? <==>
                  && amountIn > 0 && s.feeBps <= 1000 && (direction == 0 || direction == 1) && s.a < U64 && s.b < U64 && amountIn < U64
                  && (if direction == 0 then s.a else s.b) + amountIn < U64)
            && (r.Ok? ==>
                  r.value == if out < 1 || (minOut.Some? && out < minOut.value) then s
                             else if direction == 0 then s.(a := s.a + amountIn, b := s.b - out)
                             else s.(a := s.a - out, b := s.b + amountIn))
  {
    if direction == 0 && amountIn > 0 && s.feeBps <= 1000 {
      OutIs(s.a, s.b, amountIn, s.feeBps, out);
    } else if direction == 1 && amountIn > 0 && s.feeBps <= 1000 {
      OutIs(s.b, s.a, amountIn, s.feeBps, out);
    }
  }

  /** A hop of a route as declared: it pays dIn into the reserve its direction names, and takes at most the floor's dOut
      from the other. */
  predicate HopTo(s: Pool, hop: Hop, s': Pool) {
    && hop.feeBps == s.feeBps && hop.aPre == s.a && hop.bPre == s.b && hop.magA > 0 && hop.magB > 0
    && var keep := 10000 - s.feeBps;
       || (&& hop.direction == 0 && hop.magB <= s.b
           && hop.magB * (s.a * 10000 + keep * hop.magA) <= s.b * keep * hop.magA
           && s' == s.(a := s.a + hop.magA, b := s.b - hop.magB))
       || (&& hop.direction == 1 && hop.magA <= s.a
           && hop.magA * (s.b * 10000 + keep * hop.magB) <= s.a * keep * hop.magB
           && s' == s.(a := s.a - hop.magA, b := s.b + hop.magB))
  }

  lemma HopExactly(s: Pool, hop: Hop, s': Pool)
    ensures OnHop(s, hop) == Ok(s') <==> HopTo(s, hop, s')
  {
  }

  /** The pools a route passes through. */
  ghost predicate Passes(s: Pool, hops: seq<Hop>, pools: seq<Pool>) {
    && |pools| == |hops| + 1 && pools[0] == s
    && forall i :: 0 <= i < |hops| ==> HopTo(pools[i], hops[i], pools[i + 1])
  }

  lemma {:induction false} HopsExactly(s: Pool, hops: seq<Hop>, s': Pool)
    ensures OnHops(s, hops) == Ok(s') <==> exists pools :: Passes(s, hops, pools) && pools[|hops|] == s'
  {
    if hops == [] {
      assert Passes(s, hops, [s]);
    } else {
      var before, hop := hops[..|hops| - 1], hops[|hops| - 1];
      if OnHops(s, hops) == Ok(s') {
        var mid := OnHops(s, before).value;
        HopsExactly(s, before, mid);
        var pools :| Passes(s, before, pools) && pools[|before|] == mid;
        HopExactly(mid, hop, s');
        assert Passes(s, hops, pools + [s']);
        assert (pools + [s'])[|hops|] == s';
      }
      if pools :| Passes(s, hops, pools) && pools[|hops|] == s' {
        var mid := pools[|before|];
        assert Passes(s, before, pools[..|hops|]) && pools[..|hops|][|before|] == mid;
        HopsExactly(s, before, mid);
        HopExactly(mid, hop, s');
      }
    }
  }

  /** A route is taken exactly when there is one hop at least and each goes where it says from where the last one left. */
  lemma RouteExactly(cfg: Config, s: Pool, hops: seq<Hop>, s': Pool)
    requires s.live
    ensures Apply(cfg, s, Route(hops)) == Ok(s') <==>
              hops != [] && exists pools :: Passes(s, hops, pools) && pools[|hops|] == s'
  {
    HopsExactly(s, hops, s');
  }

  // ----- the fee mint

  predicate IsRoot(r: int, k: int) {
    r >= 0 && r * r <= k < (r + 1) * (r + 1)
  }

  /** m shares are the fee's part of the growth of the root, and one more would be over it. */
  predicate IsMint(shares: int, rise: int, now: int, bps: int, m: int) {
    m * (10000 * now) <= (shares + m) * (bps * rise) && (m + 1) * (10000 * now) > (shares + m + 1) * (bps * rise)
  }

  lemma MintUnique(shares: int, rise: int, now: int, bps: int, x: int, y: int)
    requires 10000 * now > bps * rise && IsMint(shares, rise, now, bps, x) && IsMint(shares, rise, now, bps, y)
    ensures x == y
  {
    var grown, whole := bps * rise, 10000 * now;
    MintIsFloor(shares, grown, whole, x);
    MintIsFloor(shares, grown, whole, y);
    FloorUnique(x, y, shares * grown, whole - grown);
  }

  lemma MintIsFloor(shares: int, grown: int, whole: int, m: int)
    requires m * whole <= (shares + m) * grown && (m + 1) * whole > (shares + m + 1) * grown
    ensures IsFloor(m, shares * grown, whole - grown)
  {
    assert m * (whole - grown) == m * whole - m * grown;
    assert (m + 1) * (whole - grown) == (m + 1) * whole - (m + 1) * grown;
    assert (shares + m) * grown == shares * grown + m * grown;
    assert (shares + (m + 1)) * grown == shares * grown + (m + 1) * grown;
  }

  /** A fee claim mints the fee's part of the growth since the checkpoint, when the fee is on and the root has grown, and
      in any case moves the checkpoint to the product. */
  lemma ClaimExactly(cfg: Config, s: Pool, pre: int, now: int, m: int)
    requires s.live && PoolInv(s) && cfg.feeBps <= 10000 && IsRoot(pre, s.kLast) && IsRoot(now, s.a * s.b)
    requires IsMint(s.shares, now - pre, now, cfg.feeBps, m)
    ensures Apply(cfg, s, FeeClaim) ==
              Ok(s.(kLast := s.a * s.b, shares := if cfg.feeOn && cfg.feeBps > 0 && now > pre then s.shares + m else s.shares))
  {
    RootUnique(pre, s.kLast);
    RootUnique(now, s.a * s.b);
    assert s.shares * s.shares > 0;
    if cfg.feeOn && cfg.feeBps > 0 && now > pre {
      MintIsFeePart(s.shares, s.kLast, s.a * s.b, cfg.feeBps);
      LessGrown(cfg.feeBps, pre, now);
      MintUnique(s.shares, now - pre, now, cfg.feeBps, m, ProtocolShares(s.shares, s.kLast, s.a * s.b, cfg.feeBps));
      MintUnderRoot(s.shares, s.kLast, s.a * s.b, cfg.feeBps);
    }
  }

  lemma LessGrown(bps: nat, pre: nat, now: nat)
    requires bps <= 10000 && 0 < pre < now
    ensures 10000 * now > bps * (now - pre)
  {
    Scale(bps, 10000, now - pre);
  }

  // ----- liquidity

  /** An add works on the pool a fee claim would leave, and is taken when both deltas are positive, the floored share is at
      least one and the declared number, if any, is that. */
  lemma AddExactly(cfg: Config, s: Pool, da: int, db: int, declared: Option<int>, minted: int)
    requires s.live && PoolInv(s) && (cfg.feeOn ==> cfg.feeBps <= 10000)
    requires var c := Apply(cfg, s, FeeClaim).value;
             && minted * c.a <= da * c.shares && minted * c.b <= db * c.shares
             && ((minted + 1) * c.a > da * c.shares || (minted + 1) * c.b > db * c.shares)
    ensures var c, r := Apply(cfg, s, FeeClaim).value, Apply(cfg, s, Add(da, db, declared));
            && (r.Ok? <==> da > 0 && db > 0 && minted > 0 && (declared.Some? ==> declared.value == minted))
            && (r.Ok? ==>
                  r.value == c.(a := s.a + da, b := s.b + db, shares := c.shares + minted, kLast := (s.a + da) * (s.b + db)))
  {
    CrystallizeKeeps(cfg, s);
    var c := Crystallize(cfg, s);
    if da > 0 && db > 0 {
      AddSharesBound(da, db, c.a, c.b, c.shares);
      LeastUnique(minted, AddShares(da, db, c.a, c.b, c.shares), da * c.shares, db * c.shares, c.a, c.b);
    }
  }

  lemma LeastUnique(x: int, y: int, n1: int, n2: int, d1: int, d2: int)
    requires d1 > 0 && d2 > 0 && x * d1 <= n1 && x * d2 <= n2 && y * d1 <= n1 && y * d2 <= n2
    requires (x + 1) * d1 > n1 || (x + 1) * d2 > n2
    requires (y + 1) * d1 > n1 || (y + 1) * d2 > n2
    ensures x == y
  {
    if x < y {
      Scale(x + 1, y, d1);
      Scale(x + 1, y, d2);
    } else if y < x {
      Scale(y + 1, x, d1);
      Scale(y + 1, x, d2);
    }
  }

  /** A removal works on the pool a fee claim would leave, pays both floors, and never burns into the locked minimum. */
  lemma RemoveExactly(cfg: Config, s: Pool, burned: int, outA: Option<int>, outB: Option<int>, oA: int, oB: int)
    requires s.live && PoolInv(s) && (cfg.feeOn ==> cfg.feeBps <= 10000)
    requires var c := Apply(cfg, s, FeeClaim).value;
             IsFloor(oA, s.a * burned, c.shares) && IsFloor(oB, s.b * burned, c.shares)
    ensures var c, r := Apply(cfg, s, FeeClaim).value, Apply(cfg, s, Remove(burned, outA, outB));
            && (r.Ok? <==>
                  && 0 < burned <= c.shares - 1000
                  && (outA.Some? ==> outA.value == oA) && (outB.Some? ==> outB.value == oB))
            && (r.Ok? ==>
                  r.value == c.(a := s.a - oA, b := s.b - oB, shares := c.shares - burned, kLast := (s.a - oA) * (s.b - oB)))
  {
    CrystallizeKeeps(cfg, s);
    var c := Crystallize(cfg, s);
    if 0 < burned <= c.shares - 1000 {
      PayoutBound(c.a, burned, c.shares);
      PayoutBound(c.b, burned, c.shares);
      FloorUnique(oA, Payout(c.a, burned, c.shares), c.a * burned, c.shares);
      FloorUnique(oB, Payout(c.b, burned, c.shares), c.b * burned, c.shares);
    }
  }

  /** The first operation, and only that, makes the pool: shares are the floor root of the product, a thousand of them
      locked. */
  lemma InitExactly(cfg: Config, s: Pool, da: int, db: int, declared: Option<int>, feeBps: nat, root: int)
    requires da > 0 && db > 0 ==> IsRoot(root, da * db)
    ensures var r := Apply(cfg, s, Init(da, db, declared, feeBps));
            && (r.Ok? <==> !s.live && da > 0 && db > 0 && root > 1000 && (declared.Some? ==> declared.value == root - 1000))
            && (r.Ok? ==> r.value == Pool(true, da, db, root, da * db, feeBps))
  {
    if da > 0 && db > 0 {
      assert da * db > 0;
      RootUnique(root, da * db);
    }
  }

  /** Nothing but a first operation is taken before the pool is there, and a batch or an unknown operation never. */
  lemma RefusedExactly(cfg: Config, s: Pool, op: Op)
    requires op.Batch? || op.Unknown? || (!s.live && !op.Init?)
    ensures Apply(cfg, s, op).Err?
  {
  }
}
