/** What every accepted replay keeps (dapp/amm-replay.js): reserves stay positive, shares stay under the root
    of the product, and the value of a share never falls, through every rounding of every operation. */
module AmmInvariant {
  import opened Wrappers
  import opened Isqrt
  import opened AmmReplay

  ghost predicate PoolInv(s: Pool) {
    s.live ==>
      && s.a > 0 && s.b > 0 && s.shares >= MINIMUM_LIQUIDITY
      && s.kLast <= s.a * s.b
      && s.shares * s.shares <= s.kLast
  }

  /** The checkpoint's product per squared share does not go down: k/S² ≤ k'/S'². */
  ghost predicate ValueKept(k: nat, shares: nat, k': nat, shares': nat) {
    k * (shares' * shares') <= k' * (shares * shares)
  }

  // ----- products and quotients

  lemma Cancel(x: int, y: int, z: int)
    requires z > 0 && x * z <= y * z
    ensures x <= y
  {
    assert (y - x) * z == y * z - x * z;
  }

  lemma Scale(x: int, y: int, z: int)
    requires z >= 0 && x <= y
    ensures x * z <= y * z
  {
    assert y * z == x * z + (y - x) * z;
  }

  lemma Products(x: nat, y: nat, u: nat, v: nat)
    requires x <= y && u <= v
    ensures x * u <= y * v
  {
    Scale(x, y, u);
    Scale(u, v, y);
  }

  lemma FloorBound(num: nat, den: nat)
    requires den > 0
    ensures num / den * den <= num < (num / den + 1) * den
  {
  }

  lemma {:induction false} SquareOf(x: int, y: int)
    ensures (x * y) * (x * y) == (x * x) * (y * y)
  {
    assert (x * y) * (x * y) == x * (y * (x * y));
    assert y * (x * y) == x * (y * y);
    assert x * (x * (y * y)) == (x * x) * (y * y);
  }

  lemma ValueTransitive(k1: nat, s1: nat, k2: nat, s2: nat, k3: nat, s3: nat)
    requires ValueKept(k1, s1, k2, s2) && ValueKept(k2, s2, k3, s3) && s2 > 0
    ensures ValueKept(k1, s1, k3, s3)
  {
    var q1, q2, q3 := s1 * s1, s2 * s2, s3 * s3;
    Scale(k1 * q2, k2 * q1, q3);
    Scale(k2 * q3, k3 * q2, q1);
    assert k1 * q2 * q3 == k1 * q3 * q2;
    assert k2 * q1 * q3 == k2 * q3 * q1;
    assert k3 * q2 * q1 == k3 * q1 * q2;
    Cancel(k1 * q3, k3 * q1, q2);
  }

  /** Shares under the root stay under it when the value is kept. */
  lemma ValueBoundsShares(k: nat, shares: nat, k': nat, shares': nat)
    requires k > 0 && shares * shares <= k && ValueKept(k, shares, k', shares')
    ensures shares' * shares' <= k'
  {
    Scale(shares * shares, k, k');
    assert k' * (shares * shares) == (shares * shares) * k';
    assert (shares' * shares') * k == k * (shares' * shares');
    assert k * k' == k' * k;
    Cancel(shares' * shares', k', k);
  }

  // ----- swaps

  /** On the curve's side of its floor, no trade empties a reserve or lowers the product; `g` is the input
      after the fee, in ten-thousandths. */
  lemma TradeKeepsProduct(rIn: nat, rOut: nat, dIn: nat, dOut: nat, g: int)
    requires rIn > 0 && dIn > 0 && dOut > 0 && dOut <= rOut && g <= 10000 * dIn
    requires dOut * (rIn * 10000 + g) <= rOut * g
    ensures dOut < rOut
    ensures (rIn + dIn) * (rOut - dOut) >= rIn * rOut
  {
    var left := rOut - dOut;
    assert rOut * g == left * g + dOut * g;
    assert dOut * (rIn * 10000 + g) == (dOut * rIn) * 10000 + dOut * g;
    assert dOut * rIn > 0;
    Scale(g, 10000 * dIn, left);
    assert left * g == g * left;
    assert (10000 * dIn) * left == (dIn * left) * 10000;
    assert dOut * rIn <= dIn * left;
    assert left == 0 ==> dIn * left == 0;
    assert (rIn + dIn) * left == rIn * rOut - rIn * dOut + dIn * left;
  }

  /** The curve's output is the most that stays on its side of the floor. */
  lemma CurveOutOnCurve(rIn: nat, rOut: nat, amountIn: nat, feeBps: nat)
    requires rIn > 0 && feeBps <= 10000
    ensures var g, out := (10000 - feeBps) * amountIn, CurveOut(rIn, rOut, amountIn, feeBps);
            out * (rIn * 10000 + g) <= rOut * g < (out + 1) * (rIn * 10000 + g) && g <= 10000 * amountIn
  {
    var g := (10000 - feeBps) * amountIn;
    Scale(10000 - feeBps, 10000, amountIn);
    assert g >= 0;
    assert rOut * g >= 0;
    FloorBound(rOut * g, rIn * 10000 + g);
  }

  lemma SwapKeepsProduct(s: Pool, direction: int, amountIn: int, minOut: Option<int>)
    requires s.live && PoolInv(s) && OnSwap(s, direction, amountIn, minOut).Ok?
    ensures var s' := OnSwap(s, direction, amountIn, minOut).value;
            s'.a > 0 && s'.b > 0 && s'.a * s'.b >= s.a * s.b && s' == s.(a := s'.a, b := s'.b)
  {
    var s' := OnSwap(s, direction, amountIn, minOut).value;
    var g := (10000 - s.feeBps) * amountIn;
    if s' != s {
      if direction == 0 {
        CurveOutOnCurve(s.a, s.b, amountIn, s.feeBps);
        TradeKeepsProduct(s.a, s.b, amountIn, s.b - s'.b, g);
      } else {
        CurveOutOnCurve(s.b, s.a, amountIn, s.feeBps);
        TradeKeepsProduct(s.b, s.a, amountIn, s.a - s'.a, g);
      }
    }
  }

  lemma HopKeepsProduct(s: Pool, hop: Hop)
    requires s.a > 0 && s.b > 0 && OnHop(s, hop).Ok?
    ensures var s' := OnHop(s, hop).value;
            s'.a > 0 && s'.b > 0 && s'.a * s'.b >= s.a * s.b && s' == s.(a := s'.a, b := s'.b)
  {
    var forward := hop.direction == 0;
    var rIn, rOut := if forward then s.a else s.b, if forward then s.b else s.a;
    var dIn, dOut := if forward then hop.magA else hop.magB, if forward then hop.magB else hop.magA;
    var g := (10000 - s.feeBps) * dIn;
    Scale(10000 - s.feeBps, 10000, dIn);
    assert rOut * (10000 - s.feeBps) * dIn == rOut * g;
    TradeKeepsProduct(rIn, rOut, dIn, dOut, g);
  }

  lemma {:induction false} HopsKeepProduct(s: Pool, hops: seq<Hop>)
    requires s.a > 0 && s.b > 0 && OnHops(s, hops).Ok?
    ensures var s' := OnHops(s, hops).value;
            s'.a > 0 && s'.b > 0 && s'.a * s'.b >= s.a * s.b && s' == s.(a := s'.a, b := s'.b)
  {
    if hops != [] {
      HopsKeepProduct(s, hops[..|hops| - 1]);
      HopKeepsProduct(OnHops(s, hops[..|hops| - 1]).value, hops[|hops| - 1]);
    }
  }

  /** No swap and no route, whatever the pool's fee, lowers the product of the reserves. */
  lemma SwapsNeverLowerK(cfg: Config, s: Pool, op: Op)
    requires s.live && PoolInv(s) && (op.Swap? || op.Route?) && Apply(cfg, s, op).Ok?
    ensures var s' := Apply(cfg, s, op).value;
            && s'.a * s'.b >= s.a * s.b && PoolInv(s')
            && s'.shares == s.shares && s'.kLast == s.kLast && s'.live
  {
    if op.Swap? {
      SwapKeepsProduct(s, op.direction, op.amountIn, op.minOut);
    } else {
      HopsKeepProduct(s, op.hops);
    }
  }

  // ----- the fee mint

  /** The mint's denominator D, in the two forms the bounds use. */
  lemma Denominator(rootPre: nat, rootNow: nat, bps: nat)
    requires rootPre < rootNow && bps <= 10000
    ensures var den, grown := (10000 - bps) * rootNow + bps * rootPre, bps * (rootNow - rootPre);
            && den == 10000 * rootNow - grown
            && den == 10000 * rootPre + (10000 - bps) * (rootNow - rootPre)
            && den >= 10000 * rootPre
            && 0 <= grown <= 10000 * (rootNow - rootPre)
  {
    var up := rootNow - rootPre;
    assert rootNow == rootPre + up;
    assert bps * (rootPre + up) == bps * rootPre + bps * up;
    Scale(bps, 10000, up);
  }

  lemma MostUp(m: nat, den: nat, shares: nat, grown: nat, rootPre: nat, up: nat)
    requires m * den <= shares * grown && den >= 10000 * rootPre && shares <= rootPre && grown <= 10000 * up && rootPre > 0
    ensures m <= up
  {
    Products(shares, rootPre, grown, 10000 * up);
    Scale(10000 * rootPre, den, m);
    assert m * den == den * m;
    assert rootPre * (10000 * up) == up * (10000 * rootPre);
    assert (10000 * rootPre) * m == m * (10000 * rootPre);
    Cancel(m, up, 10000 * rootPre);
  }

  /** What a mint is: shares m with m·D ≤ S·bps·growth, where D is at least 10000 old roots. */
  lemma DilutionBound(shares: nat, rootPre: nat, rootNow: nat, bps: nat)
    requires rootPre < rootNow && 0 < bps <= 10000 && 0 < shares <= rootPre
    ensures var m, grown := Dilution(shares, rootPre, rootNow, bps), bps * (rootNow - rootPre);
            0 <= m <= rootNow - rootPre && m * (10000 * rootNow - grown) <= shares * grown
  {
    var grown, den := bps * (rootNow - rootPre), (10000 - bps) * rootNow + bps * rootPre;
    Denominator(rootPre, rootNow, bps);
    var m := Dilution(shares, rootPre, rootNow, bps);
    assert m == Quotient(shares * grown, den);
    MostUp(m, den, shares, grown, rootPre, rootNow - rootPre);
  }

  /** What a mint means: the protocol's part of all shares is the fee's part of the growth of the root, and one share
      more would be over it. */
  lemma MintIsFeePart(shares: nat, kPre: nat, kNow: nat, bps: nat)
    requires shares > 0 && 0 < bps <= 10000 && Root(kPre) < Root(kNow) && Root(kPre) > 0
    ensures var m, rise, now := ProtocolShares(shares, kPre, kNow, bps), Root(kNow) - Root(kPre), Root(kNow);
            && m * (10000 * now) <= (shares + m) * (bps * rise)
            && (m + 1) * (10000 * now) > (shares + m + 1) * (bps * rise)
  {
    var m, rootPre, rootNow := ProtocolShares(shares, kPre, kNow, bps), Root(kPre), Root(kNow);
    if kNow <= kPre {
      SquareMono(rootPre + 1, rootNow);
    }
    var grown, den := bps * (rootNow - rootPre), (10000 - bps) * rootNow + bps * rootPre;
    Denominator(rootPre, rootNow, bps);
    assert m == Quotient(shares * grown, den);
    FeePart(m, shares, grown, 10000 * rootNow, den);
  }

  lemma FeePart(m: nat, shares: nat, grown: nat, whole: nat, den: nat)
    requires den == whole - grown && m * den <= shares * grown < (m + 1) * den
    ensures m * whole <= (shares + m) * grown && (m + 1) * whole > (shares + m + 1) * grown
  {
    assert m * den == m * whole - m * grown;
    assert (m + 1) * den == (m + 1) * whole - (m + 1) * grown;
    assert (shares + m) * grown == shares * grown + m * grown;
    assert (shares + m + 1) * grown == shares * grown + (m + 1) * grown;
  }

  /** Minting never pushes the shares past the root of the product. */
  lemma MintUnderRoot(shares: nat, kPre: nat, kNow: nat, bps: nat)
    requires shares > 0 && shares * shares <= kPre <= kNow && bps <= 10000
    ensures var m := ProtocolShares(shares, kPre, kNow, bps);
            m >= 0 && (shares + m) * (shares + m) <= kNow
  {
    var rootPre, rootNow := Root(kPre), Root(kNow);
    RootIsLargest(shares, kPre);
    if bps > 0 && kNow > kPre && rootNow > rootPre {
      DilutionBound(shares, rootPre, rootNow, bps);
      SquareMono(shares + ProtocolShares(shares, kPre, kNow, bps), rootNow);
    }
  }

  /** A fee of the whole growth is exactly where that promise ends. */
  lemma MintUnderRootExactly(bps: nat)
    ensures (forall shares: nat, kPre: nat, kNow: nat ::
               shares > 0 && shares * shares <= kPre <= kNow && ProtocolShares(shares, kPre, kNow, bps) > 0 ==>
                 (shares + ProtocolShares(shares, kPre, kNow, bps)) * (shares + ProtocolShares(shares, kPre, kNow, bps)) <= kNow)
            <==> bps <= 10000
  {
    if bps <= 10000 {
      forall shares: nat, kPre: nat, kNow: nat
        | shares > 0 && shares * shares <= kPre <= kNow && ProtocolShares(shares, kPre, kNow, bps) > 0
        ensures (shares + ProtocolShares(shares, kPre, kNow, bps)) * (shares + ProtocolShares(shares, kPre, kNow, bps)) <= kNow
      {
        MintUnderRoot(shares, kPre, kNow, bps);
      }
    } else {
      OverWholeFee(bps);
    }
  }

  /** For every higher fee, the pool of `bps` shares at the root, grown by 10000, is minted past its root. */
  lemma OverWholeFee(bps: nat)
    requires bps > 10000
    ensures var n := bps + 10000;
            var m := ProtocolShares(bps, bps * bps, n * n, bps);
            bps * bps <= n * n && m > 0 && (bps + m) * (bps + m) > n * n
  {
    var n := bps + 10000;
    SquareMono(bps, n);
    ExactRoot(bps);
    ExactRoot(n);
    SquareMono(bps + 1, n);
    assert (bps + 1) * (bps + 1) == bps * bps + 2 * bps + 1;
    var m := Dilution(bps, bps, n, bps);
    BigDilution(bps);
    SquareMono(n + 1, bps + m);
    assert (n + 1) * (n + 1) == n * n + 2 * n + 1;
  }

  lemma ExactRoot(r: nat)
    ensures Root(r * r) == r
  {
    assert (r + 1) * (r + 1) == r * r + 2 * r + 1;
    RootUnique(r, r * r);
  }

  lemma BigDilution(bps: nat)
    requires bps > 10000
    ensures Dilution(bps, bps, bps + 10000, bps) > 10000
  {
    var den := (10000 - bps) * (bps + 10000) + bps * bps;
    assert (10000 - bps) * (bps + 10000) == 100000000 - bps * bps;
    var num := bps * (bps * 10000);
    var q := Dilution(bps, bps, bps + 10000, bps);
    assert q == Quotient(num, den);
    assert num == 10000 * (bps * bps);
    Scale(10001, bps, bps);
    assert num < (q + 1) * 100000000;
  }

  /** A mint of at least one share takes no more than the growth: (rootPre + 1)·(S + m) ≤ S·rootNow, for fees
      up to one half. */
  lemma MintTakesOnlyGrowth(shares: nat, rootPre: nat, rootNow: nat, bps: nat)
    requires rootPre < rootNow && 0 < bps <= 5000 && 0 < shares <= rootPre
    requires Dilution(shares, rootPre, rootNow, bps) >= 1
    ensures (rootPre + 1) * (shares + Dilution(shares, rootPre, rootNow, bps)) <= shares * rootNow
  {
    var m, up := Dilution(shares, rootPre, rootNow, bps), rootNow - rootPre;
    var grown := bps * up;
    var den := 10000 * rootNow - grown;
    DilutionBound(shares, rootPre, rootNow, bps);
    Denominator(rootPre, rootNow, bps);
    WholeUnit(m, den, shares, grown, rootPre);
    Scale(bps, 10000 - bps, up);
    Rescale(m, den, shares, grown, rootPre, rootNow);
  }

  /** At least one share was minted, so the growth is worth a whole unit of the root. */
  lemma WholeUnit(m: nat, den: nat, shares: nat, grown: nat, rootPre: nat)
    requires m >= 1 && m * den <= shares * grown && den >= 10000 * rootPre && 0 < shares <= rootPre
    ensures grown >= 10000
  {
    Scale(1, m, den);
    assert 10000 * shares <= grown * shares;
    Cancel(10000, grown, shares);
  }

  lemma Rescale(m: nat, den: nat, shares: nat, grown: nat, rootPre: nat, rootNow: nat)
    requires den == 10000 * rootNow - grown && den >= 10000 * (rootPre + 1) && m * den <= shares * grown
    ensures (rootPre + 1) * (shares + m) <= shares * rootNow
  {
    var z := shares + m;
    assert den * z == den * shares + m * den;
    assert den * shares + shares * grown == (10000 * rootNow) * shares;
    Scale(10000 * (rootPre + 1), den, z);
    assert 10000 * (rootPre + 1) * z == ((rootPre + 1) * z) * 10000;
    assert (10000 * rootNow) * shares == (shares * rootNow) * 10000;
  }

  /** From roots to products. */
  lemma FromRoots(k: nat, above: nat, after: nat, k': nat, root: nat, shares: nat)
    requires k <= above * above && root * root <= k' && above * after <= shares * root
    ensures ValueKept(k, shares, k', after)
  {
    SquareMono(above * after, shares * root);
    SquareOf(above, after);
    SquareOf(shares, root);
    Scale(k, above * above, after * after);
    Scale(root * root, k', shares * shares);
    assert (shares * shares) * (root * root) == (root * root) * (shares * shares);
  }

  lemma MintKeepsValue(shares: nat, kPre: nat, kNow: nat, bps: nat)
    requires shares > 0 && shares * shares <= kPre <= kNow && bps <= 5000
    ensures ProtocolShares(shares, kPre, kNow, bps) >= 0
    ensures ValueKept(kPre, shares, kNow, shares + ProtocolShares(shares, kPre, kNow, bps))
  {
    var m := ProtocolShares(shares, kPre, kNow, bps);
    MintUnderRoot(shares, kPre, kNow, bps);
    if m == 0 {
      Scale(kPre, kNow, shares * shares);
    } else {
      var rootPre, rootNow := Root(kPre), Root(kNow);
      RootIsLargest(shares, kPre);
      MintTakesOnlyGrowth(shares, rootPre, rootNow, bps);
      FromRoots(kPre, rootPre + 1, shares + m, kNow, rootNow, shares);
    }
  }

  /** One half is exactly where the promise ends: with a higher fee, a pool just short of the next root, grown
      by two roots, mints a share it has not earned. */
  lemma MintKeepsValueExactly(bps: nat)
    ensures (forall shares: nat, kPre: nat, kNow: nat ::
               shares > 0 && shares * shares <= kPre <= kNow && ProtocolShares(shares, kPre, kNow, bps) > 0 ==>
                 ValueKept(kPre, shares, kNow, shares + ProtocolShares(shares, kPre, kNow, bps)))
            <==> bps <= 5000
  {
    if bps <= 5000 {
      forall shares: nat, kPre: nat, kNow: nat
        | shares > 0 && shares * shares <= kPre <= kNow && ProtocolShares(shares, kPre, kNow, bps) > 0
        ensures ValueKept(kPre, shares, kNow, shares + ProtocolShares(shares, kPre, kNow, bps))
      {
        MintKeepsValue(shares, kPre, kNow, bps);
      }
    } else {
      HighFeeTakesTooMuch(bps);
    }
  }

  /** Twice the product either side of a square: n(n + 2) + 1 = (n + 1)². */
  lemma BetweenSquares(n: nat)
    ensures n * n <= n * (n + 2) && n * (n + 2) + 1 == (n + 1) * (n + 1) && n * (n + 2) <= (n + 2) * (n + 2)
    ensures Root(n * (n + 2)) == n && Root((n + 2) * (n + 2)) == n + 2
    ensures ((n + 2) * (n + 2)) * (n * n) == (n * (n + 2)) * (n * (n + 2))
  {
    RootUnique(n, n * (n + 2));
    assert (n + 3) * (n + 3) == (n + 2) * (n + 2) + 2 * (n + 2) + 1;
    RootUnique(n + 2, (n + 2) * (n + 2));
    SquareOf(n, n + 2);
    assert (n * n) * ((n + 2) * (n + 2)) == ((n + 2) * (n + 2)) * (n * n);
  }

  lemma Overtakes(k: nat, after: nat, n: nat)
    requires k > 0 && k + 1 == (n + 1) * (n + 1) && after >= n + 1
    ensures k * (after * after) > k * k
  {
    SquareMono(n + 1, after);
    Scale(k + 1, after * after, k);
    assert (k + 1) * k == k * k + k;
    assert (after * after) * k == k * (after * after);
  }

  lemma HighFeeTakesTooMuch(bps: nat)
    requires bps > 5000
    ensures var shares, kPre, kNow := bps, bps * (bps + 2), (bps + 2) * (bps + 2);
            && shares * shares <= kPre <= kNow && ProtocolShares(shares, kPre, kNow, bps) > 0
            && !ValueKept(kPre, shares, kNow, shares + ProtocolShares(shares, kPre, kNow, bps))
  {
    BetweenSquares(bps);
    MintAtLeastOne(bps);
    var kPre, kNow := bps * (bps + 2), (bps + 2) * (bps + 2);
    var m := ProtocolShares(bps, kPre, kNow, bps);
    assert m == Dilution(bps, bps, bps + 2, bps);
    Overtakes(kPre, bps + m, bps);
  }

  lemma MintAtLeastOne(bps: nat)
    requires bps > 5000
    ensures Dilution(bps, bps, bps + 2, bps) >= 1
  {
    var den := (10000 - bps) * (bps + 2) + bps * bps;
    assert den == 9998 * bps + 20000;
    Scale(5001, bps, bps);
    assert bps * (bps * 2) == 2 * (bps * bps);
    assert bps * (bps * 2) >= den;
    var q := Dilution(bps, bps, bps + 2, bps);
    assert q == Quotient(bps * (bps * 2), den);
    assert q == 0 ==> (q + 1) * den == den;
  }

  // ----- adding and removing liquidity

  /** New shares are worth no more than what was added, on either side. */
  lemma AddKeepsValue(a: nat, b: nat, shares: nat, da: nat, db: nat, minted: nat)
    requires minted * a <= da * shares && minted * b <= db * shares
    ensures ValueKept(a * b, shares, (a + da) * (b + db), shares + minted)
  {
    var after := shares + minted;
    assert after * a <= (a + da) * shares;
    assert after * b <= (b + db) * shares;
    Products(after * a, (a + da) * shares, after * b, (b + db) * shares);
    Regroup(after, a, b);
    Regroup(shares, a + da, b + db);
  }

  lemma Regroup(x: nat, y: nat, z: nat)
    ensures (x * y) * (x * z) == (y * z) * (x * x) && (y * x) * (z * x) == (y * z) * (x * x)
  {
    assert (x * y) * (x * z) == x * (y * (x * z));
    assert y * (x * z) == x * (y * z);
    assert x * (x * (y * z)) == (y * z) * (x * x);
    assert y * x == x * y && z * x == x * z;
  }

  /** What is paid out is worth no more than the shares burned, on either side. */
  lemma RemoveKeepsValue(a: nat, b: nat, shares: nat, burned: nat, oA: nat, oB: nat)
    requires burned <= shares && oA * shares <= a * burned && oB * shares <= b * burned && oA <= a && oB <= b
    ensures ValueKept(a * b, shares, (a - oA) * (b - oB), shares - burned)
  {
    var left := shares - burned;
    assert left * a <= (a - oA) * shares;
    assert left * b <= (b - oB) * shares;
    Products(left * a, (a - oA) * shares, left * b, (b - oB) * shares);
    Regroup(left, a, b);
    Regroup(shares, a - oA, b - oB);
  }

  /** A payout is the most that is not worth more than the shares burned. */
  lemma PayoutBound(reserve: nat, burned: nat, shares: nat)
    requires 0 < reserve && burned < shares
    ensures var out := Payout(reserve, burned, shares);
            out * shares <= reserve * burned < (out + 1) * shares && out < reserve
  {
    FloorBound(reserve * burned, shares);
    var out := Payout(reserve, burned, shares);
    Scale(burned + 1, shares, reserve);
    assert (burned + 1) * reserve == reserve * burned + reserve;
    assert reserve * shares == shares * reserve;
    if out >= reserve {
      Scale(reserve, out, shares);
    }
  }

  /** Shares bought and burned at once return no more than was added. */
  lemma AddThenRemove(a: nat, b: nat, shares: nat, da: nat, db: nat)
    requires a > 0 && b > 0 && shares > 0
    ensures var minted := AddShares(da, db, a, b, shares);
            && Payout(a + da, minted, shares + minted) <= da
            && Payout(b + db, minted, shares + minted) <= db
  {
    var minted := AddShares(da, db, a, b, shares);
    AddSharesBound(da, db, a, b, shares);
    NoProfit(a, shares, da, minted);
    NoProfit(b, shares, db, minted);
  }

  /** New shares are the most that are not worth more than what was added, on both sides. */
  lemma AddSharesBound(da: nat, db: nat, a: nat, b: nat, shares: nat)
    requires a > 0 && b > 0
    ensures var minted := AddShares(da, db, a, b, shares);
            && minted * a <= da * shares && minted * b <= db * shares
            && ((minted + 1) * a > da * shares || (minted + 1) * b > db * shares)
  {
    var minted := AddShares(da, db, a, b, shares);
    FloorBound(da * shares, a);
    FloorBound(db * shares, b);
    Scale(minted, (da * shares) / a, a);
    Scale(minted, (db * shares) / b, b);
  }

  lemma NoProfit(a: nat, shares: nat, da: nat, minted: nat)
    requires shares > 0 && minted * a <= da * shares
    ensures Payout(a + da, minted, shares + minted) <= da
  {
    var out := Payout(a + da, minted, shares + minted);
    FloorBound((a + da) * minted, shares + minted);
    assert (a + da) * minted == minted * a + da * minted;
    assert da * (shares + minted) == da * shares + da * minted;
    Cancel(out, da, shares + minted);
  }

  // ----- every operation

  lemma CrystallizeKeeps(cfg: Config, s: Pool)
    requires s.live && PoolInv(s) && (cfg.feeOn ==> cfg.feeBps <= 10000)
    ensures var s' := Crystallize(cfg, s);
            && PoolInv(s') && s'.live && s'.shares >= s.shares && s'.kLast == s'.a * s'.b && s'.a == s.a && s'.b == s.b
            && ((cfg.feeOn ==> cfg.feeBps <= 5000) ==> ValueKept(s.kLast, s.shares, s'.kLast, s'.shares))
  {
    assert s.shares * s.shares > 0;
    var kNow := s.a * s.b;
    if cfg.feeOn && cfg.feeBps > 0 {
      MintUnderRoot(s.shares, s.kLast, kNow, cfg.feeBps);
      if cfg.feeBps <= 5000 {
        MintKeepsValue(s.shares, s.kLast, kNow, cfg.feeBps);
      }
    } else {
      Scale(s.kLast, kNow, s.shares * s.shares);
    }
  }

  lemma AddKeeps(s: Pool, da: int, db: int, declared: Option<int>)
    requires s.live && PoolInv(s) && s.kLast == s.a * s.b && OnAdd(s, da, db, declared).Ok?
    ensures var s' := OnAdd(s, da, db, declared).value;
            PoolInv(s') && s'.live && ValueKept(s.kLast, s.shares, s'.kLast, s'.shares)
  {
    var s' := OnAdd(s, da, db, declared).value;
    AddSharesBound(da, db, s.a, s.b, s.shares);
    AddKeepsValue(s.a, s.b, s.shares, da, db, s'.shares - s.shares);
    ValueBoundsShares(s.kLast, s.shares, s'.kLast, s'.shares);
  }

  lemma RemoveKeeps(s: Pool, burned: int, outA: Option<int>, outB: Option<int>)
    requires s.live && PoolInv(s) && s.kLast == s.a * s.b && OnRemove(s, burned, outA, outB).Ok?
    ensures var s' := OnRemove(s, burned, outA, outB).value;
            PoolInv(s') && s'.live && ValueKept(s.kLast, s.shares, s'.kLast, s'.shares)
  {
    var s' := OnRemove(s, burned, outA, outB).value;
    PayoutBound(s.a, burned, s.shares);
    PayoutBound(s.b, burned, s.shares);
    RemoveKeepsValue(s.a, s.b, s.shares, burned, s.a - s'.a, s.b - s'.b);
    assert s.kLast > 0 by { assert s.shares * s.shares > 0; }
    assert s'.kLast >= 0;
    ValueBoundsShares(s.kLast, s.shares, s'.kLast, s'.shares);
  }

  lemma InitKeeps(s: Pool, da: int, db: int, declared: Option<int>, feeBps: nat)
    requires OnInit(s, da, db, declared, feeBps).Ok?
    ensures PoolInv(OnInit(s, da, db, declared, feeBps).value)
  {
  }

  /** One accepted operation keeps the invariant and, with the fee at most one half, the value of a share. */
  lemma OpKeeps(cfg: Config, s: Pool, op: Op)
    requires PoolInv(s) && (cfg.feeOn ==> cfg.feeBps <= 10000) && Apply(cfg, s, op).Ok?
    ensures var s' := Apply(cfg, s, op).value;
            && PoolInv(s') && s'.live
            && (s.live && (cfg.feeOn ==> cfg.feeBps <= 5000) ==>
                  s.kLast >= 0 && s.shares >= 0 && s'.kLast >= 0 && s'.shares >= 0
                  && ValueKept(s.kLast, s.shares, s'.kLast, s'.shares))
  {
    match op
    case Init(da, db, declared, feeBps) => InitKeeps(s, da, db, declared, feeBps);
    case Add(da, db, declared) =>
      var c, s' := Crystallize(cfg, s), Apply(cfg, s, op).value;
      CrystallizeKeeps(cfg, s);
      AddKeeps(c, da, db, declared);
      if cfg.feeOn ==> cfg.feeBps <= 5000 {
        ValueTransitive(s.kLast, s.shares, c.kLast, c.shares, s'.kLast, s'.shares);
      }
    case Remove(burned, outA, outB) =>
      var c, s' := Crystallize(cfg, s), Apply(cfg, s, op).value;
      CrystallizeKeeps(cfg, s);
      RemoveKeeps(c, burned, outA, outB);
      if cfg.feeOn ==> cfg.feeBps <= 5000 {
        ValueTransitive(s.kLast, s.shares, c.kLast, c.shares, s'.kLast, s'.shares);
      }
    case FeeClaim => CrystallizeKeeps(cfg, s);
    case Swap(_, _, _) => SwapsNeverLowerK(cfg, s, op);
    case Route(_) => SwapsNeverLowerK(cfg, s, op);
    case _ =>
  }

  /** After any accepted sequence the reserves are positive, the locked minimum is still there, the checkpoint
      is at most the product and the shares are at most its root. */
  lemma {:induction false} ReplayKeepsPool(cfg: Config, ops: seq<Op>)
    requires (cfg.feeOn ==> cfg.feeBps <= 10000) && Fold(cfg, ops).Ok?
    ensures PoolInv(Fold(cfg, ops).value) && (ops != [] ==> Fold(cfg, ops).value.live)
  {
    if ops != [] {
      ReplayKeepsPool(cfg, ops[..|ops| - 1]);
      OpKeeps(cfg, Fold(cfg, ops[..|ops| - 1]).value, ops[|ops| - 1]);
    }
  }

  /** Between any two points of an accepted replay the value of a share at its checkpoint does not fall. */
  lemma {:induction false} ShareValueNeverFalls(cfg: Config, ops: seq<Op>, k: nat)
    requires (cfg.feeOn ==> cfg.feeBps <= 5000) && Fold(cfg, ops).Ok? && 0 < k <= |ops|
    ensures Fold(cfg, ops[..k]).Ok?
    ensures var s, s' := Fold(cfg, ops[..k]).value, Fold(cfg, ops).value;
            && s.kLast > 0 && s.shares > 0 && s'.kLast > 0 && s'.shares > 0
            && ValueKept(s.kLast, s.shares, s'.kLast, s'.shares)
  {
    ReplayKeepsPool(cfg, ops);
    var s' := Fold(cfg, ops).value;
    assert s'.shares * s'.shares > 0;
    if k == |ops| {
      assert ops[..k] == ops;
    } else {
      var before := ops[..|ops| - 1];
      assert before[..k] == ops[..k];
      ShareValueNeverFalls(cfg, before, k);
      ReplayKeepsPool(cfg, before);
      var s, mid := Fold(cfg, ops[..k]).value, Fold(cfg, before).value;
      OpKeeps(cfg, mid, ops[|ops| - 1]);
      ValueTransitive(s.kLast, s.shares, mid.kLast, mid.shares, s'.kLast, s'.shares);
    }
  }
}
