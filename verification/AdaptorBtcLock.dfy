/** The Taproot output a claimer opens only with the swap secret (dapp/adaptor-btc-lock.js): key
    lift(P + T) + tweak·G, spent by the scalar of that point. */
module AdaptorBtcLock {
  import opened Wrappers
  import opened CurveGroup

  /** TapTweak of (internal x, leaf hash), before reduction. */
  type TapTweak = (int, int) -> nat

  datatype Lock = Lock(internalX: int, internalOddY: bool, leafHash: int, outputX: int)

  /** The output point the wallet derives from an internal x-only key; refused when the tweak is out
      of range or zero. */
  function OutputKey<P(==)>(c: Curve<P>, tap: TapTweak, internalX: int, leafHash: int): Option<P>
    requires c.n > 2
  {
    var tweak := tap(internalX, leafHash);
    if c.lift(internalX).None? || tweak >= c.n || tweak == 0 then None
    else Some(c.add(c.lift(internalX).value, MulG(c, tweak)))
  }

  function DeriveLock<P(==)>(c: Curve<P>, tap: TapTweak, claimer: P, tPoint: P, leafHash: int): Result<Lock>
    requires c.n > 2
  {
    var i := c.add(claimer, tPoint);
    if i == c.zero then Err("adaptor-btc-lock: T cancels the claimer key") else
    match OutputKey(c, tap, c.x(i), leafHash)
    case None => Err("tap tweak out of range")
    case Some(q) => Ok(Lock(c.x(i), !c.even(i), leafHash, c.x(q)))
  }

  function ClaimSecret<P(==)>(c: Curve<P>, tap: TapTweak, dClaimer: int, t: int, lock: Lock): Result<nat>
    requires c.n > 2
  {
    var d := FlipN(c, !lock.internalOddY, dClaimer + t);
    var tweak := tap(lock.internalX, lock.leafHash);
    if tweak >= c.n then Err("adaptor-btc-lock: tap tweak >= N") else
    var sk := ModN(c, d + tweak);
    if sk == 0 || c.x(MulG(c, sk)) != lock.outputX then Err("adaptor-btc-lock: this secret does not open the lock")
    else Ok(sk)
  }

  /** With the discrete logarithm of T the claimer's scalar is exactly that of the output point, for
      either parity of the internal key; it is refused only when the tweak cancels that key. */
  lemma SecretOpensLock<P(!new)>(c: Curve<P>, tap: TapTweak, d: int, t: int, leafHash: int)
    requires Laws(c) && DeriveLock(c, tap, MulG(c, d), MulG(c, t), leafHash).Ok?
    ensures var lock := DeriveLock(c, tap, MulG(c, d), MulG(c, t), leafHash).value;
            var q := OutputKey(c, tap, lock.internalX, leafHash).value;
            && (ClaimSecret(c, tap, d, t, lock).Ok? <==> q != c.zero)
            && (ClaimSecret(c, tap, d, t, lock).Ok? ==> MulG(c, ClaimSecret(c, tap, d, t, lock).value) == q)
  {
    var i := c.add(MulG(c, d), MulG(c, t));
    var lock := DeriveLock(c, tap, MulG(c, d), MulG(c, t), leafHash).value;
    var q := OutputKey(c, tap, lock.internalX, leafHash).value;
    assert At(i, i, i);
    assert c.lift(c.x(i)) == Some(Flip(c, c.even(i), i));
    var tweak := tap(lock.internalX, leafHash);
    var d' := FlipN(c, c.even(i), d + t);
    MulGAdd(c, d, t);
    MulGFlip(c, c.even(i), d + t);
    MulGAdd(c, d', tweak);
    var sk := ModN(c, d' + tweak);
    assert MulG(c, sk) == q;
    assert sk != 0 ==> Mul(c, sk, c.g) != c.zero;
  }
}
