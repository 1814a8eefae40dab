/** Adaptor signatures over a kernel (dapp/adaptor-signature.js): a pre-signature is "the signature
    minus t", completing it publishes t. The challenge hashes are arbitrary functions. */
module AdaptorSignature {
  import opened Wrappers
  import opened CurveGroup
  import opened Remainder

  // ----- the Bitcoin lane: BIP-340

  /** BIP-340 challenge of (x of the nonce point, x of the key, message). */
  type Challenge = (int, int, int) -> int

  datatype PreSig<!P> = PreSig(r: P, rxPub: int, px: int, sTilde: nat)

  /** The signing key whose point has even y. */
  function EvenKey<P(==)>(c: Curve<P>, d: int): (r: nat)
    requires c.n > 2
    ensures r < c.n
  {
    FlipN(c, c.even(MulG(c, d)), d)
  }

  function Presign<P(==)>(c: Curve<P>, h: Challenge, d: int, msg: int, t: P, nonce: int): Result<PreSig<P>>
    requires c.n > 2
  {
    var k := ModN(c, nonce);
    if k == 0 then Err("adaptor: nonce was zero") else
    var r := MulG(c, k);
    var rHat := c.add(r, t);
    var px := c.x(MulG(c, d));
    var e := ModN(c, h(c.x(rHat), px, msg));
    var kEff := FlipN(c, c.even(rHat), k);
    Ok(PreSig(r, c.x(rHat), px, ModN(c, kEff + e * EvenKey(c, d))))
  }

  predicate VerifyPresign<P(==)>(c: Curve<P>, h: Challenge, px: int, msg: int, r: P, t: P, sTilde: nat)
    requires c.n > 2
  {
    match c.lift(px)
    case None => false
    case Some(key) =>
      var rHat := c.add(r, t);
      var e := ModN(c, h(c.x(rHat), px, msg));
      MulG(c, sTilde) == c.add(Flip(c, c.even(rHat), r), Mul(c, e, key))
  }

  function Complete<P(==)>(c: Curve<P>, sTilde: nat, t: int, r: P, tPoint: P): (s: nat)
    requires c.n > 2
    ensures s < c.n
  {
    ModN(c, sTilde + FlipN(c, c.even(c.add(r, tPoint)), t))
  }

  function Extract<P(==)>(c: Curve<P>, sTilde: nat, s: nat, r: P, tPoint: P): (t: nat)
    requires c.n > 2
    ensures t < c.n
  {
    if c.even(c.add(r, tPoint)) then ModN(c, s - sTilde) else ModN(c, sTilde - s)
  }

  /** BIP-340 verification, as the kernel verifier runs it. */
  predicate VerifySchnorr<P(==)>(c: Curve<P>, h: Challenge, px: int, msg: int, rx: int, s: nat)
    requires c.n > 2
  {
    s < c.n &&
    match c.lift(px)
    case None => false
    case Some(key) =>
      var e := ModN(c, h(rx, px, msg));
      var r := c.add(MulG(c, s), c.neg(Mul(c, e, key)));
      r != c.zero && c.even(r) && c.x(r) == rx
  }

  /** An honest pre-signature passes the counterparty's check, for either parity of key and nonce. */
  lemma PresignVerifies<P(!new)>(c: Curve<P>, h: Challenge, d: int, msg: int, t: P, nonce: int)
    requires Laws(c) && ModN(c, d) != 0
    ensures Presign(c, h, d, msg, t, nonce).Ok? <==> ModN(c, nonce) != 0
    ensures Presign(c, h, d, msg, t, nonce).Ok? ==>
              var ps := Presign(c, h, d, msg, t, nonce).value;
              VerifyPresign(c, h, ps.px, msg, ps.r, t, ps.sTilde)
  {
    var k := ModN(c, nonce);
    if k != 0 {
      var key := MulG(c, d);
      assert At(key, key, key);
      assert c.lift(c.x(key)) == Some(Flip(c, c.even(key), key));
      var r := MulG(c, k);
      var rHat := c.add(r, t);
      var e := ModN(c, h(c.x(rHat), c.x(key), msg));
      var kEff := FlipN(c, c.even(rHat), k);
      MulGFlip(c, c.even(rHat), k);
      MulGFlip(c, c.even(key), d);
      MulGAdd(c, kEff, e * EvenKey(c, d));
      MulGMul(c, e, EvenKey(c, d));
    }
  }

  /** Any pre-signature that passed the check, honest or not, becomes a valid signature once the
      discrete logarithm of T is added; the one exception is a nonce point that cancels T. */
  lemma CompletionVerifies<P(!new)>(
    c: Curve<P>, h: Challenge, px: int, msg: int, r: P, tPoint: P, sTilde: nat, t: int)
    requires Laws(c) && VerifyPresign(c, h, px, msg, r, tPoint, sTilde) && MulG(c, t) == tPoint
    ensures VerifySchnorr(c, h, px, msg, c.x(c.add(r, tPoint)), Complete(c, sTilde, t, r, tPoint))
            <==> c.add(r, tPoint) != c.zero
  {
    var rHat := c.add(r, tPoint);
    var keep := c.even(rHat);
    var key := c.lift(px).value;
    var ek := Mul(c, ModN(c, h(c.x(rHat), px, msg)), key);
    var s := Complete(c, sTilde, t, r, tPoint);
    calc {
      MulG(c, s);
      { MulGAdd(c, sTilde, FlipN(c, keep, t)); MulGFlip(c, keep, t); }
      c.add(c.add(Flip(c, keep, r), ek), Flip(c, keep, tPoint));
      { Assoc(c, Flip(c, keep, r), ek, Flip(c, keep, tPoint)); Comm(c, ek, Flip(c, keep, tPoint)); }
      c.add(Flip(c, keep, r), c.add(Flip(c, keep, tPoint), ek));
      { Assoc(c, Flip(c, keep, r), Flip(c, keep, tPoint), ek); FlipAdd(c, keep, r, tPoint); }
      c.add(Flip(c, keep, rHat), ek);
    }
    AddSub(c, Flip(c, keep, rHat), ek);
    if rHat == c.zero {
      Opposite(c, c.zero);
      Zero(c, c.neg(c.zero));
    } else {
      FlipEven(c, rHat);
    }
  }

  /** Any valid signature under the published nonce gives away the discrete logarithm of T to
      whoever holds the pre-signature, however the signature was made. */
  lemma SignatureRevealsSecret<P(!new)>(
    c: Curve<P>, h: Challenge, px: int, msg: int, r: P, tPoint: P, sTilde: nat, s: nat)
    requires Laws(c) && VerifyPresign(c, h, px, msg, r, tPoint, sTilde)
    requires c.add(r, tPoint) != c.zero
    requires VerifySchnorr(c, h, px, msg, c.x(c.add(r, tPoint)), s)
    ensures MulG(c, Extract(c, sTilde, s, r, tPoint)) == tPoint
  {
    var rHat := c.add(r, tPoint);
    var keep := c.even(rHat);
    var key := c.lift(px).value;
    var ek := Mul(c, ModN(c, h(c.x(rHat), px, msg)), key);
    var r' := c.add(MulG(c, s), c.neg(ek));
    EvenPointUnique(c, rHat, r');
    AddSub(c, MulG(c, s), ek);
    // s·G = flip(R + T) + e·P and s~·G = flip(R) + e·P, so (s - s~)·G = flip(T)
    FlipAdd(c, keep, r, tPoint);
    Comm(c, Flip(c, keep, r), Flip(c, keep, tPoint));
    Assoc(c, Flip(c, keep, tPoint), Flip(c, keep, r), ek);
    MulGAdd(c, s, -(sTilde as int));
    MulGNeg(c, sTilde);
    AddSub(c, Flip(c, keep, tPoint), MulG(c, sTilde));
    assert MulG(c, s - sTilde) == Flip(c, keep, tPoint);
    if !keep {
      MulGNeg(c, s - sTilde);
      NegNeg(c, tPoint);
    }
  }

  /** Extraction inverts completion, for every secret and either parity. */
  lemma ExtractCompletes<P(!new)>(c: Curve<P>, sTilde: nat, t: int, r: P, tPoint: P)
    requires Laws(c) && sTilde < c.n
    ensures Extract(c, sTilde, Complete(c, sTilde, t, r, tPoint), r, tPoint) == ModN(c, t)
  {
    var s := Complete(c, sTilde, t, r, tPoint);
    var a := ModN(c, t);
    if c.even(c.add(r, tPoint)) {
      SumMod(sTilde + a, -(sTilde as int), c.n);
    } else {
      var b := ModN(c, c.n - a);
      SubMod(sTilde + b, sTilde, c.n);
      SubMod(c.n - a, 0, c.n);
      ModShift(-(b as int), c.n);
      ModShift(a - c.n, c.n);
    }
  }

  // ----- the EVM lane: the claim kernel

  /** Kernel challenge of (inputs, outputs, published nonce point). */
  type KernelChallenge<!P> = (seq<P>, seq<P>, P) -> int

  function Sum<P>(c: Curve<P>, ps: seq<P>): P {
    if ps == [] then c.zero else c.add(Sum(c, ps[..|ps| - 1]), ps[|ps| - 1])
  }

  /** ΣinC - ΣoutC, the point the kernel signs under. */
  function KernelKey<P>(c: Curve<P>, ins: seq<P>, outs: seq<P>): P {
    c.add(Sum(c, ins), c.neg(Sum(c, outs)))
  }

  function KernelPresign<P(==)>(
    c: Curve<P>, h: KernelChallenge<P>, excess: int, ins: seq<P>, outs: seq<P>, t: P, nonce: int): Result<(P, nat)>
    requires c.n > 2
  {
    var k := ModN(c, nonce);
    if k == 0 then Err("adaptor: nonce was zero") else
    var r := MulG(c, k);
    var e := ModN(c, h(ins, outs, c.add(r, t)));
    Ok((r, ModN(c, k + e * ModN(c, excess))))
  }

  predicate KernelVerifyPresign<P(==)>(
    c: Curve<P>, h: KernelChallenge<P>, ins: seq<P>, outs: seq<P>, r: P, t: P, sTilde: nat)
    requires c.n > 2
  {
    var e := ModN(c, h(ins, outs, c.add(r, t)));
    MulG(c, sTilde) == c.add(r, Mul(c, e, KernelKey(c, ins, outs)))
  }

  function KernelComplete<P(==)>(c: Curve<P>, sTilde: nat, t: int): (z: nat)
    requires c.n > 2
    ensures z < c.n
  {
    ModN(c, sTilde + ModN(c, t))
  }

  function KernelExtract<P(==)>(c: Curve<P>, sTilde: nat, z: nat): (t: nat)
    requires c.n > 2
    ensures t < c.n
  {
    ModN(c, z - sTilde)
  }

  /** What the settle guest checks: z·G == R' + e·(L - O). */
  predicate VerifyKernel<P(==)>(c: Curve<P>, h: KernelChallenge<P>, ins: seq<P>, outs: seq<P>, rPub: P, z: nat)
    requires c.n > 2
  {
    MulG(c, z) == c.add(rPub, Mul(c, ModN(c, h(ins, outs, rPub)), KernelKey(c, ins, outs)))
  }

  lemma KernelPresignVerifies<P(!new)>(
    c: Curve<P>, h: KernelChallenge<P>, excess: int, ins: seq<P>, outs: seq<P>, t: P, nonce: int)
    requires Laws(c) && KernelKey(c, ins, outs) == MulG(c, excess)
    ensures KernelPresign(c, h, excess, ins, outs, t, nonce).Ok? <==> ModN(c, nonce) != 0
    ensures KernelPresign(c, h, excess, ins, outs, t, nonce).Ok? ==>
              var (r, sTilde) := KernelPresign(c, h, excess, ins, outs, t, nonce).value;
              KernelVerifyPresign(c, h, ins, outs, r, t, sTilde)
  {
    var k := ModN(c, nonce);
    if k != 0 {
      var e := ModN(c, h(ins, outs, c.add(MulG(c, k), t)));
      MulGAdd(c, k, e * ModN(c, excess));
      MulGMul(c, e, ModN(c, excess));
    }
  }

  lemma KernelCompletionVerifies<P(!new)>(
    c: Curve<P>, h: KernelChallenge<P>, ins: seq<P>, outs: seq<P>, r: P, tPoint: P, sTilde: nat, t: int)
    requires Laws(c) && KernelVerifyPresign(c, h, ins, outs, r, tPoint, sTilde) && MulG(c, t) == tPoint
    ensures VerifyKernel(c, h, ins, outs, c.add(r, tPoint), KernelComplete(c, sTilde, t))
  {
    var ek := Mul(c, ModN(c, h(ins, outs, c.add(r, tPoint))), KernelKey(c, ins, outs));
    MulGAdd(c, sTilde, ModN(c, t));
    Assoc(c, r, ek, tPoint);
    Comm(c, ek, tPoint);
    Assoc(c, r, tPoint, ek);
  }

  lemma KernelRevealsSecret<P(!new)>(
    c: Curve<P>, h: KernelChallenge<P>, ins: seq<P>, outs: seq<P>, r: P, tPoint: P, sTilde: nat, z: nat)
    requires Laws(c) && KernelVerifyPresign(c, h, ins, outs, r, tPoint, sTilde)
    requires VerifyKernel(c, h, ins, outs, c.add(r, tPoint), z)
    ensures MulG(c, KernelExtract(c, sTilde, z)) == tPoint
  {
    var ek := Mul(c, ModN(c, h(ins, outs, c.add(r, tPoint))), KernelKey(c, ins, outs));
    Comm(c, r, tPoint);
    Assoc(c, tPoint, r, ek);
    MulGAdd(c, z, -(sTilde as int));
    MulGNeg(c, sTilde);
    AddSub(c, tPoint, MulG(c, sTilde));
  }

  lemma KernelExtractCompletes<P(!new)>(c: Curve<P>, sTilde: nat, t: int)
    requires Laws(c) && sTilde < c.n
    ensures KernelExtract(c, sTilde, KernelComplete(c, sTilde, t)) == ModN(c, t)
  {
    SumMod(sTilde + ModN(c, t), -(sTilde as int), c.n);
  }
}
