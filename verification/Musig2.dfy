/** The two-party key of the desk's lock and its adapted signature (dapp/musig2.js): BIP-327 key
    aggregation with x-only tweaks, one session's shared values, partial signatures, and the
    pre-signature they add up to. Hashes are arbitrary functions. */
module Musig2 {
  import opened Wrappers
  import opened CurveGroup
  import A = AdaptorSignature

  /** A public nonce: its two points. A secret nonce: their two scalars. */
  type PubNonce<!P> = (P, P)
  type SecNonce = (nat, nat)

  /** The aggregate key: `gacc` is true for +1 and false for -1. */
  datatype Keys<!P> = Keys(pkA: P, pkB: P, coef: P -> nat, q: P, gacc: bool, tacc: nat)

  function Aggregate<P(==)>(c: Curve<P>, coef: P -> nat, pkA: P, pkB: P): P {
    c.add(Mul(c, coef(pkA), pkA), Mul(c, coef(pkB), pkB))
  }

  /** KeyAgg of two keys, refused when they cancel. */
  function KeyAgg<P(==)>(c: Curve<P>, coef: P -> nat, pkA: P, pkB: P): Result<Keys<P>> {
    var q := Aggregate(c, coef, pkA, pkB);
    if q == c.zero then Err("musig2: the keys cancel")
    else Ok(Keys(pkA, pkB, coef, q, true, 0))
  }

  /** ApplyTweak, x-only: the key is made even first. */
  function ApplyTweak<P(==)>(c: Curve<P>, k: Keys<P>, tweak: nat): Result<Keys<P>>
    requires c.n > 2
  {
    if tweak >= c.n then Err("musig2: tweak out of range") else
    var g := c.even(k.q);
    var q := c.add(Flip(c, g, k.q), MulG(c, tweak));
    if q == c.zero then Err("musig2: the tweak cancels the key")
    else Ok(k.(q := q, gacc := g == k.gacc, tacc := ModN(c, tweak + FlipN(c, g, k.tacc))))
  }

  /** The output key is the signed aggregate plus the accumulated tweak. */
  ghost predicate KeysOk<P(!new)>(c: Curve<P>, k: Keys<P>)
    requires c.n > 2
  {
    && k.q != c.zero
    && k.q == c.add(Flip(c, k.gacc, Aggregate(c, k.coef, k.pkA, k.pkB)), MulG(c, k.tacc))
  }

  lemma KeyAggOk<P(!new)>(c: Curve<P>, coef: P -> nat, pkA: P, pkB: P)
    requires Laws(c)
    ensures KeyAgg(c, coef, pkA, pkB).Ok? ==> KeysOk(c, KeyAgg(c, coef, pkA, pkB).value)
  {
    Zero(c, Aggregate(c, coef, pkA, pkB));
  }

  lemma ApplyTweakOk<P(!new)>(c: Curve<P>, k: Keys<P>, tweak: nat)
    requires Laws(c) && KeysOk(c, k)
    ensures ApplyTweak(c, k, tweak).Ok? ==> KeysOk(c, ApplyTweak(c, k, tweak).value)
  {
    if tweak < c.n {
      var g := c.even(k.q);
      var inner := Aggregate(c, k.coef, k.pkA, k.pkB);
      FlipAdd(c, g, Flip(c, k.gacc, inner), MulG(c, k.tacc));
      NegNeg(c, inner);
      MulGFlip(c, g, k.tacc);
      MulGAdd(c, tweak, FlipN(c, g, k.tacc));
      Comm(c, MulG(c, tweak), MulG(c, FlipN(c, g, k.tacc)));
      Assoc(c, Flip(c, g == k.gacc, inner), MulG(c, FlipN(c, g, k.tacc)), MulG(c, tweak));
    }
  }

  /** The nonce coefficient: a hash of the aggregate nonce, the key and the message. */
  type NonceCoef<!P> = (P, P, int, int) -> int

  /** What every signer and verifier of one signature computes alike. */
  datatype Session<!P> = Session(keys: Keys<P>, b: nat, r: P, rf: P, e: nat, sigma: bool, g: bool, t: P, msg: int)

  function NonceSum<P>(c: Curve<P>, b: nat, pn: PubNonce<P>): P {
    c.add(pn.0, Mul(c, b, pn.1))
  }

  function MakeSession<P(==)>(
    c: Curve<P>, hb: NonceCoef<P>, h: A.Challenge, keys: Keys<P>,
    pnA: PubNonce<P>, pnB: PubNonce<P>, msg: int, t: P): Result<Session<P>>
    requires c.n > 2
  {
    var r1, r2 := c.add(pnA.0, pnB.0), c.add(pnA.1, pnB.1);
    var b := ModN(c, hb(r1, r2, c.x(keys.q), msg));
    var sum := NonceSum(c, b, (r1, r2));
    var r := if sum == c.zero then c.g else sum;
    var rf := c.add(r, t);
    if rf == c.zero then Err("musig2: the adaptor point cancels the nonce") else
    var e := ModN(c, h(c.x(rf), c.x(keys.q), msg));
    Ok(Session(keys, b, r, rf, e, c.even(rf), c.even(keys.q), t, msg))
  }

  function PartialSign<P(==)>(c: Curve<P>, s: Session<P>, sec: SecNonce, d: nat, pk: P): (r: nat)
    requires c.n > 2
    ensures r < c.n
  {
    var k := FlipN(c, s.sigma, sec.0 + s.b * sec.1);
    ModN(c, k + s.e * s.keys.coef(pk) * FlipN(c, s.g == s.keys.gacc, d))
  }

  predicate PartialVerify<P(==)>(c: Curve<P>, s: Session<P>, psig: nat, pn: PubNonce<P>, pk: P)
    requires c.n > 2
  {
    && psig < c.n
    && (pk == s.keys.pkA || pk == s.keys.pkB)
    && MulG(c, psig) == c.add(Flip(c, s.sigma, NonceSum(c, s.b, pn)),
                              Mul(c, s.e * s.keys.coef(pk), Flip(c, s.g == s.keys.gacc, pk)))
  }

  /** The sum of the two partial signatures and the tweak term. */
  function PartialAgg<P(==)>(c: Curve<P>, s: Session<P>, psigA: nat, psigB: nat): (r: nat)
    requires c.n > 2
    ensures r < c.n
  {
    ModN(c, s.e * FlipN(c, s.g, s.keys.tacc) + psigA + psigB)
  }

  predicate PreVerify<P(==)>(c: Curve<P>, s: Session<P>, sPre: nat)
    requires c.n > 2
  {
    MulG(c, sPre) == c.add(Flip(c, s.sigma, s.r), Mul(c, s.e, Flip(c, s.g, s.keys.q)))
  }

  /** A signature: the x of its nonce point, and its scalar. */
  type Sig = (int, nat)

  function Adapt<P(==)>(c: Curve<P>, s: Session<P>, sPre: nat, t: nat): Result<Sig>
    requires c.n > 2
  {
    if MulG(c, t) != s.t then Err("musig2: t does not open this adaptor point")
    else Ok((c.x(s.rf), ModN(c, sPre + FlipN(c, s.sigma, t))))
  }

  function ExtractSecret<P(==)>(c: Curve<P>, s: Session<P>, sPre: nat, sig: Sig): Option<nat>
    requires c.n > 2
  {
    if sig.0 != c.x(s.rf) then None else
    var t := if s.sigma then ModN(c, sig.1 - sPre) else ModN(c, sPre - sig.1);
    if t != 0 && MulG(c, t) == s.t then Some(t) else None
  }

  // ----- what the checks give

  /** A signer's own half passes the other side's check. */
  lemma PartialSignVerifies<P(!new)>(c: Curve<P>, s: Session<P>, sec: SecNonce, d: nat, pk: P)
    requires Laws(c) && MulG(c, d) == pk && (pk == s.keys.pkA || pk == s.keys.pkB)
    ensures PartialVerify(c, s, PartialSign(c, s, sec, d, pk), (MulG(c, sec.0), MulG(c, sec.1)), pk)
  {
    var k := sec.0 + s.b * sec.1;
    var f, ea := FlipN(c, s.g == s.keys.gacc, d), s.e * s.keys.coef(pk);
    MulGAdd(c, FlipN(c, s.sigma, k), ea * f);
    MulGFlip(c, s.sigma, k);
    MulGAdd(c, sec.0, s.b * sec.1);
    MulGMul(c, s.b, sec.1);
    MulGMul(c, ea, f);
    MulGFlip(c, s.g == s.keys.gacc, d);
  }

  /** Two nonce sums add up to the sum of the aggregate nonce. */
  lemma NonceSums<P(!new)>(c: Curve<P>, b: nat, pnA: PubNonce<P>, pnB: PubNonce<P>)
    requires Laws(c)
    ensures c.add(NonceSum(c, b, pnA), NonceSum(c, b, pnB))
            == NonceSum(c, b, (c.add(pnA.0, pnB.0), c.add(pnA.1, pnB.1)))
  {
    Swap4(c, pnA.0, Mul(c, b, pnA.1), pnB.0, Mul(c, b, pnB.1));
    MulDist(c, b, pnA.1, pnB.1);
  }

  /** e·g·Q is the two key terms plus the tweak term. */
  lemma KeyTerms<P(!new)>(c: Curve<P>, s: Session<P>)
    requires Laws(c) && KeysOk(c, s.keys)
    ensures var k := s.keys;
            var sg := s.g == k.gacc;
            Mul(c, s.e, Flip(c, s.g, k.q)) ==
            c.add(c.add(Mul(c, s.e * k.coef(k.pkA), Flip(c, sg, k.pkA)), Mul(c, s.e * k.coef(k.pkB), Flip(c, sg, k.pkB))),
                  MulG(c, s.e * FlipN(c, s.g, k.tacc)))
  {
    var k := s.keys;
    var sg := s.g == k.gacc;
    var inner := Aggregate(c, k.coef, k.pkA, k.pkB);
    FlipAdd(c, s.g, Flip(c, k.gacc, inner), MulG(c, k.tacc));
    NegNeg(c, inner);
    MulGFlip(c, s.g, k.tacc);
    MulDist(c, s.e, Flip(c, sg, inner), MulG(c, FlipN(c, s.g, k.tacc)));
    MulGMul(c, s.e, FlipN(c, s.g, k.tacc));
    FlipAdd(c, sg, Mul(c, k.coef(k.pkA), k.pkA), Mul(c, k.coef(k.pkB), k.pkB));
    MulNegPoint(c, k.coef(k.pkA), k.pkA);
    MulNegPoint(c, k.coef(k.pkB), k.pkB);
    MulDist(c, s.e, Mul(c, k.coef(k.pkA), Flip(c, sg, k.pkA)), Mul(c, k.coef(k.pkB), Flip(c, sg, k.pkB)));
    MulMul(c, s.e, k.coef(k.pkA), Flip(c, sg, k.pkA));
    MulMul(c, s.e, k.coef(k.pkB), Flip(c, sg, k.pkB));
  }

  /** The scalars of two halves and a tweak, against the points they stand for. */
  lemma HalvesAddUp<P(!new)>(c: Curve<P>, tw: int, sA: nat, sB: nat, nA: P, nB: P, kA: P, kB: P)
    requires Laws(c) && MulG(c, sA) == c.add(nA, kA) && MulG(c, sB) == c.add(nB, kB)
    ensures MulG(c, tw + sA + sB) == c.add(c.add(nA, nB), c.add(c.add(kA, kB), MulG(c, tw)))
  {
    MulGAdd(c, tw + sA, sB);
    MulGAdd(c, tw, sA);
    Assoc(c, MulG(c, tw), MulG(c, sA), MulG(c, sB));
    Swap4(c, nA, kA, nB, kB);
    Comm(c, MulG(c, tw), c.add(c.add(nA, nB), c.add(kA, kB)));
    Assoc(c, c.add(nA, nB), c.add(kA, kB), MulG(c, tw));
  }

  /** The aggregate as the sum of what each half stands for. */
  lemma AggregateTerms<P(!new)>(
    c: Curve<P>, s: Session<P>, pnA: PubNonce<P>, pnB: PubNonce<P>, psigA: nat, psigB: nat)
    requires Laws(c)
    requires PartialVerify(c, s, psigA, pnA, s.keys.pkA) && PartialVerify(c, s, psigB, pnB, s.keys.pkB)
    ensures var k, sg := s.keys, s.g == s.keys.gacc;
            MulG(c, PartialAgg(c, s, psigA, psigB)) ==
            c.add(c.add(Flip(c, s.sigma, NonceSum(c, s.b, pnA)), Flip(c, s.sigma, NonceSum(c, s.b, pnB))),
                  c.add(c.add(Mul(c, s.e * k.coef(k.pkA), Flip(c, sg, k.pkA)), Mul(c, s.e * k.coef(k.pkB), Flip(c, sg, k.pkB))),
                        MulG(c, s.e * FlipN(c, s.g, k.tacc))))
  {
    var k, sg := s.keys, s.g == s.keys.gacc;
    HalvesAddUp(c, s.e * FlipN(c, s.g, k.tacc), psigA, psigB,
                Flip(c, s.sigma, NonceSum(c, s.b, pnA)), Flip(c, s.sigma, NonceSum(c, s.b, pnB)),
                Mul(c, s.e * k.coef(k.pkA), Flip(c, sg, k.pkA)), Mul(c, s.e * k.coef(k.pkB), Flip(c, sg, k.pkB)));
  }

  /** The aggregate of two checked halves stands for the signed sum of their nonces plus e·g·Q. */
  lemma AggregatePoint<P(!new)>(
    c: Curve<P>, s: Session<P>, pnA: PubNonce<P>, pnB: PubNonce<P>, psigA: nat, psigB: nat)
    requires Laws(c) && KeysOk(c, s.keys)
    requires PartialVerify(c, s, psigA, pnA, s.keys.pkA) && PartialVerify(c, s, psigB, pnB, s.keys.pkB)
    ensures MulG(c, PartialAgg(c, s, psigA, psigB)) ==
            c.add(Flip(c, s.sigma, NonceSum(c, s.b, (c.add(pnA.0, pnB.0), c.add(pnA.1, pnB.1)))),
                  Mul(c, s.e, Flip(c, s.g, s.keys.q)))
  {
    AggregateTerms(c, s, pnA, pnB, psigA, psigB);
    FlipAdd(c, s.sigma, NonceSum(c, s.b, pnA), NonceSum(c, s.b, pnB));
    NonceSums(c, s.b, pnA, pnB);
    KeyTerms(c, s);
  }

  /** Two halves that each pass their check make a pre-signature that passes its own, unless the
      two nonces cancelled and the session fell back to G as its nonce point. */
  lemma PartialsGivePreSignature<P(!new)>(
    c: Curve<P>, hb: NonceCoef<P>, h: A.Challenge, keys: Keys<P>,
    pnA: PubNonce<P>, pnB: PubNonce<P>, msg: int, t: P, psigA: nat, psigB: nat)
    requires Laws(c) && KeysOk(c, keys)
    requires MakeSession(c, hb, h, keys, pnA, pnB, msg, t).Ok?
    requires var s := MakeSession(c, hb, h, keys, pnA, pnB, msg, t).value;
             PartialVerify(c, s, psigA, pnA, keys.pkA) && PartialVerify(c, s, psigB, pnB, keys.pkB)
    ensures var s := MakeSession(c, hb, h, keys, pnA, pnB, msg, t).value;
            PreVerify(c, s, PartialAgg(c, s, psigA, psigB)) <==>
            NonceSum(c, s.b, (c.add(pnA.0, pnB.0), c.add(pnA.1, pnB.1))) != c.zero
  {
    var s := MakeSession(c, hb, h, keys, pnA, pnB, msg, t).value;
    var sum := NonceSum(c, s.b, (c.add(pnA.0, pnB.0), c.add(pnA.1, pnB.1)));
    AggregatePoint(c, s, pnA, pnB, psigA, psigB);
    if sum == c.zero {
      NoFallback(c, s.sigma, Mul(c, s.e, Flip(c, s.g, keys.q)));
    }
  }

  /** The signed zero and the signed generator stay apart under any shift. */
  lemma NoFallback<P(!new)>(c: Curve<P>, sigma: bool, key: P)
    requires Laws(c)
    ensures c.add(Flip(c, sigma, c.zero), key) != c.add(Flip(c, sigma, c.g), key)
  {
    GeneratorNotZero(c);
    AddSub(c, Flip(c, sigma, c.zero), key);
    AddSub(c, Flip(c, sigma, c.g), key);
    NegNeg(c, c.g);
    NegNeg(c, c.zero);
  }

  lemma GeneratorNotZero<P(!new)>(c: Curve<P>)
    requires Laws(c)
    ensures c.g != c.zero
  {
    MulOne(c, c.g);
    assert Mul(c, 1, c.g) != c.zero;
  }

  /** A session's pre-signature check is the single-signer one, under the aggregate key. */
  lemma PreVerifyIsVerifyPresign<P(!new)>(
    c: Curve<P>, hb: NonceCoef<P>, h: A.Challenge, keys: Keys<P>,
    pnA: PubNonce<P>, pnB: PubNonce<P>, msg: int, t: P, sPre: nat)
    requires Laws(c) && keys.q != c.zero
    requires MakeSession(c, hb, h, keys, pnA, pnB, msg, t).Ok?
    ensures var s := MakeSession(c, hb, h, keys, pnA, pnB, msg, t).value;
            PreVerify(c, s, sPre) <==> A.VerifyPresign(c, h, c.x(keys.q), msg, s.r, t, sPre)
  {
    assert At(keys.q, keys.q, keys.q);
    assert c.lift(c.x(keys.q)) == Some(Flip(c, c.even(keys.q), keys.q));
  }

  /** The pre-signature adapted with t is a BIP-340 signature under the output key. */
  lemma AdaptedSignatureVerifies<P(!new)>(
    c: Curve<P>, hb: NonceCoef<P>, h: A.Challenge, keys: Keys<P>,
    pnA: PubNonce<P>, pnB: PubNonce<P>, msg: int, tPoint: P, sPre: nat, t: nat)
    requires Laws(c) && keys.q != c.zero
    requires MakeSession(c, hb, h, keys, pnA, pnB, msg, tPoint).Ok?
    requires PreVerify(c, MakeSession(c, hb, h, keys, pnA, pnB, msg, tPoint).value, sPre)
    requires MulG(c, t) == tPoint
    ensures var s := MakeSession(c, hb, h, keys, pnA, pnB, msg, tPoint).value;
            Adapt(c, s, sPre, t).Ok? &&
            var sig := Adapt(c, s, sPre, t).value;
            A.VerifySchnorr(c, h, c.x(keys.q), msg, sig.0, sig.1)
  {
    var s := MakeSession(c, hb, h, keys, pnA, pnB, msg, tPoint).value;
    PreVerifyIsVerifyPresign(c, hb, h, keys, pnA, pnB, msg, tPoint, sPre);
    A.CompletionVerifies(c, h, c.x(keys.q), msg, s.r, tPoint, sPre, t);
  }

  /** Any BIP-340 signature under the session's nonce, however made, gives the discrete logarithm
      of T to whoever holds the pre-signature. */
  lemma SignatureGivesSecret<P(!new)>(
    c: Curve<P>, hb: NonceCoef<P>, h: A.Challenge, keys: Keys<P>,
    pnA: PubNonce<P>, pnB: PubNonce<P>, msg: int, tPoint: P, sPre: nat, z: nat)
    requires Laws(c) && keys.q != c.zero && tPoint != c.zero
    requires MakeSession(c, hb, h, keys, pnA, pnB, msg, tPoint).Ok?
    requires PreVerify(c, MakeSession(c, hb, h, keys, pnA, pnB, msg, tPoint).value, sPre)
    requires var s := MakeSession(c, hb, h, keys, pnA, pnB, msg, tPoint).value;
             A.VerifySchnorr(c, h, c.x(keys.q), msg, c.x(s.rf), z)
    ensures var s := MakeSession(c, hb, h, keys, pnA, pnB, msg, tPoint).value;
            var t := ExtractSecret(c, s, sPre, (c.x(s.rf), z));
            t.Some? && MulG(c, t.value) == tPoint
  {
    var s := MakeSession(c, hb, h, keys, pnA, pnB, msg, tPoint).value;
    PreVerifyIsVerifyPresign(c, hb, h, keys, pnA, pnB, msg, tPoint, sPre);
    A.SignatureRevealsSecret(c, h, c.x(keys.q), msg, s.r, tPoint, sPre, z);
  }

  /** Reading back what was adapted, for every secret and parity: the arithmetic alone. */
  lemma ExtractAdapted<P(!new)>(c: Curve<P>, s: Session<P>, sPre: nat, t: nat)
    requires Laws(c) && sPre < c.n && s.sigma == c.even(c.add(s.r, s.t)) && MulG(c, t) == s.t && s.t != c.zero
    ensures Adapt(c, s, sPre, t).Ok?
    ensures ExtractSecret(c, s, sPre, Adapt(c, s, sPre, t).value) == Some(ModN(c, t))
  {
    A.ExtractCompletes(c, sPre, t, s.r, s.t);
  }
}
