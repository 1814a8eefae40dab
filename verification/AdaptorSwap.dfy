/** The two-leg swap over the adaptor primitives (dapp/adaptor-swap.js), each leg in either lane. */
module AdaptorSwap {
  import opened Wrappers
  import opened CurveGroup
  import opened AdaptorSignature
  import Remainder

  datatype Role = Initiator | Responder

  datatype State = Open | Locked | Claimed | Settled

  /** The curve and hashes one swap uses, the secret and the point it is locked to. */
  datatype Terms<!P(==)> = Terms(c: Curve<P>, h: Challenge, hk: KernelChallenge<P>, t: int, tPoint: P)

  /** What a party locks its leg with; `nonce` is the explicit or derived one. */
  datatype LegKey<!P> =
    | BitcoinKey(d: int, msg: int, nonce: int)
    | EvmKey(excess: int, ins: seq<P>, outs: seq<P>, nonce: int)

  datatype Leg<!P> =
    | BitcoinLeg(r: P, rxPub: int, px: int, sTilde: nat, msg: int)
    | EvmLeg(r: P, sTilde: nat, ins: seq<P>, outs: seq<P>)

  /** A completed leg: the scalar it publishes. */
  type Scalar = nat

  function LegOf<P(==)>(x: Terms<P>, key: LegKey<P>): Result<Leg<P>>
    requires x.c.n > 2
  {
    match key
    case BitcoinKey(d, msg, nonce) =>
      (match Presign(x.c, x.h, d, msg, x.tPoint, nonce)
       case Err(e) => Err(e)
       case Ok(ps) => Ok(BitcoinLeg(ps.r, ps.rxPub, ps.px, ps.sTilde, msg)))
    case EvmKey(excess, ins, outs, nonce) =>
      match KernelPresign(x.c, x.hk, excess, ins, outs, x.tPoint, nonce)
      case Err(e) => Err(e)
      case Ok(ps) => Ok(EvmLeg(ps.0, ps.1, ins, outs))
  }

  predicate VerifyLeg<P(==)>(x: Terms<P>, leg: Leg<P>)
    requires x.c.n > 2
  {
    match leg
    case BitcoinLeg(r, _, px, sTilde, msg) => VerifyPresign(x.c, x.h, px, msg, r, x.tPoint, sTilde)
    case EvmLeg(r, sTilde, ins, outs) => KernelVerifyPresign(x.c, x.hk, ins, outs, r, x.tPoint, sTilde)
  }

  function CompleteLeg<P(==)>(x: Terms<P>, leg: Leg<P>, t: int): Scalar
    requires x.c.n > 2
  {
    match leg
    case BitcoinLeg(r, _, _, sTilde, _) => Complete(x.c, sTilde, t, r, x.tPoint)
    case EvmLeg(_, sTilde, _, _) => KernelComplete(x.c, sTilde, t)
  }

  function ExtractLeg<P(==)>(x: Terms<P>, leg: Leg<P>, s: Scalar): nat
    requires x.c.n > 2
  {
    match leg
    case BitcoinLeg(r, _, _, sTilde, _) => Extract(x.c, sTilde, s, r, x.tPoint)
    case EvmLeg(_, sTilde, _, _) => KernelExtract(x.c, sTilde, s)
  }

  /** What the leg's own chain checks of the published scalar. */
  predicate Settles<P(==)>(x: Terms<P>, leg: Leg<P>, s: Scalar)
    requires x.c.n > 2
  {
    match leg
    case BitcoinLeg(_, rxPub, px, _, msg) => VerifySchnorr(x.c, x.h, px, msg, rxPub, s)
    case EvmLeg(r, _, ins, outs) => VerifyKernel(x.c, x.hk, ins, outs, x.c.add(r, x.tPoint), s)
  }

  /** A Bitcoin nonce that cancels T has no published nonce point, so its leg cannot settle. */
  predicate Completable<P(==)>(x: Terms<P>, leg: Leg<P>) {
    leg.BitcoinLeg? ==> x.c.add(leg.r, x.tPoint) != x.c.zero && leg.rxPub == x.c.x(x.c.add(leg.r, x.tPoint))
  }

  ghost predicate TermsOk<P(!new)>(x: Terms<P>) {
    Laws(x.c) && 0 <= x.t < x.c.n && x.tPoint == MulG(x.c, x.t)
  }

  /** The key really controls what it signs for: a non-zero key, or the true excess of the kernel. */
  ghost predicate Honest<P(!new)>(x: Terms<P>, key: LegKey<P>)
    requires x.c.n > 2
  {
    match key
    case BitcoinKey(d, _, _) => ModN(x.c, d) != 0
    case EvmKey(excess, ins, outs, _) => KernelKey(x.c, ins, outs) == MulG(x.c, excess)
  }

  /** An honestly locked leg passes the counterparty's check, in either lane. */
  lemma HonestLegVerifies<P(!new)>(x: Terms<P>, key: LegKey<P>)
    requires TermsOk(x) && Honest(x, key)
    ensures LegOf(x, key).Ok? <==> ModN(x.c, key.nonce) != 0
    ensures LegOf(x, key).Ok? ==> VerifyLeg(x, LegOf(x, key).value)
  {
    match key
    case BitcoinKey(d, msg, nonce) => PresignVerifies(x.c, x.h, d, msg, x.tPoint, nonce);
    case EvmKey(excess, ins, outs, nonce) => KernelPresignVerifies(x.c, x.hk, excess, ins, outs, x.tPoint, nonce);
  }

  /** A checked leg settles with t, whoever made it. */
  lemma CheckedLegSettles<P(!new)>(x: Terms<P>, leg: Leg<P>)
    requires TermsOk(x) && VerifyLeg(x, leg) && Completable(x, leg)
    ensures Settles(x, leg, CompleteLeg(x, leg, x.t))
  {
    match leg
    case BitcoinLeg(r, _, px, sTilde, msg) => CompletionVerifies(x.c, x.h, px, msg, r, x.tPoint, sTilde, x.t);
    case EvmLeg(r, sTilde, ins, outs) => KernelCompletionVerifies(x.c, x.hk, ins, outs, r, x.tPoint, sTilde, x.t);
  }

  /** Whatever scalar settles a checked leg tells its owner t. */
  lemma SettlementReveals<P(!new)>(x: Terms<P>, leg: Leg<P>, s: Scalar)
    requires TermsOk(x) && VerifyLeg(x, leg) && Completable(x, leg) && Settles(x, leg, s)
    ensures ExtractLeg(x, leg, s) == x.t
  {
    match leg
    case BitcoinLeg(r, _, px, sTilde, msg) =>
      SignatureRevealsSecret(x.c, x.h, px, msg, r, x.tPoint, sTilde, s);
      GeneratorInjective(x.c, ExtractLeg(x, leg, s), x.t);
    case EvmLeg(r, sTilde, ins, outs) =>
      KernelRevealsSecret(x.c, x.hk, ins, outs, r, x.tPoint, sTilde, s);
      GeneratorInjective(x.c, ExtractLeg(x, leg, s), x.t);
  }

  /** Atomicity in all four pairings of lanes: once both legs are locked and checked, any settlement
      of the responder's leg lets the responder settle the initiator's. */
  lemma SettlingOneSettlesTheOther<P(!new)>(x: Terms<P>, initiator: Leg<P>, responder: Leg<P>, s: Scalar)
    requires TermsOk(x) && VerifyLeg(x, initiator) && VerifyLeg(x, responder)
    requires Completable(x, initiator) && Completable(x, responder)
    requires Settles(x, responder, s)
    ensures Settles(x, initiator, CompleteLeg(x, initiator, ExtractLeg(x, responder, s)))
  {
    SettlementReveals(x, responder, s);
    CheckedLegSettles(x, initiator);
  }

  /** Two locked legs sign under one nonce point exactly when their nonces are equal modulo n. `lock` compares them as they
      are given, so what it lets through is kept apart for nonces under n, which the derived ones are. */
  lemma NonceGuardExactly<P(!new)>(x: Terms<P>, first: LegKey<P>, second: LegKey<P>)
    requires TermsOk(x) && LegOf(x, first).Ok? && LegOf(x, second).Ok?
    ensures LegOf(x, first).value.r == LegOf(x, second).value.r <==> ModN(x.c, first.nonce) == ModN(x.c, second.nonce)
    ensures 0 <= first.nonce < x.c.n && 0 <= second.nonce < x.c.n && first.nonce != second.nonce ==>
              LegOf(x, first).value.r != LegOf(x, second).value.r
  {
    var k1, k2 := ModN(x.c, first.nonce), ModN(x.c, second.nonce);
    assert LegOf(x, first).value.r == MulG(x.c, k1);
    assert LegOf(x, second).value.r == MulG(x.c, k2);
    GeneratorInjective(x.c, k1, k2);
  }

  /** And a nonce given once as it is and once with n added is let through for both legs, under the same nonce point. */
  lemma ShiftedNonceIsReused<P(!new)>(x: Terms<P>, first: LegKey<P>, second: LegKey<P>)
    requires TermsOk(x) && LegOf(x, first).Ok? && second.nonce == first.nonce + x.c.n
    ensures second.nonce !in {first.nonce}
    ensures LegOf(x, second).Ok? && LegOf(x, second).value.r == LegOf(x, first).value.r
  {
    Remainder.ModShift(first.nonce, x.c.n);
    assert ModN(x.c, second.nonce) == ModN(x.c, first.nonce);
  }

  /** The swap's context, changed by `lock`, `claim` and `counterclaim`. */
  class Swap<P(==,!new)> {
    const x: Terms<P>
    const near: int
    const far: int
    var state: State
    var legs: map<Role, Leg<P>>
    var nonces: set<int>

    constructor Start(x: Terms<P>, near: int, far: int)
      ensures this.x == x && this.near == near && this.far == far
      ensures state == Open && legs == map[] && nonces == {}
    {
      this.x := x;
      this.near := near;
      this.far := far;
      state, legs, nonces := Open, map[], {};
    }

    /** `open`: the responder's window must be the longer one, by the required gap. */
    static method OpenSwap(x: Terms<P>, near: int, far: int, minGap: int) returns (r: Result<Swap<P>>)
      ensures r.Ok? <==> far > near && (minGap > 0 ==> far - near >= minGap)
      ensures r.Ok? ==> fresh(r.value) && r.value.x == x && r.value.near == near && r.value.far == far
                        && r.value.state == Open && r.value.legs == map[] && r.value.nonces == {}
    {
      if far <= near {
        return Err("adaptor-swap: farDeadline must exceed nearDeadline");
      }
      if minGap > 0 && far - near < minGap {
        return Err("adaptor-swap: far/near gap below minimum confirmation buffer");
      }
      var s := new Swap<P>.Start(x, near, far);
      r := Ok(s);
    }

    /** `lock`: a nonce seen before is refused; a refused pre-signature still leaves its nonce used. */
    method Lock(role: Role, key: LegKey<P>) returns (r: Result<Leg<P>>)
      requires x.c.n > 2
      modifies this
      ensures r.Ok? <==> key.nonce !in old(nonces) && LegOf(x, key).Ok?
      ensures nonces == old(nonces) + {key.nonce}
      ensures r.Ok? ==> r == LegOf(x, key) && legs == old(legs)[role := r.value]
      ensures r.Ok? ==> state == if Initiator in legs && Responder in legs then Locked else old(state)
      ensures r.Err? ==> legs == old(legs) && state == old(state)
    {
      if key.nonce in nonces {
        return Err("adaptor-swap: nonce reuse across legs leaks the excess key");
      }
      nonces := nonces + {key.nonce};
      r := LegOf(x, key);
      if r.Ok? {
        legs := legs[role := r.value];
        if Initiator in legs && Responder in legs {
          state := Locked;
        }
      }
    }

    predicate Ready()
      requires x.c.n > 2
      reads this
    {
      && state == Locked && Initiator in legs && Responder in legs
      && VerifyLeg(x, legs[Initiator]) && VerifyLeg(x, legs[Responder])
    }

    /** `claim`: the initiator settles the responder's leg, which publishes t. */
    method Claim() returns (r: Result<Scalar>)
      requires TermsOk(x)
      modifies this`state
      ensures r.Ok? <==> old(Ready())
      ensures r.Ok? ==> state == Claimed
      ensures r.Ok? && Completable(x, legs[Responder]) ==> Settles(x, legs[Responder], r.value)
      ensures r.Err? ==> state == old(state)
    {
      if !Ready() {
        return Err("adaptor-swap: both legs must be locked + verified before claim");
      }
      state := Claimed;
      r := Ok(CompleteLeg(x, legs[Responder], x.t));
      if Completable(x, legs[Responder]) {
        CheckedLegSettles(x, legs[Responder]);
      }
    }

    /** `counterclaim`: the responder reads t from any settlement of its leg, and settles the
        initiator's with it. */
    method Counterclaim(s: Scalar) returns (r: Result<(nat, Scalar)>)
      requires TermsOk(x)
      modifies this`state
      ensures r.Ok? <==> Initiator in legs && Responder in legs
      ensures r.Ok? ==> state == Settled
      ensures r.Err? ==> state == old(state)
      ensures r.Ok? && VerifyLeg(x, legs[Initiator]) && VerifyLeg(x, legs[Responder])
              && Completable(x, legs[Initiator]) && Completable(x, legs[Responder])
              && Settles(x, legs[Responder], s) ==>
                r.value.0 == x.t && Settles(x, legs[Initiator], r.value.1)
    {
      if Initiator !in legs || Responder !in legs {
        return Err("adaptor-swap: a leg is missing");
      }
      var t := ExtractLeg(x, legs[Responder], s);
      state := Settled;
      r := Ok((t, CompleteLeg(x, legs[Initiator], t)));
      if VerifyLeg(x, legs[Initiator]) && VerifyLeg(x, legs[Responder])
         && Completable(x, legs[Initiator]) && Completable(x, legs[Responder]) && Settles(x, legs[Responder], s) {
        SettlementReveals(x, legs[Responder], s);
        SettlingOneSettlesTheOther(x, legs[Initiator], legs[Responder], s);
      }
    }
  }
}
