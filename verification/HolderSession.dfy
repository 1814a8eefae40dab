/** The holder's half of the claim's signature (dapp/btcswap-holder.js, phase claiming): the sighash, the
    secret nonce and the desk's nonce are each stored before they are signed with, so a crash before the
    save signs the same thing again. */
module HolderSession {
  import opened Wrappers
  import opened CurveGroup
  import opened Musig2
  import opened SigningSessions
  import A = AdaptorSignature

  /** The fields of the claim that signing reads and writes; `sec` goes when `psig` comes, and `sig` is the
      signature of the completed transaction. */
  datatype Claim<!P(==)> = Claim(
    sighash: Option<int>, nonce: Option<PubNonce<P>>, sec: Option<SecNonce>, deskNonce: Option<PubNonce<P>>,
    psig: Option<nat>, sig: Option<Sig>)

  function NoClaim<P(==)>(): Claim<P> {
    Claim(None, None, None, None, None, None)
  }

  /** The holder's key and its swap secret. */
  datatype Secrets = Secrets(d: nat, t: nat)

  /** What a step is handed: the sighash of a newly built claim, a fresh secret nonce, the desk's two answers,
      and whether time has run out. */
  datatype Input<!P(==)> = Input(
    sighash: int, sec: SecNonce, deskNonce: Option<PubNonce<P>>, deskHalf: Option<nat>, tooLate: bool)

  function SessionFor<P(==)>(x: Ctx<P>, r: Claim<P>): Result<Session<P>>
    requires x.c.n > 2
  {
    if r.nonce.None? || r.deskNonce.None? || r.sighash.None? then Err("nothing to sign yet")
    else MakeSession(x.c, x.hb, x.h, x.keys, r.nonce.value, r.deskNonce.value, r.sighash.value, x.t)
  }

  /** Whether this step signs. */
  predicate Signs<P(==)>(x: Ctx<P>, r: Claim<P>, i: Input<P>)
    requires x.c.n > 2
  {
    SessionFor(x, r).Ok? && r.psig.None? && !i.tooLate && r.sec.Some?
  }

  /** Whether a half of the desk's passes the holder's checks: the half itself, and the pre-signature the two make. */
  predicate HalfPasses<P(==)>(x: Ctx<P>, r: Claim<P>, half: nat)
    requires x.c.n > 2
  {
    && SessionFor(x, r).Ok? && r.psig.Some?
    && var s := SessionFor(x, r).value;
       && PartialVerify(x.c, s, half, r.deskNonce.value, x.deskPk)
       && PreVerify(x.c, s, PartialAgg(x.c, s, r.psig.value, half))
  }

  /** The claim's signature from a half that passed, refused when the secret does not open T. */
  function Completed<P(==)>(x: Ctx<P>, me: Secrets, r: Claim<P>, half: nat): Result<Sig>
    requires x.c.n > 2 && HalfPasses(x, r, half)
  {
    var s := SessionFor(x, r).value;
    Adapt(x.c, s, PartialAgg(x.c, s, r.psig.value, half), me.t)
  }

  /** Whether this step completes the claim. */
  predicate Completes<P(==)>(x: Ctx<P>, me: Secrets, r: Claim<P>, i: Input<P>)
    requires x.c.n > 2
  {
    i.deskHalf.Some? && r.sig.None? && HalfPasses(x, r, i.deskHalf.value) && Completed(x, me, r, i.deskHalf.value).Ok?
  }

  /** The claim stored after one step of the signing. */
  function Step<P(==)>(x: Ctx<P>, me: Secrets, r: Claim<P>, i: Input<P>): Claim<P>
    requires x.c.n > 2
  {
    if r.sighash.None? then (if i.tooLate then r else r.(sighash := Some(i.sighash)))
    else if r.nonce.None? then r.(nonce := Some(PubOf(x.c, i.sec)), sec := Some(i.sec))
    else if r.deskNonce.None? then r.(deskNonce := i.deskNonce)
    else if Signs(x, r, i) then
      r.(psig := Some(PartialSign(x.c, SessionFor(x, r).value, r.sec.value, me.d, x.holderPk)), sec := None)
    else if Completes(x, me, r, i) then r.(sig := Some(Completed(x, me, r, i.deskHalf.value).value))
    else r
  }

  /** The record as an object. */
  class HolderSigner<P(==,!new)> {
    const x: Ctx<P>
    const me: Secrets
    var claim: Claim<P>

    constructor (x: Ctx<P>, me: Secrets)
      ensures this.x == x && this.me == me && claim == NoClaim()
    {
      this.x, this.me := x, me;
      claim := NoClaim();
    }

    method Advance(i: Input<P>)
      requires x.c.n > 2
      modifies this
      ensures claim == Step(x, me, old(claim), i)
    {
      if claim.sighash.None? {
        if !i.tooLate {
          claim := claim.(sighash := Some(i.sighash));
        }
        return;
      }
      if claim.nonce.None? {
        claim := claim.(nonce := Some(PubOf(x.c, i.sec)), sec := Some(i.sec));
        return;
      }
      if claim.deskNonce.None? {
        claim := claim.(deskNonce := i.deskNonce);
        return;
      }
      var sess := SessionFor(x, claim);
      if sess.Err? {
        return;
      }
      if claim.psig.None? {
        if !i.tooLate && claim.sec.Some? {
          var psig := PartialSign(x.c, sess.value, claim.sec.value, me.d, x.holderPk);
          claim := claim.(psig := Some(psig), sec := None);
        }
        return;
      }
      if claim.sig.Some? || i.deskHalf.None? || !PartialVerify(x.c, sess.value, i.deskHalf.value, claim.deskNonce.value, x.deskPk) {
        return;
      }
      var sPre := PartialAgg(x.c, sess.value, claim.psig.value, i.deskHalf.value);
      if PreVerify(x.c, sess.value, sPre) {
        var sig := Adapt(x.c, sess.value, sPre, me.t);
        if sig.Ok? {
          claim := claim.(sig := Some(sig.value));
        }
      }
    }
  }

  // ----- whole runs

  /** The stored claim and every evaluation of `partialSign` there has been. */
  datatype History<!P(==)> = History(claim: Claim<P>, uses: set<Use<P>>)

  /** A step that completes, or crashes before its save. */
  datatype Event<!P(==)> = Event(input: Input<P>, saved: bool)

  function UseOf<P(==)>(r: Claim<P>): Use<P>
    requires r.sec.Some? && r.sighash.Some? && r.nonce.Some? && r.deskNonce.Some?
  {
    Use(r.sec.value, r.sighash.value, r.nonce.value, r.deskNonce.value)
  }

  function Handle<P(==)>(x: Ctx<P>, me: Secrets, r: History<P>, e: Event<P>): History<P>
    requires x.c.n > 2
  {
    History(if e.saved then Step(x, me, r.claim, e.input) else r.claim,
        if Signs(x, r.claim, e.input) then r.uses + {UseOf(r.claim)} else r.uses)
  }

  function RunAll<P(==)>(x: Ctx<P>, me: Secrets, es: seq<Event<P>>): History<P>
    requires x.c.n > 2
  {
    if es == [] then History(NoClaim(), {})
    else Handle(x, me, RunAll(x, me, es[..|es| - 1]), es[|es| - 1])
  }

  /** Nothing is signed until sighash, nonce and desk nonce are stored, and then only that. */
  ghost predicate Inv<P(!new)>(x: Ctx<P>, r: History<P>)
    requires x.c.n > 2
  {
    var m := r.claim;
    && (m.nonce.Some? ==> m.sighash.Some?)
    && (m.deskNonce.Some? ==> m.nonce.Some?)
    && (m.sec.Some? ==> m.nonce == Some(PubOf(x.c, m.sec.value)))
    && (m.nonce.Some? ==> (m.sec.Some? <==> m.psig.None?))
    && (m.nonce.None? ==> m.sec.None? && m.psig.None?)
    && (m.deskNonce.None? ==> r.uses == {} && m.psig.None?)
    && (m.deskNonce.Some? && m.psig.None? ==> r.uses <= {UseOf(m)})
    && (m.psig.Some? ==> exists u :: r.uses == {u})
    && (m.psig.None? ==> m.sig.None?)
  }

  lemma HandleKeeps<P(!new)>(x: Ctx<P>, me: Secrets, r: History<P>, e: Event<P>)
    requires x.c.n > 2 && Inv(x, r)
    ensures Inv(x, Handle(x, me, r, e))
  {
    if Signs(x, r.claim, e.input) {
      assert Handle(x, me, r, e).uses == {UseOf(r.claim)};
    }
  }

  lemma {:induction false} RunKeepsInv<P(!new)>(x: Ctx<P>, me: Secrets, es: seq<Event<P>>)
    requires x.c.n > 2
    ensures Inv(x, RunAll(x, me, es))
  {
    if es != [] {
      RunKeepsInv(x, me, es[..|es| - 1]);
      HandleKeeps(x, me, RunAll(x, me, es[..|es| - 1]), es[|es| - 1]);
    }
  }

  /** Over any steps, desk answers and crashes, the holder signs one message under one nonce pair with one
      secret nonce, and the secret is gone once the half is stored. */
  lemma HolderSignsOnce<P(!new)>(x: Ctx<P>, me: Secrets, es: seq<Event<P>>)
    requires x.c.n > 2
    ensures var r := RunAll(x, me, es);
            && (forall u, v :: u in r.uses && v in r.uses ==> u == v)
            && (r.claim.psig.Some? ==> r.claim.sec.None?)
  {
    RunKeepsInv(x, me, es);
  }

  /** A completed claim: its signature is a valid one for the lock's key, made from a half that passed. */
  ghost predicate CompletedOk<P(!new)>(x: Ctx<P>, r: Claim<P>)
    requires x.c.n > 2
  {
    r.sig.Some? ==>
      && SessionFor(x, r).Ok? && r.sig.value.0 == x.c.x(SessionFor(x, r).value.rf)
      && A.VerifySchnorr(x.c, x.h, x.c.x(x.keys.q), r.sighash.value, r.sig.value.0, r.sig.value.1)
      && exists half :: HalfPasses(x, r, half)
  }

  /** No desk, whatever it answers, makes the holder store a signature that does not verify. */
  lemma StepCompletes<P(!new)>(x: Ctx<P>, me: Secrets, r: Claim<P>, i: Input<P>)
    requires CtxOk(x) && CompletedOk(x, r) && (r.psig.None? ==> r.sig.None?)
    ensures CompletedOk(x, Step(x, me, r, i))
  {
    var r' := Step(x, me, r, i);
    if r.sig.Some? {
      var half :| HalfPasses(x, r, half);
      assert r' == r;
    } else if Completes(x, me, r, i) && r'.sig.Some? {
      var half, s := i.deskHalf.value, SessionFor(x, r).value;
      assert SessionFor(x, r') == SessionFor(x, r);
      assert HalfPasses(x, r', half);
      AdaptedSignatureVerifies(x.c, x.hb, x.h, x.keys, r.nonce.value, r.deskNonce.value, r.sighash.value, x.t,
                               PartialAgg(x.c, s, r.psig.value, half), me.t);
    }
  }

  // ----- both halves together

  /** The two orders in which the sorted keys may come. */
  ghost predicate KeysOf<P(!new)>(x: Ctx<P>) {
    || (x.keys.pkA == x.holderPk && x.keys.pkB == x.deskPk)
    || (x.keys.pkA == x.deskPk && x.keys.pkB == x.holderPk)
  }

  lemma SessionOrder<P(!new)>(x: Ctx<P>, pnA: PubNonce<P>, pnB: PubNonce<P>, msg: int)
    requires Laws(x.c)
    ensures MakeSession(x.c, x.hb, x.h, x.keys, pnA, pnB, msg, x.t) == MakeSession(x.c, x.hb, x.h, x.keys, pnB, pnA, msg, x.t)
  {
    Comm(x.c, pnA.0, pnB.0);
    Comm(x.c, pnA.1, pnB.1);
  }

  /** Two checked halves, whichever key sorts first, give a pre-signature that checks. */
  lemma HalvesPreVerify<P(!new)>(x: Ctx<P>, pnH: PubNonce<P>, pnD: PubNonce<P>, msg: int, psigH: nat, psigD: nat)
    requires CtxOk(x) && KeysOk(x.c, x.keys) && KeysOf(x)
    requires MakeSession(x.c, x.hb, x.h, x.keys, pnH, pnD, msg, x.t).Ok?
    requires var s := MakeSession(x.c, x.hb, x.h, x.keys, pnH, pnD, msg, x.t).value;
             && PartialVerify(x.c, s, psigH, pnH, x.holderPk) && PartialVerify(x.c, s, psigD, pnD, x.deskPk)
             && NonceSum(x.c, s.b, (x.c.add(pnH.0, pnD.0), x.c.add(pnH.1, pnD.1))) != x.c.zero
    ensures var s := MakeSession(x.c, x.hb, x.h, x.keys, pnH, pnD, msg, x.t).value;
            PreVerify(x.c, s, PartialAgg(x.c, s, psigH, psigD))
  {
    if x.keys.pkA == x.holderPk && x.keys.pkB == x.deskPk {
      PartialsGivePreSignature(x.c, x.hb, x.h, x.keys, pnH, pnD, msg, x.t, psigH, psigD);
    } else {
      SessionOrder(x, pnH, pnD, msg);
      Comm(x.c, pnH.0, pnD.0);
      Comm(x.c, pnH.1, pnD.1);
      PartialsGivePreSignature(x.c, x.hb, x.h, x.keys, pnD, pnH, msg, x.t, psigD, psigH);
      assert PartialAgg(x.c, MakeSession(x.c, x.hb, x.h, x.keys, pnH, pnD, msg, x.t).value, psigH, psigD)
          == PartialAgg(x.c, MakeSession(x.c, x.hb, x.h, x.keys, pnH, pnD, msg, x.t).value, psigD, psigH);
    }
  }

  /** An honest exchange: the desk answers the holder's half with its own, the holder's checks pass, its
      completed signature is a valid one for the lock's key, and from that signature the desk reads t. */
  lemma HonestExchange<P(!new)>(x: Ctx<P>, dH: nat, msg: int, secH: SecNonce, secD: SecNonce, t: nat)
    requires CtxOk(x) && KeysOk(x.c, x.keys) && KeysOf(x)
    requires MulG(x.c, dH) == x.holderPk && MulG(x.c, x.d) == x.deskPk && MulG(x.c, t) == x.t
    requires MakeSession(x.c, x.hb, x.h, x.keys, PubOf(x.c, secH), PubOf(x.c, secD), msg, x.t).Ok?
    requires var pnH, pnD := PubOf(x.c, secH), PubOf(x.c, secD);
             var s := MakeSession(x.c, x.hb, x.h, x.keys, pnH, pnD, msg, x.t).value;
             NonceSum(x.c, s.b, (x.c.add(pnH.0, pnD.0), x.c.add(pnH.1, pnD.1))) != x.c.zero
    ensures var pnH, pnD := PubOf(x.c, secH), PubOf(x.c, secD);
            var s := MakeSession(x.c, x.hb, x.h, x.keys, pnH, pnD, msg, x.t).value;
            var psig := PartialSign(x.c, s, secH, dH, x.holderPk);
            var (ss, reply) := OnSign(x, [Stored(msg, pnH, pnD, Some(secD), None)], pnH, psig, true);
            reply.Half? && PartialVerify(x.c, s, reply.psig, pnD, x.deskPk) &&
            var sPre := PartialAgg(x.c, s, psig, reply.psig);
            PreVerify(x.c, s, sPre) && Adapt(x.c, s, sPre, t).Ok? &&
            var sig := Adapt(x.c, s, sPre, t).value;
            && A.VerifySchnorr(x.c, x.h, x.c.x(x.keys.q), msg, sig.0, sig.1)
            && ExtractFrom(x, ss, sig) == Some(ModN(x.c, t))
  {
    var pnH, pnD := PubOf(x.c, secH), PubOf(x.c, secD);
    var s := MakeSession(x.c, x.hb, x.h, x.keys, pnH, pnD, msg, x.t).value;
    var psig, mine := PartialSign(x.c, s, secH, dH, x.holderPk), PartialSign(x.c, s, secD, x.d, x.deskPk);
    var sPre := PartialAgg(x.c, s, psig, mine);
    PartialSignVerifies(x.c, s, secH, dH, x.holderPk);
    PartialSignVerifies(x.c, s, secD, x.d, x.deskPk);
    HalvesPreVerify(x, pnH, pnD, msg, psig, mine);
    AdaptedSignatureVerifies(x.c, x.hb, x.h, x.keys, pnH, pnD, msg, x.t, sPre, t);
    ExtractAdapted(x.c, s, sPre, t);
    DeskAnswers(x, Stored(msg, pnH, pnD, Some(secD), None), psig);
  }

  /** The holder's four signing steps with an answering desk. */
  function Signing<P(==)>(x: Ctx<P>, me: Secrets, msg: int, sec: SecNonce, deskNonce: PubNonce<P>): Claim<P>
    requires x.c.n > 2
  {
    var i := Input(msg, sec, Some(deskNonce), None, false);
    Step(x, me, Step(x, me, Step(x, me, Step(x, me, NoClaim(), i), i), i), i)
  }

  /** The same exchange as both records run it: the desk's nonce request and sign request, and the holder's steps,
      end with the half stored, its secret gone, and the claim completed by the half the desk answers with. */
  lemma HonestRun<P(!new)>(x: Ctx<P>, me: Secrets, msg: int, secH: SecNonce, secD: SecNonce)
    requires CtxOk(x) && KeysOk(x.c, x.keys) && KeysOf(x) && x.maxSessions > 0
    requires MulG(x.c, me.d) == x.holderPk && MulG(x.c, x.d) == x.deskPk && MulG(x.c, me.t) == x.t
    requires MakeSession(x.c, x.hb, x.h, x.keys, PubOf(x.c, secH), PubOf(x.c, secD), msg, x.t).Ok?
    requires var pnH, pnD := PubOf(x.c, secH), PubOf(x.c, secD);
             var s := MakeSession(x.c, x.hb, x.h, x.keys, pnH, pnD, msg, x.t).value;
             NonceSum(x.c, s.b, (x.c.add(pnH.0, pnD.0), x.c.add(pnH.1, pnD.1))) != x.c.zero
    ensures var (ss, nonce) := OnNonce(x, [], msg, PubOf(x.c, secH), true, secD);
            nonce == Nonce(PubOf(x.c, secD)) &&
            var claim := Signing(x, me, msg, secH, nonce.pub);
            claim.psig.Some? && claim.sec.None? &&
            var half := OnSign(x, ss, claim.nonce.value, claim.psig.value, true).1;
            half.Half? && Step(x, me, claim, Input(msg, secH, None, Some(half.psig), false)).sig.Some?
  {
    var pnH, pnD := PubOf(x.c, secH), PubOf(x.c, secD);
    HonestExchange(x, me.d, msg, secH, secD, me.t);
    assert [] + [Stored(msg, pnH, pnD, Some(secD), None)] == [Stored(msg, pnH, pnD, Some(secD), None)];
    StepsSign(x, me, msg, secH, pnD);
  }

  lemma StepsSign<P(!new)>(x: Ctx<P>, me: Secrets, msg: int, sec: SecNonce, deskNonce: PubNonce<P>)
    requires x.c.n > 2 && MakeSession(x.c, x.hb, x.h, x.keys, PubOf(x.c, sec), deskNonce, msg, x.t).Ok?
    ensures var s := MakeSession(x.c, x.hb, x.h, x.keys, PubOf(x.c, sec), deskNonce, msg, x.t).value;
            Signing(x, me, msg, sec, deskNonce) ==
            Claim(Some(msg), Some(PubOf(x.c, sec)), None, Some(deskNonce), Some(PartialSign(x.c, s, sec, me.d, x.holderPk)), None)
  {
    var i := Input(msg, sec, Some(deskNonce), None, false);
    var c1 := Step(x, me, NoClaim(), i);
    var c2 := Step(x, me, c1, i);
    var c3 := Step(x, me, c2, i);
    assert c3 == Claim(Some(msg), Some(PubOf(x.c, sec)), Some(sec), Some(deskNonce), None, None);
  }

  /** A waiting session answers a checked half with its own, and the secret is read from its pre-signature. */
  lemma DeskAnswers<P(!new)>(x: Ctx<P>, w: Stored<P>, psig: nat)
    requires x.c.n > 2 && w.halves.None? && w.sec.Some? && SessionOf(x, w).Ok?
    requires var s := SessionOf(x, w).value;
             && PartialVerify(x.c, s, psig, w.holderNonce, x.holderPk)
             && PreVerify(x.c, s, PartialAgg(x.c, s, psig, PartialSign(x.c, s, w.sec.value, x.d, x.deskPk)))
    ensures var s := SessionOf(x, w).value;
            var mine := PartialSign(x.c, s, w.sec.value, x.d, x.deskPk);
            var (ss, reply) := OnSign(x, [w], w.holderNonce, psig, true);
            && reply == Half(mine)
            && forall sig {:trigger ExtractFrom(x, ss, sig)} :: ExtractFrom(x, ss, sig) == ExtractSecret(x.c, s, PartialAgg(x.c, s, psig, mine), sig)
  {
    var s := SessionOf(x, w).value;
    var mine := PartialSign(x.c, s, w.sec.value, x.d, x.deskPk);
    var sPre := PartialAgg(x.c, s, psig, mine);
    assert FindNonce([w], w.holderNonce, 0) == 0;
    var ss := OnSign(x, [w], w.holderNonce, psig, true).0;
    assert ss == [w.(sec := None, halves := Some(Halves(psig, mine, sPre)))];
    forall sig ensures ExtractFrom(x, ss, sig) == ExtractSecret(x.c, s, sPre, sig) {
      assert ss[1..] == [];
      assert ExtractFrom(x, ss[1..], sig) == None;
    }
  }
}
