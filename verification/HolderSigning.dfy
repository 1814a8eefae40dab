/** The holder's whole record (dapp/btcswap-holder.js): its phases and its half of the signature in one store. What
    SwapHolder keeps as flags of the claim are the fields signing writes, and the half that completes a claim is one
    that passed the holder's checks. */
module HolderSigning {
  import opened Wrappers
  import opened SwapChain
  import opened CurveGroup
  import opened Musig2
  import A = AdaptorSignature
  import D = DeskSigning
  import H = SwapHolder
  import S = SigningSessions
  import G = HolderSession

  /** The phases' world, and the stored claim with every use of a secret nonce. */
  datatype World<!P(==)> = World(base: H.World, signing: G.History<P>)

  /** A step with what it draws and what the desk answers. */
  datatype Action<!P(==)> =
    | Advance(v: H.View, sighash: int, sec: SecNonce, deskNonce: Option<PubNonce<P>>, deskHalf: Option<nat>, cut: Cut)
    | OtherSends(tx: Tx)
    | NewBlock(b: Block)

  function InputOf<P(==)>(p: Policy, w: World<P>, a: Action<P>): G.Input<P>
    requires a.Advance?
  {
    G.Input(a.sighash, a.sec, a.deskNonce, a.deskHalf, H.TooLate(p, w.base.ch, w.base.rec.deskLockHeight))
  }

  /** Whether a step gets to the signing: the claim is not complete, and the holder's own lock is neither spent nor due. */
  predicate AtSigning(p: Policy, w: H.World, v: H.View) {
    && w.rec.phase.Claiming? && !H.ClaimReady(w.rec)
    && !(H.Unsettled(w.rec) && ((Confirmations(w.ch, HolderLock) != 0 && v.holderSpender.Just?) || H.RefundDue(p, w.ch)))
  }

  /** The view's two answers are the desk's nonce and a half that passes; a session that cannot be made stops the step. */
  predicate Enabled<P(==)>(x: S.Ctx<P>, me: G.Secrets, p: Policy, w: World<P>, a: Action<P>)
    requires x.c.n > 2
  {
    match a
    case Advance(v, _, _, _, _, cut) =>
      && H.Enabled(p, w.base, H.Advance(v, cut))
      && v.nonceGiven == a.deskNonce.Some?
      && v.halfGiven == G.Completes(x, me, w.signing.claim, InputOf(p, w, a))
      && (w.signing.claim.deskNonce.Some? && G.SessionFor(x, w.signing.claim).Err? && AtSigning(p, w.base, v) ==> cut == Nothing)
    case OtherSends(tx) => H.Enabled(p, w.base, H.OtherSends(tx))
    case NewBlock(b) => H.Enabled(p, w.base, H.NewBlock(b))
  }

  function Phases<P(==)>(a: Action<P>): H.Action {
    match a
    case Advance(v, _, _, _, _, cut) => H.Advance(v, cut)
    case OtherSends(tx) => H.OtherSends(tx)
    case NewBlock(b) => H.NewBlock(b)
  }

  /** Every save of the signing is the only one of its step, so a step cut anywhere has not made it. */
  function Next<P(==)>(x: S.Ctx<P>, me: G.Secrets, p: Policy, w: World<P>, a: Action<P>): World<P>
    requires x.c.n > 2
  {
    World(H.Next(p, w.base, Phases(a)),
          if a.Advance? && AtSigning(p, w.base, a.v)
          then G.Handle(x, me, w.signing, G.Event(InputOf(p, w, a), a.cut == Whole)) else w.signing)
  }

  /** The flags of the record are the fields of the claim. */
  predicate Agree<P(==)>(rec: H.Record, claim: G.Claim<P>) {
    && rec.claimBuilt == claim.sighash.Some?
    && rec.nonceDrawn == claim.nonce.Some?
    && rec.deskNonce == claim.deskNonce.Some?
    && rec.halfSigned == claim.psig.Some?
    && rec.complete == claim.sig.Some?
  }

  ghost predicate Inv<P(!new)>(x: S.Ctx<P>, w: World<P>)
    requires x.c.n > 2
  {
    && Agree(w.base.rec, w.signing.claim)
    && G.Inv(x, w.signing)
    && G.CompletedOk(x, w.signing.claim)
  }

  /** Off the signing, a step leaves the parts of the claim alone. */
  lemma OffSigning(p: Policy, w: H.World, v: H.View, cut: Cut)
    requires !AtSigning(p, w, v)
    ensures H.SameClaim(w.rec, H.Next(p, w, H.Advance(v, cut)).rec)
  {
    H.Settled(p, w, v, cut);
  }

  /** At the signing, what a whole step stores is what signing stores. */
  lemma AtSigningAgrees<P(!new)>(x: S.Ctx<P>, me: G.Secrets, p: Policy, w: World<P>, a: Action<P>)
    requires x.c.n > 2 && Inv(x, w) && a.Advance? && Enabled(x, me, p, w, a) && AtSigning(p, w.base, a.v)
    ensures var w' := Next(x, me, p, w, a);
            Agree(w'.base.rec, w'.signing.claim)
  {
    var s := H.Plan(p, w.base.ch, w.base.rec, a.v);
    assert s == H.ClaimSteps(p, w.base.ch, w.base.rec, a.v);
    assert s.before == w.base.rec;
    if a.cut == Whole {
      assert Agree(s.after, G.Step(x, me, w.signing.claim, InputOf(p, w, a)));
    }
  }

  lemma InvStep<P(!new)>(x: S.Ctx<P>, me: G.Secrets, p: Policy, w: World<P>, a: Action<P>)
    requires S.CtxOk(x) && Inv(x, w) && Enabled(x, me, p, w, a)
    ensures Inv(x, Next(x, me, p, w, a))
  {
    if a.Advance? {
      if AtSigning(p, w.base, a.v) {
        AtSigningAgrees(x, me, p, w, a);
        G.HandleKeeps(x, me, w.signing, G.Event(InputOf(p, w, a), a.cut == Whole));
        G.StepCompletes(x, me, w.signing.claim, InputOf(p, w, a));
      } else {
        OffSigning(p, w.base, a.v, a.cut);
      }
    }
  }

  // ----- whole runs

  function Start<P(==)>(): World<P> {
    World(H.START, G.History(G.NoClaim(), {}))
  }

  function Run<P(==)>(x: S.Ctx<P>, me: G.Secrets, p: Policy, actions: seq<Action<P>>): World<P>
    requires x.c.n > 2
  {
    if actions == [] then Start() else Next(x, me, p, Run(x, me, p, actions[..|actions| - 1]), actions[|actions| - 1])
  }

  ghost predicate Legal<P(!new)>(x: S.Ctx<P>, me: G.Secrets, p: Policy, actions: seq<Action<P>>)
    requires x.c.n > 2
  {
    actions != [] ==>
      var before, a := actions[..|actions| - 1], actions[|actions| - 1];
      Legal(x, me, p, before) && Enabled(x, me, p, Run(x, me, p, before), a)
  }

  function PhaseActions<P(==)>(actions: seq<Action<P>>): (acts: seq<H.Action>)
    ensures |acts| == |actions|
  {
    if actions == [] then [] else PhaseActions(actions[..|actions| - 1]) + [Phases(actions[|actions| - 1])]
  }

  lemma {:induction false} RunKeepsInv<P(!new)>(x: S.Ctx<P>, me: G.Secrets, p: Policy, actions: seq<Action<P>>)
    requires S.CtxOk(x) && Legal(x, me, p, actions)
    ensures Inv(x, Run(x, me, p, actions))
  {
    if actions != [] {
      var before := actions[..|actions| - 1];
      RunKeepsInv(x, me, p, before);
      InvStep(x, me, p, Run(x, me, p, before), actions[|actions| - 1]);
    }
  }

  /** The holder with its signing refines the holder without. */
  lemma {:induction false} RunRefines<P(!new)>(x: S.Ctx<P>, me: G.Secrets, p: Policy, actions: seq<Action<P>>)
    requires x.c.n > 2 && Legal(x, me, p, actions)
    ensures H.Legal(p, PhaseActions(actions)) && H.Run(p, PhaseActions(actions)) == Run(x, me, p, actions).base
  {
    if actions != [] {
      var before, acts := actions[..|actions| - 1], PhaseActions(actions);
      RunRefines(x, me, p, before);
      assert acts[..|acts| - 1] == PhaseActions(before);
    }
  }

  /** Whatever a desk answers and wherever steps are cut: a claim that is marked sent or is out carries a valid signature
      for the desk lock's key, made from a half that passed both checks; one secret nonce has signed one message under one
      nonce pair; and `sent` was stored only for a lock that passed, unspent and in time. */
  lemma ClaimOutIsSigned<P(!new)>(x: S.Ctx<P>, me: G.Secrets, p: Policy, actions: seq<Action<P>>)
    requires S.CtxOk(x) && PolicyOk(p) && Legal(x, me, p, actions)
    ensures var w := Run(x, me, p, actions);
            var claim := w.signing.claim;
            && (w.base.rec.complete <==> claim.sig.Some?)
            && (w.base.rec.sent || w.base.ch.claim != Unsent ==>
                  && claim.sig.Some? && claim.sighash.Some? && claim.sec.None?
                  && A.VerifySchnorr(x.c, x.h, x.c.x(x.keys.q), claim.sighash.value, claim.sig.value.0, claim.sig.value.1)
                  && (exists half :: G.HalfPasses(x, claim, half))
                  && (exists i, j :: H.SentAfterCheck(p, PhaseActions(actions), i, j)))
            && (forall u, v :: u in w.signing.uses && v in w.signing.uses ==> u == v)
  {
    RunKeepsInv(x, me, p, actions);
    RunRefines(x, me, p, actions);
    H.SecretStaysIn(p, PhaseActions(actions));
  }

  /** The holder's completed claim is a spend the desk's model allows, once the desk's answer to it is on record: the
      signatures assumed there are the ones honest holders make. */
  lemma HolderClaimIsBacked<P(!new)>(
    x: S.Ctx<P>, me: G.Secrets, p: Policy, actions: seq<Action<P>>, answered: set<S.Stored<P>>, s: S.Stored<P>)
    requires S.CtxOk(x) && Legal(x, me, p, actions) && Run(x, me, p, actions).base.rec.complete
    requires var claim := Run(x, me, p, actions).signing.claim;
             && s in answered && Some(s.msg) == claim.sighash && Some(s.holderNonce) == claim.nonce
             && Some(s.deskNonce) == claim.deskNonce
    ensures var claim := Run(x, me, p, actions).signing.claim;
            claim.sig.Some? && D.Backed(x, answered, D.Spend(s.msg, claim.sig.value))
  {
    RunKeepsInv(x, me, p, actions);
    var claim := Run(x, me, p, actions).signing.claim;
    assert D.Under(x, s, D.Spend(s.msg, claim.sig.value));
  }
}
