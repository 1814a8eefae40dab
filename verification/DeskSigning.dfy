/** The desk's whole record (dapp/btcswap-desk.js): its phases and its signing sessions in one store, on a chain whose
    claims carry signatures. What SwapDesk takes for granted of a claim is derived here: a claim appears only after a
    half was stored, and whatever claim appears, `extractT` finds t in it. */
module DeskSigning {
  import opened Wrappers
  import opened SwapChain
  import opened CurveGroup
  import opened Musig2
  import A = AdaptorSignature
  import D = SwapDesk
  import L = AdaptorBtcLock
  import S = SigningSessions

  /** A key-path spend of the desk's lock: the digest it signs, and its signature. */
  datatype Spend = Spend(msg: int, sig: Sig)

  /** The phases' world, the sessions' run, every claim ever sent, and the stored secret. */
  datatype World<!P(==)> = World(base: D.World, run: S.Run<P>, claims: set<Spend>, t: Option<nat>)

  /** A request is answered on what the desk reads at that moment; a step meets one of the claims, if any. */
  datatype Action<!P(==)> =
    | Accept
    | Advance(v: D.View, spend: Spend, cut: Cut)
    | AskNonce(v: D.View, msg: int, pn: PubNonce<P>, sec: SecNonce, crash: S.Crash)
    | AskSign(v: D.View, pn: PubNonce<P>, psig: nat, crash: S.Crash)
    | ClaimOut(spend: Spend)
    | OtherSends(tx: Tx)
    | NewBlock(b: Block)

  /** A valid signature for its digest, under the nonce of a session whose half left the desk: the only
      key-path spends there are, if signatures cannot be forged. */
  ghost predicate Backed<P(!new)>(x: S.Ctx<P>, answered: set<S.Stored<P>>, spend: Spend)
    requires x.c.n > 2
  {
    && A.VerifySchnorr(x.c, x.h, x.c.x(x.keys.q), spend.msg, spend.sig.0, spend.sig.1)
    && exists s :: s in answered && Under(x, s, spend)
  }

  predicate Under<P(==)>(x: S.Ctx<P>, s: S.Stored<P>, spend: Spend)
    requires x.c.n > 2
  {
    s.msg == spend.msg && S.SessionOf(x, s).Ok? && spend.sig.0 == x.c.x(S.SessionOf(x, s).value.rf)
  }

  /** `readClaim`: the script path of the refund carries more than a signature, and yields nothing. */
  function ReadClaim<P(==)>(x: S.Ctx<P>, ss: seq<S.Stored<P>>, who: MaybeTx, spend: Spend): Option<nat>
    requires x.c.n > 2
  {
    if who == Just(Claim) then S.ExtractFrom(x, ss, spend.sig) else None
  }

  /** The request as the sessions see it: `signable` is read off the chain and the record. */
  function RequestOf<P(==)>(p: Policy, w: World<P>, a: Action<P>): S.Request<P>
    requires a.AskNonce? || a.AskSign?
  {
    var signable := D.Signable(p, w.base.ch, w.base.rec, a.v);
    if a.AskNonce? then S.AskNonce(a.msg, a.pn, signable, a.sec, a.crash) else S.AskSign(a.pn, a.psig, signable, a.crash)
  }

  ghost predicate Enabled<P(!new)>(x: S.Ctx<P>, p: Policy, w: World<P>, a: Action<P>)
    requires x.c.n > 2
  {
    var ch := w.base.ch;
    match a
    case Accept => D.Enabled(p, w.base, D.Accept)
    case Advance(v, spend, cut) =>
      && D.Sees(p, ch, v) && 1 <= v.minConfs <= p.csvHolder && CutOk(p, ch, D.Plan(p, ch, w.base.rec, v).send, cut)
      && (v.deskSpender == Just(Claim) ==> spend in w.claims)
      && v.readable == ReadClaim(x, w.run.sessions, v.deskSpender, spend).Some?
    case AskNonce(v, _, _, _, _) => D.Sees(p, ch, v) && S.Fresh(w.run, RequestOf(p, w, a))
    case AskSign(v, _, _, _) => D.Sees(p, ch, v)
    case ClaimOut(spend) => Final(p, ch, Claim) && Backed(x, w.run.answered, spend)
    case OtherSends(tx) => Final(p, ch, tx) && (tx == HolderLock || tx == HolderRefund)
    case NewBlock(b) => BlockOk(p, ch, b)
  }

  /** What an action is to the phases: a step of theirs, or nothing. Storing a half is their `Sign`. */
  function Phases<P(==)>(x: S.Ctx<P>, p: Policy, w: World<P>, a: Action<P>): Option<D.Action>
    requires x.c.n > 2
  {
    match a
    case Accept => Some(D.Accept)
    case Advance(v, _, cut) => Some(D.Advance(v, cut))
    case AskNonce(_, _, _, _, _) => None
    case AskSign(v, _, _, _) =>
      if S.Handle(x, w.run, RequestOf(p, w, a)).sessions != w.run.sessions then Some(D.Sign(v)) else None
    case ClaimOut(_) => Some(D.OtherSends(Claim))
    case OtherSends(tx) => Some(D.OtherSends(tx))
    case NewBlock(b) => Some(D.NewBlock(b))
  }

  function Then(p: Policy, w: D.World, act: Option<D.Action>): D.World {
    if act.Some? then D.Next(p, w, act.value) else w
  }

  function Listed(act: Option<D.Action>): seq<D.Action> {
    if act.Some? then [act.value] else []
  }

  function Next<P(==)>(x: S.Ctx<P>, p: Policy, w: World<P>, a: Action<P>): World<P>
    requires x.c.n > 2
  {
    var base := Then(p, w.base, Phases(x, p, w, a));
    World(base,
          if a.AskNonce? || a.AskSign? then S.Handle(x, w.run, RequestOf(p, w, a)) else w.run,
          if a.ClaimOut? then w.claims + {a.spend} else w.claims,
          if a.Advance? && !w.base.rec.phase.Taking? && base.rec.phase.Taking?
          then ReadClaim(x, w.run.sessions, a.v.deskSpender, a.spend) else w.t)
  }

  /** Some stored session has given its half. */
  predicate HasHalf<P(==)>(ss: seq<S.Stored<P>>) {
    exists i :: 0 <= i < |ss| && ss[i].halves.Some?
  }

  predicate KnowsSecret(rec: D.Record) {
    rec.phase.Taking? || rec.phase.Done? || rec.phase.Lost?
  }

  ghost predicate Inv<P(!new)>(x: S.Ctx<P>, p: Policy, w: World<P>)
    requires x.c.n > 2
  {
    && D.Safe(p, w.base)
    && S.Inv(x, w.run)
    && (w.base.rec.signed <==> HasHalf(w.run.sessions))
    && (forall spend :: spend in w.claims ==> Backed(x, w.run.answered, spend))
    && (KnowsSecret(w.base.rec) ==> w.t.Some? && MulG(x.c, w.t.value) == x.t)
  }

  // ----- one step

  /** Whatever claim has been sent, the stored sessions yield the secret from its signature. */
  lemma ClaimIsRead<P(!new)>(x: S.Ctx<P>, r: S.Run<P>, spend: Spend)
    requires S.CtxOk(x) && S.Inv(x, r) && Backed(x, r.answered, spend)
    ensures var t := S.ExtractFrom(x, r.sessions, spend.sig);
            t.Some? && MulG(x.c, t.value) == x.t
    ensures HasHalf(r.sessions)
  {
    var s :| s in r.answered && Under(x, s, spend);
    var k :| 0 <= k < |r.sessions| && r.sessions[k] == s;
    S.ExtractFinds(x, r.sessions, k, spend.sig);
  }

  /** A sign request changes the store only by giving a half, and only while the lock is signable. */
  lemma SignStores<P(!new)>(x: S.Ctx<P>, r: S.Run<P>, q: S.Request<P>)
    requires S.CtxOk(x) && S.Inv(x, r) && q.AskSign?
    ensures var ss := S.Handle(x, r, q).sessions;
            if ss == r.sessions then true else q.signable && HasHalf(ss)
    ensures HasHalf(r.sessions) ==> HasHalf(S.Handle(x, r, q).sessions)
  {
    var ss := S.Handle(x, r, q).sessions;
    S.SignedSessionOk(x, r.sessions, q.pn, q.psig, q.signable);
    S.SignGrows(x, r.sessions, q.pn, q.psig, q.signable);
    if ss != r.sessions {
      var i := S.FindNonce(r.sessions, q.pn, 0);
      assert ss[i].halves.Some?;
    } else if HasHalf(r.sessions) {
      assert HasHalf(ss);
    }
  }

  lemma NonceStores<P(!new)>(x: S.Ctx<P>, r: S.Run<P>, q: S.Request<P>)
    requires S.CtxOk(x) && S.Inv(x, r) && q.AskNonce?
    ensures HasHalf(S.Handle(x, r, q).sessions) <==> HasHalf(r.sessions)
  {
    S.NonceShape(x, r.sessions, q.msg, q.pn, q.signable, q.sec);
    var ss := S.Handle(x, r, q).sessions;
    if HasHalf(ss) {
      var i :| 0 <= i < |ss| && ss[i].halves.Some?;
      assert r.sessions[i].halves.Some?;
    }
    if HasHalf(r.sessions) {
      var i :| 0 <= i < |r.sessions| && r.sessions[i].halves.Some?;
      assert ss[i].halves.Some?;
    }
  }

  /** Every action is one the phases' own model allows: its two assumptions about claims hold of the sessions. */
  lemma PhasesAllow<P(!new)>(x: S.Ctx<P>, p: Policy, w: World<P>, a: Action<P>)
    requires S.CtxOk(x) && PolicyOk(p) && Inv(x, p, w) && Enabled(x, p, w, a)
    ensures var act := Phases(x, p, w, a);
            act.Some? ==> D.Enabled(p, w.base, act.value)
  {
    match a
    case Advance(v, spend, cut) =>
      if v.deskSpender == Just(Claim) {
        ClaimIsRead(x, w.run, spend);
      }
    case AskSign(_, _, _, _) => SignStores(x, w.run, RequestOf(p, w, a));
    case ClaimOut(spend) => ClaimIsRead(x, w.run, spend);
    case _ =>
  }

  /** The phases see their own step or nothing. */
  lemma SafeStep<P(!new)>(x: S.Ctx<P>, p: Policy, w: World<P>, a: Action<P>)
    requires S.CtxOk(x) && PolicyOk(p) && Inv(x, p, w) && Enabled(x, p, w, a)
    ensures D.Safe(p, Next(x, p, w, a).base)
  {
    var act := Phases(x, p, w, a);
    if act.Some? {
      PhasesAllow(x, p, w, a);
      D.SafeStep(p, w.base, act.value);
    }
  }

  /** Requests keep the sessions in order, and every released half stays released. */
  lemma RequestKeeps<P(!new)>(x: S.Ctx<P>, r: S.Run<P>, q: S.Request<P>)
    requires S.CtxOk(x) && S.Inv(x, r) && S.Fresh(r, q)
    ensures S.Inv(x, S.Handle(x, r, q)) && r.answered <= S.Handle(x, r, q).answered
  {
    if q.AskNonce? {
      S.HandleNonceKeeps(x, r, q);
    } else {
      S.HandleSignKeeps(x, r, q);
    }
  }

  lemma BackedLater<P(!new)>(x: S.Ctx<P>, answered: set<S.Stored<P>>, answered': set<S.Stored<P>>, spend: Spend)
    requires x.c.n > 2 && answered <= answered' && Backed(x, answered, spend)
    ensures Backed(x, answered', spend)
  {
    var s :| s in answered && Under(x, s, spend);
    assert s in answered';
  }

  /** The record says a half was given exactly when one is stored. */
  lemma SignedStep<P(!new)>(x: S.Ctx<P>, p: Policy, w: World<P>, a: Action<P>)
    requires S.CtxOk(x) && PolicyOk(p) && Inv(x, p, w) && Enabled(x, p, w, a)
    ensures var w' := Next(x, p, w, a);
            w'.base.rec.signed <==> HasHalf(w'.run.sessions)
  {
    if a.AskNonce? {
      NonceStores(x, w.run, RequestOf(p, w, a));
    } else if a.AskSign? {
      SignedSign(x, p, w, a);
    } else if a.Advance? {
      D.StepKeepsSigned(p, w.base, a.v, a.cut);
    }
  }

  lemma SignedSign<P(!new)>(x: S.Ctx<P>, p: Policy, w: World<P>, a: Action<P>)
    requires S.CtxOk(x) && S.Inv(x, w.run) && (w.base.rec.signed <==> HasHalf(w.run.sessions)) && a.AskSign?
    ensures var w' := Next(x, p, w, a);
            w'.base.rec.signed <==> HasHalf(w'.run.sessions)
  {
    var q := RequestOf(p, w, a);
    SignStores(x, w.run, q);
    var ss := S.Handle(x, w.run, q).sessions;
    assert Next(x, p, w, a).run.sessions == ss;
    if ss != w.run.sessions {
      assert Next(x, p, w, a).base == D.Next(p, w.base, D.Sign(a.v));
    } else {
      assert Next(x, p, w, a).base == w.base;
    }
  }

  /** A step comes to know the secret only by reading a claim. */
  lemma SecretOnlyRead(p: Policy, w: D.World, v: D.View, cut: Cut)
    requires PolicyOk(p) && D.Safe(p, w) && D.Enabled(p, w, D.Advance(v, cut))
    ensures var rec' := D.Next(p, w, D.Advance(v, cut)).rec;
            && (KnowsSecret(rec') && !KnowsSecret(w.rec) ==> rec'.phase.Taking? && v.deskSpender == Just(Claim))
            && (KnowsSecret(w.rec) ==> KnowsSecret(rec'))
            && (rec'.phase.Taking? && KnowsSecret(w.rec) ==> w.rec.phase.Taking?)
  {
  }

  lemma SecretStep<P(!new)>(x: S.Ctx<P>, p: Policy, w: World<P>, a: Action<P>)
    requires S.CtxOk(x) && PolicyOk(p) && Inv(x, p, w) && Enabled(x, p, w, a)
    ensures var w' := Next(x, p, w, a);
            KnowsSecret(w'.base.rec) ==> w'.t.Some? && MulG(x.c, w'.t.value) == x.t
  {
    PhasesAllow(x, p, w, a);
    if a.Advance? {
      SecretOnlyRead(p, w.base, a.v, a.cut);
      if a.v.deskSpender == Just(Claim) {
        ClaimIsRead(x, w.run, a.spend);
      }
    }
  }

  lemma InvStep<P(!new)>(x: S.Ctx<P>, p: Policy, w: World<P>, a: Action<P>)
    requires S.CtxOk(x) && PolicyOk(p) && Inv(x, p, w) && Enabled(x, p, w, a)
    ensures Inv(x, p, Next(x, p, w, a))
  {
    SafeStep(x, p, w, a);
    SignedStep(x, p, w, a);
    SecretStep(x, p, w, a);
    if a.AskNonce? || a.AskSign? {
      RequestKeeps(x, w.run, RequestOf(p, w, a));
    }
    var w' := Next(x, p, w, a);
    forall spend | spend in w'.claims ensures Backed(x, w'.run.answered, spend) {
      BackedLater(x, w.run.answered, w'.run.answered, spend);
    }
  }

  // ----- whole runs

  function Start<P(==)>(): World<P> {
    World(D.START, S.Run([], {}, {}, {}), {}, None)
  }

  function Run<P(==)>(x: S.Ctx<P>, p: Policy, actions: seq<Action<P>>): World<P>
    requires x.c.n > 2
  {
    if actions == [] then Start() else Next(x, p, Run(x, p, actions[..|actions| - 1]), actions[|actions| - 1])
  }

  ghost predicate Legal<P(!new)>(x: S.Ctx<P>, p: Policy, actions: seq<Action<P>>)
    requires x.c.n > 2
  {
    actions != [] ==>
      var before, a := actions[..|actions| - 1], actions[|actions| - 1];
      Legal(x, p, before) && Enabled(x, p, Run(x, p, before), a)
  }

  /** Blocks come as the margins allow for. */
  ghost predicate OnTime<P(!new)>(x: S.Ctx<P>, p: Policy, actions: seq<Action<P>>)
    requires x.c.n > 2
  {
    actions != [] ==>
      var before, a := actions[..|actions| - 1], actions[|actions| - 1];
      && OnTime(x, p, before)
      && (a.NewBlock? ==> D.Timely(p, Run(x, p, before).base, D.NewBlock(a.b)))
  }

  lemma {:induction false} RunKeepsInv<P(!new)>(x: S.Ctx<P>, p: Policy, actions: seq<Action<P>>)
    requires S.CtxOk(x) && PolicyOk(p) && Legal(x, p, actions)
    ensures Inv(x, p, Run(x, p, actions))
  {
    if actions != [] {
      var before := actions[..|actions| - 1];
      RunKeepsInv(x, p, before);
      InvStep(x, p, Run(x, p, before), actions[|actions| - 1]);
    }
  }

  /** What a run is to the phases. */
  function PhaseActions<P(==)>(x: S.Ctx<P>, p: Policy, actions: seq<Action<P>>): seq<D.Action>
    requires x.c.n > 2
  {
    if actions == [] then [] else
    var before := actions[..|actions| - 1];
    var act := Phases(x, p, Run(x, p, before), actions[|actions| - 1]);
    PhaseActions(x, p, before) + Listed(act)
  }

  /** The desk with its sessions refines the desk without: every run of the one is, to the phases, a run of the other. */
  lemma {:induction false} RunRefines<P(!new)>(x: S.Ctx<P>, p: Policy, actions: seq<Action<P>>)
    requires S.CtxOk(x) && PolicyOk(p) && Legal(x, p, actions)
    ensures var acts := PhaseActions(x, p, actions);
            && D.Legal(p, acts) && D.Run(p, acts) == Run(x, p, actions).base
            && (OnTime(x, p, actions) ==> D.OnTime(p, acts))
  {
    if actions != [] {
      var before, a := actions[..|actions| - 1], actions[|actions| - 1];
      RunRefines(x, p, before);
      RunKeepsInv(x, p, before);
      RefinesStep(x, p, Run(x, p, before), a, PhaseActions(x, p, before));
    }
  }

  lemma RefinesStep<P(!new)>(x: S.Ctx<P>, p: Policy, w: World<P>, a: Action<P>, acts: seq<D.Action>)
    requires S.CtxOk(x) && PolicyOk(p) && Inv(x, p, w) && Enabled(x, p, w, a)
    requires D.Legal(p, acts) && D.Run(p, acts) == w.base
    ensures var acts' := acts + Listed(Phases(x, p, w, a));
            && D.Legal(p, acts') && D.Run(p, acts') == Next(x, p, w, a).base
            && (D.OnTime(p, acts) && (a.NewBlock? ==> D.Timely(p, w.base, D.NewBlock(a.b))) ==> D.OnTime(p, acts'))
  {
    PhasesAllow(x, p, w, a);
    OneMore(p, acts, Phases(x, p, w, a));
  }

  /** One action more, or none, is a longer run of the phases. */
  lemma OneMore(p: Policy, acts: seq<D.Action>, act: Option<D.Action>)
    requires D.Legal(p, acts) && (act.Some? ==> D.Enabled(p, D.Run(p, acts), act.value))
    ensures var acts' := acts + Listed(act);
            && D.Legal(p, acts') && D.Run(p, acts') == Then(p, D.Run(p, acts), act)
            && (D.OnTime(p, acts) && (act.Some? && act.value.NewBlock? ==> D.Timely(p, D.Run(p, acts), act.value)) ==>
                  D.OnTime(p, acts'))
  {
    var acts' := acts + Listed(act);
    if act.Some? {
      assert acts'[..|acts'| - 1] == acts;
    } else {
      assert acts' == acts;
    }
  }

  /** Desk safety, against any holder, any requests, any timing and any crashes. A half is stored exactly when the record
      says so. Whatever spends the desk's lock is its stored refund, or a claim from whose signature `extractT` returns
      the t with t·G = T. So `spentLock` never loses a lock: the only loss is a holder's refund before the take, and
      then too the desk has t. */
  lemma ClaimsAreRead<P(!new)>(x: S.Ctx<P>, p: Policy, actions: seq<Action<P>>, v: D.View, spend: Spend)
    requires S.CtxOk(x) && PolicyOk(p) && Legal(x, p, actions)
    requires Enabled(x, p, Run(x, p, actions), Advance(v, spend, Nothing))
    ensures var w := Run(x, p, actions);
            var read := S.ExtractFrom(x, w.run.sessions, spend.sig);
            && (w.base.rec.signed <==> HasHalf(w.run.sessions))
            && (v.deskSpender.Just? ==>
                  || (v.deskSpender == Just(DeskRefund) && w.base.rec.refundBuilt)
                  || (v.deskSpender == Just(Claim) && read.Some? && MulG(x.c, read.value) == x.t))
            && (D.Plan(p, w.base.ch, w.base.rec, v).after.phase.Lost? && !w.base.rec.phase.Lost? ==>
                  w.base.rec.phase.Taking? && v.holderSpender == Just(HolderRefund))
            && (KnowsSecret(w.base.rec) ==> w.t.Some? && MulG(x.c, w.t.value) == x.t)
  {
    var w := Run(x, p, actions);
    RunKeepsInv(x, p, actions);
    PhasesAllow(x, p, w, Advance(v, spend, Nothing));
    if v.deskSpender == Just(Claim) {
      ClaimIsRead(x, w.run, spend);
    }
    LostOnlyToRefund(p, w.base, v);
  }

  lemma LostOnlyToRefund(p: Policy, w: D.World, v: D.View)
    requires PolicyOk(p) && D.Safe(p, w) && D.Enabled(p, w, D.Advance(v, Nothing))
    ensures D.Plan(p, w.ch, w.rec, v).after.phase.Lost? && !w.rec.phase.Lost? ==>
              w.rec.phase.Taking? && v.holderSpender == Just(HolderRefund)
  {
  }

  /** The secret a taking desk stores is the one its wallet needs: `claimSecret` gives the scalar of the holder's lock. */
  lemma TakingOpensLock<P(!new)>(
    x: S.Ctx<P>, p: Policy, actions: seq<Action<P>>, tap: L.TapTweak, dClaimer: int, leafHash: int)
    requires S.CtxOk(x) && PolicyOk(p) && Legal(x, p, actions) && KnowsSecret(Run(x, p, actions).base.rec)
    requires L.DeriveLock(x.c, tap, MulG(x.c, dClaimer), x.t, leafHash).Ok?
    ensures var w := Run(x, p, actions);
            var lock := L.DeriveLock(x.c, tap, MulG(x.c, dClaimer), x.t, leafHash).value;
            var key := L.OutputKey(x.c, tap, lock.internalX, leafHash).value;
            w.t.Some? &&
            (key != x.c.zero ==>
               var sk := L.ClaimSecret(x.c, tap, dClaimer, w.t.value, lock);
               sk.Ok? && MulG(x.c, sk.value) == key)
  {
    RunKeepsInv(x, p, actions);
    L.SecretOpensLock(x.c, tap, dClaimer, Run(x, p, actions).t.value, leafHash);
  }

  /** And in time: a desk that steps in every block is never lost, with its claims read from real signatures. */
  lemma SigningDeskNeverLoses<P(!new)>(x: S.Ctx<P>, p: Policy, actions: seq<Action<P>>)
    requires S.CtxOk(x) && PolicyOk(p) && p.refundDelay <= p.claimLate && Legal(x, p, actions) && OnTime(x, p, actions)
    ensures var w := Run(x, p, actions);
            && !w.base.rec.phase.Lost?
            && !(w.base.ch.claim.Mined? && w.base.ch.holderRefund.Mined?)
            && (w.base.ch.holderLock.Mined? && w.base.ch.tip >= w.base.ch.holderLock.height + p.csvHolder - 1 && w.base.stepped ==>
                  (w.base.rec.phase.NoRecord? || w.base.rec.phase.Aborted? || w.base.rec.phase.Refunded? || w.base.rec.phase.Done?))
  {
    RunRefines(x, p, actions);
    D.DeskNeverLoses(p, PhaseActions(x, p, actions));
  }
}
