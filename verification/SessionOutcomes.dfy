/** What the desk answers to its two signing requests (dapp/btcswap-desk.js nonce, sign), said of the stored sessions: which
    one a request is answered from, which status refuses it, and that nonces and halves are given only in time. */
module SessionOutcomes {
  import opened Wrappers
  import opened SwapChain
  import opened CurveGroup
  import opened Musig2
  import opened SigningSessions
  import D = SwapDesk
  import G = DeskSigning

  /** Session i is the first for a message and a holder nonce. */
  ghost predicate FirstPair<P(!new)>(ss: seq<Stored<P>>, msg: int, pn: PubNonce<P>, i: nat) {
    && i < |ss| && ss[i].msg == msg && ss[i].holderNonce == pn
    && forall j :: 0 <= j < i ==> !(ss[j].msg == msg && ss[j].holderNonce == pn)
  }

  ghost predicate NoPair<P(!new)>(ss: seq<Stored<P>>, msg: int, pn: PubNonce<P>) {
    forall j :: 0 <= j < |ss| ==> !(ss[j].msg == msg && ss[j].holderNonce == pn)
  }

  /** A nonce request for a known message and holder nonce is answered from their session, whatever else holds; for a new
      pair it draws and stores a session exactly while the lock is signable and the swap has fewer than its sessions. */
  lemma NonceExactly<P(!new)>(x: Ctx<P>, ss: seq<Stored<P>>, msg: int, pn: PubNonce<P>, signable: bool, drawn: SecNonce, i: nat)
    requires x.c.n > 2 && (FirstPair(ss, msg, pn, i) || NoPair(ss, msg, pn))
    ensures OnNonce(x, ss, msg, pn, signable, drawn) ==
              if FirstPair(ss, msg, pn, i) then (ss, Nonce(ss[i].deskNonce))
              else if signable && |ss| < x.maxSessions then
                (ss + [Stored(msg, pn, (MulG(x.c, drawn.0), MulG(x.c, drawn.1)), Some(drawn), None)],
                 Nonce((MulG(x.c, drawn.0), MulG(x.c, drawn.1))))
              else (ss, Refused(409))
  {
  }

  ghost predicate FirstNonce<P(!new)>(ss: seq<Stored<P>>, pn: PubNonce<P>, i: nat) {
    i < |ss| && ss[i].holderNonce == pn && forall j :: 0 <= j < i ==> ss[j].holderNonce != pn
  }

  ghost predicate NoNonce<P(!new)>(ss: seq<Stored<P>>, pn: PubNonce<P>) {
    forall j :: 0 <= j < |ss| ==> ss[j].holderNonce != pn
  }

  /** Whether a holder's half passes both of the desk's checks, with the desk's own half from its stored secret. */
  ghost predicate BothPass<P(!new)>(x: Ctx<P>, s: Stored<P>, psig: nat, mine: nat, sPre: nat)
    requires x.c.n > 2
  {
    && SessionOf(x, s).Ok? && s.sec.Some?
    && var sess := SessionOf(x, s).value;
       && PartialVerify(x.c, sess, psig, s.holderNonce, x.holderPk)
       && mine == PartialSign(x.c, sess, s.sec.value, x.d, x.deskPk)
       && sPre == PartialAgg(x.c, sess, psig, mine)
       && PreVerify(x.c, sess, sPre)
  }

  lemma FirstIs<P(!new)>(ss: seq<Stored<P>>, pn: PubNonce<P>, i: nat)
    requires FirstNonce(ss, pn, i)
    ensures FindNonce(ss, pn, 0) == i
  {
  }

  /** A sign request for no session is refused with 404; for one that has signed it gets the same half for the same half and
      409 for another; and for a waiting one it gets a half, stored with the pre-signature and with the secret gone, exactly
      when the lock is signable and both checks pass; otherwise nothing changes, and the status says what was wrong. */
  lemma SignExactly<P(!new)>(x: Ctx<P>, ss: seq<Stored<P>>, pn: PubNonce<P>, psig: nat, signable: bool, i: nat, mine: nat, sPre: nat)
    requires x.c.n > 2 && (FirstNonce(ss, pn, i) || NoNonce(ss, pn))
    requires FirstNonce(ss, pn, i) && SessionOf(x, ss[i]).Ok? && ss[i].sec.Some? ==>
               mine == PartialSign(x.c, SessionOf(x, ss[i]).value, ss[i].sec.value, x.d, x.deskPk)
               && sPre == PartialAgg(x.c, SessionOf(x, ss[i]).value, psig, mine)
    ensures var (ss', reply) := OnSign(x, ss, pn, psig, signable);
            && (NoNonce(ss, pn) ==> ss' == ss && reply == Refused(404))
            && (FirstNonce(ss, pn, i) && ss[i].halves.Some? ==>
                  && ss' == ss
                  && reply == if ss[i].halves.value.holderPsig == psig then Half(ss[i].halves.value.deskPsig) else Refused(409))
            && (FirstNonce(ss, pn, i) && ss[i].halves.None? ==>
                  if signable && BothPass(x, ss[i], psig, mine, sPre) then
                    ss' == ss[i := ss[i].(sec := None, halves := Some(Halves(psig, mine, sPre)))] && reply == Half(mine)
                  else
                    && ss' == ss
                    && reply == Refused(if !signable then 409
                                        else if SessionOf(x, ss[i]).Err? then 500
                                        else if ss[i].sec.None? || !PartialVerify(x.c, SessionOf(x, ss[i]).value, psig, ss[i].holderNonce, x.holderPk)
                                        then 400 else 500))
  {
    if FirstNonce(ss, pn, i) {
      FirstIs(ss, pn, i);
    }
  }

  // ----- in time, over whole runs

  /** At step i the desk's lock was offered, unspent, and more than `signStop` blocks from its refund. */
  ghost predicate InTimeAt<P(!new)>(x: Ctx<P>, p: Policy, actions: seq<G.Action<P>>, i: nat)
    requires x.c.n > 2
  {
    && i < |actions| && (actions[i].AskNonce? || actions[i].AskSign?)
    && var w, v := G.Run(x, p, actions[..i]).base, actions[i].v;
       && SeesDeskLock(p, w.ch, v.deskSpender) && v.deskSpender.NoTx?
       && w.rec.phase.Offered? && w.ch.tip + p.signStop < w.rec.lockHeight + p.csvDesk - 1
  }

  /** Such a step changed the stored sessions. */
  ghost predicate ChangedAt<P(!new)>(x: Ctx<P>, p: Policy, actions: seq<G.Action<P>>, i: nat)
    requires x.c.n > 2 && i < |actions|
  {
    G.Run(x, p, actions[..i]).run.sessions != G.Run(x, p, actions[..i + 1]).run.sessions
  }

  lemma ChangeNeedsSignable<P(!new)>(x: Ctx<P>, r: Run<P>, q: Request<P>)
    requires x.c.n > 2 && Handle(x, r, q).sessions != r.sessions
    ensures q.signable
  {
  }

  /** Nothing is drawn, and nothing signed, except in time: every change of the stored sessions is by a request that found
      the lock offered, unspent and early enough. */
  lemma SessionsChangeInTime<P(!new)>(x: Ctx<P>, p: Policy, actions: seq<G.Action<P>>, i: nat)
    requires CtxOk(x) && PolicyOk(p) && G.Legal(x, p, actions) && i < |actions| && ChangedAt(x, p, actions, i)
    ensures InTimeAt(x, p, actions, i)
  {
    PrefixLegal(x, p, actions, i + 1);
    var upto := actions[..i + 1];
    assert upto[..|upto| - 1] == actions[..i];
    var w, a := G.Run(x, p, actions[..i]), actions[i];
    if a.AskNonce? || a.AskSign? {
      ChangeNeedsSignable(x, w.run, G.RequestOf(p, w, a));
    }
  }

  lemma {:induction false} PrefixLegal<P(!new)>(x: Ctx<P>, p: Policy, actions: seq<G.Action<P>>, k: nat)
    requires x.c.n > 2 && G.Legal(x, p, actions) && k <= |actions|
    ensures G.Legal(x, p, actions[..k])
  {
    if k == |actions| {
      assert actions[..k] == actions;
    } else {
      assert actions[..|actions| - 1][..k] == actions[..k];
      PrefixLegal(x, p, actions[..|actions| - 1], k);
    }
  }
}
