/** What the holder's steps come to (dapp/btcswap-holder.js advance, maybeRefund), said of the chain's own heights and of
    what the explorer and the desk answered: for each phase exactly which record and which broadcast a whole step leaves. */
module HolderOutcomes {
  import opened SwapChain
  import opened SwapHolder

  /** A whole step of the holder, seen from a chain that consensus allows. */
  ghost predicate WholeStep(p: Policy, w: World, v: View, w': World) {
    ChainOk(p, w.ch) && Sees(p, w.ch, v) && v.minConfs >= 1 && w' == Next(p, w, Advance(v, Whole))
  }

  /** The holder's own lock is spent, as the explorer says; or its timelock has run. */
  predicate Gone(ch: Chain, v: View) {
    ch.holderLock.Mined? && v.holderSpender.Just?
  }

  predicate Due(p: Policy, ch: Chain) {
    ch.holderLock.Mined? && ch.tip >= ch.holderLock.height + p.csvHolder - 1
  }

  /** The desk's lock is the one agreed, followed by the bridge's proof, deep enough, and leaves time to claim. */
  predicate Good(p: Policy, ch: Chain, v: View) {
    && v.status.Lock? && v.status.valid && v.status.tracked
    && ch.deskLock.Mined? && ch.tip - ch.deskLock.height + 1 >= v.minConfs
    && ch.tip + p.claimLeft <= ch.deskLock.height + p.csvDesk - 1
  }

  /** All it can lack is depth or the proof. */
  predicate Maybe(p: Policy, ch: Chain, v: View) {
    && v.status.Lock? && v.status.valid
    && (ch.deskLock.Mined? ==> ch.tip + p.claimLeft <= ch.deskLock.height + p.csvDesk - 1)
  }

  /** Until a claim is sent, a spent lock ends the swap and a run-out timelock turns to the refund, whatever the phase. */
  lemma OwnLockFirst(p: Policy, w: World, v: View, w': World)
    requires (w.rec.phase.Announced? || w.rec.phase.Offered? || w.rec.phase.Claiming?) && !w.rec.sent && WholeStep(p, w, v, w')
    ensures Gone(w.ch, v) ==> w'.rec == w.rec.(phase := DeskTook) && w'.ch == w.ch
    ensures !Gone(w.ch, v) && Due(p, w.ch) ==> w'.rec == w.rec.(phase := RefundWait) && w'.ch == w.ch
  {
  }

  /** Built and announced: the lock goes out, and once it is mined is offered; a refusal that may not be tried again, or
      any failure when the time to wait is over, turns to the refund. */
  lemma AnnouncedExactly(p: Policy, w: World, v: View, w': World)
    requires (w.rec.phase.Built? || w.rec.phase.Announced?) && !w.rec.sent && !Gone(w.ch, v) && !Due(p, w.ch) && WholeStep(p, w, v, w')
    ensures w.rec.phase.Built? ==>
              && w'.rec == w.rec.(phase := Announced)
              && w'.ch == w.ch.(holderLock := if w.ch.holderLock.Unsent? then Sent else w.ch.holderLock)
    ensures w.rec.phase.Announced? ==>
              && w'.ch == w.ch
              && w'.rec == w.rec.(phase := if !w.ch.holderLock.Mined? then Announced
                                           else if v.offer.Taken? then Offered
                                           else if v.late || (v.offer.Declined? && !v.offer.retry) then RefundWait
                                           else Announced)
  {
  }

  lemma Check(p: Policy, ch: Chain, rec: Record, v: View)
    requires rec.phase.Offered? && v.minConfs >= 1 && (ch.deskLock.Mined? ==> ch.deskLock.height <= ch.tip)
    ensures var s := CheckSteps(p, ch, rec, v);
            && s.send.NoTx?
            && (s.after.phase.Claiming? <==> Good(p, ch, v))
            && (s.after.phase.Claiming? ==> s.after == rec.(phase := Claiming, deskLockHeight := ch.deskLock.height))
            && (s.after.phase.RefundWait? <==>
                  v.status.GaveUp? || (v.status.Lock? && !Maybe(p, ch, v)) || (v.late && !Good(p, ch, v)))
            && (!s.after.phase.Claiming? ==> s.after == rec.(phase := s.after.phase))
            && (s.after.phase.Claiming? || s.after.phase.RefundWait? || s.after.phase.Offered?)
  {
  }

  lemma GoesToCheck(p: Policy, w: World, v: View, w': World)
    requires w.rec.phase.Offered? && !w.rec.sent && !Gone(w.ch, v) && !Due(p, w.ch) && WholeStep(p, w, v, w')
    ensures w'.ch == Published(w.ch, CheckSteps(p, w.ch, w.rec, v).send, Whole) && w'.rec == CheckSteps(p, w.ch, w.rec, v).after
  {
  }

  /** Offered: claiming begins exactly for a good lock; the refund is turned to exactly when the desk gave up, or its lock
      cannot become good, or it is not good and the time to wait is over. */
  lemma OfferedExactly(p: Policy, w: World, v: View, w': World)
    requires w.rec.phase.Offered? && !w.rec.sent && !Gone(w.ch, v) && !Due(p, w.ch) && WholeStep(p, w, v, w')
    ensures w'.ch == w.ch
    ensures w'.rec.phase.Claiming? <==> Good(p, w.ch, v)
    ensures w'.rec.phase.Claiming? ==> w'.rec == w.rec.(phase := Claiming, deskLockHeight := w.ch.deskLock.height)
    ensures w'.rec.phase.RefundWait? <==>
              v.status.GaveUp? || (v.status.Lock? && !Maybe(p, w.ch, v)) || (v.late && !Good(p, w.ch, v))
    ensures !w'.rec.phase.Claiming? ==> w'.rec == w.rec.(phase := w'.rec.phase)
    ensures w'.rec.phase.Claiming? || w'.rec.phase.RefundWait? || w'.rec.phase.Offered?
  {
    Check(p, w.ch, w.rec, v);
    GoesToCheck(p, w, v, w');
  }

  /** Time is left to claim. */
  predicate InTime(p: Policy, w: World) {
    w.ch.tip + p.claimLeft <= w.rec.deskLockHeight + p.csvDesk - 1
  }

  /** Claiming, before the claim is complete: one part a step, and the refund instead of building or signing too late. */
  lemma PreparingExactly(p: Policy, w: World, v: View, w': World)
    requires w.rec.phase.Claiming? && !w.rec.sent && !w.rec.complete && !Gone(w.ch, v) && !Due(p, w.ch) && WholeStep(p, w, v, w')
    ensures w'.ch == w.ch
    ensures !w.rec.claimBuilt ==> w'.rec == if InTime(p, w) then w.rec.(claimBuilt := true) else w.rec.(phase := RefundWait)
    ensures w.rec.claimBuilt && !w.rec.nonceDrawn ==> w'.rec == w.rec.(nonceDrawn := true)
    ensures w.rec.claimBuilt && w.rec.nonceDrawn && !w.rec.deskNonce ==> w'.rec == w.rec.(deskNonce := v.nonceGiven)
    ensures w.rec.claimBuilt && w.rec.nonceDrawn && w.rec.deskNonce && !w.rec.halfSigned ==>
              w'.rec == if InTime(p, w) then w.rec.(halfSigned := true) else w.rec.(phase := RefundWait)
    ensures w.rec.claimBuilt && w.rec.nonceDrawn && w.rec.deskNonce && w.rec.halfSigned ==> w'.rec == w.rec.(complete := v.halfGiven)
  {
  }

  /** Claiming, with the claim complete: it goes out exactly when the desk's lock is unspent with time left, or when it was
      marked as sent before; otherwise the record turns to its refund with nothing sent. */
  lemma SendingExactly(p: Policy, w: World, v: View, w': World)
    requires w.rec.phase.Claiming? && ClaimReady(w.rec) && WholeStep(p, w, v, w')
    requires w.rec.sent || (!Gone(w.ch, v) && !Due(p, w.ch))
    ensures w.rec.sent || (v.deskSpender.NoTx? && InTime(p, w)) ==>
              && w'.rec == w.rec.(phase := Claimed, sent := true)
              && w'.ch == w.ch.(claim := if w.ch.claim.Unsent? then Sent else w.ch.claim)
    ensures !w.rec.sent && !(v.deskSpender.NoTx? && InTime(p, w)) ==> w'.rec == w.rec.(phase := RefundWait) && w'.ch == w.ch
  {
  }

  /** Claimed: done when the claim is mined, turned to the refund when another transaction spends the desk's lock, and sent
      again until then. */
  lemma ClaimedExactly(p: Policy, w: World, v: View, w': World)
    requires w.rec.phase.Claimed? && w.rec.sent && WholeStep(p, w, v, w')
    ensures w.ch.claim.Mined? ==> w'.rec == w.rec.(phase := Done) && w'.ch == w.ch
    ensures v.deskSpender == Just(DeskRefund) ==> w'.rec == w.rec.(phase := RefundWait) && w'.ch == w.ch
    ensures !w.ch.claim.Mined? && v.deskSpender != Just(DeskRefund) ==>
              w'.rec == w.rec && w'.ch == w.ch.(claim := if w.ch.claim.Unsent? then Sent else w.ch.claim)
  {
  }

  /** Waiting for the refund: nothing until the timelock has run; then it goes out unless the lock is spent, by the refund
      itself or by the desk. */
  lemma RefundWaitExactly(p: Policy, w: World, v: View, w': World)
    requires w.rec.phase.RefundWait? && WholeStep(p, w, v, w')
    ensures Due(p, w.ch) && v.holderSpender.NoTx? ==>
              && w'.rec == w.rec.(refundBuilt := true)
              && w'.ch == w.ch.(holderRefund := if w.ch.holderRefund.Unsent? then Sent else w.ch.holderRefund)
    ensures Due(p, w.ch) && v.holderSpender.Just? ==>
              && w'.ch == w.ch
              && w'.rec == w.rec.(phase := if v.holderSpender == Just(HolderRefund) && w.rec.refundBuilt then Refunded else DeskTook)
    ensures !Due(p, w.ch) ==>
              && w'.ch == w.ch
              && w'.rec == w.rec.(phase := if w.rec.refundBuilt && w.ch.holderRefund.Mined? then Refunded else RefundWait)
  {
  }

  lemma FinishedExactly(p: Policy, w: World, v: View, w': World)
    requires (w.rec.phase.Done? || w.rec.phase.Refunded? || w.rec.phase.DeskTook?) && WholeStep(p, w, v, w')
    ensures w'.rec == w.rec && w'.ch == w.ch
  {
  }
}
