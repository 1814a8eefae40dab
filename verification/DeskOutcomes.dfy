/** What the desk's steps come to (dapp/btcswap-desk.js advance, signable), said of the chain's own heights: for each phase
    exactly which record and which broadcast a whole step leaves, and, over runs, what must have been seen before a lock,
    a signature or a refund. */
module DeskOutcomes {
  import opened SwapChain
  import opened SwapDesk

  /** A whole step of the desk, seen from a chain that consensus allows. */
  ghost predicate WholeStep(p: Policy, w: World, v: View, w': World) {
    ChainOk(p, w.ch) && Sees(p, w.ch, v) && v.minConfs >= 1 && w' == Next(p, w, Advance(v, Whole))
  }

  predicate Deep(ch: Chain, minConfs: int) {
    ch.holderLock.Mined? && ch.tip - ch.holderLock.height + 1 >= minConfs
  }

  predicate Roomy(p: Policy, ch: Chain) {
    ch.holderLock.Mined? && ch.holderLock.height + p.csvHolder - 1 >= ch.tip + p.lockDelay + p.csvDesk + p.takeMargin
  }

  /** Accepted: aborted for a spent lock, for one that leaves too little room, or when the time to wait is over and the
      lock is not deep enough or the desk cannot cover it; locked on exactly when all is well; kept otherwise. */
  lemma AcceptedExactly(p: Policy, w: World, v: View, w': World)
    requires w.rec.phase.Accepted? && WholeStep(p, w, v, w')
    ensures w'.ch == w.ch
    ensures w'.rec.phase.Aborted? <==>
              || v.holderSpender.Just?
              || (Deep(w.ch, v.minConfs) && !Roomy(p, w.ch))
              || (v.waited && !(Deep(w.ch, v.minConfs) && (w.rec.lockBuilt || v.funded)))
    ensures w'.rec.phase.Locking? <==>
              v.holderSpender.NoTx? && Deep(w.ch, v.minConfs) && Roomy(p, w.ch) && (w.rec.lockBuilt || v.funded)
    ensures w'.rec.phase.Aborted? ==> w'.rec == w.rec.(phase := Aborted)
    ensures w'.rec.phase.Locking? ==> w'.rec == w.rec.(phase := Locking, lockBuilt := true)
    ensures w'.rec.phase.Aborted? || w'.rec.phase.Locking? || w'.rec == w.rec
  {
  }

  /** Locking and locked: the lock goes out, again and again until it is mined, and is then offered at its height. */
  lemma LockedExactly(p: Policy, w: World, v: View, w': World)
    requires (w.rec.phase.Locking? || w.rec.phase.Locked?) && WholeStep(p, w, v, w')
    ensures w.rec.phase.Locking? ==> w'.rec == w.rec.(phase := Locked)
    ensures w.rec.phase.Locked? && w.ch.deskLock.Mined? ==>
              w'.rec == w.rec.(phase := Offered, lockHeight := w.ch.deskLock.height) && w'.ch == w.ch
    ensures w.rec.phase.Locked? && !w.ch.deskLock.Mined? ==> w'.rec == w.rec
    ensures w.rec.phase.Locking? || !w.ch.deskLock.Mined? ==>
              w'.ch == w.ch.(deskLock := if w.ch.deskLock.Unsent? then Sent else w.ch.deskLock)
  {
  }

  /** Offered: a spender is the stored refund, a claim that was read, or a loss; with none, the refund goes out exactly
      from the height at which it can be mined in the next block. */
  lemma OfferedExactly(p: Policy, w: World, v: View, w': World)
    requires w.rec.phase.Offered? && WholeStep(p, w, v, w')
    ensures v.deskSpender.Just? ==>
              && w'.ch == w.ch
              && w'.rec == w.rec.(phase := if v.deskSpender == Just(DeskRefund) && w.rec.refundBuilt then Refunding
                                           else if v.readable then Taking else Lost)
    ensures v.deskSpender.NoTx? && w.ch.tip + 1 < w.rec.lockHeight + p.csvDesk ==> w'.rec == w.rec && w'.ch == w.ch
    ensures v.deskSpender.NoTx? && w.ch.tip + 1 >= w.rec.lockHeight + p.csvDesk ==>
              && w'.rec == w.rec.(phase := Refunding, refundBuilt := true)
              && w'.ch == w.ch.(deskRefund := if w.ch.deskRefund.Unsent? then Sent else w.ch.deskRefund)
  {
  }

  /** Refunding: over when the refund is mined, turned by another spender, and sent again until then. */
  lemma RefundingExactly(p: Policy, w: World, v: View, w': World)
    requires w.rec.phase.Refunding? && WholeStep(p, w, v, w')
    ensures v.deskSpender.Just? && v.deskSpender != Just(DeskRefund) ==>
              w'.ch == w.ch && w'.rec == w.rec.(phase := if v.readable then Taking else Lost)
    ensures w.ch.deskRefund.Mined? ==> w'.ch == w.ch && w'.rec == w.rec.(phase := Refunded)
    ensures (v.deskSpender.NoTx? || v.deskSpender == Just(DeskRefund)) && !w.ch.deskRefund.Mined? ==>
              w'.rec == w.rec && w'.ch == w.ch.(deskRefund := if w.ch.deskRefund.Unsent? then Sent else w.ch.deskRefund)
  {
  }

  /** Taking: done when the take is mined, lost when the holder's refund spends the lock, and sent again until then. */
  lemma TakingExactly(p: Policy, w: World, v: View, w': World)
    requires w.rec.phase.Taking? && WholeStep(p, w, v, w')
    ensures w.ch.take.Mined? ==> w'.ch == w.ch && w'.rec == w.rec.(phase := Done, takeBuilt := true)
    ensures v.holderSpender == Just(HolderRefund) ==> w'.ch == w.ch && w'.rec == w.rec.(phase := Lost, takeBuilt := true)
    ensures v.holderSpender != Just(HolderRefund) && !w.ch.take.Mined? ==>
              && w'.rec == w.rec.(takeBuilt := true)
              && w'.ch == w.ch.(take := if w.ch.take.Unsent? then Sent else w.ch.take)
  {
  }

  /** In the other phases nothing is left to do. */
  lemma FinishedExactly(p: Policy, w: World, v: View, w': World)
    requires w.rec.phase.NoRecord? || w.rec.phase.Done? || w.rec.phase.Refunded? || w.rec.phase.Aborted? || w.rec.phase.Lost?
    requires WholeStep(p, w, v, w')
    ensures w'.rec == w.rec && w'.ch == w.ch
  {
  }

  /** A half is given exactly for an offered, unspent lock with more than `signStop` blocks before its refund can go out. */
  lemma SignableExactly(p: Policy, w: World, v: View)
    ensures Signable(p, w.ch, w.rec, v) <==>
              w.rec.phase.Offered? && v.deskSpender.NoTx? && w.ch.tip + p.signStop + 1 < w.rec.lockHeight + p.csvDesk
  {
  }

  // ----- what a run must have seen before

  /** Step i, the last check of the holder's lock, found it unspent, as deep as asked, and with room for all that follows. */
  ghost predicate CheckedAt(p: Policy, actions: seq<Action>, i: nat) {
    && i < |actions| && actions[i].Advance?
    && var w, v := Run(p, actions[..i]), actions[i].v;
       && SeesHolderLock(p, w.ch, v.holderSpender) && v.holderSpender.NoTx?
       && w.ch.holderLock.Mined?
       && w.ch.tip - w.ch.holderLock.height + 1 >= v.minConfs >= 1
       && w.ch.holderLock.height + p.csvHolder - 1 >= w.ch.tip + p.lockDelay + p.csvDesk + p.takeMargin
       && w.rec.phase.Accepted? && (w.rec.lockBuilt || v.funded)
       && Run(p, actions[..i + 1]).rec.phase.Locking?
  }

  /** Step i gave a half while the lock was offered and unspent, in time. */
  ghost predicate SignedAt(p: Policy, actions: seq<Action>, i: nat, height: int) {
    && i < |actions| && actions[i].Sign?
    && var w, v := Run(p, actions[..i]), actions[i].v;
       && SeesDeskLock(p, w.ch, v.deskSpender) && v.deskSpender.NoTx?
       && w.rec.phase.Offered? && w.ch.deskLock == Mined(height)
       && w.ch.tip + p.signStop < height + p.csvDesk - 1
       && !w.ch.claim.Mined? && !w.ch.deskRefund.Mined?
  }

  /** Step i built the refund of an unspent lock whose timelock had run. */
  ghost predicate RefundedAt(p: Policy, actions: seq<Action>, i: nat, height: int) {
    && i < |actions| && actions[i].Advance?
    && var w, v := Run(p, actions[..i]), actions[i].v;
       && SeesDeskLock(p, w.ch, v.deskSpender) && v.deskSpender.NoTx?
       && w.rec.phase.Offered? && w.ch.deskLock == Mined(height) && w.ch.tip >= height + p.csvDesk - 1
  }

  lemma Earlier(p: Policy, actions: seq<Action>, i: nat, height: int)
    requires i < |actions| - 1
    ensures CheckedAt(p, actions[..|actions| - 1], i) ==> CheckedAt(p, actions, i)
    ensures SignedAt(p, actions[..|actions| - 1], i, height) ==> SignedAt(p, actions, i, height)
    ensures RefundedAt(p, actions[..|actions| - 1], i, height) ==> RefundedAt(p, actions, i, height)
  {
    var before := actions[..|actions| - 1];
    assert before[..i] == actions[..i] && before[..i + 1] == actions[..i + 1];
  }

  predicate Started(rec: Record) {
    !(rec.phase.NoRecord? || rec.phase.Accepted? || rec.phase.Aborted?)
  }

  lemma StartedBy(p: Policy, w: World, v: View, cut: Cut)
    requires PolicyOk(p) && Safe(p, w) && Enabled(p, w, Advance(v, cut)) && !Started(w.rec) && Started(Next(p, w, Advance(v, cut)).rec)
    ensures w.rec.phase.Accepted? && Next(p, w, Advance(v, cut)).rec.phase.Locking?
    ensures v.holderSpender.NoTx? && Deep(w.ch, v.minConfs) && Roomy(p, w.ch) && (w.rec.lockBuilt || v.funded)
  {
  }

  /** A desk past its checks, and not out of the swap, made the last of them on a lock that met all of it. */
  lemma {:induction false} LockedAfterCheck(p: Policy, actions: seq<Action>)
    requires PolicyOk(p) && Legal(p, actions) && Started(Run(p, actions).rec)
    ensures exists i :: CheckedAt(p, actions, i)
  {
    var before, a := actions[..|actions| - 1], actions[|actions| - 1];
    var w := Run(p, before);
    RunIsSafe(p, before);
    if Started(w.rec) {
      LockedAfterCheck(p, before);
      var i :| CheckedAt(p, before, i);
      Earlier(p, actions, i, 0);
    } else {
      assert a.Advance?;
      StartedBy(p, w, a.v, a.cut);
      assert actions[..|actions|] == actions;
      assert CheckedAt(p, actions, |actions| - 1);
    }
  }

  lemma LockStays(p: Policy, w: World, a: Action)
    requires PolicyOk(p) && Safe(p, w) && Enabled(p, w, a) && w.ch.deskLock.Mined?
    ensures Next(p, w, a).ch.deskLock == w.ch.deskLock
  {
  }

  /** A half that was given was given in time, on a lock that was there and unspent. */
  lemma {:induction false} SignedInTime(p: Policy, actions: seq<Action>)
    requires PolicyOk(p) && Legal(p, actions) && Run(p, actions).rec.signed
    ensures Run(p, actions).ch.deskLock.Mined?
    ensures exists i :: SignedAt(p, actions, i, Run(p, actions).ch.deskLock.height)
  {
    var before, a := actions[..|actions| - 1], actions[|actions| - 1];
    var w := Run(p, before);
    RunIsSafe(p, before);
    RunIsSafe(p, actions);
    if a.Advance? {
      StepKeepsSigned(p, w, a.v, a.cut);
    }
    var height := Run(p, actions).ch.deskLock.height;
    if w.rec.signed {
      SignedInTime(p, before);
      LockStays(p, w, a);
      var i :| SignedAt(p, before, i, height);
      Earlier(p, actions, i, height);
    } else {
      assert a.Sign?;
      assert SignedAt(p, actions, |actions| - 1, height);
    }
  }

  lemma RefundBuiltBy(p: Policy, w: World, v: View, cut: Cut)
    requires PolicyOk(p) && Safe(p, w) && Enabled(p, w, Advance(v, cut)) && !w.rec.refundBuilt
    ensures Next(p, w, Advance(v, cut)).rec.refundBuilt ==>
              w.rec.phase.Offered? && v.deskSpender.NoTx? && w.ch.tip >= w.ch.deskLock.height + p.csvDesk - 1
  {
  }

  /** A refund that was built was built for an unspent lock whose timelock had run. */
  lemma {:induction false} RefundBuiltInTime(p: Policy, actions: seq<Action>)
    requires PolicyOk(p) && Legal(p, actions) && Run(p, actions).rec.refundBuilt
    ensures Run(p, actions).ch.deskLock.Mined?
    ensures exists i :: RefundedAt(p, actions, i, Run(p, actions).ch.deskLock.height)
  {
    var before, a := actions[..|actions| - 1], actions[|actions| - 1];
    var w := Run(p, before);
    RunIsSafe(p, before);
    RunIsSafe(p, actions);
    var height := Run(p, actions).ch.deskLock.height;
    if w.rec.refundBuilt {
      RefundBuiltInTime(p, before);
      LockStays(p, w, a);
      var i :| RefundedAt(p, before, i, height);
      Earlier(p, actions, i, height);
    } else {
      assert a.Advance?;
      RefundBuiltBy(p, w, a.v, a.cut);
      LockStays(p, w, a);
      assert RefundedAt(p, actions, |actions| - 1, height);
    }
  }
}
