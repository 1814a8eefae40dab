/** Time never stops for a swap: wherever a timely run stands, both sides have a step to take and the next
    block can come in time, so every run can be carried on until both are paid or both are back. */
module SwapEnding {
  import opened SwapChain
  import opened SwapJoint
  import D = SwapDesk
  import H = SwapHolder

  /** The spender an explorer reports once it is mined. */
  function MinedSpender(a: TxState, ta: Tx, b: TxState, tb: Tx): MaybeTx {
    if a.Mined? then Just(ta) else if b.Mined? then Just(tb) else NoTx
  }

  lemma DeskCanStep(p: Policy, w: World) returns (a: Action)
    requires PolicyOk(p) && Safe(p, w) && Prompt(p, w)
    ensures Enabled(p, w, a) && !a.NewBlock?
    ensures var w' := Next(p, w, a);
            w'.d.stepped && w'.h.stepped == w.h.stepped && w'.h.rec == w.h.rec && w'.d.ch.tip == w.d.ch.tip && w'.d.ch.holderLock == w.d.ch.holderLock
  {
    var ch := w.d.ch;
    var v := D.View(MinedSpender(ch.take, Take, ch.holderRefund, HolderRefund),
                    MinedSpender(ch.claim, Claim, ch.deskRefund, DeskRefund), 1, true, true, true);
    a := DeskActs(D.Advance(v, Whole));
  }

  lemma HolderCanStep(p: Policy, w: World) returns (a: Action)
    requires PolicyOk(p) && Safe(p, w) && Prompt(p, w)
    ensures Enabled(p, w, a) && !a.NewBlock?
    ensures var w' := Next(p, w, a);
            w'.h.stepped && w'.d.stepped == w.d.stepped && w'.d.ch.tip == w.d.ch.tip
            && (w.d.ch.holderLock.Mined? ==> w'.d.ch.holderLock == w.d.ch.holderLock)
  {
    var ch := w.h.ch;
    var v := H.View(MinedSpender(ch.take, Take, ch.holderRefund, HolderRefund),
                    MinedSpender(ch.claim, Claim, ch.deskRefund, DeskRefund), true,
                    H.Unreachable, H.NoOffer, 1, true, w.d.rec.signed);
    a := HolderActs(v, Whole);
  }

  lemma BlockCanCome(p: Policy, w: World) returns (b: Block)
    requires PolicyOk(p) && Safe(p, w) && Prompt(p, w) && w.d.stepped && w.h.stepped
    ensures Enabled(p, w, NewBlock(b)) && Timely(p, w, NewBlock(b))
    ensures b.holderLock == (w.d.ch.holderLock == Sent)
  {
    var ch := w.d.ch;
    var claim, take := ch.claim == Sent && !ch.deskRefund.Mined?, ch.take == Sent && !ch.holderRefund.Mined?;
    b := Block(ch.holderLock == Sent, ch.deskLock == Sent, claim,
               ch.deskRefund == Sent && !ch.claim.Mined? && !claim, take,
               ch.holderRefund == Sent && !ch.take.Mined? && !take);
  }

  ghost predicate Timed(p: Policy, actions: seq<Action>) {
    Legal(p, actions) && OnTime(p, actions)
  }

  lemma Append(p: Policy, actions: seq<Action>, a: Action) returns (longer: seq<Action>)
    requires Timed(p, actions) && Enabled(p, Run(p, actions), a) && Timely(p, Run(p, actions), a)
    ensures Timed(p, longer) && actions <= longer && Run(p, longer) == Next(p, Run(p, actions), a)
  {
    longer := actions + [a];
    assert longer[..|longer| - 1] == actions;
  }

  /** Both sides step. */
  lemma BothStep(p: Policy, actions: seq<Action>) returns (longer: seq<Action>)
    requires PolicyOk(p) && Timed(p, actions)
    ensures Timed(p, longer) && actions <= longer
    ensures var w, w' := Run(p, actions), Run(p, longer);
            && w'.d.stepped && w'.h.stepped && w'.d.ch.tip == w.d.ch.tip
            && (w.d.ch.holderLock.Mined? ==> w'.d.ch.holderLock == w.d.ch.holderLock)
  {
    RunIsSafe(p, actions);
    var a := HolderCanStep(p, Run(p, actions));
    var mid := Append(p, actions, a);
    RunIsSafe(p, mid);
    var da := DeskCanStep(p, Run(p, mid));
    longer := Append(p, mid, da);
  }

  /** Both sides step and a block comes. */
  lemma Tick(p: Policy, actions: seq<Action>) returns (longer: seq<Action>)
    requires PolicyOk(p) && Timed(p, actions)
    ensures Timed(p, longer) && actions <= longer
    ensures var w, w' := Run(p, actions), Run(p, longer);
            && w'.d.ch.tip == w.d.ch.tip + 1 && w'.d.ch.holderLock.Mined?
            && (w.d.ch.holderLock.Mined? ==> w'.d.ch.holderLock == w.d.ch.holderLock)
  {
    var mid := BothStep(p, actions);
    RunIsSafe(p, mid);
    var b := BlockCanCome(p, Run(p, mid));
    longer := Append(p, mid, NewBlock(b));
  }

  lemma {:induction false} Ticks(p: Policy, actions: seq<Action>, n: nat) returns (longer: seq<Action>)
    requires PolicyOk(p) && Timed(p, actions) && Run(p, actions).d.ch.holderLock.Mined?
    ensures Timed(p, longer) && actions <= longer
    ensures Run(p, longer).d.ch.tip == Run(p, actions).d.ch.tip + n
    ensures Run(p, longer).d.ch.holderLock == Run(p, actions).d.ch.holderLock
    decreases n
  {
    longer := actions;
    if n > 0 {
      var mid := Tick(p, actions);
      longer := Ticks(p, mid, n - 1);
    }
  }

  /** Every timely run, wherever it stands, goes on to an end: both paid, or both back. */
  lemma EveryRunCanEnd(p: Policy, actions: seq<Action>) returns (longer: seq<Action>)
    requires PolicyOk(p) && Timed(p, actions)
    ensures Timed(p, longer) && actions <= longer
    ensures BothPaid(Run(p, longer)) || BothBack(Run(p, longer))
  {
    var locked := Tick(p, actions);
    RunIsSafe(p, locked);
    var n := p.csvHolder + p.claimLeft + p.refundDelay + p.holderRefundDelay + 1;
    var late := Ticks(p, locked, n);
    longer := BothStep(p, late);
    SwapIsAtomic(p, longer);
  }

  /** Once the claim is out no run ends unpaid: the desk takes the holder's lock. */
  lemma ClaimOutEndsPaid(p: Policy, actions: seq<Action>)
    requires PolicyOk(p) && Timed(p, actions) && Run(p, actions).d.ch.claim != Unsent
    ensures !BothBack(Run(p, actions))
    ensures exists longer :: Timed(p, longer) && actions <= longer && BothPaid(Run(p, longer))
  {
    var longer := EveryRunCanEnd(p, actions);
    ClaimStaysOut(p, actions, longer);
  }

  lemma ClaimStaysOutStep(p: Policy, w: World, a: Action)
    requires Enabled(p, w, a) && w.d.ch == w.h.ch && w.d.ch.claim != Unsent
    ensures Next(p, w, a).d.ch.claim != Unsent
  {
  }

  lemma {:induction false} ClaimStaysOut(p: Policy, actions: seq<Action>, longer: seq<Action>)
    requires PolicyOk(p) && Legal(p, longer) && actions <= longer && Run(p, actions).d.ch.claim != Unsent
    ensures Run(p, longer).d.ch.claim != Unsent
  {
    if |longer| == |actions| {
      assert longer == actions;
    } else {
      var before := longer[..|longer| - 1];
      assert actions <= before;
      ClaimStaysOut(p, actions, before);
      RunIsSafe(p, before);
      ClaimStaysOutStep(p, Run(p, before), longer[|longer| - 1]);
    }
  }

  /** Some timely run pays both. */
  ghost predicate CanBePaid(p: Policy) {
    exists w :: Reachable(p, w) && BothPaid(w)
  }

  lemma ReachablePaid(p: Policy, w: World)
    requires PolicyOk(p) && Reachable(p, w) && w.d.ch.claim != Unsent
    ensures CanBePaid(p)
  {
    var actions :| Legal(p, actions) && OnTime(p, actions) && Run(p, actions) == w;
    ClaimOutEndsPaid(p, actions);
    var longer :| Timed(p, longer) && actions <= longer && BothPaid(Run(p, longer));
    assert Reachable(p, Run(p, longer));
  }
}
