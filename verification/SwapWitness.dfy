/** On which terms a swap can pay at all: a run on any such terms that keeps all its times and pays both sides, so that
    what is proved of every run is not proved of none; and why on all other terms no run does. */
module SwapWitness {
  import opened SwapChain
  import opened SwapJoint
  import opened SwapEnding
  import D = SwapDesk
  import H = SwapHolder

  /** The timelocks leave room for the desk's lock, for its half of the signature, and for the claim. */
  predicate Payable(p: Policy) {
    && p.csvHolder - 1 >= p.lockDelay + p.csvDesk + p.takeMargin
    && p.signStop < p.csvDesk - 1
    && p.claimLeft <= p.csvDesk - 1
  }

  const NONE := Block(false, false, false, false, false, false)
  const QUIET := Chain(0, Unsent, Unsent, Unsent, Unsent, Unsent, Unsent)
  const CH1 := QUIET.(tip := 1, holderLock := Mined(1))
  const CH2 := CH1.(tip := 2, deskLock := Mined(2))

  const ACCEPTED := D.EMPTY.(phase := D.Accepted)
  const BUILT := ACCEPTED.(lockBuilt := true)
  const SHOWN := BUILT.(phase := D.Offered, lockHeight := 2)
  const SIGNED := SHOWN.(signed := true)

  const ANNOUNCED := H.NEW.(phase := H.Announced)
  const OFFERED := H.NEW.(phase := H.Offered)
  const CLAIMING := H.NEW.(phase := H.Claiming, deskLockHeight := 2)
  const HALF := CLAIMING.(claimBuilt := true, nonceDrawn := true, deskNonce := true, halfSigned := true)
  const COMPLETE := HALF.(complete := true)
  const CLAIMED := COMPLETE.(sent := true, phase := H.Claimed)

  const DESK := D.View(NoTx, NoTx, 1, false, true, false)

  function HolderView(offer: H.OfferAnswer, status: H.DeskAnswer, half: bool): H.View {
    H.View(NoTx, NoTx, false, offer, status, 1, true, half)
  }

  const WAITING := HolderView(H.Taken, H.NoOffer, false)
  const SHOWING := HolderView(H.Taken, H.Lock(true, true), false)
  const ANSWERED := HolderView(H.Taken, H.Lock(true, true), true)

  function DeskAt(ch: Chain, rec: D.Record, checkTip: int, stepped: bool): D.World {
    D.World(ch, rec, checkTip, 0, 0, 0, stepped)
  }

  function HolderAt(ch: Chain, rec: H.Record, stepped: bool): H.World {
    H.World(ch, rec, 0, 0, 0, stepped)
  }

  /** A whole step of the desk that sends nothing. */
  lemma DeskStores(p: Policy, w: World, rec: D.Record) returns (w': World)
    requires Reachable(p, w) && w.d.ch == w.h.ch && D.Sees(p, w.d.ch, DESK) && p.csvHolder >= 1
    requires D.Plan(p, w.d.ch, w.d.rec, DESK).send.NoTx? && D.Plan(p, w.d.ch, w.d.rec, DESK).after == rec
    requires !rec.phase.Taking?
    ensures Reachable(p, w') && w'.h == w.h
    ensures w'.d == w.d.(rec := rec, stepped := true,
                         checkTip := if w.d.rec.phase.Accepted? && rec.phase.Locking? then w.d.ch.tip else w.d.checkTip)
  {
    w' := Extend(p, w, DeskActs(D.Advance(DESK, Whole)));
  }

  /** A whole step of the holder that sends nothing. */
  lemma HolderStores(p: Policy, w: World, v: H.View, rec: H.Record) returns (w': World)
    requires Reachable(p, w) && w.d.ch == w.h.ch && H.Sees(p, w.h.ch, v) && v.minConfs >= 1
    requires H.Plan(p, w.h.ch, w.h.rec, v).send.NoTx? && H.Plan(p, w.h.ch, w.h.rec, v).after == rec
    requires w.h.rec.sent == rec.sent
    requires Enabled(p, w, HolderActs(v, Whole))
    ensures Reachable(p, w') && w' == World(w.d, w.h.(rec := rec, stepped := true))
  {
    w' := Extend(p, w, HolderActs(v, Whole));
  }

  /** The holder's lock is sent, mined and accepted. */
  lemma ToSent(p: Policy) returns (w: World)
    requires PolicyOk(p)
    ensures Reachable(p, w)
    ensures w == World(DeskAt(QUIET.(holderLock := Sent), D.EMPTY, 0, false), HolderAt(QUIET.(holderLock := Sent), ANNOUNCED, true))
  {
    StartReachable(p);
    w := Extend(p, START, HolderActs(HolderView(H.Unreachable, H.NoOffer, false), Whole));
  }

  lemma ToLockMined(p: Policy) returns (w: World)
    requires PolicyOk(p)
    ensures Reachable(p, w) && w == World(DeskAt(CH1, D.EMPTY, 0, false), HolderAt(CH1, ANNOUNCED, false))
  {
    w := ToSent(p);
    w := DeskStores(p, w, D.EMPTY);
    w := Extend(p, w, NewBlock(NONE.(holderLock := true)));
  }

  lemma ToAccepted(p: Policy) returns (w: World)
    requires PolicyOk(p) && Payable(p)
    ensures Reachable(p, w) && w == World(DeskAt(CH1, ACCEPTED, 0, false), HolderAt(CH1, ANNOUNCED, false))
  {
    w := ToLockMined(p);
    w := Extend(p, w, DeskActs(D.Accept));
  }

  /** The desk checks the holder's lock while it leaves room, and builds its own. */
  lemma PlanAccepted(p: Policy)
    requires PolicyOk(p) && Payable(p)
    ensures var s := D.Plan(p, CH1, ACCEPTED, DESK);
            s.send.NoTx? && s.after == BUILT.(phase := D.Locking)
  {
  }

  lemma ToLocking(p: Policy) returns (w: World)
    requires PolicyOk(p) && Payable(p)
    ensures Reachable(p, w)
    ensures w == World(DeskAt(CH1, BUILT.(phase := D.Locking), 1, true), HolderAt(CH1, OFFERED, true))
  {
    w := ToAccepted(p);
    w := HolderStores(p, w, WAITING, OFFERED);
    PlanAccepted(p);
    w := DeskStores(p, w, BUILT.(phase := D.Locking));
  }

  lemma ToLocked(p: Policy) returns (w: World)
    requires PolicyOk(p) && Payable(p)
    ensures Reachable(p, w)
    ensures w == World(DeskAt(CH1.(deskLock := Sent), BUILT.(phase := D.Locked), 1, true), HolderAt(CH1.(deskLock := Sent), OFFERED, true))
  {
    w := ToLocking(p);
    w := Extend(p, w, DeskActs(D.Advance(DESK, Whole)));
  }

  lemma ToMined(p: Policy) returns (w: World)
    requires PolicyOk(p) && Payable(p)
    ensures Reachable(p, w) && w == World(DeskAt(CH2, BUILT.(phase := D.Locked), 1, false), HolderAt(CH2, OFFERED, false))
  {
    w := ToLocked(p);
    w := Extend(p, w, NewBlock(NONE.(deskLock := true)));
  }

  /** The lock passes the holder's check. */
  lemma PlanChecked(p: Policy)
    requires PolicyOk(p) && Payable(p)
    ensures var s := H.Plan(p, CH2, OFFERED, SHOWING);
            s.send.NoTx? && s.after == CLAIMING
  {
  }

  lemma ToClaiming(p: Policy) returns (w: World)
    requires PolicyOk(p) && Payable(p)
    ensures Reachable(p, w) && w == World(DeskAt(CH2, SHOWN, 1, true), HolderAt(CH2, CLAIMING, true))
  {
    w := ToMined(p);
    w := DeskStores(p, w, SHOWN);
    PlanChecked(p);
    w := HolderStores(p, w, SHOWING, CLAIMING);
  }

  /** The holder builds its claim, draws its nonce, gets the desk's, signs its half, and completes with the desk's. */
  lemma PlanSigning(p: Policy)
    requires PolicyOk(p) && Payable(p)
    ensures H.Plan(p, CH2, CLAIMING, SHOWING) == H.Store(CLAIMING, CLAIMING.(claimBuilt := true))
    ensures H.Plan(p, CH2, CLAIMING.(claimBuilt := true), SHOWING)
            == H.Store(CLAIMING.(claimBuilt := true), CLAIMING.(claimBuilt := true, nonceDrawn := true))
    ensures H.Plan(p, CH2, CLAIMING.(claimBuilt := true, nonceDrawn := true), SHOWING)
            == H.Store(CLAIMING.(claimBuilt := true, nonceDrawn := true), HALF.(halfSigned := false))
    ensures H.Plan(p, CH2, HALF.(halfSigned := false), SHOWING) == H.Store(HALF.(halfSigned := false), HALF)
    ensures H.Plan(p, CH2, HALF, ANSWERED) == H.Store(HALF, COMPLETE)
  {
  }

  lemma ToHalf(p: Policy) returns (w: World)
    requires PolicyOk(p) && Payable(p)
    ensures Reachable(p, w) && w == World(DeskAt(CH2, SHOWN, 1, true), HolderAt(CH2, HALF, true))
  {
    w := ToClaiming(p);
    PlanSigning(p);
    w := HolderStores(p, w, SHOWING, CLAIMING.(claimBuilt := true));
    w := HolderStores(p, w, SHOWING, CLAIMING.(claimBuilt := true, nonceDrawn := true));
    w := HolderStores(p, w, SHOWING, HALF.(halfSigned := false));
    w := HolderStores(p, w, SHOWING, HALF);
  }

  /** The desk gives its half. */
  lemma ToSigned(p: Policy) returns (w: World)
    requires PolicyOk(p) && Payable(p)
    ensures Reachable(p, w) && w == World(DeskAt(CH2, SIGNED, 1, true), HolderAt(CH2, HALF, true))
  {
    w := ToHalf(p);
    w := Extend(p, w, DeskActs(D.Sign(DESK)));
  }

  lemma ToComplete(p: Policy) returns (w: World)
    requires PolicyOk(p) && Payable(p)
    ensures Reachable(p, w) && w == World(DeskAt(CH2, SIGNED, 1, true), HolderAt(CH2, COMPLETE, true))
  {
    w := ToSigned(p);
    PlanSigning(p);
    w := HolderStores(p, w, ANSWERED, COMPLETE);
  }

  /** The claim goes out. */
  lemma ToClaimOut(p: Policy) returns (w: World)
    requires PolicyOk(p) && Payable(p)
    ensures Reachable(p, w) && w.d.ch.claim != Unsent
  {
    w := ToComplete(p);
    assert H.Plan(p, CH2, COMPLETE, ANSWERED).send == Just(Claim);
    w := Extend(p, w, HolderActs(ANSWERED, Whole));
  }

  // ----- and no others

  /** What each side's checks say of the terms once they have passed. */
  ghost predicate TermsShown(p: Policy, w: World) {
    && (!(w.d.rec.phase.NoRecord? || w.d.rec.phase.Accepted? || w.d.rec.phase.Aborted?) ==>
          p.csvHolder - 1 >= p.lockDelay + p.csvDesk + p.takeMargin)
    && (w.d.rec.signed ==> p.signStop < p.csvDesk - 1)
    && (w.h.rec.sent ==> p.claimLeft <= p.csvDesk - 1)
  }

  lemma DeskTerms(p: Policy, w: D.World, v: D.View, cut: Cut)
    requires PolicyOk(p) && D.Safe(p, w) && D.Enabled(p, w, D.Advance(v, cut))
    requires w.rec.phase.NoRecord? || w.rec.phase.Accepted? || w.rec.phase.Aborted?
    ensures var rec' := D.Next(p, w, D.Advance(v, cut)).rec;
            || rec'.phase == w.rec.phase || rec'.phase.Aborted?
            || p.csvHolder - 1 >= p.lockDelay + p.csvDesk + p.takeMargin
  {
  }

  lemma HolderTerms(p: Policy, w: H.World, v: H.View, cut: Cut)
    requires PolicyOk(p) && H.Safe(p, w) && H.Enabled(p, w, H.Advance(v, cut)) && !w.rec.sent
    ensures H.Next(p, w, H.Advance(v, cut)).rec.sent ==> p.claimLeft <= p.csvDesk - 1
  {
    H.StepKept(p, w, v, cut);
  }

  lemma TermsStep(p: Policy, w: World, a: Action)
    requires PolicyOk(p) && Safe(p, w) && TermsShown(p, w) && Enabled(p, w, a)
    ensures TermsShown(p, Next(p, w, a))
  {
    match a
    case DeskActs(Advance(v, cut)) =>
      if w.d.rec.phase.NoRecord? || w.d.rec.phase.Accepted? || w.d.rec.phase.Aborted? {
        DeskTerms(p, w.d, v, cut);
      }
      D.StepKeepsSigned(p, w.d, v, cut);
    case HolderActs(v, cut) =>
      if !w.h.rec.sent {
        HolderTerms(p, w.h, v, cut);
      }
    case _ =>
  }

  lemma {:induction false} TermsRun(p: Policy, actions: seq<Action>)
    requires PolicyOk(p) && Legal(p, actions)
    ensures TermsShown(p, Run(p, actions))
  {
    if actions != [] {
      var before := actions[..|actions| - 1];
      TermsRun(p, before);
      RunIsSafe(p, before);
      TermsStep(p, Run(p, before), actions[|actions| - 1]);
    }
  }

  /** A timely run pays both sides on exactly these terms. */
  lemma PaidExactly(p: Policy)
    requires PolicyOk(p)
    ensures CanBePaid(p) <==> Payable(p)
  {
    if Payable(p) {
      var w := ToClaimOut(p);
      ReachablePaid(p, w);
    }
    if CanBePaid(p) {
      var w :| Reachable(p, w) && BothPaid(w);
      var actions :| Legal(p, actions) && OnTime(p, actions) && Run(p, actions) == w;
      RunIsSafe(p, actions);
      TermsRun(p, actions);
    }
  }

  /** The default terms are such. */
  lemma DefaultsPay()
    ensures CanBePaid(DEFAULTS)
  {
    PaidExactly(DEFAULTS);
  }
}
