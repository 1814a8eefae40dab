/** How exact the desk's margin is: when its refund's delay and the take's together exceed `takeMargin`, a holder that
    claims at the last moment and refunds at the first does make a desk lose, on any such terms and in time. */
module SwapMargin {
  import opened SwapChain
  import opened SwapDesk

  /** Terms a desk can lock and sign under at all. */
  predicate Workable(p: Policy) {
    && p.lockDelay >= 2 && p.csvDesk >= 4 && p.refundDelay >= 1 && p.takeDelay >= 1 && p.takeMargin >= 0
    && p.signStop >= 0 && p.csvDesk - 1 > p.signStop && p.claimLeft >= 1 && p.holderRefundDelay >= 1
    && p.csvHolder >= 1 + p.lockDelay + p.csvDesk + p.takeMargin
  }

  const NONE := Block(false, false, false, false, false, false)
  const IDLE := View(NoTx, NoTx, 1, false, false, false)
  const FUNDED := View(NoTx, NoTx, 1, false, true, false)
  const CLAIMED := View(NoTx, Just(Claim), 1, false, false, true)

  ghost predicate Timed(p: Policy, actions: seq<Action>) {
    Legal(p, actions) && OnTime(p, actions)
  }

  /** A timely run that ends in w. */
  ghost predicate EndsIn(p: Policy, actions: seq<Action>, w: World) {
    Timed(p, actions) && Run(p, actions) == w
  }

  lemma Do(p: Policy, actions: seq<Action>, w: World, a: Action) returns (longer: seq<Action>)
    requires EndsIn(p, actions, w) && Enabled(p, w, a) && Timely(p, w, a)
    ensures EndsIn(p, longer, Next(p, w, a))
  {
    longer := actions + [a];
    assert longer[..|longer| - 1] == actions;
  }

  /** The same world at another height. */
  function AtTip(w: World, tip: int): World {
    w.(ch := w.ch.(tip := tip))
  }

  /** Nothing happens in the next block or in the step after it. */
  ghost predicate Quiet(p: Policy, w: World, v: View, tip: int) {
    && Enabled(p, AtTip(w, tip), NewBlock(NONE)) && Timely(p, AtTip(w, tip), NewBlock(NONE))
    && var m := AtTip(w, tip + 1).(stepped := false);
       Enabled(p, m, Advance(v, Whole)) && Next(p, m, Advance(v, Whole)) == AtTip(w, tip + 1)
  }

  lemma {:induction false} Wait(p: Policy, actions: seq<Action>, w: World, v: View, n: nat) returns (longer: seq<Action>)
    requires EndsIn(p, actions, w) && w.stepped
    requires forall tip :: w.ch.tip <= tip < w.ch.tip + n ==> Quiet(p, w, v, tip)
    ensures EndsIn(p, longer, AtTip(w, w.ch.tip + n))
    decreases n
  {
    longer := actions;
    if n > 0 {
      var tip := w.ch.tip;
      assert Quiet(p, w, v, tip) && AtTip(w, tip) == w;
      var mid := Do(p, actions, w, NewBlock(NONE));
      assert Next(p, w, NewBlock(NONE)) == AtTip(w, tip + 1).(stepped := false);
      mid := Do(p, mid, AtTip(w, tip + 1).(stepped := false), Advance(v, Whole));
      var w' := AtTip(w, tip + 1);
      forall t | w'.ch.tip <= t < w'.ch.tip + (n - 1) ensures Quiet(p, w', v, t) {
        assert Quiet(p, w, v, t) && AtTip(w', t) == AtTip(w, t) && AtTip(w', t + 1) == AtTip(w, t + 1);
      }
      longer := Wait(p, mid, w', v, n - 1);
    }
  }

  /** The last height at which the desk still finds room to lock. */
  function LastCheck(p: Policy): int {
    p.csvHolder - p.lockDelay - p.csvDesk - p.takeMargin
  }

  function LockedAt(p: Policy): int {
    LastCheck(p) + p.lockDelay
  }

  function RefundAt(p: Policy): int {
    LockedAt(p) + p.csvDesk - 1
  }

  // ----- the stations of the run

  function Waiting(p: Policy, tip: int): World {
    World(Chain(tip, Mined(1), Unsent, Unsent, Unsent, Unsent, Unsent), EMPTY.(phase := Accepted), 0, 0, 0, 0, true)
  }

  function Sending(p: Policy): World {
    var t := LastCheck(p);
    World(Chain(t, Mined(1), Sent, Unsent, Unsent, Unsent, Unsent), EMPTY.(phase := Locked, lockBuilt := true), t, 0, 0, 0, true)
  }

  function Confirmed(p: Policy): World {
    var t, l := LastCheck(p), LockedAt(p);
    World(Chain(l, Mined(1), Mined(l), Unsent, Unsent, Unsent, Unsent), EMPTY.(phase := Locked, lockBuilt := true), t, 0, 0, 0, false)
  }

  function Signed(p: Policy): World {
    var t, l := LastCheck(p), LockedAt(p);
    World(Chain(l, Mined(1), Mined(l), Unsent, Unsent, Unsent, Unsent), Record(Offered, true, true, l, false, false), t, 0, 0, 0, true)
  }

  function RefundOut(p: Policy): World {
    var t, l, r := LastCheck(p), LockedAt(p), RefundAt(p);
    World(Chain(r, Mined(1), Mined(l), Unsent, Sent, Unsent, Unsent), Record(Refunding, true, true, l, true, false), t, r, 0, 0, true)
  }

  function Read(p: Policy): World {
    var t, l, r := LastCheck(p), LockedAt(p), RefundAt(p);
    var c := r + p.refundDelay;
    World(Chain(c, Mined(1), Mined(l), Mined(c), Sent, Unsent, Unsent), Record(Taking, true, true, l, true, false), t, r, 0, c, true)
  }

  lemma ToWaiting(p: Policy) returns (actions: seq<Action>)
    requires Workable(p)
    ensures EndsIn(p, actions, Waiting(p, 1))
  {
    assert EndsIn(p, [], START);
    actions := Do(p, [], START, OtherSends(HolderLock));
    var w1 := START.(ch := START.ch.(holderLock := Sent));
    actions := Do(p, actions, w1, Advance(IDLE, Whole));
    actions := Do(p, actions, w1.(stepped := true), NewBlock(NONE.(holderLock := true)));
    var w2 := World(Chain(1, Mined(1), Unsent, Unsent, Unsent, Unsent, Unsent), EMPTY, 0, 0, 0, 0, false);
    actions := Do(p, actions, w2, Accept);
    actions := Do(p, actions, w2.(rec := EMPTY.(phase := Accepted)), Advance(IDLE, Whole));
  }

  lemma ToSending(p: Policy) returns (actions: seq<Action>)
    requires Workable(p)
    ensures EndsIn(p, actions, Sending(p))
  {
    var t := LastCheck(p);
    actions := ToWaiting(p);
    forall tip | 1 <= tip < t ensures Quiet(p, Waiting(p, 1), IDLE, tip) {
    }
    actions := Wait(p, actions, Waiting(p, 1), IDLE, t - 1);
    actions := Do(p, actions, Waiting(p, t), Advance(FUNDED, Whole));
    var w := Waiting(p, t).(rec := EMPTY.(phase := Locking, lockBuilt := true), checkTip := t);
    actions := Do(p, actions, w, Advance(IDLE, Whole));
  }

  lemma SendingIsQuiet(p: Policy, tip: int)
    requires Workable(p) && LastCheck(p) <= tip < LastCheck(p) + (p.lockDelay - 1)
    ensures Quiet(p, Sending(p), IDLE, tip)
  {
  }

  ghost predicate Moves(p: Policy, w: World, a: Action, w': World) {
    Enabled(p, w, a) && Timely(p, w, a) && Next(p, w, a) == w'
  }

  lemma LockIsMined(p: Policy)
    requires Workable(p)
    ensures Moves(p, AtTip(Sending(p), LockedAt(p) - 1), NewBlock(NONE.(deskLock := true)), Confirmed(p))
  {
  }

  lemma ToDue(p: Policy) returns (actions: seq<Action>)
    requires Workable(p)
    ensures EndsIn(p, actions, AtTip(Sending(p), LockedAt(p) - 1))
  {
    actions := ToSending(p);
    forall tip | LastCheck(p) <= tip < LastCheck(p) + (p.lockDelay - 1) ensures Quiet(p, Sending(p), IDLE, tip) {
      SendingIsQuiet(p, tip);
    }
    actions := Wait(p, actions, Sending(p), IDLE, p.lockDelay - 1);
  }

  /** The desk's lock confirms at the last moment. */
  lemma ToLocked(p: Policy) returns (actions: seq<Action>)
    requires Workable(p)
    ensures EndsIn(p, actions, Confirmed(p))
  {
    actions := ToDue(p);
    LockIsMined(p);
    actions := Do(p, actions, AtTip(Sending(p), LockedAt(p) - 1), NewBlock(NONE.(deskLock := true)));
  }

  lemma ToSigned(p: Policy) returns (actions: seq<Action>)
    requires Workable(p)
    ensures EndsIn(p, actions, Signed(p))
  {
    actions := ToLocked(p);
    actions := Do(p, actions, Confirmed(p), Advance(IDLE, Whole));
    actions := Do(p, actions, Signed(p).(rec := Signed(p).rec.(signed := false)), Sign(IDLE));
  }

  lemma ToRefunding(p: Policy) returns (actions: seq<Action>)
    requires Workable(p)
    ensures EndsIn(p, actions, RefundOut(p))
  {
    var l, r := LockedAt(p), RefundAt(p);
    actions := ToSigned(p);
    forall tip | l <= tip < l + (p.csvDesk - 2) ensures Quiet(p, Signed(p), IDLE, tip) {
    }
    actions := Wait(p, actions, Signed(p), IDLE, p.csvDesk - 2);
    actions := Do(p, actions, AtTip(Signed(p), r - 1), NewBlock(NONE));
    actions := Do(p, actions, AtTip(Signed(p), r).(stepped := false), Advance(IDLE, Whole));
  }

  lemma ToLateClaim(p: Policy) returns (actions: seq<Action>)
    requires Workable(p)
    ensures EndsIn(p, actions, Late(p))
  {
    var r := RefundAt(p);
    actions := ToRefunding(p);
    forall tip | r <= tip < r + (p.refundDelay - 1) ensures Quiet(p, RefundOut(p), IDLE, tip) {
    }
    actions := Wait(p, actions, RefundOut(p), IDLE, p.refundDelay - 1);
  }

  function Late(p: Policy): World {
    AtTip(RefundOut(p), RefundAt(p) + p.refundDelay - 1)
  }

  function ClaimMined(p: Policy): World {
    Read(p).(rec := RefundOut(p).rec, readAt := 0, stepped := false)
  }

  lemma ClaimIsSent(p: Policy)
    requires Workable(p)
    ensures Moves(p, Late(p), OtherSends(Claim), Late(p).(ch := Late(p).ch.(claim := Sent)))
  {
  }

  lemma ClaimIsMined(p: Policy)
    requires Workable(p)
    ensures Moves(p, Late(p).(ch := Late(p).ch.(claim := Sent)), NewBlock(NONE.(claim := true)), ClaimMined(p))
  {
  }

  /** The claim is mined where the desk's refund was due. */
  lemma ToClaimed(p: Policy) returns (actions: seq<Action>)
    requires Workable(p)
    ensures EndsIn(p, actions, ClaimMined(p))
  {
    actions := ToLateClaim(p);
    ClaimIsSent(p);
    actions := Do(p, actions, Late(p), OtherSends(Claim));
    ClaimIsMined(p);
    actions := Do(p, actions, Late(p).(ch := Late(p).ch.(claim := Sent)), NewBlock(NONE.(claim := true)));
  }

  lemma ToRead(p: Policy) returns (actions: seq<Action>)
    requires Workable(p)
    ensures EndsIn(p, actions, Read(p))
  {
    actions := ToClaimed(p);
    actions := Do(p, actions, ClaimMined(p), Advance(CLAIMED, Whole));
  }

  /** The holder's refund comes into sight before the take is mined. */
  lemma RefundFirst(p: Policy, actions: seq<Action>, w: World) returns (longer: seq<Action>)
    requires EndsIn(p, actions, w) && w.rec.phase.Taking? && w.ch.tip >= p.csvHolder
    requires w.ch.holderLock == Mined(1) && w.ch.holderRefund == Unsent && !w.ch.take.Mined? && w.ch.claim.Mined? && !w.ch.deskRefund.Mined?
    requires p.csvHolder >= 1
    ensures Timed(p, longer) && Run(p, longer).rec.phase.Lost?
  {
    longer := Do(p, actions, w, OtherSends(HolderRefund));
    var w' := w.(ch := w.ch.(holderRefund := Sent));
    longer := Do(p, longer, w', Advance(View(Just(HolderRefund), Just(Claim), 1, false, false, true), Whole));
  }

  /** With delays beyond the margin, some timely run of legal steps loses. */
  lemma MarginIsNeeded(p: Policy) returns (actions: seq<Action>)
    requires Workable(p) && p.refundDelay + p.takeDelay > p.takeMargin
    ensures Timed(p, actions) && Run(p, actions).rec.phase.Lost?
  {
    actions := ToRead(p);
    var w, c := Read(p), RefundAt(p) + p.refundDelay;
    if c < p.csvHolder {
      actions := Do(p, actions, w, NewBlock(NONE));
      var w1 := AtTip(w, c + 1).(stepped := false);
      actions := Do(p, actions, w1, Advance(CLAIMED, Whole));
      w := w1.(ch := w1.ch.(take := Sent), rec := w1.rec.(takeBuilt := true), takeSentAt := c + 1, stepped := true);
      forall tip | c + 1 <= tip < p.csvHolder ensures Quiet(p, w, CLAIMED, tip) {
      }
      actions := Wait(p, actions, w, CLAIMED, p.csvHolder - (c + 1));
      w := AtTip(w, p.csvHolder);
    }
    actions := RefundFirst(p, actions, w);
  }

  /** The desk's margin is exact: on workable terms a timely desk is safe from every holder if and only if its two delays
      fit the margin. */
  lemma MarginIsExact(p: Policy)
    requires Workable(p)
    ensures (forall actions :: Timed(p, actions) ==> !Run(p, actions).rec.phase.Lost?)
            <==> p.refundDelay + p.takeDelay <= p.takeMargin
  {
    if p.refundDelay + p.takeDelay <= p.takeMargin {
      var p' := p.(claimLate := p.refundDelay);
      forall actions | Timed(p, actions) ensures !Run(p, actions).rec.phase.Lost? {
        SameRuns(p, p', actions);
        DeskNeverLoses(p', actions);
      }
    } else {
      var actions := MarginIsNeeded(p);
      assert Timed(p, actions);
    }
  }

  /** `claimLate` is only a name in the proofs: it changes no run. */
  lemma {:induction false} SameRuns(p: Policy, p': Policy, actions: seq<Action>)
    requires p' == p.(claimLate := p'.claimLate)
    ensures Run(p, actions) == Run(p', actions) && (Legal(p, actions) <==> Legal(p', actions)) && (OnTime(p, actions) <==> OnTime(p', actions))
  {
    if actions != [] {
      SameRuns(p, p', actions[..|actions| - 1]);
      SameNext(p, p', Run(p, actions[..|actions| - 1]), actions[|actions| - 1]);
      SameEnabled(p, p', Run(p, actions[..|actions| - 1]), actions[|actions| - 1]);
    }
  }

  lemma SamePlan(p: Policy, p': Policy, ch: Chain, rec: Record, v: View)
    requires p' == p.(claimLate := p'.claimLate)
    ensures Plan(p, ch, rec, v) == Plan(p', ch, rec, v)
  {
  }

  lemma SameNext(p: Policy, p': Policy, w: World, a: Action)
    requires p' == p.(claimLate := p'.claimLate)
    ensures Next(p, w, a) == Next(p', w, a)
  {
    if a.Advance? {
      SamePlan(p, p', w.ch, w.rec, a.v);
    }
  }

  lemma SameEnabled(p: Policy, p': Policy, w: World, a: Action)
    requires p' == p.(claimLate := p'.claimLate)
    ensures (Enabled(p, w, a) <==> Enabled(p', w, a)) && (Timely(p, w, a) <==> Timely(p', w, a))
  {
    if a.Advance? {
      SamePlan(p, p', w.ch, w.rec, a.v);
    }
  }
}
