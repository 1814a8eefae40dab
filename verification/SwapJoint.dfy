/** Holder, desk and chain together. Every joint step is, for each side, either its own step or
    something its counterparty could have done, so both sides' guarantees hold at once: a swap ends
    with both paid, or with neither. */
module SwapJoint {
  import opened SwapChain
  import D = SwapDesk
  import H = SwapHolder

  datatype World = World(d: D.World, h: H.World)

  datatype Action =
    | DeskActs(da: D.Action)
    | HolderActs(v: H.View, cut: Cut)
    | NewBlock(b: Block)

  /** The holder's answers come from this desk: an offer is taken only into a record, a lock is shown
      only once it is offered, and a half of the signature is given only by a session that stored it. */
  predicate Enabled(p: Policy, w: World, a: Action) {
    match a
    case DeskActs(da) => (da.Accept? || da.Advance? || da.Sign?) && D.Enabled(p, w.d, da)
    case HolderActs(v, cut) =>
      && H.Enabled(p, w.h, H.Advance(v, cut))
      && (v.offer.Taken? ==> !w.d.rec.phase.NoRecord?)
      && (v.status.Lock? ==> !(w.d.rec.phase.NoRecord? || w.d.rec.phase.Accepted? || w.d.rec.phase.Aborted? || w.d.rec.phase.Locking? || w.d.rec.phase.Locked?))
      && (v.halfGiven ==> w.d.rec.signed)
    case NewBlock(b) => BlockOk(p, w.d.ch, b)
  }

  function Next(p: Policy, w: World, a: Action): World {
    match a
    case DeskActs(da) =>
      var d := D.Next(p, w.d, da);
      World(d, w.h.(ch := d.ch))
    case HolderActs(v, cut) =>
      var h := H.Next(p, w.h, H.Advance(v, cut));
      World(w.d.(ch := h.ch), h)
    case NewBlock(b) => World(D.Next(p, w.d, D.NewBlock(b)), H.Next(p, w.h, H.NewBlock(b)))
  }

  predicate Timely(p: Policy, w: World, a: Action) {
    a.NewBlock? ==> D.Timely(p, w.d, D.NewBlock(a.b)) && H.Timely(p, w.h, H.NewBlock(a.b))
  }

  ghost predicate Safe(p: Policy, w: World) {
    && w.d.ch == w.h.ch
    && D.Safe(p, w.d) && H.Safe(p, w.h)
    && (w.h.rec.complete ==> w.d.rec.signed)
  }

  ghost predicate Prompt(p: Policy, w: World)
    requires Safe(p, w)
  {
    D.Prompt(p, w.d) && H.Prompt(p, w.h)
  }

  /** To the holder, a desk's step is nothing or one transaction it could have expected. */
  lemma DeskStepSeenByHolder(p: Policy, w: World, da: D.Action)
    requires PolicyOk(p) && Safe(p, w) && Enabled(p, w, DeskActs(da))
    ensures var h' := Next(p, w, DeskActs(da)).h;
            || h' == w.h
            || (exists tx :: H.Enabled(p, w.h, H.OtherSends(tx)) && h' == H.Next(p, w.h, H.OtherSends(tx)))
  {
    var h' := Next(p, w, DeskActs(da)).h;
    if da.Advance? {
      var s := D.Plan(p, w.d.ch, w.d.rec, da.v);
      if h' != w.h {
        var tx := s.send.tx;
        assert h' == H.Next(p, w.h, H.OtherSends(tx));
        assert tx == DeskLock || tx == DeskRefund || tx == Take;
        assert H.Enabled(p, w.h, H.OtherSends(tx));
      }
    }
  }

  /** To the desk, a holder's step is nothing or one transaction it could have expected. */
  lemma HolderStepSeenByDesk(p: Policy, w: World, v: H.View, cut: Cut)
    requires PolicyOk(p) && Safe(p, w) && Enabled(p, w, HolderActs(v, cut))
    ensures var d' := Next(p, w, HolderActs(v, cut)).d;
            || d' == w.d
            || (exists tx :: D.Enabled(p, w.d, D.OtherSends(tx)) && d' == D.Next(p, w.d, D.OtherSends(tx)))
  {
    var d' := Next(p, w, HolderActs(v, cut)).d;
    var s := H.Plan(p, w.h.ch, w.h.rec, v);
    if d' != w.d {
      var tx := s.send.tx;
      assert d' == D.Next(p, w.d, D.OtherSends(tx));
      assert tx == HolderLock || tx == HolderRefund || (tx == Claim && w.h.rec.complete);
      assert D.Enabled(p, w.d, D.OtherSends(tx));
    }
  }

  /** The claim is completed only with the desk's half. */
  lemma CompleteNeedsHalf(p: Policy, w: World, a: Action)
    requires Safe(p, w) && Enabled(p, w, a)
    ensures var w' := Next(p, w, a);
            w'.h.rec.complete ==> w'.d.rec.signed
  {
    match a
    case DeskActs(da) =>
      if da.Advance? {
        D.StepKeepsSigned(p, w.d, da.v, da.cut);
      }
    case HolderActs(_, _) =>
    case NewBlock(_) =>
  }

  lemma SafeStep(p: Policy, w: World, a: Action)
    requires PolicyOk(p) && Safe(p, w) && Enabled(p, w, a)
    ensures Safe(p, Next(p, w, a))
  {
    CompleteNeedsHalf(p, w, a);
    match a
    case DeskActs(da) =>
      D.SafeStep(p, w.d, da);
      DeskStepSeenByHolder(p, w, da);
      var h' := Next(p, w, a).h;
      if h' != w.h {
        var tx :| H.Enabled(p, w.h, H.OtherSends(tx)) && h' == H.Next(p, w.h, H.OtherSends(tx));
        H.SafeStep(p, w.h, H.OtherSends(tx));
      }
    case HolderActs(v, cut) =>
      H.SafeStep(p, w.h, H.Advance(v, cut));
      HolderStepSeenByDesk(p, w, v, cut);
      var d' := Next(p, w, a).d;
      if d' != w.d {
        var tx :| D.Enabled(p, w.d, D.OtherSends(tx)) && d' == D.Next(p, w.d, D.OtherSends(tx));
        D.SafeStep(p, w.d, D.OtherSends(tx));
      }
    case NewBlock(b) =>
      D.SafeStep(p, w.d, D.NewBlock(b));
      H.SafeStep(p, w.h, H.NewBlock(b));
  }

  /** A holder that keeps its own margin is claimed before the desk's refund opens. */
  lemma ClaimsAreEarly(p: Policy, w: World)
    requires PolicyOk(p) && Safe(p, w) && Prompt(p, w)
    ensures D.ClaimInTime(p, w.d)
  {
  }

  lemma PromptStep(p: Policy, w: World, a: Action)
    requires PolicyOk(p) && Safe(p, w) && Prompt(p, w) && Enabled(p, w, a) && Timely(p, w, a)
    ensures Safe(p, Next(p, w, a)) && Prompt(p, Next(p, w, a))
  {
    SafeStep(p, w, a);
    match a
    case DeskActs(da) =>
      ClaimsAreEarly(p, w);
      D.PromptStep(p, w.d, da);
      DeskStepSeenByHolder(p, w, da);
      var h' := Next(p, w, a).h;
      if h' != w.h {
        var tx :| H.Enabled(p, w.h, H.OtherSends(tx)) && h' == H.Next(p, w.h, H.OtherSends(tx));
        H.PromptStep(p, w.h, H.OtherSends(tx));
      }
    case HolderActs(v, cut) =>
      H.PromptStep(p, w.h, H.Advance(v, cut));
      HolderStepSeenByDesk(p, w, v, cut);
      var d' := Next(p, w, a).d;
      if d' != w.d {
        var tx :| D.Enabled(p, w.d, D.OtherSends(tx)) && d' == D.Next(p, w.d, D.OtherSends(tx));
        ClaimsAreEarly(p, w);
        D.PromptStep(p, w.d, D.OtherSends(tx));
      }
    case NewBlock(b) =>
      ClaimsAreEarly(p, w);
      D.PromptStep(p, w.d, D.NewBlock(b));
      H.PromptStep(p, w.h, H.NewBlock(b));
  }

  // ----- whole runs

  const START := World(D.START, H.START)

  function Run(p: Policy, actions: seq<Action>): World {
    if actions == [] then START else Next(p, Run(p, actions[..|actions| - 1]), actions[|actions| - 1])
  }

  ghost predicate Legal(p: Policy, actions: seq<Action>) {
    actions != [] ==>
      var before, a := actions[..|actions| - 1], actions[|actions| - 1];
      Legal(p, before) && Enabled(p, Run(p, before), a)
  }

  ghost predicate OnTime(p: Policy, actions: seq<Action>) {
    actions != [] ==>
      var before, a := actions[..|actions| - 1], actions[|actions| - 1];
      OnTime(p, before) && Timely(p, Run(p, before), a)
  }

  lemma {:induction false} RunIsSafe(p: Policy, actions: seq<Action>)
    requires PolicyOk(p) && Legal(p, actions)
    ensures Safe(p, Run(p, actions))
    ensures OnTime(p, actions) ==> Prompt(p, Run(p, actions))
  {
    if actions != [] {
      var before, a := actions[..|actions| - 1], actions[|actions| - 1];
      RunIsSafe(p, before);
      SafeStep(p, Run(p, before), a);
      if OnTime(p, actions) {
        PromptStep(p, Run(p, before), a);
      }
    }
  }

  predicate BothPaid(w: World) {
    w.d.rec.phase.Done? && w.h.rec.phase.Done? && w.d.ch.claim.Mined? && w.d.ch.take.Mined?
  }

  predicate BothBack(w: World) {
    && (w.d.rec.phase.NoRecord? || w.d.rec.phase.Aborted? || w.d.rec.phase.Refunded?) && w.h.rec.phase.Refunded?
    && w.d.ch.claim == Unsent && w.d.ch.take == Unsent
    && (w.d.ch.deskLock.Mined? ==> w.d.ch.deskRefund.Mined?)
  }

  /** Atomicity: in no reachable state is either side lost or half-paid, and once the holder's lock is
      old enough and both have stepped, both are paid or both have back what they locked. */
  lemma SwapIsAtomic(p: Policy, actions: seq<Action>)
    requires PolicyOk(p) && Legal(p, actions) && OnTime(p, actions)
    ensures var w := Run(p, actions);
            && !w.d.rec.phase.Lost? && !w.h.rec.phase.DeskTook?
            && (w.d.ch.claim.Mined? ==> !w.d.ch.holderRefund.Mined? && !w.d.ch.deskRefund.Mined?)
            && (w.d.ch.take.Mined? ==> w.d.ch.claim != Unsent && !w.d.ch.deskRefund.Mined?)
            && (w.d.ch.holderLock.Mined? && w.d.ch.deskLock.Mined? ==>
                  w.d.ch.holderLock.height + p.csvHolder > w.d.ch.deskLock.height + p.csvDesk + p.takeMargin)
            && (w.d.ch.holderLock.Mined? && w.d.stepped && w.h.stepped
                && w.d.ch.tip > w.d.ch.holderLock.height + p.csvHolder + p.claimLeft + p.refundDelay + p.holderRefundDelay ==>
                  BothPaid(w) || BothBack(w))
  {
    RunIsSafe(p, actions);
  }

  // ----- both endings happen

  ghost predicate Reachable(p: Policy, w: World) {
    exists actions :: Legal(p, actions) && OnTime(p, actions) && Run(p, actions) == w
  }

  lemma Extend(p: Policy, w: World, a: Action) returns (w': World)
    requires Reachable(p, w) && Enabled(p, w, a) && Timely(p, w, a)
    ensures w' == Next(p, w, a) && Reachable(p, w')
  {
    var before :| Legal(p, before) && OnTime(p, before) && Run(p, before) == w;
    var actions := before + [a];
    assert actions[..|actions| - 1] == before;
    w' := Next(p, w, a);
    assert Legal(p, actions) && OnTime(p, actions) && Run(p, actions) == w';
  }

  lemma StartReachable(p: Policy)
    ensures Reachable(p, START)
  {
    assert Legal(p, []) && OnTime(p, []) && Run(p, []) == START;
  }
}
