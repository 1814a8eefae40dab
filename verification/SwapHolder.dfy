/** The holder of a swap (dapp/btcswap-holder.js): one durable record advanced step by step, with a
    crash possible after any save or broadcast. The desk is anything at all. */
module SwapHolder {
  import opened SwapChain

  datatype Phase =
    | Built | Announced | Offered | Claiming | Claimed | Done
    | RefundWait | Refunded | DeskTook

  /** The stored record; the flags say which fields of the claim and the refund are present. */
  datatype Record = Record(
    phase: Phase, deskLockHeight: int,
    claimBuilt: bool, nonceDrawn: bool, deskNonce: bool, halfSigned: bool, complete: bool, sent: bool,
    refundBuilt: bool)

  const NEW := Record(Built, 0, false, false, false, false, false, false, false)

  datatype OfferAnswer = Unreachable | Declined(retry: bool) | Taken

  datatype DeskAnswer = GaveUp | NoOffer | NotShown | Lock(valid: bool, tracked: bool)

  /** What one `advance` reads besides the heights: spenders, the desk's answers, and whether the
      waiting time is over. `valid` stands for every check of the desk's lock but the two that only
      wait and the time left. */
  datatype View = View(
    holderSpender: MaybeTx, deskSpender: MaybeTx, late: bool,
    offer: OfferAnswer, status: DeskAnswer, minConfs: int, nonceGiven: bool, halfGiven: bool)

  predicate Sees(p: Policy, ch: Chain, v: View) {
    SeesHolderLock(p, ch, v.holderSpender) && SeesDeskLock(p, ch, v.deskSpender)
  }

  /** Fewer than `claimLeft` blocks remain before the desk's refund opens. */
  predicate TooLate(p: Policy, ch: Chain, lockHeight: int) {
    ch.tip + p.claimLeft > lockHeight + p.csvDesk - 1
  }

  /** Whether the desk's lock passes `checkDeskOffer`. */
  predicate LockPasses(p: Policy, ch: Chain, v: View) {
    && v.status.Lock? && v.status.valid && v.status.tracked
    && Confirmations(ch, DeskLock) >= v.minConfs
    && !(Confirmations(ch, DeskLock) > 0 && TooLate(p, ch, Height(ch, DeskLock)))
  }

  /** Whether all it lacks is confirmations or tracking. */
  predicate LockSettling(p: Policy, ch: Chain, v: View) {
    && v.status.Lock? && v.status.valid
    && !(Confirmations(ch, DeskLock) > 0 && TooLate(p, ch, Height(ch, DeskLock)))
  }

  /** What one step does: the record stored before anything is sent, what is sent, the record stored last. */
  datatype Steps = Steps(before: Record, send: MaybeTx, after: Record)

  function Store(rec: Record, rec': Record): Steps {
    Steps(rec, NoTx, rec')
  }

  function Settle(rec: Record, s: Steps, cut: Cut): Record {
    match cut
    case Nothing => rec
    case AfterSave => s.before
    case AfterSend => s.before
    case Whole => s.after
  }

  /** The holder's own lock, while no claim has been sent. */
  predicate Unsettled(rec: Record) {
    (rec.phase.Announced? || rec.phase.Offered? || rec.phase.Claiming?) && !rec.sent
  }

  predicate RefundDue(p: Policy, ch: Chain) {
    Confirmations(ch, HolderLock) != 0 && ch.tip >= Height(ch, HolderLock) + p.csvHolder - 1
  }

  /** Every part of the claim is there. */
  predicate ClaimReady(rec: Record) {
    rec.claimBuilt && rec.nonceDrawn && rec.deskNonce && rec.halfSigned && rec.complete
  }

  /** The parts of the claim there are stay as they are. */
  predicate SameClaim(rec: Record, rec': Record) {
    && rec'.claimBuilt == rec.claimBuilt && rec'.nonceDrawn == rec.nonceDrawn && rec'.deskNonce == rec.deskNonce
    && rec'.halfSigned == rec.halfSigned && rec'.complete == rec.complete
  }

  /** The claiming phase: build, draw a nonce, exchange nonces, sign, complete, and only then send. */
  function ClaimSteps(p: Policy, ch: Chain, rec: Record, v: View): (s: Steps)
    ensures s.before.complete == rec.complete && (s.after.complete ==> rec.complete || v.halfGiven)
    ensures ClaimReady(rec) ==> SameClaim(rec, s.before) && SameClaim(rec, s.after)
  {
    var giveUp := Store(rec, rec.(phase := RefundWait));
    if !rec.claimBuilt then
      if TooLate(p, ch, rec.deskLockHeight) then giveUp else Store(rec, rec.(claimBuilt := true))
    else if !rec.nonceDrawn then Store(rec, rec.(nonceDrawn := true))
    else if !rec.deskNonce then
      if v.nonceGiven then Store(rec, rec.(deskNonce := true)) else Store(rec, rec)
    else if !rec.halfSigned then
      if TooLate(p, ch, rec.deskLockHeight) then giveUp else Store(rec, rec.(halfSigned := true))
    else if !rec.complete then
      if v.halfGiven then Store(rec, rec.(complete := true)) else Store(rec, rec)
    else if !rec.sent && (v.deskSpender.Just? || TooLate(p, ch, rec.deskLockHeight)) then giveUp
    else Steps(rec.(sent := true), Just(Claim), rec.(sent := true, phase := Claimed))
  }

  /** Announced: offer the lock once it has confirmed. */
  function OfferSteps(ch: Chain, rec: Record, v: View): (s: Steps)
    ensures SameClaim(rec, s.before) && SameClaim(rec, s.after)
  {
    if Confirmations(ch, HolderLock) == 0 then Store(rec, rec)
    else if v.offer.Taken? then Store(rec, rec.(phase := Offered))
    else if (v.offer.Unreachable? || v.offer.retry) && !v.late then Store(rec, rec)
    else Store(rec, rec.(phase := RefundWait))
  }

  /** Offered: wait for the desk's lock, and check it. */
  function CheckSteps(p: Policy, ch: Chain, rec: Record, v: View): (s: Steps)
    ensures SameClaim(rec, s.before) && SameClaim(rec, s.after)
  {
    if v.status.GaveUp? then Store(rec, rec.(phase := RefundWait))
    else if !v.status.Lock? then (if v.late then Store(rec, rec.(phase := RefundWait)) else Store(rec, rec))
    else if LockPasses(p, ch, v) then Store(rec, rec.(phase := Claiming, deskLockHeight := Height(ch, DeskLock)))
    else if LockSettling(p, ch, v) && !v.late then Store(rec, rec)
    else Store(rec, rec.(phase := RefundWait))
  }

  /** Claimed: send the claim again until it confirms or the desk's lock goes elsewhere. */
  function ClaimedSteps(ch: Chain, rec: Record, v: View): (s: Steps)
    ensures SameClaim(rec, s.before) && SameClaim(rec, s.after)
  {
    if Confirmations(ch, Claim) != 0 then Store(rec, rec.(phase := Done))
    else if v.deskSpender.Just? && v.deskSpender.tx != Claim then Store(rec, rec.(phase := RefundWait))
    else Steps(rec, Just(Claim), rec)
  }

  /** `maybeRefund`: once the lock is old enough, learn who spent it or send the refund. */
  function RefundSteps(p: Policy, ch: Chain, rec: Record, v: View): (s: Steps)
    ensures SameClaim(rec, s.before) && SameClaim(rec, s.after)
  {
    if RefundDue(p, ch) && v.holderSpender.Just? then
      Store(rec, rec.(phase := if rec.refundBuilt && v.holderSpender.tx == HolderRefund then Refunded else DeskTook))
    else if RefundDue(p, ch) then
      Steps(rec.(refundBuilt := true), Just(HolderRefund), rec.(refundBuilt := true))
    else if rec.refundBuilt && Confirmations(ch, HolderRefund) != 0 then Store(rec, rec.(phase := Refunded))
    else Store(rec, rec)
  }

  /** `advance`: the saves and the broadcast of one step. */
  function Plan(p: Policy, ch: Chain, rec: Record, v: View): (s: Steps)
    ensures s.before.complete == rec.complete && (s.after.complete ==> rec.complete || v.halfGiven)
    ensures !rec.phase.Claiming? || ClaimReady(rec) ==> SameClaim(rec, s.before) && SameClaim(rec, s.after)
  {
    if Unsettled(rec) && Confirmations(ch, HolderLock) != 0 && v.holderSpender.Just? then Store(rec, rec.(phase := DeskTook))
    else if Unsettled(rec) && RefundDue(p, ch) then Store(rec, rec.(phase := RefundWait))
    else match rec.phase
      case Built => Steps(rec, Just(HolderLock), rec.(phase := Announced))
      case Announced => OfferSteps(ch, rec, v)
      case Offered => CheckSteps(p, ch, rec, v)
      case Claiming => ClaimSteps(p, ch, rec, v)
      case Claimed => ClaimedSteps(ch, rec, v)
      case RefundWait => RefundSteps(p, ch, rec, v)
      case _ => Store(rec, rec)
  }

  /** The record as an object: `advance` with its saves and its broadcast made one by one. */
  class Holder {
    var rec: Record
    /** Every transaction sent, and the record the store held when the last one went out. */
    var sent: seq<Tx>
    var heldAtSend: Record

    constructor Start()
      ensures rec == NEW && sent == [] && heldAtSend == NEW
    {
      rec, sent, heldAtSend := NEW, [], NEW;
    }

    method Save(r: Record)
      modifies this`rec
      ensures rec == r
    {
      rec := r;
    }

    method Send(tx: Tx)
      modifies this`sent, this`heldAtSend
      ensures sent == old(sent) + [tx] && heldAtSend == rec
    {
      sent := sent + [tx];
      heldAtSend := rec;
    }

    ghost predicate Did(sent0: seq<Tx>, held0: Record, s: Steps)
      reads this
    {
      && rec == s.after
      && (s.send.Just? ==> sent == sent0 + [s.send.tx] && heldAtSend == s.before)
      && (s.send.NoTx? ==> sent == sent0 && heldAtSend == held0)
    }

    /** One whole step does what `Plan` lists, in its order. */
    method Advance(p: Policy, ch: Chain, v: View)
      modifies this
      ensures Did(old(sent), old(heldAtSend), Plan(p, ch, old(rec), v))
    {
      if (rec.phase.Announced? || rec.phase.Offered? || rec.phase.Claiming?) && !rec.sent && Confirmations(ch, HolderLock) != 0 {
        if v.holderSpender.Just? {
          Save(rec.(phase := DeskTook));
          return;
        }
        if ch.tip >= Height(ch, HolderLock) + p.csvHolder - 1 {
          Save(rec.(phase := RefundWait));
          return;
        }
      }
      match rec.phase {
        case Built =>
          Send(HolderLock);
          Save(rec.(phase := Announced));
        case Announced => Offer(p, ch, v);
        case Offered => CheckDesk(p, ch, v);
        case Claiming => ClaimStep(p, ch, v);
        case Claimed =>
          if Confirmations(ch, Claim) != 0 {
            Save(rec.(phase := Done));
          } else if v.deskSpender.Just? && v.deskSpender.tx != Claim {
            Save(rec.(phase := RefundWait));
          } else {
            Send(Claim);
          }
        case RefundWait => MaybeRefund(p, ch, v);
        case _ =>
      }
    }

    method Offer(p: Policy, ch: Chain, v: View)
      requires rec.phase.Announced?
      requires !(Unsettled(rec) && Confirmations(ch, HolderLock) != 0 && v.holderSpender.Just?) && !(Unsettled(rec) && RefundDue(p, ch))
      modifies this
      ensures Did(old(sent), old(heldAtSend), Plan(p, ch, old(rec), v))
    {
      if Confirmations(ch, HolderLock) == 0 {
        return;
      }
      match v.offer {
        case Taken => Save(rec.(phase := Offered));
        case Unreachable =>
          if v.late {
            Save(rec.(phase := RefundWait));
          }
        case Declined(retry) =>
          if !(retry && !v.late) {
            Save(rec.(phase := RefundWait));
          }
      }
    }

    method CheckDesk(p: Policy, ch: Chain, v: View)
      requires rec.phase.Offered?
      requires !(Unsettled(rec) && Confirmations(ch, HolderLock) != 0 && v.holderSpender.Just?) && !(Unsettled(rec) && RefundDue(p, ch))
      modifies this
      ensures Did(old(sent), old(heldAtSend), Plan(p, ch, old(rec), v))
    {
      if v.status.GaveUp? {
        Save(rec.(phase := RefundWait));
      } else if !v.status.Lock? {
        if v.late {
          Save(rec.(phase := RefundWait));
        }
      } else if LockPasses(p, ch, v) {
        Save(rec.(phase := Claiming, deskLockHeight := Height(ch, DeskLock)));
      } else if !(LockSettling(p, ch, v) && !v.late) {
        Save(rec.(phase := RefundWait));
      }
    }

    /** The claim is marked sent before it is. */
    method ClaimStep(p: Policy, ch: Chain, v: View)
      requires rec.phase.Claiming?
      modifies this
      ensures Did(old(sent), old(heldAtSend), ClaimSteps(p, ch, old(rec), v))
    {
      var tooLate := TooLate(p, ch, rec.deskLockHeight);
      if !rec.claimBuilt {
        Save(if tooLate then rec.(phase := RefundWait) else rec.(claimBuilt := true));
        return;
      }
      if !rec.nonceDrawn {
        Save(rec.(nonceDrawn := true));
        return;
      }
      if !rec.deskNonce {
        if v.nonceGiven {
          Save(rec.(deskNonce := true));
        }
        return;
      }
      if !rec.halfSigned {
        Save(if tooLate then rec.(phase := RefundWait) else rec.(halfSigned := true));
        return;
      }
      if !rec.complete {
        if v.halfGiven {
          Save(rec.(complete := true));
        }
        return;
      }
      if !rec.sent {
        if v.deskSpender.Just? || tooLate {
          Save(rec.(phase := RefundWait));
          return;
        }
        Save(rec.(sent := true));
      }
      Send(Claim);
      Save(rec.(phase := Claimed));
    }

    method MaybeRefund(p: Policy, ch: Chain, v: View)
      requires rec.phase.RefundWait?
      modifies this
      ensures Did(old(sent), old(heldAtSend), Plan(p, ch, old(rec), v))
    {
      if RefundDue(p, ch) {
        if v.holderSpender.Just? {
          Save(rec.(phase := if rec.refundBuilt && v.holderSpender.tx == HolderRefund then Refunded else DeskTook));
          return;
        }
        if !rec.refundBuilt {
          Save(rec.(refundBuilt := true));
        }
        Send(HolderRefund);
      } else if rec.refundBuilt && Confirmations(ch, HolderRefund) != 0 {
        Save(rec.(phase := Refunded));
      }
    }
  }

  // ----- the holder, the chain and anybody else

  /** The world: the chain, the stored record, and what an observer notes: the tips at which the claim
      was marked sent and first went out, when the refund first went out, and whether the last step ran
      whole since the last block. */
  datatype World = World(ch: Chain, rec: Record, sentAt: int, claimOutAt: int, refundOutAt: int, stepped: bool)

  datatype Action =
    | Advance(v: View, cut: Cut)
    | OtherSends(tx: Tx)
    | NewBlock(b: Block)

  /** The desk may send its lock and its refund, and take the holder's lock once a claim has shown t. */
  predicate Enabled(p: Policy, w: World, a: Action) {
    match a
    case Advance(v, cut) =>
      Sees(p, w.ch, v) && v.minConfs >= 1 && CutOk(p, w.ch, Plan(p, w.ch, w.rec, v).send, cut)
    case OtherSends(tx) => Final(p, w.ch, tx) && (tx == DeskLock || tx == DeskRefund || (tx == Take && w.ch.claim != Unsent))
    case NewBlock(b) => BlockOk(p, w.ch, b)
  }

  /** The world after a step's saves and broadcast, as far as the cut. */
  function After(w: World, s: Steps, cut: Cut): World {
    var ch, rec := Published(w.ch, s.send, cut), Settle(w.rec, s, cut);
    World(ch, rec,
          if !w.rec.sent && rec.sent then w.ch.tip else w.sentAt,
          if w.ch.claim == Unsent && ch.claim == Sent then w.ch.tip else w.claimOutAt,
          if w.ch.holderRefund == Unsent && ch.holderRefund == Sent then w.ch.tip else w.refundOutAt,
          cut == Whole)
  }

  function Next(p: Policy, w: World, a: Action): World {
    match a
    case Advance(v, cut) => After(w, Plan(p, w.ch, w.rec, v), cut)
    case OtherSends(tx) => w.(ch := Send(w.ch, tx))
    case NewBlock(b) => w.(ch := Mine(w.ch, b), stepped := false)
  }

  const START := World(Chain(0, Unsent, Unsent, Unsent, Unsent, Unsent, Unsent), NEW, 0, 0, 0, false)

  /** What holds of the record whatever the timing and wherever steps were cut short. */
  ghost predicate Safe(p: Policy, w: World) {
    var ch, rec := w.ch, w.rec;
    && ChainOk(p, ch)
    && (ch.claim != Unsent ==> rec.sent)
    && (ch.take != Unsent ==> ch.claim != Unsent)
    && ((rec.phase.Claiming? || rec.phase.Claimed? || rec.phase.Done?) || rec.sent ==> ch.deskLock.Mined? && rec.deskLockHeight == ch.deskLock.height)
    && ((rec.phase.Announced? || rec.phase.Offered? || rec.phase.Claiming? || rec.phase.Claimed? || rec.phase.Done? || rec.phase.RefundWait?) ==> ch.holderLock != Unsent)
    && ((rec.phase.Offered? || rec.phase.Claiming? || rec.phase.Claimed? || rec.phase.Done?) || rec.sent ==> ch.holderLock.Mined?)
    && (rec.sent ==> rec.complete && rec.claimBuilt && rec.halfSigned && rec.deskNonce && rec.nonceDrawn)
    && (rec.sent ==> w.sentAt + p.claimLeft <= ch.deskLock.height + p.csvDesk - 1 && w.sentAt <= ch.tip)
    && (rec.sent ==> w.sentAt < ch.holderLock.height + p.csvHolder - 1)
    && (rec.sent && (rec.phase.RefundWait? || rec.phase.Refunded? || rec.phase.DeskTook?) ==> ch.deskRefund != Unsent)
    && (rec.sent ==> (rec.phase.Claiming? || rec.phase.Claimed? || rec.phase.Done? || rec.phase.RefundWait? || rec.phase.Refunded? || rec.phase.DeskTook?))
    && ((rec.phase.Claimed? || rec.phase.Done?) ==> rec.sent && ch.claim != Unsent)
    && (rec.phase.Done? ==> ch.claim.Mined?)
    && (ch.holderRefund != Unsent ==> rec.refundBuilt)
    && (rec.refundBuilt ==> (rec.phase.RefundWait? || rec.phase.Refunded? || rec.phase.DeskTook?))
    && (rec.phase.Refunded? ==> ch.holderRefund != Unsent)
    && (rec.phase.DeskTook? ==> ch.take != Unsent)
  }

  // What a step may do in each phase, as the rest of the proof needs it.

  ghost predicate OfferMoves(p: Policy, ch: Chain, rec: Record, s: Steps) {
    && s.send.NoTx? && s.before == rec
    && (|| (s.after == rec && !RefundDue(p, ch))
        || s.after == rec.(phase := RefundWait)
        || (s.after == rec.(phase := DeskTook) && (ch.take != Unsent || ch.holderRefund != Unsent))
        || (rec.phase.Announced? && s.after == rec.(phase := Offered) && ch.holderLock.Mined? && !RefundDue(p, ch))
        || (rec.phase.Offered? && ch.deskLock.Mined? && s.after == rec.(phase := Claiming, deskLockHeight := ch.deskLock.height)
            && !RefundDue(p, ch)))
  }

  ghost predicate ClaimMoves(p: Policy, ch: Chain, rec: Record, s: Steps) {
    || (s.send.NoTx? && s.before == rec && !rec.sent
        && s.after.sent == rec.sent && s.after.refundBuilt == rec.refundBuilt && s.after.deskLockHeight == rec.deskLockHeight
        && (|| (s.after.phase.Claiming? && !RefundDue(p, ch)) || s.after.phase.RefundWait?
            || (s.after.phase.DeskTook? && (ch.take != Unsent || ch.holderRefund != Unsent))))
    || (s.send == Just(Claim) && s.before == rec.(sent := true) && s.after == rec.(sent := true, phase := Claimed)
        && rec.claimBuilt && rec.nonceDrawn && rec.deskNonce && rec.halfSigned && rec.complete
        && (!rec.sent ==> !RefundDue(p, ch) && !TooLate(p, ch, rec.deskLockHeight) && !ch.deskRefund.Mined?))
  }

  ghost predicate ClaimedMoves(p: Policy, ch: Chain, rec: Record, s: Steps) {
    || (s == Store(rec, rec.(phase := Done)) && ch.claim.Mined?)
    || (s == Store(rec, rec.(phase := RefundWait)) && ch.deskRefund != Unsent && !ch.claim.Mined?
        && (ch.deskRefund.Mined? || Final(p, ch, DeskRefund)))
    || (s == Steps(rec, Just(Claim), rec) && !ch.claim.Mined?)
  }

  ghost predicate RefundMoves(p: Policy, ch: Chain, rec: Record, s: Steps) {
    || (s == Store(rec, rec) && !RefundDue(p, ch) && !ch.holderRefund.Mined?)
    || (s == Store(rec, rec.(phase := Refunded)) && ch.holderRefund != Unsent)
    || (s == Store(rec, rec.(phase := DeskTook)) && ch.take != Unsent)
    || (s == Steps(rec.(refundBuilt := true), Just(HolderRefund), rec.(refundBuilt := true))
        && RefundDue(p, ch) && !ch.holderRefund.Mined? && !ch.take.Mined?)
  }

  lemma PlanAnnounced(p: Policy, ch: Chain, rec: Record, v: View)
    requires PolicyOk(p) && ChainOk(p, ch) && Sees(p, ch, v) && v.minConfs >= 1
    requires rec.phase.Announced? && !rec.sent
    ensures OfferMoves(p, ch, rec, Plan(p, ch, rec, v))
  {
  }

  lemma PlanOffered(p: Policy, ch: Chain, rec: Record, v: View)
    requires PolicyOk(p) && ChainOk(p, ch) && Sees(p, ch, v) && v.minConfs >= 1
    requires rec.phase.Offered? && !rec.sent
    ensures OfferMoves(p, ch, rec, Plan(p, ch, rec, v))
  {
  }

  lemma ClaimStepsMove(p: Policy, ch: Chain, rec: Record, v: View)
    requires Sees(p, ch, v)
    requires rec.phase.Claiming? && (rec.sent ==> rec.claimBuilt && rec.nonceDrawn && rec.deskNonce && rec.halfSigned && rec.complete)
    requires !rec.sent ==> !RefundDue(p, ch)
    ensures ClaimMoves(p, ch, rec, ClaimSteps(p, ch, rec, v))
  {
  }

  lemma PlanClaiming(p: Policy, ch: Chain, rec: Record, v: View)
    requires PolicyOk(p) && ChainOk(p, ch) && Sees(p, ch, v) && v.minConfs >= 1
    requires rec.phase.Claiming? && (rec.sent ==> rec.claimBuilt && rec.nonceDrawn && rec.deskNonce && rec.halfSigned && rec.complete)
    ensures ClaimMoves(p, ch, rec, Plan(p, ch, rec, v))
  {
    if Unsettled(rec) ==> !RefundDue(p, ch) {
      ClaimStepsMove(p, ch, rec, v);
    }
  }

  lemma PlanClaimed(p: Policy, ch: Chain, rec: Record, v: View)
    requires PolicyOk(p) && ChainOk(p, ch) && Sees(p, ch, v) && v.minConfs >= 1
    requires rec.phase.Claimed?
    ensures ClaimedMoves(p, ch, rec, Plan(p, ch, rec, v))
  {
  }

  lemma PlanRefundWait(p: Policy, ch: Chain, rec: Record, v: View)
    requires PolicyOk(p) && ChainOk(p, ch) && Sees(p, ch, v) && v.minConfs >= 1
    requires rec.phase.RefundWait? && (ch.holderRefund != Unsent ==> rec.refundBuilt)
    ensures RefundMoves(p, ch, rec, Plan(p, ch, rec, v))
  {
  }

  lemma SafeBuilt(p: Policy, w: World, s: Steps, cut: Cut)
    requires PolicyOk(p) && Safe(p, w) && CutOk(p, w.ch, s.send, cut) && w.rec.phase.Built? && s == Steps(w.rec, Just(HolderLock), w.rec.(phase := Announced))
    ensures Safe(p, After(w, s, cut))
  {
  }

  lemma SafeOffering(p: Policy, w: World, s: Steps, cut: Cut)
    requires PolicyOk(p) && Safe(p, w) && CutOk(p, w.ch, s.send, cut) && (w.rec.phase.Announced? || w.rec.phase.Offered?) && OfferMoves(p, w.ch, w.rec, s)
    ensures Safe(p, After(w, s, cut))
  {
  }

  lemma SafeClaiming(p: Policy, w: World, s: Steps, cut: Cut)
    requires PolicyOk(p) && Safe(p, w) && CutOk(p, w.ch, s.send, cut) && w.rec.phase.Claiming? && ClaimMoves(p, w.ch, w.rec, s)
    ensures Safe(p, After(w, s, cut))
  {
  }

  lemma SafeClaimed(p: Policy, w: World, s: Steps, cut: Cut)
    requires PolicyOk(p) && Safe(p, w) && CutOk(p, w.ch, s.send, cut) && w.rec.phase.Claimed? && ClaimedMoves(p, w.ch, w.rec, s)
    ensures Safe(p, After(w, s, cut))
  {
  }

  lemma SafeRefunding(p: Policy, w: World, s: Steps, cut: Cut)
    requires PolicyOk(p) && Safe(p, w) && CutOk(p, w.ch, s.send, cut) && w.rec.phase.RefundWait? && RefundMoves(p, w.ch, w.rec, s)
    ensures Safe(p, After(w, s, cut))
  {
    var w' := After(w, s, cut);
    assert ChainOk(p, w'.ch);
    assert w'.ch == w.ch.(holderRefund := w'.ch.holderRefund);
    assert w'.rec == w.rec.(phase := w'.rec.phase, refundBuilt := w'.rec.refundBuilt);
  }

  lemma SafeIdle(p: Policy, w: World, s: Steps, cut: Cut)
    requires PolicyOk(p) && Safe(p, w) && CutOk(p, w.ch, s.send, cut) && (w.rec.phase.Done? || w.rec.phase.Refunded? || w.rec.phase.DeskTook?) && s == Store(w.rec, w.rec)
    ensures Safe(p, After(w, s, cut))
  {
  }

  lemma SafeAdvance(p: Policy, w: World, v: View, cut: Cut)
    requires PolicyOk(p) && Safe(p, w) && Enabled(p, w, Advance(v, cut))
    ensures Safe(p, After(w, Plan(p, w.ch, w.rec, v), cut))
  {
    var s := Plan(p, w.ch, w.rec, v);
    match w.rec.phase {
      case Built => SafeBuilt(p, w, s, cut);
      case Announced => PlanAnnounced(p, w.ch, w.rec, v); SafeOffering(p, w, s, cut);
      case Offered => PlanOffered(p, w.ch, w.rec, v); SafeOffering(p, w, s, cut);
      case Claiming => PlanClaiming(p, w.ch, w.rec, v); SafeClaiming(p, w, s, cut);
      case Claimed => PlanClaimed(p, w.ch, w.rec, v); SafeClaimed(p, w, s, cut);
      case RefundWait => PlanRefundWait(p, w.ch, w.rec, v); SafeRefunding(p, w, s, cut);
      case _ => SafeIdle(p, w, s, cut);
    }
  }

  lemma SafeBlock(p: Policy, w: World, b: Block)
    requires PolicyOk(p) && Safe(p, w) && Enabled(p, w, NewBlock(b))
    ensures Safe(p, Next(p, w, NewBlock(b)))
  {
  }

  /** No step, cut anywhere, and nothing the desk does breaks what the record promises. */
  lemma SafeStep(p: Policy, w: World, a: Action)
    requires PolicyOk(p) && Safe(p, w) && Enabled(p, w, a)
    ensures Safe(p, Next(p, w, a))
  {
    match a
    case Advance(v, cut) => SafeAdvance(p, w, v, cut);
    case NewBlock(b) => SafeBlock(p, w, b);
    case OtherSends(_) =>
  }

  // ----- the same holder, stepping in every block

  /** The timing the margins are made for: no step is left cut when a block comes, the claim confirms
      within `claimLeft` blocks of going out, and the holder's refund within its delay. */
  predicate Timely(p: Policy, w: World, a: Action) {
    a.NewBlock? ==>
      var h, ch := w.ch.tip + 1, w.ch;
      && w.stepped
      && (ch.claim == Sent && !ch.deskRefund.Mined? && h >= w.claimOutAt + p.claimLeft ==> a.b.claim)
      && (ch.holderRefund == Sent && !ch.take.Mined? && h >= w.refundOutAt + p.holderRefundDelay ==> a.b.holderRefund)
  }

  /** How long each phase lasts, and that the desk's refund is still shut until the claim is mined. */
  ghost predicate Prompt(p: Policy, w: World)
    requires Safe(p, w)
  {
    var ch, rec, s := w.ch, w.rec, if w.stepped then 1 else 0;
    && !rec.phase.DeskTook?
    && (rec.phase.Built? ==> s == 0 && !ch.holderLock.Mined?)
    && (Unsettled(rec) && ch.holderLock.Mined? ==> ch.tip <= ch.holderLock.height + p.csvHolder - 1)
    && (Unsettled(rec) && ch.holderLock.Mined? && ch.tip == ch.holderLock.height + p.csvHolder - 1 ==> s == 0)
    && (rec.sent ==> (rec.phase.Claiming? || rec.phase.Claimed? || rec.phase.Done?) && !ch.deskRefund.Mined?)
    && (rec.sent && rec.phase.Claiming? ==> s == 0 && ch.tip == w.sentAt)
    && (ch.claim != Unsent ==> w.claimOutAt == w.sentAt)
    && (ch.claim == Sent ==> ch.tip < w.claimOutAt + p.claimLeft)
    && (ch.claim.Mined? ==> (rec.phase.Claimed? || rec.phase.Done?))
    && (rec.phase.Claimed? && ch.claim.Mined? ==> ch.tip == ch.claim.height && s == 0)
    && (ch.claim.Mined? ==> ch.claim.height <= w.claimOutAt + p.claimLeft)
    && (rec.phase.RefundWait? && ch.holderLock.Mined? && ch.holderRefund == Unsent ==>
          ch.tip + s <= ch.holderLock.height + p.csvHolder)
    && (ch.holderRefund != Unsent ==> w.refundOutAt <= ch.holderLock.height + p.csvHolder)
    && (ch.holderRefund == Sent ==> ch.tip < w.refundOutAt + p.holderRefundDelay)
    && (rec.phase.RefundWait? && ch.holderRefund.Mined? ==> ch.tip == ch.holderRefund.height && s == 0)
    && (rec.phase.RefundWait? && ch.holderRefund.Mined? ==> ch.holderRefund.height <= w.refundOutAt + p.holderRefundDelay)
  }

  lemma PromptBuilt(p: Policy, w: World, s: Steps, cut: Cut)
    requires PolicyOk(p) && Safe(p, w) && CutOk(p, w.ch, s.send, cut) && w.rec.phase.Built? && s == Steps(w.rec, Just(HolderLock), w.rec.(phase := Announced))
    requires Prompt(p, w) && Safe(p, After(w, s, cut))
    ensures Prompt(p, After(w, s, cut))
  {
  }

  lemma PromptOffering(p: Policy, w: World, s: Steps, cut: Cut)
    requires PolicyOk(p) && Safe(p, w) && CutOk(p, w.ch, s.send, cut) && (w.rec.phase.Announced? || w.rec.phase.Offered?) && OfferMoves(p, w.ch, w.rec, s)
    requires Prompt(p, w) && Safe(p, After(w, s, cut))
    ensures Prompt(p, After(w, s, cut))
  {
  }

  lemma PromptClaiming(p: Policy, w: World, s: Steps, cut: Cut)
    requires PolicyOk(p) && Safe(p, w) && CutOk(p, w.ch, s.send, cut) && w.rec.phase.Claiming? && ClaimMoves(p, w.ch, w.rec, s)
    requires Prompt(p, w) && Safe(p, After(w, s, cut))
    ensures Prompt(p, After(w, s, cut))
  {
  }

  lemma PromptClaimed(p: Policy, w: World, s: Steps, cut: Cut)
    requires PolicyOk(p) && Safe(p, w) && CutOk(p, w.ch, s.send, cut) && w.rec.phase.Claimed? && ClaimedMoves(p, w.ch, w.rec, s)
    requires Prompt(p, w) && Safe(p, After(w, s, cut))
    ensures Prompt(p, After(w, s, cut))
  {
  }

  lemma PromptRefunding(p: Policy, w: World, s: Steps, cut: Cut)
    requires PolicyOk(p) && Safe(p, w) && CutOk(p, w.ch, s.send, cut) && w.rec.phase.RefundWait? && RefundMoves(p, w.ch, w.rec, s)
    requires Prompt(p, w) && Safe(p, After(w, s, cut))
    ensures Prompt(p, After(w, s, cut))
  {
  }

  lemma PromptIdle(p: Policy, w: World, s: Steps, cut: Cut)
    requires PolicyOk(p) && Safe(p, w) && CutOk(p, w.ch, s.send, cut) && (w.rec.phase.Done? || w.rec.phase.Refunded? || w.rec.phase.DeskTook?) && s == Store(w.rec, w.rec)
    requires Prompt(p, w) && Safe(p, After(w, s, cut))
    ensures Prompt(p, After(w, s, cut))
  {
  }

  lemma PromptAdvance(p: Policy, w: World, v: View, cut: Cut)
    requires PolicyOk(p) && Safe(p, w) && Prompt(p, w) && Enabled(p, w, Advance(v, cut))
    requires Safe(p, After(w, Plan(p, w.ch, w.rec, v), cut))
    ensures Prompt(p, After(w, Plan(p, w.ch, w.rec, v), cut))
  {
    var s := Plan(p, w.ch, w.rec, v);
    match w.rec.phase {
      case Built => PromptBuilt(p, w, s, cut);
      case Announced => PlanAnnounced(p, w.ch, w.rec, v); PromptOffering(p, w, s, cut);
      case Offered => PlanOffered(p, w.ch, w.rec, v); PromptOffering(p, w, s, cut);
      case Claiming => PlanClaiming(p, w.ch, w.rec, v); PromptClaiming(p, w, s, cut);
      case Claimed => PlanClaimed(p, w.ch, w.rec, v); PromptClaimed(p, w, s, cut);
      case RefundWait => PlanRefundWait(p, w.ch, w.rec, v); PromptRefunding(p, w, s, cut);
      case _ => PromptIdle(p, w, s, cut);
    }
  }

  lemma PromptBlock(p: Policy, w: World, b: Block)
    requires PolicyOk(p) && Safe(p, w) && Prompt(p, w) && Enabled(p, w, NewBlock(b)) && Timely(p, w, NewBlock(b))
    requires Safe(p, Next(p, w, NewBlock(b)))
    ensures Prompt(p, Next(p, w, NewBlock(b)))
  {
  }

  lemma PromptStep(p: Policy, w: World, a: Action)
    requires PolicyOk(p) && Safe(p, w) && Prompt(p, w) && Enabled(p, w, a) && Timely(p, w, a)
    ensures Safe(p, Next(p, w, a)) && Prompt(p, Next(p, w, a))
  {
    SafeStep(p, w, a);
    match a
    case Advance(v, cut) => PromptAdvance(p, w, v, cut);
    case NewBlock(b) => PromptBlock(p, w, b);
    case OtherSends(_) =>
  }

  // ----- whole runs

  function Run(p: Policy, actions: seq<Action>): World {
    if actions == [] then START else Next(p, Run(p, actions[..|actions| - 1]), actions[|actions| - 1])
  }

  ghost predicate Legal(p: Policy, actions: seq<Action>) {
    actions != [] ==>
      var before, a := actions[..|actions| - 1], actions[|actions| - 1];
      Legal(p, before) && Enabled(p, Run(p, before), a)
  }

  ghost predicate OnTime(p: Policy, actions: seq<Action>) {
    actions != [] ==>
      var before, a := actions[..|actions| - 1], actions[|actions| - 1];
      OnTime(p, before) && Timely(p, Run(p, before), a)
  }

  lemma {:induction false} RunIsSafe(p: Policy, actions: seq<Action>)
    requires PolicyOk(p) && Legal(p, actions)
    ensures Safe(p, Run(p, actions))
    ensures OnTime(p, actions) ==> Prompt(p, Run(p, actions))
  {
    if actions != [] {
      var before, a := actions[..|actions| - 1], actions[|actions| - 1];
      RunIsSafe(p, before);
      SafeStep(p, Run(p, before), a);
      if OnTime(p, actions) {
        PromptStep(p, Run(p, before), a);
      }
    }
  }

  // ----- what a run must have done before

  /** Step i found the desk's lock, at this height, to pass every check. */
  ghost predicate PassedAt(p: Policy, actions: seq<Action>, i: nat, height: int) {
    && i < |actions| && actions[i].Advance?
    && var w, v := Run(p, actions[..i]), actions[i].v;
       && Sees(p, w.ch, v)
       && v.status.Lock? && v.status.valid && v.status.tracked
       && w.ch.deskLock == Mined(height) && w.ch.tip - height + 1 >= v.minConfs >= 1
       && w.ch.tip + p.claimLeft <= height + p.csvDesk - 1
       && w.rec.phase.Offered?
       && Run(p, actions[..i + 1]).rec == w.rec.(phase := Claiming, deskLockHeight := height)
  }

  /** Step j marked the completed claim as sent, having found the desk's lock unspent and time enough left. */
  ghost predicate SentAt(p: Policy, actions: seq<Action>, j: nat, tip: int) {
    && j < |actions| && actions[j].Advance?
    && var w, v := Run(p, actions[..j]), actions[j].v;
       && Sees(p, w.ch, v) && v.deskSpender.NoTx? && w.ch.deskLock.Mined? && w.ch.tip == tip
       && tip + p.claimLeft <= w.ch.deskLock.height + p.csvDesk - 1
       && w.rec.phase.Claiming? && w.rec.complete && !w.rec.sent && Run(p, actions[..j + 1]).rec.sent
       && w.ch.claim == Unsent && !w.ch.deskRefund.Mined?
  }

  /** Step k turned to the refund on seeing the desk's lock spent by another transaction than the claim. */
  ghost predicate LostRaceAt(p: Policy, actions: seq<Action>, k: nat) {
    && k < |actions| && actions[k].Advance?
    && var w, v := Run(p, actions[..k]), actions[k].v;
       && Sees(p, w.ch, v) && v.deskSpender.Just? && v.deskSpender != Just(Claim)
       && w.rec.phase.Claimed? && Run(p, actions[..k + 1]).rec.phase.RefundWait?
  }

  /** Whether the record rests on a check of the desk's lock. */
  predicate Checked(rec: Record) {
    rec.phase.Claiming? || rec.phase.Claimed? || rec.phase.Done? || rec.sent
  }

  /** Whether the claim was sent and the record has turned to its refund all the same. */
  predicate LostRace(rec: Record) {
    rec.sent && (rec.phase.RefundWait? || rec.phase.Refunded? || rec.phase.DeskTook?)
  }

  /** A claim is sent only when it is ready, and from its phase on. */
  predicate SentOk(rec: Record) {
    rec.sent ==>
      && ClaimReady(rec)
      && (rec.phase.Claiming? || rec.phase.Claimed? || rec.phase.Done? || rec.phase.RefundWait? || rec.phase.Refunded? || rec.phase.DeskTook?)
  }

  /** What a step may store: a record that rests on a check made before or passing now; a claim sent before, or complete
      and on an unspent lock with time left; and a refund in place of a sent claim only when the lock went elsewhere. */
  ghost predicate Kept(p: Policy, ch: Chain, rec: Record, v: View, rec': Record) {
    && (Checked(rec') ==> if Checked(rec) then rec'.deskLockHeight == rec.deskLockHeight else
          && rec.phase.Offered? && v.status.Lock? && v.status.valid && v.status.tracked && ch.deskLock.Mined?
          && ch.tip - ch.deskLock.height + 1 >= v.minConfs && ch.tip + p.claimLeft <= ch.deskLock.height + p.csvDesk - 1
          && rec' == rec.(phase := Claiming, deskLockHeight := ch.deskLock.height))
    && (rec.sent ==> rec'.sent)
    && (rec'.sent && !rec.sent ==>
          v.deskSpender.NoTx? && ch.tip + p.claimLeft <= rec.deskLockHeight + p.csvDesk - 1 && rec.phase.Claiming? && rec.complete)
    && (LostRace(rec') && !LostRace(rec) ==>
          rec'.phase.RefundWait? && rec.phase.Claimed? && v.deskSpender.Just? && v.deskSpender != Just(Claim))
  }

  ghost predicate StepsKept(p: Policy, ch: Chain, rec: Record, v: View, s: Steps) {
    Kept(p, ch, rec, v, s.before) && Kept(p, ch, rec, v, s.after)
  }

  lemma OfferKept(p: Policy, ch: Chain, rec: Record, v: View)
    requires rec.phase.Announced? && SentOk(rec)
    ensures StepsKept(p, ch, rec, v, OfferSteps(ch, rec, v))
  {
  }

  lemma CheckKept(p: Policy, ch: Chain, rec: Record, v: View)
    requires rec.phase.Offered? && SentOk(rec) && v.minConfs >= 1
    ensures StepsKept(p, ch, rec, v, CheckSteps(p, ch, rec, v))
  {
  }

  lemma ClaimKept(p: Policy, ch: Chain, rec: Record, v: View)
    requires rec.phase.Claiming? && SentOk(rec)
    ensures StepsKept(p, ch, rec, v, ClaimSteps(p, ch, rec, v))
  {
  }

  lemma ClaimedKept(p: Policy, ch: Chain, rec: Record, v: View)
    requires rec.phase.Claimed?
    ensures StepsKept(p, ch, rec, v, ClaimedSteps(ch, rec, v))
  {
  }

  lemma RefundKept(p: Policy, ch: Chain, rec: Record, v: View)
    requires rec.phase.RefundWait?
    ensures StepsKept(p, ch, rec, v, RefundSteps(p, ch, rec, v))
  {
  }

  lemma PlanKept(p: Policy, ch: Chain, rec: Record, v: View)
    requires v.minConfs >= 1 && SentOk(rec)
    ensures StepsKept(p, ch, rec, v, Plan(p, ch, rec, v))
  {
    TurnKept(p, ch, rec, v, Announced);
    if Plan(p, ch, rec, v) == Store(rec, rec.(phase := DeskTook)) && Unsettled(rec) {
      TurnKept(p, ch, rec, v, DeskTook);
    } else if Plan(p, ch, rec, v) == Store(rec, rec.(phase := RefundWait)) && Unsettled(rec) {
      TurnKept(p, ch, rec, v, RefundWait);
    } else {
      match rec.phase
      case Announced => OfferKept(p, ch, rec, v);
      case Offered => CheckKept(p, ch, rec, v);
      case Claiming => ClaimKept(p, ch, rec, v);
      case Claimed => ClaimedKept(p, ch, rec, v);
      case RefundWait => RefundKept(p, ch, rec, v);
      case _ =>
    }
  }

  /** Turning to a phase that rests on no check, or staying, while no claim was sent. */
  lemma TurnKept(p: Policy, ch: Chain, rec: Record, v: View, phase: Phase)
    requires phase.Announced? || phase.DeskTook? || phase.RefundWait?
    ensures Kept(p, ch, rec, v, rec)
    ensures !rec.sent ==> Kept(p, ch, rec, v, rec.(phase := phase))
  {
  }

  lemma StepKept(p: Policy, w: World, v: View, cut: Cut)
    requires Safe(p, w) && v.minConfs >= 1
    ensures var w' := Next(p, w, Advance(v, cut));
            && Kept(p, w.ch, w.rec, v, w'.rec)
            && w'.sentAt == (if !w.rec.sent && w'.rec.sent then w.ch.tip else w.sentAt)
  {
    PlanKept(p, w.ch, w.rec, v);
    Settled(p, w, v, cut);
  }

  /** The stored record of a cut step is one of three. */
  lemma Settled(p: Policy, w: World, v: View, cut: Cut)
    ensures var w', s := Next(p, w, Advance(v, cut)), Plan(p, w.ch, w.rec, v);
            && (w'.rec == w.rec || w'.rec == s.before || w'.rec == s.after)
            && w'.sentAt == (if !w.rec.sent && w'.rec.sent then w.ch.tip else w.sentAt)
            && (w.ch.deskLock.Mined? ==> w'.ch.deskLock == w.ch.deskLock)
  {
  }

  lemma Earlier(p: Policy, actions: seq<Action>, i: nat, n: int)
    requires i < |actions| - 1
    ensures PassedAt(p, actions[..|actions| - 1], i, n) ==> PassedAt(p, actions, i, n)
    ensures SentAt(p, actions[..|actions| - 1], i, n) ==> SentAt(p, actions, i, n)
    ensures LostRaceAt(p, actions[..|actions| - 1], i) ==> LostRaceAt(p, actions, i)
  {
    var before := actions[..|actions| - 1];
    assert before[..i] == actions[..i] && before[..i + 1] == actions[..i + 1];
  }

  /** A record that rests on a check has one behind it in its run. */
  lemma {:induction false} CheckedBefore(p: Policy, actions: seq<Action>)
    requires PolicyOk(p) && Legal(p, actions) && Checked(Run(p, actions).rec)
    ensures exists i :: PassedAt(p, actions, i, Run(p, actions).rec.deskLockHeight)
  {
    var before, a := actions[..|actions| - 1], actions[|actions| - 1];
    var w, n := Run(p, before), Run(p, actions).rec.deskLockHeight;
    RunIsSafe(p, before);
    if a.Advance? {
      StepKept(p, w, a.v, a.cut);
    }
    if Checked(w.rec) {
      CheckedBefore(p, before);
      var i :| PassedAt(p, before, i, n);
      Earlier(p, actions, i, n);
    } else {
      assert actions[..|actions|] == actions;
      assert PassedAt(p, actions, |actions| - 1, n);
    }
  }

  lemma {:induction false} SentBefore(p: Policy, actions: seq<Action>)
    requires PolicyOk(p) && Legal(p, actions) && Run(p, actions).rec.sent
    ensures exists j :: SentAt(p, actions, j, Run(p, actions).sentAt)
  {
    var before, a := actions[..|actions| - 1], actions[|actions| - 1];
    var w, n := Run(p, before), Run(p, actions).sentAt;
    RunIsSafe(p, before);
    if a.Advance? {
      StepKept(p, w, a.v, a.cut);
    }
    if w.rec.sent {
      SentBefore(p, before);
      var j :| SentAt(p, before, j, n);
      Earlier(p, actions, j, n);
    } else {
      assert actions[..|actions|] == actions;
      assert SentAt(p, actions, |actions| - 1, n);
    }
  }

  lemma {:induction false} RaceBefore(p: Policy, actions: seq<Action>)
    requires PolicyOk(p) && Legal(p, actions) && LostRace(Run(p, actions).rec)
    ensures exists k :: LostRaceAt(p, actions, k)
  {
    var before, a := actions[..|actions| - 1], actions[|actions| - 1];
    var w := Run(p, before);
    RunIsSafe(p, before);
    if a.Advance? {
      StepKept(p, w, a.v, a.cut);
    }
    if LostRace(w.rec) {
      RaceBefore(p, before);
      var k :| LostRaceAt(p, before, k);
      Earlier(p, actions, k, 0);
    } else {
      assert actions[..|actions|] == actions;
      assert LostRaceAt(p, actions, |actions| - 1);
    }
  }

  lemma {:induction false} PrefixLegal(p: Policy, actions: seq<Action>, k: nat)
    requires Legal(p, actions) && k <= |actions|
    ensures Legal(p, actions[..k])
  {
    if k == |actions| {
      assert actions[..k] == actions;
    } else {
      assert actions[..|actions| - 1][..k] == actions[..k];
      PrefixLegal(p, actions[..|actions| - 1], k);
    }
  }

  /** A claim marked as sent was so marked by a step j that found the desk's lock unspent with `claimLeft`
      blocks left, after a step i that found that same lock to pass every check. */
  ghost predicate SentAfterCheck(p: Policy, actions: seq<Action>, i: nat, j: nat) {
    var w := Run(p, actions);
    i < j && PassedAt(p, actions, i, w.rec.deskLockHeight) && SentAt(p, actions, j, w.sentAt)
  }

  lemma SendingNeedsCheck(p: Policy, actions: seq<Action>) returns (i: nat, j: nat)
    requires PolicyOk(p) && Legal(p, actions) && Run(p, actions).rec.sent
    ensures SentAfterCheck(p, actions, i, j)
  {
    SentBefore(p, actions);
    j :| SentAt(p, actions, j, Run(p, actions).sentAt);
    PrefixLegal(p, actions, j);
    CheckedBefore(p, actions[..j]);
    var n := Run(p, actions[..j]).rec.deskLockHeight;
    i :| PassedAt(p, actions[..j], i, n);
    PassedLater(p, actions, i, j, n);
    HeightKept(p, actions, j);
  }

  lemma PassedLater(p: Policy, actions: seq<Action>, i: nat, j: nat, n: int)
    requires j <= |actions| && PassedAt(p, actions[..j], i, n)
    ensures i < j && PassedAt(p, actions, i, n)
  {
    assert actions[..j][..i] == actions[..i] && actions[..j][..i + 1] == actions[..i + 1];
  }

  /** The height stored with a check stays. */
  lemma {:induction false} HeightKept(p: Policy, actions: seq<Action>, k: nat)
    requires PolicyOk(p) && Legal(p, actions) && k <= |actions| && Checked(Run(p, actions[..k]).rec) && Run(p, actions).rec.sent
    ensures Run(p, actions).rec.deskLockHeight == Run(p, actions[..k]).rec.deskLockHeight
  {
    PrefixLegal(p, actions, k);
    RunIsSafe(p, actions);
    RunIsSafe(p, actions[..k]);
    LockStays(p, actions, k);
  }

  lemma {:induction false} LockStays(p: Policy, actions: seq<Action>, k: nat)
    requires PolicyOk(p) && Legal(p, actions) && k <= |actions| && Run(p, actions[..k]).ch.deskLock.Mined?
    ensures Run(p, actions).ch.deskLock == Run(p, actions[..k]).ch.deskLock
  {
    if k == |actions| {
      assert actions[..k] == actions;
    } else {
      var before, a := actions[..|actions| - 1], actions[|actions| - 1];
      assert before[..k] == actions[..k];
      LockStays(p, before, k);
      if a.Advance? {
        Settled(p, Run(p, before), a.v, a.cut);
      }
    }
  }

  /** Against any desk, any timing and any crashes: no claim is out, and nothing of the holder's is taken, before the
      claim is stored as sent; it is so stored only for a lock that passed every check, is unspent and has `claimLeft`
      blocks left; and a record that waits for its refund has never sent its claim, or has seen the desk's lock spent
      by another transaction. */
  lemma SecretStaysIn(p: Policy, actions: seq<Action>)
    requires PolicyOk(p) && Legal(p, actions)
    ensures var w := Run(p, actions);
            && (w.ch.claim != Unsent || w.ch.take != Unsent ==> w.rec.sent)
            && (w.rec.sent ==>
                  && w.rec.complete && w.ch.deskLock == Mined(w.rec.deskLockHeight)
                  && w.sentAt + p.claimLeft <= w.rec.deskLockHeight + p.csvDesk - 1
                  && exists i, j :: SentAfterCheck(p, actions, i, j))
            && (w.rec.phase.RefundWait? && w.rec.sent ==> w.ch.deskRefund != Unsent && exists k :: LostRaceAt(p, actions, k))
  {
    RunIsSafe(p, actions);
    if Run(p, actions).rec.sent {
      var i, j := SendingNeedsCheck(p, actions);
      assert SentAfterCheck(p, actions, i, j);
    }
    if LostRace(Run(p, actions).rec) {
      RaceBefore(p, actions);
    }
  }

  /** Against any desk, a holder that steps in every block never loses its lock for nothing: once its
      claim is out the desk's refund can no longer be mined, and no one takes its lock before that. And
      it always ends with the claim or with its refund. */
  lemma HolderNeverLoses(p: Policy, actions: seq<Action>)
    requires PolicyOk(p) && Legal(p, actions) && OnTime(p, actions)
    ensures var w := Run(p, actions);
            && !w.rec.phase.DeskTook?
            && !(w.ch.take != Unsent && w.ch.deskRefund.Mined?)
            && (w.ch.holderLock.Mined? && w.stepped
                && w.ch.tip > w.ch.holderLock.height + p.csvHolder + p.claimLeft + p.holderRefundDelay ==>
                  (w.rec.phase.Refunded? || w.rec.phase.Done?))
  {
    RunIsSafe(p, actions);
  }
}
