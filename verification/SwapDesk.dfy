/** The desk of a swap (dapp/btcswap-desk.js): one durable record advanced step by step against the
    chain, with a crash possible after any save or broadcast. The other party is anything at all. */
module SwapDesk {
  import opened SwapChain

  datatype Phase =
    | NoRecord | Accepted | Locking | Locked | Offered | Taking | Done
    | Refunding | Refunded | Aborted | Lost

  /** The stored record. `signed` says a signing session has given its half, so that its pre-signature
      is stored (SigningSessions); `lockBuilt`, `refundBuilt` and `takeBuilt` that the pair is stored. */
  datatype Record = Record(
    phase: Phase, lockBuilt: bool, signed: bool, lockHeight: int, refundBuilt: bool, takeBuilt: bool)

  const EMPTY := Record(NoRecord, false, false, 0, false, false)

  /** What one `advance` reads besides the heights: the spenders an explorer reports, the wanted
      confirmations, whether the waiting time is over, whether the desk's notes cover the amount, and
      whether `readClaim` finds t in the witness of the desk lock's spender. */
  datatype View = View(
    holderSpender: MaybeTx, deskSpender: MaybeTx, minConfs: int, waited: bool, funded: bool, readable: bool)

  predicate Sees(p: Policy, ch: Chain, v: View) {
    SeesHolderLock(p, ch, v.holderSpender) && SeesDeskLock(p, ch, v.deskSpender)
  }

  /** The holder's lock still leaves room for the desk's lock, its refund wait and the take margin. */
  predicate RoomToLock(p: Policy, ch: Chain) {
    Height(ch, HolderLock) + p.csvHolder - 1 >= ch.tip + p.lockDelay + p.csvDesk + p.takeMargin
  }

  /** `spentLock`: the stored refund, a claim whose secret a stored session yields, or a loss. */
  function SpentLock(rec: Record, who: Tx, readable: bool): Record {
    if rec.refundBuilt && who == DeskRefund then rec.(phase := Refunding)
    else if readable then rec.(phase := Taking)
    else rec.(phase := Lost)
  }

  /** What one step does: the record stored before anything is sent, what is sent, the record stored last. */
  datatype Steps = Steps(before: Record, send: MaybeTx, after: Record)

  function Store(rec: Record, rec': Record): Steps {
    Steps(rec, NoTx, rec')
  }

  function Settle(rec: Record, s: Steps, cut: Cut): Record {
    match cut
    case Nothing => rec
    case AfterSave => s.before
    case AfterSend => s.before
    case Whole => s.after
  }

  /** `advance`: the saves and the broadcast of one step. */
  function Plan(p: Policy, ch: Chain, rec: Record, v: View): Steps {
    match rec.phase
    case Accepted =>
      if v.holderSpender.Just? then Store(rec, rec.(phase := Aborted))
      else if Confirmations(ch, HolderLock) < v.minConfs then
        (if v.waited then Store(rec, rec.(phase := Aborted)) else Store(rec, rec))
      else if !RoomToLock(p, ch) then Store(rec, rec.(phase := Aborted))
      else if rec.lockBuilt then Store(rec, rec.(phase := Locking))
      else if v.funded then
        Steps(rec.(lockBuilt := true), NoTx, rec.(lockBuilt := true, phase := Locking))
      else if v.waited then Store(rec, rec.(phase := Aborted)) else Store(rec, rec)
    case Locking => Steps(rec, Just(DeskLock), rec.(phase := Locked))
    case Locked =>
      if Confirmations(ch, DeskLock) == 0 then Steps(rec, Just(DeskLock), rec)
      else Store(rec, rec.(phase := Offered, lockHeight := Height(ch, DeskLock)))
    case Offered =>
      if v.deskSpender.Just? then Store(rec, SpentLock(rec, v.deskSpender.tx, v.readable))
      else if ch.tip < rec.lockHeight + p.csvDesk - 1 then Store(rec, rec)
      else Steps(rec.(refundBuilt := true), Just(DeskRefund), rec.(refundBuilt := true, phase := Refunding))
    case Refunding =>
      if v.deskSpender.Just? && v.deskSpender.tx != DeskRefund then Store(rec, SpentLock(rec, v.deskSpender.tx, v.readable))
      else if v.deskSpender.Just? && Confirmations(ch, DeskRefund) > 0 then Store(rec, rec.(phase := Refunded))
      else Steps(rec, Just(DeskRefund), rec)
    case Taking =>
      var built := rec.(takeBuilt := true);
      if v.holderSpender.Just? && v.holderSpender.tx != Take then Steps(built, NoTx, built.(phase := Lost))
      else if v.holderSpender.Just? && Confirmations(ch, Take) > 0 then Steps(built, NoTx, built.(phase := Done))
      else Steps(built, Just(Take), built)
    case _ => Store(rec, rec)
  }

  /** `signable`: an offered lock, unspent, with time left before the refund opens. */
  predicate Signable(p: Policy, ch: Chain, rec: Record, v: View) {
    && rec.phase.Offered?
    && ch.tip < rec.lockHeight + p.csvDesk - 1 - p.signStop
    && v.deskSpender.NoTx?
  }

  /** The record as an object: `advance` with its saves and its broadcast made one by one. */
  class Desk {
    var rec: Record
    /** Every transaction sent, and the record the store held when the last one went out. */
    var sent: seq<Tx>
    var heldAtSend: Record

    constructor ()
      ensures rec == EMPTY && sent == [] && heldAtSend == EMPTY
    {
      rec, sent, heldAtSend := EMPTY, [], EMPTY;
    }

    method Save(r: Record)
      modifies this`rec
      ensures rec == r
    {
      rec := r;
    }

    method Send(tx: Tx)
      modifies this`sent, this`heldAtSend
      ensures sent == old(sent) + [tx] && heldAtSend == rec
    {
      sent := sent + [tx];
      heldAtSend := rec;
    }

    /** One whole step does what `Plan` lists, in its order. */
    method Advance(p: Policy, ch: Chain, v: View)
      modifies this
      ensures var s := Plan(p, ch, old(rec), v);
              && rec == s.after
              && (s.send.Just? ==> sent == old(sent) + [s.send.tx] && heldAtSend == s.before)
              && (s.send.NoTx? ==> sent == old(sent) && heldAtSend == old(heldAtSend))
    {
      match rec.phase {
        case Accepted => CheckAndLock(p, ch, v);
        case Locking =>
          Send(DeskLock);
          Save(rec.(phase := Locked));
        case Locked =>
          if Confirmations(ch, DeskLock) == 0 {
            Send(DeskLock);
          } else {
            Save(rec.(phase := Offered, lockHeight := Height(ch, DeskLock)));
          }
        case Offered =>
          if v.deskSpender.Just? {
            Save(SpentLock(rec, v.deskSpender.tx, v.readable));
          } else if ch.tip >= rec.lockHeight + p.csvDesk - 1 {
            if !rec.refundBuilt {
              Save(rec.(refundBuilt := true));
            }
            Send(DeskRefund);
            Save(rec.(phase := Refunding));
          }
        case Refunding =>
          if v.deskSpender.Just? && v.deskSpender.tx != DeskRefund {
            Save(SpentLock(rec, v.deskSpender.tx, v.readable));
          } else if v.deskSpender.Just? && Confirmations(ch, DeskRefund) > 0 {
            Save(rec.(phase := Refunded));
          } else {
            Send(DeskRefund);
          }
        case Taking =>
          if !rec.takeBuilt {
            Save(rec.(takeBuilt := true));
          }
          if v.holderSpender.Just? && v.holderSpender.tx != Take {
            Save(rec.(phase := Lost));
          } else if v.holderSpender.Just? && Confirmations(ch, Take) > 0 {
            Save(rec.(phase := Done));
          } else {
            Send(Take);
          }
        case _ =>
      }
    }

    /** The accepted phase: the last look at the holder's lock before the desk's own is built. */
    method CheckAndLock(p: Policy, ch: Chain, v: View)
      requires rec.phase.Accepted?
      modifies this`rec
      ensures rec == Plan(p, ch, old(rec), v).after && Plan(p, ch, old(rec), v).send.NoTx?
    {
      if v.holderSpender.Just? {
        Save(rec.(phase := Aborted));
        return;
      }
      if Confirmations(ch, HolderLock) < v.minConfs {
        if v.waited {
          Save(rec.(phase := Aborted));
        }
        return;
      }
      if !RoomToLock(p, ch) {
        Save(rec.(phase := Aborted));
        return;
      }
      if !rec.lockBuilt {
        if !v.funded {
          if v.waited {
            Save(rec.(phase := Aborted));
          }
          return;
        }
        Save(rec.(lockBuilt := true));
      }
      Save(rec.(phase := Locking));
    }
  }

  // ----- the desk, the chain and anybody else

  /** The world: the chain, the stored record, and what an observer notes: the tip of the last
      accepted-phase check that passed, when the refund and the take were first sent, when the claim
      was read, and whether a whole step has run since the last block. */
  datatype World = World(
    ch: Chain, rec: Record,
    checkTip: int, refundSentAt: int, takeSentAt: int, readAt: int, stepped: bool)

  datatype Action =
    | Accept
    | Advance(v: View, cut: Cut)
    | Sign(v: View)
    | OtherSends(tx: Tx)
    | NewBlock(b: Block)

  /** An offer whose lock has confirmed is accepted only with room to lock against it. A step may be cut
      anywhere, and is when the network refuses its broadcast. The counterparty may send anything it can
      sign: its own lock and refund, and a claim once the desk has signed. A desk that has signed reads
      the claims it meets; DeskSigning derives both from the stored sessions and the witness. */
  predicate Enabled(p: Policy, w: World, a: Action) {
    match a
    case Accept => w.rec.phase.NoRecord? && (w.ch.holderLock.Mined? ==> RoomToLock(p, w.ch))
    case Advance(v, cut) =>
      && Sees(p, w.ch, v) && 1 <= v.minConfs <= p.csvHolder && CutOk(p, w.ch, Plan(p, w.ch, w.rec, v).send, cut)
      && (v.deskSpender == Just(Claim) && w.rec.signed ==> v.readable)
    case Sign(v) => Sees(p, w.ch, v) && Signable(p, w.ch, w.rec, v)
    case OtherSends(tx) => Final(p, w.ch, tx) && (tx == HolderLock || tx == HolderRefund || (tx == Claim && w.rec.signed))
    case NewBlock(b) => BlockOk(p, w.ch, b)
  }

  /** The world after a step's saves and broadcast, as far as the cut. */
  function After(w: World, s: Steps, cut: Cut): World {
    var ch, rec := Published(w.ch, s.send, cut), Settle(w.rec, s, cut);
    World(ch, rec,
          if w.rec.phase.Accepted? && rec.phase.Locking? then w.ch.tip else w.checkTip,
          if w.ch.deskRefund == Unsent && ch.deskRefund == Sent then w.ch.tip else w.refundSentAt,
          if w.ch.take == Unsent && ch.take == Sent then w.ch.tip else w.takeSentAt,
          if !w.rec.phase.Taking? && rec.phase.Taking? then w.ch.tip else w.readAt,
          w.stepped || cut == Whole)
  }

  function Next(p: Policy, w: World, a: Action): World {
    match a
    case Accept => w.(rec := EMPTY.(phase := Accepted))
    case Advance(v, cut) => After(w, Plan(p, w.ch, w.rec, v), cut)
    case Sign(v) => w.(rec := w.rec.(signed := true))
    case OtherSends(tx) => w.(ch := Send(w.ch, tx))
    case NewBlock(b) => w.(ch := Mine(w.ch, b), stepped := false)
  }

  const START := World(Chain(0, Unsent, Unsent, Unsent, Unsent, Unsent, Unsent), EMPTY, 0, 0, 0, 0, false)

  /** What holds of the record whatever the timing and wherever steps were cut short. */
  ghost predicate Safe(p: Policy, w: World) {
    var ch, rec := w.ch, w.rec;
    && ChainOk(p, ch)
    && (ch.claim != Unsent ==> rec.signed)
    && (ch.deskRefund != Unsent ==> rec.refundBuilt)
    && (ch.take != Unsent ==> rec.takeBuilt)
    && (rec.signed ==> ch.deskLock.Mined?)
    && (rec.refundBuilt ==> ch.deskLock.Mined?)
    && (rec.takeBuilt ==> (rec.phase.Taking? || rec.phase.Done? || rec.phase.Lost?))
    && ((rec.phase.NoRecord? || rec.phase.Accepted? || rec.phase.Aborted?) ==> ch.deskLock == Unsent)
    && ((rec.phase.NoRecord? || rec.phase.Accepted? || rec.phase.Aborted? || rec.phase.Locking? || rec.phase.Locked?) ==> !rec.signed && !rec.refundBuilt)
    && (rec.phase.Locked? ==> ch.deskLock != Unsent)
    && ((rec.phase.Offered? || rec.phase.Refunding?) ==> ch.deskLock.Mined? && rec.lockHeight == ch.deskLock.height)
    && ((rec.phase.Refunding? || rec.phase.Refunded?) ==> rec.refundBuilt)
    && (rec.phase.Refunded? ==> ch.deskRefund.Mined?)
    && (rec.phase.Taking? ==> ch.claim != Unsent)
    && (rec.phase.Done? ==> ch.take.Mined? && ch.claim != Unsent)
    && (rec.phase.Lost? ==> ch.holderRefund != Unsent && ch.claim != Unsent)
    && (ch.take != Unsent ==> ch.claim != Unsent)
  }

  lemma SafeBeforeOffer(p: Policy, w: World, v: View, cut: Cut)
    requires PolicyOk(p) && Safe(p, w) && Enabled(p, w, Advance(v, cut)) && (w.rec.phase.Accepted? || w.rec.phase.Locking? || w.rec.phase.Locked?)
    ensures Safe(p, Next(p, w, Advance(v, cut)))
  {
  }

  /** What a step may do to an offered lock. */
  ghost predicate OfferedMoves(ch: Chain, rec: Record, s: Steps) {
    || s == Store(rec, rec)
    || (s == Store(rec, rec.(phase := Refunding)) && rec.refundBuilt)
    || (s == Store(rec, rec.(phase := Taking)) && ch.claim != Unsent)
    || s == Steps(rec.(refundBuilt := true), Just(DeskRefund), rec.(refundBuilt := true, phase := Refunding))
  }

  lemma PlanOffered(p: Policy, ch: Chain, rec: Record, v: View)
    requires Sees(p, ch, v) && rec.phase.Offered? && (v.deskSpender == Just(Claim) && rec.signed ==> v.readable)
    requires (ch.claim != Unsent ==> rec.signed) && (ch.deskRefund != Unsent ==> rec.refundBuilt)
    ensures OfferedMoves(ch, rec, Plan(p, ch, rec, v))
  {
  }

  lemma SafeOffered(p: Policy, w: World, s: Steps, cut: Cut)
    requires PolicyOk(p) && Safe(p, w) && CutOk(p, w.ch, s.send, cut) && w.rec.phase.Offered? && OfferedMoves(w.ch, w.rec, s)
    ensures Safe(p, After(w, s, cut))
  {
  }

  lemma SafeRefunding(p: Policy, w: World, v: View, cut: Cut)
    requires PolicyOk(p) && Safe(p, w) && Enabled(p, w, Advance(v, cut)) && w.rec.phase.Refunding?
    ensures Safe(p, Next(p, w, Advance(v, cut)))
  {
  }

  /** What a step may do once the secret is known. */
  ghost predicate TakingMoves(ch: Chain, rec: Record, s: Steps) {
    var built := rec.(takeBuilt := true);
    || (s == Steps(built, NoTx, built.(phase := Lost)) && ch.holderRefund != Unsent)
    || (s == Steps(built, NoTx, built.(phase := Done)) && ch.take.Mined?)
    || s == Steps(built, Just(Take), built)
  }

  lemma PlanTaking(p: Policy, ch: Chain, rec: Record, v: View)
    requires Sees(p, ch, v) && rec.phase.Taking?
    ensures TakingMoves(ch, rec, Plan(p, ch, rec, v))
  {
  }

  lemma SafeTaking(p: Policy, w: World, s: Steps, cut: Cut)
    requires PolicyOk(p) && Safe(p, w) && CutOk(p, w.ch, s.send, cut) && w.rec.phase.Taking? && TakingMoves(w.ch, w.rec, s)
    ensures Safe(p, After(w, s, cut))
  {
  }

  lemma SafeIdle(p: Policy, w: World, v: View, cut: Cut)
    requires PolicyOk(p) && Safe(p, w) && Enabled(p, w, Advance(v, cut)) && (w.rec.phase.NoRecord? || w.rec.phase.Done? || w.rec.phase.Refunded? || w.rec.phase.Aborted? || w.rec.phase.Lost?)
    ensures Safe(p, Next(p, w, Advance(v, cut)))
  {
  }

  lemma SafeBlock(p: Policy, w: World, b: Block)
    requires PolicyOk(p) && Safe(p, w) && Enabled(p, w, NewBlock(b))
    ensures Safe(p, Next(p, w, NewBlock(b)))
  {
  }

  lemma SafeAdvance(p: Policy, w: World, v: View, cut: Cut)
    requires PolicyOk(p) && Safe(p, w) && Enabled(p, w, Advance(v, cut))
    ensures Safe(p, Next(p, w, Advance(v, cut)))
  {
    match w.rec.phase {
      case Accepted => SafeBeforeOffer(p, w, v, cut);
      case Locking => SafeBeforeOffer(p, w, v, cut);
      case Locked => SafeBeforeOffer(p, w, v, cut);
      case Offered =>
        PlanOffered(p, w.ch, w.rec, v);
        SafeOffered(p, w, Plan(p, w.ch, w.rec, v), cut);
      case Refunding => SafeRefunding(p, w, v, cut);
      case Taking =>
        PlanTaking(p, w.ch, w.rec, v);
        SafeTaking(p, w, Plan(p, w.ch, w.rec, v), cut);
      case _ => SafeIdle(p, w, v, cut);
    }
  }

  /** Steps leave it to signing requests to say that a half was given. */
  lemma StepKeepsSigned(p: Policy, w: World, v: View, cut: Cut)
    ensures Next(p, w, Advance(v, cut)).rec.signed == w.rec.signed
  {
  }

  /** No step, cut anywhere, and nothing the counterparty does breaks what the record promises. */
  lemma SafeStep(p: Policy, w: World, a: Action)
    requires PolicyOk(p) && Safe(p, w) && Enabled(p, w, a)
    ensures Safe(p, Next(p, w, a))
  {
    match a
    case Advance(v, cut) => SafeAdvance(p, w, v, cut);
    case NewBlock(b) => SafeBlock(p, w, b);
    case _ =>
  }

  // ----- the same desk, stepping in every block

  /** The timing the margins are made for: a whole step runs between blocks, the desk's lock confirms
      within its delay of the last accepted-phase check, its refund and its take within theirs. */
  predicate Timely(p: Policy, w: World, a: Action) {
    a.NewBlock? ==>
      var h, ch := w.ch.tip + 1, w.ch;
      && w.stepped
      && (a.b.deskLock ==> h <= w.checkTip + p.lockDelay)
      && (ch.deskLock == Sent && h >= w.checkTip + p.lockDelay ==> a.b.deskLock)
      && (ch.deskRefund == Sent && !ch.claim.Mined? && h >= w.refundSentAt + p.refundDelay ==> a.b.deskRefund || a.b.claim)
      && (ch.take == Sent && !ch.holderRefund.Mined? && h >= w.takeSentAt + p.takeDelay ==> a.b.take)
  }

  /** Phases in which the desk has built its lock and is not finished. */
  predicate Busy(w: World) {
    (w.rec.phase.Locking? || w.rec.phase.Locked? || w.rec.phase.Offered?) || (w.rec.phase.Taking? && !w.ch.take.Mined?)
  }

  /** How long each phase lasts, and that the holder's refund is still shut throughout. */
  ghost predicate Prompt(p: Policy, w: World)
    requires Safe(p, w)
  {
    var ch, rec, s := w.ch, w.rec, if w.stepped then 1 else 0;
    && !rec.phase.Lost?
    && w.checkTip <= ch.tip
    && (!(rec.phase.NoRecord? || rec.phase.Accepted? || rec.phase.Aborted?) ==>
          && ch.holderLock.Mined?
          && ch.holderLock.height + p.csvHolder - 1 >= w.checkTip + p.lockDelay + p.csvDesk + p.takeMargin)
    && (ch.deskLock.Mined? ==> w.checkTip < ch.deskLock.height <= w.checkTip + p.lockDelay)
    && (rec.phase.Accepted? && ch.holderLock.Mined? ==> ch.tip <= ch.holderLock.height + p.csvHolder - 1)
    && (rec.phase.Accepted? && ch.holderLock.Mined? && ch.tip == ch.holderLock.height + p.csvHolder - 1 ==> s == 0)
    && (rec.phase.Locking? ==> ch.tip + s <= w.checkTip + 1)
    && (rec.phase.Locked? ==> if ch.deskLock.Mined? then ch.tip + s <= ch.deskLock.height + 1 else ch.tip < w.checkTip + p.lockDelay)
    && (rec.phase.Offered? ==> ch.tip <= ch.deskLock.height + p.csvDesk - 1)
    && (rec.phase.Offered? && ch.tip == ch.deskLock.height + p.csvDesk - 1 ==> s == 0)
    && (rec.phase.Offered? ==> !ch.deskRefund.Mined?)
    && (ch.deskRefund != Unsent ==> w.refundSentAt == ch.deskLock.height + p.csvDesk - 1)
    && (rec.phase.Refunding? ==> ch.deskRefund != Unsent)
    && (rec.phase.Refunding? && !ch.claim.Mined? && !ch.deskRefund.Mined? ==> ch.tip < w.refundSentAt + p.refundDelay)
    && (rec.phase.Refunding? && ch.deskRefund.Mined? ==> ch.tip == ch.deskRefund.height && s == 0)
    && (rec.phase.Refunding? && ch.tip == w.refundSentAt + p.refundDelay ==> s == 0)
    && (rec.phase.Refunding? ==> ch.tip <= w.refundSentAt + p.refundDelay)
    && ((rec.phase.Offered? || rec.phase.Refunding?) && ch.claim.Mined? ==> ch.tip == ch.claim.height && s == 0)
    && ((rec.phase.Taking? || rec.phase.Done?) ==> w.readAt <= ch.deskLock.height + p.csvDesk - 1 + p.claimLate && w.readAt <= ch.tip)
    && (rec.phase.Taking? && ch.take == Unsent ==> ch.tip + s <= w.readAt + 1)
    && (ch.take != Unsent ==> w.takeSentAt <= w.readAt + 1)
    && (ch.take == Sent ==> ch.tip < w.takeSentAt + p.takeDelay)
    && (ch.take.Mined? ==> rec.phase.Done? || (rec.phase.Taking? && ch.tip == ch.take.height && s == 0))
    && (Busy(w) ==> ch.tip + 1 < ch.holderLock.height + p.csvHolder)
  }

  /** A claim the desk has yet to read comes at most `claimLate` past the opening of its refund. */
  ghost predicate ClaimInTime(p: Policy, w: World)
    requires Safe(p, w)
  {
    (w.rec.phase.Offered? || w.rec.phase.Refunding?) && w.ch.claim != Unsent && !w.ch.deskRefund.Mined? ==>
      w.ch.tip <= w.ch.deskLock.height + p.csvDesk - 1 + p.claimLate
  }

  lemma PromptBeforeOffer(p: Policy, w: World, v: View, cut: Cut)
    requires PolicyOk(p) && Safe(p, w) && Prompt(p, w) && Enabled(p, w, Advance(v, cut)) && (w.rec.phase.Accepted? || w.rec.phase.Locking? || w.rec.phase.Locked?)
    requires Safe(p, Next(p, w, Advance(v, cut)))
    ensures Prompt(p, Next(p, w, Advance(v, cut)))
  {
  }

  lemma PromptOffered(p: Policy, w: World, v: View, cut: Cut)
    requires PolicyOk(p) && Safe(p, w) && Prompt(p, w) && Enabled(p, w, Advance(v, cut)) && w.rec.phase.Offered?
    requires Safe(p, Next(p, w, Advance(v, cut)))
    ensures Prompt(p, Next(p, w, Advance(v, cut)))
  {
  }

  lemma PromptRefunding(p: Policy, w: World, v: View, cut: Cut)
    requires PolicyOk(p) && Safe(p, w) && Prompt(p, w) && ClaimInTime(p, w) && Enabled(p, w, Advance(v, cut)) && w.rec.phase.Refunding?
    requires Safe(p, Next(p, w, Advance(v, cut)))
    ensures Prompt(p, Next(p, w, Advance(v, cut)))
  {
  }

  lemma PromptTaking(p: Policy, w: World, v: View, cut: Cut)
    requires PolicyOk(p) && Safe(p, w) && Prompt(p, w) && Enabled(p, w, Advance(v, cut)) && w.rec.phase.Taking?
    requires Safe(p, Next(p, w, Advance(v, cut)))
    ensures Prompt(p, Next(p, w, Advance(v, cut)))
  {
  }

  lemma PromptIdle(p: Policy, w: World, v: View, cut: Cut)
    requires PolicyOk(p) && Safe(p, w) && Prompt(p, w) && Enabled(p, w, Advance(v, cut)) && (w.rec.phase.NoRecord? || w.rec.phase.Done? || w.rec.phase.Refunded? || w.rec.phase.Aborted? || w.rec.phase.Lost?)
    requires Safe(p, Next(p, w, Advance(v, cut)))
    ensures Prompt(p, Next(p, w, Advance(v, cut)))
  {
  }

  lemma PromptBlock(p: Policy, w: World, b: Block)
    requires PolicyOk(p) && Safe(p, w) && Prompt(p, w) && Enabled(p, w, NewBlock(b)) && Timely(p, w, NewBlock(b))
    requires Safe(p, Next(p, w, NewBlock(b)))
    ensures Prompt(p, Next(p, w, NewBlock(b)))
  {
  }

  lemma PromptAdvance(p: Policy, w: World, v: View, cut: Cut)
    requires PolicyOk(p) && Safe(p, w) && Prompt(p, w) && ClaimInTime(p, w) && Enabled(p, w, Advance(v, cut))
    requires Safe(p, Next(p, w, Advance(v, cut)))
    ensures Prompt(p, Next(p, w, Advance(v, cut)))
  {
    match w.rec.phase {
      case Accepted => PromptBeforeOffer(p, w, v, cut);
      case Locking => PromptBeforeOffer(p, w, v, cut);
      case Locked => PromptBeforeOffer(p, w, v, cut);
      case Offered => PromptOffered(p, w, v, cut);
      case Refunding => PromptRefunding(p, w, v, cut);
      case Taking => PromptTaking(p, w, v, cut);
      case _ => PromptIdle(p, w, v, cut);
    }
  }

  lemma PromptStep(p: Policy, w: World, a: Action)
    requires PolicyOk(p) && Safe(p, w) && Prompt(p, w) && ClaimInTime(p, w) && Enabled(p, w, a) && Timely(p, w, a)
    ensures Safe(p, Next(p, w, a)) && Prompt(p, Next(p, w, a))
  {
    SafeStep(p, w, a);
    match a
    case Advance(v, cut) => PromptAdvance(p, w, v, cut);
    case NewBlock(b) => PromptBlock(p, w, b);
    case _ =>
  }

  // ----- whole runs

  function Run(p: Policy, actions: seq<Action>): World {
    if actions == [] then START else Next(p, Run(p, actions[..|actions| - 1]), actions[|actions| - 1])
  }

  ghost predicate Legal(p: Policy, actions: seq<Action>) {
    actions != [] ==>
      var before, a := actions[..|actions| - 1], actions[|actions| - 1];
      Legal(p, before) && Enabled(p, Run(p, before), a)
  }

  ghost predicate OnTime(p: Policy, actions: seq<Action>) {
    actions != [] ==>
      var before, a := actions[..|actions| - 1], actions[|actions| - 1];
      OnTime(p, before) && Timely(p, Run(p, before), a)
  }

  lemma {:induction false} RunIsSafe(p: Policy, actions: seq<Action>)
    requires PolicyOk(p) && Legal(p, actions)
    ensures Safe(p, Run(p, actions))
    ensures OnTime(p, actions) && p.refundDelay <= p.claimLate ==> Prompt(p, Run(p, actions))
  {
    if actions != [] {
      var before, a := actions[..|actions| - 1], actions[|actions| - 1];
      RunIsSafe(p, before);
      SafeStep(p, Run(p, before), a);
      if OnTime(p, actions) && p.refundDelay <= p.claimLate {
        assert ClaimInTime(p, Run(p, before));
        PromptStep(p, Run(p, before), a);
      }
    }
  }

  /** Against any counterparty, any timing and any crashes: whoever spends the desk's lock is the
      desk's own stored refund or a claim made after it gave a half, so a lock is lost only to a holder's
      refund that came before the take. That such a claim yields t is DeskSigning.ClaimsAreRead. */
  lemma SpenderIsSigned(p: Policy, actions: seq<Action>, v: View)
    requires PolicyOk(p) && Legal(p, actions) && Sees(p, Run(p, actions).ch, v)
    ensures var w := Run(p, actions);
            && (v.deskSpender.Just? ==>
                  || (v.deskSpender == Just(DeskRefund) && w.rec.refundBuilt)
                  || (v.deskSpender == Just(Claim) && w.rec.signed))
            && (w.rec.phase.Lost? ==> w.ch.holderRefund != Unsent && w.ch.claim != Unsent && w.rec.signed)
            && (w.rec.phase.Done? ==> w.ch.take.Mined?)
            && (w.rec.phase.Refunded? ==> w.ch.deskRefund.Mined?)
            && (w.rec.phase.Aborted? ==> w.ch.deskLock == Unsent)
  {
    RunIsSafe(p, actions);
  }

  /** Against any counterparty, a desk that steps in every block is never lost: a mined claim always
      leaves it the holder's lock. And once the holder's refund opens the desk has finished. */
  lemma DeskNeverLoses(p: Policy, actions: seq<Action>)
    requires PolicyOk(p) && p.refundDelay <= p.claimLate && Legal(p, actions) && OnTime(p, actions)
    ensures var w := Run(p, actions);
            && !w.rec.phase.Lost?
            && !(w.ch.claim.Mined? && w.ch.holderRefund.Mined?)
            && (w.ch.holderLock.Mined? && w.ch.deskLock.Mined? ==>
                  w.ch.holderLock.height + p.csvHolder > w.ch.deskLock.height + p.csvDesk + p.takeMargin)
            && (w.ch.holderLock.Mined? && w.ch.tip >= w.ch.holderLock.height + p.csvHolder - 1 && w.stepped ==>
                  (w.rec.phase.NoRecord? || w.rec.phase.Aborted? || w.rec.phase.Refunded? || w.rec.phase.Done?))
  {
    RunIsSafe(p, actions);
  }
}
