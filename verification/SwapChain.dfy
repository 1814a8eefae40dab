/** The chain as both sides of a swap see it: the six transactions of one swap, relative timelocks,
    and blocks that may carry any of them that are final and unspent. Confirmed stays confirmed. */
module SwapChain {
  /** The holder's lock and the desk's lock; the two spends of each. */
  datatype Tx = HolderLock | DeskLock | Claim | DeskRefund | Take | HolderRefund

  datatype MaybeTx = NoTx | Just(tx: Tx)

  datatype TxState = Unsent | Sent | Mined(height: int)

  datatype Chain = Chain(
    tip: int,
    holderLock: TxState, deskLock: TxState,
    claim: TxState, deskRefund: TxState,
    take: TxState, holderRefund: TxState)

  /** Terms and margins (dapp/btcswap.js DEFAULTS), and the assumed confirmation delays of the three
      transactions that have no margin of their own: the desk's refund, the take, the holder's refund.
      `claimLate` is how far past the opening of its refund the desk may still meet a claim. */
  datatype Policy = Policy(
    csvHolder: int, csvDesk: int, lockDelay: int, takeMargin: int, claimLeft: int, signStop: int,
    refundDelay: int, takeDelay: int, holderRefundDelay: int, claimLate: int)

  const DEFAULTS := Policy(288, 144, 6, 24, 12, 6, 12, 12, 12, 12)

  predicate PolicyOk(p: Policy) {
    && p.lockDelay >= 2 && p.csvDesk >= 4 && p.csvHolder >= 1
    && p.claimLeft >= 1 && p.signStop >= 0 && p.refundDelay >= 1 && p.takeDelay >= 1 && p.holderRefundDelay >= 1
    && p.claimLate >= 0 && p.claimLate + p.takeDelay <= p.takeMargin
  }

  function State(ch: Chain, tx: Tx): TxState {
    match tx
    case HolderLock => ch.holderLock
    case DeskLock => ch.deskLock
    case Claim => ch.claim
    case DeskRefund => ch.deskRefund
    case Take => ch.take
    case HolderRefund => ch.holderRefund
  }

  /** `status`: confirmations and height, both zero until a transaction is mined. */
  function Confirmations(ch: Chain, tx: Tx): int {
    if State(ch, tx).Mined? then ch.tip - State(ch, tx).height + 1 else 0
  }

  function Height(ch: Chain, tx: Tx): int {
    if State(ch, tx).Mined? then State(ch, tx).height else 0
  }

  /** When a transaction may enter the next block: its parent exists, its timelock has run, and its
      input is not spent by its rival. */
  predicate Final(p: Policy, ch: Chain, tx: Tx) {
    match tx
    case HolderLock => true
    case DeskLock => true
    case Claim => ch.deskLock != Unsent && !ch.deskRefund.Mined?
    case DeskRefund => ch.deskLock.Mined? && ch.tip + 1 >= ch.deskLock.height + p.csvDesk && !ch.claim.Mined?
    case Take => ch.holderLock != Unsent && !ch.holderRefund.Mined?
    case HolderRefund => ch.holderLock.Mined? && ch.tip + 1 >= ch.holderLock.height + p.csvHolder && !ch.take.Mined?
  }

  /** A transaction the network takes becomes visible; one it already has stays as it is. */
  function Send(ch: Chain, tx: Tx): Chain {
    if State(ch, tx) != Unsent then ch else
    match tx
    case HolderLock => ch.(holderLock := Sent)
    case DeskLock => ch.(deskLock := Sent)
    case Claim => ch.(claim := Sent)
    case DeskRefund => ch.(deskRefund := Sent)
    case Take => ch.(take := Sent)
    case HolderRefund => ch.(holderRefund := Sent)
  }

  /** `outspend` of the desk's lock: a mined spender for certain, otherwise nothing or one in the mempool. */
  predicate SeesDeskLock(p: Policy, ch: Chain, who: MaybeTx) {
    && (who.Just? ==> who.tx == Claim || who.tx == DeskRefund)
    && (who == Just(Claim) ==> ch.claim != Unsent && !ch.deskRefund.Mined?)
    && (who == Just(DeskRefund) ==> ch.deskRefund != Unsent && (ch.deskRefund.Mined? || Final(p, ch, DeskRefund)))
    && (ch.claim.Mined? ==> who == Just(Claim))
    && (ch.deskRefund.Mined? ==> who == Just(DeskRefund))
  }

  /** `outspend` of the holder's lock, likewise. */
  predicate SeesHolderLock(p: Policy, ch: Chain, who: MaybeTx) {
    && (who.Just? ==> who.tx == Take || who.tx == HolderRefund)
    && (who == Just(Take) ==> ch.take != Unsent && !ch.holderRefund.Mined?)
    && (who == Just(HolderRefund) ==> ch.holderRefund != Unsent && (ch.holderRefund.Mined? || Final(p, ch, HolderRefund)))
    && (ch.take.Mined? ==> who == Just(Take))
    && (ch.holderRefund.Mined? ==> who == Just(HolderRefund))
  }

  /** Where a crash or a refused broadcast cuts a step. */
  datatype Cut = Nothing | AfterSave | AfterSend | Whole

  function Published(ch: Chain, send: MaybeTx, cut: Cut): Chain {
    if (cut == AfterSend || cut == Whole) && send.Just? then Send(ch, send.tx) else ch
  }

  /** A broadcast the network refuses cuts the step. */
  predicate CutOk(p: Policy, ch: Chain, send: MaybeTx, cut: Cut) {
    send.Just? && !Final(p, ch, send.tx) ==> cut == Nothing || cut == AfterSave
  }

  /** Which of the six a block carries. */
  datatype Block = Block(holderLock: bool, deskLock: bool, claim: bool, deskRefund: bool, take: bool, holderRefund: bool)

  /** A block takes only what was sent, is final, and does not spend one output twice; a spend may
      ride in the same block as the lock it spends. */
  predicate BlockOk(p: Policy, ch: Chain, b: Block) {
    && (b.holderLock ==> ch.holderLock == Sent)
    && (b.deskLock ==> ch.deskLock == Sent)
    && (b.claim ==> ch.claim == Sent && Final(p, ch, Claim) && (ch.deskLock.Mined? || b.deskLock))
    && (b.deskRefund ==> ch.deskRefund == Sent && Final(p, ch, DeskRefund))
    && (b.take ==> ch.take == Sent && Final(p, ch, Take) && (ch.holderLock.Mined? || b.holderLock))
    && (b.holderRefund ==> ch.holderRefund == Sent && Final(p, ch, HolderRefund))
    && !(b.claim && b.deskRefund)
    && !(b.take && b.holderRefund)
  }

  function Mine(ch: Chain, b: Block): Chain {
    var h := ch.tip + 1;
    Chain(h,
          if b.holderLock then Mined(h) else ch.holderLock,
          if b.deskLock then Mined(h) else ch.deskLock,
          if b.claim then Mined(h) else ch.claim,
          if b.deskRefund then Mined(h) else ch.deskRefund,
          if b.take then Mined(h) else ch.take,
          if b.holderRefund then Mined(h) else ch.holderRefund)
  }

  /** What consensus keeps in every state: heights are past, a spend follows its lock, refunds are old
      enough even to be sent, and no output is spent twice. */
  predicate ChainOk(p: Policy, ch: Chain) {
    && (ch.holderLock.Mined? ==> ch.holderLock.height <= ch.tip)
    && (ch.deskLock.Mined? ==> ch.deskLock.height <= ch.tip)
    && (ch.claim.Mined? ==> ch.deskLock.Mined? && ch.deskLock.height <= ch.claim.height <= ch.tip)
    && (ch.deskRefund.Mined? ==> ch.deskLock.Mined? && ch.deskLock.height + p.csvDesk <= ch.deskRefund.height <= ch.tip)
    && (ch.take.Mined? ==> ch.holderLock.Mined? && ch.holderLock.height <= ch.take.height <= ch.tip)
    && (ch.holderRefund.Mined? ==> ch.holderLock.Mined? && ch.holderLock.height + p.csvHolder <= ch.holderRefund.height <= ch.tip)
    && !(ch.claim.Mined? && ch.deskRefund.Mined?)
    && !(ch.take.Mined? && ch.holderRefund.Mined?)
    && (ch.claim != Unsent ==> ch.deskLock != Unsent)
    && (ch.deskRefund != Unsent ==> ch.deskLock.Mined? && ch.tip + 1 >= ch.deskLock.height + p.csvDesk)
    && (ch.take != Unsent ==> ch.holderLock != Unsent)
    && (ch.holderRefund != Unsent ==> ch.holderLock.Mined? && ch.tip + 1 >= ch.holderLock.height + p.csvHolder)
  }
}
