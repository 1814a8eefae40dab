# tacit, modelled in Dafny

A model of six parts of the dapp that move value by rules a reader cannot check by eye: the Bitcoin-to-Bitcoin adaptor
swap, the pool replay and farm accumulator of the AMM, BabyJubJub arithmetic and point packing, the codecs of the
Bitcoin shielded pool, its Merkle trees and account scan, and the order planner with its execution loop. What the code
changes step by step is modelled by classes and methods with loops, proved against functions; the promises are lemmas
about every input, every run or every reachable state.

`dafny verify dfyconfig.toml` checks the whole project.

## How the parts fit

**The swap** (`CurveGroup`, `AdaptorSignature`, `AdaptorSwap`, `AdaptorBtcLock`, `Musig2`, `SigningSessions`,
`HolderSession`, `SessionOutcomes`, `SwapChain`, `SwapDesk`, `DeskOutcomes`, `DeskSigning`, `SwapHolder`,
`HolderOutcomes`, `HolderSigning`, `SwapJoint`, `SwapEnding`, `SwapWitness`, `SwapMargin`, `DeskNotes`). Curve points
are any commutative group of order n with a parity that flips under negation and an x shared only by opposite points;
hashes are arbitrary functions. On that rest the pre-signatures of both lanes, the two-party key and its adapted
signature, and the two signing sessions. The desk and the holder are state machines over a durable record: `Plan` says
what one `advance` saves, sends and saves again, and a crash or a refused broadcast may cut it anywhere; the
`Outcomes` modules say what each step comes to in tips, heights and answers alone. The chain holds six transactions,
two relative timelocks, and blocks that carry whatever is final. Each side is first proved safe against a counterparty
that may do anything it can sign, then prompt when it steps in every block; the joint run projects onto both.
`DeskSigning` and `HolderSigning` put the signing sessions into the two records: what the phases take for granted of a
claim is derived from the stored sessions, for claims with any valid signature under the nonce of a session whose half
the desk released (the only key-path signatures there are, if none can be forged). The delays are the ones the margins
are named for: the desk's lock within `lockDelay` of its last check, the claim within `claimLeft`, the take within
`takeDelay`. Against any holder the desk needs its own refund's delay plus the take's to fit in `takeMargin`, and
`SwapMargin` shows that this is exact; against a holder that keeps `claimLeft`, the take's delay alone is enough
(`claimLate` in the policy is the difference). A timely run that pays both sides exists on exactly the terms
`SwapWitness.Payable` names.

**The AMM** (`Isqrt`, `AmmReplay`, `AmmExactly`, `AmmInvariant`, `AmmFees`, `Farm`). The replay's injected arithmetic
is the dapp's own (in `dapp/tacit.js`). The pool invariant holds exactly for protocol fees of at most 10000 basis
points and the value of a share is kept exactly for fees up to 5000; for every higher fee `AmmFees` gives the accepted
operations after which it is not. The farm adds the worker's bonds, harvests and launcher's refund, so that solvency
is about what positions can draw: it holds until the launcher takes the treasury back, and from then on only for
positions that have nothing whole to draw.

**BabyJubJub** (`Remainder`, `ModArith`, `PrimeField`, `ModSqrt`, `Bytes`, `Field`, `BabyJub`, `EdwardsIdentity`,
`BabyJubLaw`, `BabyJubMultiples`). Fermat's little theorem and the existence of a non-square are proved for every
prime; the square root and the round trip then hold for every odd prime field below 2^255 and every curve with a
different from d. That the field of BabyJubJub is prime is an assumption. Unpacking is characterised completely; it
also accepts the identity with its sign bit set, and packing again gives the same bytes for every other accepted input
and not for that one, the subgroup's order being odd. The addition is proved to stay on the curve, to exist for every
two points when a is a square and d is not, and to be undone by mirror images; that it is associative is the one law
of a group left as a hypothesis, and on it scalar multiplication adds up copies of the point.

**The codecs** (`Words`, `BitRegroup`, `Bech32`, `Bech32Field`, `Bech32Codec`, `SpendCodec`, `SpendLayout`). bech32m
decodes what it encodes exactly for non-empty prefixes without capitals, and accepts nothing but encodings. The spend
parser and encoder differ both ways: the encoder refuses a want and an exit on the same output, where the parser does
not look, and leaves field elements, points, boundary and an all-zero bind to its caller.

**Trees and scan** (`MerkleLayers`, `SparseTree`, `LeanTree`, `BlockMerkle`, `AccountScan`, `AccountHistory`), and
**the market** (`Prorata`, `OrderBook`, `PlanOutcomes`, `BuyRun`, `RunOutcomes`), where the world answers every take
and every refresh as it likes.

## Model

| member | source | states |
|---|---|---|
| AdaptorSignature.PresignVerifies | dapp/adaptor-signature.js:53-74 | an honest pre-signature passes its check, for both parities of R + T and of the key |
| AdaptorSignature.CompletionVerifies | dapp/adaptor-signature.js:68-80 | a checked pre-signature completed with t passes BIP-340 verification exactly when R + T is not the point at infinity |
| AdaptorSignature.SignatureRevealsSecret | dapp/adaptor-signature.js:87-89 | any valid signature under the same nonce, however made, extracts to the discrete logarithm of T |
| AdaptorSignature.ExtractCompletes | dapp/adaptor-signature.js:77-89 | extracting from a completion gives t modulo n, in both parities |
| AdaptorSignature.KernelPresignVerifies | dapp/adaptor-signature.js:102-122 | an honest kernel pre-signature passes its check |
| AdaptorSignature.KernelCompletionVerifies | dapp/adaptor-signature.js:118-125 | a checked kernel pre-signature completed with t meets the kernel equation |
| AdaptorSignature.KernelRevealsSecret | dapp/adaptor-signature.js:118-126 | any scalar that meets the kernel equation extracts to the discrete logarithm of T |
| AdaptorSignature.KernelExtractCompletes | dapp/adaptor-signature.js:125-126 | extracting from a kernel completion gives t modulo n |
| AdaptorSwap.HonestLegVerifies | dapp/adaptor-swap.js:41-74 | a leg locked in either lane passes the other side's check |
| AdaptorSwap.CheckedLegSettles | dapp/adaptor-swap.js:68-96 | a checked leg completed with t passes its lane's verifier |
| AdaptorSwap.SettlementReveals | dapp/adaptor-swap.js:89-96 | any settlement of a checked leg gives its other side a t that opens T |
| AdaptorSwap.SettlingOneSettlesTheOther | dapp/adaptor-swap.js:78-96 | in all four lane pairings, the scalar that settles one leg lets the other leg be settled |
| AdaptorSwap.Swap.Lock | dapp/adaptor-swap.js:41-64 | the new state of a swap after a leg is locked, and that a nonce, compared as the number given, is taken once |
| AdaptorSwap.NonceGuardExactly | dapp/adaptor-swap.js:41-64 | two locked legs share a nonce point exactly when their nonces are equal modulo n, so what the comparison lets through is apart for nonces under n |
| AdaptorSwap.ShiftedNonceIsReused | dapp/adaptor-swap.js:56-60 | a nonce given again with n added passes the comparison and signs under the same nonce point |
| AdaptorSwap.Swap.Claim | dapp/adaptor-swap.js:78-85 | the initiator's claim settles the leg it claims, and only from a locked swap |
| AdaptorSwap.Swap.Counterclaim | dapp/adaptor-swap.js:89-96 | the t read from the claim is the initiator's, and it settles the other leg |
| AdaptorBtcLock.SecretOpensLock | dapp/adaptor-btc-lock.js:45-75 | the scalar claimSecret returns is that of the output key deriveLock made, in every parity |
| Musig2.KeyAggOk | dapp/musig2.js:49-58 | the untweaked aggregate satisfies the accumulated-tweak equation |
| Musig2.ApplyTweakOk | dapp/musig2.js:59-66 | an x-only tweak keeps that equation |
| Musig2.PartialSignVerifies | dapp/musig2.js:112-141 | a signer's own half passes the other side's check |
| Musig2.AggregatePoint | dapp/musig2.js:130-149 | two checked halves add up to the signed nonce sum plus the challenge times the even output key |
| Musig2.PartialsGivePreSignature | dapp/musig2.js:99-153 | two checked halves make a pre-signature that checks exactly when the nonces do not cancel |
| Musig2.AdaptedSignatureVerifies | dapp/musig2.js:151-159 | a checked pre-signature adapted with t is a BIP-340 signature under the output key |
| Musig2.SignatureGivesSecret | dapp/musig2.js:162-168 | any valid signature under the session's nonce gives t to the holder of the pre-signature |
| Musig2.ExtractAdapted | dapp/musig2.js:156-168 | extracting from an adapted signature gives t modulo n |
| SigningSessions.SigningDesk.AnswerNonce | dapp/btcswap-desk.js:230-245 | the stored sessions and the answer to a nonce request |
| SigningSessions.SigningDesk.AnswerSign | dapp/btcswap-desk.js:247-267 | the stored sessions and the answer to a sign request |
| SigningSessions.SigningDesk.ExtractT | dapp/btcswap.js:180-190 | the loop returns the first secret a stored pre-signature yields |
| SigningSessions.NonceSignsOnce | dapp/btcswap-desk.js:230-267 | over any requests, retries and crashes each secret nonce signs one message and nonce pair, a signed session has its secret wiped, and no swap exceeds its sessions |
| SigningSessions.AnswersAreStable | dapp/btcswap-desk.js:230-267 | later requests keep every session's place, message and nonces, and a signed one unchanged |
| SigningSessions.RepeatedNonceSame | dapp/btcswap-desk.js:236-237 | a nonce request repeated at any later time gets the same nonce |
| SigningSessions.RepeatedSignSameHalf | dapp/btcswap-desk.js:253-255 | a sign request repeated at any later time gets the same half |
| SigningSessions.ExtractFinds | dapp/btcswap.js:180-190 | the loop finds the secret whenever one stored pre-signature matches |
| SigningSessions.DeskReadsSecret | dapp/btcswap-desk.js:247-267 | after any run, a valid signature under the nonce of a session whose half left the desk gives the desk t |
| SessionOutcomes.NonceExactly | dapp/btcswap-desk.js:230-245 | a nonce request is answered from the first session of its message and nonce, and otherwise draws one exactly while the lock is signable and sessions are left, or is refused with 409 |
| SessionOutcomes.SignExactly | dapp/btcswap-desk.js:247-267 | a sign request gets the stored half for the same half, a new one stored with its pre-signature exactly when the lock is signable and both checks pass, and otherwise the status that says why, with nothing changed |
| SessionOutcomes.SessionsChangeInTime | dapp/btcswap-desk.js:227-267 | over any run nothing is drawn or signed but while the lock is offered, unspent and more than signStopBlocks from its refund |
| HolderSession.HolderSigner.Advance | dapp/btcswap-holder.js:172-208 | the stored claim after one signing step |
| HolderSession.HolderSignsOnce | dapp/btcswap-holder.js:183-199 | over any steps, desk answers and crashes the holder signs one message under one nonce pair, and the secret goes when the half is stored |
| HolderSession.HonestExchange | dapp/btcswap-holder.js:183-207 | an honest exchange ends with the desk's half accepted, a valid signature for the lock's key, and t readable from it, in either key order |
| HolderSession.StepCompletes | dapp/btcswap-holder.js:200-208 | whatever the desk answers, a completed claim carries a valid signature for the lock's key, made from a half that passed both checks |
| HolderSession.HonestRun | dapp/btcswap-holder.js:172-208 | the records' own steps and requests carry that exchange out, up to the completed claim |
| SwapDesk.Desk.Advance | dapp/btcswap-desk.js:137-217 | one step saves and sends in the order `Plan` lists, and what the store held when it sent |
| DeskOutcomes.AcceptedExactly | dapp/btcswap-desk.js:140-163 | in tips and heights, exactly when an accepted swap is aborted, locked on or kept, and the record each leaves |
| DeskOutcomes.LockedExactly | dapp/btcswap-desk.js:164-173 | the desk's lock goes out until it is mined, and is then offered at its height |
| DeskOutcomes.OfferedExactly | dapp/btcswap-desk.js:129-187 | exactly what a spender of an offered lock leads to, and that the refund goes out from the height at which it can be mined next, not before |
| DeskOutcomes.RefundingExactly | dapp/btcswap-desk.js:188-194 | exactly when a refund is over, turned, or sent again |
| DeskOutcomes.TakingExactly | dapp/btcswap-desk.js:195-213 | exactly when a take is done, lost, or sent again |
| DeskOutcomes.SignableExactly | dapp/btcswap-desk.js:227-227 | exactly when a half may be given |
| DeskOutcomes.LockedAfterCheck | dapp/btcswap-desk.js:140-163 | a run past the accepted phase has a step that found the holder's lock unspent, as deep as the confirmations asked for, and with room for the desk's lock, its wait and the margin |
| DeskOutcomes.SignedInTime | dapp/btcswap-desk.js:227-267 | a half that was given was given for a mined, unspent lock, more than signStopBlocks from its refund |
| DeskOutcomes.RefundBuiltInTime | dapp/btcswap-desk.js:174-187 | a refund that was built was built for an unspent lock whose timelock had run |
| SwapDesk.SafeStep | dapp/btcswap-desk.js:129-217 | no step cut anywhere, and nothing the counterparty does, breaks the record's invariant |
| SwapDesk.RunIsSafe | dapp/btcswap-desk.js:137-217 | the invariant and, on time, the phase deadlines hold in every reachable state |
| SwapDesk.SpenderIsSigned | dapp/btcswap-desk.js:122-135 | in every reachable state whatever spends the desk's lock is its stored refund or a claim made after it gave a half |
| SwapDesk.DeskNeverLoses | dapp/btcswap-desk.js:174-213 | against any holder a desk that steps in every block is never lost, the holder's refund opens more than the margin after its own, and the desk has finished by then |
| DeskSigning.PhasesAllow | dapp/btcswap-desk.js:122-267 | with the signing sessions in the record, every step, request and claim is one the desk's phases allow: their assumptions on claims hold |
| DeskSigning.RunRefines | dapp/btcswap-desk.js:137-267 | every run of the desk with its sessions is, to its phases, a legal run, and a timely one if it was timely |
| DeskSigning.ClaimsAreRead | dapp/btcswap-desk.js:122-135 | in every reachable state the desk's lock is spent by its stored refund or by a claim from whose signature extractT returns the t with t·G = T; a half is stored exactly when the record says so, and a lock is lost only to a holder's refund before the take, with t known |
| DeskSigning.TakingOpensLock | dapp/btcswap-desk.js:195-205 | the t a taking desk has stored gives claimSecret the scalar of the holder's lock's key |
| DeskSigning.SigningDeskNeverLoses | dapp/btcswap-desk.js:137-267 | against any holder, a desk that steps in every block and reads its claims from their signatures is never lost |
| SwapMargin.MarginIsExact | dapp/btcswap-desk.js:146-213 | on terms a desk can lock under, a timely desk is safe from every holder if and only if its refund's delay and the take's fit takeMarginBlocks |
| SwapMargin.MarginIsNeeded | dapp/btcswap-desk.js:146-213 | for every such terms with longer delays, a legal and timely run that ends lost |
| SwapHolder.Holder.Advance | dapp/btcswap-holder.js:129-234 | one step saves and sends in the order `Plan` lists, and what the store held when it sent |
| SwapHolder.Holder.MaybeRefund | dapp/btcswap-holder.js:80-94 | the refund step, likewise |
| HolderOutcomes.OwnLockFirst | dapp/btcswap-holder.js:129-134 | until a claim is sent a spent lock ends the swap and a run-out timelock turns to the refund |
| HolderOutcomes.AnnouncedExactly | dapp/btcswap-holder.js:136-159 | exactly when an announced lock is offered, kept or turned to its refund |
| HolderOutcomes.OfferedExactly | dapp/btcswap-holder.js:160-171 | claiming begins if and only if the desk's lock is valid, tracked, deep enough and in time; exactly when the refund is turned to instead |
| HolderOutcomes.PreparingExactly | dapp/btcswap-holder.js:172-208 | one part of the claim a step, and the refund instead of building or signing too late |
| HolderOutcomes.SendingExactly | dapp/btcswap-holder.js:209-216 | a complete claim goes out exactly when the lock is unspent with time left, or it was marked as sent |
| HolderOutcomes.ClaimedExactly | dapp/btcswap-holder.js:217-224 | exactly when a claimed swap is done, turned to its refund, or its claim sent again |
| HolderOutcomes.RefundWaitExactly | dapp/btcswap-holder.js:80-94 | exactly when the refund goes out, and what a spent lock means then |
| SwapHolder.SafeStep | dapp/btcswap-holder.js:129-234 | no step cut anywhere, and nothing the desk does, breaks the record's invariant |
| HolderSigning.RunRefines | dapp/btcswap-holder.js:129-234 | every run of the holder with its signing is, to its phases, a legal run |
| HolderSigning.ClaimOutIsSigned | dapp/btcswap-holder.js:172-216 | whatever the desk answers, a claim that is sent or out has a valid signature made from a half that passed both checks, for a lock that passed its check, by one use of one nonce |
| HolderSigning.HolderClaimIsBacked | dapp/btcswap-holder.js:200-207 | a completed claim is a spend of the kind the desk's model assumes, once the desk has answered its session |
| SwapHolder.SecretStaysIn | dapp/btcswap-holder.js:129-230 | no claim is out before it is stored as sent; it is so stored by a step that found the lock unspent with claimLeft blocks left, after a step at which the desk's answer showed that same lock valid and tracked, deep enough and with claimLeft blocks left; a record waiting for its refund never sent its claim or saw the lock spent by another transaction |
| SwapHolder.HolderNeverLoses | dapp/btcswap-holder.js:129-234 | against any desk a holder that steps in every block never has its lock taken for nothing, and ends claimed or refunded |
| SwapJoint.DeskStepSeenByHolder | dapp/btcswap-desk.js:137-217 | a desk's step is, to the holder, nothing or one transaction it allows for |
| SwapJoint.HolderStepSeenByDesk | dapp/btcswap-holder.js:129-234 | a holder's step is, to the desk, nothing or one transaction it allows for |
| SwapJoint.SwapIsAtomic | dapp/btcswap.js:41-146 | in every timely joint run nobody is lost, a mined claim excludes both refunds, the refunds open a margin apart, and old enough runs end with both paid or both back |
| SwapEnding.EveryRunCanEnd | dapp/btcswap-desk.js:274-282 | every timely run, wherever it stands, extends to one in which both are paid or both are back |
| SwapEnding.ClaimOutEndsPaid | dapp/btcswap-desk.js:195-213 | once the claim is out no run ends unpaid, and some continuation pays both |
| SwapWitness.PaidExactly | dapp/btcswap-desk.js:137-217 | a timely run pays both sides exactly on the terms that leave room for the desk's lock, its half and the claim |
| SwapWitness.DefaultsPay | dapp/btcswap.js:41-41 | the default terms are such |
| DeskNotes.Choose | dapp/btcswap-desk.js:149-152 | the greedy loop takes the shortest covering run of notes, or none exactly when all together fall short |
| DeskNotes.AdvanceMoves | dapp/btcswap-desk.js:137-217 | the phase moves the store allows are those of `advance` |
| DeskNotes.NoNoteTwice | dapp/btcswap-desk.js:54-73 | under any interleaving of swaps, picks and crashes no note backs two live locks, and each lock's notes are distinct and cover it |
| Isqrt.Newton | dapp/amm-replay.js:2-9 | Newton's loop returns the exact floor root |
| AmmReplay.Mint | dapp/amm-replay.js:25-36 | the protocol's shares, with both roots found by the loop |
| AmmReplay.Replay.Checkpoint | dapp/amm-replay.js:54-61 | the pool after the fee mint and the moved checkpoint |
| AmmReplay.Replay.RunHops | dapp/amm-replay.js:114-137 | the hops of a route one after another, the first refused one refusing the replay |
| AmmReplay.Replay.Run | dapp/amm-replay.js:38-167 | the replay's loop is the fold of its operations, with the first refusal as its result |
| AmmExactly.SwapExactly | dapp/amm-replay.js:99-112 | when a swap is taken, which reserve it pays into and which it draws the floor from, and when it leaves the pool alone |
| AmmExactly.HopExactly | dapp/amm-replay.js:114-137 | which declared hops are taken, and the reserves they leave |
| AmmExactly.RouteExactly | dapp/amm-replay.js:114-137 | a route is taken exactly when each hop goes from where the last one left |
| AmmExactly.ClaimExactly | dapp/amm-replay.js:54-61 | a fee claim mints the one number that is the fee's part of the root's growth, and moves the checkpoint |
| AmmExactly.AddExactly | dapp/amm-replay.js:85-97 | when an add is taken, on the pool a fee claim would leave, and all of the new pool |
| AmmExactly.RemoveExactly | dapp/amm-replay.js:139-152 | when a removal is taken, likewise, with both floors paid out |
| AmmExactly.InitExactly | dapp/amm-replay.js:66-81 | when the first operation makes a pool, and the pool it makes |
| AmmExactly.RefusedExactly | dapp/amm-replay.js:83-164 | nothing else is taken before the pool is there, and batches and unknown operations never |
| AmmInvariant.SwapsNeverLowerK | dapp/amm-replay.js:99-137 | no swap or route, at any pool fee, lowers the product, empties a reserve or touches shares and checkpoint |
| AmmInvariant.CurveOutOnCurve | dapp/amm-replay.js:99-110 | the curve's output is the most that stays on its side of the floor a route hop is held to |
| AmmInvariant.MintIsFeePart | dapp/amm-replay.js:25-36 | the protocol's part of all shares is the fee's part of the growth of the root, and one share more would be over it |
| AmmInvariant.MintUnderRoot | dapp/amm-replay.js:25-36 | a mint never takes the shares past the root of the product, for fees up to 10000 |
| AmmInvariant.MintUnderRootExactly | dapp/amm-replay.js:25-36 | that holds for all pools exactly when the fee is at most 10000 |
| AmmInvariant.MintKeepsValue | dapp/amm-replay.js:25-36 | a mint keeps the value of a share through both floored roots and the floored quotient |
| AmmInvariant.MintKeepsValueExactly | dapp/amm-replay.js:25-36 | that holds for all pools exactly when the fee is at most 5000 |
| AmmInvariant.HighFeeTakesTooMuch | dapp/amm-replay.js:25-36 | for every higher fee, the pool whose share loses value |
| AmmInvariant.AddSharesBound | dapp/amm-replay.js:85-97 | an add mints the most shares not worth more than what was added, on both sides |
| AmmInvariant.PayoutBound | dapp/amm-replay.js:145-150 | a payout is the most not worth more than the shares burned, and never all of a reserve |
| AmmInvariant.AddKeeps | dapp/amm-replay.js:85-97 | an add keeps the invariant and the value of a share |
| AmmInvariant.RemoveKeeps | dapp/amm-replay.js:139-152 | a removal keeps the invariant and the value of a share |
| AmmInvariant.AddThenRemove | dapp/amm-replay.js:85-152 | shares bought and burned at once return no more than was added, on either side |
| AmmInvariant.ReplayKeepsPool | dapp/amm-replay.js:38-167 | after any accepted sequence reserves are positive, the locked minimum remains, kLast is at most the product and shares squared at most kLast |
| AmmInvariant.ShareValueNeverFalls | dapp/amm-replay.js:54-152 | between any two points of an accepted replay kLast over squared shares does not fall |
| AmmFees.PoolInvariantExactly | dapp/amm-replay.js:38-167 | every accepted replay keeps the pool's invariant if and only if the protocol fee is at most 10000 |
| AmmFees.ShareValueExactly | dapp/amm-replay.js:54-152 | every accepted replay keeps the value of a share if and only if the protocol fee is at most 5000 |
| AmmFees.SharesPassRoot | dapp/amm-replay.js:54-152 | for every fee over 10000, accepted operations after which the shares are past the root of the product |
| AmmFees.ValueFalls | dapp/amm-replay.js:54-152 | for every fee over 5000, accepted operations after which a share is worth less |
| Farm.Record.Crystallize | dapp/amm-envelope.js:688-706 | the record after one update |
| Farm.UpdateExactly | dapp/amm-envelope.js:688-706 | every update reaches its height or the end and gives each share the floor of its part of the rewards in between |
| Farm.UpdateBounds | dapp/amm-envelope.js:688-706 | an update never goes down and gives each share its part to within one unit, never over |
| Farm.ManyAgainstOne | dapp/amm-envelope.js:688-706 | n updates at constant stake, in any order, land at the height of the one update to the highest of theirs, at most n - 1 below it and never above |
| Farm.NeverOverspends | dapp/amm-envelope.js:688-706 | for any heights and stake changes nothing goes down and the sum handed out is at most the schedule's |
| Farm.FarmIsSolvent | worker/src/index.js:26988-27379 | after any run of bonds, harvests, closes and refunds: until a refund the treasury covers everything accrued; a harvest within its accrual is never turned away exactly while no refund is indexed or no position has a whole unit to draw; paid, refunded and left are the schedule's rewards |
| Farm.HarvestIsPaid | worker/src/index.js:27186-27290 | after any run without a refund, an open position's harvest is paid exactly when it is within its accrual |
| Farm.CloseExactly | worker/src/index.js:27100-27185 | closing an open position takes its shares out of the stake, always |
| Farm.IndexExactly | worker/src/index.js:26988-27379 | what each bond, harvest and refund does to the book, and when it is passed over |
| Farm.RefundStrands | worker/src/index.js:27291-27379 | on every schedule that pays, a run whose sole position has all rewards accrued and every harvest turned away after the launcher's refund |
| Farm.HarvestOnce | worker/src/index.js:27218-27281 | a harvest repeated at the same height draws nothing |
| ModArith.ModPow | dapp/amm-bjj.js:31-39 | square and multiply returns the power modulo p |
| ModArith.ModInv | dapp/amm-bjj.js:40-50 | the extended Euclidean loop returns its coefficient, or nothing when the last divisor is not 1 |
| ModArith.InverseIsInverse | dapp/amm-bjj.js:40-50 | what it returns is an inverse, and modulo a prime it fails only on zero |
| PrimeField.Fermat | dapp/amm-bjj.js:52-55 | a^(p-1) is 1 modulo every prime p, for every a not divisible by it |
| PrimeField.NonresidueExists | dapp/amm-bjj.js:60-61 | modulo an odd prime the search for a non-square ends below p |
| PrimeField.SquarePassesTest | dapp/amm-bjj.js:55-55 | every non-zero square passes the Euler test |
| ModSqrt.FindNonresidue | dapp/amm-bjj.js:60-61 | the search returns the least non-square |
| ModSqrt.LeastOrder | dapp/amm-bjj.js:68-73 | the inner loop finds the least exponent below M, so its null is never returned |
| ModSqrt.Round | dapp/amm-bjj.js:74-79 | a round keeps R² = t·n and both order conditions with M replaced by a smaller exponent |
| ModSqrt.SquareRoot | dapp/amm-bjj.js:52-80 | modulo an odd prime a returned root squares back, and null means there is no root |
| EdwardsIdentity.SumIdentity | dapp/amm-bjj.js:95-106 | the polynomial identity of the addition: how far a sum is from the curve, by how far the two points are |
| BabyJubLaw.SumIsQuotient | dapp/amm-bjj.js:95-106 | each coordinate of a sum times its denominator is its numerator, modulo p |
| BabyJubLaw.SumOnCurve | dapp/amm-bjj.js:95-106 | a sum of two points of the curve that exists is on the curve |
| BabyJubLaw.EverySumExists | dapp/amm-bjj.js:95-106 | when a is a square and d is not, every sum of points of the curve exists |
| BabyJubLaw.MirrorCancels | dapp/amm-bjj.js:95-106 | (u, v) and (-u, v) add up to the identity |
| BabyJubLaw.DoubleIs | dapp/amm-bjj.js:95-106 | a double's coordinates by the curve's equation |
| BabyJubMultiples.Base8OnCurve | dapp/btc-pool-zk.js:31-34 | the generator's numbers lie on the curve of a, d and p as given |
| BabyJubMultiples.SubgroupTestAnswers | dapp/amm-bjj.js:128-131 | the subgroup test answers for every point of the curve, with no law assumed |
| BabyJubMultiples.ScalarIsMultiple | dapp/amm-bjj.js:108-118 | on the curve, given associativity alone, the loop's result is k modulo the order copies of the point added up, and k copies when the order kills the point |
| BabyJubMultiples.ScalarsAdd | dapp/amm-bjj.js:108-118 | the results for k and for l add up to that for k + l, likewise |
| BabyJubMultiples.SubgroupIsKilled | dapp/amm-bjj.js:128-131 | the subgroup test asks whether the subgroup's order times the point is the identity, likewise |
| BabyJub.PackPoint | dapp/amm-bjj.js:120-126 | the loop writes v in little-endian bytes with the sign of u in the top bit |
| BabyJub.DenNotZero | dapp/amm-bjj.js:142-143 | no point of the curve has a zero denominator |
| BabyJub.FindU | dapp/amm-bjj.js:140-148 | the u for a v and a sign, or proof that no point has that v |
| BabyJub.UnpackPoint | dapp/amm-bjj.js:133-152 | a point is returned exactly for the encodings that stand for one, and it is that one |
| BabyJub.DecodesOne | dapp/amm-bjj.js:133-152 | an encoding stands for at most one point |
| BabyJub.RoundTrip | dapp/amm-bjj.js:120-152 | unpacking a packed point of the subgroup returns it |
| BabyJub.PackedAgain | dapp/amm-bjj.js:120-152 | packing an unpacked point returns the bytes exactly when they are not v = 1 with the sign bit set, the subgroup's order being odd |
| BabyJub.MinusOneOutside | dapp/amm-bjj.js:128-131 | an odd order turns (0, p - 1) away |
| BabyJub.IdentityHasTwoEncodings | dapp/amm-bjj.js:120-152 | the bytes that fail: the identity's with bit 255 set decode to it and do not come back |
| BitRegroup.TruncationIsHarmless | dapp/btc-shielded-pool.js:202-208 | the 32-bit accumulator shows the same low bits as an unbounded one |
| BitRegroup.ConvertBits | dapp/btc-shielded-pool.js:202-208 | the loops regroup the plain list of bits, for any two widths that fit 32 bits |
| BitRegroup.ConvertBack | dapp/btc-shielded-pool.js:202-208 | regrouping with padding and back returns the list |
| BitRegroup.ConvertForth | dapp/btc-shielded-pool.js:202-208 | a list that regroups without padding is the padded regrouping of its result |
| Bech32.PolymodLoop | dapp/btc-shielded-pool.js:195-200 | the loops compute the checksum register |
| Bech32.StepLinear | dapp/btc-shielded-pool.js:195-200 | a checksum step is linear over GF(2) |
| Bech32.ChecksumIsUnique | dapp/btc-shielded-pool.js:209-221 | exactly one six-symbol checksum checks, and it is the one the encoder computes |
| Bech32Field.StepIsReduction | dapp/btc-shielded-pool.js:195-200 | a checksum step multiplies by x over the field of 32 elements, takes the value in, and reduces by BIP-173's generator polynomial |
| Bech32Field.GeneratorsAre | dapp/btc-shielded-pool.js:195-200 | the five constants are that generator's coefficients times the powers of the field's root |
| Bech32Field.RemainderIs | dapp/btc-shielded-pool.js:194-194 | the six elements of bech32m's remainder |
| Bech32Field.AlphabetIs | dapp/btc-shielded-pool.js:193-193 | the alphabet, both ways |
| Bech32Field.EncodingIs | dapp/btc-shielded-pool.js:209-213 | where prefix, separator, words and checksum stand |
| Bech32Codec.EncodeDecode | dapp/btc-shielded-pool.js:209-223 | decoding an encoding returns prefix and bytes exactly when the prefix is not empty and has no capital, for bytes of any length |
| Bech32Codec.DecodeEncode | dapp/btc-shielded-pool.js:215-223 | whatever decodes is, in lower case, the encoding of its result |
| SpendCodec.ParseSpend | dapp/btc-shielded-pool.js:451-492 | the cursor and its loops compute the parse of the bytes left |
| SpendCodec.ParseEncode | dapp/btc-shielded-pool.js:428-492 | reading a well-formed record's encoding returns it, whatever follows |
| SpendCodec.EncodeParse | dapp/btc-shielded-pool.js:451-492 | what is read is well formed and the bytes read are its encoding |
| SpendCodec.PrefixFree | dapp/btc-shielded-pool.js:428-446 | no encoding is a prefix of another |
| SpendLayout.HeadAt | dapp/btc-shielded-pool.js:408-438 | tag, asset, anchor and bind by their offsets and byte orders |
| SpendLayout.NullifiersAt | dapp/btc-shielded-pool.js:437-438 | the count of nullifiers and the place of each |
| SpendLayout.OutputsAt | dapp/btc-shielded-pool.js:439-440 | the count of outputs and the place of each output's three parts |
| SpendLayout.ExitIsAt | dapp/btc-shielded-pool.js:441-442 | the exit's flag, index, destination and boundary by their offsets |
| SpendLayout.WantIsAt | dapp/btc-shielded-pool.js:443-445 | the want's flag, index, value and script hash by their offsets, and that the body ends there |
| SpendCodec.BodyRoundTrip | dapp/btc-shielded-pool.js:428-492 | bytes parse to a record exactly when the record is well formed and they are its encoding |
| SpendCodec.EnvelopeRoundTrip | dapp/btc-shielded-pool.js:809-815 | bytes parse to a record and proof exactly when they are that body, length and proof |
| SpendCodec.EncoderRoundTrip | dapp/btc-shielded-pool.js:403-446 | what the encoder accepts is parsed back exactly when its caller checked field elements, points and boundary and did not bind to the all-zero outpoint |
| SpendCodec.EncoderRefuses | dapp/btc-shielded-pool.js:435-435 | of the parser's records the encoder refuses exactly those whose want and exit name one output |
| SpendCodec.ZeroBindIsLost | dapp/btc-shielded-pool.js:408-412 | a bind to the all-zero outpoint is written as none and read back as none |
| SpendCodec.BadNullifierIsUnread | dapp/btc-shielded-pool.js:428-466 | a nullifier that is no field element is written and not read back |
| SpendCodec.SharedOutputIsUnwritten | dapp/btc-shielded-pool.js:435-482 | a want on the exit's output is read as a record the encoder refuses |
| SpendCodec.GapsAreReal | dapp/btc-shielded-pool.js:403-482 | each of the three gaps has a record, for any valid point and boundary |
| SparseTree.Layers | dapp/btc-pool-zk.js:175-184 | the loop builds every layer of the sparse tree |
| SparseTree.LayerIsLevel | dapp/btc-pool-zk.js:175-184 | a stored layer with zeros beyond its end is that level of the full zero-padded tree |
| SparseTree.Root | dapp/btc-pool-zk.js:175-185 | the root is that of the full depth-32 tree |
| SparseTree.Path | dapp/btc-pool-zk.js:186-196 | the path lists the neighbours in the full tree below place 2^31 and nothing but missing siblings from there on, refused exactly outside the leaves |
| SparseTree.PathFoldsToRoot | dapp/btc-pool-zk.js:200-207 | every path folds back to the root |
| SparseTree.FoldIsInjective | dapp/btc-pool-zk.js:200-207 | with a collision-free hash a root and place admit one leaf and one path |
| SparseTree.PathsAt | dapp/btc-pool-client.js:23-35 | root and paths of the leaves through the anchor, refused exactly for a gap, a newer index or one from 2^31 on |
| SparseTree.ThroughIsAll | dapp/btc-pool-client.js:23-26 | in a height-ordered feed the prefix is all entries at or below the anchor |
| MerkleLayers.FoldLoop | dapp/btc-pool-zk.js:200-207 | the loop folds a leaf by its siblings |
| LeanTree.LevelsOf | dapp/assoc-pool.js:169-177 | the loop builds every level |
| LeanTree.LayersAreHalves | dapp/assoc-pool.js:166-178 | the layered root is the recursive one that splits at the largest power of two |
| LeanTree.ProofOf | dapp/assoc-pool.js:181-191 | the loop collects the siblings there are and the index of their sides, and from place 2^31 on the bottom one only |
| LeanTree.ProofFoldsToRoot | dapp/assoc-pool.js:181-191 | folding the siblings by the compressed index reaches the root, for every list and place |
| LeanTree.ProofIsShort | dapp/assoc-pool.js:169-191 | a proof has at most ceil(log2 n) siblings |
| BlockMerkle.MerkleRoot | dapp/burn-deposit-assembler.js:20-33 | the loop computes the root with last-node duplication, refused for an empty block |
| BlockMerkle.RootIsNode | dapp/burn-deposit-assembler.js:20-33 | the layered root is that of the tree whose every place past a level's last holds what the last one does, ceil(log2 n) levels up |
| BlockMerkle.MerkleSiblings | dapp/burn-deposit-assembler.js:2-19 | the loop collects the siblings, for every index, and is refused exactly where a missing node is asked for |
| BlockMerkle.CopyFoldsToRoot | dapp/burn-deposit-assembler.js:2-33 | the place just past an odd list, where the copy of the last node stands, folds to the root too |
| BlockMerkle.SiblingsFoldToRoot | dapp/burn-deposit-assembler.js:2-33 | folding them by the position's bits reaches the root |
| BlockMerkle.WitnessPath | dapp/burn-deposit-assembler.js:36-52 | both paths fold, refused exactly for missing or unequal lists, a position that is the coinbase's or none, or a coinbase that is not raw hex |
| AccountScan.Follow | dapp/assoc-pool.js:245-256 | the chain of a deposit's withdrawals; the loop ends for any events |
| AccountScan.ScanEvents | dapp/assoc-pool.js:230-260 | the scan of any events; the loop ends |
| AccountScan.NextIndex | dapp/assoc-pool.js:264-264 | one past the highest index found |
| AccountHistory.ScanAgrees | dapp/assoc-pool.js:230-292 | after any history of our deposits and planned withdrawals among other people's events the scan finds exactly our deposits, each with what is left and its newest commitment, and the next index is new |
| OrderBook.PlanSpend | dapp/btc-book.js:283-312 | a budgeted plan spends and receives no more than allowed, uses routable offers at most once, and leaves out nothing that would still fit |
| OrderBook.PlanReceive | dapp/btc-book.js:313-331 | a targeted plan reaches its target or every offer was used or did not suit; a whole lot is at most twice what was needed at its turn |
| PlanOutcomes.SpendPlanGrows | dapp/btc-book.js:283-312 | the plan for one more offer is the plan without it and, exactly when the offer is routable and fits what is left, one fill of it |
| PlanOutcomes.SpendTakes | dapp/btc-book.js:294-310 | what a budget takes of an offer, as the most its inequalities allow |
| PlanOutcomes.ReceivePlanGrows | dapp/btc-book.js:313-331 | the same for a target amount |
| PlanOutcomes.ReceiveTakes | dapp/btc-book.js:317-330 | what a need takes of an offer |
| PlanOutcomes.CheapestFirst | dapp/btc-book.js:283-331 | fills keep the book's order, so in a sorted book the cheapest come first |
| OrderBook.AtMostTwice | dapp/btc-book.js:277-279 | whole lots alone come to at most twice the target |
| OrderBook.PartFits | dapp/btc-book.js:46-50 | a part sized to the room costs no more than the room and no more than the offer's price |
| OrderBook.PartIsMost | dapp/btc-book.js:303-306 | the part taken is all the offer has, all the cap allows, or all the room pays for |
| OrderBook.BuysMost | dapp/btc-book.js:53-57 | what some sats buy is the most they pay for at the scaled price |
| OrderBook.CostsNoMore | dapp/btc-book.js:53-64 | what some sats buy never costs more than those sats |
| BuyRun.RunRound | dapp/btc-market.js:1268-1316 | a round is a batch, then single takes, with a failed batch tried singly |
| BuyRun.RunStaysInside | dapp/btc-market.js:1251-1330 | for any book changes and outcomes, what is taken costs at most the limit, keeps the price and repeats no offer |
| RunOutcomes.PassExactly | dapp/btc-market.js:1290-1312 | a pass tries fills in order until stop is pressed or a take fails for good, and has taken exactly those whose takes succeeded |
| RunOutcomes.RoundExactly | dapp/btc-market.js:1268-1316 | what a batch of two or more pre-authorised lots changes, however it ends |
| RunOutcomes.RerouteExactly | dapp/btc-market.js:1313-1328 | another round follows exactly when an offer was gone, nothing failed or was stopped, fewer than three were added and the new plan fits; and where it starts |
| RunOutcomes.BidExactly | dapp/btc-market.js:744-750 | the resting bid is the most tokens still wanted that the sats left pay for, or nothing under 546 sats |
| BuyRun.RunBuy | dapp/btc-market.js:1251-1330 | spent is at most the confirmed sats, every fill within the price, no offer twice, at most four rounds |
| BuyRun.WholePlanIsBought | dapp/btc-market.js:1268-1316 | when no take fails and no stop is pressed the whole plan is bought in one round |
| BuyRun.MarketBuy | dapp/btc-market.js:1182-1197 | the same from quote to end, with the limits the review derives from the plan |
| BuyRun.BidFits | dapp/btc-market.js:744-750 | the resting bid and its cost fit in the tokens and sats left |
| BuyRun.RunLimitBuy | dapp/btc-market.js:1423-1463 | fills plus resting bid exceed neither the sats nor the tokens ordered, whichever takes fail; a bid is placed only when the review planned one |
| BuyRun.LimitBuy | dapp/btc-market.js:1212-1463 | the same from the book on, at no worse than the limit price, and with no failure the bid that fits is placed |

## Left out

- Chain reorganisations and fees: confirmed stays confirmed, and a broadcast is taken or refused.
- Several reads within one `advance` of desk or holder are taken at one moment.
- The checks of the two swap offers other than their timing (keys, amounts, openings, tracking) are one flag, and a swap's two timelocks are the policy's.
- Unforgeability, collision resistance and hiding are assumptions where they are used: a key-path signature of the desk's lock is one under the nonce of a session it answered, a half the holder accepts came from the desk, nobody else spends an account's notes, hash inputs are not confused.
- That the BabyJubJub field modulus is prime, that d is not a square modulo it, and that the curve's addition is associative: each a hypothesis of the lemmas that need it.
- Capital letters outside ASCII in bech32m prefixes.
- Prices per token are exact reals, not floating-point numbers; a take is taken to cost what its fill says.
- Selling (`planSell`, `runSell`), the planner's fee estimates and skip lists: the same arguments again, or display.
- Decoding of AMM envelopes, batch swaps (the replay refuses them), farm launch.
- Networking, storage formats, key derivation, proof systems and everything that draws.
