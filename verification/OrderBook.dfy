/** Planning a buy against the order book (dapp/btc-book.js planBuy, withinBounds, scaledSats, amountForSats,
    satsForAmount). Prices per token are real numbers; sats and base units are exact. */
module OrderBook {
  import opened Wrappers
  import opened Prorata

  const DUST := 546

  /** An offer: a whole lot, or one that may be taken in part at fullSats for fullAmount. */
  datatype Ask = Ask(
    id: int, mine: bool, instant: bool, preauth: bool, whole: bool, unit: real,
    amount: nat, sats: nat, fullAmount: nat, fullSats: nat, minTake: nat)

  datatype Fill = Fill(ask: Ask, amount: nat, sats: nat)

  /** What may be routed: the price cap, whether offers that wait for their maker count, and what was tried. */
  datatype Query = Query(maxUnit: real, includeIntents: bool, exclude: set<int>)

  predicate Eligible(q: Query, a: Ask) {
    !a.mine && a.id !in q.exclude && a.unit <= q.maxUnit && (q.includeIntents || a.instant)
  }

  /** No offer is listed twice, and one that splits has a price. */
  ghost predicate BookOk(asks: seq<Ask>) {
    && (forall i, j :: 0 <= i < j < |asks| ==> asks[i].id != asks[j].id)
    && (forall i :: 0 <= i < |asks| && !asks[i].whole ==> asks[i].fullAmount > 0 && asks[i].fullSats > 0)
  }

  function SatsOf(fills: seq<Fill>): nat {
    if fills == [] then 0 else fills[0].sats + SatsOf(fills[1..])
  }

  function AmountOf(fills: seq<Fill>): nat {
    if fills == [] then 0 else fills[0].amount + AmountOf(fills[1..])
  }

  function Ids(fills: seq<Fill>): set<int> {
    set f | f in fills :: f.ask.id
  }

  ghost predicate DistinctIds(fills: seq<Fill>) {
    forall i, j :: 0 <= i < j < |fills| ==> fills[i].ask.id != fills[j].ask.id
  }

  lemma {:induction false} Sums(a: seq<Fill>, b: seq<Fill>)
    ensures SatsOf(a + b) == SatsOf(a) + SatsOf(b) && AmountOf(a + b) == AmountOf(a) + AmountOf(b)
  {
    if a == [] {
      assert a + b == b;
    } else {
      Sums(a[1..], b);
      assert (a + b)[1..] == a[1..] + b;
    }
  }

  lemma Pushed(fills: seq<Fill>, f: Fill)
    ensures SatsOf(fills + [f]) == SatsOf(fills) + f.sats && AmountOf(fills + [f]) == AmountOf(fills) + f.amount
  {
    Sums(fills, [f]);
  }

  // ----- taking part of an offer

  /** `scaledSats`: the price of part of an offer, rounded down. */
  function ScaledSats(amount: nat, fullSats: nat, fullAmount: nat): nat {
    if fullAmount == 0 then 0 else MulDiv(amount, fullSats, fullAmount)
  }

  function Min(a: nat, b: nat): nat {
    if a < b then a else b
  }

  function Capped(want: nat, cap: Option<nat>): nat {
    if cap.Some? then Min(want, cap.value) else want
  }

  /** What the room and the cap allow of a splittable offer. */
  function Wanted(a: Ask, room: nat, cap: Option<nat>): nat
    requires a.fullSats > 0
  {
    Capped(Min(MulDiv(room, a.fullAmount, a.fullSats), a.amount), cap)
  }

  /** What a budget of `room` sats and at most `cap` tokens take of one offer. */
  function FillFor(a: Ask, room: nat, cap: Option<nat>): Option<Fill> {
    if a.whole then
      if a.sats > room || (cap.Some? && a.amount > cap.value) then None else Some(Fill(a, a.amount, a.sats))
    else if a.fullSats == 0 then None
    else
      var want := Wanted(a, room, cap);
      var s := ScaledSats(want, a.fullSats, a.fullAmount);
      if want < a.minTake || s < DUST || s > room then None else Some(Fill(a, want, s))
  }

  /** A part priced by rounding down both ways fits the room it was sized for, at no more than the offer's price. */
  lemma PartFits(a: Ask, room: nat, cap: Option<nat>)
    requires !a.whole && a.fullSats > 0 && a.fullAmount > 0
    ensures var want := Wanted(a, room, cap);
            var s := ScaledSats(want, a.fullSats, a.fullAmount);
            s <= room && s * a.fullAmount <= want * a.fullSats
  {
    ThereAndBack(room, a.fullAmount, a.fullSats, Wanted(a, room, cap));
    NoDearer(Wanted(a, room, cap), a.fullSats, a.fullAmount);
  }

  /** The part wanted is all the offer has, all the cap allows, or all the room pays for. */
  lemma PartIsMost(a: Ask, room: nat, cap: Option<nat>)
    requires a.fullSats > 0
    ensures var want := Wanted(a, room, cap);
            && want <= a.amount && (cap.Some? ==> want <= cap.value)
            && (want == a.amount || cap == Some(want) || (want + 1) * a.fullSats > room * a.fullAmount)
  {
    IsMost(room, a.fullAmount, a.fullSats);
  }

  lemma WantedMono(a: Ask, room: nat, cap: Option<nat>, room': nat, cap': Option<nat>)
    requires a.fullSats > 0 && room' <= room && (cap.Some? <==> cap'.Some?) && (cap.Some? ==> cap'.value <= cap.value)
    ensures Wanted(a, room', cap') <= Wanted(a, room, cap)
  {
    MulDivMono(room', room, a.fullAmount, a.fullSats);
  }

  /** What does not fit now does not fit with less. */
  lemma FillForMono(a: Ask, room: nat, cap: Option<nat>, room': nat, cap': Option<nat>)
    requires room' <= room && (cap.Some? <==> cap'.Some?) && (cap.Some? ==> cap'.value <= cap.value)
    requires FillFor(a, room, cap).None? && (!a.whole ==> a.fullAmount > 0 && a.fullSats > 0)
    ensures FillFor(a, room', cap').None?
  {
    if !a.whole {
      var want, want' := Wanted(a, room, cap), Wanted(a, room', cap');
      WantedMono(a, room, cap, room', cap');
      PartFits(a, room, cap);
      MulDivMono(want', want, a.fullSats, a.fullAmount);
    }
  }

  // ----- the plan

  function Candidates(asks: seq<Ask>, q: Query): (cands: seq<Ask>)
    ensures forall a :: a in cands <==> a in asks && Eligible(q, a)
  {
    if asks == [] then [] else
    Candidates(asks[..|asks| - 1], q) + (if Eligible(q, asks[|asks| - 1]) then [asks[|asks| - 1]] else [])
  }

  lemma {:induction false} CandidatesOk(asks: seq<Ask>, q: Query)
    requires BookOk(asks)
    ensures BookOk(Candidates(asks, q))
  {
    if asks != [] {
      var front, last := asks[..|asks| - 1], asks[|asks| - 1];
      CandidatesOk(front, q);
      var cands := Candidates(front, q);
      forall i | 0 <= i < |cands| ensures cands[i].id != last.id {
        assert cands[i] in front;
      }
    }
  }

  /** A fill is what its offer sells: the whole lot, or a part within its bounds at its price rounded down. */
  predicate FillOk(f: Fill) {
    if f.ask.whole then f.amount == f.ask.amount && f.sats == f.ask.sats
    else f.ask.minTake <= f.amount <= f.ask.amount && f.sats >= DUST
         && f.sats == ScaledSats(f.amount, f.ask.fullSats, f.ask.fullAmount)
  }

  ghost predicate RoutedFrom(asks: seq<Ask>, q: Query, fills: seq<Fill>) {
    && DistinctIds(fills)
    && (forall i :: 0 <= i < |fills| ==> fills[i].ask in asks && Eligible(q, fills[i].ask) && FillOk(fills[i]))
  }

  ghost predicate Used(fills: seq<Fill>, a: Ask) {
    exists j :: 0 <= j < |fills| && fills[j].ask == a
  }

  lemma UsedHead(f: Fill, fills: seq<Fill>, a: Ask)
    ensures Used([f] + fills, f.ask) && (Used(fills, a) ==> Used([f] + fills, a))
  {
    assert ([f] + fills)[0].ask == f.ask;
    if Used(fills, a) {
      var j :| 0 <= j < |fills| && fills[j].ask == a;
      assert ([f] + fills)[j + 1].ask == a;
    }
  }

  /** Fills taken from some candidates, each at most once. */
  ghost predicate From(cands: seq<Ask>, fills: seq<Fill>) {
    && DistinctIds(fills)
    && (forall i :: 0 <= i < |fills| ==> fills[i].ask in cands && FillOk(fills[i]))
  }

  lemma FromHead(a: Ask, cands: seq<Ask>, f: Fill, fills: seq<Fill>)
    requires BookOk([a] + cands) && From(cands, fills)
    ensures From([a] + cands, fills)
    ensures f.ask == a && FillOk(f) ==> From([a] + cands, [f] + fills)
  {
    forall i | 0 <= i < |fills| ensures fills[i].ask in [a] + cands && fills[i].ask.id != a.id {
      var k :| 0 <= k < |cands| && cands[k] == fills[i].ask;
      assert ([a] + cands)[k + 1] == fills[i].ask && ([a] + cands)[0] == a;
    }
    assert a in [a] + cands;
  }

  lemma FromIsRouted(asks: seq<Ask>, q: Query, fills: seq<Fill>)
    requires From(Candidates(asks, q), fills)
    ensures RoutedFrom(asks, q, fills)
  {
    forall i | 0 <= i < |fills| ensures fills[i].ask in asks && Eligible(q, fills[i].ask) && FillOk(fills[i]) {
      assert fills[i].ask in Candidates(asks, q);
    }
  }

  lemma Head(f: Fill, fills: seq<Fill>)
    ensures SatsOf([f] + fills) == f.sats + SatsOf(fills) && AmountOf([f] + fills) == f.amount + AmountOf(fills)
  {
    assert ([f] + fills)[1..] == fills;
  }

  function Short(need: nat, amount: nat): nat {
    if amount < need then need - amount else 0
  }

  function Less(cap: Option<nat>, amount: nat): Option<nat> {
    if cap.None? then None else Some(Short(cap.value, amount))
  }

  /** The loop over the candidates, with so much room and so many tokens to go. */
  function Spend(cands: seq<Ask>, room: nat, cap: Option<nat>): seq<Fill> {
    if cands == [] || room < DUST || cap == Some(0) then [] else
    match FillFor(cands[0], room, cap)
    case None => Spend(cands[1..], room, cap)
    case Some(f) => [f] + Spend(cands[1..], Short(room, f.sats), Less(cap, f.amount))
  }

  /** It stays within the room and the tokens. */
  lemma {:induction false} SpendBounds(cands: seq<Ask>, room: nat, cap: Option<nat>)
    ensures SatsOf(Spend(cands, room, cap)) <= room && (cap.Some? ==> AmountOf(Spend(cands, room, cap)) <= cap.value)
  {
    if cands != [] && room >= DUST && cap != Some(0) {
      match FillFor(cands[0], room, cap)
      case None => SpendBounds(cands[1..], room, cap);
      case Some(f) =>
        FillForOk(cands[0], room, cap);
        SpendBounds(cands[1..], Short(room, f.sats), Less(cap, f.amount));
        Head(f, Spend(cands[1..], Short(room, f.sats), Less(cap, f.amount)));
    }
  }

  lemma {:induction false} SpendFrom(cands: seq<Ask>, room: nat, cap: Option<nat>)
    requires BookOk(cands)
    ensures From(cands, Spend(cands, room, cap))
  {
    if cands != [] && room >= DUST && cap != Some(0) {
      assert cands == [cands[0]] + cands[1..];
      match FillFor(cands[0], room, cap)
      case None =>
        SpendFrom(cands[1..], room, cap);
        FromHead(cands[0], cands[1..], Fill(cands[0], 0, 0), Spend(cands[1..], room, cap));
      case Some(f) =>
        FillForOk(cands[0], room, cap);
        SpendFrom(cands[1..], Short(room, f.sats), Less(cap, f.amount));
        FromHead(cands[0], cands[1..], f, Spend(cands[1..], Short(room, f.sats), Less(cap, f.amount)));
    }
  }

  function RoomLeft(cands: seq<Ask>, room: nat, cap: Option<nat>): nat {
    Short(room, SatsOf(Spend(cands, room, cap)))
  }

  function TokensLeft(cands: seq<Ask>, room: nat, cap: Option<nat>): Option<nat> {
    Less(cap, AmountOf(Spend(cands, room, cap)))
  }

  /** What is left after one offer is taken is what is left of the rest. */
  lemma LeftAfter(cands: seq<Ask>, room: nat, cap: Option<nat>, f: Fill)
    requires cands != [] && room >= DUST && cap != Some(0) && FillFor(cands[0], room, cap) == Some(f)
    ensures RoomLeft(cands, room, cap) == RoomLeft(cands[1..], Short(room, f.sats), Less(cap, f.amount))
    ensures TokensLeft(cands, room, cap) == TokensLeft(cands[1..], Short(room, f.sats), Less(cap, f.amount))
  {
    FillForOk(cands[0], room, cap);
    Head(f, Spend(cands[1..], Short(room, f.sats), Less(cap, f.amount)));
  }

  /** An offer passed over does not fit what is left at the end, unless next to nothing is left. */
  lemma {:induction false} PassedOver(cands: seq<Ask>, room: nat, cap: Option<nat>, k: nat)
    requires BookOk(cands) && k < |cands| && !Used(Spend(cands, room, cap), cands[k])
    ensures RoomLeft(cands, room, cap) < DUST || TokensLeft(cands, room, cap) == Some(0)
            || FillFor(cands[k], RoomLeft(cands, room, cap), TokensLeft(cands, room, cap)).None?
  {
    if room >= DUST && cap != Some(0) {
      match FillFor(cands[0], room, cap)
      case None =>
        if k == 0 {
          FillForMono(cands[0], room, cap, RoomLeft(cands, room, cap), TokensLeft(cands, room, cap));
        } else {
          PassedOver(cands[1..], room, cap, k - 1);
        }
      case Some(f) =>
        FillForOk(cands[0], room, cap);
        LeftAfter(cands, room, cap, f);
        UsedHead(f, Spend(cands[1..], Short(room, f.sats), Less(cap, f.amount)), cands[k]);
        if k > 0 {
          PassedOver(cands[1..], Short(room, f.sats), Less(cap, f.amount), k - 1);
        }
    }
  }

  lemma LoopStep(fills: seq<Fill>, f: Fill, rest: seq<Fill>)
    ensures fills + ([f] + rest) == (fills + [f]) + rest
  {
  }

  /** The loop as it runs. */
  method SpendLoop(cands: seq<Ask>, budget: nat, maxBase: Option<nat>) returns (fills: seq<Fill>)
    ensures fills == Spend(cands, budget, maxBase)
  {
    fills := [];
    var room: nat, cap, i := budget, maxBase, 0;
    while i < |cands| && room >= DUST && cap != Some(0)
      invariant 0 <= i <= |cands|
      invariant Spend(cands, budget, maxBase) == fills + Spend(cands[i..], room, cap)
    {
      assert cands[i..][1..] == cands[i + 1..];
      var f := FillFor(cands[i], room, cap);
      if f.Some? {
        LoopStep(fills, f.value, Spend(cands[i + 1..], Short(room, f.value.sats), Less(cap, f.value.amount)));
        fills := fills + [f.value];
        room, cap := Short(room, f.value.sats), Less(cap, f.value.amount);
      }
      i := i + 1;
    }
    assert fills + [] == fills;
  }

  /** `planBuy` with a budget: never more than the sats or the tokens allowed, only routable offers each at most once,
      and nothing left out that would still fit. */
  method PlanSpend(asks: seq<Ask>, q: Query, budget: nat, maxBase: Option<nat>) returns (fills: seq<Fill>)
    requires BookOk(asks)
    ensures fills == Spend(Candidates(asks, q), budget, maxBase)
    ensures RoutedFrom(asks, q, fills)
    ensures SatsOf(fills) <= budget && (maxBase.Some? ==> AmountOf(fills) <= maxBase.value)
    ensures var room, cap := Short(budget, SatsOf(fills)), Less(maxBase, AmountOf(fills));
            room >= DUST && cap != Some(0) ==>
              forall a :: a in asks && Eligible(q, a) && !Used(fills, a) ==> FillFor(a, room, cap).None?
  {
    var cands := Candidates(asks, q);
    CandidatesOk(asks, q);
    fills := SpendLoop(cands, budget, maxBase);
    SpendBounds(cands, budget, maxBase);
    SpendFrom(cands, budget, maxBase);
    FromIsRouted(asks, q, fills);
    NothingFits(asks, q, cands, budget, maxBase);
  }

  lemma NothingFits(asks: seq<Ask>, q: Query, cands: seq<Ask>, room: nat, cap: Option<nat>)
    requires BookOk(cands) && cands == Candidates(asks, q)
    ensures RoomLeft(cands, room, cap) >= DUST && TokensLeft(cands, room, cap) != Some(0) ==>
              forall a :: a in asks && Eligible(q, a) && !Used(Spend(cands, room, cap), a) ==>
                FillFor(a, RoomLeft(cands, room, cap), TokensLeft(cands, room, cap)).None?
  {
    forall a | a in asks && Eligible(q, a) && !Used(Spend(cands, room, cap), a)
      ensures RoomLeft(cands, room, cap) < DUST || TokensLeft(cands, room, cap) == Some(0)
              || FillFor(a, RoomLeft(cands, room, cap), TokensLeft(cands, room, cap)).None?
    {
      assert a in cands;
      var k :| 0 <= k < |cands| && cands[k] == a;
      PassedOver(cands, room, cap, k);
    }
  }

  lemma FillForOk(a: Ask, room: nat, cap: Option<nat>)
    requires FillFor(a, room, cap).Some?
    ensures var f := FillFor(a, room, cap).value;
            f.ask == a && FillOk(f) && f.sats <= room && (cap.Some? ==> f.amount <= cap.value)
  {
  }

  // ----- a target amount

  /** What a need of `need` tokens takes of one offer: a whole lot unless it is more than twice the need, or the part
      needed, raised to the offer's minimum. */
  function NeedFor(a: Ask, need: nat): Option<Fill> {
    if a.whole then
      if a.amount > need * 2 && a.amount - need > need then None else Some(Fill(a, a.amount, a.sats))
    else
      var want := Min(need, a.amount);
      var part := if want < a.minTake then (if a.minTake <= a.amount then a.minTake else 0) else want;
      var s := ScaledSats(part, a.fullSats, a.fullAmount);
      if part == 0 || s < DUST then None else Some(Fill(a, part, s))
  }

  lemma NeedForOk(a: Ask, need: nat)
    requires NeedFor(a, need).Some?
    ensures var f := NeedFor(a, need).value;
            && f.ask == a && FillOk(f)
            && (a.whole ==> f.amount <= 2 * need)
            && (!a.whole && f.amount > need ==> f.amount == a.minTake)
  {
  }

  /** Each fill measured against what was needed at its turn: a whole lot is at most twice that, and a part is more only
      by being the offer's minimum. */
  ghost predicate Measured(fills: seq<Fill>, need: nat) {
    fills == [] ||
    (&& need > 0
     && (fills[0].ask.whole ==> fills[0].amount <= 2 * need)
     && (!fills[0].ask.whole && fills[0].amount > need ==> fills[0].amount == fills[0].ask.minTake)
     && Measured(fills[1..], Short(need, fills[0].amount)))
  }

  /** Whole lots alone never come to more than twice the target. */
  lemma {:induction false} AtMostTwice(fills: seq<Fill>, need: nat)
    requires Measured(fills, need) && forall i :: 0 <= i < |fills| ==> fills[i].ask.whole
    ensures AmountOf(fills) <= 2 * need
  {
    if fills != [] {
      AtMostTwice(fills[1..], Short(need, fills[0].amount));
    }
  }

  /** The loop over the candidates with so many tokens still needed. */
  function Receive(cands: seq<Ask>, need: nat): seq<Fill> {
    if cands == [] || need == 0 then [] else
    match NeedFor(cands[0], need)
    case None => Receive(cands[1..], need)
    case Some(f) => [f] + Receive(cands[1..], Short(need, f.amount))
  }

  /** The offer did not suit some need between what is left and the target. */
  ghost predicate Unsuited(a: Ask, target: nat, left: int) {
    exists need: nat :: left <= need <= target && NeedFor(a, need).None?
  }

  lemma {:induction false} ReceiveFrom(cands: seq<Ask>, need: nat)
    requires BookOk(cands)
    ensures From(cands, Receive(cands, need))
  {
    if cands != [] && need > 0 {
      assert cands == [cands[0]] + cands[1..];
      match NeedFor(cands[0], need)
      case None =>
        ReceiveFrom(cands[1..], need);
        FromHead(cands[0], cands[1..], Fill(cands[0], 0, 0), Receive(cands[1..], need));
      case Some(f) =>
        NeedForOk(cands[0], need);
        ReceiveFrom(cands[1..], Short(need, f.amount));
        FromHead(cands[0], cands[1..], f, Receive(cands[1..], Short(need, f.amount)));
    }
  }

  lemma MeasuredHead(f: Fill, fills: seq<Fill>, need: nat)
    requires need > 0 && Measured(fills, Short(need, f.amount))
    requires (f.ask.whole ==> f.amount <= 2 * need) && (!f.ask.whole && f.amount > need ==> f.amount == f.ask.minTake)
    ensures Measured([f] + fills, need)
  {
    assert ([f] + fills)[1..] == fills;
  }

  lemma {:induction false} ReceiveMeasured(cands: seq<Ask>, need: nat)
    ensures Measured(Receive(cands, need), need)
  {
    if cands != [] && need > 0 {
      match NeedFor(cands[0], need)
      case None => ReceiveMeasured(cands[1..], need);
      case Some(f) =>
        NeedForOk(cands[0], need);
        ReceiveMeasured(cands[1..], Short(need, f.amount));
        MeasuredHead(f, Receive(cands[1..], Short(need, f.amount)), need);
    }
  }

  lemma Widened(a: Ask, need: nat, left: int, need': nat, left': int)
    requires Unsuited(a, need, left) && need <= need' && left' <= left
    ensures Unsuited(a, need', left')
  {
  }

  /** An offer passed over did not suit what was needed at its turn, if the target was not reached. */
  lemma {:induction false} NotSuited(cands: seq<Ask>, need: nat, k: nat)
    requires k < |cands| && !Used(Receive(cands, need), cands[k])
    ensures AmountOf(Receive(cands, need)) >= need || Unsuited(cands[k], need, need - AmountOf(Receive(cands, need)))
  {
    if need > 0 {
      match NeedFor(cands[0], need)
      case None =>
        if k > 0 {
          NotSuited(cands[1..], need, k - 1);
        }
      case Some(f) =>
        var rest := Receive(cands[1..], Short(need, f.amount));
        NeedForOk(cands[0], need);
        Head(f, rest);
        UsedHead(f, rest, cands[k]);
        if k > 0 {
          NotSuited(cands[1..], Short(need, f.amount), k - 1);
          if AmountOf(rest) < Short(need, f.amount) {
            Widened(cands[k], Short(need, f.amount), Short(need, f.amount) - AmountOf(rest), need, need - f.amount - AmountOf(rest));
          }
        }
    }
  }

  /** The loop as it runs. */
  method ReceiveLoop(cands: seq<Ask>, target: nat) returns (fills: seq<Fill>)
    ensures fills == Receive(cands, target)
  {
    fills := [];
    var need: nat, i := target, 0;
    while i < |cands| && need > 0
      invariant 0 <= i <= |cands|
      invariant Receive(cands, target) == fills + Receive(cands[i..], need)
    {
      assert cands[i..][1..] == cands[i + 1..];
      var f := NeedFor(cands[i], need);
      if f.Some? {
        LoopStep(fills, f.value, Receive(cands[i + 1..], Short(need, f.value.amount)));
        fills, need := fills + [f.value], Short(need, f.value.amount);
      }
      i := i + 1;
    }
    assert fills + [] == fills;
  }

  /** `planBuy` with a target: it is reached, or every routable offer was taken or did not suit. */
  method PlanReceive(asks: seq<Ask>, q: Query, target: nat) returns (fills: seq<Fill>)
    requires BookOk(asks)
    ensures fills == Receive(Candidates(asks, q), target)
    ensures RoutedFrom(asks, q, fills) && Measured(fills, target)
    ensures AmountOf(fills) < target ==>
              forall a :: a in asks && Eligible(q, a) && !Used(fills, a) ==> Unsuited(a, target, target - AmountOf(fills))
  {
    var cands := Candidates(asks, q);
    CandidatesOk(asks, q);
    fills := ReceiveLoop(cands, target);
    ReceiveMeasured(cands, target);
    ReceiveFrom(cands, target);
    FromIsRouted(asks, q, fills);
    NoneSuits(asks, q, cands, target);
  }

  lemma NoneSuits(asks: seq<Ask>, q: Query, cands: seq<Ask>, target: nat)
    requires cands == Candidates(asks, q)
    ensures var fills := Receive(cands, target);
            AmountOf(fills) < target ==>
              forall a :: a in asks && Eligible(q, a) && !Used(fills, a) ==> Unsuited(a, target, target - AmountOf(fills))
  {
    var fills := Receive(cands, target);
    forall a | a in asks && Eligible(q, a) && !Used(fills, a)
      ensures AmountOf(fills) >= target || Unsuited(a, target, target - AmountOf(fills))
    {
      assert a in cands;
      var k :| 0 <= k < |cands| && cands[k] == a;
      NotSuited(cands, target, k);
    }
  }

  // ----- bounds, and amounts at a price

  /** `withinBounds`: no more sats and no worse price, to a billionth. */
  predicate WithinBounds(fills: seq<Fill>, maxSats: int, maxUnit: real) {
    fills != [] && SatsOf(fills) <= maxSats && forall i :: 0 <= i < |fills| ==> fills[i].ask.unit <= maxUnit * 1.000000001
  }

  /** A price per token in hundred-millionths of a sat, at least one. */
  function ScaledUnit(unit: real): (r: nat)
    ensures r >= 1
  {
    var r := (unit * 100000000.0 + 0.5).Floor;
    if r < 1 then 1 else r
  }

  function Pow10(d: nat): (r: nat)
    ensures r >= 1
  {
    if d == 0 then 1 else 10 * Pow10(d - 1)
  }

  function AmountForSats(sats: nat, unit: real, decimals: nat): nat {
    if unit <= 0.0 || sats == 0 then 0 else MulDiv(sats, Pow10(decimals) * 100000000, ScaledUnit(unit))
  }

  function SatsForAmount(amount: nat, unit: real, decimals: nat): nat {
    if unit <= 0.0 then 0 else MulDiv(amount, ScaledUnit(unit), Pow10(decimals) * 100000000)
  }

  /** What some sats buy is the most they pay for at the scaled price. */
  lemma BuysMost(sats: nat, unit: real, decimals: nat)
    requires unit > 0.0 && sats > 0
    ensures var amount, scale := AmountForSats(sats, unit, decimals), Pow10(decimals) * 100000000;
            amount * ScaledUnit(unit) <= sats * scale < (amount + 1) * ScaledUnit(unit)
  {
    IsMost(sats, Pow10(decimals) * 100000000, ScaledUnit(unit));
  }

  /** What some sats buy never costs more than those sats. */
  lemma CostsNoMore(sats: nat, unit: real, decimals: nat, amount: nat)
    requires amount <= AmountForSats(sats, unit, decimals)
    ensures SatsForAmount(amount, unit, decimals) <= sats
  {
    var scale, u := Pow10(decimals) * 100000000, ScaledUnit(unit);
    if unit > 0.0 {
      if sats == 0 {
        assert MulDiv(0, u, scale) == 0;
      } else {
        ThereAndBack(sats, scale, u, amount);
      }
    }
  }
}
