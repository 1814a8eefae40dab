/** What a buy plan is (dapp/btc-book.js planBuy), offer by offer: the plan for a book with one more offer at its end is the
    plan for the book without it, and what is left then takes of that offer, said by inequalities. So the fills keep the
    book's order, and in a book sorted by price the cheapest come first. */
module PlanOutcomes {
  import opened Wrappers
  import opened Prorata
  import opened OrderBook

  /** Not the buyer's own, not tried before, at no worse than the price, and instant unless waiting for the maker will do. */
  predicate Routable(q: Query, a: Ask) {
    a.mine == false && a.id !in q.exclude && a.unit <= q.maxUnit && (a.instant || q.includeIntents)
  }

  /** The most of an offer's tokens that some sats pay for at its own price, that it has, and that are allowed. */
  predicate IsWanted(a: Ask, room: nat, cap: Option<nat>, want: nat) {
    && want <= a.amount && (cap.Some? ==> want <= cap.value) && want * a.fullSats <= room * a.fullAmount
    && (want == a.amount || cap == Some(want) || (want + 1) * a.fullSats > room * a.fullAmount)
  }

  /** A part's price: its share of the whole's, rounded down. */
  predicate IsPrice(a: Ask, part: nat, sats: nat) {
    sats * a.fullAmount <= part * a.fullSats < (sats + 1) * a.fullAmount
  }

  predicate Divisible(a: Ask) {
    !a.whole && a.fullAmount > 0 && a.fullSats > 0
  }

  lemma WantedUnique(a: Ask, room: nat, cap: Option<nat>, x: nat, y: nat)
    requires Divisible(a) && IsWanted(a, room, cap, x) && IsWanted(a, room, cap, y)
    ensures x == y
  {
    if x < y {
      Times(x + 1, y, a.fullSats);
    } else if y < x {
      Times(y + 1, x, a.fullSats);
    }
  }

  lemma PriceUnique(a: Ask, part: nat, x: nat, y: nat)
    requires IsPrice(a, part, x) && IsPrice(a, part, y)
    ensures x == y
  {
    if x < y {
      Times(x + 1, y, a.fullAmount);
    } else if y < x {
      Times(y + 1, x, a.fullAmount);
    }
  }

  lemma WantedIs(a: Ask, room: nat, cap: Option<nat>, want: nat)
    requires Divisible(a) && IsWanted(a, room, cap, want)
    ensures want == Wanted(a, room, cap)
  {
    var w := Wanted(a, room, cap);
    PartIsMost(a, room, cap);
    IsMost(room, a.fullAmount, a.fullSats);
    Times(w, MulDiv(room, a.fullAmount, a.fullSats), a.fullSats);
    WantedUnique(a, room, cap, want, w);
  }

  lemma PriceIs(a: Ask, part: nat, sats: nat)
    requires Divisible(a) && IsPrice(a, part, sats)
    ensures sats == ScaledSats(part, a.fullSats, a.fullAmount)
  {
    IsMost(part, a.fullSats, a.fullAmount);
    PriceUnique(a, part, sats, ScaledSats(part, a.fullSats, a.fullAmount));
  }

  // ----- with a budget

  /** What so many sats and at most so many tokens take of an offer: a whole lot that fits, or the wanted part when it is at
      least the offer's minimum and comes to 546 sats or more. */
  lemma SpendTakes(a: Ask, room: nat, cap: Option<nat>, want: nat, sats: nat)
    requires !a.whole ==> Divisible(a) && IsWanted(a, room, cap, want) && IsPrice(a, want, sats)
    ensures FillFor(a, room, cap) ==
              if a.whole then
                if a.sats <= room && (cap.Some? ==> a.amount <= cap.value) then Some(Fill(a, a.amount, a.sats)) else None
              else if want >= a.minTake && sats >= 546 then Some(Fill(a, want, sats)) else None
  {
    if !a.whole {
      WantedIs(a, room, cap, want);
      PriceIs(a, want, sats);
      PartFits(a, room, cap);
    }
  }

  function SpendPlan(asks: seq<Ask>, q: Query, budget: nat, maxBase: Option<nat>): seq<Fill> {
    Spend(Candidates(asks, q), budget, maxBase)
  }

  lemma {:induction false} SpendSnoc(cands: seq<Ask>, a: Ask, room: nat, cap: Option<nat>)
    ensures var before := Spend(cands, room, cap);
            var left, tokens := RoomLeft(cands, room, cap), TokensLeft(cands, room, cap);
            Spend(cands + [a], room, cap) ==
              if left >= DUST && tokens != Some(0) && FillFor(a, left, tokens).Some?
              then before + [FillFor(a, left, tokens).value] else before
  {
    if cands == [] {
      assert (cands + [a])[1..] == [];
      assert cands + [a] == [a];
    } else if room >= DUST && cap != Some(0) {
      assert (cands + [a])[0] == cands[0] && (cands + [a])[1..] == cands[1..] + [a];
      match FillFor(cands[0], room, cap)
      case None => SpendSnoc(cands[1..], a, room, cap);
      case Some(f) =>
        LeftAfter(cands, room, cap, f);
        SpendSnoc(cands[1..], a, Short(room, f.sats), Less(cap, f.amount));
    }
  }

  /** One more offer at the end of the book: it is taken of exactly when it is routable, 546 sats and some tokens are left,
      and what is left takes of it. */
  lemma SpendPlanGrows(asks: seq<Ask>, a: Ask, q: Query, budget: nat, maxBase: Option<nat>)
    ensures var before, after := SpendPlan(asks, q, budget, maxBase), SpendPlan(asks + [a], q, budget, maxBase);
            && SatsOf(before) <= budget && (maxBase.Some? ==> AmountOf(before) <= maxBase.value)
            && var room := budget - SatsOf(before);
               var cap := if maxBase.Some? then Some(maxBase.value - AmountOf(before)) else None;
               after == if Routable(q, a) && room >= 546 && cap != Some(0) && FillFor(a, room, cap).Some?
                        then before + [FillFor(a, room, cap).value] else before
  {
    var cands := Candidates(asks, q);
    assert (asks + [a])[..|asks|] == asks;
    SpendBounds(cands, budget, maxBase);
    SpendSnoc(cands, a, budget, maxBase);
    assert Routable(q, a) <==> Eligible(q, a);
    assert cands + [] == cands;
  }

  // ----- with a target

  /** What a need takes of an offer: a whole lot of at most twice the need, or the part needed, raised to the offer's
      minimum where the offer has it, that comes to 546 sats or more. */
  lemma ReceiveTakes(a: Ask, need: nat, part: nat, sats: nat)
    requires !a.whole ==>
               && Divisible(a) && IsPrice(a, part, sats)
               && part == (if (if need < a.amount then need else a.amount) >= a.minTake then (if need < a.amount then need else a.amount)
                           else if a.minTake <= a.amount then a.minTake else 0)
    ensures NeedFor(a, need) ==
              if a.whole then if a.amount <= 2 * need then Some(Fill(a, a.amount, a.sats)) else None
              else if part > 0 && sats >= 546 then Some(Fill(a, part, sats)) else None
  {
    if !a.whole {
      PriceIs(a, part, sats);
    }
  }

  function ReceivePlan(asks: seq<Ask>, q: Query, target: nat): seq<Fill> {
    Receive(Candidates(asks, q), target)
  }

  lemma {:induction false} ReceiveSnoc(cands: seq<Ask>, a: Ask, need: nat)
    ensures var before := Receive(cands, need);
            var left := Short(need, AmountOf(before));
            Receive(cands + [a], need) ==
              if left > 0 && NeedFor(a, left).Some? then before + [NeedFor(a, left).value] else before
  {
    if cands == [] {
      assert (cands + [a])[1..] == [];
      assert cands + [a] == [a];
    } else if need > 0 {
      assert (cands + [a])[0] == cands[0] && (cands + [a])[1..] == cands[1..] + [a];
      match NeedFor(cands[0], need)
      case None => ReceiveSnoc(cands[1..], a, need);
      case Some(f) =>
        ReceiveSnoc(cands[1..], a, Short(need, f.amount));
        Head(f, Receive(cands[1..], Short(need, f.amount)));
    }
  }

  /** One more offer at the end of the book: it is taken of exactly when it is routable, the target is not reached, and it
      suits what is still needed. */
  lemma ReceivePlanGrows(asks: seq<Ask>, a: Ask, q: Query, target: nat)
    ensures var before, after := ReceivePlan(asks, q, target), ReceivePlan(asks + [a], q, target);
            var left := target - AmountOf(before);
            after == if Routable(q, a) && left > 0 && NeedFor(a, left).Some?
                     then before + [NeedFor(a, left).value] else before
  {
    var cands := Candidates(asks, q);
    assert (asks + [a])[..|asks|] == asks;
    ReceiveSnoc(cands, a, target);
    assert Routable(q, a) <==> Eligible(q, a);
    assert cands + [] == cands;
  }

  // ----- the order of the fills

  /** The fills come at rising places of the book. */
  ghost predicate InOrder(asks: seq<Ask>, fills: seq<Fill>, places: seq<nat>) {
    && |places| == |fills|
    && (forall i :: 0 <= i < |places| ==> places[i] < |asks| && asks[places[i]] == fills[i].ask)
    && (forall i, j :: 0 <= i < j < |places| ==> places[i] < places[j])
  }

  /** Nothing more, or one fill of the new offer. */
  predicate GrownBy(before: seq<Fill>, after: seq<Fill>, a: Ask) {
    after == before || (|after| == |before| + 1 && after[..|before|] == before && after[|before|].ask == a)
  }

  lemma OneMorePlace(asks: seq<Ask>, a: Ask, before: seq<Fill>, after: seq<Fill>, places: seq<nat>) returns (more: seq<nat>)
    requires InOrder(asks, before, places) && GrownBy(before, after, a)
    ensures InOrder(asks + [a], after, more)
  {
    var all := asks + [a];
    if after == before {
      more := places;
      assert forall i :: 0 <= i < |places| ==> all[places[i]] == asks[places[i]];
    } else {
      more := places + [|asks|];
      forall i | 0 <= i < |more| ensures more[i] < |all| && all[more[i]] == after[i].ask {
        if i < |places| {
          assert more[i] == places[i] && after[i] == before[i] && all[places[i]] == asks[places[i]];
        }
      }
    }
  }

  lemma SpendGrowsBy(asks: seq<Ask>, a: Ask, q: Query, budget: nat, maxBase: Option<nat>)
    ensures GrownBy(SpendPlan(asks, q, budget, maxBase), SpendPlan(asks + [a], q, budget, maxBase), a)
  {
    var cands := Candidates(asks, q);
    assert (asks + [a])[..|asks|] == asks;
    SpendSnoc(cands, a, budget, maxBase);
    assert cands + [] == cands;
  }

  lemma ReceiveGrowsBy(asks: seq<Ask>, a: Ask, q: Query, target: nat)
    ensures GrownBy(ReceivePlan(asks, q, target), ReceivePlan(asks + [a], q, target), a)
  {
    var cands := Candidates(asks, q);
    assert (asks + [a])[..|asks|] == asks;
    ReceiveSnoc(cands, a, target);
    assert cands + [] == cands;
  }

  lemma {:induction false} SpendInOrder(asks: seq<Ask>, q: Query, budget: nat, maxBase: Option<nat>) returns (places: seq<nat>)
    ensures InOrder(asks, SpendPlan(asks, q, budget, maxBase), places)
  {
    if asks == [] {
      places := [];
    } else {
      var front, a := asks[..|asks| - 1], asks[|asks| - 1];
      assert front + [a] == asks;
      places := SpendInOrder(front, q, budget, maxBase);
      SpendGrowsBy(front, a, q, budget, maxBase);
      places := OneMorePlace(front, a, SpendPlan(front, q, budget, maxBase), SpendPlan(asks, q, budget, maxBase), places);
    }
  }

  lemma {:induction false} ReceiveInOrder(asks: seq<Ask>, q: Query, target: nat) returns (places: seq<nat>)
    ensures InOrder(asks, ReceivePlan(asks, q, target), places)
  {
    if asks == [] {
      places := [];
    } else {
      var front, a := asks[..|asks| - 1], asks[|asks| - 1];
      assert front + [a] == asks;
      places := ReceiveInOrder(front, q, target);
      ReceiveGrowsBy(front, a, q, target);
      places := OneMorePlace(front, a, ReceivePlan(front, q, target), ReceivePlan(asks, q, target), places);
    }
  }

  /** A book is listed from the cheapest offer on; then so are the fills of every plan. */
  lemma CheapestFirst(asks: seq<Ask>, q: Query, budget: nat, maxBase: Option<nat>, target: nat)
    requires forall i, j :: 0 <= i < j < |asks| ==> asks[i].unit <= asks[j].unit
    ensures var fills := SpendPlan(asks, q, budget, maxBase);
            forall i, j :: 0 <= i < j < |fills| ==> fills[i].ask.unit <= fills[j].ask.unit
    ensures var fills := ReceivePlan(asks, q, target);
            forall i, j :: 0 <= i < j < |fills| ==> fills[i].ask.unit <= fills[j].ask.unit
  {
    var p := SpendInOrder(asks, q, budget, maxBase);
    var r := ReceiveInOrder(asks, q, target);
    var fills, got := SpendPlan(asks, q, budget, maxBase), ReceivePlan(asks, q, target);
    forall i, j | 0 <= i < j < |fills| ensures fills[i].ask.unit <= fills[j].ask.unit {
      assert asks[p[i]] == fills[i].ask && asks[p[j]] == fills[j].ask;
    }
    forall i, j | 0 <= i < j < |got| ensures got[i].ask.unit <= got[j].ask.unit {
      assert asks[r[i]] == got[i].ask && asks[r[j]] == got[j].ask;
    }
  }
}
