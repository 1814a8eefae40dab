/** How a buy run goes on or ends (dapp/btc-market.js runBuy, runLimitBuy), said of the takes' outcomes: how far a pass over
    some fills gets and what it has taken then, what a batch changes, and when offers that were gone lead to another round. */
module RunOutcomes {
  import opened Wrappers
  import opened OrderBook
  import opened PlanOutcomes
  import opened BuyRun
  import Prorata

  /** Whether stop was pressed before the take of fill i, and how that take ends: one moment each, from a clock on. */
  predicate StopAt(env: Env, clock: nat, i: nat) {
    env.stop(clock + i)
  }

  function TakeAt(env: Env, queue: seq<Fill>, clock: nat, i: nat): Outcome
    requires i < |queue|
  {
    env.take(clock + i, queue[i].ask.id)
  }

  /** The fills whose takes succeeded, of the first k. */
  function Succeeded(env: Env, queue: seq<Fill>, clock: nat, k: nat): seq<Fill>
    requires k <= |queue|
  {
    if k == 0 then [] else
    Succeeded(env, queue, clock, k - 1) + (if TakeAt(env, queue, clock, k - 1).Done? then [queue[k - 1]] else [])
  }

  predicate SomeGone(env: Env, queue: seq<Fill>, clock: nat, k: nat)
    requires k <= |queue|
  {
    exists i :: 0 <= i < k && TakeAt(env, queue, clock, i).Gone?
  }

  /** Nobody pressed stop before any of the first k takes, and none of them failed. */
  predicate NoneFatal(env: Env, queue: seq<Fill>, clock: nat, k: nat)
    requires k <= |queue|
  {
    && (forall i :: 0 <= i < k ==> !StopAt(env, clock, i))
    && (forall i :: 0 <= i < k ==> !TakeAt(env, queue, clock, i).Failed?)
  }

  /** The pass ends after k takes: the queue is over, stop was pressed, or the next take failed. */
  predicate Ends(env: Env, queue: seq<Fill>, clock: nat, k: nat, p: Pass) {
    && (p.stopped <==> k < |queue| && StopAt(env, clock, k))
    && (p.failed <==> k < |queue| && !StopAt(env, clock, k) && TakeAt(env, queue, clock, k).Failed?)
    && (k < |queue| ==> p.stopped || p.failed)
  }

  /** A pass that tries the first k fills and then ends, with those whose takes succeeded. */
  ghost predicate TriedUpTo(env: Env, queue: seq<Fill>, clock: nat, k: nat, p: Pass) {
    && k <= |queue| && NoneFatal(env, queue, clock, k) && Ends(env, queue, clock, k, p)
    && p.taken == Succeeded(env, queue, clock, k)
    && (p.stale <==> SomeGone(env, queue, clock, k))
  }

  /** Trying the rest of a queue a moment later is trying it from its second fill on. */
  lemma Shifted(env: Env, queue: seq<Fill>, clock: nat, i: nat)
    requires i + 1 < |queue|
    ensures StopAt(env, clock + 1, i) == StopAt(env, clock, i + 1)
    ensures TakeAt(env, queue[1..], clock + 1, i) == TakeAt(env, queue, clock, i + 1)
  {
    assert clock + 1 + i == clock + (i + 1);
  }

  lemma {:induction false} SucceededHead(env: Env, queue: seq<Fill>, clock: nat, k: nat)
    requires k < |queue|
    ensures Succeeded(env, queue, clock, k + 1) ==
              (if TakeAt(env, queue, clock, 0).Done? then [queue[0]] else []) + Succeeded(env, queue[1..], clock + 1, k)
  {
    if k == 0 {
      assert Succeeded(env, queue, clock, 0) == [];
    } else {
      SucceededHead(env, queue, clock, k - 1);
      Shifted(env, queue, clock, k - 1);
    }
  }

  lemma GoneHead(env: Env, queue: seq<Fill>, clock: nat, k: nat)
    requires k < |queue|
    ensures SomeGone(env, queue, clock, k + 1) <==> TakeAt(env, queue, clock, 0).Gone? || SomeGone(env, queue[1..], clock + 1, k)
  {
    if SomeGone(env, queue[1..], clock + 1, k) {
      var i :| 0 <= i < k && TakeAt(env, queue[1..], clock + 1, i).Gone?;
      Shifted(env, queue, clock, i);
    }
    if SomeGone(env, queue, clock, k + 1) {
      var i :| 0 <= i < k + 1 && TakeAt(env, queue, clock, i).Gone?;
      if i > 0 {
        Shifted(env, queue, clock, i - 1);
      }
    }
  }

  lemma NoneFatalHead(env: Env, queue: seq<Fill>, clock: nat, k: nat)
    requires k < |queue| && !StopAt(env, clock, 0) && !TakeAt(env, queue, clock, 0).Failed?
    requires NoneFatal(env, queue[1..], clock + 1, k)
    ensures NoneFatal(env, queue, clock, k + 1)
  {
    forall i | 0 <= i < k + 1 ensures !StopAt(env, clock, i) && !TakeAt(env, queue, clock, i).Failed? {
      if i > 0 {
        Shifted(env, queue, clock, i - 1);
      }
    }
  }

  lemma EndsHead(env: Env, queue: seq<Fill>, clock: nat, k: nat, rest: Pass, p: Pass)
    requires k < |queue| && p.stopped == rest.stopped && p.failed == rest.failed && Ends(env, queue[1..], clock + 1, k, rest)
    ensures Ends(env, queue, clock, k + 1, p)
  {
    if k + 1 < |queue| {
      Shifted(env, queue, clock, k);
    }
  }

  lemma TriedHead(env: Env, queue: seq<Fill>, clock: nat, k: nat, rest: Pass, p: Pass)
    requires queue != [] && !StopAt(env, clock, 0) && !TakeAt(env, queue, clock, 0).Failed?
    requires TriedUpTo(env, queue[1..], clock + 1, k, rest)
    requires p.stopped == rest.stopped && p.failed == rest.failed
    requires if TakeAt(env, queue, clock, 0).Done? then p.taken == [queue[0]] + rest.taken && p.stale == rest.stale
             else p.taken == rest.taken && p.stale
    ensures TriedUpTo(env, queue, clock, k + 1, p)
  {
    SucceededHead(env, queue, clock, k);
    GoneHead(env, queue, clock, k);
    NoneFatalHead(env, queue, clock, k);
    EndsHead(env, queue, clock, k, rest, p);
    assert [] + rest.taken == rest.taken;
  }

  /** Every pass is one of these, for one k. */
  lemma {:induction false} PassExactly(env: Env, queue: seq<Fill>, clock: nat) returns (k: nat)
    ensures TriedUpTo(env, queue, clock, k, TryEach(env, queue, false, clock))
  {
    k := 0;
    if queue != [] && !StopAt(env, clock, 0) && !TakeAt(env, queue, clock, 0).Failed? {
      k := PassExactly(env, queue[1..], clock + 1);
      TriedHead(env, queue, clock, k, TryEach(env, queue[1..], false, clock + 1), TryEach(env, queue, false, clock));
      k := k + 1;
    }
  }

  /** The pre-authorised fills first and the others after them, each in the order they had. */
  lemma {:induction false} KindGrows(queue: seq<Fill>, f: Fill, preauth: bool)
    ensures Kind(queue + [f], preauth) == Kind(queue, preauth) + (if f.ask.preauth == preauth then [f] else [])
  {
    if queue == [] {
      assert queue + [f] == [f] && [f][1..] == [];
    } else {
      var longer := queue + [f];
      assert longer[0] == queue[0] && longer[1..] == queue[1..] + [f];
      KindGrows(queue[1..], f, preauth);
      LoopStep(if queue[0].ask.preauth == preauth then [queue[0]] else [], f, []);
    }
  }

  /** A batch of two or more pre-authorised fills comes first: done, it is taken whole and only the others are tried singly;
      found gone, everything is tried singly; failed, the round is over with nothing. Without a batch all are tried singly. */
  lemma RoundExactly(env: Env, queue: seq<Fill>, clock: nat)
    ensures var pre, rest := Kind(queue, true), Kind(queue, false);
            var p := Round(env, queue, clock);
            && (|pre| <= 1 ==> p == TryEach(env, pre + rest, false, clock))
            && (|pre| >= 2 && env.batch(clock).Gone? ==> p == TryEach(env, pre + rest, false, clock + 1))
            && (|pre| >= 2 && env.batch(clock).Failed? ==> p.taken == [] && p.failed)
            && (|pre| >= 2 && env.batch(clock).Done? ==>
                  var singly := TryEach(env, rest, false, clock + 1);
                  p.taken == pre + singly.taken && p.stale == singly.stale && p.failed == singly.failed && p.stopped == singly.stopped)
  {
  }

  /** The plan for what is still wanted, without any offer tried so far. */
  function Next(c: Confirmed, spent: nat, got: nat, tried: set<int>, clock: nat): seq<Fill>
    requires spent <= Limit(c)
  {
    var q := Query(c.maxUnit, c.intents, tried);
    match c.order
    case SpendSats(sats) =>
      var left := (if sats < c.maxSats then sats else c.maxSats) - spent;
      if left < 546 then [] else SpendPlan(c.env.book(clock), q, left, None)
    case ReceiveBase(base) => if got < base then ReceivePlan(c.env.book(clock), q, base - got) else []
  }

  lemma NextIs(c: Confirmed, spent: nat, got: nat, tried: set<int>, clock: nat)
    requires spent <= Limit(c)
    ensures Replan(c, spent, got, tried, clock) == Next(c, spent, got, tried, clock)
  {
    if c.order.ReceiveBase? && got >= c.order.base {
      assert Short(c.order.base, got) == 0;
    }
  }

  /** Another round follows exactly when some offer was gone, nothing failed, nobody pressed stop, fewer than three rounds were
      added, and the plan for what is still wanted, on the book of that moment, has fills and stays within the sats confirmed.
      It starts from what was spent and got so far. */
  lemma RerouteExactly(c: Confirmed, s: State, p: Pass)
    requires EnvOk(c.env) && s.spent + SatsOf(p.taken) <= Limit(c) && c.maxUnit >= 0.0
    ensures var spent, got := s.spent + SatsOf(p.taken), s.got + AmountOf(p.taken);
            var np := Next(c, spent, got, s.tried + Ids(s.queue), p.clock);
            && (Reroute(c, s, p).Some? <==>
                  p.stale && !p.failed && !p.stopped && s.reroutes < 3 && np != [] && spent + SatsOf(np) <= c.maxSats)
            && (Reroute(c, s, p).Some? ==>
                  Reroute(c, s, p).value == State(np, spent, got, s.tried + Ids(s.queue), s.reroutes + 1, p.clock + 1))
  {
    var spent, got, tried := s.spent + SatsOf(p.taken), s.got + AmountOf(p.taken), s.tried + Ids(s.queue);
    NextIsWithin(c, spent, got, tried, p.clock);
  }

  lemma NextIsWithin(c: Confirmed, spent: nat, got: nat, tried: set<int>, clock: nat)
    requires EnvOk(c.env) && spent <= Limit(c) && c.maxUnit >= 0.0
    ensures var np := Next(c, spent, got, tried, clock);
            && Replan(c, spent, got, tried, clock) == np
            && (WithinBounds(np, c.maxSats - spent, c.maxUnit) <==> np != [] && spent + SatsOf(np) <= c.maxSats)
  {
    ReplanOk(c, spent, got, tried, clock);
    NextIs(c, spent, got, tried, clock);
    WithinAtPrice(Next(c, spent, got, tried, clock), c.maxUnit);
  }

  /** A price kept exactly is kept to a billionth, for a limit of zero or more. */
  lemma WithinAtPrice(fills: seq<Fill>, maxUnit: real)
    requires forall i :: 0 <= i < |fills| ==> fills[i].ask.unit <= maxUnit
    requires maxUnit >= 0.0
    ensures forall i :: 0 <= i < |fills| ==> fills[i].ask.unit <= maxUnit * 1.000000001
  {
    assert maxUnit <= maxUnit * 1.000000001;
  }

  /** The bid for the rest of a limit order is the most tokens that are still wanted and that the sats left pay for at the
      limit price, or nothing when less than 546 sats are left or it would come to less. */
  lemma BidExactly(o: LimitOrder, spent: nat, got: nat, most: nat)
    requires spent <= o.totalSats && got <= o.base && o.unit > 0.0
    requires var rest, scale := o.totalSats - spent, Pow10(o.decimals) * 100000000;
             && got + most <= o.base && most * ScaledUnit(o.unit) <= rest * scale
             && (got + most == o.base || (most + 1) * ScaledUnit(o.unit) > rest * scale)
    ensures RestingBid(o, spent, got) ==
              if o.totalSats - spent >= 546 && SatsForAmount(most, o.unit, o.decimals) >= 546 then most else 0
  {
    var rest := o.totalSats - spent;
    if rest >= 546 {
      BuysMost(rest, o.unit, o.decimals);
      MostUnique(most, AmountForSats(rest, o.unit, o.decimals), o.base - got, ScaledUnit(o.unit), rest * (Pow10(o.decimals) * 100000000));
    } else {
      assert SatsForAmount(0, o.unit, o.decimals) == 0 by { CostsNoMore(0, o.unit, o.decimals, 0); }
    }
  }

  lemma MostUnique(most: nat, amount: nat, want: nat, u: nat, n: nat)
    requires u > 0 && amount * u <= n < (amount + 1) * u
    requires most <= want && most * u <= n && (most == want || (most + 1) * u > n)
    ensures most == if amount < want then amount else want
  {
    if most < amount && most < want {
      Prorata.Times(most + 1, amount, u);
    } else if amount < most {
      Prorata.Times(amount + 1, most, u);
    }
  }
}
