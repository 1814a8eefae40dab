/** Executing a confirmed buy against a book that changes under it (dapp/btc-market.js runBuy, runLimitBuy,
    limitBidBase): every take may succeed, find its offer gone, or fail, and what is gone is re-routed. */
module BuyRun {
  import opened Wrappers
  import opened OrderBook

  const MAX_REROUTES := 3

  datatype Outcome = Done | Gone | Failed

  /** The world, asked at successive moments: how a take or a batch ends, whether the person has pressed stop, and what
      the book looks like. */
  datatype Env = Env(take: (nat, int) -> Outcome, batch: nat -> Outcome, stop: nat -> bool, book: nat -> seq<Ask>)

  ghost predicate EnvOk(env: Env) {
    forall n :: BookOk(env.book(n))
  }

  datatype Order = SpendSats(sats: nat) | ReceiveBase(base: nat)

  /** A fill the person agreed to: at no worse than the price limit. */
  ghost predicate PriceOk(fills: seq<Fill>, maxUnit: real) {
    forall i :: 0 <= i < |fills| ==> fills[i].ask.unit <= maxUnit
  }

  // ----- one offer after another

  /** What a pass over some fills did: those taken, whether any was gone, and whether it was cut short. */
  datatype Pass = Pass(taken: seq<Fill>, stale: bool, failed: bool, stopped: bool, clock: nat)

  /** Trying fills one by one from a moment on. */
  function TryEach(env: Env, queue: seq<Fill>, stopped: bool, clock: nat): Pass {
    if queue == [] then Pass([], false, false, stopped, clock) else
    var stop := stopped || env.stop(clock);
    if stop then Pass([], false, false, true, clock + 1) else
    match env.take(clock, queue[0].ask.id)
    case Failed => Pass([], false, true, false, clock + 1)
    case Gone => var rest := TryEach(env, queue[1..], false, clock + 1); rest.(stale := true)
    case Done => var rest := TryEach(env, queue[1..], false, clock + 1); rest.(taken := [queue[0]] + rest.taken)
  }

  /** The loop of `runBuy` over the offers taken singly. */
  method TryLoop(env: Env, queue: seq<Fill>, stopped: bool, clock: nat) returns (p: Pass)
    ensures p == TryEach(env, queue, stopped, clock)
  {
    var taken: seq<Fill>, stale, now: nat, i := [], false, clock, 0;
    var stop := stopped;
    while i < |queue|
      invariant 0 <= i <= |queue| && (i > 0 ==> !stop)
      invariant i == 0 ==> stop == stopped
      invariant TryEach(env, queue, stopped, clock) == After(taken, stale, TryEach(env, queue[i..], stop, now))
    {
      assert queue[i..][1..] == queue[i + 1..];
      stop := stop || env.stop(now);
      if stop {
        assert taken + [] == taken;
        return Pass(taken, stale, false, true, now + 1);
      }
      var r := env.take(now, queue[i].ask.id);
      if r.Failed? {
        assert taken + [] == taken;
        return Pass(taken, stale, true, false, now + 1);
      }
      if r.Gone? {
        stale := true;
      } else {
        LoopStep(taken, queue[i], TryEach(env, queue[i + 1..], false, now + 1).taken);
        taken := taken + [queue[i]];
      }
      now, i := now + 1, i + 1;
    }
    assert taken + [] == taken;
    return Pass(taken, stale, false, stop, now);
  }

  function After(taken: seq<Fill>, stale: bool, rest: Pass): Pass {
    rest.(taken := taken + rest.taken, stale := stale || rest.stale)
  }

  /** Some of the fills, in order. */
  ghost predicate Among(some: seq<Fill>, all: seq<Fill>) {
    if some == [] then true
    else if all == [] then false
    else (some[0] == all[0] && Among(some[1..], all[1..])) || Among(some, all[1..])
  }

  lemma {:induction false} AmongSums(some: seq<Fill>, all: seq<Fill>)
    requires Among(some, all)
    ensures SatsOf(some) <= SatsOf(all) && AmountOf(some) <= AmountOf(all)
    decreases |all|
  {
    if some != [] {
      if some[0] == all[0] && Among(some[1..], all[1..]) {
        AmongSums(some[1..], all[1..]);
      } else {
        AmongSums(some, all[1..]);
      }
    }
  }

  lemma {:induction false} AmongMember(some: seq<Fill>, all: seq<Fill>, i: nat) returns (k: nat)
    requires Among(some, all) && i < |some|
    ensures k < |all| && all[k] == some[i]
    decreases |all|
  {
    if some[0] == all[0] && Among(some[1..], all[1..]) {
      if i == 0 {
        k := 0;
      } else {
        k := AmongMember(some[1..], all[1..], i - 1);
        k := k + 1;
      }
    } else {
      k := AmongMember(some, all[1..], i);
      k := k + 1;
    }
  }

  lemma {:induction false} AmongDistinct(some: seq<Fill>, all: seq<Fill>)
    requires Among(some, all) && DistinctIds(all)
    ensures DistinctIds(some)
    decreases |all|
  {
    if some != [] {
      if some[0] == all[0] && Among(some[1..], all[1..]) {
        AmongDistinct(some[1..], all[1..]);
        forall j | 0 < j < |some| ensures some[j].ask.id != some[0].ask.id {
          var k := AmongMember(some[1..], all[1..], j - 1);
          assert all[k + 1] == some[j];
        }
      } else {
        AmongDistinct(some, all[1..]);
      }
    }
  }

  lemma {:induction false} TriedAreAmong(env: Env, queue: seq<Fill>, stopped: bool, clock: nat)
    ensures Among(TryEach(env, queue, stopped, clock).taken, queue)
  {
    if queue != [] && !stopped && !env.stop(clock) {
      var rest := TryEach(env, queue[1..], false, clock + 1);
      TriedAreAmong(env, queue[1..], false, clock + 1);
      if env.take(clock, queue[0].ask.id).Done? {
        assert ([queue[0]] + rest.taken)[1..] == rest.taken;
      }
    }
  }

  // ----- one round

  function Kind(queue: seq<Fill>, preauth: bool): seq<Fill> {
    if queue == [] then [] else
    (if queue[0].ask.preauth == preauth then [queue[0]] else []) + Kind(queue[1..], preauth)
  }

  /** The order a round tries its fills in: those a batch can take first. */
  function Arranged(queue: seq<Fill>): seq<Fill> {
    Kind(queue, true) + Kind(queue, false)
  }

  /** Two or more pre-authorised lots are first tried in one batch; if that finds one gone they are tried singly. */
  function Round(env: Env, queue: seq<Fill>, clock: nat): Pass {
    var pre, rest := Kind(queue, true), Kind(queue, false);
    if |pre| < 2 then TryEach(env, Arranged(queue), false, clock) else
    match env.batch(clock)
    case Failed => Pass([], false, true, false, clock + 1)
    case Gone => TryEach(env, Arranged(queue), false, clock + 1)
    case Done => var p := TryEach(env, rest, false, clock + 1); p.(taken := pre + p.taken)
  }

  method RunRound(env: Env, queue: seq<Fill>, clock: nat) returns (p: Pass)
    ensures p == Round(env, queue, clock)
  {
    var pre, rest := Kind(queue, true), Kind(queue, false);
    if |pre| >= 2 {
      var r := env.batch(clock);
      if r.Failed? {
        return Pass([], false, true, false, clock + 1);
      }
      if r.Done? {
        p := TryLoop(env, rest, false, clock + 1);
        return p.(taken := pre + p.taken);
      }
      p := TryLoop(env, pre + rest, false, clock + 1);
    } else {
      p := TryLoop(env, pre + rest, false, clock);
    }
  }

  lemma {:induction false} AmongBehind(front: seq<Fill>, some: seq<Fill>, all: seq<Fill>)
    requires Among(some, all)
    ensures Among(front + some, front + all)
  {
    if front == [] {
      assert front + some == some && front + all == all;
    } else {
      AmongBehind(front[1..], some, all);
      assert (front + some)[1..] == front[1..] + some && (front + all)[1..] == front[1..] + all;
    }
  }

  lemma RoundIsAmong(env: Env, queue: seq<Fill>, clock: nat)
    ensures Among(Round(env, queue, clock).taken, Arranged(queue))
  {
    var pre, rest := Kind(queue, true), Kind(queue, false);
    TriedAreAmong(env, Arranged(queue), false, clock);
    TriedAreAmong(env, Arranged(queue), false, clock + 1);
    TriedAreAmong(env, rest, false, clock + 1);
    AmongBehind(pre, TryEach(env, rest, false, clock + 1).taken, rest);
  }

  lemma {:induction false} KindSums(queue: seq<Fill>)
    ensures SatsOf(Kind(queue, true)) + SatsOf(Kind(queue, false)) == SatsOf(queue)
  {
    if queue != [] {
      KindSums(queue[1..]);
      Sums(if queue[0].ask.preauth then [queue[0]] else [], Kind(queue[1..], true));
      Sums(if queue[0].ask.preauth then [] else [queue[0]], Kind(queue[1..], false));
      assert SatsOf([queue[0]]) == queue[0].sats + SatsOf([]);
    }
  }

  lemma {:induction false} KindMember(queue: seq<Fill>, preauth: bool, j: nat) returns (k: nat)
    requires j < |Kind(queue, preauth)|
    ensures k < |queue| && queue[k] == Kind(queue, preauth)[j] && queue[k].ask.preauth == preauth
  {
    var mine := queue[0].ask.preauth == preauth;
    if mine && j == 0 {
      k := 0;
    } else {
      k := KindMember(queue[1..], preauth, if mine then j - 1 else j);
      k := k + 1;
    }
  }

  lemma {:induction false} KindDistinct(queue: seq<Fill>, preauth: bool)
    requires DistinctIds(queue)
    ensures DistinctIds(Kind(queue, preauth))
  {
    if queue != [] {
      var rest := Kind(queue[1..], preauth);
      KindDistinct(queue[1..], preauth);
      forall j | 0 <= j < |rest| ensures rest[j].ask.id != queue[0].ask.id {
        var k := KindMember(queue[1..], preauth, j);
        assert queue[k + 1] == rest[j];
      }
    }
  }

  /** Where an arranged fill comes from. */
  lemma ArrangedMember(queue: seq<Fill>, j: nat) returns (k: nat)
    requires j < |Arranged(queue)|
    ensures k < |queue| && queue[k] == Arranged(queue)[j]
  {
    var n := |Kind(queue, true)|;
    if j < n {
      k := KindMember(queue, true, j);
    } else {
      k := KindMember(queue, false, j - n);
    }
  }

  lemma ArrangedDistinct(queue: seq<Fill>)
    requires DistinctIds(queue)
    ensures DistinctIds(Arranged(queue))
  {
    var pre, rest := Kind(queue, true), Kind(queue, false);
    KindDistinct(queue, true);
    KindDistinct(queue, false);
    forall i, j | 0 <= i < |pre| && 0 <= j < |rest| ensures pre[i].ask.id != rest[j].ask.id {
      var k := KindMember(queue, true, i);
      var l := KindMember(queue, false, j);
      assert k != l;
    }
  }

  /** What a round takes, of what it was given: no more sats, no offer twice, nothing else and at no other price. */
  lemma RoundTakes(env: Env, queue: seq<Fill>, clock: nat, maxUnit: real)
    requires DistinctIds(queue) && PriceOk(queue, maxUnit)
    ensures var taken := Round(env, queue, clock).taken;
            SatsOf(taken) <= SatsOf(queue) && DistinctIds(taken) && Ids(taken) <= Ids(queue) && PriceOk(taken, maxUnit)
  {
    var taken, all := Round(env, queue, clock).taken, Arranged(queue);
    RoundIsAmong(env, queue, clock);
    AmongSums(taken, all);
    KindSums(queue);
    Sums(Kind(queue, true), Kind(queue, false));
    ArrangedDistinct(queue);
    AmongDistinct(taken, all);
    forall i | 0 <= i < |taken| ensures taken[i].ask.id in Ids(queue) && taken[i].ask.unit <= maxUnit {
      var j := AmongMember(taken, all, i);
      var k := ArrangedMember(queue, j);
      assert queue[k] in queue;
    }
  }

  // ----- the whole run

  /** What was confirmed, and the world it runs in. */
  datatype Confirmed = Confirmed(env: Env, maxSats: nat, maxUnit: real, order: Order, intents: bool)

  /** Where a run stands between rounds. */
  datatype State = State(queue: seq<Fill>, spent: nat, got: nat, tried: set<int>, reroutes: nat, clock: nat)

  /** The most the run may spend in all. */
  function Limit(c: Confirmed): nat {
    if c.order.SpendSats? then Min(c.order.sats, c.maxSats) else c.maxSats
  }

  /** A new plan for what is still wanted, from the book as it is then. */
  function Replan(c: Confirmed, spent: nat, got: nat, tried: set<int>, clock: nat): seq<Fill> {
    var cands := Candidates(c.env.book(clock), Query(c.maxUnit, c.intents, tried));
    match c.order
    case SpendSats(_) => (if Short(Limit(c), spent) < DUST then [] else Spend(cands, Short(Limit(c), spent), None))
    case ReceiveBase(base) => Receive(cands, Short(base, got))
  }

  /** The round after this one, if offers were gone, rounds are left, and a new plan keeps inside the bounds. */
  function Reroute(c: Confirmed, s: State, p: Pass): Option<State> {
    if p.failed || p.stopped || !p.stale || s.reroutes >= MAX_REROUTES then None else
    var spent, got, tried := s.spent + SatsOf(p.taken), s.got + AmountOf(p.taken), s.tried + Ids(s.queue);
    var np := Replan(c, spent, got, tried, p.clock);
    if !WithinBounds(np, c.maxSats - spent, c.maxUnit) then None
    else Some(State(np, spent, got, tried, s.reroutes + 1, p.clock + 1))
  }

  /** Everything a run takes from where it stands. */
  function Rounds(c: Confirmed, s: State): seq<Fill>
    decreases if s.reroutes < MAX_REROUTES then MAX_REROUTES - s.reroutes else 0, 1
  {
    if s.queue == [] || c.env.stop(s.clock) then [] else
    Following(c, s, Round(c.env, s.queue, s.clock + 1))
  }

  /** What comes of a round, with all that follows it. */
  function Following(c: Confirmed, s: State, p: Pass): seq<Fill>
    decreases if s.reroutes < MAX_REROUTES then MAX_REROUTES - s.reroutes else 0, 0
  {
    match Reroute(c, s, p)
    case None => p.taken
    case Some(s') => p.taken + Rounds(c, s')
  }

  /** A new plan keeps to the limit and the price, and routes nothing tried before. */
  lemma ReplanOk(c: Confirmed, spent: nat, got: nat, tried: set<int>, clock: nat)
    requires EnvOk(c.env) && spent <= Limit(c)
    ensures var np := Replan(c, spent, got, tried, clock);
            && DistinctIds(np) && PriceOk(np, c.maxUnit) && Ids(np) !! tried
            && (c.order.SpendSats? ==> spent + SatsOf(np) <= Limit(c))
  {
    var np := Replan(c, spent, got, tried, clock);
    var book, q := c.env.book(clock), Query(c.maxUnit, c.intents, tried);
    var cands := Candidates(book, q);
    assert BookOk(book);
    CandidatesOk(book, q);
    match c.order {
      case SpendSats(_) =>
        var left := Short(Limit(c), spent);
        SpendFrom(cands, left, None);
        SpendBounds(cands, left, None);
        FromIsRouted(book, q, Spend(cands, left, None));
      case ReceiveBase(base) =>
        ReceiveFrom(cands, Short(base, got));
        FromIsRouted(book, q, Receive(cands, Short(base, got)));
    }
    assert RoutedFrom(book, q, np);
  }

  /** Inside what was confirmed: enough left for the queue, at the price, and nothing in it tried before. */
  ghost predicate Inside(c: Confirmed, s: State) {
    && s.spent + SatsOf(s.queue) <= Limit(c)
    && DistinctIds(s.queue) && PriceOk(s.queue, c.maxUnit) && Ids(s.queue) !! s.tried
  }

  lemma RerouteInside(c: Confirmed, s: State, p: Pass)
    requires EnvOk(c.env) && s.spent + SatsOf(p.taken) <= Limit(c) && Reroute(c, s, p).Some?
    ensures var s' := Reroute(c, s, p).value;
            Inside(c, s') && s'.spent == s.spent + SatsOf(p.taken) && s'.tried == s.tried + Ids(s.queue)
  {
    var s' := Reroute(c, s, p).value;
    ReplanOk(c, s'.spent, s'.got, s'.tried, p.clock);
  }

  /** Two runs of takes that have no offer in common, one after the other. */
  lemma Joined(a: seq<Fill>, b: seq<Fill>, maxUnit: real)
    requires DistinctIds(a) && DistinctIds(b) && Ids(a) !! Ids(b) && PriceOk(a, maxUnit) && PriceOk(b, maxUnit)
    ensures DistinctIds(a + b) && PriceOk(a + b, maxUnit) && Ids(a + b) == Ids(a) + Ids(b)
    ensures SatsOf(a + b) == SatsOf(a) + SatsOf(b)
  {
    Sums(a, b);
    forall i, j | 0 <= i < |a| && 0 <= j < |b| ensures a[i].ask.id != b[j].ask.id {
      assert a[i] in a && b[j] in b;
      assert a[i].ask.id in Ids(a) && b[j].ask.id in Ids(b);
    }
  }

  /** Takes that keep to what was confirmed, after so much was spent and so many offers tried. */
  ghost predicate Kept(c: Confirmed, spent: nat, tried: set<int>, all: seq<Fill>) {
    spent + SatsOf(all) <= Limit(c) && PriceOk(all, c.maxUnit) && DistinctIds(all) && Ids(all) !! tried
  }

  lemma KeptJoin(c: Confirmed, spent: nat, tried: set<int>, ids: set<int>, a: seq<Fill>, b: seq<Fill>)
    requires Kept(c, spent, tried, a) && Ids(a) <= ids && Kept(c, spent + SatsOf(a), tried + ids, b)
    ensures Kept(c, spent, tried, a + b)
  {
    Joined(a, b, c.maxUnit);
  }

  lemma RoundKept(c: Confirmed, s: State)
    requires Inside(c, s)
    ensures var taken := Round(c.env, s.queue, s.clock + 1).taken;
            Kept(c, s.spent, s.tried, taken) && Ids(taken) <= Ids(s.queue)
  {
    RoundTakes(c.env, s.queue, s.clock + 1, c.maxUnit);
  }

  lemma StepKept(c: Confirmed, s: State, p: Pass, rest: seq<Fill>)
    requires EnvOk(c.env) && Kept(c, s.spent, s.tried, p.taken) && Ids(p.taken) <= Ids(s.queue) && Reroute(c, s, p).Some?
    requires var s' := Reroute(c, s, p).value; Kept(c, s'.spent, s'.tried, rest)
    ensures Kept(c, s.spent, s.tried, p.taken + rest)
  {
    RerouteInside(c, s, p);
    KeptJoin(c, s.spent, s.tried, Ids(s.queue), p.taken, rest);
  }

  lemma {:induction false} FollowingKept(c: Confirmed, s: State, p: Pass)
    requires EnvOk(c.env) && Kept(c, s.spent, s.tried, p.taken) && Ids(p.taken) <= Ids(s.queue)
    ensures Kept(c, s.spent, s.tried, Following(c, s, p))
    decreases if s.reroutes < MAX_REROUTES then MAX_REROUTES - s.reroutes else 0, 0
  {
    if Reroute(c, s, p).Some? {
      RerouteInside(c, s, p);
      RunStaysInside(c, Reroute(c, s, p).value);
      StepKept(c, s, p, Rounds(c, Reroute(c, s, p).value));
    }
  }

  /** For any book changes and any pattern of takes, a run stays inside what was confirmed. */
  lemma {:induction false} RunStaysInside(c: Confirmed, s: State)
    requires EnvOk(c.env) && Inside(c, s)
    ensures Kept(c, s.spent, s.tried, Rounds(c, s))
    decreases if s.reroutes < MAX_REROUTES then MAX_REROUTES - s.reroutes else 0, 1
  {
    if s.queue == [] || c.env.stop(s.clock) {
      assert Ids([]) == {};
    } else {
      RoundKept(c, s);
      FollowingKept(c, s, Round(c.env, s.queue, s.clock + 1));
    }
  }

  lemma JoinedSums(a: seq<Fill>, b: seq<Fill>, rest: seq<Fill>)
    ensures SatsOf(a + b) == SatsOf(a) + SatsOf(b) && AmountOf(a + b) == AmountOf(a) + AmountOf(b)
    ensures a + (b + rest) == (a + b) + rest
  {
    Sums(a, b);
  }

  /** The loop of `runBuy`: it takes what `Rounds` lists, in at most four rounds. */
  method RunLoop(c: Confirmed, plan: seq<Fill>) returns (taken: seq<Fill>, spent: nat, got: nat, rounds: nat)
    ensures taken == Rounds(c, State(plan, 0, 0, {}, 0, 0))
    ensures spent == SatsOf(taken) && got == AmountOf(taken) && rounds <= MAX_REROUTES + 1
  {
    taken, rounds := [], 0;
    var s := State(plan, 0, 0, {}, 0, 0);
    while s.queue != [] && !c.env.stop(s.clock)
      invariant s.reroutes == rounds <= MAX_REROUTES && s.spent == SatsOf(taken) && s.got == AmountOf(taken)
      invariant Rounds(c, State(plan, 0, 0, {}, 0, 0)) == taken + Rounds(c, s)
      decreases MAX_REROUTES - s.reroutes
    {
      var p := RunRound(c.env, s.queue, s.clock + 1);
      var next := Reroute(c, s, p);
      JoinedSums(taken, p.taken, if next.Some? then Rounds(c, next.value) else []);
      rounds := rounds + 1;
      taken := taken + p.taken;
      if next.None? {
        return taken, s.spent + SatsOf(p.taken), s.got + AmountOf(p.taken), rounds;
      }
      s := next.value;
    }
    assert taken + [] == taken;
    return taken, s.spent, s.got, rounds;
  }

  /** `runBuy`: no more than the confirmed sats is spent, every fill is within the price limit, no offer is taken twice,
      and there are at most four rounds. */
  method RunBuy(c: Confirmed, plan: seq<Fill>) returns (taken: seq<Fill>, spent: nat, got: nat, rounds: nat)
    requires EnvOk(c.env) && SatsOf(plan) <= Limit(c) && DistinctIds(plan) && PriceOk(plan, c.maxUnit)
    ensures spent == SatsOf(taken) <= c.maxSats && (c.order.SpendSats? ==> spent <= c.order.sats) && got == AmountOf(taken)
    ensures PriceOk(taken, c.maxUnit) && DistinctIds(taken) && rounds <= MAX_REROUTES + 1
    ensures taken == Rounds(c, State(plan, 0, 0, {}, 0, 0))
  {
    RunStaysInside(c, State(plan, 0, 0, {}, 0, 0));
    taken, spent, got, rounds := RunLoop(c, plan);
  }

  /** Nothing in the way: no stop is pressed and every take succeeds. */
  ghost predicate AllGoesWell(env: Env) {
    && (forall n :: !env.stop(n))
    && (forall n, id :: env.take(n, id).Done?)
    && (forall n :: env.batch(n).Done?)
  }

  lemma {:induction false} EachIsTaken(env: Env, queue: seq<Fill>, clock: nat)
    requires AllGoesWell(env)
    ensures var p := TryEach(env, queue, false, clock); p.taken == queue && !p.stale && !p.failed && !p.stopped
  {
    if queue != [] {
      EachIsTaken(env, queue[1..], clock + 1);
      assert queue == [queue[0]] + queue[1..];
    }
  }

  /** Then the run buys its whole plan in one round. */
  lemma WholePlanIsBought(c: Confirmed, s: State)
    requires AllGoesWell(c.env)
    ensures Rounds(c, s) == Arranged(s.queue) && SatsOf(Rounds(c, s)) == SatsOf(s.queue)
  {
    KindSums(s.queue);
    Sums(Kind(s.queue, true), Kind(s.queue, false));
    if s.queue != [] {
      EachIsTaken(c.env, Arranged(s.queue), s.clock + 1);
      EachIsTaken(c.env, Kind(s.queue, false), s.clock + 2);
      assert Round(c.env, s.queue, s.clock + 1).taken == Arranged(s.queue);
    }
  }

  /** The dearest price among some offers, or zero. */
  function Dearest(asks: seq<Ask>): (u: real)
    ensures forall i :: 0 <= i < |asks| ==> asks[i].unit <= u
  {
    if asks == [] then 0.0 else
    var u := Dearest(asks[..|asks| - 1]);
    if asks[|asks| - 1].unit > u then asks[|asks| - 1].unit else u
  }

  function AsksOf(fills: seq<Fill>): (asks: seq<Ask>)
    ensures |asks| == |fills| && forall i :: 0 <= i < |fills| ==> asks[i] == fills[i].ask
  {
    seq(|fills|, i requires 0 <= i < |fills| => fills[i].ask)
  }

  /** What the person confirms for a plan: its own worst price when none was set, and the sats asked for, or at a target
      amount the more of the plan and that amount at the limit. */
  function Review(env: Env, order: Order, maxUnit: Option<real>, intents: bool, decimals: nat, plan: seq<Fill>): Confirmed {
    var unit := if maxUnit.Some? then maxUnit.value else Dearest(AsksOf(plan));
    var sats := match order
      case SpendSats(sats) => sats
      case ReceiveBase(base) => Max(SatsOf(plan), SatsForAmount(base, unit, decimals));
    Confirmed(env, sats, unit, order, intents)
  }

  function Max(a: nat, b: nat): nat {
    if a < b then b else a
  }

  /** A market buy from quote to end: the plan on the first book, the limits confirmed for it, and the run inside them. */
  method MarketBuy(env: Env, order: Order, maxUnit: Option<real>, intents: bool, decimals: nat)
    returns (c: Confirmed, taken: seq<Fill>, rounds: nat)
    requires EnvOk(env)
    ensures SatsOf(taken) <= c.maxSats && (order.SpendSats? ==> c.maxSats == order.sats)
    ensures PriceOk(taken, c.maxUnit) && (maxUnit.Some? ==> c.maxUnit == maxUnit.value)
    ensures DistinctIds(taken) && rounds <= MAX_REROUTES + 1
  {
    var book := env.book(0);
    assert BookOk(book);
    var q := Query(if maxUnit.Some? then maxUnit.value else Dearest(book), intents, {});
    var plan;
    if order.SpendSats? {
      plan := PlanSpend(book, q, order.sats, None);
    } else {
      plan := PlanReceive(book, q, order.base);
    }
    c := Review(env, order, maxUnit, intents, decimals, plan);
    forall i | 0 <= i < |plan| ensures plan[i].ask.unit <= c.maxUnit {
      assert AsksOf(plan)[i] == plan[i].ask;
    }
    var spent, got;
    taken, spent, got, rounds := RunBuy(c, plan);
  }

  // ----- a limit buy

  datatype LimitOrder = LimitOrder(totalSats: nat, base: nat, unit: real, decimals: nat)

  /** What is bid for with the sats and tokens left, or nothing when it would be dust. */
  function RestingBid(o: LimitOrder, spent: nat, got: nat): nat {
    var rest := Short(o.totalSats, spent);
    var base := if rest >= DUST then AmountForSats(rest, o.unit, o.decimals) else 0;
    var capped := Min(base, Short(o.base, got));
    if SatsForAmount(capped, o.unit, o.decimals) >= DUST then capped else 0
  }

  /** The bid and what it costs fit in what is left. */
  lemma BidFits(o: LimitOrder, spent: nat, got: nat)
    requires spent <= o.totalSats && got <= o.base
    ensures var bid := RestingBid(o, spent, got);
            got + bid <= o.base && spent + SatsForAmount(bid, o.unit, o.decimals) <= o.totalSats
  {
    var rest, bid := Short(o.totalSats, spent), RestingBid(o, spent, got);
    if bid > 0 {
      CostsNoMore(rest, o.unit, o.decimals, bid);
    } else {
      CostsNoMore(0, o.unit, o.decimals, 0);
    }
  }

  /** A limit buy has no stop button. */
  function NeverStopped(env: Env): Env {
    env.(stop := _ => false)
  }

  /** `runLimitBuy`: the fills that cross now, then, if the review had planned a bid, one for the rest; together they exceed
      neither the sats nor the tokens ordered, whichever takes fail. */
  method RunLimitBuy(env: Env, o: LimitOrder, now: seq<Fill>, bidPlanned: bool) returns (taken: seq<Fill>, bidBase: nat, bidSats: nat)
    requires DistinctIds(now) && SatsOf(now) <= o.totalSats && AmountOf(now) <= o.base
    ensures Among(taken, now) && DistinctIds(taken)
    ensures SatsOf(taken) + bidSats <= o.totalSats && AmountOf(taken) + bidBase <= o.base
    ensures var p := TryEach(NeverStopped(env), now, false, 0);
            taken == p.taken && bidBase == if p.failed || !bidPlanned then 0 else RestingBid(o, SatsOf(taken), AmountOf(taken))
    ensures bidBase == 0 || (bidSats >= DUST && bidSats == SatsForAmount(bidBase, o.unit, o.decimals))
  {
    var p := TryLoop(NeverStopped(env), now, false, 0);
    taken := p.taken;
    TriedAreAmong(NeverStopped(env), now, false, 0);
    AmongSums(taken, now);
    AmongDistinct(taken, now);
    bidBase, bidSats := 0, 0;
    if p.failed || !bidPlanned {
      return;
    }
    BidFits(o, SatsOf(taken), AmountOf(taken));
    var base := RestingBid(o, SatsOf(taken), AmountOf(taken));
    if base > 0 {
      bidBase, bidSats := base, SatsForAmount(base, o.unit, o.decimals);
    }
  }

  /** The whole limit order, planned from the book: within its sats, its tokens and its price. */
  method LimitBuy(env: Env, o: LimitOrder, intents: bool) returns (taken: seq<Fill>, bidBase: nat, bidSats: nat)
    requires EnvOk(env)
    ensures SatsOf(taken) + bidSats <= o.totalSats && AmountOf(taken) + bidBase <= o.base
    ensures DistinctIds(taken) && PriceOk(taken, o.unit)
    ensures AllGoesWell(env) ==> bidBase == RestingBid(o, SatsOf(taken), AmountOf(taken))
  {
    assert BookOk(env.book(0));
    var now := PlanSpend(env.book(0), Query(o.unit, intents, {}), o.totalSats, Some(o.base));
    taken, bidBase, bidSats := RunLimitBuy(env, o, now, RestingBid(o, SatsOf(now), AmountOf(now)) > 0);
    if AllGoesWell(env) {
      EachIsTaken(NeverStopped(env), now, 0);
    }
    forall i | 0 <= i < |taken| ensures taken[i].ask.unit <= o.unit {
      var k := AmongMember(taken, now, i);
    }
  }
}
