/** The pool replay of dapp/amm-replay.js: reserves, shares and the fee checkpoint kLast, driven by a list of
    decoded operations, with the pool arithmetic of dapp/tacit.js. Every operation is accepted with a new
    state, or refuses the whole replay. */
module AmmReplay {
  import opened Wrappers
  import opened Isqrt

  const MINIMUM_LIQUIDITY := 1000
  const U64 := 0x1_0000_0000_0000_0000

  /** Protocol fee: whether it is on, and its share of the growth in basis points. */
  datatype Config = Config(feeOn: bool, feeBps: nat)

  datatype Pool = Pool(live: bool, a: int, b: int, shares: int, kLast: int, feeBps: nat)

  const EMPTY := Pool(false, 0, 0, 0, 0, 0)

  datatype Hop = Hop(feeBps: nat, aPre: int, bPre: int, direction: int, magA: int, magB: int)

  datatype Op =
    | Init(da: int, db: int, declared: Option<int>, feeBps: nat)
    | Add(da: int, db: int, declared: Option<int>)
    | Swap(direction: int, amountIn: int, minOut: Option<int>)
    | Route(hops: seq<Hop>)
    | Remove(burned: int, outA: Option<int>, outB: Option<int>)
    | FeeClaim
    | Batch
    | Unknown

  predicate Agrees(declared: Option<int>, formula: int) {
    declared.Some? ==> declared.value == formula
  }

  // ----- the arithmetic

  /** Division as the source's integers do it: toward zero. */
  function Quotient(num: nat, den: int): (q: int)
    requires den != 0
    ensures den > 0 ==> q >= 0 && q * den <= num < (q + 1) * den
    ensures den < 0 ==> q <= 0
  {
    if den > 0 then num / den else -(num / -den)
  }

  /** `computeProtocolShares`: the fee's part of the growth of the root. */
  function ProtocolShares(shares: nat, kPre: nat, kNow: nat, bps: nat): int {
    if bps == 0 || kNow <= kPre || shares == 0 then 0 else
    var rootPre, rootNow := Root(kPre), Root(kNow);
    if rootNow <= rootPre then 0 else Dilution(shares, rootPre, rootNow, bps)
  }

  function Dilution(shares: nat, rootPre: nat, rootNow: nat, bps: nat): int
    requires rootPre < rootNow
  {
    var den := (10000 - bps) * rootNow + bps * rootPre;
    var grown := bps * (rootNow - rootPre);
    assert grown >= 0;
    if den == 0 then 0 else Quotient(shares * grown, den)
  }

  /** The curve's output for an input, floored. */
  function CurveOut(rIn: nat, rOut: nat, amountIn: nat, feeBps: nat): nat
    requires rIn > 0 && feeBps <= 10000
  {
    var g: nat := (10000 - feeBps) * amountIn;
    var num: nat, den: nat := rOut * g, rIn * 10000 + g;
    assert den > 0;
    num / den
  }

  function AddShares(da: nat, db: nat, a: nat, b: nat, shares: nat): nat
    requires a > 0 && b > 0
  {
    var x, y := (da * shares) / a, (db * shares) / b;
    if x < y then x else y
  }

  function Payout(reserve: nat, burned: nat, shares: nat): nat
    requires shares > 0
  {
    (reserve * burned) / shares
  }

  // ----- the operations

  /** Mint the protocol's shares for the growth since the last checkpoint, and move the checkpoint. */
  function Crystallize(cfg: Config, s: Pool): Pool {
    var kNow := s.a * s.b;
    var minted := if cfg.feeOn && cfg.feeBps > 0 && s.shares >= 0 && s.kLast >= 0 && kNow >= 0
                  then ProtocolShares(s.shares, s.kLast, kNow, cfg.feeBps) else 0;
    s.(shares := if minted > 0 then s.shares + minted else s.shares, kLast := kNow)
  }

  function OnInit(s: Pool, da: int, db: int, declared: Option<int>, feeBps: nat): Result<Pool> {
    if s.live then Err("pool_init after pool already initialized")
    else if da <= 0 || db <= 0 then Err("pool_init non-positive deltas")
    else if Root(da * db) <= MINIMUM_LIQUIDITY then Err("pool_init total <= MINIMUM_LIQUIDITY")
    else if !Agrees(declared, Root(da * db) - MINIMUM_LIQUIDITY) then Err("pool_init founder-share mismatch")
    else Ok(Pool(true, da, db, Root(da * db), da * db, feeBps))
  }

  function OnAdd(s: Pool, da: int, db: int, declared: Option<int>): Result<Pool> {
    if da <= 0 || db <= 0 then Err("lp_add non-positive deltas")
    else if s.a <= 0 || s.b <= 0 || s.shares <= 0 then Err("cannot add to an empty pool")
    else
      var minted := AddShares(da, db, s.a, s.b, s.shares);
      if minted == 0 then Err("lp_add yields zero shares (dust add)")
      else if !Agrees(declared, minted) then Err("lp_add share mismatch")
      else Ok(s.(a := s.a + da, b := s.b + db, shares := s.shares + minted, kLast := (s.a + da) * (s.b + db)))
  }

  /** A swap that the curve cannot fill to its minimum leaves the pool as it is. */
  function OnSwap(s: Pool, direction: int, amountIn: int, minOut: Option<int>): Result<Pool> {
    if amountIn <= 0 then Err("swap non-positive deltaIn")
    else if s.a <= 0 || s.b <= 0 then Err("reserves must be > 0")
    else if s.feeBps > 1000 then Err("fee_bps out of range")
    else if s.a >= U64 || s.b >= U64 || amountIn >= U64 then Err("values must fit u64")
    else if direction != 0 && direction != 1 then Err("direction must be 0 or 1")
    else
      var out := if direction == 0 then CurveOut(s.a, s.b, amountIn, s.feeBps) else CurveOut(s.b, s.a, amountIn, s.feeBps);
      var a, b := if direction == 0 then s.a + amountIn else s.a - out, if direction == 0 then s.b - out else s.b + amountIn;
      if out >= U64 || a <= 0 || b <= 0 || a >= U64 || b >= U64 then Err("post-reserve out of range")
      else if out < (if minOut.Some? && minOut.value > 1 then minOut.value else 1) then Ok(s)
      else Ok(s.(a := a, b := b))
  }

  /** One hop of a route: declared amounts, accepted when they are on the curve's side of its floor. */
  function OnHop(s: Pool, hop: Hop): Result<Pool> {
    if hop.feeBps != s.feeBps then Err("hop fee_bps differs from the pool's")
    else if hop.aPre != s.a || hop.bPre != s.b then Err("hop pre-reserves differ from the replayed ones")
    else if hop.direction != 0 && hop.direction != 1 then Err("hop bad direction")
    else
      var forward := hop.direction == 0;
      var rIn, rOut := if forward then s.a else s.b, if forward then s.b else s.a;
      var dIn, dOut := if forward then hop.magA else hop.magB, if forward then hop.magB else hop.magA;
      if dIn <= 0 || dOut <= 0 then Err("hop non-positive delta")
      else if rOut < dOut then Err("hop takes more than the reserve")
      else if dOut * (rIn * 10000 + (10000 - s.feeBps) * dIn) > rOut * (10000 - s.feeBps) * dIn then Err("hop violates the curve floor")
      else Ok(if forward then s.(a := rIn + dIn, b := rOut - dOut) else s.(b := rIn + dIn, a := rOut - dOut))
  }

  function OnHops(s: Pool, hops: seq<Hop>): Result<Pool> {
    if hops == [] then Ok(s) else
    match OnHops(s, hops[..|hops| - 1])
    case Err(e) => Err(e)
    case Ok(mid) => OnHop(mid, hops[|hops| - 1])
  }

  function OnRemove(s: Pool, burned: int, outA: Option<int>, outB: Option<int>): Result<Pool> {
    if burned <= 0 || burned > s.shares - MINIMUM_LIQUIDITY then Err("lp_remove invalid burn")
    else if s.a < 0 || s.b < 0 then Err("cannot remove from a pool in debt")
    else
      var oA, oB := Payout(s.a, burned, s.shares), Payout(s.b, burned, s.shares);
      if !Agrees(outA, oA) || !Agrees(outB, oB) then Err("lp_remove output mismatch")
      else Ok(s.(a := s.a - oA, b := s.b - oB, shares := s.shares - burned, kLast := (s.a - oA) * (s.b - oB)))
  }

  function Apply(cfg: Config, s: Pool, op: Op): Result<Pool> {
    if op.Init? then OnInit(s, op.da, op.db, op.declared, op.feeBps)
    else if !s.live then Err("operation before pool_init")
    else match op
      case Add(da, db, declared) => OnAdd(Crystallize(cfg, s), da, db, declared)
      case Swap(direction, amountIn, minOut) => OnSwap(s, direction, amountIn, minOut)
      case Route(hops) => if hops == [] then Err("swap_route with no hops for this pool") else OnHops(s, hops)
      case Remove(burned, outA, outB) => OnRemove(Crystallize(cfg, s), burned, outA, outB)
      case FeeClaim => Ok(Crystallize(cfg, s))
      case Batch => Err("swap_batch requires Groth16 verification")
      case _ => Err("unknown op kind")
  }

  function Fold(cfg: Config, ops: seq<Op>): Result<Pool> {
    if ops == [] then Ok(EMPTY) else
    match Fold(cfg, ops[..|ops| - 1])
    case Err(e) => Err(e)
    case Ok(s) => Apply(cfg, s, ops[|ops| - 1])
  }

  /** The replay of a non-empty list. */
  function ReplayOf(cfg: Config, ops: seq<Op>): Result<Pool> {
    if ops == [] then Err("no ops") else Fold(cfg, ops)
  }

  // ----- the replay as it runs

  /** The mutable reserves, shares and checkpoint of one replay. */
  class Replay {
    const cfg: Config
    var live: bool
    var reserveA: int
    var reserveB: int
    var totalShares: int
    var kLast: int
    var poolFeeBps: nat

    constructor (cfg: Config)
      ensures this.cfg == cfg && Now() == EMPTY
    {
      this.cfg := cfg;
      live, reserveA, reserveB, totalShares, kLast, poolFeeBps := false, 0, 0, 0, 0, 0;
    }

    function Now(): Pool
      reads this
    {
      Pool(live, reserveA, reserveB, totalShares, kLast, poolFeeBps)
    }

    method Checkpoint()
      modifies this
      ensures Now() == Crystallize(cfg, old(Now()))
    {
      var kNow := reserveA * reserveB;
      if cfg.feeOn && cfg.feeBps > 0 && totalShares >= 0 && kLast >= 0 && kNow >= 0 {
        var minted := Mint(totalShares, kLast, kNow, cfg.feeBps);
        if minted > 0 {
          totalShares := totalShares + minted;
        }
      }
      kLast := kNow;
    }

    /** The hops of a route, one after another; the first refused one refuses the replay. */
    method RunHops(hops: seq<Hop>) returns (ok: Result<Pool>)
      modifies this
      ensures ok == OnHops(old(Now()), hops)
      ensures ok.Ok? ==> Now() == ok.value
    {
      var start := Now();
      for i := 0 to |hops|
        invariant OnHops(start, hops[..i]) == Ok(Now())
      {
        assert hops[..i + 1][..i] == hops[..i];
        var next := OnHop(Now(), hops[i]);
        if next.Err? {
          HopsFail(start, hops, i + 1);
          return next;
        }
        reserveA, reserveB := next.value.a, next.value.b;
      }
      assert hops[..|hops|] == hops;
      return Ok(Now());
    }

    method Take(s: Pool)
      modifies this
      ensures Now() == s
    {
      live, reserveA, reserveB, totalShares, kLast, poolFeeBps := s.live, s.a, s.b, s.shares, s.kLast, s.feeBps;
    }

    method RunOp(op: Op) returns (ok: Result<Pool>)
      modifies this
      ensures ok == Apply(cfg, old(Now()), op)
      ensures ok.Ok? ==> Now() == ok.value
    {
      if op.Init? {
        ok := OnInit(Now(), op.da, op.db, op.declared, op.feeBps);
      } else if !live {
        return Err("operation before pool_init");
      } else {
        match op {
          case Add(da, db, declared) =>
            Checkpoint();
            ok := OnAdd(Now(), da, db, declared);
          case Swap(direction, amountIn, minOut) =>
            ok := OnSwap(Now(), direction, amountIn, minOut);
          case Route(hops) =>
            if hops == [] {
              return Err("swap_route with no hops for this pool");
            }
            ok := RunHops(hops);
            return;
          case Remove(burned, outA, outB) =>
            Checkpoint();
            ok := OnRemove(Now(), burned, outA, outB);
          case FeeClaim =>
            Checkpoint();
            ok := Ok(Now());
          case Batch => return Err("swap_batch requires Groth16 verification");
          case _ => return Err("unknown op kind");
        }
      }
      if ok.Ok? {
        Take(ok.value);
      }
    }

    /** `replayAmmPoolState`. */
    method Run(ops: seq<Op>) returns (r: Result<Pool>)
      requires Now() == EMPTY
      modifies this
      ensures r == ReplayOf(cfg, ops)
    {
      if ops == [] {
        return Err("no ops");
      }
      for i := 0 to |ops|
        invariant Fold(cfg, ops[..i]) == Ok(Now())
      {
        assert ops[..i + 1][..i] == ops[..i];
        var ok := RunOp(ops[i]);
        if ok.Err? {
          FoldFails(cfg, ops, i + 1);
          return ok;
        }
      }
      assert ops[..|ops|] == ops;
      return Ok(Now());
    }
  }

  /** `computeProtocolShares`, with the roots found by Newton's loop. */
  method Mint(shares: nat, kPre: nat, kNow: nat, bps: nat) returns (minted: int)
    ensures minted == ProtocolShares(shares, kPre, kNow, bps)
  {
    if bps == 0 || kNow <= kPre || shares == 0 {
      return 0;
    }
    var rootPre := Newton(kPre);
    var rootNow := Newton(kNow);
    if rootNow <= rootPre {
      return 0;
    }
    return Dilution(shares, rootPre, rootNow, bps);
  }

  lemma {:induction false} HopsFail(s: Pool, hops: seq<Hop>, k: nat)
    requires k <= |hops| && OnHops(s, hops[..k]).Err?
    ensures OnHops(s, hops) == OnHops(s, hops[..k])
  {
    if k == |hops| {
      assert hops[..k] == hops;
    } else {
      assert hops[..|hops| - 1][..k] == hops[..k];
      HopsFail(s, hops[..|hops| - 1], k);
    }
  }

  lemma {:induction false} FoldFails(cfg: Config, ops: seq<Op>, k: nat)
    requires k <= |ops| && Fold(cfg, ops[..k]).Err?
    ensures Fold(cfg, ops) == Fold(cfg, ops[..k])
  {
    if k == |ops| {
      assert ops[..k] == ops;
    } else {
      assert ops[..|ops| - 1][..k] == ops[..k];
      FoldFails(cfg, ops[..|ops| - 1], k);
    }
  }
}
