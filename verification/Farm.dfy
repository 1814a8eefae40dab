/** The farm accumulator (dapp/amm-envelope.js crystallizeFarm) and the positions that draw on it
    (worker/src/index.js bond, harvest, unbond): rewards per share in 2^-96 units, floored at every update. */
module Farm {
  import opened Wrappers

  const ONE := 0x1_000000000000_000000000000  // 2^96

  const MIN_BOND := 1000

  /** Blocks after the end before the launcher may take the rest. */
  const GRACE := 1008

  datatype State = State(start: int, end: int, rewardPerBlock: nat, bonded: nat, acc: nat, last: int)

  /** Blocks of the schedule already accounted for. */
  function Elapsed(f: State): nat {
    if f.last < f.start then 0 else f.last - f.start
  }

  function Clamp(f: State, height: int): int {
    if height > f.end then f.end else height
  }

  /** The schedule's rewards for some blocks, in 2^-96 units. */
  function Units(blocks: nat, rewardPerBlock: nat): nat {
    blocks * rewardPerBlock * ONE
  }

  function PerShare(units: nat, bonded: nat): (q: nat)
    requires bonded > 0
    ensures q * bonded <= units < (q + 1) * bonded
  {
    units / bonded
  }

  /** One update: what is due since the last one, per bonded share. */
  function Crystallized(f: State, height: int): State {
    var h := Clamp(f, height);
    if h <= f.last then f
    else if h < f.start then f.(last := h)
    else
      var baseline := if f.last < f.start then f.start else f.last;
      var elapsed: nat := h - baseline;
      var gained := if f.bonded > 0 && elapsed > 0 then PerShare(Units(elapsed, f.rewardPerBlock), f.bonded) else 0;
      f.(acc := f.acc + gained, last := h)
  }

  /** The record, updated in place. */
  class Record {
    const start: int
    const end: int
    const rewardPerBlock: nat
    var bonded: nat
    var acc: nat
    var last: int

    constructor (start: int, end: int, rewardPerBlock: nat)
      ensures Now() == State(start, end, rewardPerBlock, 0, 0, start)
    {
      this.start, this.end, this.rewardPerBlock := start, end, rewardPerBlock;
      bonded, acc, last := 0, 0, start;
    }

    function Now(): State
      reads this
    {
      State(start, end, rewardPerBlock, bonded, acc, last)
    }

    /** `crystallizeFarm`. */
    method Crystallize(currentHeight: int)
      modifies this`acc, this`last
      ensures Now() == Crystallized(old(Now()), currentHeight)
    {
      var h := if currentHeight > end then end else currentHeight;
      if h <= last {
        return;
      }
      if h < start {
        last := h;
        return;
      }
      var baseline := if last < start then start else last;
      var elapsed: nat := h - baseline;
      if bonded > 0 && elapsed > 0 {
        acc := acc + PerShare(Units(elapsed, rewardPerBlock), bonded);
      }
      last := h;
    }
  }

  // ----- one update

  /** What the schedule had to give so far. */
  function Budget(f: State): nat {
    Units(Elapsed(f), f.rewardPerBlock)
  }

  lemma UnitsAdd(x: nat, y: nat, r: nat)
    ensures Units(x + y, r) == Units(x, r) + Units(y, r) && Units(0, r) == 0
  {
    assert (x + y) * r == x * r + y * r;
  }

  lemma Moved(f: State, height: int)
    ensures var f' := Crystallized(f, height);
            && f' == f.(acc := f'.acc, last := f'.last) && f'.last >= f.last && Elapsed(f') >= Elapsed(f)
            && (f.last <= f.end ==> f'.last <= f.end)
            && f'.acc == f.acc + (if f.bonded > 0 && Elapsed(f') > Elapsed(f)
                                  then PerShare(Units(Elapsed(f') - Elapsed(f), f.rewardPerBlock), f.bonded) else 0)
  {
  }

  /** An update gives each share its part of the new budget, short by less than one unit and never over. */
  lemma UpdateBounds(f: State, height: int)
    ensures var f' := Crystallized(f, height);
            && f' == f.(acc := f'.acc, last := f'.last)
            && f'.acc >= f.acc && f'.last >= f.last && Budget(f') >= Budget(f)
            && (f'.acc - f.acc) * f.bonded <= Budget(f') - Budget(f)
            && (f.bonded > 0 ==> Budget(f') - Budget(f) < (f'.acc - f.acc + 1) * f.bonded)
            && (f.last <= f.end ==> f'.last <= f.end)
  {
    Moved(f, height);
    var f' := Crystallized(f, height);
    UnitsAdd(Elapsed(f), Elapsed(f') - Elapsed(f), f.rewardPerBlock);
  }

  /** Blocks of the schedule between two heights. */
  function BlocksBetween(start: int, from: int, to: int): nat {
    var begin := if from < start then start else from;
    if to < begin then 0 else to - begin
  }

  /** Every update reaches its height, or the end if that comes first, and never goes back; and it gives each share the
      floor of its part of the rewards of the blocks in between. */
  lemma UpdateExactly(f: State, height: int, gained: int)
    requires f.bonded > 0 ==>
               var reached := if height < f.end then height else f.end;
               var units := BlocksBetween(f.start, f.last, reached) * f.rewardPerBlock * 0x1_000000000000_000000000000;
               gained * f.bonded <= units < (gained + 1) * f.bonded
    ensures var f', reached := Crystallized(f, height), if height < f.end then height else f.end;
            && f'.last == (if reached > f.last then reached else f.last)
            && f'.acc == f.acc + (if f.bonded > 0 then gained else 0)
            && f' == f.(acc := f'.acc, last := f'.last)
  {
    var reached := if height < f.end then height else f.end;
    var blocks := BlocksBetween(f.start, f.last, reached);
    Moved(f, height);
    if f.bonded > 0 {
      if blocks == 0 {
        UnitsAdd(0, 0, f.rewardPerBlock);
        assert gained == 0 by { SameFloor(gained, 0, Units(0, f.rewardPerBlock), f.bonded); }
      } else {
        var units := Units(blocks, f.rewardPerBlock);
        SameFloor(gained, PerShare(units, f.bonded), units, f.bonded);
      }
    }
  }

  lemma SameFloor(x: int, y: int, num: int, den: int)
    requires den > 0 && x * den <= num < (x + 1) * den && y * den <= num < (y + 1) * den
    ensures x == y
  {
    if x < y {
      Ahead(x + 1, y, den);
    } else if y < x {
      Ahead(y + 1, x, den);
    }
  }

  lemma Ahead(x: int, y: int, z: int)
    requires x <= y && z > 0
    ensures x * z <= y * z
  {
    assert (y - x) * z >= 0;
    assert y * z == x * z + (y - x) * z;
  }

  // ----- many updates

  /** Updates at a list of heights, in whatever order they come, with the stake left alone. */
  function Updated(f: State, heights: seq<int>): State {
    if heights == [] then f else Crystallized(Updated(f, heights[..|heights| - 1]), heights[|heights| - 1])
  }

  lemma {:induction false} UpdatesBound(f: State, heights: seq<int>)
    requires f.bonded > 0
    ensures var f' := Updated(f, heights);
            && f' == f.(acc := f'.acc, last := f'.last)
            && f'.acc >= f.acc && f'.last >= f.last && Budget(f') >= Budget(f)
            && (f'.acc - f.acc) * f.bonded <= Budget(f') - Budget(f)
            && (heights != [] ==> Budget(f') - Budget(f) < (f'.acc - f.acc + |heights|) * f.bonded)
  {
    if heights != [] {
      var before, h := heights[..|heights| - 1], heights[|heights| - 1];
      var m, f' := Updated(f, before), Updated(f, heights);
      UpdatesBound(f, before);
      UpdateBounds(m, h);
      assert (f'.acc - f.acc) * f.bonded == (m.acc - f.acc) * f.bonded + (f'.acc - m.acc) * f.bonded;
      var n: int := |before|;
      assert (f'.acc - f.acc + n + 1) * f.bonded == (m.acc - f.acc + n) * f.bonded + (f'.acc - m.acc + 1) * f.bonded;
      assert n == 0 ==> Budget(m) - Budget(f) == 0;
    }
  }

  lemma CancelStrict(x: int, y: int, z: int)
    requires z > 0 && x * z < y * z
    ensures x < y
  {
    assert (y - x) * z == y * z - x * z;
  }

  /** From f to g, each share got its part of the budget to within n units. */
  ghost predicate Within(f: State, g: State, n: nat) {
    && g == f.(acc := g.acc, last := g.last)
    && (g.acc - f.acc) * f.bonded <= Budget(g) - Budget(f) < (g.acc - f.acc + n) * f.bonded
  }

  /** Two counts of the same budget, one floored n times and one floored once. */
  lemma Squeeze(f: State, many: State, once: State, n: nat)
    requires f.bonded > 0 && Within(f, many, n) && Within(f, once, 1) && many.last == once.last
    ensures many.acc <= once.acc <= many.acc + n - 1
  {
    assert Budget(many) == Budget(once);
    CancelStrict(many.acc - f.acc, once.acc - f.acc + 1, f.bonded);
    CancelStrict(once.acc - f.acc, many.acc - f.acc + n, f.bonded);
  }

  lemma ManyWithin(f: State, heights: seq<int>)
    requires f.bonded > 0 && heights != []
    ensures Within(f, Updated(f, heights), |heights|)
  {
    UpdatesBound(f, heights);
  }

  lemma OneWithin(f: State, height: int)
    requires f.bonded > 0
    ensures Within(f, Crystallized(f, height), 1)
  {
    UpdateBounds(f, height);
  }

  /** Updates at heights up to one reach no further than an update at that one, and as far if it is among them. */
  lemma {:induction false} UpdatedReaches(f: State, heights: seq<int>, height: int)
    requires forall i :: 0 <= i < |heights| ==> heights[i] <= height
    ensures var f' := Updated(f, heights);
            && f' == f.(acc := f'.acc, last := f'.last) && f.last <= f'.last <= Crystallized(f, height).last
            && (height in heights ==> f'.last == Crystallized(f, height).last)
  {
    if heights != [] {
      var before, h := heights[..|heights| - 1], heights[|heights| - 1];
      UpdatedReaches(f, before, height);
      assert height in heights ==> height in before || height == h;
    }
  }

  /** n updates, in any order and the highest at some height, land at most n - 1 units below the one update to that height
      and never above. */
  lemma ManyAgainstOne(f: State, heights: seq<int>, height: int)
    requires f.bonded > 0 && height in heights && forall i :: 0 <= i < |heights| ==> heights[i] <= height
    ensures var many, once := Updated(f, heights), Crystallized(f, height);
            many.last == once.last && many.acc <= once.acc <= many.acc + |heights| - 1
  {
    UpdatedReaches(f, heights, height);
    ManyWithin(f, heights);
    OneWithin(f, height);
    Squeeze(f, Updated(f, heights), Crystallized(f, height), |heights|);
  }

  /** A stake change, then an update. */
  datatype Touch = Touch(height: int, bonded: nat)

  /** What the updates hand out in all: the sum of accDelta · bonded. */
  function HandedOut(f: State, touches: seq<Touch>): (State, int) {
    if touches == [] then (f, 0) else
    var (m, sum) := HandedOut(f, touches[..|touches| - 1]);
    var t := touches[|touches| - 1];
    var f' := Crystallized(m.(bonded := t.bonded), t.height);
    (f', sum + (f'.acc - m.acc) * t.bonded)
  }

  /** For any heights and any changes of stake: nothing goes down, and no more is handed out than the schedule
      holds. */
  lemma {:induction false} NeverOverspends(f: State, touches: seq<Touch>)
    requires f.last <= f.end && f.start <= f.end
    ensures var (f', sum) := HandedOut(f, touches);
            && f' == f.(bonded := f'.bonded, acc := f'.acc, last := f'.last)
            && f'.acc >= f.acc && f.last <= f'.last <= f.end
            && sum <= Budget(f') - Budget(f)
            && Budget(f') <= Units(f.end - f.start, f.rewardPerBlock)
  {
    if touches != [] {
      var before, t := touches[..|touches| - 1], touches[|touches| - 1];
      NeverOverspends(f, before);
      var m := HandedOut(f, before).0;
      UpdateBounds(m.(bonded := t.bonded), t.height);
    }
    var f' := HandedOut(f, touches).0;
    BudgetCap(f');
  }

  lemma BudgetCap(f: State)
    requires f.last <= f.end && f.start <= f.end
    ensures Budget(f) <= Units(f.end - f.start, f.rewardPerBlock)
  {
    UnitsAdd(Elapsed(f), (f.end - f.start) - Elapsed(f), f.rewardPerBlock);
  }

  // ----- positions

  /** A position: its shares and the accumulator it was last settled at. A closed one holds no shares. */
  datatype Bond = Bond(shares: nat, entry: nat)

  /** The farm, its positions in the order they were opened, what it has paid, and what its launcher took back. */
  datatype Book = Book(farm: State, bonds: seq<Bond>, paid: nat, refund: Option<nat>)

  function Shares(bonds: seq<Bond>): nat {
    if bonds == [] then 0 else Shares(bonds[..|bonds| - 1]) + bonds[|bonds| - 1].shares
  }

  /** What the open positions have accrued and not drawn. */
  function Due(bonds: seq<Bond>, acc: int): int {
    if bonds == [] then 0 else Due(bonds[..|bonds| - 1], acc) + bonds[|bonds| - 1].shares * (acc - bonds[|bonds| - 1].entry)
  }

  /** `treasury_remaining`. */
  function Treasury(b: Book): int {
    (b.farm.end - b.farm.start) * b.farm.rewardPerBlock - b.paid - if b.refund.Some? then b.refund.value else 0
  }

  datatype Action =
    | Open(height: int, shares: nat)
    | Harvest(height: int, id: nat, reward: nat)
    | Close(height: int, id: nat)
    | Refund(height: int, amount: nat)

  /** What a harvest may draw: the shares' accrual since their entry. */
  predicate Accrued(f: State, bond: Bond, reward: nat) {
    var window := if f.acc > bond.entry then f.acc - bond.entry else 0;
    reward * ONE <= bond.shares * window
  }

  /** The worker's indexing of one transaction; what it does not accept changes nothing. */
  function Index(b: Book, a: Action): Book {
    var f := Crystallized(b.farm, a.height);
    match a
    case Open(height, shares) =>
      if height >= b.farm.end || shares < MIN_BOND then b
      else b.(farm := f.(bonded := f.bonded + shares), bonds := b.bonds + [Bond(shares, f.acc)])
    case Harvest(_, id, reward) =>
      if id >= |b.bonds| || b.bonds[id].shares == 0 || reward > Treasury(b) || !Accrued(f, b.bonds[id], reward) then b
      else b.(farm := f, bonds := b.bonds[id := b.bonds[id].(entry := f.acc)], paid := b.paid + reward)
    case Close(_, id) =>
      if id >= |b.bonds| || b.bonds[id].shares == 0 || b.bonds[id].shares > f.bonded then b
      else b.(farm := f.(bonded := f.bonded - b.bonds[id].shares), bonds := b.bonds[id := Bond(0, f.acc)])
    case Refund(_, amount) =>
      if b.refund.Some? || a.height - 3 < b.farm.end + GRACE || amount != Treasury(b) || amount == 0 then b
      else b.(refund := Some(amount))
  }

  ghost predicate Inv(b: Book) {
    && b.farm.start <= b.farm.last <= b.farm.end
    && Shares(b.bonds) == b.farm.bonded
    && (forall i :: 0 <= i < |b.bonds| ==> b.bonds[i].entry <= b.farm.acc)
    && b.paid * ONE + Due(b.bonds, b.farm.acc) <= Budget(b.farm)
    && (b.refund.Some? ==> Treasury(b) == 0)
  }

  lemma {:induction false} DueGrows(bonds: seq<Bond>, acc: nat, gained: nat)
    ensures Due(bonds, acc + gained) == Due(bonds, acc) + gained * Shares(bonds)
  {
    if bonds != [] {
      var front, last := bonds[..|bonds| - 1], bonds[|bonds| - 1];
      DueGrows(front, acc, gained);
      assert last.shares * (acc + gained - last.entry) == last.shares * (acc - last.entry) + gained * last.shares;
      assert gained * (Shares(front) + last.shares) == gained * Shares(front) + gained * last.shares;
    }
  }

  lemma {:induction false} Replaced(bonds: seq<Bond>, i: nat, bond: Bond, acc: nat)
    requires i < |bonds|
    ensures Shares(bonds[i := bond]) == Shares(bonds) - bonds[i].shares + bond.shares
    ensures Due(bonds[i := bond], acc)
            == Due(bonds, acc) - bonds[i].shares * (acc - bonds[i].entry) + bond.shares * (acc - bond.entry)
  {
    var front := bonds[..|bonds| - 1];
    if i == |bonds| - 1 {
      assert bonds[i := bond][..|bonds| - 1] == front;
    } else {
      assert bonds[i := bond][..|bonds| - 1] == front[i := bond];
      Replaced(front, i, bond, acc);
    }
  }

  lemma {:induction false} DueIsPositive(bonds: seq<Bond>, acc: nat)
    requires forall i :: 0 <= i < |bonds| ==> bonds[i].entry <= acc
    ensures Due(bonds, acc) >= 0
    ensures forall i :: 0 <= i < |bonds| ==> bonds[i].shares * (acc - bonds[i].entry) <= Due(bonds, acc)
  {
    if bonds != [] {
      var front, last := bonds[..|bonds| - 1], bonds[|bonds| - 1];
      DueIsPositive(front, acc);
      assert last.shares * (acc - last.entry) >= 0;
      assert forall i :: 0 <= i < |front| ==> bonds[i] == front[i];
    }
  }

  /** Crystallizing moves budget to the positions, never more than there was. */
  lemma CrystallizeKeeps(b: Book, height: int)
    requires Inv(b)
    ensures Inv(b.(farm := Crystallized(b.farm, height)))
  {
    var f' := Crystallized(b.farm, height);
    UpdateBounds(b.farm, height);
    DueGrows(b.bonds, b.farm.acc, f'.acc - b.farm.acc);
    assert b.farm.acc + (f'.acc - b.farm.acc) == f'.acc;
  }

  lemma NonNegative(x: nat, y: nat)
    ensures x * y >= 0 && 0 * y == 0
  {
  }

  lemma OpenKeeps(b: Book, shares: nat)
    requires Inv(b)
    ensures Inv(b.(farm := b.farm.(bonded := b.farm.bonded + shares), bonds := b.bonds + [Bond(shares, b.farm.acc)]))
  {
    assert (b.bonds + [Bond(shares, b.farm.acc)])[..|b.bonds|] == b.bonds;
  }

  lemma HarvestKeeps(b: Book, id: nat, reward: nat)
    requires Inv(b) && id < |b.bonds| && Accrued(b.farm, b.bonds[id], reward)
    requires reward <= Treasury(b)
    ensures Inv(b.(bonds := b.bonds[id := b.bonds[id].(entry := b.farm.acc)], paid := b.paid + reward))
  {
    Replaced(b.bonds, id, b.bonds[id].(entry := b.farm.acc), b.farm.acc);
  }

  lemma CloseKeeps(b: Book, id: nat)
    requires Inv(b) && id < |b.bonds| && b.bonds[id].shares <= b.farm.bonded
    ensures Inv(b.(farm := b.farm.(bonded := b.farm.bonded - b.bonds[id].shares), bonds := b.bonds[id := Bond(0, b.farm.acc)]))
  {
    Replaced(b.bonds, id, Bond(0, b.farm.acc), b.farm.acc);
    DueIsPositive(b.bonds, b.farm.acc);
    NonNegative(b.bonds[id].shares, b.farm.acc - b.bonds[id].entry);
  }

  lemma IndexKeeps(b: Book, a: Action)
    requires Inv(b)
    ensures Inv(Index(b, a))
  {
    CrystallizeKeeps(b, a.height);
    var c := b.(farm := Crystallized(b.farm, a.height));
    if Index(b, a) != b {
      match a
      case Open(_, shares) => OpenKeeps(c, shares);
      case Harvest(_, id, reward) => HarvestKeeps(c, id, reward);
      case Close(_, id) => CloseKeeps(c, id);
      case Refund(_, _) =>
    }
  }

  function Run(start: int, end: int, rewardPerBlock: nat, actions: seq<Action>): Book {
    if actions == [] then Book(State(start, end, rewardPerBlock, 0, 0, start), [], 0, None)
    else Index(Run(start, end, rewardPerBlock, actions[..|actions| - 1]), actions[|actions| - 1])
  }

  lemma {:induction false} RunKeeps(start: int, end: int, rewardPerBlock: nat, actions: seq<Action>)
    requires start <= end
    ensures var b := Run(start, end, rewardPerBlock, actions);
            Inv(b) && b.farm.start == start && b.farm.end == end && b.farm.rewardPerBlock == rewardPerBlock
  {
    if actions != [] {
      RunKeeps(start, end, rewardPerBlock, actions[..|actions| - 1]);
      IndexKeeps(Run(start, end, rewardPerBlock, actions[..|actions| - 1]), actions[|actions| - 1]);
    }
  }

  /** The book brought up to a height, as each operation finds it. */
  function AsOf(b: Book, height: int): Book {
    b.(farm := Crystallized(b.farm, height))
  }

  /** Every harvest within its accrual is within the treasury. */
  ghost predicate Solvent(b: Book) {
    forall id, reward: nat :: 0 <= id < |b.bonds| && Accrued(b.farm, b.bonds[id], reward) ==> reward <= Treasury(b)
  }

  /** No position has a whole unit of reward to draw. */
  predicate NothingWholeDue(b: Book) {
    forall id :: 0 <= id < |b.bonds| ==> b.bonds[id].shares * (b.farm.acc - b.bonds[id].entry) < ONE
  }

  /** Rewards paid, refunded and left. */
  function Rewards(b: Book): int {
    b.paid + (if b.refund.Some? then b.refund.value else 0) + Treasury(b)
  }

  lemma WholeIsAccrued(f: State, bond: Bond)
    requires bond.entry <= f.acc
    ensures Accrued(f, bond, 1) <==> bond.shares * (f.acc - bond.entry) >= ONE
    ensures forall reward: nat :: Accrued(f, bond, reward) && reward > 0 ==> Accrued(f, bond, 1)
  {
    NonNegative(bond.shares, f.acc - bond.entry);
    assert f.acc == bond.entry ==> bond.shares * (f.acc - bond.entry) == 0;
  }

  /** Solvency: after any run, at any height, until the launcher's refund the treasury holds at least what every open
      position together has accrued. So a harvest within its accrual is never turned away for want of funds, exactly as
      long as no refund is indexed or no position has a whole unit to draw; and rewards paid, refunded and left are
      always those of the schedule. */
  lemma FarmIsSolvent(start: int, end: int, rewardPerBlock: nat, actions: seq<Action>, height: int)
    requires start <= end
    ensures var b := AsOf(Run(start, end, rewardPerBlock, actions), height);
            && Treasury(b) >= 0
            && (b.refund.None? ==> Due(b.bonds, b.farm.acc) <= Treasury(b) * ONE)
            && (Solvent(b) <==> b.refund.None? || NothingWholeDue(b))
            && Rewards(b) == (end - start) * rewardPerBlock
  {
    RunKeeps(start, end, rewardPerBlock, actions);
    var b := Run(start, end, rewardPerBlock, actions);
    CrystallizeKeeps(b, height);
    UpdateBounds(b.farm, height);
    SolventExactly(AsOf(b, height));
  }

  lemma SolventExactly(b: Book)
    requires Inv(b)
    ensures Treasury(b) >= 0
    ensures b.refund.None? ==> Due(b.bonds, b.farm.acc) <= Treasury(b) * ONE
    ensures Solvent(b) <==> b.refund.None? || NothingWholeDue(b)
  {
    if b.refund.None? {
      CoversAll(b);
    } else {
      RefundedCoversNone(b);
    }
  }

  /** Before a refund the treasury covers what all positions have accrued together, and so what each has. */
  lemma CoversAll(b: Book)
    requires Inv(b) && b.refund.None?
    ensures Treasury(b) >= 0 && Due(b.bonds, b.farm.acc) <= Treasury(b) * ONE && Solvent(b)
  {
    BudgetCap(b.farm);
    DueIsPositive(b.bonds, b.farm.acc);
    assert Treasury(b) * ONE == Units(b.farm.end - b.farm.start, b.farm.rewardPerBlock) - b.paid * ONE;
    forall id, reward: nat | 0 <= id < |b.bonds| && Accrued(b.farm, b.bonds[id], reward)
      ensures reward <= Treasury(b)
    {
      assert b.bonds[id].shares * (b.farm.acc - b.bonds[id].entry) <= Due(b.bonds, b.farm.acc);
    }
  }

  /** After one it covers nothing. */
  lemma RefundedCoversNone(b: Book)
    requires Inv(b) && b.refund.Some?
    ensures Solvent(b) <==> NothingWholeDue(b)
  {
    forall id | 0 <= id < |b.bonds|
      ensures Accrued(b.farm, b.bonds[id], 1) <==> b.bonds[id].shares * (b.farm.acc - b.bonds[id].entry) >= ONE
      ensures forall reward: nat :: Accrued(b.farm, b.bonds[id], reward) && reward > 0 ==> Accrued(b.farm, b.bonds[id], 1)
    {
      WholeIsAccrued(b.farm, b.bonds[id]);
    }
  }

  /** What each transaction does to the book, in the worker's own terms: `acc` is the accumulator brought up to the block. */
  lemma IndexExactly(b: Book, height: int)
    ensures forall shares: nat ::
              Index(b, Open(height, shares)) ==
                if height < b.farm.end && shares >= 1000
                then var c := AsOf(b, height);
                     c.(farm := c.farm.(bonded := b.farm.bonded + shares), bonds := b.bonds + [Bond(shares, c.farm.acc)])
                else b
    ensures forall id: nat, reward: nat {:trigger Harvest(height, id, reward)} ::
              Index(b, Harvest(height, id, reward)) ==
                var c := AsOf(b, height);
                if id < |b.bonds| && b.bonds[id].shares > 0 && reward <= Treasury(b)
                   && (reward == 0 || reward * ONE <= b.bonds[id].shares * (c.farm.acc - b.bonds[id].entry))
                then c.(bonds := b.bonds[id := Bond(b.bonds[id].shares, c.farm.acc)], paid := b.paid + reward)
                else b
    ensures forall amount: nat ::
              Index(b, Refund(height, amount)) ==
                if b.refund.None? && height >= b.farm.end + 1011 && amount == Treasury(b) && amount > 0
                then b.(refund := Some(amount)) else b
  {
    Moved(b.farm, height);
    var acc := Crystallized(b.farm, height).acc;
    forall id: nat, reward: nat | id < |b.bonds|
      ensures Accrued(Crystallized(b.farm, height), b.bonds[id], reward)
              <==> reward == 0 || reward * ONE <= b.bonds[id].shares * (acc - b.bonds[id].entry)
    {
      AccruedIs(Crystallized(b.farm, height), b.bonds[id], reward);
    }
  }

  lemma AccruedIs(f: State, bond: Bond, reward: nat)
    ensures Accrued(f, bond, reward) <==> reward == 0 || reward * ONE <= bond.shares * (f.acc - bond.entry)
  {
    NonNegative(bond.shares, if f.acc > bond.entry then f.acc - bond.entry else 0);
    if f.acc <= bond.entry {
      NonNegative(bond.shares, bond.entry - f.acc);
      assert bond.shares * (f.acc - bond.entry) == -(bond.shares * (bond.entry - f.acc));
      assert bond.shares * 0 == 0;
    }
  }

  /** So, after any run without a refund, an open position is paid whatever it asks of what it has accrued, and only that;
      what it was paid for is then drawn. */
  lemma HarvestIsPaid(start: int, end: int, rewardPerBlock: nat, actions: seq<Action>, height: int, id: nat, reward: nat)
    requires start <= end
    requires var b := Run(start, end, rewardPerBlock, actions); b.refund.None? && id < |b.bonds| && b.bonds[id].shares > 0
    ensures var b := Run(start, end, rewardPerBlock, actions);
            var c, b' := AsOf(b, height), Index(b, Harvest(height, id, reward));
            if reward * ONE <= b.bonds[id].shares * (c.farm.acc - b.bonds[id].entry)
            then b' == c.(bonds := b.bonds[id := Bond(b.bonds[id].shares, c.farm.acc)], paid := b.paid + reward)
            else b' == b
  {
    var b := Run(start, end, rewardPerBlock, actions);
    RunKeeps(start, end, rewardPerBlock, actions);
    FarmIsSolvent(start, end, rewardPerBlock, actions, height);
    CrystallizeKeeps(b, height);
    UpdateBounds(b.farm, height);
    AccruedIs(AsOf(b, height).farm, b.bonds[id], reward);
    NonNegative(b.bonds[id].shares, AsOf(b, height).farm.acc - b.bonds[id].entry);
    assert Treasury(AsOf(b, height)) == Treasury(b);
  }

  /** And closing an open position takes its shares out of the stake, always; a closed one stays closed. */
  lemma CloseExactly(start: int, end: int, rewardPerBlock: nat, actions: seq<Action>, height: int, id: nat)
    requires start <= end
    ensures var b := Run(start, end, rewardPerBlock, actions);
            var c, b' := AsOf(b, height), Index(b, Close(height, id));
            if id < |b.bonds| && b.bonds[id].shares > 0
            then b.farm.bonded >= b.bonds[id].shares
                 && b' == c.(farm := c.farm.(bonded := b.farm.bonded - b.bonds[id].shares), bonds := b.bonds[id := Bond(0, c.farm.acc)])
            else b' == b
  {
    var b := Run(start, end, rewardPerBlock, actions);
    RunKeeps(start, end, rewardPerBlock, actions);
    Moved(b.farm, height);
    if id < |b.bonds| {
      Replaced(b.bonds, id, Bond(0, 0), 0);
    }
  }

  /** 1024 shares divide the schedule's units without a rest. */
  lemma SharesEvenly(total: nat, q: nat)
    requires q * 1024 <= total * ONE < (q + 1) * 1024
    ensures q * 1024 == total * ONE
  {
    var part := 0x400000_0000000000000000;  // 2^86
    assert ONE == 1024 * part;
    assert total * ONE == 1024 * (total * part);
  }

  /** And a refund does strand rewards: on every schedule that pays anything, a sole position that waits past the grace
      window has all of them accrued, and after the launcher's refund each of its harvests is turned away. */
  lemma RefundStrands(start: int, end: int, rewardPerBlock: nat, height: int, reward: nat)
    requires start < end && rewardPerBlock > 0 && reward > 0
    requires reward <= (end - start) * rewardPerBlock
    ensures var total := (end - start) * rewardPerBlock;
            var b := Run(start, end, rewardPerBlock, [Open(start, 1024), Refund(end + GRACE + 3, total)]);
            && b.refund == Some(total) && |b.bonds| == 1
            && Accrued(AsOf(b, end).farm, b.bonds[0], reward)
            && Index(b, Harvest(height, 0, reward)) == b
  {
    var total := (end - start) * rewardPerBlock;
    var open, refund := Open(start, 1024), Refund(end + GRACE + 3, total);
    assert [open, refund][..1] == [open] && [open][..0] == [];
    var b0 := Run(start, end, rewardPerBlock, []);
    assert total > 0;
    var b1 := Book(State(start, end, rewardPerBlock, 1024, 0, start), [Bond(1024, 0)], 0, None);
    assert Crystallized(b0.farm, start) == b0.farm;
    assert [] + [Bond(1024, 0)] == [Bond(1024, 0)];
    assert Index(b0, open) == b1;
    assert Treasury(b1) == total;
    assert Index(b1, refund) == b1.(refund := Some(total));
    assert Run(start, end, rewardPerBlock, [open]) == b1;
    assert [open, refund][..|[open, refund]| - 1] == [open];
    var b := Run(start, end, rewardPerBlock, [open, refund]);
    assert b == b1.(refund := Some(total));
    var q := PerShare(Units(end - start, rewardPerBlock), 1024);
    SharesEvenly(total, q);
    assert Crystallized(b.farm, end).acc == q;
    assert reward * ONE <= total * ONE;
  }

  /** A harvest repeated at the same height draws nothing more. */
  lemma HarvestOnce(b: Book, height: int, id: nat, reward: nat, again: nat)
    requires id < |b.bonds| && Index(b, Harvest(height, id, reward)) != b
    ensures var b' := Index(b, Harvest(height, id, reward));
            again > 0 ==> Index(b', Harvest(height, id, again)) == b'
  {
    UpdateBounds(b.farm, height);
    var b' := Index(b, Harvest(height, id, reward));
    assert Crystallized(b'.farm, height) == b'.farm;
  }
}
