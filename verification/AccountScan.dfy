/** Rebuilding an account of the association pool from its events (dapp/assoc-pool.js scan, nextIndex, planWithdraw):
    deposits are found by index, and the withdrawals of each are followed by their nullifiers. */
module AccountScan {
  import opened Wrappers

  const MISS_LIMIT := 10

  /** The key-dependent hashes: nullifier and secret for (scope or lbl, index); precommitment, commitment and
      nullifier hash. */
  datatype Keys = Keys(
    nf: (int, int) -> int, sec: (int, int) -> int, pre: (int, int) -> int, com: (int, int, int) -> int, nfh: int -> int)

  ghost predicate Injective(k: Keys) {
    && (forall a, b, c, d :: k.nf(a, b) == k.nf(c, d) ==> a == c && b == d)
    && (forall a, b, c, d :: k.pre(a, b) == k.pre(c, d) ==> a == c && b == d)
    && (forall a, b :: k.nfh(a) == k.nfh(b) ==> a == b)
  }

  /** A deposit event; `at` orders events on the chain. */
  datatype Dep = Dep(pre: int, lbl: int, value: int, commitment: int, at: int)

  datatype Wd = Wd(spent: int, value: int, newCommitment: int)

  datatype Note = Note(value: int, lbl: int, nullifier: int, secret: int, commitment: int)

  datatype Found = Found(index: nat, lbl: int, deposit: Note, children: seq<Note>, foreign: bool, quit: bool)

  /** The note a next spend consumes. */
  function Last(f: Found): Note {
    if f.children == [] then f.deposit else f.children[|f.children| - 1]
  }

  function MakeNote(k: Keys, value: int, lbl: int, x: int, i: int): Note {
    Note(value, lbl, k.nf(x, i), k.sec(x, i), k.com(value, lbl, k.pre(k.nf(x, i), k.sec(x, i))))
  }

  function PreOf(k: Keys, scope: int, i: int): int {
    k.pre(k.nf(scope, i), k.sec(scope, i))
  }

  /** The earliest deposit for each precommitment. */
  function ByPre(ds: seq<Dep>): map<int, Dep> {
    if ds == [] then map[] else
    var m, d := ByPre(ds[..|ds| - 1]), ds[|ds| - 1];
    if d.pre in m && m[d.pre].at <= d.at then m else m[d.pre := d]
  }

  function ByNf(ws: seq<Wd>): map<int, Wd> {
    if ws == [] then map[] else ByNf(ws[..|ws| - 1])[ws[|ws| - 1].spent := ws[|ws| - 1]]
  }

  // ----- what is still ahead, so that both searches end

  lemma {:induction false} Subsets(xs: set<int>, ys: set<int>)
    requires xs <= ys
    ensures |xs| <= |ys|
    decreases |xs|
  {
    if !exists x :: x in xs {
      assert xs == {};
    } else {
      var x :| x in xs;
      Subsets(xs - {x}, ys - {x});
    }
  }

  lemma StrictSubset(xs: set<int>, ys: set<int>, y: int)
    requires xs <= ys && y in ys && y !in xs
    ensures |xs| < |ys|
  {
    Subsets(xs, ys - {y});
  }

  ghost function NfAhead(k: Keys, byNf: map<int, Wd>, lbl: int, j: nat): set<int> {
    set x | x in byNf.Keys && (exists i: nat :: i >= j && x == k.nfh(k.nf(lbl, i)))
  }

  ghost function PreAhead(k: Keys, byPre: map<int, Dep>, scope: int, j: nat): set<int> {
    set x | x in byPre.Keys && (exists i: nat :: i >= j && x == PreOf(k, scope, i))
  }

  lemma NfPassed(k: Keys, byNf: map<int, Wd>, lbl: int, j: nat)
    requires Injective(k)
    ensures j > 0 && k.nfh(k.nf(lbl, j - 1)) in byNf ==> |NfAhead(k, byNf, lbl, j)| < |NfAhead(k, byNf, lbl, j - 1)|
  {
    if j > 0 && k.nfh(k.nf(lbl, j - 1)) in byNf {
      StrictSubset(NfAhead(k, byNf, lbl, j), NfAhead(k, byNf, lbl, j - 1), k.nfh(k.nf(lbl, j - 1)));
    }
  }

  lemma PreUnique(k: Keys, scope: int, i: int, j: int)
    requires Injective(k)
    ensures PreOf(k, scope, i) == PreOf(k, scope, j) ==> i == j
  {
    if PreOf(k, scope, i) == PreOf(k, scope, j) {
      var a, b, c, d := k.nf(scope, i), k.sec(scope, i), k.nf(scope, j), k.sec(scope, j);
      assert k.pre(a, b) == k.pre(c, d);
      assert a == c;
    }
  }

  lemma PrePassed(k: Keys, byPre: map<int, Dep>, scope: int, j: nat)
    requires Injective(k)
    ensures |PreAhead(k, byPre, scope, j + 1)| <= |PreAhead(k, byPre, scope, j)|
    ensures PreOf(k, scope, j) in byPre ==> |PreAhead(k, byPre, scope, j + 1)| < |PreAhead(k, byPre, scope, j)|
  {
    Subsets(PreAhead(k, byPre, scope, j + 1), PreAhead(k, byPre, scope, j));
    if PreOf(k, scope, j) in byPre {
      forall i: nat | i >= j + 1 ensures PreOf(k, scope, i) != PreOf(k, scope, j) {
        PreUnique(k, scope, i, j);
      }
      StrictSubset(PreAhead(k, byPre, scope, j + 1), PreAhead(k, byPre, scope, j), PreOf(k, scope, j));
    }
  }

  // ----- the scan

  /** The withdrawals of one deposit from its j-th child on, and whether the chain was left with other keys. */
  function Children(k: Keys, byNf: map<int, Wd>, lbl: int, last: Note, j: nat): (seq<Note>, bool)
    requires Injective(k) && (j > 0 ==> last.nullifier == k.nf(lbl, j - 1))
    decreases if j == 0 then 1 else 0, if j == 0 then 0 else |NfAhead(k, byNf, lbl, j - 1)|
  {
    var nh := k.nfh(last.nullifier);
    if nh !in byNf then ([], false) else
    var next := MakeNote(k, last.value - byNf[nh].value, lbl, lbl, j);
    if next.commitment != byNf[nh].newCommitment then ([], true) else
    NfPassed(k, byNf, lbl, j);
    var (more, foreign) := Children(k, byNf, lbl, next, j + 1);
    ([next] + more, foreign)
  }

  /** One deposit of this account, with the chain of its withdrawals. */
  function Account(k: Keys, scope: int, byNf: map<int, Wd>, quits: set<int>, index: nat, ev: Dep): Found
    requires Injective(k)
  {
    var deposit := MakeNote(k, ev.value, ev.lbl, scope, index);
    var (children, foreign) := Children(k, byNf, ev.lbl, deposit, 0);
    Found(index, ev.lbl, deposit, children, foreign, ev.lbl in quits)
  }

  /** The scan from an index on, given how many indexes in a row were missing. */
  function ScanFrom(
    k: Keys, scope: int, byPre: map<int, Dep>, byNf: map<int, Wd>, quits: set<int>, index: nat, misses: nat): Result<seq<Found>>
    requires Injective(k) && misses <= MISS_LIMIT
    decreases |PreAhead(k, byPre, scope, index)|, MISS_LIMIT - misses
  {
    if misses == MISS_LIMIT then Ok([]) else
    PrePassed(k, byPre, scope, index);
    var pre := PreOf(k, scope, index);
    if pre !in byPre then ScanFrom(k, scope, byPre, byNf, quits, index + 1, misses + 1)
    else if MakeNote(k, byPre[pre].value, byPre[pre].lbl, scope, index).commitment != byPre[pre].commitment then
      Err("a deposit event does not match its derived commitment")
    else
      match ScanFrom(k, scope, byPre, byNf, quits, index + 1, 0)
      case Err(e) => Err(e)
      case Ok(more) => Ok([Account(k, scope, byNf, quits, index, byPre[pre])] + more)
  }

  function Scan(k: Keys, scope: int, deposits: seq<Dep>, withdrawals: seq<Wd>, quits: set<int>): Result<seq<Found>>
    requires Injective(k)
  {
    ScanFrom(k, scope, ByPre(deposits), ByNf(withdrawals), quits, 0, 0)
  }

  /** The inner loop of `scan`: it ends because every child spends a nullifier of its own. */
  method Follow(k: Keys, byNf: map<int, Wd>, lbl: int, deposit: Note) returns (children: seq<Note>, foreign: bool)
    requires Injective(k)
    ensures (children, foreign) == Children(k, byNf, lbl, deposit, 0)
  {
    children, foreign := [], false;
    var last, j := deposit, 0;
    WithNone(Children(k, byNf, lbl, deposit, 0));
    while k.nfh(last.nullifier) in byNf
      invariant j >= 0 && (j > 0 ==> last.nullifier == k.nf(lbl, j - 1))
      invariant Children(k, byNf, lbl, deposit, 0)
                == With(children, Children(k, byNf, lbl, last, j))
      decreases if j == 0 then 1 else 0, if j == 0 then 0 else |NfAhead(k, byNf, lbl, j - 1)|
    {
      NfPassed(k, byNf, lbl, j);
      var w := byNf[k.nfh(last.nullifier)];
      var next := MakeNote(k, last.value - w.value, lbl, lbl, j);
      if next.commitment != w.newCommitment {
        assert children + [] == children;
        return children, true;
      }
      WithOne(children, next, Children(k, byNf, lbl, next, j + 1));
      children, last, j := children + [next], next, j + 1;
    }
    assert children + [] == children;
  }

  function With(children: seq<Note>, rest: (seq<Note>, bool)): (seq<Note>, bool) {
    (children + rest.0, rest.1)
  }

  lemma WithNone(rest: (seq<Note>, bool))
    ensures With([], rest) == rest
  {
    assert [] + rest.0 == rest.0;
  }

  lemma WithOne(children: seq<Note>, next: Note, rest: (seq<Note>, bool))
    ensures With(children, ([next] + rest.0, rest.1)) == With(children + [next], rest)
  {
    assert children + ([next] + rest.0) == (children + [next]) + rest.0;
  }

  /** `scan`: both loops end, for any events. */
  method ScanEvents(k: Keys, scope: int, deposits: seq<Dep>, withdrawals: seq<Wd>, quits: set<int>) returns (r: Result<seq<Found>>)
    requires Injective(k)
    ensures r == Scan(k, scope, deposits, withdrawals, quits)
  {
    var byPre, byNf := ByPre(deposits), ByNf(withdrawals);
    var found: seq<Found> := [];
    var index: nat, misses: nat := 0, 0;
    Then([], ScanFrom(k, scope, byPre, byNf, quits, 0, 0));
    while misses < MISS_LIMIT
      invariant misses <= MISS_LIMIT
      invariant Scan(k, scope, deposits, withdrawals, quits) == After(found, ScanFrom(k, scope, byPre, byNf, quits, index, misses))
      decreases |PreAhead(k, byPre, scope, index)|, MISS_LIMIT - misses
    {
      PrePassed(k, byPre, scope, index);
      var pre := PreOf(k, scope, index);
      if pre !in byPre {
        misses, index := misses + 1, index + 1;
      } else {
        var ev := byPre[pre];
        var deposit := MakeNote(k, ev.value, ev.lbl, scope, index);
        if deposit.commitment != ev.commitment {
          return Err("a deposit event does not match its derived commitment");
        }
        var children, foreign := Follow(k, byNf, ev.lbl, deposit);
        var acct := Found(index, ev.lbl, deposit, children, foreign, ev.lbl in quits);
        AfterPush(found, acct, ScanFrom(k, scope, byPre, byNf, quits, index + 1, 0));
        found, misses, index := found + [acct], 0, index + 1;
      }
    }
    assert found + [] == found;
    return Ok(found);
  }

  function After(found: seq<Found>, rest: Result<seq<Found>>): Result<seq<Found>> {
    match rest
    case Err(e) => Err(e)
    case Ok(more) => Ok(found + more)
  }

  lemma Then(found: seq<Found>, rest: Result<seq<Found>>)
    ensures found == [] ==> After(found, rest) == rest
  {
    if rest.Ok? {
      assert [] + rest.value == rest.value;
    }
  }

  lemma AfterPush(found: seq<Found>, acct: Found, rest: Result<seq<Found>>)
    ensures After(found + [acct], rest)
            == After(found, match rest case Err(e) => Err(e) case Ok(more) => Ok([acct] + more))
  {
    if rest.Ok? {
      assert (found + [acct]) + rest.value == found + ([acct] + rest.value);
    }
  }

  /** `nextIndex`: one past the highest index found. */
  function NextIndex(found: seq<Found>): (n: nat)
    ensures forall i :: 0 <= i < |found| ==> found[i].index < n
    ensures found == [] ==> n == 0
    ensures found != [] ==> exists i :: 0 <= i < |found| && n == found[i].index + 1
  {
    if found == [] then 0 else
    var m := NextIndex(found[..|found| - 1]);
    var f := found[|found| - 1];
    assert forall i :: 0 <= i < |found| - 1 ==> found[i] == found[..|found| - 1][i];
    if f.index + 1 > m then f.index + 1 else m
  }

  datatype Plan = Plan(spent: int, amount: int, newCommitment: int, remaining: int)

  /** `planWithdraw`, as far as the events see it; `listed` says the note and the deposit are in their trees. */
  function PlanWithdraw(k: Keys, acct: Found, amount: int, listed: bool): Result<Plan> {
    var cur := Last(acct);
    if acct.foreign then Err("this note was moved with other keys")
    else if acct.quit then Err("this deposit was exited publicly")
    else if !(0 < amount <= cur.value) then Err("the amount is not within the balance")
    else if !listed then Err("the note is not in the state tree")
    else
      var next := MakeNote(k, cur.value - amount, acct.lbl, acct.lbl, |acct.children|);
      Ok(Plan(k.nfh(cur.nullifier), amount, next.commitment, cur.value - amount))
  }
}
