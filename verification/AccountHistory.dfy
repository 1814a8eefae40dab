/** Scanning against the history that made the events (dapp/assoc-pool.js): whatever deposits and withdrawals this
    account made by nextIndex and planWithdraw, and whatever others did in between, the scan returns exactly them. */
module AccountHistory {
  import opened Wrappers
  import opened AccountScan

  /** What one deposit of ours has been through: the amounts taken, in order, and the newest commitment published. */
  datatype Acct = Acct(lbl: int, value: int, taken: seq<int>, newest: int)

  datatype World = World(deposits: seq<Dep>, withdrawals: seq<Wd>, quits: set<int>, accts: seq<Acct>)

  /** The deposit minus the first c withdrawals. */
  function Balance(a: Acct, c: nat): int
    requires c <= |a.taken|
  {
    if c == 0 then a.value else Balance(a, c - 1) - a.taken[c - 1]
  }

  /** The nullifier of the note after c withdrawals. */
  function Null(k: Keys, scope: int, i: nat, lbl: int, c: nat): int {
    if c == 0 then k.nf(scope, i) else k.nf(lbl, c - 1)
  }

  /** The note after c withdrawals. */
  function NoteAt(k: Keys, scope: int, i: nat, a: Acct, c: nat): Note
    requires c <= |a.taken|
  {
    if c == 0 then MakeNote(k, a.value, a.lbl, scope, i) else MakeNote(k, Balance(a, c), a.lbl, a.lbl, c - 1)
  }

  function ChildrenFrom(k: Keys, scope: int, i: nat, a: Acct, c: nat): seq<Note>
    requires c <= |a.taken|
    decreases |a.taken| - c
  {
    if c == |a.taken| then [] else [NoteAt(k, scope, i, a, c + 1)] + ChildrenFrom(k, scope, i, a, c + 1)
  }

  /** What a scan should say of deposit i. */
  function Expected(k: Keys, scope: int, i: nat, a: Acct, quits: set<int>): Found {
    Found(i, a.lbl, NoteAt(k, scope, i, a, 0), ChildrenFrom(k, scope, i, a, 0), false, a.lbl in quits)
  }

  function ExpectedFrom(k: Keys, scope: int, w: World, i: nat): seq<Found>
    requires i <= |w.accts|
    decreases |w.accts| - i
  {
    if i == |w.accts| then [] else [Expected(k, scope, i, w.accts[i], w.quits)] + ExpectedFrom(k, scope, w, i + 1)
  }

  // ----- what ties the events to the history

  ghost predicate DepositSeen(k: Keys, scope: int, byPre: map<int, Dep>, i: nat, a: Acct) {
    && PreOf(k, scope, i) in byPre
    && byPre[PreOf(k, scope, i)].lbl == a.lbl && byPre[PreOf(k, scope, i)].value == a.value
    && byPre[PreOf(k, scope, i)].commitment == NoteAt(k, scope, i, a, 0).commitment
  }

  ghost predicate SpendSeen(k: Keys, scope: int, byNf: map<int, Wd>, i: nat, a: Acct, c: nat)
    requires c < |a.taken|
  {
    var nh := k.nfh(Null(k, scope, i, a.lbl, c));
    nh in byNf && byNf[nh].value == a.taken[c] && byNf[nh].newCommitment == NoteAt(k, scope, i, a, c + 1).commitment
  }

  /** Nothing spends a note of ours but the spends we know. */
  ghost predicate Unspent(k: Keys, scope: int, byNf: map<int, Wd>, i: nat, a: Acct) {
    forall c: nat :: c >= |a.taken| ==> k.nfh(Null(k, scope, i, a.lbl, c)) !in byNf
  }

  ghost predicate AcctSeen(k: Keys, scope: int, byPre: map<int, Dep>, byNf: map<int, Wd>, i: nat, a: Acct) {
    && DepositSeen(k, scope, byPre, i, a)
    && (forall c :: 0 <= c < |a.taken| ==> SpendSeen(k, scope, byNf, i, a, c))
    && Unspent(k, scope, byNf, i, a)
    && a.newest == NoteAt(k, scope, i, a, |a.taken|).commitment
    && a.lbl != scope && Balance(a, |a.taken|) >= 0
  }

  ghost predicate AllSeen(k: Keys, scope: int, byPre: map<int, Dep>, byNf: map<int, Wd>, accts: seq<Acct>) {
    forall i :: 0 <= i < |accts| ==> AcctSeen(k, scope, byPre, byNf, i, accts[i])
  }

  /** Indexes from n on are unused. */
  ghost predicate Unused(k: Keys, scope: int, byPre: map<int, Dep>, byNf: map<int, Wd>, n: nat) {
    forall i: nat :: i >= n ==> PreOf(k, scope, i) !in byPre && k.nfh(k.nf(scope, i)) !in byNf
  }

  ghost predicate LabelsApart(accts: seq<Acct>) {
    forall i, j :: 0 <= i < j < |accts| ==> accts[i].lbl != accts[j].lbl
  }

  ghost predicate Inv(k: Keys, scope: int, w: World) {
    var byPre, byNf := ByPre(w.deposits), ByNf(w.withdrawals);
    && AllSeen(k, scope, byPre, byNf, w.accts)
    && Unused(k, scope, byPre, byNf, |w.accts|)
    && LabelsApart(w.accts)
  }

  // ----- the scan of such events

  lemma {:induction false} ChainFollows(k: Keys, scope: int, byNf: map<int, Wd>, i: nat, a: Acct, c: nat)
    requires Injective(k) && c <= |a.taken| && Unspent(k, scope, byNf, i, a)
    requires forall e :: 0 <= e < |a.taken| ==> SpendSeen(k, scope, byNf, i, a, e)
    ensures Children(k, byNf, a.lbl, NoteAt(k, scope, i, a, c), c) == (ChildrenFrom(k, scope, i, a, c), false)
    decreases |a.taken| - c
  {
    assert NoteAt(k, scope, i, a, c).nullifier == Null(k, scope, i, a.lbl, c);
    if c < |a.taken| {
      assert SpendSeen(k, scope, byNf, i, a, c);
      assert NoteAt(k, scope, i, a, c).value - a.taken[c] == Balance(a, c + 1);
      assert NoteAt(k, scope, i, a, c + 1) == MakeNote(k, Balance(a, c + 1), a.lbl, a.lbl, c);
      ChainFollows(k, scope, byNf, i, a, c + 1);
    }
  }

  lemma {:induction false} OnlyMisses(k: Keys, scope: int, w: World, index: nat, misses: nat)
    requires Injective(k) && Inv(k, scope, w) && index >= |w.accts| && misses <= MISS_LIMIT
    ensures ScanFrom(k, scope, ByPre(w.deposits), ByNf(w.withdrawals), w.quits, index, misses) == Ok([])
    decreases MISS_LIMIT - misses
  {
    if misses < MISS_LIMIT {
      OnlyMisses(k, scope, w, index + 1, misses + 1);
    }
  }

  lemma AccountIsExpected(k: Keys, scope: int, byPre: map<int, Dep>, byNf: map<int, Wd>, quits: set<int>, i: nat, a: Acct)
    requires Injective(k) && AcctSeen(k, scope, byPre, byNf, i, a)
    ensures Account(k, scope, byNf, quits, i, byPre[PreOf(k, scope, i)]) == Expected(k, scope, i, a, quits)
  {
    ChainFollows(k, scope, byNf, i, a, 0);
  }

  lemma {:induction false} ScanFindsFrom(k: Keys, scope: int, w: World, i: nat)
    requires Injective(k) && Inv(k, scope, w) && i <= |w.accts|
    ensures ScanFrom(k, scope, ByPre(w.deposits), ByNf(w.withdrawals), w.quits, i, 0) == Ok(ExpectedFrom(k, scope, w, i))
    decreases |w.accts| - i
  {
    if i == |w.accts| {
      OnlyMisses(k, scope, w, i, 0);
    } else {
      assert AcctSeen(k, scope, ByPre(w.deposits), ByNf(w.withdrawals), i, w.accts[i]);
      AccountIsExpected(k, scope, ByPre(w.deposits), ByNf(w.withdrawals), w.quits, i, w.accts[i]);
      ScanFindsFrom(k, scope, w, i + 1);
    }
  }

  lemma {:induction false} ExpectedAt(k: Keys, scope: int, w: World, i: nat, j: nat)
    requires i <= j < |w.accts|
    ensures |ExpectedFrom(k, scope, w, i)| == |w.accts| - i
    ensures ExpectedFrom(k, scope, w, i)[j - i] == Expected(k, scope, j, w.accts[j], w.quits)
    decreases j - i
  {
    if i < j {
      ExpectedAt(k, scope, w, i + 1, j);
    } else {
      ExpectedLength(k, scope, w, i);
    }
  }

  lemma {:induction false} ExpectedLength(k: Keys, scope: int, w: World, i: nat)
    requires i <= |w.accts|
    ensures |ExpectedFrom(k, scope, w, i)| == |w.accts| - i
    decreases |w.accts| - i
  {
    if i < |w.accts| {
      ExpectedLength(k, scope, w, i + 1);
    }
  }

  lemma {:induction false} ChildAt(k: Keys, scope: int, i: nat, a: Acct, c: nat)
    requires c <= |a.taken|
    ensures |ChildrenFrom(k, scope, i, a, c)| == |a.taken| - c
    ensures c < |a.taken| ==> ChildrenFrom(k, scope, i, a, c)[|a.taken| - c - 1] == NoteAt(k, scope, i, a, |a.taken|)
    decreases |a.taken| - c
  {
    if c < |a.taken| {
      ChildAt(k, scope, i, a, c + 1);
    }
  }

  /** The last note of what is expected. */
  lemma LastIs(k: Keys, scope: int, i: nat, a: Acct, quits: set<int>)
    ensures var f := Expected(k, scope, i, a, quits);
            Last(f) == NoteAt(k, scope, i, a, |a.taken|) && |f.children| == |a.taken|
  {
    ChildAt(k, scope, i, a, 0);
  }

  /** The next index is the number of deposits made. */
  lemma NextIsCount(k: Keys, scope: int, w: World)
    ensures NextIndex(ExpectedFrom(k, scope, w, 0)) == |w.accts|
  {
    var found := ExpectedFrom(k, scope, w, 0);
    ExpectedLength(k, scope, w, 0);
    forall j | 0 <= j < |found| ensures found[j].index == j {
      ExpectedAt(k, scope, w, 0, j);
    }
    if found != [] {
      assert found[|found| - 1].index < NextIndex(found);
    }
  }

  // ----- steps

  datatype Op =
    | Deposit(lbl: int, value: int, at: int)
    | Withdraw(i: nat, amount: int, listed: bool)
    | OtherDeposit(d: Dep)
    | OtherWithdrawal(wd: Wd)
    | Ragequit(i: nat)

  /** What the pool and other people can do: labels are new, events come in order, nobody else knows a
      precommitment of ours before it is used (they may copy one afterwards) or can spend a note of ours. */
  ghost predicate Enabled(k: Keys, scope: int, w: World, op: Op) {
    match op
    case Deposit(lbl, value, at) =>
      && value >= 0 && lbl != scope && (forall i :: 0 <= i < |w.accts| ==> w.accts[i].lbl != lbl)
      && (forall j :: 0 <= j < |w.deposits| ==> w.deposits[j].at < at)
      && (forall c: nat :: k.nfh(k.nf(lbl, c)) !in ByNf(w.withdrawals))
    case OtherDeposit(d) =>
      && (forall j :: 0 <= j < |w.deposits| ==> w.deposits[j].at < d.at)
      && (forall i: nat :: i >= |w.accts| ==> d.pre != PreOf(k, scope, i))
    case OtherWithdrawal(wd) => forall x, c :: wd.spent != k.nfh(k.nf(x, c))
    case _ => true
  }

  /** A step as the code takes it: deposits and withdrawals start from a scan of the events so far. */
  function Next(k: Keys, scope: int, w: World, op: Op): World
    requires Injective(k)
  {
    var scan := Scan(k, scope, w.deposits, w.withdrawals, w.quits);
    match op
    case OtherDeposit(d) => w.(deposits := w.deposits + [d])
    case OtherWithdrawal(wd) => w.(withdrawals := w.withdrawals + [wd])
    case Ragequit(i) => if i < |w.accts| then w.(quits := w.quits + {w.accts[i].lbl}) else w
    case Deposit(lbl, value, at) =>
      if scan.Err? then w else
      var i := NextIndex(scan.value);
      var note := MakeNote(k, value, lbl, scope, i);
      w.(deposits := w.deposits + [Dep(PreOf(k, scope, i), lbl, value, note.commitment, at)],
         accts := w.accts + [Acct(lbl, value, [], note.commitment)])
    case Withdraw(i, amount, listed) =>
      if scan.Err? || i >= |scan.value| || i >= |w.accts| then w else
      var plan := PlanWithdraw(k, scan.value[i], amount, listed);
      if plan.Err? then w else
      w.(withdrawals := w.withdrawals + [Wd(plan.value.spent, amount, plan.value.newCommitment)],
         accts := w.accts[i := w.accts[i].(taken := w.accts[i].taken + [amount], newest := plan.value.newCommitment)])
  }

  lemma {:induction false} ByPreIsFrom(ds: seq<Dep>, p: int) returns (j: nat)
    requires p in ByPre(ds)
    ensures j < |ds| && ByPre(ds)[p] == ds[j]
  {
    var d := ds[|ds| - 1];
    if d.pre == p && ByPre(ds)[p] == d {
      j := |ds| - 1;
    } else {
      j := ByPreIsFrom(ds[..|ds| - 1], p);
    }
  }

  /** A later deposit never displaces an earlier one. */
  lemma LaterDeposit(ds: seq<Dep>, d: Dep)
    requires forall j :: 0 <= j < |ds| ==> ds[j].at < d.at
    ensures ByPre(ds + [d]) == if d.pre in ByPre(ds) then ByPre(ds) else ByPre(ds)[d.pre := d]
  {
    assert (ds + [d])[..|ds|] == ds;
    if d.pre in ByPre(ds) {
      var j := ByPreIsFrom(ds, d.pre);
    }
  }

  lemma NewSpend(ws: seq<Wd>, wd: Wd)
    ensures ByNf(ws + [wd]) == ByNf(ws)[wd.spent := wd]
  {
    assert (ws + [wd])[..|ws|] == ws;
  }

  /** Notes of ours have nullifiers of their own. */
  lemma NullUnique(k: Keys, scope: int, i: nat, lbl: int, c: nat, i': nat, lbl': int, c': nat)
    requires Injective(k) && lbl != scope && lbl' != scope && (i == i' <==> lbl == lbl')
    ensures Null(k, scope, i, lbl, c) == Null(k, scope, i', lbl', c') ==> i == i' && c == c'
  {
  }

  /** An event that spends none of an account's notes and adds no deposit leaves the account as it is seen. */
  lemma SeenKept(k: Keys, scope: int, byPre: map<int, Dep>, byPre': map<int, Dep>, byNf: map<int, Wd>, byNf': map<int, Wd>, i: nat, a: Acct)
    requires AcctSeen(k, scope, byPre, byNf, i, a)
    requires forall p :: p in byPre ==> p in byPre' && byPre'[p] == byPre[p]
    requires forall c: nat :: var nh := k.nfh(Null(k, scope, i, a.lbl, c)); (nh in byNf <==> nh in byNf') && (nh in byNf ==> byNf'[nh] == byNf[nh])
    ensures AcctSeen(k, scope, byPre', byNf', i, a)
  {
    forall c | 0 <= c < |a.taken| ensures SpendSeen(k, scope, byNf', i, a, c) {
      assert SpendSeen(k, scope, byNf, i, a, c);
    }
  }

  lemma OtherDepositKeeps(k: Keys, scope: int, w: World, op: Op)
    requires Injective(k) && Inv(k, scope, w) && op.OtherDeposit? && Enabled(k, scope, w, op)
    ensures Inv(k, scope, Next(k, scope, w, op))
  {
    LaterDeposit(w.deposits, op.d);
    var byPre, byNf := ByPre(w.deposits), ByNf(w.withdrawals);
    var w' := Next(k, scope, w, op);
    forall i | 0 <= i < |w.accts| ensures AcctSeen(k, scope, ByPre(w'.deposits), byNf, i, w.accts[i]) {
      SeenKept(k, scope, byPre, ByPre(w'.deposits), byNf, byNf, i, w.accts[i]);
    }
  }

  lemma OtherWithdrawalKeeps(k: Keys, scope: int, w: World, op: Op)
    requires Injective(k) && Inv(k, scope, w) && op.OtherWithdrawal? && Enabled(k, scope, w, op)
    ensures Inv(k, scope, Next(k, scope, w, op))
  {
    NewSpend(w.withdrawals, op.wd);
    var byPre, byNf := ByPre(w.deposits), ByNf(w.withdrawals);
    var byNf' := ByNf(w.withdrawals + [op.wd]);
    forall i | 0 <= i < |w.accts| ensures AcctSeen(k, scope, byPre, byNf', i, w.accts[i]) {
      SeenKept(k, scope, byPre, byPre, byNf, byNf', i, w.accts[i]);
    }
  }

  /** The scan a step starts from. */
  lemma ScanNow(k: Keys, scope: int, w: World)
    requires Injective(k) && Inv(k, scope, w)
    ensures Scan(k, scope, w.deposits, w.withdrawals, w.quits) == Ok(ExpectedFrom(k, scope, w, 0))
  {
    ScanFindsFrom(k, scope, w, 0);
  }

  lemma DepositKeeps(k: Keys, scope: int, w: World, op: Op)
    requires Injective(k) && Inv(k, scope, w) && op.Deposit? && Enabled(k, scope, w, op)
    ensures Inv(k, scope, Next(k, scope, w, op))
  {
    ScanNow(k, scope, w);
    NextIsCount(k, scope, w);
    var n := |w.accts|;
    var byPre, byNf := ByPre(w.deposits), ByNf(w.withdrawals);
    var w' := Next(k, scope, w, op);
    var a := w'.accts[n];
    LaterDeposit(w.deposits, w'.deposits[|w.deposits|]);
    assert w'.deposits == w.deposits + [w'.deposits[|w.deposits|]];
    forall i | 0 <= i < n ensures AcctSeen(k, scope, ByPre(w'.deposits), byNf, i, w.accts[i]) {
      SeenKept(k, scope, byPre, ByPre(w'.deposits), byNf, byNf, i, w.accts[i]);
    }
    forall i: nat | i >= n + 1 ensures PreOf(k, scope, i) !in ByPre(w'.deposits) {
      PreUnique(k, scope, i, n);
    }
    assert Unspent(k, scope, byNf, n, a);
    assert AcctSeen(k, scope, ByPre(w'.deposits), byNf, n, a);
  }

  lemma {:induction false} BalanceKept(a: Acct, a': Acct, c: nat)
    requires c <= |a.taken| <= |a'.taken| && a'.taken[..|a.taken|] == a.taken && a'.value == a.value
    ensures Balance(a', c) == Balance(a, c)
  {
    if c > 0 {
      BalanceKept(a, a', c - 1);
      assert a'.taken[c - 1] == a'.taken[..|a.taken|][c - 1];
    }
  }

  /** The account after one more withdrawal. */
  function Spent(k: Keys, a: Acct, amount: int): Acct {
    var note := MakeNote(k, Balance(a, |a.taken|) - amount, a.lbl, a.lbl, |a.taken|);
    a.(taken := a.taken + [amount], newest := note.commitment)
  }

  /** Its event spends its last note and is seen as one more withdrawal. */
  lemma SpentIsSeen(k: Keys, scope: int, byPre: map<int, Dep>, byNf: map<int, Wd>, i: nat, a: Acct, amount: int)
    requires Injective(k) && AcctSeen(k, scope, byPre, byNf, i, a) && amount <= Balance(a, |a.taken|)
    ensures var a' := Spent(k, a, amount);
            var spent := k.nfh(Null(k, scope, i, a.lbl, |a.taken|));
            AcctSeen(k, scope, byPre, byNf[spent := Wd(spent, amount, a'.newest)], i, a')
  {
    var n := |a.taken|;
    var a' := Spent(k, a, amount);
    var spent := k.nfh(Null(k, scope, i, a.lbl, n));
    var byNf' := byNf[spent := Wd(spent, amount, a'.newest)];
    BalanceKept(a, a', n);
    forall c | 0 <= c < n + 1 ensures SpendSeen(k, scope, byNf', i, a', c) {
      NullUnique(k, scope, i, a.lbl, c, i, a.lbl, n);
      if c < n {
        assert SpendSeen(k, scope, byNf, i, a, c);
        BalanceKept(a, a', c + 1);
      }
    }
    forall c: nat | c >= n + 1 ensures k.nfh(Null(k, scope, i, a.lbl, c)) !in byNf' {
      NullUnique(k, scope, i, a.lbl, c, i, a.lbl, n);
    }
  }

  /** What the plan publishes. */
  lemma PlanIs(k: Keys, scope: int, w: World, i: nat, amount: int, listed: bool)
    requires i < |w.accts| && PlanWithdraw(k, Expected(k, scope, i, w.accts[i], w.quits), amount, listed).Ok?
    ensures var a := w.accts[i];
            var plan := PlanWithdraw(k, Expected(k, scope, i, a, w.quits), amount, listed).value;
            && plan.spent == k.nfh(Null(k, scope, i, a.lbl, |a.taken|)) && amount <= Balance(a, |a.taken|)
            && Spent(k, a, amount) == a.(taken := a.taken + [amount], newest := plan.newCommitment)
  {
    LastIs(k, scope, i, w.accts[i], w.quits);
  }

  lemma OthersKept(k: Keys, scope: int, w: World, i: nat, j: nat, wd: Wd)
    requires Injective(k) && Inv(k, scope, w) && i < |w.accts| && j < |w.accts| && i != j
    requires wd.spent == k.nfh(Null(k, scope, i, w.accts[i].lbl, |w.accts[i].taken|))
    ensures AcctSeen(k, scope, ByPre(w.deposits), ByNf(w.withdrawals)[wd.spent := wd], j, w.accts[j])
  {
    var byPre, byNf := ByPre(w.deposits), ByNf(w.withdrawals);
    var a, b := w.accts[i], w.accts[j];
    assert AcctSeen(k, scope, byPre, byNf, i, a) && AcctSeen(k, scope, byPre, byNf, j, b);
    assert a.lbl != b.lbl;
    forall c: nat ensures k.nfh(Null(k, scope, j, b.lbl, c)) != wd.spent {
      NullUnique(k, scope, j, b.lbl, c, i, a.lbl, |a.taken|);
    }
    SeenKept(k, scope, byPre, byPre, byNf, byNf[wd.spent := wd], j, b);
  }

  lemma StillUnused(k: Keys, scope: int, byPre: map<int, Dep>, byNf: map<int, Wd>, n: nat, i: nat, lbl: int, c: nat, wd: Wd)
    requires Injective(k) && Unused(k, scope, byPre, byNf, n) && i < n && lbl != scope && wd.spent == k.nfh(Null(k, scope, i, lbl, c))
    ensures Unused(k, scope, byPre, byNf[wd.spent := wd], n)
  {
    forall j: nat | j >= n ensures k.nfh(k.nf(scope, j)) != wd.spent {
      assert k.nf(scope, j) != Null(k, scope, i, lbl, c);
    }
  }

  lemma SpendKeeps(k: Keys, scope: int, w: World, i: nat, amount: int, wd: Wd)
    requires Injective(k) && Inv(k, scope, w) && i < |w.accts| && amount <= Balance(w.accts[i], |w.accts[i].taken|)
    requires wd == Wd(k.nfh(Null(k, scope, i, w.accts[i].lbl, |w.accts[i].taken|)), amount, Spent(k, w.accts[i], amount).newest)
    ensures Inv(k, scope, w.(withdrawals := w.withdrawals + [wd], accts := w.accts[i := Spent(k, w.accts[i], amount)]))
  {
    var a, accts := w.accts[i], w.accts[i := Spent(k, w.accts[i], amount)];
    var byPre, byNf := ByPre(w.deposits), ByNf(w.withdrawals);
    NewSpend(w.withdrawals, wd);
    assert AcctSeen(k, scope, byPre, byNf, i, a);
    SpentIsSeen(k, scope, byPre, byNf, i, a, amount);
    forall j | 0 <= j < |accts| ensures AcctSeen(k, scope, byPre, byNf[wd.spent := wd], j, accts[j]) {
      if j != i {
        OthersKept(k, scope, w, i, j, wd);
      }
    }
    StillUnused(k, scope, byPre, byNf, |w.accts|, i, a.lbl, |a.taken|, wd);
    assert forall j :: 0 <= j < |accts| ==> accts[j].lbl == w.accts[j].lbl;
  }

  lemma WithdrawKeeps(k: Keys, scope: int, w: World, op: Op)
    requires Injective(k) && Inv(k, scope, w) && op.Withdraw?
    ensures Inv(k, scope, Next(k, scope, w, op))
  {
    ScanNow(k, scope, w);
    var w' := Next(k, scope, w, op);
    if w' != w {
      ExpectedAt(k, scope, w, 0, op.i);
      PlanIs(k, scope, w, op.i, op.amount, op.listed);
      SpendKeeps(k, scope, w, op.i, op.amount, w'.withdrawals[|w.withdrawals|]);
    }
  }

  lemma StepKeeps(k: Keys, scope: int, w: World, op: Op)
    requires Injective(k) && Inv(k, scope, w) && Enabled(k, scope, w, op)
    ensures Inv(k, scope, Next(k, scope, w, op))
  {
    match op
    case Deposit(_, _, _) => DepositKeeps(k, scope, w, op);
    case Withdraw(_, _, _) => WithdrawKeeps(k, scope, w, op);
    case OtherDeposit(_) => OtherDepositKeeps(k, scope, w, op);
    case OtherWithdrawal(_) => OtherWithdrawalKeeps(k, scope, w, op);
    case Ragequit(_) =>
  }

  function Run(k: Keys, scope: int, ops: seq<Op>): World
    requires Injective(k)
  {
    if ops == [] then World([], [], {}, []) else Next(k, scope, Run(k, scope, ops[..|ops| - 1]), ops[|ops| - 1])
  }

  ghost predicate Legal(k: Keys, scope: int, ops: seq<Op>)
    requires Injective(k)
  {
    ops != [] ==> Legal(k, scope, ops[..|ops| - 1]) && Enabled(k, scope, Run(k, scope, ops[..|ops| - 1]), ops[|ops| - 1])
  }

  lemma {:induction false} RunKeeps(k: Keys, scope: int, ops: seq<Op>)
    requires Injective(k) && Legal(k, scope, ops)
    ensures Inv(k, scope, Run(k, scope, ops))
  {
    if ops != [] {
      RunKeeps(k, scope, ops[..|ops| - 1]);
      StepKeeps(k, scope, Run(k, scope, ops[..|ops| - 1]), ops[|ops| - 1]);
    }
  }

  /** After any history the scan finds every deposit, in order and no other, with the balance left after all its
      withdrawals and the newest commitment published for it; and the next index is new. */
  lemma ScanAgrees(k: Keys, scope: int, ops: seq<Op>)
    requires Injective(k) && Legal(k, scope, ops)
    ensures var w := Run(k, scope, ops);
            var scan := Scan(k, scope, w.deposits, w.withdrawals, w.quits);
            && scan.Ok? && |scan.value| == |w.accts| == NextIndex(scan.value)
            && (forall i :: 0 <= i < |w.accts| ==>
                  var f, a := scan.value[i], w.accts[i];
                  && f.index == i && f.lbl == a.lbl && f.deposit.value == a.value && !f.foreign && |f.children| == |a.taken|
                  && Last(f).value == Balance(a, |a.taken|) && Last(f).value >= 0 && Last(f).commitment == a.newest)
  {
    RunKeeps(k, scope, ops);
    var w := Run(k, scope, ops);
    ScanNow(k, scope, w);
    NextIsCount(k, scope, w);
    ExpectedLength(k, scope, w, 0);
    forall i | 0 <= i < |w.accts|
      ensures var f, a := ExpectedFrom(k, scope, w, 0)[i], w.accts[i];
              && f.index == i && f.lbl == a.lbl && f.deposit.value == a.value && !f.foreign && |f.children| == |a.taken|
              && Last(f).value == Balance(a, |a.taken|) && Last(f).value >= 0 && Last(f).commitment == a.newest
    {
      ExpectedAt(k, scope, w, 0, i);
      LastIs(k, scope, i, w.accts[i], w.quits);
      assert AcctSeen(k, scope, ByPre(w.deposits), ByNf(w.withdrawals), i, w.accts[i]);
    }
  }
}
