/** Arithmetic modulo p as dapp/amm-bjj.js does it: powers by squaring and inverses by the extended Euclidean
    algorithm, against their meaning as congruences. */
module ModArith {
  import opened Wrappers
  import opened Remainder

  // ----- products, rearranged

  lemma Dist(a: int, b: int, c: int)
    ensures (a + b) * c == a * c + b * c && (a - b) * c == a * c - b * c
  {
  }

  lemma Swap(a: int, b: int, c: int)
    ensures (a * b) * c == (a * c) * b && (a * b) * c == a * (b * c) && a * b == b * a
  {
  }

  lemma Pairs(x: int, y: int, u: int, v: int)
    ensures (x * y) * (u * v) == (x * u) * (y * v)
  {
  }

  // ----- congruence

  predicate Cong(a: int, b: int, p: int)
    requires p > 0
  {
    Mod(a, p) == Mod(b, p)
  }

  /** The quotient that goes with `Mod`. */
  function Quot(k: int, n: int): int
    requires n > 0
    decreases if k < 0 then n - k else k
  {
    if k < 0 then Quot(k + n, n) - 1 else if k >= n then Quot(k - n, n) + 1 else 0
  }

  lemma {:induction false} Parts(k: int, n: int)
    requires n > 0
    ensures k == Quot(k, n) * n + Mod(k, n)
    ensures k >= 0 ==> Quot(k, n) >= 0
    decreases if k < 0 then n - k else k
  {
    if k < 0 {
      Parts(k + n, n);
      assert (Quot(k, n) + 1) * n == Quot(k, n) * n + n;
    } else if k >= n {
      Parts(k - n, n);
      assert (Quot(k, n) - 1) * n == Quot(k, n) * n - n;
    } else {
      assert 0 * n == 0;
    }
  }

  lemma {:induction false} Shifts(a: int, k: int, p: int)
    requires p > 0
    ensures Cong(a + k * p, a, p)
    decreases if k < 0 then -k else k
  {
    if k > 0 {
      assert k * p == (k - 1) * p + p;
      Shifts(a, k - 1, p);
      ModShift(a + (k - 1) * p, p);
    } else if k < 0 {
      assert k * p == (k + 1) * p - p;
      Shifts(a, k + 1, p);
      ModShift(a + k * p, p);
    } else {
      assert 0 * p == 0;
    }
  }

  lemma CongBy(a: int, b: int, k: int, p: int)
    requires p > 0 && a == b + k * p
    ensures Cong(a, b, p)
  {
    Shifts(b, k, p);
  }

  /** The difference of congruent numbers, as a multiple. */
  lemma Difference(a: int, b: int, p: int) returns (k: int)
    requires p > 0 && Cong(a, b, p)
    ensures a == b + k * p
  {
    Parts(a, p);
    Parts(b, p);
    k := Quot(a, p) - Quot(b, p);
    Dist(Quot(a, p), Quot(b, p), p);
  }

  lemma Reduced(a: int, p: int)
    requires p > 0
    ensures Cong(Mod(a, p), a, p)
  {
    assert Mod(Mod(a, p), p) == Mod(a, p);
  }

  lemma CongScale(a: int, a': int, b: int, p: int)
    requires p > 0 && Cong(a, a', p)
    ensures Cong(a * b, a' * b, p) && Cong(b * a, b * a', p)
  {
    var k := Difference(a, a', p);
    Dist(a', k * p, b);
    Swap(k, p, b);
    CongBy(a * b, a' * b, k * b, p);
    Swap(a, b, 1);
    Swap(a', b, 1);
  }

  lemma CongMul(a: int, a': int, b: int, b': int, p: int)
    requires p > 0 && Cong(a, a', p) && Cong(b, b', p)
    ensures Cong(a * b, a' * b', p)
  {
    CongScale(a, a', b, p);
    CongScale(b, b', a', p);
  }

  lemma CongAdd(a: int, a': int, b: int, b': int, p: int)
    requires p > 0 && Cong(a, a', p) && Cong(b, b', p)
    ensures Cong(a + b, a' + b', p) && Cong(a - b, a' - b', p)
  {
    var k := Difference(a, a', p);
    var l := Difference(b, b', p);
    Dist(k, l, p);
    CongBy(a + b, a' + b', k + l, p);
    CongBy(a - b, a' - b', k - l, p);
  }

  /** Numbers below p that are congruent are equal. */
  lemma Unique(a: int, b: int, p: int)
    requires 0 <= a < p && 0 <= b < p && Cong(a, b, p)
    ensures a == b
  {
  }

  // ----- powers

  function Pow(x: int, e: nat): int {
    if e == 0 then 1 else x * Pow(x, e - 1)
  }

  lemma {:induction false} PowAdd(x: int, a: nat, b: nat)
    ensures Pow(x, a + b) == Pow(x, a) * Pow(x, b)
  {
    if a > 0 {
      PowAdd(x, a - 1, b);
      Swap(x, Pow(x, a - 1), Pow(x, b));
    }
  }

  lemma {:induction false} PowTimes(x: int, y: int, e: nat)
    ensures Pow(x * y, e) == Pow(x, e) * Pow(y, e)
  {
    if e > 0 {
      PowTimes(x, y, e - 1);
      Pairs(x, y, Pow(x, e - 1), Pow(y, e - 1));
    }
  }

  lemma {:induction false} PowPow(x: int, a: nat, b: nat)
    ensures a * b >= 0 && Pow(Pow(x, a), b) == Pow(x, a * b)
  {
    if b > 0 {
      PowPow(x, a, b - 1);
      assert a * b == a + a * (b - 1);
      PowAdd(x, a, a * (b - 1));
    } else {
      assert a * 0 == 0;
    }
  }

  lemma {:induction false} PowCong(x: int, y: int, e: nat, p: int)
    requires p > 0 && Cong(x, y, p)
    ensures Cong(Pow(x, e), Pow(y, e), p)
  {
    if e > 0 {
      PowCong(x, y, e - 1, p);
      CongMul(x, y, Pow(x, e - 1), Pow(y, e - 1), p);
    }
  }

  lemma {:induction false} PowOne(e: nat)
    ensures Pow(1, e) == 1
  {
    if e > 0 {
      PowOne(e - 1);
    }
  }

  lemma PowHalf(x: int, e: nat)
    ensures Pow(x, e) == (if e % 2 == 1 then x else 1) * Pow(x * x, e / 2)
  {
    var h := e / 2;
    PowTimes(x, x, h);
    PowAdd(x, h, h);
    assert e == h + h + e % 2;
    if e % 2 == 1 {
      PowAdd(x, 1, h + h);
      assert Pow(x, 1) == x * Pow(x, 0);
    }
  }

  /** `modPow`: square and multiply. */
  method ModPow(base: int, exp: nat, p: nat) returns (r: nat)
    requires p > 1
    ensures r == Mod(Pow(base, exp), p)
  {
    r := 1;
    var b, e := Mod(base, p), exp;
    Reduced(base, p);
    PowCong(b, base, exp, p);
    while e > 0
      invariant r < p && Cong(r * Pow(b, e), Pow(base, exp), p)
    {
      PowHalf(b, e);
      var r' := if e % 2 == 1 then Mod(r * b, p) else r;
      PowStep(r, r', b, e, p);
      r := r';
      b := Mod(b * b, p);
      e := e / 2;
    }
  }

  /** One round of square and multiply keeps the product. */
  lemma PowStep(r: nat, r': nat, b: nat, e: nat, p: nat)
    requires p > 1 && r' == (if e % 2 == 1 then Mod(r * b, p) else r)
    ensures Cong(r' * Pow(Mod(b * b, p), e / 2), r * Pow(b, e), p)
  {
    var h := e / 2;
    var x := if e % 2 == 1 then b else 1;
    PowHalf(b, e);
    Reduced(b * b, p);
    PowCong(Mod(b * b, p), b * b, h, p);
    Reduced(r * b, p);
    assert Cong(r', r * x, p);
    CongMul(r', r * x, Pow(Mod(b * b, p), h), Pow(b * b, h), p);
    Swap(r, x, Pow(b * b, h));
  }

  // ----- inverses

  /** The extended Euclidean algorithm from a given state: the last divisor and its coefficient. */
  function Euclid(oldR: nat, r: nat, oldS: int, s: int): (nat, int)
    decreases r
  {
    if r == 0 then (oldR, oldS) else Euclid(r, Mod(oldR, r), s, oldS - Quot(oldR, r) * s)
  }

  /** `modInv`, or none when the last divisor is not 1. */
  function Inverse(a: int, p: nat): Option<nat>
    requires p > 1
  {
    var (g, s) := Euclid(Mod(a, p), p, 1, 0);
    if g == 1 then Some(Mod(s, p)) else None
  }

  method ModInv(a: int, p: nat) returns (inv: Option<nat>)
    requires p > 1
    ensures inv == Inverse(a, p)
  {
    var oldR: nat, r: nat := Mod(a, p), p;
    var oldS, s := 1, 0;
    while r != 0
      invariant Euclid(oldR, r, oldS, s) == Euclid(Mod(a, p), p, 1, 0)
      decreases r
    {
      var q := Quot(oldR, r);
      Parts(oldR, r);
      oldR, r, oldS, s := r, oldR - q * r, s, oldS - q * s;
    }
    return if oldR == 1 then Some(Mod(oldS, p)) else None;
  }

  /** The coefficient is right throughout: s·a is congruent to the divisor. */
  lemma {:induction false} EuclidCong(oldR: nat, r: nat, oldS: int, s: int, a: int, p: nat)
    requires p > 1 && Cong(oldS * a, oldR, p) && Cong(s * a, r, p)
    ensures var (g, t) := Euclid(oldR, r, oldS, s); Cong(t * a, g, p)
    decreases r
  {
    if r != 0 {
      var q := Quot(oldR, r);
      Parts(oldR, r);
      CongMul(q, q, s * a, r, p);
      CongAdd(oldS * a, oldR, q * (s * a), q * r, p);
      Dist(oldS, q * s, a);
      Swap(q, s, a);
      EuclidCong(r, Mod(oldR, r), s, oldS - q * s, a, p);
    }
  }

  predicate Divides(d: nat, x: int) {
    d > 0 && Mod(x, d) == 0
  }

  lemma DividesSum(d: nat, x: int, y: int, k: int)
    requires Divides(d, x) && Divides(d, y)
    ensures Divides(d, k * x + y)
  {
    CongScale(x, 0, k, d);
    CongAdd(k * x, k * 0, y, 0, d);
    assert k * 0 == 0;
  }

  /** The last divisor divides both numbers it started from. */
  lemma {:induction false} EuclidDivides(oldR: nat, r: nat, oldS: int, s: int)
    requires oldR > 0 || r > 0
    ensures var g := Euclid(oldR, r, oldS, s).0; Divides(g, oldR) && Divides(g, r)
    decreases r
  {
    var g := Euclid(oldR, r, oldS, s).0;
    if r > 0 {
      EuclidDivides(r, Mod(oldR, r), s, oldS - Quot(oldR, r) * s);
      Parts(oldR, r);
      DividesSum(g, r, Mod(oldR, r), Quot(oldR, r));
    }
  }

  ghost predicate IsPrime(p: nat) {
    p > 1 && forall d: nat :: 1 < d < p ==> !Divides(d, p)
  }

  lemma DivisorBound(d: nat, x: nat)
    requires x > 0 && Divides(d, x)
    ensures d <= x
  {
  }

  /** What `modInv` returns is an inverse, and modulo a prime it returns one for everything but zero. */
  lemma InverseIsInverse(a: int, p: nat)
    requires p > 1
    ensures Inverse(a, p).Some? ==> Inverse(a, p).value < p && Cong(a * Inverse(a, p).value, 1, p)
    ensures IsPrime(p) && !Cong(a, 0, p) ==> Inverse(a, p).Some?
    ensures Cong(a, 0, p) ==> Inverse(a, p).None?
  {
    var m := Mod(a, p);
    var (g, s) := Euclid(m, p, 1, 0);
    Reduced(a, p);
    assert Mod(p, p) == Mod(0, p);
    EuclidCong(m, p, 1, 0, a, p);
    if g == 1 {
      Reduced(s, p);
      CongMul(a, a, Mod(s, p), s, p);
      Swap(a, s, 1);
    }
    EuclidDivides(m, p, 1, 0);
    if m != 0 {
      DivisorBound(g, m);
    } else {
      assert Euclid(0, p, 1, 0) == Euclid(p, 0, 0, 1);
    }
  }

  lemma PrimeHasInverse(a: int, p: nat) returns (i: nat)
    requires IsPrime(p) && !Cong(a, 0, p)
    ensures Cong(a * i, 1, p)
  {
    InverseIsInverse(a, p);
    i := Inverse(a, p).value;
  }

  /** A prime that divides a product divides a factor. */
  lemma PrimeSplits(a: int, b: int, p: nat)
    requires IsPrime(p) && Cong(a * b, 0, p)
    ensures Cong(a, 0, p) || Cong(b, 0, p)
  {
    if !Cong(a, 0, p) {
      var i := PrimeHasInverse(a, p);
      CongMul(a * b, 0, i, i, p);
      CongMul(a * i, 1, b, b, p);
      Swap(a, b, i);
    }
  }

  /** Factors other than zero cancel. */
  lemma CancelCong(a: int, b: int, c: int, p: nat)
    requires IsPrime(p) && !Cong(c, 0, p) && Cong(a * c, b * c, p)
    ensures Cong(a, b, p)
  {
    CongAdd(a * c, b * c, b * c, b * c, p);
    Dist(a, b, c);
    PrimeSplits(a - b, c, p);
    CongAdd(a - b, 0, b, b, p);
  }

  /** Modulo a prime, equal squares have equal or opposite roots. */
  lemma SquareRoots(x: int, y: int, p: nat)
    requires IsPrime(p) && Cong(x * x, y * y, p)
    ensures Cong(x, y, p) || Cong(x, -y, p)
  {
    CongAdd(x * x, y * y, y * y, y * y, p);
    assert x * x - y * y == (x - y) * (x + y);
    PrimeSplits(x - y, x + y, p);
    if Cong(x - y, 0, p) {
      CongAdd(x - y, 0, y, y, p);
    } else {
      CongAdd(x + y, 0, y, y, p);
    }
  }
}
