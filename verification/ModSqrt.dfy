/** `modSqrt` of dapp/amm-bjj.js: Tonelli and Shanks' square root modulo an odd prime. */
module ModSqrt {
  import opened Wrappers
  import opened Remainder
  import opened ModArith
  import opened PrimeField
  import opened Words

  lemma {:induction false} TwoAdd(a: nat, b: nat)
    ensures Two(a + b) == Two(a) * Two(b)
  {
    if a > 0 {
      TwoAdd(a - 1, b);
      Swap(2, Two(a - 1), Two(b));
    }
  }

  lemma PowSquare(x: int, k: nat)
    ensures Pow(x * x, Two(k)) == Pow(x, Two(k + 1)) && Pow(x, Two(k)) * Pow(x, Two(k)) == Pow(x, Two(k + 1))
  {
    PowTimes(x, x, Two(k));
    PowAdd(x, Two(k), Two(k));
  }

  lemma PowTwoTwo(x: int, a: nat, b: nat)
    ensures Pow(Pow(x, Two(a)), Two(b)) == Pow(x, Two(a + b))
  {
    PowPow(x, Two(a), Two(b));
    TwoAdd(a, b);
  }

  /** What holds at the head of the main loop: R² = t·n, and c and t have orders dividing 2^M and 2^(M-1). */
  ghost predicate Shanks(m: nat, c: nat, t: nat, r: nat, n: int, p: nat)
    requires p > 1
  {
    && m >= 1 && c < p && t < p && r < p
    && Cong(r * r, t * n, p)
    && Cong(Pow(c, Two(m - 1)), -1, p)
    && Cong(Pow(t, Two(m - 1)), 1, p)
  }

  lemma SquareSplits(t: int, b: int, n: int, r: int, p: nat)
    requires p > 1 && Cong(r * r, t * n, p)
    ensures Cong((r * b) * (r * b), (t * (b * b)) * n, p)
  {
    Pairs(r, b, r, b);
    CongScale(r * r, t * n, b * b, p);
    Swap(t, n, b * b);
  }

  lemma RootStep(t: nat, b: nat, n: int, r: nat, p: nat)
    requires p > 1 && Cong(r * r, t * n, p)
    ensures Cong(Mod(r * b, p) * Mod(r * b, p), Mod(t * Mod(b * b, p), p) * n, p)
  {
    var r', c', t' := Mod(r * b, p), Mod(b * b, p), Mod(t * Mod(b * b, p), p);
    Reduced(r * b, p);
    CongMul(r', r * b, r', r * b, p);
    SquareSplits(t, b, n, r, p);
    Reduced(b * b, p);
    CongScale(c', b * b, t, p);
    Reduced(t * c', p);
    CongScale(t', t * (b * b), n, p);
  }

  /** The new c: its 2^(i-1)-th power is the old one's 2^(M-1)-th. */
  lemma OrderStep(m: nat, i: nat, c: nat, p: nat)
    requires p > 1 && 0 < i < m && Cong(Pow(c, Two(m - 1)), -1, p)
    ensures var b := Mod(Pow(c, Two(m - i - 1)), p);
            Cong(Pow(Mod(b * b, p), Two(i - 1)), -1, p)
  {
    var full := Pow(c, Two(m - i - 1));
    var b := Mod(full, p);
    Reduced(b * b, p);
    PowCong(Mod(b * b, p), b * b, Two(i - 1), p);
    PowSquare(b, i - 1);
    Reduced(full, p);
    PowCong(b, full, Two(i), p);
    PowTwoTwo(c, m - i - 1, i);
  }

  /** A square root of 1 that is not 1 is -1. */
  lemma MinusOne(t: nat, i: nat, p: nat)
    requires IsPrime(p) && i > 0 && Cong(Pow(t, Two(i)), 1, p) && !Cong(Pow(t, Two(i - 1)), 1, p)
    ensures Cong(Pow(t, Two(i - 1)), -1, p)
  {
    PowSquare(t, i - 1);
    SquareRoots(Pow(t, Two(i - 1)), 1, p);
  }

  lemma OrderDrops(t: nat, c': nat, i: nat, p: nat)
    requires IsPrime(p) && i > 0 && Cong(Pow(t, Two(i)), 1, p) && !Cong(Pow(t, Two(i - 1)), 1, p)
    requires Cong(Pow(c', Two(i - 1)), -1, p)
    ensures Cong(Pow(Mod(t * c', p), Two(i - 1)), 1, p)
  {
    MinusOne(t, i, p);
    Reduced(t * c', p);
    PowCong(Mod(t * c', p), t * c', Two(i - 1), p);
    PowTimes(t, c', Two(i - 1));
    CongMul(Pow(t, Two(i - 1)), -1, Pow(c', Two(i - 1)), -1, p);
  }

  /** One round: with i the least power that takes t to 1, the invariant holds again with M = i. */
  lemma Round(m: nat, i: nat, c: nat, t: nat, r: nat, n: int, p: nat)
    requires IsPrime(p) && Shanks(m, c, t, r, n, p) && 0 < i < m
    requires Cong(Pow(t, Two(i)), 1, p) && !Cong(Pow(t, Two(i - 1)), 1, p)
    ensures var b := Mod(Pow(c, Two(m - i - 1)), p);
            Shanks(i, Mod(b * b, p), Mod(t * Mod(b * b, p), p), Mod(r * b, p), n, p)
  {
    var b := Mod(Pow(c, Two(m - i - 1)), p);
    RootStep(t, b, n, r, p);
    OrderStep(m, i, c, p);
    OrderDrops(t, Mod(b * b, p), i, p);
  }

  /** p - 1 = 2^S·Q gives the exponents their halves. */
  lemma HalfExponent(p: nat, q: nat, s: nat)
    requires p > 2 && s >= 1 && Two(s) * q == p - 1
    ensures q * Two(s - 1) == (p - 1) / 2
  {
    Swap(2, Two(s - 1), q);
    Commute(Two(s - 1), q);
  }

  lemma Begin(n: int, z: int, q: nat, s: nat, p: nat)
    requires p > 2 && s >= 1 && Two(s) * q == p - 1 && q % 2 == 1
    requires IsNonresidue(z, p) && Cong(Pow(n, (p - 1) / 2), 1, p)
    ensures Shanks(s, Mod(Pow(z, q), p), Mod(Pow(n, q), p), Mod(Pow(n, (q + 1) / 2), p), n, p)
  {
    HalfExponent(p, q, s);
    PowerOfReduced(z, q, s - 1, p);
    PowerOfReduced(n, q, s - 1, p);
    assert Mod(-1, p) == p - 1;
    assert Mod(p - 1, p) == p - 1;
    RootOfPower(n, q, p);
  }

  lemma PowerOfReduced(x: int, q: nat, k: nat, p: nat)
    requires p > 1
    ensures q * Two(k) >= 0 && Cong(Pow(Mod(Pow(x, q), p), Two(k)), Pow(x, q * Two(k)), p)
  {
    Reduced(Pow(x, q), p);
    PowCong(Mod(Pow(x, q), p), Pow(x, q), Two(k), p);
    PowPow(x, q, Two(k));
  }

  lemma RootOfPower(n: int, q: nat, p: nat)
    requires p > 1 && q % 2 == 1
    ensures var r := Mod(Pow(n, (q + 1) / 2), p); Cong(r * r, Mod(Pow(n, q), p) * n, p)
  {
    var h := (q + 1) / 2;
    var r, t := Mod(Pow(n, h), p), Mod(Pow(n, q), p);
    Reduced(Pow(n, h), p);
    CongMul(r, Pow(n, h), r, Pow(n, h), p);
    PowAdd(n, h, h);
    assert h + h == q + 1;
    assert Pow(n, q + 1) == n * Pow(n, q);
    Commute(n, Pow(n, q));
    Reduced(Pow(n, q), p);
    CongScale(t, Pow(n, q), n, p);
  }

  /** For p = 3 mod 4 one power is the root. */
  lemma ShortRoot(n: int, q: nat, p: nat)
    requires p > 2 && p - 1 == 2 * q && q % 2 == 1 && Cong(Pow(n, (p - 1) / 2), 1, p)
    ensures var r := Mod(Pow(n, (p + 1) / 4), p); Cong(r * r, n, p)
  {
    assert (p + 1) / 4 == (q + 1) / 2;
    RootOfPower(n, q, p);
    var t := Mod(Pow(n, q), p);
    Reduced(Pow(n, q), p);
    CongScale(t, 1, n, p);
    Commute(n, 1);
  }

  /** A number that fails the test is no square. */
  lemma NoRoot(n: int, x: int, p: nat)
    requires IsPrime(p) && p % 2 == 1 && !Cong(n, 0, p) && !Cong(Pow(n, (p - 1) / 2), 1, p)
    ensures !Cong(x * x, n, p)
  {
    assert 0 * x == 0;
    if Cong(x * x, n, p) {
      if Cong(x, 0, p) {
        CongScale(x, 0, x, p);
      } else {
        SquarePassesTest(x, p);
        PowCong(x * x, n, (p - 1) / 2, p);
      }
    }
  }

  method SplitEven(p: nat) returns (q: nat, s: nat)
    requires p > 2 && p % 2 == 1
    ensures s >= 1 && q % 2 == 1 && Two(s) * q == p - 1
  {
    q, s := p - 1, 0;
    while q % 2 == 0
      invariant q > 0 && Two(s) * q == p - 1
      invariant s == 0 ==> q == p - 1
      decreases q
    {
      Halve(s, q);
      q, s := q / 2, s + 1;
    }
  }

  lemma Halve(s: nat, q: nat)
    requires q % 2 == 0
    ensures Two(s + 1) * (q / 2) == Two(s) * q
  {
    var h := q / 2;
    assert q == 2 * h;
    Swap(Two(s), 2, h);
    Commute(Two(s), 2);
  }

  method FindNonresidue(p: nat) returns (z: nat)
    requires IsPrime(p) && p % 2 == 1
    ensures 2 <= z < p && IsNonresidue(z, p)
    ensures forall y :: 2 <= y < z ==> !IsNonresidue(y, p)
  {
    var known := NonresidueExists(p);
    z := 2;
    var e := ModPow(z, (p - 1) / 2, p);
    while e != p - 1
      invariant 2 <= z <= known && e == Mod(Pow(z, (p - 1) / 2), p)
      invariant forall y :: 2 <= y < z ==> !IsNonresidue(y, p)
      decreases known - z
    {
      z := z + 1;
      e := ModPow(z, (p - 1) / 2, p);
    }
  }

  /** The inner loop: the least i with t^(2^i) = 1. It stops below M, so the null after it is never returned. */
  method LeastOrder(t: nat, m: nat, p: nat) returns (i: nat)
    requires p > 1 && t < p && t != 1 && m >= 1 && Cong(Pow(t, Two(m - 1)), 1, p)
    ensures 0 < i < m && Cong(Pow(t, Two(i)), 1, p) && !Cong(Pow(t, Two(i - 1)), 1, p)
  {
    i := 0;
    var tmp := t;
    assert Pow(t, 1) == t * Pow(t, 0);
    assert Mod(1, p) == 1;
    while tmp != 1
      invariant i < m && tmp == Mod(Pow(t, Two(i)), p)
      invariant i > 0 ==> !Cong(Pow(t, Two(i - 1)), 1, p)
      invariant i == 0 ==> tmp == t
      decreases m - i
    {
      PowSquare(t, i);
      Reduced(Pow(t, Two(i)), p);
      CongMul(tmp, Pow(t, Two(i)), tmp, Pow(t, Two(i)), p);
      tmp := Mod(tmp * tmp, p);
      i := i + 1;
    }
  }

  /** `modSqrt`: a root of every square, and null for nothing else. */
  method SquareRoot(n: int, p: nat) returns (root: Option<nat>)
    requires IsPrime(p) && p % 2 == 1
    ensures root.Some? ==> root.value < p && Cong(root.value * root.value, n, p)
    ensures root.None? ==> forall x: int :: !Cong(x * x, n, p)
  {
    var n' := Mod(n, p);
    Reduced(n, p);
    if n' == 0 {
      assert 0 * 0 == 0;
      return Some(0);
    }
    var test := ModPow(n', (p - 1) / 2, p);
    assert Mod(1, p) == 1;
    if test != 1 {
      forall x: int ensures !Cong(x * x, n, p) {
        NoRoot(n', x, p);
      }
      return None;
    }
    var q, s := SplitEven(p);
    if s == 1 {
      var r := ModPow(n', (p + 1) / 4, p);
      assert Two(1) == 2 * Two(0);
      ShortRoot(n', q, p);
      return Some(r);
    }
    var r := Tonelli(n', q, s, p);
    return Some(r);
  }

  /** The main loop; M goes down in every round. */
  method Tonelli(n: nat, q: nat, s: nat, p: nat) returns (r: nat)
    requires IsPrime(p) && p % 2 == 1 && s >= 1 && q % 2 == 1 && Two(s) * q == p - 1
    requires Cong(Pow(n, (p - 1) / 2), 1, p)
    ensures r < p && Cong(r * r, n, p)
  {
    var z := FindNonresidue(p);
    var m := s;
    var c := ModPow(z, q, p);
    var t := ModPow(n, q, p);
    r := ModPow(n, (q + 1) / 2, p);
    Begin(n, z, q, s, p);
    while t != 1
      invariant Shanks(m, c, t, r, n, p)
      decreases m
    {
      m, c, t, r := Improve(m, c, t, r, n, p);
    }
    Arrived(m, c, r, n, p);
  }

  method Improve(m: nat, c: nat, t: nat, r: nat, ghost n: int, p: nat) returns (m': nat, c': nat, t': nat, r': nat)
    requires IsPrime(p) && Shanks(m, c, t, r, n, p) && t != 1
    ensures m' < m && Shanks(m', c', t', r', n, p)
  {
    m' := LeastOrder(t, m, p);
    var b := ModPow(c, Two(m - m' - 1), p);
    Round(m, m', c, t, r, n, p);
    c' := Mod(b * b, p);
    t' := Mod(t * c', p);
    r' := Mod(r * b, p);
  }

  lemma Arrived(m: nat, c: nat, r: nat, n: int, p: nat)
    requires p > 1 && Shanks(m, c, 1, r, n, p)
    ensures Cong(r * r, n, p)
  {
    Commute(n, 1);
  }
}
