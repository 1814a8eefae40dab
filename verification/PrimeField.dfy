/** Two facts about a prime modulus that the square root of dapp/amm-bjj.js rests on: Fermat's little theorem,
    and that some number is not a square. */
module PrimeField {
  import opened Remainder
  import opened ModArith

  // ----- Fermat's little theorem, by multiplying all the residues by a

  lemma NonEmpty(xs: set<int>)
    ensures xs == {} || exists x :: x in xs
  {
    if !exists x :: x in xs {
      assert xs == {};
    }
  }

  ghost function Pick(xs: set<int>): int
    requires xs != {}
    ensures Pick(xs) in xs
  {
    NonEmpty(xs);
    var x :| x in xs; x
  }

  ghost function Product(xs: set<int>): int {
    if xs == {} then 1 else Pick(xs) * Product(xs - {Pick(xs)})
  }

  /** The order of picking does not matter. */
  lemma {:induction false} ProductRemove(xs: set<int>, y: int)
    requires y in xs
    ensures Product(xs) == y * Product(xs - {y})
    decreases |xs|
  {
    var x := Pick(xs);
    if x != y {
      ProductRemove(xs - {x}, y);
      ProductRemove(xs - {y}, x);
      assert xs - {x} - {y} == xs - {y} - {x};
      var rest := Product(xs - {x} - {y});
      Swap(x, y, rest);
      Swap(y, x, rest);
    }
  }

  lemma ProductAdd(xs: set<int>, y: int)
    requires y !in xs
    ensures Product(xs + {y}) == y * Product(xs)
  {
    ProductRemove(xs + {y}, y);
    assert xs + {y} - {y} == xs;
  }

  function Upto(n: nat): set<int> {
    if n == 0 then {} else Upto(n - 1) + {n}
  }

  lemma {:induction false} UptoIs(n: nat)
    ensures |Upto(n)| == n && forall x :: x in Upto(n) <==> 1 <= x <= n
  {
    if n > 0 {
      UptoIs(n - 1);
    }
  }

  /** a, 2a, …, ka, reduced. */
  function Multiples(a: int, k: nat, p: nat): set<int>
    requires p > 0
  {
    if k == 0 then {} else Multiples(a, k - 1, p) + {Mod(a * k, p)}
  }

  lemma NotZero(x: int, p: nat)
    requires 0 < x < p
    ensures !Cong(x, 0, p)
  {
  }

  lemma Commute(x: int, y: int)
    ensures x * y == y * x && 1 * x == x
  {
  }

  lemma DistinctMultiples(a: int, k: nat, i: nat, p: nat)
    requires IsPrime(p) && !Cong(a, 0, p) && i < k < p
    ensures Mod(a * k, p) != Mod(a * i, p)
  {
    if Mod(a * k, p) == Mod(a * i, p) {
      Commute(a, k);
      Commute(a, i);
      CancelCong(k, i, a, p);
      Unique(k, i, p);
    }
  }

  lemma {:induction false} NewMultiple(a: int, k: nat, j: nat, p: nat)
    requires IsPrime(p) && !Cong(a, 0, p) && j < k < p
    ensures Mod(a * k, p) !in Multiples(a, j, p) && Mod(a * k, p) != 0
  {
    if j == 0 {
      DistinctMultiples(a, k, 0, p);
      assert a * 0 == 0;
    } else {
      NewMultiple(a, k, j - 1, p);
      DistinctMultiples(a, k, j, p);
    }
  }

  lemma CancelOne(x: int, c: int, p: nat)
    requires IsPrime(p) && !Cong(c, 0, p) && Cong(x * c, c, p)
    ensures Cong(x, 1, p)
  {
    Commute(c, 1);
    CancelCong(x, 1, c, p);
  }

  function Factorial(n: nat): int {
    if n == 0 then 1 else n * Factorial(n - 1)
  }

  lemma {:induction false} UptoProduct(n: nat)
    ensures Product(Upto(n)) == Factorial(n)
  {
    if n > 0 {
      UptoProduct(n - 1);
      UptoIs(n - 1);
      ProductAdd(Upto(n - 1), n);
    }
  }

  /** The multiples are k different residues, and their product is a^k·k!. */
  lemma {:induction false} MultiplesProduct(a: int, k: nat, p: nat)
    requires IsPrime(p) && !Cong(a, 0, p) && k < p
    ensures |Multiples(a, k, p)| == k && (forall x :: x in Multiples(a, k, p) ==> 1 <= x < p)
    ensures Cong(Product(Multiples(a, k, p)), Pow(a, k) * Factorial(k), p)
  {
    if k > 0 {
      MultiplesProduct(a, k - 1, p);
      NewMultiple(a, k, k - 1, p);
      var before, x := Multiples(a, k - 1, p), Mod(a * k, p);
      ProductAdd(before, x);
      Reduced(a * k, p);
      CongMul(x, a * k, Product(before), Pow(a, k - 1) * Factorial(k - 1), p);
      Pairs(a, k, Pow(a, k - 1), Factorial(k - 1));
    }
  }

  lemma {:induction false} FactorialNotZero(n: nat, p: nat)
    requires IsPrime(p) && n < p
    ensures !Cong(Factorial(n), 0, p)
  {
    if n == 0 {
      NotZero(1, p);
    } else {
      FactorialNotZero(n - 1, p);
      NotZero(n, p);
      if Cong(Factorial(n), 0, p) {
        PrimeSplits(n, Factorial(n - 1), p);
      }
    }
  }

  lemma {:induction false} SubsetSize(xs: set<int>, ys: set<int>)
    requires xs <= ys
    ensures |xs| <= |ys| && (|xs| == |ys| ==> xs == ys)
    decreases |xs|
  {
    if xs == {} {
      assert |ys| == 0 ==> ys == {};
    } else {
      var x := Pick(xs);
      SubsetSize(xs - {x}, ys - {x});
      assert xs == (xs - {x}) + {x} && ys == (ys - {x}) + {x};
    }
  }

  lemma SameProducts(ms: set<int>, us: set<int>, power: int, f: int, p: nat)
    requires IsPrime(p) && ms <= us && |ms| == |us| && !Cong(f, 0, p)
    requires Cong(Product(ms), power * f, p) && Product(us) == f
    ensures Cong(power, 1, p)
  {
    SubsetSize(ms, us);
    CancelOne(power, f, p);
  }

  lemma Fermat(a: int, p: nat)
    requires IsPrime(p) && !Cong(a, 0, p)
    ensures Cong(Pow(a, p - 1), 1, p)
  {
    var n := p - 1;
    MultiplesProduct(a, n, p);
    UptoIs(n);
    forall x | x in Multiples(a, n, p) ensures x in Upto(n) {
      assert 1 <= x <= n;
    }
    UptoProduct(n);
    FactorialNotZero(n, p);
    SameProducts(Multiples(a, n, p), Upto(n), Pow(a, n), Factorial(n), p);
  }

  // ----- polynomials: no more roots than the degree

  /** The value of a polynomial with coefficients from the constant up. */
  function Eval(c: seq<int>, x: int): int {
    if c == [] then 0 else c[0] + x * Eval(c[1..], x)
  }

  /** c plus a times the shorter q, coefficient by coefficient. */
  function Plus(c: seq<int>, a: int, q: seq<int>): (r: seq<int>)
    requires |q| < |c|
    ensures |r| == |c| && r[|c| - 1] == c[|c| - 1]
  {
    if q == [] then c else [c[0] + a * q[0]] + Plus(c[1..], a, q[1..])
  }

  /** The quotient of c by (x - a). */
  function Divided(c: seq<int>, a: int): (q: seq<int>)
    requires c != []
    ensures |q| == |c| - 1 && (|c| > 1 ==> q[|q| - 1] == c[|c| - 1])
  {
    if |c| == 1 then [] else Plus(c[1..], a, Divided(c[1..], a))
  }

  lemma {:induction false} EvalPlus(c: seq<int>, a: int, q: seq<int>, x: int)
    requires |q| < |c|
    ensures Eval(Plus(c, a, q), x) == Eval(c, x) + a * Eval(q, x)
  {
    if q == [] {
      assert a * 0 == 0;
    } else {
      EvalPlus(c[1..], a, q[1..], x);
      var u, v := Eval(c[1..], x), Eval(q[1..], x);
      assert Plus(c, a, q)[1..] == Plus(c[1..], a, q[1..]);
      Spread(c[0], q[0], a, x, u, v);
    }
  }

  lemma Spread(c0: int, q0: int, a: int, x: int, u: int, v: int)
    ensures c0 + a * q0 + x * (u + a * v) == c0 + x * u + a * (q0 + x * v)
  {
    assert x * (u + a * v) == x * u + x * (a * v);
    assert a * (q0 + x * v) == a * q0 + a * (x * v);
    Swap(x, a, v);
    Swap(a, x, v);
  }

  lemma {:induction false} FactorOut(c: seq<int>, a: int, x: int)
    requires c != []
    ensures Eval(c, x) == Eval(c, a) + (x - a) * Eval(Divided(c, a), x)
  {
    if |c| == 1 {
      assert (x - a) * 0 == 0 && x * 0 == 0 && a * 0 == 0;
    } else {
      var rest := c[1..];
      FactorOut(rest, a, x);
      EvalPlus(rest, a, Divided(rest, a), x);
      Remainders(c[0], Eval(rest, x), Eval(rest, a), Eval(Divided(rest, a), x), a, x);
    }
  }

  lemma Remainders(c0: int, u: int, v: int, q: int, a: int, x: int)
    requires u == v + (x - a) * q
    ensures c0 + x * u == c0 + a * v + (x - a) * (u + a * q)
  {
    Dist(x, a, u);
    Swap(x - a, a, q);
    Swap(a, x - a, q);
    assert (x - a) * (u + a * q) == (x - a) * u + (x - a) * (a * q);
    assert a * u == a * v + a * ((x - a) * q);
  }

  /** Modulo a prime, a polynomial with as many roots in a row as coefficients has leading coefficient zero. */
  lemma {:induction false} TooManyRoots(c: seq<int>, a: int, p: nat)
    requires IsPrime(p) && 0 < |c| <= p
    requires forall x :: a <= x < a + |c| ==> Cong(Eval(c, x), 0, p)
    ensures Cong(c[|c| - 1], 0, p)
    decreases |c|
  {
    if |c| == 1 {
      assert a * 0 == 0;
      assert Eval(c, a) == c[0];
    } else {
      var q := Divided(c, a);
      forall x | a + 1 <= x < a + 1 + |q| ensures Cong(Eval(q, x), 0, p) {
        FactorOut(c, a, x);
        CongAdd(Eval(c, x), 0, Eval(c, a), 0, p);
        PrimeSplits(x - a, Eval(q, x), p);
        NotZero(x - a, p);
      }
      TooManyRoots(q, a + 1, p);
    }
  }

  function Monomial(m: nat): (c: seq<int>)
    ensures |c| == m + 1 && c[m] == 1
  {
    if m == 0 then [1] else [0] + Monomial(m - 1)
  }

  lemma {:induction false} EvalMonomial(m: nat, x: int)
    ensures Eval(Monomial(m), x) == Pow(x, m)
  {
    if m == 0 {
      assert x * 0 == 0;
      assert Monomial(0)[1..] == [];
    } else {
      EvalMonomial(m - 1, x);
      assert Monomial(m)[1..] == Monomial(m - 1);
    }
  }

  /** Not every number to the power m is 1. */
  lemma SomePowerIsNotOne(m: nat, p: nat) returns (x: nat)
    requires IsPrime(p) && 0 < m < p - 1
    ensures 1 <= x <= m + 1 && !Cong(Pow(x, m), 1, p)
  {
    if forall y :: 1 <= y < m + 2 ==> Cong(Pow(y, m), 1, p) {
      var c := [-1] + Monomial(m - 1);
      forall y | 1 <= y < 1 + |c| ensures Cong(Eval(c, y), 0, p) {
        EvalMonomial(m - 1, y);
        assert c[1..] == Monomial(m - 1);
        CongAdd(Pow(y, m), 1, 1, 1, p);
      }
      TooManyRoots(c, 1, p);
      NotZero(1, p);
      assert false;
    }
    var y :| 1 <= y < m + 2 && !Cong(Pow(y, m), 1, p);
    x := y;
  }

  /** z^((p-1)/2) is -1. */
  ghost predicate IsNonresidue(z: int, p: nat)
    requires p > 1
  {
    Mod(Pow(z, (p - 1) / 2), p) == p - 1
  }

  /** Modulo an odd prime some number from 2 on is not a square. */
  lemma NonresidueExists(p: nat) returns (z: nat)
    requires IsPrime(p) && p % 2 == 1
    ensures 2 <= z < p && IsNonresidue(z, p)
  {
    var m := (p - 1) / 2;
    var x := SomePowerIsNotOne(m, p);
    PowOne(m);
    NotZero(x, p);
    Fermat(x, p);
    PowAdd(x, m, m);
    SquareRoots(Pow(x, m), 1, p);
    assert Mod(-1, p) == p - 1;
    z := x;
  }

  /** Euler: a square passes the test the square root makes first. */
  lemma SquarePassesTest(x: int, p: nat)
    requires IsPrime(p) && p % 2 == 1 && !Cong(x, 0, p)
    ensures Cong(Pow(x * x, (p - 1) / 2), 1, p)
  {
    var m := (p - 1) / 2;
    PowTimes(x, x, m);
    PowAdd(x, m, m);
    Fermat(x, p);
  }
}
