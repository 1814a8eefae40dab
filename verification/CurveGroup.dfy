/** The group the signature code computes in: any commutative group whose elements have order
    dividing `n`, with a generator of order exactly `n`, a y-parity that flips under negation,
    and an x coordinate that two non-zero points share only when they are equal or opposite.
    Nothing else is used of secp256k1. */
module CurveGroup {
  import opened Wrappers
  import opened Remainder

  datatype Curve<!P(==)> = Curve(
    n: int,
    g: P,
    zero: P,
    add: (P, P) -> P,
    neg: P -> P,
    even: P -> bool,
    x: P -> int,
    lift: int -> Option<P>)

  /** Marks the points at which a law is wanted, so that laws are instantiated only on request. */
  predicate At<P>(p: P, q: P, r: P) {
    true
  }

  /** k * p for a natural number k. */
  function Mul<P(==)>(c: Curve<P>, k: nat, p: P): P {
    if k == 0 then c.zero else c.add(Mul(c, k - 1, p), p)
  }

  /** The point itself, or its negation: multiplication by the sign of a y-parity. */
  function Flip<P>(c: Curve<P>, keep: bool, p: P): P {
    if keep then p else c.neg(p)
  }

  ghost predicate Laws<P(!new)>(c: Curve<P>) {
    && c.n > 2
    && (forall p, q, r {:trigger At(p, q, r)} :: At(p, q, r) ==>
          && c.add(c.add(p, q), r) == c.add(p, c.add(q, r))
          && c.add(p, q) == c.add(q, p)
          && c.add(p, c.zero) == p
          && c.add(p, c.neg(p)) == c.zero
          && Mul(c, c.n, p) == c.zero
          && (p != c.zero ==> c.even(c.neg(p)) != c.even(p))
          && (p != c.zero ==> c.lift(c.x(p)) == Some(Flip(c, c.even(p), p)))
          && (p != c.zero && q != c.zero ==> (c.x(p) == c.x(q) <==> p == q || p == c.neg(q))))
    && (forall k: nat :: 0 < k < c.n ==> Mul(c, k, c.g) != c.zero)
    && (forall x {:trigger c.lift(x)} :: c.lift(x).Some? ==>
          c.lift(x).value != c.zero && c.even(c.lift(x).value) && c.x(c.lift(x).value) == x)
  }

  /** The same sign applied to a scalar, as `n - k`. */
  function FlipN<P(==)>(c: Curve<P>, keep: bool, k: int): (r: nat)
    requires c.n > 2
    ensures r < c.n
  {
    if keep then ModN(c, k) else ModN(c, c.n - ModN(c, k))
  }

  /** Scalars are reduced into 0..n-1, as `modN` does. */
  function ModN<P(==)>(c: Curve<P>, k: int): (r: nat)
    requires c.n > 2
    ensures r < c.n
  {
    Mod(k, c.n)
  }

  function MulG<P(==)>(c: Curve<P>, k: int): P
    requires c.n > 2
  {
    Mul(c, ModN(c, k), c.g)
  }

  // ----- the laws, one instance at a time

  lemma Assoc<P(!new)>(c: Curve<P>, p: P, q: P, r: P)
    requires Laws(c)
    ensures c.add(c.add(p, q), r) == c.add(p, c.add(q, r))
  {
    assert At(p, q, r);
  }

  lemma Comm<P(!new)>(c: Curve<P>, p: P, q: P)
    requires Laws(c)
    ensures c.add(p, q) == c.add(q, p)
  {
    assert At(p, q, q);
  }

  lemma Zero<P(!new)>(c: Curve<P>, p: P)
    requires Laws(c)
    ensures c.add(p, c.zero) == p && c.add(c.zero, p) == p
  {
    assert At(p, c.zero, p);
  }

  lemma Opposite<P(!new)>(c: Curve<P>, p: P)
    requires Laws(c)
    ensures c.add(p, c.neg(p)) == c.zero && c.add(c.neg(p), p) == c.zero
  {
    assert At(p, c.neg(p), p);
  }

  /** An element that cancels p is -p. */
  lemma NegUnique<P(!new)>(c: Curve<P>, p: P, q: P)
    requires Laws(c) && c.add(p, q) == c.zero
    ensures q == c.neg(p)
  {
    Zero(c, q);
    Opposite(c, p);
    Assoc(c, c.neg(p), p, q);
    Zero(c, c.neg(p));
  }

  lemma NegNeg<P(!new)>(c: Curve<P>, p: P)
    requires Laws(c)
    ensures c.neg(c.neg(p)) == p
  {
    Opposite(c, p);
    NegUnique(c, c.neg(p), p);
  }

  /** (p + q) + (r + s) == (p + r) + (q + s) */
  lemma Swap4<P(!new)>(c: Curve<P>, p: P, q: P, r: P, s: P)
    requires Laws(c)
    ensures c.add(c.add(p, q), c.add(r, s)) == c.add(c.add(p, r), c.add(q, s))
  {
    Assoc(c, p, q, c.add(r, s));
    Assoc(c, q, r, s);
    Comm(c, q, r);
    Assoc(c, r, q, s);
    Assoc(c, p, r, c.add(q, s));
  }

  lemma NegAdd<P(!new)>(c: Curve<P>, p: P, q: P)
    requires Laws(c)
    ensures c.neg(c.add(p, q)) == c.add(c.neg(p), c.neg(q))
  {
    Swap4(c, p, q, c.neg(p), c.neg(q));
    Opposite(c, p);
    Opposite(c, q);
    Zero(c, c.zero);
    NegUnique(c, c.add(p, q), c.add(c.neg(p), c.neg(q)));
  }

  // ----- multiples

  lemma {:induction false} MulAdd<P(!new)>(c: Curve<P>, a: nat, b: nat, p: P)
    requires Laws(c)
    ensures Mul(c, a + b, p) == c.add(Mul(c, a, p), Mul(c, b, p))
  {
    if b == 0 {
      Zero(c, Mul(c, a, p));
    } else {
      MulAdd(c, a, b - 1, p);
      Assoc(c, Mul(c, a, p), Mul(c, b - 1, p), p);
    }
  }

  lemma {:induction false} MulZero<P(!new)>(c: Curve<P>, k: nat)
    requires Laws(c)
    ensures Mul(c, k, c.zero) == c.zero
  {
    if k > 0 {
      MulZero(c, k - 1);
      Zero(c, c.zero);
    }
  }

  lemma {:induction false} MulMul<P(!new)>(c: Curve<P>, a: nat, b: nat, p: P)
    requires Laws(c)
    ensures Mul(c, a * b, p) == Mul(c, a, Mul(c, b, p))
  {
    if a > 0 {
      MulMul(c, a - 1, b, p);
      assert a * b == (a - 1) * b + b;
      MulAdd(c, (a - 1) * b, b, p);
    }
  }

  lemma {:induction false} MulDist<P(!new)>(c: Curve<P>, k: nat, p: P, q: P)
    requires Laws(c)
    ensures Mul(c, k, c.add(p, q)) == c.add(Mul(c, k, p), Mul(c, k, q))
  {
    if k == 0 {
      Zero(c, c.zero);
    } else {
      MulDist(c, k - 1, p, q);
      Swap4(c, Mul(c, k - 1, p), Mul(c, k - 1, q), p, q);
    }
  }

  lemma {:induction false} MulMod<P(!new)>(c: Curve<P>, k: nat, p: P)
    requires Laws(c)
    ensures Mul(c, Mod(k, c.n), p) == Mul(c, k, p)
  {
    if k >= c.n {
      MulMod(c, k - c.n, p);
      MulAdd(c, k - c.n, c.n, p);
      assert At(p, p, p);
      Zero(c, Mul(c, k - c.n, p));
    }
  }

  lemma MulOne<P(!new)>(c: Curve<P>, p: P)
    requires Laws(c)
    ensures Mul(c, 1, p) == p
  {
    assert Mul(c, 1, p) == c.add(Mul(c, 0, p), p);
    Zero(c, p);
  }

  /** Negating the scalar modulo n negates the point. */
  lemma MulNeg<P(!new)>(c: Curve<P>, k: nat, p: P)
    requires Laws(c) && k <= c.n
    ensures Mul(c, c.n - k, p) == c.neg(Mul(c, k, p))
  {
    MulAdd(c, k, c.n - k, p);
    assert At(p, p, p);
    NegUnique(c, Mul(c, k, p), Mul(c, c.n - k, p));
  }

  lemma MulNegPoint<P(!new)>(c: Curve<P>, k: nat, p: P)
    requires Laws(c)
    ensures Mul(c, k, c.neg(p)) == c.neg(Mul(c, k, p))
  {
    MulDist(c, k, p, c.neg(p));
    Opposite(c, p);
    MulZero(c, k);
    NegUnique(c, Mul(c, k, p), Mul(c, k, c.neg(p)));
  }

  /** A scalar is determined modulo n by its multiple of the generator. */
  lemma GeneratorInjective<P(!new)>(c: Curve<P>, a: nat, b: nat)
    requires Laws(c) && a < c.n && b < c.n
    ensures Mul(c, a, c.g) == Mul(c, b, c.g) ==> a == b
  {
    if a != b {
      var hi, lo := if a < b then b else a, if a < b then a else b;
      MulAdd(c, lo, c.n - hi, c.g);
      MulAdd(c, hi, c.n - hi, c.g);
      assert At(c.g, c.g, c.g);
      assert Mul(c, lo + (c.n - hi), c.g) != c.zero;
    }
  }

  // ----- reduced scalars

  lemma MulGAdd<P(!new)>(c: Curve<P>, a: int, b: int)
    requires Laws(c)
    ensures MulG(c, a + b) == c.add(MulG(c, a), MulG(c, b))
  {
    var x, y := ModN(c, a), ModN(c, b);
    SumMod(a, b, c.n);
    SumMod(b, x, c.n);
    MulMod(c, x + y, c.g);
    MulAdd(c, x, y, c.g);
  }

  lemma {:induction false} MulGMul<P(!new)>(c: Curve<P>, a: nat, b: int)
    requires Laws(c)
    ensures MulG(c, a * b) == Mul(c, a, MulG(c, b))
  {
    if a > 0 {
      MulGMul(c, a - 1, b);
      assert a * b == (a - 1) * b + b;
      MulGAdd(c, (a - 1) * b, b);
    }
  }

  lemma MulGNeg<P(!new)>(c: Curve<P>, a: int)
    requires Laws(c)
    ensures MulG(c, -a) == c.neg(MulG(c, a))
  {
    MulGAdd(c, a, -a);
    NegUnique(c, MulG(c, a), MulG(c, -a));
  }

  lemma MulGFlip<P(!new)>(c: Curve<P>, keep: bool, a: int)
    requires Laws(c)
    ensures MulG(c, FlipN(c, keep, a)) == Flip(c, keep, MulG(c, a))
  {
    var k := ModN(c, a);
    if !keep {
      MulNeg(c, k, c.g);
      MulMod(c, c.n - k, c.g);
    }
  }

  lemma FlipAdd<P(!new)>(c: Curve<P>, keep: bool, p: P, q: P)
    requires Laws(c)
    ensures Flip(c, keep, c.add(p, q)) == c.add(Flip(c, keep, p), Flip(c, keep, q))
  {
    NegAdd(c, p, q);
  }

  /** The sign that makes a non-zero point even does, without changing its x coordinate. */
  lemma FlipEven<P(!new)>(c: Curve<P>, p: P)
    requires Laws(c) && p != c.zero
    ensures var q := Flip(c, c.even(p), p);
            q != c.zero && c.even(q) && c.x(q) == c.x(p)
  {
    var q := Flip(c, c.even(p), p);
    assert At(p, p, p);
    assert c.lift(c.x(p)) == Some(q);
  }

  /** An even point with the x coordinate of p is the even one of p and -p. */
  lemma EvenPointUnique<P(!new)>(c: Curve<P>, p: P, q: P)
    requires Laws(c) && p != c.zero && q != c.zero && c.even(q) && c.x(q) == c.x(p)
    ensures q == Flip(c, c.even(p), p)
  {
    assert At(q, p, p);
    assert At(p, p, p);
  }

  /** (p + q) - q == p, and adding q to a difference undoes it. */
  lemma AddSub<P(!new)>(c: Curve<P>, p: P, q: P)
    requires Laws(c)
    ensures c.add(c.add(p, q), c.neg(q)) == p
    ensures c.add(c.add(p, c.neg(q)), q) == p
  {
    Assoc(c, p, q, c.neg(q));
    Assoc(c, p, c.neg(q), q);
    Opposite(c, q);
    Zero(c, p);
  }
}
