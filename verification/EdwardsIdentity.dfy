/** The polynomial identity behind the addition on a twisted Edwards curve, over the integers: for any a, d and any two
    points, on a curve or not, how far their sum is from the curve in terms of how far they are. */
module EdwardsIdentity {
  lemma Square(x: int, y: int)
    ensures (x + y) * (x + y) == x * x + y * y + 2 * (x * y)
    ensures (x - y) * (x - y) == x * x + y * y - 2 * (x * y)
    ensures (x + y) * (x - y) == x * x - y * y
  {
  }

  lemma Cross(a: int, b: int, c: int, d: int)
    ensures (a * b) * (c * d) == (a * c) * (b * d)
    ensures (a * b) * (c * d) == (a * d) * (b * c)
    ensures (a * b) * (a * b) == (a * a) * (b * b)
  {
  }

  lemma Expand(x: int, y: int, z: int, w: int)
    ensures (x + y) * (z - w) == x * z - x * w + y * z - y * w
  {
  }

  /** The two numerators of a sum, squared; A, B, C, D are the squares of the coordinates, m the product of all four. */
  lemma Numerators(a: int, x1: int, y1: int, x2: int, y2: int)
    ensures var m, n1, n2 := (x1 * y1) * (x2 * y2), x1 * y2 + y1 * x2, y1 * y2 - a * (x1 * x2);
            && n1 * n1 == (x1 * x1) * (y2 * y2) + (y1 * y1) * (x2 * x2) + 2 * m
            && n2 * n2 == (y1 * y1) * (y2 * y2) + (a * a) * ((x1 * x1) * (x2 * x2)) - 2 * (a * m)
  {
    Square(x1 * y2, y1 * x2);
    Square(y1 * y2, a * (x1 * x2));
    Cross(x1, y2, y1, x2);
    Cross(x1, y2, x1, y2);
    Cross(y1, x2, y1, x2);
    Cross(y1, y2, y1, y2);
    Cross(x1, x2, x1, x2);
    Cross(a, x1 * x2, a, x1 * x2);
    Cross(x1, y1, x2, y2);
    Pull(y1 * y2, a, x1 * x2);
  }

  lemma Pull(x: int, a: int, y: int)
    ensures x * (a * y) == a * (y * x)
  {
  }

  lemma Norm(a: int, A: int, B: int, C: int, D: int, m: int)
    ensures a * (A * D + B * C + 2 * m) + (B * D + (a * a) * (A * C) - 2 * (a * m)) == (a * A + B) * (a * C + D)
    ensures (B * D + (a * a) * (A * C) - 2 * (a * m)) - a * (A * D + B * C + 2 * m) == (B - a * A) * (D - a * C) - 4 * (a * m)
  {
  }

  /** The product of the numerators. */
  lemma Product(a: int, x1: int, y1: int, x2: int, y2: int)
    ensures (x1 * y2 + y1 * x2) * (y1 * y2 - a * (x1 * x2))
            == (x1 * y1) * (y2 * y2 - a * (x2 * x2)) + (x2 * y2) * (y1 * y1 - a * (x1 * x1))
  {
    Expand(x1 * y2, y1 * x2, y1 * y2, a * (x1 * x2));
    Cross(x1, y2, y1, y2);
    Cross(y1, x2, y1, y2);
    Pull(x1 * y2, a, x1 * x2);
    Pull(y1 * x2, a, x1 * x2);
    Cross(x1, x2, x1, y2);
    Cross(x1, x2, y1, x2);
    Spread(x1 * y1, y2 * y2, a, x2 * x2);
    Spread(x2 * y2, y1 * y1, a, x1 * x1);
  }

  lemma Spread(p: int, y: int, a: int, x: int)
    ensures p * (y - a * x) == p * y - a * (p * x)
  {
  }

  lemma SquareDifference(a: int, A: int, B: int)
    ensures (B - a * A) * (B - a * A) == (a * A + B) * (a * A + B) - 4 * (a * (A * B))
  {
  }

  lemma SquareSum(p: int, q: int, f: int, g: int)
    ensures (p * g + q * f) * (p * g + q * f) == (p * p) * (g * g) + (q * q) * (f * f) + 2 * ((p * q) * (f * g))
  {
  }

  lemma Mix(a: int, x: int, y: int, e: int)
    ensures a * x * ((1 - e) * (1 - e)) + y * ((1 + e) * (1 + e)) == (a * x + y) * (1 + e * e) + 2 * (e * (y - a * x))
  {
  }

  lemma Weights(al: int, be: int)
    ensures (1 + al) * (1 + be) * (1 + al * be) - al * ((1 + be) * (1 + be)) - be * ((1 + al) * (1 + al))
            == (1 - al * be) * (1 - al * be)
  {
  }

  /** The product of the numerators, squared, by t1 = a·x1² + y1² and t2 = a·x2² + y2². */
  lemma ProductSquared(a: int, x1: int, y1: int, x2: int, y2: int)
    ensures var p, q, t1, t2 := x1 * y1, x2 * y2, a * (x1 * x1) + y1 * y1, a * (x2 * x2) + y2 * y2;
            var n1, n2, f, g := x1 * y2 + y1 * x2, y1 * y2 - a * (x1 * x2), y1 * y1 - a * (x1 * x1), y2 * y2 - a * (x2 * x2);
            (n1 * n1) * (n2 * n2) == (p * p) * (t2 * t2) + (q * q) * (t1 * t1) - 8 * (a * ((p * q) * (p * q))) + 2 * ((p * q) * (f * g))
  {
    var p, q, t1, t2 := x1 * y1, x2 * y2, a * (x1 * x1) + y1 * y1, a * (x2 * x2) + y2 * y2;
    var n1, n2, f, g := x1 * y2 + y1 * x2, y1 * y2 - a * (x1 * x2), y1 * y1 - a * (x1 * x1), y2 * y2 - a * (x2 * x2);
    Product(a, x1, y1, x2, y2);
    Cross(n1, n2, n1, n2);
    SquareSum(p, q, f, g);
    SquareDifference(a, x1 * x1, y1 * y1);
    SquareDifference(a, x2 * x2, y2 * y2);
    Cross(x1, y1, x1, y1);
    Cross(x2, y2, x2, y2);
    FourTerms(a, p * p, q * q, t1 * t1, t2 * t2, f * f, g * g);
    Cross(p, q, p, q);
  }

  lemma FourTerms(a: int, pp: int, qq: int, tt1: int, tt2: int, ff: int, gg: int)
    requires ff == tt1 - 4 * (a * pp) && gg == tt2 - 4 * (a * qq)
    ensures pp * gg + qq * ff == pp * tt2 + qq * tt1 - 8 * (a * (pp * qq))
  {
    Spread(pp, tt2, 4 * a, qq);
    Spread(qq, tt1, 4 * a, pp);
    assert 4 * (a * pp) == (4 * a) * pp && 4 * (a * qq) == (4 * a) * qq;
    assert qq * pp == pp * qq;
    assert (4 * a) * (pp * qq) == 4 * (a * (pp * qq));
  }

  /** How far the sum is from the curve: with e = d·x1·x2·y1·y2 and both sides times the squared denominators. */
  lemma SumIdentity(a: int, d: int, x1: int, y1: int, x2: int, y2: int)
    ensures var p, q, t1, t2 := x1 * y1, x2 * y2, a * (x1 * x1) + y1 * y1, a * (x2 * x2) + y2 * y2;
            var n1, n2, e := x1 * y2 + y1 * x2, y1 * y2 - a * (x1 * x2), d * ((x1 * y1) * (x2 * y2));
            a * (n1 * n1) * ((1 - e) * (1 - e)) + (n2 * n2) * ((1 + e) * (1 + e))
            == d * ((n1 * n1) * (n2 * n2)) + (t1 * t2) * (1 + e * e) - (d * (p * p)) * (t2 * t2) - (d * (q * q)) * (t1 * t1)
  {
    var p, q, t1, t2 := x1 * y1, x2 * y2, a * (x1 * x1) + y1 * y1, a * (x2 * x2) + y2 * y2;
    var n1, n2, e := x1 * y2 + y1 * x2, y1 * y2 - a * (x1 * x2), d * ((x1 * y1) * (x2 * y2));
    var f, g := y1 * y1 - a * (x1 * x1), y2 * y2 - a * (x2 * x2);
    Numerators(a, x1, y1, x2, y2);
    Norm(a, x1 * x1, y1 * y1, x2 * x2, y2 * y2, p * q);
    Mix(a, n1 * n1, n2 * n2, e);
    ProductSquared(a, x1, y1, x2, y2);
    Gather(a, d, p * q, f * g, p * p, q * q, t1 * t1, t2 * t2);
  }

  /** The cross terms on both sides are the same. */
  lemma Gather(a: int, d: int, m: int, fg: int, pp: int, qq: int, tt1: int, tt2: int)
    ensures d * (pp * tt2 + qq * tt1 - 8 * (a * (m * m)) + 2 * (m * fg))
            == (d * pp) * tt2 + (d * qq) * tt1 + 2 * ((d * m) * (fg - 4 * (a * m)))
  {
    assert d * (pp * tt2) == (d * pp) * tt2 && d * (qq * tt1) == (d * qq) * tt1;
    assert (d * m) * fg == d * (m * fg);
    assert (d * m) * (a * m) == d * (a * (m * m));
  }
}
