/** The curve's addition (dapp/amm-bjj.js addPoint) against the curve's equation: a sum of points on the curve is on the
    curve, a point and its mirror image add up to the identity, and when a is a square and d is not, every sum exists. */
module BabyJubLaw {
  import opened Wrappers
  import opened Remainder
  import opened ModArith
  import opened PrimeField
  import opened BabyJub
  import EdwardsIdentity

  /** e = d·u1·v1·u2·v2: the sum's denominators are 1 + e and 1 - e. */
  function Twist(c: Params, x: Point, y: Point): int {
    c.d * ((x.u * x.v) * (y.u * y.v))
  }

  function NumU(x: Point, y: Point): int {
    x.u * y.v + x.v * y.u
  }

  function NumV(c: Params, x: Point, y: Point): int {
    x.v * y.v - c.a * (x.u * y.u)
  }

  // ----- what the code computes

  lemma Trans(a: int, b: int, c: int, p: int)
    requires p > 0 && Cong(a, b, p) && Cong(b, c, p)
    ensures Cong(a, c, p)
  {
  }

  /** Dividing by a denominator that has an inverse, and multiplying back. */
  lemma Divided(n: int, n': int, den: int, den': int, inv: int, p: int)
    requires p > 1 && Cong(n, n', p) && Cong(den, den', p) && Cong(den' * inv, 1, p)
    ensures Cong(den * Mod(n' * inv, p), n, p)
    ensures !Cong(den, 0, p)
  {
    CongScale(den, den', inv, p);
    Reduced(n' * inv, p);
    CongScale(n, n', inv, p);
    CongScale(Mod(n' * inv, p), n * inv, den, p);
    Swap(den, n, inv);
    Swap(n, den, inv);
    CongScale(den * inv, 1, n, p);
    if Cong(den, 0, p) {
      CongScale(den, 0, inv, p);
      Unique(1, 0, p);
    }
  }

  /** The product under the denominators, as the code reduces it. */
  function Prod(c: Params, x: Point, y: Point): int
    requires c.p > 1
  {
    Mod(c.d * Mod(x.u * y.u, c.p) * Mod(x.v * y.v, c.p), c.p)
  }

  lemma ProdOf(d: int, u1: int, v1: int, u2: int, v2: int, p: int)
    requires p > 1
    ensures Cong(d * ((u1 * v1) * (u2 * v2)), Mod(d * Mod(u1 * u2, p) * Mod(v1 * v2, p), p), p)
  {
    var uu, vv := Mod(u1 * u2, p), Mod(v1 * v2, p);
    Reduced(u1 * u2, p);
    Reduced(v1 * v2, p);
    CongScale(uu, u1 * u2, d, p);
    CongMul(d * uu, d * (u1 * u2), vv, v1 * v2, p);
    Reduced(d * uu * vv, p);
    EdwardsIdentity.Cross(u1, u2, v1, v2);
    Swap(d, u1 * u2, v1 * v2);
  }

  lemma TwistIs(c: Params, x: Point, y: Point)
    requires c.p > 1
    ensures Cong(Twist(c, x, y), Prod(c, x, y), c.p)
    ensures Cong(1 + Twist(c, x, y), 1 + Prod(c, x, y), c.p) && Cong(1 - Twist(c, x, y), 1 - Prod(c, x, y), c.p)
  {
    ProdOf(c.d, x.u, x.v, y.u, y.v, c.p);
    CongAdd(1, 1, Twist(c, x, y), Prod(c, x, y), c.p);
  }

  /** `addPoint`'s two inverses and two products. */
  lemma AddPointIs(c: Params, x: Point, y: Point)
    requires c.p > 1
    ensures var i1, i2 := Inverse(1 + Prod(c, x, y), c.p), Inverse(1 - Prod(c, x, y), c.p);
            && (AddPoint(c, x, y).Ok? <==> i1.Some? && i2.Some?)
            && (AddPoint(c, x, y).Ok? ==>
                  AddPoint(c, x, y).value == Point(Mod(Mod(NumU(x, y), c.p) * i1.value, c.p),
                                                   Mod((x.v * y.v - Mod(c.a * x.u * y.u, c.p)) * i2.value, c.p)))
  {
  }

  lemma NumVReduced(c: Params, x: Point, y: Point)
    requires c.p > 1
    ensures Cong(NumV(c, x, y), x.v * y.v - Mod(c.a * x.u * y.u, c.p), c.p)
  {
    Swap(c.a, x.u, y.u);
    Reduced(c.a * (x.u * y.u), c.p);
    CongAdd(x.v * y.v, x.v * y.v, c.a * (x.u * y.u), Mod(c.a * (x.u * y.u), c.p), c.p);
  }

  /** The two quotients: each coordinate of the sum times its denominator is its numerator. */
  lemma SumIsQuotient(c: Params, x: Point, y: Point)
    requires c.p > 1 && AddPoint(c, x, y).Ok?
    ensures var r, e := AddPoint(c, x, y).value, Twist(c, x, y);
            && InField(c, r)
            && Cong((1 + e) * r.u, NumU(x, y), c.p) && !Cong(1 + e, 0, c.p)
            && Cong((1 - e) * r.v, NumV(c, x, y), c.p) && !Cong(1 - e, 0, c.p)
  {
    var e, prod := Twist(c, x, y), Prod(c, x, y);
    TwistIs(c, x, y);
    AddPointIs(c, x, y);
    InverseIsInverse(1 + prod, c.p);
    InverseIsInverse(1 - prod, c.p);
    Reduced(NumU(x, y), c.p);
    NumVReduced(c, x, y);
    Divided(NumU(x, y), Mod(NumU(x, y), c.p), 1 + e, 1 + prod, Inverse(1 + prod, c.p).value, c.p);
    Divided(NumV(c, x, y), x.v * y.v - Mod(c.a * x.u * y.u, c.p), 1 - e, 1 - prod, Inverse(1 - prod, c.p).value, c.p);
  }

  /** A sum exists exactly when both denominators are other than zero. */
  lemma SumExists(c: Params, x: Point, y: Point)
    requires Sound(c)
    ensures AddPoint(c, x, y).Ok? <==> !Cong(1 + Twist(c, x, y), 0, c.p) && !Cong(1 - Twist(c, x, y), 0, c.p)
  {
    TwistIs(c, x, y);
    AddPointIs(c, x, y);
    InverseIsInverse(1 + Prod(c, x, y), c.p);
    InverseIsInverse(1 - Prod(c, x, y), c.p);
  }

  // ----- sums stay on the curve

  /** The curve's equation with the square of u·v on its right. */
  lemma OnCurveSquares(c: Params, pt: Point)
    requires c.p > 1
    ensures OnCurve(c, pt) <==>
            Cong(c.a * (pt.u * pt.u) + pt.v * pt.v, 1 + c.d * ((pt.u * pt.v) * (pt.u * pt.v)), c.p)
  {
    OnCurvePlain(c, pt);
    EdwardsIdentity.Cross(pt.u, pt.v, pt.u, pt.v);
  }

  lemma WeightsMod(t1: int, t2: int, al: int, be: int, p: int)
    requires p > 1 && Cong(t1, 1 + al, p) && Cong(t2, 1 + be, p)
    ensures Cong((t1 * t2) * (1 + al * be) - al * (t2 * t2) - be * (t1 * t1), (1 - al * be) * (1 - al * be), p)
  {
    CongMul(t1, 1 + al, t2, 1 + be, p);
    CongScale(t1 * t2, (1 + al) * (1 + be), 1 + al * be, p);
    CongMul(t1, 1 + al, t1, 1 + al, p);
    CongMul(t2, 1 + be, t2, 1 + be, p);
    CongScale(t2 * t2, (1 + be) * (1 + be), al, p);
    CongScale(t1 * t1, (1 + al) * (1 + al), be, p);
    CongAdd((t1 * t2) * (1 + al * be), (1 + al) * (1 + be) * (1 + al * be), al * (t2 * t2), al * ((1 + be) * (1 + be)), p);
    CongAdd((t1 * t2) * (1 + al * be) - al * (t2 * t2), (1 + al) * (1 + be) * (1 + al * be) - al * ((1 + be) * (1 + be)),
            be * (t1 * t1), be * ((1 + al) * (1 + al)), p);
    EdwardsIdentity.Weights(al, be);
  }

  /** e² is the product of the two points' own terms. */
  lemma TwistSquared(d: int, p: int, q: int)
    ensures (d * (p * q)) * (d * (p * q)) == (d * (p * p)) * (d * (q * q))
  {
    EdwardsIdentity.Cross(d, p * q, d, p * q);
    EdwardsIdentity.Cross(p, q, p, q);
    EdwardsIdentity.Cross(d, p * p, d, q * q);
  }

  /** The sum's equation with both denominators multiplied out. */
  lemma SumScaled(c: Params, x: Point, y: Point)
    requires c.p > 1 && OnCurve(c, x) && OnCurve(c, y)
    ensures var n1, n2, e := NumU(x, y), NumV(c, x, y), Twist(c, x, y);
            Cong(c.a * (n1 * n1) * ((1 - e) * (1 - e)) + (n2 * n2) * ((1 + e) * (1 + e)),
                 c.d * ((n1 * n1) * (n2 * n2)) + ((1 + e) * (1 - e)) * ((1 + e) * (1 - e)), c.p)
  {
    OnCurveSquares(c, x);
    OnCurveSquares(c, y);
    RestIs(c.a, c.d, x.u, x.v, y.u, y.v, c.p);
    EdwardsIdentity.SumIdentity(c.a, c.d, x.u, x.v, y.u, y.v);
    var e, n1, n2 := Twist(c, x, y), NumU(x, y), NumV(c, x, y);
    AddRest(c.a * (n1 * n1) * ((1 - e) * (1 - e)) + (n2 * n2) * ((1 + e) * (1 + e)), c.d * ((n1 * n1) * (n2 * n2)),
            Rest(c.a, c.d, x.u, x.v, y.u, y.v), ((1 + e) * (1 - e)) * ((1 + e) * (1 - e)), c.p);
  }

  lemma AddRest(left: int, right: int, rest: int, rest': int, p: int)
    requires p > 1 && left == right + rest && Cong(rest, rest', p)
    ensures Cong(left, right + rest', p)
  {
    CongAdd(right, right, rest, rest', p);
  }

  /** What the identity leaves over. */
  function Rest(a: int, d: int, x1: int, y1: int, x2: int, y2: int): int {
    var p, q, t1, t2 := x1 * y1, x2 * y2, a * (x1 * x1) + y1 * y1, a * (x2 * x2) + y2 * y2;
    var e := d * (p * q);
    (t1 * t2) * (1 + e * e) - (d * (p * p)) * (t2 * t2) - (d * (q * q)) * (t1 * t1)
  }

  lemma RestIs(a: int, d: int, x1: int, y1: int, x2: int, y2: int, n: int)
    requires n > 1 && Cong(a * (x1 * x1) + y1 * y1, 1 + d * ((x1 * y1) * (x1 * y1)), n)
    requires Cong(a * (x2 * x2) + y2 * y2, 1 + d * ((x2 * y2) * (x2 * y2)), n)
    ensures var e := d * ((x1 * y1) * (x2 * y2));
            Cong(Rest(a, d, x1, y1, x2, y2), ((1 + e) * (1 - e)) * ((1 + e) * (1 - e)), n)
  {
    var p, q := x1 * y1, x2 * y2;
    TwistSquared(d, p, q);
    WeightsMod(a * (x1 * x1) + y1 * y1, a * (x2 * x2) + y2 * y2, d * (p * p), d * (q * q), n);
    EdwardsIdentity.Square(1, d * (p * q));
  }

  /** Squares of a quotient: if n = den·z then n² = den²·z². */
  lemma SquareOf(n: int, den: int, z: int, p: int)
    requires p > 1 && Cong(den * z, n, p)
    ensures Cong(n * n, (den * den) * (z * z), p)
  {
    CongMul(n, den * z, n, den * z, p);
    EdwardsIdentity.Cross(den, z, den, z);
  }

  lemma NotZeroProduct(x: int, y: int, p: nat)
    requires IsPrime(p) && !Cong(x, 0, p) && !Cong(y, 0, p)
    ensures !Cong(x * y, 0, p)
  {
    if Cong(x * y, 0, p) {
      PrimeSplits(x, y, p);
    }
  }

  lemma LeftFactor(a: int, xx: int, yy: int, d1: int, d2: int)
    ensures a * (xx * d1) * d2 + (yy * d2) * d1 == (a * xx + yy) * (d1 * d2)
  {
    assert a * (xx * d1) == (a * xx) * d1;
    assert ((a * xx) * d1) * d2 == (a * xx) * (d1 * d2);
    assert (yy * d2) * d1 == yy * (d1 * d2);
  }

  lemma RightFactor(d: int, xx: int, yy: int, d1: int, d2: int)
    ensures d * ((xx * d1) * (yy * d2)) + d1 * d2 == (1 + d * (xx * yy)) * (d1 * d2)
  {
    EdwardsIdentity.Cross(xx, d1, yy, d2);
    assert d * ((xx * yy) * (d1 * d2)) == (d * (xx * yy)) * (d1 * d2);
  }

  /** Dividing the scaled equation by the squared denominators: uu and vv are the squares of the sum's coordinates. */
  lemma Unscaled(a: int, d: int, nn1: int, nn2: int, uu: int, vv: int, d1: int, d2: int, p: nat)
    requires IsPrime(p) && !Cong(d1, 0, p) && !Cong(d2, 0, p)
    requires Cong(nn1, uu * d1, p) && Cong(nn2, vv * d2, p)
    requires Cong(a * nn1 * d2 + nn2 * d1, d * (nn1 * nn2) + d1 * d2, p)
    ensures Cong(a * uu + vv, 1 + d * (uu * vv), p)
  {
    CongScale(nn1, uu * d1, a, p);
    CongScale(a * nn1, a * (uu * d1), d2, p);
    CongScale(nn2, vv * d2, d1, p);
    CongAdd(a * nn1 * d2, a * (uu * d1) * d2, nn2 * d1, (vv * d2) * d1, p);
    CongMul(nn1, uu * d1, nn2, vv * d2, p);
    CongScale(nn1 * nn2, (uu * d1) * (vv * d2), d, p);
    CongAdd(d * (nn1 * nn2), d * ((uu * d1) * (vv * d2)), d1 * d2, d1 * d2, p);
    LeftFactor(a, uu, vv, d1, d2);
    RightFactor(d, uu, vv, d1, d2);
    NotZeroProduct(d1, d2, p);
    CancelCong(a * uu + vv, 1 + d * (uu * vv), d1 * d2, p);
  }

  lemma QuotientsOnCurve(a: int, d: int, n1: int, n2: int, e: int, u: int, v: int, p: nat)
    requires IsPrime(p) && !Cong(1 + e, 0, p) && !Cong(1 - e, 0, p) && Cong((1 + e) * u, n1, p) && Cong((1 - e) * v, n2, p)
    requires Cong(a * (n1 * n1) * ((1 - e) * (1 - e)) + (n2 * n2) * ((1 + e) * (1 + e)),
                  d * ((n1 * n1) * (n2 * n2)) + ((1 + e) * (1 - e)) * ((1 + e) * (1 - e)), p)
    ensures Cong(a * (u * u) + v * v, 1 + d * ((u * u) * (v * v)), p)
  {
    var d1, d2 := (1 + e) * (1 + e), (1 - e) * (1 - e);
    SquareOf(n1, 1 + e, u, p);
    SquareOf(n2, 1 - e, v, p);
    NotZeroProduct(1 + e, 1 + e, p);
    NotZeroProduct(1 - e, 1 - e, p);
    EdwardsIdentity.Cross(1 + e, 1 - e, 1 + e, 1 - e);
    Commute(d1, u * u);
    Commute(d2, v * v);
    Unscaled(a, d, n1 * n1, n2 * n2, u * u, v * v, d1, d2, p);
  }

  /** Closure: whenever the sum of two points on the curve exists, it is on the curve. */
  lemma SumOnCurve(c: Params, x: Point, y: Point)
    requires Sound(c) && OnCurve(c, x) && OnCurve(c, y) && AddPoint(c, x, y).Ok?
    ensures OnCurve(c, AddPoint(c, x, y).value) && InField(c, AddPoint(c, x, y).value)
  {
    var r := AddPoint(c, x, y).value;
    SumIsQuotient(c, x, y);
    SumScaled(c, x, y);
    QuotientsOnCurve(c.a, c.d, NumU(x, y), NumV(c, x, y), Twist(c, x, y), r.u, r.v, c.p);
    OnCurvePlain(c, r);
  }

  // ----- mirror images and doubles

  /** The same v, the opposite u. */
  function Mirror(c: Params, pt: Point): (m: Point)
    requires c.p > 1
  {
    Point(Mod(0 - pt.u, c.p), pt.v)
  }

  /** Against its mirror image a point's numerators are zero and a·u² + v², its denominators 1 - w and 1 + w for
      w = d·u²·v². */
  lemma MirrorTerms(c: Params, pt: Point)
    requires c.p > 1
    ensures var m, w := Mirror(c, pt), c.d * ((pt.u * pt.v) * (pt.u * pt.v));
            && Cong(NumU(pt, m), 0, c.p) && Cong(NumV(c, pt, m), c.a * (pt.u * pt.u) + pt.v * pt.v, c.p)
            && Cong(1 - Twist(c, pt, m), 1 + w, c.p)
  {
    var m, u: int, v: int := Mirror(c, pt), pt.u, pt.v;
    var q := u * v;
    Reduced(-u, c.p);
    CongScale(m.u, -u, v, c.p);
    Negated(v, u);
    CongAdd(u * v, u * v, v * m.u, v * -u, c.p);
    Commute(u, v);
    CongScale(m.u, -u, u, c.p);
    CongScale(u * m.u, u * -u, c.a, c.p);
    CongAdd(v * v, v * v, c.a * (u * m.u), c.a * (u * -u), c.p);
    Negated(u, u);
    Negated(c.a, u * u);
    Commute(-u, v);
    CongScale(m.u * v, -q, q, c.p);
    CongScale(q * (m.u * v), q * -q, c.d, c.p);
    Negated(q, q);
    Negated(c.d, q * q);
    CongAdd(1, 1, Twist(c, pt, m), -(c.d * (q * q)), c.p);
  }

  lemma Negated(a: int, x: int)
    ensures a * -x == -(a * x)
  {
  }

  /** A point and its mirror image add up to the identity. */
  lemma MirrorCancels(c: Params, pt: Point)
    requires Sound(c) && OnCurve(c, pt) && AddPoint(c, pt, Mirror(c, pt)).Ok?
    ensures AddPoint(c, pt, Mirror(c, pt)) == Ok(IDENTITY)
  {
    var m := Mirror(c, pt);
    var r, e := AddPoint(c, pt, m).value, Twist(c, pt, m);
    SumIsQuotient(c, pt, m);
    MirrorTerms(c, pt);
    OnCurveSquares(c, pt);
    PrimeSplits(1 + e, r.u, c.p);
    Unique(r.u, 0, c.p);
    var w := c.d * ((pt.u * pt.v) * (pt.u * pt.v));
    assert Cong(r.v * (1 - e), 1 * (1 - e), c.p) by {
      Commute(r.v, 1 - e);
    }
    CancelCong(r.v, 1, 1 - e, c.p);
    InverseOfOne(c);
    Unique(r.v, 1, c.p);
  }

  /** Doubling by the curve's own equation: with t = a·u² + v² the double is (2uv / t, (v² - a·u²) / (2 - t)). */
  lemma DoubleIs(c: Params, pt: Point)
    requires Sound(c) && OnCurve(c, pt) && AddPoint(c, pt, pt).Ok?
    ensures var r, t := AddPoint(c, pt, pt).value, c.a * (pt.u * pt.u) + pt.v * pt.v;
            && Cong(t * r.u, 2 * (pt.u * pt.v), c.p) && Cong((2 - t) * r.v, pt.v * pt.v - c.a * (pt.u * pt.u), c.p)
  {
    var r, t, e := AddPoint(c, pt, pt).value, c.a * (pt.u * pt.u) + pt.v * pt.v, Twist(c, pt, pt);
    SumIsQuotient(c, pt, pt);
    OnCurveSquares(c, pt);
    CongScale(t, 1 + e, r.u, c.p);
    CongAdd(2, 2, t, 1 + e, c.p);
    CongScale(2 - t, 1 - e, r.v, c.p);
    Commute(pt.u, pt.v);
  }

  // ----- every sum exists

  predicate IsRoot(z: int, d: int, p: int)
    requires p > 0
  {
    Cong(z * z, d, p)
  }

  /** a is a square and d is not, modulo p. */
  ghost predicate Complete(c: Params)
    requires c.p > 1
  {
    (exists s: int :: IsRoot(s, c.a, c.p)) && (forall z: int :: !IsRoot(z, c.d, c.p))
  }

  lemma RootOfQuotient(w: int, d: int, z: int, p: nat) returns (t: int)
    requires IsPrime(p) && Cong(w * w, d * (z * z), p) && !Cong(z, 0, p)
    ensures IsRoot(t, d, p)
  {
    var i := PrimeHasInverse(z, p);
    t := w * i;
    CongScale(w * w, d * (z * z), i * i, p);
    EdwardsIdentity.Cross(w, w, i, i);
    EdwardsIdentity.Cross(z, z, i, i);
    Swap(d, z * z, i * i);
    CongMul(z * i, 1, z * i, 1, p);
    CongScale((z * i) * (z * i), 1, d, p);
  }

  /** No non-square is a quotient of squares. */
  lemma NonSquare(w: int, d: int, z: int, p: nat)
    requires IsPrime(p) && Cong(w * w, d * (z * z), p) && forall t: int :: !IsRoot(t, d, p)
    ensures Cong(z, 0, p)
  {
    if !Cong(z, 0, p) {
      var t := RootOfQuotient(w, d, z, p);
    }
  }

  /** The square of s·u1 + eps·v1, where s² = a and eps is the twist itself. */
  lemma SideOne(a: int, s: int, u: int, v: int, e: int, p: int)
    requires p > 1 && Cong(s * s, a, p) && Cong(e * e, 1, p)
    ensures Cong((s * u + e * v) * (s * u + e * v), a * (u * u) + v * v + 2 * ((s * e) * (u * v)), p)
  {
    EdwardsIdentity.Square(s * u, e * v);
    EdwardsIdentity.Cross(s, u, s, u);
    EdwardsIdentity.Cross(e, v, e, v);
    EdwardsIdentity.Cross(s, u, e, v);
    CongScale(s * s, a, u * u, p);
    CongScale(e * e, 1, v * v, p);
    CongAdd((s * s) * (u * u), a * (u * u), (e * e) * (v * v), v * v, p);
    CongAdd((s * s) * (u * u) + (e * e) * (v * v), a * (u * u) + v * v, 2 * ((s * e) * (u * v)), 2 * ((s * e) * (u * v)), p);
  }

  /** d·(p1·(s·u2 + v2))², with p1 = u1·v1 and e = d·p1·u2·v2. */
  lemma SideTwo(a: int, d: int, s: int, p1: int, u: int, v: int, p: int)
    requires p > 1 && Cong(s * s, a, p)
    ensures var e := d * (p1 * (u * v));
            Cong(d * ((p1 * (s * u + v)) * (p1 * (s * u + v))),
                 (d * (p1 * p1)) * (a * (u * u) + v * v) + 2 * ((s * e) * p1), p)
  {
    SideTwoPlain(d, s, p1, u, v);
    EdwardsIdentity.Cross(s, u, s, u);
    CongScale(s * s, a, u * u, p);
    CongAdd((s * s) * (u * u), a * (u * u), v * v, v * v, p);
    ScaleAndAdd((s * s) * (u * u) + v * v, a * (u * u) + v * v, d * (p1 * p1), 2 * ((s * (d * (p1 * (u * v)))) * p1), p);
  }

  lemma ScaleAndAdd(x: int, y: int, k: int, z: int, p: int)
    requires p > 1 && Cong(x, y, p)
    ensures Cong(k * x + z, k * y + z, p)
  {
    CongScale(x, y, k, p);
    CongAdd(k * x, k * y, z, z, p);
  }

  lemma SideTwoPlain(d: int, s: int, p1: int, u: int, v: int)
    ensures d * ((p1 * (s * u + v)) * (p1 * (s * u + v)))
            == (d * (p1 * p1)) * ((s * s) * (u * u) + v * v) + 2 * ((s * (d * (p1 * (u * v)))) * p1)
  {
    EdwardsIdentity.Cross(p1, s * u + v, p1, s * u + v);
    EdwardsIdentity.Square(s * u, v);
    EdwardsIdentity.Cross(s, u, s, u);
    CrossTerm(d, p1, s, u, v);
    Distribute(d, p1 * p1, (s * s) * (u * u) + v * v, 2 * ((s * u) * v));
  }

  lemma Distribute(d: int, pp: int, x: int, y: int)
    ensures d * (pp * (x + y)) == (d * pp) * x + (d * pp) * y
  {
    assert d * (pp * (x + y)) == (d * pp) * (x + y);
  }

  lemma CrossTerm(d: int, p1: int, s: int, u: int, v: int)
    ensures (d * (p1 * p1)) * (2 * ((s * u) * v)) == 2 * ((s * (d * (p1 * (u * v)))) * p1)
  {
    var q := u * v;
    assert (s * u) * v == s * q;
    assert (d * (p1 * p1)) * (s * q) == (s * (d * (p1 * q))) * p1 by {
      assert (d * (p1 * p1)) * (s * q) == (d * s) * ((p1 * p1) * q) by { EdwardsIdentity.Cross(d, p1 * p1, s, q); }
      assert (p1 * p1) * q == (p1 * q) * p1;
      assert (s * (d * (p1 * q))) * p1 == (d * s) * ((p1 * q) * p1) by {
        assert s * (d * (p1 * q)) == (d * s) * (p1 * q);
        Swap(d * s, p1 * q, p1);
      }
    }
  }

  /** If the twist's square were 1, this factor would have to vanish, whichever root of a is taken. */
  lemma FactorVanishes(c: Params, x: Point, y: Point, s: int)
    requires Sound(c) && Complete(c) && OnCurve(c, x) && OnCurve(c, y) && IsRoot(s, c.a, c.p)
    requires Cong(Twist(c, x, y) * Twist(c, x, y), 1, c.p)
    ensures Cong((x.u * x.v) * (s * y.u + y.v), 0, c.p)
  {
    var e, p1 := Twist(c, x, y), x.u * x.v;
    var t1, t2 := c.a * (x.u * x.u) + x.v * x.v, c.a * (y.u * y.u) + y.v * y.v;
    var w, z := s * x.u + e * x.v, p1 * (s * y.u + y.v);
    SideOne(c.a, s, x.u, x.v, e, c.p);
    SideTwo(c.a, c.d, s, p1, y.u, y.v, c.p);
    OtherSide(c, x, y);
    Meet(w * w, c.d * (z * z), t1, (c.d * (p1 * p1)) * t2, 2 * ((s * e) * p1), c.p);
    NonSquare(w, c.d, z, c.p);
  }

  lemma Meet(x: int, y: int, s: int, t: int, more: int, p: int)
    requires p > 1 && Cong(x, s + more, p) && Cong(y, t + more, p) && Cong(t, s, p)
    ensures Cong(x, y, p)
  {
    CongAdd(t, s, more, more, p);
  }

  lemma OtherSide(c: Params, x: Point, y: Point)
    requires Sound(c) && OnCurve(c, x) && OnCurve(c, y) && Cong(Twist(c, x, y) * Twist(c, x, y), 1, c.p)
    ensures Cong((c.d * ((x.u * x.v) * (x.u * x.v))) * (c.a * (y.u * y.u) + y.v * y.v), c.a * (x.u * x.u) + x.v * x.v, c.p)
  {
    var p1, q := x.u * x.v, y.u * y.v;
    OnCurveSquares(c, x);
    OnCurveSquares(c, y);
    TwistSquared(c.d, p1, q);
    Reciprocal(c.a * (x.u * x.u) + x.v * x.v, c.a * (y.u * y.u) + y.v * y.v, c.d * (p1 * p1), c.d * (q * q), c.p);
  }

  lemma Reciprocal(t1: int, t2: int, al: int, be: int, p: int)
    requires p > 1 && Cong(t1, 1 + al, p) && Cong(t2, 1 + be, p) && Cong(al * be, 1, p)
    ensures Cong(al * t2, t1, p)
  {
    CongScale(t2, 1 + be, al, p);
    assert al * (1 + be) == al + al * be;
    CongAdd(al, al, al * be, 1, p);
    Trans(al * t2, al + al * be, al + 1, p);
  }

  /** The twist of two points on the curve is neither 1 nor -1. */
  lemma TwistIsNoUnit(c: Params, x: Point, y: Point)
    requires Sound(c) && Complete(c) && OnCurve(c, x) && OnCurve(c, y)
    ensures !Cong(Twist(c, x, y) * Twist(c, x, y), 1, c.p)
  {
    var e := Twist(c, x, y);
    if Cong(e * e, 1, c.p) {
      var s: int :| IsRoot(s, c.a, c.p);
      OtherRoot(s, c.a, c.p);
      FactorVanishes(c, x, y, s);
      FactorVanishes(c, x, y, -s);
      TwiceVanishes(c, x, y, s);
      NotBoth(e, c.p);
    }
  }

  lemma OtherRoot(s: int, a: int, p: int)
    requires p > 0 && IsRoot(s, a, p)
    ensures IsRoot(-s, a, p)
  {
    assert -s * -s == s * s;
  }

  lemma NotBoth(e: int, p: nat)
    requires IsPrime(p) && p % 2 == 1 && Cong(2 * e, 0, p)
    ensures !Cong(e * e, 1, p)
  {
    if Cong(e * e, 1, p) {
      CongMul(2 * e, 0, 2 * e, 0, p);
      CongScale(e * e, 1, 4, p);
      assert (2 * e) * (2 * e) == 4 * (e * e);
      NotFour(p);
    }
  }

  lemma NotFour(p: nat)
    requires IsPrime(p) && p % 2 == 1
    ensures !Cong(4, 0, p)
  {
    if Cong(2 * 2, 0, p) {
      PrimeSplits(2, 2, p);
      Unique(2, 0, p);
    }
  }

  lemma TwiceVanishes(c: Params, x: Point, y: Point, s: int)
    requires c.p > 1 && Cong((x.u * x.v) * (s * y.u + y.v), 0, c.p) && Cong((x.u * x.v) * (-s * y.u + y.v), 0, c.p)
    ensures Cong(2 * Twist(c, x, y), 0, c.p)
  {
    var p1 := x.u * x.v;
    CongAdd(p1 * (s * y.u + y.v), 0, p1 * (-s * y.u + y.v), 0, c.p);
    SumOfSides(p1, s, y.u, y.v);
    CongScale(2 * (p1 * y.v), 0, c.d * y.u, c.p);
    ZeroTimes(c.d * y.u);
    TwiceTwist(c.d, y.u, p1, y.v);
  }

  lemma TwiceTwist(d: int, u: int, p1: int, v: int)
    ensures (d * u) * (2 * (p1 * v)) == 2 * (d * (p1 * (u * v)))
  {
    EdwardsIdentity.Cross(d, u, p1, v);
    EdwardsIdentity.Cross(d, p1, u, v);
    EdwardsIdentity.Cross(d, u, p1, v);
    assert (d * u) * (2 * (p1 * v)) == 2 * ((d * u) * (p1 * v));
    assert (d * p1) * (u * v) == d * (p1 * (u * v));
  }

  lemma SumOfSides(p: int, s: int, u: int, v: int)
    ensures p * (s * u + v) + p * (-s * u + v) == 2 * (p * v)
  {
    assert -s * u == -(s * u);
    assert p * (s * u + v) == p * (s * u) + p * v;
    assert p * (-(s * u) + v) == -(p * (s * u)) + p * v;
  }

  /** Every sum of points on the curve exists. */
  lemma EverySumExists(c: Params, x: Point, y: Point)
    requires Sound(c) && Complete(c) && OnCurve(c, x) && OnCurve(c, y)
    ensures AddPoint(c, x, y).Ok?
  {
    var e := Twist(c, x, y);
    TwistIsNoUnit(c, x, y);
    SumExists(c, x, y);
    if Cong(1 + e, 0, c.p) {
      CongScale(1 + e, 0, 1 - e, c.p);
    } else if Cong(1 - e, 0, c.p) {
      CongScale(1 - e, 0, 1 + e, c.p);
    }
    if Cong(1 + e, 0, c.p) || Cong(1 - e, 0, c.p) {
      ZeroTimes(1 - e);
      ZeroTimes(1 + e);
      EdwardsIdentity.Square(1, e);
      CongAdd(1 - e * e, 0, e * e, e * e, c.p);
    }
  }

  /** With those, the points of the curve are closed under addition, (0, 1) is neutral, and mirror images are inverses:
      of a group's laws only associativity is left. */
  lemma CurveIsClosed(c: Params, x: Point, y: Point)
    requires Sound(c) && Complete(c) && OnCurve(c, x) && OnCurve(c, y) && InField(c, x)
    ensures var sum := AddPoint(c, x, y);
            sum.Ok? && OnCurve(c, sum.value) && InField(c, sum.value)
    ensures AddPoint(c, x, Mirror(c, x)) == Ok(IDENTITY) && AddPoint(c, IDENTITY, x) == Ok(x) && AddPoint(c, x, IDENTITY) == Ok(x)
  {
    EverySumExists(c, x, y);
    SumOnCurve(c, x, y);
    MirrorOnCurve(c, x);
    EverySumExists(c, x, Mirror(c, x));
    MirrorCancels(c, x);
    Neutral(c, x);
  }

  lemma MirrorOnCurve(c: Params, pt: Point)
    requires c.p > 1 && OnCurve(c, pt)
    ensures OnCurve(c, Mirror(c, pt))
  {
    var m, u: int := Mirror(c, pt), pt.u;
    Reduced(-u, c.p);
    OnCurveIff(c, pt);
    OnCurveIff(c, m);
    SameSquare(m.u, u, Den(c, pt.v), Num(c, pt.v), c.p);
  }

  lemma SameSquare(m: int, u: int, den: int, num: int, p: int)
    requires p > 1 && Cong(m, -u, p) && Cong((u * u) * den, num, p)
    ensures Cong((m * m) * den, num, p)
  {
    CongMul(m, -u, m, -u, p);
    assert -u * -u == u * u;
    CongScale(m * m, u * u, den, p);
  }
}
