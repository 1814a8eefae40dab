/** What double-and-add computes (dapp/amm-bjj.js mulScalar): on the points of the curve, the sum of k copies of the point.
    That sums exist, stay on the curve, are neutral at (0, 1) and undone by mirror images is proved (BabyJubLaw); that the
    addition is associative is the one hypothesis. */
module BabyJubMultiples {
  import opened Wrappers
  import opened Remainder
  import opened ModArith
  import opened BabyJub
  import opened BabyJubLaw

  /** Some points and an addition on them. */
  datatype Adding = Adding(add: (Point, Point) -> Point, points: set<Point>)

  /** Three points to associate. */
  predicate Three(x: Point, y: Point, z: Point) {
    true
  }

  /** Closed, associative, and neutral at (0, 1). */
  ghost predicate Laws(g: Adding) {
    && IDENTITY in g.points
    && (forall x :: x in g.points ==> g.add(IDENTITY, x) == x && g.add(x, IDENTITY) == x)
    && (forall x, y {:trigger g.add(x, y)} :: x in g.points && y in g.points ==> g.add(x, y) in g.points)
    && Associative(g)
  }

  /** The one law of a group that is taken on trust. */
  ghost predicate Associative(g: Adding) {
    forall x, y, z {:trigger Three(x, y, z)} :: x in g.points && y in g.points && z in g.points ==>
      g.add(g.add(x, y), z) == g.add(x, g.add(y, z))
  }

  /** n copies of a point added up, one by one. */
  function Times(g: Adding, pt: Point, n: nat): Point {
    if n == 0 then IDENTITY else g.add(Times(g, pt, n - 1), pt)
  }

  lemma {:induction false} TimesInside(g: Adding, pt: Point, n: nat)
    requires Laws(g) && pt in g.points
    ensures Times(g, pt, n) in g.points
  {
    if n > 0 {
      TimesInside(g, pt, n - 1);
    }
  }

  lemma {:induction false} TimesAdd(g: Adding, pt: Point, m: nat, n: nat)
    requires Laws(g) && pt in g.points
    ensures Times(g, pt, m + n) == g.add(Times(g, pt, m), Times(g, pt, n))
  {
    TimesInside(g, pt, m);
    if n > 0 {
      TimesAdd(g, pt, m, n - 1);
      TimesInside(g, pt, n - 1);
      assert Three(Times(g, pt, m), Times(g, pt, n - 1), pt);
    }
  }

  lemma TimesSmall(g: Adding, pt: Point)
    requires Laws(g) && pt in g.points
    ensures Times(g, pt, 1) == pt && Times(g, pt, 2) == g.add(pt, pt)
  {
    assert Times(g, pt, 1) == g.add(Times(g, pt, 0), pt);
  }

  /** Twice the point, h times, is the point 2h times. */
  lemma {:induction false} TimesTwice(g: Adding, pt: Point, h: nat)
    requires Laws(g) && pt in g.points
    ensures Times(g, g.add(pt, pt), h) == Times(g, pt, 2 * h)
  {
    if h > 0 {
      TimesTwice(g, pt, h - 1);
      TimesAdd(g, pt, 2 * (h - 1), 2);
      TimesSmall(g, pt);
    }
  }

  lemma {:induction false} IdentityTimes(g: Adding, n: nat)
    requires Laws(g)
    ensures Times(g, IDENTITY, n) == IDENTITY
  {
    if n > 0 {
      IdentityTimes(g, n - 1);
    }
  }

  /** A point the order kills is multiplied by the remainder alike. */
  lemma {:induction false} TimesMod(g: Adding, pt: Point, k: nat, order: nat)
    requires Laws(g) && pt in g.points && order > 0 && Times(g, pt, order) == IDENTITY
    ensures Times(g, pt, Mod(k, order)) == Times(g, pt, k)
  {
    if k >= order {
      TimesMod(g, pt, k - order, order);
      TimesAdd(g, pt, k - order, order);
      TimesInside(g, pt, k - order);
    }
  }

  /** The first copy and 2h more, put on top of r. */
  lemma OddCopies(g: Adding, r: Point, pt: Point, h: nat)
    requires Laws(g) && r in g.points && pt in g.points
    ensures g.add(g.add(r, pt), Times(g, pt, 2 * h)) == g.add(r, Times(g, pt, 2 * h + 1))
  {
    TimesAdd(g, pt, 1, 2 * h);
    TimesSmall(g, pt);
    TimesInside(g, pt, 2 * h);
    assert Three(r, pt, Times(g, pt, 2 * h));
  }

  /** The loop's steps over any addition. */
  function DoubleAdd(g: Adding, r: Point, acc: Point, e: nat): Point
    decreases e
  {
    if e == 0 then r else DoubleAdd(g, if e % 2 == 1 then g.add(r, acc) else r, g.add(acc, acc), e / 2)
  }

  lemma {:induction false} DoubleAddIs(g: Adding, r: Point, acc: Point, e: nat)
    requires Laws(g) && r in g.points && acc in g.points
    ensures DoubleAdd(g, r, acc, e) == g.add(r, Times(g, acc, e)) && g.add(r, Times(g, acc, e)) in g.points
    decreases e
  {
    TimesInside(g, acc, e);
    if e > 0 {
      DoubleAddIs(g, if e % 2 == 1 then g.add(r, acc) else r, g.add(acc, acc), e / 2);
      TimesTwice(g, acc, e / 2);
      OddCopies(g, r, acc, e / 2);
    }
  }

  // ----- the curve

  /** The curve's sum, where there is one. */
  function Sum(c: Params, x: Point, y: Point): Point
    requires c.p > 1
  {
    var r := AddPoint(c, x, y);
    if r.Ok? then r.value else IDENTITY
  }

  function OnPoints(c: Params, points: set<Point>): Adding
    requires c.p > 1
  {
    Adding((x, y) => Sum(c, x, y), points)
  }

  /** Reduced points whose sums exist, stay among them, and associate. */
  ghost predicate Group(c: Params, points: set<Point>)
    requires c.p > 1
  {
    && Laws(OnPoints(c, points))
    && (forall x, y :: x in points && y in points ==> AddPoint(c, x, y).Ok?)
  }

  /** The points of the curve. */
  function Points(c: Params): set<Point>
    requires c.p > 1
  {
    set u, v | 0 <= u < c.p && 0 <= v < c.p && OnCurve(c, Point(u, v)) :: Point(u, v)
  }

  lemma PointsAre(c: Params, pt: Point)
    requires c.p > 1
    ensures pt in Points(c) <==> InField(c, pt) && OnCurve(c, pt)
  {
    assert pt == Point(pt.u, pt.v);
  }

  /** The curve's own addition on its points. */
  function OnCurvePoints(c: Params): Adding
    requires c.p > 1
  {
    OnPoints(c, Points(c))
  }

  lemma SumsStay(c: Params, x: Point, y: Point)
    requires Sound(c) && Complete(c) && x in Points(c) && y in Points(c)
    ensures AddPoint(c, x, y).Ok? && OnCurvePoints(c).add(x, y) == AddPoint(c, x, y).value
    ensures OnCurvePoints(c).add(x, y) in Points(c)
    ensures OnCurvePoints(c).add(IDENTITY, x) == x && OnCurvePoints(c).add(x, IDENTITY) == x
  {
    PointsAre(c, x);
    PointsAre(c, y);
    CurveIsClosed(c, x, y);
    PointsAre(c, AddPoint(c, x, y).value);
  }

  lemma IdentityOnCurve(c: Params)
    requires Sound(c)
    ensures IDENTITY in Points(c)
  {
    OnCurvePlain(c, IDENTITY);
    ZeroTimes(c.a);
    ZeroTimes(c.d);
    PointsAre(c, IDENTITY);
  }

  lemma LawsFrom(g: Adding)
    requires IDENTITY in g.points && Associative(g)
    requires forall x, y {:trigger g.add(x, y)} :: x in g.points && y in g.points ==> g.add(x, y) in g.points
    requires forall x :: x in g.points ==> g.add(IDENTITY, x) == x && g.add(x, IDENTITY) == x
    ensures Laws(g)
  {
  }

  lemma SumsAllStay(c: Params, g: Adding)
    requires Sound(c) && Complete(c) && g == OnCurvePoints(c)
    ensures forall x, y {:trigger g.add(x, y)} :: x in g.points && y in g.points ==> g.add(x, y) in g.points
    ensures forall x :: x in g.points ==> g.add(IDENTITY, x) == x && g.add(x, IDENTITY) == x
  {
    forall x, y | x in g.points && y in g.points
      ensures g.add(x, y) in g.points && g.add(IDENTITY, x) == x && g.add(x, IDENTITY) == x
    {
      SumsStay(c, x, y);
    }
  }

  lemma SumsAllExist(c: Params)
    requires Sound(c) && Complete(c)
    ensures forall x, y :: x in Points(c) && y in Points(c) ==> AddPoint(c, x, y).Ok?
  {
    forall x, y | x in Points(c) && y in Points(c) ensures AddPoint(c, x, y).Ok? {
      SumsStay(c, x, y);
    }
  }

  /** The rest of them hold: the points of the curve are a group as soon as the addition is associative on them. */
  lemma PointsAreGroup(c: Params)
    requires Sound(c) && Complete(c) && Associative(OnCurvePoints(c))
    ensures Group(c, Points(c)) && Laws(OnCurvePoints(c))
  {
    IdentityOnCurve(c);
    SumsAllStay(c, OnCurvePoints(c));
    LawsFrom(OnCurvePoints(c));
    SumsAllExist(c);
  }

  lemma OneSum(c: Params, points: set<Point>, x: Point, y: Point)
    requires c.p > 1 && Group(c, points) && x in points && y in points
    ensures AddPoint(c, x, y) == Ok(OnPoints(c, points).add(x, y)) && OnPoints(c, points).add(x, y) in points
  {
  }

  lemma {:induction false} LoopIsDoubleAdd(c: Params, points: set<Point>, r: Point, acc: Point, e: nat)
    requires c.p > 1 && Group(c, points) && r in points && acc in points
    ensures AddTimes(c, r, acc, e) == Ok(DoubleAdd(OnPoints(c, points), r, acc, e))
    decreases e
  {
    var g := OnPoints(c, points);
    if e > 0 {
      OneSum(c, points, acc, acc);
      if e % 2 == 1 {
        OneSum(c, points, r, acc);
        LoopIsDoubleAdd(c, points, g.add(r, acc), g.add(acc, acc), e / 2);
      } else {
        LoopIsDoubleAdd(c, points, r, g.add(acc, acc), e / 2);
      }
    }
  }

  /** The loop on top of r gives r plus e copies of acc. */
  lemma AddsTimes(c: Params, points: set<Point>, r: Point, acc: Point, e: nat)
    requires c.p > 1 && Group(c, points) && r in points && acc in points
    ensures var g := OnPoints(c, points);
            AddTimes(c, r, acc, e) == Ok(g.add(r, Times(g, acc, e)))
  {
    LoopIsDoubleAdd(c, points, r, acc, e);
    DoubleAddIs(OnPoints(c, points), r, acc, e);
  }

  /** `mulScalar` adds up k modulo the order copies of the point, and so k copies, for every k of at least zero, when the
      order kills the point. */
  lemma ScalarIsMultiple(c: Params, pt: Point, k: int)
    requires Sound(c) && Complete(c) && Associative(OnCurvePoints(c)) && OnCurve(c, pt) && InField(c, pt)
    ensures AddTimes(c, IDENTITY, pt, Mod(k, c.order)) == Ok(Times(OnCurvePoints(c), pt, Mod(k, c.order)))
    ensures k >= 0 && Times(OnCurvePoints(c), pt, c.order) == IDENTITY ==>
              AddTimes(c, IDENTITY, pt, Mod(k, c.order)) == Ok(Times(OnCurvePoints(c), pt, k))
  {
    var g := OnCurvePoints(c);
    PointsAre(c, pt);
    PointsAreGroup(c);
    AddsTimes(c, Points(c), IDENTITY, pt, Mod(k, c.order));
    TimesInside(g, pt, Mod(k, c.order));
    if k >= 0 && Times(g, pt, c.order) == IDENTITY {
      TimesMod(g, pt, k, c.order);
    }
  }

  /** What `mulScalar` gives for k and for l adds up to what it gives for k + l. */
  lemma ScalarsAdd(c: Params, pt: Point, k: nat, l: nat)
    requires Sound(c) && Complete(c) && Associative(OnCurvePoints(c)) && OnCurve(c, pt) && InField(c, pt)
    ensures var g := OnCurvePoints(c);
            AddPoint(c, Times(g, pt, k), Times(g, pt, l)) == Ok(Times(g, pt, k + l))
  {
    PointsAre(c, pt);
    PointsAreGroup(c);
    MultiplesAdd(c, OnCurvePoints(c), pt, k, l);
  }

  lemma MultiplesAdd(c: Params, g: Adding, pt: Point, k: nat, l: nat)
    requires c.p > 1 && g == OnCurvePoints(c) && Laws(g) && Group(c, Points(c)) && pt in g.points
    ensures AddPoint(c, Times(g, pt, k), Times(g, pt, l)) == Ok(Times(g, pt, k + l))
  {
    TimesInside(g, pt, k);
    TimesInside(g, pt, l);
    TimesAdd(g, pt, k, l);
    OneSum(c, Points(c), Times(g, pt, k), Times(g, pt, l));
  }

  /** `inSubgroup` asks whether the subgroup's order kills the point. */
  lemma SubgroupIsKilled(c: Params, pt: Point)
    requires Sound(c) && Complete(c) && Associative(OnCurvePoints(c)) && OnCurve(c, pt) && InField(c, pt) && c.subOrder < c.order
    ensures SubgroupTest(c, pt) == Ok(Times(OnCurvePoints(c), pt, c.subOrder) == IDENTITY)
  {
    var g := OnCurvePoints(c);
    PointsAre(c, pt);
    PointsAreGroup(c);
    AddsTimes(c, Points(c), IDENTITY, pt, c.subOrder);
    TimesInside(g, pt, c.subOrder);
    if pt == IDENTITY {
      IdentityTimes(g, c.subOrder);
    }
  }

  // ----- without associativity

  /** Whatever the addition does in threes, no scalar and no point of the curve makes `mulScalar` fail or leave the curve,
      so the subgroup test always answers. */
  lemma {:induction false} ScalarStays(c: Params, r: Point, acc: Point, e: nat)
    requires Sound(c) && Complete(c) && r in Points(c) && acc in Points(c)
    ensures AddTimes(c, r, acc, e).Ok? && AddTimes(c, r, acc, e).value in Points(c)
    decreases e
  {
    if e > 0 {
      SumsStay(c, r, acc);
      SumsStay(c, acc, acc);
      var g := OnCurvePoints(c);
      ScalarStays(c, if e % 2 == 1 then g.add(r, acc) else r, g.add(acc, acc), e / 2);
    }
  }

  lemma SubgroupTestAnswers(c: Params, pt: Point)
    requires Sound(c) && Complete(c) && OnCurve(c, pt) && InField(c, pt)
    ensures SubgroupTest(c, pt).Ok?
  {
    PointsAre(c, pt);
    IdentityOnCurve(c);
    ScalarStays(c, IDENTITY, pt, Mod(c.subOrder, c.order));
  }

  /** BabyJubJub's a has a root; that its d has none is taken on trust with the field's primality. */
  lemma BabyJubIsComplete()
    requires IsPrime(BABYJUB.p) && forall z: int :: !IsRoot(z, BABYJUB.d, BABYJUB.p)
    ensures Sound(BABYJUB) && Complete(BABYJUB)
  {
    var s := 7214280148105020021932206872019688659210616427216992810330019057549499971851;
    BabyJubIsSound();
    ModIsRemainder(s * s, BABYJUB.p);
    ModIsRemainder(BABYJUB.a, BABYJUB.p);
    assert IsRoot(s, BABYJUB.a, BABYJUB.p);
  }

  /** The generator the pool's signatures use (dapp/btc-pool-zk.js BASE8). */
  const BASE8 := Point(
    5299619240641551281634865583518297030282874472190772894086521144482721001553,
    16950150798460657717958625567821834550301663161624707787222815936182638968203)

  /** With the numbers the code gives it, it lies on the curve with the numbers the code gives that. */
  lemma Base8OnCurve()
    ensures InField(BABYJUB, BASE8) && OnCurve(BABYJUB, BASE8)
  {
    var p := BABYJUB.p;
    var u2 := 607742042888016619569620746324513481149123972252924884615094806956300595521;
    var v2 := 11976306643719063753190278949402960726252923955722022258665135291130529546895;
    var w := 5691677284264348914871762697957067030339103956111141981502870225181583259053;
    ModIsRemainder(BASE8.u * BASE8.u, p);
    ModIsRemainder(BASE8.v * BASE8.v, p);
    assert Mod(BASE8.u * BASE8.u, p) == u2 && Mod(BASE8.v * BASE8.v, p) == v2;
    ModIsRemainder(u2 * v2, p);
    assert Mod(u2 * v2, p) == w;
    ModIsRemainder(BABYJUB.a * u2 + v2, p);
    ModIsRemainder(1 + BABYJUB.d * w, p);
  }
}
