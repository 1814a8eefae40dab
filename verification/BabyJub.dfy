/** BabyJubJub points of dapp/amm-bjj.js: the twisted Edwards curve over a prime field, its addition and scalar
    multiplication, and the 32-byte point encoding. */
module BabyJub {
  import opened Wrappers
  import opened Remainder
  import opened ModArith
  import opened PrimeField
  import opened ModSqrt
  import opened Bytes
  import opened Field

  datatype Params = Params(p: nat, a: nat, d: nat, order: nat, subOrder: nat)

  const BABYJUB := Params(
    P_FR,
    168700, 168696,
    21888242871839275222246405745257275088614511777268538073601725287587578984328,
    2736030358979909402780800718157159386076813972158567259200215660948447373041)

  /** 2^255: what a coordinate must stay under to leave the sign bit free. */
  const TOP := 0x8000000000000000_0000000000000000_0000000000000000_0000000000000000

  /** An odd prime field that leaves the sign bit free, and a curve with a different from d. */
  ghost predicate Sound(c: Params) {
    IsPrime(c.p) && c.p % 2 == 1 && c.p < TOP && c.order > 0 && !Cong(c.a, c.d, c.p)
  }

  /** BabyJubJub's own numbers meet all of this but primality, which is left as an assumption. */
  lemma BabyJubIsSound()
    requires IsPrime(BABYJUB.p)
    ensures Sound(BABYJUB) && BABYJUB.order == 8 * BABYJUB.subOrder
  {
  }

  datatype Point = Point(u: nat, v: nat)

  const IDENTITY := Point(0, 1)

  predicate OnCurve(c: Params, pt: Point)
    requires c.p > 1
  {
    var u2, v2 := Mod(pt.u * pt.u, c.p), Mod(pt.v * pt.v, c.p);
    Mod(c.a * u2 + v2, c.p) == Mod(1 + c.d * Mod(u2 * v2, c.p), c.p)
  }

  // ----- addition and multiplication

  function AddPoint(c: Params, x: Point, y: Point): Result<Point>
    requires c.p > 1
  {
    var uu, vv := Mod(x.u * y.u, c.p), Mod(x.v * y.v, c.p);
    var prod := Mod(c.d * uu * vv, c.p);
    var inv1, inv2 := Inverse(1 + prod, c.p), Inverse(1 - prod, c.p);
    if inv1.None? || inv2.None? then Err("not invertible")
    else Ok(Point(Mod(Mod(x.u * y.v + x.v * y.u, c.p) * inv1.value, c.p),
                  Mod((x.v * y.v - Mod(c.a * x.u * y.u, c.p)) * inv2.value, c.p)))
  }

  /** Double and add, from the lowest bit, on top of r: r plus e times acc (BabyJubMultiples). */
  function AddTimes(c: Params, r: Point, acc: Point, e: nat): Result<Point>
    requires c.p > 1
    decreases e
  {
    if e == 0 then Ok(r) else
    var r' := if e % 2 == 1 then AddPoint(c, r, acc) else Ok(r);
    var acc' := AddPoint(c, acc, acc);
    if r'.Err? then r' else if acc'.Err? then acc' else AddTimes(c, r'.value, acc'.value, e / 2)
  }

  method MulScalar(c: Params, pt: Point, k: int) returns (out: Result<Point>)
    requires c.p > 1 && c.order > 0
    ensures out == AddTimes(c, IDENTITY, pt, Mod(k, c.order))
  {
    var r, acc, e := IDENTITY, pt, Mod(k, c.order);
    while e > 0
      invariant AddTimes(c, r, acc, e) == AddTimes(c, IDENTITY, pt, Mod(k, c.order))
    {
      if e % 2 == 1 {
        var sum := AddPoint(c, r, acc);
        if sum.Err? {
          return sum;
        }
        r := sum.value;
      }
      var twice := AddPoint(c, acc, acc);
      if twice.Err? {
        return twice;
      }
      acc := twice.value;
      e := e / 2;
    }
    return Ok(r);
  }

  /** `inSubgroup`: whether the point, times the subgroup order, is the identity. */
  function SubgroupTest(c: Params, pt: Point): Result<bool>
    requires c.p > 1 && c.order > 0
  {
    if pt == IDENTITY then Ok(true) else
    match AddTimes(c, IDENTITY, pt, Mod(c.subOrder, c.order))
    case Err(e) => Err(e)
    case Ok(q) => Ok(q == IDENTITY)
  }

  method InSubgroup(c: Params, pt: Point) returns (r: Result<bool>)
    requires c.p > 1 && c.order > 0
    ensures r == SubgroupTest(c, pt)
  {
    if pt == IDENTITY {
      return Ok(true);
    }
    var q := MulScalar(c, pt, c.subOrder);
    return if q.Err? then Err(q.error) else Ok(q.value == IDENTITY);
  }

  // ----- bytes

  /** A value under half the capacity leaves the top bit of the last byte clear, and the other way round. */
  lemma {:induction false} TopBit(v: nat, n: nat)
    requires n > 0
    ensures v < 128 * Capacity(n - 1) ==> LittleEndian(v, n)[n - 1] < 128
  {
    if n > 1 {
      TopBit(v / 256, n - 1);
    }
  }

  lemma Capacity31()
    ensures 128 * Capacity(31) == TOP && Capacity(32) == 2 * TOP
  {
    CapacityAdd(15, 16);
    CapacityAdd(7, 8);
    CapacityAdd(8, 8);
    CapacityAdd(3, 4);
    CapacityAdd(4, 4);
    assert Capacity(1) == 256;
    assert Capacity(2) == 0x10000;
    assert Capacity(3) == 0x1000000;
    assert Capacity(4) == 0x100000000;
  }

  lemma {:induction false} CapacityAdd(m: nat, n: nat)
    ensures Capacity(m + n) == Capacity(m) * Capacity(n)
  {
    if m > 0 {
      CapacityAdd(m - 1, n);
      Swap(256, Capacity(m - 1), Capacity(n));
    }
  }

  // ----- the encoding

  function Half(c: Params): nat
    requires c.p > 1
  {
    (c.p - 1) / 2
  }

  function WithSign(bs: seq<byte>, sign: bool): (r: seq<byte>)
    requires |bs| == 32
    ensures |r| == 32
  {
    if sign && bs[31] < 128 then bs[31 := bs[31] + 128] else bs
  }

  /** v in 32 little-endian bytes, with the sign of u in the top bit. */
  function Packed(c: Params, pt: Point): (bs: seq<byte>)
    requires c.p > 1
    ensures |bs| == 32
  {
    WithSign(LittleEndian(pt.v, 32), pt.u > Half(c))
  }

  method PackPoint(c: Params, pt: Point) returns (bs: seq<byte>)
    requires c.p > 1
    ensures bs == Packed(c, pt)
  {
    var buf := new byte[32];
    var v, i := pt.v, 0;
    while i < 32
      invariant i <= 32 && LittleEndian(pt.v, 32) == buf[..i] + LittleEndian(v, 32 - i)
    {
      var rest := LittleEndian(v, 32 - i);
      assert rest == [v % 256] + LittleEndian(v / 256, 31 - i);
      buf[i] := v % 256;
      v := v / 256;
      i := i + 1;
    }
    assert buf[..32] == buf[..];
    if pt.u > Half(c) && buf[31] < 128 {
      buf[31] := buf[31] + 128;
    }
    return buf[..];
  }

  predicate SignBit(bs: seq<byte>)
    requires |bs| == 32
  {
    bs[31] >= 128
  }

  function Unsigned(bs: seq<byte>): seq<byte>
    requires |bs| == 32
  {
    if SignBit(bs) then bs[31 := bs[31] - 128] else bs
  }

  /** What an encoding stands for: the point on the curve and in the subgroup with that v and that sign. */
  ghost predicate Decodes(c: Params, bs: seq<byte>, pt: Point)
    requires c.p > 1 && c.order > 0
  {
    && |bs| == 32
    && pt.v == Value(Unsigned(bs)) && pt.v < c.p && pt.u < c.p
    && OnCurve(c, pt) && SubgroupTest(c, pt) == Ok(true)
    && (pt.u != 0 ==> (pt.u > Half(c)) == SignBit(bs))
  }

  function Num(c: Params, v: nat): nat
    requires c.p > 1
  {
    Mod(1 - Mod(v * v, c.p), c.p)
  }

  function Den(c: Params, v: nat): nat
    requires c.p > 1
  {
    Mod(c.a - Mod(c.d * Mod(v * v, c.p), c.p), c.p)
  }

  lemma Sides(x: int, y: int, z: int, w: int, p: nat)
    requires p > 1 && x - y == z - w
    ensures Cong(x, y, p) <==> Cong(z, w, p)
  {
    if Cong(x, y, p) {
      CongAdd(x, y, y, y, p);
      CongAdd(z - w, 0, w, w, p);
    }
    if Cong(z, w, p) {
      CongAdd(z, w, w, w, p);
      CongAdd(x - y, 0, y, y, p);
    }
  }

  lemma Rearrange(a: int, d: int, x: int, y: int)
    ensures (a * x + y) - (1 + d * (x * y)) == x * (a - d * y) - (1 - y)
  {
    assert x * (a - d * y) == x * a - x * (d * y);
    Swap(x, d, y);
    Swap(d, x, y);
    Commute(x, a);
  }

  lemma NumDen(c: Params, v: nat)
    requires c.p > 1
    ensures Cong(Num(c, v), 1 - v * v, c.p) && Cong(Den(c, v), c.a - c.d * (v * v), c.p)
  {
    var v2: int := Mod(v * v, c.p);
    Reduced(v * v, c.p);
    CongAdd(1, 1, v2, v * v, c.p);
    Reduced(1 - v2, c.p);
    CongScale(v2, v * v, c.d, c.p);
    Reduced(c.d * v2, c.p);
    CongAdd(c.a, c.a, Mod(c.d * v2, c.p), c.d * (v * v), c.p);
    Reduced(c.a - Mod(c.d * v2, c.p), c.p);
  }

  lemma OnCurvePlain(c: Params, pt: Point)
    requires c.p > 1
    ensures OnCurve(c, pt) <==>
            Cong(c.a * (pt.u * pt.u) + pt.v * pt.v, 1 + c.d * ((pt.u * pt.u) * (pt.v * pt.v)), c.p)
  {
    var x, y := pt.u * pt.u, pt.v * pt.v;
    var u2, v2 := Mod(x, c.p), Mod(y, c.p);
    Reduced(x, c.p);
    Reduced(y, c.p);
    CongScale(u2, x, c.a, c.p);
    CongAdd(c.a * u2, c.a * x, v2, y, c.p);
    CongMul(u2, x, v2, y, c.p);
    Reduced(u2 * v2, c.p);
    CongScale(Mod(u2 * v2, c.p), x * y, c.d, c.p);
    CongAdd(1, 1, c.d * Mod(u2 * v2, c.p), c.d * (x * y), c.p);
  }

  /** A point is on the curve exactly when u²·den = num. */
  lemma OnCurveIff(c: Params, pt: Point)
    requires c.p > 1
    ensures OnCurve(c, pt) <==> Cong((pt.u * pt.u) * Den(c, pt.v), Num(c, pt.v), c.p)
  {
    var x, y := pt.u * pt.u, pt.v * pt.v;
    OnCurvePlain(c, pt);
    Rearrange(c.a, c.d, x, y);
    Sides(c.a * x + y, 1 + c.d * (x * y), x * (c.a - c.d * y), 1 - y, c.p);
    NumDen(c, pt.v);
    CongScale(Den(c, pt.v), c.a - c.d * y, x, c.p);
  }

  /** No point of the curve has den = 0: it would make v² = 1 and so a = d. */
  lemma DenNotZero(c: Params, pt: Point)
    requires Sound(c) && OnCurve(c, pt)
    ensures !Cong(Den(c, pt.v), 0, c.p)
  {
    var x, y := pt.u * pt.u, pt.v * pt.v;
    if Cong(Den(c, pt.v), 0, c.p) {
      OnCurveIff(c, pt);
      NumDen(c, pt.v);
      CongScale(Den(c, pt.v), 0, x, c.p);
      ZeroTimes(x);
      Sides(1, y, 1 - y, 0, c.p);
      CongScale(y, 1, c.d, c.p);
      ZeroTimes(c.d);
      Sides(c.a, c.d * y, c.a - c.d * y, 0, c.p);
    }
  }

  lemma ZeroTimes(x: int)
    ensures x * 0 == 0 && 0 * x == 0 && x * 1 == x
  {
  }

  /** Dividing by den: the points with this v are the square roots of num/den. */
  lemma RootsAreOnCurve(c: Params, pt: Point, inv: nat)
    requires Sound(c) && Cong(Den(c, pt.v) * inv, 1, c.p)
    ensures OnCurve(c, pt) <==> Cong(pt.u * pt.u, Num(c, pt.v) * inv, c.p)
  {
    OnCurveIff(c, pt);
    Divide(pt.u * pt.u, Den(c, pt.v), Num(c, pt.v), inv, c.p);
  }

  lemma Divide(x: int, den: int, num: int, inv: int, p: nat)
    requires p > 1 && Cong(den * inv, 1, p)
    ensures Cong(x * den, num, p) <==> Cong(x, num * inv, p)
  {
    CongScale(den * inv, 1, x, p);
    Swap(x, den, inv);
    ZeroTimes(x);
    if Cong(x * den, num, p) {
      CongScale(x * den, num, inv, p);
    }
    if Cong(x, num * inv, p) {
      CongScale(x, num * inv, den, p);
      Swap(num, inv, den);
      Commute(inv, den);
      CongScale(den * inv, 1, num, p);
      ZeroTimes(num);
    }
  }

  /** u or its negative, whichever has the wanted sign. */
  function Signed(c: Params, u: nat, sign: bool): nat
    requires c.p > 1
  {
    if (u > Half(c)) != sign then Mod(-(u as int), c.p) else u
  }

  lemma ModMinus(w: nat, p: nat)
    requires 0 < w < p
    ensures Mod(-(w as int), p) == p - w
  {
  }

  lemma SignedIsRoot(c: Params, w: nat, sign: bool)
    requires c.p > 1 && c.p % 2 == 1 && w < c.p
    ensures var u := Signed(c, w, sign);
            u < c.p && Cong(u * u, w * w, c.p) && (u != 0 ==> (u > Half(c)) == sign) && (u == 0 <==> w == 0)
  {
    if w != 0 {
      ModMinus(w, c.p);
      NegativeSquare(c.p, w);
    }
  }

  lemma NegativeSquare(p: nat, w: nat)
    requires p > 1 && w <= p
    ensures Cong((p - w) * (p - w), w * w, p)
  {
    assert (p - w) * (p - w) == w * w + (p - 2 * w) * p;
    CongBy((p - w) * (p - w), w * w, p - 2 * w, p);
  }

  lemma EitherRoot(u: nat, w: nat, p: nat)
    requires IsPrime(p) && u < p && w < p && Cong(u * u, w * w, p)
    ensures u == w || u == p - w
  {
    SquareRoots(u, w, p);
    if Cong(u, w, p) {
      Unique(u, w, p);
    } else {
      if w != 0 {
        ModMinus(w, p);
      }
    }
  }

  /** The sign settles which of the two roots is meant. */
  lemma SignPicks(c: Params, u: nat, w: nat, sign: bool)
    requires Sound(c) && u < c.p && w < c.p && (u == w || u == c.p - w) && (u != 0 ==> (u > Half(c)) == sign)
    ensures Signed(c, w, sign) == u
  {
    if w != 0 {
      ModMinus(w, c.p);
    }
  }

  /** Two points of the curve with the same v and sign are the same. */
  lemma SameVSameSign(c: Params, x: Point, y: Point, sign: bool)
    requires Sound(c) && OnCurve(c, x) && OnCurve(c, y) && x.v == y.v && x.u < c.p && y.u < c.p
    requires (x.u != 0 ==> (x.u > Half(c)) == sign) && (y.u != 0 ==> (y.u > Half(c)) == sign)
    ensures x == y
  {
    DenNotZero(c, x);
    InverseIsInverse(Den(c, x.v), c.p);
    var inv := Inverse(Den(c, x.v), c.p).value;
    RootsAreOnCurve(c, x, inv);
    RootsAreOnCurve(c, y, inv);
    EitherRoot(x.u, y.u, c.p);
    SignPicks(c, x.u, y.u, sign);
    SignPicks(c, y.u, y.u, sign);
  }

  /** An encoding stands for one point at most. */
  lemma DecodesOne(c: Params, bs: seq<byte>, x: Point, y: Point)
    requires Sound(c) && Decodes(c, bs, x) && Decodes(c, bs, y)
    ensures x == y
  {
    SameVSameSign(c, x, y, SignBit(bs));
  }

  /** Reading the 32 bytes from the top down. */
  method ReadValue(bs: seq<byte>) returns (v: nat)
    requires |bs| == 32
    ensures v == Value(bs)
  {
    v := 0;
    var i := 32;
    while i > 0
      invariant 0 <= i <= 32 && v == Value(bs[i..])
    {
      i := i - 1;
      assert bs[i..][1..] == bs[i + 1..];
      v := v * 256 + bs[i];
    }
    assert bs[0..] == bs;
  }

  lemma NoPointWithoutDen(c: Params, v: nat)
    requires Sound(c) && Den(c, v) == 0
    ensures forall w: nat :: !OnCurve(c, Point(w, v))
  {
    forall w: nat ensures !OnCurve(c, Point(w, v)) {
      if OnCurve(c, Point(w, v)) {
        DenNotZero(c, Point(w, v));
      }
    }
  }

  lemma NoPointWithoutRoot(c: Params, v: nat, inv: nat)
    requires Sound(c) && Cong(Den(c, v) * inv, 1, c.p)
    requires forall x: int :: !Cong(x * x, Mod(Num(c, v) * inv, c.p), c.p)
    ensures forall w: nat :: !OnCurve(c, Point(w, v))
  {
    Reduced(Num(c, v) * inv, c.p);
    forall w: nat ensures !OnCurve(c, Point(w, v)) {
      RootsAreOnCurve(c, Point(w, v), inv);
      assert !Cong(w * w, Mod(Num(c, v) * inv, c.p), c.p);
    }
  }

  lemma PointFromRoot(c: Params, v: nat, inv: nat, root: nat, sign: bool)
    requires Sound(c) && Cong(Den(c, v) * inv, 1, c.p) && root < c.p
    requires Cong(root * root, Mod(Num(c, v) * inv, c.p), c.p)
    ensures var u := Signed(c, root, sign);
            u < c.p && OnCurve(c, Point(u, v)) && (u != 0 ==> (u > Half(c)) == sign)
  {
    Reduced(Num(c, v) * inv, c.p);
    SignedIsRoot(c, root, sign);
    RootsAreOnCurve(c, Point(Signed(c, root, sign), v), inv);
  }

  /** The u that goes with a v and a sign on the curve, if there is one. */
  method FindU(c: Params, v: nat, sign: bool) returns (u: Option<nat>)
    requires Sound(c)
    ensures u.Some? ==> u.value < c.p && OnCurve(c, Point(u.value, v)) && (u.value != 0 ==> (u.value > Half(c)) == sign)
    ensures u.None? ==> forall w: nat :: !OnCurve(c, Point(w, v))
  {
    var num, den := Num(c, v), Den(c, v);
    if den == 0 {
      NoPointWithoutDen(c, v);
      return None;
    }
    InverseIsInverse(den, c.p);
    var inv := ModInv(den, c.p);
    var root := SquareRoot(Mod(num * inv.value, c.p), c.p);
    if root.None? {
      NoPointWithoutRoot(c, v, inv.value);
      return None;
    }
    PointFromRoot(c, v, inv.value, root.value, sign);
    return Some(Signed(c, root.value, sign));
  }

  /** `unpackPoint`: the point the bytes stand for, or null when they stand for none. */
  method UnpackPoint(c: Params, bs: seq<byte>) returns (r: Result<Option<Point>>)
    requires Sound(c)
    ensures r.Ok? && r.value.Some? ==> Decodes(c, bs, r.value.value)
    ensures r.Err? || r.value.None? ==> forall pt :: !Decodes(c, bs, pt)
  {
    if |bs| != 32 {
      return Err("bad length");
    }
    var v := ReadValue(Unsigned(bs));
    if v >= c.p {
      return Ok(None);
    }
    var u := FindU(c, v, SignBit(bs));
    if u.None? {
      forall pt ensures !Decodes(c, bs, pt) {
        assert pt == Point(pt.u, pt.v);
      }
      return Ok(None);
    }
    var pt := Point(u.value, v);
    OnlyThis(c, bs, pt);
    var inside := InSubgroup(c, pt);
    if inside.Err? {
      return Err(inside.error);
    }
    return Ok(if inside.value then Some(pt) else None);
  }

  /** Once the root is found, no other point can be meant. */
  lemma OnlyThis(c: Params, bs: seq<byte>, pt: Point)
    requires Sound(c) && |bs| == 32 && pt.v == Value(Unsigned(bs)) && pt.v < c.p && pt.u < c.p && OnCurve(c, pt)
    requires pt.u != 0 ==> (pt.u > Half(c)) == SignBit(bs)
    ensures forall q :: Decodes(c, bs, q) ==> q == pt
  {
    forall q | Decodes(c, bs, q) ensures q == pt {
      SameVSameSign(c, pt, q, SignBit(bs));
    }
  }

  /** The encoding of a point of the subgroup stands for it. */
  lemma PackedDecodes(c: Params, pt: Point)
    requires Sound(c) && pt.u < c.p && pt.v < c.p && OnCurve(c, pt) && SubgroupTest(c, pt) == Ok(true)
    ensures Decodes(c, Packed(c, pt), pt)
  {
    Capacity31();
    ValueOfBytes(pt.v, 32);
    TopBit(pt.v, 32);
    assert Unsigned(Packed(c, pt)) == LittleEndian(pt.v, 32);
  }

  /** Unpacking what was packed gives the point back. */
  method RoundTrip(c: Params, pt: Point) returns (r: Result<Option<Point>>)
    requires Sound(c) && pt.u < c.p && pt.v < c.p && OnCurve(c, pt) && SubgroupTest(c, pt) == Ok(true)
    ensures r == Ok(Some(pt))
  {
    var bs := PackPoint(c, pt);
    PackedDecodes(c, pt);
    r := UnpackPoint(c, bs);
    if r.Ok? && r.value.Some? {
      DecodesOne(c, bs, r.value.value, pt);
    }
  }

  // ----- bytes that come back, and the ones that do not

  lemma InverseOfOne(c: Params)
    requires Sound(c)
    ensures Inverse(1, c.p) == Some(1) && Mod(0, c.p) == 0 && Mod(1, c.p) == 1
  {
    InverseIsInverse(1, c.p);
    if Cong(1, 0, c.p) {
      Unique(1, 0, c.p);
    }
    var inv := Inverse(1, c.p).value;
    assert 1 * inv == inv;
    Unique(inv, 1, c.p);
  }

  /** Adding a point with u = 0, on either side, scales both coordinates. */
  lemma AddZeroU(c: Params, w: nat, pt: Point)
    requires Sound(c)
    ensures AddPoint(c, Point(0, w), pt) == Ok(Point(Mod(w * pt.u, c.p), Mod(w * pt.v, c.p)))
    ensures AddPoint(c, pt, Point(0, w)) == Ok(Point(Mod(w * pt.u, c.p), Mod(w * pt.v, c.p)))
  {
    InverseOfOne(c);
    ZeroTimes(pt.u);
    ZeroTimes(pt.v);
    ZeroTimes(c.a);
    ZeroTimes(c.d);
    ZeroTimes(Mod(w * pt.v, c.p));
    ZeroTimes(Mod(pt.v * w, c.p));
    ZeroTimes(c.a * pt.u);
    Commute(w, pt.u);
    Commute(w, pt.v);
    Twice(w * pt.u, c.p);
    Twice(w * pt.v, c.p);
  }

  lemma Twice(k: int, p: nat)
    requires p > 1
    ensures Mod(Mod(k, p) * 1, p) == Mod(k, p) && Mod((k - 0) * 1, p) == Mod(k, p)
  {
  }

  predicate InField(c: Params, pt: Point) {
    pt.u < c.p && pt.v < c.p
  }

  /** (0, 1) is neutral on either side. */
  lemma Neutral(c: Params, pt: Point)
    requires Sound(c) && InField(c, pt)
    ensures AddPoint(c, IDENTITY, pt) == Ok(pt) && AddPoint(c, pt, IDENTITY) == Ok(pt)
  {
    AddZeroU(c, 1, pt);
  }

  lemma {:induction false} NeutralTimes(c: Params, r: Point, e: nat)
    requires Sound(c) && InField(c, r)
    ensures AddTimes(c, r, IDENTITY, e) == Ok(r)
  {
    if e > 0 {
      Neutral(c, r);
      Neutral(c, IDENTITY);
      NeutralTimes(c, r, e / 2);
    }
  }

  lemma SquareOfUnit(c: Params, v: nat)
    requires Sound(c) && (v == 1 || v == c.p - 1)
    ensures Cong(v * v, 1, c.p)
  {
    if v == c.p - 1 {
      assert (c.p - 1) * (c.p - 1) == 1 + (c.p - 2) * c.p by {
        Dist(c.p, -1, c.p - 1);
      }
      CongBy(v * v, 1, c.p - 2, c.p);
    }
  }

  lemma MinusOneTwice(c: Params)
    requires Sound(c)
    ensures AddPoint(c, Point(0, c.p - 1), Point(0, c.p - 1)) == Ok(IDENTITY)
  {
    AddZeroU(c, c.p - 1, Point(0, c.p - 1));
    SquareOfUnit(c, c.p - 1);
    ZeroTimes(c.p - 1);
    InverseOfOne(c);
  }

  /** (0, p - 1) has order two, so an odd subgroup order turns it away. */
  lemma MinusOneTimes(c: Params, e: nat)
    requires Sound(c)
    ensures AddTimes(c, IDENTITY, Point(0, c.p - 1), e) == Ok(if e % 2 == 1 then Point(0, c.p - 1) else IDENTITY)
  {
    var m := Point(0, c.p - 1);
    MinusOneTwice(c);
    Neutral(c, m);
    if e > 0 {
      NeutralTimes(c, if e % 2 == 1 then m else IDENTITY, e / 2);
    }
  }

  lemma MinusOneOutside(c: Params, pt: Point)
    requires Sound(c) && OddSubgroup(c) && pt.u == 0 && pt.v == c.p - 1
    ensures SubgroupTest(c, pt) == Ok(false)
  {
    MinusOneTimes(c, Mod(c.subOrder, c.order));
  }

  lemma UnitFromZeroU(c: Params, v: nat)
    requires Sound(c) && OnCurve(c, Point(0, v)) && v < c.p
    ensures v == 1 || v == c.p - 1
  {
    OnCurveIff(c, Point(0, v));
    NumDen(c, v);
    ZeroTimes(Den(c, v));
    Sides(1, v * v, 1 - v * v, 0, c.p);
    SquareRoots(v, 1, c.p);
    CongBy(c.p - 1, -1, 1, c.p);
    if Cong(v, 1, c.p) {
      Unique(v, 1, c.p);
    } else {
      Unique(v, c.p - 1, c.p);
    }
  }

  lemma ZeroUFromUnit(c: Params, pt: Point)
    requires Sound(c) && OnCurve(c, pt) && InField(c, pt) && (pt.v == 1 || pt.v == c.p - 1)
    ensures pt.u == 0
  {
    OnCurveIff(c, pt);
    NumDen(c, pt.v);
    SquareOfUnit(c, pt.v);
    Sides(1, pt.v * pt.v, 1 - pt.v * pt.v, 0, c.p);
    DenNotZero(c, pt);
    PrimeSplits(pt.u * pt.u, Den(c, pt.v), c.p);
    PrimeSplits(pt.u, pt.u, c.p);
    Unique(pt.u, 0, c.p);
  }

  /** The points of the curve with u = 0 are (0, 1) and (0, p - 1). */
  lemma ZeroU(c: Params, pt: Point)
    requires Sound(c) && OnCurve(c, pt) && InField(c, pt)
    ensures pt.u == 0 <==> pt.v == 1 || pt.v == c.p - 1
  {
    if pt.u == 0 {
      assert pt == Point(0, pt.v);
      UnitFromZeroU(c, pt.v);
    } else if pt.v == 1 || pt.v == c.p - 1 {
      ZeroUFromUnit(c, pt);
    }
  }

  /** The subgroup's order is odd, as BabyJubJub's is. */
  predicate OddSubgroup(c: Params)
    requires c.order > 0
  {
    Mod(c.subOrder, c.order) % 2 == 1
  }

  lemma BabyJubIsOdd()
    ensures OddSubgroup(BABYJUB)
  {
  }

  /** Packing returns the bytes when they carry the sign it would write. */
  lemma SignComesBack(c: Params, bs: seq<byte>, pt: Point)
    requires Sound(c) && Decodes(c, bs, pt)
    ensures Packed(c, pt) == bs <==> !(SignBit(bs) && pt.u == 0)
  {
    BytesOfValue(Unsigned(bs));
    WithSignAgain(bs, pt.u > Half(c));
  }

  lemma OddTurnsAway(c: Params, bs: seq<byte>, pt: Point)
    requires Sound(c) && OddSubgroup(c) && Decodes(c, bs, pt) && pt.u == 0
    ensures pt.v != c.p - 1
  {
    if pt.v == c.p - 1 {
      MinusOneOutside(c, pt);
    }
  }

  /** The other way round, the bytes come back too, unless they encode v = 1 with the sign bit set, which is the
      identity with a sign it does not have. An even order would let p - 1 through the same way. */
  lemma PackedAgain(c: Params, bs: seq<byte>, pt: Point)
    requires Sound(c) && Decodes(c, bs, pt)
    ensures Packed(c, pt) == bs <==> !(SignBit(bs) && (Value(Unsigned(bs)) == 1 || Value(Unsigned(bs)) == c.p - 1))
    ensures OddSubgroup(c) ==> (Packed(c, pt) == bs <==> !(SignBit(bs) && Value(Unsigned(bs)) == 1))
  {
    SignComesBack(c, bs, pt);
    ZeroU(c, pt);
    if OddSubgroup(c) && pt.u == 0 {
      OddTurnsAway(c, bs, pt);
    }
  }

  /** The bytes that do not come back: the identity's own, with bit 255 set, stand for it as well. */
  lemma IdentityHasTwoEncodings(c: Params)
    requires Sound(c)
    ensures var bs := [1 as byte] + seq(30, _ => 0 as byte) + [128 as byte];
            Decodes(c, bs, IDENTITY) && Packed(c, IDENTITY) == bs[31 := 0] && Packed(c, IDENTITY) != bs
  {
    var bs := [1 as byte] + seq(30, _ => 0 as byte) + [128 as byte];
    ZerosAre(0, 31);
    assert LittleEndian(1, 32) == [1] + LittleEndian(0, 31);
    assert Unsigned(bs) == LittleEndian(1, 32);
    Capacity31();
    ValueOfBytes(1, 32);
    OnCurvePlain(c, IDENTITY);
    ZeroTimes(c.a);
    ZeroTimes(c.d);
    assert bs[31] == 128 && Packed(c, IDENTITY)[31] == 0;
  }

  lemma {:induction false} ZerosAre(v: nat, n: nat)
    requires v == 0
    ensures LittleEndian(v, n) == seq(n, _ => 0)
  {
    if n > 0 {
      ZerosAre(v, n - 1);
    }
  }

  lemma WithSignAgain(bs: seq<byte>, sign: bool)
    requires |bs| == 32
    ensures WithSign(Unsigned(bs), sign) == bs <==> sign == SignBit(bs)
  {
    var le := Unsigned(bs);
    assert SignBit(bs) ==> le[31 := le[31] + 128] == bs;
    assert SignBit(bs) ==> le[31] != bs[31];
    assert sign ==> WithSign(le, sign)[31] >= 128;
  }
}
