/** floor(x·y / d), written by repeated addition and subtraction so that a proof meets its products only where it
    asks for them (ProrataIs). */
module Prorata {
  function Product(x: nat, y: nat): nat {
    if x == 0 then 0 else y + Product(x - 1, y)
  }

  function Floor(n: nat, d: nat): nat
    requires d > 0
  {
    if n < d then 0 else 1 + Floor(n - d, d)
  }

  function MulDiv(x: nat, y: nat, d: nat): nat
    requires d > 0
  {
    Floor(Product(x, y), d)
  }

  lemma {:induction false} ProductIs(x: nat, y: nat)
    ensures Product(x, y) == x * y
  {
    if x > 0 {
      ProductIs(x - 1, y);
      assert x * y == (x - 1) * y + y;
    }
  }

  lemma {:induction false} FloorBounds(n: nat, d: nat)
    requires d > 0
    ensures Floor(n, d) * d <= n < (Floor(n, d) + 1) * d
  {
    if n < d {
      assert 0 * d == 0 && (0 + 1) * d == d;
    } else {
      FloorBounds(n - d, d);
      var q := Floor(n - d, d);
      assert (1 + q) * d == q * d + d && (1 + q + 1) * d == (q + 1) * d + d;
    }
  }

  lemma Times(x: nat, y: nat, z: nat)
    requires x <= y
    ensures x * z <= y * z && z * x <= z * y
  {
    assert y * z == x * z + (y - x) * z;
  }

  /** The quotient is the one there is. */
  lemma FloorUnique(n: nat, d: nat, q: nat)
    requires d > 0 && q * d <= n < (q + 1) * d
    ensures Floor(n, d) == q
  {
    FloorBounds(n, d);
    if Floor(n, d) < q {
      Times(Floor(n, d) + 1, q, d);
    } else if q < Floor(n, d) {
      Times(q + 1, Floor(n, d), d);
    }
  }

  lemma ProrataIs(x: nat, y: nat, d: nat)
    requires d > 0
    ensures x * y >= 0 && MulDiv(x, y, d) == (x * y) / d
  {
    ProductIs(x, y);
    var n := x * y;
    assert n / d * d <= n < (n / d + 1) * d;
    FloorUnique(n, d, n / d);
  }

  lemma {:induction false} FloorMono(m: nat, n: nat, d: nat)
    requires d > 0 && m <= n
    ensures Floor(m, d) <= Floor(n, d)
  {
    if m >= d {
      FloorMono(m - d, n - d, d);
    }
  }

  lemma {:induction false} ProductMono(x: nat, x': nat, y: nat)
    requires x <= x'
    ensures Product(x, y) <= Product(x', y)
  {
    if x < x' {
      ProductMono(x, x' - 1, y);
    }
  }

  lemma MulDivMono(x: nat, x': nat, y: nat, d: nat)
    requires d > 0 && x <= x'
    ensures MulDiv(x, y, d) <= MulDiv(x', y, d)
  {
    ProductMono(x, x', y);
    FloorMono(Product(x, y), Product(x', y), d);
  }

  /** Rounding down both ways never ends above the start. */
  lemma ThereAndBack(x: nat, y: nat, d: nat, part: nat)
    requires d > 0 && y > 0 && part <= MulDiv(x, y, d)
    ensures MulDiv(part, d, y) <= x
  {
    var most := MulDiv(x, y, d);
    ProductIs(x, y);
    ProductIs(part, d);
    FloorBounds(x * y, d);
    Times(part, most, d);
    FloorMono(part * d, x * y, y);
    assert x * y < (x + 1) * y;
    FloorUnique(x * y, y, x);
  }

  /** What is paid for a part, at the whole's price, is not more than that price. */
  lemma NoDearer(part: nat, price: nat, whole: nat)
    requires whole > 0
    ensures MulDiv(part, price, whole) * whole <= part * price
  {
    ProductIs(part, price);
    FloorBounds(part * price, whole);
  }

  /** One more would be over. */
  lemma IsMost(x: nat, y: nat, d: nat)
    requires d > 0
    ensures MulDiv(x, y, d) * d <= x * y < (MulDiv(x, y, d) + 1) * d
  {
    ProductIs(x, y);
    FloorBounds(x * y, d);
  }
}
