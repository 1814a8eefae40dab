/** The integer square root of dapp/amm-replay.js: Newton's loop against the simple definition. */
module Isqrt {
  ghost predicate IsRoot(r: nat, n: nat) {
    r * r <= n < (r + 1) * (r + 1)
  }

  /** The floor root, by counting up. */
  function Root(n: nat): (r: nat)
    ensures IsRoot(r, n)
  {
    if n == 0 then 0 else
    var r := Root(n - 1);
    if (r + 1) * (r + 1) <= n then r + 1 else r
  }

  lemma SquareMono(a: nat, b: nat)
    requires a <= b
    ensures a * a <= b * b
  {
    assert b * b == a * a + (b - a) * (b + a);
  }

  lemma RootUnique(r: nat, n: nat)
    requires IsRoot(r, n)
    ensures r == Root(n)
  {
    if r < Root(n) {
      SquareMono(r + 1, Root(n));
    } else if Root(n) < r {
      SquareMono(Root(n) + 1, r);
    }
  }

  /** Whatever fits under a square root is at most the floor root. */
  lemma RootIsLargest(r: nat, n: nat)
    requires r * r <= n
    ensures r <= Root(n)
  {
    if Root(n) < r {
      SquareMono(Root(n) + 1, r);
    }
  }

  lemma FourTimes(x: int, z: int)
    ensures (x + z) * (x + z) >= 4 * (x * z)
  {
    assert (x + z) * (x + z) == 4 * (x * z) + (x - z) * (x - z);
    assert (x - z) * (x - z) >= 0;
  }

  lemma QuotientBound(v: nat, x: nat)
    requires x > 0
    ensures v / x * x <= v < x * (v / x + 1)
  {
  }

  /** A Newton step never falls below the root. */
  lemma StepStaysAbove(v: nat, x: nat)
    requires x > 0
    ensures var y := (x + v / x) / 2; v < (y + 1) * (y + 1)
  {
    var q := v / x;
    var y := (x + q) / 2;
    QuotientBound(v, x);
    FourTimes(x, q + 1);
    var e := 2 * (y + 1);
    assert e >= x + (q + 1);
    SquareMono(x + (q + 1), e);
    assert e * e == 4 * ((y + 1) * (y + 1));
  }

  /** A step that does not go down has arrived. */
  lemma StoppedBelow(v: nat, x: nat)
    requires x > 0 && (x + v / x) / 2 >= x
    ensures x * x <= v
  {
    QuotientBound(v, x);
    assert v / x >= x;
    assert v / x * x >= x * x by { MulMono(x, x, v / x); }
  }

  lemma MulMono(x: nat, a: nat, b: nat)
    requires a <= b
    ensures a * x <= b * x
  {
    assert b * x == a * x + (b - a) * x;
  }

  /** `isqrtBig`. */
  method Newton(v: nat) returns (x: nat)
    ensures x == Root(v)
  {
    if v < 2 {
      RootUnique(v, v);
      return v;
    }
    x := v;
    var y := (x + 1) / 2;
    assert v / v == 1;
    assert v < (v + 1) * (v + 1);
    while y < x
      invariant 0 < x && y == (x + v / x) / 2
      invariant v < (x + 1) * (x + 1)
      decreases x
    {
      StepStaysAbove(v, x);
      x := y;
      assert x == 0 ==> (x + 1) * (x + 1) == 1;
      y := (x + v / x) / 2;
    }
    StoppedBelow(v, x);
    RootUnique(x, v);
  }
}
