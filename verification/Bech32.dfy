/** bech32m of dapp/btc-shielded-pool.js (BIP-350, on BIP-173, without the length cap): the GF(2)-linear checksum,
    the encoder and the decoder. Prefixes are ASCII. */
module Bech32 {
  import opened Wrappers
  import opened BitRegroup
  import opened Words

  // ----- exclusive or

  function Xor(a: nat, b: nat): nat
    decreases a + b
  {
    if a == 0 && b == 0 then 0 else 2 * Xor(a / 2, b / 2) + (if a % 2 == b % 2 then 0 else 1)
  }

  lemma {:induction false} XorZero(a: nat)
    ensures Xor(a, 0) == a && Xor(0, a) == a && Xor(a, a) == 0
  {
    if a != 0 {
      XorZero(a / 2);
    }
  }

  lemma {:induction false} XorComm(a: nat, b: nat)
    ensures Xor(a, b) == Xor(b, a)
    decreases a + b
  {
    if !(a == 0 && b == 0) {
      XorComm(a / 2, b / 2);
    }
  }

  /** Halves and last bits apart. */
  lemma XorMake(h: nat, x: nat, h': nat, y: nat)
    requires x < 2 && y < 2
    ensures Xor(2 * h + x, 2 * h' + y) == 2 * Xor(h, h') + (if x == y then 0 else 1)
  {
    assert (2 * h + x) / 2 == h && (2 * h' + y) / 2 == h';
  }

  lemma FromHalves(a: nat, x: nat, b: nat, y: nat, c: nat, z: nat)
    requires x < 2 && y < 2 && z < 2 && Xor(Xor(a, b), c) == Xor(a, Xor(b, c))
    ensures Xor(Xor(2 * a + x, 2 * b + y), 2 * c + z) == Xor(2 * a + x, Xor(2 * b + y, 2 * c + z))
  {
    var xy, yz := if x == y then 0 else 1, if y == z then 0 else 1;
    XorMake(a, x, b, y);
    XorMake(Xor(a, b), xy, c, z);
    XorMake(b, y, c, z);
    XorMake(a, x, Xor(b, c), yz);
  }

  lemma {:induction false} XorAssoc(a: nat, b: nat, c: nat)
    ensures Xor(Xor(a, b), c) == Xor(a, Xor(b, c))
    decreases a + b + c
  {
    if a == 0 && b == 0 && c == 0 {
      XorZero(0);
    } else {
      XorAssoc(a / 2, b / 2, c / 2);
      FromHalves(a / 2, a % 2, b / 2, b % 2, c / 2, c % 2);
    }
  }

  lemma HalfXor(a: nat, b: nat)
    ensures Xor(a, b) / 2 == Xor(a / 2, b / 2) && Xor(a, b) % 2 == (if a % 2 == b % 2 then 0 else 1)
    ensures Xor(a, b) == 2 * Xor(a / 2, b / 2) + (if a % 2 == b % 2 then 0 else 1)
  {
  }

  lemma XorMerge(a: nat, a': nat, b: nat, b': nat)
    ensures Xor(Xor(a, a'), Xor(b, b')) == Xor(Xor(a, b), Xor(a', b'))
  {
    XorAssoc(a, a', Xor(b, b'));
    XorAssoc(a', b, b');
    XorComm(a', b);
    XorAssoc(b, a', b');
    XorAssoc(a, b, Xor(a', b'));
  }

  /** Undoing an exclusive or. */
  lemma XorCancel(a: nat, b: nat)
    ensures Xor(Xor(a, b), b) == a && Xor(b, Xor(b, a)) == a
  {
    XorAssoc(a, b, b);
    XorAssoc(b, b, a);
    XorZero(b);
    XorZero(a);
  }

  lemma {:induction false} XorShl(a: nat, b: nat, k: nat)
    ensures Shl(a, k) >= 0 && Shl(b, k) >= 0 && Xor(Shl(a, k), Shl(b, k)) == Shl(Xor(a, b), k)
  {
    if k > 0 {
      XorShl(a, b, k - 1);
      HalfXor(Shl(a, k), Shl(b, k));
    }
  }

  /** Exclusive or works on the high and the low part apart. */
  lemma {:induction false} XorHigh(x: nat, y: nat, k: nat)
    ensures Shr(x, k) >= 0 && Shr(y, k) >= 0 && Shr(Xor(x, y), k) == Xor(Shr(x, k), Shr(y, k))
    decreases k
  {
    if k > 0 {
      HalfXor(x, y);
      XorHigh(x / 2, y / 2, k - 1);
    }
  }

  lemma {:induction false} XorLow(x: nat, y: nat, k: nat)
    ensures Low(Xor(x, y), k) == Xor(Low(x, k), Low(y, k))
    decreases k
  {
    if k == 0 {
      XorZero(0);
    } else {
      XorLow(x / 2, y / 2, k - 1);
      XorLowStep(x / 2, x % 2, y / 2, y % 2, k);
    }
  }

  lemma XorLowStep(h: nat, x: nat, h': nat, y: nat, k: nat)
    requires x < 2 && y < 2 && k > 0 && Low(Xor(h, h'), k - 1) == Xor(Low(h, k - 1), Low(h', k - 1))
    ensures Low(Xor(2 * h + x, 2 * h' + y), k) == Xor(Low(2 * h + x, k), Low(2 * h' + y, k))
  {
    XorMake(h, x, h', y);
    LowMake(Xor(h, h'), if x == y then 0 else 1, k);
    LowMake(h, x, k);
    LowMake(h', y, k);
    XorMake(Low(h, k - 1), x, Low(h', k - 1), y);
  }

  lemma LowMake(h: nat, x: nat, k: nat)
    requires x < 2 && k > 0
    ensures Low(2 * h + x, k) == 2 * Low(h, k - 1) + x
  {
    assert (2 * h + x) / 2 == h && (2 * h + x) % 2 == x;
  }

  lemma {:induction false} XorBound(a: nat, b: nat, k: nat)
    requires a < Two(k) && b < Two(k)
    ensures Xor(a, b) < Two(k)
  {
    if k == 0 {
      XorZero(0);
    } else {
      XorBound(a / 2, b / 2, k - 1);
      HalfXor(a, b);
    }
  }

  /** A k-bit value takes the place a shift by k cleared. */
  lemma {:induction false} XorAppends(c: nat, v: nat, k: nat)
    requires v < Two(k)
    ensures Shl(c, k) >= 0 && Xor(Shl(c, k), v) == Shl(c, k) + v
  {
    if k == 0 {
      XorZero(c);
    } else {
      XorAppends(c, v / 2, k - 1);
      XorMake(Shl(c, k - 1), 0, v / 2, v % 2);
    }
  }

  lemma {:induction false} SmallNumber(x: nat, k: nat)
    requires x < Two(k)
    ensures Shr(x, k) == 0 && Low(x, k) == x
    decreases k
  {
    if k > 0 {
      SmallNumber(x / 2, k - 1);
    }
  }

  // ----- the checksum

  const GEN: seq<nat> := [0x3b6a57b2, 0x26508e6d, 0x1ea119fa, 0x3d4233dd, 0x2a1462b3]
  const BECH32M_CONST := 0x2bc830a3

  /** The generators picked by the bits of b, from the lowest. */
  function Feed(b: nat, gens: seq<nat>): nat {
    if gens == [] then 0 else Xor(if b % 2 == 1 then gens[0] else 0, Feed(b / 2, gens[1..]))
  }

  /** One value taken in: (chk & 0x1ffffff) << 5 ^ v, and the generators of the bits pushed out. */
  function Step(chk: nat, v: nat): nat {
    Xor(Xor(Up(chk), v), Feed(Out(chk), GEN))
  }

  function Up(chk: nat): nat {
    var r := Shl(Low(chk, 25), 5);
    Shl5(Low(chk, 25));
    r
  }

  function Out(chk: nat): nat {
    ShrPositive(chk, 25);
    Shr(chk, 25)
  }

  lemma {:induction false} ShrPositive(x: nat, k: nat)
    ensures Shr(x, k) >= 0
    decreases k
  {
    if k > 0 {
      ShrPositive(x / 2, k - 1);
    }
  }

  function Polymod(chk: nat, values: seq<nat>): nat {
    if values == [] then chk else Step(Polymod(chk, values[..|values| - 1]), values[|values| - 1])
  }

  /** `polymod`. */
  method PolymodLoop(values: seq<nat>) returns (chk: nat)
    ensures chk == Polymod(1, values)
  {
    chk := 1;
    for i := 0 to |values|
      invariant chk == Polymod(1, values[..i])
    {
      assert values[..i + 1][..i] == values[..i];
      chk := StepLoop(chk, values[i]);
    }
    assert values[..|values|] == values;
  }

  method StepLoop(before: nat, v: nat) returns (chk: nat)
    ensures chk == Step(before, v)
  {
    var b := Out(before);
    chk := Xor(Up(before), v);
    XorZero(chk);
    for i := 0 to 5
      invariant Xor(chk, Feed(b, GEN[i..])) == Step(before, v)
    {
      assert GEN[i..][1..] == GEN[i + 1..];
      XorAssoc(chk, if b % 2 == 1 then GEN[i] else 0, Feed(b / 2, GEN[i + 1..]));
      XorZero(chk);
      if b % 2 == 1 {
        chk := Xor(chk, GEN[i]);
      }
      b := b / 2;
    }
    XorZero(chk);
  }

  lemma {:induction false} FeedLinear(b: nat, c: nat, gens: seq<nat>)
    ensures Feed(Xor(b, c), gens) == Xor(Feed(b, gens), Feed(c, gens))
  {
    if gens == [] {
      XorZero(0);
    } else {
      var g := gens[0];
      FeedLinear(b / 2, c / 2, gens[1..]);
      HalfXor(b, c);
      XorZero(g);
      XorZero(0);
      XorMerge(if b % 2 == 1 then g else 0, if c % 2 == 1 then g else 0, Feed(b / 2, gens[1..]), Feed(c / 2, gens[1..]));
    }
  }

  lemma Shl5(x: nat)
    ensures Shl(x, 5) == 32 * x
  {
    Shl4(x);
  }

  /** The checksum step is linear over GF(2). */
  lemma StepLinear(x: nat, y: nat, v: nat, w: nat)
    ensures Step(Xor(x, y), Xor(v, w)) == Xor(Step(x, v), Step(y, w))
  {
    XorHigh(x, y, 25);
    XorLow(x, y, 25);
    XorShl(Low(x, 25), Low(y, 25), 5);
    FeedLinear(Out(x), Out(y), GEN);
    XorMerge(Up(x), Up(y), v, w);
    XorMerge(Xor(Up(x), v), Xor(Up(y), w), Feed(Out(x), GEN), Feed(Out(y), GEN));
  }

  /** n zero values. */
  function Nothing(n: nat): (z: seq<nat>)
    ensures |z| == n
  {
    if n == 0 then [] else Nothing(n - 1) + [0]
  }

  /** What a list of values adds to a register does not depend on the register. */
  lemma {:induction false} PolymodLinear(chk: nat, values: seq<nat>)
    ensures Polymod(chk, values) == Xor(Polymod(chk, Nothing(|values|)), Polymod(0, values))
  {
    if values == [] {
      XorZero(chk);
    } else {
      var front, last := values[..|values| - 1], values[|values| - 1];
      PolymodLinear(chk, front);
      StepLinear(Polymod(chk, Nothing(|front|)), Polymod(0, front), 0, last);
      XorZero(last);
      assert Nothing(|values|)[..|front|] == Nothing(|front|);
    }
  }

  lemma {:induction false} PolymodAppend(chk: nat, v: seq<nat>, w: seq<nat>)
    ensures Polymod(chk, v + w) == Polymod(Polymod(chk, v), w)
  {
    if w == [] {
      assert v + w == v;
    } else {
      assert (v + w)[..|v + w| - 1] == v + w[..|w| - 1];
      PolymodAppend(chk, v, w[..|w| - 1]);
    }
  }

  // ----- six checksum symbols

  /** The six 5-bit digits of a 30-bit number: (pm >>> 5·(5 - i)) & 31. */
  function Digits(pm: nat): (d: seq<nat>)
    ensures |d| == 6 && forall i :: 0 <= i < 6 ==> d[i] < 32
  {
    LastDigits(pm, 6)
  }

  function LastDigits(pm: nat, k: nat): (d: seq<nat>)
    ensures |d| == k && forall i :: 0 <= i < k ==> d[i] < 32
  {
    if k == 0 then [] else LastDigits(pm / 32, k - 1) + [pm % 32]
  }

  function Number(d: seq<nat>): nat {
    if d == [] then 0 else Number(d[..|d| - 1]) * 32 + d[|d| - 1]
  }

  function Limit(k: nat): nat {
    if k == 0 then 1 else 32 * Limit(k - 1)
  }

  ghost predicate AreDigits(d: seq<nat>) {
    forall i :: 0 <= i < |d| ==> d[i] < 32
  }

  lemma {:induction false} DigitsNumber(pm: nat, k: nat)
    requires pm < Limit(k)
    ensures Number(LastDigits(pm, k)) == pm
  {
    if k > 0 {
      DigitsNumber(pm / 32, k - 1);
      assert LastDigits(pm, k)[..k - 1] == LastDigits(pm / 32, k - 1);
    }
  }

  lemma {:induction false} NumberDigits(d: seq<nat>)
    requires AreDigits(d)
    ensures Number(d) < Limit(|d|) && LastDigits(Number(d), |d|) == d
  {
    if d != [] {
      NumberDigits(d[..|d| - 1]);
    }
  }

  lemma {:induction false} Limits(k: nat)
    ensures Limit(k) == Two(5 * k)
  {
    if k > 0 {
      Limits(k - 1);
      assert 5 * k == 5 * (k - 1) + 5;
      TwoPlus5(5 * (k - 1));
    }
  }

  lemma TwoPlus5(j: nat)
    ensures Two(j + 5) == 32 * Two(j)
  {
    assert Two(j + 1) == 2 * Two(j);
    assert Two(j + 2) == 4 * Two(j);
    assert Two(j + 3) == 8 * Two(j);
    assert Two(j + 4) == 16 * Two(j);
  }

  lemma {:induction false} TwoMono(j: nat, k: nat)
    requires j <= k
    ensures Two(j) <= Two(k)
  {
    if j < k {
      TwoMono(j, k - 1);
    }
  }

  /** While nothing has been pushed out, a step appends a digit. */
  lemma StepAppends(chk: nat, v: nat)
    requires chk < Two(25) && v < 32
    ensures Step(chk, v) == chk * 32 + v
  {
    NothingOut(chk);
    TwoPlus5(0);
    XorAppends(chk, v, 5);
    FeedZero(GEN);
    XorZero(Shl(chk, 5) + v);
    Shl5(chk);
  }

  lemma NothingOut(chk: nat)
    requires chk < Two(25)
    ensures Up(chk) == Shl(chk, 5) && Out(chk) == 0
  {
    SmallNumber(chk, 25);
  }

  lemma {:induction false} FeedZero(gens: seq<nat>)
    ensures Feed(0, gens) == 0
  {
    if gens != [] {
      FeedZero(gens[1..]);
      XorZero(0);
    }
  }

  /** Fed to an empty register, up to six digits are their number. */
  lemma {:induction false} SixIntoEmpty(d: seq<nat>)
    requires |d| <= 6 && AreDigits(d)
    ensures Polymod(0, d) == Number(d)
  {
    if d != [] {
      var front := d[..|d| - 1];
      SixIntoEmpty(front);
      NumberDigits(front);
      Limits(|front|);
      TwoMono(5 * |front|, 25);
      StepAppends(Number(front), d[|d| - 1]);
    }
  }

  /** Six digits on top of any register: the register run over six zeros, exclusive-or their number. */
  lemma SixDigits(chk: nat, d: seq<nat>)
    requires |d| == 6 && AreDigits(d)
    ensures Polymod(chk, d) == Xor(Polymod(chk, Nothing(6)), Number(d))
  {
    PolymodLinear(chk, d);
    SixIntoEmpty(d);
  }

  lemma {:induction false} FeedBound(b: nat, gens: seq<nat>)
    requires forall i :: 0 <= i < |gens| ==> gens[i] < Two(30)
    ensures Feed(b, gens) < Two(30)
  {
    if gens != [] {
      FeedBound(b / 2, gens[1..]);
      XorBound(if b % 2 == 1 then gens[0] else 0, Feed(b / 2, gens[1..]), 30);
    }
  }

  lemma Two30()
    ensures Two(30) == 0x40000000 && Two(25) == 0x2000000
  {
    TwoPlus5(0);
    TwoPlus5(5);
    TwoPlus5(10);
    TwoPlus5(15);
    TwoPlus5(20);
    TwoPlus5(25);
  }

  /** The register keeps to 30 bits. */
  lemma StepBound(chk: nat, v: nat)
    requires v < Two(30)
    ensures Step(chk, v) < Two(30)
  {
    Two30();
    Shl5(Low(chk, 25));
    XorBound(Up(chk), v, 30);
    FeedBound(Out(chk), GEN);
    XorBound(Xor(Up(chk), v), Feed(Out(chk), GEN), 30);
  }

  /** The checksum that makes a list of values check. */
  function Checksum(values: seq<nat>): (d: seq<nat>)
    ensures |d| == 6
  {
    Digits(Xor(Polymod(1, values + Nothing(6)), BECH32M_CONST))
  }

  lemma ZerosBound(values: seq<nat>)
    ensures Polymod(Polymod(1, values), Nothing(6)) < Two(30)
  {
    StepBound(Polymod(Polymod(1, values), Nothing(6)[..5]), 0);
  }

  /** Exactly one checksum checks, and it is the one computed. */
  lemma ChecksumIsUnique(values: seq<nat>, d: seq<nat>)
    requires |d| == 6 && AreDigits(d)
    ensures Polymod(1, values + d) == BECH32M_CONST <==> d == Checksum(values)
  {
    var z := Polymod(Polymod(1, values), Nothing(6));
    PolymodAppend(1, values, d);
    PolymodAppend(1, values, Nothing(6));
    SixDigits(Polymod(1, values), d);
    ZerosBound(values);
    Two30();
    XorBound(z, BECH32M_CONST, 30);
    var pm := Xor(z, BECH32M_CONST);
    Limits(6);
    DigitsNumber(pm, 6);
    NumberDigits(d);
    XorCancel(Number(d), z);
    XorCancel(BECH32M_CONST, z);
    XorComm(z, pm);
    XorComm(z, Number(d));
  }

  lemma ChecksumHolds(prefix: seq<nat>, words: seq<nat>)
    ensures var check := Checksum(prefix + words);
            |check| == 6 && AreDigits(check) && Polymod(1, prefix + (words + check)) == BECH32M_CONST
  {
    var check := Checksum(prefix + words);
    assert AreDigits(check);
    ChecksumIsUnique(prefix + words, check);
    CatNat(prefix, words, check);
  }

  lemma CatNat(a: seq<nat>, b: seq<nat>, c: seq<nat>)
    ensures a + (b + c) == (a + b) + c
  {
  }
}
