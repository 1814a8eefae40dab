/** What the checksum of bech32m is (BIP-173, section "Checksum"; BIP-350): six symbols of the field of 32 elements, the
    remainder of the data as a polynomial by the code's generator x^6 + 29x^5 + 22x^4 + 20x^3 + 21x^2 + 29x + 18. */
module Bech32Field {
  import opened Wrappers
  import opened BitRegroup
  import opened Words
  import opened Bech32
  import Bech32Codec

  // ----- the field of 32 elements, five bits each, modulo a^5 + a^3 + 1

  /** Times the root a. */
  function Doubled(g: nat): nat {
    if g < 16 then 2 * g else Xor(2 * g, 41)
  }

  /** An element times 1, a, a^2, a^3 and a^4. */
  function Powers(g: nat): (r: seq<nat>)
    ensures |r| == 5
  {
    var g1 := Doubled(g);
    var g2 := Doubled(g1);
    var g3 := Doubled(g2);
    [g, g1, g2, g3, Doubled(g3)]
  }

  /** The product: the multiples picked by the bits of b. */
  function Product(b: nat, g: nat): nat {
    Feed(b, Powers(g))
  }

  const LOWER: seq<nat> := [29, 22, 20, 21, 29, 18]

  // ----- exclusive or digit by digit

  lemma {:induction false} XorPart(a: nat, x: nat, b: nat, y: nat, k: nat)
    requires x < Two(k) && y < Two(k)
    ensures a * Two(k) >= 0 && b * Two(k) >= 0
    ensures Xor(a * Two(k) + x, b * Two(k) + y) == Xor(a, b) * Two(k) + Xor(x, y)
    decreases k
  {
    if k == 0 {
      XorZero(0);
    } else {
      XorPart(a, x / 2, b, y / 2, k - 1);
      XorMake(a * Two(k - 1) + x / 2, x % 2, b * Two(k - 1) + y / 2, y % 2);
      HalfXor(x, y);
      Halves(a, Two(k - 1), x);
      Halves(b, Two(k - 1), y);
      Halves(Xor(a, b), Two(k - 1), Xor(x, y));
    }
  }

  lemma Halves(a: nat, t: nat, x: nat)
    ensures a * (2 * t) + x == 2 * (a * t + x / 2) + x % 2
  {
    assert a * (2 * t) == 2 * (a * t);
  }

  lemma XorDigit(a: nat, x: nat, b: nat, y: nat)
    requires x < 32 && y < 32
    ensures Xor(a * 32 + x, b * 32 + y) == Xor(a, b) * 32 + Xor(x, y) && Xor(x, y) < 32
  {
    TwoPlus5(0);
    XorPart(a, x, b, y, 5);
    XorBound(x, y, 5);
  }

  function XorAll(d: seq<nat>, e: seq<nat>): (r: seq<nat>)
    requires |d| == |e|
    ensures |r| == |d|
  {
    seq(|d|, i requires 0 <= i < |d| => Xor(d[i], e[i]))
  }

  lemma {:induction false} XorNumbers(d: seq<nat>, e: seq<nat>)
    requires |d| == |e| && AreDigits(d) && AreDigits(e)
    ensures Xor(Number(d), Number(e)) == Number(XorAll(d, e)) && AreDigits(XorAll(d, e))
  {
    if d == [] {
      XorZero(0);
    } else {
      var n := |d| - 1;
      XorNumbers(d[..n], e[..n]);
      XorDigit(Number(d[..n]), d[n], Number(e[..n]), e[n]);
      assert XorAll(d, e)[..n] == XorAll(d[..n], e[..n]);
    }
  }

  // ----- the generators

  function Column(rows: seq<seq<nat>>, j: nat): (c: seq<nat>)
    requires forall i :: 0 <= i < |rows| ==> |rows[i]| == 6
    requires j < 6
    ensures |c| == |rows|
  {
    seq(|rows|, i requires 0 <= i < |rows| => rows[i][j])
  }

  function Numbers(rows: seq<seq<nat>>): (r: seq<nat>)
    ensures |r| == |rows|
  {
    seq(|rows|, i requires 0 <= i < |rows| => Number(rows[i]))
  }

  ghost predicate AreRows(rows: seq<seq<nat>>) {
    forall i :: 0 <= i < |rows| ==> |rows[i]| == 6 && AreDigits(rows[i])
  }

  function FeedRow(b: nat, rows: seq<seq<nat>>): (r: seq<nat>)
    requires forall i :: 0 <= i < |rows| ==> |rows[i]| == 6
    ensures |r| == 6
  {
    seq(6, j requires 0 <= j < 6 => Feed(b, Column(rows, j)))
  }

  lemma {:induction false} NumberOfNothing(n: nat)
    ensures Number(Nothing(n)) == 0 && AreDigits(Nothing(n))
  {
    if n > 0 {
      NumberOfNothing(n - 1);
      Snoc(Nothing(n - 1), 0);
    }
  }

  /** Feeding six-digit numbers feeds each digit's column. */
  lemma {:induction false} FeedDigits(b: nat, rows: seq<seq<nat>>)
    requires AreRows(rows)
    ensures Feed(b, Numbers(rows)) == Number(FeedRow(b, rows)) && AreDigits(FeedRow(b, rows))
  {
    if rows == [] {
      NumberOfNothing(6);
      assert FeedRow(b, rows) == Nothing(6);
    } else {
      var first, rest := if b % 2 == 1 then rows[0] else Nothing(6), FeedRow(b / 2, rows[1..]);
      FeedDigits(b / 2, rows[1..]);
      NumberOfNothing(6);
      XorNumbers(first, rest);
      assert Numbers(rows)[1..] == Numbers(rows[1..]);
      FeedRowHead(b, rows, first, rest);
    }
  }

  lemma FeedRowHead(b: nat, rows: seq<seq<nat>>, first: seq<nat>, rest: seq<nat>)
    requires AreRows(rows) && rows != [] && rest == FeedRow(b / 2, rows[1..])
    requires first == if b % 2 == 1 then rows[0] else Nothing(6)
    ensures FeedRow(b, rows) == XorAll(first, rest)
  {
    NothingIsZero(6);
    forall j | 0 <= j < 6 ensures FeedRow(b, rows)[j] == XorAll(first, rest)[j] {
      assert Column(rows, j)[1..] == Column(rows[1..], j);
    }
  }

  lemma {:induction false} NothingIsZero(n: nat)
    ensures forall j :: 0 <= j < n ==> Nothing(n)[j] == 0
  {
    if n > 0 {
      NothingIsZero(n - 1);
    }
  }

  /** Row i: the generator's lower coefficients times a^i. */
  function Row(i: nat): (r: seq<nat>)
    requires i < 5
    ensures |r| == 6
  {
    seq(6, j requires 0 <= j < 6 => Powers(LOWER[j])[i])
  }

  const ROWS: seq<seq<nat>> := [
    [29, 22, 20, 21, 29, 18], [19, 5, 1, 3, 19, 13], [15, 10, 2, 6, 15, 26], [30, 20, 4, 12, 30, 29], [21, 1, 8, 24, 21, 19]]

  lemma Snoc(d: seq<nat>, x: nat)
    ensures Number(d + [x]) == Number(d) * 32 + x
  {
    assert (d + [x])[..|d|] == d;
  }

  lemma SixDigitsAre(a: nat, b: nat, c: nat, d: nat, e: nat, f: nat)
    ensures Number([a, b, c, d, e, f]) == ((((a * 32 + b) * 32 + c) * 32 + d) * 32 + e) * 32 + f
  {
    Snoc([], a);
    Snoc([a], b);
    Snoc([a, b], c);
    Snoc([a, b, c], d);
    Snoc([a, b, c, d], e);
    Snoc([a, b, c, d, e], f);
    assert [] + [a] == [a] && [a] + [b] == [a, b] && [a, b] + [c] == [a, b, c] && [a, b, c] + [d] == [a, b, c, d];
    assert [a, b, c, d] + [e] == [a, b, c, d, e] && [a, b, c, d, e] + [f] == [a, b, c, d, e, f];
  }

  /** The five constants of `polymod` are the generator times 1, a, a^2, a^3 and a^4. */
  lemma GeneratorsAre(i: nat)
    requires i < 5
    ensures GEN[i] == Number(Row(i)) && AreDigits(Row(i)) && Row(i) == ROWS[i]
  {
    RowIs(i);
    match i
    case 0 => SixDigitsAre(29, 22, 20, 21, 29, 18);
    case 1 => SixDigitsAre(19, 5, 1, 3, 19, 13);
    case 2 => SixDigitsAre(15, 10, 2, 6, 15, 26);
    case 3 => SixDigitsAre(30, 20, 4, 12, 30, 29);
    case _ => SixDigitsAre(21, 1, 8, 24, 21, 19);
  }

  lemma RowIs(i: nat)
    requires i < 5
    ensures Row(i) == ROWS[i] && AreDigits(ROWS[i])
  {
    forall j | 0 <= j < 6 ensures Row(i)[j] == ROWS[i][j] {
      PowersOfLower(j);
    }
  }

  lemma PowersOfLower(j: nat)
    requires j < 6
    ensures Powers(LOWER[j]) == [ROWS[0][j], ROWS[1][j], ROWS[2][j], ROWS[3][j], ROWS[4][j]]
  {
    assert Xor(58, 41) == 19;
    assert Xor(38, 41) == 15;
    assert Xor(60, 41) == 21;
    assert Xor(44, 41) == 5;
    assert Xor(40, 41) == 1;
    assert Xor(42, 41) == 3;
    assert Xor(36, 41) == 13;
    assert Xor(52, 41) == 29;
    assert Xor(58, 41) == 19;
  }

  // ----- one step

  lemma {:induction false} TopAndRest(a: nat, x: nat, k: nat)
    requires x < Two(k)
    ensures a * Two(k) >= 0 && Low(a * Two(k) + x, k) == x && Shr(a * Two(k) + x, k) == a
    decreases k
  {
    if k > 0 {
      Halves(a, Two(k - 1), x);
      TopAndRest(a, x / 2, k - 1);
      OneBit(a * Two(k - 1) + x / 2, x % 2, k);
    }
  }

  lemma OneBit(h: nat, b: nat, k: nat)
    requires b < 2 && k > 0
    ensures Low(2 * h + b, k) == 2 * Low(h, k - 1) + b && Shr(2 * h + b, k) == Shr(h, k - 1)
  {
    assert (2 * h + b) / 2 == h && (2 * h + b) % 2 == b;
  }

  lemma {:induction false} FirstDigit(d: seq<nat>)
    requires d != []
    ensures Number(d) == d[0] * Limit(|d| - 1) + Number(d[1..])
  {
    if |d| == 1 {
      assert d[..0] == [] && d[1..] == [];
    } else {
      var n := |d| - 1;
      FirstDigit(d[..n]);
      assert d[..n][1..] == d[1..][..n - 1];
      var l := Limit(n - 1);
      assert (d[0] * l) * 32 == d[0] * (32 * l);
    }
  }

  lemma TopDigit(d: seq<nat>, n: nat)
    requires |d| == n + 1 && AreDigits(d)
    ensures Low(Number(d), 5 * n) == Number(d[1..]) && Shr(Number(d), 5 * n) == d[0]
  {
    FirstDigit(d);
    Limits(n);
    NumberDigits(d[1..]);
    TopAndRest(d[0], Number(d[1..]), 5 * n);
  }

  lemma UpAndOut(d: seq<nat>)
    requires |d| == 6 && AreDigits(d)
    ensures Up(Number(d)) == Shl(Number(d[1..]), 5) && Out(Number(d)) == d[0]
  {
    TopDigit(d, 5);
  }

  lemma TakesIn(d: seq<nat>, v: nat)
    requires |d| == 6 && AreDigits(d) && v < 32
    ensures Xor(Up(Number(d)), v) == Number(d[1..] + [v]) && Out(Number(d)) == d[0]
  {
    UpAndOut(d);
    Shl5(Number(d[1..]));
    TwoPlus5(0);
    XorAppends(Number(d[1..]), v, 5);
    Snoc(d[1..], v);
  }

  /** What goes out at the top comes back as its product with the generator's lower coefficients. */
  function Back(b: nat, lower: seq<nat>): (r: seq<nat>)
    requires |lower| == 6
    ensures |r| == 6
  {
    seq(6, j requires 0 <= j < 6 => Product(b, lower[j]))
  }

  /** The register's six elements after one value: moved up, and reduced by the generator. */
  function Reduced(d: seq<nat>, v: nat, lower: seq<nat>): (r: seq<nat>)
    requires |d| == 6 && |lower| == 6
    ensures |r| == 6
  {
    XorAll(d[1..] + [v], Back(d[0], lower))
  }

  /** A register and its six elements. */
  ghost predicate Holds(chk: nat, d: seq<nat>) {
    |d| == 6 && AreDigits(d) && chk == Number(d)
  }

  /** A step multiplies the register by x, takes the value in, and reduces by the generator. */
  lemma StepIsReduction(chk: nat, d: seq<nat>, v: nat, lower: seq<nat>)
    requires Holds(chk, d) && v < 32 && lower == LOWER
    ensures Holds(Step(chk, v), Reduced(d, v, lower))
  {
    var moved, back := d[1..] + [v], Back(d[0], lower);
    TakesIn(d, v);
    RowsFeed(d[0], lower);
    forall i | 0 <= i < 6 ensures moved[i] < 32 {
      assert moved[i] == if i < 5 then d[i + 1] else v;
    }
    Assembled(chk, v, moved, d[0], back);
  }

  lemma Assembled(chk: nat, v: nat, moved: seq<nat>, top: nat, back: seq<nat>)
    requires |moved| == 6 && |back| == 6 && AreDigits(moved) && AreDigits(back)
    requires Xor(Up(chk), v) == Number(moved) && Out(chk) == top && Feed(top, GEN) == Number(back)
    ensures Step(chk, v) == Number(XorAll(moved, back)) && AreDigits(XorAll(moved, back))
  {
    StepIs(chk, v, Number(moved), top, Number(back));
    XorNumbers(moved, back);
  }

  lemma StepIs(chk: nat, v: nat, moved: nat, top: nat, back: nat)
    requires Xor(Up(chk), v) == moved && Out(chk) == top && Feed(top, GEN) == back
    ensures Step(chk, v) == Xor(moved, back)
  {
  }

  lemma RowsFeed(b: nat, lower: seq<nat>)
    requires lower == LOWER
    ensures Feed(b, GEN) == Number(Back(b, lower)) && AreDigits(Back(b, lower))
  {
    forall i | 0 <= i < 5 ensures |ROWS[i]| == 6 && AreDigits(ROWS[i]) && GEN[i] == Numbers(ROWS)[i] {
      GeneratorsAre(i);
    }
    assert Numbers(ROWS) == GEN;
    FeedDigits(b, ROWS);
    forall j | 0 <= j < 6 ensures FeedRow(b, ROWS)[j] == Back(b, lower)[j] {
      PowersOfLower(j);
      assert Column(ROWS, j) == Powers(LOWER[j]);
    }
    assert FeedRow(b, ROWS) == Back(b, lower);
  }

  // ----- what the code fixes beyond the field

  /** The alphabet, as one string. */
  lemma AlphabetIs(w: nat)
    requires w < 32
    ensures Bech32Codec.CharOf(w) == "qpzry9x8gf2tvdw0s3jn54khce6mua7l"[w]
    ensures Bech32Codec.WordOf("qpzry9x8gf2tvdw0s3jn54khce6mua7l"[w]) == Some(w)
  {
    Bech32Codec.CharRoundTrip(w);
  }

  /** The remainder every bech32m string leaves, by its six elements (BIP-350, section "Bech32m"). */
  lemma RemainderIs()
    ensures BECH32M_CONST == Number([21, 28, 16, 12, 5, 3])
  {
    SixDigitsAre(21, 28, 16, 12, 5, 3);
  }

  /** The register before the first value is the polynomial 1. */
  lemma StartIs()
    ensures Holds(1, [0, 0, 0, 0, 0, 1])
  {
    SixDigitsAre(0, 0, 0, 0, 0, 1);
  }

  /** Where each part of an encoding stands: prefix, separator, the words of the bytes, and six symbols of checksum. */
  lemma EncodingIs(hrp: string, bytes: seq<nat>)
    ensures var s, words := Bech32Codec.Encode(hrp, bytes), Bech32Codec.WordsOf(bytes);
            && |s| == |hrp| + 1 + |words| + 6 && s[..|hrp|] == hrp && s[|hrp|] == '1'
            && (forall i :: 0 <= i < |words| ==> s[|hrp| + 1 + i] == Bech32Codec.CharOf(words[i]))
  {
    var words := Bech32Codec.WordsOf(bytes);
    var check := Checksum(Bech32Codec.Expand(hrp) + words);
    Placed(hrp, words, check);
  }

  lemma Placed(hrp: string, words: seq<nat>, check: seq<nat>)
    requires |check| == 6
    ensures var s := hrp + "1" + Bech32Codec.Chars(words + check);
            && |s| == |hrp| + 1 + |words| + 6 && s[..|hrp|] == hrp && s[|hrp|] == '1'
            && (forall i :: 0 <= i < |words| ==> s[|hrp| + 1 + i] == Bech32Codec.CharOf(words[i]))
  {
    var s, chars := hrp + "1" + Bech32Codec.Chars(words + check), Bech32Codec.Chars(words + check);
    forall i | 0 <= i < |words| ensures s[|hrp| + 1 + i] == Bech32Codec.CharOf(words[i]) {
      assert s[|hrp| + 1 + i] == chars[i] && (words + check)[i] == words[i];
    }
  }

  /** What the checksum is taken over: the prefix's high bits, a zero, its low bits. */
  lemma ExpansionIs(hrp: string)
    ensures var e := Bech32Codec.Expand(hrp);
            && |e| == 2 * |hrp| + 1 && e[|hrp|] == 0
            && (forall i :: 0 <= i < |hrp| ==> e[i] == hrp[i] as int / 32 && e[|hrp| + 1 + i] == hrp[i] as int % 32)
  {
  }
}
