/** `convertBits` of dapp/btc-shielded-pool.js: regrouping a list of from-bit numbers into to-bit ones through a
    32-bit accumulator, against the plain list of bits. */
module BitRegroup {
  import opened Wrappers
  import opened Words

  function Shl(x: int, k: nat): int {
    if k == 0 then x else 2 * Shl(x, k - 1)
  }

  function Shr(x: int, k: nat): int
    decreases k
  {
    if k == 0 then x else Shr(x / 2, k - 1)
  }

  /** The lowest k bits: x & (2^k - 1). */
  function Low(x: int, k: nat): (r: nat)
    ensures r < Two(k)
    decreases k
  {
    if k == 0 then 0 else 2 * Low(x / 2, k - 1) + x % 2
  }

  /** The lowest k bits as a list, the highest first; a negative number gives its two's complement. */
  function ToBits(x: int, k: nat): (bits: seq<bool>)
    ensures |bits| == k
    decreases k
  {
    if k == 0 then [] else ToBits(x / 2, k - 1) + [x % 2 == 1]
  }

  function BitsValue(bits: seq<bool>): (v: nat)
    ensures v < Two(|bits|)
  {
    if bits == [] then 0 else 2 * BitsValue(bits[..|bits| - 1]) + (if bits[|bits| - 1] then 1 else 0)
  }

  // ----- bits of shifted and truncated numbers

  lemma {:induction false} ValueToBits(bits: seq<bool>)
    ensures ToBits(BitsValue(bits), |bits|) == bits
  {
    if bits != [] {
      ValueToBits(bits[..|bits| - 1]);
    }
  }

  lemma {:induction false} LowBits(x: int, k: nat)
    ensures ToBits(Low(x, k), k) == ToBits(x, k) && BitsValue(ToBits(x, k)) == Low(x, k)
    decreases k
  {
    if k > 0 {
      LowBits(x / 2, k - 1);
      LowBit(Low(x / 2, k - 1), x % 2, k);
      LastBit(ToBits(x / 2, k - 1), x % 2 == 1);
    }
  }

  lemma LowBit(low: nat, bit: nat, k: nat)
    requires bit < 2 && k > 0
    ensures ToBits(2 * low + bit, k) == ToBits(low, k - 1) + [bit == 1]
  {
    assert (2 * low + bit) / 2 == low && (2 * low + bit) % 2 == bit;
  }

  lemma LastBit(bits: seq<bool>, bit: bool)
    ensures BitsValue(bits + [bit]) == 2 * BitsValue(bits) + (if bit then 1 else 0)
  {
    assert (bits + [bit])[..|bits|] == bits;
  }

  lemma {:induction false} LowOfSmall(v: nat, k: nat)
    requires v < Two(k)
    ensures Low(v, k) == v
  {
    if k > 0 {
      LowOfSmall(v / 2, k - 1);
    }
  }

  /** A shift by n and an or with an n-bit number append its bits. */
  lemma {:induction false} Appended(x: int, v: nat, a: nat, n: nat)
    requires v < Two(n)
    ensures ToBits(Shl(x, n) + v, a + n) == ToBits(x, a) + ToBits(v, n)
  {
    if n > 0 {
      Appended(x, v / 2, a, n - 1);
      assert (Shl(x, n) + v) / 2 == Shl(x, n - 1) + v / 2;
    }
  }

  lemma {:induction false} HighPartIgnored(x: int, k: int, j: nat, n: nat)
    requires n <= j
    ensures ToBits(x + Shl(k, j), n) == ToBits(x, n)
    decreases n
  {
    if n > 0 {
      HighPartIgnored(x / 2, k, j - 1, n - 1);
      assert (x + Shl(k, j)) / 2 == x / 2 + Shl(k, j - 1);
    }
  }

  lemma {:induction false} ShlAdd(x: int, a: nat, b: nat)
    ensures Shl(x, a + b) == Shl(Shl(x, a), b)
  {
    if b > 0 {
      ShlAdd(x, a, b - 1);
    }
  }

  lemma Shl32(x: int)
    ensures Shl(x, 32) == x * 0x1_0000_0000
  {
    ShlAdd(x, 16, 16);
    ShlAdd(x, 8, 8);
    ShlAdd(Shl(x, 16), 8, 8);
    Shl8(x);
    Shl8(Shl(x, 8));
    Shl8(Shl(x, 16));
    Shl8(Shl(Shl(x, 16), 8));
  }

  lemma Shl8(x: int)
    ensures Shl(x, 8) == x * 256
  {
    ShlAdd(x, 4, 4);
    Shl4(x);
    Shl4(16 * x);
  }

  lemma Shl4(x: int)
    ensures Shl(x, 4) == 16 * x
  {
    assert Shl(x, 1) == 2 * x;
    assert Shl(x, 2) == 4 * x;
    assert Shl(x, 3) == 8 * x;
  }

  /** The 32-bit accumulator shows the same low bits as an unbounded one. */
  lemma TruncationIsHarmless(x: int, n: nat)
    requires n <= 32
    ensures ToBits(Int32(x), n) == ToBits(x, n)
  {
    var k := (x + 0x8000_0000) / 0x1_0000_0000;
    Shl32(-k);
    assert Int32(x) == x + Shl(-k, 32);
    HighPartIgnored(x, -k, 32, n);
  }

  lemma {:induction false} SplitAt(x: int, a: nat, b: nat)
    ensures ToBits(x, a + b) == ToBits(Shr(x, b), a) + ToBits(x, b)
    decreases b
  {
    if b > 0 {
      SplitAt(x / 2, a, b - 1);
    }
  }

  // ----- lists of numbers as lists of bits

  lemma Cat(a: seq<bool>, b: seq<bool>, c: seq<bool>)
    ensures (a + b) + c == a + (b + c) && a + [] == a && [] + a == a
  {
  }

  lemma CutAt(bits: seq<bool>, n: nat)
    requires n <= |bits|
    ensures bits == bits[..n] + bits[n..]
  {
  }

  lemma CutOff(a: seq<bool>, b: seq<bool>)
    ensures (a + b)[..|a|] == a && (a + b)[|a|..] == b
  {
  }

  function Joined(words: seq<nat>, n: nat): (bits: seq<bool>) {
    if words == [] then [] else Joined(words[..|words| - 1], n) + ToBits(words[|words| - 1], n)
  }

  ghost predicate Fits(words: seq<nat>, n: nat) {
    forall i :: 0 <= i < |words| ==> words[i] < Two(n)
  }

  /** Whole groups of n bits from the front, and what is left. */
  function Grouped(bits: seq<bool>, n: nat): (seq<nat>, seq<bool>)
    requires n > 0
    decreases |bits|
  {
    if |bits| < n then ([], bits) else
    var (words, rest) := Grouped(bits[n..], n);
    ([BitsValue(bits[..n])] + words, rest)
  }

  lemma {:induction false} JoinedFront(w: nat, words: seq<nat>, n: nat)
    ensures Joined([w] + words, n) == ToBits(w, n) + Joined(words, n)
  {
    if words == [] {
      assert [w] + words == [w];
      assert Joined([w][..0], n) == [];
    } else {
      var front, last := words[..|words| - 1], words[|words| - 1];
      JoinedFront(w, front, n);
      assert ([w] + words)[..|words|] == [w] + front;
    }
  }

  lemma JoinedBack(words: seq<nat>, w: nat, n: nat)
    ensures Joined(words + [w], n) == Joined(words, n) + ToBits(w, n)
  {
    assert (words + [w])[..|words|] == words;
  }

  /** Grouping is the one way to cut bits into words with less than a word left over. */
  lemma {:induction false} GroupedIs(bits: seq<bool>, n: nat, words: seq<nat>, rest: seq<bool>)
    requires n > 0 && Fits(words, n) && |rest| < n && bits == Joined(words, n) + rest
    ensures Grouped(bits, n) == (words, rest)
    decreases |words|
  {
    if words == [] {
      assert bits == rest;
    } else {
      var w, others := words[0], words[1..];
      assert words == [w] + others;
      JoinedFront(w, others, n);
      Cat(ToBits(w, n), Joined(others, n), rest);
      CutOff(ToBits(w, n), Joined(others, n) + rest);
      GroupedIs(bits[n..], n, others, rest);
      LowBits(w, n);
      LowOfSmall(w, n);
    }
  }

  lemma JoinStep(bits: seq<bool>, head: seq<bool>, w: nat, words: seq<nat>, rest: seq<bool>, n: nat)
    requires head == ToBits(w, n) && w < Two(n) && Fits(words, n) && bits == head + (Joined(words, n) + rest)
    ensures Fits([w] + words, n) && bits == Joined([w] + words, n) + rest
  {
    JoinedFront(w, words, n);
    Cat(head, Joined(words, n), rest);
  }

  /** The words of a grouping are the bits again. */
  lemma {:induction false} GroupedJoins(bits: seq<bool>, n: nat)
    requires n > 0
    ensures var (words, rest) := Grouped(bits, n);
            Fits(words, n) && |rest| < n && bits == Joined(words, n) + rest
    decreases |bits|
  {
    if |bits| >= n {
      var head, tail := bits[..n], bits[n..];
      GroupedJoins(tail, n);
      ValueToBits(head);
      CutAt(bits, n);
      JoinStep(bits, head, BitsValue(head), Grouped(tail, n).0, Grouped(tail, n).1, n);
    } else {
      Cat(bits, [], []);
    }
  }

  function Blank(k: nat): (z: seq<bool>)
    ensures |z| == k && forall i :: 0 <= i < k ==> !z[i]
  {
    seq(k, _ => false)
  }

  /** Regrouping, said on bits: zeros fill the last word, or what is left over must be few and zero. */
  function Converted(data: seq<nat>, from: nat, to: nat, pad: bool): Result<seq<nat>>
    requires to > 0
  {
    var (words, rest) := Grouped(Joined(data, from), to);
    if pad then Ok(if rest == [] || |rest| > to then words else words + [BitsValue(rest + Blank(to - |rest|))])
    else if |rest| >= from || rest != Blank(|rest|) then Err("bech32m padding")
    else Ok(words)
  }

  lemma {:induction false} ZeroBits(x: int, k: nat)
    ensures ToBits(0, k) == Blank(k)
    ensures ToBits(x, k) == Blank(k) <==> Low(x, k) == 0
    decreases k
  {
    if k > 0 {
      ZeroBits(x / 2, k - 1);
      assert Blank(k) == Blank(k - 1) + [false];
      if ToBits(x, k) == Blank(k) {
        assert ToBits(x / 2, k - 1) == ToBits(x, k)[..k - 1] == Blank(k - 1);
        assert !ToBits(x, k)[k - 1];
      }
    }
  }

  /** The last word of a padded list: acc shifted up to fill it. */
  lemma LastWord(acc: int, bits: nat, to: nat)
    requires bits < to <= 32
    ensures Low(Int32(Shl(acc, to - bits)), to) == BitsValue(ToBits(acc, bits) + Blank(to - bits))
    ensures Low(Int32(Shl(acc, to - bits)), to) == 0 <==> ToBits(acc, bits) == Blank(bits)
  {
    var up := Shl(acc, to - bits);
    Appended(acc, 0, bits, to - bits);
    ZeroBits(0, to - bits);
    TruncationIsHarmless(up, to);
    LowBits(Int32(up), to);
    ZeroBits(Int32(up), to);
    var all := ToBits(acc, bits) + Blank(to - bits);
    assert ToBits(up, to) == all;
    if ToBits(acc, bits) == Blank(bits) {
      assert all == Blank(to);
    }
    if all == Blank(to) {
      assert ToBits(acc, bits) == all[..bits] == Blank(bits);
    }
  }

  /** One more number pushed into the accumulator. */
  lemma Pushed(acc: int, v: nat, bits: nat, from: nat)
    requires v < Two(from) && bits + from <= 32
    ensures ToBits(Int32(Shl(acc, from) + v), bits + from) == ToBits(acc, bits) + ToBits(v, from)
  {
    Appended(acc, v, bits, from);
    TruncationIsHarmless(Shl(acc, from) + v, bits + from);
  }

  /** One word taken off the top of the accumulator. */
  lemma Popped(acc: int, bits: nat, to: nat)
    requires to <= bits
    ensures ToBits(acc, bits) == ToBits(Low(Shr(acc, bits - to), to), to) + ToBits(acc, bits - to)
  {
    SplitAt(acc, to, bits - to);
    LowBits(Shr(acc, bits - to), to);
  }

  /** The inner loop: every whole word the accumulator holds. */
  method Drain(acc: int, bits: nat, to: nat, out: seq<nat>) returns (left: nat, words: seq<nat>)
    requires to > 0 && Fits(out, to)
    ensures left < to && Fits(words, to)
    ensures Joined(words, to) + ToBits(acc, left) == Joined(out, to) + ToBits(acc, bits)
  {
    left, words := bits, out;
    while left >= to
      invariant Fits(words, to)
      invariant Joined(words, to) + ToBits(acc, left) == Joined(out, to) + ToBits(acc, bits)
    {
      var w := Low(Shr(acc, left - to), to);
      Popped(acc, left, to);
      JoinedBack(words, w, to);
      Cat(Joined(words, to), ToBits(w, to), ToBits(acc, left - to));
      left, words := left - to, words + [w];
    }
  }

  lemma JoinedNext(data: seq<nat>, i: nat, n: nat)
    requires i < |data|
    ensures Joined(data[..i + 1], n) == Joined(data[..i], n) + ToBits(data[i], n)
  {
    assert data[..i + 1][..i] == data[..i];
  }

  lemma JoinedEnds(data: seq<nat>, n: nat)
    ensures Joined(data[..0], n) == [] && Joined(data[..|data|], n) == Joined(data, n)
  {
    assert data[..|data|] == data;
  }

  method PushOne(acc: int, bits: nat, out: seq<nat>, v: nat, from: nat, to: nat)
    returns (acc': int, bits': nat, out': seq<nat>)
    requires 0 < to && bits < to && from + to <= 32 && v < Two(from) && Fits(out, to)
    ensures bits' < to && Fits(out', to)
    ensures Joined(out', to) + ToBits(acc', bits') == (Joined(out, to) + ToBits(acc, bits)) + ToBits(v, from)
  {
    Pushed(acc, v, bits, from);
    Cat(Joined(out, to), ToBits(acc, bits), ToBits(v, from));
    acc' := Int32(Shl(acc, from) + v);
    bits', out' := Drain(acc', bits + from, to, out);
  }

  /** The outer loop: everything pushed, whole words taken off. */
  method PushAll(data: seq<nat>, from: nat, to: nat) returns (acc: int, bits: nat, out: seq<nat>)
    requires 0 < from && 0 < to && from + to <= 32 && Fits(data, from)
    ensures bits < to && Fits(out, to) && Joined(data, from) == Joined(out, to) + ToBits(acc, bits)
  {
    acc, bits, out := 0, 0, [];
    JoinedEnds(data, from);
    for i := 0 to |data|
      invariant bits < to && Fits(out, to)
      invariant Joined(data[..i], from) == Joined(out, to) + ToBits(acc, bits)
    {
      JoinedNext(data, i, from);
      acc, bits, out := PushOne(acc, bits, out, data[i], from, to);
    }
  }

  /** `convertBits`, with its accumulator kept to 32 bits as the source's shifts keep it. */
  method ConvertBits(data: seq<nat>, from: nat, to: nat, pad: bool) returns (r: Result<seq<nat>>)
    requires 0 < from && 0 < to && from + to <= 32 && Fits(data, from)
    ensures r == Converted(data, from, to, pad)
  {
    var acc, bits, out := PushAll(data, from, to);
    GroupedIs(Joined(data, from), to, out, ToBits(acc, bits));
    LastWord(acc, bits, to);
    if pad {
      return Ok(if bits > 0 then out + [Low(Int32(Shl(acc, to - bits)), to)] else out);
    }
    if bits >= from || Low(Int32(Shl(acc, to - bits)), to) != 0 {
      return Err("bech32m padding");
    }
    return Ok(out);
  }

  // ----- there and back

  /** Regrouping with padding and back gives the list, for any two widths whose padding is under one number. */
  lemma ConvertBack(data: seq<nat>, from: nat, to: nat)
    requires 0 < to <= from && Fits(data, from)
    ensures Converted(data, from, to, true).Ok? && Fits(Converted(data, from, to, true).value, to)
    ensures Converted(Converted(data, from, to, true).value, to, from, false) == Ok(data)
  {
    var bits := Joined(data, from);
    var (words, rest) := Grouped(bits, to);
    GroupedJoins(bits, to);
    var padded := Converted(data, from, to, true).value;
    if rest == [] {
      assert Joined(words, to) == bits + [];
      GroupedIs(Joined(words, to), from, data, []);
    } else {
      var fill := Blank(to - |rest|);
      ValueToBits(rest + fill);
      JoinedBack(words, BitsValue(rest + fill), to);
      assert Joined(padded, to) == bits + fill;
      GroupedIs(Joined(padded, to), from, data, fill);
    }
  }

  lemma CutShort(words: seq<nat>, to: nat, data: seq<bool>, rest: seq<bool>)
    requires 0 < |rest| < to && rest == Blank(|rest|) && words != [] && Fits(words, to) && Joined(words, to) == data + rest
    ensures var front, last := words[..|words| - 1], words[|words| - 1];
            var cut := ToBits(last, to)[..to - |rest|];
            Grouped(data, to) == (front, cut) && BitsValue(cut + Blank(|rest|)) == last
  {
    var front, last := words[..|words| - 1], words[|words| - 1];
    var cut := ToBits(last, to)[..to - |rest|];
    TailSplits(data, rest, Joined(front, to), ToBits(last, to));
    GroupedIs(data, to, front, cut);
    LastFrom(last, to, cut, rest);
  }

  lemma PaddedIs(data: seq<nat>, from: nat, to: nat, words: seq<nat>, rest: seq<bool>)
    requires to > 0 && Grouped(Joined(data, from), to) == (words, rest) && |rest| < to
    ensures Converted(data, from, to, true)
            == Ok(if rest == [] then words else words + [BitsValue(rest + Blank(to - |rest|))])
  {
  }

  lemma UnpaddedIs(words: seq<nat>, to: nat, from: nat, data: seq<nat>)
    requires 0 < from && Converted(words, to, from, false) == Ok(data)
    ensures Fits(data, from)
    ensures exists rest: seq<bool> :: |rest| < to && rest == Blank(|rest|) && Joined(words, to) == Joined(data, from) + rest
  {
    GroupedJoins(Joined(words, to), from);
    var rest := Grouped(Joined(words, to), from).1;
    assert |rest| < to && rest == Blank(|rest|) && Joined(words, to) == Joined(data, from) + rest;
  }

  lemma ForthExact(words: seq<nat>, from: nat, to: nat, data: seq<nat>)
    requires 0 < to && Fits(words, to) && Joined(words, to) == Joined(data, from)
    ensures Converted(data, from, to, true) == Ok(words)
  {
    Cat(Joined(words, to), [], []);
    GroupedIs(Joined(data, from), to, words, []);
    PaddedIs(data, from, to, words, []);
  }

  lemma ForthShort(words: seq<nat>, from: nat, to: nat, data: seq<nat>, rest: seq<bool>)
    requires 0 < |rest| < to && rest == Blank(|rest|) && Fits(words, to) && words != []
    requires Joined(words, to) == Joined(data, from) + rest
    ensures Converted(data, from, to, true) == Ok(words)
  {
    CutShort(words, to, Joined(data, from), rest);
    var front, last := words[..|words| - 1], words[|words| - 1];
    CutPads(data, from, to, front, ToBits(last, to)[..to - |rest|], last);
    assert words == front + [last];
  }

  lemma CutPads(data: seq<nat>, from: nat, to: nat, front: seq<nat>, cut: seq<bool>, last: nat)
    requires 0 < |cut| < to && Grouped(Joined(data, from), to) == (front, cut)
    requires BitsValue(cut + Blank(to - |cut|)) == last
    ensures Converted(data, from, to, true) == Ok(front + [last])
  {
    PaddedIs(data, from, to, front, cut);
  }

  /** Back and there again: a list that regroups without padding is the regrouping of what it gave. */
  lemma ConvertForth(words: seq<nat>, from: nat, to: nat, data: seq<nat>)
    requires 0 < to <= from && Fits(words, to) && Converted(words, to, from, false) == Ok(data)
    ensures Fits(data, from) && Converted(data, from, to, true) == Ok(words)
  {
    UnpaddedIs(words, to, from, data);
    var rest: seq<bool> :| |rest| < to && rest == Blank(|rest|) && Joined(words, to) == Joined(data, from) + rest;
    Cat(Joined(data, from), rest, []);
    if rest == [] {
      ForthExact(words, from, to, data);
    } else {
      ForthShort(words, from, to, data, rest);
    }
  }

  /** Two ways of cutting the same bits, the second cut falling earlier. */
  lemma TailSplits(a: seq<bool>, rest: seq<bool>, b: seq<bool>, word: seq<bool>)
    requires a + rest == b + word && |rest| <= |word|
    ensures a == b + word[..|word| - |rest|] && word == word[..|word| - |rest|] + rest
  {
    var all := a + rest;
    assert a == all[..|a|] && rest == all[|a|..] && b == all[..|b|] && word == all[|b|..];
    assert word[..|word| - |rest|] == all[|b|..|a|];
  }

  lemma LastFrom(last: nat, to: nat, cut: seq<bool>, rest: seq<bool>)
    requires last < Two(to) && ToBits(last, to) == cut + rest && rest == Blank(|rest|)
    ensures BitsValue(cut + Blank(to - |cut|)) == last
  {
    LowBits(last, to);
    LowOfSmall(last, to);
  }
}
