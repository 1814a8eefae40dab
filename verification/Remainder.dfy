/** Remainders of integers, kept apart from the multiplications they are used with. */
module Remainder {
  /** The remainder of k, by whole steps of n: the value of `k % n` (lemma ModIsRemainder), written
      so that a proof sees a remainder only through the lemmas below. */
  function Mod(k: int, n: int): (r: nat)
    requires n > 0
    ensures r < n
    decreases if k < 0 then n - k else k
  {
    if k < 0 then Mod(k + n, n) else if k >= n then Mod(k - n, n) else k
  }

  lemma {:induction false} ModIsRemainder(k: int, n: int)
    requires n > 0
    ensures Mod(k, n) == k % n
    decreases if k < 0 then n - k else k
  {
    if k < 0 {
      ModIsRemainder(k + n, n);
      ShiftRemainder(k, n);
    } else if k >= n {
      ModIsRemainder(k - n, n);
      ShiftRemainder(k - n, n);
    }
  }

  lemma ShiftRemainder(k: int, n: int)
    requires n > 0
    ensures (k + n) % n == k % n
  {
    var d := (k + n) / n - k / n - 1;
    assert d * n == k % n - (k + n) % n by {
      assert d * n == ((k + n) / n) * n - (k / n) * n - n;
    }
    assert d >= 1 ==> d * n >= n;
    assert d <= -1 ==> d * n <= -n;
  }

  lemma {:induction false} ModShift(k: int, n: int)
    requires n > 0
    ensures Mod(k + n, n) == Mod(k, n)
  {
  }

  /** Inner reductions do not change a sum. */
  lemma {:induction false} SumMod(a: int, b: int, n: int)
    requires n > 0
    ensures Mod(Mod(a, n) + b, n) == Mod(a + b, n)
    decreases if a < 0 then n - a else a
  {
    if a < 0 {
      SumMod(a + n, b, n);
      ModShift(a + b, n);
    } else if a >= n {
      SumMod(a - n, b, n);
      ModShift(a - n + b, n);
    }
  }

  lemma {:induction false} SubMod(a: int, b: int, n: int)
    requires n > 0
    ensures Mod(b - Mod(a, n), n) == Mod(b - a, n)
    decreases if a < 0 then n - a else a
  {
    if a < 0 {
      SubMod(a + n, b, n);
      ModShift(b - (a + n), n);
    } else if a >= n {
      SubMod(a - n, b, n);
      ModShift(b - a, n);
    }
  }
}
