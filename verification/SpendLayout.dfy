/** Where each field of a spend body stands (dapp/btc-shielded-pool.js encodeSpendBody): offsets and byte orders, which the
    round trip alone would let encoder and parser choose together. */
module SpendLayout {
  import opened Wrappers
  import opened Bytes
  import opened SpendCodec

  /** A part of b from some place on. */
  predicate PartAt(b: seq<byte>, at: nat, x: seq<byte>) {
    at + |x| <= |b| && b[at..at + |x|] == x
  }

  /** Two bytes, the lowest first. */
  function Pair(b: seq<byte>, at: nat): nat
    requires at + 2 <= |b|
  {
    var low: nat, high: nat := b[at], b[at + 1];
    low + 0x100 * high
  }

  /** Four bytes, the lowest first. */
  predicate Word32At(b: seq<byte>, at: nat, v: nat) {
    at + 4 <= |b| && Pair(b, at) + 0x10000 * Pair(b, at + 2) == v
  }

  /** Eight bytes, the lowest first. */
  predicate Word64At(b: seq<byte>, at: nat, v: nat) {
    && at + 8 <= |b|
    && Pair(b, at) + 0x10000 * Pair(b, at + 2) + 0x100000000 * (Pair(b, at + 4) + 0x10000 * Pair(b, at + 6)) == v
  }

  /** What b holds from some place on begins with x. */
  lemma Next(b: seq<byte>, at: nat, x: seq<byte>, rest: seq<byte>)
    requires at <= |b| && b[at..] == x + rest
    ensures PartAt(b, at, x) && at + |x| <= |b| && b[at + |x|..] == rest
  {
    assert b[at..][..|x|] == x;
    assert b[at..][|x|..] == rest;
  }

  lemma PairIs(x: seq<byte>)
    requires |x| >= 2
    ensures Value(x) == Pair(x, 0) + 0x10000 * Value(x[2..])
  {
    assert x[1..][1..] == x[2..];
  }

  lemma SamePair(b: seq<byte>, at: nat, x: seq<byte>, i: nat)
    requires PartAt(b, at, x) && i + 2 <= |x|
    ensures Pair(b, at + i) == Pair(x, i) == Pair(x[i..], 0)
  {
    assert b[at..at + |x|][i] == b[at + i] && b[at..at + |x|][i + 1] == b[at + (i + 1)];
  }

  lemma Word32(b: seq<byte>, at: nat, v: nat)
    requires v < Capacity(4) && PartAt(b, at, LittleEndian(v, 4))
    ensures Word32At(b, at, v)
  {
    var x := LittleEndian(v, 4);
    ValueOfBytes(v, 4);
    PairIs(x);
    PairIs(x[2..]);
    assert x[2..][2..] == [];
    SamePair(b, at, x, 0);
    SamePair(b, at, x, 2);
    assert x[0..] == x;
  }

  lemma Word64(b: seq<byte>, at: nat, v: nat)
    requires v < Capacity(8) && PartAt(b, at, LittleEndian(v, 8))
    ensures Word64At(b, at, v)
  {
    var x := LittleEndian(v, 8);
    ValueOfBytes(v, 8);
    PairIs(x);
    PairIs(x[2..]);
    PairIs(x[4..]);
    PairIs(x[6..]);
    assert x[2..][2..] == x[4..] && x[4..][2..] == x[6..] && x[6..][2..] == [] && x[0..] == x;
    SamePair(b, at, x, 0);
    SamePair(b, at, x, 2);
    SamePair(b, at, x, 4);
    SamePair(b, at, x, 6);
  }

  // ----- the body

  /** A u32 the four low bytes of which are v's. */
  lemma NextWord(b: seq<byte>, at: nat, v: nat, rest: seq<byte>)
    requires at <= |b| && v < Capacity(4) && b[at..] == LittleEndian(v, 4) + rest
    ensures Word32At(b, at, v) && b[at + 4..] == rest
  {
    Next(b, at, LittleEndian(v, 4), rest);
    Word32(b, at, v);
  }

  ghost predicate NotesFit(notes: seq<Note>) {
    forall i :: 0 <= i < |notes| ==> |notes[i].leaf| == 32 && |notes[i].pkEph| == 33 && |notes[i].ct| == 24
  }

  ghost predicate ExitFits(exit: Option<Exit>) {
    exit.Some? ==> |exit.value.dest| == 32 && |exit.value.boundary| == 825 && exit.value.vout < Capacity(4)
  }

  ghost predicate WantFits(want: Option<Want>) {
    want.Some? ==> |want.value.spk| == 32 && want.value.vout < Capacity(4) && want.value.value < Capacity(8)
  }

  /** What the encoder checked. */
  lemma Fits(r: Spend)
    requires EncodeBody(r).Ok?
    ensures |r.outputs| <= 3 && NotesFit(r.outputs) && ExitFits(r.exit) && WantFits(r.want)
  {
  }

  /** The tag, the asset, the anchor, and the outpoint to bind to: its txid from the last byte to the first, then its index;
      or 36 zeros. */
  lemma HeadAt(r: Spend, b: seq<byte>)
    requires EncodeBody(r).Ok? && b == Encode(r)
    ensures |b| >= 73 && b[0] == 0x6d && PartAt(b, 1, r.asset) && Word32At(b, 33, r.hAnchor)
    ensures r.bind.None? ==> forall k :: 37 <= k < 73 ==> b[k] == 0
    ensures r.bind.Some? ==>
              (forall k :: 37 <= k < 69 ==> b[k] == r.bind.value.txid[68 - k]) && Word32At(b, 69, r.bind.value.vout)
    ensures b[73..] == Tail(r)
  {
    var b4 := Tail(r);
    var b3 := BindBytes(r.bind) + b4;
    var b2 := LittleEndian(r.hAnchor, 4) + b3;
    var b1 := r.asset + b2;
    assert b[0..] == b && b == [T_BTC_SPEND] + b1;
    Next(b, 0, [T_BTC_SPEND], b1);
    Next(b, 1, r.asset, b2);
    NextWord(b, 33, r.hAnchor, b3);
    BindAt(r.bind, b, b4);
  }

  lemma BindAt(bind: Option<Outpoint>, b: seq<byte>, rest: seq<byte>)
    requires |b| >= 37 && b[37..] == BindBytes(bind) + rest && (bind.Some? ==> |bind.value.txid| == 32 && bind.value.vout < Capacity(4))
    ensures |b| >= 73 && b[73..] == rest
    ensures bind.None? ==> forall k :: 37 <= k < 73 ==> b[k] == 0
    ensures bind.Some? ==> (forall k :: 37 <= k < 69 ==> b[k] == bind.value.txid[68 - k]) && Word32At(b, 69, bind.value.vout)
  {
    if bind.None? {
      ZerosAre(BIND_LEN);
      Next(b, 37, Zeros(BIND_LEN), rest);
      forall k | 37 <= k < 73 ensures b[k] == 0 {
        assert b[37..73][k - 37] == b[k];
      }
    } else {
      var x, y := Reverse(bind.value.txid), LittleEndian(bind.value.vout, 4);
      assert (x + y) + rest == x + (y + rest);
      Next(b, 37, x, y + rest);
      forall k | 37 <= k < 69 ensures b[k] == bind.value.txid[68 - k] {
        assert b[37..69][k - 37] == b[k];
      }
      NextWord(b, 69, bind.value.vout, rest);
    }
  }

  /** From the count of nullifiers on. */
  function Tail(r: Spend): seq<byte> {
    Count(|r.nullifiers|) + (NullifierBytes(r.nullifiers) + Rest(r))
  }

  /** From the count of outputs on. */
  function Rest(r: Spend): seq<byte> {
    Count(|r.outputs|) + (OutputBytes(r.outputs) + (ExitBytes(r.exit) + WantBytes(r.want)))
  }

  /** The count of nullifiers, and each of them 32 bytes after the one before. */
  lemma NullifiersAt(r: Spend, b: seq<byte>)
    requires EncodeBody(r).Ok? && b == Encode(r)
    ensures var n := |r.nullifiers|;
            && |b| >= 74 + 32 * n && b[73] == n && b[74 + 32 * n..] == Rest(r)
            && forall i :: 0 <= i < n ==> PartAt(b, 74 + 32 * i, r.nullifiers[i])
  {
    HeadAt(r, b);
    CountAt(b, 73, |r.nullifiers|, NullifierBytes(r.nullifiers) + Rest(r));
    EachAt(b, 74, r.nullifiers, Rest(r));
  }

  lemma {:induction false} EachAt(b: seq<byte>, at: nat, nfs: seq<seq<byte>>, rest: seq<byte>)
    requires at <= |b| && b[at..] == NullifierBytes(nfs) + rest && forall i :: 0 <= i < |nfs| ==> |nfs[i]| == 32
    ensures |b| >= at + 32 * |nfs| && b[at + 32 * |nfs|..] == rest
    ensures forall i :: 0 <= i < |nfs| ==> PartAt(b, at + 32 * i, nfs[i])
    decreases |nfs|
  {
    if nfs == [] {
      assert NullifierBytes(nfs) + rest == rest;
    } else {
      assert NullifierBytes(nfs) + rest == nfs[0] + (NullifierBytes(nfs[1..]) + rest);
      Next(b, at, nfs[0], NullifierBytes(nfs[1..]) + rest);
      EachAt(b, at + 32, nfs[1..], rest);
      forall i | 0 <= i < |nfs| ensures PartAt(b, at + 32 * i, nfs[i]) {
        if i > 0 {
          assert nfs[1..][i - 1] == nfs[i];
        }
      }
    }
  }

  /** Where the count of outputs stands. */
  function OutAt(r: Spend): nat {
    74 + 32 * |r.nullifiers|
  }

  predicate NoteAt(b: seq<byte>, at: nat, n: Note) {
    PartAt(b, at, n.leaf) && PartAt(b, at + 32, n.pkEph) && PartAt(b, at + 65, n.ct)
  }

  /** Notes one after the other from some place on. */
  ghost predicate NotesPlaced(b: seq<byte>, at: nat, notes: seq<Note>) {
    forall j :: 0 <= j < |notes| ==> NoteAt(b, at + 89 * j, notes[j])
  }

  /** The count of outputs, and each of them, leaf, key and ciphertext, 89 bytes after the one before. */
  lemma OutputsAt(r: Spend, b: seq<byte>)
    requires EncodeBody(r).Ok? && b == Encode(r)
    ensures |b| >= ExitAt(r) && b[OutAt(r)] == |r.outputs| && NotesPlaced(b, OutAt(r) + 1, r.outputs)
    ensures b[ExitAt(r)..] == ExitBytes(r.exit) + WantBytes(r.want)
  {
    NullifiersAt(r, b);
    Fits(r);
    OutputsPart(b, OutAt(r), r.outputs, ExitBytes(r.exit) + WantBytes(r.want));
  }

  lemma OutputsPart(b: seq<byte>, o: nat, notes: seq<Note>, rest: seq<byte>)
    requires o <= |b| && |notes| <= 3 && NotesFit(notes) && b[o..] == Count(|notes|) + (OutputBytes(notes) + rest)
    ensures |b| >= o + 1 + 89 * |notes| && b[o] == |notes| && b[o + 1 + 89 * |notes|..] == rest
    ensures NotesPlaced(b, o + 1, notes)
  {
    CountAt(b, o, |notes|, OutputBytes(notes) + rest);
    NotesAt(b, o + 1, notes, rest);
  }

  lemma CountAt(b: seq<byte>, at: nat, n: nat, rest: seq<byte>)
    requires at <= |b| && n < 256 && b[at..] == Count(n) + rest
    ensures at < |b| && b[at] == n && b[at + 1..] == rest
  {
    Next(b, at, Count(n), rest);
    assert b[at..at + 1][0] == b[at];
  }

  lemma OutputHead(notes: seq<Note>, rest: seq<byte>)
    requires notes != []
    ensures OutputBytes(notes) + rest
            == notes[0].leaf + (notes[0].pkEph + (notes[0].ct + (OutputBytes(notes[1..]) + rest)))
  {
  }

  lemma NoteHead(b: seq<byte>, at: nat, n: Note, more: seq<byte>)
    requires at <= |b| && b[at..] == n.leaf + (n.pkEph + (n.ct + more)) && |n.leaf| == 32 && |n.pkEph| == 33 && |n.ct| == 24
    ensures NoteAt(b, at, n) && |b| >= at + 89 && b[at + 89..] == more
  {
    Next(b, at, n.leaf, n.pkEph + (n.ct + more));
    Next(b, at + 32, n.pkEph, n.ct + more);
    Next(b, at + 65, n.ct, more);
  }

  lemma {:induction false} NotesAt(b: seq<byte>, at: nat, notes: seq<Note>, rest: seq<byte>)
    requires at <= |b| && b[at..] == OutputBytes(notes) + rest && NotesFit(notes)
    ensures |b| >= at + 89 * |notes| && b[at + 89 * |notes|..] == rest && NotesPlaced(b, at, notes)
    decreases |notes|
  {
    if notes == [] {
      assert OutputBytes(notes) + rest == rest;
    } else {
      OutputHead(notes, rest);
      NoteHead(b, at, notes[0], OutputBytes(notes[1..]) + rest);
      NotesAt(b, at + 89, notes[1..], rest);
      PlacedHead(b, at, notes);
    }
  }

  lemma PlacedHead(b: seq<byte>, at: nat, notes: seq<Note>)
    requires notes != [] && NoteAt(b, at, notes[0]) && NotesPlaced(b, at + 89, notes[1..])
    ensures NotesPlaced(b, at, notes)
  {
    forall j | 0 <= j < |notes| ensures NoteAt(b, at + 89 * j, notes[j]) {
      if j > 0 {
        assert NoteAt(b, at + 89 + 89 * (j - 1), notes[1..][j - 1]);
        assert at + 89 + 89 * (j - 1) == at + 89 * j;
      }
    }
  }

  /** Where the exit's flag stands, and the want's after it. */
  function ExitAt(r: Spend): nat {
    OutAt(r) + 1 + 89 * |r.outputs|
  }

  function WantAt(r: Spend): nat {
    ExitAt(r) + (if r.exit.Some? then 862 else 1)
  }

  /** The exit: a flag, the output's index, the destination and the boundary; and nothing after a flag of 0. */
  lemma ExitIsAt(r: Spend, b: seq<byte>)
    requires EncodeBody(r).Ok? && b == Encode(r)
    ensures var e := ExitAt(r);
            && |b| >= WantAt(r) && b[e] == (if r.exit.Some? then 1 else 0) && b[WantAt(r)..] == WantBytes(r.want)
            && (r.exit.Some? ==>
                  Word32At(b, e + 1, r.exit.value.vout) && PartAt(b, e + 5, r.exit.value.dest) && PartAt(b, e + 37, r.exit.value.boundary))
  {
    OutputsAt(r, b);
    Fits(r);
    ExitPart(b, ExitAt(r), r.exit, WantBytes(r.want));
  }

  lemma ExitPart(b: seq<byte>, e: nat, exit: Option<Exit>, rest: seq<byte>)
    requires e <= |b| && b[e..] == ExitBytes(exit) + rest
    requires ExitFits(exit)
    ensures |b| >= e + (if exit.Some? then 862 else 1)
    ensures b[e] == (if exit.Some? then 1 else 0) && b[e + (if exit.Some? then 862 else 1)..] == rest
    ensures exit.Some? ==>
              Word32At(b, e + 1, exit.value.vout) && PartAt(b, e + 5, exit.value.dest) && PartAt(b, e + 37, exit.value.boundary)
  {
    if exit.None? {
      Next(b, e, [0], rest);
      assert b[e..e + 1][0] == b[e];
    } else {
      var x := exit.value;
      var body := LittleEndian(x.vout, 4) + (x.dest + (x.boundary + rest));
      assert ExitBytes(exit) + rest == [1] + body;
      Next(b, e, [1], body);
      assert b[e..e + 1][0] == b[e];
      NextWord(b, e + 1, x.vout, x.dest + (x.boundary + rest));
      Next(b, e + 5, x.dest, x.boundary + rest);
      Next(b, e + 37, x.boundary, rest);
    }
  }

  /** The want: a flag, the output's index, the value and the script's hash; and the body ends there. */
  lemma WantIsAt(r: Spend, b: seq<byte>)
    requires EncodeBody(r).Ok? && b == Encode(r)
    ensures var w := WantAt(r);
            && |b| == w + (if r.want.Some? then 45 else 1) && b[w] == (if r.want.Some? then 1 else 0)
            && (r.want.Some? ==>
                  Word32At(b, w + 1, r.want.value.vout) && Word64At(b, w + 5, r.want.value.value) && PartAt(b, w + 13, r.want.value.spk))
  {
    ExitIsAt(r, b);
    Fits(r);
    WantPart(b, WantAt(r), r.want);
  }

  lemma WantPart(b: seq<byte>, w: nat, want: Option<Want>)
    requires w <= |b| && b[w..] == WantBytes(want) && WantFits(want)
    ensures |b| == w + (if want.Some? then 45 else 1) && b[w] == (if want.Some? then 1 else 0)
    ensures want.Some? ==>
              Word32At(b, w + 1, want.value.vout) && Word64At(b, w + 5, want.value.value) && PartAt(b, w + 13, want.value.spk)
  {
    if want.None? {
      assert b[w..] == [0] + [];
      Next(b, w, [0], []);
      assert b[w..w + 1][0] == b[w];
    } else {
      var x := want.value;
      var body := LittleEndian(x.vout, 4) + (LittleEndian(x.value, 8) + (x.spk + []));
      assert WantBytes(want) == [1] + body;
      Next(b, w, [1], body);
      assert b[w..w + 1][0] == b[w];
      NextWord(b, w + 1, x.vout, LittleEndian(x.value, 8) + (x.spk + []));
      Next(b, w + 5, LittleEndian(x.value, 8), x.spk + []);
      Word64(b, w + 5, x.value);
      Next(b, w + 13, x.spk, []);
    }
  }
}
