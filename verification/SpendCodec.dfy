/** The spend body of dapp/btc-shielded-pool.js: what `encodeSpendBody` writes, what `parseSpend` reads, and the
    envelope body ‖ length ‖ proof. Curve points and boundaries are judged by the checks the code calls. */
module SpendCodec {
  import opened Wrappers
  import opened Bytes
  import opened Field

  const T_BTC_SPEND: byte := 0x6d
  const MAX_IN := 2
  const MAX_OUT := 3
  const BIND_LEN := 36
  const NOTE_LEN := 89
  const BOUNDARY_LEN := 825
  const MAX_PROOF := 4096

  /** An outpoint, its txid in display order. */
  datatype Outpoint = Outpoint(txid: seq<byte>, vout: nat)

  datatype Note = Note(leaf: seq<byte>, pkEph: seq<byte>, ct: seq<byte>)

  datatype Exit = Exit(vout: nat, dest: seq<byte>, boundary: seq<byte>)

  datatype Want = Want(vout: nat, value: nat, spk: seq<byte>)

  datatype Spend = Spend(
    asset: seq<byte>, hAnchor: nat, bind: Option<Outpoint>, nullifiers: seq<seq<byte>>, outputs: seq<Note>,
    exit: Option<Exit>, want: Option<Want>)

  /** The checks on 33-byte points and on boundaries. */
  datatype Checks = Checks(pointOk: seq<byte> -> bool, boundaryOk: seq<byte> -> bool)

  predicate FieldOk(b: seq<byte>) {
    0 < BigEndian(b) < P_FR
  }

  predicate NoteOk(ck: Checks, n: Note) {
    |n.leaf| == 32 && |n.pkEph| == 33 && |n.ct| == 24 && FieldOk(n.leaf) && ck.pointOk(n.pkEph)
  }

  predicate ExitOk(ck: Checks, e: Exit) {
    e.vout < Capacity(4) && |e.dest| == 32 && |e.boundary| == BOUNDARY_LEN && ck.boundaryOk(e.boundary)
  }

  predicate WantOk(w: Want) {
    w.vout < Capacity(4) && w.value < Capacity(8) && |w.spk| == 32
  }

  predicate BindOk(o: Outpoint) {
    |o.txid| == 32 && o.vout < Capacity(4) && o != NO_OUTPOINT
  }

  predicate Repeats(nfs: seq<seq<byte>>) {
    |nfs| == 2 && nfs[0] == nfs[1]
  }

  /** The records the parser can return. */
  ghost predicate WellFormed(ck: Checks, r: Spend) {
    && |r.asset| == 32 && r.hAnchor < Capacity(4)
    && (r.bind.Some? ==> BindOk(r.bind.value))
    && 1 <= |r.nullifiers| <= MAX_IN && !Repeats(r.nullifiers)
    && (forall i :: 0 <= i < |r.nullifiers| ==> |r.nullifiers[i]| == 32 && FieldOk(r.nullifiers[i]))
    && |r.outputs| <= MAX_OUT && (forall i :: 0 <= i < |r.outputs| ==> NoteOk(ck, r.outputs[i]))
    && (r.exit.Some? ==> ExitOk(ck, r.exit.value))
    && (r.want.Some? ==> WantOk(r.want.value))
    && (r.outputs != [] || r.exit.Some?)
  }

  // ----- writing

  function Zeros(n: nat): (z: seq<byte>)
    ensures |z| == n
  {
    if n == 0 then [] else [0] + Zeros(n - 1)
  }

  function BindBytes(bind: Option<Outpoint>): seq<byte> {
    if bind.None? then Zeros(BIND_LEN) else Reverse(bind.value.txid) + LittleEndian(bind.value.vout, 4)
  }

  function NullifierBytes(nfs: seq<seq<byte>>): seq<byte> {
    if nfs == [] then [] else nfs[0] + NullifierBytes(nfs[1..])
  }

  function NoteBytes(n: Note): seq<byte> {
    n.leaf + n.pkEph + n.ct
  }

  function OutputBytes(notes: seq<Note>): seq<byte> {
    if notes == [] then [] else NoteBytes(notes[0]) + OutputBytes(notes[1..])
  }

  function ExitBytes(exit: Option<Exit>): seq<byte> {
    if exit.None? then [0] else [1] + (LittleEndian(exit.value.vout, 4) + (exit.value.dest + exit.value.boundary))
  }

  function WantBytes(want: Option<Want>): seq<byte> {
    if want.None? then [0] else [1] + (LittleEndian(want.value.vout, 4) + (LittleEndian(want.value.value, 8) + want.value.spk))
  }

  function Count(n: nat): seq<byte> {
    [if n < 256 then n else 255]
  }

  function Encode(r: Spend): seq<byte> {
    [T_BTC_SPEND] + (r.asset + (LittleEndian(r.hAnchor, 4) + (BindBytes(r.bind) + (Count(|r.nullifiers|)
    + (NullifierBytes(r.nullifiers) + (Count(|r.outputs|) + (OutputBytes(r.outputs)
    + (ExitBytes(r.exit) + WantBytes(r.want)))))))))
  }

  /** `encodeSpendBody`, with the checks it makes. */
  function EncodeBody(r: Spend): Result<seq<byte>> {
    if r.nullifiers == [] || |r.nullifiers| > MAX_IN then Err("n_in must be 1..2")
    else if |r.outputs| > MAX_OUT then Err("n_out must be 0..3")
    else if r.outputs == [] && r.exit.None? then Err("a spend needs an output or an exit")
    else if r.hAnchor >= Capacity(4) || (r.exit.Some? && r.exit.value.vout >= Capacity(4)) then Err("must be a u32")
    else if r.want.Some? && (r.want.value.vout >= Capacity(4) || r.want.value.value >= Capacity(8) || |r.want.value.spk| != 32) then Err("want malformed")
    else if r.want.Some? && r.exit.Some? && r.want.value.vout == r.exit.value.vout then Err("want and exit name the same output")
    else if Repeats(r.nullifiers) then Err("repeated nullifier")
    else if !LengthsOk(r) then Err("expected another length")
    else Ok(Encode(r))
  }

  predicate LengthsOk(r: Spend) {
    && |r.asset| == 32
    && (r.bind.Some? ==> |r.bind.value.txid| == 32 && r.bind.value.vout < Capacity(4))
    && (forall i :: 0 <= i < |r.nullifiers| ==> |r.nullifiers[i]| == 32)
    && (forall i :: 0 <= i < |r.outputs| ==> |r.outputs[i].leaf| == 32 && |r.outputs[i].pkEph| == 33 && |r.outputs[i].ct| == 24)
    && (r.exit.Some? ==> |r.exit.value.dest| == 32 && |r.exit.value.boundary| == BOUNDARY_LEN)
  }

  // ----- reading, as a function of what is left

  type Parsed<T> = Result<(T, seq<byte>)>

  function Take(b: seq<byte>, n: nat): Parsed<seq<byte>> {
    if n > |b| then Err("spend truncated") else Ok((b[..n], b[n..]))
  }

  function TakeByte(b: seq<byte>): Parsed<byte> {
    if b == [] then Err("spend truncated") else Ok((b[0], b[1..]))
  }

  function TakeNumber(b: seq<byte>, n: nat): Parsed<nat> {
    if n > |b| then Err("spend truncated") else Ok((Value(b[..n]), b[n..]))
  }

  function BindOf(raw: seq<byte>): Option<Outpoint>
    requires |raw| == BIND_LEN
  {
    if raw == Zeros(BIND_LEN) then None else Some(Outpoint(Reverse(raw[..32]), Value(raw[32..])))
  }

  function ParseNullifiers(b: seq<byte>, n: nat): Parsed<seq<seq<byte>>> {
    if n == 0 then Ok(([], b)) else
    match Take(b, 32)
    case Err(e) => Err(e)
    case Ok((nf, rest)) =>
      if !FieldOk(nf) then Err("nullifier is not a non-zero field element") else
      match ParseNullifiers(rest, n - 1)
      case Err(e) => Err(e)
      case Ok((more, rest')) => Ok(([nf] + more, rest'))
  }

  function NoteOf(b: seq<byte>): Note
    requires |b| == NOTE_LEN
  {
    Note(b[..32], b[32..65], b[65..])
  }

  function ParseOutputs(ck: Checks, b: seq<byte>, n: nat): Parsed<seq<Note>> {
    if n == 0 then Ok(([], b)) else
    match Take(b, NOTE_LEN)
    case Err(e) => Err(e)
    case Ok((raw, rest)) =>
      if !NoteOk(ck, NoteOf(raw)) then Err("output malformed") else
      match ParseOutputs(ck, rest, n - 1)
      case Err(e) => Err(e)
      case Ok((more, rest')) => Ok(([NoteOf(raw)] + more, rest'))
  }

  function ExitOf(raw: seq<byte>): Exit
    requires |raw| == 36 + BOUNDARY_LEN
  {
    Exit(Value(raw[..4]), raw[4..36], raw[36..])
  }

  function ParseExit(ck: Checks, b: seq<byte>): Parsed<Option<Exit>> {
    match TakeByte(b)
    case Err(e) => Err(e)
    case Ok((flag, rest)) =>
      if flag > 1 then Err("has_exit must be 0 or 1")
      else if flag == 0 then Ok((None, rest)) else
      match Take(rest, 36 + BOUNDARY_LEN)
      case Err(e) => Err(e)
      case Ok((raw, rest')) =>
        if !ck.boundaryOk(raw[36..]) then Err("boundary malformed") else Ok((Some(ExitOf(raw)), rest'))
  }

  function WantOf(raw: seq<byte>): Want
    requires |raw| == 44
  {
    Want(Value(raw[..4]), Value(raw[4..12]), raw[12..])
  }

  function ParseWant(b: seq<byte>): Parsed<Option<Want>> {
    match TakeByte(b)
    case Err(e) => Err(e)
    case Ok((flag, rest)) =>
      if flag > 1 then Err("has_want must be 0 or 1")
      else if flag == 0 then Ok((None, rest)) else
      match Take(rest, 44)
      case Err(e) => Err(e)
      case Ok((raw, rest')) => Ok((Some(WantOf(raw)), rest'))
  }

  /** From the outputs on. */
  function ParseTail(ck: Checks, asset: seq<byte>, hAnchor: nat, bind: Option<Outpoint>, nfs: seq<seq<byte>>, b: seq<byte>): Parsed<Spend> {
    match TakeByte(b)
    case Err(e) => Err(e)
    case Ok((nOut, b1)) =>
      if nOut > MAX_OUT then Err("n_out out of range") else
      match ParseOutputs(ck, b1, nOut)
      case Err(e) => Err(e)
      case Ok((outputs, b2)) =>
        match ParseExit(ck, b2)
        case Err(e) => Err(e)
        case Ok((exit, b3)) =>
          match ParseWant(b3)
          case Err(e) => Err(e)
          case Ok((want, b4)) =>
            if outputs == [] && exit.None? then Err("spend has no output and no exit")
            else Ok((Spend(asset, hAnchor, bind, nfs, outputs, exit, want), b4))
  }

  /** Everything before the nullifier count: tag, asset, anchor and bind. */
  function ParseHead(b: seq<byte>): Parsed<(seq<byte>, nat, Option<Outpoint>)> {
    match TakeByte(b)
    case Err(e) => Err(e)
    case Ok((tag, b1)) =>
      if tag != T_BTC_SPEND then Err("not a spend envelope") else
      match Take(b1, 32)
      case Err(e) => Err(e)
      case Ok((asset, b2)) =>
        match TakeNumber(b2, 4)
        case Err(e) => Err(e)
        case Ok((hAnchor, b3)) =>
          match Take(b3, BIND_LEN)
          case Err(e) => Err(e)
          case Ok((raw, b4)) => Ok(((asset, hAnchor, BindOf(raw)), b4))
  }

  function ParseIns(b: seq<byte>): Parsed<seq<seq<byte>>> {
    match TakeByte(b)
    case Err(e) => Err(e)
    case Ok((nIn, b1)) =>
      if nIn < 1 || nIn > MAX_IN then Err("n_in out of range") else
      match ParseNullifiers(b1, nIn)
      case Err(e) => Err(e)
      case Ok((nfs, b2)) => if Repeats(nfs) then Err("repeated nullifier") else Ok((nfs, b2))
  }

  function ParseBody(ck: Checks, b: seq<byte>): Parsed<Spend> {
    match ParseHead(b)
    case Err(e) => Err(e)
    case Ok(((asset, hAnchor, bind), b1)) =>
      match ParseIns(b1)
      case Err(e) => Err(e)
      case Ok((nfs, b2)) => ParseTail(ck, asset, hAnchor, bind, nfs, b2)
  }

  /** `parseSpend`: a bare body, or a body with its proof. */
  function Parse(ck: Checks, b: seq<byte>, full: bool): Result<(Spend, seq<byte>)> {
    match ParseBody(ck, b)
    case Err(e) => Err(e)
    case Ok((r, rest)) =>
      if !full then (if rest == [] then Ok((r, [])) else Err("trailing bytes")) else
      match TakeNumber(rest, 2)
      case Err(e) => Err(e)
      case Ok((len, rest')) =>
        if len > MAX_PROOF then Err("proof too long")
        else if len > |rest'| then Err("spend truncated")
        else if len < |rest'| then Err("trailing bytes")
        else Ok((r, rest'))
  }

  function Envelope(body: seq<byte>, proof: seq<byte>): seq<byte> {
    body + (LittleEndian(|proof|, 2) + proof)
  }

  // ----- each part read back

  lemma Taken(x: seq<byte>, rest: seq<byte>)
    ensures (x + rest)[..|x|] == x && (x + rest)[|x|..] == rest
  {
  }

  lemma NumberTaken(v: nat, n: nat, rest: seq<byte>)
    requires v < Capacity(n)
    ensures TakeNumber(LittleEndian(v, n) + rest, n) == Ok((v, rest))
  {
    Taken(LittleEndian(v, n), rest);
    ValueOfBytes(v, n);
  }

  lemma NumberSound(b: seq<byte>, n: nat)
    requires TakeNumber(b, n).Ok?
    ensures var (v, rest) := TakeNumber(b, n).value;
            v < Capacity(n) && b == LittleEndian(v, n) + rest
  {
    BytesOfValue(b[..n]);
    assert b == b[..n] + b[n..];
  }

  lemma {:induction false} NullifiersTaken(nfs: seq<seq<byte>>, rest: seq<byte>)
    requires forall i :: 0 <= i < |nfs| ==> |nfs[i]| == 32 && FieldOk(nfs[i])
    ensures ParseNullifiers(NullifierBytes(nfs) + rest, |nfs|) == Ok((nfs, rest))
  {
    if nfs == [] {
      assert NullifierBytes(nfs) + rest == rest;
    } else {
      var more := NullifierBytes(nfs[1..]);
      NullifiersTaken(nfs[1..], rest);
      assert NullifierBytes(nfs) + rest == nfs[0] + (more + rest);
      Taken(nfs[0], more + rest);
      assert nfs == [nfs[0]] + nfs[1..];
    }
  }

  lemma {:induction false} NullifiersSound(b: seq<byte>, n: nat)
    requires ParseNullifiers(b, n).Ok?
    ensures var (nfs, rest) := ParseNullifiers(b, n).value;
            && |nfs| == n && (forall i :: 0 <= i < n ==> |nfs[i]| == 32 && FieldOk(nfs[i]))
            && b == NullifierBytes(nfs) + rest
  {
    if n == 0 {
      assert b == [] + b;
    } else {
      NullifiersSound(b[32..], n - 1);
      var (more, rest) := ParseNullifiers(b[32..], n - 1).value;
      assert ([b[..32]] + more)[1..] == more;
      assert b == b[..32] + (NullifierBytes(more) + rest);
      assert b == (b[..32] + NullifierBytes(more)) + rest;
    }
  }

  lemma NoteParts(n: Note)
    requires |n.leaf| == 32 && |n.pkEph| == 33 && |n.ct| == 24
    ensures |NoteBytes(n)| == NOTE_LEN && NoteOf(NoteBytes(n)) == n
  {
    var raw := NoteBytes(n);
    assert raw[..32] == n.leaf && raw[32..65] == n.pkEph && raw[65..] == n.ct;
  }

  lemma PartsNote(raw: seq<byte>)
    requires |raw| == NOTE_LEN
    ensures NoteBytes(NoteOf(raw)) == raw
  {
  }

  lemma {:induction false} OutputsTaken(ck: Checks, notes: seq<Note>, rest: seq<byte>)
    requires forall i :: 0 <= i < |notes| ==> NoteOk(ck, notes[i])
    ensures ParseOutputs(ck, OutputBytes(notes) + rest, |notes|) == Ok((notes, rest))
  {
    if notes == [] {
      assert OutputBytes(notes) + rest == rest;
    } else {
      var raw, more := NoteBytes(notes[0]), OutputBytes(notes[1..]);
      OutputsTaken(ck, notes[1..], rest);
      NoteParts(notes[0]);
      assert OutputBytes(notes) + rest == raw + (more + rest);
      Taken(raw, more + rest);
      assert notes == [notes[0]] + notes[1..];
    }
  }

  lemma {:induction false} OutputsSound(ck: Checks, b: seq<byte>, n: nat)
    requires ParseOutputs(ck, b, n).Ok?
    ensures var (notes, rest) := ParseOutputs(ck, b, n).value;
            && |notes| == n && (forall i :: 0 <= i < n ==> NoteOk(ck, notes[i]))
            && b == OutputBytes(notes) + rest
  {
    if n == 0 {
      assert b == [] + b;
    } else {
      var raw, tail := b[..NOTE_LEN], b[NOTE_LEN..];
      OutputsSound(ck, tail, n - 1);
      PartsNote(raw);
      var (more, rest) := ParseOutputs(ck, tail, n - 1).value;
      assert ([NoteOf(raw)] + more)[1..] == more;
      assert b == raw + (OutputBytes(more) + rest);
      assert b == (raw + OutputBytes(more)) + rest;
    }
  }

  lemma Cat(a: seq<byte>, b: seq<byte>, c: seq<byte>)
    ensures (a + b) + c == a + (b + c)
  {
  }

  /** The 861 bytes of an exit. */
  lemma ExitParts(e: Exit)
    requires e.vout < Capacity(4) && |e.dest| == 32 && |e.boundary| == BOUNDARY_LEN
    ensures var raw := LittleEndian(e.vout, 4) + (e.dest + e.boundary);
            |raw| == 36 + BOUNDARY_LEN && ExitOf(raw) == e && raw[36..] == e.boundary
  {
    var raw := LittleEndian(e.vout, 4) + (e.dest + e.boundary);
    ValueOfBytes(e.vout, 4);
    assert raw[..4] == LittleEndian(e.vout, 4) && raw[4..36] == e.dest && raw[36..] == e.boundary;
  }

  lemma PartsExit(raw: seq<byte>)
    requires |raw| == 36 + BOUNDARY_LEN
    ensures var e := ExitOf(raw);
            e.vout < Capacity(4) && LittleEndian(e.vout, 4) + (e.dest + e.boundary) == raw
  {
    BytesOfValue(raw[..4]);
  }

  lemma ExitTaken(ck: Checks, exit: Option<Exit>, rest: seq<byte>)
    requires exit.Some? ==> ExitOk(ck, exit.value)
    ensures ParseExit(ck, ExitBytes(exit) + rest) == Ok((exit, rest))
  {
    if exit.None? {
      Taken([0], rest);
    } else {
      var e := exit.value;
      var raw := LittleEndian(e.vout, 4) + (e.dest + e.boundary);
      ExitParts(e);
      Cat([1], raw, rest);
      Taken([1], raw + rest);
      Taken(raw, rest);
    }
  }

  lemma ExitSound(ck: Checks, b: seq<byte>)
    requires ParseExit(ck, b).Ok?
    ensures var (exit, rest) := ParseExit(ck, b).value;
            (exit.Some? ==> ExitOk(ck, exit.value)) && b == ExitBytes(exit) + rest
  {
    assert b == [b[0]] + b[1..];
    if b[0] == 1 {
      var raw, rest := b[1..][..36 + BOUNDARY_LEN], b[1..][36 + BOUNDARY_LEN..];
      PartsExit(raw);
      assert b[1..] == raw + rest;
      Cat([1], raw, rest);
    }
  }

  lemma WantParts(w: Want)
    requires WantOk(w)
    ensures var raw := LittleEndian(w.vout, 4) + (LittleEndian(w.value, 8) + w.spk);
            |raw| == 44 && WantOf(raw) == w
  {
    var raw := LittleEndian(w.vout, 4) + (LittleEndian(w.value, 8) + w.spk);
    ValueOfBytes(w.vout, 4);
    ValueOfBytes(w.value, 8);
    assert raw[..4] == LittleEndian(w.vout, 4) && raw[4..12] == LittleEndian(w.value, 8) && raw[12..] == w.spk;
  }

  lemma PartsWant(raw: seq<byte>)
    requires |raw| == 44
    ensures var w := WantOf(raw);
            WantOk(w) && LittleEndian(w.vout, 4) + (LittleEndian(w.value, 8) + w.spk) == raw
  {
    BytesOfValue(raw[..4]);
    BytesOfValue(raw[4..12]);
  }

  lemma WantTaken(want: Option<Want>, rest: seq<byte>)
    requires want.Some? ==> WantOk(want.value)
    ensures ParseWant(WantBytes(want) + rest) == Ok((want, rest))
  {
    if want.None? {
      Taken([0], rest);
    } else {
      var w := want.value;
      var raw := LittleEndian(w.vout, 4) + (LittleEndian(w.value, 8) + w.spk);
      WantParts(w);
      Cat([1], raw, rest);
      Taken([1], raw + rest);
      Taken(raw, rest);
    }
  }

  lemma WantSound(b: seq<byte>)
    requires ParseWant(b).Ok?
    ensures var (want, rest) := ParseWant(b).value;
            (want.Some? ==> WantOk(want.value)) && b == WantBytes(want) + rest
  {
    assert b == [b[0]] + b[1..];
    if b[0] == 1 {
      var raw, rest := b[1..][..44], b[1..][44..];
      PartsWant(raw);
      assert b[1..] == raw + rest;
      Cat([1], raw, rest);
    }
  }

  // ----- the outpoint to bind to, which the all-zero one cannot name

  lemma {:induction false} ZerosAre(n: nat)
    ensures forall i :: 0 <= i < n ==> Zeros(n)[i] == 0
  {
    if n > 0 {
      ZerosAre(n - 1);
    }
  }

  lemma ZeroOutpointBytes()
    ensures BindBytes(Some(Outpoint(Zeros(32), 0))) == Zeros(BIND_LEN)
  {
    ZerosAre(32);
    ZerosAre(BIND_LEN);
    assert LittleEndian(0, 4) == [0, 0, 0, 0] by {
      assert LittleEndian(0, 0) == [];
      assert LittleEndian(0, 1) == [0];
      assert LittleEndian(0, 2) == [0, 0];
      assert LittleEndian(0, 3) == [0, 0, 0];
    }
  }

  lemma BindRaw(o: Outpoint)
    requires |o.txid| == 32 && o.vout < Capacity(4)
    ensures var raw := BindBytes(Some(o));
            |raw| == BIND_LEN && Outpoint(Reverse(raw[..32]), Value(raw[32..])) == o
  {
    var raw := BindBytes(Some(o));
    assert raw[..32] == Reverse(o.txid) && raw[32..] == LittleEndian(o.vout, 4);
    ReverseTwice(o.txid);
    ValueOfBytes(o.vout, 4);
  }

  /** A bind comes back exactly when it is not the all-zero outpoint. */
  lemma BindTaken(bind: Option<Outpoint>)
    requires bind.Some? ==> |bind.value.txid| == 32 && bind.value.vout < Capacity(4)
    ensures |BindBytes(bind)| == BIND_LEN
    ensures BindOf(BindBytes(bind)) == bind <==> (bind.Some? ==> BindOk(bind.value))
  {
    ZeroOutpointBytes();
    if bind.Some? {
      BindRaw(bind.value);
      BindRaw(Outpoint(Zeros(32), 0));
    }
  }

  lemma BindSound(raw: seq<byte>)
    requires |raw| == BIND_LEN
    ensures BindBytes(BindOf(raw)) == raw && (BindOf(raw).Some? ==> BindOk(BindOf(raw).value))
  {
    if raw != Zeros(BIND_LEN) {
      ReverseTwice(raw[..32]);
      BytesOfValue(raw[32..]);
      assert raw == raw[..32] + raw[32..];
      ZeroOutpointBytes();
    }
  }

  // ----- the whole body

  function HeadBytes(asset: seq<byte>, hAnchor: nat, bind: Option<Outpoint>, rest: seq<byte>): seq<byte> {
    [T_BTC_SPEND] + (asset + (LittleEndian(hAnchor, 4) + (BindBytes(bind) + rest)))
  }

  function InsBytes(nfs: seq<seq<byte>>, rest: seq<byte>): seq<byte> {
    Count(|nfs|) + (NullifierBytes(nfs) + rest)
  }

  function TailBytes(outputs: seq<Note>, exit: Option<Exit>, want: Option<Want>, rest: seq<byte>): seq<byte> {
    Count(|outputs|) + (OutputBytes(outputs) + (ExitBytes(exit) + (WantBytes(want) + rest)))
  }

  lemma EncodeInParts(r: Spend, rest: seq<byte>)
    ensures Encode(r) + rest
            == HeadBytes(r.asset, r.hAnchor, r.bind, InsBytes(r.nullifiers, TailBytes(r.outputs, r.exit, r.want, rest)))
  {
    var want := WantBytes(r.want);
    var exit, outs, nOut := ExitBytes(r.exit), OutputBytes(r.outputs), Count(|r.outputs|);
    var nfs, nIn, bind := NullifierBytes(r.nullifiers), Count(|r.nullifiers|), BindBytes(r.bind);
    var anchor := LittleEndian(r.hAnchor, 4);
    var p1 := exit + want;
    var p2 := outs + p1;
    var p3 := nOut + p2;
    var p4 := nfs + p3;
    var p5 := nIn + p4;
    var p6 := bind + p5;
    var p7 := anchor + p6;
    var p8 := r.asset + p7;
    Cat(exit, want, rest);
    Cat(outs, p1, rest);
    Cat(nOut, p2, rest);
    Cat(nfs, p3, rest);
    Cat(nIn, p4, rest);
    Cat(bind, p5, rest);
    Cat(anchor, p6, rest);
    Cat(r.asset, p7, rest);
    Cat([T_BTC_SPEND], p8, rest);
  }

  lemma HeadTaken(asset: seq<byte>, hAnchor: nat, bind: Option<Outpoint>, rest: seq<byte>)
    requires |asset| == 32 && hAnchor < Capacity(4) && |BindBytes(bind)| == BIND_LEN
    ensures ParseHead(HeadBytes(asset, hAnchor, bind, rest)) == Ok(((asset, hAnchor, BindOf(BindBytes(bind))), rest))
  {
    var b3 := BindBytes(bind) + rest;
    var b2 := LittleEndian(hAnchor, 4) + b3;
    var b1 := asset + b2;
    Taken([T_BTC_SPEND], b1);
    Taken(asset, b2);
    NumberTaken(hAnchor, 4, b3);
    Taken(BindBytes(bind), rest);
  }

  lemma HeadSound(b: seq<byte>)
    requires ParseHead(b).Ok?
    ensures var ((asset, hAnchor, bind), rest) := ParseHead(b).value;
            && |asset| == 32 && hAnchor < Capacity(4) && (bind.Some? ==> BindOk(bind.value))
            && b == HeadBytes(asset, hAnchor, bind, rest)
  {
    var b1 := b[1..];
    var b2 := b1[32..];
    var b3 := b2[4..];
    var asset, hAnchor, bind, rest := b1[..32], Value(b2[..4]), BindOf(b3[..BIND_LEN]), b3[BIND_LEN..];
    NumberSound(b2, 4);
    BindSound(b3[..BIND_LEN]);
    assert b3 == BindBytes(bind) + rest;
    assert b1 == asset + b2;
    assert b == [T_BTC_SPEND] + b1;
    assert ParseHead(b).value == ((asset, hAnchor, bind), rest);
  }

  lemma InsTaken(nfs: seq<seq<byte>>, rest: seq<byte>)
    requires 1 <= |nfs| <= MAX_IN && !Repeats(nfs)
    requires forall i :: 0 <= i < |nfs| ==> |nfs[i]| == 32 && FieldOk(nfs[i])
    ensures ParseIns(InsBytes(nfs, rest)) == Ok((nfs, rest))
  {
    Taken(Count(|nfs|), NullifierBytes(nfs) + rest);
    NullifiersTaken(nfs, rest);
  }

  lemma InsSound(b: seq<byte>)
    requires ParseIns(b).Ok?
    ensures var (nfs, rest) := ParseIns(b).value;
            && 1 <= |nfs| <= MAX_IN && !Repeats(nfs) && (forall i :: 0 <= i < |nfs| ==> |nfs[i]| == 32 && FieldOk(nfs[i]))
            && b == InsBytes(nfs, rest)
  {
    assert b == [b[0]] + b[1..];
    NullifiersSound(b[1..], b[0]);
  }

  ghost predicate TailOk(ck: Checks, outputs: seq<Note>, exit: Option<Exit>, want: Option<Want>) {
    && |outputs| <= MAX_OUT && (forall i :: 0 <= i < |outputs| ==> NoteOk(ck, outputs[i]))
    && (exit.Some? ==> ExitOk(ck, exit.value)) && (want.Some? ==> WantOk(want.value))
    && (outputs != [] || exit.Some?)
  }

  lemma TailTaken(ck: Checks, r: Spend, rest: seq<byte>)
    requires TailOk(ck, r.outputs, r.exit, r.want)
    ensures ParseTail(ck, r.asset, r.hAnchor, r.bind, r.nullifiers, TailBytes(r.outputs, r.exit, r.want, rest)) == Ok((r, rest))
  {
    var b3 := WantBytes(r.want) + rest;
    var b2 := ExitBytes(r.exit) + b3;
    Taken(Count(|r.outputs|), OutputBytes(r.outputs) + b2);
    OutputsTaken(ck, r.outputs, b2);
    ExitTaken(ck, r.exit, b3);
    WantTaken(r.want, rest);
  }

  lemma TailSound(ck: Checks, asset: seq<byte>, hAnchor: nat, bind: Option<Outpoint>, nfs: seq<seq<byte>>, b: seq<byte>)
    requires ParseTail(ck, asset, hAnchor, bind, nfs, b).Ok?
    ensures var (r, rest) := ParseTail(ck, asset, hAnchor, bind, nfs, b).value;
            && r == Spend(asset, hAnchor, bind, nfs, r.outputs, r.exit, r.want)
            && TailOk(ck, r.outputs, r.exit, r.want) && b == TailBytes(r.outputs, r.exit, r.want, rest)
  {
    assert b == [b[0]] + b[1..];
    OutputsSound(ck, b[1..], b[0]);
    var b2 := ParseOutputs(ck, b[1..], b[0]).value.1;
    ExitSound(ck, b2);
    WantSound(ParseExit(ck, b2).value.1);
  }

  /** Reading a well-formed record's encoding gives the record back, whatever follows it. */
  lemma ParseEncode(ck: Checks, r: Spend, rest: seq<byte>)
    requires WellFormed(ck, r)
    ensures ParseBody(ck, Encode(r) + rest) == Ok((r, rest))
  {
    var tail := TailBytes(r.outputs, r.exit, r.want, rest);
    EncodeInParts(r, rest);
    BindTaken(r.bind);
    HeadTaken(r.asset, r.hAnchor, r.bind, InsBytes(r.nullifiers, tail));
    InsTaken(r.nullifiers, tail);
    TailTaken(ck, r, rest);
  }

  /** What is read is well formed, and the bytes read are its encoding: the parser takes nothing else. */
  lemma EncodeParse(ck: Checks, b: seq<byte>)
    requires ParseBody(ck, b).Ok?
    ensures var (r, rest) := ParseBody(ck, b).value;
            WellFormed(ck, r) && b == Encode(r) + rest
  {
    HeadSound(b);
    var ((asset, hAnchor, bind), b1) := ParseHead(b).value;
    InsSound(b1);
    var (nfs, b2) := ParseIns(b1).value;
    TailSound(ck, asset, hAnchor, bind, nfs, b2);
    var (r, rest) := ParseBody(ck, b).value;
    EncodeInParts(r, rest);
  }

  /** No encoding is a prefix of another, so a body splits off whatever follows it in one way. */
  lemma PrefixFree(ck: Checks, r: Spend, r': Spend, x: seq<byte>, y: seq<byte>)
    requires WellFormed(ck, r) && WellFormed(ck, r') && Encode(r) + x == Encode(r') + y
    ensures r == r' && x == y
  {
    ParseEncode(ck, r, x);
    ParseEncode(ck, r', y);
  }

  /** The body alone. */
  lemma BodyRoundTrip(ck: Checks, b: seq<byte>, r: Spend)
    ensures Parse(ck, b, false) == Ok((r, [])) <==> WellFormed(ck, r) && b == Encode(r)
  {
    if WellFormed(ck, r) && b == Encode(r) {
      assert Encode(r) + [] == Encode(r);
      ParseEncode(ck, r, []);
    }
    if Parse(ck, b, false) == Ok((r, [])) {
      EncodeParse(ck, b);
      assert Encode(r) + [] == Encode(r);
    }
  }

  lemma Capacity2()
    ensures Capacity(2) == 65536
  {
    assert Capacity(1) == 256;
  }

  lemma EnvelopeTaken(ck: Checks, r: Spend, proof: seq<byte>)
    requires WellFormed(ck, r) && |proof| <= MAX_PROOF
    ensures Parse(ck, Envelope(Encode(r), proof), true) == Ok((r, proof))
  {
    Capacity2();
    ParseEncode(ck, r, LittleEndian(|proof|, 2) + proof);
    NumberTaken(|proof|, 2, proof);
  }

  lemma EnvelopeSound(ck: Checks, b: seq<byte>)
    requires Parse(ck, b, true).Ok?
    ensures var (r, proof) := Parse(ck, b, true).value;
            WellFormed(ck, r) && |proof| <= MAX_PROOF && b == Envelope(Encode(r), proof)
  {
    EncodeParse(ck, b);
    NumberSound(ParseBody(ck, b).value.1, 2);
  }

  /** The whole envelope: it reads as a record and a proof exactly when it is that body, length and proof. */
  lemma EnvelopeRoundTrip(ck: Checks, b: seq<byte>, r: Spend, proof: seq<byte>)
    ensures Parse(ck, b, true) == Ok((r, proof)) <==>
            WellFormed(ck, r) && |proof| <= MAX_PROOF && b == Envelope(Encode(r), proof)
  {
    if WellFormed(ck, r) && |proof| <= MAX_PROOF && b == Envelope(Encode(r), proof) {
      EnvelopeTaken(ck, r, proof);
    } else if Parse(ck, b, true).Ok? {
      EnvelopeSound(ck, b);
    }
  }

  lemma EncoderWrites(r: Spend)
    requires EncodeBody(r).Ok?
    ensures EncodeBody(r).value == Encode(r)
  {
  }

  const NO_OUTPOINT := Outpoint(Zeros(32), 0)

  /** What the encoder leaves to its caller: field elements, points, the boundary, and a bind that names something. */
  ghost predicate CallerChecks(ck: Checks, r: Spend) {
    && r.bind != Some(NO_OUTPOINT)
    && (forall i :: 0 <= i < |r.nullifiers| ==> FieldOk(r.nullifiers[i]))
    && (forall i :: 0 <= i < |r.outputs| ==> FieldOk(r.outputs[i].leaf) && ck.pointOk(r.outputs[i].pkEph))
    && (r.exit.Some? ==> ck.boundaryOk(r.exit.value.boundary))
  }

  lemma CallerChecksSuffice(ck: Checks, r: Spend)
    requires EncodeBody(r).Ok?
    ensures WellFormed(ck, r) <==> CallerChecks(ck, r)
  {
  }

  /** What the encoder accepts, the parser returns, exactly when its caller made the checks it leaves out. */
  lemma EncoderRoundTrip(ck: Checks, r: Spend)
    requires EncodeBody(r).Ok?
    ensures Parse(ck, EncodeBody(r).value, false) == Ok((r, [])) <==> CallerChecks(ck, r)
  {
    EncoderWrites(r);
    BodyRoundTrip(ck, Encode(r), r);
    CallerChecksSuffice(ck, r);
  }

  /** Of the records the parser returns, the encoder refuses those whose want and exit name the same output, a
      check the parser does not make. */
  lemma EncoderRefuses(ck: Checks, r: Spend)
    requires WellFormed(ck, r)
    ensures EncodeBody(r).Err? <==> r.want.Some? && r.exit.Some? && r.want.value.vout == r.exit.value.vout
  {
  }

  // ----- records in the gaps between the two

  lemma {:induction false} ZerosAreZero(n: nat)
    ensures BigEndian(Zeros(n)) == 0
  {
    ZerosAre(n);
    if n > 0 {
      ZerosAre(n - 1);
      ZerosAreZero(n - 1);
      assert Zeros(n)[..n - 1] == Zeros(n - 1);
    }
  }

  function One(): (b: seq<byte>)
    ensures |b| == 32
  {
    Zeros(31) + [1]
  }

  lemma OneIsField()
    ensures FieldOk(One())
  {
    ZerosAreZero(31);
    assert One()[..31] == Zeros(31);
  }

  /** One nullifier, one output to a point. */
  function Small(pk: seq<byte>): Spend {
    Spend(Zeros(32), 0, None, [One()], [Note(One(), pk, Zeros(24))], None, None)
  }

  lemma SmallIsWritten(ck: Checks, pk: seq<byte>)
    requires |pk| == 33 && ck.pointOk(pk)
    ensures WellFormed(ck, Small(pk)) && EncodeBody(Small(pk)).Ok?
  {
    OneIsField();
  }

  lemma ZeroBindIsWritten(r: Spend)
    requires EncodeBody(r).Ok? && r.bind.None?
    ensures EncodeBody(r.(bind := Some(NO_OUTPOINT))).Ok?
  {
    assert LengthsOk(r.(bind := Some(NO_OUTPOINT)));
  }

  lemma ZeroBindSameBytes(r: Spend)
    requires r.bind.None?
    ensures Encode(r.(bind := Some(NO_OUTPOINT))) == Encode(r)
  {
    ZeroOutpointBytes();
    assert BindBytes(Some(NO_OUTPOINT)) == BindBytes(None);
  }

  /** A bind to the all-zero outpoint is written as no bind, and read back as none. */
  lemma ZeroBindIsLost(ck: Checks, r: Spend)
    requires WellFormed(ck, r) && EncodeBody(r).Ok? && r.bind.None?
    ensures var r' := r.(bind := Some(NO_OUTPOINT));
            EncodeBody(r').Ok? && Parse(ck, EncodeBody(r').value, false) == Ok((r, []))
  {
    var r' := r.(bind := Some(NO_OUTPOINT));
    ZeroBindIsWritten(r);
    ZeroBindSameBytes(r);
    EncoderWrites(r');
    BodyRoundTrip(ck, EncodeBody(r').value, r);
  }

  /** A nullifier that is no field element, such as zero, is written, and the body is not read. */
  lemma BadNullifierIsUnread(ck: Checks, r: Spend, nf: seq<byte>)
    requires EncodeBody(r).Ok? && |nf| == 32 && !FieldOk(nf)
    ensures var r' := r.(nullifiers := [nf]);
            EncodeBody(r').Ok? && Parse(ck, EncodeBody(r').value, false) != Ok((r', []))
  {
    var r' := r.(nullifiers := [nf]);
    assert !FieldOk(r'.nullifiers[0]);
    EncoderRoundTrip(ck, r');
  }

  /** A want on the exit's own output is read, and the record read is one the encoder refuses to write. */
  lemma SharedOutputIsUnwritten(ck: Checks, r: Spend, value: nat, spk: seq<byte>)
    requires WellFormed(ck, r) && r.exit.Some? && value < Capacity(8) && |spk| == 32
    ensures var r' := r.(want := Some(Want(r.exit.value.vout, value, spk)));
            Parse(ck, Encode(r'), false) == Ok((r', [])) && EncodeBody(r').Err?
  {
    var r' := r.(want := Some(Want(r.exit.value.vout, value, spk)));
    BodyRoundTrip(ck, Encode(r'), r');
    EncoderRefuses(ck, r');
  }

  /** Written, and read as the record without its bind; written and not read back; read, and not to be written. */
  predicate Unbound(ck: Checks, r: Spend) {
    EncodeBody(r).Ok? && r.bind.Some? && Parse(ck, EncodeBody(r).value, false) == Ok((r.(bind := None), []))
  }

  predicate Unread(ck: Checks, r: Spend) {
    EncodeBody(r).Ok? && r.bind.None? && Parse(ck, EncodeBody(r).value, false) != Ok((r, []))
  }

  predicate Unwritten(ck: Checks, r: Spend) {
    EncodeBody(r).Err? && Parse(ck, Encode(r), false) == Ok((r, []))
  }

  lemma UnboundRecord(ck: Checks, r: Spend)
    requires WellFormed(ck, r) && EncodeBody(r).Ok? && r.bind.None?
    ensures Unbound(ck, r.(bind := Some(NO_OUTPOINT)))
  {
    ZeroBindIsLost(ck, r);
    assert r.(bind := Some(NO_OUTPOINT)).(bind := None) == r;
  }

  lemma UnreadRecord(ck: Checks, r: Spend)
    requires EncodeBody(r).Ok? && r.bind.None?
    ensures Unread(ck, r.(nullifiers := [Zeros(32)]))
  {
    ZerosAreZero(32);
    BadNullifierIsUnread(ck, r, Zeros(32));
  }

  lemma UnwrittenRecord(ck: Checks, r: Spend, boundary: seq<byte>)
    requires WellFormed(ck, r) && |boundary| == BOUNDARY_LEN && ck.boundaryOk(boundary)
    ensures exists r' :: Unwritten(ck, r')
  {
    var exit := r.(exit := Some(Exit(0, Zeros(32), boundary)));
    SharedOutputIsUnwritten(ck, exit, 0, Zeros(32));
    assert Unwritten(ck, exit.(want := Some(Want(0, 0, Zeros(32)))));
  }

  /** One record for each gap, for any valid point and boundary. */
  lemma GapsAreReal(ck: Checks, pk: seq<byte>, boundary: seq<byte>)
    requires |pk| == 33 && ck.pointOk(pk) && |boundary| == BOUNDARY_LEN && ck.boundaryOk(boundary)
    ensures exists r :: Unbound(ck, r)
    ensures exists r :: Unread(ck, r)
    ensures exists r :: Unwritten(ck, r)
  {
    SmallIsWritten(ck, pk);
    UnboundRecord(ck, Small(pk));
    UnreadRecord(ck, Small(pk));
    UnwrittenRecord(ck, Small(pk), boundary);
  }

  // ----- the parser as it runs

  /** Reading with a cursor; each loop advances it. */
  method ReadNullifiers(b: seq<byte>, start: nat, n: nat) returns (r: Result<seq<seq<byte>>>, p: nat)
    requires start <= |b|
    ensures p <= |b|
    ensures ParseNullifiers(b[start..], n) == (if r.Ok? then Ok((r.value, b[p..])) else Err(r.error))
  {
    p := start;
    var nfs: seq<seq<byte>> := [];
    PrependNothing(ParseNullifiers(b[start..], n));
    for i := 0 to n
      invariant p <= |b|
      invariant ParseNullifiers(b[start..], n) == Prepended(nfs, ParseNullifiers(b[p..], n - i))
    {
      if p + 32 > |b| {
        return Err("spend truncated"), p;
      }
      var nf := b[p..p + 32];
      assert b[p..][..32] == nf && b[p..][32..] == b[p + 32..];
      if !FieldOk(nf) {
        return Err("nullifier is not a non-zero field element"), p;
      }
      PrependTwice(nfs, nf, ParseNullifiers(b[p + 32..], n - i - 1));
      nfs, p := nfs + [nf], p + 32;
    }
    assert nfs + [] == nfs;
    r := Ok(nfs);
  }

  /** A result with items already read put in front. */
  function Prepended<T>(done: seq<T>, more: Parsed<seq<T>>): Parsed<seq<T>> {
    match more
    case Err(e) => Err(e)
    case Ok((items, rest)) => Ok((done + items, rest))
  }

  lemma PrependNothing<T>(more: Parsed<seq<T>>)
    ensures Prepended([], more) == more
  {
    if more.Ok? {
      assert [] + more.value.0 == more.value.0;
    }
  }

  lemma PrependTwice<T>(done: seq<T>, x: T, more: Parsed<seq<T>>)
    ensures Prepended(done + [x], more)
            == Prepended(done, match more case Err(e) => Err(e) case Ok((items, rest)) => Ok(([x] + items, rest)))
  {
    if more.Ok? {
      assert (done + [x]) + more.value.0 == done + ([x] + more.value.0);
    }
  }

  method ReadOutputs(ck: Checks, b: seq<byte>, start: nat, n: nat) returns (r: Result<seq<Note>>, p: nat)
    requires start <= |b|
    ensures p <= |b|
    ensures ParseOutputs(ck, b[start..], n) == (if r.Ok? then Ok((r.value, b[p..])) else Err(r.error))
  {
    p := start;
    var notes: seq<Note> := [];
    PrependNothing(ParseOutputs(ck, b[start..], n));
    for i := 0 to n
      invariant p <= |b|
      invariant ParseOutputs(ck, b[start..], n) == Prepended(notes, ParseOutputs(ck, b[p..], n - i))
    {
      if p + NOTE_LEN > |b| {
        return Err("spend truncated"), p;
      }
      var raw := b[p..p + NOTE_LEN];
      assert b[p..][..NOTE_LEN] == raw && b[p..][NOTE_LEN..] == b[p + NOTE_LEN..];
      if !NoteOk(ck, NoteOf(raw)) {
        return Err("output malformed"), p;
      }
      PrependTwice(notes, NoteOf(raw), ParseOutputs(ck, b[p + NOTE_LEN..], n - i - 1));
      notes, p := notes + [NoteOf(raw)], p + NOTE_LEN;
    }
    assert notes + [] == notes;
    r := Ok(notes);
  }

  /** The count and the nullifiers after it. */
  method ReadIns(b: seq<byte>, start: nat) returns (r: Result<seq<seq<byte>>>, p: nat)
    requires start <= |b|
    ensures p <= |b|
    ensures ParseIns(b[start..]) == (if r.Ok? then Ok((r.value, b[p..])) else Err(r.error))
  {
    p := start;
    if p == |b| {
      return Err("spend truncated"), p;
    }
    var nIn := b[p];
    assert b[p..][1..] == b[p + 1..];
    if nIn < 1 || nIn > MAX_IN {
      return Err("n_in out of range"), p;
    }
    r, p := ReadNullifiers(b, start + 1, nIn);
    if r.Ok? && Repeats(r.value) {
      r := Err("repeated nullifier");
    }
  }

  /** Outputs, exit and want, into the record read so far. */
  method ReadTail(ck: Checks, b: seq<byte>, start: nat, r: Spend) returns (out: Result<Spend>, p: nat)
    requires start <= |b|
    ensures p <= |b|
    ensures ParseTail(ck, r.asset, r.hAnchor, r.bind, r.nullifiers, b[start..])
            == (if out.Ok? then Ok((out.value, b[p..])) else Err(out.error))
  {
    p := start;
    if p == |b| {
      return Err("spend truncated"), p;
    }
    var nOut := b[p];
    assert b[p..][1..] == b[p + 1..];
    if nOut > MAX_OUT {
      return Err("n_out out of range"), p;
    }
    var outputs;
    outputs, p := ReadOutputs(ck, b, start + 1, nOut);
    if outputs.Err? {
      return Err(outputs.error), p;
    }
    var exit := ParseExit(ck, b[p..]);
    if exit.Err? {
      return Err(exit.error), p;
    }
    p := Rest(b, p, exit.value.1);
    var want := ParseWant(b[p..]);
    if want.Err? {
      return Err(want.error), p;
    }
    p := Rest(b, p, want.value.1);
    if outputs.value == [] && exit.value.0.None? {
      return Err("spend has no output and no exit"), p;
    }
    return Ok(r.(outputs := outputs.value, exit := exit.value.0, want := want.value.0)), p;
  }

  /** The cursor at which what is left begins. */
  function Rest(b: seq<byte>, p: nat, rest: seq<byte>): (q: nat)
    requires p <= |b| && |rest| <= |b| - p && rest == b[|b| - |rest|..]
    ensures p <= q <= |b| && b[q..] == rest
  {
    |b| - |rest|
  }

  /** `parseSpend`. */
  method ParseSpend(ck: Checks, b: seq<byte>, full: bool) returns (res: Result<(Spend, seq<byte>)>)
    ensures res == Parse(ck, b, full)
  {
    var head := ParseHead(b);
    if head.Err? {
      return Err(head.error);
    }
    var p := Rest(b, 0, head.value.1);
    var nfs;
    nfs, p := ReadIns(b, p);
    if nfs.Err? {
      return Err(nfs.error);
    }
    var (asset, hAnchor, bind) := head.value.0;
    var r;
    r, p := ReadTail(ck, b, p, Spend(asset, hAnchor, bind, nfs.value, [], None, None));
    if r.Err? {
      return Err(r.error);
    }
    if !full {
      return if p == |b| then Ok((r.value, [])) else Err("trailing bytes");
    }
    if p + 2 > |b| {
      return Err("spend truncated");
    }
    var len := Value(b[p..][..2]);
    var proof := b[p..][2..];
    if len > MAX_PROOF {
      return Err("proof too long");
    }
    if len != |proof| {
      return Err(if len > |proof| then "spend truncated" else "trailing bytes");
    }
    return Ok((r.value, proof));
  }
}
