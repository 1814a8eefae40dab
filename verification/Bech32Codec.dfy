/** bech32m strings of dapp/btc-shielded-pool.js: prefix, separator, words and checksum, written and read. */
module Bech32Codec {
  import opened Wrappers
  import opened BitRegroup
  import opened Bech32

  /** The alphabet, and its inverse. */
  function CharOf(w: nat): char {
    match w
    case 0 => 'q'
    case 1 => 'p'
    case 2 => 'z'
    case 3 => 'r'
    case 4 => 'y'
    case 5 => '9'
    case 6 => 'x'
    case 7 => '8'
    case 8 => 'g'
    case 9 => 'f'
    case 10 => '2'
    case 11 => 't'
    case 12 => 'v'
    case 13 => 'd'
    case 14 => 'w'
    case 15 => '0'
    case 16 => 's'
    case 17 => '3'
    case 18 => 'j'
    case 19 => 'n'
    case 20 => '5'
    case 21 => '4'
    case 22 => 'k'
    case 23 => 'h'
    case 24 => 'c'
    case 25 => 'e'
    case 26 => '6'
    case 27 => 'm'
    case 28 => 'u'
    case 29 => 'a'
    case 30 => '7'
    case _ => 'l'
  }

  function WordOf(c: char): Option<nat> {
    match c
    case 'q' => Some(0)
    case 'p' => Some(1)
    case 'z' => Some(2)
    case 'r' => Some(3)
    case 'y' => Some(4)
    case '9' => Some(5)
    case 'x' => Some(6)
    case '8' => Some(7)
    case 'g' => Some(8)
    case 'f' => Some(9)
    case '2' => Some(10)
    case 't' => Some(11)
    case 'v' => Some(12)
    case 'd' => Some(13)
    case 'w' => Some(14)
    case '0' => Some(15)
    case 's' => Some(16)
    case '3' => Some(17)
    case 'j' => Some(18)
    case 'n' => Some(19)
    case '5' => Some(20)
    case '4' => Some(21)
    case 'k' => Some(22)
    case 'h' => Some(23)
    case 'c' => Some(24)
    case 'e' => Some(25)
    case '6' => Some(26)
    case 'm' => Some(27)
    case 'u' => Some(28)
    case 'a' => Some(29)
    case '7' => Some(30)
    case 'l' => Some(31)
    case _ => None
  }

  function Lower(c: char): char {
    if 'A' <= c <= 'Z' then (c as int + 32) as char else c
  }

  function Upper(c: char): char {
    if 'a' <= c <= 'z' then (c as int - 32) as char else c
  }

  function ToLower(s: string): (r: string)
    ensures |r| == |s| && forall i :: 0 <= i < |s| ==> r[i] == Lower(s[i])
  {
    seq(|s|, i requires 0 <= i < |s| => Lower(s[i]))
  }

  function ToUpper(s: string): (r: string)
    ensures |r| == |s| && forall i :: 0 <= i < |s| ==> r[i] == Upper(s[i])
  {
    seq(|s|, i requires 0 <= i < |s| => Upper(s[i]))
  }

  function Chars(words: seq<nat>): (s: string)
    ensures |s| == |words| && forall i :: 0 <= i < |words| ==> s[i] == CharOf(words[i])
  {
    seq(|words|, i requires 0 <= i < |words| => CharOf(words[i]))
  }

  function Words(s: string): Option<seq<nat>> {
    if s == "" then Some([]) else
    var front, last := Words(s[..|s| - 1]), WordOf(s[|s| - 1]);
    if front.None? || last.None? then None else Some(front.value + [last.value])
  }

  /** Where the last '1' is, or -1. */
  function LastOne(s: string): (i: int)
    ensures -1 <= i < |s|
  {
    if s == "" then -1 else if s[|s| - 1] == '1' then |s| - 1 else LastOne(s[..|s| - 1])
  }

  /** `hrpExpand`: the high bits of the prefix, a zero, the low bits. */
  function Expand(hrp: string): seq<nat> {
    seq(|hrp|, i requires 0 <= i < |hrp| => hrp[i] as int / 32) + [0]
    + seq(|hrp|, i requires 0 <= i < |hrp| => hrp[i] as int % 32)
  }

  /** The words of some bytes. */
  function WordsOf(bytes: seq<nat>): seq<nat> {
    var r := Converted(bytes, 8, 5, true);
    if r.Ok? then r.value else []
  }

  function Encode(hrp: string, bytes: seq<nat>): string {
    var words := WordsOf(bytes);
    hrp + "1" + Chars(words + Checksum(Expand(hrp) + words))
  }

  function Decode(str: string): Result<(string, seq<nat>)> {
    if str != ToLower(str) && str != ToUpper(str) then Err("mixed-case address") else
    var s := ToLower(str);
    var pos := LastOne(s);
    if pos < 1 || pos + 7 > |s| then Err("malformed address") else
    var hrp, data := s[..pos], Words(s[pos + 1..]);
    if data.None? || |data.value| < 6 then Err("bad address char")
    else if Polymod(1, Expand(hrp) + data.value) != BECH32M_CONST then Err("address checksum")
    else
      match Converted(data.value[..|data.value| - 6], 5, 8, false)
      case Err(e) => Err(e)
      case Ok(bytes) => Ok((hrp, bytes))
  }

  // ----- characters

  lemma CharRoundTrip(w: nat)
    requires w < 32
    ensures WordOf(CharOf(w)) == Some(w) && CharOf(w) != '1' && Lower(CharOf(w)) == CharOf(w)
  {
  }

  lemma WordRoundTrip(c: char)
    requires WordOf(c).Some?
    ensures WordOf(c).value < 32 && CharOf(WordOf(c).value) == c
  {
  }

  lemma {:induction false} WordsOfChars(words: seq<nat>)
    requires AreDigits(words)
    ensures Words(Chars(words)) == Some(words)
  {
    if words != [] {
      var front := words[..|words| - 1];
      WordsOfChars(front);
      assert Chars(words)[..|words| - 1] == Chars(front);
      CharRoundTrip(words[|words| - 1]);
      assert words == front + [words[|words| - 1]];
    }
  }

  lemma {:induction false} CharsOfWords(s: string)
    requires Words(s).Some?
    ensures AreDigits(Words(s).value) && |Words(s).value| == |s| && Chars(Words(s).value) == s
  {
    if s != "" {
      CharsOfWords(s[..|s| - 1]);
      WordRoundTrip(s[|s| - 1]);
    }
  }

  /** The separator is the last '1', because the alphabet has none. */
  lemma {:induction false} LastOneIs(hrp: string, tail: string)
    requires forall i :: 0 <= i < |tail| ==> tail[i] != '1'
    ensures LastOne(hrp + "1" + tail) == |hrp|
  {
    var s := hrp + "1" + tail;
    if tail != "" {
      LastOneIs(hrp, tail[..|tail| - 1]);
      assert s[..|s| - 1] == hrp + "1" + tail[..|tail| - 1];
    }
  }

  lemma {:induction false} LastOneSplits(s: string)
    requires LastOne(s) >= 0
    ensures s == s[..LastOne(s)] + "1" + s[LastOne(s) + 1..]
  {
    if s[|s| - 1] != '1' {
      var front := s[..|s| - 1];
      LastOneSplits(front);
      assert s == front + [s[|s| - 1]];
    }
  }

  lemma LowerTwice(s: string)
    ensures ToLower(ToLower(s)) == ToLower(s)
    ensures forall i, j :: 0 <= i <= j <= |s| ==> ToLower(ToLower(s)[i..j]) == ToLower(s)[i..j]
  {
  }

  // ----- both ways

  lemma WordsFit(bytes: seq<nat>)
    requires Fits(bytes, 8)
    ensures Converted(bytes, 8, 5, true) == Ok(WordsOf(bytes)) && AreDigits(WordsOf(bytes))
    ensures Converted(WordsOf(bytes), 5, 8, false) == Ok(bytes)
  {
    ConvertBack(bytes, 8, 5);
    TwoPlus5(0);
  }

  lemma TailOfEncoding(hrp: string, bytes: seq<nat>)
    requires Fits(bytes, 8)
    ensures var words := WordsOf(bytes);
            var data := words + Checksum(Expand(hrp) + words);
            AreDigits(data) && Words(Chars(data)) == Some(data) && LastOne(Encode(hrp, bytes)) == |hrp|
            && ToLower(Chars(data)) == Chars(data)
  {
    var words := WordsOf(bytes);
    var data := words + Checksum(Expand(hrp) + words);
    WordsFit(bytes);
    WordsOfChars(data);
    forall i | 0 <= i < |data| ensures Chars(data)[i] != '1' && Lower(Chars(data)[i]) == Chars(data)[i] {
      CharRoundTrip(data[i]);
    }
    LastOneIs(hrp, Chars(data));
  }

  lemma LowerKeeps(hrp: string, tail: string)
    requires ToLower(hrp) == hrp && ToLower(tail) == tail
    ensures ToLower(hrp + "1" + tail) == hrp + "1" + tail
  {
    var s := hrp + "1" + tail;
    forall i | 0 <= i < |s| ensures Lower(s[i]) == s[i] {
      if i < |hrp| {
        assert ToLower(hrp)[i] == Lower(hrp[i]);
      } else if i > |hrp| {
        assert ToLower(tail)[i - |hrp| - 1] == Lower(tail[i - |hrp| - 1]);
      }
    }
  }

  /** The decoder, on a string already in its parts. */
  lemma DecodeParts(s: string, hrp: string, data: seq<nat>, bytes: seq<nat>)
    requires s == hrp + "1" + Chars(data) && ToLower(s) == s && hrp != "" && LastOne(s) == |hrp|
    requires Words(Chars(data)) == Some(data) && |data| >= 6 && Polymod(1, Expand(hrp) + data) == BECH32M_CONST
    requires Converted(data[..|data| - 6], 5, 8, false) == Ok(bytes)
    ensures Decode(s) == Ok((hrp, bytes))
  {
    assert s[..|hrp|] == hrp && s[|hrp| + 1..] == Chars(data);
  }

  lemma DecodeLower(hrp: string, bytes: seq<nat>)
    requires Fits(bytes, 8) && hrp != "" && ToLower(hrp) == hrp
    ensures Decode(Encode(hrp, bytes)) == Ok((hrp, bytes))
  {
    var words := WordsOf(bytes);
    var data := words + Checksum(Expand(hrp) + words);
    TailOfEncoding(hrp, bytes);
    WordsFit(bytes);
    LowerKeeps(hrp, Chars(data));
    ChecksumHolds(Expand(hrp), words);
    assert data[..|data| - 6] == words;
    DecodeParts(Encode(hrp, bytes), hrp, data, bytes);
  }

  lemma DecodedIsLower(str: string)
    requires Decode(str).Ok?
    ensures Decode(str).value.0 != "" && ToLower(Decode(str).value.0) == Decode(str).value.0
  {
    LowerTwice(str);
  }

  /** Decoding an encoding gives back the prefix and the bytes exactly when the prefix is not empty and has no
      upper-case letter; for bytes of any length. */
  lemma EncodeDecode(hrp: string, bytes: seq<nat>)
    requires Fits(bytes, 8)
    ensures Decode(Encode(hrp, bytes)) == Ok((hrp, bytes)) <==> hrp != "" && ToLower(hrp) == hrp
  {
    if hrp != "" && ToLower(hrp) == hrp {
      DecodeLower(hrp, bytes);
    }
    var s := Encode(hrp, bytes);
    if Decode(s).Ok? {
      DecodedIsLower(s);
    }
  }

  /** Whatever decodes is the encoding of what it decodes to, up to case: no two lower-case addresses share a
      meaning. */
  lemma DecodeEncode(str: string, hrp: string, bytes: seq<nat>)
    requires Decode(str) == Ok((hrp, bytes))
    ensures Fits(bytes, 8) && Encode(hrp, bytes) == ToLower(str)
  {
    var s := ToLower(str);
    var pos := LastOne(s);
    var data := Words(s[pos + 1..]).value;
    var n := |data| - 6;
    CharsOfWords(s[pos + 1..]);
    TwoPlus5(0);
    ConvertForth(data[..n], 8, 5, bytes);
    assert data == data[..n] + data[n..];
    CatNat(Expand(hrp), data[..n], data[n..]);
    ChecksumIsUnique(Expand(hrp) + data[..n], data[n..]);
    LastOneSplits(s);
  }
}
