/** The bit-string helpers of the seed-phrase tool: `indicesToBinary` writes
    word indices as 11-bit groups (BIP-39, section "Generating the mnemonic"),
    `bitsToBytes` cuts a bit string into bytes. */
module SeedPhraseBits {

  import opened Wrappers
  import opened JsNumbers

  const BitsPerWord: nat := 11
  const BitsPerByte: nat := 8

  lemma PowersOfTwo()
    ensures Pow(2, 8) == 256 && Pow(2, 11) == 2048
  {
  }

  /** Strings laid end to end. */
  function Concat(parts: seq<string>): (s: string)
    decreases |parts|
  {
    if |parts| == 0 then "" else parts[0] + Concat(parts[1..])
  }

  // ---------------------------------------------------------- indicesToBinary

  /** One index of `indicesToBinary`: `index.toString(2).padStart(11, '0')`. */
  function IndexBits(index: int): string {
    PadStart(IntToString(index, 2), BitsPerWord, '0')
  }

  /** `indicesToBinary`: the indices' 11-bit groups, joined. */
  function IndicesToBinary(indices: seq<int>): string
    decreases |indices|
  {
    if |indices| == 0 then "" else IndicesToBinary(indices[..|indices| - 1]) + IndexBits(indices[|indices| - 1])
  }

  /** An index of the wordlist is exactly eleven bits, worth the index. */
  lemma IndexBitsExact(index: int)
    requires 0 <= index < 2048
    ensures |IndexBits(index)| == BitsPerWord && AllDigits(IndexBits(index), 2)
    ensures DigitsValue(IndexBits(index), 2) == index
  {
    var s := NatToString(index, 2);
    PowersOfTwo();
    NatToStringLength(index, 2, BitsPerWord);
    LeadingZeros(BitsPerWord - |s|, s, 2);
  }

  /** An index beyond the wordlist does not fit eleven bits: its group is longer
      and shifts every later group. */
  lemma IndexBitsOverflow(index: int)
    requires index >= 2048
    ensures |IndexBits(index)| > BitsPerWord
  {
    PowersOfTwo();
    NatToStringLength(index, 2, BitsPerWord);
  }

  /** Reading eleven-bit groups back with `parseInt(group, 2)`; `None` when the
      length is not a multiple of eleven or a group is not a number. */
  function DecodeIndices(bits: string): Option<seq<int>>
    decreases |bits|
  {
    if |bits| == 0 then Some([])
    else if |bits| < BitsPerWord then None
    else
      match DecodeIndices(bits[..|bits| - BitsPerWord])
      case None => None
      case Some(front) =>
        match ParseInt(bits[|bits| - BitsPerWord..], 2)
        case None => None
        case Some(i) => Some(front + [i])
  }

  /** Decoding one more group extends the decoded indices by that group's value. */
  lemma DecodeOneMore(bits: string, group: string, front: seq<int>, i: int)
    requires |group| == BitsPerWord
    requires DecodeIndices(bits) == Some(front) && ParseInt(group, 2) == Some(i)
    ensures DecodeIndices(bits + group) == Some(front + [i])
  {
    var all := bits + group;
    assert all[..|all| - BitsPerWord] == bits;
    assert all[|all| - BitsPerWord..] == group;
  }

  /** Joined binary-digit strings are binary digits. */
  lemma BinaryJoin(a: string, b: string)
    requires AllDigits(a, 2) && AllDigits(b, 2)
    ensures AllDigits(a + b, 2)
  {
    forall i | 0 <= i < |a + b| ensures IsDigit((a + b)[i], 2) {
      if i < |a| { assert (a + b)[i] == a[i]; } else { assert (a + b)[i] == b[i - |a|]; }
    }
  }

  /** For indices of the wordlist, `indicesToBinary` writes `11·n` bits from
      which the indices read back. */
  lemma {:induction false} IndicesToBinaryRoundTrip(indices: seq<int>)
    requires forall i :: 0 <= i < |indices| ==> 0 <= indices[i] < 2048
    ensures |IndicesToBinary(indices)| == BitsPerWord * |indices|
    ensures AllDigits(IndicesToBinary(indices), 2)
    ensures DecodeIndices(IndicesToBinary(indices)) == Some(indices)
    decreases |indices|
  {
    if |indices| > 0 {
      var front := indices[..|indices| - 1];
      IndicesToBinaryRoundTrip(front);
      AppendIndex(indices);
    }
  }

  lemma SplitLast(s: seq<int>)
    requires |s| > 0
    ensures s[..|s| - 1] + [s[|s| - 1]] == s
  {
  }

  /** Writing one more index keeps the round trip. */
  lemma AppendIndex(indices: seq<int>)
    requires 1 <= |indices| && 0 <= indices[|indices| - 1] < 2048
    requires var front := IndicesToBinary(indices[..|indices| - 1]);
      |front| == BitsPerWord * (|indices| - 1) && AllDigits(front, 2)
      && DecodeIndices(front) == Some(indices[..|indices| - 1])
    ensures |IndicesToBinary(indices)| == BitsPerWord * |indices|
    ensures AllDigits(IndicesToBinary(indices), 2)
    ensures DecodeIndices(IndicesToBinary(indices)) == Some(indices)
  {
    var front := indices[..|indices| - 1];
    var last := indices[|indices| - 1];
    SplitLast(indices);
    assert IndicesToBinary(indices) == IndicesToBinary(front) + IndexBits(last);
    IndexBitsExact(last);
    BinaryJoin(IndicesToBinary(front), IndexBits(last));
    ParseDigits(IndexBits(last), 2);
    DecodeOneMore(IndicesToBinary(front), IndexBits(last), front, last);
  }

  // --------------------------------------------------------------- bitsToBytes

  /** The characters `.` in a regular expression does not match. */
  predicate IsLineTerminator(c: char) {
    c == '\n' || c == '\r' || c as int == 0x2028 || c as int == 0x2029
  }

  /** How many leading characters, at most `max`, are not line terminators. */
  function RunLength(s: string, max: nat): (n: nat)
    ensures n <= max && n <= |s|
    ensures forall i :: 0 <= i < n ==> !IsLineTerminator(s[i])
    ensures n < max && n < |s| ==> IsLineTerminator(s[n])
  {
    if max == 0 || |s| == 0 || IsLineTerminator(s[0]) then 0
    else
      var n := 1 + RunLength(s[1..], max - 1);
      assert forall i :: 1 <= i < n ==> s[i] == s[1..][i - 1];
      n
  }

  /** `s.match(/.{1,8}/g)`: each run between line terminators cut into pieces of
      eight, the last piece of a run shorter. */
  function Chunks(s: string): (chunks: seq<string>)
    ensures |chunks| == 0 <==> forall i :: 0 <= i < |s| ==> IsLineTerminator(s[i])
    decreases |s|
  {
    if |s| == 0 then []
    else if IsLineTerminator(s[0]) then
      var rest := Chunks(s[1..]);
      assert forall i :: 1 <= i < |s| ==> s[i] == s[1..][i - 1];
      rest
    else
      var n := RunLength(s, BitsPerByte);
      [s[..n]] + Chunks(s[n..])
  }

  /** `bitsToBytes`: `parseInt(chunk.padEnd(8, '0'), 2)` for each chunk, `None`
      for `NaN`; when nothing matches, `match` returns `null` and `.map` throws,
      which is the outer `None`. */
  function BitsToBytes(bits: string): (r: Option<seq<Option<int>>>)
    ensures r.None? <==> forall i :: 0 <= i < |bits| ==> IsLineTerminator(bits[i])
  {
    var chunks := Chunks(bits);
    if |chunks| == 0 then None
    else Some(seq(|chunks|, k requires 0 <= k < |chunks| => ParseInt(PadEnd(chunks[k], BitsPerByte, '0'), 2)))
  }

  /** A byte as eight bits. */
  function ByteBits(v: nat): string
    requires v < 256
  {
    PadStart(NatToString(v, 2), BitsPerByte, '0')
  }

  /** Bytes back to a bit string: each byte as eight bits, joined. */
  function BytesToBits(bytes: seq<int>): string
    requires forall k :: 0 <= k < |bytes| ==> 0 <= bytes[k] < 256
  {
    Concat(seq(|bytes|, k requires 0 <= k < |bytes| => ByteBits(bytes[k])))
  }

  /** One piece of a bit string: padded to eight bits, it parses to a byte whose
      eight-bit form is the padded piece. */
  lemma PieceByte(piece: string)
    requires 1 <= |piece| <= BitsPerByte && AllDigits(piece, 2)
    ensures var padded := PadEnd(piece, BitsPerByte, '0');
            && AllDigits(padded, 2)
            && ParseInt(padded, 2) == Some(DigitsValue(padded, 2))
            && DigitsValue(padded, 2) < 256
            && ByteBits(DigitsValue(padded, 2)) == padded
  {
    var padded := PadEnd(piece, BitsPerByte, '0');
    assert AllDigits(padded, 2) by {
      forall i | 0 <= i < |padded| ensures IsDigit(padded[i], 2) {
        if i < |piece| { assert padded[i] == piece[i]; }
      }
    }
    ParseDigits(padded, 2);
    PowersOfTwo();
    DigitsValueBound(padded, 2);
    var v := DigitsValue(padded, 2);
    var s := NatToString(v, 2);
    NatToStringLength(v, 2, BitsPerByte);
    LeadingZeros(BitsPerByte - |s|, s, 2);
    DigitsUnique(ByteBits(v), padded, 2);
  }

  /** `s` padded with zeros to the next multiple of eight. */
  function PaddedToBytes(s: string): string {
    PadEnd(s, BitsPerByte * ((|s| + 7) / 8), '0')
  }

  /** Each piece padded to eight bits. */
  function PadPieces(pieces: seq<string>): (padded: seq<string>)
    ensures |padded| == |pieces|
    ensures forall k :: 0 <= k < |pieces| ==> padded[k] == PadEnd(pieces[k], BitsPerByte, '0')
  {
    seq(|pieces|, k requires 0 <= k < |pieces| => PadEnd(pieces[k], BitsPerByte, '0'))
  }

  lemma JoinPadded(first: string, rest: seq<string>)
    ensures Concat(PadPieces([first] + rest)) == PadEnd(first, BitsPerByte, '0') + Concat(PadPieces(rest))
  {
    assert PadPieces([first] + rest)[1..] == PadPieces(rest);
  }

  /** Both sides of a cut of a bit string are bit strings. */
  lemma BinarySlices(bits: string, n: nat)
    requires n <= |bits| && AllDigits(bits, 2)
    ensures AllDigits(bits[..n], 2) && AllDigits(bits[n..], 2)
  {
    forall i | 0 <= i < |bits| - n ensures IsDigit(bits[n..][i], 2) { assert bits[n..][i] == bits[n + i]; }
    forall i | 0 <= i < n ensures IsDigit(bits[..n][i], 2) { assert bits[..n][i] == bits[i]; }
  }

  /** A bit string has no line terminator, so a run is cut only at eight. */
  lemma BinaryRun(bits: string)
    requires 1 <= |bits| && AllDigits(bits, 2)
    ensures !IsLineTerminator(bits[0])
    ensures RunLength(bits, BitsPerByte) == if |bits| < BitsPerByte then |bits| else BitsPerByte
  {
    assert IsDigit(bits[0], 2);
    var n := RunLength(bits, BitsPerByte);
    assert n < BitsPerByte && n < |bits| ==> IsDigit(bits[n], 2);
  }

  /** A bit string's first piece is its first eight bits, or all of it when
      shorter, and the rest are the pieces of what follows. */
  lemma FirstPiece(bits: string)
    requires 1 <= |bits| && AllDigits(bits, 2)
    ensures var n := if |bits| < BitsPerByte then |bits| else BitsPerByte;
            && Chunks(bits) == [bits[..n]] + Chunks(bits[n..])
            && AllDigits(bits[..n], 2) && AllDigits(bits[n..], 2)
  {
    BinaryRun(bits);
    BinarySlices(bits, if |bits| < BitsPerByte then |bits| else BitsPerByte);
  }

  /** The pieces of a bit string: `ceil(n/8)` of them, each one to eight bits,
      which padded and joined give the string padded to whole bytes. */
  lemma {:induction false} PiecesOfBits(bits: string)
    requires AllDigits(bits, 2)
    ensures var chunks := Chunks(bits);
            && |chunks| == (|bits| + 7) / 8
            && (forall k :: 0 <= k < |chunks| ==> 1 <= |chunks[k]| <= BitsPerByte && AllDigits(chunks[k], 2))
            && Concat(PadPieces(chunks)) == PaddedToBytes(bits)
    decreases |bits|
  {
    if |bits| > 0 {
      FirstPiece(bits);
      var n := if |bits| < BitsPerByte then |bits| else BitsPerByte;
      var rest := bits[n..];
      PiecesOfBits(rest);
      JoinPadded(bits[..n], Chunks(rest));
      if |bits| <= BitsPerByte {
        assert rest == "";
        assert bits[..n] == bits;
      } else {
        PaddingSplits(bits);
      }
    }
  }

  /** Past the first byte, padding the rest is padding the whole. */
  lemma PaddingSplits(bits: string)
    requires |bits| > BitsPerByte
    ensures PaddedToBytes(bits) == PadEnd(bits[..BitsPerByte], BitsPerByte, '0') + PaddedToBytes(bits[BitsPerByte..])
  {
    var rest := bits[BitsPerByte..];
    var w := BitsPerByte * ((|bits| + 7) / 8);
    assert BitsPerByte * ((|rest| + 7) / 8) == w - BitsPerByte;
    assert PaddedToBytes(bits) == bits + Repeat('0', w - |bits|);
    assert PaddedToBytes(rest) == rest + Repeat('0', w - |bits|);
    assert bits == bits[..BitsPerByte] + rest;
  }

  /** The numbers in a sequence of parse results that all succeeded. */
  function Parsed(results: seq<Option<int>>): (values: seq<int>)
    requires forall k :: 0 <= k < |results| ==> results[k].Some?
    ensures |values| == |results| && forall k :: 0 <= k < |results| ==> results[k] == Some(values[k])
  {
    seq(|results|, k requires 0 <= k < |results| => results[k].value)
  }

  /** Each piece of one to eight bits, padded and parsed, is a byte whose eight
      bits are the padded piece. */
  lemma PiecesToBytes(pieces: seq<string>)
    requires forall k :: 0 <= k < |pieces| ==> 1 <= |pieces[k]| <= BitsPerByte && AllDigits(pieces[k], 2)
    ensures var r := seq(|pieces|, k requires 0 <= k < |pieces| => ParseInt(PadEnd(pieces[k], BitsPerByte, '0'), 2));
            && (forall k :: 0 <= k < |r| ==> r[k].Some? && 0 <= r[k].value < 256)
            && BytesToBits(Parsed(r)) == Concat(PadPieces(pieces))
  {
    var r := seq(|pieces|, k requires 0 <= k < |pieces| => ParseInt(PadEnd(pieces[k], BitsPerByte, '0'), 2));
    forall k | 0 <= k < |pieces|
      ensures r[k] == Some(DigitsValue(PadEnd(pieces[k], BitsPerByte, '0'), 2)) && r[k].value < 256
              && ByteBits(r[k].value) == PadEnd(pieces[k], BitsPerByte, '0')
    {
      PieceByte(pieces[k]);
    }
    var bytes := Parsed(r);
    assert seq(|bytes|, k requires 0 <= k < |bytes| => ByteBits(bytes[k])) == PadPieces(pieces);
  }

  /** For a non-empty bit string, `bitsToBytes` gives `ceil(n/8)` bytes, each a
      number in 0..255, whose eight-bit forms joined are the input padded with
      zeros to whole bytes. */
  lemma BitsToBytesRoundTrip(bits: string)
    requires 1 <= |bits| && AllDigits(bits, 2)
    ensures var r := BitsToBytes(bits);
            && r.Some? && |r.value| == (|bits| + 7) / 8
            && (forall k :: 0 <= k < |r.value| ==> r.value[k].Some? && 0 <= r.value[k].value < 256)
            && BytesToBits(Parsed(r.value)) == PaddedToBytes(bits)
  {
    assert !IsLineTerminator(bits[0]) by { assert IsDigit(bits[0], 2); }
    PiecesOfBits(bits);
    PiecesToBytes(Chunks(bits));
  }
}
