/**
 * What the decoder rejects, stated for every input: the canonical-form checks
 * of `Decode`, reads past the end, and bytes after the top-level item. Two
 * non-canonical inputs still get through: a child that runs past the end of
 * its list, and a long-form length with leading zero bytes. `ParseCanonical`
 * adds the check that closes both: the decoded value must encode back to the
 * input.
 */
module RlpRejection {
  import opened Wrappers
  import opened ByteSeq
  import opened RlpLength
  import opened RlpDecoding
  import opened RlpEncoding
  import opened RlpRoundTrip

  /** The one-byte string 129 b with b below 128: the byte is its own encoding. */
  lemma NonCanonicalSingleByteRejected(data: seq<byte>, pos: nat)
    requires pos + 1 < |data| && data[pos] == 129 && data[pos + 1] < 128
    ensures ParseItem(data, pos) == Failure(NonCanonicalSingleByte)
  {
  }

  /** Prefixes 188..191 and 252..255 announce more than four length bytes. */
  lemma LengthOfLengthAbove4Rejected(data: seq<byte>, pos: nat)
    requires pos < |data| && (188 <= data[pos] < 192 || 252 <= data[pos])
    ensures ParseItem(data, pos) == Failure(LengthOfLengthAbove4)
  {
  }

  /**
   * A long-form string (184..187) or list (248..251) whose length bytes are
   * all present but read as less than 56, negative readings included.
   */
  lemma {:induction false} LengthBelow56Rejected(data: seq<byte>, pos: nat)
    requires pos < |data|
    requires 184 <= data[pos] < 188 || 248 <= data[pos] < 252
    requires var k := if data[pos] < 192 then data[pos] - 183 else data[pos] - 247;
             pos + 1 + k <= |data| && DeserializeLength(data[pos + 1..pos + 1 + k]).value < 56
    ensures ParseItem(data, pos) == Failure(LengthBelow56)
  {
  }

  /** Four length bytes with the top bit set read as a negative `int`, which is below 56. */
  lemma {:induction false} NegativeLengthRejected(data: seq<byte>, pos: nat)
    requires pos + 5 <= |data| && (data[pos] == 187 || data[pos] == 251) && data[pos + 1] >= 128
    ensures ParseItem(data, pos) == Failure(LengthBelow56)
  {
    var lengthBytes := data[pos + 1..pos + 5];
    DeserializeLengthRange(lengthBytes);
    LengthBelow56Rejected(data, pos);
  }

  /** Reading at the end of the buffer, or a short string longer than what is left. */
  lemma OutOfRangeRejected(data: seq<byte>, pos: nat)
    requires pos <= |data|
    requires pos == |data| || (129 <= data[pos] < 184 && pos + 1 + (data[pos] - 128) > |data|)
    ensures ParseItem(data, pos) == Failure(OutOfRange)
  {
  }

  /** A long string whose announced length runs past the end of the buffer. */
  lemma {:induction false} LongStringOutOfRange(data: seq<byte>, pos: nat)
    requires pos < |data| && 184 <= data[pos] < 188
    requires var k := data[pos] - 183;
             pos + 1 + k <= |data| && var length := DeserializeLength(data[pos + 1..pos + 1 + k]).value;
             length >= 56 && pos + 1 + k + length > |data|
    ensures ParseItem(data, pos) == Failure(OutOfRange)
  {
  }

  /** An item that does not end at the end of the buffer is rejected at the top level. */
  lemma TrailingBytesRejected(data: seq<byte>)
    requires 0 < |data| && ParseItem(data, 0).Success? && ParseItem(data, 0).value.next != |data|
    ensures Parse(data) == Failure(TrailingBytes)
  {
  }

  /** Every encoding followed by further bytes is rejected for its trailing bytes. */
  lemma {:induction false} EncodingWithTrailingBytes(x: Item, e: seq<byte>, extra: seq<byte>)
    requires EncodeItem(x) == Success(e) && extra != []
    ensures Parse(e + extra) == Failure(TrailingBytes)
  {
    AtSelf(e + extra);
    AtSplit(e + extra, 0, e, extra);
    ParseEncodedItem(x, e, e + extra, 0);
  }

  /** Every proper prefix of an encoding is rejected: some read runs past its end. */
  lemma {:induction false} TruncatedEncodingRejected(x: Item, e: seq<byte>, n: nat)
    requires EncodeItem(x) == Success(e) && n < |e|
    ensures Parse(e[..n]).Failure?
  {
    if Parse(e[..n]).Success? {
      var y := Parse(e[..n]).value;
      var data := e[..n] + e[n..];
      assert data == e;
      AtSelf(data);
      AtSplit(data, 0, e[..n], e[n..]);
      ParsePrefixStable(e[..n], data, 0);
      ParseEncodedItem(x, e, data, 0);
    }
  }

  /**
   * A top-level item read from a buffer is read the same from any longer
   * buffer that starts with it.
   */
  lemma {:induction false} ParsePrefixStable(prefix: seq<byte>, data: seq<byte>, pos: nat)
    requires pos <= |prefix| && At(data, 0, prefix) && ParseItem(prefix, pos).Success?
    ensures ParseItem(data, pos) == ParseItem(prefix, pos)
    decreases |prefix| - pos, 0
  {
    AtWindow(data, 0, prefix);
    var prefixByte := prefix[pos];
    assert data[pos] == prefixByte;
    if 128 < prefixByte < 192 {
      StringPrefixStable(prefix, data, pos + 1, prefixByte);
    } else if 192 <= prefixByte {
      var length := ParseListLength(prefix, pos + 1, prefixByte);
      ListLengthPrefixStable(prefix, data, pos + 1, prefixByte);
      ChildrenPrefixStable(prefix, data, length.value.next, length.value.next + length.value.value);
    }
  }

  /** A window inside `prefix` is the same window of a buffer that starts with `prefix`. */
  lemma {:induction false} PrefixWindow(prefix: seq<byte>, data: seq<byte>, i: nat, j: nat)
    requires i <= j <= |prefix| <= |data| && data[..|prefix|] == prefix
    ensures data[i..j] == prefix[i..j]
  {
    assert forall k :: 0 <= k < j - i ==> data[i..j][k] == data[..|prefix|][i + k];
  }

  lemma {:induction false} StringPrefixStable(prefix: seq<byte>, data: seq<byte>, p: nat, prefixByte: byte)
    requires 128 < prefixByte < 192 && p <= |prefix| <= |data| && data[..|prefix|] == prefix
    requires ParseString(prefix, p, prefixByte).Success?
    ensures ParseString(data, p, prefixByte) == ParseString(prefix, p, prefixByte)
  {
    if prefixByte <= 183 {
      var length := prefixByte - 128;
      PrefixWindow(prefix, data, p, p + length);
    } else {
      var k := prefixByte - 183;
      PrefixWindow(prefix, data, p, p + k);
      var length := DeserializeLength(prefix[p..p + k]).value;
      PrefixWindow(prefix, data, p + k, p + k + length);
    }
  }

  lemma {:induction false} ListLengthPrefixStable(prefix: seq<byte>, data: seq<byte>, p: nat, prefixByte: byte)
    requires 192 <= prefixByte && p <= |prefix| <= |data| && data[..|prefix|] == prefix
    requires ParseListLength(prefix, p, prefixByte).Success?
    ensures ParseListLength(data, p, prefixByte) == ParseListLength(prefix, p, prefixByte)
  {
    if prefixByte > 247 {
      var k := prefixByte - 247;
      PrefixWindow(prefix, data, p, p + k);
    }
  }

  lemma {:induction false} ChildrenPrefixStable(prefix: seq<byte>, data: seq<byte>, pos: nat, end: int)
    requires pos <= |prefix| && At(data, 0, prefix) && ParseChildren(prefix, pos, end).Success?
    ensures ParseChildren(data, pos, end) == ParseChildren(prefix, pos, end)
    decreases |prefix| - pos, 1
  {
    if pos < end {
      var first := ParseItem(prefix, pos);
      ParsePrefixStable(prefix, data, pos);
      ChildrenPrefixStable(prefix, data, first.value.next, end);
    }
  }

  /*
   * Inputs the decoder accepts although they are not the encoding of what it
   * returns.
   */

  /** The list 197 declares five bytes of content, but its child runs to the seventh byte. */
  const Overrun: seq<byte> := [197, 133, 1, 2, 3, 4, 5]

  /** The shortest string that takes a long-form length: 56 zero bytes. */
  const Zeros56: seq<byte> := seq(56, _ => 0)

  /** `Zeros56` with its length written with a leading zero byte: 185 0 56. */
  const PaddedLength: seq<byte> := [185, 0, 56] + Zeros56

  /** `Decode` reads past the end of a list when its last child is longer than the list. */
  lemma OverrunAccepted()
    ensures Parse(Overrun) == Success(List([Bytes([1, 2, 3, 4, 5])]))
  {
    assert Overrun[2..7] == [1, 2, 3, 4, 5];
    assert ParseItem(Overrun, 1) == Success(Parsed(Bytes([1, 2, 3, 4, 5]), 7));
    assert ParseChildren(Overrun, 7, 6) == Success(Parsed([], 7));
    assert [Bytes([1, 2, 3, 4, 5])] + [] == [Bytes([1, 2, 3, 4, 5])];
    assert ParseChildren(Overrun, 1, 6) == Success(Parsed([Bytes([1, 2, 3, 4, 5])], 7));
  }

  /** `Decode` accepts long-form length bytes that start with zero. */
  lemma {:induction false} PaddedLengthAccepted()
    ensures Parse(PaddedLength) == Success(Bytes(Zeros56))
  {
    var lengthBytes := PaddedLength[1..3];
    assert lengthBytes == [0, 56];
    DeserializeLengthRange(lengthBytes);
    assert BigEndianValue(lengthBytes[..1]) == 0 by {
      assert lengthBytes[..1][..0] == [];
    }
    assert DeserializeLength(lengthBytes) == Success(56);
    assert PaddedLength[3..59] == Zeros56;
  }

  /** Neither input is what the encoder produces for the value decoded from it. */
  lemma {:induction false} AcceptedInputsAreNotEncodings()
    ensures EncodeItem(List([Bytes([1, 2, 3, 4, 5])])) != Success(Overrun)
    ensures EncodeItem(Bytes(Zeros56)) != Success(PaddedLength)
  {
    ShortListLayout(List([Bytes([1, 2, 3, 4, 5])]));
    MinimalBigEndianLength(56, 1);
    assert Pow256(1) == 256 by {
      assert Pow256(0) == 1;
    }
    assert |EncodeBytes(Zeros56)| <= 58 < |PaddedLength|;
  }

  /** A list encoding shorter than 57 bytes starts with 192 plus its content length. */
  lemma {:induction false} ShortListLayout(x: Item)
    requires x.List?
    ensures EncodeItem(x).Success? && |EncodeItem(x).value| < 57 ==>
              EncodeItem(x).value[0] as int == 191 + |EncodeItem(x).value|
  {
    if EncodeItem(x).Success? {
      var content := EncodeChildren(x.items).value;
      if |content| < 56 {
        assert EncodeItem(x).value == [192 + |content|] + content;
      }
    }
  }

  /** Why a canonical decode failed. */
  datatype CanonicalError = Malformed(error: DecodeError) | NotCanonical

  /**
   * `Decode` followed by the check it leaves out: the buffer must be exactly
   * the encoding of the decoded value.
   */
  function ParseCanonical(data: seq<byte>): (r: Result<Item, CanonicalError>)
    ensures r.Success? ==> Parse(data) == Success(r.value) && EncodeItem(r.value) == Success(data)
    ensures Parse(data).Failure? ==> r == Failure(Malformed(Parse(data).error))
  {
    match Parse(data)
    case Failure(e) => Failure(Malformed(e))
    case Success(x) => if EncodeItem(x) == Success(data) then Success(x) else Failure(NotCanonical)
  }

  /** Every encoding is decoded canonically back to its value. */
  lemma {:induction false} CanonicalRoundTrip(x: Item, e: seq<byte>)
    requires EncodeItem(x) == Success(e)
    ensures ParseCanonical(e) == Success(x)
  {
    ItemRoundTrip(x, e);
  }

  /** Canonical decoding is one-to-one: each value has exactly one accepted buffer. */
  lemma CanonicalUnique(d1: seq<byte>, d2: seq<byte>)
    requires ParseCanonical(d1).Success? && ParseCanonical(d2).Success?
    ensures ParseCanonical(d1) == ParseCanonical(d2) <==> d1 == d2
  {
  }

  /** Canonical decoding rejects both inputs that `Decode` lets through. */
  lemma {:induction false} CanonicalRejectsAccepted()
    ensures ParseCanonical(Overrun) == Failure(NotCanonical)
    ensures ParseCanonical(PaddedLength) == Failure(NotCanonical)
  {
    OverrunAccepted();
    PaddedLengthAccepted();
    AcceptedInputsAreNotEncodings();
  }
}
