/**
 * The length codec of the RLP encoder: `SerializeLength` writes a length as
 * big-endian bytes without leading zeros, `DeserializeLength` reads up to four
 * big-endian bytes back as a signed 32-bit `int`.
 */
module RlpLength {
  import opened Wrappers
  import opened ByteSeq

  /** The range of a C# `long`. */
  type long = n: int | -0x8000_0000_0000_0000 <= n < 0x8000_0000_0000_0000

  /** `Array.Copy` refuses a negative destination index: more than four length bytes. */
  datatype LengthError = TooManyLengthBytes

  /** Reinterprets an unsigned 32-bit value as a two's-complement `int`. */
  function ToInt32(u: nat): (r: int)
    requires u < 0x1_0000_0000
    ensures -0x8000_0000 <= r <= IntMax
    ensures r < 0 <==> u >= 0x8000_0000
  {
    if u < 0x8000_0000 then u else u - 0x1_0000_0000
  }

  /** The four-byte buffer `padded` with `bytes` copied to its end. */
  function PadLeft4(bytes: seq<byte>): (padded: seq<byte>)
    requires |bytes| <= 4
    ensures |padded| == 4
    decreases 4 - |bytes|
  {
    if |bytes| == 4 then bytes else PadLeft4([0] + bytes)
  }

  /** The padded buffer is `4 - |bytes|` zeros followed by `bytes`. */
  lemma {:induction false} PadLeft4Shape(bytes: seq<byte>)
    requires |bytes| <= 4
    ensures PadLeft4(bytes) == seq(4 - |bytes|, _ => 0) + bytes
    decreases 4 - |bytes|
  {
    if |bytes| < 4 {
      PadLeft4Shape([0] + bytes);
      assert seq(4 - |bytes| - 1, _ => 0) + ([0] + bytes) == seq(4 - |bytes|, _ => 0) + bytes;
    }
  }

  /**
   * Left-pads `bytes` with zeros to four bytes and reads them as a big-endian
   * `int`; more than four bytes make `Array.Copy` throw.
   */
  function DeserializeLength(bytes: seq<byte>): (r: Result<int, LengthError>)
    ensures r.Success? <==> |bytes| <= 4
    ensures r.Success? ==> -0x8000_0000 <= r.value <= IntMax
  {
    if |bytes| > 4 then Failure(TooManyLengthBytes)
    else
      var padded := PadLeft4(bytes);
      Success(ToInt32(padded[0] as int * 0x100_0000 + padded[1] as int * 0x1_0000 + padded[2] as int * 0x100 + padded[3] as int))
  }

  /** Up to four bytes read as the two's-complement view of their big-endian value. */
  lemma DeserializeLengthValue(bytes: seq<byte>)
    requires |bytes| <= 4
    ensures BigEndianValue(bytes) < 0x1_0000_0000
    ensures DeserializeLength(bytes) == Success(ToInt32(BigEndianValue(bytes)))
  {
    PadLeft4Shape(bytes);
    var zeros: seq<byte> := seq(4 - |bytes|, _ => 0);
    LeadingZerosValue(zeros, bytes);
    Word32Value(PadLeft4(bytes));
  }

  /** The value of four big-endian bytes, written out. */
  lemma Word32Value(s: seq<byte>)
    requires |s| == 4
    ensures BigEndianValue(s) == s[0] as int * 0x100_0000 + s[1] as int * 0x1_0000 + s[2] as int * 0x100 + s[3] as int
  {
    assert s[..3][..2] == s[..2] && s[..2][..1] == s[..1] && s[..1][..0] == [];
    assert BigEndianValue(s[..1]) == s[0];
    assert BigEndianValue(s[..2]) == s[0] as int * 0x100 + s[1];
    assert BigEndianValue(s[..3]) == s[0] as int * 0x1_0000 + s[1] as int * 0x100 + s[2];
  }

  /** Leading zero bytes do not change a big-endian value. */
  lemma {:induction false} LeadingZerosValue(zeros: seq<byte>, s: seq<byte>)
    requires forall i :: 0 <= i < |zeros| ==> zeros[i] == 0
    ensures BigEndianValue(zeros + s) == BigEndianValue(s)
    decreases |s|
  {
    if s == [] {
      assert zeros + s == zeros;
      ZerosValue(zeros);
    } else {
      var init := s[..|s| - 1];
      LeadingZerosValue(zeros, init);
      assert (zeros + s)[..|zeros + s| - 1] == zeros + init;
    }
  }

  lemma {:induction false} ZerosValue(zeros: seq<byte>)
    requires forall i :: 0 <= i < |zeros| ==> zeros[i] == 0
    ensures BigEndianValue(zeros) == 0
  {
    if zeros != [] {
      ZerosValue(zeros[..|zeros| - 1]);
    }
  }

  /**
   * More than four bytes fail; fewer than four read as an unsigned number; four
   * bytes with the top bit set read as a negative `int`; every result is an `int`.
   */
  lemma DeserializeLengthRange(bytes: seq<byte>)
    ensures DeserializeLength(bytes).Success? <==> |bytes| <= 4
    ensures |bytes| < 4 ==> DeserializeLength(bytes) == Success(BigEndianValue(bytes))
    ensures |bytes| == 4 && bytes[0] >= 128 ==> DeserializeLength(bytes).Success? && DeserializeLength(bytes).value < 0
    ensures DeserializeLength(bytes).Success? ==> -0x8000_0000 <= DeserializeLength(bytes).value <= IntMax
  {
    if |bytes| < 4 {
      DeserializeLengthValue(bytes);
      BigEndianBound(bytes);
      Pow256Monotone(|bytes|, 3);
      assert Pow256(3) == 0x100_0000;
    } else if |bytes| == 4 {
      assert PadLeft4(bytes) == bytes;
    }
  }

  lemma {:induction false} BigEndianBound(s: seq<byte>)
    ensures BigEndianValue(s) < Pow256(|s|)
    ensures |s| > 0 ==> BigEndianValue(s) >= s[0] * Pow256(|s| - 1)
  {
    if s != [] {
      var init := s[..|s| - 1];
      BigEndianBound(init);
      if |init| > 0 {
        assert init[0] == s[0];
        assert BigEndianValue(s) >= BigEndianValue(init) * 256;
        assert BigEndianValue(init) * 256 >= s[0] * Pow256(|init| - 1) * 256;
      }
    }
  }

  lemma FixedBigEndian8(v: int)
    ensures FixedBigEndian(v, 8) == [
      (v / 0x100_0000_0000_0000) % 256, (v / 0x1_0000_0000_0000) % 256,
      (v / 0x100_0000_0000) % 256, (v / 0x1_0000_0000) % 256,
      (v / 0x100_0000) % 256, (v / 0x1_0000) % 256,
      (v / 0x100) % 256, v % 256]
  {
    var d1 := v / 256;
    var d2 := d1 / 256;
    var d3 := d2 / 256;
    var d4 := d3 / 256;
    var d5 := d4 / 256;
    var d6 := d5 / 256;
    var d7 := d6 / 256;
    assert d2 == v / 0x1_0000;
    assert d3 == v / 0x100_0000;
    assert d4 == v / 0x1_0000_0000;
    assert d5 == v / 0x100_0000_0000;
    assert d6 == v / 0x1_0000_0000_0000;
    assert d7 == v / 0x100_0000_0000_0000;
    assert FixedBigEndian(d7, 1) == [d7 % 256];
    assert FixedBigEndian(d6, 2) == [d7 % 256, d6 % 256];
    assert FixedBigEndian(d5, 3) == [d7 % 256, d6 % 256, d5 % 256];
    assert FixedBigEndian(d4, 4) == [d7 % 256, d6 % 256, d5 % 256, d4 % 256];
    assert FixedBigEndian(d3, 5) == [d7 % 256, d6 % 256, d5 % 256, d4 % 256, d3 % 256];
    assert FixedBigEndian(d2, 6) == [d7 % 256, d6 % 256, d5 % 256, d4 % 256, d3 % 256, d2 % 256];
    assert FixedBigEndian(d1, 7) == [d7 % 256, d6 % 256, d5 % 256, d4 % 256, d3 % 256, d2 % 256, d1 % 256];
  }

  /**
   * Writes the eight bytes of `value` (arithmetic shifts and `(byte)` casts),
   * counts the leading zero bytes and returns the rest.
   */
  method SerializeLength(value: long) returns (result: seq<byte>)
    ensures result == StripLeadingZeros(FixedBigEndian(value, 8))
    ensures value >= 0 ==> result == MinimalBigEndian(value)
    ensures |result| <= 8
  {
    var bytes := new byte[8];
    bytes[0] := (value / 0x100_0000_0000_0000) % 256;
    bytes[1] := (value / 0x1_0000_0000_0000) % 256;
    bytes[2] := (value / 0x100_0000_0000) % 256;
    bytes[3] := (value / 0x1_0000_0000) % 256;
    bytes[4] := (value / 0x100_0000) % 256;
    bytes[5] := (value / 0x1_0000) % 256;
    bytes[6] := (value / 0x100) % 256;
    bytes[7] := value % 256;
    FixedBigEndian8(value);
    assert bytes[..] == FixedBigEndian(value, 8);

    var resultLength := 8;
    var i := 0;
    while i < 8
      invariant 0 <= i <= 8
      invariant resultLength == 8 - i
      invariant forall j :: 0 <= j < i ==> bytes[j] == 0
    {
      if bytes[i] == 0 {
        resultLength := resultLength - 1;
      } else {
        break;
      }
      i := i + 1;
    }

    StripZeroPrefix(bytes[..], 8 - resultLength);
    result := bytes[8 - resultLength..];
    if value >= 0 {
      StripFixedBigEndian8(value);
    }
  }

  /** For a non-negative `long`, stripping its eight bytes gives its minimal big-endian form. */
  lemma StripFixedBigEndian8(value: long)
    requires value >= 0
    ensures StripLeadingZeros(FixedBigEndian(value, 8)) == MinimalBigEndian(value)
  {
    assert Pow256(8) == 0x1_0000_0000_0000_0000;
    StripFixedBigEndian(value, 8);
  }

  /** `DeserializeLength` reads back every non-negative `int` that `SerializeLength` wrote. */
  lemma LengthRoundTrip(n: nat)
    requires n <= IntMax
    ensures DeserializeLength(MinimalBigEndian(n)) == Success(n)
  {
    assert Pow256(4) == 0x1_0000_0000;
    MinimalBigEndianLength(n, 4);
    MinimalBigEndianSound(n);
    DeserializeLengthValue(MinimalBigEndian(n));
  }
}
