/**
 * Bytes, big-endian numbers and byte-string helpers used by the RLP codec
 * and by the frame decoder's size field.
 */
module ByteSeq {

  /** An unsigned 8-bit value, as stored in a C# `byte[]`. */
  type byte = b: int | 0 <= b < 256

  /** `int.MaxValue`: C# array lengths and the RLP content length are `int`s. */
  const IntMax: int := 0x7FFF_FFFF

  /** A C# `byte[]`: its length is an `int`. */
  type ByteArray = s: seq<byte> | |s| <= IntMax

  function Pow256(k: nat): (r: nat)
    ensures r >= 1
  {
    if k == 0 then 1 else 256 * Pow256(k - 1)
  }

  /** The number a big-endian byte string stands for. */
  function BigEndianValue(s: seq<byte>): nat
  {
    if s == [] then 0 else BigEndianValue(s[..|s| - 1]) * 256 + s[|s| - 1]
  }

  lemma {:induction false} Pow256Monotone(i: nat, j: nat)
    requires i <= j
    ensures Pow256(i) <= Pow256(j)
    decreases j
  {
    if i < j {
      Pow256Monotone(i, j - 1);
    }
  }

  /** Big-endian bytes of `n` with no leading zero byte (empty for zero). */
  function MinimalBigEndian(n: nat): seq<byte>
  {
    if n == 0 then [] else MinimalBigEndian(n / 256) + [n % 256]
  }

  /**
   * The low `k` bytes of `n` in big-endian order. For a negative `n` the
   * floor division gives the two's-complement bytes, which is what C#'s
   * arithmetic `>>` followed by a `(byte)` cast yields.
   */
  function FixedBigEndian(n: int, k: nat): seq<byte>
    decreases k
  {
    if k == 0 then [] else FixedBigEndian(n / 256, k - 1) + [n % 256]
  }

  /** Drops the leading zero bytes of `s`. */
  function StripLeadingZeros(s: seq<byte>): (r: seq<byte>)
    ensures |r| <= |s| && r == s[|s| - |r|..]
    ensures r == [] || r[0] != 0
    ensures forall i :: 0 <= i < |s| - |r| ==> s[i] == 0
  {
    if s != [] && s[0] == 0 then StripLeadingZeros(s[1..]) else s
  }

  /** The concatenation, in order, of a sequence of byte strings. */
  function Flatten(parts: seq<seq<byte>>): seq<byte>
  {
    if parts == [] then [] else Flatten(parts[..|parts| - 1]) + parts[|parts| - 1]
  }

  lemma BigEndianValueAppend(s: seq<byte>, b: byte)
    ensures BigEndianValue(s + [b]) == BigEndianValue(s) * 256 + b
  {
    assert (s + [b])[..|s|] == s;
  }

  /** The minimal form denotes `n`, is empty only for zero and never starts with a zero byte. */
  lemma {:induction false} MinimalBigEndianSound(n: nat)
    ensures BigEndianValue(MinimalBigEndian(n)) == n
    ensures MinimalBigEndian(n) == [] <==> n == 0
    ensures MinimalBigEndian(n) != [] ==> MinimalBigEndian(n)[0] != 0
  {
    if n > 0 {
      MinimalBigEndianSound(n / 256);
      BigEndianValueAppend(MinimalBigEndian(n / 256), n % 256);
    }
  }

  /** The minimal form of `n` fits in `k` bytes exactly when `n < 256^k`. */
  lemma {:induction false} MinimalBigEndianLength(n: nat, k: nat)
    ensures |MinimalBigEndian(n)| <= k <==> n < Pow256(k)
  {
    if n > 0 && k > 0 {
      MinimalBigEndianLength(n / 256, k - 1);
      assert n / 256 < Pow256(k - 1) <==> n < 256 * Pow256(k - 1);
    } else if n > 0 {
      assert MinimalBigEndian(n) != [];
    }
  }

  /** A non-negative `long` has at most eight significant bytes. */
  lemma MinimalBigEndianLong(n: nat)
    requires n < 0x8000_0000_0000_0000
    ensures |MinimalBigEndian(n)| <= 8
  {
    MinimalBigEndianLength(n, 8);
    assert Pow256(8) == 0x1_0000_0000_0000_0000 by {
      assert Pow256(4) == 0x1_0000_0000;
    }
  }

  /** Any big-endian string without a leading zero byte is the minimal form of its value. */
  lemma {:induction false} MinimalBigEndianUnique(s: seq<byte>)
    requires s == [] || s[0] != 0
    ensures MinimalBigEndian(BigEndianValue(s)) == s
  {
    if s != [] {
      var init := s[..|s| - 1];
      var v := BigEndianValue(s);
      assert v == BigEndianValue(init) * 256 + s[|s| - 1];
      assert v / 256 == BigEndianValue(init) && v % 256 == s[|s| - 1];
      if init == [] {
        assert v == s[0] && v != 0;
      } else {
        MinimalBigEndianUnique(init);
        assert v != 0 by {
          MinimalBigEndianSound(BigEndianValue(init));
        }
      }
    }
  }

  lemma {:induction false} FixedBigEndianZero(k: nat)
    ensures StripLeadingZeros(FixedBigEndian(0, k)) == []
    ensures |FixedBigEndian(0, k)| == k
  {
    if k > 0 {
      FixedBigEndianZero(k - 1);
      StripAppendAllZeros(FixedBigEndian(0, k - 1), 0);
    }
  }

  lemma {:induction false} FixedBigEndianLength(n: int, k: nat)
    ensures |FixedBigEndian(n, k)| == k
    decreases k
  {
    if k > 0 {
      FixedBigEndianLength(n / 256, k - 1);
    }
  }

  lemma {:induction false} StripAppendAllZeros(s: seq<byte>, b: byte)
    requires StripLeadingZeros(s) == []
    ensures StripLeadingZeros(s + [b]) == if b == 0 then [] else [b]
  {
    if s != [] {
      assert (s + [b])[1..] == s[1..] + [b];
      StripAppendAllZeros(s[1..], b);
    }
  }

  lemma {:induction false} StripAppend(s: seq<byte>, b: byte)
    requires StripLeadingZeros(s) != []
    ensures StripLeadingZeros(s + [b]) == StripLeadingZeros(s) + [b]
  {
    assert (s + [b])[0] == s[0];
    if s[0] == 0 {
      assert (s + [b])[1..] == s[1..] + [b];
      StripAppend(s[1..], b);
    }
  }

  /** Stripping the fixed-width form of a number that fits gives its minimal form. */
  lemma {:induction false} StripFixedBigEndian(n: nat, k: nat)
    requires n < Pow256(k)
    ensures StripLeadingZeros(FixedBigEndian(n, k)) == MinimalBigEndian(n)
  {
    if n == 0 {
      FixedBigEndianZero(k);
    } else {
      assert k > 0;
      StripFixedBigEndian(n / 256, k - 1);
      var s := FixedBigEndian(n / 256, k - 1);
      if n / 256 == 0 {
        assert StripLeadingZeros(s) == [];
        StripAppendAllZeros(s, n % 256);
      } else {
        MinimalBigEndianSound(n / 256);
        StripAppend(s, n % 256);
      }
    }
  }

  /** Stripping the zero prefix `s[..i]` leaves `s[i..]` when `s[i]` is not zero. */
  lemma {:induction false} StripZeroPrefix(s: seq<byte>, i: nat)
    requires i <= |s|
    requires forall j :: 0 <= j < i ==> s[j] == 0
    requires i == |s| || s[i] != 0
    ensures StripLeadingZeros(s) == s[i..]
  {
    if i > 0 {
      StripZeroPrefix(s[1..], i - 1);
      assert s[1..][i - 1..] == s[i..];
    }
  }

  lemma {:induction false} FlattenAppend(parts: seq<seq<byte>>, p: seq<byte>)
    ensures Flatten(parts + [p]) == Flatten(parts) + p
  {
    assert (parts + [p])[..|parts|] == parts;
  }

  lemma {:induction false} FlattenCons(p: seq<byte>, parts: seq<seq<byte>>)
    ensures Flatten([p] + parts) == p + Flatten(parts)
  {
    if parts != [] {
      var init := parts[..|parts| - 1];
      assert ([p] + parts)[..|parts|] == [p] + init;
      FlattenCons(p, init);
    } else {
      assert [p] + parts == [p];
      assert ([p])[..0] == [];
    }
  }
}
