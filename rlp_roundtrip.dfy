/**
 * What the decoder and the encoders promise together: every encoding of a
 * byte array or of a nested `object[]`, found anywhere in a buffer, is read
 * back as that value and ends where the encoding ends. What the decoder
 * rejects is stated in `RlpRejection`.
 */
module RlpRoundTrip {
  import opened Wrappers
  import opened ByteSeq
  import opened RlpLength
  import opened RlpDecoding
  import opened RlpEncoding

  /** The value `Decode` returns, handed back to `Encode(object)`: `byte[]` or `object[]`. */
  function ToValue(x: Item): (v: Value)
    ensures x.Bytes? ==> v == ByteArrayValue(x.bytes)
    ensures x.List? ==> v.Objects? && |v.objects| == |x.items|
  {
    match x
    case Bytes(b) => ByteArrayValue(b)
    case List(xs) => Objects(seq(|xs|, i requires 0 <= i < |xs| => ToValue(xs[i])))
  }

  /** `Encode(object)` restricted to the values `Decode` returns: `byte[]` and nested `object[]`. */
  function EncodeItem(x: Item): Result<seq<byte>, EncodeError>
    decreases x
  {
    match x
    case Bytes(b) => Success(EncodeBytes(b))
    case List(xs) =>
      match EncodeChildren(xs)
      case Failure(e) => Failure(e)
      case Success(content) =>
        if |content| > IntMax then Failure(Overflow) else Success(ListPrefix(|content|) + content)
  }

  /** The concatenated encodings of `xs`, or the first child's failure. */
  function EncodeChildren(xs: seq<Item>): Result<seq<byte>, EncodeError>
    decreases xs
  {
    if xs == [] then Success([])
    else
      match EncodeItem(xs[0])
      case Failure(e) => Failure(e)
      case Success(first) =>
        match EncodeChildren(xs[1..])
        case Failure(e) => Failure(e)
        case Success(rest) => Success(first + rest)
  }

  /** Encoding the children one by one and concatenating is what `Collect` and `Flatten` do. */
  lemma {:induction false} CollectChildren(xs: seq<Item>, results: seq<Result<seq<byte>, EncodeError>>)
    requires |results| == |xs| && forall i :: 0 <= i < |xs| ==> results[i] == EncodeItem(xs[i])
    ensures match Collect(results)
            case Failure(e) => EncodeChildren(xs) == Failure(e)
            case Success(children) => EncodeChildren(xs) == Success(Flatten(children))
    decreases xs
  {
    if xs != [] {
      CollectChildren(xs[1..], results[1..]);
      if results[0].Success? && Collect(results[1..]).Success? {
        FlattenCons(results[0].value, Collect(results[1..]).value);
      }
    }
  }

  /** `EncodeItem` is `Encode(object)` on the value `ToValue` hands it. */
  lemma {:induction false} EncodeItemIsEncodeValue(x: Item)
    ensures EncodeValue(ToValue(x)) == EncodeItem(x)
    decreases x
  {
    match x
    case Bytes(b) =>
    case List(xs) =>
      var objects := ToValue(x).objects;
      var results := seq(|objects|, i requires 0 <= i < |objects| => EncodeValue(objects[i]));
      forall i | 0 <= i < |xs|
        ensures results[i] == EncodeItem(xs[i])
      {
        EncodeItemIsEncodeValue(xs[i]);
      }
      CollectChildren(xs, results);
  }

  /** A window into the encoding found at `pos` is the same window of `data`. */
  lemma {:induction false} Window(data: seq<byte>, pos: nat, e: seq<byte>, i: nat, j: nat)
    requires pos + |e| <= |data| && data[pos..pos + |e|] == e && i <= j <= |e|
    ensures data[pos + i..pos + j] == e[i..j]
  {
    var window, whole := data[pos + i..pos + j], data[pos..pos + |e|];
    assert forall k :: 0 <= k < |window| ==> window[k] == whole[i + k];
  }

  /** The encoding `a + b` found at `pos` is `a` at `pos` followed by `b`. */
  lemma {:induction false} SplitWindow(data: seq<byte>, pos: nat, a: seq<byte>, b: seq<byte>)
    requires pos + |a| + |b| <= |data| && data[pos..pos + |a| + |b|] == a + b
    ensures data[pos..pos + |a|] == a && data[pos + |a|..pos + |a| + |b|] == b
  {
    Window(data, pos, a + b, 0, |a|);
    Window(data, pos, a + b, |a|, |a| + |b|);
    assert (a + b)[0..|a|] == a && (a + b)[|a|..|a| + |b|] == b;
  }

  lemma {:induction false} HeadWindow(data: seq<byte>, pos: nat, a: seq<byte>)
    requires 0 < |a| && pos + |a| <= |data| && data[pos..pos + |a|] == a
    ensures data[pos] == a[0]
  {
    assert data[pos..pos + |a|][0] == data[pos];
  }

  /** `e` is found at `pos` in `data`, byte by byte. */
  ghost predicate At(data: seq<byte>, pos: nat, e: seq<byte>)
  {
    pos + |e| <= |data| && forall i :: 0 <= i < |e| ==> data[pos + i] == e[i]
  }

  /** `At` is the window of `data` being `e`. */
  lemma {:induction false} AtWindow(data: seq<byte>, pos: nat, e: seq<byte>)
    requires At(data, pos, e)
    ensures data[pos..pos + |e|] == e
  {
    assert forall i :: 0 <= i < |e| ==> data[pos..pos + |e|][i] == e[i];
  }

  /** `a + b` found at `pos` is `a` at `pos` followed by `b`. */
  lemma {:induction false} AtSplit(data: seq<byte>, pos: nat, a: seq<byte>, b: seq<byte>)
    requires At(data, pos, a + b)
    ensures At(data, pos, a) && At(data, pos + |a|, b)
  {
    forall i | 0 <= i < |a|
      ensures data[pos + i] == a[i]
    {
      assert (a + b)[i] == a[i];
    }
    forall i | 0 <= i < |b|
      ensures data[pos + |a| + i] == b[i]
    {
      assert data[pos + (|a| + i)] == (a + b)[|a| + i];
    }
  }

  /** Every sequence is found at 0 in itself. */
  lemma {:induction false} AtSelf(e: seq<byte>)
    ensures At(e, 0, e)
  {
    assert forall i :: 0 <= i < |e| ==> e[0 + i] == e[i];
  }

  /*
   * Each lemma below that concludes something about `ParseItem` or
   * `ParseChildren` takes the positions it speaks of (`start`, `next`, `end`)
   * as parameters tied to the encoding by a precondition, so that callers
   * state those terms with exactly the arguments of their own goals. The
   * byte layout of a prefix is read by separate header lemmas, which conclude
   * a fact about `ParseString` or `ParseListLength` alone.
   */

  /** `ParseItem` at a prefix in 129..191: the string after it. */
  lemma {:induction false} ParseItemAtString(data: seq<byte>, pos: nat)
    requires pos < |data| && 128 < data[pos] < 192
    ensures ParseItem(data, pos) == ParseString(data, pos + 1, data[pos])
  {
  }

  /** `ParseItem` at a list prefix: the header, then the children up to the declared end. */
  lemma {:induction false} ParseItemAtList(data: seq<byte>, pos: nat, length: int, start: nat, end: int)
    requires pos < |data| && data[pos] >= 192 && end == start + length
    requires ParseListLength(data, pos + 1, data[pos]) == Success(Parsed(length, start))
    ensures start <= |data|
    ensures ParseItem(data, pos) == match ParseChildren(data, start, end)
                                    case Failure(e) => Failure(e)
                                    case Success(Parsed(items, next)) => Success(Parsed(List(items), next))
  {
  }

  /** `ParseString` after a short-string prefix: 1..55 bytes, not a single byte below 128. */
  lemma {:induction false} ParseStringShort(b: ByteArray, data: seq<byte>, p: nat, next: nat)
    requires 0 < |b| < 56 && !(|b| == 1 && b[0] < 128)
    requires At(data, p, b) && next == p + |b|
    ensures ParseString(data, p, 128 + |b|) == Success(Parsed(Bytes(b), next))
  {
    AtWindow(data, p, b);
    if |b| == 1 {
      HeadWindow(data, p, b);
    }
  }

  /** `ParseString` after a long-string prefix, its length bytes from `p` to `q` and `n` bytes of content. */
  lemma {:induction false} ParseStringLong(data: seq<byte>, p: nat, prefix: byte, lengthBytes: seq<byte>, n: int, q: nat, next: nat)
    requires 0 < |lengthBytes| <= 4 && prefix == 183 + |lengthBytes| && q == p + |lengthBytes|
    requires DeserializeLength(lengthBytes) == Success(n) && 56 <= n && next == q + n && next <= |data|
    requires data[p..q] == lengthBytes
    ensures ParseString(data, p, prefix) == Success(Parsed(Bytes(data[q..next]), next))
  {
  }

  /** The header of a string of 1..55 bytes: its one-byte prefix, then the string. */
  lemma {:induction false} ShortStringAt(b: ByteArray, data: seq<byte>, pos: nat, next: nat)
    requires 0 < |b| < 56 && !(|b| == 1 && b[0] < 128)
    requires At(data, pos, StringPrefix(|b|) + b) && next == pos + |StringPrefix(|b|)| + |b|
    ensures pos < |data| && 128 < data[pos] < 192
    ensures ParseString(data, pos + 1, data[pos]) == Success(Parsed(Bytes(b), next))
  {
    AtSplit(data, pos, StringPrefix(|b|), b);
    assert data[pos + 0] == StringPrefix(|b|)[0];
    ParseStringShort(b, data, pos + |StringPrefix(|b|)|, next);
  }

  /** The header of a string of 56 bytes or more: its prefix and length bytes, then the string. */
  lemma {:induction false} LongStringAt(b: ByteArray, data: seq<byte>, pos: nat, next: nat)
    requires 56 <= |b| && At(data, pos, StringPrefix(|b|) + b) && next == pos + |StringPrefix(|b|)| + |b|
    ensures pos < |data| && 128 < data[pos] < 192
    ensures ParseString(data, pos + 1, data[pos]) == Success(Parsed(Bytes(b), next))
  {
    AtWindow(data, pos, StringPrefix(|b|) + b);
    SplitWindow(data, pos, StringPrefix(|b|), b);
    var serializedLength := MinimalBigEndian(|b|);
    MinimalBigEndianLength(|b|, 4);
    assert StringPrefix(|b|) == [183 + |serializedLength|] + serializedLength;
    SplitWindow(data, pos, [183 + |serializedLength|], serializedLength);
    HeadWindow(data, pos, [183 + |serializedLength|]);
    LengthRoundTrip(|b|);
    ParseStringLong(data, pos + 1, data[pos], serializedLength, |b|, pos + 1 + |serializedLength|, next);
  }

  /** A string other than a single byte below 128, after its `StringPrefix`. */
  lemma {:induction false} ParsePrefixedString(b: ByteArray, data: seq<byte>, pos: nat, next: nat)
    requires 0 < |b| && !(|b| == 1 && b[0] < 128)
    requires At(data, pos, StringPrefix(|b|) + b) && next == pos + |StringPrefix(|b|)| + |b|
    ensures ParseItem(data, pos) == Success(Parsed(Bytes(b), next))
  {
    if |b| < 56 {
      ShortStringAt(b, data, pos, next);
    } else {
      LongStringAt(b, data, pos, next);
    }
    ParseItemAtString(data, pos);
  }

  /** A prefix below 128 is a byte array holding that byte alone. */
  lemma {:induction false} ParseLiteralByte(b: ByteArray, data: seq<byte>, pos: nat, next: nat)
    requires |b| == 1 && b[0] < 128 && At(data, pos, b) && next == pos + 1
    ensures ParseItem(data, pos) == Success(Parsed(Bytes(b), next))
  {
    assert data[pos + 0] == b[0];
    assert b == [data[pos]];
  }

  /** The prefix 128 is the empty byte array. */
  lemma {:induction false} ParseEmptyString(data: seq<byte>, pos: nat, next: nat)
    requires At(data, pos, [128]) && next == pos + 1
    ensures ParseItem(data, pos) == Success(Parsed(Bytes([]), next))
  {
    assert data[pos + 0] == [128][0];
  }

  /** The encoding of a byte array, found at `pos` in `data`, is read back as that byte array. */
  lemma {:induction false} ParseEncodedBytes(b: ByteArray, data: seq<byte>, pos: nat, next: nat)
    requires At(data, pos, EncodeBytes(b)) && next == pos + |EncodeBytes(b)|
    ensures ParseItem(data, pos) == Success(Parsed(Bytes(b), next))
  {
    if |b| == 0 {
      ParseEmptyString(data, pos, next);
    } else if |b| == 1 && b[0] < 128 {
      assert EncodeBytes(b) == b;
      ParseLiteralByte(b, data, pos, next);
    } else {
      ParsePrefixedString(b, data, pos, next);
    }
  }

  /** `Decode(Encode(byte[]))` gives the array back. */
  lemma {:induction false} BytesRoundTrip(b: ByteArray)
    ensures Parse(EncodeBytes(b)) == Success(Bytes(b))
  {
    AtSelf(EncodeBytes(b));
    ParseEncodedBytes(b, EncodeBytes(b), 0, |EncodeBytes(b)|);
  }

  /** `ParseListLength` after a long-list prefix and length bytes from `p` to `start` that read back as `n`. */
  lemma {:induction false} ListLengthLong(data: seq<byte>, p: nat, prefix: byte, lengthBytes: seq<byte>, n: int, start: nat)
    requires 0 < |lengthBytes| <= 4 && prefix == 247 + |lengthBytes| && start == p + |lengthBytes| && start <= |data|
    requires DeserializeLength(lengthBytes) == Success(n) && 56 <= n && data[p..start] == lengthBytes
    ensures ParseListLength(data, p, prefix) == Success(Parsed(n, start))
  {
  }

  /** The header of a list whose content is 56 bytes or more. */
  lemma {:induction false} LongListAt(n: nat, data: seq<byte>, pos: nat, start: nat)
    requires 56 <= n <= IntMax && start == pos + |ListPrefix(n)| && start <= |data|
    requires data[pos..start] == ListPrefix(n)
    ensures pos < |data| && 192 <= data[pos]
    ensures ParseListLength(data, pos + 1, data[pos]) == Success(Parsed(n as int, start))
  {
    var serializedLength := MinimalBigEndian(n);
    MinimalBigEndianLength(n, 4);
    assert ListPrefix(n) == [247 + |serializedLength|] + serializedLength;
    SplitWindow(data, pos, [247 + |serializedLength|], serializedLength);
    HeadWindow(data, pos, [247 + |serializedLength|]);
    LengthRoundTrip(n);
    ListLengthLong(data, pos + 1, data[pos], serializedLength, n, start);
  }

  /** The header of a list whose content is `n` bytes: `ParseListLength` reads `n` and where the content starts. */
  lemma {:induction false} ListAt(n: nat, data: seq<byte>, pos: nat, start: nat)
    requires n <= IntMax && At(data, pos, ListPrefix(n)) && start == pos + |ListPrefix(n)|
    ensures pos < |data| && 192 <= data[pos]
    ensures ParseListLength(data, pos + 1, data[pos]) == Success(Parsed(n as int, start))
  {
    AtWindow(data, pos, ListPrefix(n));
    if n < 56 {
      HeadWindow(data, pos, ListPrefix(n));
    } else {
      LongListAt(n, data, pos, start);
    }
  }

  /** A successful list encoding is the list prefix followed by the children's encodings. */
  lemma {:induction false} EncodeListParts(xs: seq<Item>, e: seq<byte>)
    requires EncodeItem(List(xs)) == Success(e)
    ensures EncodeChildren(xs).Success? && |EncodeChildren(xs).value| <= IntMax
    ensures e == ListPrefix(|EncodeChildren(xs).value|) + EncodeChildren(xs).value
  {
  }

  /** A successful `EncodeChildren` is the first child's encoding followed by the rest's. */
  lemma {:induction false} EncodeChildrenCons(xs: seq<Item>)
    requires xs != [] && EncodeChildren(xs).Success?
    ensures EncodeItem(xs[0]).Success? && EncodeChildren(xs[1..]).Success?
    ensures EncodeChildren(xs).value == EncodeItem(xs[0]).value + EncodeChildren(xs[1..]).value
  {
  }

  /** A successful list encoding found at `pos`: its content, the children's encodings, ends where it ends. */
  lemma {:induction false} ListParts(xs: seq<Item>, e: seq<byte>, data: seq<byte>, pos: nat)
    requires EncodeItem(List(xs)) == Success(e) && At(data, pos, e)
    ensures EncodeChildren(xs) == Success(EncodeChildren(xs).value)
    ensures |EncodeChildren(xs).value| <= IntMax && |EncodeChildren(xs).value| <= |e|
    ensures e == ListPrefix(|EncodeChildren(xs).value|) + EncodeChildren(xs).value
    ensures At(data, pos + |e| - |EncodeChildren(xs).value|, EncodeChildren(xs).value)
    ensures pos + |e| == pos + |e| - |EncodeChildren(xs).value| + |EncodeChildren(xs).value|
  {
    EncodeListParts(xs, e);
    AtSplit(data, pos, ListPrefix(|EncodeChildren(xs).value|), EncodeChildren(xs).value);
  }

  /** Successful encodings of a non-empty sequence found at `pos`: the first child's, then the rest's. */
  lemma {:induction false} ChildrenParts(xs: seq<Item>, c: seq<byte>, data: seq<byte>, pos: nat, end: nat)
    requires xs != [] && EncodeChildren(xs) == Success(c) && At(data, pos, c) && end == pos + |c|
    ensures EncodeItem(xs[0]) == Success(EncodeItem(xs[0]).value)
    ensures EncodeChildren(xs[1..]) == Success(EncodeChildren(xs[1..]).value)
    ensures At(data, pos, EncodeItem(xs[0]).value)
    ensures At(data, pos + |EncodeItem(xs[0]).value|, EncodeChildren(xs[1..]).value)
    ensures end == pos + |EncodeItem(xs[0]).value| + |EncodeChildren(xs[1..]).value|
    ensures pos + |EncodeItem(xs[0]).value| <= end
  {
    EncodeChildrenCons(xs);
    AtSplit(data, pos, EncodeItem(xs[0]).value, EncodeChildren(xs[1..]).value);
  }

  /** A list encoding `e` at `pos`, whose content is read back as `xs`, is read back as the list of `xs`. */
  lemma {:induction false} ParseListEncoding(xs: seq<Item>, c: seq<byte>, e: seq<byte>, data: seq<byte>, pos: nat)
    requires |c| <= IntMax && e == ListPrefix(|c|) + c && At(data, pos, e)
    requires ParseChildren(data, pos + |e| - |c|, pos + |e|) == Success(Parsed(xs, pos + |e|))
    ensures ParseItem(data, pos) == Success(Parsed(List(xs), pos + |e|))
  {
    AtSplit(data, pos, ListPrefix(|c|), c);
    ListAt(|c|, data, pos, pos + |e| - |c|);
    ParseItemAtList(data, pos, |c|, pos + |e| - |c|, pos + |e|);
  }

  /** `ParseChildren` at the end of the content reads nothing. */
  lemma {:induction false} ParseChildrenEnd(data: seq<byte>, pos: nat, end: int)
    requires pos <= |data| && end == pos
    ensures ParseChildren(data, pos, end) == Success(Parsed([], end))
  {
  }

  /** One step of `ParseChildren` below the end of the content: the first child, then the rest. */
  lemma {:induction false} ParseChildrenStep(data: seq<byte>, pos: nat, mid: nat, end: int, xs: seq<Item>)
    requires xs != [] && pos <= mid <= end <= |data|
    requires ParseItem(data, pos) == Success(Parsed(xs[0], mid))
    requires ParseChildren(data, mid, end) == Success(Parsed(xs[1..], end))
    ensures ParseChildren(data, pos, end) == Success(Parsed(xs, end))
  {
    assert [xs[0]] + xs[1..] == xs;
  }

  /**
   * The encoding of any value `Decode` can return, found at `pos` in `data`,
   * is read back as that value and ends where the encoding ends.
   */
  lemma {:induction false} ParseEncodedItem(x: Item, e: seq<byte>, data: seq<byte>, pos: nat)
    requires EncodeItem(x) == Success(e) && At(data, pos, e)
    ensures ParseItem(data, pos) == Success(Parsed(x, pos + |e|))
    decreases x
  {
    match x
    case Bytes(b) =>
      ParseEncodedBytes(b, data, pos, pos + |e|);
    case List(xs) =>
      ListParts(xs, e, data, pos);
      ParseEncodedChildren(xs, EncodeChildren(xs).value, data, pos + |e| - |EncodeChildren(xs).value|, pos + |e|);
      ParseListEncoding(xs, EncodeChildren(xs).value, e, data, pos);
  }

  /** The concatenated encodings of `xs`, found at `pos` and ending at `end`, are read back as `xs`. */
  lemma {:induction false} ParseEncodedChildren(xs: seq<Item>, c: seq<byte>, data: seq<byte>, pos: nat, end: nat)
    requires EncodeChildren(xs) == Success(c) && At(data, pos, c) && end == pos + |c|
    ensures ParseChildren(data, pos, end) == Success(Parsed(xs, end))
    decreases xs
  {
    if xs == [] {
      ParseChildrenEnd(data, pos, end);
    } else {
      ChildrenParts(xs, c, data, pos, end);
      var first, rest := EncodeItem(xs[0]).value, EncodeChildren(xs[1..]).value;
      var mid := pos + |first|;
      ParseEncodedItem(xs[0], first, data, pos);
      ParseEncodedChildren(xs[1..], rest, data, mid, end);
      assert mid <= end <= |data|;
      ParseChildrenStep(data, pos, mid, end, xs);
    }
  }

  /** The whole buffer holding the encoding of `x` decodes to `x`. */
  lemma {:induction false} ItemRoundTrip(x: Item, e: seq<byte>)
    requires EncodeItem(x) == Success(e)
    ensures Parse(e) == Success(x)
  {
    AtSelf(e);
    ParseEncodedItem(x, e, e, 0);
  }

  /** `Decode(Encode(x))` gives back every value the decoder can produce. */
  lemma {:induction false} RoundTrip(x: Item, e: seq<byte>)
    requires EncodeValue(ToValue(x)) == Success(e)
    ensures Parse(e) == Success(x)
  {
    EncodeItemIsEncodeValue(x);
    ItemRoundTrip(x, e);
  }
}
