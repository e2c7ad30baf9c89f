/**
 * The RLP decoder (Recursive Length Prefix, Appendix B of the Ethereum Yellow
 * Paper). `ParseItem` and `ParseChildren` state what the decoder reads from a
 * position of a buffer; `DecoderContext` and `Decode` are the cursor-driven
 * implementation, proved to agree with them.
 */
module RlpDecoding {
  import opened Wrappers
  import opened ByteSeq
  import opened RlpLength

  /** What the decoder returns: a byte string (`byte[]`) or a list (`object[]`). */
  datatype Item = Bytes(bytes: ByteArray) | List(items: seq<Item>)

  /** Every `InvalidOperationException` and out-of-range read of the decoder. */
  datatype DecodeError =
    | OutOfRange              // a read past the end of the buffer
    | NonCanonicalSingleByte  // a short string holding one byte below 128
    | LengthOfLengthAbove4    // a long string or list with more than four length bytes
    | LengthBelow56           // a long-form length that the short form could hold
    | TrailingBytes           // the top-level item does not end at the end of the buffer

  /** A decoded value and the position right after it. */
  datatype Parsed<T> = Parsed(value: T, next: nat)

  /** Prepends `items` to the children of a successful parse. */
  function Prepend(items: seq<Item>, r: Result<Parsed<seq<Item>>, DecodeError>): Result<Parsed<seq<Item>>, DecodeError>
  {
    match r
    case Failure(e) => Failure(e)
    case Success(Parsed(rest, next)) => Success(Parsed(items + rest, next))
  }

  lemma PrependNothing(r: Result<Parsed<seq<Item>>, DecodeError>)
    ensures Prepend([], r) == r
  {
    if r.Success? {
      assert [] + r.value.value == r.value.value;
    }
  }

  lemma PrependPrepend(a: seq<Item>, b: seq<Item>, r: Result<Parsed<seq<Item>>, DecodeError>)
    ensures Prepend(a, Prepend(b, r)) == Prepend(a + b, r)
  {
    if r.Success? {
      assert a + (b + r.value.value) == (a + b) + r.value.value;
    }
  }

  /**
   * The byte string after a prefix in 129..191 (`p` is just past the prefix):
   * a short string holds `prefix - 128` bytes, a long string is preceded by
   * `prefix - 183` big-endian length bytes.
   */
  function ParseString(data: seq<byte>, p: nat, prefix: byte): (r: Result<Parsed<Item>, DecodeError>)
    requires 128 < prefix < 192 && p <= |data|
    ensures r.Success? ==> p <= r.value.next <= |data|
  {
    if prefix <= 183 then
      var length := prefix - 128;
      if p + length > |data| then Failure(OutOfRange)
      else if length == 1 && data[p] < 128 then Failure(NonCanonicalSingleByte)
      else Success(Parsed(Bytes(data[p..p + length]), p + length))
    else
      var lengthOfLength := prefix - 183;
      if lengthOfLength > 4 then Failure(LengthOfLengthAbove4)
      else if p + lengthOfLength > |data| then Failure(OutOfRange)
      else
        var length := DeserializeLength(data[p..p + lengthOfLength]).value;
        var q := p + lengthOfLength;
        if length < 56 then Failure(LengthBelow56)
        else if q + length > |data| then Failure(OutOfRange)
        else Success(Parsed(Bytes(data[q..q + length]), q + length))
  }

  /**
   * The declared content length of a list after a prefix in 192..255, with
   * the position where the content starts.
   */
  function ParseListLength(data: seq<byte>, p: nat, prefix: byte): (r: Result<Parsed<int>, DecodeError>)
    requires 192 <= prefix && p <= |data|
    ensures r.Success? ==> p <= r.value.next <= |data| && 0 <= r.value.value
  {
    if prefix <= 247 then Success(Parsed(prefix - 192, p))
    else
      var lengthOfLength := prefix - 247;
      if lengthOfLength > 4 then Failure(LengthOfLengthAbove4)
      else if p + lengthOfLength > |data| then Failure(OutOfRange)
      else
        var length := DeserializeLength(data[p..p + lengthOfLength]).value;
        if length < 56 then Failure(LengthBelow56)
        else Success(Parsed(length, p + lengthOfLength))
  }

  /**
   * The item that starts at `pos`: the prefix byte selects a literal byte
   * (0..127), an empty string (128), a short or long string (129..191), or a
   * short or long list (192..255).
   */
  function ParseItem(data: seq<byte>, pos: nat): (r: Result<Parsed<Item>, DecodeError>)
    requires pos <= |data|
    ensures r.Success? ==> pos < r.value.next <= |data|
    decreases |data| - pos, 0
  {
    if pos == |data| then Failure(OutOfRange)
    else
      var prefix := data[pos];
      if prefix == 0 then Success(Parsed(Bytes([0]), pos + 1))
      else if prefix < 128 then Success(Parsed(Bytes([prefix]), pos + 1))
      else if prefix == 128 then Success(Parsed(Bytes([]), pos + 1))
      else if prefix < 192 then ParseString(data, pos + 1, prefix)
      else
        match ParseListLength(data, pos + 1, prefix)
        case Failure(e) => Failure(e)
        case Success(Parsed(length, start)) =>
          match ParseChildren(data, start, start + length)
          case Failure(e) => Failure(e)
          case Success(Parsed(items, next)) => Success(Parsed(List(items), next))
  }

  /**
   * The children of a list whose content starts at `pos`: items are read one
   * after another while the position is below `end`. A child that runs past
   * `end` is not an error; the loop just stops.
   */
  function ParseChildren(data: seq<byte>, pos: nat, end: int): (r: Result<Parsed<seq<Item>>, DecodeError>)
    requires pos <= |data|
    ensures r.Success? ==> pos <= r.value.next <= |data| && r.value.next >= end
    decreases |data| - pos, 1
  {
    if pos >= end then Success(Parsed([], pos))
    else
      match ParseItem(data, pos)
      case Failure(e) => Failure(e)
      case Success(Parsed(item, next)) => Prepend([item], ParseChildren(data, next, end))
  }

  /**
   * The local function `CheckAndReturn`: with `check` on, the item must end
   * at `maxIndex`.
   */
  function CheckAndReturn(p: Result<Parsed<Item>, DecodeError>, check: bool, maxIndex: int): Result<Item, DecodeError>
  {
    if p.Failure? then Failure(p.error)
    else if check && p.value.next != maxIndex then Failure(TrailingBytes)
    else Success(p.value.value)
  }

  /** Top-level decoding: one item that ends exactly at the end of the buffer. */
  function Parse(data: seq<byte>): Result<Item, DecodeError>
  {
    CheckAndReturn(ParseItem(data, 0), true, |data|)
  }

  /** The cursor over an immutable buffer. */
  class DecoderContext {
    const data: seq<byte>
    var currentIndex: int
    var maxIndex: int

    constructor (data: seq<byte>)
      ensures this.data == data && currentIndex == 0 && maxIndex == |data|
    {
      this.data := data;
      currentIndex := 0;
      maxIndex := |data|;
    }

    /**
     * `Data[CurrentIndex++]`: the index is advanced before the array access,
     * which fails past the end.
     */
    method Pop() returns (r: Result<byte, DecodeError>)
      modifies this
      ensures currentIndex == old(currentIndex) + 1 && maxIndex == old(maxIndex)
      ensures r == if 0 <= old(currentIndex) < |data| then Success(data[old(currentIndex)]) else Failure(OutOfRange)
    {
      var i := currentIndex;
      currentIndex := currentIndex + 1;
      if 0 <= i < |data| {
        r := Success(data[i]);
      } else {
        r := Failure(OutOfRange);
      }
    }

    /** `Pop(int n)`: copies the next `n` bytes and advances past them. */
    method PopBytes(n: int) returns (r: Result<seq<byte>, DecodeError>)
      modifies this
      ensures maxIndex == old(maxIndex)
      ensures if 0 <= n && 0 <= old(currentIndex) && old(currentIndex) + n <= |data|
              then r == Success(data[old(currentIndex)..old(currentIndex) + n]) && currentIndex == old(currentIndex) + n
              else r == Failure(OutOfRange) && currentIndex == old(currentIndex)
    {
      if 0 <= n && 0 <= currentIndex && currentIndex + n <= |data| {
        r := Success(data[currentIndex..currentIndex + n]);
        currentIndex := currentIndex + n;
      } else {
        r := Failure(OutOfRange);
      }
    }
  }

  /** The string branches of `Decode` (prefix 129..191), after the prefix was popped. */
  method ReadString(context: DecoderContext, prefix: byte) returns (r: Result<Item, DecodeError>)
    requires 128 < prefix < 192 && 0 <= context.currentIndex <= |context.data|
    modifies context
    ensures context.maxIndex == old(context.maxIndex)
    ensures var p := ParseString(context.data, old(context.currentIndex), prefix);
      (p.Failure? ==> r == Failure(p.error)) &&
      (p.Success? ==> r == Success(p.value.value) && context.currentIndex == p.value.next)
  {
    if prefix <= 183 {
      var length := prefix - 128;
      var data := context.PopBytes(length);
      if data.Failure? {
        return Failure(data.error);
      }
      if |data.value| == 1 && data.value[0] < 128 {
        return Failure(NonCanonicalSingleByte);
      }
      return Success(Bytes(data.value));
    }
    var lengthOfLength := prefix - 183;
    if lengthOfLength > 4 {
      return Failure(LengthOfLengthAbove4);
    }
    var lengthBytes := context.PopBytes(lengthOfLength);
    if lengthBytes.Failure? {
      return Failure(lengthBytes.error);
    }
    var length := DeserializeLength(lengthBytes.value).value;
    if length < 56 {
      return Failure(LengthBelow56);
    }
    var data := context.PopBytes(length);
    if data.Failure? {
      return Failure(data.error);
    }
    return Success(Bytes(data.value));
  }

  /** The list-length branches of `Decode` (prefix 192..255), after the prefix was popped. */
  method ReadListLength(context: DecoderContext, prefix: byte) returns (r: Result<int, DecodeError>)
    requires 192 <= prefix && 0 <= context.currentIndex <= |context.data|
    modifies context
    ensures context.maxIndex == old(context.maxIndex)
    ensures var p := ParseListLength(context.data, old(context.currentIndex), prefix);
      (p.Failure? ==> r == Failure(p.error)) &&
      (p.Success? ==> r == Success(p.value.value) && context.currentIndex == p.value.next)
  {
    if prefix <= 247 {
      return Success(prefix - 192);
    }
    var lengthOfConcatenationLength := prefix - 247;
    if lengthOfConcatenationLength > 4 {
      return Failure(LengthOfLengthAbove4);
    }
    var lengthBytes := context.PopBytes(lengthOfConcatenationLength);
    if lengthBytes.Failure? {
      return Failure(lengthBytes.error);
    }
    var concatenationLength := DeserializeLength(lengthBytes.value).value;
    if concatenationLength < 56 {
      return Failure(LengthBelow56);
    }
    return Success(concatenationLength);
  }

  /**
   * Decodes one item at the cursor. List children are decoded with `check`
   * off until the cursor reaches or passes the end of the declared content.
   * On success the cursor is right after the item; after a failure the
   * context is abandoned by the caller.
   */
  method DecodeItem(context: DecoderContext, check: bool) returns (r: Result<Item, DecodeError>)
    requires 0 <= context.currentIndex <= |context.data|
    modifies context
    ensures context.maxIndex == old(context.maxIndex)
    ensures r == CheckAndReturn(ParseItem(context.data, old(context.currentIndex)), check, context.maxIndex)
    ensures ParseItem(context.data, old(context.currentIndex)).Success? ==>
              context.currentIndex == ParseItem(context.data, old(context.currentIndex)).value.next
    decreases |context.data| - context.currentIndex
  {
    ghost var data, pos := context.data, context.currentIndex;
    var popped := context.Pop();
    if popped.Failure? {
      return Failure(popped.error);
    }
    var prefix := popped.value;
    var item: Item;
    if prefix == 0 {
      item := Bytes([0]);
    } else if prefix < 128 {
      item := Bytes([prefix]);
    } else if prefix == 128 {
      item := Bytes([]);
    } else if prefix < 192 {
      var str := ReadString(context, prefix);
      if str.Failure? {
        return Failure(str.error);
      }
      item := str.value;
    } else {
      var header := ReadListLength(context, prefix);
      if header.Failure? {
        return Failure(header.error);
      }
      var concatenationLength := header.value;

      var startIndex := context.currentIndex;
      var end := startIndex + concatenationLength;
      var nestedList: seq<Item> := [];
      PrependNothing(ParseChildren(data, startIndex, end));
      while context.currentIndex < end
        invariant startIndex <= context.currentIndex <= |data|
        invariant context.data == data && context.maxIndex == old(context.maxIndex)
        invariant ParseChildren(data, startIndex, end) == Prepend(nestedList, ParseChildren(data, context.currentIndex, end))
        decreases |data| - context.currentIndex
      {
        ghost var before := context.currentIndex;
        var child := DecodeItem(context, false);
        if child.Failure? {
          return Failure(child.error);
        }
        assert ParseChildren(data, before, end)
            == Prepend([child.value], ParseChildren(data, context.currentIndex, end));
        PrependPrepend(nestedList, [child.value], ParseChildren(data, context.currentIndex, end));
        nestedList := nestedList + [child.value];
      }
      assert ParseChildren(data, context.currentIndex, end) == Success(Parsed([], context.currentIndex));
      assert nestedList + [] == nestedList;
      item := List(nestedList);
    }

    if check && context.currentIndex != context.maxIndex {
      return Failure(TrailingBytes);
    }
    return Success(item);
  }

  /** `Decode(Rlp)`: decodes a whole buffer at top level. */
  method Decode(rlp: seq<byte>) returns (r: Result<Item, DecodeError>)
    ensures r == Parse(rlp)
  {
    var context := new DecoderContext(rlp);
    r := DecodeItem(context, true);
  }
}
