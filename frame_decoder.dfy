/**
 * The RLPx frame decoder: a two-state machine that reads a 32-byte frame
 * header (16 encrypted bytes followed by their MAC), takes the frame size
 * from the first three decrypted header bytes, then waits for the frame,
 * zero-padded to a multiple of 16, followed by its 16-byte MAC, and hands on
 * the header followed by the decrypted frame and the MAC. The cipher and the
 * MAC check are opaque functions given to the decoder.
 */
module FrameDecoding {
  import opened ByteSeq

  const MacSize: nat := 16
  const HeaderSize: nat := 32
  /** The frame size is a 24-bit number. */
  const SizeLimit: nat := 0x100_0000

  datatype DecoderState = WaitingForHeader | WaitingForPayload

  /**
   * The cipher and MAC processor. `decrypt(block, i)` is byte `i` of `block`
   * decrypted in place; `macValid(bytes, isHeader)` is whether `CheckMac`
   * accepts `bytes`, which are the checked data followed by their MAC.
   */
  datatype Crypto = Crypto(decrypt: (seq<byte>, nat) -> byte, macValid: (seq<byte>, bool) -> bool)

  /** How a call ends: normally, asking the channel to close, or with a MAC mismatch thrown. */
  datatype Outcome = Normal | Close | MacMismatch

  /** What `Decode` reads and writes of the decoder: `_state`, `_totalBodySize`, `_headerBuffer`. */
  datatype Decoder = Decoder(state: DecoderState, totalBodySize: nat, header: seq<byte>)

  /** A call's effect: the new decoder, the new read position, what was added to `output`. */
  datatype Step = Step(decoder: Decoder, position: nat, output: seq<seq<byte>>, outcome: Outcome)

  /** Decrypting in place keeps the length of the block. */
  function Decrypt(crypto: Crypto, block: seq<byte>): (r: seq<byte>)
    ensures |r| == |block|
  {
    seq<byte>(|block|, i requires 0 <= i < |block| => crypto.decrypt(block, i))
  }

  /** The frame size: the first three header bytes, most significant first. */
  function BodySize(header: seq<byte>): (r: nat)
    requires |header| >= 3
    ensures r < SizeLimit
  {
    (header[0] as int * 256 + header[1]) * 256 + header[2]
  }

  /** The frame size is the 24-bit big-endian number in the first three header bytes. */
  lemma BodySizeBigEndian(header: seq<byte>)
    requires |header| >= 3
    ensures BodySize(header) == BigEndianValue(header[..3]) < SizeLimit
  {
    var s := header[..3];
    assert s[..2] == header[..2] && s[..2][..1] == header[..1] && s[..1][..0] == [];
    calc {
      BigEndianValue(s);
      BigEndianValue(s[..2]) * 256 + header[2];
      (BigEndianValue(s[..2][..1]) * 256 + header[1]) * 256 + header[2];
      ((BigEndianValue([]) * 256 + header[0]) * 256 + header[1]) * 256 + header[2];
    }
  }

  /** The zero bytes that bring the frame size up to a multiple of 16. */
  function Padding(size: nat): nat
  {
    if 16 - size % 16 == 16 then 0 else 16 - size % 16
  }

  /** Whether `n` bytes fill whole 16-byte cipher blocks. */
  predicate Aligned(n: int)
  {
    n % 16 == 0
  }

  /** The padding is the least number of bytes that aligns the frame to 16. */
  lemma PaddingAligns(size: nat)
    ensures Padding(size) < 16 && Aligned(size + Padding(size))
    ensures Padding(size) == 0 <==> Aligned(size)
    ensures forall n :: size <= n < size + Padding(size) ==> !Aligned(n)
  {
  }

  /** The bytes a frame occupies after its header: the padded frame and its MAC. */
  function ExpectedSize(size: nat): nat
  {
    size + Padding(size) + MacSize
  }

  /** A frame needs its size, less than one block of padding, and the MAC; the padded frame is aligned. */
  lemma ExpectedSizeBounds(size: nat)
    ensures size + MacSize <= ExpectedSize(size) < size + MacSize + 16
    ensures Aligned(ExpectedSize(size) - MacSize)
  {
    PaddingAligns(size);
  }

  /**
   * The buffer handed on for a frame: the decrypted header, the decrypted
   * padded frame, and the MAC as received.
   */
  function Frame(crypto: Crypto, header: seq<byte>, payload: seq<byte>): seq<byte>
    requires |payload| >= MacSize
  {
    var frameSize := |payload| - MacSize;
    header + Decrypt(crypto, payload[..frameSize]) + payload[frameSize..]
  }

  /**
   * The header branch of `Decode`: close on an empty input, wait for 32
   * bytes, then read them, check their MAC, decrypt the first 16 and take the
   * frame size from them.
   */
  function HeaderStep(d: Decoder, crypto: Crypto, input: seq<byte>, position: nat): (r: Step)
    requires position <= |input|
    ensures position <= r.position <= |input|
  {
    if |input| - position == 0 then Step(d, position, [], Close)
    else if |input| - position < HeaderSize then Step(d, position, [], Normal)
    else
      var received := input[position..position + HeaderSize];
      if !crypto.macValid(received, true) then
        Step(d.(header := received), position + HeaderSize, [], MacMismatch)
      else
        var header := Decrypt(crypto, received[..16]) + received[16..];
        Step(Decoder(WaitingForPayload, BodySize(header), header), position + HeaderSize, [], Normal)
  }

  /**
   * The payload branch of `Decode`: wait for the padded frame and its MAC,
   * then read them, check the MAC, and hand on the frame.
   */
  function PayloadStep(d: Decoder, crypto: Crypto, input: seq<byte>, position: nat): (r: Step)
    requires position <= |input|
    ensures position <= r.position <= |input|
  {
    var expected := ExpectedSize(d.totalBodySize);
    if |input| - position < expected then Step(d, position, [], Normal)
    else
      var payload := input[position..position + expected];
      if !crypto.macValid(payload, false) then Step(d, position + expected, [], MacMismatch)
      else Step(d.(state := WaitingForHeader), position + expected, [Frame(crypto, d.header, payload)], Normal)
  }

  /**
   * `Decode`: the header branch when waiting for a header, and the payload
   * branch when waiting for a payload, including right after a header.
   */
  function DecodeStep(d: Decoder, crypto: Crypto, input: seq<byte>, position: nat): (r: Step)
    requires position <= |input|
    ensures position <= r.position <= |input|
  {
    var afterHeader := if d.state == WaitingForHeader then HeaderStep(d, crypto, input, position)
                       else Step(d, position, [], Normal);
    if afterHeader.outcome == Normal && afterHeader.decoder.state == WaitingForPayload then
      PayloadStep(afterHeader.decoder, crypto, input, afterHeader.position)
    else afterHeader
  }

  /** A decoder the source can reach: a 32-byte header buffer and a 24-bit frame size. */
  predicate Reachable(d: Decoder)
  {
    |d.header| == HeaderSize && d.totalBodySize < SizeLimit
  }

  /** `Decode` keeps the decoder reachable, consumes input only, and hands on at most one frame. */
  lemma {:induction false} DecodeKeepsReachable(d: Decoder, crypto: Crypto, input: seq<byte>, position: nat)
    requires Reachable(d) && position <= |input|
    ensures Reachable(DecodeStep(d, crypto, input, position).decoder)
    ensures |DecodeStep(d, crypto, input, position).output| <= 1
    ensures DecodeStep(d, crypto, input, position).output != [] ==>
              DecodeStep(d, crypto, input, position).decoder.state == WaitingForHeader
  {
    if d.state == WaitingForHeader && |input| - position >= HeaderSize {
      var received := input[position..position + HeaderSize];
      BodySizeBigEndian(Decrypt(crypto, received[..16]) + received[16..]);
    }
  }

  /** An empty input while waiting for a header asks to close and changes nothing. */
  lemma EmptyInputCloses(d: Decoder, crypto: Crypto, input: seq<byte>)
    requires d.state == WaitingForHeader
    ensures DecodeStep(d, crypto, input, |input|) == Step(d, |input|, [], Close)
  {
  }

  /** Fewer than 32 bytes while waiting for a header: nothing is consumed, nothing changes. */
  lemma PartialHeaderWaits(d: Decoder, crypto: Crypto, input: seq<byte>, position: nat)
    requires d.state == WaitingForHeader && position < |input| < position + HeaderSize
    ensures DecodeStep(d, crypto, input, position) == Step(d, position, [], Normal)
  {
  }

  /**
   * Reading a header consumes exactly 32 bytes and waits for the payload,
   * whose size is the 24-bit big-endian number in the decrypted header's
   * first three bytes.
   */
  lemma {:induction false} HeaderRead(d: Decoder, crypto: Crypto, input: seq<byte>, position: nat)
    requires d.state == WaitingForHeader && position + HeaderSize <= |input|
    requires crypto.macValid(input[position..position + HeaderSize], true)
    ensures var r := HeaderStep(d, crypto, input, position);
            var received := input[position..position + HeaderSize];
            r.position == position + HeaderSize && r.output == [] && r.outcome == Normal
            && r.decoder.state == WaitingForPayload
            && r.decoder.header == Decrypt(crypto, received[..16]) + received[16..]
            && r.decoder.totalBodySize == BigEndianValue(r.decoder.header[..3]) < SizeLimit
  {
    var received := input[position..position + HeaderSize];
    BodySizeBigEndian(Decrypt(crypto, received[..16]) + received[16..]);
  }

  /** Fewer bytes than the padded frame and its MAC: nothing is consumed, nothing changes. */
  lemma PartialPayloadWaits(d: Decoder, crypto: Crypto, input: seq<byte>, position: nat)
    requires d.state == WaitingForPayload && position <= |input| < position + ExpectedSize(d.totalBodySize)
    ensures DecodeStep(d, crypto, input, position) == Step(d, position, [], Normal)
  {
  }

  /**
   * A complete frame consumes the padded frame and its MAC and hands on one
   * buffer of 32 + size + padding + 16 bytes that starts with the header;
   * the decoder waits for the next header.
   */
  lemma {:induction false} FrameCompleted(d: Decoder, crypto: Crypto, input: seq<byte>, position: nat)
    requires Reachable(d) && d.state == WaitingForPayload
    requires position + ExpectedSize(d.totalBodySize) <= |input|
    requires crypto.macValid(input[position..position + ExpectedSize(d.totalBodySize)], false)
    ensures var r := DecodeStep(d, crypto, input, position);
            var size := d.totalBodySize;
            r.position == position + size + Padding(size) + MacSize && r.outcome == Normal
            && r.decoder == d.(state := WaitingForHeader) && |r.output| == 1
            && |r.output[0]| == HeaderSize + size + Padding(size) + MacSize
            && r.output[0][..HeaderSize] == d.header
            && r.output[0][HeaderSize..HeaderSize + size + Padding(size)]
               == Decrypt(crypto, input[position..position + size + Padding(size)])
  {
    var size := d.totalBodySize;
    var payload := input[position..position + ExpectedSize(size)];
    var frame := Frame(crypto, d.header, payload);
    assert frame[..HeaderSize] == d.header;
    assert payload[..size + Padding(size)] == input[position..position + size + Padding(size)];
    assert frame[HeaderSize..HeaderSize + size + Padding(size)] == Decrypt(crypto, payload[..size + Padding(size)]);
  }

  /**
   * With a header and its whole frame available, one call reads both: the
   * header branch falls through to the payload branch.
   */
  lemma {:induction false} HeaderAndFrameInOneCall(d: Decoder, crypto: Crypto, input: seq<byte>, position: nat)
    requires d.state == WaitingForHeader && position + HeaderSize <= |input|
    requires crypto.macValid(input[position..position + HeaderSize], true)
    requires var h := HeaderStep(d, crypto, input, position).decoder;
             h.totalBodySize == BodySize(h.header)
             && position + HeaderSize + ExpectedSize(h.totalBodySize) <= |input|
             && crypto.macValid(input[position + HeaderSize..position + HeaderSize + ExpectedSize(h.totalBodySize)], false)
    ensures var h := HeaderStep(d, crypto, input, position).decoder;
            var r := DecodeStep(d, crypto, input, position);
            r.position == position + HeaderSize + ExpectedSize(h.totalBodySize) && r.outcome == Normal
            && r.decoder == h.(state := WaitingForHeader) && |r.output| == 1
            && r.output[0][..HeaderSize] == h.header
  {
    HeaderRead(d, crypto, input, position);
    FrameCompleted(HeaderStep(d, crypto, input, position).decoder, crypto, input, position + HeaderSize);
  }

  /**
   * A MAC that does not check stops the call: nothing is handed on, the
   * state is unchanged, and the bytes read are consumed.
   */
  lemma MacMismatchStops(d: Decoder, crypto: Crypto, input: seq<byte>, position: nat)
    requires position <= |input|
    requires DecodeStep(d, crypto, input, position).outcome == MacMismatch
    ensures var r := DecodeStep(d, crypto, input, position);
            r.output == [] && r.position > position
            && (r.decoder.state == d.state || r.decoder.state == WaitingForPayload)
  {
  }

  /** `input.ReadBytes(target, offset, count)`: the next `count` bytes into `target` from `offset`. */
  method ReadBytes(input: seq<byte>, position: nat, target: array<byte>, offset: nat, count: nat)
    requires position + count <= |input| && offset + count <= target.Length
    modifies target
    ensures target[..] == old(target[..offset]) + input[position..position + count] + old(target[offset + count..])
  {
    forall i | offset <= i < offset + count {
      target[i] := input[position + i - offset];
    }
    assert target[..] == old(target[..offset]) + input[position..position + count] + old(target[offset + count..]);
  }

  /** `Decrypt(buffer, offset, count, buffer, offset)`: decryption in place. */
  method DecryptInPlace(crypto: Crypto, buffer: array<byte>, offset: nat, count: nat)
    requires offset + count <= buffer.Length
    modifies buffer
    ensures buffer[..] == old(buffer[..offset]) + Decrypt(crypto, old(buffer[offset..offset + count]))
                          + old(buffer[offset + count..])
  {
    var plain := Decrypt(crypto, buffer[offset..offset + count]);
    forall i | offset <= i < offset + count {
      buffer[i] := plain[i - offset];
    }
    assert buffer[..] == old(buffer[..offset]) + plain + old(buffer[offset + count..]);
  }

  /** `ZeroNettyFrameDecoder`. */
  class FrameDecoder {
    const crypto: Crypto
    /** `_headerBuffer`: the last header read, decrypted once its MAC checks. */
    const headerBuffer: array<byte>
    /** `_state` */
    var state: DecoderState
    /** `_totalBodySize` */
    var totalBodySize: nat

    ghost predicate Valid()
      reads this
    {
      headerBuffer.Length == HeaderSize && totalBodySize < SizeLimit
    }

    /** The decoder's state as a value. */
    ghost function Model(): Decoder
      reads this, headerBuffer
    {
      Decoder(state, totalBodySize, headerBuffer[..])
    }

    constructor (crypto: Crypto)
      ensures Valid() && fresh(headerBuffer) && this.crypto == crypto
      ensures Model() == Decoder(WaitingForHeader, 0, seq(HeaderSize, _ => 0))
    {
      this.crypto := crypto;
      headerBuffer := new byte[HeaderSize](_ => 0);
      state := WaitingForHeader;
      totalBodySize := 0;
    }

    /**
     * `Decode(context, input, output)` with `input`'s read position at
     * `position`: the new position, what is added to `output`, and how the
     * call ends are those `DecodeStep` gives, and so is the new state.
     */
    method Decode(input: seq<byte>, position: nat) returns (next: nat, output: seq<seq<byte>>, outcome: Outcome)
      requires Valid() && position <= |input|
      modifies this, headerBuffer
      ensures Valid()
      ensures var r := DecodeStep(old(Model()), crypto, input, position);
              Model() == r.decoder && next == r.position && output == r.output && outcome == r.outcome
    {
      next, output, outcome := position, [], Normal;
      if state == WaitingForHeader {
        if |input| - position == 0 {
          outcome := Close;
          return;
        }
        if |input| - position < HeaderSize {
          return;
        }
        next, outcome := ReadHeader(input, position);
        if outcome == MacMismatch {
          return;
        }
      }
      if state == WaitingForPayload {
        next, output, outcome := ReadPayload(input, next);
      }
    }

    /** The header branch once 32 bytes are readable. */
    method ReadHeader(input: seq<byte>, position: nat) returns (next: nat, outcome: Outcome)
      requires Valid() && state == WaitingForHeader && position + HeaderSize <= |input|
      modifies this, headerBuffer
      ensures Valid()
      ensures var r := HeaderStep(old(Model()), crypto, input, position);
              Model() == r.decoder && next == r.position && outcome == r.outcome && r.output == []
    {
      ghost var received := input[position..position + HeaderSize];
      ReadBytes(input, position, headerBuffer, 0, HeaderSize);
      assert headerBuffer[..] == received;
      next := position + HeaderSize;
      if !crypto.macValid(headerBuffer[..], true) {
        outcome := MacMismatch;
        return;
      }
      DecryptInPlace(crypto, headerBuffer, 0, 16);
      assert headerBuffer[..] == Decrypt(crypto, received[..16]) + received[16..];
      totalBodySize := headerBuffer[0];
      totalBodySize := totalBodySize * 256 + headerBuffer[1];
      totalBodySize := totalBodySize * 256 + headerBuffer[2];
      assert totalBodySize == BodySize(headerBuffer[..]);
      BodySizeBigEndian(headerBuffer[..]);
      state := WaitingForPayload;
      outcome := Normal;
    }

    /** The payload branch. */
    method ReadPayload(input: seq<byte>, position: nat) returns (next: nat, output: seq<seq<byte>>, outcome: Outcome)
      requires Valid() && state == WaitingForPayload && position <= |input|
      modifies this
      ensures Valid()
      ensures var r := PayloadStep(old(Model()), crypto, input, position);
              Model() == r.decoder && next == r.position && output == r.output && outcome == r.outcome
    {
      var paddingSize := 16 - totalBodySize % 16;
      if paddingSize == 16 {
        paddingSize := 0;
      }
      var expectedSize := totalBodySize + paddingSize + MacSize;
      assert expectedSize == ExpectedSize(totalBodySize);
      next, output, outcome := position, [], Normal;
      if |input| - position < expectedSize {
        return;
      }
      next := position + expectedSize;
      var frame, macValid := ReadFrame(crypto, headerBuffer, input, position, expectedSize);
      if !macValid {
        outcome := MacMismatch;
        return;
      }
      output := [frame];
      state := WaitingForHeader;
    }
  }

  /**
   * The rest of the payload branch: read the padded frame and its MAC after
   * 32 free bytes, check the MAC, decrypt the frame and put the header in
   * front of it.
   */
  method ReadFrame(crypto: Crypto, header: array<byte>, input: seq<byte>, position: nat, expectedSize: nat)
    returns (frame: seq<byte>, macValid: bool)
    requires header.Length == HeaderSize && MacSize <= expectedSize && position + expectedSize <= |input|
    ensures macValid == crypto.macValid(input[position..position + expectedSize], false)
    ensures macValid ==> frame == Frame(crypto, header[..], input[position..position + expectedSize])
  {
    ghost var payload := input[position..position + expectedSize];
    var buffer := new byte[expectedSize + header.Length](_ => 0);
    ReadBytes(input, position, buffer, 32, expectedSize);
    assert buffer[32..] == payload;
    var frameSize := buffer.Length - MacSize - header.Length;
    macValid := crypto.macValid(buffer[32..], false);
    if !macValid {
      return [], false;
    }
    ghost var read := buffer[..];
    assert read[32..32 + frameSize] == payload[..frameSize] && read[32 + frameSize..] == payload[frameSize..];
    DecryptInPlace(crypto, buffer, 32, frameSize);
    assert buffer[32..] == Decrypt(crypto, payload[..frameSize]) + payload[frameSize..];
    CopyHeader(header, buffer);
    frame := buffer[..];
  }

  /** `headerBuffer.CopyTo(buffer, 0)`: the header over the first 32 bytes. */
  method CopyHeader(header: array<byte>, buffer: array<byte>)
    requires header.Length <= buffer.Length && header != buffer
    modifies buffer
    ensures buffer[..] == header[..] + old(buffer[header.Length..])
  {
    forall i | 0 <= i < header.Length {
      buffer[i] := header[i];
    }
    assert buffer[..] == header[..] + old(buffer[header.Length..]);
  }
}
