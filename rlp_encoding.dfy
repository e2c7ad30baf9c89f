/**
 * The RLP encoders: byte arrays, lists of encoded items, integers, the
 * fixed-width Keccak, Address and Bloom fast paths, the dispatch on the
 * runtime kind of an object, and the field orders of the aggregate types.
 */
module RlpEncoding {
  import opened Wrappers
  import opened ByteSeq
  import opened RlpLength

  /** `Rlp.OfEmptyByteArray`. */
  const OfEmptyByteArray: seq<byte> := [128]
  /** `Rlp.OfEmptySequence`. */
  const OfEmptySequence: seq<byte> := [192]

  type Keccak = s: seq<byte> | |s| == 32 witness seq(32, _ => 0)
  type Address = s: seq<byte> | |s| == 20 witness seq(20, _ => 0)
  type Bloom = s: seq<byte> | |s| == 256 witness seq(256, _ => 0)

  type int32 = n: int | -0x8000_0000 <= n <= IntMax
  type ulong = n: int | 0 <= n < 0x1_0000_0000_0000_0000
  /** A non-negative `BigInteger`; its byte form is a C# array. */
  type BigInteger = n: nat | |MinimalBigEndian(n)| <= IntMax
  /** A C# `string`. */
  type DotNetString = s: string | |s| <= IntMax

  /**
   * `NotSupportedException` for a kind the dispatch does not know, the
   * overflow of `Convert.ToByte` on a negative number or of the `int`
   * content length of a list, and the `InvalidCastException` of unboxing a
   * boxed integer that is not a `long` as a `long`.
   */
  datatype EncodeError = NotSupported(typeName: string) | Overflow | InvalidCast

  /**
   * The prefix of a string of `length` bytes other than a single byte below
   * 128: `128 + length` up to 55 bytes, otherwise `183` plus the number of
   * length bytes, followed by those bytes.
   */
  function StringPrefix(length: nat): (r: seq<byte>)
    requires length <= IntMax
    ensures 1 <= |r| <= 5
  {
    if length < 56 then [length + 128]
    else
      MinimalBigEndianLength(length, 4);
      var serializedLength := MinimalBigEndian(length);
      [183 + |serializedLength|] + serializedLength
  }

  /** The prefix of a list whose content is `length` bytes long: base 192, or 247 for the long form. */
  function ListPrefix(length: nat): (r: seq<byte>)
    requires length <= IntMax
    ensures 1 <= |r| <= 5
  {
    if length < 56 then [192 + length]
    else
      MinimalBigEndianLength(length, 4);
      var serializedLength := MinimalBigEndian(length);
      [247 + |serializedLength|] + serializedLength
  }

  /**
   * `Encode(byte[])`: a single byte below 128 is its own encoding; any other
   * array follows a string prefix, so the encoding ends with the array itself.
   */
  function EncodeBytes(input: seq<byte>): seq<byte>
    requires |input| <= IntMax
  {
    if |input| == 0 then OfEmptyByteArray
    else if |input| == 1 && input[0] < 128 then [input[0]]
    else StringPrefix(|input|) + input
  }

  /** The bytes of `Encode(Rlp[])` once the content length is known to fit in an `int`. */
  function EncodeSequence(sequence: seq<seq<byte>>): seq<byte>
    requires |Flatten(sequence)| <= IntMax
  {
    var content := Flatten(sequence);
    ListPrefix(|content|) + content
  }

  /** `Encode(Rlp[])`: the `int` content length overflows when the children exceed `int.MaxValue` bytes. */
  function EncodeRlps(sequence: seq<seq<byte>>): Result<seq<byte>, EncodeError>
  {
    if |Flatten(sequence)| > IntMax then Failure(Overflow) else Success(EncodeSequence(sequence))
  }

  /**
   * A single byte below 128 is its own encoding, and only such a byte; every
   * other array gets a string prefix (first byte 128..191) of at most five
   * bytes and ends with the array itself.
   */
  lemma EncodeBytesShape(input: seq<byte>)
    requires |input| <= IntMax
    ensures EncodeBytes(input) == input <==> |input| == 1 && input[0] < 128
    ensures EncodeBytes(input) != input ==>
              |input| < |EncodeBytes(input)| <= |input| + 5 && 128 <= EncodeBytes(input)[0] < 192
    ensures EncodeBytes(input)[|EncodeBytes(input)| - |input|..] == input
  {
    if |input| >= 56 {
      MinimalBigEndianLength(|input|, 4);
      MinimalBigEndianLength(|input|, 0);
    }
  }

  /**
   * `Encode(Rlp[])` fails exactly when the content exceeds `int.MaxValue`
   * bytes; otherwise it is a list prefix (first byte 192 or more) of at most
   * five bytes followed by the children, concatenated.
   */
  lemma EncodeRlpsShape(sequence: seq<seq<byte>>)
    ensures EncodeRlps(sequence).Success? <==> |Flatten(sequence)| <= IntMax
    ensures EncodeRlps(sequence).Success? ==>
              var e := EncodeRlps(sequence).value;
              |Flatten(sequence)| < |e| <= |Flatten(sequence)| + 5 && 192 <= e[0]
              && e[|e| - |Flatten(sequence)|..] == Flatten(sequence)
  {
    if |Flatten(sequence)| >= 56 && |Flatten(sequence)| <= IntMax {
      MinimalBigEndianLength(|Flatten(sequence)|, 4);
    }
  }

  lemma {:induction false} FlattenSplit(parts: seq<seq<byte>>, i: nat)
    requires i <= |parts|
    ensures Flatten(parts) == Flatten(parts[..i]) + Flatten(parts[i..])
    decreases |parts| - i
  {
    if i < |parts| {
      FlattenSplit(parts, i + 1);
      assert parts[..i + 1] == parts[..i] + [parts[i]];
      FlattenAppend(parts[..i], parts[i]);
      assert parts[i..] == [parts[i]] + parts[i + 1..];
      FlattenCons(parts[i], parts[i + 1..]);
    } else {
      assert parts[..i] == parts;
    }
  }

  /** The first loop of `Encode(params Rlp[])`: the total length of the children. */
  method ContentLength(sequence: seq<seq<byte>>) returns (contentLength: nat)
    ensures contentLength == |Flatten(sequence)|
  {
    contentLength := 0;
    var i := 0;
    while i < |sequence|
      invariant 0 <= i <= |sequence|
      invariant contentLength == |Flatten(sequence[..i])|
    {
      assert sequence[..i + 1] == sequence[..i] + [sequence[i]];
      FlattenAppend(sequence[..i], sequence[i]);
      contentLength := contentLength + |sequence[i]|;
      i := i + 1;
    }
    assert sequence[..|sequence|] == sequence;
  }

  /** `Buffer.BlockCopy` of one child into `content` at `offset`. */
  method CopyChild(content: array<byte>, offset: nat, child: seq<byte>)
    requires offset + |child| <= content.Length
    modifies content
    ensures content[..offset + |child|] == old(content[..offset]) + child
  {
    forall j | 0 <= j < |child| {
      content[offset + j] := child[j];
    }
    assert content[..offset + |child|] == content[..offset] + child;
  }

  /** The second loop of `Encode(params Rlp[])`: the children copied one after another. */
  method Concatenate(sequence: seq<seq<byte>>, contentLength: nat) returns (content: array<byte>)
    requires contentLength == |Flatten(sequence)|
    ensures content[..] == Flatten(sequence)
  {
    content := new byte[contentLength];
    var offset := 0;
    var i := 0;
    while i < |sequence|
      invariant 0 <= i <= |sequence|
      invariant offset == |Flatten(sequence[..i])| <= contentLength
      invariant content[..offset] == Flatten(sequence[..i])
    {
      var child := sequence[i];
      assert sequence[..i + 1] == sequence[..i] + [child];
      FlattenAppend(sequence[..i], child);
      FlattenSplit(sequence, i + 1);
      CopyChild(content, offset, child);
      offset := offset + |child|;
      i := i + 1;
    }
    assert sequence[..|sequence|] == sequence;
    assert content[..] == content[..offset];
  }

  /**
   * `Encode(params Rlp[])`: sums the children's lengths, copies them one
   * after another into `content` at a running offset, then adds the prefix.
   */
  method EncodeList(sequence: seq<seq<byte>>) returns (r: Result<seq<byte>, EncodeError>)
    ensures r == EncodeRlps(sequence)
  {
    var contentLength := ContentLength(sequence);
    if contentLength > IntMax {
      return Failure(Overflow);
    }
    var content := Concatenate(sequence, contentLength);
    var bytes := content[..];
    if contentLength < 56 {
      return Success([192 + contentLength] + bytes);
    }
    var serializedLength := SerializeLength(contentLength);
    assert serializedLength == MinimalBigEndian(contentLength);
    assert ListPrefix(contentLength) == [247 + |serializedLength|] + serializedLength;
    return Success([247 + |serializedLength|] + serializedLength + bytes);
  }

  /** `Encode(BigInteger)`: zero is the empty string, otherwise the minimal big-endian bytes. */
  function EncodeBigInteger(n: BigInteger): (r: seq<byte>)
    ensures r == EncodeBytes(MinimalBigEndian(n))
  {
    if n == 0 then OfEmptyByteArray else EncodeBytes(MinimalBigEndian(n))
  }

  /** The integer kinds the dispatch accepts: a boxed `long`, a `ulong` and a `BigInteger`. */
  datatype Number = Long(long: long) | ULong(ulong: ulong) | Big(big: BigInteger)

  /**
   * The integer branches of `Encode(object)`. A `long` below 32768 takes the
   * byte or two-byte `short` form, a larger one the `BigInteger` path; a
   * `ulong` is written as its eight big-endian bytes.
   */
  function EncodeNumber(x: Number): (r: Result<seq<byte>, EncodeError>)
    ensures x.Long? && x.long < 0 ==> r == Failure(Overflow)
    ensures x.Long? && x.long >= 0 ==>
      (MinimalBigEndianLong(x.long); r == Success(EncodeBytes(MinimalBigEndian(x.long))))
    ensures x.Big? ==> r == Success(EncodeBytes(MinimalBigEndian(x.big)))
    ensures x.ULong? ==>
      (FixedBigEndianLength(x.ulong, 8); r == Success(EncodeBytes(FixedBigEndian(x.ulong, 8))))
      && |r.value| == 9 && r.value[0] == 136
  {
    match x
    case Long(value) =>
      if value == 0 then Success(OfEmptyByteArray)
      else if value < 128 then
        if value < 0 then Failure(Overflow) else Success([value])
      else if value <= 255 then
        assert MinimalBigEndian(value) == MinimalBigEndian(0) + [value] == [value];
        Success(EncodeBytes([value]))
      else if value <= 32767 then
        assert MinimalBigEndian(value / 256) == [value / 256];
        assert FixedBigEndian(value, 2) == MinimalBigEndian(value);
        Success(EncodeBytes(FixedBigEndian(value, 2)))
      else
        MinimalBigEndianLength(value, 8);
        Success(EncodeBigInteger(value))
    case ULong(value) =>
      FixedBigEndianLength(value, 8);
      var bytes := FixedBigEndian(value, 8);
      Success(EncodeBytes(bytes))
    case Big(value) => Success(EncodeBigInteger(value))
  }

  /** `ASCII.GetBytes`: a character outside ASCII becomes `?`. */
  function AsciiBytes(s: string): (r: seq<byte>)
    ensures |r| == |s|
    ensures forall i :: 0 <= i < |s| ==> r[i] == if (s[i] as int) < 128 then s[i] as int else 63
  {
    seq(|s|, i requires 0 <= i < |s| => if (s[i] as int) < 128 then s[i] as int else 63)
  }

  /** `Encode(Keccak)`: prefix 160 and the 32 bytes, the general 32-byte string form. */
  function EncodeKeccak(keccak: Keccak): (r: seq<byte>)
    ensures r == EncodeBytes(keccak)
    ensures |r| == 33 && r[0] == 160 && r[1..] == keccak
  {
    [160] + keccak
  }

  /** `DecodeKeccak`: the 32 bytes after the prefix; a buffer shorter than 33 bytes makes `Slice` throw. */
  function DecodeKeccak(rlp: seq<byte>): (r: Option<Keccak>)
    ensures r.Some? <==> |rlp| >= 33
    ensures r.Some? ==> r.value == rlp[1..33]
  {
    if |rlp| < 33 then None else Some(rlp[1..33])
  }

  /** `DecodeKeccak` undoes `Encode(Keccak)`. */
  lemma KeccakRoundTrip(keccak: Keccak)
    ensures DecodeKeccak(EncodeKeccak(keccak)) == Some(keccak)
  {
    assert EncodeKeccak(keccak)[1..33] == keccak;
  }

  /** `Encode(Address)`: a null address is the empty string, otherwise prefix 148 and the 20 bytes. */
  function EncodeAddress(address: Option<Address>): (r: seq<byte>)
    ensures address.None? ==> r == OfEmptyByteArray
    ensures address.Some? ==> r == EncodeBytes(address.value) && |r| == 21 && r[0] == 148
  {
    if address.None? then OfEmptyByteArray else [148] + address.value
  }

  /** `Encode(Bloom)`: the 256 bytes after `185, 1, 0`. */
  function EncodeBloom(bloom: Bloom): (r: seq<byte>)
    ensures r == EncodeBytes(bloom)
    ensures |r| == 259 && r[..3] == [185, 1, 0]
  {
    assert MinimalBigEndian(256) == [1, 0] by {
      assert MinimalBigEndian(1) == MinimalBigEndian(0) + [1];
    }
    [185, 1, 0] + bloom
  }

  /** Gathers the children's encodings in order, stopping at the first failure. */
  function Collect(results: seq<Result<seq<byte>, EncodeError>>): (r: Result<seq<seq<byte>>, EncodeError>)
    ensures r.Success? ==> |r.value| == |results| && forall i :: 0 <= i < |results| ==> results[i] == Success(r.value[i])
    ensures r.Failure? ==> exists i :: 0 <= i < |results| && results[i] == Failure(r.error)
                                       && forall j :: 0 <= j < i ==> results[j].Success?
  {
    if results == [] then Success([])
    else match results[0]
      case Failure(e) => Failure(e)
      case Success(first) =>
        match Collect(results[1..])
        case Failure(e) =>
          ghost var i :| 0 <= i < |results[1..]| && results[1..][i] == Failure(e)
                         && forall j :: 0 <= j < i ==> results[1..][j].Success?;
          assert results[i + 1] == Failure(e);
          Failure(e)
        case Success(rest) => Success([first] + rest)
  }

  /** `Encode(params object[])` once every child has been encoded. */
  function EncodeAll(results: seq<Result<seq<byte>, EncodeError>>): Result<seq<byte>, EncodeError>
  {
    match Collect(results)
    case Failure(e) => Failure(e)
    case Success(children) => EncodeRlps(children)
  }

  /** The first loop of `Encode(params Keccak[])`: each hash encoded on its own. */
  function KeccakEncodings(sequence: seq<Keccak>): (r: seq<seq<byte>>)
    ensures |r| == |sequence|
  {
    seq(|sequence|, i requires 0 <= i < |sequence| => EncodeKeccak(sequence[i]))
  }

  /** `Encode(params Keccak[])`. */
  function EncodeKeccaks(sequence: seq<Keccak>): Result<seq<byte>, EncodeError>
  {
    EncodeRlps(KeccakEncodings(sequence))
  }

  datatype Signature = Signature(v: Number, r: ByteArray, s: ByteArray)

  datatype Transaction = Transaction(
    nonce: Number, gasPrice: Number, gasLimit: Number, to: Option<Address>,
    value: Number, data: ByteArray, init: ByteArray, signature: Option<Signature>)

  datatype LogEntry = LogEntry(loggersAddress: Option<Address>, topics: seq<Keccak>, data: ByteArray)

  datatype BlockHeader = BlockHeader(
    parentHash: Keccak, ommersHash: Keccak, beneficiary: Option<Address>,
    stateRoot: Keccak, transactionsRoot: Keccak, receiptsRoot: Keccak, bloom: Bloom,
    difficulty: Number, number: Number, gasLimit: Number, gasUsed: Number,
    timestamp: Number, extraData: ByteArray, mixHash: Keccak, nonce: Number)

  datatype Block = Block(header: BlockHeader, transactions: seq<Transaction>, ommers: seq<BlockHeader>)

  datatype Account = Account(nonce: Number, balance: Number, storageRoot: Keccak, codeHash: Keccak)

  datatype TransactionReceipt = TransactionReceipt(
    statusCode: Number, postTransactionState: Keccak, gasUsed: Number, bloom: Bloom, logs: seq<LogEntry>)

  /** The fifteen header fields, in the order `Encode(BlockHeader)` lists them. */
  function HeaderFields(header: BlockHeader): (fields: seq<Result<seq<byte>, EncodeError>>)
    ensures |fields| == 15
  {
    HeaderHashFields(header) + HeaderValueFields(header)
  }

  /** Header fields 0..6: the parent and ommers hashes, the beneficiary, three roots and the bloom. */
  function HeaderHashFields(header: BlockHeader): seq<Result<seq<byte>, EncodeError>>
  {
    [Success(EncodeKeccak(header.parentHash)), Success(EncodeKeccak(header.ommersHash)),
     Success(EncodeAddress(header.beneficiary)), Success(EncodeKeccak(header.stateRoot)),
     Success(EncodeKeccak(header.transactionsRoot)), Success(EncodeKeccak(header.receiptsRoot)),
     Success(EncodeBloom(header.bloom))]
  }

  /** Header fields 7..14: difficulty, number, gas limit, gas used, timestamp, extra data, mix hash, nonce. */
  function HeaderValueFields(header: BlockHeader): seq<Result<seq<byte>, EncodeError>>
  {
    [EncodeNumber(header.difficulty), EncodeNumber(header.number),
     EncodeNumber(header.gasLimit), EncodeNumber(header.gasUsed), EncodeNumber(header.timestamp),
     Success(EncodeBytes(header.extraData)), Success(EncodeKeccak(header.mixHash)), EncodeNumber(header.nonce)]
  }

  /** `Encode(BlockHeader)`. */
  function EncodeHeader(header: BlockHeader): Result<seq<byte>, EncodeError>
  {
    EncodeAll(HeaderFields(header))
  }

  /** `Encode(LogEntry)`: address, topics as a list of hashes, data. */
  function EncodeLogEntry(logEntry: LogEntry): Result<seq<byte>, EncodeError>
  {
    EncodeAll([Success(EncodeAddress(logEntry.loggersAddress)), EncodeKeccaks(logEntry.topics),
               Success(EncodeBytes(logEntry.data))])
  }

  /** `Encode(Account)`: nonce, balance, storage root, code hash. */
  function EncodeAccount(account: Account): Result<seq<byte>, EncodeError>
  {
    EncodeAll([EncodeNumber(account.nonce), EncodeNumber(account.balance),
               Success(EncodeKeccak(account.storageRoot)), Success(EncodeKeccak(account.codeHash))])
  }

  /** The receipt fields: the status code under EIP-658, the post-transaction state root before it. */
  function ReceiptFields(receipt: TransactionReceipt, isEip658Enabled: bool): (fields: seq<Result<seq<byte>, EncodeError>>)
    ensures |fields| == 4
  {
    var logs := EncodeAll(LogEntryEncodings(receipt.logs));
    [if isEip658Enabled then EncodeNumber(receipt.statusCode) else Success(EncodeKeccak(receipt.postTransactionState)),
     EncodeNumber(receipt.gasUsed), Success(EncodeBloom(receipt.bloom)), logs]
  }

  /** The log entries of a receipt, each encoded through the object dispatch. */
  function LogEntryEncodings(logs: seq<LogEntry>): (r: seq<Result<seq<byte>, EncodeError>>)
    ensures |r| == |logs|
  {
    seq(|logs|, i requires 0 <= i < |logs| => EncodeLogEntry(logs[i]))
  }

  /** `Encode(TransactionReceipt, bool)`. */
  function EncodeReceipt(receipt: TransactionReceipt, isEip658Enabled: bool): Result<seq<byte>, EncodeError>
  {
    EncodeAll(ReceiptFields(receipt, isEip658Enabled))
  }

  /**
   * The transaction fields: six for signing without EIP-155; the chain id and
   * two zeros appended for EIP-155 signing; V and R and S without leading
   * zeros (or three nulls) otherwise. The sixth field is the init code of a
   * contract creation and the call data otherwise.
   */
  function TransactionFields(transaction: Transaction, forSigning: bool, eip155: bool, chainId: int32)
    : (fields: seq<Result<seq<byte>, EncodeError>>)
    ensures |fields| == if forSigning && !eip155 then 6 else 9
  {
    BaseFields(transaction) + SignatureFields(transaction, forSigning, eip155, chainId)
  }

  /** Fields 0..5 of a transaction: nonce, gas price, gas limit, recipient, value, code or data. */
  function BaseFields(transaction: Transaction): (fields: seq<Result<seq<byte>, EncodeError>>)
    ensures |fields| == 6
  {
    [EncodeNumber(transaction.nonce), EncodeNumber(transaction.gasPrice),
     EncodeNumber(transaction.gasLimit), Success(EncodeAddress(transaction.to)),
     EncodeNumber(transaction.value),
     Success(EncodeBytes(if transaction.to.None? then transaction.init else transaction.data))]
  }

  /** Fields 6..8 of a transaction: none, the EIP-155 chain id and two zeros, or the signature. */
  function SignatureFields(transaction: Transaction, forSigning: bool, eip155: bool, chainId: int32)
    : (fields: seq<Result<seq<byte>, EncodeError>>)
    ensures |fields| == if forSigning && !eip155 then 0 else 3
  {
    if forSigning then
      if eip155 then [EncodeNumber(Long(chainId)), Success(EncodeBigInteger(0)), Success(EncodeBigInteger(0))]
      else []
    else if transaction.signature.None? then
      [Success(OfEmptyByteArray), Success(OfEmptyByteArray), Success(OfEmptyByteArray)]
    else
      var signature := transaction.signature.value;
      [EncodeNumber(signature.v), Success(EncodeBytes(StripLeadingZeros(signature.r))),
       Success(EncodeBytes(StripLeadingZeros(signature.s)))]
  }

  /** `Encode(Transaction, bool, bool, int)`. */
  function EncodeTransactionFor(transaction: Transaction, forSigning: bool, eip155: bool, chainId: int32)
    : Result<seq<byte>, EncodeError>
  {
    EncodeAll(TransactionFields(transaction, forSigning, eip155, chainId))
  }

  /**
   * `Encode(Transaction, true, true, chainId)` as the source writes it:
   * `sequence[6]` holds the chain id as a boxed `int`, which the `long`
   * branch of `Encode(object)` cannot unbox.
   */
  function EncodeEip155SigningAsWritten(transaction: Transaction, chainId: int32): Result<seq<byte>, EncodeError>
  {
    EncodeAll(BaseFields(transaction)
      + [EncodeValue(SmallInteger(chainId)), Success(EncodeBigInteger(0)), Success(EncodeBigInteger(0))])
  }

  /**
   * As written, signing with EIP-155 never succeeds: it fails with the first
   * failing field, which is the chain id once the six base fields encode.
   */
  lemma Eip155SigningAsWrittenFails(transaction: Transaction, chainId: int32)
    ensures EncodeEip155SigningAsWritten(transaction, chainId).Failure?
    ensures (forall i :: 0 <= i < 6 ==> BaseFields(transaction)[i].Success?) ==>
            EncodeEip155SigningAsWritten(transaction, chainId) == Failure(InvalidCast)
  {
    var fields := BaseFields(transaction);
    var results := fields + [EncodeValue(SmallInteger(chainId)), Success(EncodeBigInteger(0)), Success(EncodeBigInteger(0))];
    assert results[6] == Failure(InvalidCast);
    if forall i :: 0 <= i < 6 ==> fields[i].Success? {
      assert forall i :: 0 <= i < 6 ==> results[i] == fields[i];
    }
  }

  /** `Encode(Transaction)`: the final, signed form. */
  function EncodeTransaction(transaction: Transaction): Result<seq<byte>, EncodeError>
  {
    EncodeTransactionFor(transaction, false, false, 0)
  }

  /** The ommer headers, each encoded through the object dispatch. */
  function HeaderEncodings(headers: seq<BlockHeader>): (r: seq<Result<seq<byte>, EncodeError>>)
    ensures |r| == |headers|
  {
    seq(|headers|, i requires 0 <= i < |headers| => EncodeHeader(headers[i]))
  }

  /**
   * `Encode(Block)`: header, transactions and ommers. The transactions go
   * through the object dispatch, which has no case for a transaction.
   */
  function EncodeBlock(block: Block): Result<seq<byte>, EncodeError>
  {
    EncodeAll([EncodeHeader(block.header), EncodeAll(TransactionEncodings(block.transactions)),
               EncodeAll(HeaderEncodings(block.ommers))])
  }

  /** The block's transactions as `Encode(object)` sees them: not a supported kind. */
  function TransactionEncodings(transactions: seq<Transaction>): (r: seq<Result<seq<byte>, EncodeError>>)
    ensures |r| == |transactions|
  {
    seq(|transactions|, _ => Failure(NotSupported("Transaction")))
  }

  /** The runtime kinds `Encode(object)` distinguishes. */
  datatype Value =
    | LongValue(long: long)      // a boxed long
    | SmallInteger(small: int)   // a boxed byte, short, int, ushort or uint
    | Null
    | BigIntegerValue(big: BigInteger)
    | Text(text: DotNetString)
    | RlpValue(rlp: seq<byte>)
    | ULongValue(ulong: ulong)
    | Objects(objects: seq<Value>)
    | ByteArrayValue(bytes: ByteArray)
    | KeccakValue(keccak: Keccak)
    | KeccakArray(keccaks: seq<Keccak>)
    | AddressValue(address: Address)
    | LogEntryValue(logEntry: LogEntry)
    | BlockValue(block: Block)
    | HeaderValue(header: BlockHeader)
    | BloomValue(bloom: Bloom)
    | Unsupported(typeName: string)

  /**
   * `Encode(object)`: the encoding chosen by the runtime kind of the value.
   * A boxed integer narrower than `long` matches the integer case but fails
   * when `(long)item` unboxes it.
   */
  function EncodeValue(item: Value): Result<seq<byte>, EncodeError>
  {
    match item
    case LongValue(n) => EncodeNumber(Long(n))
    case SmallInteger(_) => Failure(InvalidCast)
    case Null => Success(OfEmptyByteArray)
    case BigIntegerValue(n) => Success(EncodeBigInteger(n))
    case Text(s) => Success(EncodeBytes(AsciiBytes(s)))
    case RlpValue(rlp) => Success(rlp)
    case ULongValue(n) => EncodeNumber(ULong(n))
    case Objects(objects) =>
      EncodeAll(seq(|objects|, i requires 0 <= i < |objects| => EncodeValue(objects[i])))
    case ByteArrayValue(bytes) => Success(EncodeBytes(bytes))
    case KeccakValue(keccak) => Success(EncodeKeccak(keccak))
    case KeccakArray(keccaks) => EncodeKeccaks(keccaks)
    case AddressValue(address) => Success(EncodeAddress(Some(address)))
    case LogEntryValue(logEntry) => EncodeLogEntry(logEntry)
    case BlockValue(block) => EncodeBlock(block)
    case HeaderValue(header) => EncodeHeader(header)
    case BloomValue(bloom) => Success(EncodeBloom(bloom))
    case Unsupported(name) => Failure(NotSupported(name))
  }

  /** `Equals(Rlp)`: false for null, otherwise a byte-by-byte comparison. */
  function RlpEquals(bytes: seq<byte>, other: Option<seq<byte>>): (r: bool)
    ensures r <==> other.Some? && other.value == bytes
  {
    match other
    case None => false
    case Some(o) => |o| == |bytes| && forall i :: 0 <= i < |o| ==> o[i] == bytes[i]
  }

  /** The aggregate types with a registered decoder. */
  datatype RlpType = TransactionType | AccountType | BlockType | BlockHeaderType | OtherType(name: string)

  const Decoders: set<RlpType> := {TransactionType, AccountType, BlockType, BlockHeaderType}

  /** A successful `Decode<T>` hands the bytes to the decoder registered for `T`. */
  datatype Delegation = Delegated(decoder: RlpType, rlp: seq<byte>)

  datatype RegistryError = NotImplemented

  /** `Decode<T>`: only the four registered types have a decoder. */
  function DecodeAs(t: RlpType, rlp: seq<byte>): (r: Result<Delegation, RegistryError>)
    ensures r.Failure? <==> !(t.TransactionType? || t.AccountType? || t.BlockType? || t.BlockHeaderType?)
    ensures r.Success? ==> r.value.decoder == t && r.value.rlp == rlp
  {
    if t in Decoders then Success(Delegated(t, rlp)) else Failure(NotImplemented)
  }
}
