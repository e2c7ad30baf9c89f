/**
 * What the aggregate encoders write, read back through the decoder: the
 * encoding of a header, account, log entry, receipt, transaction or block
 * decodes to a list whose i-th item is the i-th field of the type's field
 * order, and the EIP-658 and EIP-155 variants differ from the plain forms
 * only in the fields they replace or add.
 */
module RlpAggregates {
  import opened Wrappers
  import opened ByteSeq
  import opened RlpLength
  import opened RlpDecoding
  import opened RlpEncoding
  import opened RlpRoundTrip

  /** `r`, when it succeeds, is the encoding of `x`. */
  ghost predicate Encodes(r: Result<seq<byte>, EncodeError>, x: Item)
  {
    r.Success? ==> r == EncodeItem(x)
  }

  ghost predicate EncodesAll(results: seq<Result<seq<byte>, EncodeError>>, xs: seq<Item>)
  {
    |results| == |xs| && forall i :: 0 <= i < |xs| ==> Encodes(results[i], xs[i])
  }

  /** Encoding fields that each encode an item is encoding the list of those items. */
  lemma {:induction false} EncodeAllItems(results: seq<Result<seq<byte>, EncodeError>>, xs: seq<Item>)
    requires EncodesAll(results, xs)
    ensures Encodes(EncodeAll(results), List(xs))
  {
    if EncodeAll(results).Success? {
      var children := Collect(results).value;
      forall i | 0 <= i < |xs|
        ensures results[i] == EncodeItem(xs[i])
      {
        assert results[i] == Success(children[i]);
      }
      CollectChildren(xs, results);
    }
  }

  /** A sequence of successes is collected as it is. */
  lemma {:induction false} CollectSuccesses(parts: seq<seq<byte>>, results: seq<Result<seq<byte>, EncodeError>>)
    requires |results| == |parts| && forall i :: 0 <= i < |parts| ==> results[i] == Success(parts[i])
    ensures Collect(results) == Success(parts)
    decreases parts
  {
    if parts != [] {
      CollectSuccesses(parts[1..], results[1..]);
      assert [parts[0]] + parts[1..] == parts;
    }
  }

  /** Fields that encode their items, followed by more such fields. */
  lemma {:induction false} EncodesAppend(r1: seq<Result<seq<byte>, EncodeError>>, xs1: seq<Item>,
                                         r2: seq<Result<seq<byte>, EncodeError>>, xs2: seq<Item>)
    requires EncodesAll(r1, xs1) && EncodesAll(r2, xs2)
    ensures EncodesAll(r1 + r2, xs1 + xs2)
  {
    forall i | 0 <= i < |xs1 + xs2|
      ensures Encodes((r1 + r2)[i], (xs1 + xs2)[i])
    {
      if i < |xs1| {
        assert (r1 + r2)[i] == r1[i] && (xs1 + xs2)[i] == xs1[i];
      } else {
        assert (r1 + r2)[i] == r2[i - |xs1|] && (xs1 + xs2)[i] == xs2[i - |xs1|];
      }
    }
  }

  /** The bytes an integer field is written as: the minimal big-endian form, eight bytes for a `ulong`. */
  function NumberBytes(x: Number): (b: ByteArray)
    ensures x.Long? && x.long >= 0 ==> b == MinimalBigEndian(x.long)
  {
    match x
    case Long(v) =>
      if v < 0 then []
      else
        MinimalBigEndianLong(v);
        MinimalBigEndian(v)
    case ULong(v) =>
      FixedBigEndianLength(v, 8);
      FixedBigEndian(v, 8)
    case Big(v) => MinimalBigEndian(v)
  }

  /** An integer field that encodes decodes to its big-endian bytes; only a negative `long` fails. */
  lemma NumberEncodes(x: Number)
    ensures Encodes(EncodeNumber(x), Bytes(NumberBytes(x)))
    ensures EncodeNumber(x).Failure? <==> x.Long? && x.long < 0
  {
  }

  /** The bytes of an address field: none for a null address. */
  function AddressBytes(address: Option<Address>): (b: ByteArray)
    ensures address.Some? ==> b == address.value
  {
    if address.None? then [] else address.value
  }

  lemma AddressEncodes(address: Option<Address>)
    ensures Encodes(Success(EncodeAddress(address)), Bytes(AddressBytes(address)))
  {
  }

  /** The topics of a log entry: a list of 32-byte strings. */
  function TopicsItem(topics: seq<Keccak>): Item
  {
    List(seq(|topics|, i requires 0 <= i < |topics| => Bytes(topics[i])))
  }

  lemma {:induction false} TopicsEncode(topics: seq<Keccak>)
    ensures Encodes(EncodeKeccaks(topics), TopicsItem(topics))
  {
    var parts := KeccakEncodings(topics);
    var results := seq(|parts|, i requires 0 <= i < |parts| => Success(parts[i]));
    CollectSuccesses(parts, results);
    EncodeAllItems(results, TopicsItem(topics).items);
  }

  /** A log entry: address, topics, data. */
  function LogEntryItem(logEntry: LogEntry): Item
  {
    List([Bytes(AddressBytes(logEntry.loggersAddress)), TopicsItem(logEntry.topics), Bytes(logEntry.data)])
  }

  lemma {:induction false} LogEntryEncodes(logEntry: LogEntry)
    ensures Encodes(EncodeLogEntry(logEntry), LogEntryItem(logEntry))
  {
    TopicsEncode(logEntry.topics);
    EncodeAllItems([Success(EncodeAddress(logEntry.loggersAddress)), EncodeKeccaks(logEntry.topics),
                    Success(EncodeBytes(logEntry.data))], LogEntryItem(logEntry).items);
  }

  /** `Decode(Encode(logEntry))`: the address, the list of topics and the data. */
  lemma {:induction false} LogEntryRoundTrip(logEntry: LogEntry, e: seq<byte>)
    requires EncodeLogEntry(logEntry) == Success(e)
    ensures Parse(e) == Success(List([Bytes(AddressBytes(logEntry.loggersAddress)),
                                      TopicsItem(logEntry.topics), Bytes(logEntry.data)]))
  {
    LogEntryEncodes(logEntry);
    ItemRoundTrip(LogEntryItem(logEntry), e);
  }

  /** The fifteen header fields, in order. */
  function HeaderItems(header: BlockHeader): (xs: seq<Item>)
    ensures |xs| == 15
  {
    HeaderHashItems(header) + HeaderValueItems(header)
  }

  /** Header fields 0..6: parent hash, ommers hash, beneficiary, the three roots, bloom. */
  function HeaderHashItems(header: BlockHeader): (xs: seq<Item>)
    ensures |xs| == 7
  {
    [Bytes(header.parentHash), Bytes(header.ommersHash), Bytes(AddressBytes(header.beneficiary)),
     Bytes(header.stateRoot), Bytes(header.transactionsRoot), Bytes(header.receiptsRoot),
     Bytes(header.bloom)]
  }

  /** Header fields 7..14: difficulty, number, gas limit, gas used, timestamp, extra data, mix hash, nonce. */
  function HeaderValueItems(header: BlockHeader): (xs: seq<Item>)
    ensures |xs| == 8
  {
    [Bytes(NumberBytes(header.difficulty)), Bytes(NumberBytes(header.number)),
     Bytes(NumberBytes(header.gasLimit)), Bytes(NumberBytes(header.gasUsed)),
     Bytes(NumberBytes(header.timestamp)), Bytes(header.extraData), Bytes(header.mixHash),
     Bytes(NumberBytes(header.nonce))]
  }

  lemma {:induction false} HeaderHashFieldsEncode(header: BlockHeader)
    ensures EncodesAll(HeaderHashFields(header), HeaderHashItems(header))
  {
  }

  lemma {:induction false} HeaderValueFieldsEncode(header: BlockHeader)
    ensures EncodesAll(HeaderValueFields(header), HeaderValueItems(header))
  {
    NumberEncodes(header.difficulty);
    NumberEncodes(header.number);
    NumberEncodes(header.gasLimit);
    NumberEncodes(header.gasUsed);
    NumberEncodes(header.timestamp);
    NumberEncodes(header.nonce);
  }

  lemma {:induction false} HeaderEncodes(header: BlockHeader)
    ensures Encodes(EncodeHeader(header), List(HeaderItems(header)))
  {
    HeaderHashFieldsEncode(header);
    HeaderValueFieldsEncode(header);
    EncodesAppend(HeaderHashFields(header), HeaderHashItems(header),
                  HeaderValueFields(header), HeaderValueItems(header));
    EncodeAllItems(HeaderFields(header), HeaderItems(header));
  }

  /**
   * `Decode(Encode(header))` is the list of the fifteen fields from the parent
   * hash to the nonce.
   */
  lemma {:induction false} HeaderRoundTrip(header: BlockHeader, e: seq<byte>)
    requires EncodeHeader(header) == Success(e)
    ensures Parse(e) == Success(List(HeaderItems(header)))
  {
    HeaderEncodes(header);
    ItemRoundTrip(List(HeaderItems(header)), e);
  }

  /** The four account fields, in order. */
  function AccountItems(account: Account): (xs: seq<Item>)
    ensures |xs| == 4
  {
    [Bytes(NumberBytes(account.nonce)), Bytes(NumberBytes(account.balance)),
     Bytes(account.storageRoot), Bytes(account.codeHash)]
  }

  /** `Decode(Encode(account))`: nonce, balance, storage root, code hash. */
  lemma {:induction false} AccountRoundTrip(account: Account, e: seq<byte>)
    requires EncodeAccount(account) == Success(e)
    ensures Parse(e) == Success(List(AccountItems(account)))
  {
    NumberEncodes(account.nonce);
    NumberEncodes(account.balance);
    EncodeAllItems([EncodeNumber(account.nonce), EncodeNumber(account.balance),
                    Success(EncodeKeccak(account.storageRoot)), Success(EncodeKeccak(account.codeHash))],
                   AccountItems(account));
    ItemRoundTrip(List(AccountItems(account)), e);
  }

  /** The receipt fields: status code or state root, gas used, bloom, the list of logs. */
  function ReceiptItems(receipt: TransactionReceipt, isEip658Enabled: bool): (xs: seq<Item>)
    ensures |xs| == 4
  {
    [if isEip658Enabled then Bytes(NumberBytes(receipt.statusCode)) else Bytes(receipt.postTransactionState),
     Bytes(NumberBytes(receipt.gasUsed)), Bytes(receipt.bloom),
     List(LogEntryItems(receipt.logs))]
  }

  /** The receipt's logs, each decoded as a log entry. */
  function LogEntryItems(logs: seq<LogEntry>): (xs: seq<Item>)
    ensures |xs| == |logs|
  {
    seq(|logs|, i requires 0 <= i < |logs| => LogEntryItem(logs[i]))
  }

  lemma {:induction false} LogsEncode(logs: seq<LogEntry>)
    ensures Encodes(EncodeAll(LogEntryEncodings(logs)), List(LogEntryItems(logs)))
  {
    var results := LogEntryEncodings(logs);
    var items := LogEntryItems(logs);
    forall i | 0 <= i < |logs|
      ensures Encodes(results[i], items[i])
    {
      LogEntryEncodes(logs[i]);
    }
    EncodeAllItems(results, items);
  }

  lemma {:induction false} ReceiptEncodes(receipt: TransactionReceipt, isEip658Enabled: bool)
    ensures Encodes(EncodeReceipt(receipt, isEip658Enabled), List(ReceiptItems(receipt, isEip658Enabled)))
  {
    LogsEncode(receipt.logs);
    NumberEncodes(receipt.statusCode);
    NumberEncodes(receipt.gasUsed);
    EncodeAllItems(ReceiptFields(receipt, isEip658Enabled), ReceiptItems(receipt, isEip658Enabled));
  }

  /** `Decode(Encode(receipt, isEip658Enabled))` is the list of the four receipt fields. */
  lemma {:induction false} ReceiptRoundTrip(receipt: TransactionReceipt, isEip658Enabled: bool, e: seq<byte>)
    requires EncodeReceipt(receipt, isEip658Enabled) == Success(e)
    ensures Parse(e) == Success(List(ReceiptItems(receipt, isEip658Enabled)))
  {
    ReceiptEncodes(receipt, isEip658Enabled);
    ItemRoundTrip(List(ReceiptItems(receipt, isEip658Enabled)), e);
  }

  /**
   * Under EIP-658 the receipt carries the status code where it carried the
   * post-transaction state root; the other three fields decode the same.
   */
  lemma {:induction false} ReceiptVariants(receipt: TransactionReceipt, e658: seq<byte>, e: seq<byte>)
    requires EncodeReceipt(receipt, true) == Success(e658) && EncodeReceipt(receipt, false) == Success(e)
    ensures Parse(e658).Success? && Parse(e658).value.List? && Parse(e).Success? && Parse(e).value.List?
    ensures |Parse(e658).value.items| == |Parse(e).value.items| == 4
    ensures Parse(e658).value.items[1..] == Parse(e).value.items[1..]
    ensures Parse(e658).value.items[0] == Bytes(NumberBytes(receipt.statusCode))
    ensures Parse(e).value.items[0] == Bytes(receipt.postTransactionState)
  {
    ReceiptRoundTrip(receipt, true, e658);
    ReceiptRoundTrip(receipt, false, e);
  }

  /** The six fields every transaction form starts with; the sixth is the init code of a creation. */
  function BaseTransactionItems(transaction: Transaction): (xs: seq<Item>)
    ensures |xs| == 6
  {
    [Bytes(NumberBytes(transaction.nonce)), Bytes(NumberBytes(transaction.gasPrice)),
     Bytes(NumberBytes(transaction.gasLimit)), Bytes(AddressBytes(transaction.to)),
     Bytes(NumberBytes(transaction.value)),
     Bytes(if transaction.to.None? then transaction.init else transaction.data)]
  }

  /**
   * The fields after the base six: none when signing without EIP-155, the
   * chain id and two empty strings when signing with it, otherwise V and R and
   * S without leading zeros, or three empty strings for an unsigned transaction.
   */
  function SignatureItems(transaction: Transaction, forSigning: bool, eip155: bool, chainId: int32): (xs: seq<Item>)
    ensures |xs| == if forSigning && !eip155 then 0 else 3
  {
    if forSigning then
      if eip155 then [Bytes(NumberBytes(Long(chainId))), Bytes([]), Bytes([])] else []
    else if transaction.signature.None? then [Bytes([]), Bytes([]), Bytes([])]
    else
      var signature := transaction.signature.value;
      [Bytes(NumberBytes(signature.v)), Bytes(StripLeadingZeros(signature.r)), Bytes(StripLeadingZeros(signature.s))]
  }

  function TransactionItems(transaction: Transaction, forSigning: bool, eip155: bool, chainId: int32): (xs: seq<Item>)
    ensures |xs| == if forSigning && !eip155 then 6 else 9
  {
    BaseTransactionItems(transaction) + SignatureItems(transaction, forSigning, eip155, chainId)
  }

  lemma {:induction false} TransactionEncodes(transaction: Transaction, forSigning: bool, eip155: bool, chainId: int32)
    ensures Encodes(EncodeTransactionFor(transaction, forSigning, eip155, chainId),
                    List(TransactionItems(transaction, forSigning, eip155, chainId)))
  {
    BaseFieldsEncode(transaction);
    SignatureFieldsEncode(transaction, forSigning, eip155, chainId);
    EncodesAppend(BaseFields(transaction), BaseTransactionItems(transaction),
                  SignatureFields(transaction, forSigning, eip155, chainId),
                  SignatureItems(transaction, forSigning, eip155, chainId));
    EncodeAllItems(TransactionFields(transaction, forSigning, eip155, chainId),
                   TransactionItems(transaction, forSigning, eip155, chainId));
  }

  lemma {:induction false} BaseFieldsEncode(transaction: Transaction)
    ensures EncodesAll(BaseFields(transaction), BaseTransactionItems(transaction))
  {
    NumberEncodes(transaction.nonce);
    NumberEncodes(transaction.gasPrice);
    NumberEncodes(transaction.gasLimit);
    NumberEncodes(transaction.value);
  }

  lemma {:induction false} SignatureFieldsEncode(transaction: Transaction, forSigning: bool, eip155: bool,
                                                 chainId: int32)
    ensures EncodesAll(SignatureFields(transaction, forSigning, eip155, chainId),
                       SignatureItems(transaction, forSigning, eip155, chainId))
  {
    NumberEncodes(Long(chainId));
    if transaction.signature.Some? {
      NumberEncodes(transaction.signature.value.v);
    }
  }

  /**
   * `Decode(Encode(transaction, forSigning, eip155, chainId))` is the list of
   * the six base fields followed by the signature fields of that form.
   */
  lemma {:induction false} TransactionRoundTrip(transaction: Transaction, forSigning: bool, eip155: bool,
                                                chainId: int32, e: seq<byte>)
    requires EncodeTransactionFor(transaction, forSigning, eip155, chainId) == Success(e)
    ensures Parse(e) == Success(List(TransactionItems(transaction, forSigning, eip155, chainId)))
  {
    TransactionEncodes(transaction, forSigning, eip155, chainId);
    ItemRoundTrip(List(TransactionItems(transaction, forSigning, eip155, chainId)), e);
  }

  /**
   * The three transaction forms agree on the six base fields: signing without
   * EIP-155 decodes to exactly those six, EIP-155 signing adds the chain id and
   * two empty strings, and the final form adds the signature.
   */
  lemma {:induction false} TransactionVariants(transaction: Transaction, chainId: int32,
                                               signing: seq<byte>, eip155: seq<byte>, signed: seq<byte>)
    requires EncodeTransactionFor(transaction, true, false, chainId) == Success(signing)
    requires EncodeTransactionFor(transaction, true, true, chainId) == Success(eip155)
    requires EncodeTransaction(transaction) == Success(signed)
    ensures Parse(signing).Success? && Parse(signing).value.List? && 0 <= chainId
    ensures Parse(eip155) == Success(List(Parse(signing).value.items +
                                          [Bytes(NumberBytes(Long(chainId))), Bytes([]), Bytes([])]))
    ensures Parse(signed).Success? && Parse(signed).value.List? && |Parse(signed).value.items| == 9
    ensures Parse(signed).value.items[..6] == Parse(signing).value.items
  {
    TransactionRoundTrip(transaction, true, false, chainId, signing);
    TransactionRoundTrip(transaction, true, true, chainId, eip155);
    TransactionRoundTrip(transaction, false, false, 0, signed);
    var fields := TransactionFields(transaction, true, true, chainId);
    EncodeAllSucceeds(fields, 6);
    assert fields[6] == EncodeNumber(Long(chainId));
    NumberEncodes(Long(chainId));
    var base := BaseTransactionItems(transaction);
    assert TransactionItems(transaction, true, false, chainId) == base;
    assert TransactionItems(transaction, false, false, 0)[..6] == base;
  }

  /** When the list encodes, so does each of its fields. */
  lemma {:induction false} EncodeAllSucceeds(results: seq<Result<seq<byte>, EncodeError>>, i: int)
    requires EncodeAll(results).Success? && 0 <= i < |results|
    ensures results[i].Success?
  {
    assert Collect(results).Success?;
  }

  /**
   * `Decode(Encode(block))`: the header's fields, an empty list of
   * transactions and the ommers' fields. A block with a transaction fails,
   * because the object dispatch has no case for one.
   */
  lemma {:induction false} BlockRoundTrip(block: Block, e: seq<byte>)
    requires EncodeBlock(block) == Success(e)
    ensures block.transactions == []
    ensures Parse(e) == Success(List([List(HeaderItems(block.header)), List([]), List(OmmerItems(block.ommers))]))
  {
    var fields := [EncodeHeader(block.header), EncodeAll(TransactionEncodings(block.transactions)),
                   EncodeAll(HeaderEncodings(block.ommers))];
    var items := [List(HeaderItems(block.header)), List([]), List(OmmerItems(block.ommers))];
    EncodeAllSucceeds(fields, 1);
    TransactionsEncode(block.transactions);
    OmmersEncode(block.ommers);
    HeaderEncodes(block.header);
    EncodesThree(fields[0], items[0], fields[1], items[1], fields[2], items[2]);
    EncodeAllItems(fields, items);
    ItemRoundTrip(List(items), e);
  }

  lemma {:induction false} EncodesThree(r0: Result<seq<byte>, EncodeError>, x0: Item,
                                        r1: Result<seq<byte>, EncodeError>, x1: Item,
                                        r2: Result<seq<byte>, EncodeError>, x2: Item)
    requires Encodes(r0, x0) && Encodes(r1, x1) && Encodes(r2, x2)
    ensures EncodesAll([r0, r1, r2], [x0, x1, x2])
  {
  }

  /** The ommers of a block: each a list of header fields. */
  function OmmerItems(ommers: seq<BlockHeader>): (xs: seq<Item>)
    ensures |xs| == |ommers|
  {
    seq(|ommers|, i requires 0 <= i < |ommers| => List(HeaderItems(ommers[i])))
  }

  lemma {:induction false} OmmersEncode(ommers: seq<BlockHeader>)
    ensures Encodes(EncodeAll(HeaderEncodings(ommers)), List(OmmerItems(ommers)))
  {
    var results := HeaderEncodings(ommers);
    var items := OmmerItems(ommers);
    forall i | 0 <= i < |ommers|
      ensures Encodes(results[i], items[i])
    {
      HeaderEncodes(ommers[i]);
    }
    EncodeAllItems(results, items);
  }

  /** The transactions of a block encode only when there are none, as the empty list. */
  lemma {:induction false} TransactionsEncode(transactions: seq<Transaction>)
    ensures EncodeAll(TransactionEncodings(transactions)).Success? <==> transactions == []
    ensures Encodes(EncodeAll(TransactionEncodings(transactions)), List([]))
  {
    var results := TransactionEncodings(transactions);
    if transactions == [] {
      assert results == [];
      EncodeAllItems(results, []);
    } else {
      assert results[0] == Failure(NotSupported("Transaction"));
    }
  }
}
