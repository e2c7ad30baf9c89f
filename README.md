# RLP codec, Elias-Fano block-number index and RLPx frame decoder

A Dafny model of three pieces of an Ethereum client:

- **The RLP codec** (`Rlp.cs`). RLP is the Recursive Length Prefix encoding of Appendix B of the Ethereum Yellow Paper.
  - The decoder is modelled twice and proved equal: a pure reading of the prefix grammar (`ParseItem`, `ParseChildren`), and the cursor-driven implementation (`DecoderContext`, `DecodeItem`, `Decode`).
  - The encoders cover byte arrays, lengths, numbers, `BigInteger`, `Keccak`, `Address`, `Bloom` and nested `object[]`, plus the aggregate encoders of block headers, blocks, log entries, accounts, receipts and transactions.
  - Every encoding decodes back to the value it encodes (`RoundTrip`, and one round trip per aggregate).
  - The decoder's error cases are stated for all inputs (`RlpRejection`). Two inputs it accepts although they are not canonical are recorded under Findings.
- **The block-number index** (`EliasFanoStorage.cs`). It maps a key to the block numbers stored for it, with `Get`, `Put` and `PutAll`.
  - `Match` collects one sorted list for the addresses and one per topic group, then runs a k-way merge that keeps the numbers present in every list.
  - The merge is the source's `while` loop over an index array. It is proved to return exactly the numbers that every group selects, in increasing order.
- **The RLPx frame decoder** (`ZeroNettyFrameDecoder.cs`). It is a two-state machine that reads a 32-byte header, takes a 24-bit frame size from it, then waits for the frame padded to 16 bytes plus a 16-byte MAC.
  - The class is proved against a pure step function (`DecodeStep`).
  - Lemmas give the state, size, padding and consumption rules.

Modules: `Wrappers` (`Option`, `Result`), `ByteSeq` (bytes and big-endian numbers), `RlpLength`, `RlpDecoding`, `RlpEncoding`, `RlpRoundTrip`, `RlpAggregates`, `RlpRejection`, `EliasFano`, `FrameDecoding`.

## Model

| member | source | states |
|---|---|---|
| RlpDecoding.ParseString | src/Nevermind/Nevermind.Core/Encoding/Rlp.cs:99-130 | a string read after a prefix in 129..191 ends within the buffer, after the prefix |
| RlpDecoding.ParseListLength | src/Nevermind/Nevermind.Core/Encoding/Rlp.cs:132-151 | a list's declared content length is non-negative and its length bytes lie within the buffer |
| RlpDecoding.ParseItem | src/Nevermind/Nevermind.Core/Encoding/Rlp.cs:79-162 | an item read at a position ends after it and within the buffer |
| RlpDecoding.ParseChildren | src/Nevermind/Nevermind.Core/Encoding/Rlp.cs:153-158 | children are read until the position reaches or passes the end of the content, never short of it |
| RlpDecoding.DecoderContext.constructor | src/Nevermind/Nevermind.Core/Encoding/Rlp.cs:518-522 | the cursor starts at 0 with the buffer length as its limit |
| RlpDecoding.DecoderContext.Pop | src/Nevermind/Nevermind.Core/Encoding/Rlp.cs:528-531 | the index advances by one even when the read past the end fails |
| RlpDecoding.DecoderContext.PopBytes | src/Nevermind/Nevermind.Core/Encoding/Rlp.cs:533-539 | the next n bytes and the index past them, or a failure with the index unmoved |
| RlpDecoding.ReadString | src/Nevermind/Nevermind.Core/Encoding/Rlp.cs:99-130 | the cursor code of the string branches gives what `ParseString` gives, and leaves the cursor where it ends |
| RlpDecoding.ReadListLength | src/Nevermind/Nevermind.Core/Encoding/Rlp.cs:132-151 | the cursor code of the list-length branches gives what `ParseListLength` gives |
| RlpDecoding.DecodeItem | src/Nevermind/Nevermind.Core/Encoding/Rlp.cs:60-163 | the recursive decoder with its child loop returns `ParseItem`'s result, checked against the end when `check` is set |
| RlpDecoding.Decode | src/Nevermind/Nevermind.Core/Encoding/Rlp.cs:55-58 | decoding a whole buffer is `Parse`: one item ending exactly at the end |
| RlpDecoding.CheckAndReturn | src/Nevermind/Nevermind.Core/Encoding/Rlp.cs:62-75 | defined as the local check: a failed read keeps its error, a read not ending at `maxIndex` fails with trailing bytes when `check` is set, otherwise the item |
| RlpDecoding.Parse | src/Nevermind/Nevermind.Core/Encoding/Rlp.cs:55-58 | defined as `ParseItem` at position 0 checked against the buffer length; its error cases are the `RlpRejection` lemmas |
| RlpLength.ToInt32 | src/Nevermind/Nevermind.Core/Encoding/Rlp.cs:175 | four bytes read as a two's-complement int, negative exactly when the top bit is set |
| RlpLength.DeserializeLengthValue | src/Nevermind/Nevermind.Core/Encoding/Rlp.cs:165-176 | up to four length bytes read as the int view of their big-endian value |
| RlpLength.DeserializeLengthRange | src/Nevermind/Nevermind.Core/Encoding/Rlp.cs:165-176 | more than four bytes fail; fewer than four give their unsigned value; four with the top bit set give a negative length |
| RlpLength.DeserializeLength | src/Nevermind/Nevermind.Core/Encoding/Rlp.cs:165-176 | succeeds exactly for at most four bytes, with a value in the int range |
| RlpLength.SerializeLength | src/Nevermind/Nevermind.Core/Encoding/Rlp.cs:327-357 | the eight shifted bytes with leading zeros stripped; for a non-negative value, its minimal big-endian bytes |
| RlpLength.LengthRoundTrip | src/Nevermind/Nevermind.Core/Encoding/Rlp.cs:165-176 | reading back the minimal bytes of a length gives the length |
| RlpEncoding.ContentLength | src/Nevermind/Nevermind.Core/Encoding/Rlp.cs:191-195 | the first loop sums the children's lengths |
| RlpEncoding.Concatenate | src/Nevermind/Nevermind.Core/Encoding/Rlp.cs:197-203 | the second loop copies the children one after another into the content buffer |
| RlpEncoding.EncodeList | src/Nevermind/Nevermind.Core/Encoding/Rlp.cs:189-213 | the list prefix followed by the concatenated children, or an overflow once the content exceeds an int |
| RlpEncoding.EncodeRlps | src/Nevermind/Nevermind.Core/Encoding/Rlp.cs:189-213 | defined as `Overflow` when the concatenated children exceed `int.MaxValue` bytes, otherwise `EncodeSequence` |
| RlpEncoding.EncodeSequence | src/Nevermind/Nevermind.Core/Encoding/Rlp.cs:205-212 | defined as the list prefix of the content length followed by the concatenated children |
| RlpEncoding.EncodeRlpsShape | src/Nevermind/Nevermind.Core/Encoding/Rlp.cs:189-213 | fails exactly past `int.MaxValue` bytes of content; otherwise a list prefix (first byte 192 or more, at most five bytes) followed by the children |
| RlpEncoding.EncodeBytes | src/Nevermind/Nevermind.Core/Encoding/Rlp.cs:304-325 | defined as 128 for the empty array, the byte itself for one byte below 128, otherwise the string prefix and the bytes; its decoding is `BytesRoundTrip` |
| RlpEncoding.EncodeBytesShape | src/Nevermind/Nevermind.Core/Encoding/Rlp.cs:304-325 | an array is its own encoding exactly when it is one byte below 128; otherwise a string prefix (first byte 128..191, at most five bytes) comes before the array, which ends the encoding |
| RlpEncoding.EncodeValue | src/Nevermind/Nevermind.Core/Encoding/Rlp.cs:231-297 | defined by the runtime kind: a long as a number, a narrower boxed integer as an invalid cast, null as the empty string, and the other kinds through their encoders; `EncodeItemIsEncodeValue` ties it to the item encoding |
| RlpEncoding.EncodeKeccaks | src/Nevermind/Nevermind.Core/Encoding/Rlp.cs:178-187 | defined as the list of the hashes' encodings; `TopicsEncode` states it |
| RlpEncoding.EncodeBigInteger | src/Nevermind/Nevermind.Core/Encoding/Rlp.cs:226-229 | zero gives the empty string; otherwise the minimal big-endian bytes as a string |
| RlpEncoding.EncodeNumber | src/Nevermind/Nevermind.Core/Encoding/Rlp.cs:235-275 | a non-negative long is the string of its minimal big-endian bytes, a negative one fails as `Convert.ToByte` does, and a ulong is its eight bytes |
| RlpEncoding.AsciiBytes | src/Nevermind/Nevermind.Core/Encoding/Rlp.cs:299-302 | one byte per character, `?` for a character outside ASCII |
| RlpEncoding.EncodeKeccak | src/Nevermind/Nevermind.Core/Encoding/Rlp.cs:475-481 | prefix 160 then the 32 bytes, the same bytes the general byte-array encoder gives |
| RlpEncoding.DecodeKeccak | src/Nevermind/Nevermind.Core/Encoding/Rlp.cs:483-486 | bytes 1..32, and a failure on a shorter buffer |
| RlpEncoding.KeccakRoundTrip | src/Nevermind/Nevermind.Core/Encoding/Rlp.cs:475-486 | decoding an encoded hash gives it back |
| RlpEncoding.EncodeAddress | src/Nevermind/Nevermind.Core/Encoding/Rlp.cs:488-499 | null gives the empty string; otherwise prefix 148 and 20 bytes, as the general encoder gives |
| RlpEncoding.EncodeBloom | src/Nevermind/Nevermind.Core/Encoding/Rlp.cs:385-393 | 185, 1, 0 then the 256 bytes, as the general encoder gives |
| RlpEncoding.Collect | src/Nevermind/Nevermind.Core/Encoding/Rlp.cs:215-224 | every element encoded in order, or the first element's failure |
| RlpEncoding.HeaderFields | src/Nevermind/Nevermind.Core/Encoding/Rlp.cs:359-378 | a header is encoded as fifteen fields |
| RlpEncoding.ReceiptFields | src/Nevermind/Nevermind.Core/Encoding/Rlp.cs:413-429 | a receipt is encoded as four fields |
| RlpEncoding.TransactionFields | src/Nevermind/Nevermind.Core/Encoding/Rlp.cs:441-468 | six fields when signing without EIP-155, nine otherwise |
| RlpEncoding.EncodeHeader | src/Nevermind/Nevermind.Core/Encoding/Rlp.cs:359-378 | defined as the list of the fifteen header fields; `HeaderEncodes` and `HeaderRoundTrip` state it |
| RlpEncoding.EncodeBlock | src/Nevermind/Nevermind.Core/Encoding/Rlp.cs:380-383 | defined as the list of header, transactions and ommers; `BlockRoundTrip` states it |
| RlpEncoding.EncodeLogEntry | src/Nevermind/Nevermind.Core/Encoding/Rlp.cs:395-402 | defined as the list of address, topics and data; `LogEntryEncodes` and `LogEntryRoundTrip` state it |
| RlpEncoding.EncodeAccount | src/Nevermind/Nevermind.Core/Encoding/Rlp.cs:404-411 | defined as the list of nonce, balance, storage root and code hash; `AccountRoundTrip` states it |
| RlpEncoding.EncodeReceipt | src/Nevermind/Nevermind.Core/Encoding/Rlp.cs:413-429 | defined as the list of the four receipt fields; `ReceiptEncodes`, `ReceiptRoundTrip` and `ReceiptVariants` state it |
| RlpEncoding.EncodeTransactionFor | src/Nevermind/Nevermind.Core/Encoding/Rlp.cs:441-468 | defined as the list of the six or nine transaction fields, with the chain id encoded as a number; `TransactionEncodes`, `TransactionRoundTrip` and `TransactionVariants` state it |
| RlpEncoding.EncodeTransaction | src/Nevermind/Nevermind.Core/Encoding/Rlp.cs:470-473 | defined as the signed form, `EncodeTransactionFor` with signing off |
| RlpEncoding.EncodeEip155SigningAsWritten | src/Nevermind/Nevermind.Core/Encoding/Rlp.cs:441-468 | defined as the EIP-155 signing list with the chain id boxed as an `int`; `Eip155SigningAsWrittenFails` states that it always fails |
| RlpEncoding.Eip155SigningAsWrittenFails | src/Nevermind/Nevermind.Core/Encoding/Rlp.cs:441-468 | EIP-155 signing as written always fails, with an invalid cast of the boxed int chain id once the first six fields encode |
| RlpEncoding.RlpEquals | src/Nevermind/Nevermind.Core/Encoding/Rlp.cs:45-53 | false for null, otherwise byte-by-byte equality |
| RlpEncoding.DecodeAs | src/Nevermind/Nevermind.Core/Encoding/Rlp.cs:431-439 | only the four registered types are delegated; any other type fails |
| RlpRoundTrip.EncodeItemIsEncodeValue | src/Nevermind/Nevermind.Core/Encoding/Rlp.cs:231-297 | encoding a decoded value through `Encode(object)` is the item encoding |
| RlpRoundTrip.BytesRoundTrip | src/Nevermind/Nevermind.Core/Encoding/Rlp.cs:304-325 | every byte-array encoding decodes back to the byte array |
| RlpRoundTrip.ItemRoundTrip | src/Nevermind/Nevermind.Core/Encoding/Rlp.cs:55-163 | every item encoding decodes back to the item |
| RlpRoundTrip.RoundTrip | src/Nevermind/Nevermind.Core/Encoding/Rlp.cs:231-297 | `Decode(Encode(x))` gives back every value the decoder can return |
| RlpAggregates.TopicsEncode | src/Nevermind/Nevermind.Core/Encoding/Rlp.cs:178-187 | a hash array encodes as the list of its hashes |
| RlpAggregates.NumberEncodes | src/Nevermind/Nevermind.Core/Encoding/Rlp.cs:235-265 | a number encodes as the string of its bytes, failing exactly for a negative long |
| RlpAggregates.AddressEncodes | src/Nevermind/Nevermind.Core/Encoding/Rlp.cs:488-499 | an address encodes as the string of its bytes, and null as the empty string |
| RlpAggregates.LogEntryRoundTrip | src/Nevermind/Nevermind.Core/Encoding/Rlp.cs:395-402 | an encoded log entry decodes to the list of address, topics and data |
| RlpAggregates.HeaderEncodes | src/Nevermind/Nevermind.Core/Encoding/Rlp.cs:359-378 | a header encodes as the list of its fifteen fields, in order |
| RlpAggregates.HeaderRoundTrip | src/Nevermind/Nevermind.Core/Encoding/Rlp.cs:359-378 | an encoded header decodes to its fifteen fields, in order |
| RlpAggregates.AccountRoundTrip | src/Nevermind/Nevermind.Core/Encoding/Rlp.cs:404-411 | an encoded account decodes to nonce, balance, storage root and code hash |
| RlpAggregates.ReceiptEncodes | src/Nevermind/Nevermind.Core/Encoding/Rlp.cs:413-429 | a receipt encodes as the list of its four fields, its logs as a list of log entries |
| RlpAggregates.ReceiptRoundTrip | src/Nevermind/Nevermind.Core/Encoding/Rlp.cs:413-429 | an encoded receipt decodes to its four fields |
| RlpAggregates.ReceiptVariants | src/Nevermind/Nevermind.Core/Encoding/Rlp.cs:413-429 | the EIP-658 and older receipt encodings differ only in field 0: status code against post-transaction state |
| RlpAggregates.TransactionEncodes | src/Nevermind/Nevermind.Core/Encoding/Rlp.cs:441-468 | a transaction encodes as the list of its six or nine fields |
| RlpAggregates.TransactionRoundTrip | src/Nevermind/Nevermind.Core/Encoding/Rlp.cs:441-468 | an encoded transaction decodes to its fields |
| RlpAggregates.TransactionVariants | src/Nevermind/Nevermind.Core/Encoding/Rlp.cs:441-473 | EIP-155 signing adds chain id, 0 and 0 to the six signing fields; the signed form shares those six fields |
| RlpAggregates.TransactionsEncode | src/Nevermind/Nevermind.Core/Encoding/Rlp.cs:380-383 | a block's transaction array encodes only when it is empty |
| RlpAggregates.OmmersEncode | src/Nevermind/Nevermind.Core/Encoding/Rlp.cs:380-383 | a block's ommers encode as the list of their header lists |
| RlpAggregates.BlockRoundTrip | src/Nevermind/Nevermind.Core/Encoding/Rlp.cs:380-383 | an encoded block has no transactions and decodes to header, empty list and ommers |
| RlpRejection.NonCanonicalSingleByteRejected | src/Nevermind/Nevermind.Core/Encoding/Rlp.cs:99-106 | prefix 129 followed by a byte below 128 is rejected |
| RlpRejection.LengthOfLengthAbove4Rejected | src/Nevermind/Nevermind.Core/Encoding/Rlp.cs:112-144 | prefixes 188..191 and 252..255 are rejected |
| RlpRejection.LengthBelow56Rejected | src/Nevermind/Nevermind.Core/Encoding/Rlp.cs:121-150 | a long-form length below 56 is rejected for strings and lists |
| RlpRejection.NegativeLengthRejected | src/Nevermind/Nevermind.Core/Encoding/Rlp.cs:121-150 | four length bytes with the top bit set read as negative and are rejected |
| RlpRejection.OutOfRangeRejected | src/Nevermind/Nevermind.Core/Encoding/Rlp.cs:528-539 | a read at the end of the buffer, or a short string longer than what is left, fails |
| RlpRejection.LongStringOutOfRange | src/Nevermind/Nevermind.Core/Encoding/Rlp.cs:127 | a long string whose length runs past the end fails |
| RlpRejection.TrailingBytesRejected | src/Nevermind/Nevermind.Core/Encoding/Rlp.cs:62-67 | an item not ending at the end of the buffer is rejected at the top level |
| RlpRejection.EncodingWithTrailingBytes | src/Nevermind/Nevermind.Core/Encoding/Rlp.cs:62-67 | any encoding followed by more bytes is rejected |
| RlpRejection.TruncatedEncodingRejected | src/Nevermind/Nevermind.Core/Encoding/Rlp.cs:528-539 | every proper prefix of an encoding is rejected |
| RlpRejection.ParsePrefixStable | src/Nevermind/Nevermind.Core/Encoding/Rlp.cs:79-162 | an item read from a buffer is read the same from any longer buffer that starts with it |
| RlpRejection.OverrunAccepted | src/Nevermind/Nevermind.Core/Encoding/Rlp.cs:153-158 | a list whose child runs past the declared list length is accepted |
| RlpRejection.PaddedLengthAccepted | src/Nevermind/Nevermind.Core/Encoding/Rlp.cs:121-129 | long-form length bytes with a leading zero are accepted |
| RlpRejection.AcceptedInputsAreNotEncodings | src/Nevermind/Nevermind.Core/Encoding/Rlp.cs:304-325 | neither accepted input is the encoding of the value decoded from it |
| RlpRejection.ParseCanonical | src/Nevermind/Nevermind.Core/Encoding/Rlp.cs:55-163 | a canonical decode succeeds only on the exact encoding of its result, and keeps the decoder's errors |
| RlpRejection.CanonicalRoundTrip | src/Nevermind/Nevermind.Core/Encoding/Rlp.cs:55-163 | every encoding decodes canonically to its value |
| RlpRejection.CanonicalUnique | src/Nevermind/Nevermind.Core/Encoding/Rlp.cs:55-163 | two accepted buffers give the same value exactly when they are equal |
| RlpRejection.CanonicalRejectsAccepted | src/Nevermind/Nevermind.Core/Encoding/Rlp.cs:121-158 | the canonical decode rejects both inputs the decoder lets through |
| EliasFano.KeysEqual | src/Nethermind/Nethermind.Db/EliasFanoStorage.cs:18-34 | the comparer's loop answers true exactly for equal keys |
| EliasFano.ToLong | src/Nethermind/Nethermind.Db/EliasFanoStorage.cs:128 | the unchecked cast keeps a value below 2^63 and wraps the rest by 2^64 |
| EliasFano.Sort | src/Nethermind/Nethermind.Db/EliasFanoStorage.cs:76 | sorting permutes the list |
| EliasFano.SortSorted | src/Nethermind/Nethermind.Db/EliasFanoStorage.cs:76 | the sorted list is in non-decreasing order |
| EliasFano.SortedUnique | src/Nethermind/Nethermind.Db/EliasFanoStorage.cs:76 | two sorted permutations of the same numbers are equal |
| EliasFano.AddToSet | src/Nethermind/Nethermind.Db/EliasFanoStorage.cs:131 | `SortedSet.Add` keeps the set increasing and adds exactly the new number |
| EliasFano.Heads | src/Nethermind/Nethermind.Db/EliasFanoStorage.cs:183-196 | each list's current number, or -1 past its end |
| EliasFano.MinBlock | src/Nethermind/Nethermind.Db/EliasFanoStorage.cs:199-210 | the least current number other than -1, or `long.MaxValue` when there is none |
| EliasFano.AllAt | src/Nethermind/Nethermind.Db/EliasFanoStorage.cs:216-228 | true exactly when every list's current number is the minimum |
| EliasFano.Advance | src/Nethermind/Nethermind.Db/EliasFanoStorage.cs:238-246 | exactly the lists at the minimum advance by one |
| EliasFano.Round | src/Nethermind/Nethermind.Db/EliasFanoStorage.cs:180-252 | one pass of the merge: the minimum of the heads, whether all are at it, and the advanced indices |
| EliasFano.MergeStep | src/Nethermind/Nethermind.Db/EliasFanoStorage.cs:213-246 | a round keeps the frontier, and all heads are at the minimum exactly when it is in every list |
| EliasFano.RoundKeeps | src/Nethermind/Nethermind.Db/EliasFanoStorage.cs:177-253 | a round keeps the merge invariant and consumes at least one number, so the loop ends |
| EliasFano.Intersect | src/Nethermind/Nethermind.Db/EliasFanoStorage.cs:173-255 | the merge returns only numbers in every list; without sentinel values, exactly those numbers, increasing |
| EliasFano.Storage.constructor | src/Nethermind/Nethermind.Db/EliasFanoStorage.cs:50-53 | the index starts empty |
| EliasFano.Storage.Get | src/Nethermind/Nethermind.Db/EliasFanoStorage.cs:55-65 | the stored numbers of a key, or none for an absent key |
| EliasFano.Storage.Put | src/Nethermind/Nethermind.Db/EliasFanoStorage.cs:69-86 | only the key's list changes: the old numbers plus the new one, sorted, or the new one alone for a new key |
| EliasFano.Storage.PutAll | src/Nethermind/Nethermind.Db/EliasFanoStorage.cs:89-107 | only the key's list changes: the old numbers plus the new ones, sorted; a new key takes the values as given; nothing changes for a new key with no values |
| EliasFano.Storage.CollectGroup | src/Nethermind/Nethermind.Db/EliasFanoStorage.cs:118-139 | the group's sorted set holds exactly the numbers stored for its keys, cast to long, within the range when both bounds are given |
| EliasFano.Storage.CollectGroups | src/Nethermind/Nethermind.Db/EliasFanoStorage.cs:114-168 | one list for the addresses, then one per topic group, each exactly what its group selects |
| EliasFano.Storage.CollectedLists | src/Nethermind/Nethermind.Db/EliasFanoStorage.cs:141-168 | a number is in all collected lists exactly when every group selects it |
| EliasFano.Storage.Match | src/Nethermind/Nethermind.Db/EliasFanoStorage.cs:109-256 | every returned number matches the addresses and every topic group within the range; without sentinel values, exactly those numbers, increasing |
| EliasFano.Storage.MatchesAddressesOnly | src/Nethermind/Nethermind.Db/EliasFanoStorage.cs:118-141 | with no topics, a number matches when an address selects it |
| EliasFano.Storage.MatchesNarrowing | src/Nethermind/Nethermind.Db/EliasFanoStorage.cs:145-168 | each further topic group narrows the match to the numbers it also selects |
| FrameDecoding.Decrypt | src/Nethermind/Nethermind.Network/Rlpx/ZeroNettyFrameDecoder.cs:70 | decrypting in place keeps the block's length |
| FrameDecoding.BodySizeBigEndian | src/Nethermind/Nethermind.Network/Rlpx/ZeroNettyFrameDecoder.cs:72-74 | the frame size is the 24-bit big-endian number in the first three header bytes |
| FrameDecoding.BodySize | src/Nethermind/Nethermind.Network/Rlpx/ZeroNettyFrameDecoder.cs:72-74 | the frame size read from the first three header bytes is below 2^24 |
| FrameDecoding.PaddingAligns | src/Nethermind/Nethermind.Network/Rlpx/ZeroNettyFrameDecoder.cs:96-100 | the padding is below 16, zero exactly for an aligned size, and the least count that aligns the frame |
| FrameDecoding.Padding | src/Nethermind/Nethermind.Network/Rlpx/ZeroNettyFrameDecoder.cs:96-100 | defined as 16 less the size modulo 16, or 0 when that is 16; `PaddingAligns` states it |
| FrameDecoding.ExpectedSize | src/Nethermind/Nethermind.Network/Rlpx/ZeroNettyFrameDecoder.cs:102 | defined as the size, its padding and the MAC size |
| FrameDecoding.ExpectedSizeBounds | src/Nethermind/Nethermind.Network/Rlpx/ZeroNettyFrameDecoder.cs:96-102 | a frame needs its size and the MAC plus less than 16 bytes of padding, and the padded frame fills whole 16-byte blocks |
| FrameDecoding.HeaderStep | src/Nethermind/Nethermind.Network/Rlpx/ZeroNettyFrameDecoder.cs:53-90 | the header branch never moves the read position backwards or past the end |
| FrameDecoding.PayloadStep | src/Nethermind/Nethermind.Network/Rlpx/ZeroNettyFrameDecoder.cs:92-123 | the payload branch never moves the read position backwards or past the end |
| FrameDecoding.DecodeStep | src/Nethermind/Nethermind.Network/Rlpx/ZeroNettyFrameDecoder.cs:51-124 | a call never moves the read position backwards or past the end |
| FrameDecoding.DecodeKeepsReachable | src/Nethermind/Nethermind.Network/Rlpx/ZeroNettyFrameDecoder.cs:39-123 | a call keeps a 32-byte header and a 24-bit size, hands on at most one frame, and waits for a header after one |
| FrameDecoding.EmptyInputCloses | src/Nethermind/Nethermind.Network/Rlpx/ZeroNettyFrameDecoder.cs:57-62 | an empty input while waiting for a header closes the channel and changes nothing |
| FrameDecoding.PartialHeaderWaits | src/Nethermind/Nethermind.Network/Rlpx/ZeroNettyFrameDecoder.cs:85-89 | fewer than 32 bytes while waiting for a header consume nothing and change nothing |
| FrameDecoding.HeaderRead | src/Nethermind/Nethermind.Network/Rlpx/ZeroNettyFrameDecoder.cs:64-75 | reading a header consumes 32 bytes, decrypts the first 16, and waits for a payload of the 24-bit size |
| FrameDecoding.PartialPayloadWaits | src/Nethermind/Nethermind.Network/Rlpx/ZeroNettyFrameDecoder.cs:102-106 | fewer bytes than the padded frame and its MAC consume nothing and change nothing |
| FrameDecoding.FrameCompleted | src/Nethermind/Nethermind.Network/Rlpx/ZeroNettyFrameDecoder.cs:102-122 | a complete frame consumes size + padding + 16 bytes and hands on one buffer of 32 more bytes that starts with the header and holds the decrypted frame; the decoder waits for a header |
| FrameDecoding.HeaderAndFrameInOneCall | src/Nethermind/Nethermind.Network/Rlpx/ZeroNettyFrameDecoder.cs:64-123 | with a header and its whole frame available, one call reads both |
| FrameDecoding.MacMismatchStops | src/Nethermind/Nethermind.Network/Rlpx/ZeroNettyFrameDecoder.cs:69-114 | a MAC that does not check hands nothing on, after consuming the bytes read |
| FrameDecoding.ReadBytes | src/Nethermind/Nethermind.Network/Rlpx/ZeroNettyFrameDecoder.cs:109 | the next bytes of the input land at the offset and nothing else in the array changes |
| FrameDecoding.DecryptInPlace | src/Nethermind/Nethermind.Network/Rlpx/ZeroNettyFrameDecoder.cs:115 | the block at the offset is replaced by its decryption and nothing else changes |
| FrameDecoding.CopyHeader | src/Nethermind/Nethermind.Network/Rlpx/ZeroNettyFrameDecoder.cs:117 | the header overwrites the first 32 bytes and the rest is kept |
| FrameDecoding.ReadFrame | src/Nethermind/Nethermind.Network/Rlpx/ZeroNettyFrameDecoder.cs:108-118 | the MAC verdict on the bytes read, and on success the header, decrypted frame and MAC |
| FrameDecoding.FrameDecoder.constructor | src/Nethermind/Nethermind.Network/Rlpx/ZeroNettyFrameDecoder.cs:39-49 | the decoder starts waiting for a header, with a zeroed 32-byte header buffer |
| FrameDecoding.FrameDecoder.ReadHeader | src/Nethermind/Nethermind.Network/Rlpx/ZeroNettyFrameDecoder.cs:64-84 | the header branch with 32 bytes readable updates the fields as `HeaderStep` says |
| FrameDecoding.FrameDecoder.ReadPayload | src/Nethermind/Nethermind.Network/Rlpx/ZeroNettyFrameDecoder.cs:92-123 | the payload branch updates the state and output as `PayloadStep` says |
| FrameDecoding.FrameDecoder.Decode | src/Nethermind/Nethermind.Network/Rlpx/ZeroNettyFrameDecoder.cs:51-124 | the new state, read position, output and outcome are those of `DecodeStep` on the old state |

## Left out

- I/O: the DotNetty input buffer is a byte sequence with a read position, `output` is returned, and `context.CloseAsync()` is an outcome value.
- Decrypt and CheckMac: the frame cipher and the MAC processor are not part of this model. They are function parameters: a length-preserving in-place decryption, and a verdict on the checked bytes followed by their MAC. Their state across calls (the running MAC and cipher stream) is not modelled, and a MAC mismatch is an outcome value rather than an exception.
- Logging and `ExceptionCaught` in the frame decoder do nothing the model can observe and are left out.
- EncodeBigInteger: negative `BigInteger` values are excluded by the `BigInteger` subset type, because `ToBigEndianByteArray` is not part of this model and its sign handling is unknown.
- EncodeValue: the runtime kinds of `Encode(object)` are the cases of `Value`. A boxed `long` is `LongValue`. The narrower boxed integers (`byte`, `short`, `int`, `ushort`, `uint`) are the one kind `SmallInteger`, which fails with `InvalidCast` as the `(long)item` unboxing at Rlp.cs:241 throws; their values are not distinguished further.
- Aggregate field types: `BlockHeader`, `Transaction`, `Signature`, `Account` and `TransactionReceipt` are not part of this model. Their numeric fields are assumed to be `long`, `ulong` or `BigInteger` (the `Number` type): `Difficulty`, `Number`, `GasLimit`, `GasUsed`, `Timestamp` and `Nonce` of a header; `Nonce`, `GasPrice`, `GasLimit` and `Value` of a transaction; `V` of a signature; `Nonce` and `Balance` of an account; `StatusCode` and `GasUsed` of a receipt. A field declared narrower (a `byte` `V` or `StatusCode`, say) would take the integer case at Rlp.cs:236-241 and throw `InvalidCastException`, so the round-trip and variant lemmas of the aggregates describe encodings only under this assumption.
- EncodeTransactionFor: EIP-155 signing boxes `chainId` as an `int` (Rlp.cs:455), which throws at Rlp.cs:241. `EncodeTransactionFor` encodes the chain id as a number, as intended. `EncodeEip155SigningAsWritten` models the throw (see Findings).
- Helpers that are not part of this model are given assumed behaviour:
  - `short` and `ulong` `ToBigEndianByteArray` give fixed 2 and 8 big-endian bytes, and `BigInteger.ToBigEndianByteArray` gives the minimal bytes;
  - `WithoutLeadingZeros` strips leading zero bytes;
  - `Slice` fails on a short buffer;
  - `UnsafeCompare` is byte equality;
  - `Block.Transactions` is an array, and a non-empty one reaches the `NotSupportedException` because `Transaction` is not a case of `Encode(object)`.
- Null `Keccak` and `Bloom` fields of headers, receipts and log entries cannot be represented. The source encodes them through `case null` as the empty string.
- DecodeItem: after a failed decode the cursor position is not specified; the caller discards the context.
- The `Rlp` wrapper's `ToString`, `GetHashCode` and the decoder registry's decoders are not part of this model; `DecodeAs` returns which decoder it delegates to.
- Storage: the compressed `EliasFano` list and `EliasFanoBuilder` are not part of this model. A stored list is the sequence of numbers `GetEnumerator(0)` yields. The builder's universe `Max() + 1` is not modelled, so neither is its wrap-around at `ulong.MaxValue`.
- PutAll: on a new key the values are stored as given, unsorted, as the builder receives them. On a new key with no values `values.Max()` throws; this is the `ok == false` result, with nothing stored.
- `ByteArrayComparer.GetHashCode` only affects dictionary performance; keys compare by content.
- Match: null addresses or topics (a `NullReferenceException` in the `foreach`) are not modelled. The exact intersection is proved only when no group selects -1 or `long.MaxValue`, which the merge uses as sentinels. Soundness is proved for every input.
- Match returns the intersection as a sequence; the lazy `IEnumerable` and the `Append` chain are not modelled.

## Findings

| source | as written | input that shows it | evidently intended | confidence | as-written member | corrected member |
|---|---|---|---|---|---|---|
| src/Nevermind/Nevermind.Core/Encoding/Rlp.cs:155 | children are read while the position is below the list's end, so the last child may run past it | `[197, 133, 1, 2, 3, 4, 5]` decodes to a list holding one 5-byte string, though the list declares 5 bytes of content | reject a list whose children do not end exactly at its declared end | not executed | RlpRejection.OverrunAccepted | RlpRejection.CanonicalRejectsAccepted |
| src/Nevermind/Nevermind.Core/Encoding/Rlp.cs:121-125 | long-form length bytes are read without checking for a leading zero | `[185, 0, 56]` followed by 56 zero bytes decodes to the 56-byte string, whose encoding is `[184, 56]` followed by the bytes | reject length bytes that are not minimal | not executed | RlpRejection.PaddedLengthAccepted | RlpRejection.CanonicalRoundTrip |
| src/Nevermind/Nevermind.Core/Encoding/Rlp.cs:455 | the chain id is stored as a boxed `int`, and `(long)item` at line 241 throws for it | `Encode(tx, true, true, 1)` for any transaction | encode the chain id as a number, as EIP-155 requires | not executed | RlpEncoding.Eip155SigningAsWrittenFails | RlpAggregates.TransactionVariants |
