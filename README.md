# AppInToss Unity SDK — a verified model of its core

The AppInToss Unity SDK lets a Unity WebGL game running inside the Apps in Toss web view call
the host's ads, in-app purchase and game services. The game (C#) talks to the web page
(TypeScript) over an RPC channel whose messages are Protocol Buffers. Long-running SDK calls
(showing an ad, buying a product) are turned into a start call that returns an operation id,
followed by polls that drain the events the host has queued under that id. An older
string-payload bridge ("requestId|data") carries the remaining calls, such as opening a URL.

This project models that core in Dafny and proves its properties:

- **Wire codec** (`wrappers`, `arith`, `js_numbers`, `varint`, `utf8`, `wire`, `records`,
  `messages`, `byte_buffer`): the byte-buffer runtime that the generated codecs share. It
  covers varints of 32 and 64 bits split into two 32-bit words, ZigZag, the hand-written
  UTF-8 coder over UTF-16 code units, `advance`/`skip` with their limit errors,
  `skipUnknownField` and `pushTemporaryLength`, and the field loop of every decoder. There
  are two layers:
  - a pure layer over a cursor (`bytes`, `offset`, `limit`);
  - the mutable `ByteBuffer` class, whose methods are proved against that layer.
- **Message codecs** (`iap_messages`, `game_messages`, `ad_messages`): the messages of the
  three generated services. Each is shown to round-trip through its encoder and decoder.
- **Operation registry** (`operations`, `ad_service_impl`, `iap_service_impl`): the host-side
  tables of `{events, isFinished}` under operation ids. It covers start, the host's callbacks,
  and poll, which drains the queue and deletes a finished entry.
- **Poll consumers** (`ad_stream`, `ad_use_case`, `iap_use_case`):
  - the engine-side loop that turns polls into a stream of events;
  - the ad flow that folds the stream into Completed / FailedToShow / Cancelled and a reward flag;
  - the purchase flow that folds polls into Success / Failed / Cancelled;
  - the catalog cache.
- **Playback pause** (`playback_pause`): the reference-counted coordinator that pauses time
  and audio while any handle holds them, and restores the cached values when the last one is
  released.
- **Legacy bridge** (`payloads`, `sdk_bridge`, `open_url`): the pending-request table of
  `AitSdkBridge`, the "a|b" payloads, `OpenURLService`, and the web-side `openURL` handler.
- **Monetization config** (`monetization_config`): curated-spot lookup and the product-id
  enumeration.

RPC results, SDK answers, delays and cancellation tokens are parameters. A stream is given as
the sequence of poll answers the host sends back, and whether the token is cancelled at each
look. Fresh identifiers (`crypto.randomUUID()`, `Guid.NewGuid()`) are given by the caller.

## Model

| member | source | states |
|---|---|---|
| JsNumbers.ToUint32 | webapp/src/generated/IapService/IapService.ts:1538 | `x >>> 0` differs from x by a multiple of 2^32 |
| JsNumbers.ToInt32 | webapp/src/generated/IapService/IapService.ts:1218 | the bitwise or of x with 0 differs from x by a multiple of 2^32 and has the same unsigned word |
| JsNumbers.Int32Fixed | webapp/src/generated/IapService/IapService.ts:1218 | an int32 is its own ToInt32, and its unsigned word adds 2^32 when negative |
| JsNumbers.Uint32Fixed | webapp/src/generated/IapService/IapService.ts:1538 | a uint32 is its own ToUint32, and reads as negative from 2^31 on |
| JsNumbers.ToInt32Periodic | webapp/src/generated/IapService/IapService.ts:1218 | the 32-bit conversions depend only on the value modulo 2^32 |
| JsNumbers.LongBits | webapp/src/generated/IapService/IapService.ts:1161-1165 | a Long's 64 bits are its unsigned low word plus 2^32 times its unsigned high word |
| JsNumbers.LongSigned | webapp/src/generated/IapService/IapService.ts:1161-1165 | the signed 64-bit value of a Long lies in the int64 range and has the Long's 64 bits |
| JsNumbers.LongFromBits | webapp/src/generated/IapService/IapService.ts:1574-1578 | the Long built from a value has that value's 64 low bits and the requested signedness |
| JsNumbers.IntToLong | webapp/src/generated/IapService/IapService.ts:1217-1224 | intToLong sign-extends: the signed value is the bitwise or of value with 0, the low word is it, and `unsigned` is set exactly when it is not negative |
| JsNumbers.Not32 | webapp/src/generated/IapService/IapService.ts:1618 | `~x` complements every bit of the unsigned word |
| JsNumbers.ZigZag | webapp/src/generated/IapService/IapService.ts:1622-1625 | the ZigZag map is odd exactly for negative numbers |
| JsNumbers.UnZigZag | webapp/src/generated/IapService/IapService.ts:1615-1620 | UnZigZag is a right inverse of ZigZag |
| JsNumbers.ZigZag32 | webapp/src/generated/IapService/IapService.ts:1622-1625 | `(value << 1) ^ (value >> 31)` made unsigned is the ZigZag image of the int32 value |
| JsNumbers.UnZigZag32 | webapp/src/generated/IapService/IapService.ts:1615-1620 | `(value >>> 1) ^ -(value & 1)` is the number whose ZigZag image is the unsigned word |
| JsNumbers.ZigZag32RoundTrip | webapp/src/generated/IapService/IapService.ts:1615-1625 | readVarint32ZigZag undoes writeVarint32ZigZag for every int32 |
| JsNumbers.ZigZag64 | webapp/src/generated/IapService/IapService.ts:1641-1652 | the word-by-word ZigZag of a Long has the 64 bits of the ZigZag image of its signed value |
| JsNumbers.UnZigZag64 | webapp/src/generated/IapService/IapService.ts:1627-1639 | the word-by-word inverse gives the signed value that the 64 bits are the ZigZag image of |
| JsNumbers.ZigZag64RoundTrip | webapp/src/generated/IapService/IapService.ts:1627-1652 | readVarint64ZigZag undoes writeVarint64ZigZag: the same low and high words come back |
| JsNumbers.LongFromOwnBits | webapp/src/generated/IapService/IapService.ts:1574-1578 | a Long is rebuilt from its own 64 bits |
| JsNumbers.UnZigZagOfZigZag | webapp/src/generated/IapService/IapService.ts:1615-1625 | UnZigZag undoes ZigZag on every integer |
| JsNumbers.LongSignedInjective | webapp/src/generated/IapService/IapService.ts:1161-1165 | two Longs with the same signed value have the same words |
| Wire.Advance | webapp/src/generated/IapService/IapService.ts:1277-1284 | fails with "Read past limit" exactly when `count` bytes would pass the limit; otherwise returns the old offset and moves the position by `count` |
| Wire.Skip | webapp/src/generated/IapService/IapService.ts:1249-1254 | fails with "Skip past limit" exactly when the skip would pass the limit; otherwise moves the position by `count` and stays within the limit |
| Wire.ReadByte | webapp/src/generated/IapService/IapService.ts:1427-1429 | succeeds exactly below the limit, returning the byte at the position and moving past it |
| Wire.ReadVarint32 | webapp/src/generated/IapService/IapService.ts:1525-1535 | a successful read moves forward over at least one byte, within the limit, reading the same bytes |
| Wire.ReadVarint64 | webapp/src/generated/IapService/IapService.ts:1546-1579 | a successful read moves forward within the limit and keeps the requested signedness |
| Wire.ReadString | webapp/src/generated/IapService/IapService.ts:1296-1371 | fails exactly when `count` bytes pass the limit; otherwise moves past them and returns the UTF-8 decoding of exactly those bytes |
| Wire.ReadStringField | webapp/src/generated/IapService/IapService.ts:171 | a length prefix read unsigned then the string: a success moves forward within the limit |
| Wire.ReadStringFieldAsWritten | webapp/src/generated/IapService/IapService.ts:171 | `readString(bb, readVarint32(bb))` with the signed length: keeps the bytes and the limit, but the position may move backwards |
| Wire.SkipVarint | webapp/src/generated/IapService/IapService.ts:1182 | skips forward over at least one byte, within the limit, or fails with "Read past limit" |
| Wire.SkipUnknownField | webapp/src/generated/IapService/IapService.ts:1180-1188 | corrected (unsigned length): fails with "Unimplemented type" exactly for wire types other than 0, 1, 2 and 5; with the wire type 2 length read unsigned, a success moves forward within the limit, strictly for every type but 2 |
| Wire.SkipUnknownFieldAsWritten | webapp/src/generated/IapService/IapService.ts:1183 | the as-written skip agrees with the corrected one for every wire type but 2 |
| Wire.ReadBool | webapp/src/generated/IapService/IapService.ts:1427-1429 | `!!readByte(bb)`: succeeds exactly below the limit, true exactly for a non-zero byte |
| Wire.PushTemporaryLength | webapp/src/generated/IapService/IapService.ts:1173-1178 | returns the limit to restore and moves past the length prefix, over the same bytes |
| Wire.FieldNumber | webapp/src/generated/IapService/IapService.ts:165 | `tag >>> 3` is below 2^29 |
| Wire.WireType | webapp/src/generated/IapService/IapService.ts:201 | `tag & 7` is below 8 |
| Wire.Varint32Bytes | webapp/src/generated/IapService/IapService.ts:1537-1544 | writeVarint32 writes one to five bytes |
| Wire.StringBytes | webapp/src/generated/IapService/IapService.ts:1373-1414 | writeString writes the byte count as a varint, then exactly that many bytes |
| Wire.Delimited | webapp/src/generated/IapService/IapService.ts:1416-1425 | a nested message takes more bytes than its body |
| Wire.BoolBytes | webapp/src/generated/IapService/IapService.ts:1431-1434 | a bool is one byte, non-zero exactly for true |
| Wire.ReadVarint32Of | webapp/src/generated/IapService/IapService.ts:1525-1544 | readVarint32 of any varint's bytes gives its low 32 bits as an int32 and moves past exactly those bytes |
| Wire.Varint32RoundTrip | webapp/src/generated/IapService/IapService.ts:1525-1544 | writeVarint32 then readVarint32 returns the same 32-bit pattern, and exactly the value for every int32 |
| Wire.Varint64RoundTrip | webapp/src/generated/IapService/IapService.ts:1546-1613 | writeVarint64 then readVarint64 rebuilds the same low and high words |
| Wire.Int32AsVarint64RoundTrip | webapp/src/generated/IapService/IapService.ts:1217-1224 | an int32 written with `writeVarint64(intToLong(v))` reads back with readVarint32 unchanged; a negative one takes ten bytes |
| Wire.Reassembly | webapp/src/generated/IapService/IapService.ts:1575-1578 | readVarint64's three words reassemble to the Long of the sum of the groups modulo 2^64 |
| Wire.ReadStringAt | webapp/src/generated/IapService/IapService.ts:1296-1371 | readString of bytes stored at the position decodes exactly those bytes and moves past them |
| Wire.ReadLengthOf | webapp/src/generated/IapService/IapService.ts:1537-1544 | a length written by writeVarint32 reads back as that length when read unsigned |
| Wire.StringRoundTrip | webapp/src/generated/IapService/IapService.ts:1296-1414 | writeString then a string read with an unsigned length returns the text when it is well formed |
| Wire.StringRoundTripAsWritten | webapp/src/generated/IapService/IapService.ts:1296-1414 | the same holds with the signed length the decoders use, for texts below 2^31 bytes |
| Wire.NegativeLengthRewinds | webapp/src/generated/IapService/IapService.ts:162-173 | for bytes 0A FA FF FF FF 0F the length reads as -6, and the string read and the skip both move the position back to 0 |
| Wire.UnsignedLengthRejected | webapp/src/generated/IapService/IapService.ts:1277-1284 | read unsigned, the same length passes the limit, so the read fails with "Read past limit" and the skip with "Skip past limit" |
| Varint.VarintBytes | webapp/src/generated/IapService/IapService.ts:1537-1544 | every byte but the last carries the continuation bit, and the last does not |
| Varint.VarintLength | webapp/src/generated/IapService/IapService.ts:1539-1543 | the encoding is exactly as long as the number of seven-bit groups the value needs |
| Varint.VarintByteAt | webapp/src/generated/IapService/IapService.ts:1539-1543 | byte k holds bits 7k to 7k+6 of the value, plus 0x80 unless it is the last |
| Varint.Varint64Parts | webapp/src/generated/IapService/IapService.ts:1582-1584 | writeVarint64's three words are bits 0-31, 28-59 and 56-63 of the Long |
| Varint.PartsLemma | webapp/src/generated/IapService/IapService.ts:1583-1584 | the low word shifted right by 28 or-ed with the high word shifted left by 4, and the high word shifted right by 24, compute those bits of the Long |
| Varint.Varint64Size | webapp/src/generated/IapService/IapService.ts:1587-1596 | the size ladder picks one to ten bytes |
| Varint.Varint64SizeIsLength | webapp/src/generated/IapService/IapService.ts:1587-1596 | the ladder's size is the length of the shortest varint of the Long's 64 bits |
| Varint.WithMore | webapp/src/generated/IapService/IapService.ts:1604 | x or-ed with 0x80 and stored in a byte keeps the low seven bits and sets the continuation bit |
| Varint.Last | webapp/src/generated/IapService/IapService.ts:1604 | `x & 0x7F` is the low seven bits |
| Varint.Varint64Bytes | webapp/src/generated/IapService/IapService.ts:1581-1613 | the fall-through switch stores exactly the base-128 encoding of the Long's 64 bits |
| Varint.SwitchByteIsGroup | webapp/src/generated/IapService/IapService.ts:1601-1612 | every byte the switch stores is the matching byte of the base-128 encoding |
| Varint.SwitchTopGroup | webapp/src/generated/IapService/IapService.ts:1602 | the tenth byte `(part2 >>> 7) & 0x01` is bit 63 of the value |
| Utf8.Literal | webapp/src/generated/IapService/IapService.ts:1380 | a constant's code units: one per character, equal to it in the Basic Multilingual Plane |
| Utf8.HeadCodePoint | webapp/src/generated/IapService/IapService.ts:1380-1383 | the number writeString encodes first takes two units exactly when a high surrogate has a successor, and is the unit itself otherwise |
| Utf8.Utf8Of | webapp/src/generated/IapService/IapService.ts:1397-1412 | the bytes stored for one number are as many as the byte count the first loop adds for it |
| Utf8.Encode | webapp/src/generated/IapService/IapService.ts:1392-1413 | the second loop writes no bytes exactly for the empty text |
| Utf8.ByteCount | webapp/src/generated/IapService/IapService.ts:1379-1385 | the first loop's count equals the number of bytes the second loop writes |
| Utf8.DecodeStep | webapp/src/generated/IapService/IapService.ts:1305-1367 | one turn of readString's loop appends one or two code units and moves past one to four bytes that lie in the field |
| Utf8.Decode | webapp/src/generated/IapService/IapService.ts:1304-1368 | readString yields at most two code units per byte |
| Utf8.DecodeConcat | webapp/src/generated/IapService/IapService.ts:1304-1368 | decoding bytes whose first sequence decodes to some units gives those units followed by the decoding of the rest |
| Utf8.DecodeEncode | webapp/src/generated/IapService/IapService.ts:1296-1414 | readString gives back the text writeString encoded, for every text without unpaired surrogates |
| Utf8.DecodePair | webapp/src/generated/IapService/IapService.ts:1356-1361 | a surrogate pair is written as four bytes that read back as the same two units |
| Utf8.DecodeSingle | webapp/src/generated/IapService/IapService.ts:1308-1345 | a unit outside the surrogate range is written as one to three bytes that read back as it |
| Utf8.InvalidLeadReplaced | webapp/src/generated/IapService/IapService.ts:1367 | a byte that cannot start a sequence reads as U+FFFD and moves one byte |
| Utf8.TruncatedReplaced | webapp/src/generated/IapService/IapService.ts:1313-1349 | a sequence cut short by the end of the field reads as U+FFFD |
| Utf8.RejectedForms | webapp/src/generated/IapService/IapService.ts:1319-1357 | overlong forms, encoded surrogates and numbers above U+10FFFF read as U+FFFD |
| Utf8.LoneSurrogateLost | webapp/src/generated/IapService/IapService.ts:1338 | a lone surrogate is written as three bytes that read back as three replacement characters |
| Records.ParseFields | webapp/src/generated/IapService/IapService.ts:159-206 | corrected (unsigned length): the decode loop with string and skip lengths read unsigned only moves forward over the same bytes and limit |
| Records.ParseStep | webapp/src/generated/IapService/IapService.ts:162-202 | corrected (unsigned length): one turn of the loop, with string and skip lengths read unsigned, moves strictly forward |
| Records.ReadValue | webapp/src/generated/IapService/IapService.ts:396-402 | corrected (unsigned length): a known field's value, a string with its length read unsigned and a nested one under the pushed length with the saved limit restored, moves strictly forward |
| Records.ParseFieldsAsWritten | webapp/src/generated/IapService/IapService.ts:159-206 | the decode loop as written, with signed lengths, within a bound on its turns: a stop keeps the bytes and the limit, at the limit it stops at once with no fields, and a spent bound reports the loop still running |
| Records.ParseStepAsWritten | webapp/src/generated/IapService/IapService.ts:162-202 | one turn as written, `readString(bb, readVarint32(bb))` and `skip(bb, readVarint32(bb))` with signed lengths: it keeps the bytes and the limit, but its position may lie before the start |
| Records.ReadValueAsWritten | webapp/src/generated/IapService/IapService.ts:171 | a known field's value as written, a string with the signed length: it keeps the bytes and the limit |
| Records.WireTypeOf | webapp/src/generated/IapService/IapService.ts:122 | an encoder's tag carries wire type 2 or 0 |
| Records.FieldBytes | webapp/src/generated/IapService/IapService.ts:121-124 | a field is written as its tag followed by a non-empty value |
| Records.PayloadBytes | webapp/src/generated/IapService/IapService.ts:364-377 | every value takes at least one byte |
| Records.FieldsBytes | webapp/src/generated/IapService/IapService.ts:118-153 | an encoder writes nothing exactly when it has no field to write |
| Records.FieldsRoundTrip | webapp/src/generated/IapService/IapService.ts:118-206 | the loop run over the bytes an encoder wrote yields the same fields in the same order and stops at the limit |
| Records.FieldsRoundTripAsWritten | webapp/src/generated/IapService/IapService.ts:118-206 | the loop as written, with signed lengths, run over the bytes an encoder wrote with one turn per byte, stops at the limit with the same fields in the same order |
| Records.StepRoundTripAsWritten | webapp/src/generated/IapService/IapService.ts:162-202 | one encoded field is one as-written turn of the loop that stores it |
| Records.SubRoundTripAsWritten | webapp/src/generated/IapService/IapService.ts:396-402 | a nested message written by the encoder reads back as its fields under the as-written loop, with the outer limit restored |
| Records.HeadThenTailAsWritten | webapp/src/generated/IapService/IapService.ts:159-206 | an encoded first field followed by bytes the as-written loop reads as the other fields is read as all of them, in order |
| Records.ValueRoundTripAsWritten | webapp/src/generated/IapService/IapService.ts:169-197 | under the as-written loop, an encoded value of any kind reads back as itself and the loop resumes right after it |
| Records.TextRoundTripAsWritten | webapp/src/generated/IapService/IapService.ts:171 | a well-formed string below 2^31 bytes, read with the signed length, reads back as the same text and the cursor ends right after it |
| Records.MessageValueAsWritten | webapp/src/generated/IapService/IapService.ts:396-402 | a nested message's value as written is what the as-written loop reads under the pushed length, with the saved limit restored |
| Records.StepRoundTrip | webapp/src/generated/IapService/IapService.ts:162-202 | one encoded field is one turn of the loop that stores it |
| Records.TagRoundTrip | webapp/src/generated/IapService/IapService.ts:163-165 | the tag reads back and announces the field's number |
| Records.ValueRoundTrip | webapp/src/generated/IapService/IapService.ts:169-197 | the value reads back as itself and the loop resumes right after it |
| Records.SubRoundTrip | webapp/src/generated/IapService/IapService.ts:396-402 | a nested message's bytes read back as its fields, with the outer limit restored |
| Records.FieldZeroEnds | webapp/src/generated/IapService/IapService.ts:166-167 | a tag with field number 0 ends the loop |
| Records.UnknownFieldSkipped | webapp/src/generated/IapService/IapService.ts:200-201 | an unknown field number is skipped by its wire type and the loop goes on, or the skip's error ends it |
| Records.FlatReadsWithin | webapp/src/generated/IapService/IapService.ts:162 | the loop over a table without nested messages never stops past its limit |
| Messages.DecodeMessage | webapp/src/generated/IapService/IapService.ts:155-157 | `decodeX(binary)` succeeds exactly when the loop over the whole buffer does |
| Messages.Unset | webapp/src/generated/IapService/IapService.ts:160 | `{}` has every field unset |
| Messages.SetSlot | webapp/src/generated/IapService/IapService.ts:171 | an assignment in the `switch` neither adds nor removes a field |
| Messages.SlotFields | webapp/src/generated/IapService/IapService.ts:119-152 | the encoder writes at most one field per slot |
| Messages.DecodeSlots | webapp/src/generated/IapService/IapService.ts:155-206 | a decoded message has one slot per field of its table |
| Messages.FoldConcat | webapp/src/generated/IapService/IapService.ts:162-203 | the message after two runs of fields is the second run applied to the message after the first |
| Messages.DecodeFields | webapp/src/generated/IapService/IapService.ts:112-206 | well-typed fields under 2^31 bytes that fold back to a message decode to that message |
| Messages.SlotsRoundTrip | webapp/src/generated/IapService/IapService.ts:112-206 | decodeX(encodeX(m)) == m for a message of optional fields |
| Messages.NestedSlots | webapp/src/generated/IapService/IapService.ts:365-368 | a nested message's fields fold back to its slots |
| Messages.LastOccurrenceWins | webapp/src/generated/IapService/IapService.ts:171 | a field met twice keeps its last value; a field never met keeps its old one |
| Messages.SlotsLength | webapp/src/generated/IapService/IapService.ts:171 | setting fields never changes the number of slots |
| AdMessages.AdNetworkResponseInfoRoundTrip | webapp/src/generated/AdService/AdService.ts:15-102 | decoding the bytes the encoder writes gives back the same info, for every combination of set and unset strings |
| AdMessages.AdNetworkResponseInfoFromFields | webapp/src/generated/AdService/AdService.ts:15-102 | the nested fields written for an info rebuild that info when read inside an outer message |
| AdMessages.AdNetworkResponseInfoLastWins | webapp/src/generated/AdService/AdService.ts:59-100 | when a string field occurs more than once, the decoded info holds its last occurrence |
| AdMessages.NestedInfoWithinDeclaredLength | webapp/src/generated/AdService/AdService.ts:170-184 | a nested info is read under a limit set from its declared length, and its loop stops at or before that limit |
| AdMessages.ResponseInfoFieldOrder | webapp/src/generated/AdService/AdService.ts:153-192 | for fields in any order, `response_id` and `loaded_ad_network_info` keep their last occurrence, and `ad_network_info_array` appends every occurrence in order |
| AdMessages.InfoArrayAppend | webapp/src/generated/AdService/AdService.ts:177-184 | decoding the encoded array appends exactly those infos, in array order |
| AdMessages.ResponseInfoFold | webapp/src/generated/AdService/AdService.ts:116-192 | folding the decoder's switch over the encoder's fields rebuilds the response info |
| AdMessages.ResponseInfoRoundTrip | webapp/src/generated/AdService/AdService.ts:116-192 | a response info decodes back to itself; the id and the loaded info are set exactly when they were set before, and the array keeps its order; an empty array and an absent one are the same value here (see Left out) |
| AdMessages.SingleEventBytes | webapp/src/generated/AdService/AdService.ts:256-322 | a response with one event kind is encoded as that kind's tag followed by a zero length byte |
| AdMessages.SingleKindSlot | webapp/src/generated/AdService/AdService.ts:256-322 | if the one set kind is k, then slot k - 1 is set and every other slot is unset |
| AdMessages.KindsOfSingle | webapp/src/generated/AdService/AdService.ts:256-322 | conversely, if only slot k - 1 is set, then k is the one kind |
| AdMessages.LoadAdResponseRoundTrip | webapp/src/generated/AdService/AdService.ts:256-392 | a load response decodes back to itself: each event kind is set afterwards exactly when it was set before |
| AdMessages.LoadAdSingleKind | webapp/src/generated/AdService/AdService.ts:256-392 | a load response with one kind k set encodes to the bytes k * 8 + 2, 0 and decodes back with that kind alone |
| AdMessages.ShowAdResponseRoundTrip | webapp/src/generated/AdService/AdService.ts:457-612 | a show response decodes back to itself: each event kind is set afterwards exactly when it was set before |
| AdMessages.ShowAdSingleKind | webapp/src/generated/AdService/AdService.ts:457-612 | a show response with one kind k set encodes to the bytes k * 8 + 2, 0 (58, 0 for `user_earned_reward`) and decodes back with that kind alone |
| IapMessages.ProductListItemRoundTrip | webapp/src/generated/IapService/IapService.ts:118-205 | a product list item decodes back to itself; unset fields write nothing and stay unset |
| IapMessages.NegativeSkuLoopsForever | webapp/src/generated/IapService/IapService.ts:159-173 | decodeIapProductListItem as written never returns on the bytes 0A FA FF FF FF 0F: for every bound on its turns the loop is still running |
| IapMessages.NegativeSkuRejected | webapp/src/generated/IapService/IapService.ts:159-173 | with the length read unsigned the same bytes end the decode with "Read past limit" |
| IapMessages.PurchaseSuccessRoundTrip | webapp/src/generated/IapService/IapService.ts:507-620 | a success event decodes back to itself; the int64 amount goes through writeVarint64/readVarint64, and the int32 fraction goes through writeVarint64(intToLong)/readVarint32, negative values included |
| IapMessages.PurchaseSuccessFromFields | webapp/src/generated/IapService/IapService.ts:507-620 | the fields written for a success event decode back to that event when nested |
| IapMessages.PurchaseErrorFromFields | webapp/src/generated/IapService/IapService.ts:633-681 | the fields written for an error event decode back to that event when nested |
| IapMessages.PurchaseEventFromFields | webapp/src/generated/IapService/IapService.ts:429-489 | decoding the fields of a purchase event rebuilds it, nested messages included |
| IapMessages.PurchaseEventRoundTrip | webapp/src/generated/IapService/IapService.ts:429-489 | a purchase event decodes back to itself, with whichever of its nested success and error were set |
| IapMessages.EventsAppend | webapp/src/generated/IapService/IapService.ts:395-402 | decoding the encoded events appends exactly those events, in array order |
| IapMessages.PollPurchaseEventsResponseFold | webapp/src/generated/IapService/IapService.ts:359-416 | folding the decoder's switch over the encoder's fields rebuilds the poll response |
| IapMessages.PollPurchaseEventsResponseRoundTrip | webapp/src/generated/IapService/IapService.ts:359-416 | a poll response decodes back to itself; the events keep their order, and `is_finished` is written as one byte 0 or 1 and read back as "byte != 0"; an empty events array and an absent one are the same value here (see Left out) |
| GameMessages.EncodeNoFields | webapp/src/generated/GameService/GameService.ts:10-11 | a message with no fields is encoded as no bytes |
| GameMessages.NoFieldsStored | webapp/src/generated/GameService/GameService.ts:17-33 | a decoder with no known field skips every field it meets and stores nothing |
| GameMessages.NoFieldsRoundTrip | webapp/src/generated/GameService/GameService.ts:10-33 | zero bytes decode to the empty message |
| GameMessages.UserKeyResponseRoundTrip | webapp/src/generated/GameService/GameService.ts:46-106 | decoding restores whichever of `success` and `error` were set, and leaves the other unset |
| GameMessages.GrantPromotionRewardRequestRoundTrip | webapp/src/generated/GameService/GameService.ts:241-289 | every promotion code and every int32 amount, negative ones included, decode back to themselves |
| GameMessages.NegativeAmountIsElevenBytes | webapp/src/generated/GameService/GameService.ts:241-255 | a request holding only a negative amount is 11 bytes: the tag 16 and a ten-byte sign-extended varint |
| GameMessages.NegativeIsTenBytes | webapp/src/generated/IapService/IapService.ts:1217-1224 | intToLong of a negative int32 is sign-extended to 64 bits, so its varint is ten bytes long |
| Buffer.ByteBuffer.Fresh | webapp/src/generated/IapService/IapService.ts:1228-1233 | a buffer taken from an empty pool is empty and writable, and its array holds 64 bytes |
| Buffer.ByteBuffer.Wrap | webapp/src/generated/IapService/IapService.ts:1239-1241 | a wrapped array is read from offset 0 up to its full length |
| Buffer.ByteBuffer.Advance | webapp/src/generated/IapService/IapService.ts:1277-1284 | the buffer method agrees with the cursor function: on success it returns the old offset and moves past count bytes; "Read past limit" leaves the offset unchanged |
| Buffer.ByteBuffer.Skip | webapp/src/generated/IapService/IapService.ts:1249-1254 | agrees with the cursor skip; "Skip past limit" leaves the offset unchanged |
| Buffer.ByteBuffer.ReadByte | webapp/src/generated/IapService/IapService.ts:1427-1429 | agrees with the cursor readByte, including an index outside the array reading as 0 |
| Buffer.ByteBuffer.ReadVarint32 | webapp/src/generated/IapService/IapService.ts:1525-1535 | the do-while loop computes the same int32 and end position as the cursor varint reader |
| Buffer.ByteBuffer.ReadVarint64 | webapp/src/generated/IapService/IapService.ts:1546-1579 | the byte loop computes the same Long (both words, signed or unsigned) and end position as the cursor reader |
| Buffer.ByteBuffer.ReadBool | webapp/src/generated/IapService/IapService.ts:405-407 | `!!readByte(bb)` agrees with the cursor bool reader |
| Buffer.ByteBuffer.ReadString | webapp/src/generated/IapService/IapService.ts:1296-1371 | agrees with the cursor readString: the same decoded text and end position, or the same error |
| Buffer.ByteBuffer.ReadLength | webapp/src/generated/IapService/IapService.ts:1525-1535 | a length prefix read as unsigned agrees with the cursor length reader |
| Buffer.ByteBuffer.ReadStringField | webapp/src/generated/IapService/IapService.ts:171 | corrected (unsigned length): a string field's length, read unsigned, followed by its text agrees with the cursor string-field reader |
| Buffer.ByteBuffer.SkipUnknownField | webapp/src/generated/IapService/IapService.ts:1180-1188 | corrected (unsigned length): skipping by wire type, the wire type 2 length read unsigned, agrees with the cursor function, including the error for an unknown wire type |
| Buffer.ByteBuffer.PushTemporaryLength | webapp/src/generated/IapService/IapService.ts:1173-1178 | narrows the limit to the declared length and returns the old limit, as the cursor function does |
| Buffer.ByteBuffer.Grow | webapp/src/generated/IapService/IapService.ts:1260-1275 | moves the offset forward by count, raises the limit to it, and keeps the old bytes at the front; a reallocated array is twice the new offset |
| Buffer.ByteBuffer.WriteByte | webapp/src/generated/IapService/IapService.ts:1431-1434 | the written bytes gain exactly that byte |
| Buffer.ByteBuffer.WriteVarint32 | webapp/src/generated/IapService/IapService.ts:1537-1544 | the written bytes gain exactly the varint of the value after `>>> 0` |
| Buffer.ByteBuffer.WriteVarint64 | webapp/src/generated/IapService/IapService.ts:1581-1613 | the written bytes gain exactly the varint of the Long, whose length the size ladder picks |
| Buffer.ByteBuffer.WriteByteBuffer | webapp/src/generated/IapService/IapService.ts:1416-1425 | the written bytes gain exactly the other buffer's written bytes |
| Buffer.ByteBuffer.WriteString | webapp/src/generated/IapService/IapService.ts:1373-1414 | the written bytes gain the UTF-8 byte count as a varint, then the text's UTF-8 bytes |
| Buffer.ByteBuffer.StoreText | webapp/src/generated/IapService/IapService.ts:1392-1413 | the second loop stores exactly the text's UTF-8 encoding from the start position |
| Buffer.ByteBuffer.StoreCodePoint | webapp/src/generated/IapService/IapService.ts:1397-1412 | one code point is stored as its one to four UTF-8 bytes |
| Buffer.ByteBuffer.WriteVarint32ZigZag | webapp/src/generated/IapService/IapService.ts:1622-1625 | the written bytes gain the varint of the zigzag of the value |
| Buffer.ByteBuffer.ReadVarint32ZigZag | webapp/src/generated/IapService/IapService.ts:1615-1620 | the value read is the un-zigzag of the varint read |
| Buffer.ByteBuffer.WriteVarint64ZigZag | webapp/src/generated/IapService/IapService.ts:1641-1652 | the written bytes gain the varint of the 64-bit zigzag of the Long |
| Buffer.ByteBuffer.ReadVarint64ZigZag | webapp/src/generated/IapService/IapService.ts:1627-1639 | the value read is the 64-bit un-zigzag of the signed Long read |
| Buffer.ByteBuffer.WriteFields | webapp/src/generated/IapService/IapService.ts:118-153 | an encoder body appends exactly the bytes of its fields, in order |
| Buffer.ByteBuffer.WriteField | webapp/src/generated/IapService/IapService.ts:121-124 | one field appends its tag and then its value |
| Buffer.ByteBuffer.WritePayload | webapp/src/generated/IapService/IapService.ts:134-138 | the value after the tag: a varint, a string, or a nested message |
| Buffer.ByteBuffer.WriteNested | webapp/src/generated/IapService/IapService.ts:442-449 | a nested message appends its length and then its bytes, encoded in a buffer of its own |
| Buffer.ByteBuffer.ReadFields | webapp/src/generated/IapService/IapService.ts:159-205 | corrected (unsigned length): the decode loop returns the same fields and end position as the cursor parser with unsigned lengths, or the same error |
| Buffer.ByteBuffer.ReadValue | webapp/src/generated/IapService/IapService.ts:396-402 | corrected (unsigned length): a known field's value, a string with its length read unsigned and a nested one under the pushed length with the limit restored afterwards, agrees with the cursor function |
| Operations.PollUnknown | webapp/src/services/ait-rpc/AdServiceImpl.ts:107-113 | polling an unknown operation id answers `{ events: [], is_finished: true }` and leaves the store unchanged |
| Operations.PollDrains | webapp/src/services/ait-rpc/AdServiceImpl.ts:115-124 | a poll of a live operation returns its whole queue in push order and its finished flag; the queue is left empty, the entry is deleted exactly when it had finished, and no other entry changes |
| Operations.FinishedPollIsLast | webapp/src/services/ait-rpc/AdServiceImpl.ts:110-124 | after a poll that reported the end, the operation is gone, and the next poll answers `{ events: [], is_finished: true }` |
| Operations.CallbacksAfterDeleteIgnored | webapp/src/services/ait-rpc/AdServiceImpl.ts:49-50 | callbacks for an id that is no longer in the store change nothing |
| Operations.CallbacksAccumulate | webapp/src/services/ait-rpc/AdServiceImpl.ts:48-101 | callbacks on a live operation append their events in order and finish it if any of them finishes; other entries are untouched |
| Operations.StartCallbacksPoll | webapp/src/services/ait-rpc/AdServiceImpl.ts:39-124 | for a started operation followed by callbacks, the poll returns exactly the queued events in order, and reports the end exactly when some callback finished the operation |
| AdServiceImpl.LoadAdEventFor | webapp/src/services/ait-rpc/AdServiceImpl.ts:55-90 | a recognised load event type becomes a message with that one kind set; any other type builds no event |
| AdServiceImpl.ShowAdEventFor | webapp/src/services/ait-rpc/AdServiceImpl.ts:151-172 | a recognised show event type becomes a message with that one kind set; any other type builds no event |
| AdServiceImpl.NetworkInfoOf | webapp/src/services/ait-rpc/AdServiceImpl.ts:61-67 | the four source fields are copied unchanged, and a missing class name becomes `""` |
| AdServiceImpl.NetworkInfosOf | webapp/src/services/ait-rpc/AdServiceImpl.ts:68-74 | the SDK's network info array is converted element by element, in order |
| AdServiceImpl.LoadedResponseInfo | webapp/src/services/ait-rpc/AdServiceImpl.ts:57-77 | a `loaded` event always sets the response id (`?? ""`); the loaded network info is set exactly when the SDK gave one; the array keeps the SDK's order |
| AdServiceImpl.AdService.constructor | webapp/src/services/ait-rpc/AdServiceImpl.ts:25 | the operation store starts empty |
| AdServiceImpl.AdService.LoadAd | webapp/src/services/ait-rpc/AdServiceImpl.ts:31-40 | an unsupported SDK answers operation id `""` and registers nothing; otherwise the fresh id is registered as `{ events: [], isFinished: false }` and returned |
| AdServiceImpl.AdService.ShowAd | webapp/src/services/ait-rpc/AdServiceImpl.ts:129-136 | the same start as LoadAd, through the show entry point |
| AdServiceImpl.AdService.OnLoadAdEvent | webapp/src/services/ait-rpc/AdServiceImpl.ts:48-94 | the store becomes the recorded load callback applied to the old store |
| AdServiceImpl.AdService.OnShowAdEvent | webapp/src/services/ait-rpc/AdServiceImpl.ts:144-176 | the store becomes the recorded show callback applied to the old store |
| AdServiceImpl.AdService.OnAdError | webapp/src/services/ait-rpc/AdServiceImpl.ts:95-101 | an error finishes a live operation and queues nothing |
| AdServiceImpl.AdService.PollEvents | webapp/src/services/ait-rpc/AdServiceImpl.ts:107-125 | the answer and the new store are those of a poll of the old store |
| AdServiceImpl.LoadFinishesOnTerminalKind | webapp/src/services/ait-rpc/AdServiceImpl.ts:82-89 | a load event finishes its operation exactly when it is queued as a dismissed or failed-to-show message |
| AdServiceImpl.ShowFinishesOnTerminalKind | webapp/src/services/ait-rpc/AdServiceImpl.ts:164-171 | a show event finishes its operation exactly when it is queued as a dismissed or failed-to-show message |
| AdServiceImpl.LoadIgnoresShowOnlyTypes | webapp/src/services/ait-rpc/AdServiceImpl.ts:55-90 | a load operation does not recognise `requested` or `userEarnedReward`: nothing is queued and nothing finishes |
| AdServiceImpl.QueuedLoadEventOnTheWire | webapp/src/services/ait-rpc/AdServiceImpl.ts:91-93 | in this model, where the event payload messages have no fields, a queued load event crosses the wire as its kind's tag and a zero length and decodes with its one kind set |
| AdServiceImpl.QueuedShowEventOnTheWire | webapp/src/services/ait-rpc/AdServiceImpl.ts:173-175 | in this model, where the event payload messages have no fields, a queued show event crosses the wire as its kind's tag and a zero length and decodes with its one kind set |
| IapServiceImpl.ProductItemsOf | webapp/src/services/ait-rpc/IapServiceImpl.ts:36-42 | the SDK's products are converted element by element, in order |
| IapServiceImpl.GetProductItemList | webapp/src/services/ait-rpc/IapServiceImpl.ts:30-44 | no SDK result gives no products; otherwise every product is copied field for field, in the SDK's order |
| IapServiceImpl.PendingOrdersOf | webapp/src/services/ait-rpc/IapServiceImpl.ts:122-125 | each pending order keeps its id and sku, in order |
| IapServiceImpl.GetPendingOrders | webapp/src/services/ait-rpc/IapServiceImpl.ts:116-127 | no SDK result gives no orders; otherwise each order's id and sku, in order |
| IapServiceImpl.CompletedOrdersOf | webapp/src/services/ait-rpc/IapServiceImpl.ts:138-143 | the completed orders are converted element by element, in order |
| IapServiceImpl.GetCompletedOrRefundedOrders | webapp/src/services/ait-rpc/IapServiceImpl.ts:130-145 | no SDK result gives `{ has_next: false, next_key: "", orders: [] }`; otherwise `has_next` is the SDK's, the next key is always set (`?? ""`), and the orders are copied in order |
| IapServiceImpl.CompleteProductGrant | webapp/src/services/ait-rpc/IapServiceImpl.ts:148-151 | `success` is true exactly when the SDK answered true |
| IapServiceImpl.SuccessEventOf | webapp/src/services/ait-rpc/IapServiceImpl.ts:66-76 | a success event copies the SDK's fields, and a missing icon url becomes `""` |
| IapServiceImpl.ErrorEventOf | webapp/src/services/ait-rpc/IapServiceImpl.ts:84-89 | the error code and message are always set: to the SDK's values when it gave them, otherwise to `UNKNOWN_ERROR` and "An unknown error occurred." |
| IapServiceImpl.IapService.constructor | webapp/src/services/ait-rpc/IapServiceImpl.ts:26 | the purchase store starts empty |
| IapServiceImpl.IapService.CreateOneTimePurchaseOrder | webapp/src/services/ait-rpc/IapServiceImpl.ts:47-49 | the fresh id is registered as `{ events: [], isFinished: false }` and returned |
| IapServiceImpl.IapService.OnPurchaseEvent | webapp/src/services/ait-rpc/IapServiceImpl.ts:61-79 | the store becomes the recorded purchase callback applied to the old store |
| IapServiceImpl.IapService.OnPurchaseError | webapp/src/services/ait-rpc/IapServiceImpl.ts:80-91 | the store becomes the recorded error callback applied to the old store |
| IapServiceImpl.IapService.PollPurchaseEvents | webapp/src/services/ait-rpc/IapServiceImpl.ts:98-113 | the answer is the queue and the flag, and the new store is that of a poll of the old store |
| IapServiceImpl.OneCallbackFinishes | webapp/src/services/ait-rpc/IapServiceImpl.ts:61-113 | after one callback, whatever the SDK does first, a started purchase is finished; the next poll returns the one queued event (none for a non-success event) and reports the end |
| IapServiceImpl.OnlySuccessQueued | webapp/src/services/ait-rpc/IapServiceImpl.ts:65-78 | `onEvent` queues a message exactly for `success`, and that message is a success; every event type finishes the purchase |
| AdStream.PollUntilFinished | unity/AIT-SDK-Project/Assets/AIT-SDK/ExtensionMethods/AdServiceClientExtensions.cs:15-44 | a null or empty operation id fails before any poll; otherwise the loop's run is exactly the stream run of the given poll answers and token looks |
| AdStream.StreamFromYields | unity/AIT-SDK-Project/Assets/AIT-SDK/ExtensionMethods/AdServiceClientExtensions.cs:28-42 | the events yielded are the polled batches in poll order, each in array order, and the loop never polls past the answers given |
| AdStream.StreamFromStops | unity/AIT-SDK-Project/Assets/AIT-SDK/ExtensionMethods/AdServiceClientExtensions.cs:28-42 | no poll follows a cancelled look; only the last poll may report the end, and it does exactly when the run ended by finishing; otherwise the run stopped at a cancelled look; a delay is begun after every unfinished poll |
| AdStream.StreamShape | unity/AIT-SDK-Project/Assets/AIT-SDK/ExtensionMethods/AdServiceClientExtensions.cs:17-43 | a whole run yields the batches of its polls; it ends at the loop condition exactly when it made no poll, and by finishing exactly when its last poll reported the end |
| AdStream.StreamEndAtCheck | unity/AIT-SDK-Project/Assets/AIT-SDK/ExtensionMethods/AdServiceClientExtensions.cs:28 | only the first look is the loop condition; every later cancellation is observed by the delay |
| AdStream.UncancelledStreamEndsByFinishing | unity/AIT-SDK-Project/Assets/AIT-SDK/ExtensionMethods/AdServiceClientExtensions.cs:28-42 | with a token that is never cancelled, the stream ends only by a poll reporting the end |
| AdStream.UncancelledNeedsFinish | unity/AIT-SDK-Project/Assets/AIT-SDK/ExtensionMethods/AdServiceClientExtensions.cs:28-42 | with a token that is never cancelled and no poll reporting the end, the loop does not end |
| PlaybackPause.Coordinator.constructor | unity/AIT-SDK-Project/Assets/AIT-SDK/Bridge/AppsInTossPlaybackPause.cs:22-31 | no request is live, the next id is 1, both counts are 0 and no value is cached |
| PlaybackPause.Coordinator.Acquire | unity/AIT-SDK-Project/Assets/AIT-SDK/Bridge/AppsInTossPlaybackPause.cs:37-68 | no channel gives no handle and changes nothing; otherwise the request gets the next id and is recorded with its channels; each channel it names is counted, and the first request on a channel remembers the channel's value and pauses it |
| PlaybackPause.Coordinator.Record | unity/AIT-SDK-Project/Assets/AIT-SDK/Bridge/AppsInTossPlaybackPause.cs:44-65 | the request is recorded under the next id, and the count of each channel it names goes up by one |
| PlaybackPause.Coordinator.PauseTime | unity/AIT-SDK-Project/Assets/AIT-SDK/Bridge/AppsInTossPlaybackPause.cs:47-55 | the first clock request remembers `Time.timeScale` and sets it to 0; later ones only count |
| PlaybackPause.Coordinator.PauseAudio | unity/AIT-SDK-Project/Assets/AIT-SDK/Bridge/AppsInTossPlaybackPause.cs:57-65 | the first audio request remembers `AudioListener.pause` and pauses the audio; later ones only count |
| PlaybackPause.Coordinator.Release | unity/AIT-SDK-Project/Assets/AIT-SDK/Bridge/AppsInTossPlaybackPause.cs:70-96 | a handle whose request is not live changes nothing; otherwise the request is removed and each channel it names is counted down by one; a channel whose count reaches 0 gets its remembered value back and drops its cache |
| PlaybackPause.Coordinator.Forget | unity/AIT-SDK-Project/Assets/AIT-SDK/Bridge/AppsInTossPlaybackPause.cs:72-95 | a live request is removed and each channel it names is counted down by one |
| PlaybackPause.Coordinator.ResumeTime | unity/AIT-SDK-Project/Assets/AIT-SDK/Bridge/AppsInTossPlaybackPause.cs:77-85 | the clock count goes down by one, and at 0 the remembered clock comes back |
| PlaybackPause.Coordinator.ResumeAudio | unity/AIT-SDK-Project/Assets/AIT-SDK/Bridge/AppsInTossPlaybackPause.cs:87-95 | the audio count goes down by one, and at 0 the remembered audio state comes back |
| PlaybackPause.CountedAfterAdd | unity/AIT-SDK-Project/Assets/AIT-SDK/Bridge/AppsInTossPlaybackPause.cs:44-65 | a new request is counted on a channel exactly when it names it, and the cache is then valid |
| PlaybackPause.CountedAfterRemove | unity/AIT-SDK-Project/Assets/AIT-SDK/Bridge/AppsInTossPlaybackPause.cs:72-95 | a removed request is uncounted on a channel exactly when it named it; that count is at least 1, so the floor at 0 never applies |
| PlaybackPause.PauseHandle.constructor | unity/AIT-SDK-Project/Assets/AIT-SDK/Bridge/AppsInTossPlaybackPause.cs:103-108 | a new handle holds its id, channels and reason, and is not released |
| PlaybackPause.PauseHandle.Dispose | unity/AIT-SDK-Project/Assets/AIT-SDK/Bridge/AppsInTossPlaybackPause.cs:115-124 | the first call marks the handle released and releases its request; any later call changes nothing |
| PlaybackPause.PauseThenDispose | unity/AIT-SDK-Project/Assets/AIT-SDK/Bridge/AppsInTossPlaybackPause.cs:37-124 | acquiring a pause and then disposing it leaves the same live requests and counts, and puts the clock and the audio back to their earlier values |
| AdUseCase.ResolveAdPauseChannels | unity/AIT-SDK-Project/Assets/AIT-SDK/Bridge/AppsInTossAdUseCase.cs:195-215 | without a config both channels are paused; otherwise the clock exactly when PauseTimeDuringAds is set and the audio exactly when MuteAudioDuringAds is set |
| AdUseCase.ShowAdCheck | unity/AIT-SDK-Project/Assets/AIT-SDK/Bridge/AppsInTossAdUseCase.cs:93-105 | the guards in their order: a blank ad group id, then a missing ad service, then an ad already playing; the flow starts exactly when none holds |
| AdUseCase.FirstTerminal | unity/AIT-SDK-Project/Assets/AIT-SDK/Bridge/AppsInTossAdUseCase.cs:142-158 | the position of the first dismissed or failed-to-show event; no event before it is terminal |
| AdUseCase.LoopTokenAsWritten | unity/AIT-SDK-Project/Assets/AIT-SDK/ExtensionMethods/AdServiceClientExtensions.cs:52-78 | as written, the poll loop reads a token that is never cancelled, whatever the caller's token does |
| AdUseCase.AdUseCasePlayer.constructor | unity/AIT-SDK-Project/Assets/AIT-SDK/Bridge/AppsInTossAdUseCase.cs:53-55 | no ad is playing at start-up |
| AdUseCase.AdUseCasePlayer.BeginAd | unity/AIT-SDK-Project/Assets/AIT-SDK/Bridge/AppsInTossAdUseCase.cs:91-112 | a failed guard reports its error and changes nothing; otherwise a new linked token source becomes the active one and the flow gets the ad group id |
| AdUseCase.AdUseCasePlayer.RunAdFlow | unity/AIT-SDK-Project/Assets/AIT-SDK/Bridge/AppsInTossAdUseCase.cs:129-186 | the result is the flow result of the stream; on every exit the pause is disposed of, so the coordinator's requests and counts are as before, and the active token source is cleared if it is still this flow's |
| AdUseCase.AdUseCasePlayer.ShowAd | unity/AIT-SDK-Project/Assets/AIT-SDK/Bridge/AppsInTossAdUseCase.cs:91-186 | a failed guard throws before anything changes; otherwise the flow runs to its result, after which no ad is playing and the pause coordinator is as before |
| AdUseCase.FoldStream | unity/AIT-SDK-Project/Assets/AIT-SDK/Bridge/AppsInTossAdUseCase.cs:138-175 | the `try`/`catch` around the `await foreach` computes the flow result of the stream |
| AdUseCase.RewardStep | unity/AIT-SDK-Project/Assets/AIT-SDK/Bridge/AppsInTossAdUseCase.cs:144-147 | after one more event the reward flag is set exactly when it was already set or that event reports an earned reward |
| AdUseCase.FirstTerminalDecides | unity/AIT-SDK-Project/Assets/AIT-SDK/Bridge/AppsInTossAdUseCase.cs:149-157 | the first terminal event decides the status: Completed when it was dismissed, FailedToShow when it failed to show; the reward flag covers the events up to and including it; later events do not matter |
| AdUseCase.NoTerminalEvent | unity/AIT-SDK-Project/Assets/AIT-SDK/Bridge/AppsInTossAdUseCase.cs:160-169 | a stream with no terminal event gives Cancelled when it was cut in a delay or the token is cancelled when the loop is left, and Completed otherwise; the reward flag says whether any event reported a reward |
| AdUseCase.RewardGrantedOnlyWhenCompleted | unity/AIT-SDK-Project/Assets/AIT-SDK/Bridge/AppsInTossAdUseCase.cs:32 | a reward is granted exactly when the ad completed and an event up to the first terminal one reported an earned reward |
| AdUseCase.FailedStartFailsToShow | unity/AIT-SDK-Project/Assets/AIT-SDK/Bridge/AppsInTossAdUseCase.cs:171-175 | a failed start gives FailedToShow without a reward, whatever the token does |
| AdUseCase.CancelledBeforeFirstPoll | unity/AIT-SDK-Project/Assets/AIT-SDK/Bridge/AppsInTossAdUseCase.cs:107-111 | when the loop observes the caller's token, cancelling before the first poll gives Cancelled without a single poll, even from a host that never reports the end |
| AdUseCase.CancelledInDelayEndsFlow | unity/AIT-SDK-Project/Assets/AIT-SDK/ExtensionMethods/AdServiceClientExtensions.cs:73-76 | when the loop observes the caller's token, a cancellation seen in the delay after poll k ends the flow there as Cancelled, unless an earlier event was terminal |
| AdUseCase.AsWrittenIgnoresCancellation | unity/AIT-SDK-Project/Assets/AIT-SDK/ExtensionMethods/AdServiceClientExtensions.cs:63 | as written, even a caller who has cancelled at every look gets no end to the loop from a host that never reports the end |
| AdUseCase.AsWrittenCompletesAfterCancel | unity/AIT-SDK-Project/Assets/AIT-SDK/Bridge/AppsInTossAdUseCase.cs:142 | as written, a caller who cancels before the first poll still has the ad polled, and gets Completed when the host ends the run with a dismissed event |
| IapUseCase.FindBySku | unity/AIT-SDK-Project/Assets/AIT-SDK/Bridge/AppsInTossIapUseCase.cs:130 | the first catalog product with that SKU, or none exactly when no product has it |
| IapUseCase.FirstDecisive | unity/AIT-SDK-Project/Assets/AIT-SDK/Bridge/AppsInTossIapUseCase.cs:215-226 | the position of the first event that carries a success or an error; no event before it does |
| IapUseCase.IapUseCasePlayer.constructor | unity/AIT-SDK-Project/Assets/AIT-SDK/Bridge/AppsInTossIapUseCase.cs:61-65 | the catalog starts empty, was never fetched, and the TTL is 120 seconds |
| IapUseCase.IapUseCasePlayer.EnsureCatalog | unity/AIT-SDK-Project/Assets/AIT-SDK/Bridge/AppsInTossIapUseCase.cs:168-190 | the cached catalog is returned when it may be served; otherwise a missing service and a cancelled call fail and change nothing; a completed fetch replaces the catalog and sets the fetch time to now |
| IapUseCase.IapUseCasePlayer.GetCuratedProduct | unity/AIT-SDK-Project/Assets/AIT-SDK/Bridge/AppsInTossIapUseCase.cs:117-137 | a blank spot id is refused; no config, an unknown spot or a blank ProductId gives no product and no state change; otherwise the outcome follows EnsureCatalog: from the cache or the fetched products (which then replace the catalog, stamped with the fetch time) the result is the spot with the first product of its SKU, or none when no product has it; a service not ready or a cancelled fetch is the matching error with the state unchanged |
| IapUseCase.SpotWithSku | unity/AIT-SDK-Project/Assets/AIT-SDK/Bridge/AppsInTossIapUseCase.cs:124-127 | the spot a spot id names exactly when the config is set, the spot is found and its ProductId is not blank; it is the first spot with that id |
| IapUseCase.CuratedIn | unity/AIT-SDK-Project/Assets/AIT-SDK/Bridge/AppsInTossIapUseCase.cs:129-136 | a spot sells nothing in a catalog exactly when no product has its SKU; otherwise it is paired with the first product with that SKU |
| IapUseCase.IapUseCasePlayer.CompletePurchase | unity/AIT-SDK-Project/Assets/AIT-SDK/Bridge/AppsInTossIapUseCase.cs:255-259 | the result is handed to the observers once and returned unchanged |
| IapUseCase.IapUseCasePlayer.RunPurchaseFlow | unity/AIT-SDK-Project/Assets/AIT-SDK/Bridge/AppsInTossIapUseCase.cs:192-253 | the result is the purchase result of the create call and the polls, and it is completed exactly once |
| IapUseCase.IapUseCasePlayer.PurchaseSku | unity/AIT-SDK-Project/Assets/AIT-SDK/Bridge/AppsInTossIapUseCase.cs:154-166 | a blank SKU and a missing service are refused and change nothing; otherwise the purchase flow runs and its result is completed once |
| IapUseCase.IapUseCasePlayer.PurchaseCuratedSpot | unity/AIT-SDK-Project/Assets/AIT-SDK/Bridge/AppsInTossIapUseCase.cs:139-152 | an unknown spot and a spot without a SKU are refused; otherwise the spot's SKU is purchased |
| IapUseCase.PurchaseResultShape | unity/AIT-SDK-Project/Assets/AIT-SDK/Bridge/AppsInTossIapUseCase.cs:215-251 | only a Success result carries a success event, and only a Failed one an error event; a Cancelled result carries neither; the SKU is the one purchased |
| IapUseCase.DecidedByFirstEvent | unity/AIT-SDK-Project/Assets/AIT-SDK/Bridge/AppsInTossIapUseCase.cs:209-238 | a result that is not Cancelled is decided by some poll j, all earlier polls having gone by quietly: by j's first deciding event, or by EMPTY_RESULT when j finished without one |
| IapUseCase.DecidedOutcomes | unity/AIT-SDK-Project/Assets/AIT-SDK/Bridge/AppsInTossIapUseCase.cs:215-235 | a success result holds the success of the batch's first deciding event; a failure holds that event's error; a finished batch with no deciding event fails with EMPTY_RESULT |
| IapUseCase.EmptyOperationIdFails | unity/AIT-SDK-Project/Assets/AIT-SDK/Bridge/AppsInTossIapUseCase.cs:202-205 | an order that comes back without an operation id fails with EXCEPTION, without polling |
| IapUseCase.CatalogServedUntilTtl | unity/AIT-SDK-Project/Assets/AIT-SDK/Bridge/AppsInTossIapUseCase.cs:170-174 | the first fetch always calls the RPC; after a fetch of a non-empty catalog at time t, the catalog is served from the cache exactly until t + ttl, unless a refresh is forced |
| MonetizationConfig.TryGetCuratedSpot | unity/AIT-SDK-Project/Assets/AIT-SDK/Config/AppsInTossMonetizationConfig.cs:46-50 | the first spot whose id equals the one asked for, or none exactly when no spot has it |
| MonetizationConfig.EnumerateProductIds | unity/AIT-SDK-Project/Assets/AIT-SDK/Config/AppsInTossMonetizationConfig.cs:55-64 | the product ids in list order; none of them is null, empty or white space, and there are no more than there are spots |
| MonetizationConfig.ProductIdsAppend | unity/AIT-SDK-Project/Assets/AIT-SDK/Config/AppsInTossMonetizationConfig.cs:57-63 | the ids of two lists of spots are the ids of the first list followed by those of the second |
| MonetizationConfig.ProductIdsCount | unity/AIT-SDK-Project/Assets/AIT-SDK/Config/AppsInTossMonetizationConfig.cs:55-64 | a SKU that is not blank is listed once for every spot that sells it, and a blank one never: the list is not deduplicated and drops nothing else |
| MonetizationConfig.ProductIdsMembers | unity/AIT-SDK-Project/Assets/AIT-SDK/Config/AppsInTossMonetizationConfig.cs:55-64 | an id is listed exactly when it is not blank and is the product id of some spot |
| MonetizationConfig.SharedSkuListedTwice | unity/AIT-SDK-Project/Assets/AIT-SDK/Config/AppsInTossMonetizationConfig.cs:55-64 | two spots selling the same SKU list it twice |
| Payloads.FirstSep | unity-code/Bridge/AitSdkBridge.cs:124 | the position of the first separator, with no separator before it, or the length when there is none |
| Payloads.LastSep | webapp/src/services/ait/openURL.ts:8 | the position of the last separator, with no separator after it, or -1 when there is none |
| Payloads.SplitFirst | unity-code/Bridge/AitSdkBridge.cs:124-126 | the C# split into at most two parts: there is a rest exactly when the payload holds a separator; the first part holds none, and joining the two parts gives the payload back |
| Payloads.SplitAll | webapp/src/services/ait/openURL.ts:19 | the JavaScript split at every separator: at least one part, none of them holds a separator, and joining them with separators gives the string back |
| Payloads.SplitLast | webapp/src/services/ait/openURL.ts:19 | the split at the last separator: none exactly when there is no separator; otherwise the second part holds none and joining gives the string back |
| Payloads.SplitFirstJoin | unity-code/Bridge/AitSdkBridge.cs:124-126 | splitting at the first separator undoes a join exactly when the first part holds no separator |
| Payloads.SplitFirstPlain | unity-code/Bridge/AitSdkBridge.cs:124-126 | a string with no separator splits into itself and no rest |
| Payloads.SplitLastJoin | webapp/src/services/ait/openURL.ts:19 | splitting at the last separator undoes a join exactly when the second part holds no separator |
| Payloads.SplitAllJoinAll | webapp/src/services/ait/openURL.ts:19 | splitting at every separator undoes joining parts that hold no separator |
| SdkBridge.SuccessArgs | unity-code/Bridge/AitSdkBridge.cs:124-126 | a success payload gives the request id and its data; the data is null exactly when there is no separator, and otherwise the payload is the id, a separator and the data |
| SdkBridge.FailureArgs | unity-code/Bridge/AitSdkBridge.cs:145-147 | a failure payload gives the request id and its message; a bare id gets "Unknown error" |
| SdkBridge.FirstOfKind | unity-code/Bridge/AitSdkBridge.cs:165-172 | the first registered service of the asked type in enumeration order, or none exactly when no registered service has that type |
| SdkBridge.AitSdkBridge.constructor | unity-code/Bridge/AitSdkBridge.cs:39-42 | the bridge starts with no service, no pending request and nothing sent |
| SdkBridge.AitSdkBridge.RegisterService | unity-code/Bridge/AitSdkBridge.cs:78-83 | the service is initialised and stored under its event name; a second service with the same name replaces the first and keeps its place in the order |
| SdkBridge.AitSdkBridge.DispatchEvent | unity-code/Bridge/AitSdkBridge.cs:92-112 | the WebGL player records the requesting service under the request id and sends the event; the editor sends nothing and answers "Editor simulation - success" to a non-null service at once |
| SdkBridge.AitSdkBridge.Deliver | unity-code/Bridge/AitSdkBridge.cs:128-136 | a pending request with a service gets the outcome and is forgotten; an unknown id changes nothing; a request dispatched without a service stops at the null service and stays pending |
| SdkBridge.AitSdkBridge.OnSuccess | unity-code/Bridge/AitSdkBridge.cs:122-137 | the success payload is split at its first separator and its id and data are routed as Deliver routes them |
| SdkBridge.AitSdkBridge.OnFailure | unity-code/Bridge/AitSdkBridge.cs:143-158 | the failure payload is split at its first separator and its id and message are routed as Deliver routes them |
| SdkBridge.AitSdkBridge.GetService | unity-code/Bridge/AitSdkBridge.cs:163-173 | the loop returns the first registered service of the asked type in enumeration order; none means no registered service has that type |
| SdkBridge.DeliveredOnce | unity-code/Bridge/AitSdkBridge.cs:128-131 | a request is answered at most once: after one delivered callback, a second callback for the same id, success or failure, finds nothing pending |
| SdkBridge.FailureMessageKept | unity-code/Bridge/AitSdkBridge.cs:145-147 | a failure message that itself holds separators reaches the service whole |
| SdkBridge.SuccessDataKept | unity-code/Bridge/AitSdkBridge.cs:124-126 | an id, a separator and data passes exactly that data on, and a bare id passes null |
| SdkBridge.FirstOfKindFirst | unity-code/Bridge/AitSdkBridge.cs:165-172 | the first service of a type is found wherever it sits, and a later one of the same type is not |
| OpenUrlWeb.ParseAsWritten | webapp/src/services/ait/openURL.ts:19-28 | as written, the url and the request id are the first two fields of the split, both non-empty and without a separator |
| OpenUrlWeb.ParsePayload | webapp/src/services/ait/openURL.ts:8 | corrected: the request id is the text after the last separator and the url all the text before it; none exactly when either is empty or there is no separator |
| OpenUrlWeb.Handle | webapp/src/services/ait/openURL.ts:13-54 | corrected (last-separator parse): at most one message is sent, and exactly one when the payload parses; success sends `successMethod(requestId)`; an SDK error sends `failureMethod` with the request id, a separator and the error message; the url is opened exactly when a message is sent |
| OpenUrlWeb.Answer | webapp/src/services/ait/openURL.ts:22-53 | after the parse: nothing without a url and a request id; otherwise the url is opened and exactly one message goes back, `successMethod(requestId)` or `failureMethod` with the request id, a separator and the error message |
| OpenUrlWeb.HandleAsWritten | webapp/src/services/ait/openURL.ts:13-54 | the handler as written, after `split` at every separator: at most one message, none exactly when the as-written parse fails, otherwise the first part is opened and the answer goes under the second part |
| OpenUrlWeb.HandlersAgree | webapp/src/services/ait/openURL.ts:19 | the as-written and the corrected handler answer the same when neither the url nor the request id holds a separator |
| OpenUrlWeb.AsWrittenAnswersWrongId | webapp/src/services/ait/openURL.ts:19-39 | as written, the url made of "a", a separator and "b", sent with request id "c", opens "a" and is answered under id "b"; the corrected handler opens the whole url and answers "c" |
| OpenUrlWeb.ParsePayloadJoin | unity-code/Services/OpenURLService.cs:64 | a payload built as the url, a separator and the request id parses back to that url and id, whatever the url holds |
| OpenUrlWeb.ParseAsWrittenJoin | webapp/src/services/ait/openURL.ts:19 | as written, the url, a separator and the request id parse back to the url and the id exactly when the url holds no separator |
| OpenUrlWeb.ParseAsWrittenSplitsUrl | webapp/src/services/ait/openURL.ts:19 | as written, the url made of "a", a separator and "b", with id "c" parses as url "a" and request id "b" |
| OpenUrl.OpenUrlService.constructor | unity-code/Services/OpenURLService.cs:16-23 | a new service answers to "AIT_OpenURL", has no bridge and holds no request |
| OpenUrl.OpenUrlService.Initialize | unity-code/Services/OpenURLService.cs:32-35 | the service keeps the bridge it is given |
| OpenUrl.OpenUrlService.OpenURL | unity-code/Services/OpenURLService.cs:43-70 | a null or empty url fails at once with "URL cannot be null or empty" and stores nothing; otherwise the request is stored under its fresh id and the url, a separator and the id are dispatched; in the editor the immediate success completes it |
| OpenUrl.OpenUrlService.OnSuccess | unity-code/Services/OpenURLService.cs:72-80 | a stored request calls its success callback, if any, and is removed; an unknown id changes nothing |
| OpenUrl.OpenUrlService.OnFailure | unity-code/Services/OpenURLService.cs:82-90 | a stored request passes the message to its failure callback, if any, and is removed; an unknown id changes nothing |
| OpenUrl.ReplyParsesBack | webapp/src/services/ait/openURL.ts:31-52 | corrected (last-separator parse): the web side's answer to the url, a separator and the request id carries the request id back unchanged, as a bare id on success and with the SDK's message on failure; as written this holds only for a url without a separator (OpenUrlWeb.HandlersAgree) |
| OpenUrl.OpenUrlRoundTrip | unity-code/Services/OpenURLService.cs:43-90 | corrected (last-separator parse on the web side): one request from end to end on the WebGL player is delivered, exactly the callback matching the SDK's outcome runs once, and both request tables end as they began |
| Records.TextRoundTrip | webapp/src/generated/IapService/IapService.ts:1296-1414 | a well-formed string written by writeString reads back as the same text and the cursor ends right after it |
| Records.FlagRoundTrip | webapp/src/generated/IapService/IapService.ts:1427-1434 | a bool written by writeByte reads back as the same bool one byte later |
| Records.Int32RoundTrip | webapp/src/generated/IapService/IapService.ts:1217-1224 | an int32 written as the varint64 of intToLong reads back as the same int32 |
| Records.Int64RoundTrip | webapp/src/generated/IapService/IapService.ts:1546-1613 | a signed Long written by writeVarint64 reads back as the same Long |
| Records.MessageValue | webapp/src/generated/IapService/IapService.ts:396-402 | a nested message's value is what its own loop reads under the pushed length, with the saved limit restored |
| Records.PushedLength | webapp/src/generated/IapService/IapService.ts:1173-1178 | pushTemporaryLength over a written length prefix narrows the limit to that many bytes and returns the old limit |
| Wire.ReadLength | webapp/src/generated/IapService/IapService.ts:1525-1538 | an unsigned length prefix moves strictly forward and stays within the limit |
| Wire.NegativeSkuBytes | webapp/src/generated/IapService/IapService.ts:162-171 | the six bytes 0A FA FF FF FF 0F are the tag of field 1 with wire type 2 followed by a length whose 32 bits are -6 |
| Utf8.Utf8OfTwo | webapp/src/generated/IapService/IapService.ts:1312-1327 | a code point written in two bytes decodes back as that one code unit |
| Utf8.Utf8OfThree | webapp/src/generated/IapService/IapService.ts:1329-1345 | a non-surrogate code point written in three bytes decodes back as that one code unit |
| Utf8.Utf8OfFour | webapp/src/generated/IapService/IapService.ts:1347-1365 | a code point above the BMP written in four bytes decodes back as its surrogate pair |
| Utf8.EncodeHead | webapp/src/generated/IapService/IapService.ts:1379-1413 | writeString emits the first code point's bytes and then the bytes of the rest of the text |
| JsNumbers.ZigZag32Bits | webapp/src/generated/IapService/IapService.ts:1622-1625 | `(value << 1) ^ (value >> 31)` read as an unsigned word is 2v for v at least 0 and -2v-1 below 0 |
| JsNumbers.ZigZag64Bits | webapp/src/generated/IapService/IapService.ts:1641-1652 | the two words written by the 64-bit zigzag encode 2v or -2v-1 of the Long's signed value |
| JsNumbers.UnZigZag64Bits | webapp/src/generated/IapService/IapService.ts:1627-1639 | the two words read by the 64-bit zigzag decode are the signed value the zigzag inverse gives |
| JsNumbers.BitsRoundTrip | webapp/src/generated/IapService/IapService.ts:1574-1578 | rebuilding a Long from its 64 bits keeps those bits |

## Left out

- The RPC multiplexer and base64 framing: `WebViewRpcServer`, `WebViewRpcClient`, the generated service bases and the generated clients are external libraries. Start and poll calls are given as parameters and results.
- The transport adapters (ReactUnityBridge.ts, ReactUnityWebGLBridge.cs, AitRpcBridge.cs) only forward strings: a dispatch is recorded as an entry in a log.
- `readFloat`, `writeFloat`, `readDouble`, `writeDouble` and their scratch arrays: floating point is outside this model. No modelled message has such a field.
- The `bbStack` buffer pool (`popByteBuffer`/`pushByteBuffer`) is a performance detail: every encode starts from a fresh `ByteBuffer`.
- `stringToLong` and `longToString` are unused by the codecs.
- The codecs of the request messages and of GetProductItemListResponse, CreateOneTimePurchaseOrderResponse, GetPendingOrdersResponse, PendingOrder, GetCompletedOrRefundedOrders*, CompletedOrRefundedOrder, CompleteProductGrant*, GrantPromotionRewardResponse and its success/error parts, and the leaderboard score messages are not modelled. They use the same runtime and field loop that the modelled codecs exercise.
- The ad event payload messages nested in LoadAdResponse and ShowAdResponse are given as messages without fields, since their generated codecs are not part of this model. Only the choice of kind and its field number are modelled.
- The host's fresh operation ids and the C# side's `Guid.NewGuid()` are parameters. The caller passes an id that is not live.
- `UniTask.Delay`, awaits and CancellationTokenSource linking: the token is modelled only as a cancelled flag per look, and a delay only as a point where the flag can change.
- Events exposed as C# events or observers, `Awake` singletons and `DontDestroyOnLoad` form the Unity lifecycle and are not modelled.
- `Time.timeScale` and `AudioListener.pause` are plain fields. A write to them from outside the coordinator is not modelled.
- PlaybackPause.Coordinator.Release and PlaybackPause.PauseHandle.Dispose require that a live request id maps to the handle's own channels. The handle is constructed only by Acquire, so this always holds in the source; the model states it rather than tracking every issued handle.
- AdStream.PollUntilFinished, AdUseCase.AdUseCasePlayer.RunAdFlow and IapUseCase.IapUseCasePlayer.RunPurchaseFlow require that the given poll answers end, by a finished batch or a cancellation, within the given sequence. A host that never finishes an operation and a token that is never cancelled make the source loop forever, which a finite trace cannot show.
- AdUseCase.AdUseCasePlayer.RunAdFlow, IapUseCase.IapUseCasePlayer.RunPurchaseFlow: an exception thrown by a start or poll RPC other than cancellation is not modelled. In the source it ends the ad flow FailedToShow with the reward seen so far, and the purchase Failed with code `EXCEPTION` and the exception's message. Only a failed start (an empty or missing operation id) and cancellation are modelled.
- AdUseCase.FoldStream folds over the whole given trace of events; the source folds while the stream is produced. The results agree because a terminating event ends both.
- Records.ParseFields, Records.ParseStep, Records.ReadValue, Wire.SkipUnknownField, Buffer.ByteBuffer.ReadStringField, Buffer.ByteBuffer.SkipUnknownField, Buffer.ByteBuffer.ReadFields, Buffer.ByteBuffer.ReadValue and the message decoders built on them read string and skip lengths unsigned: the corrected read of the first finding below. The generated decoders read them signed; that loop is Records.ParseFieldsAsWritten, which yields the same fields on every encoder output (Records.FieldsRoundTripAsWritten) and never returns on a negative length (IapMessages.NegativeSkuLoopsForever). That the two loops agree on every other input whose lengths stay below 2^31 is not stated.
- Records.ParseFieldsAsWritten is bounded by a number of turns, since the loop it models need not end; "still running" means the bound was spent.
- AdMessages.ResponseInfoRoundTrip, IapMessages.PollPurchaseEventsResponseRoundTrip: a repeated field is a sequence, so an absent array and an empty one are the same value. In the source the encoder writes nothing for an empty array and the decoder leaves the field absent, so `[]` comes back as `undefined`; the model does not tell the two apart.
- AdServiceImpl.QueuedLoadEventOnTheWire, AdServiceImpl.QueuedShowEventOnTheWire: the byte count holds only for the payload-free event messages of this model. In the source a `loaded` event carries a ResponseInfo and a `userEarnedReward` event its unit type and amount.
- OpenUrlWeb.Handle, OpenUrl.ReplyParsesBack, OpenUrl.OpenUrlRoundTrip use the corrected last-separator parse of the third finding below. The handler as written is OpenUrlWeb.HandleAsWritten; it answers the same for a url without a separator (OpenUrlWeb.HandlersAgree), and a url holding one is answered under a wrong id, so its request stays pending (OpenUrlWeb.AsWrittenAnswersWrongId).
- The catalog TTL uses integer timestamps in place of `DateTime` and `TimeSpan`.
- Utf8.Literal maps a C# or TypeScript string constant to code units. A character outside the Basic Multilingual Plane, which no constant has, becomes U+FFFD.
- C# `string` values on the Unity side are Dafny strings. Null strings and null list elements are `Option`s only where the source tests for null.
- The numeric callback payloads of the TypeScript `openURL` handler and its logging are not modelled: only the messages sent back to Unity are.
- OpenUrl.OpenUrlService.OpenURL requires the bridge to be set when the url is not empty. The source would throw a null reference exception there, which the model does not represent.
- Exceptions thrown by a service's own `OnSuccess` or `OnFailure` callbacks are not modelled.
- `Debug.Log`, `console.log` and other logging are not modelled.
- The editor simulation inside `OpenURL` answers success at once with "Editor simulation - success". It is modelled; the Unity editor behaviour behind it is not.
- The SDK call of the TypeScript handler is given as `sdkError`, meaning none or the message it threw with; the `Error`-to-message conversion is given in the same way.
- GameServiceImpl.ts, StorageServiceImpl.ts, DeviceServiceImpl.ts, OpenURLServiceImpl.ts, InteractionServiceImpl.ts and ShareServiceImpl.ts are thin wrappers over the host framework or concurrency plumbing and are not part of this model.
- UI testers, scene managers, SafeAreaPanel.cs, React hooks and components, and the registry boilerplate are not part of this model.

## Findings

| source | as written | input that shows it | evidently intended | confidence | as-written member | corrected member |
|---|---|---|---|---|---|---|
| webapp/src/generated/IapService/IapService.ts:171 | string lengths are read with `readVarint32`, a signed int32, so a length of 2^31 or more is negative and `advance` moves the offset backwards | the IapProductListItem bytes 0A FA FF FF FF 0F, an sku of length -6: after the field the offset is back at 0, so the loop reads the same bytes again | lengths read as unsigned (`>>> 0`) and rejected past the limit | high (not executed) | Wire.ReadStringFieldAsWritten, Wire.NegativeLengthRewinds, Records.ParseFieldsAsWritten, IapMessages.NegativeSkuLoopsForever | Wire.ReadStringField, Wire.UnsignedLengthRejected, Records.ParseFields, IapMessages.NegativeSkuRejected |
| unity/AIT-SDK-Project/Assets/AIT-SDK/ExtensionMethods/AdServiceClientExtensions.cs:50-63 | `ShowAdAsStream` never reads its `cancellationToken` parameter. The loop reads the enumerator's token, and `RunAdFlowAsync`'s `await foreach` passes none, so cancelling the flow never stops polling | a caller who cancels before the first poll, and a host whose one finished batch holds a dismissed event: the ad is still polled and the flow ends Completed | the loop stops once the caller's token is cancelled, and the flow ends Cancelled | medium (not executed) | AdUseCase.LoopTokenAsWritten, AdUseCase.AsWrittenIgnoresCancellation, AdUseCase.AsWrittenCompletesAfterCancel | AdUseCase.AdUseCasePlayer.RunAdFlow, AdUseCase.CancelledBeforeFirstPoll, AdUseCase.CancelledInDelayEndsFlow |
| webapp/src/services/ait/openURL.ts:19 | the payload is split at every separator and the request id taken as the second part, so a url holding a separator loses its tail and the request is answered under a wrong id | the url made of "a", a separator and "b", sent with request id "c": the payload parses as url "a" and request id "b" | split at the last separator, the one the C# side added before the fresh id | medium (not executed) | OpenUrlWeb.ParseAsWritten, OpenUrlWeb.ParseAsWrittenSplitsUrl, OpenUrlWeb.HandleAsWritten, OpenUrlWeb.AsWrittenAnswersWrongId | OpenUrlWeb.ParsePayload, OpenUrlWeb.ParsePayloadJoin, OpenUrlWeb.Handle, OpenUrl.OpenUrlRoundTrip |
