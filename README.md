# spark-protocol device core in Dafny

This project models the device-facing protocol engine of the Spark cloud
gateway (`spark-protocol`) and proves properties of the model.  The engine
is a Node.js server that talks to Spark Core devices over TCP.  It covers
these pieces:

- **Handshake.** The server sends a nonce, checks the device's RSA-encrypted
  reply (the nonce plus a 12-byte device id), sends an RSA-encrypted AES
  session key with a signature, and exchanges Hello messages.
- **Secure streams.** After the handshake every message is encrypted with
  AES-128-CBC.  Each direction chains its IV from one message to the next.
- **Framing.** Each encrypted message is framed with a 2-byte big-endian
  length, and the receiver reassembles frames from the TCP stream.
- **CoAP messages.** Each message is a CoAP message (RFC 7252) of a kind
  named in a static catalogue.  Incoming requests are routed by code and
  the first character of their path; replies are routed by token.
- **Session.** Each connection (a `SparkCore`) has:
  - a send counter and a token counter that wrap around;
  - a table from tokens to request names;
  - an exclusive lock that a firmware update takes;
  - a receive counter that disconnects the device when a message is out of order;
  - a single describe request shared by everyone who needs the device's
    function and variable list;
  - the handling of events the device publishes.
- **Firmware update.** The `Flasher` takes the lock and asks the device to
  begin, retrying within a budget.  It sends the image in zero-padded
  256-byte chunks, each with its CRC.  It moves on when the device
  confirms a chunk, resends on an error, seeks back when the device
  reports a chunk missing, and finally releases everything.

There is one Dafny module per source file:

| module | file | source |
|---|---|---|
| `Prelude` | `prelude.dfy` | the JavaScript built-ins the code relies on: `indexOf`, `lastIndexOf`, `toLowerCase` (on ASCII letters), `toString(16)`, `Buffer.toString('hex')`, UTF-8 |
| `Utilities` | `utilities.dfy` | `js/lib/utilities.js` |
| `BufferStreams` | `buffer_stream.dfy` | `js/lib/BufferStream.js` |
| `Chunking` | `chunking_stream.dfy` | `js/lib/ChunkingStream.js` |
| `CryptoStreams` | `crypto_stream.dfy` | `js/lib/CryptoStream.js` and the two AES stream constructors of `js/lib/ICrypto.js` |
| `Messages` | `messages.dfy` | `js/lib/Messages.js` |
| `Session` | `spark_core.dfy` | `js/clients/SparkCore.js` |
| `Handshakes` | `handshake.dfy` | `js/lib/Handshake.js` |
| `Flashers` | `flasher.dfy` | `js/lib/Flasher.js` |

The code's own form is kept:
- Objects whose methods update fields are classes with `modifies` clauses:
  `BufferStream`, `ChunkingStream`, `CryptoStream`, `Registry`,
  `SparkCore`, `Handshake` and `Flasher`.
- The reassembler copies into a fixed-size `array`.
- The loops of `bufferCompare`, `leftHasRightFilter`, `bufferToHexString`,
  `arrayContainsLower`, `init`, `TranslateIntTypes`, `buildArguments`,
  `flushEarlyData` and the reassembler's buffer copy are `while`/`for`
  loops with invariants.
- Each stateful method is specified by a function of its inputs and old
  state, such as `Process`, `ReadAt`, `Wrap`, `Outgoing` or `EncryptStep`.
  Lemmas about those functions state the properties the source promises.

Effects are made explicit:
- `process.nextTick` deferrals are a queue field (`ticks`), and a
  `RunNextTick` method runs the oldest entry.
- `getRandomBytes` calls still waiting for their callback are a queue
  (`randomWaits`), and `OnRandomBytes` runs the oldest callback with the
  bytes. Data can therefore arrive between a step's request and its
  callback.
- Timers are flags or a map of named watches, consumed by `Fire...` methods.
- Socket writes, emitted events and `onError`/`onFail`/`onSuccess` calls
  are sequences that the methods append to.
- Randomness, RSA, HMAC, AES, CRC-32, `JSON.parse`, the CoAP parser and the
  event publisher are parameters or inputs.
  - AES is a `BlockCipher` value: a pair of functions with an `IsInverse`
    predicate that the round-trip lemmas require.

## Model

| member | source | states |
|---|---|---|
| Utilities.BufferCompare | js/lib/utilities.js:58-85 | two absent buffers are equal and exactly one absent buffer is unequal; two buffers are equal iff they have the same length and the same bytes; the loop makes one comparison per index of the left buffer, with no early exit |
| Utilities.ToHexString | js/lib/utilities.js:170-172 | the definition of `toHexString` as written, the subject of the first row of ## Findings; its properties are stated by `ToHexStringShape`, `ToHexStringVersusByteHex` and `ToHexStringOfTen` |
| Utilities.ToHexStringShape | js/lib/utilities.js:170-172 | below 10 the result is '0' followed by the digit; from 10 on it is the bare base-16 digits, so 10..15 give one character |
| Utilities.ToHexStringVersusByteHex | js/lib/utilities.js:170-172 | `toHexString` of a byte equals its two-digit hex rendering exactly when the byte is not one of 10..15 |
| Utilities.ToHexStringOfTen | js/lib/utilities.js:170-172 | 10 renders as "a", while the byte's hex rendering is "0a" |
| Utilities.PaddedHexString | js/lib/utilities.js:170-172 | corrected rendering: always two digits, the byte's hex rendering, and different bytes give different strings |
| Utilities.HexJoin | js/lib/utilities.js:155-168 | the definition of the concatenation `bufferToHexString` builds; its properties are stated by `BufferToHexString`, `HexJoinCollides`, `HexJoinIsBufferHex` and `BufferHexSnoc` |
| Utilities.BufferToHexString | js/lib/utilities.js:155-168 | absent or empty buffer gives null; otherwise the concatenation of every byte's `toHexString`, in order |
| Utilities.HexJoinCollides | js/lib/utilities.js:155-168 | two different buffers, [0x0a, 0xbc] and [0xab, 0x0c], render to the same string "abc" |
| Utilities.HexJoinIsBufferHex | js/lib/utilities.js:155-168 | when no byte is in 10..15 the rendering equals `Buffer.toString('hex')` |
| Utilities.BufferHexSnoc | js/lib/utilities.js:155-168 | the hex of a buffer with one more byte is the old hex followed by that byte's two digits |
| Utilities.ArrayContainsLower | js/lib/utilities.js:185-201 | true iff the array is present and some present, non-empty element equals the string ignoring case |
| Utilities.EndsWith | js/lib/utilities.js:299-306 | as written: false when either string is empty; otherwise true iff `sub` is one longer than `str`, or `sub` is a suffix of `str` that occurs nowhere earlier |
| Utilities.EndsWithCounterexamples | js/lib/utilities.js:299-306 | `endsWith("ab", "abc")` is true and `endsWith("abab", "ab")` is false |
| Utilities.EndsWithSuffix | js/lib/utilities.js:299-306 | corrected: true iff both strings are non-empty and `sub` is a suffix of `str` |
| Utilities.GetFilenameExt | js/lib/utilities.js:307-319 | the definition of `getFilenameExt`; its properties are stated by `FilenameSplit` |
| Utilities.FilenameNoExt | js/lib/utilities.js:320-332 | the definition of `filenameNoExt`; its properties are stated by `FilenameSplit` |
| Utilities.FilenameSplit | js/lib/utilities.js:307-332 | with a '.', name-without-extension followed by extension is the name, and the extension starts at the last '.'; without one both return the name; an absent name gives absent results |
| Utilities.LeftHasRightFilter | js/lib/utilities.js:93-106 | true when `right` is absent; otherwise true iff every key of `right` is loosely equal (`==`) to `left`'s property of that name, a missing property reading as `undefined`; the error path (absent `left`, non-empty `right`) raises |
| Utilities.LooseEquals | js/lib/utilities.js:103 | `undefined` and `null` equal each other and nothing else; strings compare by characters and objects by reference |
| Utilities.LooseEqualsSymmetric | js/lib/utilities.js:103 | swapping the operands of `==` does not change the answer |
| Utilities.LooseEqualsCoerces | js/lib/utilities.js:103 | `1 == "1"` and `true == 1`, but `true != "true"`; a missing property matches `null` |
| Utilities.LooseEqualsNotTransitive | js/lib/utilities.js:103 | `"" == 0` and `0 == "0"` while `"" != "0"` |
| Utilities.StringToNumber | js/lib/utilities.js:103 | the empty string is 0; a string that converts ends in a digit and starts with a digit or a sign |
| BufferStreams.ReadAt | js/lib/BufferStream.js:28-44 | no chunk iff the buffer is released, exhausted or the size is 0, and then the cursor stays; otherwise the chunk is `buf[idx..min(idx+size, len)]`, never longer than `size`, and the cursor moves to its end |
| BufferStreams.BufferStream.constructor | js/lib/BufferStream.js:21 | the stream holds the buffer with the cursor at 0 |
| BufferStreams.BufferStream.Seek | js/lib/BufferStream.js:25-27 | the cursor becomes exactly the given index; nothing else may change |
| BufferStreams.BufferStream.Read | js/lib/BufferStream.js:28-44 | the chunk and new cursor are those of `ReadAt` on the old cursor |
| BufferStreams.BufferStream.End | js/lib/BufferStream.js:45-47 | the buffer is released, so every later read returns null |
| BufferStreams.ReadAllCoversBuffer | js/lib/BufferStream.js:28-44 | repeated reads of a fixed size from a cursor concatenate to the rest of the buffer; every chunk but the last is full, and none is empty or too long |
| BufferStreams.ReadFromStart | js/lib/BufferStream.js:28-44 | repeated reads from index 0 concatenate to the whole buffer |
| Chunking.MsgLengthBytes | js/lib/ChunkingStream.js:34-52 | null for an absent message; otherwise two bytes that read back big-endian as the length modulo 2^16 |
| Chunking.Frame | js/lib/ChunkingStream.js:65-73 | the outgoing bytes are the 2-byte header followed by the message, and the header is the length when it is below 65536 |
| Chunking.Take | js/lib/ChunkingStream.js:92-119 | at a message start the expected length is `chunk[0]*256 + chunk[1]` and copying starts at offset 2; at most `expected - got` bytes are copied; a message left incomplete consumed the whole chunk |
| Chunking.Process | js/lib/ChunkingStream.js:85-145 | the reassembler stays well formed, and once stuck it stays stuck and emits nothing |
| Chunking.ChunkingStream.constructor | js/lib/ChunkingStream.js:56-61 | a new stream is between messages with nothing pushed |
| Chunking.ChunkingStream.Transform | js/lib/ChunkingStream.js:65-84 | outgoing: pushes exactly header followed by message and leaves the reassembler alone; incoming: the new state and pushed messages are those of `Process` |
| Chunking.ChunkingStream.ProcessChunk | js/lib/ChunkingStream.js:85-145 | a null chunk changes nothing; otherwise the buffer, counters and pushed messages follow `Process` on the abstract state |
| Chunking.ChunkingStream.Absorb | js/lib/ChunkingStream.js:92-119 | reads the header at a message start, allocating a buffer of the expected length; copies the chunk's part of the message so that the buffer prefix and index are what `Take` describes, with the index never past the expected length |
| Chunking.ChunkingStream.CopyChunk | js/lib/ChunkingStream.js:104-119 | copies `min(expected - idx, len - start)` bytes; the buffer prefix grows by exactly the copied slice |
| Chunking.ChunkingStream.Emit | js/lib/ChunkingStream.js:127-134 | a completed buffer is pushed, the counters reset, and the remainder is processed as a new message start, as `Process` says |
| Chunking.CopyInto | js/lib/ChunkingStream.js:117 | only `dst[at..at+n)` changes and it receives `src[from..to)` |
| Chunking.TakeExtends | js/lib/ChunkingStream.js:104-125 | appending bytes after a chunk that completes the message takes the same; after one that does not, it continues from where the first chunk stopped |
| Chunking.ProcessSplit | js/lib/ChunkingStream.js:85-145 | processing `a` and then `b` equals processing `a + b`, provided `a` does not leave the reassembler stuck |
| Chunking.ProcessCompletes | js/lib/ChunkingStream.js:122-134 | a chunk that completes a message emits it and processes the remainder from a message start |
| Chunking.ProcessPending | js/lib/ChunkingStream.js:135-139 | a chunk that does not complete the message emits nothing and records the bytes collected |
| Chunking.FeedAppend | js/lib/ChunkingStream.js:85-145 | feeding one more chunk appends that chunk's output |
| Chunking.FrameThen | js/lib/ChunkingStream.js:85-145 | a whole frame followed by more bytes emits its message and carries on from a message start |
| Chunking.StreamPrefixIsLive | js/lib/ChunkingStream.js:92-102 | every prefix of a framed stream that does not end between two header bytes leaves the reassembler live |
| Chunking.StreamDecodes | js/lib/ChunkingStream.js:85-145 | a non-empty framed stream given in one chunk emits exactly its messages, in order |
| Chunking.FeedPrefix | js/lib/ChunkingStream.js:85-145 | feeding the first n chunks of a split stream equals processing their concatenation |
| Chunking.ReassemblyRoundTrip | js/lib/ChunkingStream.js:85-145 | frames of messages under 64 KiB, cut into non-empty chunks at points never between two header bytes, reassemble into exactly those messages, in order |
| Chunking.HeaderSplitWedges | js/lib/ChunkingStream.js:92-102 | the frame of [7] cut after its first byte leaves the reassembler stuck forever, so the message is lost |
| Chunking.FeedWedged | js/lib/ChunkingStream.js:92-119 | a stuck reassembler emits nothing for any later chunks |
| Chunking.ReadFrames | js/lib/ChunkingStream.js:85-145 | corrected reassembler (collects header bytes across reads): stays well formed |
| Chunking.ReadFramesSplit | js/lib/ChunkingStream.js:85-145 | for the corrected reassembler, reading `a` then `b` equals reading `a + b`, with no side condition |
| Chunking.ReadAllFramesIsReadFrames | js/lib/ChunkingStream.js:85-145 | reading chunk by chunk equals reading their concatenation |
| Chunking.ReadFramesStream | js/lib/ChunkingStream.js:25-30 | the corrected reassembler reads a framed stream back as its messages |
| Chunking.ReadAllFramesRoundTrip | js/lib/ChunkingStream.js:25-30 | frames cut at any points, empty chunks included, read back as exactly the messages, in order |
| CryptoStreams.XorBlockCancels | js/lib/CryptoStream.js:60-67 | XOR with the same block twice is the identity, the step CBC decryption undoes |
| CryptoStreams.UnpadPad | js/lib/CryptoStream.js:60-67 | PKCS#7 padding is a whole number of blocks, longer than the message by at most one block, and removing it restores the message |
| CryptoStreams.CbcRoundTrip | js/lib/CryptoStream.js:60-67 | under an inverse block cipher, CBC decryption (section 6.2 of NIST SP 800-38A) of a CBC encryption with the same key and IV returns the plaintext |
| CryptoStreams.DecryptEncrypt | js/lib/CryptoStream.js:60-67 | one message through a fresh AES-128-CBC cipher with padding decrypts back to itself |
| CryptoStreams.EncryptStep | js/lib/CryptoStream.js:82-99 | the ciphertext of one chunk, and as next IV its first 16 bytes |
| CryptoStreams.DecryptStep | js/lib/CryptoStream.js:34-59 | one chunk's plaintext; on success the next IV is the chunk's first 16 bytes; on failure the IV stays |
| CryptoStreams.ChainRoundTrip | js/lib/CryptoStream.js:43-49 | a decrypter with the same key and IV fed the encrypter's outputs in order recovers every plaintext and ends with the encrypter's IV, which chains the IVs before every chunk |
| CryptoStreams.SessionCipherKey | js/lib/ICrypto.js:239-252 | the AES key is bytes 0..15 of the session key |
| CryptoStreams.SessionIv | js/lib/ICrypto.js:239-252 | the initial IV is bytes 16..31 of the session key |
| CryptoStreams.CryptoStream.constructor | js/lib/CryptoStream.js:27-32 | stores the key, the IV and the direction, and nothing has been pushed |
| CryptoStreams.CryptoStream.Transform | js/lib/CryptoStream.js:34-59 | only the IV, the output and the stall flag change; a stalled stream changes nothing; encrypting pushes the ciphertext and takes its first block as IV; decrypting pushes the plaintext and takes the consumed chunk's first block as IV; a failed decryption pushes nothing and stalls the stream |
| CryptoStreams.CryptoStream.OnCipherEnd | js/lib/CryptoStream.js:82-99 | pushes the output; when encrypting the IV becomes its first 16 bytes, when decrypting the IV is untouched |
| CryptoStreams.CreateAesCipherStream | js/lib/ICrypto.js:239-252 | a fresh encrypting stream keyed with session-key bytes 0..15 and IV 16..31 |
| CryptoStreams.CreateAesDecipherStream | js/lib/ICrypto.js:261-274 | a fresh decrypting stream with the same key and IV |
| CryptoStreams.SessionStreamsAgree | js/lib/ICrypto.js:239-274 | the two streams built from one session key stay in step: the decrypter recovers every message the encrypter produced |
| Messages.UriPath | js/lib/Messages.js:134-137 | the path of a message always starts with '/' |
| Messages.Find | js/lib/Messages.js:49-91 | finds an entry of the given name in the list, or reports that none has it |
| Messages.SpecOf | js/lib/Messages.js:49-91 | `Spec[name]`: an entry of the catalogue with that name, or none when no entry has it |
| Messages.GetResponseType | js/lib/Messages.js:139-142 | the named entry's `Response`; null exactly for unknown names and for entries without one |
| Messages.StatusIsOkay | js/lib/Messages.js:144-146 | the definition of `statusIsOkay`: a code below 4.00; its use is stated by `StatusOfCatalogueKinds` and `Flashers.Flasher.OnChunkResponse` |
| Messages.StatusOfCatalogueKinds | js/lib/Messages.js:144-146 | of the catalogue's kinds exactly those with code 4.00 (the slowdown, the failed subscription and the error replies) are not okay |
| Messages.Render | js/lib/Messages.js:218 | the definition of hogan's `render` for `{{name}}` and `{{{name}}}` tags; its properties are stated by `RenderKeepsFirst`, `RenderPlain`, `RenderPlainPrefix`, `RenderVariableTag`, `RenderRawTag` and `RenderVariableUri` |
| Messages.RenderKeepsFirst | js/lib/Messages.js:165-178 | rendering a template keeps its first character when that is not a tag |
| Messages.RenderPlain | js/lib/Messages.js:165-178 | a uri without '{' renders to itself |
| Messages.EscapeChar | js/lib/Messages.js:218 | a character other than `&`, `<`, `>`, `"` and `'` is kept; the escape of any character holds none of `<`, `>`, `"` and `'` |
| Messages.HtmlEscape | js/lib/Messages.js:218 | the escaped value holds none of `<`, `>`, `"` and `'`; a value without special characters is unchanged |
| Messages.EscapeRoundTrip | js/lib/Messages.js:218 | decoding the entities gives back the value, so distinct values render distinctly |
| Messages.RenderPlainPrefix | js/lib/Messages.js:218 | text without '{' before a template is copied and the rest is rendered |
| Messages.RenderVariableTag | js/lib/Messages.js:218 | a `{{name}}` tag becomes the field's value escaped, or nothing when the field is missing |
| Messages.RenderRawTag | js/lib/Messages.js:218 | a `{{{name}}}` tag becomes the field's value as it is, or nothing when the field is missing |
| Messages.RenderVariableUri | js/lib/Messages.js:218 | the VariableRequest template renders as "v/" and the escaped name |
| Messages.VariableRequestSpec | js/lib/Messages.js:49-91 | the VariableRequest entry is a confirmable GET with uri "v/{{name}}" and response VariableValue |
| Messages.WrapVariableRequest | js/lib/Messages.js:198-247 | the message `getVariable` sends (js/clients/SparkCore.js:617) is a confirmable GET whose uri is "v/" and the variable's name escaped |
| Messages.RouteKey | js/lib/Messages.js:121-131 | the definition of `getRouteKey`; its properties are stated by `RouteKeyShape`, `SameKeySameSignature`, `SignatureFreeKeyFree` and `SignaturesGiveKeys` |
| Messages.RouteKeyShape | js/lib/Messages.js:121-131 | for a path starting with '/', the route key is the decimal code, the '/' and the next character |
| Messages.RouteUri | js/lib/Messages.js:165-178 | the uri registered keeps the entry's first character |
| Messages.RequestTypeIn | js/lib/Messages.js:134-137 | a request type exists iff the message's route key is registered, and it is the registered name |
| Messages.Registry.constructor | js/lib/Messages.js:156 | the registry keeps the catalogue it is given and starts not started |
| Messages.Registry.Init | js/lib/Messages.js:157-185 | registers every entry with a uri under `getRouteKey(code, "/" + uri rendered with no fields)`; for the catalogue this is the route table; a second call changes nothing |
| Messages.Registry.RegisterEach | js/lib/Messages.js:164-181 | the loop registers the entries in order, as `RegisterAll` describes |
| Messages.Registry.GetRequestType | js/lib/Messages.js:134-137 | the routed name for the message's code and path (`RequestTypeIn`, whose names against the initialised table are request kinds by `RoutedTypesAreRequests`) |
| Messages.RoutedTypesAreRequests | js/lib/Messages.js:134-137 | every name the route table answers with is a catalogue entry that has a uri, never a reply or ping |
| Messages.RouteTableNamesRouted | js/lib/Messages.js:157-185 | every name `init` puts into the route table is a catalogue entry with a uri |
| Messages.CatalogueRoutedNames | js/lib/Messages.js:49-91 | every catalogue entry with a uri is the entry `Spec[name]` finds under its name |
| Messages.RegisterAllRouted | js/lib/Messages.js:164-181 | registering only request entries into a table of request names keeps every name a request |
| Messages.SameKeySameSignature | js/lib/Messages.js:121-131 | two entries with the same route key have the same code and first uri character |
| Messages.SignatureFreeKeyFree | js/lib/Messages.js:121-131 | an entry whose code and first character no other entry shares has a key no other entry has |
| Messages.SignaturesGiveKeys | js/lib/Messages.js:121-131 | distinct code and first character pairs give distinct route keys |
| Messages.CatalogueSignaturesDistinct | js/lib/Messages.js:49-91 | no two catalogue entries with a uri share code and first uri character |
| Messages.CatalogueKeysDistinct | js/lib/Messages.js:49-91 | the registered route keys are pairwise distinct |
| Messages.RegisterAllKeeps | js/lib/Messages.js:164-181 | registering entries that do not use a key leaves that key's name |
| Messages.RegisterAllFinds | js/lib/Messages.js:164-181 | with distinct keys, after registration every entry with a uri is found under its own key |
| Messages.RequestTypeOfEntry | js/lib/Messages.js:134-137 | a request with an entry's code and a path starting with the entry's first uri character is routed to that entry's name |
| Messages.RoutedToEntry | js/lib/Messages.js:157-185 | the same for any list with distinct signatures |
| Messages.RepliesAreNotRouted | js/lib/Messages.js:49-91 | the reply and ping entries have no uri, so nothing routes to them |
| Messages.GetNameFromTypeInt | js/lib/Messages.js:300-317 | a name exactly for 1, 2, 4, 5 and 9 (bool, int32, string, null, double); every other value gives null |
| Messages.TranslateIntTypes | js/lib/Messages.js:278-298 | a falsy table comes back as it is; otherwise no key is added or dropped, numeric entries with a known tag become its name, and every other entry stays |
| Messages.TranslateTwiceIsOnce | js/lib/Messages.js:278-298 | translation is idempotent |
| Messages.BigEndian32 | js/lib/Messages.js:377-412 | four bytes |
| Messages.Unsigned32 | js/lib/Messages.js:330-375 | a value in [0, 2^32) |
| Messages.Signed32 | js/lib/Messages.js:330-375 | a value in [-2^31, 2^31) |
| Messages.Unsigned16 | js/lib/Messages.js:330-375 | a value in [0, 2^16) |
| Messages.ToBinary | js/lib/Messages.js:377-412 | uint32, crc and int32 encodings are four bytes |
| Messages.FromBinary | js/lib/Messages.js:330-375 | bool tests the first byte against 0; uint32 and crc read four bytes unsigned big-endian, uint16 two, int32 and number four signed; each throws on a buffer too short; buffer returns the bytes; "string" and every other name decode an ASCII buffer as text, and a decoded string re-encodes to the buffer |
| Messages.AsciiDecode | js/lib/Messages.js:368-371 | the decoded text of an ASCII buffer encodes back to that buffer |
| Messages.AsciiStringRoundTrip | js/lib/Messages.js:330-412 | an ASCII string written by `ToBinary` reads back the same |
| Messages.Unsigned32OfBigEndian | js/lib/Messages.js:330-412 | reading back the four bytes written gives the value modulo 2^32 |
| Messages.UnsignedRoundTrip | js/lib/Messages.js:330-412 | uint32 and crc values in range round-trip through `ToBinary`/`FromBinary` |
| Messages.SignedRoundTrip | js/lib/Messages.js:330-412 | int32 values in range round-trip |
| Messages.BuildArguments | js/lib/Messages.js:414-440 | an absent descriptor list throws and gives null; otherwise the loop's result is `ArgumentBytes` |
| Messages.ArgumentBytes | js/lib/Messages.js:414-440 | the definition of what `buildArguments`' loop builds; its properties are stated by `BuildArguments`, `ArgumentBytesStops`, `ArgumentBytesJoin` and `OnlySeparators` |
| Messages.ArgumentBytesStops | js/lib/Messages.js:414-440 | the first field that fails to encode decides the outcome |
| Messages.ArgumentBytesJoin | js/lib/Messages.js:414-440 | when every field encodes, the result is the encodings joined by "&", one separator before every descriptor but the first, missing descriptors included |
| Messages.OnlySeparators | js/lib/Messages.js:414-440 | n missing descriptors build n-1 ampersands |
| Messages.RaiseYourHandUri | js/lib/Messages.js:109-118 | path "s" and a one-byte query |
| Messages.TokenBytes | js/lib/Messages.js:226-233 | the definition of the token `wrap` sets; its properties are stated by `Wrap` and `WrapNumericToken` |
| Messages.Wrap | js/lib/Messages.js:198-247 | an unknown name is an error "Unknown Message Type" in place of a message; otherwise the message has the entry's code and type, the given id, the token bytes (a number as one byte modulo 256, undefined as [0], null as none) and the data as payload |
| Messages.WrapNumericToken | js/lib/Messages.js:226-233 | a numeric token below 256 is carried as exactly that one byte |
| Session.Step | js/clients/SparkCore.js:543-566 | the definition of one wrapping increment of `getIncrSendCounter` and `getNextToken`; its properties are stated by `StepsCycle`, `StepsDistinct`, `SendCounterCycles` and `TokensNotReissued` |
| Session.StepsCycle | js/clients/SparkCore.js:543-566 | k wrapping increments of an in-range counter give `(c + k) mod limit` |
| Session.StepsDistinct | js/clients/SparkCore.js:543-566 | within fewer than `limit` increments a counter never repeats |
| Session.SendCounterCycles | js/clients/SparkCore.js:543-551 | the send counter stays below COUNTER_MAX = 65536 and counts modulo it |
| Session.TokensNotReissued | js/clients/SparkCore.js:557-566 | a token is not handed out again before 255 others (TOKEN_MAX) |
| Session.NextRecvCounter | js/clients/SparkCore.js:375-379 | the receive counter goes up by one and past 65535 wraps to 0 |
| Session.TokenKey | js/clients/SparkCore.js:574-577 | the definition of the corrected token-table key of `useToken` (see ## Findings); its properties are stated by `TokenKeyIsTokenString`, `TokenKeyInjective` and `NumberTokenString` |
| Session.TokenString | js/clients/SparkCore.js:359 | the definition of `getTokenString`; its properties are stated by `TokenKeyIsTokenString` and `NumberTokenString` |
| Session.TokenKeyIsTokenString | js/clients/SparkCore.js:557-589 | the key a token is recorded under equals the token string of the message `wrap` builds with it, and different tokens below 256 get different keys |
| Session.TokenKeyInjective | js/clients/SparkCore.js:557-589 | different tokens below 256 have different keys |
| Session.NumberTokenString | js/clients/SparkCore.js:557-589 | a message carrying a numeric token has that token's key as token string |
| Session.AsWrittenKeyMisses | js/clients/SparkCore.js:557-589 | with `toHexString` as written, tokens 10 to 15 are recorded under a key that never equals the reply's token string |
| Session.Cleared | js/clients/SparkCore.js:583-589 | clearing removes the key when it holds a name, never adds or changes other entries |
| Session.Descriptors | js/clients/SparkCore.js:906-942 | the argument list of the function named in lower case; otherwise one string argument when the old function list names it; otherwise none |
| Session.EventOf | js/clients/SparkCore.js:995-1022 | the event name is the uri path without its first 3 characters; a non-positive ttl becomes 60; an empty payload gives null data |
| Session.IsSparkName | js/clients/SparkCore.js:1025-1026 | the definition of the reserved-name test of `onCoreSentEvent`; its meaning is stated by `SparkNames` |
| Session.SparkNames | js/clients/SparkCore.js:1024-1026 | a name is reserved iff it starts with "spark" in any case |
| Session.FlashCoreGuard | js/clients/SparkCore.js:697-726 | an absent or empty image is refused as too small; the size bound is undefined, so no image is refused as too big; every other image starts a flasher |
| Session.SparkCore.constructor | js/clients/SparkCore.js:63-70 | counters at 0, no tokens, owner, describe request or state, socket open and no secure streams |
| Session.SparkCore.GetIncrSendCounter | js/clients/SparkCore.js:543-551 | increments the counter, mapping COUNTER_MAX to 0, and returns the new value, which is below COUNTER_MAX |
| Session.SparkCore.GetNextToken | js/clients/SparkCore.js:557-566 | increments the token, wrapping at TOKEN_MAX to 0, and clears any mapping for the reused token |
| Session.SparkCore.UseToken | js/clients/SparkCore.js:574-577 | records the request name under the token's key, the corrected two-digit key (see ## Findings) |
| Session.SparkCore.ClearToken | js/clients/SparkCore.js:583-589 | removes the mapping under the token's corrected two-digit key (see ## Findings) when it holds a name |
| Session.SparkCore.GetResponseType | js/clients/SparkCore.js:591-599 | the catalogue response of the request recorded under the token string, or null when none is recorded; `UseToken` records under the corrected key, so a reply's token string finds it (see ## Findings) |
| Session.SparkCore.CheckOwner | js/clients/SparkCore.js:729-747 | true iff there is no owner or the requester is the owner; a refusal queues the lock error for `onError` when one is given |
| Session.SparkCore.TakeOwnership | js/clients/SparkCore.js:749-762 | succeeds iff there was no owner, and then the caller owns; a failure changes nothing |
| Session.SparkCore.ReleaseOwnership | js/clients/SparkCore.js:763-771 | clears the owner only when the caller is the owner |
| Session.SparkCore.Outgoing | js/clients/SparkCore.js:429-451 | a message is written iff the secure stream exists and the name is known, and it is the wrapped message |
| Session.SparkCore.Reply | js/clients/SparkCore.js:405-426 | a reply by the session itself is written only when there is no owner |
| Session.SparkCore.SendMessage | js/clients/SparkCore.js:429-451 | refused by the lock: no counter, token, table or stream changes; otherwise the send counter and token step once, the token is recorded for the name, the wrapped message is written when the stream exists, and the token is returned; the recorded name gives back the catalogue response |
| Session.SparkCore.WriteWrapped | js/clients/SparkCore.js:440-446 | appends the wrapped message when there is a secure stream and the name is known |
| Session.SparkCore.SendReply | js/clients/SparkCore.js:405-426 | refused by the lock: nothing changes; otherwise a negative id takes the next send counter, and the wrapped reply with that id is written |
| Session.SparkCore.MessageTypeOf | js/clients/SparkCore.js:352-361 | a request code with a routed type gets that type; anything else gets the response type of its token |
| Session.SparkCore.RequestTypesAreRouted | js/clients/SparkCore.js:352-361 | against the route table `init` builds, the type a request code is routed to is always a request kind of the catalogue, never a reply or ping |
| Session.SparkCore.RouteMessage | js/clients/SparkCore.js:342-403 | nothing decoded: nothing changes; an acknowledgement is dispatched (as PingAck without a type) without touching the receive counter; every other message follows `Counted`; the send counter never changes |
| Session.SparkCore.RouteCounted | js/clients/SparkCore.js:374-402 | the receive counter advances with wrap; an empty confirmable message is answered by PingAck with its own id; a mismatched id disconnects ("Got an Ignore" for type Ignored, else "Bad Counter"); a matching id dispatches the message |
| Session.SparkCore.EnsureWeHaveIntrospectionData | js/clients/SparkCore.js:949-962 | ready iff the state is cached; otherwise Describe is sent only when no request is pending, so later callers share one request |
| Session.SparkCore.OnDescribeReturn | js/clients/SparkCore.js:969-982 | a payload that does not parse changes nothing; otherwise the state is loaded with its variable types translated and a pending request is resolved |
| Session.SparkCore.TransformArguments | js/clients/SparkCore.js:906-942 | null without arguments, without state or for an unknown function; otherwise what `buildArguments` gives for the function's descriptors |
| Session.SparkCore.OnCoreSentEvent | js/clients/SparkCore.js:995-1066 | reserved names get EventAck and are never published; without a publisher nothing happens; otherwise the event is published and gets EventAck, or EventSlowdown when refused |
| Session.SparkCore.OnCoreSubscribe | js/clients/SparkCore.js:1084-1113 | an empty event name gets SubscribeFail, any other SubscribeAck |
| Session.SparkCore.Disconnect | js/clients/SparkCore.js:1277-1341 | only the first call closes the socket and both secure streams and emits `disconnect`; later calls only count |
| Handshakes.SessionKeyMessage | js/lib/Handshake.js:410-424 | exactly the RSA ciphertext of the session key followed by the signature of its HMAC |
| Handshakes.CheckCoreId | js/lib/Handshake.js:327-365 | accepted iff a non-empty plaintext of 40+12 bytes starts with the nonce sent; the id is the hex of bytes 40..51 (24 characters); the failure messages of the source otherwise |
| Handshakes.EarlyReplyRejected | js/lib/Handshake.js:348-357 | a reply of the right size read while no nonce is set (before the nonce callback) fails with "nonces didn't match" |
| Handshakes.CoreIdDeterminesIdBytes | js/lib/Handshake.js:348-365 | two accepted replies with the same device id are the same bytes |
| Handshakes.RouteTicks | js/lib/Handshake.js:147-150 | one deferred route call per item, in order |
| Handshakes.RouteTicksSnoc | js/lib/Handshake.js:223-230 | routing one more item appends its call |
| Handshakes.Queued | js/lib/Handshake.js:213-222 | null data is ignored; other data is appended to the queue, which is created when absent |
| Handshakes.Handshake.constructor | js/lib/Handshake.js:58-116 | stage SEND_NONCE, the first step queued, the global timer armed, nothing else set |
| Handshakes.Handshake.HandshakeFail | js/lib/Handshake.js:129-145 | calls `onFail` with the message and clears the global timer |
| Handshakes.Handshake.NextStep | js/lib/Handshake.js:152-160 | defers one `_nextStep` call with the data |
| Handshakes.Handshake.RouteToClient | js/lib/Handshake.js:147-150 | defers one `routeMessage` call with the data |
| Handshakes.Handshake.QueueEarlyData | js/lib/Handshake.js:213-222 | the queue becomes `Queued` of the old queue and the data |
| Handshakes.Handshake.FlushEarlyData | js/lib/Handshake.js:223-230 | routes every queued item in arrival order, then empties the queue |
| Handshakes.Handshake.SendNonce | js/lib/Handshake.js:273-279 | stage up by one at once; a `getRandomBytes` request for the nonce is left pending |
| Handshakes.Handshake.NonceReady | js/lib/Handshake.js:279-290 | the callback: the bytes become the nonce, are written in the clear, and the next step is queued |
| Handshakes.Handshake.ReadCoreId | js/lib/Handshake.js:305-366 | without data, arms the read timer and changes nothing else; an accepted reply sets the device id and advances one stage; a rejected one fails with its reason and keeps the stage |
| Handshakes.Handshake.GetCoreKey | js/lib/Handshake.js:371-390 | with a key, stores it and advances one stage; without one, fails with the exception handler's message |
| Handshakes.Handshake.SendSessionKey | js/lib/Handshake.js:402-406 | only leaves a `getRandomBytes` request pending; the stage stays, so data arriving before the callback runs the step again |
| Handshakes.Handshake.SessionKeyReady | js/lib/Handshake.js:406-465 | the callback: stores the session key, writes the session-key message, creates both secure streams and advances one stage, once per pending request |
| Handshakes.Handshake.GetHello | js/lib/Handshake.js:471-519 | without data, arms the read timer; an unparsable hello fails; otherwise the client's receive counter becomes the hello's id, a non-empty payload gives product id then firmware version as 16-bit values, and the stage advances |
| Handshakes.Handshake.SendHello | js/lib/Handshake.js:524-533 | the client gets the outgoing stream and the random counter and sends Hello with the next counter; the stage advances |
| Handshakes.Handshake.Done | js/lib/Handshake.js:195-205 | hands the session key to the client, calls `onSuccess`, clears the global timer, flushes early data and moves past DONE |
| Handshakes.Handshake.NextStepNow | js/lib/Handshake.js:162-210 | runs the step of the current stage; the stage never goes back and moves forward by at most one, exactly when the step completes; SEND_NONCE advances at once and SEND_SESSIONKEY not at all, and each leaves one random-bytes request pending; past DONE the data goes to the client |
| Handshakes.Handshake.OnSecureData | js/lib/Handshake.js:449-460 | decrypted data goes to the client past DONE, is queued from SEND_HELLO to DONE, and feeds the next step before that |
| Handshakes.Handshake.OnSocketData | js/lib/Handshake.js:233-266 | clear data feeds the next step while there is no incoming secure stream; null data, and data once the stream exists, queue nothing |
| Handshakes.Handshake.OnRandomBytes | js/lib/ICrypto.js:57-58 | the oldest pending random-bytes callback runs with the bytes (nonce or session key); with none pending nothing changes |
| Handshakes.Handshake.RunNextTick | js/lib/Handshake.js:147-160 | runs the oldest deferred call: a route delivers its data to the client; a step runs `_nextStep`; the stage never goes back |
| Handshakes.Handshake.FireGlobalTimer | js/lib/Handshake.js:107-116 | an armed global timer fails the handshake with the 120-second message |
| Handshakes.Handshake.FireSocketTimer | js/lib/Handshake.js:310-321 | an armed read timer fails the handshake with the message of the step that armed it |
| Flashers.Pad | js/lib/Flasher.js:295-300 | exactly CHUNK_SIZE bytes: the chunk followed by zeros, and a full chunk unchanged |
| Flashers.Padded | js/lib/Flasher.js:292-300 | no chunk stays no chunk; a chunk is padded |
| Flashers.PadAll | js/lib/Flasher.js:292-300 | every chunk of a list padded |
| Flashers.PaddedChunksCover | js/lib/Flasher.js:287-304 | padded reads from a cursor are full-size chunks, just enough to cover the rest of the image, whose concatenation starts with it |
| Flashers.TransferCoversImage | js/lib/Flasher.js:265-304 | an uninterrupted transfer sends full-size chunks that together start with the whole image, with less than one chunk of padding |
| Flashers.ReadAllIndexed | js/lib/Flasher.js:356-375 | the k-th chunk read from a cursor is what one read at `cursor + k*CHUNK_SIZE` returns |
| Flashers.MissedChunkIsResent | js/lib/Flasher.js:356-375 | seeking to `k*CHUNK_SIZE` and reading yields the k-th chunk of the transfer again |
| Flashers.ChunkRequest | js/lib/Flasher.js:306-321 | a Chunk message with path "c", the 4-byte CRC as query and the chunk as data |
| Flashers.ChunkCrcRoundTrip | js/lib/Flasher.js:306-321 | the CRC carried in the query reads back as the CRC modulo 2^32 |
| Flashers.Flasher.constructor | js/lib/Flasher.js:71-76 | stage PREPARE, no stream, chunk or watch, nothing sent |
| Flashers.Flasher.NextStep | js/lib/Flasher.js:93-96 | defers one `_nextStep` |
| Flashers.Flasher.Send | js/lib/Flasher.js:317-320 | each `client.sendMessage(…, this)` of the flasher (UpdateBegin, Chunk, UpdateDone): the request is recorded in order and handed to `SparkCore.SendMessage` with the flasher as requester |
| Flashers.Flasher.FailWatch | js/lib/Flasher.js:384-400 | zero seconds clears the named watch; otherwise it is (re)armed with the callback |
| Flashers.Flasher.ClearWatch | js/lib/Flasher.js:402-404 | the named watch is gone |
| Flashers.Flasher.Cleanup | js/lib/Flasher.js:188-218 | releases the lock if the flasher holds it, ends and drops the stream, drops the chunk handler, clears both watches |
| Flashers.Flasher.Failed | js/lib/Flasher.js:124-134 | cleans up, then reports the message to `onError` unless teardown replaced it |
| Flashers.Flasher.ClaimConnection | js/lib/Flasher.js:84-91 | succeeds iff the session had no owner, and then the flasher owns it; otherwise `failed` runs |
| Flashers.Flasher.StartFlashBuffer | js/lib/Flasher.js:71-82 | with the lock, stage PREPARE starts on the next tick; without it, `failed` runs and nothing starts |
| Flashers.Flasher.Prepare | js/lib/Flasher.js:137-173 | an empty image fails; otherwise a stream is opened at 0 and the stage advances; either way the chunk is cleared and the ChunkMissed listener attached |
| Flashers.Flasher.TryBeginUpdate | js/lib/Flasher.js:241-259 | while tries remain, arms the UpdateReady watch (6 s, or 90 s on the last) and sends UpdateBegin; after four sends it fails |
| Flashers.Flasher.BeginUpdate | js/lib/Flasher.js:221-263 | attaches the one-shot UpdateReady listener and makes the first try with a budget of three |
| Flashers.Flasher.UpdateReadyNow | js/lib/Flasher.js:227-238 | clears the watch, advances to the next stage and schedules `onStarted` |
| Flashers.Flasher.ReadNextChunk | js/lib/Flasher.js:287-304 | the chunk is the padded next read of at most CHUNK_SIZE bytes (none without a stream), with its CRC kept beside it |
| Flashers.Flasher.OnAllChunksDone | js/lib/Flasher.js:340-353 | drops the chunk handler, clears the transfer watch, sends UpdateDone and moves to TEARDOWN |
| Flashers.Flasher.SendChunk | js/lib/Flasher.js:306-325 | sends the kept chunk with its CRC, or finishes when there is none |
| Flashers.Flasher.SendFile | js/lib/Flasher.js:265-285 | attaches the handler, arms the 600-second transfer watch, reads and sends the first chunk |
| Flashers.Flasher.OnChunkResponse | js/lib/Flasher.js:326-338 | an okay status reads the next chunk, any other keeps the same chunk; the kept chunk is sent, or the transfer finishes when none is left |
| Flashers.Flasher.OnChunkMissed | js/lib/Flasher.js:356-375 | acknowledges with ChunkMissedAck reusing the id, seeks to index times CHUNK_SIZE, rereads and resends that chunk; a payload too short for an index sends nothing, as the read throws before the acknowledgement |
| Flashers.Flasher.Resend | js/lib/Flasher.js:369-374 | the chunk at index k is read and sent again, or the transfer finishes when there is none |
| Flashers.Flasher.Teardown | js/lib/Flasher.js:174-186 | cleans up, makes later errors only logged, and schedules `onSuccess` |
| Flashers.Flasher.NextStepNow | js/lib/Flasher.js:98-122 | runs the step of the current stage; DONE and unknown stages do nothing |
| Flashers.Flasher.OnUpdateReadyEvent | js/lib/Flasher.js:227-238 | the one-shot listener detaches itself and defers its callback |
| Flashers.Flasher.OnChunkReceivedEvent | js/lib/Flasher.js:277-278 | the attached listener defers `onChunkResponse` with the response code |
| Flashers.Flasher.OnChunkMissedEvent | js/lib/Flasher.js:172 | the ChunkMissed listener runs `onChunkMissed` |
| Flashers.Flasher.FireWatch | js/lib/Flasher.js:384-400 | an expired watch calls its callback: another UpdateBegin try, or `failed` with "failed waiting on " and its name |
| Flashers.Flasher.RunNextTick | js/lib/Flasher.js:93-96 | runs the oldest deferred call |

## Left out

- I/O is not modelled: sockets, `fs`, the logger and timestamps (`moment`, `_lastMessageTime`). Writes and emitted events are recorded as sequences.
- The real enciphering is not modelled: RSA, HMAC-SHA1, AES-128 (inside CBC), CRC-32 and random bytes are parameters or inputs. A missing or unusable AES key is not modelled.
- The CoAP wire format (`h5.coap` `toBuffer`/`fromBuffer`) is not modelled. `wrap` returns the message record instead of its bytes, and `unwrap` and `parseMessage` are given as the decoded message (or none).
- `parseArguments`, `TryFromBinary` and the float and double cases of `ToBinary`/`FromBinary` are left out. The floating-point cases return `Unmodelled`.
- `Messages.FromBinary`: `buf.toString()` (the "string" and default cases) is modelled for ASCII buffers only. A buffer with a byte of 0x80 or above would be decoded as UTF-8, with U+FFFD for malformed sequences; the model returns `Unmodelled` for it.
- `Messages.Render`: only the plain `{{name}}` and `{{{name}}}` tags of Hogan are modelled, with field values that are strings. Whitespace inside a tag, `{{&name}}`, sections, partials, comments, delimiter changes and the string conversion of non-string values are not. hogan.js is not part of this model; its escaping is written out as `HtmlEscape`.
- `Utilities.EndsWith`: string lengths and `indexOf` positions are counted in code points, while JavaScript counts UTF-16 code units. For a string with characters outside the Basic Multilingual Plane the "one longer" case therefore differs: `endsWith("😀", "abc")` is true in the source (`indexOf` gives -1, and 2 − 3 = -1) and false in the model. A lone surrogate cannot be written as a Dafny string at all. The other string operations of the model split at ASCII characters and are unaffected.
- `Prelude.ToLower`: only the ASCII letters 'A' to 'Z' are lower-cased. JavaScript's `toLowerCase` maps every Unicode capital (the Kelvin sign U+212A becomes 'k', 'İ' becomes two characters), so it can change letters the model leaves alone and can change the length.
- `Utilities.ArrayContainsLower`: compares with the ASCII-only `Prelude.ToLower`, so two strings that differ only in non-ASCII case are not found equal as they are in the source.
- `Session.Descriptors`: the function name is lower-cased with the ASCII-only `Prelude.ToLower`, so a name with non-ASCII capitals is looked up under a different key than the source uses.
- `Session.SparkNames`: the "spark" prefix test uses the ASCII-only `Prelude.ToLower`. In the source "SPAR" followed by the Kelvin sign lower-cases to "spark" and is reserved; the model publishes it. `Session.SparkCore.OnCoreSentEvent` inherits this.
- `Utilities.LeftHasRightFilter`: values are integers, strings, booleans, `null`, `undefined` and objects by reference. Floating-point numbers and NaN, objects compared with primitives (`ToPrimitive`), and strings converted to numbers other than an optionally signed run of decimal digits (whitespace, hex, decimals, exponents, "Infinity") are not modelled: such a string is treated as NaN. Inherited properties are absent, as `hasOwnProperty` would skip them. The result is the truth of the 1 or 0 that `&=` yields.
- `ToBinary`: a non-falsy value of a type other than a string or buffer (JavaScript coerces it to a string) returns `Unmodelled`.
- `startFlashFile` and `promiseStreamFile` are left out: they read a file from disk, and only `startFlashBuffer` is modelled.
- `Handshakes.Handshake.OnRandomBytes`: pending `getRandomBytes` callbacks run in the order they were requested. Only the session-key requests can be pending together, because the nonce must be set before the stage passes READ_COREID. A second session-key callback creates a second pair of AES streams and a second `readable` handler in the source. The model keeps one pair of flags, so it does not capture data being handled by both.
- `get_core_key`, the key-file lookup, is not part of this model. When no key file exists it returns without calling back, so the handshake waits for the global timer. `Handshakes.Handshake.GetCoreKey` covers the callback once it is called.
- The `onError` callback that `wrap` calls for an unknown name is not recorded: `Messages.Wrap` returns the error instead. `SparkCore.sendMessage` then writes null to the secure stream; the model writes nothing.
- `Session.SparkCore.OnCoreSentEvent`: the event data is kept as bytes, not converted to a string. `userid` and `published_at` are left out.
- `onCoreSubscribe` is modelled only as far as its reply; the filter it would set up is commented out in the source.
- The publisher is an input, `None` when absent, else whether `publish` accepted. In js/lib/EventPublisher.js `publish` returns nothing, so in the deployed code every forwarded event gets EventSlowdown.
- `Session.FlashCoreGuard`: `settings.MaxCoreBinaryBytes` is not defined in js/settings.js, so the "too big" guard never fires. The model keeps the bound undefined.
- `Flashers.Flasher.Cleanup`: `removeListener("ChunkReceived", ...)` never matches the wrapper `listenFor` attached to `msg_chunkreceived`. The model keeps the ChunkReceived listener attached, and the flasher never removes it.
- The flasher never removes the ChunkMissed listener that `prepare` attaches either, and repeated `prepare` calls would attach more. The model has one flag.
- `Session.SparkCore.Disconnect`: after emitting `disconnect`, the source calls `removeAllListeners()` (js/clients/SparkCore.js:1334-1340), so a flasher on a dropped session gets no more UpdateReady, ChunkReceived or ChunkMissed events. The model keeps the flasher's listener flags, which live in the flasher and not in the session, so their events can still be delivered after a disconnect.
- A late UpdateReady event after a failure is delivered as the source delivers it. So is a watch timer that `failWatch` overwrites without clearing the old one: the model keeps only the newest timer per name.
- `Session.SparkCore.RouteCounted`: the "Got an Ignore" branch is kept, but no catalogue entry is named or responds "Ignored", so it cannot run.
- `Session.SparkCore.OnDescribeReturn`: `loadFnState` returns true or throws, so the rejecting branch of `onDescribeReturn` cannot run. `JSON.parse` is an input (`Description`).
- `hasFnState`, `HasSparkVariable`, `HasSparkFunction`, `listenFor`, `raiseYourHand` and the API-message dispatch of SparkCore.js are not part of this model. Their effect on the modelled flow is the `msg_<type>` dispatch and the listeners the Flasher attaches.
- Chunking, crypto and the handshake are modelled as separate objects. The stream piping between them (socket → chunking → decrypt) is not modelled.
- `Chunking.ChunkingStream.ProcessChunk`: the transform callback that `process` defers with `process.nextTick` is left out, because it only tells the stream to accept the next chunk.
- `Flashers.Flasher.OnChunkMissed`: when the stream is gone after cleanup, `seek` throws, and the model stops after the acknowledgement. A payload shorter than 2 bytes makes `FromBinary(…, "uint16")` throw before the acknowledgement, and the model stops there, with nothing sent. In both cases the event emitter would raise the error, which the model does not record.

## Findings

| source | as written | input that shows it | evidently intended | confidence | as-written member | corrected member |
|---|---|---|---|---|---|---|
| js/lib/utilities.js:170-172 | `toHexString` pads with '0' only below 10, so 10..15 render as one digit; token keys ("a".."f") then never equal the two-digit token string of the reply (js/clients/SparkCore.js:574-589) | token 10: key "a", token string "0a" | two hex digits for every byte (pad below 16) | not executed | Utilities.ToHexStringOfTen | Utilities.PaddedHexString |
| js/clients/SparkCore.js:557-599 | replies to requests sent with tokens 10 to 15 find no recorded request name | any token t with 10 <= t < 16 | the recorded key matches the reply's token string | not executed | Session.AsWrittenKeyMisses | Session.TokenKeyIsTokenString |
| js/lib/utilities.js:299-306 | `endsWith` compares the first occurrence of `sub`, and `indexOf` of -1 matches when `sub` is one longer than `str` | `endsWith("ab", "abc")` is true; `endsWith("abab", "ab")` is false | true iff `sub` is a non-empty suffix of `str` | not executed | Utilities.EndsWithCounterexamples | Utilities.EndsWithSuffix |
| js/lib/ChunkingStream.js:92-102 | a new message reads its 2-byte length from the current chunk only; a chunk shorter than 2 bytes makes the length NaN and the stream never emits again | the frame [0, 1, 7] of message [7] arriving as [0] then [1, 7] | collect header bytes across chunks | not executed | Chunking.HeaderSplitWedges | Chunking.ReadAllFramesRoundTrip |
