# Loqui, modelled and proved in Dafny

Loqui is a framed RPC protocol with implementations in C (used from Python), Rust and Go. Nine kinds of frame share one
big-endian layout; a client offers encodings in a Hello, a server settles them in a HelloAck, and from then on requests,
responses, pushes and pings travel over one connection. This project models those implementations and proves what they
owe each other.

* **Framing** (`bytes`, `framing`): the layouts, a one-shot parser of a whole stream and its laws. Every decoder and
  encoder below is tied to it.
* **The C decoder, buffer and encoder** (`c_buffer`, `c_decoder`, `c_encoder`, `c_stream`): the resumable decoder as a
  class over a growing array with a failing allocator. For every stream, chunking and pattern of failures it does what the
  one-shot parser does.
* **The Python stream handler** (`py_stream_handler`, `py_events`, `py_sessions`): the C decoder's real caller, with its
  write buffer, automatic pongs and sequence numbers; its events lose nothing of the frames.
* **The Rust and Go codecs** (`settings`, `rust_codec`, `rust_stream`, `go_protocol`, `go_calls`, `wire_compat`): exact
  round-trip conditions, agreement with C on every stream, identical bytes from all writers, any writer read by any reader.
* **The handshake** (`handshake`, `handshake_agreement`): Rust and Go, in all four pairings, through the wire.
* **The merged event stream** (`select_break`): bounded waiting and order in any nest of round-robin merges.
* **The Rust connection** (`connection`, `event_laws`, `run_loop`, `connection_runs`, `goodbyes`, `stale_answers`,
  `waiter_timing`, `loqui_error`): event handler and connection handlers as classes, what each of their effects can have
  come from whatever the peer does, the run loop, and a client and a server joined by two FIFO wires as a step relation with
  invariants over every run; wrapping ids over unboundedly long runs.

Allocation failure is any finite pattern of failing calls (`Heap.plan`), so that re-feeding ends. Time is the instant an
operation reads, passed in. Wires are sequences. A waiter's one-shot channel is a tag (which request) and a fate (what
became of it), kept as ghost history. UTF-8 validity, which only Rust asks for, is a predicate the caller supplies.

Where code and documentation differ, the model follows the code. README.md:11 lets the server pick the encoding it wants:
a Rust server takes the client's first supported one, a Go server its own first offered one. README.md:34 speaks of two
settings: Rust and Python insist on exactly two, Go ignores any more. `PUSH` is open to both sides in README.md:26: a Rust
client answers one from the server with an error frame. The doc comment of `on_bytes_received` promises the parsed objects:
those parsed in a call that then raises are dropped (`PySessions.DeliveredAll` says exactly when it matters).

`dafny verify dfyconfig.toml` checks the whole project.

## Model

| member | source | states |
|---|---|---|
| `CStream.Feeder.OnChunks` | c/decoder.h:106-225 | For every stream, every cut into chunks and every pattern of allocation failures, a caller that feeds again from `consumed` gets exactly the frames, the verdict and the left-over of a one-shot parse of the whole stream; without a failure the buffer never exceeds 11 + 50 MiB. |
| `CStream.Feeder.FeedChunk` | c/decoder.h:106-225 | The same for one chunk on top of the bytes already pending: no byte lost, repeated or read past a frame's end, and only an unfinished frame stays behind. |
| `CStream.Feeder.Feed` | c/decoder.h:212-225 | One decoder call and its reset: what it hands out plus the parse of what is left is the parse of what there was, and every call makes progress or uses up an allocation failure. |
| `CStream.Transfer` | c/encoder.h:14-152 | Any list of frames with payloads up to 50 MiB, appended one after another by the C encoder and cut anywhere, comes out of the C decoder as the same list, with nothing left over, whatever allocations fail at the receiver. |
| `CStream.AfterRefusal` | c/decoder.h:141-144 | After refusing a frame for its size the decoder, fed on, takes the rest of it and completes it: a frame over 50 MiB comes out if and only if the caller does not reset first. |
| `CDecoder.Decoder.ReadData` | c/decoder.h:212-225 | The decoder's answer is the one-shot parser's verdict on everything received of the frame, only an allocation failure postpones it; bytes taken extend what was seen; memory bound while no allocation fails. Fed on after a refusal for size, it answers like a parser without the limit. |
| `CDecoder.Decoder.ReadNewData` | c/decoder.h:186-210 | A first byte that is no opcode is refused with nothing consumed; any other starts the frame afresh in the reused buffer and goes on with the rest of the chunk. |
| `CDecoder.Decoder.ReadAppendData` | c/decoder.h:106-184 | Going on with a frame from any stopping point, header or payload, gives the verdict of its whole prefix; without a current frame it is an invalid opcode. |
| `CDecoder.Decoder.OpenFrame` | c/decoder.h:116-157 | Filling the header over any number of calls; an oversized announcement is refused before memory is taken, otherwise room for the whole frame is set aside. |
| `CDecoder.Decoder.ReadHeader` | c/decoder.h:117-136 | As many header bytes as are missing or there are, none after a failed allocation. |
| `CDecoder.Decoder.ReadPayload` | c/decoder.h:159-183 | Completes exactly at the frame's last byte; after the pre-allocation a payload write never reallocates. |
| `CDecoder.Decoder.TakePayload` | c/decoder.h:159-183 | Takes payload bytes up to the frame's end and no further, and marks completion exactly when none is missing. |
| `CDecoder.Decoder.Take` | c/buffer.h:20-41 | A buffer write extends what was taken of the frame by exactly the bytes written, or changes nothing. |
| `CDecoder.Decoder.Reset` | c/decoder.h:100-104 | Ready for a new frame, the block kept for reuse. |
| `CDecoder.Decoder.constructor` | py/loqui/stream_handler.pyx:66-71 | A zeroed decoder has seen nothing and keeps the memory bound. |
| `CDecoder.HeaderSize` | c/decoder.h:12-33 | Header sizes after the opcode agree with the frame layouts of README.md, 0 exactly for a byte that is no opcode. |
| `CDecoder.Decoder.GetDataPayloadSize` | c/decoder.h:39-56 | The getter finds the size field of whichever frame the buffer holds. |
| `CDecoder.Decoder.TakeFrame` | c/decoder.h:35-98 | The getters together read off exactly the fields of the frame the received bytes encode. |
| `CDecoder.Decoder.UnfinishedIsMore` | c/decoder.h:177-183 | A valid decoder that is not complete holds a proper prefix of a frame, never a finished or refusable one. |
| `CBuffer.WriteRun` | c/buffer.h:20-41 | Over any append-only run from an empty buffer: contents are the writes in order, capacity at most twice the contents, and all reallocations together moved at most twice the contents. |
| `CBuffer.Buffer.Write` | c/buffer.h:20-41 | Appends all bytes, or on a failed reallocation leaves everything as it was; keeps the amortised bound. |
| `CBuffer.Buffer.EnsureSize` | c/buffer.h:43-59 | Capacity becomes at least what was asked, contents untouched; fails exactly when a needed reallocation does. |
| `CBuffer.Heap.Realloc` | c/buffer.h:28-31 | The allocator as the callers know it: contents kept, or null and nothing touched. |
| `CBuffer.Heap.Malloc` | py/loqui/stream_handler.pyx:24-26 | A fresh block or null. |
| `Bytes.Store16` | c/sysdep.h:151-152 | Big-endian store; the load gives the number back. |
| `Bytes.Store32` | c/sysdep.h:153-154 | Big-endian store; the load gives the number back. |
| `Bytes.LoadStore16` | c/sysdep.h:123-125 | Storing a loaded number gives its two bytes back. |
| `Bytes.LoadStore32` | c/sysdep.h:127-131 | Storing a loaded number gives its four bytes back: with Store32 a bijection. |
| `Bytes.BigEndian` | c/sysdep.h:123-154 | The high byte comes first, in loads and stores of both widths: the digits have the weights 1, 256, 65536 and 16777216 from the right. |
| `Bytes.Put16` | c/sysdep.h:151-152 | Writes the field in place, the bytes before and after it untouched. |
| `Bytes.Put32` | c/sysdep.h:153-154 | Writes the field in place, the bytes before and after it untouched. |
| `CEncoder.AppendHello` | c/encoder.h:14-28 | Appends the frame's one encoding; after a failed allocation the buffer is as before or holds the bare header; never fails while memory lasts. |
| `CEncoder.AppendHelloAck` | c/encoder.h:30-44 | Appends the frame's one encoding; after a failed allocation the buffer is as before or holds the bare header; never fails while memory lasts. |
| `CEncoder.AppendPing` | c/encoder.h:46-54 | Appends the frame's one encoding; after a failed allocation the buffer is as before; never fails while memory lasts. |
| `CEncoder.AppendPong` | c/encoder.h:56-64 | Appends the frame's one encoding; after a failed allocation the buffer is as before; never fails while memory lasts. |
| `CEncoder.AppendRequest` | c/encoder.h:66-81 | Appends the frame's one encoding; after a failed allocation the buffer is as before or holds the bare header; never fails while memory lasts. |
| `CEncoder.AppendResponse` | c/encoder.h:83-98 | Appends the frame's one encoding; after a failed allocation the buffer is as before or holds the bare header; never fails while memory lasts. |
| `CEncoder.AppendPush` | c/encoder.h:100-114 | Appends the frame's one encoding; after a failed allocation the buffer is as before or holds the bare header; never fails while memory lasts. |
| `CEncoder.AppendGoAway` | c/encoder.h:116-131 | Appends the frame's one encoding; after a failed allocation the buffer is as before or holds the bare header; never fails while memory lasts. |
| `CEncoder.AppendError` | c/encoder.h:133-152 | Appends the frame's one encoding; after a failed allocation the buffer is as before or holds the bare header; never fails while memory lasts. |
| `CEncoder.AppendAll` | c/encoder.h:14-152 | A run of appended frames is the concatenation of their encodings. |
| `Framing.ScanEncoded` | README.md:16-113 | What any encoder writes is recognised as one whole frame, whatever follows it. |
| `Framing.FieldsOfEncoded` | README.md:33-113 | Decoding an encoded frame gives every field back. |
| `Framing.EncodeOfFields` | README.md:33-113 | Encoding a decoded frame gives every byte back: a whole frame has exactly one spelling. |
| `Framing.Layouts` | README.md:33-113 | The nine layouts byte by byte: opcodes 1 to 9, flags, then the fields of each frame in order and the size before the payload. |
| `Framing.VerdictMeans` | rust/loqui_protocol/src/codec.rs:51-111 | What each verdict on the front of a buffer means: an encoded frame within the limit; a first byte outside 1 to 9; the header of a frame with a larger payload, and that size; or the beginning of some frame whose size is not yet seen or is allowed. |
| `Framing.ScanStable` | rust/loqui_protocol/src/codec.rs:51-111 | A verdict on the front of a buffer is final: more bytes do not change it. |
| `Framing.ScanExact` | rust/loqui_protocol/src/codec.rs:100-106 | A frame ends where the parser says: the cut-off frame is whole and no shorter prefix is. |
| `Framing.PrefixFree` | rust/loqui_protocol/src/codec.rs:100-106 | No frame's encoding is a proper prefix of another frame's. |
| `Framing.ParseAllComplete` | c/decoder.h:106-225 | Cutting a stream into frames loses nothing: the frames' encodings are a prefix of it, the left-over is the rest, and it is unfinished or refused for the stated reason. |
| `Framing.ParseEncoded` | c/encoder.h:14-152 | Encoded frames parse back to themselves in order, and parsing goes on with what follows. |
| `Framing.ParseSplit` | c/decoder.h:106-225 | Only the whole stream matters: receiving it in two parts gives the frames of the first and those of its left-over with the second. |
| `PyStreamHandler.LoquiStreamHandler.OnBytesReceived` | py/loqui/stream_handler.pyx:333-366 | Returns the events of exactly the frames the received bytes finish and queues one pong per ping; raises a decoder error exactly when the stream is refused (or memory fails), then starts afresh; raises for a handshake payload that is not two settings, and again on every later call. |
| `PyStreamHandler.LoquiStreamHandler.Round` | py/loqui/stream_handler.pyx:347-364 | One round of the receive loop: the event it yields, if any, is that of the next frame of the stream. |
| `PyStreamHandler.LoquiStreamHandler.ConsumeDecodeBuffer` | py/loqui/stream_handler.pyx:368-446 | The finished frame becomes its event, from which `PyEvents.NothingLost` gives the frame back, and a ping its pong; a frame that cannot be read or answered stays in the decoder. |
| `PyStreamHandler.LoquiStreamHandler.ResetDecodeBuf` | py/loqui/stream_handler.pyx:448-455 | From any state the decoder is ready for a new frame, holding less than 2 MiB. |
| `PyStreamHandler.LoquiStreamHandler.constructor` | py/loqui/stream_handler.pyx:66-71 | Both buffers start empty, also when an allocation fails. |
| `PyStreamHandler.ResetBuffer` | py/loqui/stream_handler.pyx:16-29 | An existing block is reused, a missing one allocated at the initial size. |
| `PyStreamHandler.FreeBigBuffer` | py/loqui/stream_handler.pyx:31-43 | A block of 2 MiB or more is let go, a smaller one kept. |
| `PyStreamHandler.LoquiStreamHandler.NextSeq` | py/loqui/stream_handler.pyx:86-98 | Numbers count up by one and start over at 0 before SEQ_MAX is ever issued. |
| `PyStreamHandler.LoquiStreamHandler.SendPing` | py/loqui/stream_handler.pyx:100-112 | Queues a ping with the next sequence number behind what is queued; where that number is 0 the caller takes the answer for an error. |
| `PyStreamHandler.LoquiStreamHandler.SendPong` | py/loqui/stream_handler.pyx:114-126 | Queues a pong. |
| `PyStreamHandler.LoquiStreamHandler.SendRequest` | py/loqui/stream_handler.pyx:128-148 | Queues a request with the next sequence number; where that number is 0 the caller takes the answer for an error. |
| `PyStreamHandler.LoquiStreamHandler.SendPush` | py/loqui/stream_handler.pyx:150-168 | Queues a push. |
| `PyStreamHandler.LoquiStreamHandler.SendHello` | py/loqui/stream_handler.pyx:170-194 | Queues a hello with the two lists printed. |
| `PyStreamHandler.LoquiStreamHandler.SendHelloAck` | py/loqui/stream_handler.pyx:196-221 | Queues an acknowledgement, a missing compressor printed as empty. |
| `PyStreamHandler.LoquiStreamHandler.SendResponse` | py/loqui/stream_handler.pyx:223-245 | Queues a response under the given sequence number. |
| `PyStreamHandler.LoquiStreamHandler.SendError` | py/loqui/stream_handler.pyx:247-271 | Queues an error frame. |
| `PyStreamHandler.LoquiStreamHandler.SendGoAway` | py/loqui/stream_handler.pyx:273-294 | Queues a goaway. |
| `PyStreamHandler.LoquiStreamHandler.WriteBufferLen` | py/loqui/stream_handler.pyx:296-300 | The number of bytes queued and not yet taken. |
| `PyStreamHandler.LoquiStreamHandler.WriteBufferGetBytes` | py/loqui/stream_handler.pyx:302-322 | Bytes come off the front of the queue in order, at most as many as there are; looking does not take them. |
| `PyStreamHandler.LoquiStreamHandler.WriteBufferConsumeBytes` | py/loqui/stream_handler.pyx:324-331 | Drops that many bytes off the front and tells how many are left. |
| `PyStreamHandler.LoquiStreamHandler.ResetOrCompactWriteBuf` | py/loqui/stream_handler.pyx:457-479 | What is queued stays the same while the block is freed or compacted; the copied ranges never overlap; afterwards at most half the block lies behind the position. |
| `PySessions.Session` | py/loqui/stream_handler.pyx:333-366 | Over any chunks with memory to spare: the first call that raises is the one whose chunk spoils the stream, and the events handed out, turned back into frames, are exactly the frames of everything before that chunk. |
| `PySessions.DeliveredAll` | py/loqui/stream_handler.pyx:346-366 | Exactly when a failing session has handed out all events that precede the spoiled point: if and only if the pending bytes and the failing chunk begin with the frame that is refused or cannot be read. |
| `PySessions.CutsMatter` | py/loqui/stream_handler.pyx:349-351 | Chunking does not leave the handler's output unchanged on a refused stream: a ping and a bad byte yield no event together and the ping apart. |
| `PySessions.TakeAll` | py/loqui/stream_handler.pyx:302-322 | Pieces of any sizes taken off the write buffer concatenate to what was queued. |
| `PySessions.Exchange` | py/tests/test_stream_handler_chunking.py:87-111 | Frames queued on one handler and fed in any pieces to another, whose answers are fed in any pieces to the first: the events, turned back into frames, are the list that was sent, and the first hears exactly one pong for each of its pings, with its flags and number, in order. |
| `PyEvents.NothingLost` | py/loqui/stream_handler.pyx:45-55 | An event keeps everything of its frame: turned back it is that frame, kind, flags, numbers and payload, an empty payload being None; a frame has no event if and only if it is a Hello or HelloAck whose payload does not hold exactly one bar. |
| `PyEvents.HeardIsSent` | py/loqui/stream_handler.pyx:333-366 | The events of any run of frames, turned back, are the run up to the first frame that cannot be read. |
| `PyEvents.EchoIsHeard` | py/loqui/stream_handler.pyx:395-400 | What is queued in answer to any run of frames is for its receiver one pong for each ping up to the first frame that cannot be read, with the ping's flags and number. |
| `Settings.SplitPieces` | rust/loqui_protocol/src/frames.rs:89 | Splitting leaves no separator in any piece and joining the pieces restores the text. |
| `Settings.SplitJoin` | go/protocol.go:130-140 | Splitting undoes joining if and only if there is a piece and no piece holds the separator. |
| `Settings.TerminatorRoundTrip` | rust/loqui_protocol/src/frames.rs:96-104 | Rust reads a printed list back if and only if no name holds a comma and the list is empty or ends in a non-empty name. |
| `Settings.RustHelloRoundTrip` | rust/loqui_protocol/src/frames.rs:69-112 | Rust reads its own printed Hello lists back if and only if no name holds a separator and each list is empty or ends in a non-empty name. |
| `Settings.RustLosesEmptyName` | rust/loqui_protocol/src/frames.rs:96-104 | The shortest lists that do not come back: a lone empty name and an empty last name are lost. |
| `Settings.GoListRoundTrip` | go/protocol.go:135-140 | Go reads a printed list back if and only if no name holds a comma and it is not the list of one empty name. |
| `Settings.GoHelloRoundTrip` | go/protocol.go:130-143 | Go's condition for the whole Hello: trailing empty names survive, a lone empty name does not. |
| `Settings.PyHelloRoundTrip` | py/loqui/stream_handler.pyx:415-424 | Python reads a printed Hello back if and only if both lists are non-empty and no name holds a separator. |
| `Settings.PyHearsNoCompression` | py/loqui/stream_handler.pyx:415-424 | The empty compression list of a Rust client reaches Python as the list of one empty name. |
| `Settings.PyAckRoundTrip` | py/loqui/stream_handler.pyx:426-435 | Python reads an acknowledgement back if and only if neither name holds a bar. |
| `Settings.JoinTwo` | go/protocol.go:317-320 | Go's joined settings are the text Rust and Python format. |
| `Settings.RustAgainstGo` | go/protocol.go:130-140 | Every Hello payload Rust accepts Go accepts, and each Go list is the Rust list or it with one empty name appended. |
| `Settings.RustAckRoundTrip` | rust/loqui_protocol/src/frames.rs:133-177 | Rust reads its acknowledgement back if and only if neither name holds a bar and the compression is not a present empty name. |
| `Settings.GoAckRoundTrip` | go/protocol.go:155-161 | Go reads its acknowledgement back if and only if neither name holds a bar. |
| `Settings.BarsDecide` | rust/loqui_protocol/src/frames.rs:82-105 | How many bars a settings payload must hold to be read: exactly one for Rust and Python, at least one for Go, for Hello and HelloAck alike. |
| `Settings.PrintedAgain` | go/protocol.go:130-161 | What was read, printed again, is the payload: all of it with one bar, and its front up to a second bar when Go reads more. |
| `Settings.Rejoined` | rust/loqui_protocol/src/frames.rs:96-104 | A list's names joined again are the setting they were read from, in Python and Go always, in Rust without the comma it may end in. |
| `Settings.PayloadExamples` | py/tests/test_stream_handler_decode.py:13-36 | The payloads of the decoding tests: encodings stand before the bar and compressions after it, for all three readers. |
| `RustCodec.Codec.Decode` | rust/loqui_protocol/src/codec.rs:51-112 | The buffer loses exactly one whole frame, or nothing, by the shared framing's verdict under the codec's limit; settings are read off the frame taken. |
| `RustCodec.Codec.Encode` | rust/loqui_protocol/src/codec.rs:31-79 | Appends the one encoding of the frame with its settings printed; a payload of 2^32 bytes or more gets a truncated size. |
| `RustCodec.OpcodeOf` | rust/loqui_protocol/src/frames.rs:480-494 | Rust's nine opcodes are the ones C and Go use. |
| `RustCodec.Codec.PutHeader` | rust/loqui_protocol/src/frames.rs:63-401 | Each frame kind writes its own opcode, flags and fields, which are the shared header's bytes before the size. |
| `RustCodec.Codec.constructor` | rust/loqui_protocol/src/codec.rs:19-25 | The configured limit is cut to 32 bits. |
| `RustCodec.FromBufIsFromWire` | rust/loqui_protocol/src/frames.rs:82-423 | Reading a frame in place, offset by offset, is reading the shared layout's fields and then the settings. |
| `RustCodec.ReadingKeeps` | rust/loqui_protocol/src/frames.rs:82-105 | A frame is refused if and only if it is a Hello or HelloAck whose payload is not valid text or does not hold exactly one bar; read, it keeps kind, flags, fields and payload, except that a comma at the end of a Hello list leaves no trace. |
| `RustCodec.RoundTrip` | rust/loqui_protocol/src/codec.rs:31-112 | A frame within the limit comes back, with exactly its own bytes taken, if and only if its settings survive. |
| `RustCodec.DecodeStable` | rust/loqui_protocol/src/codec.rs:51-112 | Returning nothing leaves the buffer alone; any other answer is the same on every extension, the remainder extended likewise. |
| `CAgainstRust.SameVerdict` | c/decoder.h:106-225 | On every prefix of every stream C waits exactly when Rust returns nothing, completes at the same byte with the same fields, and the two refusals match one to one. |
| `RustStream.Drain` | rust/loqui_protocol/src/codec.rs:47-69 | Decoding until nothing is returned gives the readings of the one-shot parse, and stops for the same reason. |
| `RustStream.OnChunks` | rust/loqui_protocol/src/codec.rs:47-69 | However a stream is cut up, frames, error and left-over are those of its one-shot parse. |
| `RustStream.ReadingsMean` | rust/loqui_protocol/src/codec.rs:47-69 | One reading for each frame, in order, up to the first that is refused. |
| `GoProtocol.BodyAgainstFraming` | go/protocol.go:90-226 | Reading a frame field by field comes to the shared framing's verdict, fields and remainder. |
| `GoProtocol.ProtocolReader.Process` | go/protocol.go:228-296 | One whole frame off the stream leads to exactly its one handler call, the one `GoCalls.FrameComesBack` ties to the frame; nothing is called on a short, oversized, unknown or unreadable frame, and the error says which. |
| `GoProtocol.ProtocolReader.constructor` | go/protocol.go:37-51 | A limit that is not positive stands for the largest 32-bit signed number. |
| `GoProtocol.ProtocolReader.Read` | go/protocol.go:53-59 | Exactly n bytes in order, or the stream is used up. |
| `GoProtocol.ProtocolReader.ReadPayload` | go/protocol.go:90-110 | A size and that many bytes; refused over the limit before reading on. |
| `GoProtocol.ProtocolReader.ReadHello` | go/protocol.go:120-143 | The settings of a Hello body, by Go's split rules. |
| `GoProtocol.ProtocolReader.ReadHelloAck` | go/protocol.go:145-164 | The settings of a HelloAck body. |
| `GoProtocol.ProtocolReader.ReadPing` | go/protocol.go:166-168 | The fields of a ping body. |
| `GoProtocol.ProtocolReader.ReadPong` | go/protocol.go:170-172 | The fields of a pong body. |
| `GoProtocol.ProtocolReader.ReadRequest` | go/protocol.go:174-181 | The fields of a request body. |
| `GoProtocol.ProtocolReader.ReadResponse` | go/protocol.go:183-190 | The fields of a response body. |
| `GoProtocol.ProtocolReader.ReadPush` | go/protocol.go:192-194 | The payload of a push. |
| `GoProtocol.ProtocolReader.ReadError` | go/protocol.go:196-212 | The fields of an error body. |
| `GoProtocol.ProtocolReader.ReadGoAway` | go/protocol.go:214-226 | The fields of a goaway body. |
| `GoProtocol.ReadLoop` | go/conn.go:152-161 | Over a whole stream the handler sees exactly the calls of the one-shot parse, in order, up to the first error. |
| `GoCalls.DeliverEncoded` | go/protocol.go:228-419 | Any list of calls whose settings are kept, written by Go's writer one after another within the limit: reading makes exactly this list of calls, every byte is used, and then the stream ends. |
| `GoCalls.ThereAndBack` | go/protocol.go:228-419 | What Go's writer emits for any call, processed by Go's reader, makes exactly that call if and only if it is not a Hello or HelloAck whose settings are lost. |
| `GoCalls.CallComesBack` | go/protocol.go:228-296 | A call's frame leads to that call if and only if its settings are kept, and its first byte is the opcode of the call's kind. |
| `GoCalls.FrameComesBack` | go/protocol.go:228-296 | A received frame makes no call if and only if it is a Hello or HelloAck without a bar; otherwise the call's frame is the received one, but for what stands behind a second bar. |
| `GoCalls.DeliverMeans` | go/conn.go:152-161 | Of any frames: one call for each, in order, up to the first that makes none. |
| `GoProtocol.ProtocolWriter.WriteHello` | go/protocol.go:310-325 | Writes the frame's one encoding. |
| `GoProtocol.ProtocolWriter.WriteHelloAck` | go/protocol.go:327-339 | Writes the frame's one encoding. |
| `GoProtocol.ProtocolWriter.WritePingPong` | go/protocol.go:341-359 | Writes the frame's one encoding. |
| `GoProtocol.ProtocolWriter.WritePing` | go/protocol.go:353-355 | Writes a ping's one encoding. |
| `GoProtocol.ProtocolWriter.WritePong` | go/protocol.go:357-359 | Writes a pong's one encoding. |
| `GoProtocol.ProtocolWriter.WriteRequest` | go/protocol.go:374-376 | Writes a request's one encoding. |
| `GoProtocol.ProtocolWriter.WriteResponse` | go/protocol.go:378-380 | Writes a response's one encoding. |
| `GoProtocol.ProtocolWriter.WriteRequestResponse` | go/protocol.go:361-380 | Writes the frame's one encoding. |
| `GoProtocol.ProtocolWriter.WritePush` | go/protocol.go:382-392 | Writes the frame's one encoding. |
| `GoProtocol.ProtocolWriter.WriteError` | go/protocol.go:394-406 | Writes the frame's one encoding. |
| `GoProtocol.ProtocolWriter.WriteGoAway` | go/protocol.go:408-419 | Writes the frame's one encoding. |
| `WireCompat.SameBytes` | c/encoder.h:14-152 | For the same frame (version 1, payload under 2^32 bytes) the C, Rust and Go writers emit identical bytes. |
| `WireCompat.AnyToAny` | README.md:13-113 | Frames written by any mix of the three writers and cut into any chunks: C hands out every field, Rust every frame, and Go's calls are those whose frames were sent, in order, nothing left over. |
| `WireCompat.SameStream` | rust/loqui_protocol/src/codec.rs:51-111 | On any stream, cut differently for each and with allocations failing for C, the C decoder and the Rust codec hand out the same frames and end alike, up to a handshake frame whose settings Rust refuses. |
| `RustHandshake.FindEncoding` | rust/loqui_connection/src/lib.rs:23-34 | Finds the encoding if and only if it is supported. |
| `RustHandshake.NegotiateEncoding` | rust/loqui_server/src/connection_handler.rs:175-185 | The first encoding in the client's order the server supports, an error if and only if there is none. |
| `RustHandshake.ServerVerdict` | rust/loqui_server/src/connection_handler.rs:124-173 | A server acknowledges if and only if the first frame is a Hello of version 1 with a common encoding, echoing its flags; each of the four refusals occurs exactly for its own cause. |
| `RustHandshake.ClientVerdict` | rust/loqui_client/src/connection_handler.rs:232-268 | A client accepts if and only if the first frame is a HelloAck with a supported encoding and no compression, and takes encoding and interval from it; each of the four refusals occurs exactly for its own cause. |
| `RustHandshake.AckIsAccepted` | rust/loqui_client/src/connection_handler.rs:232-268 | A Rust client accepts whatever a Rust server acknowledges, with the same encoding and the interval as 32 bits hold it. |
| `GoHandshake.Conn.SendHelloAck` | go/conn.go:207-234 | Encoding and compression are the first in the server's order that were offered; acknowledged if and only if an encoding other than the empty name is held. |
| `GoHandshake.Conn.HandleHello` | go/conn.go:423-442 | Ready, with the acknowledgement queued, if and only if an unready server that speaks the version finds an encoding; otherwise the code of the cause is queued as the connection's one GoAway and the connection terminated. |
| `GoHandshake.Conn.HandleHelloAck` | go/conn.go:444-484 | Ready, with nothing queued, if and only if unready client, encoding supported and compression empty or supported; otherwise a GoAway with the code of the cause is queued and the connection terminated. |
| `GoHandshake.Conn.Close` | go/conn.go:397-405 | A connection says GoAway once, with the first code it is closed with. |
| `GoHandshake.Conn.Terminate` | go/conn.go:407-414 | Closed on both sides for good, the GoAway queued before unless one was already. |
| `GoHandshake.Conn.HandleGoAway` | go/conn.go:528-534 | The peer counts as closed; a side that had closed too is terminated, without a second GoAway. |
| `HandshakeAgreement.Handshake` | rust/loqui_server/src/connection_handler.rs:142-185 | In all four pairings of Rust and Go through the wire, the client's own code run on whatever the server sends: it accepts if and only if the server acknowledges, and exactly when that is. Both then hold the same encoding from both lists, first by the client's order for Rust and the server's for Go, and the server's ping interval. A refused client is told that there is no common encoding, by a Rust server always, by a Go server if and only if its GoAway left before the connection was closed. |
| `HandshakeAgreement.AnswerHello` | go/conn.go:423-442 | For any version and offer, the one frame a server of each kind sends: the acknowledgement of what it has settled on, or a GoAway with the code of the cause, and exactly which of them. |
| `HandshakeAgreement.HearAnswer` | go/conn.go:444-484 | Of either answer, whole or cut short, exactly which a client of each kind accepts, with which encoding and interval, and that the code of a whole GoAway, and of nothing else, is handed on. |
| `HandshakeAgreement.RustAnswer` | rust/loqui_connection/src/connection.rs:213-216 | A Rust server that cannot go on sends the GoAway with its error's code. |
| `HandshakeAgreement.GoAnswer` | go/conn.go:408-414 | A Go server that refuses queues the GoAway with its code. |
| `HandshakeAgreement.SendHello` | rust/loqui_client/src/connection_handler.rs:216-230 | Rust and Go clients print the same Hello for the same offer. |
| `HandshakeAgreement.CommonNameRefused` | go/conn.go:218-230 | A common name is not always enough: a Go server whose first match is the empty name refuses, and a Rust server does not hear an empty last name. |
| `HandshakeAgreement.SameCodes` | rust/loqui_connection/src/error.rs:55-82 | The codes Rust closes with are Go's constants for the same causes. |
| `SelectBreak.SelectBreak.Poll` | rust/loqui_connection/src/select_break.rs:38-71 | One poll in place, of which the lemmas below say when it is pending, when it ends and what it hands out. |
| `SelectBreak.PendingMeans` | rust/loqui_connection/src/select_break.rs:63-70 | While nothing has ended, a poll of any nest of merges is pending if and only if every source in it is empty and open. |
| `SelectBreak.AnswerMeans` | rust/loqui_connection/src/select_break.rs:63-70 | While nothing has ended, a poll that is not pending answers for one source, whose path is given: the end if and only if that source is empty and closed, otherwise its next item. |
| `SelectBreak.TurnTaken` | rust/loqui_connection/src/select_break.rs:46-64 | The side whose turn it is answers if any source on it is ready, the other only if none is, and the turn passes. |
| `SelectBreak.EndingIsFinal` | rust/loqui_connection/src/select_break.rs:38-71 | A merge ends only because one of its sides has; an ended side is not asked again, and when its turn comes the merge ends. |
| `SelectBreak.RunAnswers` | rust/loqui_connection/src/select_break.rs:38-71 | At any poll of any run with any arrivals that has not ended: pending if and only if every source is empty and open, ended if and only if it reaches a source that is empty and closed. |
| `SelectBreak.PollStep` | rust/loqui_connection/src/select_break.rs:54-71 | One poll of any nest of merges: a ready source is served, or another is and its wait gets strictly shorter, or the merge ends. |
| `SelectBreak.BoundedWait` | rust/loqui_connection/src/select_break.rs:38-71 | Under any readiness schedule a ready source at depth d is served within 2^d polls unless the merge ends first. |
| `SelectBreak.RunConserves` | rust/loqui_connection/src/select_break.rs:38-71 | Over any run without an end, what came out of a source and what is left in it is what was in it and what arrived, in order. |
| `SelectBreak.ConnectionWait` | rust/loqui_connection/src/connection.rs:166-168 | In the run loop's merge, from any moment: a ready ping is returned within 2 polls, a ready socket frame or own event within 4, unless the merge ends. |
| `Connection.IdSequence.Next` | rust/loqui_connection/src/id_sequence.rs:7-11 | Each number once, wrapping from 2^32 - 1 to 0. |
| `Connection.ClientHandler.SendRequest` | rust/loqui_client/src/connection_handler.rs:159-178 | An expired request is told so and not sent; any other is stored under its id and sent, an old waiter there being dropped. |
| `Connection.ClientHandler.Notify` | rust/loqui_client/src/connection_handler.rs:180-214 | The waiter under the id is taken out and told; an unknown id changes nothing. |
| `Connection.ClientHandler.OnPingReceived` | rust/loqui_client/src/connection_handler.rs:145-150 | Exactly the expired waiters are swept. |
| `Connection.EventHandler.HandleEvent` | rust/loqui_connection/src/event_handler.rs:39-146 | One event, carried out in place on handler, ids and ping state, has the effect and reply the whole-run results are about. |
| `Connection.EventHandler.SendPing` | rust/loqui_connection/src/event_handler.rs:51-63 | A ping goes out only when the last one was answered; otherwise it is a timeout. |
| `Connection.EventHandler.ReceiveFrame` | rust/loqui_connection/src/event_handler.rs:67-118 | A received frame's effect, reply and spawned future, for client and server: what the laws of `EventLaws` are about. |
| `Connection.EventHandler.constructor` | rust/loqui_connection/src/event_handler.rs:27-35 | A new end may ping, draws id 1 first and holds no waiter. |
| `Connection.LedgerStep` | rust/loqui_client/src/connection_handler.rs:130-214 | Whatever the peer sends and whatever the clock shows, no event loses a waiter, settles one twice or revises what one was told. |
| `Connection.Conservation` | rust/loqui_client/src/connection_handler.rs:130-214 | Requests taken on = waiters still held + waiters answered, failed, late, swept or overwritten. |
| `Connection.LateChangesNothing` | rust/loqui_client/src/connection_handler.rs:180-214 | A second response under a settled id, or one after its sweep, changes nothing. |
| `EventLaws.FatesAreCaused` | rust/loqui_client/src/connection_handler.rs:145-214 | In every run of client events, whatever the peer sends: a waiter was answered with p if and only if a Response with its id and payload p came while it was held, failed with p if and only if an Error did, was swept if and only if a Ping came past its deadline, was told it is late if and only if it was issued past it, and was overwritten if and only if its id was given to a later request. |
| `EventLaws.FateMeans` | rust/loqui_client/src/connection_handler.rs:145-214 | The same for one event: which fate a waiter meets in it, and exactly when. |
| `EventLaws.HeldMeans` | rust/loqui_client/src/connection_handler.rs:159-214 | A waiter is held, under the id its request was sent with, from that request to its fate and no longer. |
| `EventLaws.PongMeans` | rust/loqui_connection/src/event_handler.rs:106-113 | A pong goes out if and only if a ping came in, with its flags and number. |
| `EventLaws.PingMeans` | rust/loqui_connection/src/event_handler.rs:51-63 | A ping goes out if and only if one is due and the last was answered, under the next id. |
| `EventLaws.RequestMeans` | rust/loqui_client/src/connection_handler.rs:130-178 | A request goes out if and only if a client's caller issues one before its deadline, with its payload, under the next id. |
| `EventLaws.PushMeans` | rust/loqui_client/src/connection_handler.rs:154-157 | A push goes out if and only if a client's caller issues one, with its payload. |
| `EventLaws.ResponseMeans` | rust/loqui_connection/src/event_handler.rs:120-134 | A response goes out if and only if a future finished with it, an error frame if and only if one failed, with its id, reason and code 7; no event sends a handshake frame or a GoAway. |
| `EventLaws.ErrorMeans` | rust/loqui_connection/src/event_handler.rs:39-146 | Each error of an event has exactly one cause: an unanswered ping, a requested close, a GoAway, a handshake frame; nothing else fails. |
| `EventLaws.SpawnMeans` | rust/loqui_client/src/connection_handler.rs:103-128 | A server serves exactly the requests it receives; a client's futures reject exactly the requests and pushes it receives. |
| `EventLaws.StateMeans` | rust/loqui_connection/src/event_handler.rs:49-118 | An id is drawn exactly for a ping sent and a client's request; a pong and nothing else brings the right to ping back; a server keeps no waiters. |
| `ConnectionRuns.EveryRun` | rust/loqui_connection/src/event_handler.rs:39-146 | Every reachable state of a client and a server joined by FIFO wires, tasks finishing in any order: peers are genuine, each has one ping token, requests are conserved and the ledger balances; in runs that send no request under an id still in use, of any length, every answer is traced to its own request. |
| `ConnectionRuns.OnlyExpectedErrors` | rust/loqui_connection/src/event_handler.rs:67-146 | In every run handle_event fails only with a ping timeout, a requested close, or a GoAway from a server that has closed for one of these two reasons; InvalidOpcode is unreachable. |
| `ConnectionRuns.TimeoutMeansUnanswered` | rust/loqui_connection/src/event_handler.rs:51-118 | A due ping fails with a ping timeout if and only if the last ping or its pong is still under way, and never more than one of them is. |
| `Goodbyes.GoodbyeTellsWhy` | rust/loqui_connection/src/error.rs:55-82 | In every run: the server's GoAway carries 6 if and only if its ping came due with the last one unanswered, 0 if and only if it was asked to close; there is never another GoAway or both, it is the last frame on the wire, and no side fails twice or stays up after failing. |
| `Goodbyes.StepSpeaks` | rust/loqui_connection/src/framed_io.rs:52-104 | One act of any reachable state: a GoAway is said by it exactly if it is a timeout or a requested close of a server that is up, with the code of that cause. |
| `ConnectionRuns.AnswersAreRight` | rust/loqui_client/src/connection_handler.rs:130-194 | In runs of any length that send no request under an id still in use: every Ok payload a waiter got is the server handler's answer to that waiter's own request, and no waiter was overwritten. |
| `ConnectionRuns.FewDrawsAreFresh` | rust/loqui_connection/src/id_sequence.rs:7-11 | Every run that draws at most 2^32 ids is such a run. |
| `StaleAnswers.StaleAnswer` | rust/loqui_connection/src/id_sequence.rs:7-11 | Beyond that the condition is needed: a run of 2^32 + 1 draws in which a waiter is given the answer to another request while its own is still on its way. |
| `ConnectionRuns.NoWaiterIsLost` | rust/loqui_client/src/connection_handler.rs:130-214 | In every run each request is still waiting or has its one fate, and no fate is revised by any later act. |
| `ConnectionRuns.NoRequestIsLost` | rust/loqui_server/src/connection_handler.rs:200-219 | Requests sent are, id by id, those on their way, being served, coming back or answered; while ids are fresh an open waiter's is in exactly one place. |
| `ConnectionRuns.StepKeepsToken` | rust/loqui_connection/src/event_handler.rs:51-118 | Every act keeps the token count of each side at one: at home, or as a ping out or a pong back. |
| `ConnectionRuns.ServedOnce` | rust/loqui_server/src/connection_handler.rs:200-219 | In such runs the handler is asked for each request at most once: a request being served has no answer yet. |
| `RunLoop.Run` | rust/loqui_connection/src/connection.rs:171-184 | The loop over its event stream: frames written in order of the events; a read error or a failed write ends it without a word, the first event that cannot be handled closes and ends it; handler state and spawned futures are those of the events up to there. |
| `RunLoop.GoAwayIsLast` | rust/loqui_connection/src/framed_io.rs:52-104 | Nothing follows a GoAway on the wire; while the socket takes frames it is said if and only if handling an event failed at a server, not at the end of the stream or on a read error. The event it closed at is given, with everything before it written, and the code is 6 for a due ping, 0 for a requested close, 1 for a handshake frame, 7 for being told to go away. |
| `RunLoop.OneMore` | rust/loqui_connection/src/connection.rs:171-184 | One more event after those dealt with adds exactly its own answer at the end of what was written and its future at the end of the tasks; after the loop has ended nothing is dealt with. |
| `RunLoop.Writer.Close` | rust/loqui_connection/src/framed_io.rs:52-78 | A GoAway with the error's code, which `GoAwayIsLast` gives as a number for each cause, or nothing for a side that does not say it. |
| `RunLoop.Writer.Write` | rust/loqui_connection/src/framed_io.rs:44-49 | Appends the frame while the socket lasts. |
| `WaiterTiming.NeverOverwritten` | rust/loqui_client/src/connection_handler.rs:145-171 | Over unboundedly long runs with wrapping ids: if requests have at most timeout T, pings arrive at most P apart and no window of T + P sees 2^32 further draws, no waiter is ever overwritten, and requests = held + answered, failed, late or swept. |
| `WaiterTiming.DrawnIdIsFree` | rust/loqui_connection/src/id_sequence.rs:7-11 | Under the same conditions the id about to be drawn is in no waiter's hands. |

## Left out

- Sockets, TLS, the HTTP upgrade, task scheduling and logging: input and output, abstracted to wires, acts and parameters.
- Clocks are arguments; in `ConnectionRuns` they need not even move forward, in `WaiterTiming` they must.
- `size_t` overflow and payloads of 2^32 bytes or more in C are preconditions; the truncated size field Rust and Go write for such payloads is modelled.
- A ping interval is a whole number of milliseconds; Go's conversion through floating-point seconds is taken as exact and cut to 32 bits.
- UTF-8 decoding itself, encoders and compressors: names are byte strings, payloads are opaque.
- Exceptions of the Python handler are result values; the reason texts are not modelled.
- CBuffer.Heap.Realloc: does not model a block growing in place; the bytes moved are counted as if every reallocation moved the whole old block, so the bound on them is an upper bound.
- GoProtocol.ProtocolReader.Read: the shared scratch buffer and the pooled payload buffers are values here, so reuse of their memory is not modelled; after a failure other than the end of the stream the rest of it is not specified.
- CStream.Feeder.Feed: feeds again after an allocation failure, as the decoder's state allows; the Python handler resets instead, and `PyStreamHandler` models that.
- The future a `ResponseWaiter` hands its caller, which races the deadline against the channel: waiters are followed up to what is sent on the channel.
- ConnectionRuns.AnswersAreRight: that no id is still in use when a request is sent is its condition, shown for the first 2^32 draws; `WaiterTiming` shows the waiters' part of it from timing for runs of any length, the part on the wires and at the server is left to the condition.
- A closed side's unfinished futures are dropped with their results, and frames still on a closed wire stay there.
- Futures spawned for a server's pushes have no reply and are not followed.
- The Rust traits are the nullable client handler of `EventHandler` and the role of an `Endpoint`.
- The framed reader of the tokio library is not part of this model: `RustStream` drives the codec as such a reader does.
- HandshakeAgreement.Handshake: of the race between a Go server's write loop and the closing of its socket only the outcome is modelled, how many bytes of the GoAway left; Go's `Handshake` call, which returns no error even when it times out (go/conn.go:305), is left out.
- Go request, timeout and shutdown concurrency, worker and buffer pools, the Python socket session and its watcher, backoff, the Elixir frame builders: left out as input and output plumbing, scheduling, or easy duplicates.
