/**
 The stream handler of py/loqui/stream_handler.pyx: it feeds received bytes to the C decoder, turns whole frames into
 events, answers pings, and queues outgoing frames in a write buffer that is drained from the front.
 */
module PyStreamHandler {
  import opened Bytes
  import opened CBuffer
  import opened CDecoder
  import opened CEncoder
  import opened CStream
  import opened Settings
  import F = Framing

  const BIG_BUF_SIZE: nat := 1024 * 1024 * 2
  const INITIAL_BUFFER_SIZE: nat := 1024 * 512
  const SEQ_MAX: u32 := 0x1_0000_0000 - 2

  datatype Event =
    | Hello(flags: byte, version: byte, supportedEncodings: seq<Name>, supportedCompressions: seq<Name>)
    | HelloAck(flags: byte, pingInterval: u32, selectedEncoding: Name, selectedCompression: Name)
    | Ping(flags: byte, sequenceId: u32)
    | Pong(flags: byte, sequenceId: u32)
    | Request(flags: byte, sequenceId: u32, data: Option<seq<byte>>)
    | Response(flags: byte, sequenceId: u32, data: Option<seq<byte>>)
    | Push(flags: byte, data: Option<seq<byte>>)
    | GoAway(flags: byte, code: u16, reason: Option<seq<byte>>)
    | Error(flags: byte, code: u16, sequenceId: u32, data: Option<seq<byte>>)

  /** An empty payload is handed out as no payload. */
  function DataOf(payload: seq<byte>): Option<seq<byte>> {
    if payload == [] then None else Some(payload)
  }

  /** The event a frame becomes; none when a handshake payload is not exactly two settings. */
  function EventOf(f: F.Frame): Option<Event> {
    match f
    case Hello(flags, version, payload) =>
      var r := PyReadHello(payload);
      if r.None? then None else Some(Hello(flags, version, r.value.encodings, r.value.compressions))
    case HelloAck(flags, interval, payload) =>
      var r := PyReadAck(payload);
      if r.None? then None else Some(HelloAck(flags, interval, r.value.0, r.value.1))
    case Ping(flags, id) => Some(Ping(flags, id))
    case Pong(flags, id) => Some(Pong(flags, id))
    case Request(flags, id, payload) => Some(Request(flags, id, DataOf(payload)))
    case Response(flags, id, payload) => Some(Response(flags, id, DataOf(payload)))
    case Push(flags, payload) => Some(Push(flags, DataOf(payload)))
    case GoAway(flags, code, payload) => Some(GoAway(flags, code, DataOf(payload)))
    case Error(flags, id, code, payload) => Some(Error(flags, code, id, DataOf(payload)))
  }

  /** The events of a run of frames up to the first that cannot be read, and whether all could. */
  function Hear(fs: seq<F.Frame>): (seq<Event>, bool) {
    if fs == [] then ([], true)
    else if EventOf(fs[0]).None? then ([], false)
    else var (events, ok) := Hear(fs[1..]); ([EventOf(fs[0]).value] + events, ok)
  }

  /** The pong a frame is answered with, if it is a ping. */
  function PongFor(f: F.Frame): seq<byte> {
    if f.Ping? then F.Encode(F.Pong(f.flags, f.sequenceId)) else []
  }

  /** The pongs queued while these frames are dealt with. */
  function Echo(fs: seq<F.Frame>): seq<byte> {
    if fs == [] || EventOf(fs[0]).None? then [] else PongFor(fs[0]) + Echo(fs[1..])
  }

  // ---------- buffers that are let go when they have grown big ----------

  // A buffer that holds no block has no capacity.

  method ResetBuffer(heap: Heap, b: Buffer)
    requires b.Valid()
    modifies b, heap
    ensures b.Valid() && b.length == 0 && (fresh(b.buf) || b.buf == old(b.buf))
    ensures b.allocatedSize == if old(b.allocatedSize) > 0 then old(b.allocatedSize)
        else if old(heap.NextFails()) then 0 else INITIAL_BUFFER_SIZE
    ensures heap.plan == if old(b.allocatedSize) > 0 then old(heap.plan) else Used(old(heap.plan))
  {
    if b.allocatedSize > 0 {
      b.length := 0;
    } else {
      var block := heap.Malloc(INITIAL_BUFFER_SIZE);
      if block == null { b.length := 0; return; }
      b.buf, b.allocatedSize, b.length := block, INITIAL_BUFFER_SIZE, 0;
    }
  }

  method FreeBigBuffer(b: Buffer)
    requires b.Valid()
    modifies b
    ensures b.Valid() && b.length == 0 && (fresh(b.buf) || b.buf == old(b.buf))
    ensures b.allocatedSize == if old(b.allocatedSize) >= BIG_BUF_SIZE then 0 else old(b.allocatedSize)
  {
    if b.allocatedSize >= BIG_BUF_SIZE {
      b.buf, b.length, b.allocatedSize := new byte[0], 0, 0;
    } else {
      b.length := 0;
    }
  }

  datatype Received = Events(events: seq<Event>) | DecoderError | BadSettings | NoMemory

  /** What sending a numbered frame answers. The functions are declared to answer 0 only in error, so that the caller
      of one that queued its frame under the number 0 sees an error all the same. */
  datatype Sent = Numbered(n: u32) | TakenForError | OutOfMemory

  datatype Consumed = Got(event: Event) | Unreadable | NoRoom

  class LoquiStreamHandler {
    var lastSeq: u32
    const decodeBuffer: Decoder
    const writeBuffer: Buffer
    var writeBufferPosition: nat

    ghost predicate Valid()
      reads this, decodeBuffer, decodeBuffer.buffer, decodeBuffer.buffer.buf, writeBuffer, writeBuffer.buf
      ensures Valid() ==>
                decodeBuffer.Valid() && decodeBuffer.buffer.Valid() && writeBuffer.Valid()
                && writeBufferPosition <= writeBuffer.length
    {
      && decodeBuffer.Valid() && writeBuffer.Valid() && writeBufferPosition <= writeBuffer.length && lastSeq < SEQ_MAX
      && writeBuffer != decodeBuffer.buffer && writeBuffer.buf != decodeBuffer.buffer.buf
    }

    /** The bytes of the frame being received. */
    function Seen(): seq<byte>
      requires decodeBuffer.buffer.Valid()
      reads decodeBuffer, decodeBuffer.buffer, decodeBuffer.buffer.buf
    {
      decodeBuffer.Seen()
    }

    /** What is queued and not yet taken to be written. */
    function Unwritten(): seq<byte>
      requires writeBuffer.Valid() && writeBufferPosition <= writeBuffer.length
      reads this, writeBuffer, writeBuffer.buf
    {
      writeBuffer.Contents()[writeBufferPosition..]
    }

    constructor (heap: Heap)
      modifies heap
      ensures Valid() && Seen() == [] && Unwritten() == [] && lastSeq == 0 && !decodeBuffer.decodeComplete
          && decodeBuffer.Tight()
      ensures fresh(decodeBuffer) && fresh(decodeBuffer.buffer) && fresh(decodeBuffer.buffer.buf) && fresh(writeBuffer)
          && fresh(writeBuffer.buf)
      ensures NoFailure(old(heap.plan)) ==> NoFailure(heap.plan)
    {
      lastSeq, writeBufferPosition := 0, 0;
      writeBuffer := new Buffer();
      decodeBuffer := new Decoder();
      new;
      ResetBuffer(heap, writeBuffer);
      ResetBuffer(heap, decodeBuffer.buffer);
    }

    // ---------- the write side ----------

    /** Sequence numbers count up from 1; at SEQ_MAX they start over at 0. */
    method NextSeq() returns (n: u32)
      requires lastSeq < SEQ_MAX
      modifies this`lastSeq
      ensures n == lastSeq < SEQ_MAX && (n == 0 || n == old(lastSeq) + 1) && (n == 0 <==> old(lastSeq) == SEQ_MAX - 1)
    {
      lastSeq := lastSeq + 1;
      n := lastSeq;
      if n >= SEQ_MAX { lastSeq, n := 0, 0; }
    }

    /** Queues a frame; when memory runs out nothing is queued, or only the frame's header. */
    method Enqueue(heap: Heap, f: F.Frame) returns (ok: bool)
      requires Valid() && |f.Payload()| < U32_COUNT && (f.Hello? ==> f.version == F.VERSION)
      modifies writeBuffer, writeBuffer.buf, heap
      ensures Valid() && (fresh(writeBuffer.buf) || writeBuffer.buf == old(writeBuffer.buf))
      ensures Appended(old(Unwritten()), Unwritten(), f, if ok then 0 else -1)
      ensures NoFailure(old(heap.plan)) ==> ok && NoFailure(heap.plan)
    {
      hide F.Encode, F.Header, NoFailure, Decoder.Sound;
      ghost var before := writeBuffer.Contents();
      var rv := CEncoder.Append(heap, writeBuffer, f);
      DropAppended(before, writeBuffer.Contents(), writeBufferPosition, f, rv);
      ok := rv >= 0;
    }

    method SendPing(heap: Heap, flags: byte) returns (r: Sent)
      requires Valid()
      modifies this`lastSeq, writeBuffer, writeBuffer.buf, heap
      ensures Valid() && (fresh(writeBuffer.buf) || writeBuffer.buf == old(writeBuffer.buf))
      ensures lastSeq == if old(lastSeq) == SEQ_MAX - 1 then 0 else old(lastSeq) + 1
      ensures r == OutOfMemory || r == if lastSeq == 0 then TakenForError else Numbered(lastSeq)
      ensures Appended(old(Unwritten()), Unwritten(), F.Ping(flags, lastSeq), if r == OutOfMemory then -1 else 0)
      ensures NoFailure(old(heap.plan)) ==> r != OutOfMemory && NoFailure(heap.plan)
    {
      hide F.Encode, F.Header, NoFailure, Decoder.Sound;
      var n := NextSeq();
      var ok := Enqueue(heap, F.Ping(flags, n));
      r := if !ok then OutOfMemory else if n == 0 then TakenForError else Numbered(n);
    }

    method SendPong(heap: Heap, flags: byte, sequenceId: u32) returns (ok: bool)
      requires Valid()
      modifies writeBuffer, writeBuffer.buf, heap
      ensures Valid() && (fresh(writeBuffer.buf) || writeBuffer.buf == old(writeBuffer.buf))
      ensures Appended(old(Unwritten()), Unwritten(), F.Pong(flags, sequenceId), if ok then 0 else -1)
      ensures NoFailure(old(heap.plan)) ==> ok && NoFailure(heap.plan)
    {
      hide F.Encode, F.Header, NoFailure, Decoder.Sound;
      ok := Enqueue(heap, F.Pong(flags, sequenceId));
    }

    method SendRequest(heap: Heap, flags: byte, data: seq<byte>) returns (r: Sent)
      requires Valid() && |data| < U32_COUNT
      modifies this`lastSeq, writeBuffer, writeBuffer.buf, heap
      ensures Valid() && (fresh(writeBuffer.buf) || writeBuffer.buf == old(writeBuffer.buf))
      ensures lastSeq == if old(lastSeq) == SEQ_MAX - 1 then 0 else old(lastSeq) + 1
      ensures r == OutOfMemory || r == if lastSeq == 0 then TakenForError else Numbered(lastSeq)
      ensures Appended(old(Unwritten()), Unwritten(), F.Request(flags, lastSeq, data), if r == OutOfMemory then -1
          else 0)
      ensures NoFailure(old(heap.plan)) ==> r != OutOfMemory && NoFailure(heap.plan)
    {
      hide F.Encode, F.Header, NoFailure, Decoder.Sound;
      var n := NextSeq();
      var ok := Enqueue(heap, F.Request(flags, n, data));
      r := if !ok then OutOfMemory else if n == 0 then TakenForError else Numbered(n);
    }

    method SendPush(heap: Heap, flags: byte, data: seq<byte>) returns (ok: bool)
      requires Valid() && |data| < U32_COUNT
      modifies writeBuffer, writeBuffer.buf, heap
      ensures Valid() && (fresh(writeBuffer.buf) || writeBuffer.buf == old(writeBuffer.buf))
      ensures Appended(old(Unwritten()), Unwritten(), F.Push(flags, data), if ok then 0 else -1)
      ensures NoFailure(old(heap.plan)) ==> ok && NoFailure(heap.plan)
    {
      hide F.Encode, F.Header, NoFailure, Decoder.Sound;
      ok := Enqueue(heap, F.Push(flags, data));
    }

    method SendHello(heap: Heap, flags: byte, encodings: seq<Name>, compressors: seq<Name>) returns (ok: bool)
      requires Valid() && |PrintHello(Lists(encodings, compressors))| < U32_COUNT
      modifies writeBuffer, writeBuffer.buf, heap
      ensures Valid() && (fresh(writeBuffer.buf) || writeBuffer.buf == old(writeBuffer.buf))
      ensures Appended(old(Unwritten()), Unwritten(),
          F.Hello(flags, F.VERSION, PrintHello(Lists(encodings, compressors))), if ok then 0 else -1)
      ensures NoFailure(old(heap.plan)) ==> ok && NoFailure(heap.plan)
    {
      hide F.Encode, F.Header, NoFailure, Decoder.Sound;
      ok := Enqueue(heap, F.Hello(flags, F.VERSION, PrintHello(Lists(encodings, compressors))));
    }

    method SendHelloAck(heap: Heap, flags: byte, pingInterval: u32, encoding: Name, compressor: Option<Name>)
        returns (ok: bool)
      requires Valid() && |PrintAck(encoding, OrEmpty(compressor))| < U32_COUNT
      modifies writeBuffer, writeBuffer.buf, heap
      ensures Valid() && (fresh(writeBuffer.buf) || writeBuffer.buf == old(writeBuffer.buf))
      ensures Appended(old(Unwritten()), Unwritten(),
          F.HelloAck(flags, pingInterval, PrintAck(encoding, OrEmpty(compressor))), if ok then 0 else -1)
      ensures NoFailure(old(heap.plan)) ==> ok && NoFailure(heap.plan)
    {
      hide F.Encode, F.Header, NoFailure, Decoder.Sound;
      ok := Enqueue(heap, F.HelloAck(flags, pingInterval, PrintAck(encoding, OrEmpty(compressor))));
    }

    method SendResponse(heap: Heap, flags: byte, sequenceId: u32, data: seq<byte>) returns (ok: bool)
      requires Valid() && |data| < U32_COUNT
      modifies writeBuffer, writeBuffer.buf, heap
      ensures Valid() && (fresh(writeBuffer.buf) || writeBuffer.buf == old(writeBuffer.buf))
      ensures Appended(old(Unwritten()), Unwritten(), F.Response(flags, sequenceId, data), if ok then 0 else -1)
      ensures NoFailure(old(heap.plan)) ==> ok && NoFailure(heap.plan)
    {
      hide F.Encode, F.Header, NoFailure, Decoder.Sound;
      ok := Enqueue(heap, F.Response(flags, sequenceId, data));
    }

    method SendError(heap: Heap, flags: byte, code: u16, sequenceId: u32, data: seq<byte>) returns (ok: bool)
      requires Valid() && |data| < U32_COUNT
      modifies writeBuffer, writeBuffer.buf, heap
      ensures Valid() && (fresh(writeBuffer.buf) || writeBuffer.buf == old(writeBuffer.buf))
      ensures Appended(old(Unwritten()), Unwritten(), F.Error(flags, sequenceId, code, data), if ok then 0 else -1)
      ensures NoFailure(old(heap.plan)) ==> ok && NoFailure(heap.plan)
    {
      hide F.Encode, F.Header, NoFailure, Decoder.Sound;
      ok := Enqueue(heap, F.Error(flags, sequenceId, code, data));
    }

    method SendGoAway(heap: Heap, flags: byte, code: u16, reason: seq<byte>) returns (ok: bool)
      requires Valid() && |reason| < U32_COUNT
      modifies writeBuffer, writeBuffer.buf, heap
      ensures Valid() && (fresh(writeBuffer.buf) || writeBuffer.buf == old(writeBuffer.buf))
      ensures Appended(old(Unwritten()), Unwritten(), F.GoAway(flags, code, reason), if ok then 0 else -1)
      ensures NoFailure(old(heap.plan)) ==> ok && NoFailure(heap.plan)
    {
      hide F.Encode, F.Header, NoFailure, Decoder.Sound;
      ok := Enqueue(heap, F.GoAway(flags, code, reason));
    }

    function WriteBufferLen(): (n: nat)
      requires writeBuffer.Valid() && writeBufferPosition <= writeBuffer.length
      reads this, writeBuffer, writeBuffer.buf
      ensures n == |Unwritten()|
    {
      writeBuffer.length - writeBufferPosition
    }

    /** Takes bytes off the front of what is queued, or only looks at them. */
    method WriteBufferGetBytes(heap: Heap, length: nat, consume: bool) returns (bytes: Option<seq<byte>>)
      requires Valid()
      modifies this`writeBufferPosition, writeBuffer, writeBuffer.buf, heap
      ensures Valid() && (fresh(writeBuffer.buf) || writeBuffer.buf == old(writeBuffer.buf))
      ensures var n := if length > |old(Unwritten())| then |old(Unwritten())| else length;
              && bytes == (if n == 0 then None else Some(old(Unwritten())[..n]))
              && Unwritten() == old(Unwritten())[if consume then n else 0..]
      ensures NoFailure(old(heap.plan)) ==> NoFailure(heap.plan)
    {
      hide NoFailure, Decoder.Sound;
      var n := length;
      if n > WriteBufferLen() { n := WriteBufferLen(); }
      if n == 0 { return None; }
      bytes := Some(writeBuffer.buf[writeBufferPosition..writeBufferPosition + n]);
      assert bytes.value == Unwritten()[..n];
      if consume {
        Advance(n);
        ResetOrCompactWriteBuf(heap);
      }
    }

    method WriteBufferConsumeBytes(heap: Heap, length: nat) returns (left: nat)
      requires Valid()
      modifies this`writeBufferPosition, writeBuffer, writeBuffer.buf, heap
      ensures Valid() && (fresh(writeBuffer.buf) || writeBuffer.buf == old(writeBuffer.buf))
      ensures var n := if length > |old(Unwritten())| then |old(Unwritten())| else length;
              Unwritten() == old(Unwritten())[n..] && left == |Unwritten()|
      ensures NoFailure(old(heap.plan)) ==> NoFailure(heap.plan)
    {
      hide NoFailure, Decoder.Sound;
      var n := length;
      if n > WriteBufferLen() { n := WriteBufferLen(); }
      left := WriteBufferLen() - n;
      Advance(n);
      ResetOrCompactWriteBuf(heap);
    }

    method Advance(n: nat)
      requires Valid() && n <= |Unwritten()|
      modifies this`writeBufferPosition
      ensures Valid() && Unwritten() == old(Unwritten())[n..] && writeBufferPosition == old(writeBufferPosition) + n
    {
      hide Decoder.Sound;
      ghost var all := writeBuffer.Contents();
      assert all[writeBufferPosition..][n..] == all[writeBufferPosition + n..];
      writeBufferPosition := writeBufferPosition + n;
    }

    /** Everything written: start over, without a block that has grown big. Otherwise, once more than half the block
        lies behind the position, move the rest to the front; the two ranges of that copy never overlap. What is
        queued stays. */
    method ResetOrCompactWriteBuf(heap: Heap)
      requires Valid()
      modifies this`writeBufferPosition, writeBuffer, writeBuffer.buf, heap
      ensures Valid() && (fresh(writeBuffer.buf) || writeBuffer.buf == old(writeBuffer.buf))
      ensures Unwritten() == old(Unwritten())
      ensures Unwritten() == [] ==> writeBufferPosition == 0 && writeBuffer.allocatedSize < BIG_BUF_SIZE
      ensures 2 * writeBufferPosition <= writeBuffer.allocatedSize
      ensures NoFailure(old(heap.plan)) ==> NoFailure(heap.plan)
    {
      hide NoFailure, Decoder.Sound;
      if writeBufferPosition == writeBuffer.length {
        FreeBigBuffer(writeBuffer);
        ResetBuffer(heap, writeBuffer);
        writeBufferPosition := 0;
      } else if writeBuffer.length > writeBufferPosition > writeBuffer.allocatedSize / 2 {
        var n := writeBuffer.length - writeBufferPosition;
        assert n <= writeBufferPosition;
        forall i | 0 <= i < n {
          writeBuffer.buf[i] := writeBuffer.buf[writeBufferPosition + i];
        }
        writeBuffer.length := n;
        writeBufferPosition := 0;
      }
    }

    // ---------- the read side ----------

    method ResetDecodeBuf(heap: Heap)
      requires decodeBuffer.buffer.Valid() && decodeBuffer.buffer.allocatedSize <= 2 * (LONGEST_HEADER + DATA_SIZE_MAX)
      modifies decodeBuffer, decodeBuffer.buffer, heap
      ensures decodeBuffer.Valid() && Seen() == [] && !decodeBuffer.decodeComplete
      ensures decodeBuffer.Tight() && decodeBuffer.buffer.allocatedSize < BIG_BUF_SIZE
      ensures fresh(decodeBuffer.buffer.buf) || decodeBuffer.buffer.buf == old(decodeBuffer.buffer.buf)
      ensures NoFailure(old(heap.plan)) ==> NoFailure(heap.plan)
    {
      hide NoFailure;
      decodeBuffer.Reset();
      FreeBigBuffer(decodeBuffer.buffer);
      ResetBuffer(heap, decodeBuffer.buffer);
    }

    /** Turns the finished frame into its event and makes room for the next one; a ping is answered on the way. A frame
        that cannot be read, or answered, stays where it is. */
    method ConsumeDecodeBuffer(heap: Heap) returns (r: Consumed)
      requires Valid() && decodeBuffer.decodeComplete
      modifies this, decodeBuffer, decodeBuffer.buffer, decodeBuffer.buffer.buf, writeBuffer, writeBuffer.buf, heap
      ensures Valid() && lastSeq == old(lastSeq)
      ensures fresh(decodeBuffer.buffer.buf) || decodeBuffer.buffer.buf == old(decodeBuffer.buffer.buf)
      ensures fresh(writeBuffer.buf) || writeBuffer.buf == old(writeBuffer.buf)
      ensures var f := F.Fields(old(Seen()));
              match r
              case Got(event) =>
                EventOf(f) == Some(event) && Seen() == [] && !decodeBuffer.decodeComplete
                    && Unwritten() == old(Unwritten()) + PongFor(f)
              case Unreadable =>
                EventOf(f) == None && Seen() == old(Seen()) && decodeBuffer.decodeComplete
                && Unwritten() == old(Unwritten())
              case NoRoom =>
                EventOf(f) != None && f.Ping? && !NoFailure(old(heap.plan)) && Seen() == old(Seen())
                && decodeBuffer.decodeComplete
      ensures NoFailure(old(heap.plan)) ==> NoFailure(heap.plan)
      ensures r.Got? || old(decodeBuffer.Tight()) ==> decodeBuffer.Tight()
    {
      hide NoFailure, F.Fields, F.Encode, F.Header, Decoder.Sound, Decoder.Tight, Split;
      ghost var queued := Unwritten();
      var frame := decodeBuffer.TakeFrame(DATA_SIZE_MAX);
      var event: Event;
      match frame {
        case Response(flags, id, payload) => event := Response(flags, id, DataOf(payload));
        case Request(flags, id, payload) => event := Request(flags, id, DataOf(payload));
        case Push(flags, payload) => event := Push(flags, DataOf(payload));
        case Ping(flags, id) =>
          event := Ping(flags, id);
          var ok := SendPong(heap, flags, id);
          if !ok { return NoRoom; }
        case Pong(flags, id) => event := Pong(flags, id);
        case GoAway(flags, code, payload) => event := GoAway(flags, code, DataOf(payload));
        case Hello(flags, version, payload) =>
          var settings := Split(payload, BAR);
          if |settings| != 2 { return Unreadable; }
          event := Hello(flags, version, Split(settings[0], COMMA), Split(settings[1], COMMA));
        case HelloAck(flags, interval, payload) =>
          var settings := Split(payload, BAR);
          if |settings| != 2 { return Unreadable; }
          event := HelloAck(flags, interval, settings[0], settings[1]);
        case Error(flags, id, code, payload) => event := Error(flags, code, id, DataOf(payload));
      }
      assert Unwritten() == queued + PongFor(frame);
      ResetDecodeBuf(heap);
      r := Got(event);
    }

    /** One round of the receive loop: one call of the decoder, and the event of the frame it finished, if it did. */
    method Round(heap: Heap, rest: seq<byte>) returns (r: Received, k: nat)
      requires Valid() && rest != []
      modifies this, decodeBuffer, decodeBuffer.buffer, decodeBuffer.buffer.buf, writeBuffer, writeBuffer.buf, heap
      ensures Valid() && lastSeq == old(lastSeq)
      ensures fresh(decodeBuffer.buffer.buf) || decodeBuffer.buffer.buf == old(decodeBuffer.buffer.buf)
      ensures fresh(writeBuffer.buf) || writeBuffer.buf == old(writeBuffer.buf)
      ensures k <= |rest| && (r.Events? ==> k > 0 || old(decodeBuffer.decodeComplete))
          && (r == Events([]) ==> k == |rest|)
      ensures var p := F.ParseAll(old(Seen()) + rest, DATA_SIZE_MAX);
              match r
              case Events(events) =>
                var tail := F.ParseAll(Seen() + rest[k..], DATA_SIZE_MAX);
                && Hear(p.frames) == (events + Hear(tail.frames).0, Hear(tail.frames).1) && tail.end == p.end
                && old(Unwritten()) + Echo(p.frames) == Unwritten() + Echo(tail.frames) && !decodeBuffer.decodeComplete
              case DecoderError =>
                Seen() == [] && !decodeBuffer.decodeComplete && Unwritten() == old(Unwritten())
                && (NoFailure(old(heap.plan)) ==> p.frames == [] && p.end.Refused?)
              case BadSettings =>
                Hear(p.frames) == ([], false) && Echo(p.frames) == [] && decodeBuffer.decodeComplete
                && Unwritten() == old(Unwritten())
              case NoMemory => !NoFailure(old(heap.plan)) && decodeBuffer.decodeComplete
      ensures NoFailure(old(heap.plan)) ==> NoFailure(heap.plan) && (old(decodeBuffer.Tight()) ==> decodeBuffer.Tight())
    {
      hide NoFailure, F.Next, F.Fields, F.ParseAll, EventOf, PongFor, Fed, Decoder.Sound, Decoder.Tight, Decoder.Seen,
          Decoder.Bounded;
      ghost var pre, queued := Seen(), Unwritten();
      if !decodeBuffer.decodeComplete { decodeBuffer.UnfinishedIsMore(); }
      var status;
      status, k := decodeBuffer.ReadData(heap, rest, 0, DATA_SIZE_MAX);
      ghost var post := Seen();
      FedParse(pre, rest, k, status, post);
      if status == Complete {
        ghost var tail := F.ParseAll(rest[k..], DATA_SIZE_MAX);
        HearFirst(F.Fields(post), tail.frames);
        var c := ConsumeDecodeBuffer(heap);
        match c {
          case Got(event) =>
            r := Events([event]);
            assert Seen() + rest[k..] == rest[k..];
            Assoc(queued, PongFor(F.Fields(post)), Echo(tail.frames));
          case Unreadable => r := BadSettings;
          case NoRoom => r := NoMemory;
        }
      } else if status == NeedsMore {
        r := Events([]);
        assert [] + Hear(F.ParseAll(pre + rest, DATA_SIZE_MAX).frames).0
            == Hear(F.ParseAll(pre + rest, DATA_SIZE_MAX).frames).0;
      } else {
        ResetDecodeBuf(heap);
        r := DecoderError;
      }
    }

    /** Feeds received bytes and returns the events of the frames they finish. A decoder failure resets the decoder
        and raises: the events collected in this call and the bytes not yet consumed are gone. A handshake frame that
        cannot be read raises and stays, so that every later call with bytes raises again. */
    method OnBytesReceived(heap: Heap, data: seq<byte>) returns (r: Received)
      requires Valid()
      modifies this, decodeBuffer, decodeBuffer.buffer, decodeBuffer.buffer.buf, writeBuffer, writeBuffer.buf, heap
      ensures Valid() && lastSeq == old(lastSeq)
      ensures fresh(decodeBuffer.buffer.buf) || decodeBuffer.buffer.buf == old(decodeBuffer.buffer.buf)
      ensures fresh(writeBuffer.buf) || writeBuffer.buf == old(writeBuffer.buf)
      ensures data == [] ==>
                r == Events([]) && Seen() == old(Seen()) && Unwritten() == old(Unwritten())
                    && decodeBuffer.decodeComplete == old(decodeBuffer.decodeComplete)
      ensures data != [] ==>
                var p := F.ParseAll(old(Seen()) + data, DATA_SIZE_MAX);
                var queued := old(Unwritten()) + Echo(p.frames);
                match r
                case Events(events) =>
                  Hear(p.frames) == (events, true) && p.end == F.Pending(Seen()) && !decodeBuffer.decodeComplete
                      && Unwritten() == queued
                case DecoderError =>
                  Seen() == [] && !decodeBuffer.decodeComplete
                  && (NoFailure(old(heap.plan)) ==> Hear(p.frames).1 && p.end.Refused? && Unwritten() == queued)
                case BadSettings => !Hear(p.frames).1 && decodeBuffer.decodeComplete && Unwritten() == queued
                case NoMemory => !NoFailure(old(heap.plan)) && decodeBuffer.decodeComplete
      ensures NoFailure(old(heap.plan)) ==> NoFailure(heap.plan) && (old(decodeBuffer.Tight()) ==> decodeBuffer.Tight())
    {
      hide NoFailure, F.Next, F.Fields, F.ParseAll, Hear, Echo, Decoder.Sound, Decoder.Tight, Decoder.Seen;
      HearNothing();
      var pos := 0;
      var events: seq<Event> := [];
      ghost var all := F.ParseAll(Seen() + data, DATA_SIZE_MAX);
      assert data[0..] == data && [] + Hear(all.frames).0 == Hear(all.frames).0;
      while pos < |data|
        invariant pos <= |data| && Valid() && lastSeq == old(lastSeq)
        invariant fresh(decodeBuffer.buffer.buf) || decodeBuffer.buffer.buf == old(decodeBuffer.buffer.buf)
        invariant fresh(writeBuffer.buf) || writeBuffer.buf == old(writeBuffer.buf)
        invariant data == [] ==>
                  events == [] && Seen() == old(Seen()) && Unwritten() == old(Unwritten())
                  && decodeBuffer.decodeComplete == old(decodeBuffer.decodeComplete)
        invariant pos > 0 ==> !decodeBuffer.decodeComplete
        invariant var tail := F.ParseAll(Seen() + data[pos..], DATA_SIZE_MAX);
                  && Hear(all.frames) == (events + Hear(tail.frames).0, Hear(tail.frames).1) && tail.end == all.end
                  && old(Unwritten()) + Echo(all.frames) == Unwritten() + Echo(tail.frames)
        invariant NoFailure(old(heap.plan))
            ==> NoFailure(heap.plan) && (old(decodeBuffer.Tight()) ==> decodeBuffer.Tight())
        decreases |data| - pos, if decodeBuffer.decodeComplete then 1 else 0
      {
        ghost var tail := F.ParseAll(Seen() + data[pos..], DATA_SIZE_MAX);
        var round, k := Round(heap, data[pos..]);
        assert data[pos..][k..] == data[pos + k..];
        match round {
          case Events(more) =>
            Assoc(events, more, Hear(F.ParseAll(Seen() + data[pos + k..], DATA_SIZE_MAX).frames).0);
            events, pos := events + more, pos + k;
          case _ =>
            assert Unwritten() + [] == Unwritten();
            return round;
        }
      }
      if data != [] {
        decodeBuffer.UnfinishedIsMore();
        assert Seen() + data[pos..] == Seen();
        ParseMore(Seen());
        assert events + [] == events && Unwritten() + [] == Unwritten();
      }
      r := Events(events);
    }
  }

  lemma HearNothing()
    ensures Hear([]) == ([], true) && Echo([]) == []
  {
  }

  lemma HearFirst(f: F.Frame, rest: seq<F.Frame>)
    ensures var fs := [f] + rest;
            if EventOf(f).None? then Hear(fs) == ([], false) && Echo(fs) == []
            else Hear(fs) == ([EventOf(f).value] + Hear(rest).0, Hear(rest).1) && Echo(fs) == PongFor(f) + Echo(rest)
  {
    hide EventOf, PongFor;
    assert ([f] + rest)[1..] == rest;
  }

  lemma DropAppended(before: seq<byte>, after: seq<byte>, n: nat, f: F.Frame, rv: int)
    requires n <= |before| && Appended(before, after, f, rv)
    ensures n <= |after| && Appended(before[n..], after[n..], f, rv) && (rv == 0 || rv == -1)
  {
    hide F.Encode, F.Header;
  }
}
