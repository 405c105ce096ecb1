/** The whole-buffer codec of rust/loqui_protocol: codec.rs and frames.rs. */
module RustCodec {
  import opened Bytes
  import opened Settings
  import F = Framing

  datatype LoquiFrame =
    | Hello(flags: byte, version: byte, encodings: seq<Name>, compressions: seq<Name>)
    | HelloAck(flags: byte, pingIntervalMs: u32, encoding: Name, compression: Option<Name>)
    | Ping(flags: byte, sequenceId: u32)
    | Pong(flags: byte, sequenceId: u32)
    | Request(flags: byte, sequenceId: u32, payload: seq<byte>)
    | Response(flags: byte, sequenceId: u32, payload: seq<byte>)
    | Push(flags: byte, payload: seq<byte>)
    | GoAway(flags: byte, code: u16, payload: seq<byte>)
    | Error(flags: byte, sequenceId: u32, code: u16, payload: seq<byte>)

  datatype ProtocolError =
    | InvalidOpcode(opcode: byte)
    | InvalidPayload
    | PayloadTooLarge(actual: u32, max: u32)

  datatype Result<+T, +E> = Ok(value: T) | Err(error: E)

  type Decoded = Result<Option<LoquiFrame>, ProtocolError>

  // ---------- the frame table of frames.rs ----------

  const HELLO_OPCODE: byte := 1
  const HELLO_ACK_OPCODE: byte := 2
  const PING_OPCODE: byte := 3
  const PONG_OPCODE: byte := 4
  const REQUEST_OPCODE: byte := 5
  const RESPONSE_OPCODE: byte := 6
  const PUSH_OPCODE: byte := 7
  const GO_AWAY_OPCODE: byte := 8
  const ERROR_OPCODE: byte := 9

  /** `LoquiFrame::opcode`: Rust's own numbers are the shared ones. */
  function OpcodeOf(f: LoquiFrame): (opcode: byte)
    ensures opcode == F.Opcode(ToWire(f))
  {
    match f
    case Hello(_, _, _, _) => HELLO_OPCODE
    case HelloAck(_, _, _, _) => HELLO_ACK_OPCODE
    case Ping(_, _) => PING_OPCODE
    case Pong(_, _) => PONG_OPCODE
    case Request(_, _, _) => REQUEST_OPCODE
    case Response(_, _, _) => RESPONSE_OPCODE
    case Push(_, _) => PUSH_OPCODE
    case GoAway(_, _, _) => GO_AWAY_OPCODE
    case Error(_, _, _, _) => ERROR_OPCODE
  }

  function HeaderSizeInBytes(opcode: byte): nat {
    match opcode
    case 1 => 7
    case 2 => 10
    case 3 => 6
    case 4 => 6
    case 5 => 10
    case 6 => 10
    case 7 => 6
    case 8 => 8
    case 9 => 12
    case _ => 0
  }

  function ReadPayloadSize(buf: seq<byte>): u32
    requires buf != [] && 0 < HeaderSizeInBytes(buf[0]) <= |buf|
  {
    match buf[0]
    case 1 => Load32(buf, 3)
    case 2 => Load32(buf, 6)
    case 5 => Load32(buf, 6)
    case 6 => Load32(buf, 6)
    case 7 => Load32(buf, 2)
    case 8 => Load32(buf, 4)
    case 9 => Load32(buf, 8)
    case _ => 0
  }

  /** `from_buf` of the frame the first byte names. `utf8` says which byte strings are valid text. */
  function FromBuf(buf: seq<byte>, utf8: seq<byte> -> bool): Decoded
    requires buf != [] && 0 < HeaderSizeInBytes(buf[0]) <= |buf|
  {
    match buf[0]
    case 1 =>
      var text := buf[7..];
      if !utf8(text) then Err(InvalidPayload)
      else if RustReadHello(text).None? then Err(InvalidPayload)
      else var lists := RustReadHello(text).value; Ok(Some(Hello(buf[1], buf[2], lists.encodings, lists.compressions)))
    case 2 =>
      var text := buf[10..];
      if !utf8(text) then Err(InvalidPayload)
      else if RustReadAck(text).None? then Err(InvalidPayload)
      else var choice := RustReadAck(text).value; Ok(Some(HelloAck(buf[1], Load32(buf, 2), choice.encoding,
          choice.compression)))
    case 3 => Ok(Some(Ping(buf[1], Load32(buf, 2))))
    case 4 => Ok(Some(Pong(buf[1], Load32(buf, 2))))
    case 5 => Ok(Some(Request(buf[1], Load32(buf, 2), buf[10..])))
    case 6 => Ok(Some(Response(buf[1], Load32(buf, 2), buf[10..])))
    case 7 => Ok(Some(Push(buf[1], buf[6..])))
    case 8 => Ok(Some(GoAway(buf[1], Load16(buf, 2), buf[8..])))
    case _ => Ok(Some(Error(buf[1], Load32(buf, 2), Load16(buf, 6), buf[12..])))
  }

  // ---------- what the codec stands for ----------

  /** A Rust frame with its settings printed: the wire frame it is sent as. */
  function ToWire(f: LoquiFrame): F.Frame {
    match f
    case Hello(flags, version, enc, comp) => F.Hello(flags, version, PrintHello(Lists(enc, comp)))
    case HelloAck(flags, interval, enc, comp) => F.HelloAck(flags, interval, PrintAck(enc, OrEmpty(comp)))
    case Ping(flags, id) => F.Ping(flags, id)
    case Pong(flags, id) => F.Pong(flags, id)
    case Request(flags, id, payload) => F.Request(flags, id, payload)
    case Response(flags, id, payload) => F.Response(flags, id, payload)
    case Push(flags, payload) => F.Push(flags, payload)
    case GoAway(flags, code, payload) => F.GoAway(flags, code, payload)
    case Error(flags, id, code, payload) => F.Error(flags, id, code, payload)
  }

  /** A wire frame with its settings read. */
  function FromWire(f: F.Frame, utf8: seq<byte> -> bool): (r: Decoded)
    ensures (r.Ok? && r.value.Some?) || r == Err(InvalidPayload)
  {
    match f
    case Hello(flags, version, text) =>
      var r := RustReadHello(text);
      if utf8(text) && r.Some? then Ok(Some(Hello(flags, version, r.value.encodings, r.value.compressions)))
          else Err(InvalidPayload)
    case HelloAck(flags, interval, text) =>
      var r := RustReadAck(text);
      if utf8(text) && r.Some? then Ok(Some(HelloAck(flags, interval, r.value.encoding, r.value.compression)))
          else Err(InvalidPayload)
    case Ping(flags, id) => Ok(Some(Ping(flags, id)))
    case Pong(flags, id) => Ok(Some(Pong(flags, id)))
    case Request(flags, id, payload) => Ok(Some(Request(flags, id, payload)))
    case Response(flags, id, payload) => Ok(Some(Response(flags, id, payload)))
    case Push(flags, payload) => Ok(Some(Push(flags, payload)))
    case GoAway(flags, code, payload) => Ok(Some(GoAway(flags, code, payload)))
    case Error(flags, id, code, payload) => Ok(Some(Error(flags, id, code, payload)))
  }

  /** What decoding the front of a buffer answers and leaves, in terms of the shared framing. */
  function DecodeFront(s: seq<byte>, max: u32, utf8: seq<byte> -> bool): (Decoded, seq<byte>) {
    match F.Next(s, max)
    case More => (Ok(None), s)
    case BadOpcode(opcode) => (Err(InvalidOpcode(opcode)), s)
    case TooLarge(size) => (Err(PayloadTooLarge(size, max)), s)
    case Whole(n) => (FromWire(F.Fields(s[..n]), utf8), s[n..])
  }

  lemma MiddleLoads(raw: seq<byte>)
    requires raw != [] && 0 < F.HeaderLen(raw[0]) <= |raw|
    ensures var m := raw[2..2 + F.MiddleLen(raw[0])];
            && (|m| >= 4 ==> Load32(m, 0) == Load32(raw, 2))
            && (|m| == 2 ==> Load16(m, 0) == Load16(raw, 2))
            && (|m| == 6 ==> Load16(m, 4) == Load16(raw, 6))
            && (|m| == 1 ==> m[0] == raw[2])
  {
    hide Load32, Load16, F.HeaderLen;
    PartLoads(raw, 2, F.MiddleLen(raw[0]));
  }

  /** Reading a frame in place is reading its fields and then its settings. */
  lemma FromBufIsFromWire(raw: seq<byte>, utf8: seq<byte> -> bool)
    requires raw != [] && 0 < F.HeaderLen(raw[0]) <= |raw|
    ensures FromBuf(raw, utf8) == FromWire(F.Fields(raw), utf8)
  {
    hide Load32, Load16, RustReadHello, RustReadAck;
    MiddleLoads(raw);
  }

  /** These names, printed and perhaps ended with one comma more, are this setting. */
  predicate Spells(names: seq<Name>, setting: Name) {
    Join(names, COMMA) == setting || Join(names, COMMA) + [COMMA] == setting
  }

  /** The text is these two lists around its one bar. */
  ghost predicate SpelledBy(encodings: seq<Name>, compressions: seq<Name>, text: Name) {
    exists left, right ::
      && text == left + [BAR] + right && BAR !in left && BAR !in right
      && Spells(encodings, left) && Spells(compressions, right)
  }

  /** A frame is refused exactly when it is a Hello or HelloAck whose payload is not valid text or does not hold exactly
      one bar. Read, it has lost nothing, except that a comma at the end of a Hello's list leaves no trace. */
  lemma ReadingKeeps(f: F.Frame, utf8: seq<byte> -> bool)
    ensures FromWire(f, utf8).Err? <==> f.Handshake() && (!utf8(f.payload) || multiset(f.payload)[BAR] != 1)
    ensures FromWire(f, utf8).Ok? ==>
              var g := FromWire(f, utf8).value.value;
              && OpcodeOf(g) == F.Opcode(f) && g.flags == f.flags
              && (!f.Hello? ==> ToWire(g) == f)
              && (f.Hello? ==> g.Hello? && g.version == f.version && SpelledBy(g.encodings, g.compressions, f.payload))
  {
    hide Split, SplitTerminator, Join;
    BarsDecide(f.Payload());
    if f.HelloAck? {
      hide RustReadAck, PrintAck, OrEmpty;
      PrintedAgain(f.payload);
    } else if f.Hello? && FromWire(f, utf8).Ok? {
      var settings := Split(f.payload, BAR);
      FirstTwo(f.payload);
      Rejoined(settings[0]);
      Rejoined(settings[1]);
      assert f.payload == settings[0] + [BAR] + settings[1];
    }
  }

  class BytesMut {
    var data: seq<byte>

    constructor (data: seq<byte>)
      ensures this.data == data
    {
      this.data := data;
    }

    method PutU8(n: byte)
      modifies this
      ensures data == old(data) + [n]
    {
      data := data + [n];
    }

    method PutU16(n: u16)
      modifies this
      ensures data == old(data) + Store16(n)
    {
      data := data + Store16(n);
    }

    method PutU32(n: u32)
      modifies this
      ensures data == old(data) + Store32(n)
    {
      data := data + Store32(n);
    }

    method ExtendFromSlice(s: seq<byte>)
      modifies this
      ensures data == old(data) + s
    {
      data := data + s;
    }

    /** Takes the first `n` bytes off. */
    method SplitTo(n: nat) returns (front: seq<byte>)
      requires n <= |data|
      modifies this
      ensures front == old(data)[..n] && data == old(data)[n..]
    {
      front := data[..n];
      data := data[n..];
    }
  }

  class Codec {
    const maxPayloadSizeInBytes: u32

    /** The configured size is cast to 32 bits. */
    constructor (maxPayloadSize: nat)
      ensures maxPayloadSizeInBytes == maxPayloadSize % U32_COUNT
    {
      maxPayloadSizeInBytes := maxPayloadSize % U32_COUNT;
    }

    method PutHeader(f: LoquiFrame, dst: BytesMut)
      modifies dst
      ensures dst.data == old(dst.data) + [F.Opcode(ToWire(f)), f.flags] + F.Middle(ToWire(f))
    {
      hide Store32, Store16, PrintHello, PrintAck;
      dst.PutU8(OpcodeOf(f));
      dst.PutU8(f.flags);
      match f
      case Hello(_, version, _, _) => dst.PutU8(version);
      case HelloAck(_, interval, _, _) => dst.PutU32(interval);
      case Ping(_, id) => dst.PutU32(id);
      case Pong(_, id) => dst.PutU32(id);
      case Request(_, id, _) => dst.PutU32(id);
      case Response(_, id, _) => dst.PutU32(id);
      case Push(_, _) =>
      case GoAway(_, code, _) => dst.PutU16(code);
      case Error(_, id, code, _) =>
        dst.PutU32(id);
        dst.PutU16(code);
    }

    /** The payload bytes to send, none for the frames that have no size field. */
    function Payload(f: LoquiFrame): Option<seq<byte>> {
      match f
      case Hello(_, _, enc, comp) => Some(PrintHello(Lists(enc, comp)))
      case HelloAck(_, _, enc, comp) => Some(PrintAck(enc, OrEmpty(comp)))
      case Ping(_, _) => None
      case Pong(_, _) => None
      case Request(_, _, payload) => Some(payload)
      case Response(_, _, payload) => Some(payload)
      case Push(_, payload) => Some(payload)
      case GoAway(_, _, payload) => Some(payload)
      case Error(_, _, _, payload) => Some(payload)
    }

    /** Appends the frame; a payload of 2^32 bytes or more gets a truncated size field. */
    method Encode(f: LoquiFrame, dst: BytesMut)
      modifies dst
      ensures dst.data == old(dst.data) + F.Encode(ToWire(f))
    {
      hide Store32, Store16, PrintHello, PrintAck, F.Middle;
      ghost var before := dst.data;
      PutHeader(f, dst);
      var payload := Payload(f);
      if payload.Some? {
        dst.PutU32(F.Size32(|payload.value|));
        dst.ExtendFromSlice(payload.value);
      }
      assert dst.data == before + F.Encode(ToWire(f));
    }

    /** Takes one whole frame off the front of the buffer, or leaves the buffer alone and says why not. */
    method Decode(buf: BytesMut, utf8: seq<byte> -> bool) returns (r: Decoded)
      modifies buf
      ensures (r, buf.data) == DecodeFront(old(buf.data), maxPayloadSizeInBytes, utf8)
    {
      hide Load32, Load16, FromBuf, FromWire, F.Fields;
      if buf.data == [] { return Ok(None); }
      var opcode := buf.data[0];
      var headerSize := HeaderSizeInBytes(opcode);
      if headerSize == 0 { return Err(InvalidOpcode(opcode)); }
      if |buf.data| < headerSize { return Ok(None); }

      var payloadSize := ReadPayloadSize(buf.data);
      if payloadSize > maxPayloadSizeInBytes {
        return Err(PayloadTooLarge(payloadSize, maxPayloadSizeInBytes));
      }
      var requiredLen := headerSize + payloadSize;
      if |buf.data| < requiredLen { return Ok(None); }
      var frameBuf := buf.SplitTo(requiredLen);
      FromBufIsFromWire(frameBuf, utf8);
      r := FromBuf(frameBuf, utf8);
    }
  }

  /** Frames whose settings survive the trip; the others always do. */
  predicate Survives(f: LoquiFrame) {
    match f
    case Hello(_, _, enc, comp) => BarFree(Lists(enc, comp)) && Readable(enc) && Readable(comp)
    case HelloAck(_, _, enc, comp) => BAR !in enc && BAR !in OrEmpty(comp) && comp != Some([])
    case _ => true
  }

  /** A frame within the codec's limit, whatever follows it: it comes back, and exactly its own bytes are
      taken, if and only if its settings survive. */
  lemma RoundTrip(f: LoquiFrame, rest: seq<byte>, max: u32, utf8: seq<byte> -> bool)
    requires |ToWire(f).Payload()| <= max && utf8(ToWire(f).Payload())
    ensures var (r, left) := DecodeFront(F.Encode(ToWire(f)) + rest, max, utf8);
            left == rest && (r == Ok(Some(f)) <==> Survives(f))
  {
    hide F.Next, F.Fields, F.Encode, RustReadHello, RustReadAck, PrintHello, PrintAck, Readable;
    var w := ToWire(f);
    F.ScanEncoded(w, rest, max);
    F.FieldsOfEncoded(w);
    assert (F.Encode(w) + rest)[..|F.Encode(w)|] == F.Encode(w);
    if f.Hello? { RustHelloRoundTrip(Lists(f.encodings, f.compressions)); }
    if f.HelloAck? { RustAckRoundTrip(Choice(f.encoding, f.compression)); }
  }

  /** Decoding is stable under more input: only "wait for more" can change, and then nothing was taken. */
  lemma DecodeStable(s: seq<byte>, more: seq<byte>, max: u32, utf8: seq<byte> -> bool)
    ensures var (r, left) := DecodeFront(s, max, utf8);
            if r == Ok(None) then left == s
            else DecodeFront(s + more, max, utf8) == (r, left + more)
  {
    hide F.Next, F.Fields;
    if F.Next(s, max) != F.More {
      F.ScanStable(s, more, max);
      if F.Next(s, max).Whole? {
        var n := F.Next(s, max).length;
        assert (s + more)[n..] == s[n..] + more;
      }
    }
  }
}

/** The C decoder and the Rust codec side by side. */
module CAgainstRust {
  import opened Bytes
  import opened CBuffer
  import opened CDecoder
  import opened RustCodec
  import opened Settings
  import F = Framing

  /** On every prefix of every stream the two give the same verdict: C waits exactly when Rust returns nothing,
      C completes exactly when Rust takes a frame off, at the same byte and with the same fields, and each kind
      of refusal matches. (Rust alone also reads the settings of a whole Hello, and may refuse them.) */
  method SameVerdict(s: seq<byte>, utf8: seq<byte> -> bool)
    returns (status: Status, consumed: nat, frame: Option<F.Frame>, r: Decoded, left: seq<byte>)
    requires s != []
    ensures status == NeedsMore <==> r == Ok(None)
    ensures status == Complete <==> (r.Ok? && r.value.Some?) || r == Err(InvalidPayload)
    ensures status == Status.InvalidOpcode <==> r == Err(ProtocolError.InvalidOpcode(s[0]))
    ensures status == InvalidSize <==> r.Err? && r.error.PayloadTooLarge? && r.error.max == DATA_SIZE_MAX
    ensures consumed <= |s|
    ensures status == Complete ==> left == s[consumed..] && frame.Some? && r == FromWire(frame.value, utf8)
    ensures status == Complete ==> frame.Some? && F.Encode(frame.value) == s[..consumed]
    ensures status != Complete ==> left == s && frame == None
  {
    hide F.Next, F.Fields, F.Encode, F.HeaderLen, FromWire, Fed, NoFailure, Decoder.Sound, Decoder.Tight, Decoder.Seen;
    var heap := new Heap([]);
    var decoder := new Decoder();
    assert NoFailure(heap.plan) by { NoneFails(); }
    status, consumed := decoder.ReadData(heap, s, 0, DATA_SIZE_MAX);
    VerdictOf(s, consumed, status, decoder.Seen());
    frame := if status == Complete then Some(decoder.TakeFrame(DATA_SIZE_MAX)) else None;
    BadOpcodeIsFirst(s);
    var codec := new Codec(DATA_SIZE_MAX);
    var buf := new BytesMut(s);
    r := codec.Decode(buf, utf8);
    left := buf.data;
  }

  lemma NoneFails()
    ensures NoFailure([])
  {
  }

  /** The C decoder's first answer, in terms of the shared framing. */
  lemma VerdictOf(s: seq<byte>, k: int, status: Status, post: seq<byte>)
    requires Fed([], s, k, status, post, DATA_SIZE_MAX) && status != MemoryError
    ensures 0 <= k <= |s| && post == s[..k]
    ensures var v := F.Next(s, DATA_SIZE_MAX);
            && (status == NeedsMore <==> v == F.More) && (status == Complete <==> v.Whole?)
            && (status == Status.InvalidOpcode <==> v.BadOpcode?) && (status == InvalidSize <==> v.TooLarge?)
            && (v.Whole? ==> v.length == k && k > 0 && 0 < F.HeaderLen(s[0]) <= k && F.Encode(F.Fields(post)) == post)
  {
    hide F.Next, F.Fields, F.Encode, F.HeaderLen;
    assert [] + s == s && [] + s[..k] == s[..k];
    if status == Complete {
      F.ScanExact(s, DATA_SIZE_MAX);
      F.WholeShape(post, DATA_SIZE_MAX);
      F.EncodeOfFields(post, DATA_SIZE_MAX);
    }
  }

  lemma BadOpcodeIsFirst(s: seq<byte>)
    requires s != []
    ensures var v := F.Next(s, DATA_SIZE_MAX); v.BadOpcode? ==> v.opcode == s[0]
  {
  }
}
