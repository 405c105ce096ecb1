/** The blocking reader and the writer of go/protocol.go. */
module GoProtocol {
  import opened Bytes
  import opened Settings
  import F = Framing

  const OP_HELLO: byte := 1
  const OP_HELLO_ACK: byte := 2
  const OP_PING: byte := 3
  const OP_PONG: byte := 4
  const OP_REQUEST: byte := 5
  const OP_RESPONSE: byte := 6
  const OP_PUSH: byte := 7
  const OP_GO_AWAY: byte := 8
  const OP_ERROR: byte := 9

  const MAX_INT32: nat := 0x7FFF_FFFF

  /** A call on the protocol handler. */
  datatype Call =
    | HandleHello(flags: byte, version: byte, encodings: seq<Name>, compressions: seq<Name>)
    | HandleHelloAck(flags: byte, pingInterval: u32, encoding: Name, compression: Name)
    | HandlePing(flags: byte, sequenceId: u32)
    | HandlePong(flags: byte, sequenceId: u32)
    | HandleRequest(flags: byte, sequenceId: u32, payload: seq<byte>)
    | HandleResponse(flags: byte, sequenceId: u32, payload: seq<byte>)
    | HandlePush(flags: byte, payload: seq<byte>)
    | HandleError(flags: byte, sequenceId: u32, code: u16, reason: seq<byte>)
    | HandleGoAway(flags: byte, code: u16, reason: seq<byte>)

  datatype Failure = NoError | EndOfStream | UnknownOp | NotEnoughSettings | PayloadTooLarge

  /** The call a frame leads to; none when a handshake payload has too few settings. */
  function CallOf(f: F.Frame): Option<Call> {
    match f
    case Hello(flags, version, text) =>
      var r := GoReadHello(text);
      if r.None? then None else Some(HandleHello(flags, version, r.value.encodings, r.value.compressions))
    case HelloAck(flags, interval, text) =>
      var r := GoReadAck(text);
      if r.None? then None else Some(HandleHelloAck(flags, interval, r.value.0, r.value.1))
    case Ping(flags, id) => Some(HandlePing(flags, id))
    case Pong(flags, id) => Some(HandlePong(flags, id))
    case Request(flags, id, payload) => Some(HandleRequest(flags, id, payload))
    case Response(flags, id, payload) => Some(HandleResponse(flags, id, payload))
    case Push(flags, payload) => Some(HandlePush(flags, payload))
    case GoAway(flags, code, payload) => Some(HandleGoAway(flags, code, payload))
    case Error(flags, id, code, payload) => Some(HandleError(flags, id, code, payload))
  }

  class Handler {
    var calls: seq<Call>

    constructor ()
      ensures calls == []
    {
      calls := [];
    }

    method Receive(c: Call)
      modifies this
      ensures calls == old(calls) + [c]
    {
      calls := calls + [c];
    }
  }

  // ---------- reading ----------

  /** A payload with its size in front of it, or why it cannot be had. */
  datatype Taken = Got(middle: seq<byte>, payload: seq<byte>, rest: seq<byte>) | Not(err: Failure)

  function TakePayload(s: seq<byte>, max: nat): Taken {
    if |s| < 4 then Not(EndOfStream)
    else if Load32(s, 0) > max then Not(PayloadTooLarge)
    else if |s| < 4 + Load32(s, 0) then Not(EndOfStream)
    else Got([], s[4..4 + Load32(s, 0)], s[4 + Load32(s, 0)..])
  }

  /** What reading the rest of a frame from behind its flags gives. */
  function TakeBody(opcode: byte, s: seq<byte>, max: nat): Taken
    requires F.HeaderLen(opcode) > 0
  {
    var m := F.MiddleLen(opcode);
    if |s| < m then Not(EndOfStream)
    else if !F.HasPayload(opcode) then Got(s[..m], [], s[m..])
    else match TakePayload(s[m..], max)
         case Got(_, payload, rest) => Got(s[..m], payload, rest)
         case Not(err) => Not(err)
  }

  /** Reading field by field comes to the verdict the shared framing gives. */
  lemma BodyAgainstFraming(s: seq<byte>, max: nat)
    requires |s| >= 2 && F.HeaderLen(s[0]) > 0
    ensures match TakeBody(s[0], s[2..], max)
            case Got(middle, payload, rest) =>
              F.Next(s, max) == F.Whole(|s| - |rest|) && s[|s| - |rest|..] == rest
              && |middle| == F.MiddleLen(s[0])
              && F.Fields(s[..|s| - |rest|]) == F.FrameOf(s[0], s[1], middle, payload)
            case Not(err) =>
              (err == EndOfStream && F.Next(s, max) == F.More) || (err == PayloadTooLarge && F.Next(s, max).TooLarge?)
  {
    hide Load32, F.FrameOf, F.Fields, F.HeaderLen, TakePayload;
    var m, h := F.MiddleLen(s[0]), F.HeaderLen(s[0]);
    if |s| >= 2 + m {
      DropParts(s, 2, m);
      TakePayloadAt(s, 2 + m, max);
      assert s[2 + m..2 + m] == [];
    }
    match TakeBody(s[0], s[2..], max)
    case Got(_, _, rest) => FieldsOfCut(s, |s| - |rest|);
    case Not(_) =>
  }

  lemma DropParts(s: seq<byte>, a: nat, b: nat)
    requires a + b <= |s|
    ensures s[a..][b..] == s[a + b..] && s[a..][..b] == s[a..a + b]
  {
  }

  lemma TakePayloadAt(s: seq<byte>, at: nat, max: nat)
    requires at <= |s|
    ensures TakePayload(s[at..], max) ==
            if |s| < at + 4 then Not(EndOfStream)
            else if Load32(s, at) > max then Not(PayloadTooLarge)
            else if |s| < at + 4 + Load32(s, at) then Not(EndOfStream)
            else Got([], s[at + 4..at + 4 + Load32(s, at)], s[at + 4 + Load32(s, at)..])
  {
    hide Load32;
    if |s| >= at + 4 {
      PartLoads(s, at, |s| - at);
      assert s[at..at + (|s| - at)] == s[at..];
      var size := Load32(s, at);
      if |s| >= at + 4 + size {
        assert s[at..][4..4 + size] == s[at + 4..at + 4 + size];
        assert s[at..][4 + size..] == s[at + 4 + size..];
      }
    }
  }

  lemma FieldsOfCut(s: seq<byte>, n: nat)
    requires 0 < n <= |s| && 0 < F.HeaderLen(s[0]) <= n
    ensures F.Fields(s[..n]) == F.FrameOf(s[0], s[1], s[2..2 + F.MiddleLen(s[0])], s[F.HeaderLen(s[0])..n])
  {
    hide F.FrameOf;
    assert s[..n][2..2 + F.MiddleLen(s[0])] == s[2..2 + F.MiddleLen(s[0])];
  }

  class ProtocolReader {
    /** The bytes the connection will deliver before it ends. */
    var br: seq<byte>
    const maxPayloadSize: nat

    constructor (stream: seq<byte>, maxPayloadSize: int)
      ensures br == stream && this.maxPayloadSize == if maxPayloadSize <= 0 then MAX_INT32 else maxPayloadSize
    {
      br := stream;
      this.maxPayloadSize := if maxPayloadSize <= 0 then MAX_INT32 else maxPayloadSize;
    }

    /** `io.ReadFull`: a short stream is used up and the read fails. */
    method Read(n: nat) returns (v: seq<byte>, err: Failure)
      modifies this
      ensures |old(br)| >= n ==> err == NoError && v == old(br)[..n] && br == old(br)[n..]
      ensures |old(br)| < n ==> err == EndOfStream && br == []
    {
      if |br| < n {
        v, br := br, [];
        return v, EndOfStream;
      }
      v, br, err := br[..n], br[n..], NoError;
    }

    method ReadUint8() returns (n: byte, err: Failure)
      modifies this
      ensures |old(br)| >= 1 ==> err == NoError && n == old(br)[0] && br == old(br)[1..]
      ensures |old(br)| < 1 ==> err == EndOfStream && br == []
    {
      var v;
      v, err := Read(1);
      if err != NoError { return 0, err; }
      n := v[0];
    }

    method ReadUint16() returns (n: u16, err: Failure)
      modifies this
      ensures |old(br)| >= 2 ==> err == NoError && n == Load16(old(br), 0) && br == old(br)[2..]
      ensures |old(br)| < 2 ==> err == EndOfStream && br == []
    {
      var v;
      v, err := Read(2);
      if err != NoError { return 0, err; }
      n := Load16(v, 0);
    }

    method ReadUint32() returns (n: u32, err: Failure)
      modifies this
      ensures |old(br)| >= 4 ==> err == NoError && n == Load32(old(br), 0) && br == old(br)[4..]
      ensures |old(br)| < 4 ==> err == EndOfStream && br == []
    {
      var v;
      v, err := Read(4);
      if err != NoError { return 0, err; }
      n := Load32(v, 0);
    }

    method ReadPayload() returns (b: seq<byte>, err: Failure)
      modifies this
      ensures match TakePayload(old(br), maxPayloadSize)
              case Got(_, payload, rest) => err == NoError && b == payload && br == rest
              case Not(e) => err == e && (e == EndOfStream ==> br == [])
    {
      hide Load32;
      b := [];
      var l;
      l, err := ReadUint32();
      if err != NoError { return; }
      if l > maxPayloadSize { return b, PayloadTooLarge; }
      var v;
      v, err := Read(l);
      if err != NoError { return; }
      b := v;
    }

    method ReadHello() returns (version: byte, encodings: seq<Name>, compressions: seq<Name>, err: Failure)
      modifies this
      ensures match TakeBody(F.OP_HELLO, old(br), maxPayloadSize)
              case Got(middle, payload, rest) =>
                br == rest && Answers(CallOf(F.Hello(0, middle[0], payload)), err,
                HandleHello(0, version, encodings, compressions))
              case Not(e) => err == e && (e == EndOfStream ==> br == [])
    {
      hide Load32, Load16;
      version, encodings, compressions := 0, [], [];
      version, err := ReadUint8();
      if err != NoError { return; }
      var payload;
      payload, err := ReadPayload();
      if err != NoError { return; }
      var settings := Split(payload, BAR);
      if |settings| < 2 { return version, encodings, compressions, NotEnoughSettings; }
      if settings[0] != [] { encodings := Split(settings[0], COMMA); }
      if settings[1] != [] { compressions := Split(settings[1], COMMA); }
    }

    method ReadHelloAck() returns (pingInterval: u32, encoding: Name, compression: Name, err: Failure)
      modifies this
      ensures match TakeBody(F.OP_HELLO_ACK, old(br), maxPayloadSize)
              case Got(middle, payload, rest) =>
                br == rest && Answers(CallOf(F.HelloAck(0, Load32(middle, 0), payload)), err,
                HandleHelloAck(0, pingInterval, encoding, compression))
              case Not(e) => err == e && (e == EndOfStream ==> br == [])
    {
      hide Load32, Load16;
      encoding, compression := [], [];
      ghost var s := br;
      pingInterval, err := ReadUint32();
      if err != NoError { return; }
      SliceLoads(s, 4);
      var payload;
      payload, err := ReadPayload();
      if err != NoError { return; }
      var settings := Split(payload, BAR);
      if |settings| < 2 { return pingInterval, encoding, compression, NotEnoughSettings; }
      encoding, compression := settings[0], settings[1];
    }

    method ReadPing() returns (sequenceId: u32, err: Failure)
      modifies this
      ensures match TakeBody(F.OP_PING, old(br), maxPayloadSize)
              case Got(middle, payload, rest) => err == NoError && br == rest && sequenceId == Load32(middle, 0)
              case Not(e) => err == e && (e == EndOfStream ==> br == [])
    {
      hide Load32, Load16;
      ghost var s := br;
      sequenceId, err := ReadUint32();
      if err == NoError { SliceLoads(s, 4); }
    }

    method ReadPong() returns (sequenceId: u32, err: Failure)
      modifies this
      ensures match TakeBody(F.OP_PONG, old(br), maxPayloadSize)
              case Got(middle, payload, rest) => err == NoError && br == rest && sequenceId == Load32(middle, 0)
              case Not(e) => err == e && (e == EndOfStream ==> br == [])
    {
      hide Load32, Load16;
      ghost var s := br;
      sequenceId, err := ReadUint32();
      if err == NoError { SliceLoads(s, 4); }
    }

    method ReadRequest() returns (sequenceId: u32, b: seq<byte>, err: Failure)
      modifies this
      ensures match TakeBody(F.OP_REQUEST, old(br), maxPayloadSize)
              case Got(middle, payload, rest) =>
                err == NoError && br == rest && sequenceId == Load32(middle, 0) && b == payload
              case Not(e) => err == e && (e == EndOfStream ==> br == [])
    {
      hide Load32, Load16;
      b := [];
      ghost var s := br;
      sequenceId, err := ReadUint32();
      if err != NoError { return; }
      SliceLoads(s, 4);
      b, err := ReadPayload();
    }

    method ReadResponse() returns (sequenceId: u32, b: seq<byte>, err: Failure)
      modifies this
      ensures match TakeBody(F.OP_RESPONSE, old(br), maxPayloadSize)
              case Got(middle, payload, rest) =>
                err == NoError && br == rest && sequenceId == Load32(middle, 0) && b == payload
              case Not(e) => err == e && (e == EndOfStream ==> br == [])
    {
      hide Load32, Load16;
      b := [];
      ghost var s := br;
      sequenceId, err := ReadUint32();
      if err != NoError { return; }
      SliceLoads(s, 4);
      b, err := ReadPayload();
    }

    method ReadPush() returns (b: seq<byte>, err: Failure)
      modifies this
      ensures match TakeBody(F.OP_PUSH, old(br), maxPayloadSize)
              case Got(middle, payload, rest) => err == NoError && br == rest && b == payload
              case Not(e) => err == e && (e == EndOfStream ==> br == [])
    {
      hide Load32, Load16;
      assert br[0..] == br;
      b, err := ReadPayload();
    }

    method ReadError() returns (sequenceId: u32, code: u16, reason: seq<byte>, err: Failure)
      modifies this
      ensures match TakeBody(F.OP_ERROR, old(br), maxPayloadSize)
              case Got(middle, payload, rest) =>
                err == NoError && br == rest && sequenceId == Load32(middle, 0) && code == Load16(middle, 4)
                && reason == payload
              case Not(e) => err == e && (e == EndOfStream ==> br == [])
    {
      hide Load32, Load16;
      code, reason := 0, [];
      ghost var s := br;
      sequenceId, err := ReadUint32();
      if err != NoError { return; }
      code, err := ReadUint16();
      if err != NoError { return; }
      SliceLoads(s, 6);
      assert s[4..][2..] == s[6..];
      reason, err := ReadPayload();
    }

    method ReadGoAway() returns (code: u16, reason: seq<byte>, err: Failure)
      modifies this
      ensures match TakeBody(F.OP_GOAWAY, old(br), maxPayloadSize)
              case Got(middle, payload, rest) =>
                err == NoError && br == rest && code == Load16(middle, 0) && reason == payload
              case Not(e) => err == e && (e == EndOfStream ==> br == [])
    {
      hide Load32, Load16;
      reason := [];
      ghost var s := br;
      code, err := ReadUint16();
      if err != NoError { return; }
      SliceLoads(s, 2);
      reason, err := ReadPayload();
    }

    /** Reads one frame and makes its call. */
    method Process(ph: Handler) returns (err: Failure)
      modifies this, ph
      ensures match F.Next(old(br), maxPayloadSize)
              case Whole(n) =>
                var c := CallOf(F.Fields(old(br)[..n]));
                br == old(br)[n..] && err == (if c.Some? then NoError else NotEnoughSettings)
                && ph.calls == old(ph.calls) + if c.Some? then [c.value] else []
              case More => err == EndOfStream && br == [] && ph.calls == old(ph.calls)
              case TooLarge(_) => err == PayloadTooLarge && ph.calls == old(ph.calls)
              case BadOpcode(_) =>
                err == (if |old(br)| == 1 then EndOfStream else UnknownOp) && ph.calls == old(ph.calls)
    {
      hide Load32, Load16, TakeBody, GoReadHello, GoReadAck, F.Next, F.Fields, F.MiddleLen, F.HasPayload;
      ghost var s := br;
      NoBody(s, maxPayloadSize);
      var op, flags;
      op, err := ReadUint8();
      if err != NoError { return; }
      flags, err := ReadUint8();
      if err != NoError { return; }
      assert br == s[2..];
      if F.HeaderLen(op) > 0 { BodyAgainstFraming(s, maxPayloadSize); }
      match op
      case 1 =>
        var version, encodings, compressions;
        version, encodings, compressions, err := ReadHello();
        if err != NoError { return; }
        ph.Receive(HandleHello(flags, version, encodings, compressions));
      case 2 =>
        var interval, encoding, compression;
        interval, encoding, compression, err := ReadHelloAck();
        if err != NoError { return; }
        ph.Receive(HandleHelloAck(flags, interval, encoding, compression));
      case 3 =>
        var id;
        id, err := ReadPing();
        if err != NoError { return; }
        ph.Receive(HandlePing(flags, id));
      case 4 =>
        var id;
        id, err := ReadPong();
        if err != NoError { return; }
        ph.Receive(HandlePong(flags, id));
      case 5 =>
        var id, payload;
        id, payload, err := ReadRequest();
        if err != NoError { return; }
        ph.Receive(HandleRequest(flags, id, payload));
      case 6 =>
        var id, payload;
        id, payload, err := ReadResponse();
        if err != NoError { return; }
        ph.Receive(HandleResponse(flags, id, payload));
      case 7 =>
        var payload;
        payload, err := ReadPush();
        if err != NoError { return; }
        ph.Receive(HandlePush(flags, payload));
      case 9 =>
        var id, code, reason;
        id, code, reason, err := ReadError();
        if err != NoError { return; }
        ph.Receive(HandleError(flags, id, code, reason));
      case 8 =>
        var code, reason;
        code, reason, err := ReadGoAway();
        if err != NoError { return; }
        ph.Receive(HandleGoAway(flags, code, reason));
      case _ => err := UnknownOp;
    }
  }

  /** A handshake read is judged by its settings; flags do not matter to that. */
  predicate Answers(expected: Option<Call>, err: Failure, got: Call) {
    if expected.Some? then err == NoError && got == expected.value else err == NotEnoughSettings
  }

  /** The verdicts that need no more than the first two bytes. */
  lemma NoBody(s: seq<byte>, max: nat)
    ensures s == [] ==> F.Next(s, max) == F.More
    ensures |s| == 1 ==> F.Next(s, max).More? || F.Next(s, max).BadOpcode?
    ensures s != [] && F.HeaderLen(s[0]) == 0 ==> F.Next(s, max) == F.BadOpcode(s[0])
  {
  }

  lemma SliceLoads(s: seq<byte>, n: nat)
    requires 2 <= n <= |s|
    ensures Load16(s[..n], 0) == Load16(s, 0)
    ensures n >= 4 ==> Load32(s[..n], 0) == Load32(s, 0)
    ensures n == 6 ==> Load16(s[..n], 4) == Load16(s[4..], 0)
  {
  }

  /** The calls a run of frames leads to, up to the first handshake frame that cannot be read. */
  function Deliver(fs: seq<F.Frame>): (seq<Call>, bool) {
    if fs == [] then ([], true)
    else if CallOf(fs[0]).None? then ([], false)
    else var (calls, ok) := Deliver(fs[1..]); ([CallOf(fs[0]).value] + calls, ok)
  }

  /** The read loop: frames are processed until the first error, which ends the connection. The handler sees
      exactly the calls of the one-shot parse of everything the peer sent, in order. */
  method ReadLoop(pr: ProtocolReader, ph: Handler) returns (err: Failure)
    modifies pr, ph
    ensures var p := F.ParseAll(old(pr.br), pr.maxPayloadSize);
            && ph.calls == old(ph.calls) + Deliver(p.frames).0
            && if !Deliver(p.frames).1 then err == NotEnoughSettings
               else match p.end
                    case Pending(_) => err == EndOfStream && pr.br == []
                    case Refused(why) =>
                      if why.TooLarge? then err == PayloadTooLarge else err in {UnknownOp, EndOfStream}
  {
    hide F.Next, F.Fields, CallOf;
    ghost var start := F.ParseAll(pr.br, pr.maxPayloadSize);
    while true
      invariant var p := F.ParseAll(pr.br, pr.maxPayloadSize);
                && old(ph.calls) + Deliver(start.frames).0 == ph.calls + Deliver(p.frames).0
                && Deliver(start.frames).1 == Deliver(p.frames).1
                && p.end == start.end
      decreases |pr.br|
    {
      ghost var p := F.ParseAll(pr.br, pr.maxPayloadSize);
      ghost var s := pr.br;
      err := pr.Process(ph);
      if F.Next(s, pr.maxPayloadSize).Whole? {
        assert p.frames[1..] == F.ParseAll(pr.br, pr.maxPayloadSize).frames;
      }
      if err != NoError { return; }
    }
  }

  lemma ParseEmpty(max: nat)
    ensures F.ParseAll([], max) == F.Parsed([], F.Pending([]))
  {
  }

  // ---------- writing ----------

  class ProtocolWriter {
    /** Everything written so far. */
    var w: seq<byte>

    constructor ()
      ensures w == []
    {
      w := [];
    }

    method Write(p: seq<byte>)
      modifies this
      ensures w == old(w) + p
    {
      w := w + p;
    }

    method WriteHello(flags: byte, version: byte, encodings: seq<Name>, compressions: seq<Name>)
      modifies this
      ensures w == old(w) + F.Encode(F.Hello(flags, version, PrintHello(Lists(encodings, compressions))))
    {
      hide Store32, Store16, Join;
      var header := new byte[7];
      header[0], header[1], header[2] := OP_HELLO, flags, version;
      var settings := Join([Join(encodings, COMMA), Join(compressions, COMMA)], BAR);
      JoinTwo(Join(encodings, COMMA), Join(compressions, COMMA), BAR);
      Put32(header, 3, F.Size32(|settings|));
      assert header[..] + settings == F.Encode(F.Hello(flags, version, PrintHello(Lists(encodings, compressions))));
      Write(header[..] + settings);
    }

    method WriteHelloAck(flags: byte, pingInterval: u32, encoding: Name, compression: Name)
      modifies this
      ensures w == old(w) + F.Encode(F.HelloAck(flags, pingInterval, PrintAck(encoding, compression)))
    {
      hide Store32, Store16, Join;
      var header := new byte[10];
      header[0], header[1] := OP_HELLO_ACK, flags;
      Put32(header, 2, pingInterval);
      var settings := Join([encoding, compression], BAR);
      JoinTwo(encoding, compression, BAR);
      Put32(header, 6, F.Size32(|settings|));
      assert header[..] + settings == F.Encode(F.HelloAck(flags, pingInterval, PrintAck(encoding, compression)));
      Write(header[..] + settings);
    }

    method WritePingPong(op: byte, flags: byte, sequenceId: u32)
      requires op in {OP_PING, OP_PONG}
      modifies this
      ensures w == old(w) + F.Encode(if op == OP_PING then F.Ping(flags, sequenceId) else F.Pong(flags, sequenceId))
    {
      hide Store32;
      var header := new byte[6];
      header[0], header[1] := op, flags;
      Put32(header, 2, sequenceId);
      ghost var f := if op == OP_PING then F.Ping(flags, sequenceId) else F.Pong(flags, sequenceId);
      assert header[..] == F.Encode(f);
      Write(header[..]);
    }

    method WritePing(flags: byte, sequenceId: u32)
      modifies this
      ensures w == old(w) + F.Encode(F.Ping(flags, sequenceId))
    {
      WritePingPong(OP_PING, flags, sequenceId);
    }

    method WritePong(flags: byte, sequenceId: u32)
      modifies this
      ensures w == old(w) + F.Encode(F.Pong(flags, sequenceId))
    {
      WritePingPong(OP_PONG, flags, sequenceId);
    }

    method WriteRequestResponse(op: byte, flags: byte, sequenceId: u32, payload: seq<byte>)
      requires op in {OP_REQUEST, OP_RESPONSE}
      modifies this
      ensures w == old(w) +
                   F.Encode(if op == OP_REQUEST then F.Request(flags, sequenceId, payload)
                       else F.Response(flags, sequenceId, payload))
    {
      hide Store32;
      var header := new byte[10];
      header[0], header[1] := op, flags;
      Put32(header, 2, sequenceId);
      Put32(header, 6, F.Size32(|payload|));
      ghost var f := if op == OP_REQUEST then F.Request(flags, sequenceId, payload)
          else F.Response(flags, sequenceId, payload);
      assert header[..] + payload == F.Encode(f);
      Write(header[..] + payload);
    }

    method WriteRequest(flags: byte, sequenceId: u32, payload: seq<byte>)
      modifies this
      ensures w == old(w) + F.Encode(F.Request(flags, sequenceId, payload))
    {
      WriteRequestResponse(OP_REQUEST, flags, sequenceId, payload);
    }

    method WriteResponse(flags: byte, sequenceId: u32, payload: seq<byte>)
      modifies this
      ensures w == old(w) + F.Encode(F.Response(flags, sequenceId, payload))
    {
      WriteRequestResponse(OP_RESPONSE, flags, sequenceId, payload);
    }

    method WritePush(flags: byte, payload: seq<byte>)
      modifies this
      ensures w == old(w) + F.Encode(F.Push(flags, payload))
    {
      hide Store32, Store16, PrintHello, PrintAck;
      var header := new byte[6];
      header[0], header[1] := OP_PUSH, flags;
      Put32(header, 2, F.Size32(|payload|));
      assert header[..] + payload == F.Encode(F.Push(flags, payload));
      Write(header[..] + payload);
    }

    method WriteError(flags: byte, sequenceId: u32, code: u16, reason: seq<byte>)
      modifies this
      ensures w == old(w) + F.Encode(F.Error(flags, sequenceId, code, reason))
    {
      hide Store32, Store16, PrintHello, PrintAck;
      var header := new byte[12];
      header[0], header[1] := OP_ERROR, flags;
      Put32(header, 2, sequenceId);
      Put16(header, 6, code);
      Put32(header, 8, F.Size32(|reason|));
      assert header[..] + reason == F.Encode(F.Error(flags, sequenceId, code, reason));
      Write(header[..] + reason);
    }

    method WriteGoAway(flags: byte, code: u16, reason: seq<byte>)
      modifies this
      ensures w == old(w) + F.Encode(F.GoAway(flags, code, reason))
    {
      hide Store32, Store16, PrintHello, PrintAck;
      var header := new byte[8];
      header[0], header[1] := OP_GO_AWAY, flags;
      Put16(header, 2, code);
      Put32(header, 4, F.Size32(|reason|));
      assert header[..] + reason == F.Encode(F.GoAway(flags, code, reason));
      Write(header[..] + reason);
    }
  }
}
