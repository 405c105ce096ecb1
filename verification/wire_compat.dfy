/** The three writers side by side, and a frame's way from any of them to any of the three readers. */
module WireCompat {
  import opened Bytes
  import opened Settings
  import C = CEncoder
  import CBuffer
  import CStream
  import D = CDecoder
  import F = Framing
  import Go = GoProtocol
  import GoCalls
  import R = RustCodec
  import S = RustStream

  datatype Writer = WriteC | WriteRust | WriteGo

  /** A frame as the applications see it is a Rust frame: its settings are lists of names. C is handed them already
      printed. */
  method Write(w: Writer, f: R.LoquiFrame) returns (bytes: seq<byte>)
    requires |R.ToWire(f).Payload()| < U32_COUNT && (f.Hello? ==> f.version == F.VERSION)
    ensures bytes == F.Encode(R.ToWire(f))
  {
    hide F.Encode, PrintHello, PrintAck;
    match w
    case WriteC =>
      var heap := new CBuffer.Heap([]);
      var b := new CBuffer.Buffer();
      var ret := C.Append(heap, b, R.ToWire(f));
      bytes := b.Contents();
    case WriteRust =>
      var codec := new R.Codec(0);
      var dst := new R.BytesMut([]);
      codec.Encode(f, dst);
      bytes := dst.data;
    case WriteGo => bytes := WriteByGo(f);
  }

  method WriteByGo(f: R.LoquiFrame) returns (bytes: seq<byte>)
    ensures bytes == F.Encode(R.ToWire(f))
  {
    hide F.Encode, PrintHello, PrintAck;
    var pw := new Go.ProtocolWriter();
    match f {
      case Hello(flags, version, enc, comp) => pw.WriteHello(flags, version, enc, comp);
      case HelloAck(flags, interval, enc, comp) => pw.WriteHelloAck(flags, interval, enc, OrEmpty(comp));
      case Ping(flags, id) => pw.WritePing(flags, id);
      case Pong(flags, id) => pw.WritePong(flags, id);
      case Request(flags, id, payload) => pw.WriteRequest(flags, id, payload);
      case Response(flags, id, payload) => pw.WriteResponse(flags, id, payload);
      case Push(flags, payload) => pw.WritePush(flags, payload);
      case GoAway(flags, code, payload) => pw.WriteGoAway(flags, code, payload);
      case Error(flags, id, code, payload) => pw.WriteError(flags, id, code, payload);
    }
    bytes := pw.w;
  }

  /** For the same fields the C, Rust and Go writers put identical bytes on the wire. */
  method SameBytes(f: R.LoquiFrame) returns (c: seq<byte>, rust: seq<byte>, go: seq<byte>)
    requires |R.ToWire(f).Payload()| < U32_COUNT && (f.Hello? ==> f.version == F.VERSION)
    ensures c == rust == go
  {
    c := Write(WriteC, f);
    rust := Write(WriteRust, f);
    go := Write(WriteGo, f);
  }

  // ---------- any writer, any reader ----------

  function ToWireAll(fs: seq<R.LoquiFrame>): (ws: seq<F.Frame>)
    ensures |ws| == |fs| && forall i :: 0 <= i < |fs| ==> ws[i] == R.ToWire(fs[i])
  {
    seq(|fs|, i requires 0 <= i < |fs| => R.ToWire(fs[i]))
  }

  /** A frame every reader takes: within the limit, and if it is one of the handshake's, with settings that survive. */
  predicate Sendable(f: R.LoquiFrame, utf8: seq<byte> -> bool) {
    var w := R.ToWire(f);
    && |w.Payload()| <= D.DATA_SIZE_MAX
    && (f.Hello? ==> f.version == F.VERSION)
    && (w.Handshake() ==> utf8(w.Payload()) && R.Survives(f))
  }

  lemma Readable(f: R.LoquiFrame, utf8: seq<byte> -> bool)
    requires Sendable(f, utf8)
    ensures R.FromWire(R.ToWire(f), utf8) == R.Ok(Some(f)) && Go.CallOf(R.ToWire(f)).Some?
    ensures GoCalls.FrameOfCall(Go.CallOf(R.ToWire(f)).value) == R.ToWire(f)
  {
    GoCalls.FrameComesBack(R.ToWire(f));
    BarsDecide(R.ToWire(f).Payload());
    hide RustReadHello, GoReadHello, RustReadAck, GoReadAck, PrintHello, PrintAck, Settings.Readable;
    if f.Hello? {
      RustHelloRoundTrip(Lists(f.encodings, f.compressions));
      RustAgainstGo(PrintHello(Lists(f.encodings, f.compressions)));
    }
    if f.HelloAck? {
      RustAckRoundTrip(Choice(f.encoding, f.compression));
      GoAckRoundTrip(f.encoding, OrEmpty(f.compression));
    }
  }

  lemma {:induction false} AllReadable(fs: seq<R.LoquiFrame>, utf8: seq<byte> -> bool)
    requires forall f :: f in fs ==> Sendable(f, utf8)
    ensures S.Readings(ToWireAll(fs), utf8) == (fs, true)
    ensures var (calls, ok) := Go.Deliver(ToWireAll(fs));
            ok && GoCalls.FramesOfCalls(calls) == ToWireAll(fs)
  {
    hide R.FromWire, R.ToWire, Go.CallOf, GoCalls.FrameOfCall, Sendable;
    if fs != [] {
      Readable(fs[0], utf8);
      AllReadable(fs[1..], utf8);
      assert ToWireAll(fs)[1..] == ToWireAll(fs[1..]);
      assert fs == [fs[0]] + fs[1..];
    }
  }

  method WriteAll(ws: seq<Writer>, fs: seq<R.LoquiFrame>, utf8: seq<byte> -> bool) returns (bytes: seq<byte>)
    requires |ws| == |fs| && forall f :: f in fs ==> Sendable(f, utf8)
    ensures bytes == F.EncodeAll(ToWireAll(fs))
  {
    hide F.Encode, R.ToWire;
    bytes := [];
    for i := 0 to |fs|
      invariant bytes == F.EncodeAll(ToWireAll(fs)[..i])
    {
      assert fs[i] in fs && Sendable(fs[i], utf8);
      var b := Write(ws[i], fs[i]);
      F.EncodeAllSnoc(ToWireAll(fs)[..i], ToWireAll(fs)[i]);
      assert ToWireAll(fs)[..i + 1] == ToWireAll(fs)[..i] + [ToWireAll(fs)[i]];
      bytes := bytes + b;
    }
    assert ToWireAll(fs)[..|fs|] == ToWireAll(fs);
  }

  /** Frames written by any mix of the three writers and cut into any chunks: the C decoder hands out every field, the
      Rust codec every frame and Go makes every call, in order, each with nothing left over. */
  method AnyToAny(ws: seq<Writer>, fs: seq<R.LoquiFrame>, cuts: seq<nat>, receiver: CBuffer.Heap,
      utf8: seq<byte> -> bool)
    returns (c: seq<F.Frame>, rust: seq<R.LoquiFrame>, go: seq<Go.Call>, left: seq<byte>)
    requires |ws| == |fs| && forall f :: f in fs ==> Sendable(f, utf8)
    modifies receiver
    ensures |c| == |fs| && forall i :: 0 <= i < |fs| ==> c[i] == R.ToWire(fs[i])
    ensures rust == fs && left == []
    ensures GoCalls.FramesOfCalls(go) == ToWireAll(fs)
  {
    hide F.Encode, R.ToWire, R.FromWire, Go.CallOf, F.ParseAll, F.Next, S.Readings, Go.Deliver, GoCalls.FramesOfCalls,
        Sendable, CBuffer.Concat;
    ghost var frames := ToWireAll(fs);
    var wire := WriteAll(ws, fs, utf8);
    Fitting(fs, utf8);
    F.ParseEncoded(frames, [], D.DATA_SIZE_MAX);
    CStream.ParseNothing();
    assert wire + [] == wire && frames + [] == frames;
    AllReadable(fs, utf8);

    var chunks := CStream.Cut(wire, cuts);
    var feeder := new CStream.Feeder();
    assert feeder.Seen() + CBuffer.Concat(chunks) == wire;
    var status;
    c, status := feeder.OnChunks(receiver, chunks);

    var codec := new R.Codec(D.DATA_SIZE_MAX);
    var err;
    rust, err, left := S.OnChunks(codec, chunks, utf8);

    var pr := new Go.ProtocolReader(wire, D.DATA_SIZE_MAX);
    var ph := new Go.Handler();
    var failure := Go.ReadLoop(pr, ph);
    go := ph.calls;
  }

  lemma Fitting(fs: seq<R.LoquiFrame>, utf8: seq<byte> -> bool)
    requires forall f :: f in fs ==> Sendable(f, utf8)
    ensures forall w :: w in ToWireAll(fs) ==> |w.Payload()| <= D.DATA_SIZE_MAX && |w.Payload()| < U32_COUNT
  {
    forall w | w in ToWireAll(fs) ensures |w.Payload()| <= D.DATA_SIZE_MAX && |w.Payload()| < U32_COUNT {
      var i :| 0 <= i < |fs| && ToWireAll(fs)[i] == w;
      assert fs[i] in fs && Sendable(fs[i], utf8);
    }
  }

  /** On any stream at all, cut up differently for each and with any allocation failures for C: the C decoder and the
      Rust codec hand out the same frames and end alike, until Rust refuses the settings of a handshake frame. */
  method SameStream(forC: seq<seq<byte>>, forRust: seq<seq<byte>>, receiver: CBuffer.Heap, utf8: seq<byte> -> bool)
    returns (c: seq<F.Frame>, status: D.Status, rust: seq<R.LoquiFrame>, err: Option<R.ProtocolError>)
    requires CBuffer.Concat(forC) == CBuffer.Concat(forRust)
    modifies receiver
    ensures rust == S.Readings(c, utf8).0
    ensures !S.Readings(c, utf8).1 ==> err == Some(R.InvalidPayload)
    ensures S.Readings(c, utf8).1 ==>
              && (status == D.NeedsMore <==> err == None)
              && (status == D.InvalidOpcode <==> err.Some? && err.value.InvalidOpcode?)
              && (status == D.InvalidSize <==> err.Some? && err.value.PayloadTooLarge?)
              && status in {D.NeedsMore, D.InvalidOpcode, D.InvalidSize}
  {
    hide F.ParseAll, F.Next, S.Readings;
    var feeder := new CStream.Feeder();
    assert feeder.Seen() + CBuffer.Concat(forC) == CBuffer.Concat(forC);
    c, status := feeder.OnChunks(receiver, forC);
    var codec := new R.Codec(D.DATA_SIZE_MAX);
    var left;
    rust, err, left := S.OnChunks(codec, forRust, utf8);
  }
}
