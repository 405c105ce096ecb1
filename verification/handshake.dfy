/** The search both sides' negotiation rests on. */
module FirstMatch {
  import opened Settings

  /** `i` is where the first of `xs` that is also among `ys` stands. */
  predicate IsFirst(xs: seq<Name>, ys: seq<Name>, i: int) {
    0 <= i < |xs| && xs[i] in ys && forall j :: 0 <= j < i ==> xs[j] !in ys
  }

  /** `v` is the first of `xs` that is also among `ys`. */
  ghost predicate FirstIs(xs: seq<Name>, ys: seq<Name>, v: Name) {
    exists i :: IsFirst(xs, ys, i) && xs[i] == v
  }

  lemma FirstOfTail(xs: seq<Name>, ys: seq<Name>, v: Name)
    requires xs != [] && xs[0] !in ys && FirstIs(xs[1..], ys, v)
    ensures FirstIs(xs, ys, v)
  {
    var i :| IsFirst(xs[1..], ys, i) && xs[1..][i] == v;
    assert forall j :: 1 <= j < |xs| ==> xs[j] == xs[1..][j - 1];
    assert IsFirst(xs, ys, i + 1);
  }

  predicate NoneCommon(xs: seq<Name>, ys: seq<Name>) {
    forall j :: 0 <= j < |xs| ==> xs[j] !in ys
  }
}

/** The Rust half of the handshake: both connection_handler.rs files and `find_encoding`. */
module RustHandshake {
  import opened Settings
  import opened LoquiErrors
  import opened FirstMatch
  import opened R = RustCodec
  import F = Framing

  /** Settings negotiated from the handshake. */
  datatype Ready = Ready(pingIntervalMs: nat, encoding: Name)

  function FindEncoding(encoding: Name, supported: seq<Name>): (r: Option<Name>)
    ensures r == if encoding in supported then Some(encoding) else None
  {
    if supported == [] then None
    else if encoding == supported[0] then Some(supported[0])
    else FindEncoding(encoding, supported[1..])
  }

  /** The first encoding in the client's order that the server supports. */
  function NegotiateEncoding(clientEncodings: seq<Name>, supported: seq<Name>): (r: R.Result<Name, LoquiError>)
    ensures r.Ok? ==> FirstIs(clientEncodings, supported, r.value)
    ensures r.Err? ==> r.error == NoCommonEncoding && NoneCommon(clientEncodings, supported)
  {
    if clientEncodings == [] then Err(NoCommonEncoding)
    else if FindEncoding(clientEncodings[0], supported).Some? then
      assert IsFirst(clientEncodings, supported, 0);
      Ok(FindEncoding(clientEncodings[0], supported).value)
    else
      var r := NegotiateEncoding(clientEncodings[1..], supported);
      if r.Ok? then FirstOfTail(clientEncodings, supported, r.value); r else r
  }

  function HandleHandshakeHello(hello: LoquiFrame, pingIntervalMs: nat, supported: seq<Name>)
    : R.Result<(Ready, LoquiFrame), LoquiError>
    requires hello.Hello?
  {
    if hello.version != F.VERSION then Err(UnsupportedVersion(F.VERSION, hello.version))
    else match NegotiateEncoding(hello.encodings, supported)
         case Err(e) => Err(e)
         case Ok(encoding) =>
           Ok((Ready(pingIntervalMs, encoding), HelloAck(hello.flags, F.Size32(pingIntervalMs), encoding, None)))
  }

  function ServerHandshake(frame: LoquiFrame, pingIntervalMs: nat, supported: seq<Name>)
    : R.Result<(Ready, LoquiFrame), LoquiError>
  {
    match frame
    case Hello(_, _, _, _) => HandleHandshakeHello(frame, pingIntervalMs, supported)
    case GoAway(_, _, _) => Err(ToldToGoAway(frame))
    case _ => Err(LoquiErrors.InvalidOpcode(OpcodeOf(frame)))
  }

  function MakeHello(supported: seq<Name>): LoquiFrame {
    Hello(0, F.VERSION, supported, [])
  }

  function ClientHandshake(frame: LoquiFrame, supported: seq<Name>): R.Result<Ready, LoquiError> {
    match frame
    case HelloAck(_, interval, encoding, compression) =>
      if FindEncoding(encoding, supported).None? then Err(InvalidEncoding)
      else if compression.Some? then Err(InvalidCompression)
      else Ok(Ready(interval, encoding))
    case GoAway(_, _, _) => Err(ToldToGoAway(frame))
    case _ => Err(LoquiErrors.InvalidOpcode(OpcodeOf(frame)))
  }

  /** Exactly when a server acknowledges its first frame, and what: the flags come back, no compression is offered. */
  lemma ServerVerdict(frame: LoquiFrame, pingIntervalMs: nat, supported: seq<Name>)
    ensures var r := ServerHandshake(frame, pingIntervalMs, supported);
            && (r.Ok? <==> frame.Hello? && frame.version == F.VERSION && !NoneCommon(frame.encodings, supported))
            && (r.Err? && r.error.ToldToGoAway? <==> frame.GoAway?)
            && (r.Err? && r.error.ToldToGoAway? ==> r.error.goAway == frame)
            && (r.Err? && r.error.InvalidOpcode? <==> !frame.Hello? && !frame.GoAway?)
            && (r.Err? && r.error.UnsupportedVersion? <==> frame.Hello? && frame.version != F.VERSION)
            && (r.Err? && r.error.NoCommonEncoding? <==>
                  frame.Hello? && frame.version == F.VERSION && NoneCommon(frame.encodings, supported))
            && (r.Err? && r.error.InvalidOpcode? ==> r.error.actual == OpcodeOf(frame))
            && (r.Ok? ==> var (ready, ack) := r.value;
                          FirstIs(frame.encodings, supported, ready.encoding)
                          && ack == HelloAck(frame.flags, F.Size32(ready.pingIntervalMs), ready.encoding, None)
                          && ready.pingIntervalMs == pingIntervalMs)
  {
    if frame.Hello? {
      var r := NegotiateEncoding(frame.encodings, supported);
      if r.Ok? { assert !NoneCommon(frame.encodings, supported); }
    }
  }

  /** Exactly what a client accepts as its first frame, and the cause of each refusal. */
  lemma ClientVerdict(frame: LoquiFrame, supported: seq<Name>)
    ensures var r := ClientHandshake(frame, supported);
            && (r.Ok? <==> frame.HelloAck? && frame.encoding in supported && frame.compression == None)
            && (r.Ok? ==> r.value == Ready(frame.pingIntervalMs, frame.encoding))
            && (r.Err? && r.error.InvalidEncoding? <==> frame.HelloAck? && frame.encoding !in supported)
            && (r.Err? && r.error.InvalidCompression? <==>
                  frame.HelloAck? && frame.encoding in supported && frame.compression.Some?)
            && (r == R.Err(ToldToGoAway(frame)) <==> frame.GoAway?)
            && (r == R.Err(LoquiErrors.InvalidOpcode(OpcodeOf(frame))) <==> !frame.HelloAck? && !frame.GoAway?)
  {
  }

  /** Two Rust ends that exchange frames whole: the client accepts whatever the server acknowledges, with the server's
      encoding, and the ping interval as 32 bits hold it. */
  lemma AckIsAccepted(clientEncodings: seq<Name>, supported: seq<Name>, pingIntervalMs: nat)
    ensures var r := ServerHandshake(MakeHello(clientEncodings), pingIntervalMs, supported);
            r.Ok? ==>
                  ClientHandshake(r.value.1, clientEncodings) == Ok(Ready(F.Size32(pingIntervalMs), r.value.0.encoding))
  {
    ServerVerdict(MakeHello(clientEncodings), pingIntervalMs, supported);
  }
}

/** The Go half: `sendHelloAck`, `handleHello`, `handleHelloAck` and `handleGoAway` of go/conn.go, and how it closes. */
module GoHandshake {
  import opened Bytes
  import opened Settings
  import opened FirstMatch
  import opened GoProtocol
  import F = Framing

  const CODE_NORMAL: u16 := 0
  const CODE_INVALID_OP: u16 := 1
  const CODE_UNSUPPORTED_VERSION: u16 := 2
  const CODE_NO_COMMON_ENCODING: u16 := 3
  const CODE_INVALID_ENCODING: u16 := 4
  const CODE_INVALID_COMPRESSION: u16 := 5
  const CODE_PING_TIMEOUT: u16 := 6
  const CODE_INTERNAL_SERVER_ERROR: u16 := 7

  class Conn {
    const isClient: bool
    const supportedEncodings: seq<Name>
    const supportedCompressions: seq<Name>
    /** What is handed to the write loop. */
    const proto: ProtocolWriter
    var ready: bool
    var version: byte
    var pingIntervalMs: nat
    var encoding: Name
    var compression: Name
    var localClosed: bool
    var remoteClosed: bool
    var terminated: bool

    constructor (isClient: bool, pingIntervalMs: nat, encodings: seq<Name>, compressions: seq<Name>)
      ensures this.isClient == isClient && this.pingIntervalMs == pingIntervalMs
      ensures supportedEncodings == encodings && supportedCompressions == compressions
      ensures !ready && version == F.VERSION && encoding == [] && compression == []
      ensures !localClosed && !remoteClosed && !terminated
      ensures fresh(proto) && proto.w == []
    {
      this.isClient, this.pingIntervalMs := isClient, pingIntervalMs;
      supportedEncodings, supportedCompressions := encodings, compressions;
      proto := new ProtocolWriter();
      ready, version, encoding, compression := false, F.VERSION, [], [];
      localClosed, remoteClosed, terminated := false, false, false;
    }

    /** A connection says GoAway once. */
    method Close(code: u16)
      modifies this`localClosed, proto
      ensures localClosed && proto.w == old(proto.w) + Farewell(old(localClosed), code)
    {
      hide F.Encode;
      if localClosed { return; }
      localClosed := true;
      proto.WriteGoAway(0, code, []);
    }

    static function Farewell(closed: bool, code: u16): seq<byte> {
      if closed then [] else F.Encode(F.GoAway(0, code, []))
    }

    method Terminate(code: u16)
      modifies this`localClosed, this`remoteClosed, this`terminated, proto
      ensures localClosed && terminated && remoteClosed == (old(remoteClosed) || !old(terminated))
      ensures proto.w == old(proto.w) + Farewell(old(localClosed), code)
    {
      hide F.Encode;
      Close(code);
      if !terminated {
        localClosed, remoteClosed, terminated := true, true, true;
      }
    }

    /** How a refused handshake frame ends the connection: it is said goodbye to with the code of the cause. */
    twostate predicate RefusedWith(code: u16)
      reads this, proto
    {
      && localClosed && terminated && remoteClosed == (old(remoteClosed) || !old(terminated))
      && proto.w == old(proto.w) + Farewell(old(localClosed), code)
    }

    twostate predicate StaysOpen()
      reads this
    {
      unchanged(this`localClosed) && unchanged(this`remoteClosed) && unchanged(this`terminated)
    }

    /** The value a search over the supported names, in their order, leaves in a field that held `before`. */
    static ghost predicate Chosen(supported: seq<Name>, offered: seq<Name>, before: Name, after: Name) {
      (NoneCommon(supported, offered) && after == before) || FirstIs(supported, offered, after)
    }

    method SendHelloAck(encodings: seq<Name>, compressions: seq<Name>) returns (ok: bool)
      modifies this`encoding, this`compression, proto
      ensures Chosen(supportedEncodings, encodings, old(encoding), encoding)
      ensures Chosen(supportedCompressions, compressions, old(compression), compression)
      ensures ok <==> encoding != []
      ensures proto.w == old(proto.w) +
                         if ok then F.Encode(F.HelloAck(0, F.Size32(pingIntervalMs), PrintAck(encoding, compression)))
                             else []
    {
      hide F.Encode, PrintAck;
      var i := 0;
      label compressions: while i < |supportedCompressions|
        invariant i <= |supportedCompressions| && compression == old(compression)
        invariant forall k :: 0 <= k < i ==> supportedCompressions[k] !in compressions
      {
        var j := 0;
        while j < |compressions|
          invariant j <= |compressions| && compression == old(compression)
          invariant supportedCompressions[i] !in compressions[..j]
        {
          if compressions[j] == supportedCompressions[i] {
            compression := compressions[j];
            assert IsFirst(supportedCompressions, compressions, i);
            break compressions;
          }
          j := j + 1;
        }
        i := i + 1;
      }
      i := 0;
      label encodings: while i < |supportedEncodings|
        invariant i <= |supportedEncodings| && encoding == old(encoding)
        invariant forall k :: 0 <= k < i ==> supportedEncodings[k] !in encodings
      {
        var j := 0;
        while j < |encodings|
          invariant j <= |encodings| && encoding == old(encoding)
          invariant supportedEncodings[i] !in encodings[..j]
        {
          if encodings[j] == supportedEncodings[i] {
            encoding := encodings[j];
            assert IsFirst(supportedEncodings, encodings, i);
            break encodings;
          }
          j := j + 1;
        }
        i := i + 1;
      }
      if encoding == [] { return false; }
      proto.WriteHelloAck(0, F.Size32(pingIntervalMs), encoding, compression);
      ok := true;
    }

    method HandleHello(flags: byte, v: byte, encodings: seq<Name>, compressions: seq<Name>)
      modifies this, proto
      ensures pingIntervalMs == old(pingIntervalMs)
      ensures old(isClient || ready) ==> RefusedWith(CODE_INVALID_OP)
      ensures old(!isClient && !ready) && old(version) < v ==> RefusedWith(CODE_UNSUPPORTED_VERSION)
      ensures old(isClient || ready) || old(version) < v ==>
                unchanged(this`ready, this`version, this`encoding, this`compression)
      ensures old(!isClient && !ready) && v <= old(version) ==>
                && Chosen(supportedEncodings, encodings, old(encoding), encoding)
                && Chosen(supportedCompressions, compressions, old(compression), compression)
                && (ready <==> encoding != [])
                && version == (if ready then v else old(version))
                && if ready
                   then StaysOpen()
                        && proto.w == old(proto.w)
                                      + F.Encode(F.HelloAck(0, F.Size32(pingIntervalMs),
                                          PrintAck(encoding, compression)))
                   else RefusedWith(CODE_NO_COMMON_ENCODING)
    {
      hide F.Encode, PrintAck;
      if isClient || ready {
        Terminate(CODE_INVALID_OP);
        return;
      }
      if version < v {
        Terminate(CODE_UNSUPPORTED_VERSION);
        return;
      }
      var ok := SendHelloAck(encodings, compressions);
      if !ok {
        Terminate(CODE_NO_COMMON_ENCODING);
        return;
      }
      version, ready := v, true;
    }

    method HandleHelloAck(flags: byte, interval: u32, enc: Name, comp: Name)
      modifies this, proto
      ensures version == old(version)
      ensures old(!isClient || ready) ==>
                RefusedWith(CODE_INVALID_OP)
                    && unchanged(this`ready, this`encoding, this`compression, this`pingIntervalMs)
      ensures old(isClient && !ready) ==>
                && pingIntervalMs == interval
                && (ready <==> enc in supportedEncodings && (comp == [] || comp in supportedCompressions))
                && encoding == (if enc in supportedEncodings then enc else old(encoding))
                && compression == (if comp != [] && comp in supportedCompressions then comp else old(compression))
                && (ready ==> StaysOpen() && proto.w == old(proto.w))
                && (enc !in supportedEncodings ==> RefusedWith(CODE_INVALID_ENCODING))
                && (enc in supportedEncodings && !ready ==> RefusedWith(CODE_INVALID_COMPRESSION))
    {
      hide F.Encode;
      if !isClient || ready {
        Terminate(CODE_INVALID_OP);
        return;
      }
      pingIntervalMs := interval;

      var validCompression := comp == [];
      if !validCompression {
        var i := 0;
        while i < |supportedCompressions|
          invariant i <= |supportedCompressions| && !validCompression && comp !in supportedCompressions[..i]
        {
          if supportedCompressions[i] == comp {
            compression, validCompression := comp, true;
            break;
          }
          i := i + 1;
        }
      }
      var validEncoding := false;
      var i := 0;
      while i < |supportedEncodings|
        invariant i <= |supportedEncodings| && !validEncoding && enc !in supportedEncodings[..i]
      {
        if supportedEncodings[i] == enc {
          encoding, validEncoding := enc, true;
          break;
        }
        i := i + 1;
      }
      if !validEncoding {
        Terminate(CODE_INVALID_ENCODING);
        return;
      }
      if !validCompression {
        Terminate(CODE_INVALID_COMPRESSION);
        return;
      }
      ready := true;
    }

    /** The peer is going; a side that has said so itself is done. The code is not looked at. */
    method HandleGoAway(flags: byte, code: u16, reason: seq<byte>)
      modifies this`localClosed, this`remoteClosed, this`terminated, proto
      ensures remoteClosed && proto.w == old(proto.w)
      ensures localClosed == old(localClosed) && terminated == (old(terminated) || old(localClosed))
    {
      remoteClosed := true;
      if localClosed { Terminate(CODE_NORMAL); }
    }
  }
}
