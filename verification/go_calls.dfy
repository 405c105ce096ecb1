/**
 Go's calls and the frames they stand for, both ways: what Go's own writer puts on the wire for a call comes back as
 that call, and a received frame's call tells the frame.
 */
module GoCalls {
  import opened Bytes
  import opened GoProtocol
  import opened Settings
  import F = Framing

  /** The frame that says this. */
  function FrameOfCall(c: Call): F.Frame {
    match c
    case HandleHello(flags, version, encodings, compressions) =>
      F.Hello(flags, version, PrintHello(Lists(encodings, compressions)))
    case HandleHelloAck(flags, interval, encoding, compression) =>
      F.HelloAck(flags, interval, PrintAck(encoding, compression))
    case HandlePing(flags, id) => F.Ping(flags, id)
    case HandlePong(flags, id) => F.Pong(flags, id)
    case HandleRequest(flags, id, payload) => F.Request(flags, id, payload)
    case HandleResponse(flags, id, payload) => F.Response(flags, id, payload)
    case HandlePush(flags, payload) => F.Push(flags, payload)
    case HandleError(flags, id, code, reason) => F.Error(flags, id, code, reason)
    case HandleGoAway(flags, code, reason) => F.GoAway(flags, code, reason)
  }

  /** The call is of the kind that has this opcode on the wire. */
  predicate IsKind(c: Call, opcode: byte) {
    match c
    case HandleHello(_, _, _, _) => opcode == 1
    case HandleHelloAck(_, _, _, _) => opcode == 2
    case HandlePing(_, _) => opcode == 3
    case HandlePong(_, _) => opcode == 4
    case HandleRequest(_, _, _) => opcode == 5
    case HandleResponse(_, _, _) => opcode == 6
    case HandlePush(_, _) => opcode == 7
    case HandleGoAway(_, _, _) => opcode == 8
    case HandleError(_, _, _, _) => opcode == 9
  }

  /** A call whose settings, if it has any, Go can read back. */
  predicate Kept(c: Call) {
    match c
    case HandleHello(_, _, encodings, compressions) =>
      BarFree(Lists(encodings, compressions)) && GoReadable(encodings) && GoReadable(compressions)
    case HandleHelloAck(_, _, encoding, compression) => BAR !in encoding && BAR !in compression
    case _ => true
  }

  predicate Fits(c: Call, max: nat) {
    |FrameOfCall(c).Payload()| <= max && |FrameOfCall(c).Payload()| < U32_COUNT
  }

  /** A call's frame leads to just that call exactly when its settings are kept; its first byte tells its kind. */
  lemma CallComesBack(c: Call)
    ensures CallOf(FrameOfCall(c)) == Some(c) <==> Kept(c)
    ensures IsKind(c, F.Encode(FrameOfCall(c))[0])
  {
    hide GoReadHello, GoReadAck, PrintHello, PrintAck, BarFree, GoReadable, F.Middle, Store32;
    match c
    case HandleHello(_, _, encodings, compressions) => GoHelloRoundTrip(Lists(encodings, compressions));
    case HandleHelloAck(_, _, encoding, compression) => GoAckRoundTrip(encoding, compression);
    case _ =>
  }

  /** A received frame makes no call exactly when it is a Hello or HelloAck whose payload holds no bar. Otherwise the
      call's frame is that frame, but for what stands behind a second bar of its settings. */
  lemma FrameComesBack(f: F.Frame)
    ensures CallOf(f).None? <==> f.Handshake() && BAR !in f.payload
    ensures CallOf(f).Some? ==>
              var back := FrameOfCall(CallOf(f).value);
              && (back == f <==> !f.Handshake() || multiset(f.payload)[BAR] == 1)
              && (f.Hello? ==> back.Hello? && back.flags == f.flags && back.version == f.version)
              && (f.HelloAck? ==> back.HelloAck? && back.flags == f.flags && back.pingInterval == f.pingInterval)
              && back.Payload() <= f.Payload()
  {
    hide GoReadHello, GoReadAck, PrintHello, PrintAck;
    BarsDecide(f.Payload());
    PrintedAgain(f.Payload());
  }

  // ---------- written and read ----------

  method Emit(pw: ProtocolWriter, c: Call)
    modifies pw
    ensures pw.w == old(pw.w) + F.Encode(FrameOfCall(c))
  {
    hide F.Encode, PrintHello, PrintAck;
    match c
    case HandleHello(flags, version, encodings, compressions) => pw.WriteHello(flags, version, encodings, compressions);
    case HandleHelloAck(flags, interval, encoding, compression) =>
      pw.WriteHelloAck(flags, interval, encoding, compression);
    case HandlePing(flags, id) => pw.WritePing(flags, id);
    case HandlePong(flags, id) => pw.WritePong(flags, id);
    case HandleRequest(flags, id, payload) => pw.WriteRequest(flags, id, payload);
    case HandleResponse(flags, id, payload) => pw.WriteResponse(flags, id, payload);
    case HandlePush(flags, payload) => pw.WritePush(flags, payload);
    case HandleError(flags, id, code, reason) => pw.WriteError(flags, id, code, reason);
    case HandleGoAway(flags, code, reason) => pw.WriteGoAway(flags, code, reason);
  }

  /** What Go's writer emits for a call, processed by Go's reader, makes just that call, exactly when its settings are
      kept: all of them but for some Hellos and HelloAcks. */
  method ThereAndBack(c: Call, max: nat) returns (calls: seq<Call>, err: Failure, left: seq<byte>)
    requires 0 < max && Fits(c, max)
    ensures calls == [c] <==> Kept(c)
    ensures calls == [c] ==> err == NoError && left == []
  {
    hide F.Encode, F.Next, F.Fields, CallOf, Kept, FrameOfCall;
    var pw := new ProtocolWriter();
    Emit(pw, c);
    assert [] + F.Encode(FrameOfCall(c)) == F.Encode(FrameOfCall(c)) + [] == F.Encode(FrameOfCall(c));
    F.ScanEncoded(FrameOfCall(c), [], max);
    F.FieldsOfEncoded(FrameOfCall(c));
    CallComesBack(c);
    var pr := new ProtocolReader(pw.w, max);
    var ph := new Handler();
    err := pr.Process(ph);
    assert pw.w[..|pw.w|] == pw.w;
    calls, left := ph.calls, pr.br;
    assert calls == [c] ==> calls[0] == c;
  }

  function FramesOfCalls(cs: seq<Call>): (fs: seq<F.Frame>)
    ensures |fs| == |cs| && forall i :: 0 <= i < |cs| ==> fs[i] == FrameOfCall(cs[i])
  {
    seq(|cs|, i requires 0 <= i < |cs| => FrameOfCall(cs[i]))
  }

  /** Whatever frames the peer sends: one call for each, in order, up to the first that makes none. */
  lemma {:induction false} DeliverMeans(fs: seq<F.Frame>)
    ensures var (calls, ok) := Deliver(fs);
            && |calls| <= |fs| && (ok <==> |calls| == |fs|)
            && (!ok ==> CallOf(fs[|calls|]).None?)
            && (forall i :: 0 <= i < |calls| ==> CallOf(fs[i]) == Some(calls[i]))
  {
    hide CallOf;
    if fs != [] && CallOf(fs[0]).Some? { DeliverMeans(fs[1..]); }
  }

  lemma {:induction false} DeliverBack(cs: seq<Call>)
    requires forall c :: c in cs ==> Kept(c)
    ensures Deliver(FramesOfCalls(cs)) == (cs, true)
  {
    hide CallOf, FrameOfCall, Kept;
    if cs != [] {
      CallComesBack(cs[0]);
      assert cs[0] in cs;
      DeliverBack(cs[1..]);
      assert FramesOfCalls(cs)[1..] == FramesOfCalls(cs[1..]) && cs == [cs[0]] + cs[1..];
    }
  }

  /** Any list of calls with settings that are kept, written by Go one after another within the limit: exactly these
      calls come back, in order, every byte used, and then a clean end of stream. */
  method DeliverEncoded(cs: seq<Call>, max: nat) returns (calls: seq<Call>, err: Failure, left: seq<byte>)
    requires 0 < max && forall c :: c in cs ==> Kept(c) && Fits(c, max)
    ensures calls == cs && err == EndOfStream && left == []
  {
    hide F.Encode, CallOf, FrameOfCall, Kept, F.ParseAll, Deliver;
    var pw := new ProtocolWriter();
    ghost var fs := FramesOfCalls(cs);
    for i := 0 to |cs|
      invariant pw.w == F.EncodeAll(fs[..i])
    {
      Emit(pw, cs[i]);
      F.EncodeAllSnoc(fs[..i], fs[i]);
      assert fs[..i + 1] == fs[..i] + [fs[i]];
    }
    assert fs[..|cs|] == fs;
    assert forall i :: 0 <= i < |cs| ==> cs[i] in cs;
    F.ParseEncoded(fs, [], max);
    ParseEmpty(max);
    assert F.EncodeAll(fs) + [] == F.EncodeAll(fs) && fs + [] == fs;
    DeliverBack(cs);
    var pr := new ProtocolReader(pw.w, max);
    var ph := new Handler();
    err := ReadLoop(pr, ph);
    calls, left := ph.calls, pr.br;
  }
}
