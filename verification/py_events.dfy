/**
 What the Python stream handler's events keep of the frames they were made of: everything. An event turned back into
 a frame is the frame it came from, so a list of events tells exactly what was on the wire.
 */
module PyEvents {
  import opened Bytes
  import opened CDecoder
  import opened CStream
  import opened PyStreamHandler
  import Settings
  import F = Framing

  function BytesOf(data: Settings.Option<seq<byte>>): seq<byte> {
    if data.None? then [] else data.value
  }

  /** The frame an event came from: names are put back together with the separators that were between them. */
  function FrameOfEvent(e: Event): F.Frame {
    match e
    case Hello(flags, version, encodings, compressions) =>
      F.Hello(flags, version, Settings.PrintHello(Settings.Lists(encodings, compressions)))
    case HelloAck(flags, interval, encoding, compression) =>
      F.HelloAck(flags, interval, Settings.PrintAck(encoding, compression))
    case Ping(flags, id) => F.Ping(flags, id)
    case Pong(flags, id) => F.Pong(flags, id)
    case Request(flags, id, data) => F.Request(flags, id, BytesOf(data))
    case Response(flags, id, data) => F.Response(flags, id, BytesOf(data))
    case Push(flags, data) => F.Push(flags, BytesOf(data))
    case GoAway(flags, code, reason) => F.GoAway(flags, code, BytesOf(reason))
    case Error(flags, code, id, data) => F.Error(flags, id, code, BytesOf(data))
  }

  /** An event of one of these kinds has no payload exactly when it is None: there is no empty one. */
  predicate NoEmptyData(e: Event) {
    match e
    case Request(_, _, data) => data != Settings.Some([])
    case Response(_, _, data) => data != Settings.Some([])
    case Push(_, data) => data != Settings.Some([])
    case GoAway(_, _, reason) => reason != Settings.Some([])
    case Error(_, _, _, data) => data != Settings.Some([])
    case _ => true
  }

  /** The event is of the frame's kind, told by the opcode it has on the wire. */
  predicate HasOpcode(e: Event, opcode: byte) {
    match e
    case Hello(_, _, _, _) => opcode == 1
    case HelloAck(_, _, _, _) => opcode == 2
    case Ping(_, _) => opcode == 3
    case Pong(_, _) => opcode == 4
    case Request(_, _, _) => opcode == 5
    case Response(_, _, _) => opcode == 6
    case Push(_, _) => opcode == 7
    case GoAway(_, _, _) => opcode == 8
    case Error(_, _, _, _) => opcode == 9
  }

  /** Nothing is lost: turned back, an event is its frame, kind, flags, numbers and payload. A frame has no event
      exactly when it is a Hello or HelloAck whose payload does not hold exactly one bar. */
  lemma NothingLost(f: F.Frame)
    ensures EventOf(f).None? <==> (f.Hello? || f.HelloAck?) && multiset(f.Payload())[Settings.BAR] != 1
    ensures EventOf(f).Some? ==>
              var e := EventOf(f).value;
              FrameOfEvent(e) == f && NoEmptyData(e) && HasOpcode(e, F.Opcode(f))
  {
    hide Settings.PyReadHello, Settings.PyReadAck, Settings.PrintHello, Settings.PrintAck;
    Settings.BarsDecide(f.Payload());
    Settings.PrintedAgain(f.Payload());
  }

  // ---------- lists of events ----------

  function FramesOf(events: seq<Event>): (fs: seq<F.Frame>)
    ensures |fs| == |events|
  {
    if events == [] then [] else [FrameOfEvent(events[0])] + FramesOf(events[1..])
  }

  /** What is heard of a run of frames, turned back, is the run itself up to its first frame that cannot be read. */
  lemma {:induction false} HeardIsSent(fs: seq<F.Frame>)
    ensures var (events, ok) := Hear(fs);
            && FramesOf(events) <= fs
            && (ok <==> |events| == |fs|)
            && (!ok ==> EventOf(fs[|events|]).None?)
    ensures var (events, _) := Hear(fs);
            forall i :: 0 <= i < |events| ==> EventOf(fs[i]) == Settings.Some(events[i])
  {
    hide EventOf, FrameOfEvent;
    if fs != [] && EventOf(fs[0]).Some? {
      HeardIsSent(fs[1..]);
      NothingLost(fs[0]);
      var first, more := EventOf(fs[0]).value, Hear(fs[1..]).0;
      assert ([first] + more)[1..] == more;
      assert fs == [fs[0]] + fs[1..];
    }
  }

  // ---------- pongs ----------

  /** The pongs a sender of these frames should hear: for each ping one with its flags and number, in order. */
  function PongsDue(fs: seq<F.Frame>): seq<Event> {
    if fs == [] then []
    else (if fs[0].Ping? then [Pong(fs[0].flags, fs[0].sequenceId)] else []) + PongsDue(fs[1..])
  }

  /** What is queued in answer to these frames is, for whoever receives it, just the pongs due for those of them that
      were heard: the answers stop where the hearing does. */
  lemma {:induction false} EchoIsHeard(fs: seq<F.Frame>)
    ensures |Hear(fs).0| <= |fs|
    ensures var p := F.ParseAll(Echo(fs), DATA_SIZE_MAX);
            p.end == F.Pending([]) && Hear(p.frames) == (PongsDue(fs[..|Hear(fs).0|]), true)
  {
    hide F.ParseAll, F.Encode, EventOf, Hear;
    if fs == [] || EventOf(fs[0]).None? {
      ParseNothing();
      HearNothing();
      if fs != [] { HearFirst(fs[0], fs[1..]); assert fs == [fs[0]] + fs[1..]; }
    } else {
      var tail, rest := fs[1..], Echo(fs[1..]);
      EchoIsHeard(tail);
      HearFirst(fs[0], tail);
      var n := |Hear(tail).0|;
      assert fs == [fs[0]] + tail && fs[..n + 1] == [fs[0]] + tail[..n] && fs[..n + 1][1..] == tail[..n];
      if fs[0].Ping? {
        var pong: F.Frame := F.Pong(fs[0].flags, fs[0].sequenceId);
        F.ParseOneEncoded(pong, rest, DATA_SIZE_MAX);
        HearFirst(pong, F.ParseAll(rest, DATA_SIZE_MAX).frames);
        PongIsHeard(fs[0].flags, fs[0].sequenceId);
      } else {
        assert [] + rest == rest && [] + PongsDue(tail[..n]) == PongsDue(tail[..n]);
      }
    }
  }

  lemma PongIsHeard(flags: byte, id: u32)
    ensures EventOf(F.Pong(flags, id)) == Settings.Some(Pong(flags, id))
  {
  }
}
