/** Whole runs of the Python stream handler: a stream received in chunks, and one handler's writes read by another. */
module PySessions {
  import opened Bytes
  import opened CBuffer
  import opened CDecoder
  import opened CEncoder
  import opened CStream
  import opened PyEvents
  import opened PyStreamHandler
  import Settings
  import F = Framing

  lemma {:induction false} HearConcat(a: seq<F.Frame>, b: seq<F.Frame>)
    ensures var (x, ok) := Hear(a);
            Hear(a + b) == if ok then (x + Hear(b).0, Hear(b).1) else (x, false)
    ensures Echo(a + b) == if Hear(a).1 then Echo(a) + Echo(b) else Echo(a)
  {
    hide EventOf, PongFor;
    if a == [] {
      assert a + b == b && [] + Hear(b).0 == Hear(b).0 && [] + Echo(b) == Echo(b);
    } else {
      HearConcat(a[1..], b);
      assert (a + b)[1..] == a[1..] + b;
      if EventOf(a[0]).Some? {
        Assoc([EventOf(a[0]).value], Hear(a[1..]).0, Hear(b).0);
        Assoc(PongFor(a[0]), Echo(a[1..]), Echo(b));
      }
    }
  }

  /** Every frame of the stream can be read, and the stream is not refused. */
  predicate Good(p: F.Parsed) {
    Hear(p.frames).1 && p.end.Pending?
  }

  /** Feeds chunks until a call raises. With memory to spare, the first call that raises is the one whose chunk spoils
      the stream; the events are those of everything before that chunk, and the pongs queued are those of everything. */
  method Session(heap: Heap, h: LoquiStreamHandler, chunks: seq<seq<byte>>) returns (events: seq<Event>, fed: nat)
    requires h.Valid() && !h.decodeBuffer.decodeComplete && NoFailure(heap.plan)
    modifies h, h.decodeBuffer, h.decodeBuffer.buffer, h.decodeBuffer.buffer.buf, h.writeBuffer, h.writeBuffer.buf, heap
    ensures h.Valid() && fed <= |chunks|
    ensures var before := F.ParseAll(old(h.Seen()) + Concat(chunks[..fed]), DATA_SIZE_MAX);
            Hear(before.frames) == (events, true) && FramesOf(events) == before.frames && before.end.Pending?
            && (fed == |chunks| ==>
                  before.end.rest == h.Seen() && h.Unwritten() == old(h.Unwritten()) + Echo(before.frames))
    ensures fed < |chunks| ==>
              var p := F.ParseAll(old(h.Seen()) + Concat(chunks[..fed + 1]), DATA_SIZE_MAX);
              !Good(p) && h.Unwritten() == old(h.Unwritten()) + Echo(p.frames)
    ensures fresh(h.writeBuffer.buf) || h.writeBuffer.buf == old(h.writeBuffer.buf)
    ensures NoFailure(heap.plan) && (old(h.decodeBuffer.Tight()) ==> h.decodeBuffer.Tight())
  {
    hide NoFailure, F.ParseAll, F.Next, Hear, Echo, FramesOf, Decoder.Sound, Decoder.Tight, Decoder.Seen;
    ghost var start, queued := h.Seen(), h.Unwritten();
    HearNothing();
    h.decodeBuffer.UnfinishedIsMore();
    ParseMore(start);
    assert start + Concat(chunks[..0]) == start && queued + [] == queued;
    events, fed := [], 0;
    while fed < |chunks|
      invariant fed <= |chunks| && h.Valid() && !h.decodeBuffer.decodeComplete && NoFailure(heap.plan)
      invariant fresh(h.decodeBuffer.buffer.buf) || h.decodeBuffer.buffer.buf == old(h.decodeBuffer.buffer.buf)
      invariant fresh(h.writeBuffer.buf) || h.writeBuffer.buf == old(h.writeBuffer.buf)
      invariant var p := F.ParseAll(start + Concat(chunks[..fed]), DATA_SIZE_MAX);
                Hear(p.frames) == (events, true) && p.end == F.Pending(h.Seen())
                    && h.Unwritten() == queued + Echo(p.frames)
      invariant old(h.decodeBuffer.Tight()) ==> h.decodeBuffer.Tight()
    {
      NextChunk(start, chunks, fed);
      ghost var before := F.ParseAll(start + Concat(chunks[..fed]), DATA_SIZE_MAX);
      ghost var q := F.ParseAll(h.Seen() + chunks[fed], DATA_SIZE_MAX);
      Assoc(queued, Echo(before.frames), Echo(q.frames));
      h.decodeBuffer.UnfinishedIsMore();
      ParseMore(h.Seen());
      assert chunks[fed] == [] ==> h.Seen() + chunks[fed] == h.Seen() && h.Unwritten() + [] == h.Unwritten();
      var r := h.OnBytesReceived(heap, chunks[fed]);
      match r {
        case Events(more) => events, fed := events + more, fed + 1;
        case _ =>
          HeardIsSent(before.frames);
          return;
      }
    }
    assert chunks[..fed] == chunks;
    HeardIsSent(F.ParseAll(start + Concat(chunks), DATA_SIZE_MAX).frames);
  }

  /** How the parse, the events and the pongs of what was received grow by one chunk. */
  lemma NextChunk(start: seq<byte>, chunks: seq<seq<byte>>, i: nat)
    requires i < |chunks| && F.ParseAll(start + Concat(chunks[..i]), DATA_SIZE_MAX).end.Pending?
    requires Hear(F.ParseAll(start + Concat(chunks[..i]), DATA_SIZE_MAX).frames).1
    ensures var before, p := F.ParseAll(start + Concat(chunks[..i]), DATA_SIZE_MAX),
        F.ParseAll(start + Concat(chunks[..i + 1]), DATA_SIZE_MAX);
            var q := F.ParseAll(before.end.rest + chunks[i], DATA_SIZE_MAX);
            && p == F.Parsed(before.frames + q.frames, q.end)
            && Hear(p.frames) == (Hear(before.frames).0 + Hear(q.frames).0, Hear(q.frames).1)
            && Echo(p.frames) == Echo(before.frames) + Echo(q.frames)
  {
    hide F.ParseAll, Hear, Echo;
    var sofar := start + Concat(chunks[..i]);
    F.ParseSplit(sofar, chunks[i], DATA_SIZE_MAX);
    ConcatSnoc(chunks[..i], chunks[i]);
    assert chunks[..i + 1] == chunks[..i] + [chunks[i]];
    Assoc(start, Concat(chunks[..i]), chunks[i]);
    var before := F.ParseAll(sofar, DATA_SIZE_MAX);
    HearConcat(before.frames, F.ParseAll(before.end.rest + chunks[i], DATA_SIZE_MAX).frames);
  }

  /** The front of these bytes is what raises: refused, or a whole frame that cannot be read. */
  predicate RaisesAtFront(s: seq<byte>) {
    match F.Next(s, DATA_SIZE_MAX)
    case More => false
    case Whole(n) => EventOf(F.Fields(s[..n])).None?
    case _ => true
  }

  /** When a session fails, everything the stream held up to where it spoils has been handed out if and only if the
      pending bytes and the failing chunk spoil the stream with their very first frame: events of frames before that
      one, finished in the same call, are lost. */
  lemma DeliveredAll(start: seq<byte>, chunks: seq<seq<byte>>, fed: nat)
    requires fed < |chunks|
    requires Good(F.ParseAll(start + Concat(chunks[..fed]), DATA_SIZE_MAX))
    requires !Good(F.ParseAll(start + Concat(chunks[..fed + 1]), DATA_SIZE_MAX))
    ensures var before, whole := F.ParseAll(start + Concat(chunks[..fed]), DATA_SIZE_MAX),
        F.ParseAll(start + Concat(chunks), DATA_SIZE_MAX);
            Hear(before.frames).0 == Hear(whole.frames).0 <==> RaisesAtFront(before.end.rest + chunks[fed])
  {
    hide F.ParseAll, Hear, Echo, RaisesAtFront;
    NextChunk(start, chunks, fed);
    var here, after := start + Concat(chunks[..fed + 1]), Concat(chunks[fed + 1..]);
    ConcatSplit(chunks, fed + 1);
    Assoc(start, Concat(chunks[..fed + 1]), after);
    F.ParseSplit(here, after, DATA_SIZE_MAX);
    var p := F.ParseAll(here, DATA_SIZE_MAX);
    if p.end.Pending? { HearConcat(p.frames, F.ParseAll(p.end.rest + after, DATA_SIZE_MAX).frames); }
    NothingBefore(F.ParseAll(start + Concat(chunks[..fed]), DATA_SIZE_MAX).end.rest + chunks[fed]);
  }

  lemma NothingBefore(s: seq<byte>)
    requires !Good(F.ParseAll(s, DATA_SIZE_MAX))
    ensures Hear(F.ParseAll(s, DATA_SIZE_MAX).frames).0 == [] <==> RaisesAtFront(s)
  {
    hide F.Next, F.Fields, EventOf;
    HearNothing();
    match F.Next(s, DATA_SIZE_MAX)
    case Whole(n) =>
      ParseWhole(s, n);
      HearFirst(F.Fields(s[..n]), F.ParseAll(s[n..], DATA_SIZE_MAX).frames);
    case _ =>
  }

  /** So, unlike the frames of a stream that is not refused, what is handed out before a refusal depends on the cuts:
      a ping and a byte that is no opcode, received together, raise and yield nothing; received apart, the ping comes
      through. */
  method CutsMatter() returns (together: seq<Event>, apart: seq<Event>)
    ensures together == [] && apart == [Ping(0, 1)]
  {
    hide F.ParseAll, F.Next, F.Encode, Hear, Concat, NoFailure;
    var ping, bad := F.Encode(F.Ping(0, 1)), [0xFF];
    PingThenBad();
    Joined(ping, bad);
    together := FromTheStart([ping + bad]);
    apart := FromTheStart([ping, bad]);
  }

  /** A session of a new handler, with memory to spare. */
  method FromTheStart(chunks: seq<seq<byte>>) returns (events: seq<Event>)
    ensures exists fed :: 0 <= fed <= |chunks| && Ends(chunks, fed, events)
  {
    hide F.ParseAll, F.Next, Hear, Echo, Concat, Decoder.Sound, Decoder.Tight, Decoder.Seen;
    var heap := new Heap([]);
    var h := new LoquiStreamHandler(heap);
    var fed;
    forall i | 0 <= i <= |chunks|
        ensures h.Seen() + Concat(chunks[..i]) == Concat(chunks[..i]) { Bare(Concat(chunks[..i])); }
    events, fed := Session(heap, h, chunks);
    assert Ends(chunks, fed, events);
  }

  /** A session over these chunks hands out these events and then, unless all were fed, raises. */
  ghost predicate Ends(chunks: seq<seq<byte>>, fed: int, events: seq<Event>)
    requires 0 <= fed <= |chunks|
  {
    && Hear(F.ParseAll(Concat(chunks[..fed]), DATA_SIZE_MAX).frames) == (events, true)
    && Good(F.ParseAll(Concat(chunks[..fed]), DATA_SIZE_MAX))
    && (fed < |chunks| ==> !Good(F.ParseAll(Concat(chunks[..fed + 1]), DATA_SIZE_MAX)))
  }

  lemma Bare(s: seq<byte>)
    ensures [] + s == s
  {
  }

  lemma Joined(a: seq<byte>, b: seq<byte>)
    ensures var one, two := [a + b], [a, b];
            && one[..0] == [] && one[..1] == one && two[..0] == [] && two[..1] == [a] && two[..2] == two
            && Concat([]) == [] && Concat([a]) == a && Concat(one) == a + b && Concat(two) == a + b
  {
    assert Concat([a]) == a + Concat([]) && Concat([b]) == b + Concat([]);
    assert [a, b][1..] == [b];
  }

  lemma PingThenBad()
    ensures var ping, bad := F.Encode(F.Ping(0, 1)), [0xFF];
            && F.ParseAll([], DATA_SIZE_MAX) == F.Parsed([], F.Pending([]))
            && F.ParseAll(ping, DATA_SIZE_MAX) == F.Parsed([F.Ping(0, 1)], F.Pending([]))
            && !Good(F.ParseAll(ping + bad, DATA_SIZE_MAX))
            && Hear([]) == ([], true) && Hear([F.Ping(0, 1)]) == ([Ping(0, 1)], true)
  {
    hide F.Encode, Hear, F.Next, F.ParseAll;
    var f: F.Frame, bad := F.Ping(0, 1), [0xFF];
    ParseNothing();
    F.ParseOneEncoded(f, [], DATA_SIZE_MAX);
    F.ParseOneEncoded(f, bad, DATA_SIZE_MAX);
    assert F.Encode(f) + [] == F.Encode(f);
    NoOpcode();
    HearNothing();
    HearFirst(f, []);
    assert [f] + [] == [f] && [Ping(0, 1)] + [] == [Ping(0, 1)];
  }

  lemma NoOpcode()
    ensures F.ParseAll([0xFF], DATA_SIZE_MAX) == F.Parsed([], F.Refused(F.BadOpcode(0xFF)))
  {
  }

  // ---------- one handler's writes, read by another ----------

  /** Takes everything queued, in pieces of the given sizes and then the rest. */
  method TakeAll(heap: Heap, h: LoquiStreamHandler, sizes: seq<nat>) returns (pieces: seq<seq<byte>>)
    requires h.Valid() && NoFailure(heap.plan)
    modifies h`writeBufferPosition, h.writeBuffer, h.writeBuffer.buf, heap
    ensures h.Valid() && (fresh(h.writeBuffer.buf) || h.writeBuffer.buf == old(h.writeBuffer.buf))
    ensures Concat(pieces) == old(h.Unwritten()) && h.Unwritten() == [] && NoFailure(heap.plan)
  {
    hide NoFailure, Decoder.Sound, Concat, LoquiStreamHandler.Unwritten;
    pieces := [];
    var i := 0;
    NoPieces(h.Unwritten());
    while h.WriteBufferLen() > 0
      invariant h.Valid() && (fresh(h.writeBuffer.buf) || h.writeBuffer.buf == old(h.writeBuffer.buf))
          && NoFailure(heap.plan)
      invariant Concat(pieces) + h.Unwritten() == old(h.Unwritten())
      decreases h.WriteBufferLen()
    {
      var size := if i < |sizes| && sizes[i] > 0 then sizes[i] else h.WriteBufferLen();
      OnePiece(pieces, h.Unwritten(), if size > h.WriteBufferLen() then h.WriteBufferLen() else size);
      var bytes := h.WriteBufferGetBytes(heap, size, true);
      pieces, i := pieces + [bytes.value], i + 1;
    }
    NoPieces(Concat(pieces));
  }

  lemma NoPieces(s: seq<byte>)
    ensures Concat([]) + s == s && s + [] == s
  {
  }

  lemma OnePiece(pieces: seq<seq<byte>>, queued: seq<byte>, n: nat)
    requires n <= |queued|
    ensures Concat(pieces + [queued[..n]]) + queued[n..] == Concat(pieces) + queued
  {
    ConcatSnoc(pieces, queued[..n]);
    Assoc(Concat(pieces), queued[..n], queued[n..]);
    assert queued[..n] + queued[n..] == queued;
  }

  method QueueAll(heap: Heap, h: LoquiStreamHandler, fs: seq<F.Frame>)
    requires h.Valid() && h.Unwritten() == [] && NoFailure(heap.plan)
    requires forall f :: f in fs ==> |f.Payload()| <= DATA_SIZE_MAX && (f.Hello? ==> f.version == F.VERSION)
    modifies h.writeBuffer, h.writeBuffer.buf, heap
    ensures h.Valid() && (fresh(h.writeBuffer.buf) || h.writeBuffer.buf == old(h.writeBuffer.buf))
    ensures h.Unwritten() == F.EncodeAll(fs) && NoFailure(heap.plan)
  {
    hide NoFailure, F.Encode, F.Header, Decoder.Sound, LoquiStreamHandler.Unwritten;
    for i := 0 to |fs|
      invariant h.Valid() && (fresh(h.writeBuffer.buf) || h.writeBuffer.buf == old(h.writeBuffer.buf))
          && NoFailure(heap.plan)
      invariant h.Unwritten() == F.EncodeAll(fs[..i])
    {
      assert fs[i] in fs;
      var ok := h.Enqueue(heap, fs[i]);
      F.EncodeAllSnoc(fs[..i], fs[i]);
      assert fs[..i + 1] == fs[..i] + [fs[i]];
    }
    assert fs[..|fs|] == fs;
  }

  /** A session over a good stream, from a frame's start: everything is fed and heard. */
  method HearAll(heap: Heap, h: LoquiStreamHandler, chunks: seq<seq<byte>>) returns (events: seq<Event>)
    requires h.Valid() && !h.decodeBuffer.decodeComplete && NoFailure(heap.plan) && h.Seen() == []
    requires forall i :: 0 <= i <= |chunks| ==> Good(F.ParseAll([] + Concat(chunks[..i]), DATA_SIZE_MAX))
    modifies h, h.decodeBuffer, h.decodeBuffer.buffer, h.decodeBuffer.buffer.buf, h.writeBuffer, h.writeBuffer.buf, heap
    ensures h.Valid() && NoFailure(heap.plan)
    ensures fresh(h.writeBuffer.buf) || h.writeBuffer.buf == old(h.writeBuffer.buf)
    ensures var p := F.ParseAll([] + Concat(chunks), DATA_SIZE_MAX);
            Hear(p.frames) == (events, true) && FramesOf(events) == p.frames
            && h.Unwritten() == old(h.Unwritten()) + Echo(p.frames)
  {
    hide NoFailure, F.ParseAll, Hear, Echo, FramesOf, Concat, Decoder.Sound, Decoder.Tight, Decoder.Seen,
        LoquiStreamHandler.Unwritten;
    var fed;
    events, fed := Session(heap, h, chunks);
    assert chunks[..|chunks|] == chunks;
  }

  /** Frames that can be read, encoded and cut anywhere, are a good stream at every cut. */
  lemma WholeIsGood(fs: seq<F.Frame>, pieces: seq<seq<byte>>)
    requires forall f :: f in fs ==> |f.Payload()| <= DATA_SIZE_MAX && EventOf(f).Some?
    requires Concat(pieces) == F.EncodeAll(fs)
    ensures F.ParseAll([] + Concat(pieces), DATA_SIZE_MAX) == F.Parsed(fs, F.Pending([]))
    ensures Hear(fs).1
    ensures forall i :: 0 <= i <= |pieces| ==> Good(F.ParseAll([] + Concat(pieces[..i]), DATA_SIZE_MAX))
  {
    hide F.Encode, F.EncodeAll, F.ParseAll, EventOf, Hear, Concat;
    F.ParseEncoded(fs, [], DATA_SIZE_MAX);
    ParseNothing();
    assert forall i :: 0 <= i < |fs| ==> fs[i] in fs;
    HeardIsSent(fs);
    Bare(Concat(pieces));
    assert F.EncodeAll(fs) + [] == F.EncodeAll(fs) && fs + [] == fs;
    forall i | 0 <= i <= |pieces|
        ensures Good(F.ParseAll([] + Concat(pieces[..i]), DATA_SIZE_MAX)) { GoodUpTo([], pieces, i); }
  }

  /** What comes before a good stream's end is good. */
  lemma GoodUpTo(start: seq<byte>, chunks: seq<seq<byte>>, i: nat)
    requires i <= |chunks| && Good(F.ParseAll(start + Concat(chunks), DATA_SIZE_MAX))
    ensures Good(F.ParseAll(start + Concat(chunks[..i]), DATA_SIZE_MAX))
  {
    hide F.ParseAll, Hear, Echo;
    var here, after := start + Concat(chunks[..i]), Concat(chunks[i..]);
    ConcatSplit(chunks, i);
    Assoc(start, Concat(chunks[..i]), after);
    F.ParseSplit(here, after, DATA_SIZE_MAX);
    var p := F.ParseAll(here, DATA_SIZE_MAX);
    if p.end.Pending? { HearConcat(p.frames, F.ParseAll(p.end.rest + after, DATA_SIZE_MAX).frames); }
  }

  /** So are the answers to them. */
  lemma AnswersAreGood(fs: seq<F.Frame>, pieces: seq<seq<byte>>)
    requires Sendable(fs) && Concat(pieces) == Echo(fs)
    ensures Hear(F.ParseAll([] + Concat(pieces), DATA_SIZE_MAX).frames) == (PongsDue(fs), true)
    ensures forall i :: 0 <= i <= |pieces| ==> Good(F.ParseAll([] + Concat(pieces[..i]), DATA_SIZE_MAX))
  {
    hide F.ParseAll, EventOf, Hear, Echo, PongsDue, Concat;
    assert forall i :: 0 <= i < |fs| ==> fs[i] in fs;
    HeardIsSent(fs);
    EchoIsHeard(fs);
    assert fs[..|fs|] == fs;
    Bare(Concat(pieces));
    forall i | 0 <= i <= |pieces|
        ensures Good(F.ParseAll([] + Concat(pieces[..i]), DATA_SIZE_MAX)) { GoodUpTo([], pieces, i); }
  }

  /** What can be queued and read. */
  predicate Sendable(fs: seq<F.Frame>) {
    forall f :: f in fs ==> |f.Payload()| <= DATA_SIZE_MAX && (f.Hello? ==> f.version == F.VERSION) && EventOf(f).Some?
  }

  /** A new handler that has queued these frames, and what was taken off it. */
  method Sender(heap: Heap, fs: seq<F.Frame>, sizes: seq<nat>)
    returns (h: LoquiStreamHandler, pieces: seq<seq<byte>>)
    requires NoFailure(heap.plan) && Sendable(fs)
    modifies heap
    ensures fresh(h) && fresh(h.decodeBuffer) && fresh(h.decodeBuffer.buffer) && fresh(h.decodeBuffer.buffer.buf)
    ensures fresh(h.writeBuffer) && fresh(h.writeBuffer.buf)
    ensures h.Valid() && h.Seen() == [] && !h.decodeBuffer.decodeComplete && h.Unwritten() == []
    ensures Concat(pieces) == F.EncodeAll(fs) && NoFailure(heap.plan)
  {
    hide NoFailure, F.EncodeAll, EventOf, Concat, Decoder.Sound, Decoder.Tight, Decoder.Seen,
        LoquiStreamHandler.Unwritten;
    h := new LoquiStreamHandler(heap);
    QueueAll(heap, h, fs);
    pieces := TakeAll(heap, h, sizes);
  }

  /** A new handler that receives them, and what was taken off it. */
  method Receiver(heap: Heap, fs: seq<F.Frame>, pieces: seq<seq<byte>>, sizes: seq<nat>)
    returns (events: seq<Event>, answers: seq<seq<byte>>)
    requires NoFailure(heap.plan) && Sendable(fs) && Concat(pieces) == F.EncodeAll(fs)
    modifies heap
    ensures FramesOf(events) == fs && Concat(answers) == Echo(fs) && NoFailure(heap.plan)
  {
    hide NoFailure, F.EncodeAll, F.ParseAll, EventOf, Hear, Echo, FramesOf, Concat, Decoder.Sound, Decoder.Tight,
        Decoder.Seen, LoquiStreamHandler.Unwritten;
    WholeIsGood(fs, pieces);
    var h := new LoquiStreamHandler(heap);
    events := HearAll(heap, h, pieces);
    Bare(Echo(fs));
    answers := TakeAll(heap, h, sizes);
  }

  /** Frames queued on one handler, taken off in any pieces and received by another, whose answers are taken off in any
      pieces and received by the first: the other's events, turned back into frames, are the frames that were sent, and
      the first hears exactly one pong for each of its pings, with the ping's flags and number, in order. */
  method Exchange(sender: Heap, receiver: Heap, fs: seq<F.Frame>, sizes: seq<nat>)
    returns (events: seq<Event>, back: seq<Event>)
    requires NoFailure(sender.plan) && NoFailure(receiver.plan) && sender != receiver
    requires Sendable(fs)
    modifies sender, receiver
    ensures FramesOf(events) == fs
    ensures back == PongsDue(fs)
  {
    hide NoFailure, Sendable, F.EncodeAll, F.ParseAll, Hear, Echo, PongsDue, FramesOf, Concat, Decoder.Sound,
        Decoder.Tight, Decoder.Seen, LoquiStreamHandler.Unwritten;
    var h, pieces := Sender(sender, fs, sizes);
    var answers;
    events, answers := Receiver(receiver, fs, pieces, sizes);
    AnswersAreGood(fs, answers);
    back := HearAll(sender, h, answers);
  }
}
