/**
 What the C decoder comes to over a whole stream, for a caller that feeds it all of it: whatever the chunks and
 whichever allocations fail. Module PyStreamHandler is the caller the repository has, which gives up on the first
 failure.
 */
module CStream {
  import opened Bytes
  import opened CBuffer
  import opened CEncoder
  import opened CDecoder
  import opened Framing
  import Settings

  /** The answer a finished call stands for, as the one-shot parser would give it. */
  predicate Reports(end: End, status: Status, left: seq<byte>) {
    match status
    case NeedsMore => end == Pending(left)
    case InvalidOpcode => end.Refused? && end.why.BadOpcode?
    case InvalidSize => end.Refused? && end.why.TooLarge?
    case _ => false
  }

  class Feeder {
    const decoder: Decoder

    function Seen(): seq<byte>
      requires decoder.buffer.Valid()
      reads decoder, decoder.buffer, decoder.buffer.buf
    {
      decoder.Seen()
    }

    /** Ready for more bytes: the current frame is unfinished. */
    ghost predicate Ready()
      reads decoder, decoder.buffer, decoder.buffer.buf
      ensures Ready() ==> decoder.Valid() && decoder.buffer.Valid()
    {
      decoder.Valid() && !decoder.decodeComplete
    }

    constructor ()
      ensures Ready() && Seen() == [] && decoder.Tight()
      ensures fresh(decoder) && fresh(decoder.buffer) && fresh(decoder.buffer.buf)
    {
      decoder := new Decoder();
    }

    /** One call of the decoder: on COMPLETE the frame is taken out and the decoder reset, after an allocation failure
        the bytes not yet consumed are to be fed again. */
    method Feed(heap: Heap, rest: seq<byte>) returns (out: seq<Frame>, status: Status, k: nat)
      requires Ready() && rest != []
      modifies decoder, decoder.buffer, decoder.buffer.buf, heap
      ensures decoder.buffer.Valid() && (fresh(decoder.buffer.buf) || decoder.buffer.buf == old(decoder.buffer.buf))
      ensures k <= |rest| && (status == NeedsMore ==> k > 0 || |heap.plan| < |old(heap.plan)|)
          && |heap.plan| <= |old(heap.plan)|
      ensures var p := ParseAll(old(Seen()) + rest, DATA_SIZE_MAX);
              if status == NeedsMore
                  then var tail := ParseAll(Seen() + rest[k..], DATA_SIZE_MAX); p == Parsed(out + tail.frames, tail.end)
              else out == p.frames == [] && Reports(p.end, status, Seen())
      ensures status == NeedsMore ==> Ready()
      ensures NoFailure(old(heap.plan)) ==> NoFailure(heap.plan)
      ensures NoFailure(old(heap.plan)) && old(decoder.Tight())
          ==> decoder.Bounded() && (status == NeedsMore ==> decoder.Tight())
    {
      hide Next, Fields, ParseAll, Fed, NoFailure, Decoder.Sound, Decoder.Tight, Decoder.Bounded, Decoder.Seen;
      ghost var pre := Seen();
      decoder.UnfinishedIsMore();
      status, k := decoder.ReadData(heap, rest, 0, DATA_SIZE_MAX);
      FedParse(pre, rest, k, status, Seen());
      out := [];
      if status == Complete {
        out := [decoder.TakeFrame(DATA_SIZE_MAX)];
        decoder.Reset();
        decoder.TightIsBounded();
        assert Seen() + rest[k..] == rest[k..];
        status := NeedsMore;
      } else if status == MemoryError {
        status := NeedsMore;
      }
    }

    /** Feeds one chunk. Whatever allocations fail, the frames handed out are those a one-shot parse of the pending
        bytes and the chunk gives, and nothing is lost, repeated or read past a frame's end. */
    method FeedChunk(heap: Heap, data: seq<byte>) returns (frames: seq<Frame>, status: Status)
      requires Ready()
      modifies decoder, decoder.buffer, decoder.buffer.buf, heap
      ensures decoder.buffer.Valid() && (fresh(decoder.buffer.buf) || decoder.buffer.buf == old(decoder.buffer.buf))
      ensures var p := ParseAll(old(Seen()) + data, DATA_SIZE_MAX);
              frames == p.frames && Reports(p.end, status, Seen())
      ensures status == NeedsMore ==> Ready()
      ensures NoFailure(old(heap.plan)) ==> NoFailure(heap.plan)
      ensures NoFailure(old(heap.plan)) && old(decoder.Tight())
          ==> decoder.Bounded() && (status == NeedsMore ==> decoder.Tight())
    {
      hide Next, ParseAll, NoFailure, Decoder.Sound, Decoder.Tight, Decoder.Bounded, Decoder.Seen;
      ghost var all := ParseAll(Seen() + data, DATA_SIZE_MAX);
      frames, status := [], NeedsMore;
      var pos := 0;
      assert data[0..] == data;
      while pos < |data|
        invariant pos <= |data| && Ready() && status == NeedsMore
        invariant fresh(decoder.buffer.buf) || decoder.buffer.buf == old(decoder.buffer.buf)
        invariant var tail := ParseAll(Seen() + data[pos..], DATA_SIZE_MAX);
                  all == Parsed(frames + tail.frames, tail.end)
        invariant NoFailure(old(heap.plan)) ==> NoFailure(heap.plan)
        invariant NoFailure(old(heap.plan)) && old(decoder.Tight()) ==> decoder.Tight()
        decreases |data| - pos, |heap.plan|
      {
        ghost var here := ParseAll(Seen() + data[pos..], DATA_SIZE_MAX);
        var out, k;
        out, status, k := Feed(heap, data[pos..]);
        DropDrop(data, pos, k);
        if status != NeedsMore {
          assert all.frames == frames + [] == frames;
          return;
        }
        Onward(all, frames, out, here, ParseAll(Seen() + data[pos + k..], DATA_SIZE_MAX));
        frames, pos := frames + out, pos + k;
      }
      decoder.UnfinishedIsMore();
      assert Seen() + data[pos..] == Seen();
      ParseMore(Seen());
      decoder.TightIsBounded();
    }

    /** Feeds chunks until the stream is refused. The cuts do not matter: the outcome is the one-shot parse of
        the whole stream. */
    method OnChunks(heap: Heap, chunks: seq<seq<byte>>) returns (frames: seq<Frame>, status: Status)
      requires Ready()
      modifies decoder, decoder.buffer, decoder.buffer.buf, heap
      ensures decoder.buffer.Valid() && (fresh(decoder.buffer.buf) || decoder.buffer.buf == old(decoder.buffer.buf))
      ensures var p := ParseAll(old(Seen()) + Concat(chunks), DATA_SIZE_MAX);
              frames == p.frames && Reports(p.end, status, Seen())
      ensures status == NeedsMore ==> Ready()
      ensures NoFailure(old(heap.plan)) && old(decoder.Tight())
          ==> decoder.Bounded() && (status == NeedsMore ==> decoder.Tight())
    {
      hide Next, ParseAll, Decoder.Sound, Decoder.Tight, Decoder.Bounded, Decoder.Seen;
      frames, status := [], NeedsMore;
      var i := 0;
      ghost var start := Seen();
      decoder.UnfinishedIsMore();
      ParseMore(start);
      assert start + Concat(chunks[..0]) == start;
      while i < |chunks|
        invariant i <= |chunks| && Ready() && status == NeedsMore
        invariant fresh(decoder.buffer.buf) || decoder.buffer.buf == old(decoder.buffer.buf)
        invariant ParseAll(start + Concat(chunks[..i]), DATA_SIZE_MAX) == Parsed(frames, Pending(Seen()))
        invariant NoFailure(old(heap.plan)) ==> NoFailure(heap.plan)
        invariant NoFailure(old(heap.plan)) && old(decoder.Tight()) ==> decoder.Tight()
      {
        ghost var sofar := start + Concat(chunks[..i]);
        ParseSplit(sofar, chunks[i], DATA_SIZE_MAX);
        var more;
        more, status := FeedChunk(heap, chunks[i]);
        frames := frames + more;
        ConcatSnoc(chunks[..i], chunks[i]);
        assert chunks[..i + 1] == chunks[..i] + [chunks[i]];
        assert sofar + chunks[i] == start + Concat(chunks[..i + 1]);
        if status != NeedsMore {
          ghost var here := start + Concat(chunks[..i + 1]);
          ParseSplit(here, Concat(chunks[i + 1..]), DATA_SIZE_MAX);
          ConcatSplit(chunks, i + 1);
          assert here + Concat(chunks[i + 1..]) == start + Concat(chunks);
          return;
        }
        i := i + 1;
      }
      assert chunks[..i] == chunks;
      decoder.TightIsBounded();
    }
  }

  /** What a call's verdict means for the parse of everything from here on. */
  lemma FedParse(pre: seq<byte>, rest: seq<byte>, k: int, status: Status, post: seq<byte>)
    requires Fed(pre, rest, k, status, post, DATA_SIZE_MAX)
    ensures 0 <= k <= |rest| && (status == NeedsMore ==> k == |rest|)
    ensures status == Complete && Next(pre, DATA_SIZE_MAX) == More ==> k > 0
    ensures var p := ParseAll(pre + rest, DATA_SIZE_MAX);
            match status
            case Complete =>
              var tail := ParseAll(rest[k..], DATA_SIZE_MAX);
              post != [] && 0 < HeaderLen(post[0]) <= |post|
              && p == Parsed([Fields(post)] + tail.frames, tail.end)
            case InvalidOpcode => p.frames == [] && Reports(p.end, status, post)
            case InvalidSize => p.frames == [] && Reports(p.end, status, post)
            case _ => post + rest[k..] == pre + rest
  {
    hide Next, Fields, HeaderLen;
    var s := pre + rest;
    Rejoin(pre, rest, k);
    if status == Complete {
      ScanExact(s, DATA_SIZE_MAX);
      WholeShape(post, DATA_SIZE_MAX);
      ParseWhole(s, |post|);
    }
  }

  /** One step of a parse under way: frames handed out, those just finished, and the parse from there on. */
  lemma Onward(all: Parsed, frames: seq<Frame>, out: seq<Frame>, here: Parsed, next: Parsed)
    requires all == Parsed(frames + here.frames, here.end) && here == Parsed(out + next.frames, next.end)
    ensures all == Parsed(frames + out + next.frames, next.end)
  {
    Assoc(frames, out, next.frames);
  }

  lemma Rejoin(pre: seq<byte>, rest: seq<byte>, k: nat)
    requires k <= |rest|
    ensures var post, s := pre + rest[..k], pre + rest;
            post + rest[k..] == s && s[..|post|] == post && s[|post|..] == rest[k..] && (k == 0 ==> post == pre)
  {
  }

  lemma ParseWhole(s: seq<byte>, n: nat)
    requires Next(s, DATA_SIZE_MAX) == Whole(n)
    ensures var tail := ParseAll(s[n..], DATA_SIZE_MAX);
            s[..n] != [] && 0 < HeaderLen(s[0]) <= n
                && ParseAll(s, DATA_SIZE_MAX) == Parsed([Fields(s[..n])] + tail.frames, tail.end)
  {
    hide Fields, Load32;
  }

  lemma ParseMore(s: seq<byte>)
    requires Next(s, DATA_SIZE_MAX) == More
    ensures ParseAll(s, DATA_SIZE_MAX) == Parsed([], Pending(s))
  {
  }

  lemma ParseNothing()
    ensures ParseAll([], DATA_SIZE_MAX) == Parsed([], Pending([]))
  {
  }

  lemma {:induction false} ConcatSplit(parts: seq<seq<byte>>, i: nat)
    requires i <= |parts|
    ensures Concat(parts) == Concat(parts[..i]) + Concat(parts[i..])
  {
    if i == 0 {
      assert parts[..0] == [] && parts[0..] == parts;
    } else {
      ConcatSplit(parts[1..], i - 1);
      assert parts[..i][1..] == parts[1..][..i - 1] && parts[i..] == parts[1..][i - 1..];
    }
  }

  /** End to end: frames written by the C encoder, cut anywhere, come out of the C decoder with every field
      as it went in, in order, with nothing left over, whatever allocations fail on the receiving side. */
  method Transfer(sender: Heap, receiver: Heap, fs: seq<Frame>, cuts: seq<nat>)
      returns (received: seq<Frame>, status: Status)
    requires NoFailure(sender.plan) && sender != receiver
    requires forall f :: f in fs ==> |f.Payload()| <= DATA_SIZE_MAX && (f.Hello? ==> f.version == VERSION)
    modifies sender, receiver
    ensures received == fs && status == NeedsMore
  {
    hide Next, ParseAll, Encode;
    var wire := new Buffer();
    var ret := AppendAll(sender, wire, fs);
    var bytes := wire.Contents();
    assert bytes == EncodeAll(fs) + [];
    ParseEncoded(fs, [], DATA_SIZE_MAX);
    ParseNothing();
    var chunks := Cut(bytes, cuts);
    var handler := new Feeder();
    assert handler.Seen() + Concat(chunks) == bytes;
    received, status := handler.OnChunks(receiver, chunks);
  }

  /** The limit is the caller's to keep: after a refusal for size the decoder is not reset, and fed the rest of the
      oversized frame it completes it. So a frame over the limit comes out if and only if the caller does not reset
      first. */
  method AfterRefusal(heap: Heap, s: seq<byte>, resetFirst: bool) returns (frame: Settings.Option<Frame>)
    requires NoFailure(heap.plan)
    requires Next(s, DATA_SIZE_MAX).TooLarge? && Next(s, U32_COUNT) == Whole(|s|)
    modifies heap
    ensures frame.Some? && |frame.value.Payload()| > DATA_SIZE_MAX <==> !resetFirst
    ensures !resetFirst ==> frame == Settings.Some(Fields(s))
  {
    hide Next, Fields, Fed, NoFailure, HeaderLen, PayloadSize, Decoder.Sound, Decoder.Seen, Decoder.HeaderRead;
    var decoder := new Decoder();
    OversizedFrame(s);
    var status, k := decoder.ReadData(heap, s, 0, DATA_SIZE_MAX);
    RefusedForSize(s, k, status, decoder.Seen());
    frame := Settings.None;
    var taken;
    if resetFirst {
      decoder.Reset();
      status, taken := decoder.ReadData(heap, s[k..], 0, DATA_SIZE_MAX);
      if status == Complete {
        WithinLimit(s[k..], taken, decoder.Seen());
        frame := Settings.Some(decoder.TakeFrame(DATA_SIZE_MAX));
      }
    } else {
      status, taken := decoder.ReadData(heap, s[k..], 0, U32_COUNT);
      RefusedAndCompleted(s, k, taken, status, decoder.Seen());
      frame := Settings.Some(decoder.TakeFrame(U32_COUNT));
    }
  }

  lemma RefusedForSize(s: seq<byte>, k: int, status: Status, post: seq<byte>)
    requires Fed([], s, k, status, post, DATA_SIZE_MAX) && status != MemoryError
    requires Next(s, DATA_SIZE_MAX).TooLarge? && s != [] && HeaderLen(s[0]) < |s|
    ensures status == InvalidSize && 0 <= k < |s| && post == s[..k]
  {
    hide Next, HeaderLen;
    assert [] + s == s && [] + s[..k] == s[..k];
  }

  lemma RefusedAndCompleted(s: seq<byte>, k: nat, taken: int, status: Status, post: seq<byte>)
    requires k <= |s| && Fed(s[..k], s[k..], taken, status, post, U32_COUNT) && status != MemoryError
    requires Next(s, U32_COUNT) == Whole(|s|)
    ensures status == Complete && post == s
  {
    hide Next;
    assert s[..k] + s[k..] == s;
    if status == Complete { assert s[k..][..taken] == s[k..]; }
  }

  lemma WithinLimit(s: seq<byte>, k: int, post: seq<byte>)
    requires Fed([], s, k, Complete, post, DATA_SIZE_MAX)
    ensures post != [] && 0 < HeaderLen(post[0]) <= |post| && |Fields(post).Payload()| <= DATA_SIZE_MAX
  {
    hide Next, Fields, HeaderLen;
    assert [] + s == s && [] + s[..k] == s[..k];
    ScanExact(s, DATA_SIZE_MAX);
    WholeShape(post, DATA_SIZE_MAX);
    WholePayload(post, DATA_SIZE_MAX);
  }

  lemma OversizedFrame(s: seq<byte>)
    requires Next(s, DATA_SIZE_MAX).TooLarge? && Next(s, U32_COUNT) == Whole(|s|)
    ensures s != [] && 0 < HeaderLen(s[0]) < |s| && |Fields(s).Payload()| > DATA_SIZE_MAX
  {
    hide Load32, Load16;
  }

  /** The pieces of a byte string cut at the given lengths, the remainder last. */
  function Cut(s: seq<byte>, cuts: seq<nat>): (parts: seq<seq<byte>>)
    ensures Concat(parts) == s
    decreases |cuts|
  {
    if cuts == [] || cuts[0] > |s| then
      assert Concat([s]) == s + Concat([]);
      [s]
    else
      var parts := Cut(s[cuts[0]..], cuts[1..]);
      assert ([s[..cuts[0]]] + parts)[1..] == parts;
      [s[..cuts[0]]] + parts
  }
}
