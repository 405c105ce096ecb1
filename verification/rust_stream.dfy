/**
 The Rust codec over a whole stream, driven the way the framed reader it is made for drives a decoder: received bytes
 are added to the buffer, and frames are taken off it until the decoder asks for more.
 */
module RustStream {
  import opened Bytes
  import opened CBuffer
  import opened R = RustCodec
  import opened Settings
  import CStream
  import F = Framing

  /** The frames Rust makes of a run of wire frames, up to the first whose settings it refuses. */
  function Readings(fs: seq<F.Frame>, utf8: seq<byte> -> bool): (seq<LoquiFrame>, bool) {
    if fs == [] then ([], true)
    else match FromWire(fs[0], utf8)
         case Ok(Some(f)) => var (rest, ok) := Readings(fs[1..], utf8); ([f] + rest, ok)
         case _ => ([], false)
  }

  /** One frame for each, in order, up to the first that is refused. */
  lemma {:induction false} ReadingsMean(fs: seq<F.Frame>, utf8: seq<byte> -> bool)
    ensures var (frames, ok) := Readings(fs, utf8);
            && |frames| <= |fs| && (ok <==> |frames| == |fs|)
            && (!ok ==> FromWire(fs[|frames|], utf8).Err?)
            && (forall i :: 0 <= i < |frames| ==> FromWire(fs[i], utf8) == R.Ok(Some(frames[i])))
  {
    hide FromWire;
    if fs != [] && FromWire(fs[0], utf8).Ok? { ReadingsMean(fs[1..], utf8); }
  }

  lemma {:induction false} ReadingsConcat(a: seq<F.Frame>, b: seq<F.Frame>, utf8: seq<byte> -> bool)
    ensures var (x, ok) := Readings(a, utf8);
            Readings(a + b, utf8) == if ok then (x + Readings(b, utf8).0, Readings(b, utf8).1) else (x, false)
  {
    hide FromWire;
    if a == [] {
      assert a + b == b && [] + Readings(b, utf8).0 == Readings(b, utf8).0;
    } else {
      ReadingsConcat(a[1..], b, utf8);
      assert (a + b)[1..] == a[1..] + b;
      var r, x, y := FromWire(a[0], utf8), Readings(a[1..], utf8).0, Readings(b, utf8).0;
      if r.Ok? && r.value.Some? { assert [r.value.value] + (x + y) == [r.value.value] + x + y; }
    }
  }

  /** The outcome of a whole stream, in terms of its one-shot parse: the frames, why the reader stopped if it did, and
      what stays in the buffer if it did not. */
  predicate Outcome(p: F.Parsed, max: u32, utf8: seq<byte> -> bool, frames: seq<LoquiFrame>,
      err: Option<ProtocolError>, left: seq<byte>) {
    var (expected, ok) := Readings(p.frames, utf8);
    && frames == expected
    && if !ok then err == Some(InvalidPayload)
       else match p.end
            case Pending(rest) => err == None && left == rest
            case Refused(BadOpcode(opcode)) => err == Some(InvalidOpcode(opcode))
            case Refused(TooLarge(size)) => err == Some(PayloadTooLarge(size, max))
            case Refused(_) => false
  }

  /** Takes frames off the buffer until the decoder wants more bytes or refuses. */
  method Drain(codec: Codec, buf: BytesMut, utf8: seq<byte> -> bool)
      returns (frames: seq<LoquiFrame>, err: Option<ProtocolError>)
    modifies buf
    ensures Outcome(F.ParseAll(old(buf.data), codec.maxPayloadSizeInBytes), codec.maxPayloadSizeInBytes, utf8, frames,
        err, buf.data)
  {
    hide F.Next, F.Fields, FromWire;
    var max := codec.maxPayloadSizeInBytes;
    ghost var start := F.ParseAll(buf.data, max);
    frames, err := [], None;
    assert frames + Readings(start.frames, utf8).0 == Readings(start.frames, utf8).0;
    while true
      invariant var p := F.ParseAll(buf.data, max);
                && Readings(start.frames, utf8) == (frames + Readings(p.frames, utf8).0, Readings(p.frames, utf8).1)
                && p.end == start.end
      decreases |buf.data|
    {
      ghost var s := buf.data;
      ghost var p := F.ParseAll(s, max);
      var r := codec.Decode(buf, utf8);
      if F.Next(s, max).Whole? {
        assert p.frames[1..] == F.ParseAll(buf.data, max).frames;
      }
      match r
      case Ok(None) => return;
      case Ok(Some(frame)) =>
        ghost var rest := Readings(p.frames[1..], utf8).0;
        assert frames + ([frame] + rest) == frames + [frame] + rest;
        frames := frames + [frame];
      case Err(e) => return frames, Some(e);
    }
  }

  /** However the stream is cut up, the reader comes to the outcome of its one-shot parse. */
  method OnChunks(codec: Codec, chunks: seq<seq<byte>>, utf8: seq<byte> -> bool)
    returns (frames: seq<LoquiFrame>, err: Option<ProtocolError>, left: seq<byte>)
    ensures Outcome(F.ParseAll(Concat(chunks), codec.maxPayloadSizeInBytes), codec.maxPayloadSizeInBytes, utf8, frames,
        err, left)
  {
    hide F.Next, F.Fields, F.ParseAll, Readings;
    var max := codec.maxPayloadSizeInBytes;
    var buf := new BytesMut([]);
    frames, err := [], None;
    var i := 0;
    NothingYet(max, utf8);
    while i < |chunks|
      invariant i <= |chunks| && err == None
      invariant Outcome(F.ParseAll(Concat(chunks[..i]), max), max, utf8, frames, None, buf.data)
    {
      ghost var sofar := Concat(chunks[..i]);
      ghost var pending := buf.data;
      F.ParseSplit(sofar, chunks[i], max);
      ConcatSnoc(chunks[..i], chunks[i]);
      assert chunks[..i + 1] == chunks[..i] + [chunks[i]];
      buf.ExtendFromSlice(chunks[i]);
      var more;
      more, err := Drain(codec, buf, utf8);
      ReadingsConcat(F.ParseAll(sofar, max).frames, F.ParseAll(pending + chunks[i], max).frames, utf8);
      frames := frames + more;
      i := i + 1;
      if err != None {
        CStream.ConcatSplit(chunks, i);
        Settled(Concat(chunks[..i]), Concat(chunks[i..]), max, utf8, frames, err, buf.data);
        return frames, err, buf.data;
      }
    }
    assert chunks[..i] == chunks;
    left := buf.data;
  }

  lemma NothingYet(max: u32, utf8: seq<byte> -> bool)
    ensures Outcome(F.ParseAll(Concat([]), max), max, utf8, [], None, [])
  {
  }

  /** A refusal stands whatever bytes would still have come. */
  lemma Settled(s: seq<byte>, more: seq<byte>, max: u32, utf8: seq<byte> -> bool, frames: seq<LoquiFrame>,
      err: Option<ProtocolError>, left: seq<byte>)
    requires Outcome(F.ParseAll(s, max), max, utf8, frames, err, left) && err.Some?
    ensures Outcome(F.ParseAll(s + more, max), max, utf8, frames, err, left)
  {
    hide F.Next, F.Fields, F.ParseAll, Readings;
    F.ParseSplit(s, more, max);
    var p := F.ParseAll(s, max);
    if p.end.Pending? { ReadingsConcat(p.frames, F.ParseAll(p.end.rest + more, max).frames, utf8); }
  }
}
