/**
 The framing every implementation shares: the nine frame layouts, the one-shot parser of a
 whole stream that the incremental and whole-buffer decoders are compared with, and its laws.
 A frame's settings payload (Hello, HelloAck) is opaque here; module Settings reads it.
 */
module Framing {
  import opened Bytes

  const OP_HELLO: byte := 1
  const OP_HELLO_ACK: byte := 2
  const OP_PING: byte := 3
  const OP_PONG: byte := 4
  const OP_REQUEST: byte := 5
  const OP_RESPONSE: byte := 6
  const OP_PUSH: byte := 7
  const OP_GOAWAY: byte := 8
  const OP_ERROR: byte := 9

  const VERSION: byte := 1

  datatype Frame =
    | Hello(flags: byte, version: byte, payload: seq<byte>)
    | HelloAck(flags: byte, pingInterval: u32, payload: seq<byte>)
    | Ping(flags: byte, sequenceId: u32)
    | Pong(flags: byte, sequenceId: u32)
    | Request(flags: byte, sequenceId: u32, payload: seq<byte>)
    | Response(flags: byte, sequenceId: u32, payload: seq<byte>)
    | Push(flags: byte, payload: seq<byte>)
    | GoAway(flags: byte, code: u16, payload: seq<byte>)
    | Error(flags: byte, sequenceId: u32, code: u16, payload: seq<byte>)
  {
    function Payload(): seq<byte> {
      if Ping? || Pong? then [] else payload
    }

    predicate Handshake() {
      Hello? || HelloAck?
    }
  }

  /** Bytes before the payload, the opcode and the size field included; 0 for a byte that is no opcode. */
  function HeaderLen(opcode: byte): nat {
    match opcode
    case 1 => 7
    case 2 => 10
    case 3 => 6
    case 4 => 6
    case 5 => 10
    case 6 => 10
    case 7 => 6
    case 8 => 8
    case 9 => 12
    case _ => 0
  }

  predicate HasPayload(opcode: byte) {
    HeaderLen(opcode) > 0 && opcode != OP_PING && opcode != OP_PONG
  }

  /** The size field closes the header of every frame that has a payload. */
  function PayloadSize(s: seq<byte>): u32
    requires s != [] && 0 < HeaderLen(s[0]) <= |s|
  {
    if HasPayload(s[0]) then Load32(s, HeaderLen(s[0]) - 4) else 0
  }

  /** What the front of a stream holds: too little to tell, a byte that is no opcode, an oversized
      frame, or a whole frame of `length` bytes. */
  datatype Scan = More | BadOpcode(opcode: byte) | TooLarge(size: u32) | Whole(length: nat)

  function Next(s: seq<byte>, max: nat): (r: Scan)
    ensures r.Whole? ==> 0 < r.length <= |s|
  {
    if s == [] then More
    else if HeaderLen(s[0]) == 0 then BadOpcode(s[0])
    else if |s| < HeaderLen(s[0]) then More
    else if PayloadSize(s) > max then TooLarge(PayloadSize(s))
    else if |s| < HeaderLen(s[0]) + PayloadSize(s) then More
    else Whole(HeaderLen(s[0]) + PayloadSize(s))
  }

  predicate IsWhole(raw: seq<byte>, max: nat) {
    Next(raw, max) == Whole(|raw|)
  }

  /** Bytes of the fields between the flags and the payload size. */
  function MiddleLen(opcode: byte): nat
    requires HeaderLen(opcode) > 0
  {
    HeaderLen(opcode) - 2 - if HasPayload(opcode) then 4 else 0
  }

  function FrameOf(opcode: byte, flags: byte, middle: seq<byte>, body: seq<byte>): Frame
    requires HeaderLen(opcode) > 0 && |middle| == MiddleLen(opcode)
  {
    match opcode
    case 1 => Hello(flags, middle[0], body)
    case 2 => HelloAck(flags, Load32(middle, 0), body)
    case 3 => Ping(flags, Load32(middle, 0))
    case 4 => Pong(flags, Load32(middle, 0))
    case 5 => Request(flags, Load32(middle, 0), body)
    case 6 => Response(flags, Load32(middle, 0), body)
    case 7 => Push(flags, body)
    case 8 => GoAway(flags, Load16(middle, 0), body)
    case _ => Error(flags, Load32(middle, 0), Load16(middle, 4), body)
  }

  /** The frame a whole run of bytes stands for. */
  function Fields(raw: seq<byte>): Frame
    requires raw != [] && 0 < HeaderLen(raw[0]) <= |raw|
  {
    FrameOf(raw[0], raw[1], raw[2..2 + MiddleLen(raw[0])], raw[HeaderLen(raw[0])..])
  }

  function Opcode(f: Frame): byte {
    match f
    case Hello(_, _, _) => OP_HELLO
    case HelloAck(_, _, _) => OP_HELLO_ACK
    case Ping(_, _) => OP_PING
    case Pong(_, _) => OP_PONG
    case Request(_, _, _) => OP_REQUEST
    case Response(_, _, _) => OP_RESPONSE
    case Push(_, _) => OP_PUSH
    case GoAway(_, _, _) => OP_GOAWAY
    case Error(_, _, _, _) => OP_ERROR
  }

  /** The fields between the flags and the payload size. */
  function Middle(f: Frame): seq<byte> {
    match f
    case Hello(_, version, _) => [version]
    case HelloAck(_, pingInterval, _) => Store32(pingInterval)
    case Ping(_, id) => Store32(id)
    case Pong(_, id) => Store32(id)
    case Request(_, id, _) => Store32(id)
    case Response(_, id, _) => Store32(id)
    case Push(_, _) => []
    case GoAway(_, code, _) => Store16(code)
    case Error(_, id, code, _) => Store32(id) + Store16(code)
  }

  /** A length as the 32-bit field holds it: every encoder casts it, so it is truncated. */
  function Size32(n: nat): u32 {
    n % U32_COUNT
  }

  /** The bytes before the payload. */
  function Header(f: Frame): seq<byte> {
    [Opcode(f), f.flags] + Middle(f) + if HasPayload(Opcode(f)) then Store32(Size32(|f.Payload()|)) else []
  }

  function Encode(f: Frame): seq<byte> {
    Header(f) + f.Payload()
  }

  function EncodeAll(fs: seq<Frame>): seq<byte> {
    if fs == [] then [] else Encode(fs[0]) + EncodeAll(fs[1..])
  }

  lemma HeaderLength(f: Frame)
    ensures HeaderLen(Opcode(f)) > 0 && |Middle(f)| == MiddleLen(Opcode(f))
    ensures |Header(f)| == HeaderLen(Opcode(f))
    ensures Header(f)[0] == Opcode(f) && Header(f)[1] == f.flags && Header(f)[2..2 + |Middle(f)|] == Middle(f)
    ensures HasPayload(Opcode(f)) ==> Header(f)[|Header(f)| - 4..] == Store32(Size32(|f.Payload()|))
  {
    hide Store32, Store16;
  }

  lemma HeaderParts(f: Frame)
    ensures Header(f) == [Opcode(f), f.flags] + Middle(f)
        + (if HasPayload(Opcode(f)) then Store32(Size32(|f.Payload()|)) else [])
  {
    hide Opcode, Middle, HasPayload, Store32, Size32;
  }

  lemma FrameOfMiddle(f: Frame)
    ensures HeaderLen(Opcode(f)) > 0 && |Middle(f)| == MiddleLen(Opcode(f))
    ensures FrameOf(Opcode(f), f.flags, Middle(f), f.Payload()) == f
  {
    hide Store32, Store16, Load32, Load16;
    if f.Error? {
      var m := Middle(f);
      assert m[0..4] == Store32(f.sequenceId)[0..4] && m[4..6] == Store16(f.code)[0..2];
      LoadSlice32(Store32(f.sequenceId), m, 0, 0);
      LoadSlice16(Store16(f.code), m, 0, 4);
    }
  }

  lemma MiddleOfFrame(opcode: byte, flags: byte, middle: seq<byte>, body: seq<byte>)
    requires HeaderLen(opcode) > 0 && |middle| == MiddleLen(opcode) && (HasPayload(opcode) || body == [])
    ensures var f := FrameOf(opcode, flags, middle, body);
            Opcode(f) == opcode && f.flags == flags && Middle(f) == middle && f.Payload() == body
  {
    hide Store32, Store16, Load32, Load16;
    if |middle| >= 4 { LoadStore32(middle, 0); }
    if opcode == OP_GOAWAY { LoadStore16(middle, 0); }
    if opcode == OP_ERROR { LoadStore16(middle, 4); }
  }

  /** Whole frames carry the payload their size field announces. */
  lemma WholePayload(raw: seq<byte>, max: nat)
    requires IsWhole(raw, max)
    ensures |Fields(raw).Payload()| <= max && |Fields(raw).Payload()| < U32_COUNT
  {
    hide Load32, Load16;
  }

  /** What an encoder writes is scanned as one whole frame, whatever bytes follow it. */
  lemma ScanEncoded(f: Frame, rest: seq<byte>, max: nat)
    requires |f.Payload()| <= max && |f.Payload()| < U32_COUNT
    ensures Next(Encode(f) + rest, max) == Whole(|Encode(f)|)
  {
    hide Load32, Store32, Middle;
    HeaderLength(f);
    var s := Encode(f) + rest;
    if HasPayload(Opcode(f)) {
      var front, size := [Opcode(f), f.flags] + Middle(f), Store32(|f.Payload()|);
      Assoc(front + size, f.Payload(), rest);
      LoadStored32(front, |f.Payload()|, f.Payload() + rest);
    }
  }

  /** Decoding what was encoded gives every field back. */
  lemma FieldsOfEncoded(f: Frame)
    ensures Encode(f)[0] == Opcode(f) && 0 < HeaderLen(Opcode(f)) <= |Encode(f)|
    ensures Fields(Encode(f)) == f
  {
    hide Header, Middle, FrameOf;
    HeaderLength(f);
    FrameOfMiddle(f);
    var raw, h := Encode(f), Header(f);
    assert raw[2..2 + |Middle(f)|] == h[2..2 + |Middle(f)|] && raw[|h|..] == f.Payload();
  }

  /** Encoding what was decoded gives every byte back: a whole frame has exactly one spelling. */
  lemma EncodeOfFields(raw: seq<byte>, max: nat)
    requires IsWhole(raw, max)
    ensures Encode(Fields(raw)) == raw
  {
    hide Header, Middle, FrameOf, Load32, Store32, HeaderLen, HasPayload, Next;
    WholeShape(raw, max);
    var h, m := HeaderLen(raw[0]), MiddleLen(raw[0]);
    var f, middle, body := Fields(raw), raw[2..2 + m], raw[h..];
    MiddleOfFrame(raw[0], raw[1], middle, body);
    HeaderParts(f);
    InFourParts(raw, 2 + m, h);
    if HasPayload(raw[0]) {
      LoadStore32(raw, 2 + m);
    } else {
      assert raw[2 + m..h] == [];
    }
  }

  lemma WholeShape(raw: seq<byte>, max: nat)
    requires IsWhole(raw, max)
    ensures raw != [] && 0 < HeaderLen(raw[0]) <= |raw| == HeaderLen(raw[0]) + PayloadSize(raw)
    ensures !HasPayload(raw[0]) ==> raw[HeaderLen(raw[0])..] == []
    ensures 2 + MiddleLen(raw[0]) + (if HasPayload(raw[0]) then 4 else 0) == HeaderLen(raw[0])
  {
    hide Load32;
  }

  lemma InFourParts(s: seq<byte>, i: nat, j: nat)
    requires 2 <= i <= j <= |s|
    ensures s == [s[0], s[1]] + s[2..i] + s[i..j] + s[j..]
  {
  }

  /** A verdict on the front of a stream is final: more bytes do not change it. */
  lemma ScanStable(s: seq<byte>, more: seq<byte>, max: nat)
    requires Next(s, max) != More
    ensures Next(s + more, max) == Next(s, max)
    ensures Next(s, max).Whole? ==> (s + more)[..Next(s, max).length] == s[..Next(s, max).length]
  {
    hide Load32;
    if 0 < HeaderLen(s[0]) <= |s| && HasPayload(s[0]) {
      var at := HeaderLen(s[0]) - 4;
      assert s[at..at + 4] == (s + more)[at..at + 4];
      LoadSlice32(s, s + more, at, 0);
    }
  }

  /** A whole frame stays whole when the bytes after it are cut off, and no shorter prefix is one. */
  lemma ScanExact(s: seq<byte>, max: nat)
    requires Next(s, max).Whole?
    ensures IsWhole(s[..Next(s, max).length], max)
    ensures forall k :: 0 <= k < Next(s, max).length ==> Next(s[..k], max) == More
  {
    hide Load32;
    var n := Next(s, max).length;
    if HasPayload(s[0]) {
      var at := HeaderLen(s[0]) - 4;
      assert s[at..at + 4] == s[..n][at..at + 4];
      LoadSlice32(s, s[..n], at, 0);
    }
    forall k | 0 <= k < n ensures Next(s[..k], max) == More {
      if k >= HeaderLen(s[0]) && HasPayload(s[0]) {
        var at := HeaderLen(s[0]) - 4;
        assert s[at..at + 4] == s[..k][at..at + 4];
        LoadSlice32(s, s[..k], at, 0);
      }
    }
  }

  /** No frame's encoding is a proper prefix of another's. */
  lemma PrefixFree(f: Frame, g: Frame, rest: seq<byte>)
    requires |f.Payload()| < U32_COUNT && |g.Payload()| < U32_COUNT
    requires Encode(g) == Encode(f) + rest
    ensures rest == [] && f == g
  {
    hide Load32, Store32;
    var max := U32_COUNT;
    ScanEncoded(f, rest, max);
    ScanEncoded(g, [], max);
    assert Encode(g) + [] == Encode(g);
    assert rest == [];
    assert Encode(f) == Encode(g);
    FieldsOfEncoded(f);
    FieldsOfEncoded(g);
  }

  // ---------- what the layouts and the verdicts are ----------

  /** The nine layouts, byte by byte, as README.md shows them. */
  lemma Layouts(f: Frame)
    ensures var size := Store32(|f.Payload()| % 0x1_0000_0000);
            Encode(f) ==
            match f
            case Hello(flags, version, payload) => [1, flags, version] + size + payload
            case HelloAck(flags, interval, payload) => [2, flags] + Store32(interval) + size + payload
            case Ping(flags, id) => [3, flags] + Store32(id)
            case Pong(flags, id) => [4, flags] + Store32(id)
            case Request(flags, id, payload) => [5, flags] + Store32(id) + size + payload
            case Response(flags, id, payload) => [6, flags] + Store32(id) + size + payload
            case Push(flags, payload) => [7, flags] + size + payload
            case GoAway(flags, code, payload) => [8, flags] + Store16(code) + size + payload
            case Error(flags, id, code, payload) => [9, flags] + Store32(id) + Store16(code) + size + payload
  {
    hide Store32, Store16;
  }

  /** A run of bytes as long as its size field says is an encoding. */
  lemma IsEncoding(raw: seq<byte>)
    requires raw != [] && 0 < HeaderLen(raw[0]) <= |raw| == HeaderLen(raw[0]) + PayloadSize(raw)
    ensures var f := Fields(raw);
            && Encode(f) == raw && Header(f) == raw[..HeaderLen(raw[0])]
            && |f.Payload()| == PayloadSize(raw)
  {
    hide Load32, HeaderLen, Header, Fields, PayloadSize;
    var f, max := Fields(raw), U32_COUNT;
    assert IsWhole(raw, max) by { AsLongAsItSays(raw, max); }
    EncodeOfFields(raw, max);
    FieldsOfEncoded(f);
    HeaderLength(f);
    assert Encode(f)[..|Header(f)|] == Header(f);
  }

  lemma AsLongAsItSays(raw: seq<byte>, max: nat)
    requires raw != [] && 0 < HeaderLen(raw[0]) <= |raw| == HeaderLen(raw[0]) + PayloadSize(raw)
    requires PayloadSize(raw) <= max
    ensures IsWhole(raw, max)
  {
  }

  function Zeros(n: nat): (s: seq<byte>)
    ensures |s| == n
  {
    seq(n, _ => 0)
  }

  /** Bytes up to the size field, and what a header says stays said when more comes. */
  lemma SameSize(s: seq<byte>, more: seq<byte>)
    requires s != [] && 0 < HeaderLen(s[0]) <= |s|
    ensures PayloadSize(s + more) == PayloadSize(s)
  {
    hide Load32;
    if HasPayload(s[0]) {
      var at := HeaderLen(s[0]) - 4;
      assert s[at..at + 4] == (s + more)[at..at + 4];
      LoadSlice32(s, s + more, at, 0);
    }
  }

  /** What each verdict on the front of a stream means, in terms of what an encoder could have written: a whole frame's
      encoding; a first byte that is none of the nine opcodes; the header of a frame with a larger payload than allowed;
      or the beginning of a frame, with its size not yet seen or allowed. The four exclude each other. */
  lemma VerdictMeans(s: seq<byte>, max: nat)
    ensures match Next(s, max)
            case Whole(n) => exists f :: Encode(f) == s[..n] && |f.Payload()| <= max && |f.Payload()| < U32_COUNT
            case BadOpcode(opcode) => s != [] && s[0] == opcode && (opcode < 1 || opcode > 9)
            case TooLarge(size) => size > max && exists f :: Header(f) <= s && |f.Payload()| == size
            case More =>
              exists f :: s < Encode(f) && |f.Payload()| < U32_COUNT && (|s| < |Header(f)| || |f.Payload()| <= max)
  {
    hide Load32, Header, Encode, Fields, PayloadSize, HasPayload;
    match Next(s, max)
    case Whole(n) =>
      ScanExact(s, max);
      EncodeOfFields(s[..n], max);
      WholePayload(s[..n], max);
    case BadOpcode(_) =>
    case TooLarge(size) =>
      var h := HeaderLen(s[0]);
      SameSize(s[..h], s[h..]);
      SameSize(s[..h], Zeros(size));
      assert s[..h] + s[h..] == s;
      IsEncoding(s[..h] + Zeros(size));
      assert (s[..h] + Zeros(size))[..h] == s[..h];
    case More => Unfinished(s, max);
  }

  lemma Unfinished(s: seq<byte>, max: nat)
    requires Next(s, max) == More
    ensures exists f :: s < Encode(f) && |f.Payload()| < U32_COUNT && (|s| < |Header(f)| || |f.Payload()| <= max)
  {
    hide Load32, Header, Encode, Fields, PayloadSize, HasPayload;
    var opcode: byte := if s == [] then OP_PING else s[0];
    var h := HeaderLen(opcode);
    var front := if s == [] then [OP_PING] + Zeros(h - 1) else if |s| < h then s + Zeros(h - |s|) else s;
    var size := PayloadSize(front);
    var raw := front + Zeros(h + size - |front|);
    SameSize(front, Zeros(h + size - |front|));
    IsEncoding(raw);
    assert s < raw;
  }

  // ---------- whole streams ----------

  /** How a stream ends: with the bytes of an unfinished frame, or where it is refused. */
  datatype End = Pending(rest: seq<byte>) | Refused(why: Scan)

  datatype Parsed = Parsed(frames: seq<Frame>, end: End)

  /** The one-shot parser of a whole stream. */
  function ParseAll(s: seq<byte>, max: nat): Parsed
    decreases |s|
  {
    match Next(s, max)
    case More => Parsed([], Pending(s))
    case Whole(n) =>
      var tail := ParseAll(s[n..], max);
      Parsed([Fields(s[..n])] + tail.frames, tail.end)
    case bad => Parsed([], Refused(bad))
  }

  /** The stream is cut up without loss: the frames and what is left over spell exactly the input. */
  lemma {:induction false} ParseAllComplete(s: seq<byte>, max: nat)
    ensures var p := ParseAll(s, max);
            forall f :: f in p.frames ==> |f.Payload()| <= max && |f.Payload()| < U32_COUNT
    ensures var p := ParseAll(s, max);
            EncodeAll(p.frames) <= s
    ensures var p := ParseAll(s, max); var left := s[|EncodeAll(p.frames)|..];
            match p.end case Pending(rest) => rest == left && Next(left, max) == More
                        case Refused(why) => why == Next(left, max) && (why.BadOpcode? || why.TooLarge?)
    decreases |s|
  {
    hide Fields, Next, Encode;
    match Next(s, max)
    case Whole(n) =>
      ScanExact(s, max);
      EncodeOfFields(s[..n], max);
      WholePayload(s[..n], max);
      ParseAllComplete(s[n..], max);
      var p, tail := ParseAll(s, max), ParseAll(s[n..], max);
      assert p.frames[1..] == tail.frames;
      assert EncodeAll(p.frames) == s[..n] + EncodeAll(tail.frames);
      assert s == s[..n] + s[n..];
      assert s[|EncodeAll(p.frames)|..] == s[n..][|EncodeAll(tail.frames)|..];
    case _ =>
  }

  lemma ParseOneEncoded(f: Frame, rest: seq<byte>, max: nat)
    requires |f.Payload()| <= max && |f.Payload()| < U32_COUNT
    ensures var tail := ParseAll(rest, max);
            ParseAll(Encode(f) + rest, max) == Parsed([f] + tail.frames, tail.end)
  {
    hide Fields, Next, Encode;
    ScanEncoded(f, rest, max);
    FieldsOfEncoded(f);
    var s, n := Encode(f) + rest, |Encode(f)|;
    assert s[..n] == Encode(f) && s[n..] == rest;
  }

  lemma {:induction false} EncodeAllSnoc(fs: seq<Frame>, f: Frame)
    ensures EncodeAll(fs + [f]) == EncodeAll(fs) + Encode(f)
  {
    hide Encode;
    if fs == [] {
      assert fs + [f] == [f] && EncodeAll([f]) == Encode(f) + EncodeAll([]);
    } else {
      EncodeAllSnoc(fs[1..], f);
      assert (fs + [f])[1..] == fs[1..] + [f];
      assert EncodeAll(fs) == Encode(fs[0]) + EncodeAll(fs[1..]);
    }
  }

  /** Encoded frames parse back to themselves, in order, and parsing goes on with what follows them. */
  lemma {:induction false} ParseEncoded(fs: seq<Frame>, rest: seq<byte>, max: nat)
    requires forall f :: f in fs ==> |f.Payload()| <= max && |f.Payload()| < U32_COUNT
    ensures var tail := ParseAll(rest, max);
            ParseAll(EncodeAll(fs) + rest, max) == Parsed(fs + tail.frames, tail.end)
  {
    hide Encode, ParseAll;
    if fs == [] {
      assert EncodeAll(fs) + rest == rest;
    } else {
      var after, tail := EncodeAll(fs[1..]) + rest, ParseAll(rest, max);
      ParseEncoded(fs[1..], rest, max);
      ParseOneEncoded(fs[0], after, max);
      assert EncodeAll(fs) + rest == Encode(fs[0]) + after;
      assert fs + tail.frames == [fs[0]] + (fs[1..] + tail.frames);
    }
  }

  lemma ParseStep(s: seq<byte>, max: nat)
    ensures Next(s, max).More? ==> ParseAll(s, max) == Parsed([], Pending(s))
    ensures Next(s, max).Whole? ==>
              var n := Next(s, max).length;
              var tail := ParseAll(s[n..], max);
              ParseAll(s, max) == Parsed([Fields(s[..n])] + tail.frames, tail.end)
    ensures Next(s, max).BadOpcode? || Next(s, max).TooLarge? ==> ParseAll(s, max) == Parsed([], Refused(Next(s, max)))
  {
    hide Fields, Next;
  }

  /** The whole stream is the only thing that matters: a stream received in two parts parses to the
      frames of the first part followed by those of its left-over with the second part. */
  lemma {:induction false} ParseSplit(a: seq<byte>, b: seq<byte>, max: nat)
    ensures var p := ParseAll(a, max);
            ParseAll(a + b, max) ==
            match p.end
            case Pending(rest) => var q := ParseAll(rest + b, max); Parsed(p.frames + q.frames, q.end)
            case Refused(_) => p
    decreases |a|
  {
    hide Fields, Next, ParseAll;
    ParseStep(a, max);
    match Next(a, max)
    case More =>
      assert [] + ParseAll(a + b, max).frames == ParseAll(a + b, max).frames;
    case Whole(n) =>
      ScanStable(a, b, max);
      ParseStep(a + b, max);
      ParseSplit(a[n..], b, max);
      assert (a + b)[n..] == a[n..] + b;
      var tail := ParseAll(a[n..], max);
      if tail.end.Pending? {
        Assoc([ParseAll(a, max).frames[0]], tail.frames, ParseAll(tail.end.rest + b, max).frames);
      }
    case _ =>
      ScanStable(a, b, max);
      ParseStep(a + b, max);
  }
}
