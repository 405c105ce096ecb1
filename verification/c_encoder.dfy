/** The frame writers of c/encoder.h: a header filled in a local array, then the payload, appended to a growing
    buffer. */
module CEncoder {
  import opened Bytes
  import opened CBuffer
  import opened Framing

  /** What a call of an append function may leave: the whole frame on success; on an allocation failure
      nothing, or, when only the payload could not be stored, the bare header. */
  predicate Appended(before: seq<byte>, after: seq<byte>, f: Frame, rv: int) {
    if rv == 0 then after == before + Encode(f)
    else rv == -1 && (after == before || (f.Payload() != [] && after == before + Header(f)))
  }

  /** The two writes every frame with a payload is made of; only the error writer skips the second one when
      there is nothing to write. */
  method AppendParts(heap: Heap, b: Buffer, header: seq<byte>, data: seq<byte>, skipEmpty: bool, ghost f: Frame)
      returns (ret: int)
    requires b.Valid()
    requires header == Header(f) && data == f.Payload()
    modifies b, b.buf, heap
    ensures b.Valid() && Appended(old(b.Contents()), b.Contents(), f, ret)
    ensures fresh(b.buf) || b.buf == old(b.buf)
    ensures old(b.Amortised()) ==> b.Amortised()
    ensures NoFailure(old(heap.plan)) ==> ret == 0 && NoFailure(heap.plan)
  {
    hide Header;
    ghost var before := b.Contents();
    ret := b.Write(heap, header);
    if ret < 0 { return; }
    assert before + header + data == before + (header + data);
    if skipEmpty && data == [] { return 0; }
    ret := b.Write(heap, data);
  }

  method AppendHello(heap: Heap, b: Buffer, flags: byte, data: seq<byte>) returns (ret: int)
    requires b.Valid()
    requires |data| < U32_COUNT
    modifies b, b.buf, heap
    ensures b.Valid() && Appended(old(b.Contents()), b.Contents(), Hello(flags, VERSION, data), ret)
    ensures fresh(b.buf) || b.buf == old(b.buf)
    ensures old(b.Amortised()) ==> b.Amortised()
    ensures NoFailure(old(heap.plan)) ==> ret == 0 && NoFailure(heap.plan)
  {
    hide Store16, Store32, Header, Encode, Appended;
    var buf := new byte[7];
    buf[0], buf[1], buf[2] := OP_HELLO, flags, VERSION;
    ghost var front: seq<byte> := [OP_HELLO, flags] + [VERSION];
    assert buf[..3] == front;
    Put32(buf, 3, |data|);
    assert buf[..7] == front + Store32(|data|);
    HeaderParts(Hello(flags, VERSION, data));
    assert buf[..buf.Length] == buf[..];
    ret := AppendParts(heap, b, buf[..], data, false, Hello(flags, VERSION, data));
  }

  method AppendHelloAck(heap: Heap, b: Buffer, flags: byte, pingInterval: u32, data: seq<byte>) returns (ret: int)
    requires b.Valid()
    requires |data| < U32_COUNT
    modifies b, b.buf, heap
    ensures b.Valid() && Appended(old(b.Contents()), b.Contents(), HelloAck(flags, pingInterval, data), ret)
    ensures fresh(b.buf) || b.buf == old(b.buf)
    ensures old(b.Amortised()) ==> b.Amortised()
    ensures NoFailure(old(heap.plan)) ==> ret == 0 && NoFailure(heap.plan)
  {
    hide Store16, Store32, Header, Encode, Appended;
    var buf := new byte[10];
    buf[0], buf[1] := OP_HELLO_ACK, flags;
    assert buf[..2] == [OP_HELLO_ACK, flags];
    Put32(buf, 2, pingInterval);
    Put32(buf, 6, |data|);
    HeaderParts(HelloAck(flags, pingInterval, data));
    assert buf[..buf.Length] == buf[..];
    ret := AppendParts(heap, b, buf[..], data, false, HelloAck(flags, pingInterval, data));
  }

  method AppendPing(heap: Heap, b: Buffer, flags: byte, sequenceId: u32) returns (ret: int)
    requires b.Valid()
    modifies b, b.buf, heap
    ensures b.Valid() && Appended(old(b.Contents()), b.Contents(), Ping(flags, sequenceId), ret)
    ensures fresh(b.buf) || b.buf == old(b.buf)
    ensures old(b.Amortised()) ==> b.Amortised()
    ensures NoFailure(old(heap.plan)) ==> ret == 0 && NoFailure(heap.plan)
  {
    hide Store16, Store32;
    var buf := new byte[6];
    buf[0], buf[1] := OP_PING, flags;
    assert buf[..2] == [OP_PING, flags];
    Put32(buf, 2, sequenceId);
    assert buf[..buf.Length] == buf[..];
    assert buf[..] == Encode(Ping(flags, sequenceId));
    ret := b.Write(heap, buf[..]);
  }

  method AppendPong(heap: Heap, b: Buffer, flags: byte, sequenceId: u32) returns (ret: int)
    requires b.Valid()
    modifies b, b.buf, heap
    ensures b.Valid() && Appended(old(b.Contents()), b.Contents(), Pong(flags, sequenceId), ret)
    ensures fresh(b.buf) || b.buf == old(b.buf)
    ensures old(b.Amortised()) ==> b.Amortised()
    ensures NoFailure(old(heap.plan)) ==> ret == 0 && NoFailure(heap.plan)
  {
    hide Store16, Store32;
    var buf := new byte[6];
    buf[0], buf[1] := OP_PONG, flags;
    assert buf[..2] == [OP_PONG, flags];
    Put32(buf, 2, sequenceId);
    assert buf[..buf.Length] == buf[..];
    assert buf[..] == Encode(Pong(flags, sequenceId));
    ret := b.Write(heap, buf[..]);
  }

  method AppendRequest(heap: Heap, b: Buffer, flags: byte, sequenceId: u32, data: seq<byte>) returns (ret: int)
    requires b.Valid()
    requires |data| < U32_COUNT
    modifies b, b.buf, heap
    ensures b.Valid() && Appended(old(b.Contents()), b.Contents(), Request(flags, sequenceId, data), ret)
    ensures fresh(b.buf) || b.buf == old(b.buf)
    ensures old(b.Amortised()) ==> b.Amortised()
    ensures NoFailure(old(heap.plan)) ==> ret == 0 && NoFailure(heap.plan)
  {
    hide Store16, Store32, Header, Encode, Appended;
    var buf := new byte[10];
    buf[0], buf[1] := OP_REQUEST, flags;
    assert buf[..2] == [OP_REQUEST, flags];
    Put32(buf, 2, sequenceId);
    Put32(buf, 6, |data|);
    HeaderParts(Request(flags, sequenceId, data));
    assert buf[..buf.Length] == buf[..];
    ret := AppendParts(heap, b, buf[..], data, false, Request(flags, sequenceId, data));
  }

  method AppendResponse(heap: Heap, b: Buffer, flags: byte, sequenceId: u32, data: seq<byte>) returns (ret: int)
    requires b.Valid()
    requires |data| < U32_COUNT
    modifies b, b.buf, heap
    ensures b.Valid() && Appended(old(b.Contents()), b.Contents(), Response(flags, sequenceId, data), ret)
    ensures fresh(b.buf) || b.buf == old(b.buf)
    ensures old(b.Amortised()) ==> b.Amortised()
    ensures NoFailure(old(heap.plan)) ==> ret == 0 && NoFailure(heap.plan)
  {
    hide Store16, Store32, Header, Encode, Appended;
    var buf := new byte[10];
    buf[0], buf[1] := OP_RESPONSE, flags;
    assert buf[..2] == [OP_RESPONSE, flags];
    Put32(buf, 2, sequenceId);
    Put32(buf, 6, |data|);
    HeaderParts(Response(flags, sequenceId, data));
    assert buf[..buf.Length] == buf[..];
    ret := AppendParts(heap, b, buf[..], data, false, Response(flags, sequenceId, data));
  }

  method AppendPush(heap: Heap, b: Buffer, flags: byte, data: seq<byte>) returns (ret: int)
    requires b.Valid()
    requires |data| < U32_COUNT
    modifies b, b.buf, heap
    ensures b.Valid() && Appended(old(b.Contents()), b.Contents(), Push(flags, data), ret)
    ensures fresh(b.buf) || b.buf == old(b.buf)
    ensures old(b.Amortised()) ==> b.Amortised()
    ensures NoFailure(old(heap.plan)) ==> ret == 0 && NoFailure(heap.plan)
  {
    hide Store16, Store32, Header, Encode, Appended;
    var buf := new byte[6];
    buf[0], buf[1] := OP_PUSH, flags;
    assert buf[..2] == [OP_PUSH, flags];
    Put32(buf, 2, |data|);
    HeaderParts(Push(flags, data));
    assert buf[..buf.Length] == buf[..];
    ret := AppendParts(heap, b, buf[..], data, false, Push(flags, data));
  }

  method AppendGoAway(heap: Heap, b: Buffer, flags: byte, code: u16, data: seq<byte>) returns (ret: int)
    requires b.Valid()
    requires |data| < U32_COUNT
    modifies b, b.buf, heap
    ensures b.Valid() && Appended(old(b.Contents()), b.Contents(), GoAway(flags, code, data), ret)
    ensures fresh(b.buf) || b.buf == old(b.buf)
    ensures old(b.Amortised()) ==> b.Amortised()
    ensures NoFailure(old(heap.plan)) ==> ret == 0 && NoFailure(heap.plan)
  {
    hide Store16, Store32, Header, Encode, Appended;
    var buf := new byte[8];
    buf[0], buf[1] := OP_GOAWAY, flags;
    assert buf[..2] == [OP_GOAWAY, flags];
    Put16(buf, 2, code);
    Put32(buf, 4, |data|);
    HeaderParts(GoAway(flags, code, data));
    assert buf[..buf.Length] == buf[..];
    ret := AppendParts(heap, b, buf[..], data, false, GoAway(flags, code, data));
  }

  method AppendError(heap: Heap, b: Buffer, flags: byte, code: u16, sequenceId: u32, data: seq<byte>) returns (ret: int)
    requires b.Valid()
    requires |data| < U32_COUNT
    modifies b, b.buf, heap
    ensures b.Valid() && Appended(old(b.Contents()), b.Contents(), Error(flags, sequenceId, code, data), ret)
    ensures fresh(b.buf) || b.buf == old(b.buf)
    ensures old(b.Amortised()) ==> b.Amortised()
    ensures NoFailure(old(heap.plan)) ==> ret == 0 && NoFailure(heap.plan)
  {
    hide Store16, Store32, Header, Encode, Appended;
    var buf := new byte[12];
    buf[0], buf[1] := OP_ERROR, flags;
    assert buf[..2] == [OP_ERROR, flags];
    Put32(buf, 2, sequenceId);
    Put16(buf, 6, code);
    Assoc([OP_ERROR, flags], Store32(sequenceId), Store16(code));
    Put32(buf, 8, |data|);
    HeaderParts(Error(flags, sequenceId, code, data));
    assert buf[..buf.Length] == buf[..];
    ret := AppendParts(heap, b, buf[..], data, true, Error(flags, sequenceId, code, data));
  }

  /** Appends the frame with the writer of its kind. `Hello` always announces this side's own version. */
  method Append(heap: Heap, b: Buffer, f: Frame) returns (ret: int)
    requires b.Valid()
    requires |f.Payload()| < U32_COUNT && (f.Hello? ==> f.version == VERSION)
    modifies b, b.buf, heap
    ensures b.Valid() && Appended(old(b.Contents()), b.Contents(), f, ret)
    ensures fresh(b.buf) || b.buf == old(b.buf)
    ensures old(b.Amortised()) ==> b.Amortised()
    ensures NoFailure(old(heap.plan)) ==> ret == 0 && NoFailure(heap.plan)
  {
    hide Encode, Header;
    match f
    case Hello(flags, _, data) => ret := AppendHello(heap, b, flags, data);
    case HelloAck(flags, interval, data) => ret := AppendHelloAck(heap, b, flags, interval, data);
    case Ping(flags, id) => ret := AppendPing(heap, b, flags, id);
    case Pong(flags, id) => ret := AppendPong(heap, b, flags, id);
    case Request(flags, id, data) => ret := AppendRequest(heap, b, flags, id, data);
    case Response(flags, id, data) => ret := AppendResponse(heap, b, flags, id, data);
    case Push(flags, data) => ret := AppendPush(heap, b, flags, data);
    case GoAway(flags, code, data) => ret := AppendGoAway(heap, b, flags, code, data);
    case Error(flags, id, code, data) => ret := AppendError(heap, b, flags, code, id, data);
  }

  /** A run of frames appended one after another. */
  method AppendAll(heap: Heap, b: Buffer, fs: seq<Frame>) returns (ret: int)
    requires b.Valid() && NoFailure(heap.plan)
    requires forall f :: f in fs ==> |f.Payload()| < U32_COUNT && (f.Hello? ==> f.version == VERSION)
    modifies b, b.buf, heap
    ensures b.Valid() && ret == 0 && b.Contents() == old(b.Contents()) + EncodeAll(fs)
    ensures old(b.Amortised()) ==> b.Amortised()
  {
    hide Encode, Header;
    ret := 0;
    var i := 0;
    while i < |fs|
      invariant i <= |fs| && b.Valid() && NoFailure(heap.plan) && ret == 0
      invariant fresh(b.buf) || b.buf == old(b.buf)
      invariant b.Contents() == old(b.Contents()) + EncodeAll(fs[..i])
      invariant old(b.Amortised()) ==> b.Amortised()
    {
      ret := Append(heap, b, fs[i]);
      EncodeAllSnoc(fs[..i], fs[i]);
      assert fs[..i + 1] == fs[..i] + [fs[i]];
      i := i + 1;
    }
    assert fs[..i] == fs;
  }
}
