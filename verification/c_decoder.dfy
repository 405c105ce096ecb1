/**
 The incremental decoder of c/decoder.h. It is compared with the
 one-shot parser: the bytes taken since the frame began are the opcode followed by the buffer's contents.
 */
module CDecoder {
  import opened Bytes
  import opened CBuffer
  import opened Framing

  const DATA_SIZE_MAX: nat := 1024 * 1024 * 50
  /** Longest header after the opcode: that of an error frame. */
  const LONGEST_HEADER: nat := 11

  datatype Status = NeedsMore | Complete | MemoryError | InvalidOpcode | InvalidSize

  /** Header bytes after the opcode, 0 for a byte that is no opcode. */
  function HeaderSize(opcode: byte): (n: nat)
    ensures HeaderLen(opcode) == if n == 0 then 0 else n + 1
    ensures n <= LONGEST_HEADER
  {
    match opcode
    case 1 => 1 + 1 + 4
    case 2 => 1 + 4 + 4
    case 9 => 1 + 4 + 2 + 4
    case 3 => 1 + 4
    case 4 => 1 + 4
    case 5 => 1 + 4 + 4
    case 6 => 1 + 4 + 4
    case 7 => 1 + 4
    case 8 => 1 + 2 + 4
    case _ => 0
  }

  /** What one call may do with a chunk: `pre` was taken before it, `k` bytes of `data` are taken by it and
      `post` is taken after it. The answer is the one-shot parser's verdict on everything received so far;
      only an allocation failure postpones it. */
  ghost predicate Fed(pre: seq<byte>, data: seq<byte>, k: int, status: Status, post: seq<byte>, max: nat) {
    && 0 <= k <= |data| && post == pre + data[..k]
    && var verdict := Next(pre + data, max);
    match status
    case NeedsMore => verdict == More && k == |data|
    case Complete => verdict == Whole(|post|)
    case InvalidOpcode => verdict.BadOpcode? && k == 0
    case InvalidSize => verdict.TooLarge? && post != [] && |post| == HeaderLen(post[0])
    case MemoryError => (verdict == More || verdict.Whole? || verdict.TooLarge?) && Next(post, max) == More
  }

  class Decoder {
    const buffer: Buffer
    var opcode: byte
    var dataSizeRemaining: nat
    var headerSize: nat
    var decodeComplete: bool

    /** The bytes of the current frame taken so far. */
    function Seen(): seq<byte>
      requires buffer.Valid()
      reads this, buffer, buffer.buf
    {
      if opcode == 0 then [] else [opcode] + buffer.Contents()
    }

    ghost predicate HeaderRead()
      reads this, buffer, buffer.buf
    {
      buffer.Valid() && opcode != 0 && headerSize <= buffer.length
    }

    /** Everything but the completion mark, for a frame whose payload is at most `max`. */
    ghost predicate Framed(max: nat)
      reads this, buffer, buffer.buf
    {
      && buffer.Valid() && buffer.allocatedSize <= 2 * (LONGEST_HEADER + max)
      && (opcode == 0 ==> dataSizeRemaining == 0)
      && (opcode != 0 ==> HeaderLen(opcode) == headerSize + 1 && 0 < headerSize <= LONGEST_HEADER)
      && (opcode != 0 && !HeaderRead() ==> dataSizeRemaining == 0)
      && (HeaderRead() ==>
            && PayloadSize(Seen()) <= max
            && |Seen()| + dataSizeRemaining == HeaderLen(opcode) + PayloadSize(Seen()))
    }

    ghost predicate Sound(max: nat)
      reads this, buffer, buffer.buf
      ensures Sound(max) ==> buffer.Valid() && buffer.allocatedSize <= 2 * (LONGEST_HEADER + max)
    {
      Framed(max) && (decodeComplete <==> HeaderRead() && dataSizeRemaining == 0)
    }

    ghost predicate Valid()
      reads this, buffer, buffer.buf
      ensures Valid() ==> buffer.Valid() && buffer.allocatedSize <= 2 * (LONGEST_HEADER + DATA_SIZE_MAX)
    {
      Sound(DATA_SIZE_MAX)
    }

    /** Where an oversized frame leaves the decoder: the header is in, its size is over the limit, and nothing
        remembers that. */
    ghost predicate Oversized()
      reads this, buffer, buffer.buf
    {
      Sound(U32_COUNT) && HeaderRead() && PayloadSize(Seen()) > DATA_SIZE_MAX
    }

    /** The memory bound kept as long as no allocation fails: room for the whole frame is set aside as soon
        as its size is known, and never more than the longest frame needs. */
    ghost predicate Tight()
      reads this, buffer, buffer.buf
    {
      && buffer.Valid() && buffer.allocatedSize <= LONGEST_HEADER + DATA_SIZE_MAX
      && (HeaderRead() ==> buffer.length + dataSizeRemaining <= buffer.allocatedSize)
    }

    /** The part of it that holds even where the stream is refused for its size. */
    ghost predicate Bounded()
      reads this, buffer
    {
      buffer.allocatedSize <= LONGEST_HEADER + DATA_SIZE_MAX
    }

    lemma TightIsBounded()
      ensures Tight() ==> Bounded()
    {
    }

    lemma UnfinishedIsMore()
      requires Valid() && !decodeComplete
      ensures Next(Seen(), DATA_SIZE_MAX) == More
    {
      hide Load32;
    }

    constructor ()
      ensures Valid() && Tight() && Seen() == [] && fresh(buffer) && fresh(buffer.buf)
    {
      buffer := new Buffer();
      opcode, dataSizeRemaining, headerSize, decodeComplete := 0, 0, 0, false;
    }

    // ---------- field getters ----------

    function GetFlags(): byte
      requires buffer.Valid() && buffer.length > 0
      reads this, buffer, buffer.buf
    {
      buffer.buf[0]
    }

    /** The payload size, read behind the fields each kind of frame has before it. */
    function GetDataPayloadSize(): (n: u32)
      requires HeaderRead() && HeaderLen(opcode) == headerSize + 1 && headerSize > 0
      reads this, buffer, buffer.buf
      ensures n == PayloadSize(Seen())
    {
      var b := buffer.Contents();
      ShiftedLoads(opcode, b);
      match opcode
      case 5 => Load32(b, 1 + 4)
      case 6 => Load32(b, 1 + 4)
      case 2 => Load32(b, 1 + 4)
      case 7 => Load32(b, 1)
      case 8 => Load32(b, 1 + 2)
      case 9 => Load32(b, 1 + 4 + 2)
      case 1 => Load32(b, 1 + 1)
      case _ => 0
    }

    function GetSeq(): u32
      requires HeaderRead() && HeaderLen(opcode) == headerSize + 1
      reads this, buffer, buffer.buf
    {
      if opcode in {OP_REQUEST, OP_RESPONSE, OP_PING, OP_PONG, OP_ERROR} then Load32(buffer.Contents(), 1) else 0
    }

    function GetVersion(): byte
      requires HeaderRead() && HeaderLen(opcode) == headerSize + 1
      reads this, buffer, buffer.buf
    {
      if opcode == OP_HELLO then buffer.buf[1] else 0
    }

    function GetCode(): u16
      requires HeaderRead() && HeaderLen(opcode) == headerSize + 1
      reads this, buffer, buffer.buf
    {
      match opcode
      case 8 => Load16(buffer.Contents(), 1)
      case 9 => Load16(buffer.Contents(), 1 + 4)
      case _ => 0
    }

    function GetPingInterval(): u32
      requires HeaderRead() && HeaderLen(opcode) == headerSize + 1
      reads this, buffer, buffer.buf
    {
      if opcode == OP_HELLO_ACK then Load32(buffer.Contents(), 1) else 0
    }

    /** The frame a complete decode stands for, put together from the getters. */
    function TakeFrame(ghost max: nat): (f: Frame)
      requires Sound(max) && decodeComplete
      reads this, buffer, buffer.buf
      ensures f == Fields(Seen())
    {
      hide Load32, Load16;
      var b := buffer.Contents();
      var data := b[headerSize..headerSize + GetDataPayloadSize()];
      assert data == b[headerSize..];
      GetterFields(opcode, b, MiddleLen(opcode), HeaderLen(opcode));
      match opcode
      case 1 => Hello(GetFlags(), GetVersion(), data)
      case 2 => HelloAck(GetFlags(), GetPingInterval(), data)
      case 3 => Ping(GetFlags(), GetSeq())
      case 4 => Pong(GetFlags(), GetSeq())
      case 5 => Request(GetFlags(), GetSeq(), data)
      case 6 => Response(GetFlags(), GetSeq(), data)
      case 7 => Push(GetFlags(), data)
      case 8 => GoAway(GetFlags(), GetCode(), data)
      case _ => Error(GetFlags(), GetSeq(), GetCode(), data)
    }

    // ---------- decoding ----------

    method Reset()
      requires buffer.Valid() && buffer.allocatedSize <= 2 * (LONGEST_HEADER + DATA_SIZE_MAX)
      modifies this
      ensures Valid() && Seen() == [] && !decodeComplete && (old(Tight()) ==> Tight())
      ensures unchanged(buffer) && unchanged(buffer.buf)
    {
      opcode, dataSizeRemaining, decodeComplete := 0, 0, false;
    }

    /** A buffer write, as it extends what was taken of the frame. */
    method Take(heap: Heap, bytes: seq<byte>) returns (rv: int)
      requires buffer.Valid() && opcode != 0
      modifies buffer, buffer.buf, heap
      ensures buffer.Valid() && (fresh(buffer.buf) || buffer.buf == old(buffer.buf))
      ensures rv == 0 || rv == -1
      ensures Seen() == if rv == 0 then old(Seen()) + bytes else old(Seen())
      ensures buffer.length == old(buffer.length) + if rv == 0 then |bytes| else 0
      ensures buffer.allocatedSize == if rv == 0 then Grown(old(buffer.length), old(buffer.allocatedSize), |bytes|)
          else old(buffer.allocatedSize)
      ensures old(buffer.length) + |bytes| <= old(buffer.allocatedSize)
          ==> rv == 0 && heap.plan == old(heap.plan) && buffer.buf == old(buffer.buf)
      ensures HeapUse(old(heap.plan), heap.plan, rv == 0)
    {
      ghost var before := buffer.Contents();
      rv := buffer.Write(heap, bytes);
      Assoc([opcode], before, bytes);
    }

    // The source's one function is split where it moves on from the header to the payload.

    /** Take header bytes, as many as are missing or there are. */
    method ReadHeader(heap: Heap, data: seq<byte>) returns (ok: bool, chunk: nat)
      requires buffer.Valid() && opcode != 0 && buffer.length < headerSize <= LONGEST_HEADER
      modifies buffer, buffer.buf, heap
      ensures buffer.Valid() && (fresh(buffer.buf) || buffer.buf == old(buffer.buf))
      ensures chunk == if !ok then 0 else if headerSize - old(buffer.length) > |data| then |data|
          else headerSize - old(buffer.length)
      ensures Seen() == old(Seen()) + data[..chunk]
      ensures buffer.allocatedSize <= old(buffer.allocatedSize) || buffer.allocatedSize <= 2 * LONGEST_HEADER
      ensures HeapUse(old(heap.plan), heap.plan, ok)
    {
      hide HeapUse;
      chunk := headerSize - buffer.length;
      if chunk > |data| { chunk := |data|; }
      var rv := Take(heap, data[..chunk]);
      ok := rv >= 0;
      if !ok { chunk := 0; }
      assert !ok ==> Seen() + data[..chunk] == Seen();
    }

    /** Take payload bytes up to the end of the frame. */
    method TakePayload(heap: Heap, data: seq<byte>) returns (status: Status, taken: nat)
      requires buffer.Valid() && opcode != 0 && !decodeComplete
      modifies this`dataSizeRemaining, this`decodeComplete, buffer, buffer.buf, heap
      ensures buffer.Valid() && (fresh(buffer.buf) || buffer.buf == old(buffer.buf))
      ensures taken == if status == MemoryError then 0 else if old(dataSizeRemaining) > |data| then |data|
          else old(dataSizeRemaining)
      ensures Seen() == old(Seen()) + data[..taken]
      ensures dataSizeRemaining == old(dataSizeRemaining) - taken
      ensures status == MemoryError || status == if dataSizeRemaining == 0 then Complete else NeedsMore
      ensures status == MemoryError ==> old(dataSizeRemaining) > 0
      ensures decodeComplete <==> status == Complete
      ensures buffer.allocatedSize <= old(buffer.allocatedSize)
              || buffer.allocatedSize <= 2 * (old(buffer.length) + old(dataSizeRemaining))
      ensures old(buffer.length) + old(dataSizeRemaining) <= old(buffer.allocatedSize) ==>
                heap.plan == old(heap.plan) && buffer.buf == old(buffer.buf)
                    && buffer.allocatedSize == old(buffer.allocatedSize)
      ensures HeapUse(old(heap.plan), heap.plan, status != MemoryError)
    {
      taken := dataSizeRemaining;
      if taken > |data| { taken := |data|; }
      assert Seen() + data[..0] == Seen();
      if taken > 0 {
        var rv := Take(heap, data[..taken]);
        if rv < 0 { return MemoryError, 0; }
        dataSizeRemaining := dataSizeRemaining - taken;
      }
      if dataSizeRemaining == 0 {
        decodeComplete := true;
        status := Complete;
      } else {
        status := NeedsMore;
      }
    }

    /** Fill the header; once it is full, check the announced size and set room aside. `settled` when the call ends
        here. */
    method OpenFrame(heap: Heap, data: seq<byte>) returns (settled: bool, status: Status, chunk: nat)
      requires Valid() && opcode != 0 && !HeaderRead()
      modifies this`dataSizeRemaining, buffer, buffer.buf, heap
      ensures buffer.Valid() && (fresh(buffer.buf) || buffer.buf == old(buffer.buf))
      ensures chunk <= |data| && Seen() == old(Seen()) + data[..chunk]
      ensures settled ==> Fed(old(Seen()), data, chunk, status, Seen(), DATA_SIZE_MAX)
      ensures settled ==> status in {NeedsMore, InvalidSize, MemoryError}
      ensures settled ==> if status == InvalidSize then Oversized() else Valid()
      ensures !settled ==> status == NeedsMore && HeaderRead() && Framed(DATA_SIZE_MAX)
      ensures HeapUse(old(heap.plan), heap.plan, status != MemoryError)
      ensures buffer.allocatedSize <= 2 * (LONGEST_HEADER + DATA_SIZE_MAX)
      ensures NoFailure(old(heap.plan)) && old(Tight()) ==> Bounded() && (status != InvalidSize ==> Tight())
    {
      hide Next, PayloadSize, HeaderLen, HasPayload, GetDataPayloadSize;
      ghost var pre := Seen();
      var ok;
      ok, chunk := ReadHeader(heap, data);
      if !ok {
        VerdictShort(pre, data);
        assert Seen() == pre;
        return true, MemoryError, 0;
      }
      if buffer.length < headerSize {
        VerdictShort(pre + data, []);
        return true, NeedsMore, chunk;
      }
      dataSizeRemaining := GetDataPayloadSize();
      VerdictAtHeader(pre, data, chunk);
      if dataSizeRemaining > DATA_SIZE_MAX { return true, InvalidSize, chunk; }
      if dataSizeRemaining > 0 {
        var rv := buffer.EnsureSize(heap, headerSize + dataSizeRemaining);
        if rv < 0 { return true, MemoryError, chunk; }
      }
      settled, status := false, NeedsMore;
    }

    /** Go on with a frame whose header is known. */
    method ReadPayload(heap: Heap, data: seq<byte>, ghost max: nat) returns (status: Status, taken: nat)
      requires Framed(max) && HeaderRead() && !decodeComplete
      modifies this`dataSizeRemaining, this`decodeComplete, buffer, buffer.buf, heap
      ensures fresh(buffer.buf) || buffer.buf == old(buffer.buf)
      ensures Sound(max) && HeaderRead() && decodeComplete == (status == Complete)
      ensures PayloadSize(Seen()) == old(PayloadSize(Seen()))
      ensures Fed(old(Seen()), data, taken, status, Seen(), max) && status != InvalidOpcode && status != InvalidSize
      ensures HeapUse(old(heap.plan), heap.plan, status != MemoryError)
      ensures old(Tight()) ==> Tight() && heap.plan == old(heap.plan) && buffer.buf == old(buffer.buf)
    {
      hide Next, PayloadSize, HeaderLen, HasPayload;
      ghost var pre := Seen();
      VerdictInPayload(pre, data, if dataSizeRemaining > |data| then |data| else dataSizeRemaining, max);
      status, taken := TakePayload(heap, data);
      assert taken == 0 ==> pre + data[..taken] == pre;
      assert Seen() == pre + data[..taken];
    }

    method ReadAppendData(heap: Heap, data: seq<byte>, consumed0: nat, ghost max: nat)
        returns (status: Status, consumed: nat)
      requires Sound(max) && !decodeComplete && DATA_SIZE_MAX <= max && (max > DATA_SIZE_MAX ==> HeaderRead())
      modifies this`dataSizeRemaining, this`decodeComplete, buffer, buffer.buf, heap
      ensures buffer.Valid() && (fresh(buffer.buf) || buffer.buf == old(buffer.buf))
      ensures opcode == 0 ==> status == InvalidOpcode && consumed == consumed0 && Sound(max)
      ensures opcode != 0 ==>
                status != InvalidOpcode && Fed(old(Seen()), data, consumed - consumed0, status, Seen(), max)
      ensures if status == InvalidSize then !old(HeaderRead()) && Oversized()
          else Sound(max) && decodeComplete == (status == Complete)
      ensures old(HeaderRead()) ==> HeaderRead() && PayloadSize(Seen()) == old(PayloadSize(Seen()))
      ensures HeapUse(old(heap.plan), heap.plan, status != MemoryError)
      ensures buffer.allocatedSize <= 2 * (LONGEST_HEADER + max)
      ensures NoFailure(old(heap.plan)) && old(Tight()) ==> Bounded() && (status != InvalidSize ==> Tight())
    {
      hide Next, PayloadSize, HeaderLen, HasPayload, Fed, NoFailure, Seen, Tight, Bounded;
      TightIsBounded();
      consumed := consumed0;
      if opcode == 0 { return InvalidOpcode, consumed; }
      ghost var pre := Seen();
      var chunk := 0;
      if buffer.length < headerSize {
        var settled, early;
        settled, early, chunk := OpenFrame(heap, data);
        consumed := consumed + chunk;
        if settled { return early, consumed; }
      }
      ghost var mid := Seen();
      assert chunk == 0 ==> pre + data[..0] == pre;
      var taken;
      status, taken := ReadPayload(heap, data[chunk..], max);
      FedOn(pre, data, chunk, mid, taken, status, Seen(), max);
      consumed := consumed + taken;
      TightIsBounded();
    }

    method ReadNewData(heap: Heap, data: seq<byte>, consumed0: nat) returns (status: Status, consumed: nat)
      requires Valid() && opcode == 0 && data != []
      modifies this, buffer, buffer.buf, heap
      ensures buffer.Valid() && (fresh(buffer.buf) || buffer.buf == old(buffer.buf))
      ensures Fed([], data, consumed - consumed0, status, Seen(), DATA_SIZE_MAX)
      ensures if status == InvalidSize then Oversized() else Valid() && decodeComplete == (status == Complete)
      ensures HeapUse(old(heap.plan), heap.plan, status != MemoryError)
      ensures buffer.allocatedSize <= 2 * (LONGEST_HEADER + DATA_SIZE_MAX)
      ensures NoFailure(old(heap.plan)) && old(Tight()) ==> Bounded() && (status != InvalidSize ==> Tight())
    {
      hide PayloadSize, Fed;
      consumed := consumed0;
      var op := data[0];
      var size := HeaderSize(op);
      if size == 0 {
        FedNothing(data, InvalidOpcode);
        return InvalidOpcode, consumed;
      }
      consumed := consumed + 1;
      buffer.length := 0;
      dataSizeRemaining, opcode, headerSize := 0, op, size;
      assert Seen() == [op];
      if |data| > 1 {
        status, consumed := ReadAppendData(heap, data[1..], consumed, DATA_SIZE_MAX);
        FedOn([], data, 1, [op], consumed - consumed0 - 1, status, Seen(), DATA_SIZE_MAX);
      } else {
        status := NeedsMore;
        FedNothing(data, NeedsMore);
        assert Seen() == data;
      }
    }

    /** One call of the decoder. A new frame needs at least one byte. The limit is looked at only when a header has
        just been read: a decoder that has refused a frame for its size, and is fed on without a reset, behaves like
        one without it. */
    method ReadData(heap: Heap, data: seq<byte>, consumed0: nat, ghost max: nat) returns (status: Status, consumed: nat)
      requires Sound(max) && DATA_SIZE_MAX <= max && (max > DATA_SIZE_MAX ==> HeaderRead())
      requires opcode == 0 ==> data != []
      modifies this, buffer, buffer.buf, heap
      ensures buffer.Valid() && (fresh(buffer.buf) || buffer.buf == old(buffer.buf))
      ensures Fed(old(Seen()), data, consumed - consumed0, status, Seen(), max)
      ensures if status == InvalidSize then !old(HeaderRead()) && Oversized()
          else Sound(max) && decodeComplete == (status == Complete)
      ensures old(HeaderRead()) ==> HeaderRead() && PayloadSize(Seen()) == old(PayloadSize(Seen()))
      ensures HeapUse(old(heap.plan), heap.plan, status != MemoryError)
      ensures buffer.allocatedSize <= 2 * (LONGEST_HEADER + max)
      ensures NoFailure(old(heap.plan)) && old(Tight()) ==> Bounded() && (status != InvalidSize ==> Tight())
    {
      hide Next, PayloadSize, HeaderLen, HasPayload;
      if decodeComplete {
        VerdictInPayload(Seen(), data, 0, max);
        assert Seen() + data[..0] == Seen();
        return Complete, consumed0;
      } else if opcode == 0 {
        status, consumed := ReadNewData(heap, data, consumed0);
      } else {
        status, consumed := ReadAppendData(heap, data, consumed0, max);
      }
    }
  }

  /** Two steps through one chunk are one step through it. */
  lemma FedOn(pre: seq<byte>, data: seq<byte>, k: nat, mid: seq<byte>, taken: int, status: Status, post: seq<byte>,
      max: nat)
    requires k <= |data| && mid == pre + data[..k] && status != InvalidOpcode
    requires Fed(mid, data[k..], taken, status, post, max)
    ensures Fed(pre, data, k + taken, status, post, max)
  {
    hide Next;
    assert mid + data[k..] == pre + data;
    assert mid + data[k..][..taken] == pre + data[..k + taken];
  }

  /** A new frame of which nothing but the opcode is known. */
  lemma FedNothing(data: seq<byte>, status: Status)
    requires data != []
    requires status == if HeaderLen(data[0]) == 0 then InvalidOpcode else NeedsMore
    requires status == NeedsMore ==> |data| == 1
    ensures if status == InvalidOpcode then Fed([], data, 0, status, [], DATA_SIZE_MAX)
        else Fed([], data, 1, status, data, DATA_SIZE_MAX)
  {
    assert [] + data == data;
  }

  /** How a step may use the allocator: it only moves forward, and a reported failure used up a failing call. */
  predicate HeapUse(before: seq<bool>, after: seq<bool>, ok: bool) {
    && |after| <= |before| && (!ok ==> |after| < |before|)
    && (NoFailure(before) ==> ok && NoFailure(after))
  }

  lemma ShiftedLoads(opcode: byte, b: seq<byte>)
    requires HeaderLen(opcode) > 0 && |b| + 1 >= HeaderLen(opcode)
    ensures HasPayload(opcode) ==> PayloadSize([opcode] + b) == Load32(b, HeaderLen(opcode) - 5)
  {
    var s := [opcode] + b;
    if HasPayload(opcode) {
      var at := HeaderLen(opcode) - 5;
      assert b[at..at + 4] == s[at + 1..at + 5];
      LoadSlice32(b, s, at, 1);
    }
  }

  lemma VerdictShort(pre: seq<byte>, data: seq<byte>)
    requires pre != [] && |pre| < HeaderLen(pre[0])
    ensures Next(pre, DATA_SIZE_MAX) == More && !Next(pre + data, DATA_SIZE_MAX).BadOpcode?
    ensures data == [] ==> Next(pre + data, DATA_SIZE_MAX) == More
  {
  }

  /** The verdict once the header is full, whatever part of the payload came with it. */
  lemma VerdictAtHeader(pre: seq<byte>, data: seq<byte>, k: nat)
    requires pre != [] && k <= |data| && |pre| + k == HeaderLen(pre[0])
    ensures var post, verdict := pre + data[..k], Next(pre + data, DATA_SIZE_MAX);
            if PayloadSize(post) > DATA_SIZE_MAX then verdict.TooLarge?
            else verdict in {More, Whole(|post| + PayloadSize(post))}
                 && (PayloadSize(post) > 0 ==> Next(post, DATA_SIZE_MAX) == More)
  {
    hide Load32;
    SameSize(pre + data[..k], pre + data);
  }

  /** The verdict when everything up to the payload is known. */
  lemma VerdictInPayload(pre: seq<byte>, data: seq<byte>, k: nat, max: nat)
    requires pre != [] && 0 < HeaderLen(pre[0]) <= |pre| <= HeaderLen(pre[0]) + PayloadSize(pre)
    requires PayloadSize(pre) <= max
    requires k <= |data| && |pre| + k <= HeaderLen(pre[0]) + PayloadSize(pre)
    requires k == |data| || |pre| + k == HeaderLen(pre[0]) + PayloadSize(pre)
    ensures PayloadSize(pre + data[..k]) == PayloadSize(pre)
    ensures Next(pre + data, max) ==
            if |pre| + k == HeaderLen(pre[0]) + PayloadSize(pre) then Whole(|pre| + k) else More
    ensures |pre| < HeaderLen(pre[0]) + PayloadSize(pre) ==> Next(pre, max) == More
  {
    hide Load32;
    SameSize(pre, pre + data);
    SameSize(pre, pre + data[..k]);
  }

  /** The size field is read from the header alone. */
  lemma SameSize(s: seq<byte>, t: seq<byte>)
    requires s != [] && s <= t && 0 < HeaderLen(s[0]) <= |s|
    ensures t[0] == s[0] && PayloadSize(s) == PayloadSize(t)
  {
    if HasPayload(s[0]) {
      var at := HeaderLen(s[0]) - 4;
      assert s[at..at + 4] == t[at..at + 4];
      LoadSlice32(s, t, at, 0);
    }
  }

  /** With the opcode kept apart, every field stands one byte further to the front. */
  lemma GetterFields(opcode: byte, b: seq<byte>, n: nat, h: nat)
    requires 1 + n <= |b| && 1 <= h <= |b| + 1
    ensures var m := ([opcode] + b)[2..2 + n];
            && m == b[1..1 + n] && ([opcode] + b)[1] == b[0]
            && ([opcode] + b)[h..] == b[h - 1..]
            && (n >= 4 ==> Load32(m, 0) == Load32(b, 1))
            && (n == 2 ==> Load16(m, 0) == Load16(b, 1))
            && (n == 6 ==> Load16(m, 4) == Load16(b, 5))
  {
    hide Load32, Load16;
    SliceRight([opcode], b, 1, 1 + n);
    SliceRight([opcode], b, h - 1, |b|);
    PartLoads(b, 1, n);
  }
}
