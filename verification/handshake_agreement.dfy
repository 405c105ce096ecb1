/** The whole handshake through the wire, in all four pairings of Rust and Go. */
module HandshakeAgreement {
  import opened Bytes
  import opened Settings
  import opened FirstMatch
  import F = Framing
  import R = RustCodec
  import LoquiErrors
  import RustHandshake
  import Go = GoProtocol
  import GoHandshake

  datatype Kind = Rust | Go

  datatype Config = Config(kind: Kind, encodings: seq<Name>, compressions: seq<Name>, pingIntervalMs: u32,
      maxPayload: u32)

  /** What a client offers; Rust never offers a compression. */
  function Offer(c: Config): Lists {
    Lists(c.encodings, if c.kind.Rust? then [] else c.compressions)
  }

  predicate PlainNames(names: seq<Name>) {
    Free(names, COMMA) && Free(names, BAR)
  }

  predicate Plain(l: Lists) {
    PlainNames(l.encodings) && PlainNames(l.compressions)
  }

  predicate Fits(text: seq<byte>, limit: u32) {
    |text| <= limit && |text| < U32_COUNT
  }

  lemma {:induction false} JoinHolds(names: seq<Name>, i: nat)
    requires i < |names|
    ensures |names[i]| <= |Join(names, COMMA)|
  {
    if |names| > 1 && i > 0 { JoinHolds(names[1..], i - 1); }
  }

  /** An acknowledgement drawn from an offer is no longer than the offer. */
  lemma AckFits(l: Lists, encoding: Name, compression: Name, limit: u32)
    requires encoding in l.encodings && (compression == [] || compression in l.compressions)
    requires Fits(PrintHello(l), limit)
    ensures Fits(PrintAck(encoding, compression), limit)
  {
    var i :| 0 <= i < |l.encodings| && l.encodings[i] == encoding;
    JoinHolds(l.encodings, i);
    if compression != [] {
      var j :| 0 <= j < |l.compressions| && l.compressions[j] == compression;
      JoinHolds(l.compressions, j);
    }
  }

  /** What Rust reads of a printed list of plain names: all of it but an empty last name. */
  function Heard(names: seq<Name>): seq<Name> {
    if names != [] && names[|names| - 1] == [] then names[..|names| - 1] else names
  }

  lemma RustReadsPlain(names: seq<Name>)
    requires PlainNames(names)
    ensures SplitTerminator(Join(names, COMMA), COMMA) == Heard(names)
  {
    SplitJoin(names, COMMA);
  }

  /** What Go reads: all of it, unless it is the list of one empty name. */
  lemma GoReadsPlain(names: seq<Name>)
    requires PlainNames(names)
    ensures var read := GoList(Join(names, COMMA)); read == names || (names == [[]] && read == [])
  {
    GoListRoundTrip(names);
  }

  lemma PrintedSplits(l: Lists)
    requires Plain(l)
    ensures Split(PrintHello(l), BAR) == [Join(l.encodings, COMMA), Join(l.compressions, COMMA)]
  {
    JoinHasNo(l.encodings, COMMA, BAR);
    JoinHasNo(l.compressions, COMMA, BAR);
    SplitBar(Join(l.encodings, COMMA), Join(l.compressions, COMMA));
  }

  // ---------- the client's first move ----------

  function HelloFrame(version: byte, l: Lists): F.Frame {
    F.Hello(0, version, PrintHello(l))
  }

  method SendHello(c: Config) returns (wire: seq<byte>)
    ensures wire == F.Encode(HelloFrame(F.VERSION, Offer(c)))
  {
    hide F.Encode, PrintHello;
    match c.kind
    case Rust =>
      var codec := new R.Codec(c.maxPayload);
      var dst := new R.BytesMut([]);
      codec.Encode(RustHandshake.MakeHello(c.encodings), dst);
      wire := dst.data;
    case Go =>
      var writer := new Go.ProtocolWriter();
      writer.WriteHello(0, F.VERSION, c.encodings, c.compressions);
      wire := writer.w;
  }

  // ---------- the server's answer ----------

  /** A server's one frame: an acknowledgement of what it has settled on, or the code it refuses with. */
  datatype Answer = Acked(interval: u32, encoding: Name, compression: Name) | Refused(code: u16)

  function AnswerFrame(a: Answer): F.Frame {
    match a
    case Acked(interval, encoding, compression) => F.HelloAck(0, interval, PrintAck(encoding, compression))
    case Refused(code) => F.GoAway(0, code, [])
  }

  /** What an answer tells of the server, in terms of the offer it was sent. */
  ghost predicate Settled(s: Config, version: byte, l: Lists, a: Answer) {
    match a
    case Acked(interval, encoding, compression) =>
      && interval == s.pingIntervalMs && encoding in l.encodings && encoding in s.encodings
      && (compression == [] || (s.kind.Go? && compression in l.compressions && compression in s.compressions))
      && (s.kind.Rust? ==> FirstIs(l.encodings, s.encodings, encoding))
      && (s.kind.Go? ==> FirstIs(s.encodings, l.encodings, encoding) && encoding != [])
    case Refused(code) =>
      code == if Speaks(s, version) then GoHandshake.CODE_NO_COMMON_ENCODING else GoHandshake.CODE_UNSUPPORTED_VERSION
  }

  /** Rust speaks its own version only, Go every version up to its own. */
  predicate Speaks(s: Config, version: byte) {
    if s.kind.Rust? then version == F.VERSION else version <= F.VERSION
  }

  /** Exactly when a server acknowledges a version it speaks: Rust when it supports some name of the offer, an empty
      last name apart; Go when the first of its own names that is offered is not the empty one. */
  ghost predicate WillAnswer(s: Config, l: Lists) {
    match s.kind
    case Rust => !NoneCommon(Heard(l.encodings), s.encodings)
    case Go => exists v :: FirstIs(s.encodings, l.encodings, v) && v != []
  }

  /** The server reads the Hello off the wire and sends its one frame, whether it acknowledges or refuses. */
  method AnswerHello(s: Config, wire: seq<byte>, utf8: seq<byte> -> bool, ghost version: byte, ghost l: Lists)
    returns (acked: bool, sent: seq<byte>, encoding: Name, ghost answer: Answer)
    requires wire == F.Encode(HelloFrame(version, l)) && Plain(l) && Fits(PrintHello(l), s.maxPayload)
        && utf8(PrintHello(l))
    ensures sent == F.Encode(AnswerFrame(answer)) && Settled(s, version, l, answer)
    ensures acked == answer.Acked? && (acked ==> encoding == answer.encoding)
    ensures acked <==> Speaks(s, version) && WillAnswer(s, l)
  {
    match s.kind
    case Rust => acked, sent, encoding, answer := RustAnswer(s, wire, utf8, version, l);
    case Go => acked, sent, encoding, answer := GoAnswer(s, wire, version, l);
  }

  /** The Rust codec takes the Hello off the wire. */
  method RustHear(limit: u32, wire: seq<byte>, utf8: seq<byte> -> bool, ghost version: byte, ghost l: Lists)
    returns (frame: R.LoquiFrame)
    requires wire == F.Encode(HelloFrame(version, l)) && Plain(l) && Fits(PrintHello(l), limit) && utf8(PrintHello(l))
    ensures var r := RustReadHello(PrintHello(l));
            r.Some? && frame == R.Hello(0, version, r.value.encodings, r.value.compressions)
  {
    hide F.Encode, F.Next, F.Fields, RustReadHello, PrintHello;
    var codec := new R.Codec(limit);
    var buf := new R.BytesMut(wire);
    F.ScanEncoded(HelloFrame(version, l), [], limit);
    F.FieldsOfEncoded(HelloFrame(version, l));
    assert wire + [] == wire && wire[..|wire|] == wire;
    RustHearsHello(l);
    var r := codec.Decode(buf, utf8);
    frame := r.value.value;
  }

  /** A Rust server that cannot go on closes with the error's code. */
  method RustAnswer(s: Config, wire: seq<byte>, utf8: seq<byte> -> bool, ghost version: byte, ghost l: Lists)
    returns (acked: bool, sent: seq<byte>, encoding: Name, ghost answer: Answer)
    requires s.kind.Rust?
    requires wire == F.Encode(HelloFrame(version, l)) && Plain(l) && Fits(PrintHello(l), s.maxPayload)
        && utf8(PrintHello(l))
    ensures sent == F.Encode(AnswerFrame(answer)) && Settled(s, version, l, answer)
    ensures acked == answer.Acked? && (acked ==> encoding == answer.encoding)
    ensures acked <==> Speaks(s, version) && WillAnswer(s, l)
  {
    hide F.Encode, RustReadHello, PrintHello, PrintAck, RustHandshake.ServerHandshake, FirstIs, NoneCommon;
    RustHearsHello(l);
    var frame := RustHear(s.maxPayload, wire, utf8, version, l);
    RustHandshake.ServerVerdict(frame, s.pingIntervalMs, s.encodings);
    var codec := new R.Codec(s.maxPayload);
    var dst := new R.BytesMut([]);
    match RustHandshake.ServerHandshake(frame, s.pingIntervalMs, s.encodings)
    case Err(error) =>
      acked, encoding, answer := false, [], Refused(LoquiErrors.Code(error));
      codec.Encode(R.GoAway(0, LoquiErrors.Code(error), []), dst);
      sent := dst.data;
    case Ok((ready, helloAck)) =>
      HeardFirst(frame.encodings, l.encodings, s.encodings, ready.encoding);
      acked, encoding, answer := true, ready.encoding, Acked(s.pingIntervalMs, ready.encoding, []);
      codec.Encode(helloAck, dst);
      sent := dst.data;
  }

  lemma RustHearsHello(l: Lists)
    requires Plain(l)
    ensures var r := RustReadHello(PrintHello(l)); r.Some? && r.value.encodings == Heard(l.encodings)
  {
    hide Join, Split, PrintHello, SplitTerminator, Heard;
    PrintedSplits(l);
    RustReadsPlain(l.encodings);
  }

  lemma HeardFirst(heard: seq<Name>, said: seq<Name>, supported: seq<Name>, v: Name)
    requires heard <= said && FirstIs(heard, supported, v)
    ensures FirstIs(said, supported, v) && v in said && v in supported && !NoneCommon(heard, supported)
  {
    var i :| IsFirst(heard, supported, i) && heard[i] == v;
    assert forall j :: 0 <= j <= i ==> said[j] == heard[j];
    assert IsFirst(said, supported, i);
  }

  /** A Go server that terminates has queued its GoAway first. */
  method GoAnswer(s: Config, wire: seq<byte>, ghost version: byte, ghost l: Lists)
    returns (acked: bool, sent: seq<byte>, encoding: Name, ghost answer: Answer)
    requires s.kind.Go?
    requires wire == F.Encode(HelloFrame(version, l)) && Plain(l) && Fits(PrintHello(l), s.maxPayload)
    ensures sent == F.Encode(AnswerFrame(answer)) && Settled(s, version, l, answer)
    ensures acked == answer.Acked? && (acked ==> encoding == answer.encoding)
    ensures acked <==> Speaks(s, version) && WillAnswer(s, l)
  {
    hide F.Encode, F.Next, F.Fields, Join, Split, PrintHello, PrintAck, GoReadHello, GoReadAck, FirstIs;
    // A limit of 0 stands for the default.
    var pr := new Go.ProtocolReader(wire, s.maxPayload);
    var ph := new Go.Handler();
    F.ScanEncoded(HelloFrame(version, l), [], pr.maxPayloadSize) by { PrintedIsShort(l, s.maxPayload); }
    F.FieldsOfEncoded(HelloFrame(version, l));
    assert wire + [] == wire && wire[..|wire|] == wire;
    GoHears(l);
    var err := pr.Process(ph);
    ghost var heard := GoReadHello(PrintHello(l)).value;
    assert ph.calls == [Go.HandleHello(0, version, heard.encodings, heard.compressions)];
    var conn := new GoHandshake.Conn(false, s.pingIntervalMs, s.encodings, s.compressions);
    var call := ph.calls[0];
    conn.HandleHello(call.flags, call.version, call.encodings, call.compressions);
    acked, sent, encoding := conn.ready, conn.proto.w, conn.encoding;
    if acked {
      FirstMember(s.encodings, heard.encodings, l.encodings, encoding);
      if conn.compression != [] { FirstMember(s.compressions, heard.compressions, l.compressions, conn.compression); }
      answer := Acked(s.pingIntervalMs, encoding, conn.compression);
    } else {
      answer := Refused(if version > F.VERSION then GoHandshake.CODE_UNSUPPORTED_VERSION
          else GoHandshake.CODE_NO_COMMON_ENCODING);
      if version <= F.VERSION { GoRefusal(s, l, heard.encodings); }
    }
    assert sent == [] + F.Encode(AnswerFrame(answer));
  }

  /** What Go reads of a printed Hello: the lists, but the list of one empty name as the empty list. */
  lemma GoHears(l: Lists)
    requires Plain(l)
    ensures GoReadHello(PrintHello(l)).Some?
    ensures var heard := GoReadHello(PrintHello(l)).value;
            && (heard.encodings == l.encodings || (l.encodings == [[]] && heard.encodings == []))
            && (heard.compressions == l.compressions || (l.compressions == [[]] && heard.compressions == []))
  {
    hide Join, Split, PrintHello, GoList;
    PrintedSplits(l);
    GoReadsPlain(l.encodings);
    GoReadsPlain(l.compressions);
  }

  lemma PrintedIsShort(l: Lists, limit: u32)
    requires Fits(PrintHello(l), limit)
    ensures |PrintHello(l)| <= if limit <= 0 then Go.MAX_INT32 else limit
  {
  }

  lemma FirstMember(supported: seq<Name>, heard: seq<Name>, said: seq<Name>, v: Name)
    requires FirstIs(supported, heard, v)
    requires heard == said || (said == [[]] && heard == [])
    ensures FirstIs(supported, said, v) && v in said && v in supported
  {
  }

  /** The search left the empty name: there is no other first match. */
  lemma GoRefusal(s: Config, l: Lists, heard: seq<Name>)
    requires s.kind.Go? && (heard == l.encodings || (l.encodings == [[]] && heard == []))
    requires GoHandshake.Conn.Chosen(s.encodings, heard, [], [])
    ensures !WillAnswer(s, l)
  {
    forall v | FirstIs(s.encodings, l.encodings, v) ensures v == [] {
      var i :| IsFirst(s.encodings, l.encodings, i) && s.encodings[i] == v;
      if heard == l.encodings && FirstIs(s.encodings, heard, []) {
        var k :| IsFirst(s.encodings, heard, k) && s.encodings[k] == [];
        assert i == k;
      }
    }
  }

  // ---------- the client's verdict ----------

  /** What the client makes of the bytes that reach it before the stream ends: all of the server's frame or only a
      part. The same code runs on either answer. `told` is the code of a GoAway, as the client's reader hands it on. */
  method HearAnswer(c: Config, wire: seq<byte>, utf8: seq<byte> -> bool, ghost a: Answer)
    returns (accepted: bool, chosen: Name, intervalMs: nat, told: Option<u16>)
    requires wire <= F.Encode(AnswerFrame(a))
    requires a.Acked? ==> BAR !in a.encoding && BAR !in a.compression && utf8(AnswerFrame(a).Payload())
    requires Fits(AnswerFrame(a).Payload(), c.maxPayload)
    ensures accepted <==>
            wire == F.Encode(AnswerFrame(a)) && a.Acked? && a.encoding in c.encodings
            && (a.compression == [] || (c.kind.Go? && a.compression in c.compressions))
    ensures accepted ==> chosen == a.encoding && intervalMs == a.interval
    ensures told == if wire == F.Encode(AnswerFrame(a)) && a.Refused? then Some(a.code) else None
  {
    match c.kind
    case Rust => accepted, chosen, intervalMs, told := RustHearsAnswer(c, wire, utf8, a);
    case Go => accepted, chosen, intervalMs, told := GoHearsAnswer(c, wire, a);
  }

  method RustHearsAnswer(c: Config, wire: seq<byte>, utf8: seq<byte> -> bool, ghost a: Answer)
    returns (accepted: bool, chosen: Name, intervalMs: nat, told: Option<u16>)
    requires c.kind.Rust? && wire <= F.Encode(AnswerFrame(a))
    requires a.Acked? ==> BAR !in a.encoding && BAR !in a.compression && utf8(AnswerFrame(a).Payload())
    requires Fits(AnswerFrame(a).Payload(), c.maxPayload)
    ensures accepted <==>
              wire == F.Encode(AnswerFrame(a)) && a.Acked? && a.encoding in c.encodings && a.compression == []
    ensures accepted ==> chosen == a.encoding && intervalMs == a.interval
    ensures told == if wire == F.Encode(AnswerFrame(a)) && a.Refused? then Some(a.code) else None
  {
    hide F.Encode, F.Next, F.Fields, PrintAck, Split;
    accepted, chosen, intervalMs, told := false, [], 0, None;
    AnswerScanned(a, wire, c.maxPayload);
    if a.Acked? { RustAckRoundTrip(Choice(a.encoding, if a.compression == [] then None else Some(a.compression))); }
    var codec := new R.Codec(c.maxPayload);
    var buf := new R.BytesMut(wire);
    var r := codec.Decode(buf, utf8);
    // Without a whole frame the stream has ended.
    if r.Err? || r.value.None? { return; }
    match RustHandshake.ClientHandshake(r.value.value, c.encodings)
    case Ok(ready) => accepted, chosen, intervalMs := true, ready.encoding, ready.pingIntervalMs;
    case Err(ToldToGoAway(goAway)) => told := Some(goAway.code);
    case Err(_) =>
  }

  method GoHearsAnswer(c: Config, wire: seq<byte>, ghost a: Answer)
    returns (accepted: bool, chosen: Name, intervalMs: nat, told: Option<u16>)
    requires c.kind.Go? && wire <= F.Encode(AnswerFrame(a))
    requires a.Acked? ==> BAR !in a.encoding && BAR !in a.compression
    requires Fits(AnswerFrame(a).Payload(), c.maxPayload)
    ensures accepted <==>
            wire == F.Encode(AnswerFrame(a)) && a.Acked? && a.encoding in c.encodings
            && (a.compression == [] || a.compression in c.compressions)
    ensures accepted ==> chosen == a.encoding && intervalMs == a.interval
    ensures told == if wire == F.Encode(AnswerFrame(a)) && a.Refused? then Some(a.code) else None
  {
    hide F.Encode, F.Next, F.Fields, PrintAck, Split;
    var pr := new Go.ProtocolReader(wire, c.maxPayload);
    var ph := new Go.Handler();
    AnswerScanned(a, wire, pr.maxPayloadSize);
    if a.Acked? { GoAckRoundTrip(a.encoding, a.compression); }
    var conn := new GoHandshake.Conn(true, 0, c.encodings, c.compressions);
    var err := pr.Process(ph);
    told := None;
    if err == Go.NoError {
      match ph.calls[0] {
        case HandleHelloAck(flags, interval, encoding, compression) =>
          conn.HandleHelloAck(flags, interval, encoding, compression);
        case HandleGoAway(flags, code, reason) =>
          told := Some(code);
          conn.HandleGoAway(flags, code, reason);
        case _ => assert false;
      }
    }
    accepted, chosen, intervalMs := conn.ready, conn.encoding, conn.pingIntervalMs;
  }

  /** The whole of the answer is scanned as its one frame, any less of it as too little. */
  lemma AnswerScanned(a: Answer, wire: seq<byte>, max: nat)
    requires wire <= F.Encode(AnswerFrame(a)) && |AnswerFrame(a).Payload()| <= max
        && |AnswerFrame(a).Payload()| < U32_COUNT
    ensures if wire == F.Encode(AnswerFrame(a))
            then F.Next(wire, max) == F.Whole(|wire|) && F.Fields(wire[..|wire|]) == AnswerFrame(a)
                && wire[..|wire|] == wire
            else F.Next(wire, max) == F.More
  {
    hide F.Encode, F.Next, F.Fields, PrintAck;
    var f := AnswerFrame(a);
    var all := F.Encode(f);
    F.ScanEncoded(f, [], max);
    F.FieldsOfEncoded(f);
    assert all + [] == all && all[..|all|] == all;
    F.ScanExact(all, max);
    assert all[..|wire|] == wire;
  }

  // ---------- agreement ----------

  /** The client accepts if and only if the server acknowledges; both then hold the same encoding and the server's
      ping interval, and the encoding is in both lists, first in the client's order for a Rust server and in the
      server's own for a Go server. A refused client is told the cause. A Rust server waits for its GoAway to be sent;
      a Go server closes the connection beside its write loop, so that only `flushed` bytes of its GoAway may have
      left. */
  method Handshake(c: Config, s: Config, utf8: seq<byte> -> bool, flushed: nat)
    returns (acked: bool, accepted: bool, serverEncoding: Name, clientEncoding: Name, clientIntervalMs: nat,
        told: Option<u16>)
    requires Plain(Offer(c))
    requires Fits(PrintHello(Offer(c)), c.maxPayload) && Fits(PrintHello(Offer(c)), s.maxPayload)
    requires utf8(PrintHello(Offer(c)))
    requires forall e, k :: e in c.encodings && (k == [] || k in c.compressions) ==> utf8(PrintAck(e, k))
    ensures acked <==> accepted
    ensures acked <==> WillAnswer(s, Offer(c))
    ensures acked ==> serverEncoding == clientEncoding && clientIntervalMs == s.pingIntervalMs
    ensures acked ==> serverEncoding in c.encodings && serverEncoding in s.encodings
    ensures acked && s.kind.Rust? ==> FirstIs(c.encodings, s.encodings, serverEncoding)
    ensures acked && s.kind.Go? ==> FirstIs(s.encodings, c.encodings, serverEncoding) && serverEncoding != []
    ensures told == if !acked && (s.kind.Rust? || flushed >= 8) then Some(GoHandshake.CODE_NO_COMMON_ENCODING) else None
  {
    hide F.Encode, PrintHello, PrintAck, FirstIs, NoneCommon;
    var hello := SendHello(c);
    var sent;
    ghost var answer;
    acked, sent, serverEncoding, answer := AnswerHello(s, hello, utf8, F.VERSION, Offer(c));
    var wire := if acked || s.kind.Rust? || flushed >= |sent| then sent else sent[..flushed];
    if acked {
      AckFits(Offer(c), answer.encoding, answer.compression, c.maxPayload);
      PlainMember(c.encodings, answer.encoding);
      if answer.compression != [] { PlainMember(Offer(c).compressions, answer.compression); }
    } else {
      GoAwayLength(answer.code);
    }
    accepted, clientEncoding, clientIntervalMs, told := HearAnswer(c, wire, utf8, answer);
  }

  lemma GoAwayLength(code: u16)
    ensures |F.Encode(F.GoAway(0, code, []))| == 8
  {
    F.HeaderLength(F.GoAway(0, code, []));
  }

  lemma PlainMember(names: seq<Name>, v: Name)
    requires PlainNames(names) && v in names
    ensures BAR !in v && COMMA !in v
  {
  }

  /** A common name is not always enough: a Go server whose first match is the empty name refuses, and a Rust server
      does not hear an empty last name. */
  lemma CommonNameRefused(interval: u32, limit: u32)
    ensures var names := [[], [0x61]];
            !WillAnswer(Config(Go, names, [], interval, limit), Lists(names, [])) && [0x61] in names
    ensures !WillAnswer(Config(Rust, [[]], [], interval, limit), Lists([[]], []))
  {
    var names: seq<Name> := [[], [0x61]];
    forall v | FirstIs(names, names, v) ensures v == [] {
      var i :| IsFirst(names, names, i) && names[i] == v;
      assert names[0] in names;
    }
  }

  // ---------- close codes ----------

  /** The codes Rust closes with are Go's constants for the same causes. */
  lemma SameCodes(e: LoquiErrors.LoquiError)
    ensures LoquiErrors.Code(e) ==
            match e
            case ConnectionCloseRequested => GoHandshake.CODE_NORMAL
            case InvalidOpcode(_) => GoHandshake.CODE_INVALID_OP
            case UnsupportedVersion(_, _) => GoHandshake.CODE_UNSUPPORTED_VERSION
            case NoCommonEncoding => GoHandshake.CODE_NO_COMMON_ENCODING
            case InvalidEncoding => GoHandshake.CODE_INVALID_ENCODING
            case InvalidCompression => GoHandshake.CODE_INVALID_COMPRESSION
            case PingTimeout => GoHandshake.CODE_PING_TIMEOUT
            case ToldToGoAway(_) => GoHandshake.CODE_INTERNAL_SERVER_ERROR
  {
  }
}
