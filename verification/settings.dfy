/**
 The settings text inside Hello and HelloAck payloads: names joined with ',' and lists joined with '|'.
 Rust and Go print it alike but read it by different split rules. A name is a byte string; whether bytes
 are valid UTF-8, which only Rust asks, is decided by a predicate the caller supplies.
 */
module Settings {
  import opened Bytes

  type Name = seq<byte>

  const COMMA: byte := 0x2C
  const BAR: byte := 0x7C

  /** Go's `strings.Split` and Rust's `str::split` with a one-byte separator: never empty. */
  function Split(s: Name, sep: byte): (parts: seq<Name>)
    ensures parts != []
  {
    if s == [] then [[]]
    else
      var tail := Split(s[1..], sep);
      if s[0] == sep then [[]] + tail else [[s[0]] + tail[0]] + tail[1..]
  }

  function Join(parts: seq<Name>, sep: byte): Name {
    if parts == [] then []
    else if |parts| == 1 then parts[0]
    else parts[0] + [sep] + Join(parts[1..], sep)
  }

  /** Rust's `split_terminator`: an empty last piece is dropped. */
  function SplitTerminator(s: Name, sep: byte): seq<Name> {
    var parts := Split(s, sep);
    if parts[|parts| - 1] == [] then parts[..|parts| - 1] else parts
  }

  predicate Free(parts: seq<Name>, sep: byte) {
    forall i :: 0 <= i < |parts| ==> sep !in parts[i]
  }

  // ---------- splitting and joining ----------

  lemma {:induction false} SplitPieces(s: Name, sep: byte)
    ensures Free(Split(s, sep), sep)
    ensures Join(Split(s, sep), sep) == s
  {
    if s != [] {
      var tail, parts := Split(s[1..], sep), Split(s, sep);
      SplitPieces(s[1..], sep);
      assert s == [s[0]] + s[1..];
      if s[0] == sep {
        assert parts[1..] == tail;
      } else {
        assert parts[1..] == tail[1..];
        assert forall i :: 1 <= i < |parts| ==> parts[i] == tail[i];
        if |tail| > 1 {
          assert parts[0] + [sep] + Join(tail[1..], sep) == [s[0]] + (tail[0] + [sep] + Join(tail[1..], sep));
        }
      }
    }
  }

  lemma {:induction false} SplitFirst(head: Name, rest: Name, sep: byte)
    requires sep !in head
    ensures Split(head + [sep] + rest, sep) == [head] + Split(rest, sep)
  {
    var s := head + [sep] + rest;
    if head == [] {
      assert s[1..] == rest;
    } else {
      SplitFirst(head[1..], rest, sep);
      assert s[1..] == head[1..] + [sep] + rest;
      assert [head[0]] + head[1..] == head;
    }
  }

  lemma {:induction false} SplitNone(s: Name, sep: byte)
    requires sep !in s
    ensures Split(s, sep) == [s]
  {
    if s != [] {
      SplitNone(s[1..], sep);
      assert s == [s[0]] + s[1..];
    }
  }

  /** Splitting undoes joining exactly when no piece holds the separator and there is a piece at all. */
  lemma {:induction false} SplitJoin(parts: seq<Name>, sep: byte)
    ensures Split(Join(parts, sep), sep) == parts <==> parts != [] && Free(parts, sep)
  {
    if parts != [] && Free(parts, sep) {
      if |parts| == 1 {
        SplitNone(parts[0], sep);
      } else {
        SplitFirst(parts[0], Join(parts[1..], sep), sep);
        SplitJoin(parts[1..], sep);
      }
    } else {
      SplitPieces(Join(parts, sep), sep);
    }
  }

  /** A list Rust can read back: no name holds a comma, and the list does not end in an empty name. */
  predicate Readable(names: seq<Name>) {
    Free(names, COMMA) && (names == [] || names[|names| - 1] != [])
  }

  /** Rust reads a printed list back exactly when it is readable. */
  lemma TerminatorRoundTrip(names: seq<Name>)
    ensures SplitTerminator(Join(names, COMMA), COMMA) == names <==> Readable(names)
  {
    var text := Join(names, COMMA);
    var parts := Split(text, COMMA);
    SplitJoin(names, COMMA);
    SplitPieces(text, COMMA);
  }

  /** The lists Rust makes of text with no '|' in it: always comma-free, and an end of the pieces Go makes. */
  lemma TerminatorAgainstSplit(s: Name)
    ensures var rust, go := SplitTerminator(s, COMMA), (if s == [] then [] else Split(s, COMMA));
            go == rust || go == rust + [[]]
  {
  }

  lemma {:induction false} JoinHasNo(parts: seq<Name>, sep: byte, b: byte)
    requires b != sep
    ensures b !in Join(parts, sep) <==> Free(parts, b)
  {
    if |parts| == 1 {
      assert Free(parts, b) <==> b !in parts[0];
    } else if |parts| > 1 {
      JoinHasNo(parts[1..], sep, b);
      assert Free(parts, b) <==> b !in parts[0] && Free(parts[1..], b) by {
        assert forall i :: 0 <= i < |parts| - 1 ==> parts[1..][i] == parts[i + 1];
        if b !in parts[0] && Free(parts[1..], b) {
          forall i | 0 <= i < |parts| ensures b !in parts[i] { if i > 0 { assert parts[i] == parts[1..][i - 1]; } }
        }
      }
    }
  }

  /** Text with one bar splits in two; more bars than one split in more. */
  lemma SplitBar(left: Name, right: Name)
    ensures var parts := Split(left + [BAR] + right, BAR);
            |parts| >= 2 && (|parts| == 2 <==> BAR !in left && BAR !in right)
            && (|parts| == 2 ==> parts == [left, right])
  {
    var s := left + [BAR] + right;
    var parts := Split(s, BAR);
    SplitPieces(s, BAR);
    if BAR !in left {
      SplitFirst(left, right, BAR);
      if BAR !in right {
        SplitNone(right, BAR);
      } else {
        SplitPieces(right, BAR);
      }
    } else {
      CountBars(s);
      CountBars(left);
      CountBars(right);
      assert multiset(s) == multiset(left) + multiset{BAR} + multiset(right);
    }
  }

  lemma {:induction false} CountBars(s: Name)
    ensures |Split(s, BAR)| == multiset(s)[BAR] + 1
  {
    if s != [] {
      CountBars(s[1..]);
      assert s == [s[0]] + s[1..];
      assert multiset(s) == multiset{s[0]} + multiset(s[1..]);
    }
  }

  // ---------- the settings of Hello ----------

  datatype Option<+T> = None | Some(value: T)

  datatype Lists = Lists(encodings: seq<Name>, compressions: seq<Name>)

  function PrintHello(l: Lists): Name {
    Join(l.encodings, COMMA) + [BAR] + Join(l.compressions, COMMA)
  }

  /** Joining two texts, as Go prints its settings, and formatting them around a bar, as Rust and Python do, is the
      same. */
  lemma JoinTwo(left: Name, right: Name, sep: byte)
    ensures Join([left, right], sep) == left + [sep] + right
  {
    assert [left, right][1..] == [right];
  }

  /** Rust wants exactly two settings. */
  function RustReadHello(payload: Name): Option<Lists> {
    var settings := Split(payload, BAR);
    if |settings| != 2 then None
    else Some(Lists(SplitTerminator(settings[0], COMMA), SplitTerminator(settings[1], COMMA)))
  }

  function GoList(setting: Name): seq<Name> {
    if setting == [] then [] else Split(setting, COMMA)
  }

  /** Go wants at least two and ignores the rest. */
  function GoReadHello(payload: Name): Option<Lists> {
    var settings := Split(payload, BAR);
    if |settings| < 2 then None else Some(Lists(GoList(settings[0]), GoList(settings[1])))
  }

  /** Python wants exactly two and splits both whatever they hold. */
  function PyReadHello(payload: Name): Option<Lists> {
    var settings := Split(payload, BAR);
    if |settings| != 2 then None else Some(Lists(Split(settings[0], COMMA), Split(settings[1], COMMA)))
  }

  function PyReadAck(payload: Name): Option<(Name, Name)> {
    var settings := Split(payload, BAR);
    if |settings| != 2 then None else Some((settings[0], settings[1]))
  }

  predicate BarFree(l: Lists) {
    Free(l.encodings, BAR) && Free(l.compressions, BAR)
  }

  /** Rust reads its own Hello back exactly when no name holds a separator and neither list ends in an empty name. */
  lemma RustHelloRoundTrip(l: Lists)
    ensures RustReadHello(PrintHello(l)) == Some(l) <==> BarFree(l) && Readable(l.encodings) && Readable(l.compressions)
  {
    hide Split, Join, SplitTerminator, Readable;
    var left, right := Join(l.encodings, COMMA), Join(l.compressions, COMMA);
    SplitBar(left, right);
    JoinHasNo(l.encodings, COMMA, BAR);
    JoinHasNo(l.compressions, COMMA, BAR);
    TerminatorRoundTrip(l.encodings);
    TerminatorRoundTrip(l.compressions);
  }

  /** The shortest lists that do not survive: a single empty name is lost, and so is an empty last one. */
  lemma RustLosesEmptyName()
    ensures RustReadHello(PrintHello(Lists([[]], []))) == Some(Lists([], []))
    ensures RustReadHello(PrintHello(Lists([[0x61], []], []))) == Some(Lists([[0x61]], []))
  {
    SplitBar([], []);
    assert Split([], COMMA) == [[]] && Join([], COMMA) == [];
    var text := [0x61] + [COMMA] + [];
    SplitFirst([0x61], [], COMMA);
    assert Split(text, COMMA) == [[0x61]] + [[]];
    assert SplitTerminator(text, COMMA) == [[0x61]];
    var names: seq<Name> := [[0x61], []];
    assert names[1..] == [[]] && Join(names[1..], COMMA) == [];
    assert Join(names, COMMA) == text;
    SplitBar(text, []);
  }

  /** A list Go can read back: no name holds a comma, and it is not the list of one empty name. */
  predicate GoReadable(names: seq<Name>) {
    Free(names, COMMA) && names != [[]]
  }

  lemma GoListRoundTrip(names: seq<Name>)
    ensures GoList(Join(names, COMMA)) == names <==> GoReadable(names)
  {
    SplitJoin(names, COMMA);
    if Join(names, COMMA) == [] && names != [] {
      assert |names| > 1 ==> COMMA in Join(names, COMMA);
      assert names == [[]];
    }
  }

  /** Go's condition is different: a trailing empty name survives, a single empty name does not. */
  lemma GoHelloRoundTrip(l: Lists)
    ensures GoReadHello(PrintHello(l)) == Some(l)
        <==> BarFree(l) && GoReadable(l.encodings) && GoReadable(l.compressions)
  {
    hide Split, Join, GoList, GoReadable;
    var left, right := Join(l.encodings, COMMA), Join(l.compressions, COMMA);
    SplitBar(left, right);
    JoinHasNo(l.encodings, COMMA, BAR);
    JoinHasNo(l.compressions, COMMA, BAR);
    GoListRoundTrip(l.encodings);
    GoListRoundTrip(l.compressions);
    GoReadsBarFree(PrintHello(l));
  }

  /** Python's: nothing is dropped, but there is no empty list. */
  lemma PyHelloRoundTrip(l: Lists)
    ensures PyReadHello(PrintHello(l)) == Some(l) <==>
            BarFree(l) && Free(l.encodings, COMMA) && Free(l.compressions, COMMA) && l.encodings != []
                && l.compressions != []
  {
    hide Split, Join;
    var left, right := Join(l.encodings, COMMA), Join(l.compressions, COMMA);
    SplitBar(left, right);
    JoinHasNo(l.encodings, COMMA, BAR);
    JoinHasNo(l.compressions, COMMA, BAR);
    SplitJoin(l.encodings, COMMA);
    SplitJoin(l.compressions, COMMA);
  }

  /** So the Hello of a Rust client, which offers no compression, reaches Python as offering the empty name. */
  lemma PyHearsNoCompression(encodings: seq<Name>)
    requires encodings != [] && Free(encodings, COMMA) && Free(encodings, BAR)
    ensures PyReadHello(PrintHello(Lists(encodings, []))) == Some(Lists(encodings, [[]]))
  {
    hide Split;
    var left := Join(encodings, COMMA);
    SplitBar(left, []);
    JoinHasNo(encodings, COMMA, BAR);
    SplitJoin(encodings, COMMA);
    SplitNone([], COMMA);
    assert Join([], COMMA) == [];
  }

  lemma PyAckRoundTrip(encoding: Name, compression: Name)
    ensures PyReadAck(PrintAck(encoding, compression)) == Some((encoding, compression))
            <==> BAR !in encoding && BAR !in compression
  {
    hide Split;
    SplitBar(encoding, compression);
  }

  /** Nothing Go reads holds a bar. */
  lemma GoReadsBarFree(payload: Name)
    ensures var r := GoReadHello(payload); r.Some? ==> BarFree(r.value)
  {
    var settings := Split(payload, BAR);
    SplitPieces(payload, BAR);
    if |settings| >= 2 {
      GoListBarFree(settings[0]);
      GoListBarFree(settings[1]);
    }
  }

  lemma GoListBarFree(setting: Name)
    requires BAR !in setting
    ensures Free(GoList(setting), BAR)
  {
    SplitPieces(setting, COMMA);
    JoinHasNo(Split(setting, COMMA), COMMA, BAR);
  }

  /** Whatever Rust accepts Go accepts too, and each list Go reads is Rust's or Rust's with one empty name more. */
  lemma RustAgainstGo(payload: Name)
    requires RustReadHello(payload).Some?
    ensures GoReadHello(payload).Some?
    ensures var r, g := RustReadHello(payload).value, GoReadHello(payload).value;
            && (g.encodings == r.encodings || g.encodings == r.encodings + [[]])
            && (g.compressions == r.compressions || g.compressions == r.compressions + [[]])
  {
    hide Split, SplitTerminator;
    var settings := Split(payload, BAR);
    TerminatorAgainstSplit(settings[0]);
    TerminatorAgainstSplit(settings[1]);
  }

  // ---------- the settings of HelloAck ----------

  datatype Choice = Choice(encoding: Name, compression: Option<Name>)

  function PrintAck(encoding: Name, compression: Name): Name {
    encoding + [BAR] + compression
  }

  function OrEmpty(compression: Option<Name>): Name {
    if compression.Some? then compression.value else []
  }

  function RustReadAck(payload: Name): Option<Choice> {
    var settings := Split(payload, BAR);
    if |settings| != 2 then None
    else Some(Choice(settings[0], if settings[1] == [] then None else Some(settings[1])))
  }

  function GoReadAck(payload: Name): Option<(Name, Name)> {
    var settings := Split(payload, BAR);
    if |settings| < 2 then None else Some((settings[0], settings[1]))
  }

  lemma RustAckRoundTrip(c: Choice)
    ensures RustReadAck(PrintAck(c.encoding, OrEmpty(c.compression))) == Some(c)
            <==> BAR !in c.encoding && BAR !in OrEmpty(c.compression) && c.compression != Some([])
  {
    hide Split;
    SplitBar(c.encoding, OrEmpty(c.compression));
  }

  lemma GoAckRoundTrip(encoding: Name, compression: Name)
    ensures GoReadAck(PrintAck(encoding, compression)) == Some((encoding, compression))
            <==> BAR !in encoding && BAR !in compression
  {
    SplitBar(encoding, compression);
    SplitPieces(PrintAck(encoding, compression), BAR);
  }

  // ---------- what reading keeps ----------

  /** The first two settings of a text, printed again, are the front of it, and all of it when it has one bar. */
  lemma FirstTwo(text: Name)
    requires |Split(text, BAR)| >= 2
    ensures var parts := Split(text, BAR);
            && PrintAck(parts[0], parts[1]) <= text
            && (PrintAck(parts[0], parts[1]) == text <==> multiset(text)[BAR] == 1)
            && BAR !in parts[0] && BAR !in parts[1]
  {
    hide Split, Join, Free;
    var parts := Split(text, BAR);
    SplitPieces(text, BAR);
    CountBars(text);
    JoinFirstTwo(parts, BAR);
    NoBarIn(parts, 0);
    NoBarIn(parts, 1);
    if |parts| > 2 { assert text == PrintAck(parts[0], parts[1]) + ([BAR] + Join(parts[2..], BAR)); }
  }

  lemma JoinFirstTwo(parts: seq<Name>, sep: byte)
    requires |parts| >= 2
    ensures Join(parts, sep) ==
            parts[0] + [sep] + if |parts| == 2 then parts[1] else parts[1] + [sep] + Join(parts[2..], sep)
  {
    assert parts[1..][1..] == parts[2..];
  }

  lemma NoBarIn(parts: seq<Name>, i: nat)
    requires Free(parts, BAR) && i < |parts|
    ensures BAR !in parts[i]
  {
  }

  /** Putting a list's names together again gives the setting it was read from: in Python and Go always, in Rust without
      the comma a list may end in. */
  lemma Rejoined(setting: Name)
    ensures Join(Split(setting, COMMA), COMMA) == setting && Join(GoList(setting), COMMA) == setting
    ensures var again := Join(SplitTerminator(setting, COMMA), COMMA); again == setting || again + [COMMA] == setting
  {
    hide Split;
    SplitPieces(setting, COMMA);
    var parts := Split(setting, COMMA);
    if parts[|parts| - 1] == [] { JoinLast(parts[..|parts| - 1], COMMA); assert parts == parts[..|parts| - 1] + [[]]; }
    assert Join([], COMMA) == [];
  }

  /** A last empty piece shows as a separator at the end, unless it is the only one. */
  lemma {:induction false} JoinLast(parts: seq<Name>, sep: byte)
    ensures Join(parts + [[]], sep) == if parts == [] then [] else Join(parts, sep) + [sep]
  {
    if parts != [] {
      JoinLast(parts[1..], sep);
      assert (parts + [[]])[1..] == parts[1..] + [[]];
    }
  }

  /** How many bars a settings payload must hold: exactly one for Rust and Python, at least one for Go. */
  lemma BarsDecide(payload: Name)
    ensures var bars := multiset(payload)[BAR];
            && (RustReadHello(payload).Some? <==> bars == 1) && (RustReadAck(payload).Some? <==> bars == 1)
            && (PyReadHello(payload).Some? <==> bars == 1) && (PyReadAck(payload).Some? <==> bars == 1)
            && (GoReadHello(payload).Some? <==> bars >= 1) && (GoReadAck(payload).Some? <==> bars >= 1)
  {
    hide Split;
    CountBars(payload);
  }

  /** What was read, printed again, is what was there: all of it with one bar, and the front of it, up to a second bar,
      when Go reads text with more. */
  lemma PrintedAgain(payload: Name)
    ensures PyReadHello(payload).Some? ==> PrintHello(PyReadHello(payload).value) == payload
    ensures PyReadAck(payload).Some? ==> var (encoding, compression) := PyReadAck(payload).value;
            PrintAck(encoding, compression) == payload
    ensures RustReadAck(payload).Some? ==> var c := RustReadAck(payload).value;
            PrintAck(c.encoding, OrEmpty(c.compression)) == payload && c.compression != Some([])
    ensures GoReadHello(payload).Some? ==> var again := PrintHello(GoReadHello(payload).value);
            again <= payload && (again == payload <==> multiset(payload)[BAR] == 1)
    ensures GoReadAck(payload).Some? ==> var (encoding, compression) := GoReadAck(payload).value;
            var again := PrintAck(encoding, compression);
            again <= payload && (again == payload <==> multiset(payload)[BAR] == 1)
  {
    hide Split, GoList;
    CountBars(payload);
    var settings := Split(payload, BAR);
    if |settings| >= 2 {
      FirstTwo(payload);
      Rejoined(settings[0]);
      Rejoined(settings[1]);
    }
  }

  /** The payloads in py/tests/test_stream_handler_decode.py, "msgpack,json|gzip,lzma" of a Hello and "msgpack|gzip"
      of a HelloAck: encodings come before the bar and compressions after it, for all three. */
  lemma PayloadExamples(msgpack: Name, json: Name, gzip: Name, lzma: Name)
    requires forall name :: name in {msgpack, json, gzip, lzma} ==> COMMA !in name && BAR !in name && name != []
    ensures var text, lists := msgpack + [0x2C] + json + [0x7C] + gzip + [0x2C] + lzma,
        Lists([msgpack, json], [gzip, lzma]);
            RustReadHello(text) == Some(lists) && GoReadHello(text) == Some(lists) && PyReadHello(text) == Some(lists)
    ensures var text := msgpack + [0x7C] + gzip;
            && RustReadAck(text) == Some(Choice(msgpack, Some(gzip)))
            && GoReadAck(text) == Some((msgpack, gzip)) && PyReadAck(text) == Some((msgpack, gzip))
  {
    hide Split, RustReadHello, GoReadHello, PyReadHello, RustReadAck, GoReadAck, PyReadAck;
    RustAckRoundTrip(Choice(msgpack, Some(gzip)));
    GoAckRoundTrip(msgpack, gzip);
    PyAckRoundTrip(msgpack, gzip);
    var lists := Lists([msgpack, json], [gzip, lzma]);
    JoinTwo(msgpack, json, COMMA);
    JoinTwo(gzip, lzma, COMMA);
    assert PrintHello(lists) == msgpack + [0x2C] + json + [0x7C] + gzip + [0x2C] + lzma;
    RustHelloRoundTrip(lists);
    GoHelloRoundTrip(lists);
    PyHelloRoundTrip(lists);
  }
}
