/**
 The round-robin merge of rust/loqui_connection/src/select_break.rs. A source answers from a queue that the
 environment fills between polls as it likes; merges nest, as the connection's run loop nests two.
 */
module SelectBreak {
  datatype Poll<+T> = Pending | Item(value: T) | Ended

  datatype Stream<T> =
    | Source(queue: seq<T>, closed: bool)
    | Merge(stream1: Fuse<T>, stream2: Fuse<T>, flag: bool)

  /** A stream that, once it has ended, is not asked again. */
  datatype Fuse<T> = Fuse(inner: Stream<T>, done: bool)

  function PollFuse<T>(f: Fuse<T>): (Poll<T>, Fuse<T>) {
    if f.done then (Ended, f)
    else var (p, s) := PollNext(f.inner); (p, Fuse(s, p.Ended?))
  }

  /** One poll: the turn passes to the other side; the side whose turn it was is asked first, the other one only
      if that has nothing. */
  function PollNext<T>(s: Stream<T>): (Poll<T>, Stream<T>) {
    match s
    case Source(queue, closed) =>
      if queue != [] then (Item(queue[0]), Source(queue[1..], closed))
      else if closed then (Ended, s)
      else (Pending, s)
    case Merge(stream1, stream2, flag) =>
      var (p1, s1) := PollFuse(stream1);
      var (p2, s2) := PollFuse(stream2);
      if !flag then
        if p1 != Pending then (p1, Merge(s1, stream2, true)) else (p2, Merge(s1, s2, true))
      else
        if p2 != Pending then (p2, Merge(stream1, s2, false)) else (p1, Merge(s1, s2, false))
  }

  class SelectBreak<T(==)> {
    var stream1: Fuse<T>
    var stream2: Fuse<T>
    var flag: bool

    constructor (stream1: Stream<T>, stream2: Stream<T>)
      ensures View() == Merge(Fuse(stream1, false), Fuse(stream2, false), false)
    {
      this.stream1, this.stream2, this.flag := Fuse(stream1, false), Fuse(stream2, false), false;
    }

    function View(): Stream<T>
      reads this
    {
      Merge(stream1, stream2, flag)
    }

    method Poll() returns (p: Poll<T>)
      modifies this
      ensures (p, View()) == PollNext(old(View()))
    {
      if !flag {
        flag := !flag;
        var (a, after1) := PollFuse(stream1);
        stream1 := after1;
        if a != Pending { return a; }
        var (b, after2) := PollFuse(stream2);
        stream2 := after2;
        p := b;
      } else {
        flag := !flag;
        var (a, after2) := PollFuse(stream2);
        stream2 := after2;
        if a != Pending { return a; }
        var (b, after1) := PollFuse(stream1);
        stream1 := after1;
        p := b;
      }
    }
  }

  /** A side that has ended stays as it is and is never asked again: when its turn comes the merge answers that it has
      ended. And a merge answers so only when one of its sides has. */
  lemma EndingIsFinal<T>(s: Stream<T>)
    requires s.Merge?
    ensures var (p, s') := PollNext(s);
            && s'.Merge? && s'.flag == !s.flag
            && (s.stream1.done ==> s'.stream1 == s.stream1) && (s.stream2.done ==> s'.stream2 == s.stream2)
            && (p.Ended? ==> s'.stream1.done || s'.stream2.done)
            && ((if s.flag then s.stream2.done else s.stream1.done) ==> p.Ended?)
  {
  }

  // ---------- where things are ----------

  /** The way from a merge down to a source: false for the first stream, true for the second. */
  type Path = seq<bool>

  function Side<T>(s: Stream<T>, second: bool): Fuse<T>
    requires s.Merge?
  {
    if second then s.stream2 else s.stream1
  }

  /** The path leads to a source, and nothing on the way has ended. */
  predicate Open<T>(s: Stream<T>, path: Path) {
    if path == [] then s.Source?
    else s.Merge? && !Side(s, path[0]).done && Open(Side(s, path[0]).inner, path[1..])
  }

  function At<T>(s: Stream<T>, path: Path): (source: Stream<T>)
    requires Open(s, path)
    ensures source.Source?
  {
    if path == [] then s else At(Side(s, path[0]).inner, path[1..])
  }

  /** The source has something to say: an item, or that it has ended. */
  predicate Ready<T>(s: Stream<T>, path: Path)
    requires Open(s, path)
  {
    At(s, path).queue != [] || At(s, path).closed
  }

  /** The source the next answer comes from, when there is one. */
  function Origin<T>(s: Stream<T>): Path {
    match s
    case Source(_, _) => []
    case Merge(stream1, stream2, flag) =>
      var first := if flag then stream2 else stream1;
      var second := if flag then stream1 else stream2;
      if PollFuse(first).0 != Pending then
        [flag] + (if first.done then [] else Origin(first.inner))
      else
        [!flag] + (if second.done then [] else Origin(second.inner))
  }

  /** Polls the source has to wait for at most, the answering one included: at each merge it is asked first
      every second time. */
  function Rank<T>(s: Stream<T>, path: Path): (r: nat)
    requires Open(s, path)
    ensures 1 <= r <= Pow2(|path|)
  {
    if path == [] then 1
    else
      var below := Rank(Side(s, path[0]).inner, path[1..]);
      if s.flag == path[0] then 2 * below - 1 else 2 * below
  }

  function Pow2(n: nat): nat {
    if n == 0 then 1 else 2 * Pow2(n - 1)
  }

  // ---------- one poll ----------

  lemma {:induction false} ReadyAnswers<T>(s: Stream<T>, path: Path)
    requires Open(s, path) && Ready(s, path)
    ensures PollNext(s).0 != Pending
  {
    if path != [] { ReadyAnswers(Side(s, path[0]).inner, path[1..]); }
  }

  /** Either the stream ends, or the ready source is served, or another is and the wait gets shorter. */
  lemma {:induction false} PollStep<T>(s: Stream<T>, path: Path)
    requires Open(s, path) && Ready(s, path)
    ensures var (p, after) := PollNext(s);
            match p
            case Pending => false
            case Ended => true
            case Item(v) =>
              && Open(after, path)
              && if Origin(s) == path
                  then At(s, path).queue == [v] + At(after, path).queue && At(after, path).closed == At(s, path).closed
                 else At(after, path) == At(s, path) && Rank(after, path) < Rank(s, path)
  {
    if path != [] {
      ReadyAnswers(Side(s, path[0]).inner, path[1..]);
      PollStep(Side(s, path[0]).inner, path[1..]);
    }
  }

  /** What a poll takes from a source is what it hands out: nothing is lost, repeated or reordered. */
  lemma {:induction false} PollConserves<T>(s: Stream<T>, path: Path)
    requires Open(s, path) && !PollNext(s).0.Ended?
    ensures var (p, after) := PollNext(s);
            && Open(after, path)
            && At(s, path).queue == (if p.Item? && Origin(s) == path then [p.value] else []) + At(after, path).queue
  {
    if path != [] && !PollNext(Side(s, path[0]).inner).0.Ended? {
      PollConserves(Side(s, path[0]).inner, path[1..]);
    }
  }

  // ---------- what an answer means ----------

  /** Nothing in the nest has ended yet. */
  predicate Live<T>(s: Stream<T>) {
    match s
    case Source(_, _) => true
    case Merge(stream1, stream2, _) => !stream1.done && !stream2.done && Live(stream1.inner) && Live(stream2.inner)
  }

  /** No source in the nest has anything to say. */
  ghost predicate Quiet<T>(s: Stream<T>) {
    forall path: Path :: Open(s, path) ==> !Ready(s, path)
  }

  lemma QuietSide<T>(s: Stream<T>, second: bool)
    requires s.Merge? && Live(s) && Quiet(s)
    ensures Quiet(Side(s, second).inner)
  {
    var side := Side(s, second).inner;
    forall path: Path | Open(side, path) ensures !Ready(side, path) {
      var long := [second] + path;
      assert long[1..] == path;
      assert Open(s, long) && At(s, long) == At(side, path);
    }
  }

  lemma QuietSides<T>(s: Stream<T>)
    requires s.Merge? && Live(s) && Quiet(s.stream1.inner) && Quiet(s.stream2.inner)
    ensures Quiet(s)
  {
    forall path: Path | Open(s, path) ensures !Ready(s, path) {
      assert Open(Side(s, path[0]).inner, path[1..]);
    }
  }

  lemma QuietSource<T>(s: Stream<T>)
    requires s.Source?
    ensures Quiet(s) <==> s.queue == [] && !s.closed
  {
    var here: Path := [];
    assert Open(s, here) && At(s, here) == s;
  }

  /** A poll is pending exactly when no source has anything to say. */
  lemma {:induction false} PendingMeans<T>(s: Stream<T>)
    requires Live(s)
    ensures PollNext(s).0 == Pending <==> Quiet(s)
  {
    if s.Source? {
      QuietSource(s);
    } else {
      PendingMeans(s.stream1.inner);
      PendingMeans(s.stream2.inner);
      if Quiet(s) {
        QuietSide(s, false);
        QuietSide(s, true);
      }
      if Quiet(s.stream1.inner) && Quiet(s.stream2.inner) { QuietSides(s); }
    }
  }

  /** The side whose turn it is answers if any source on it is ready, the other one only if none is; the turn then
      passes. */
  lemma TurnTaken<T>(s: Stream<T>)
    requires s.Merge? && Live(s) && PollNext(s).0 != Pending
    ensures Origin(s) != [] && (Origin(s)[0] == s.flag <==> !Quiet(Side(s, s.flag).inner))
    ensures PollNext(s).1.flag == !s.flag
  {
    PendingMeans(Side(s, s.flag).inner);
  }

  /** What a poll that is not pending answers with: the next item of the source it reaches, or the end if that source is
      empty and closed. Nothing else ends a merge. */
  lemma {:induction false} AnswerMeans<T>(s: Stream<T>)
    requires Live(s) && PollNext(s).0 != Pending
    ensures Open(s, Origin(s)) && Ready(s, Origin(s))
    ensures var source := At(s, Origin(s));
            && (PollNext(s).0 == Ended <==> source.queue == [] && source.closed)
            && (forall v :: PollNext(s).0 == Item(v) <==> source.queue != [] && source.queue[0] == v)
    ensures PollNext(s).0 != Ended ==> Live(PollNext(s).1)
  {
    if s.Merge? {
      var first := Side(s, s.flag).inner;
      var reached := if PollNext(first).0 != Pending then first else Side(s, !s.flag).inner;
      AnswerMeans(reached);
      PendingStaysLive(first);
      assert Origin(s)[1..] == Origin(reached);
    }
  }

  lemma {:induction false} PendingStaysLive<T>(s: Stream<T>)
    requires Live(s)
    ensures PollNext(s).0 == Pending ==> Live(PollNext(s).1)
  {
    if s.Merge? {
      PendingStaysLive(s.stream1.inner);
      PendingStaysLive(s.stream2.inner);
    }
  }

  // ---------- runs ----------

  /** What the environment may do between polls: queue more items, close a source. */
  predicate Arrives<T(==)>(s: Stream<T>, t: Stream<T>) {
    match (s, t)
    case (Source(q, c), Source(q', c')) => q <= q' && (c ==> q == q' && c')
    case (Merge(a, b, flag), Merge(a', b', flag')) =>
      flag == flag' && a.done == a'.done && b.done == b'.done && Arrives(a.inner, a'.inner)
          && Arrives(b.inner, b'.inner)
    case _ => false
  }

  lemma {:induction false} ArrivesAt<T>(s: Stream<T>, t: Stream<T>, path: Path)
    requires Arrives(s, t) && Open(s, path)
    ensures Open(t, path) && At(s, path).queue <= At(t, path).queue && Rank(t, path) == Rank(s, path)
    ensures At(s, path).closed ==> At(t, path) == At(s, path)
  {
    if path != [] { ArrivesAt(Side(s, path[0]).inner, Side(t, path[0]).inner, path[1..]); }
  }

  datatype Step<T> = Step(before: Stream<T>, answer: Poll<T>, after: Stream<T>)

  /** Any schedule: polls, with any arrivals between them. */
  ghost predicate Run<T>(ts: seq<Step<T>>) {
    && (forall i :: 0 <= i < |ts| ==> PollNext(ts[i].before) == (ts[i].answer, ts[i].after))
    && (forall i :: 0 < i < |ts| ==> Arrives(ts[i - 1].after, ts[i].before))
  }

  /** The source's answer to a poll: its next item, or the end of the whole merge. */
  ghost predicate Answers<T>(t: Step<T>, path: Path, queue: seq<T>) {
    t.answer.Ended? || (t.answer.Item? && Origin(t.before) == path && queue != [] && t.answer.value == queue[0])
  }

  /** Bounded waiting under any schedule: a source that is ready at the first poll is served within its rank, and so
      within 2^d polls at depth d, unless the merged stream ends first. */
  lemma {:induction false} BoundedWait<T>(ts: seq<Step<T>>, path: Path)
    requires Run(ts) && ts != [] && Open(ts[0].before, path) && Ready(ts[0].before, path)
    requires |ts| >= Rank(ts[0].before, path)
    ensures exists i :: 0 <= i < Rank(ts[0].before, path) && Answers(ts[i], path, At(ts[0].before, path).queue)
    decreases |ts|
  {
    var s := ts[0].before;
    PollStep(s, path);
    if Answers(ts[0], path, At(s, path).queue) {
    } else {
      assert Rank(ts[0].after, path) < Rank(s, path);
      ArrivesAt(ts[0].after, ts[1].before, path);
      var rest := ts[1..];
      BoundedWait(rest, path);
      var i :| 0 <= i < Rank(rest[0].before, path) && Answers(rest[i], path, At(rest[0].before, path).queue);
      assert Answers(ts[i + 1], path, At(s, path).queue);
    }
  }

  /** Items handed out from one source. */
  ghost function Emitted<T>(ts: seq<Step<T>>, path: Path): seq<T> {
    if ts == [] then []
    else
      (if ts[0].answer.Item? && Origin(ts[0].before) == path then [ts[0].answer.value] else []) + Emitted(ts[1..], path)
  }

  /** Items that came to the source between the polls. */
  ghost function Arrived<T>(ts: seq<Step<T>>, path: Path): seq<T>
    requires Run(ts)
    requires forall i :: 0 <= i < |ts| ==> Open(ts[i].before, path) && Open(ts[i].after, path)
  {
    if |ts| <= 1 then []
    else
      ArrivesAt(ts[0].after, ts[1].before, path);
      At(ts[1].before, path).queue[|At(ts[0].after, path).queue|..] + Arrived(ts[1..], path)
  }

  lemma Regroup<T>(a: seq<T>, b: seq<T>, c: seq<T>, q: seq<T>, n: seq<T>, d: seq<T>)
    requires b + c == q + n + d
    ensures a + b + c == a + q + (n + d)
  {
    assert a + b + c == a + (b + c);
    assert a + (q + n + d) == a + q + (n + d);
  }

  /** Over a whole run without an end: what came out of a source and what is left in it is exactly what was in it
      and what came to it, in order. */
  lemma {:induction false} RunConserves<T>(ts: seq<Step<T>>, path: Path)
    requires Run(ts) && ts != [] && Open(ts[0].before, path)
    requires forall i :: 0 <= i < |ts| ==> !ts[i].answer.Ended?
    ensures forall i :: 0 <= i < |ts| ==> Open(ts[i].before, path) && Open(ts[i].after, path)
    ensures Emitted(ts, path) + At(ts[|ts| - 1].after, path).queue == At(ts[0].before, path).queue + Arrived(ts, path)
    decreases |ts|
  {
    hide At, Open, Origin, PollNext, Arrives;
    assert PollNext(ts[0].before) == (ts[0].answer, ts[0].after);
    PollConserves(ts[0].before, path);
    if |ts| == 1 {
      assert Emitted(ts[1..], path) == [];
    } else {
      var rest := ts[1..];
      ArrivesAt(ts[0].after, ts[1].before, path);
      RunConserves(rest, path);
      forall i | 0 <= i < |ts| ensures Open(ts[i].before, path) && Open(ts[i].after, path) {
        if i > 0 { assert ts[i] == rest[i - 1]; }
      }
      var q, next := At(ts[0].after, path).queue, At(ts[1].before, path).queue;
      var out := if ts[0].answer.Item? && Origin(ts[0].before) == path then [ts[0].answer.value] else [];
      var left := At(ts[|ts| - 1].after, path).queue;
      assert next == q + next[|q|..];
      Regroup(out, Emitted(rest, path), left, q, next[|q|..], Arrived(rest, path));
    }
  }

  // ---------- the connection's merge ----------

  const SOCKET: Path := [false, false]
  const SELF: Path := [false, true]
  const PING: Path := [true]

  /** `framed_reader.select_break(self_rx).select_break(ping_stream)`. */
  function ConnectionMerge<T>(socket: Stream<T>, self: Stream<T>, ping: Stream<T>): Stream<T> {
    Merge(Fuse(Merge(Fuse(socket, false), Fuse(self, false), false), false), Fuse(ping, false), false)
  }

  /** A source stays reachable as long as the merge has not ended. */
  lemma StaysOpen<T>(ts: seq<Step<T>>, path: Path, n: nat)
    requires Run(ts) && n < |ts| && Open(ts[0].before, path)
    requires forall i :: 0 <= i < n ==> !ts[i].answer.Ended?
    ensures Open(ts[n].before, path)
  {
    hide Open, Rank, At;
    if n > 0 {
      RunConserves(ts[..n], path);
      assert ts[..n][n - 1] == ts[n - 1];
      ArrivesAt(ts[n - 1].after, ts[n].before, path);
    }
  }

  lemma {:induction false} ArrivesLive<T>(s: Stream<T>, t: Stream<T>)
    requires Arrives(s, t) && Live(s)
    ensures Live(t)
  {
    if s.Merge? {
      ArrivesLive(s.stream1.inner, t.stream1.inner);
      ArrivesLive(s.stream2.inner, t.stream2.inner);
    }
  }

  /** At any poll of any run that has not ended: it is pending if and only if every source is empty and open, and it
      ends the merge if and only if the source it reaches is empty and closed. So a quiet connection is never taken
      for a closed one. */
  lemma {:induction false} RunAnswers<T>(ts: seq<Step<T>>, n: nat)
    requires Run(ts) && n < |ts| && Live(ts[0].before)
    requires forall i :: 0 <= i < n ==> !ts[i].answer.Ended?
    ensures Live(ts[n].before) && (ts[n].answer == Pending <==> Quiet(ts[n].before))
    ensures ts[n].answer != Pending ==>
              var path := Origin(ts[n].before);
              && Open(ts[n].before, path)
              && var source := At(ts[n].before, path);
              && (ts[n].answer == Ended <==> source.queue == [] && source.closed)
              && (ts[n].answer.Item? ==> source.queue != [] && source.queue[0] == ts[n].answer.value)
    decreases n
  {
    hide Quiet, At, Open, Origin, PollNext;
    if n > 0 {
      RunAnswers(ts, n - 1);
      var before := ts[n - 1].before;
      assert PollNext(before) == (ts[n - 1].answer, ts[n - 1].after);
      if ts[n - 1].answer == Pending { PendingStaysLive(before); } else { AnswerMeans(before); }
      ArrivesLive(ts[n - 1].after, ts[n].before);
    }
    assert PollNext(ts[n].before) == (ts[n].answer, ts[n].after);
    PendingMeans(ts[n].before);
    if ts[n].answer != Pending { AnswerMeans(ts[n].before); }
  }

  /** Bounded waiting from any moment of a run. */
  lemma WaitFrom<T>(ts: seq<Step<T>>, path: Path, n: nat)
    requires Run(ts) && n + Pow2(|path|) <= |ts| && n < |ts|
    requires Open(ts[n].before, path) && Ready(ts[n].before, path)
    ensures exists i :: n <= i < n + Pow2(|path|) && Answers(ts[i], path, At(ts[n].before, path).queue)
  {
    hide Open, Ready, Rank, Pow2, At, Answers;
    var rest := ts[n..];
    BoundedWait(rest, path);
    var i :| 0 <= i < Rank(rest[0].before, path) && Answers(rest[i], path, At(rest[0].before, path).queue);
    assert Answers(ts[n + i], path, At(ts[n].before, path).queue);
  }

  lemma OpenAtFirst<T>(socket: Stream<T>, self: Stream<T>, ping: Stream<T>, path: Path)
    requires socket.Source? && self.Source? && ping.Source? && path in {SOCKET, SELF, PING}
    ensures Open(ConnectionMerge(socket, self, ping), path) && Live(ConnectionMerge(socket, self, ping))
  {
    assert path == PING ==> path[1..] == [];
    assert path != PING ==> path[1..][1..] == [];
  }

  /** In the run loop's merge, at any moment of any run that has not ended: a ready ping is answered within two polls,
      a ready socket frame or own event within four. */
  lemma ConnectionWait<T>(ts: seq<Step<T>>, path: Path, n: nat, socket: Stream<T>, self: Stream<T>, ping: Stream<T>)
    requires Run(ts) && n < |ts| && path in {SOCKET, SELF, PING}
    requires socket.Source? && self.Source? && ping.Source? && ts[0].before == ConnectionMerge(socket, self, ping)
    requires forall i :: 0 <= i < n ==> !ts[i].answer.Ended?
    requires n + (if path == PING then 2 else 4) <= |ts|
    ensures Open(ts[n].before, path)
    ensures Ready(ts[n].before, path) ==>
              exists i :: n <= i < n + (if path == PING then 2 else 4)
                  && Answers(ts[i], path, At(ts[n].before, path).queue)
  {
    hide Run, Answers, Ready, At, Open;
    OpenAtFirst(socket, self, ping, path);
    StaysOpen(ts, path, n);
    assert Pow2(|path|) == if path == PING then 2 else 4 by { assert Pow2(1) == 2 && Pow2(2) == 4; }
    if Ready(ts[n].before, path) { WaitFrom(ts, path, n); }
  }
}
