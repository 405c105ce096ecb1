/** The run loop of rust/loqui_connection/src/connection.rs after the handshake, and what it puts on the wire in what
    order. */
module RunLoop {
  import opened Bytes
  import opened Connection
  import opened ConnectionRuns
  import opened LoquiErrors
  import opened Settings
  import opened R = RustCodec

  /** What the merged stream hands out: an event, with the instant it is dealt with, or an error of the frame reader. */
  datatype Incoming = Due(event: Event, now: nat) | ReadError

  /** Why the loop ended: the merged stream did, reading or writing a frame failed, or handling an event did. */
  datatype End = StreamEnded | ReadFailed | WriteFailed | ClosedBy(error: LoquiError)

  /** What a run over these events comes to when the socket takes `room` more frames before it fails. */
  function Loop(side: Side, events: seq<Incoming>, room: nat): (Side, seq<LoquiFrame>, End)
    decreases |events|
  {
    if events == [] then (side, [], StreamEnded)
    else if events[0].ReadError? then (side, [], ReadFailed)
    else
      var (next, out, error) := React(side, events[0].event, events[0].now);
      if error.Some? then (next, if room > 0 then out else [], ClosedBy(error.value))
      else if |out| > room then (next, [], WriteFailed)
      else var (last, more, end) := Loop(next, events[1..], room - |out|); (last, out + more, end)
  }

  class Writer {
    var sent: seq<LoquiFrame>
    var room: nat
    const sendGoAway: bool

    constructor (room: nat, sendGoAway: bool)
      ensures sent == [] && this.room == room && this.sendGoAway == sendGoAway
    {
      sent, this.room, this.sendGoAway := [], room, sendGoAway;
    }

    method Write(frame: LoquiFrame) returns (ok: bool)
      modifies this
      ensures ok == (old(room) > 0)
      ensures sent == (if ok then old(sent) + [frame] else old(sent)) && room == (if ok then old(room) - 1 else 0)
    {
      if room == 0 { return false; }
      sent, room, ok := sent + [frame], room - 1, true;
    }

    /** Closing says GoAway with the error's code, if this side does that at all. */
    method Close(error: LoquiError)
      modifies this
      ensures sent == old(sent) + if sendGoAway && old(room) > 0 then [GoAway(0, Code(error), [])] else []
    {
      if !sendGoAway { return; }
      var ok := Write(GoAway(0, Code(error), []));
    }
  }

  /** The loop itself, over the events its merged stream hands out. */
  method Run(handler: EventHandler, writer: Writer, events: seq<Incoming>) returns (end: End, tasks: seq<Task>)
    requires writer.sendGoAway == (handler.handler == null) && writer.sent == []
    modifies handler, handler.handler, handler.idSequence, writer
    ensures var (side, sent, why) := Loop(Side(old(handler.View()), true, [], []), events, old(writer.room));
            side.ep == handler.View() && side.tasks == tasks && sent == writer.sent && why == end
  {
    hide React, Loop;
    ghost var start := Side(handler.View(), true, [], []);
    ghost var all := Loop(start, events, writer.room);
    tasks := [];
    var i := 0;
    assert events[0..] == events && [] + all.1 == all.1;
    while i < |events|
      invariant i <= |events| && writer.sendGoAway == (handler.handler == null)
      invariant var (side, more, why) := Loop(Side(handler.View(), true, tasks, []), events[i..], writer.room);
                all == (side, writer.sent + more, why)
      decreases |events| - i
    {
      if events[i].ReadError? {
        assert writer.sent + [] == writer.sent;
        ReadingFails(Side(handler.View(), true, tasks, []), events[i..], writer.room);
        return ReadFailed, tasks;
      }
      ghost var here, room, sent := Side(handler.View(), true, tasks, []), writer.room, writer.sent;
      ghost var tail := events[i..];
      LoopStep(here, tail, room);
      Reaction(here, events[i].event, events[i].now);
      assert tail[1..] == events[i + 1..];
      var reply, spawned := handler.HandleEvent(events[i].event, events[i].now);
      if spawned.Some? { tasks := tasks + [spawned.value]; }
      ghost var now := Side(handler.View(), true, tasks, []);
      assert reply.Ok? ==> React(here, events[i].event, events[i].now).0 == now;
      match reply {
        case Ok(Some(frame)) =>
          var ok := writer.Write(frame);
          if !ok { return WriteFailed, tasks; }
          Assoc(sent, [frame], Loop(now, events[i + 1..], writer.room).1);
        case Ok(None) =>
          Assoc(sent, [], Loop(now, events[i + 1..], room).1);
          assert sent + [] == sent;
        case Err(error) =>
          writer.Close(error);
          return ClosedBy(error), tasks;
      }
      i := i + 1;
    }
    LoopDone(Side(handler.View(), true, tasks, []), writer.room);
    assert events[i..] == [];
    end := StreamEnded;
  }

  lemma ReadingFails(side: Side, events: seq<Incoming>, room: nat)
    requires events != [] && events[0].ReadError?
    ensures Loop(side, events, room) == (side, [], ReadFailed)
  {
  }

  lemma LoopStep(side: Side, events: seq<Incoming>, room: nat)
    requires events != [] && events[0].Due?
    ensures var (next, out, error) := React(side, events[0].event, events[0].now);
            Loop(side, events, room) ==
            if error.Some? then (next, if room > 0 then out else [], ClosedBy(error.value))
            else if |out| > room then (next, [], WriteFailed)
            else var (last, more, end) := Loop(next, events[1..], room - |out|); (last, out + more, end)
  {
  }

  lemma LoopDone(side: Side, room: nat)
    ensures Loop(side, [], room) == (side, [], StreamEnded)
  {
  }

  lemma Reaction(side: Side, event: Event, now: nat)
    ensures var o, (next, out, error) := Handle(side.ep, event, now), React(side, event, now);
            && next.ep == o.next && next.queue == side.queue
            && (o.reply.Err? ==> error == Some(o.reply.error) && next.tasks == side.tasks
                                 && out == if side.ep.role.Server? then [GoAway(0, Code(o.reply.error), [])] else [])
            && (o.reply.Ok? ==> error == None && next.up == side.up
                                && next.tasks == (if o.spawned.Some? then side.tasks + [o.spawned.value]
                                    else side.tasks)
                                && out == if o.reply.value.Some? then [o.reply.value.value] else [])
  {
    hide Handle;
  }

  /** What can come: a finished future's answer is a Response, as its type says. */
  predicate Answer(event: Event) {
    event.ResponseComplete? && event.result.Ok? ==> event.result.value.Response?
  }

  predicate Said(sent: seq<LoquiFrame>) {
    sent != [] && sent[|sent| - 1].GoAway?
  }

  /** Dealing with this event can close the connection, with this code: the numbers of the wire. */
  predicate ClosesWith(event: Event, code: u16) {
    match event
    case PingDue => code == 6
    case Close => code == 0
    case SocketReceive(frame) =>
      ((frame.Hello? || frame.HelloAck?) && code == 1) || (frame.GoAway? && code == 7)
    case _ => false
  }

  /** The event that closed the connection: dealing with it failed with this error, after everything before it was dealt
      with and written. */
  ghost predicate ClosedAt(side: Side, events: seq<Incoming>, room: nat, k: int) {
    && 0 <= k < |events| && events[k].Due?
    && var (here, before, why) := Loop(side, events[..k], room);
       var (_, sent, end) := Loop(side, events, room);
       && why == StreamEnded && end.ClosedBy?
       && Handle(here.ep, events[k].event, events[k].now).reply == R.Err(end.error)
       && before <= sent && |sent| <= |before| + 1
       && (|sent| > |before| <==> side.ep.role.Server? && |before| < room)
       && (|sent| > |before| ==>
             exists code: u16 :: sent[|before|] == GoAway(0, code, []) && ClosesWith(events[k].event, code))
  }

  /** A GoAway is a side's last word: nothing follows it on the wire. It is said exactly by a server whose handling of
      an event failed while the socket takes another frame: not at the end of the stream, and not when reading or
      writing failed. Its code tells which event that was: 6 a ping that came due unanswered, 0 a close asked for, 1 a
      handshake frame, 7 being told to go away. */
  lemma {:induction false} GoAwayIsLast(side: Side, events: seq<Incoming>, room: nat)
    requires forall i :: 0 <= i < |events| && events[i].Due? ==> Answer(events[i].event)
    ensures var (_, sent, end) := Loop(side, events, room);
            && |sent| <= room
            && (forall i :: 0 <= i < |sent| - 1 ==> !sent[i].GoAway?)
            && (end.ClosedBy? ==> exists k :: ClosedAt(side, events, room, k))
            && (Said(sent) ==> side.ep.role.Server? && end.ClosedBy?)
            && (side.ep.role.Server? && end.ClosedBy? && !Said(sent) ==> |sent| == room)
            && (room >= |events| ==> end != WriteFailed && (Said(sent) <==> side.ep.role.Server? && end.ClosedBy?))
    decreases |events|
  {
    hide React, Loop, Code, ClosedAt;
    if events == [] {
      LoopDone(side, room);
    } else if events[0].ReadError? {
      ReadingFails(side, events, room);
    } else {
      LoopStep(side, events, room);
      Reaction(side, events[0].event, events[0].now);
      NoGoAway(side.ep, events[0].event, events[0].now);
      var (next, out, error) := React(side, events[0].event, events[0].now);
      if error.Some? {
        ClosedHere(side, events, room);
      } else if |out| <= room {
        var tail, left := events[1..], room - |out|;
        GoAwayIsLast(next, tail, left);
        if k :| ClosedAt(next, tail, left, k) { ClosedLater(side, events, room, k); }
      }
    }
  }

  lemma ClosedHere(side: Side, events: seq<Incoming>, room: nat)
    requires events != [] && events[0].Due? && React(side, events[0].event, events[0].now).2.Some?
    ensures ClosedAt(side, events, room, 0)
  {
    hide Loop, Handle, React;
    LoopStep(side, events, room);
    Reaction(side, events[0].event, events[0].now);
    if side.ep.role.Server? { WhyClosed(side, events[0].event, events[0].now); }
    LoopDone(side, room);
    assert events[..0] == [];
  }

  /** The number that goes out for each event that fails. */
  lemma WhyClosed(side: Side, event: Event, now: nat)
    requires React(side, event, now).2.Some? && side.ep.role.Server?
    ensures var out := React(side, event, now).1;
            |out| == 1 && exists code: u16 :: out[0] == GoAway(0, code, []) && ClosesWith(event, code)
  {
    hide Sweep, Settle, Issue;
    var code := React(side, event, now).1[0].code;
    assert ClosesWith(event, code);
  }

  lemma RoleStays(side: Side, event: Event, now: nat)
    ensures React(side, event, now).0.ep.role == side.ep.role
  {
    hide Sweep, Settle, Insert;
  }

  lemma ClosedLater(side: Side, events: seq<Incoming>, room: nat, k: int)
    requires events != [] && events[0].Due?
    requires var (next, out, error) := React(side, events[0].event, events[0].now);
             error.None? && |out| <= room && ClosedAt(next, events[1..], room - |out|, k)
    ensures ClosedAt(side, events, room, k + 1)
  {
    hide Loop, Handle, React, ClosesWith;
    var (next, out, _) := React(side, events[0].event, events[0].now);
    LoopStep(side, events, room);
    LoopStep(side, events[..k + 1], room);
    RoleStays(side, events[0].event, events[0].now);
    assert events[..k + 1][1..] == events[1..][..k] && events[..k + 1][0] == events[0];
    var before, sent := Loop(next, events[1..][..k], room - |out|).1, Loop(next, events[1..], room - |out|).1;
    assert out + before <= out + sent;
    assert |sent| > |before| ==> (out + sent)[|out + before|] == sent[|before|];
  }

  /** One more event after those that were dealt with adds its own answer at the end of what was written, and only that;
      once the loop has ended, nothing more is dealt with. */
  lemma {:induction false} OneMore(side: Side, events: seq<Incoming>, last: Incoming, room: nat)
    ensures var (here, sent, why) := Loop(side, events, room);
            var (after, all, end) := Loop(side, events + [last], room);
            && |sent| <= room
            && (why != StreamEnded ==> Loop(side, events + [last], room) == (here, sent, why))
            && (why == StreamEnded && last.ReadError? ==> after == here && all == sent && end == ReadFailed)
            && (why == StreamEnded && last.Due? ==>
                  var o := Handle(here.ep, last.event, last.now);
                  && after.ep == o.next
                  && (o.reply == R.Ok(None) ==> all == sent && end == StreamEnded)
                  && (o.reply.Ok? && o.reply.value.Some? && |sent| < room ==>
                        all == sent + [o.reply.value.value] && end == StreamEnded)
                  && (o.reply.Ok? && o.reply.value.Some? && |sent| == room ==> all == sent && end == WriteFailed)
                  && (o.reply.Ok? && end == StreamEnded ==>
                        after.tasks == here.tasks + if o.spawned.Some? then [o.spawned.value] else [])
                  && (o.reply.Err? ==> end == ClosedBy(o.reply.error) && sent <= all && after.tasks == here.tasks))
    decreases |events|
  {
    hide React, Loop, Handle;
    if events == [] {
      LoopDone(side, room);
      assert events + [last] == [last] && [last][1..] == [];
      if last.ReadError? {
        ReadingFails(side, [last], room);
      } else {
        LoopStep(side, [last], room);
        Reaction(side, last.event, last.now);
        var (next, out, _) := React(side, last.event, last.now);
        if |out| <= room { LoopDone(next, room - |out|); }
        assert out + [] == out;
      }
    } else if events[0].ReadError? {
      ReadingFails(side, events, room);
      ReadingFails(side, events + [last], room);
    } else {
      LoopStep(side, events, room);
      LoopStep(side, events + [last], room);
      Reaction(side, events[0].event, events[0].now);
      assert (events + [last])[1..] == events[1..] + [last] && (events + [last])[0] == events[0];
      var (next, out, error) := React(side, events[0].event, events[0].now);
      if error.None? && |out| <= room {
        OneMore(next, events[1..], last, room - |out|);
        AppendAfter(out, Loop(next, events[1..], room - |out|).1);
      }
    }
  }

  /** What is appended behind stays behind. */
  lemma AppendAfter(out: seq<LoquiFrame>, sent: seq<LoquiFrame>)
    ensures forall f: LoquiFrame :: out + (sent + [f]) == out + sent + [f]
    ensures forall all :: sent <= all ==> out + sent <= out + all
  {
  }

  lemma NoGoAway(e: Endpoint, event: Event, now: nat)
    requires Answer(event)
    ensures var o := Handle(e, event, now);
            o.next.role == e.role && (o.reply.Ok? && o.reply.value.Some? ==> !o.reply.value.value.GoAway?)
  {
    hide Sweep, Settle, Insert;
  }
}
