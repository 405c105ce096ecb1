/**
 What an endpoint's doings mean, read backwards: for every effect of an event, which event it can have come from. These
 hold for any peer, genuine or not.
 */
module EventLaws {
  import opened Bytes
  import opened Connection
  import opened LoquiErrors
  import opened Settings
  import opened R = RustCodec

  // ---------- frames sent ----------

  /** The reply is this frame. */
  predicate Sends(o: Outcome, frame: LoquiFrame) {
    o.reply == R.Ok(Some(frame))
  }

  /** A pong is sent exactly in answer to a ping, with the ping's flags and number. */
  lemma PongMeans(e: Endpoint, event: Event, now: nat, flags: byte, id: u32)
    requires event.ResponseComplete? && event.result.Ok? ==> event.result.value.Response?
    ensures Sends(Handle(e, event, now), Pong(flags, id)) <==> event == SocketReceive(Ping(flags, id))
  {
    hide Sweep, Settle, Insert;
  }

  /** A ping is sent exactly when one is due and the last was answered, with no flags and the next id. */
  lemma PingMeans(e: Endpoint, event: Event, now: nat, flags: byte, id: u32)
    requires event.ResponseComplete? && event.result.Ok? ==> event.result.value.Response?
    ensures Sends(Handle(e, event, now), Ping(flags, id)) <==>
            event == PingDue && e.pongReceived && flags == 0 && id == e.nextId
  {
    hide Sweep, Settle, Insert;
  }

  /** A client sends a request exactly for a caller who can still be told, under the next id; nobody else sends any. */
  lemma RequestMeans(e: Endpoint, event: Event, now: nat, flags: byte, id: u32, payload: Payload)
    requires event.ResponseComplete? && event.result.Ok? ==> event.result.value.Response?
    ensures Sends(Handle(e, event, now), Request(flags, id, payload)) <==>
            e.role.Client? && event.IssueRequest? && event.payload == payload && event.waiter.deadline > now
            && flags == 0 && id == e.nextId
  {
    hide Sweep, Settle, Insert;
  }

  lemma PushMeans(e: Endpoint, event: Event, now: nat, flags: byte, payload: Payload)
    requires event.ResponseComplete? && event.result.Ok? ==> event.result.value.Response?
    ensures Sends(Handle(e, event, now), Push(flags, payload)) <==>
            e.role.Client? && event == IssuePush(payload) && flags == 0
  {
    hide Sweep, Settle, Insert;
  }

  /** A response is sent exactly when a future has finished with it, an error frame exactly when one has failed. */
  lemma ResponseMeans(e: Endpoint, event: Event, now: nat, frame: LoquiFrame)
    requires event.ResponseComplete? && event.result.Ok? ==> event.result.value.Response?
    ensures frame.Response? ==> (Sends(Handle(e, event, now), frame) <==> event == ResponseComplete(R.Ok(frame)))
    ensures frame.Error? ==>
              (Sends(Handle(e, event, now), frame) <==>
               event == ResponseComplete(R.Err((frame.sequenceId, frame.payload))) && frame.flags == 0
                   && frame.code == 7)
    ensures frame.Hello? || frame.HelloAck? || frame.GoAway? ==> !Sends(Handle(e, event, now), frame)
  {
    hide Sweep, Settle, Insert;
  }

  // ---------- errors ----------

  /** Each error has its one cause, and nothing else fails. */
  lemma ErrorMeans(e: Endpoint, event: Event, now: nat, error: LoquiError)
    ensures Handle(e, event, now).reply == R.Err(error) <==>
            match error
            case PingTimeout => event == PingDue && !e.pongReceived
            case ConnectionCloseRequested => event == Close
            case ToldToGoAway(frame) => frame.GoAway? && event == SocketReceive(frame)
            case InvalidOpcode(opcode) =>
              event.SocketReceive? && ((event.frame.Hello? && opcode == 1) || (event.frame.HelloAck? && opcode == 2))
            case _ => false
  {
    hide Sweep, Settle, Insert;
  }

  // ---------- futures ----------

  /** A server serves exactly the requests it receives; a client's futures exactly reject requests and pushes. */
  lemma SpawnMeans(e: Endpoint, event: Event, now: nat)
    ensures forall id, payload :: Handle(e, event, now).spawned == Some(Serve(id, payload)) <==>
              e.role.Server? && event.SocketReceive? && event.frame.Request?
              && event.frame.sequenceId == id && event.frame.payload == payload
    ensures Handle(e, event, now).spawned == Some(Reject) <==>
            e.role.Client? && event.SocketReceive? && (event.frame.Request? || event.frame.Push?)
  {
    hide Sweep, Settle, Insert;
  }

  // ---------- ids and the right to ping ----------

  /** An id is drawn exactly for a ping that is sent and for a client's request; only a pong brings the right to ping
      back, and only a ping takes it. A server has no other state. */
  lemma StateMeans(e: Endpoint, event: Event, now: nat)
    ensures var e' := Handle(e, event, now).next;
            && e'.role == e.role
            && (e'.nextId == (e.nextId + 1) % U32_COUNT
                <==> (event == PingDue && e.pongReceived) || (e.role.Client? && event.IssueRequest?))
            && (e'.nextId != (e.nextId + 1) % U32_COUNT ==> e'.nextId == e.nextId)
            && (e'.pongReceived <==>
                  (e.pongReceived && event != PingDue) || (event.SocketReceive? && event.frame.Pong?))
            && (e.role.Server? ==> e'.waiters == e.waiters && e'.fates == e.fates)
  {
  }

  // ---------- waiters ----------

  /** The waiter with this tag is stored under this id. */
  predicate Holds(e: Endpoint, id: u32, tag: nat) {
    id in e.waiters && e.waiters[id].tag == tag
  }

  /** What must happen, with the endpoint in this state, for a waiter to meet this fate. */
  ghost predicate Cause(e: Endpoint, m: Moment, tag: nat, fate: Fate) {
    match fate
    case Answered(payload) =>
      m.event.SocketReceive? && m.event.frame.Response? && m.event.frame.payload == payload
      && Holds(e, m.event.frame.sequenceId, tag)
    case Failed(reason) =>
      m.event.SocketReceive? && m.event.frame.Error? && m.event.frame.payload == reason
      && Holds(e, m.event.frame.sequenceId, tag)
    case Swept =>
      m.event.SocketReceive? && m.event.frame.Ping? && exists id :: Holds(e, id, tag) && e.waiters[id].deadline <= m.now
    case Late => m.event.IssueRequest? && m.event.waiter.tag == tag && m.event.waiter.deadline <= m.now
    case Overwritten => m.event.IssueRequest? && m.event.waiter.deadline > m.now && Holds(e, e.nextId, tag)
  }

  /** A waiter meets a fate exactly by its cause. */
  lemma FateMeans(e: Endpoint, m: Moment, handled: nat, tag: nat, fate: Fate)
    requires e.role.Client? && Ledger(e, handled) && tag !in e.fates
    requires m.event.IssueRequest? ==> m.event.waiter.tag == handled
    ensures var e' := Handle(e, m.event, m.now).next;
            (tag in e'.fates && e'.fates[tag] == fate) <==> Cause(e, m, tag, fate)
  {
    hide Below;
    match m.event
    case SocketReceive(frame) => FrameFate(e, frame, m.now, tag, fate);
    case IssueRequest(payload, waiter) => IssueFate(e, payload, waiter, m.now, handled, tag, fate);
    case _ =>
  }

  lemma FrameFate(e: Endpoint, frame: LoquiFrame, now: nat, tag: nat, fate: Fate)
    requires e.role.Client? && Distinct(e.waiters) && tag !in e.fates
    ensures var e' := HandleFrame(e, frame, now).next;
            (tag in e'.fates && e'.fates[tag] == fate) <==> Cause(e, Moment(SocketReceive(frame), now), tag, fate)
  {
    if frame.Ping? { SweepFate(e, now, tag); }
  }

  lemma SweepFate(e: Endpoint, now: nat, tag: nat)
    requires tag !in e.fates
    ensures tag in Sweep(e, now).fates <==> exists id :: Holds(e, id, tag) && e.waiters[id].deadline <= now
    ensures tag in Sweep(e, now).fates ==> Sweep(e, now).fates[tag] == Swept
  {
    if id: u32 :| Holds(e, id, tag) && e.waiters[id].deadline <= now { assert id in Expired(e.waiters, now); }
  }

  lemma IssueFate(e: Endpoint, payload: Payload, waiter: Waiter, now: nat, handled: nat, tag: nat, fate: Fate)
    requires e.role.Client? && Ledger(e, handled) && tag !in e.fates && waiter.tag == handled
    ensures var e' := Issue(e, payload, waiter, now).0;
            (tag in e'.fates && e'.fates[tag] == fate)
            <==> Cause(e, Moment(IssueRequest(payload, waiter), now), tag, fate)
  {
  }

  /** A waiter is held, under the id its request was sent with, from that request to its fate and no longer. */
  lemma HeldMeans(e: Endpoint, m: Moment, handled: nat, id: u32, tag: nat)
    requires e.role.Client? && Ledger(e, handled)
    requires m.event.IssueRequest? ==> m.event.waiter.tag == handled
    ensures var e' := Handle(e, m.event, m.now).next;
            Holds(e', id, tag) <==>
            (Holds(e, id, tag) && tag !in e'.fates)
            || (m.event.IssueRequest? && m.event.waiter.deadline > m.now && id == e.nextId && tag == handled)
  {
    hide Below, Sweep, Settle, Insert, Issue, HandleFrame, Ledger;
    var e' := Handle(e, m.event, m.now).next;
    LedgerStep(e, handled, m.event, m.now);
    match m.event
    case SocketReceive(frame) => StaysHeld(e, frame, m.now, handled, id, tag);
    case IssueRequest(payload, waiter) => IsHeld(e, payload, waiter, m.now, handled, id, tag);
    case _ => if Holds(e, id, tag) { HeldIsOpen(e, handled, id, tag); }
  }

  lemma HeldIsOpen(e: Endpoint, handled: nat, id: u32, tag: nat)
    requires Ledger(e, handled) && Holds(e, id, tag)
    ensures tag !in e.fates && tag < handled
  {
    hide Below;
    assert tag in Tags(e.waiters) + e.fates.Keys;
    InBelow(handled, tag);
  }

  lemma StaysHeld(e: Endpoint, frame: LoquiFrame, now: nat, handled: nat, id: u32, tag: nat)
    requires e.role.Client? && Ledger(e, handled)
    ensures var e' := HandleFrame(e, frame, now).next;
            Ledger(e', handled) ==> (Holds(e', id, tag) <==> Holds(e, id, tag) && tag !in e'.fates)
  {
    hide Below;
    var e' := HandleFrame(e, frame, now).next;
    if Holds(e', id, tag) && Ledger(e', handled) { HeldIsOpen(e', handled, id, tag); }
    if Holds(e, id, tag) {
      HeldIsOpen(e, handled, id, tag);
      if frame.Ping? { SweepFate(e, now, tag); }
    }
  }

  lemma IsHeld(e: Endpoint, payload: Payload, waiter: Waiter, now: nat, handled: nat, id: u32, tag: nat)
    requires Ledger(e, handled) && waiter.tag == handled
    ensures var e' := Issue(e, payload, waiter, now).0;
            Ledger(e', handled + 1) ==>
              (Holds(e', id, tag) <==>
                (Holds(e, id, tag) && tag !in e'.fates)
                || (waiter.deadline > now && id == e.nextId && tag == handled))
  {
    hide Below;
    var e' := Issue(e, payload, waiter, now).0;
    if Holds(e, id, tag) { HeldIsOpen(e, handled, id, tag); }
    if Holds(e', id, tag) && Ledger(e', handled + 1) { HeldIsOpen(e', handled + 1, id, tag); }
  }

  // ---------- every run of a client ----------

  function After(ms: seq<Moment>): Endpoint {
    if ms == [] then Fresh(Client) else Handle(After(ms[..|ms| - 1]), ms[|ms| - 1].event, ms[|ms| - 1].now).next
  }

  function Requests(ms: seq<Moment>): nat {
    if ms == [] then 0 else Requests(ms[..|ms| - 1]) + HandledBy(ms[|ms| - 1].event)
  }

  /** Each request brings the next tag. */
  predicate Tagged(ms: seq<Moment>) {
    ms == [] ||
    (var n := |ms| - 1;
     Tagged(ms[..n]) && (ms[n].event.IssueRequest? ==> ms[n].event.waiter.tag == Requests(ms[..n])))
  }

  lemma FreshLedger()
    ensures Ledger(Fresh(Client), 0)
  {
    assert Tags(map[]) == {} && Below(0) == {};
  }

  lemma {:induction false} RunLedger(ms: seq<Moment>)
    requires Tagged(ms)
    ensures After(ms).role.Client? && Ledger(After(ms), Requests(ms))
  {
    hide Ledger, Handle;
    if ms == [] {
      FreshLedger();
    } else {
      var n := |ms| - 1;
      RunLedger(ms[..n]);
      LedgerStep(After(ms[..n]), Requests(ms[..n]), ms[n].event, ms[n].now);
    }
  }

  /** In every run of client events, whatever the peer sends and whatever the clock shows, a waiter has met a fate if
      and only if at some moment its cause came: an Ok payload is that of a Response with its id, received while it
      was held; an error that of an Error frame with its id, received while it was held; it was swept by a ping past
      its deadline, or told so at once past it, or lost its id to a later request. */
  lemma {:induction false} FatesAreCaused(ms: seq<Moment>, tag: nat, fate: Fate)
    requires Tagged(ms)
    ensures (tag in After(ms).fates && After(ms).fates[tag] == fate)
            <==> exists k :: 0 <= k < |ms| && Cause(After(ms[..k]), ms[k], tag, fate)
  {
    hide Ledger, Handle, Cause;
    if ms != [] {
      var n := |ms| - 1;
      var before, m := After(ms[..n]), ms[n];
      RunLedger(ms[..n]);
      FatesAreCaused(ms[..n], tag, fate);
      LedgerStep(before, Requests(ms[..n]), m.event, m.now);
      if tag in before.fates {
        NoSecondCause(before, m, Requests(ms[..n]), tag, fate);
      } else {
        FateMeans(before, m, Requests(ms[..n]), tag, fate);
      }
      assert forall k :: 0 <= k <= n ==> ms[..n][..k] == ms[..k];
      assert forall k :: 0 <= k < n ==> ms[..n][k] == ms[k];
      if k :| 0 <= k < n && Cause(After(ms[..n][..k]), ms[..n][k], tag, fate) {
        assert Cause(After(ms[..k]), ms[k], tag, fate);
      }
      if k :| 0 <= k < |ms| && Cause(After(ms[..k]), ms[k], tag, fate) {
        if k < n { assert Cause(After(ms[..n][..k]), ms[..n][k], tag, fate); }
      }
    }
  }

  /** A waiter that has met its fate is no longer there to meet another. */
  lemma NoSecondCause(e: Endpoint, m: Moment, handled: nat, tag: nat, fate: Fate)
    requires Ledger(e, handled) && tag in e.fates && (m.event.IssueRequest? ==> m.event.waiter.tag == handled)
    ensures !Cause(e, m, tag, fate)
  {
    InBelow(handled, tag);
    assert tag in Tags(e.waiters) + e.fates.Keys && tag !in Tags(e.waiters);
  }
}
