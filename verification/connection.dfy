/**
 One end of a Rust connection after the handshake: the event handler of rust/loqui_connection and the client's and
 server's connection handlers behind it. `Handle` says what one event does to the whole end; the classes carry it out
 in place. Time is an argument: the instant the handler reads while it deals with the event.
 */
module Connection {
  import opened Bytes
  import opened LoquiErrors
  import opened Settings
  import opened R = RustCodec

  type Payload = seq<byte>

  datatype Role = Client | Server

  /** A response waiter. `tag` stands for its one-shot channel: the request it was made for. */
  datatype Waiter = Waiter(tag: nat, deadline: nat)

  /** What became of a waiter. Only the first three are told on its channel; a swept or overwritten one is dropped. */
  datatype Fate = Answered(payload: Payload) | Failed(reason: Payload) | Late | Swept | Overwritten

  datatype Event =
    | PingDue
    | SocketReceive(frame: LoquiFrame)
    | IssueRequest(payload: Payload, waiter: Waiter)
    | IssuePush(payload: Payload)
    | ResponseComplete(result: R.Result<LoquiFrame, (u32, Payload)>)
    | Close

  /** An event and the instant at which it is dealt with. */
  datatype Moment = Moment(event: Event, now: nat)

  /** A future spawned for a delegated frame; its result comes back as ResponseComplete. */
  datatype Task = Serve(sequenceId: u32, payload: Payload) | Reject

  datatype Endpoint = Endpoint(role: Role, waiters: map<u32, Waiter>, fates: map<nat, Fate>, nextId: u32,
      pongReceived: bool)

  type Reply = R.Result<Option<LoquiFrame>, LoquiError>

  datatype Outcome = Outcome(next: Endpoint, reply: Reply, spawned: Option<Task>)

  function Fresh(role: Role): Endpoint {
    Endpoint(role, map[], map[], 1, true)
  }

  function Successor(id: u32): u32 {
    (id + 1) % U32_COUNT
  }

  // ---------- the client's waiters ----------

  /** The waiters whose deadline has passed. */
  function Expired(waiters: map<u32, Waiter>, now: nat): set<u32> {
    set id | id in waiters && waiters[id].deadline <= now
  }

  function Sweep(e: Endpoint, now: nat): (r: Endpoint)
    ensures r.role == e.role && r.nextId == e.nextId && r.pongReceived == e.pongReceived
  {
    var expired := Expired(e.waiters, now);
    e.(waiters := e.waiters - expired, fates := e.fates + map id | id in expired :: e.waiters[id].tag := Swept)
  }

  /** Take the waiter with this id out and settle it; a response without one changes nothing. */
  function Settle(e: Endpoint, id: u32, fate: Fate): (r: Endpoint)
    ensures r.role == e.role && r.nextId == e.nextId && r.pongReceived == e.pongReceived
  {
    if id in e.waiters then e.(waiters := e.waiters - {id}, fates := e.fates[e.waiters[id].tag := fate]) else e
  }

  /** Store a waiter under an id; one already there is dropped. */
  function Insert(e: Endpoint, id: u32, waiter: Waiter): (r: Endpoint)
    ensures r.role == e.role && r.nextId == e.nextId && r.pongReceived == e.pongReceived
  {
    e.(waiters := e.waiters[id := waiter], fates := if id in e.waiters then e.fates[e.waiters[id].tag := Overwritten]
        else e.fates)
  }

  function Issue(e: Endpoint, payload: Payload, waiter: Waiter, now: nat): (Endpoint, Option<LoquiFrame>) {
    var drawn := e.(nextId := Successor(e.nextId));
    if waiter.deadline <= now then (drawn.(fates := e.fates[waiter.tag := Late]), None)
    else (Insert(drawn, e.nextId, waiter), Some(Request(0, e.nextId, payload)))
  }

  // ---------- one event ----------

  function HandleFrame(e: Endpoint, frame: LoquiFrame, now: nat): Outcome {
    match frame
    case Hello(_, _, _, _) => Outcome(e, Err(LoquiErrors.InvalidOpcode(1)), None)
    case HelloAck(_, _, _, _) => Outcome(e, Err(LoquiErrors.InvalidOpcode(2)), None)
    case Ping(flags, id) => Outcome(if e.role.Client? then Sweep(e, now) else e, Ok(Some(Pong(flags, id))), None)
    case Pong(_, _) => Outcome(e.(pongReceived := true), Ok(None), None)
    case GoAway(_, _, _) => Outcome(e, Err(ToldToGoAway(frame)), None)
    case Request(_, id, payload) => Outcome(e, Ok(None), Some(if e.role.Client? then Reject else Serve(id, payload)))
    case Push(_, _) => Outcome(e, Ok(None), if e.role.Client? then Some(Reject) else None)
    case Response(_, id, payload) =>
      Outcome(if e.role.Client? then Settle(e, id, Answered(payload)) else e, Ok(None), None)
    case Error(_, id, _, payload) =>
      Outcome(if e.role.Client? then Settle(e, id, Failed(payload)) else e, Ok(None), None)
  }

  function Handle(e: Endpoint, event: Event, now: nat): Outcome {
    match event
    case PingDue =>
      if e.pongReceived then Outcome(e.(nextId := Successor(e.nextId), pongReceived := false),
          Ok(Some(Ping(0, e.nextId))), None)
      else Outcome(e, Err(PingTimeout), None)
    case SocketReceive(frame) => HandleFrame(e, frame, now)
    case IssueRequest(payload, waiter) =>
      if e.role.Client? then var (e', frame) := Issue(e, payload, waiter, now); Outcome(e', Ok(frame), None)
      else Outcome(e, Ok(None), None)
    case IssuePush(payload) => Outcome(e, Ok(if e.role.Client? then Some(Push(0, payload)) else None), None)
    case ResponseComplete(Ok(response)) => Outcome(e, Ok(Some(response)), None)
    case ResponseComplete(Err((id, reason))) => Outcome(e, Ok(Some(R.Error(0, id, 7, reason))), None)
    case Close => Outcome(e, Err(ConnectionCloseRequested), None)
  }

  // ---------- the classes that do it in place ----------

  class IdSequence {
    var next: u32

    constructor ()
      ensures next == 1
    {
      next := 1;
    }

    method Next() returns (id: u32)
      modifies this
      ensures id == old(next) && next == Successor(old(next))
    {
      id := next;
      next := if next == U32_COUNT - 1 then 0 else next + 1;
    }
  }

  class ClientHandler {
    var waiters: map<u32, Waiter>
    ghost var fates: map<nat, Fate>

    constructor ()
      ensures waiters == map[] && fates == map[]
    {
      waiters, fates := map[], map[];
    }

    /** A request's waiter is stored only while its deadline lies ahead. */
    method SendRequest(payload: Payload, sequenceId: u32, waiter: Waiter, now: nat) returns (frame: Option<LoquiFrame>)
      modifies this
      ensures forall e: Endpoint :: e.waiters == old(waiters) && e.fates == old(fates) && e.nextId == sequenceId ==>
                var (e', f) := Issue(e, payload, waiter, now); waiters == e'.waiters && fates == e'.fates && frame == f
    {
      if waiter.deadline <= now {
        fates := fates[waiter.tag := Late];
        return None;
      }
      if sequenceId in waiters { fates := fates[waiters[sequenceId].tag := Overwritten]; }
      waiters := waiters[sequenceId := waiter];
      frame := Some(Request(0, sequenceId, payload));
    }

    /** `handle_response` and `handle_error`: whoever waits under the id is told. */
    method Notify(sequenceId: u32, ghost fate: Fate)
      modifies this
      ensures forall e: Endpoint :: e.waiters == old(waiters) && e.fates == old(fates) ==>
                waiters == Settle(e, sequenceId, fate).waiters && fates == Settle(e, sequenceId, fate).fates
    {
      if sequenceId in waiters {
        fates := fates[waiters[sequenceId].tag := fate];
        waiters := waiters - {sequenceId};
      }
    }

    method OnPingReceived(now: nat)
      modifies this
      ensures forall e: Endpoint :: e.waiters == old(waiters) && e.fates == old(fates) ==>
                waiters == Sweep(e, now).waiters && fates == Sweep(e, now).fates
    {
      ghost var before := waiters;
      waiters := map id | id in waiters && waiters[id].deadline > now :: waiters[id];
      assert waiters == before - Expired(before, now);
      fates := fates + map id | id in Expired(before, now) :: before[id].tag := Swept;
    }
  }

  class EventHandler {
    /** The client's handler; a server's has no state. */
    const handler: ClientHandler?
    const idSequence: IdSequence
    var pongReceived: bool

    constructor (handler: ClientHandler?)
      requires handler != null ==> handler.waiters == map[] && handler.fates == map[]
      ensures this.handler == handler && fresh(idSequence)
      ensures View() == Fresh(if handler == null then Server else Client)
    {
      this.handler := handler;
      idSequence := new IdSequence();
      pongReceived := true;
    }

    ghost function View(): Endpoint
      reads this, handler, idSequence
    {
      if handler == null then Endpoint(Server, map[], map[], idSequence.next, pongReceived)
      else Endpoint(Client, handler.waiters, handler.fates, idSequence.next, pongReceived)
    }

    method HandleEvent(event: Event, now: nat) returns (reply: Reply, spawned: Option<Task>)
      modifies this, handler, idSequence
      ensures Outcome(View(), reply, spawned) == Handle(old(View()), event, now)
    {
      spawned := None;
      match event
      case PingDue => reply := SendPing();
      case SocketReceive(frame) => reply, spawned := ReceiveFrame(frame, now);
      case IssueRequest(payload, waiter) =>
        if handler == null { return Ok(None), None; }
        ghost var before := View();
        var id := idSequence.Next();
        var frame := handler.SendRequest(payload, id, waiter, now);
        assert View() == Issue(before, payload, waiter, now).0;
        reply := Ok(frame);
      case IssuePush(payload) => reply := Ok(if handler == null then None else Some(Push(0, payload)));
      case ResponseComplete(result) =>
        match result {
          case Ok(response) => reply := Ok(Some(response));
          case Err((id, reason)) => reply := Ok(Some(R.Error(0, id, 7, reason)));
        }
      case Close => reply := Err(ConnectionCloseRequested);
    }

    /** A ping goes out only when the last one was answered. */
    method SendPing() returns (reply: Reply)
      modifies this, idSequence
      ensures Outcome(View(), reply, None) == Handle(old(View()), PingDue, 0)
    {
      if !pongReceived { return Err(PingTimeout); }
      var id := idSequence.Next();
      pongReceived := false;
      reply := Ok(Some(Ping(0, id)));
    }

    method ReceiveFrame(frame: LoquiFrame, now: nat) returns (reply: Reply, spawned: Option<Task>)
      modifies this, handler
      ensures Outcome(View(), reply, spawned) == HandleFrame(old(View()), frame, now)
    {
      ghost var before := View();
      reply, spawned := Ok(None), None;
      match frame
      case Hello(_, _, _, _) => reply := Err(LoquiErrors.InvalidOpcode(1));
      case HelloAck(_, _, _, _) => reply := Err(LoquiErrors.InvalidOpcode(2));
      case Ping(flags, id) =>
        if handler != null {
          handler.OnPingReceived(now);
          assert View() == Sweep(before, now);
        }
        reply := Ok(Some(Pong(flags, id)));
      case Pong(_, _) => pongReceived := true;
      case GoAway(_, _, _) => reply := Err(ToldToGoAway(frame));
      case Request(_, id, payload) => spawned := Some(if handler != null then Reject else Serve(id, payload));
      case Push(_, _) => if handler != null { spawned := Some(Reject); }
      case Response(_, id, payload) =>
        if handler != null {
          handler.Notify(id, Answered(payload));
          assert View() == Settle(before, id, Answered(payload));
        }
      case Error(_, id, _, payload) =>
        if handler != null {
          handler.Notify(id, Failed(payload));
          assert View() == Settle(before, id, Failed(payload));
        }
    }
  }

  // ---------- the ledger of waiters ----------

  function Tags(waiters: map<u32, Waiter>): set<nat> {
    set id | id in waiters :: waiters[id].tag
  }

  ghost predicate Distinct(waiters: map<u32, Waiter>) {
    forall id, id' :: id in waiters && id' in waiters && waiters[id].tag == waiters[id'].tag ==> id == id'
  }

  /** The numbers below n. */
  ghost function Below(n: nat): set<nat> {
    if n == 0 then {} else Below(n - 1) + {n - 1}
  }

  lemma {:induction false} InBelow(n: nat, t: nat)
    ensures t in Below(n) <==> t < n
  {
    if n > 0 { InBelow(n - 1, t); }
  }

  lemma {:induction false} CountBelow(n: nat)
    ensures |Below(n)| == n
  {
    if n > 0 {
      CountBelow(n - 1);
      InBelow(n - 1, n - 1);
    }
  }

  /** After `handled` requests were taken on: every one of them is either still waiting, under one id only, or has
      met its one fate. */
  ghost predicate Ledger(e: Endpoint, handled: nat) {
    Distinct(e.waiters) && Balanced(Tags(e.waiters), e.fates.Keys, handled)
  }

  ghost predicate Balanced(open: set<nat>, fated: set<nat>, handled: nat) {
    open !! fated && open + fated == Below(handled)
  }

  /** No fate is ever revised. */
  ghost predicate Kept(before: map<nat, Fate>, after: map<nat, Fate>) {
    forall tag :: tag in before ==> tag in after && after[tag] == before[tag]
  }

  function HandledBy(event: Event): nat {
    if event.IssueRequest? then 1 else 0
  }

  /** Taking waiters out takes exactly their tags out. */
  lemma DropTags(waiters: map<u32, Waiter>, drop: set<u32>)
    requires Distinct(waiters) && drop <= waiters.Keys
    ensures var out := set id | id in drop :: waiters[id].tag;
            && Distinct(waiters - drop)
            && Tags(waiters - drop) == Tags(waiters) - out && out <= Tags(waiters)
  {
    var left, out := waiters - drop, set id | id in drop :: waiters[id].tag;
    forall tag ensures tag in Tags(left) <==> tag in Tags(waiters) - out {
      if tag in Tags(left) {
        var id :| id in left && left[id].tag == tag;
        assert waiters[id].tag == tag;
      }
      if tag in Tags(waiters) - out {
        var id :| id in waiters && waiters[id].tag == tag;
        assert id in left;
      }
    }
  }

  lemma AddTag(waiters: map<u32, Waiter>, id: u32, waiter: Waiter)
    requires Distinct(waiters) && id !in waiters && waiter.tag !in Tags(waiters)
    ensures Distinct(waiters[id := waiter]) && Tags(waiters[id := waiter]) == Tags(waiters) + {waiter.tag}
  {
    var more := waiters[id := waiter];
    forall k | k in waiters ensures waiters[k].tag in Tags(waiters) && more[k].tag in Tags(more) {
      assert more[k] == waiters[k];
    }
    assert more[id].tag in Tags(more);
  }

  lemma SettleKeepsLedger(e: Endpoint, handled: nat, id: u32, fate: Fate)
    requires Ledger(e, handled)
    ensures Ledger(Settle(e, id, fate), handled) && Kept(e.fates, Settle(e, id, fate).fates)
  {
    hide Tags, Distinct, Balanced;
    if id in e.waiters {
      var e', tag, drop := Settle(e, id, fate), e.waiters[id].tag, {id};
      var gone := set k | k in drop :: e.waiters[k].tag;
      DropTags(e.waiters, drop);
      assert gone == {tag} && e'.waiters == e.waiters - drop;
      MoveTags(Tags(e.waiters), e.fates.Keys, {tag}, handled);
      assert e'.fates.Keys == e.fates.Keys + {tag};
    }
  }

  /** Each waiter is settled at most once: a second response under its id, or one that comes after it was swept, changes
      nothing at all. */
  lemma LateChangesNothing(e: Endpoint, id: u32, first: Fate, second: Fate, now: nat)
    ensures Settle(Settle(e, id, first), id, second) == Settle(e, id, first)
    ensures id in e.waiters && e.waiters[id].deadline <= now ==> Settle(Sweep(e, now), id, second) == Sweep(e, now)
  {
  }

  /** Tags that leave the one side of the ledger turn up on the other. */
  lemma MoveTags(open: set<nat>, fated: set<nat>, moved: set<nat>, handled: nat)
    requires Balanced(open, fated, handled) && moved <= open
    ensures Balanced(open - moved, fated + moved, handled) && moved !! fated
  {
    assert (open - moved) + (fated + moved) == open + fated;
  }

  lemma NextTag(open: set<nat>, fated: set<nat>, handled: nat)
    requires Balanced(open, fated, handled)
    ensures handled !in open + fated
    ensures Balanced(open + {handled}, fated, handled + 1) && Balanced(open, fated + {handled}, handled + 1)
  {
    InBelow(handled, handled);
    assert handled !in open && handled !in fated;
    assert open + {handled} + fated == Below(handled + 1) == open + (fated + {handled});
  }

  lemma SweepKeepsLedger(e: Endpoint, handled: nat, now: nat)
    requires Ledger(e, handled)
    ensures Ledger(Sweep(e, now), handled) && Kept(e.fates, Sweep(e, now).fates)
    ensures forall id :: id in Sweep(e, now).waiters <==> id in e.waiters && e.waiters[id].deadline > now
  {
    hide Tags, Distinct, Balanced;
    var expired := Expired(e.waiters, now);
    var gone := set id | id in expired :: e.waiters[id].tag;
    DropTags(e.waiters, expired);
    var swept := map id | id in expired :: e.waiters[id].tag := Swept;
    assert swept.Keys == gone;
    MoveTags(Tags(e.waiters), e.fates.Keys, gone, handled);
    assert Sweep(e, now).fates.Keys == e.fates.Keys + gone;
  }

  lemma IssueKeepsLedger(e: Endpoint, handled: nat, payload: Payload, waiter: Waiter, now: nat)
    requires Ledger(e, handled) && waiter.tag == handled
    ensures var e' := Issue(e, payload, waiter, now).0; Ledger(e', handled + 1) && Kept(e.fates, e'.fates)
  {
    hide Tags, Distinct, Balanced;
    var e' := Issue(e, payload, waiter, now).0;
    if waiter.deadline > now {
      var cleared := Settle(e, e.nextId, Overwritten);
      SettleKeepsLedger(e, handled, e.nextId, Overwritten);
      NextTag(Tags(cleared.waiters), cleared.fates.Keys, handled);
      AddTag(cleared.waiters, e.nextId, waiter);
      assert e'.waiters == cleared.waiters[e.nextId := waiter] && e'.fates == cleared.fates;
    } else {
      NextTag(Tags(e.waiters), e.fates.Keys, handled);
      assert e'.fates.Keys == e.fates.Keys + {handled};
    }
  }

  /** Whatever the peer sends and whatever the clock shows, no event loses a waiter, settles one twice or revises a
      fate; each new request brings the next tag. */
  lemma LedgerStep(e: Endpoint, handled: nat, event: Event, now: nat)
    requires e.role.Client? && Ledger(e, handled) && (event.IssueRequest? ==> event.waiter.tag == handled)
    ensures var e' := Handle(e, event, now).next;
            e'.role.Client? && Ledger(e', handled + HandledBy(event)) && Kept(e.fates, e'.fates)
  {
    hide Issue, HandleFrame, Tags, Distinct, Balanced;
    match event
    case SocketReceive(frame) => FrameKeepsLedger(e, handled, frame, now);
    case IssueRequest(payload, waiter) => IssueKeepsLedger(e, handled, payload, waiter, now);
      IssueRole(e, payload, waiter, now);
    case _ =>
  }

  lemma IssueRole(e: Endpoint, payload: Payload, waiter: Waiter, now: nat)
    ensures Issue(e, payload, waiter, now).0.role == e.role
  {
  }

  lemma FrameKeepsLedger(e: Endpoint, handled: nat, frame: LoquiFrame, now: nat)
    requires e.role.Client? && Ledger(e, handled)
    ensures var e' := HandleFrame(e, frame, now).next; e'.role.Client? && Ledger(e', handled) && Kept(e.fates, e'.fates)
  {
    hide Tags, Distinct, Balanced, Expired;
    match frame
    case Ping(_, _) => SweepKeepsLedger(e, handled, now);
    case Response(_, id, payload) => SettleKeepsLedger(e, handled, id, Answered(payload));
    case Error(_, id, _, payload) => SettleKeepsLedger(e, handled, id, Failed(payload));
    case _ =>
  }

  lemma {:induction false} DistinctCount(waiters: map<u32, Waiter>)
    requires Distinct(waiters)
    ensures |Tags(waiters)| == |waiters|
    decreases |waiters|
  {
    if waiters == map[] {
      assert Tags(waiters) == {};
    } else {
      var id :| id in waiters;
      var rest := waiters - {id};
      DropTags(waiters, {id});
      assert (set k | k in {id} :: waiters[k].tag) == {waiters[id].tag};
      assert waiters.Keys == rest.Keys + {id};
      assert Tags(waiters) == Tags(rest) + {waiters[id].tag};
      DistinctCount(rest);
    }
  }

  /** The count the ledger stands for: requests taken on = waiters still held + fates met. */
  lemma Conservation(e: Endpoint, handled: nat)
    requires Ledger(e, handled)
    ensures |e.waiters| + |e.fates| == handled
  {
    DistinctCount(e.waiters);
    CountBelow(handled);
    assert |Tags(e.waiters) + e.fates.Keys| == |Tags(e.waiters)| + |e.fates.Keys|;
  }
}
