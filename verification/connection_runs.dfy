/**
 A Rust client and a Rust server joined by two first-in-first-out wires, after the handshake. An act is one turn of
 the environment: a timer fires, a caller issues a request, a side takes the next frame off its wire, a served request
 finishes (in any order), a finished answer is taken up, a close is asked for, a socket dies. Every run is a list of
 acts; one that is not possible when it comes changes nothing. The fields from `asked` on are history: no act reads
 them.
 */
module ConnectionRuns {
  import opened Bytes
  import opened LoquiErrors
  import opened Settings
  import opened Connection
  import opened R = RustCodec

  /** One end: its handler, the futures it spawned, and the events they sent back to it. */
  datatype Side = Side(ep: Endpoint, up: bool, tasks: seq<Task>, queue: seq<Event>)

  /** What a drawn id was for. */
  datatype Draw = ForPing | ForRequest(sent: bool)

  /** The history: the payloads of the requests made, by tag; what each id was drawn for; the request each id was last
      sent for; what the server's handler was asked and answered for each request; and the responses the client took
      in. */
  datatype Sys = Sys(
    client: Side, server: Side, c2s: seq<LoquiFrame>, s2c: seq<LoquiFrame>,
    asked: seq<Payload>, draws: seq<Draw>, owner: map<u32, nat>, served: map<nat, (Payload, Payload)>,
        replied: multiset<u32>,
    errors: seq<(Role, LoquiError)>)

  datatype Act =
    | Timer(role: Role, now: nat)
    | ClientRequest(payload: Payload, deadline: nat, now: nat)
    | ClientPush(payload: Payload)
    | Receive(role: Role, now: nat)
    | Finish(role: Role, task: nat, answer: Payload)
    | TakeFinished(role: Role)
    | AskClose(role: Role)
    | SocketGone(role: Role)

  function Init(): Sys {
    Sys(Side(Fresh(Client), true, [], []), Side(Fresh(Server), true, [], []), [], [], [], [], map[], map[], multiset{},
        [])
  }

  /** A side deals with one event: the frame to send, if any; on an error it closes, and a server says GoAway. */
  function React(side: Side, event: Event, now: nat): (Side, seq<LoquiFrame>, Option<LoquiError>) {
    var o := Handle(side.ep, event, now);
    match o.reply
    case Ok(frame) =>
      (side.(ep := o.next, tasks := if o.spawned.Some? then side.tasks + [o.spawned.value] else side.tasks),
       if frame.Some? then [frame.value] else [], None)
    case Err(e) =>
      (side.(ep := o.next, up := false), if side.ep.role.Server? then [GoAway(0, Code(e), [])] else [], Some(e))
  }

  function DrawsBy(ep: Endpoint, event: Event, now: nat): seq<Draw> {
    match event
    case PingDue => if ep.pongReceived then [ForPing] else []
    case IssueRequest(_, waiter) => [ForRequest(waiter.deadline > now)]
    case _ => []
  }

  /** A request that is sent takes over its id. */
  function OwnerBy(owner: map<u32, nat>, ep: Endpoint, event: Event, now: nat): map<u32, nat> {
    if event.IssueRequest? && event.waiter.deadline > now then owner[ep.nextId := event.waiter.tag] else owner
  }

  function Noted(role: Role, e: Option<LoquiError>): seq<(Role, LoquiError)> {
    if e.Some? then [(role, e.value)] else []
  }

  function ByClient(s: Sys, event: Event, now: nat): Sys {
    var (side, out, e) := React(s.client, event, now);
    s.(client := side, c2s := s.c2s + out, draws := s.draws + DrawsBy(s.client.ep, event, now),
       owner := OwnerBy(s.owner, s.client.ep, event, now), errors := s.errors + Noted(Client, e))
  }

  function ByServer(s: Sys, event: Event, now: nat): Sys {
    var (side, out, e) := React(s.server, event, now);
    s.(server := side, s2c := s.s2c + out, errors := s.errors + Noted(Server, e))
  }

  /** A task's result, sent to its own side's event loop. */
  function Result(task: Task, answer: Payload): Event {
    match task
    case Serve(id, _) => ResponseComplete(Ok(Response(0, id, answer)))
    case Reject => ResponseComplete(Err((0, answer)))
  }

  function Finished(side: Side, i: nat, answer: Payload): Side
    requires i < |side.tasks|
  {
    side.(tasks := side.tasks[..i] + side.tasks[i + 1..], queue := side.queue + [Result(side.tasks[i], answer)])
  }

  /** What an act comes to: an event for one side to deal with, or only a change around them. */
  datatype Turn = Turn(s: Sys, role: Role, event: Event, now: nat) | Still(s: Sys)

  function Plan(s: Sys, act: Act): Turn {
    match act
    case Timer(role, now) => if Of(s, role).up then Turn(s, role, PingDue, now) else Still(s)
    case ClientRequest(payload, deadline, now) =>
      if s.client.up then
        Turn(s.(asked := s.asked + [payload]), Client, IssueRequest(payload, Waiter(|s.asked|, deadline)), now)
      else Still(s)
    case ClientPush(payload) => if s.client.up then Turn(s, Client, IssuePush(payload), 0) else Still(s)
    case Receive(Client, now) => if s.client.up && s.s2c != [] then ClientReceives(s, now) else Still(s)
    case Receive(Server, now) =>
      if s.server.up && s.c2s != [] then Turn(s.(c2s := s.c2s[1..]), Server, SocketReceive(s.c2s[0]), now) else Still(s)
    case Finish(Client, i, answer) =>
      Still(if s.client.up && i < |s.client.tasks| then s.(client := Finished(s.client, i, answer)) else s)
    case Finish(Server, i, answer) =>
      Still(if s.server.up && i < |s.server.tasks| then ServerFinishes(s, i, answer) else s)
    case TakeFinished(Client) =>
      if s.client.up && s.client.queue != [] then
        Turn(s.(client := s.client.(queue := s.client.queue[1..])), Client, s.client.queue[0], 0)
      else Still(s)
    case TakeFinished(Server) =>
      if s.server.up && s.server.queue != [] then
        Turn(s.(server := s.server.(queue := s.server.queue[1..])), Server, s.server.queue[0], 0)
      else Still(s)
    case AskClose(role) => if Of(s, role).up then Turn(s, role, Close, 0) else Still(s)
    case SocketGone(Client) => Still(s.(client := s.client.(up := false)))
    case SocketGone(Server) => Still(s.(server := s.server.(up := false)))
  }

  function Of(s: Sys, role: Role): Side {
    if role.Client? then s.client else s.server
  }

  function ClientReceives(s: Sys, now: nat): Turn
    requires s.s2c != []
  {
    var frame := s.s2c[0];
    Turn(s.(s2c := s.s2c[1..], replied := s.replied + One(ResponseId(frame))), Client, SocketReceive(frame), now)
  }

  function ServerFinishes(s: Sys, i: nat, answer: Payload): Sys
    requires i < |s.server.tasks|
  {
    var task := s.server.tasks[i];
    s.(server := Finished(s.server, i, answer),
       served := if task.Serve? && task.sequenceId in s.owner
                 then s.served[s.owner[task.sequenceId] := (task.payload, answer)]
                 else s.served)
  }

  function Step(s: Sys, act: Act): Sys {
    match Plan(s, act)
    case Turn(s', Client, event, now) => ByClient(s', event, now)
    case Turn(s', Server, event, now) => ByServer(s', event, now)
    case Still(s') => s'
  }

  /** Where a run of acts leads. */
  function Exec(acts: seq<Act>): Sys {
    if acts == [] then Init() else Step(Exec(acts[..|acts| - 1]), acts[|acts| - 1])
  }

  // ---------- genuine peers raise no protocol error ----------

  predicate FromClient(f: LoquiFrame) { f.Ping? || f.Pong? || f.Request? || f.Push? }

  predicate FromServer(f: LoquiFrame) { f.Ping? || f.Pong? || f.Response? || Goodbye(f) }

  /** A server's only reasons to close are a request to and an unanswered ping. */
  predicate Goodbye(f: LoquiFrame) {
    f in {GoAway(0, 0, []), GoAway(0, 6, [])}
  }

  predicate Expected(s: Sys, role: Role, e: LoquiError) {
    e.PingTimeout? || e.ConnectionCloseRequested?
    || (e.ToldToGoAway? && role.Client? && !s.server.up && Goodbye(e.goAway))
  }

  /** Each side only sends what the other can handle; the server's last word, if it closed, is its GoAway. */
  ghost predicate Genuine(s: Sys) {
    && s.client.ep.role.Client? && s.server.ep.role.Server?
    && s.client.tasks == [] && s.client.queue == []
    && (forall i :: 0 <= i < |s.server.tasks| ==> s.server.tasks[i].Serve?)
    && (forall i :: 0 <= i < |s.server.queue| ==>
          s.server.queue[i].ResponseComplete? && s.server.queue[i].result.Ok?
              && s.server.queue[i].result.value.Response?)
    && (forall i :: 0 <= i < |s.c2s| ==> FromClient(s.c2s[i]))
    && (forall i :: 0 <= i < |s.s2c| ==> FromServer(s.s2c[i]))
    && (forall i :: 0 <= i < |s.s2c| && s.s2c[i].GoAway? ==> !s.server.up)
    && (forall i :: 0 <= i < |s.errors| ==> Expected(s, s.errors[i].0, s.errors[i].1))
  }

  predicate ForTheClient(event: Event) {
    event.PingDue? || event.IssueRequest? || event.IssuePush? || event.Close?
    || (event.SocketReceive? && FromServer(event.frame))
  }

  predicate ForTheServer(event: Event) {
    event.PingDue? || event.Close? || (event.SocketReceive? && FromClient(event.frame))
    || (event.ResponseComplete? && event.result.Ok? && event.result.value.Response?)
  }

  lemma ClientKeepsGenuine(s: Sys, event: Event, now: nat)
    requires Genuine(s) && ForTheClient(event)
    requires event.SocketReceive? && event.frame.GoAway? ==> !s.server.up
    ensures Genuine(ByClient(s, event, now))
  {
    hide Sweep, Settle, Insert;
  }

  lemma ServerKeepsGenuine(s: Sys, event: Event, now: nat)
    requires Genuine(s) && s.server.up && ForTheServer(event)
    ensures Genuine(ByServer(s, event, now))
  {
    hide Sweep, Settle, Issue;
  }

  ghost predicate GenuineTurn(t: Turn) {
    && Genuine(t.s)
    && (t.Turn? && t.role.Client? ==>
          ForTheClient(t.event) && (t.event.SocketReceive? && t.event.frame.GoAway? ==> !t.s.server.up))
    && (t.Turn? && t.role.Server? ==> t.s.server.up && ForTheServer(t.event))
  }

  lemma PlanIsGenuine(s: Sys, act: Act)
    requires Genuine(s)
    ensures GenuineTurn(Plan(s, act))
  {
    hide Genuine, GenuineTurn, ClientReceives, ServerFinishes;
    match act
    case Receive(Client, now) =>
      if s.client.up && s.s2c != [] { ClientReceiveIsGenuine(s, now); } else { IdleIsGenuine(s, Still(s)); }
    case Receive(Server, now) =>
      if s.server.up && s.c2s != [] { ServerReceiveIsGenuine(s, now); } else { IdleIsGenuine(s, Still(s)); }
    case Finish(Client, _, _) => NothingSpawned(s); IdleIsGenuine(s, Still(s));
    case TakeFinished(Client) => NothingSpawned(s); IdleIsGenuine(s, Still(s));
    case Finish(Server, i, answer) =>
      if s.server.up && i < |s.server.tasks| { FinishIsGenuine(s, i, answer); } else { IdleIsGenuine(s, Still(s)); }
    case TakeFinished(Server) =>
      if s.server.up && s.server.queue != [] { TakeIsGenuine(s); } else { IdleIsGenuine(s, Still(s)); }
    case _ => IdleIsGenuine(s, Plan(s, act));
  }

  /** A turn that takes nothing off a wire or a queue. */
  lemma IdleIsGenuine(s: Sys, t: Turn)
    requires Genuine(s) && (s.server.up || !t.s.server.up)
    requires t.s == s.(asked := t.s.asked, client := s.client.(up := t.s.client.up),
        server := s.server.(up := t.s.server.up))
    requires t.Turn? && t.role.Client?
        ==> t.event.PingDue? || t.event.IssueRequest? || t.event.IssuePush? || t.event.Close?
    requires t.Turn? && t.role.Server? ==> s.server.up && t.s.server.up && (t.event.PingDue? || t.event.Close?)
    ensures GenuineTurn(t)
  {
  }

  lemma NothingSpawned(s: Sys)
    requires Genuine(s)
    ensures s.client.tasks == [] && s.client.queue == []
  {
  }

  lemma ClientReceiveIsGenuine(s: Sys, now: nat)
    requires Genuine(s) && s.s2c != []
    ensures GenuineTurn(ClientReceives(s, now))
  {
  }

  lemma ServerReceiveIsGenuine(s: Sys, now: nat)
    requires Genuine(s) && s.server.up && s.c2s != []
    ensures GenuineTurn(Turn(s.(c2s := s.c2s[1..]), Server, SocketReceive(s.c2s[0]), now))
  {
  }

  lemma FinishIsGenuine(s: Sys, i: nat, answer: Payload)
    requires Genuine(s) && i < |s.server.tasks|
    ensures GenuineTurn(Still(ServerFinishes(s, i, answer)))
  {
  }

  lemma TakeIsGenuine(s: Sys)
    requires Genuine(s) && s.server.up && s.server.queue != []
    ensures GenuineTurn(Turn(s.(server := s.server.(queue := s.server.queue[1..])), Server, s.server.queue[0], 0))
  {
  }

  lemma StepKeepsGenuine(s: Sys, act: Act)
    requires Genuine(s)
    ensures Genuine(Step(s, act))
  {
    hide Plan, Genuine, ByClient, ByServer;
    PlanIsGenuine(s, act);
    match Plan(s, act)
    case Turn(s', Client, event, now) => ClientKeepsGenuine(s', event, now);
    case Turn(s', Server, event, now) => ServerKeepsGenuine(s', event, now);
    case Still(_) =>
  }

  // ---------- counting what is under way ----------

  function One(id: Option<u32>): multiset<u32> {
    if id.Some? then multiset{id.value} else multiset{}
  }

  /** The ids of those elements that have one. */
  function Ids<T>(w: seq<T>, id: T -> Option<u32>): multiset<u32> {
    if w == [] then multiset{} else One(id(w[0])) + Ids(w[1..], id)
  }

  lemma HeadIds<T>(w: seq<T>, id: T -> Option<u32>)
    requires w != []
    ensures Ids(w, id) == One(id(w[0])) + Ids(w[1..], id)
  {
  }

  lemma NoIds<T>(id: T -> Option<u32>)
    ensures Ids([], id) == multiset{} && One(None) == multiset{}
  {
  }

  lemma {:induction false} IdsConcat<T>(a: seq<T>, b: seq<T>, id: T -> Option<u32>)
    ensures Ids(a + b, id) == Ids(a, id) + Ids(b, id)
  {
    hide Ids, One;
    if a == [] {
      NoIds(id);
      assert a + b == b;
    } else {
      IdsConcat(a[1..], b, id);
      HeadIds(a, id);
      HeadIds(a + b, id);
      assert (a + b)[1..] == a[1..] + b && (a + b)[0] == a[0];
    }
  }

  lemma IdsSnoc<T>(a: seq<T>, x: T, id: T -> Option<u32>)
    ensures Ids(a + [x], id) == Ids(a, id) + One(id(x))
  {
    IdsConcat(a, [x], id);
    assert Ids([x], id) == One(id(x)) + Ids([], id);
  }

  lemma IdsWithout<T>(a: seq<T>, i: nat, id: T -> Option<u32>)
    requires i < |a|
    ensures Ids(a, id) == Ids(a[..i] + a[i + 1..], id) + One(id(a[i]))
  {
    hide Ids, One;
    var before, after := a[..i], a[i + 1..];
    IdsSnoc(before, a[i], id);
    IdsConcat(before + [a[i]], after, id);
    IdsConcat(before, after, id);
    assert a == before + [a[i]] + after;
    assert (Ids(before, id) + One(id(a[i]))) + Ids(after, id) == (Ids(before, id) + Ids(after, id)) + One(id(a[i]));
  }

  function PingId(f: LoquiFrame): Option<u32> { if f.Ping? then Some(f.sequenceId) else None }

  function PongId(f: LoquiFrame): Option<u32> { if f.Pong? then Some(f.sequenceId) else None }

  function RequestId(f: LoquiFrame): Option<u32> { if f.Request? then Some(f.sequenceId) else None }

  function ResponseId(f: LoquiFrame): Option<u32> { if f.Response? then Some(f.sequenceId) else None }

  function TaskId(t: Task): Option<u32> { if t.Serve? then Some(t.sequenceId) else None }

  function QueuedId(e: Event): Option<u32> {
    if e.ResponseComplete? && e.result.Ok? then ResponseId(e.result.value) else None
  }

  // ---------- the ping token ----------

  /** Where the right to ping is: at home, or under way as a ping going out or its pong coming back. */
  function Token(ep: Endpoint, outgoing: seq<LoquiFrame>, incoming: seq<LoquiFrame>): nat {
    (if ep.pongReceived then 1 else 0) + |Ids(outgoing, PingId)| + |Ids(incoming, PongId)|
  }

  /** Each side has exactly one. */
  ghost predicate OneToken(s: Sys) {
    Token(s.client.ep, s.c2s, s.s2c) == 1 && Token(s.server.ep, s.s2c, s.c2s) == 1
  }

  /** Appending at most one frame. */
  lemma SendIds(w: seq<LoquiFrame>, out: seq<LoquiFrame>, id: LoquiFrame -> Option<u32>)
    requires |out| <= 1
    ensures Ids(w + out, id) == Ids(w, id) + if out == [] then multiset{} else One(id(out[0]))
  {
    if out == [] { assert w + out == w; } else { IdsSnoc(w, out[0], id); assert out == [out[0]]; }
  }

  function Bit(b: bool): nat { if b then 1 else 0 }

  lemma ReactShape(side: Side, event: Event, now: nat)
    requires event.SocketReceive? ==> FromClient(event.frame) || FromServer(event.frame)
    requires event.ResponseComplete? ==> event.result.Ok? && event.result.value.Response?
    ensures var (after, out, _) := React(side, event, now);
            && |out| <= 1
            && after.ep.pongReceived
                == (!event.PingDue? && (side.ep.pongReceived || (event.SocketReceive? && event.frame.Pong?)))
            && (out != [] && out[0].Ping? <==> event.PingDue? && side.ep.pongReceived)
            && (out != [] && out[0].Pong? <==> event.SocketReceive? && event.frame.Ping?)
  {
    hide Sweep, Settle, Insert;
  }

  function Comes(event: Event): Option<LoquiFrame> {
    if event.SocketReceive? then Some(event.frame) else None
  }

  /** How one event moves the tokens: a ping spends its sender's, answering a ping passes the peer's on, a pong
      brings the receiver's home. */
  lemma ReactTokens(side: Side, event: Event, now: nat, outgoing: seq<LoquiFrame>, incoming: seq<LoquiFrame>,
      peer: Endpoint)
    requires event.SocketReceive? ==> FromClient(event.frame) || FromServer(event.frame)
    requires event.ResponseComplete? ==> event.result.Ok? && event.result.value.Response?
    ensures var (after, out, _) := React(side, event, now);
            var frame := Comes(event);
            && Token(after.ep, outgoing + out, incoming)
               == Token(side.ep, outgoing, incoming) + Bit(frame.Some? && frame.value.Pong? && !side.ep.pongReceived)
            && Token(peer, incoming, outgoing + out)
                == Token(peer, incoming, outgoing) + Bit(frame.Some? && frame.value.Ping?)
  {
    hide React, Ids;
    ReactShape(side, event, now);
    var (_, out, _) := React(side, event, now);
    SendIds(outgoing, out, PingId);
    SendIds(outgoing, out, PongId);
  }

  lemma TakeTokens(ep: Endpoint, w: seq<LoquiFrame>, other: seq<LoquiFrame>)
    requires w != []
    ensures Token(ep, other, w) == Token(ep, other, w[1..]) + Bit(w[0].Pong?)
    ensures Token(ep, w, other) == Token(ep, w[1..], other) + Bit(w[0].Ping?)
  {
  }

  /** While a frame is being dealt with, the token it carries is in hand. */
  ghost predicate TokenTurn(t: Turn) {
    var frame := if t.Turn? then Comes(t.event) else None;
    var pong, ping := frame.Some? && frame.value.Pong?, frame.Some? && frame.value.Ping?;
    if t.Still? || t.role.Client? then
      && Token(t.s.client.ep, t.s.c2s, t.s.s2c) + Bit(pong) == 1
          && Token(t.s.server.ep, t.s.s2c, t.s.c2s) + Bit(ping) == 1
    else
      && Token(t.s.client.ep, t.s.c2s, t.s.s2c) + Bit(ping) == 1
          && Token(t.s.server.ep, t.s.s2c, t.s.c2s) + Bit(pong) == 1
  }

  lemma PlanKeepsToken(s: Sys, act: Act)
    requires Genuine(s) && OneToken(s)
    ensures TokenTurn(Plan(s, act))
  {
    hide Genuine, OneToken, TokenTurn, ClientReceives, ServerFinishes;
    match act
    case Receive(Client, now) =>
      if s.client.up && s.s2c != [] { ReceiveKeepsToken(s, now); } else { IdleKeepsToken(s, Still(s)); }
    case Receive(Server, now) =>
      if s.server.up && s.c2s != [] { ReceiveKeepsToken(s, now); } else { IdleKeepsToken(s, Still(s)); }
    case Finish(Client, _, _) => NothingSpawned(s); IdleKeepsToken(s, Still(s));
    case TakeFinished(Client) => NothingSpawned(s); IdleKeepsToken(s, Still(s));
    case Finish(Server, i, answer) =>
      if s.server.up && i < |s.server.tasks| { FinishKeepsToken(s, i, answer); } else { IdleKeepsToken(s, Still(s)); }
    case TakeFinished(Server) =>
      if s.server.up && s.server.queue != [] {
        TakeKeepsToken(s);
      } else { IdleKeepsToken(s, Still(s)); }
    case _ => IdleKeepsToken(s, Plan(s, act));
  }

  lemma IdleKeepsToken(s: Sys, t: Turn)
    requires OneToken(s)
    requires t.s == s.(asked := t.s.asked, client := s.client.(up := t.s.client.up),
        server := s.server.(up := t.s.server.up))
    requires t.Turn? ==> t.event.PingDue? || t.event.IssueRequest? || t.event.IssuePush? || t.event.Close?
    ensures TokenTurn(t)
  {
    hide Token;
  }

  lemma FinishKeepsToken(s: Sys, i: nat, answer: Payload)
    requires OneToken(s) && i < |s.server.tasks|
    ensures TokenTurn(Still(ServerFinishes(s, i, answer)))
  {
    hide Token;
  }

  lemma TakeKeepsToken(s: Sys)
    requires Genuine(s) && OneToken(s) && s.server.queue != []
    ensures TokenTurn(Turn(s.(server := s.server.(queue := s.server.queue[1..])), Server, s.server.queue[0], 0))
  {
    hide Token;
  }

  lemma ReceiveKeepsToken(s: Sys, now: nat)
    requires OneToken(s)
    ensures s.s2c != [] ==> TokenTurn(ClientReceives(s, now))
    ensures s.c2s != [] ==> TokenTurn(Turn(s.(c2s := s.c2s[1..]), Server, SocketReceive(s.c2s[0]), now))
  {
    hide Token;
    if s.s2c != [] {
      TakeTokens(s.client.ep, s.s2c, s.c2s);
      TakeTokens(s.server.ep, s.s2c, s.c2s);
    }
    if s.c2s != [] {
      TakeTokens(s.client.ep, s.c2s, s.s2c);
      TakeTokens(s.server.ep, s.c2s, s.s2c);
    }
  }

  lemma HomeIsOne(ep: Endpoint, outgoing: seq<LoquiFrame>, incoming: seq<LoquiFrame>)
    ensures ep.pongReceived ==> Token(ep, outgoing, incoming) >= 1
  {
  }

  lemma StepKeepsToken(s: Sys, act: Act)
    requires Genuine(s) && OneToken(s)
    ensures OneToken(Step(s, act))
  {
    hide Plan, Genuine, React, Token;
    PlanIsGenuine(s, act);
    PlanKeepsToken(s, act);
    match Plan(s, act)
    case Turn(s', Client, event, now) =>
      HomeIsOne(s'.client.ep, s'.c2s, s'.s2c);
      ReactTokens(s'.client, event, now, s'.c2s, s'.s2c, s'.server.ep);
    case Turn(s', Server, event, now) =>
      HomeIsOne(s'.server.ep, s'.s2c, s'.c2s);
      ReactTokens(s'.server, event, now, s'.s2c, s'.c2s, s'.client.ep);
    case Still(_) =>
  }

  // ---------- every request is in exactly one place ----------

  /** The id of the d-th draw: the sequence starts at 1 and wraps around at 2^32. */
  function IdOf(d: nat): u32 {
    (d + 1) % U32_COUNT
  }

  lemma IdOfNext(d: nat)
    ensures Successor(IdOf(d)) == IdOf(d + 1)
  {
  }

  /** The ids of the requests that were put on the wire. */
  function SentIds(draws: seq<Draw>): multiset<u32> {
    if draws == [] then multiset{}
    else
      var n := |draws| - 1;
      SentIds(draws[..n]) + if draws[n].ForRequest? && draws[n].sent then multiset{IdOf(n)} else multiset{}
  }

  /** The ids of the requests on their way, being served, served, and of the responses on their way back. */
  function UnderWay(s: Sys): multiset<u32> {
    Ids(s.c2s, RequestId) + Ids(s.server.tasks, TaskId) + Ids(s.server.queue, QueuedId) + Ids(s.s2c, ResponseId)
  }

  /** Requests sent = requests under way + responses taken in, id by id, however ids wrap. */
  ghost predicate Conserved(s: Sys) {
    && s.client.ep.nextId == IdOf(|s.draws|)
    && UnderWay(s) + s.replied == SentIds(s.draws)
  }

  /** What a server turn holds in hand. */
  function InHand(t: Turn): multiset<u32> {
    if t.Still? || t.role.Client? then multiset{}
    else if t.event.SocketReceive? then One(RequestId(t.event.frame))
    else One(QueuedId(t.event))
  }

  ghost predicate ConservedTurn(t: Turn) {
    && t.s.client.ep.nextId == IdOf(|t.s.draws|)
    && UnderWay(t.s) + InHand(t) + t.s.replied == SentIds(t.s.draws)
  }

  lemma ClientReceiveConserves(s: Sys, now: nat)
    requires Conserved(s) && s.s2c != []
    ensures ConservedTurn(ClientReceives(s, now))
  {
    hide Ids, SentIds, IdOf, One;
    HeadIds(s.s2c, ResponseId);
    Regroup(Ids(s.c2s, RequestId) + Ids(s.server.tasks, TaskId) + Ids(s.server.queue, QueuedId),
            One(ResponseId(s.s2c[0])), Ids(s.s2c[1..], ResponseId), s.replied);
  }

  lemma Regroup(a: multiset<u32>, x: multiset<u32>, b: multiset<u32>, r: multiset<u32>)
    ensures a + (x + b) + r == a + b + multiset{} + (r + x)
  {
  }

  lemma ServerReceiveConserves(s: Sys, now: nat)
    requires Conserved(s) && s.c2s != []
    ensures ConservedTurn(Turn(s.(c2s := s.c2s[1..]), Server, SocketReceive(s.c2s[0]), now))
  {
    hide Ids, SentIds, IdOf, One;
    HeadIds(s.c2s, RequestId);
  }

  lemma ServerTakeConserves(s: Sys)
    requires Genuine(s) && Conserved(s) && s.server.queue != []
    ensures ConservedTurn(Turn(s.(server := s.server.(queue := s.server.queue[1..])), Server, s.server.queue[0], 0))
  {
    hide Ids, SentIds, IdOf, One;
    HeadIds(s.server.queue, QueuedId);
  }

  /** A turn that takes nothing off a wire or a queue holds nothing. */
  lemma IdleConserves(s: Sys, t: Turn)
    requires Conserved(s)
    requires t.s == s.(asked := t.s.asked, client := s.client.(up := t.s.client.up),
        server := s.server.(up := t.s.server.up))
    requires t.Turn? ==> t.event.PingDue? || t.event.IssueRequest? || t.event.IssuePush? || t.event.Close?
    ensures ConservedTurn(t)
  {
    hide Ids, SentIds, IdOf;
  }

  lemma PlanConserves(s: Sys, act: Act)
    requires Genuine(s) && Conserved(s)
    ensures ConservedTurn(Plan(s, act))
  {
    hide Genuine, Conserved, ConservedTurn, ClientReceives, ServerFinishes;
    match act
    case Receive(Client, now) =>
      if s.client.up && s.s2c != [] { ClientReceiveConserves(s, now); } else { IdleConserves(s, Still(s)); }
    case Receive(Server, now) =>
      if s.server.up && s.c2s != [] { ServerReceiveConserves(s, now); } else { IdleConserves(s, Still(s)); }
    case Finish(Client, _, _) => NothingSpawned(s); IdleConserves(s, Still(s));
    case TakeFinished(Client) => NothingSpawned(s); IdleConserves(s, Still(s));
    case Finish(Server, i, answer) =>
      if s.server.up && i < |s.server.tasks| { FinishConserves(s, i, answer); } else { IdleConserves(s, Still(s)); }
    case TakeFinished(Server) =>
      if s.server.up && s.server.queue != [] { ServerTakeConserves(s); } else { IdleConserves(s, Still(s)); }
    case _ => IdleConserves(s, Plan(s, act));
  }

  lemma FinishConserves(s: Sys, i: nat, answer: Payload)
    requires Genuine(s) && Conserved(s) && i < |s.server.tasks|
    ensures ConservedTurn(Still(ServerFinishes(s, i, answer)))
  {
    hide Ids, SentIds, IdOf, One;
    assert s.server.tasks[i].Serve? by { assert Genuine(s); }
    IdsWithout(s.server.tasks, i, TaskId);
    IdsSnoc(s.server.queue, Result(s.server.tasks[i], answer), QueuedId);
  }

  /** What a client's turn puts on the wire, and the draw that goes with it. */
  lemma ClientSends(side: Side, event: Event, now: nat)
    requires side.ep.role.Client? && ForTheClient(event)
    ensures var (after, out, _) := React(side, event, now);
            var draws := DrawsBy(side.ep, event, now);
            && |out| <= 1 && |draws| <= 1
            && (out != [] && out[0].Request? <==> event.IssueRequest? && event.waiter.deadline > now)
            && (out != [] && out[0].Request? ==> out[0] == Request(0, side.ep.nextId, event.payload))
            && (draws != [] && draws[0].ForRequest? && draws[0].sent
                <==> event.IssueRequest? && event.waiter.deadline > now)
            && after.ep.nextId == (if draws == [] then side.ep.nextId else Successor(side.ep.nextId))
  {
    hide Sweep, Settle, Insert;
  }

  lemma SentSnoc(draws: seq<Draw>, more: seq<Draw>)
    requires |more| <= 1
    ensures SentIds(draws + more) ==
            SentIds(draws) + if more != [] && more[0].ForRequest? && more[0].sent then multiset{IdOf(|draws|)}
                else multiset{}
  {
    if more == [] { assert draws + more == draws; } else { assert (draws + more)[..|draws|] == draws; }
  }

  lemma ClientConserves(s: Sys, event: Event, now: nat)
    requires Genuine(s) && ForTheClient(event) && ConservedTurn(Turn(s, Client, event, now))
    ensures Conserved(ByClient(s, event, now))
  {
    hide React, DrawsBy, Ids, SentIds, IdOf, Genuine;
    assert s.client.ep.role.Client? by { GenuineRoles(s); }
    ClientSends(s.client, event, now);
    var (_, out, _) := React(s.client, event, now);
    var draws := DrawsBy(s.client.ep, event, now);
    SendIds(s.c2s, out, RequestId);
    SentSnoc(s.draws, draws);
    IdOfNext(|s.draws|);
  }

  lemma GenuineRoles(s: Sys)
    requires Genuine(s)
    ensures s.client.ep.role.Client? && s.server.ep.role.Server?
  {
  }

  lemma ServerSends(side: Side, event: Event, now: nat)
    requires side.ep.role.Server? && ForTheServer(event)
    ensures var (after, out, _) := React(side, event, now);
            && |out| <= 1
            && (if out == [] then None else ResponseId(out[0])) == QueuedId(event)
            && after.queue == side.queue
            && after.tasks == if event.SocketReceive? && event.frame.Request?
                              then side.tasks + [Serve(event.frame.sequenceId, event.frame.payload)] else side.tasks
  {
    hide Sweep, Settle, Issue;
  }

  lemma ServerConserves(s: Sys, event: Event, now: nat)
    requires Genuine(s) && ForTheServer(event) && ConservedTurn(Turn(s, Server, event, now))
    ensures Conserved(ByServer(s, event, now))
  {
    hide React, Ids, One, SentIds, IdOf, Genuine;
    GenuineRoles(s);
    ServerSends(s.server, event, now);
    var (after, out, _) := React(s.server, event, now);
    SendIds(s.s2c, out, ResponseId);
    NoIds(QueuedId);
    if event.SocketReceive? && event.frame.Request? {
      IdsSnoc(s.server.tasks, Serve(event.frame.sequenceId, event.frame.payload), TaskId);
    } else {
      assert after.tasks == s.server.tasks;
    }
  }

  lemma StepConserves(s: Sys, act: Act)
    requires Genuine(s) && Conserved(s)
    ensures Conserved(Step(s, act))
  {
    hide Plan, Genuine, ByClient, ByServer, UnderWay, SentIds;
    PlanIsGenuine(s, act);
    PlanConserves(s, act);
    match Plan(s, act)
    case Turn(s', Client, event, now) => ClientConserves(s', event, now);
    case Turn(s', Server, event, now) => ServerConserves(s', event, now);
    case Still(_) =>
  }

  // ---------- no waiter is lost ----------

  /** The ledger of the client's waiters, with the request in hand not yet taken on. */
  ghost predicate LedgerTurn(t: Turn) {
    if t.Turn? && t.role.Client? && t.event.IssueRequest? then
      && t.s.asked != [] && t.event.waiter.tag == |t.s.asked| - 1 && Ledger(t.s.client.ep, |t.s.asked| - 1)
    else Ledger(t.s.client.ep, |t.s.asked|)
  }

  lemma PlanKeepsLedger(s: Sys, act: Act)
    requires Ledger(s.client.ep, |s.asked|)
    requires s.client.queue == []
    ensures LedgerTurn(Plan(s, act)) && Plan(s, act).s.client.ep == s.client.ep
  {
    hide Ledger;
  }

  lemma StepKeepsLedger(s: Sys, act: Act)
    requires Genuine(s) && Ledger(s.client.ep, |s.asked|)
    ensures Ledger(Step(s, act).client.ep, |Step(s, act).asked|)
        && Kept(s.client.ep.fates, Step(s, act).client.ep.fates)
  {
    hide Plan, Ledger, Handle;
    PlanIsGenuine(s, act);
    PlanKeepsLedger(s, act);
    match Plan(s, act)
    case Turn(s', Client, event, now) =>
      LedgerStep(s'.client.ep, if event.IssueRequest? then |s'.asked| - 1 else |s'.asked|, event, now);
    case _ =>
  }

  // ---------- while ids are fresh, each names one draw ----------

  /** The draw an id came from, while no more than 2^32 ids were drawn. */
  function DrawOf(id: u32): nat {
    (id + U32_COUNT - 1) % U32_COUNT
  }

  lemma DrawOfId(d: nat)
    requires d < U32_COUNT
    ensures DrawOf(IdOf(d)) == d
  {
  }

  lemma IdOfDraw(id: u32)
    ensures IdOf(DrawOf(id)) == id
  {
  }

  /** While ids are fresh, an id was sent at most once, and then for the draw it names. */
  lemma {:induction false} SentOnce(draws: seq<Draw>, id: u32)
    requires |draws| <= U32_COUNT
    ensures var d := DrawOf(id);
            SentIds(draws)[id] == if d < |draws| && draws[d].ForRequest? && draws[d].sent then 1 else 0
  {
    if draws != [] {
      var n := |draws| - 1;
      SentOnce(draws[..n], id);
      DrawOfId(n);
      assert IdOf(n) == id <==> DrawOf(id) == n by { IdOfDraw(id); }
    }
  }

  // ---------- an answer is the answer to its waiter's own request ----------

  /** No two requests or responses under way carry the same id. */
  ghost predicate Single(ids: multiset<u32>) {
    forall id :: ids[id] <= 1
  }

  /** The id is out for a request with this payload, which the server's handler has not answered yet. */
  predicate IsOpen(s: Sys, id: u32, payload: Payload) {
    id in s.owner && s.owner[id] < |s.asked| && s.asked[s.owner[id]] == payload && s.owner[id] !in s.served
  }

  /** The handler gave this answer to the request the id is out for. */
  predicate IsServed(s: Sys, id: u32, answer: Payload) {
    id in s.owner && s.owner[id] in s.served && s.served[s.owner[id]].1 == answer
  }

  /** The waiter stored under the id belongs to the request the id is out for. */
  predicate Owns(s: Sys, id: u32, tag: nat) {
    id in s.owner && s.owner[id] == tag
  }

  predicate RightAnswer(s: Sys, tag: nat, fate: Fate) {
    fate.Answered? ==> tag < |s.asked| && tag in s.served && s.served[tag] == (s.asked[tag], fate.payload)
  }

  /** Of the first `n` requests no two hold the same id, and what the handler was asked for each is what its caller
      sent. */
  ghost predicate Owned(s: Sys, n: nat) {
    && n <= |s.asked|
    && (forall id :: id in s.owner ==> s.owner[id] < n)
    && (forall id, id' :: id in s.owner && id' in s.owner && s.owner[id] == s.owner[id'] ==> id == id')
    && (forall tag :: tag in s.served ==> tag < n && s.served[tag].0 == s.asked[tag])
  }

  ghost predicate OnTheirWay(s: Sys) {
    && (forall i :: 0 <= i < |s.c2s| && s.c2s[i].Request? ==> IsOpen(s, s.c2s[i].sequenceId, s.c2s[i].payload))
    && (forall i :: 0 <= i < |s.server.tasks| && s.server.tasks[i].Serve? ==>
          IsOpen(s, s.server.tasks[i].sequenceId, s.server.tasks[i].payload))
    && (forall i :: 0 <= i < |s.server.queue| && QueuedId(s.server.queue[i]).Some? ==>
          IsServed(s, s.server.queue[i].result.value.sequenceId, s.server.queue[i].result.value.payload))
    && (forall i :: 0 <= i < |s.s2c| && s.s2c[i].Response? ==> IsServed(s, s.s2c[i].sequenceId, s.s2c[i].payload))
  }

  ghost predicate WellHeld(s: Sys) {
    && (forall id :: id in s.client.ep.waiters ==> Owns(s, id, s.client.ep.waiters[id].tag))
    && (forall t :: t in s.client.ep.fates ==>
          !s.client.ep.fates[t].Overwritten? && RightAnswer(s, t, s.client.ep.fates[t]))
  }

  ghost predicate Linked(s: Sys) {
    Owned(s, |s.asked|) && OnTheirWay(s) && WellHeld(s)
  }

  ghost predicate Traced(s: Sys) {
    Linked(s) && Single(UnderWay(s))
  }

  // What a turn holds in hand is as well traced as what lies on the wires.
  ghost predicate LinkedTurn(t: Turn) {
    var s := t.s;
    && OnTheirWay(s) && WellHeld(s)
    && Owned(s, |s.asked| - if t.Turn? && t.event.IssueRequest? && s.asked != [] then 1 else 0)
    && (t.Turn? ==>
          match t.event
          case IssueRequest(payload, waiter) =>
            s.asked != [] && waiter.tag == |s.asked| - 1 && s.asked[waiter.tag] == payload
          case SocketReceive(frame) =>
            (frame.Request? ==> IsOpen(s, frame.sequenceId, frame.payload))
                && (frame.Response? ==> IsServed(s, frame.sequenceId, frame.payload))
          case ResponseComplete(_) =>
            QueuedId(t.event).Some? ==> IsServed(s, t.event.result.value.sequenceId, t.event.result.value.payload)
          case _ => true)
  }

  ghost predicate TracedTurn(t: Turn) {
    LinkedTurn(t) && Single(UnderWay(t.s) + InHand(t))
  }

  /** Only requests were made: no id changed hands and nothing was answered. */
  ghost predicate Grew(s: Sys, s': Sys) {
    s'.owner == s.owner && s'.served == s.served && s.asked <= s'.asked
  }

  lemma GrewKeeps(s: Sys, s': Sys)
    requires Grew(s, s')
    ensures forall id, payload :: IsOpen(s, id, payload) ==> IsOpen(s', id, payload)
    ensures forall id, answer :: IsServed(s, id, answer) ==> IsServed(s', id, answer)
    ensures forall id, tag :: Owns(s, id, tag) ==> Owns(s', id, tag)
    ensures forall t, f :: RightAnswer(s, t, f) ==> RightAnswer(s', t, f)
    ensures forall n :: Owned(s, n) ==> Owned(s', n)
  {
  }

  lemma OwnedMore(s: Sys, n: nat, m: nat)
    requires Owned(s, n) && n <= m <= |s.asked|
    ensures Owned(s, m)
  {
  }

  lemma MemberId<T>(w: seq<T>, i: nat, id: T -> Option<u32>, x: u32)
    requires i < |w| && id(w[i]) == Some(x)
    ensures Ids(w, id)[x] >= 1
  {
    IdsWithout(w, i, id);
  }

  lemma TwoMembers<T>(w: seq<T>, i: nat, j: nat, id: T -> Option<u32>, x: u32)
    requires i < |w| && j < |w| && i != j && id(w[i]) == Some(x) && id(w[j]) == Some(x)
    ensures Ids(w, id)[x] >= 2
  {
    hide Ids;
    IdsWithout(w, i, id);
    var rest := w[..i] + w[i + 1..];
    MemberId(rest, if j < i then j else j - 1, id, x);
  }

  /** Nothing else on its way to an answer carries the id of a task. */
  lemma OtherIds(s: Sys, i: nat)
    requires Single(UnderWay(s)) && i < |s.server.tasks| && s.server.tasks[i].Serve?
    ensures forall k :: 0 <= k < |s.c2s| && s.c2s[k].Request? ==> s.c2s[k].sequenceId != s.server.tasks[i].sequenceId
    ensures forall k :: 0 <= k < |s.server.tasks| && k != i && s.server.tasks[k].Serve? ==>
              s.server.tasks[k].sequenceId != s.server.tasks[i].sequenceId
  {
    hide Ids;
    var id := s.server.tasks[i].sequenceId;
    MemberId(s.server.tasks, i, TaskId, id);
    assert UnderWay(s)[id] <= 1;
    forall k | 0 <= k < |s.c2s| && s.c2s[k].Request? ensures s.c2s[k].sequenceId != id {
      if s.c2s[k].sequenceId == id { MemberId(s.c2s, k, RequestId, id); }
    }
    forall k | 0 <= k < |s.server.tasks| && k != i && s.server.tasks[k].Serve?
        ensures s.server.tasks[k].sequenceId != id {
      if s.server.tasks[k].sequenceId == id { TwoMembers(s.server.tasks, i, k, TaskId, id); }
    }
  }

  lemma FinishIsLinked(s: Sys, i: nat, answer: Payload)
    requires Traced(s) && i < |s.server.tasks| && s.server.tasks[i].Serve?
    ensures LinkedTurn(Still(ServerFinishes(s, i, answer)))
  {
    hide UnderWay;
    OtherIds(s, i);
    var task := s.server.tasks[i];
    assert IsOpen(s, task.sequenceId, task.payload);
    FinishKeeps(s, i, answer);
  }

  lemma FinishKeeps(s: Sys, i: nat, answer: Payload)
    requires i < |s.server.tasks| && s.server.tasks[i].Serve? && Owned(s, |s.asked|)
    requires IsOpen(s, s.server.tasks[i].sequenceId, s.server.tasks[i].payload)
    ensures var s', task := ServerFinishes(s, i, answer), s.server.tasks[i];
            && Owned(s', |s'.asked|) && IsServed(s', task.sequenceId, answer)
            && (forall id, payload :: IsOpen(s, id, payload) && id != task.sequenceId ==> IsOpen(s', id, payload))
            && (forall id, a :: IsServed(s, id, a) ==> IsServed(s', id, a))
            && (forall id, tag :: Owns(s, id, tag) ==> Owns(s', id, tag))
            && (forall t, f :: RightAnswer(s, t, f) ==> RightAnswer(s', t, f))
  {
  }

  lemma PlanIsLinked(s: Sys, act: Act)
    requires Genuine(s) && Traced(s)
    ensures LinkedTurn(Plan(s, act))
  {
    hide Genuine, ServerFinishes, ClientReceives, Single, Linked, LinkedTurn, UnderWay;
    match act
    case Receive(Client, now) =>
      if s.client.up && s.s2c != [] { ReceiveIsLinked(s, now); } else { QuietTurn(s, Still(s)); }
    case Receive(Server, now) =>
      if s.server.up && s.c2s != [] { ServerReceiveIsLinked(s, now); } else { QuietTurn(s, Still(s)); }
    case Finish(Client, _, _) => NothingSpawned(s); QuietTurn(s, Still(s));
    case TakeFinished(Client) => NothingSpawned(s); QuietTurn(s, Still(s));
    case Finish(Server, i, answer) =>
      if s.server.up && i < |s.server.tasks| {
        OnlyRequests(s);
        FinishIsLinked(s, i, answer);
      } else {
        QuietTurn(s, Still(s));
      }
    case TakeFinished(Server) =>
      if s.server.up && s.server.queue != [] { TakeIsLinked(s); } else { QuietTurn(s, Still(s)); }
    case ClientRequest(payload, deadline, now) =>
      if s.client.up { RequestIsLinked(s, payload, deadline, now); } else { QuietTurn(s, Still(s)); }
    case _ => QuietTurn(s, Plan(s, act));
  }

  lemma OnlyRequests(s: Sys)
    requires Genuine(s)
    ensures forall i :: 0 <= i < |s.server.tasks| ==> s.server.tasks[i].Serve?
    ensures forall i :: 0 <= i < |s.server.queue| ==> s.server.queue[i].ResponseComplete?
  {
  }

  /** A turn that moves nothing and has nothing in hand. */
  lemma QuietTurn(s: Sys, t: Turn)
    requires Linked(s) && (t.Turn? ==> t.event.PingDue? || t.event.IssuePush? || t.event.Close?)
    requires t.s == s.(client := s.client.(up := t.s.client.up), server := s.server.(up := t.s.server.up))
    ensures LinkedTurn(t)
  {
    hide IsOpen, IsServed, Owns, RightAnswer, Owned;
    GrewKeeps(s, t.s);
  }

  lemma ServerReceiveIsLinked(s: Sys, now: nat)
    requires Linked(s) && s.c2s != [] && Genuine(s)
    ensures LinkedTurn(Turn(s.(c2s := s.c2s[1..]), Server, SocketReceive(s.c2s[0]), now))
  {
    hide IsOpen, IsServed, Owns, RightAnswer, Owned;
    assert FromClient(s.c2s[0]);
    GrewKeeps(s, s.(c2s := s.c2s[1..]));
  }

  lemma ReceiveIsLinked(s: Sys, now: nat)
    requires Linked(s) && s.s2c != [] && Genuine(s)
    ensures LinkedTurn(ClientReceives(s, now))
  {
    hide IsOpen, IsServed, Owns, RightAnswer, Owned;
    assert FromServer(s.s2c[0]);
    GrewKeeps(s, ClientReceives(s, now).s);
  }

  lemma TakeIsLinked(s: Sys)
    requires Linked(s) && s.server.queue != [] && Genuine(s)
    ensures LinkedTurn(Turn(s.(server := s.server.(queue := s.server.queue[1..])), Server, s.server.queue[0], 0))
  {
    hide IsOpen, IsServed, Owns, RightAnswer, Owned;
    OnlyRequests(s);
    GrewKeeps(s, s.(server := s.server.(queue := s.server.queue[1..])));
  }

  lemma RequestIsLinked(s: Sys, payload: Payload, deadline: nat, now: nat)
    requires Linked(s)
    ensures LinkedTurn(Turn(s.(asked := s.asked + [payload]), Client,
        IssueRequest(payload, Waiter(|s.asked|, deadline)), now))
  {
    hide IsOpen, IsServed, Owns, RightAnswer, Owned;
    GrewKeeps(s, s.(asked := s.asked + [payload]));
  }

  /** Taking a frame in hand keeps it single. */
  lemma PlanIsSingle(s: Sys, act: Act)
    requires Conserved(s) && Single(UnderWay(s)) && ConservedTurn(Plan(s, act))
    ensures Single(UnderWay(Plan(s, act).s) + InHand(Plan(s, act)))
  {
    hide UnderWay, InHand, SentIds;
    DrawsGrow(s, act);
    RepliedGrows(s, act);
    var t := Plan(s, act);
    assert UnderWay(t.s) + InHand(t) + t.s.replied == UnderWay(s) + s.replied;
    forall id ensures (UnderWay(t.s) + InHand(t))[id] <= 1 {
      assert (UnderWay(t.s) + InHand(t) + t.s.replied)[id] == (UnderWay(s) + s.replied)[id];
      assert t.s.replied[id] >= s.replied[id];
    }
  }

  lemma RepliedGrows(s: Sys, act: Act)
    ensures s.replied <= Plan(s, act).s.replied
  {
  }

  // ---------- the client's turn ----------

  /** A request is only sent under an id that nothing under way carries and no waiter holds. */
  ghost predicate FreshIssue(s: Sys, event: Event, now: nat) {
    event.IssueRequest? && event.waiter.deadline > now ==>
      s.client.ep.nextId !in UnderWay(s) && s.client.ep.nextId !in s.client.ep.waiters
  }

  /** What became of the client's waiters. */
  lemma ClientHolds(s: Sys, event: Event, now: nat)
    requires s.client.ep.role.Client? && ForTheClient(event)
    ensures ByClient(s, event, now).client.ep == Handle(s.client.ep, event, now).next
  {
    hide Sweep, Settle, Insert;
  }

  lemma ClientStaysSingle(s: Sys, event: Event, now: nat)
    requires Genuine(s) && ForTheClient(event) && FreshIssue(s, event, now) && Single(UnderWay(s))
    requires ConservedTurn(Turn(s, Client, event, now)) && Conserved(ByClient(s, event, now))
    ensures Single(UnderWay(ByClient(s, event, now)))
  {
    hide React, DrawsBy, UnderWay, SentIds, Genuine;
    GenuineRoles(s);
    ClientSends(s.client, event, now);
    SentSnoc(s.draws, DrawsBy(s.client.ep, event, now));
    var s' := ByClient(s, event, now);
    assert ConservedTurn(Turn(s, Client, event, now));
    forall id ensures UnderWay(s')[id] <= 1 {
      assert (UnderWay(s') + s'.replied)[id] == SentIds(s'.draws)[id];
      assert (UnderWay(s) + s.replied)[id] == SentIds(s.draws)[id];
    }
  }

  /** Everything but a request being sent leaves ids and answers as they are. */
  lemma ClientKeepsLinked(s: Sys, event: Event, now: nat)
    requires Genuine(s) && ForTheClient(event) && LinkedTurn(Turn(s, Client, event, now))
    requires !(event.IssueRequest? && event.waiter.deadline > now)
    ensures Linked(ByClient(s, event, now))
  {
    hide React, HandleFrame, Issue, Genuine, IsOpen, IsServed, Owns, RightAnswer, Owned;
    GenuineRoles(s);
    ClientSends(s.client, event, now);
    ClientHolds(s, event, now);
    var s', e := ByClient(s, event, now), s.client.ep;
    GrewKeeps(s, s');
    OwnedMore(s', |s.asked| - if event.IssueRequest? && s.asked != [] then 1 else 0, |s.asked|);
    SweptIsRight(s');
    match event
    case SocketReceive(frame) => FrameHoldsWell(s, s', frame, now);
    case IssueRequest(payload, waiter) => LateHoldsWell(e, payload, waiter, now);
    case _ => OtherEvents(e, event, now);
  }

  lemma OtherEvents(e: Endpoint, event: Event, now: nat)
    requires !event.SocketReceive? && !event.IssueRequest?
    ensures Handle(e, event, now).next.waiters == e.waiters && Handle(e, event, now).next.fates == e.fates
  {
  }

  lemma LateHoldsWell(e: Endpoint, payload: Payload, waiter: Waiter, now: nat)
    requires waiter.deadline <= now
    ensures var e' := Issue(e, payload, waiter, now).0;
            e'.waiters == e.waiters && e'.fates == e.fates[waiter.tag := Late]
  {
  }

  lemma SettledRight(s: Sys, id: u32, payload: Payload)
    requires Owned(s, |s.asked|) && WellHeld(s) && IsServed(s, id, payload) && id in s.client.ep.waiters
    ensures RightAnswer(s, s.client.ep.waiters[id].tag, Answered(payload))
  {
    assert Owns(s, id, s.client.ep.waiters[id].tag);
  }

  lemma FrameHoldsWell(s: Sys, s': Sys, frame: LoquiFrame, now: nat)
    requires WellHeld(s) && Grew(s, s') && FromServer(frame) && s.client.ep.role.Client? && Owned(s, |s.asked|)
    requires frame.Response? ==> IsServed(s, frame.sequenceId, frame.payload)
    requires s'.client.ep == HandleFrame(s.client.ep, frame, now).next
    ensures WellHeld(s')
  {
    hide IsServed, IsOpen, Owns, RightAnswer, Owned;
    GrewKeeps(s, s');
    if frame.Response? && frame.sequenceId in s.client.ep.waiters { SettledRight(s, frame.sequenceId, frame.payload); }
    SweptIsRight(s');
  }

  lemma SweptIsRight(s: Sys)
    ensures forall t :: RightAnswer(s, t, Swept) && RightAnswer(s, t, Late)
  {
  }

  /** A request sent under a fresh id takes the id over from a request that is done with it. */
  lemma SendKeepsLinked(s: Sys, event: Event, now: nat)
    requires Genuine(s) && LinkedTurn(Turn(s, Client, event, now)) && FreshIssue(s, event, now)
    requires event.IssueRequest? && event.waiter.deadline > now
    ensures Linked(ByClient(s, event, now))
  {
    hide React, Issue, Genuine, UnderWay, IsOpen, IsServed, Owns, RightAnswer, Owned;
    GenuineRoles(s);
    ClientSends(s.client, event, now);
    ClientHolds(s, event, now);
    IssueFresh(s.client.ep, event.payload, event.waiter, now);
    NoneUnder(s, s.client.ep.nextId);
    TakeOver(s, ByClient(s, event, now), s.client.ep.nextId, event.waiter.tag);
    OthersKeep(s, ByClient(s, event, now), s.client.ep.nextId, event.waiter.tag);
  }

  lemma IssueFresh(e: Endpoint, payload: Payload, waiter: Waiter, now: nat)
    requires waiter.deadline > now && e.nextId !in e.waiters
    ensures var e' := Issue(e, payload, waiter, now).0;
            e'.waiters == e.waiters[e.nextId := waiter] && e'.fates == e.fates
  {
  }

  /** An id that is not under way is on no wire and in no task or queue. */
  lemma NoneUnder(s: Sys, id: u32)
    requires id !in UnderWay(s)
    ensures forall i :: 0 <= i < |s.c2s| && s.c2s[i].Request? ==> s.c2s[i].sequenceId != id
    ensures forall i :: 0 <= i < |s.server.tasks| && s.server.tasks[i].Serve? ==> s.server.tasks[i].sequenceId != id
    ensures forall i :: 0 <= i < |s.server.queue| && QueuedId(s.server.queue[i]).Some? ==>
              QueuedId(s.server.queue[i]) != Some(id)
    ensures forall i :: 0 <= i < |s.s2c| && s.s2c[i].Response? ==> s.s2c[i].sequenceId != id
  {
    hide Ids;
    assert UnderWay(s)[id] == 0;
    forall i | 0 <= i < |s.c2s| && s.c2s[i].Request? ensures s.c2s[i].sequenceId != id {
      if s.c2s[i].sequenceId == id { MemberId(s.c2s, i, RequestId, id); }
    }
    forall i | 0 <= i < |s.server.tasks| && s.server.tasks[i].Serve? ensures s.server.tasks[i].sequenceId != id {
      if s.server.tasks[i].sequenceId == id { MemberId(s.server.tasks, i, TaskId, id); }
    }
    forall i | 0 <= i < |s.server.queue| && QueuedId(s.server.queue[i]).Some?
        ensures QueuedId(s.server.queue[i]) != Some(id) {
      if QueuedId(s.server.queue[i]) == Some(id) { MemberId(s.server.queue, i, QueuedId, id); }
    }
    forall i | 0 <= i < |s.s2c| && s.s2c[i].Response? ensures s.s2c[i].sequenceId != id {
      if s.s2c[i].sequenceId == id { MemberId(s.s2c, i, ResponseId, id); }
    }
  }

  lemma TakeOver(s: Sys, s': Sys, id: u32, tag: nat)
    requires s.asked != [] && tag == |s.asked| - 1 && Owned(s, tag)
    requires s'.owner == s.owner[id := tag] && s'.served == s.served && s'.asked == s.asked
    ensures Owned(s', |s.asked|) && IsOpen(s', id, s.asked[tag]) && Owns(s', id, tag)
  {
  }

  lemma OthersKeep(s: Sys, s': Sys, id: u32, tag: nat)
    requires s'.owner == s.owner[id := tag] && s'.served == s.served && s'.asked == s.asked
    ensures forall k, payload :: IsOpen(s, k, payload) && k != id ==> IsOpen(s', k, payload)
    ensures forall k, answer :: IsServed(s, k, answer) && k != id ==> IsServed(s', k, answer)
    ensures forall k, t :: Owns(s, k, t) && k != id ==> Owns(s', k, t)
    ensures forall t, f :: RightAnswer(s, t, f) ==> RightAnswer(s', t, f)
  {
  }

  lemma ClientIsTraced(s: Sys, event: Event, now: nat)
    requires Genuine(s) && ForTheClient(event) && TracedTurn(Turn(s, Client, event, now)) && FreshIssue(s, event, now)
    requires ConservedTurn(Turn(s, Client, event, now)) && Conserved(ByClient(s, event, now))
    ensures Traced(ByClient(s, event, now))
  {
    hide Genuine, Linked, LinkedTurn, UnderWay, Conserved, ConservedTurn, ByClient;
    assert UnderWay(s) + InHand(Turn(s, Client, event, now)) == UnderWay(s);
    if event.IssueRequest? && event.waiter.deadline > now {
      SendKeepsLinked(s, event, now);
    } else {
      ClientKeepsLinked(s, event, now);
    }
    ClientStaysSingle(s, event, now);
  }

  lemma ServerIsTraced(s: Sys, event: Event, now: nat)
    requires Genuine(s) && ForTheServer(event) && TracedTurn(Turn(s, Server, event, now))
    requires ConservedTurn(Turn(s, Server, event, now)) && Conserved(ByServer(s, event, now))
    ensures Traced(ByServer(s, event, now))
  {
    hide Genuine, LinkedTurn, Linked, UnderWay, InHand, SentIds;
    ServerKeepsLinked(s, event, now);
    var s' := ByServer(s, event, now);
    var t := Turn(s, Server, event, now);
    forall id ensures UnderWay(s')[id] <= 1 {
      assert (UnderWay(s') + s'.replied)[id] == (UnderWay(s) + InHand(t) + s.replied)[id];
      assert (UnderWay(s) + InHand(t))[id] <= 1;
    }
  }

  lemma ServerKeepsLinked(s: Sys, event: Event, now: nat)
    requires Genuine(s) && ForTheServer(event) && LinkedTurn(Turn(s, Server, event, now))
    ensures Linked(ByServer(s, event, now))
  {
    hide Genuine, React, IsOpen, IsServed, Owns, RightAnswer, Owned;
    GenuineRoles(s);
    ServerSends(s.server, event, now);
    ServerAnswers(s.server, event, now);
    GrewKeeps(s, ByServer(s, event, now));
  }

  lemma ServerAnswers(side: Side, event: Event, now: nat)
    requires side.ep.role.Server? && ForTheServer(event)
    ensures var (_, out, _) := React(side, event, now);
            out != [] && out[0].Response? ==> event.ResponseComplete? && out[0] == event.result.value
  {
  }

  /** The act is not a request sent under an id still in use. */
  ghost predicate FreshStep(s: Sys, act: Act) {
    var t := Plan(s, act);
    t.Turn? && t.role.Client? ==> FreshIssue(t.s, t.event, t.now)
  }

  lemma StepIsTraced(s: Sys, act: Act)
    requires Genuine(s) && Conserved(s) && Traced(s) && FreshStep(s, act)
    ensures Traced(Step(s, act))
  {
    hide Plan, Genuine, Traced, Linked, LinkedTurn, Single, UnderWay, ByClient, ByServer, Conserved, ConservedTurn,
        FreshIssue;
    PlanIsGenuine(s, act);
    PlanConserves(s, act);
    PlanIsLinked(s, act);
    assert Single(UnderWay(s)) by { SingleOf(s); }
    PlanIsSingle(s, act);
    match Plan(s, act)
    case Turn(s', Client, event, now) =>
      ClientConserves(s', event, now);
      ClientIsTraced(s', event, now);
    case Turn(s', Server, event, now) =>
      ServerConserves(s', event, now);
      ServerIsTraced(s', event, now);
    case Still(s') => StillTraced(s');
  }

  lemma SingleOf(s: Sys)
    requires Traced(s)
    ensures Single(UnderWay(s))
  {
  }

  lemma StillTraced(s: Sys)
    requires TracedTurn(Still(s))
    ensures Traced(s)
  {
    hide UnderWay;
    assert UnderWay(s) + InHand(Still(s)) == UnderWay(s);
  }

  lemma DrawsGrow(s: Sys, act: Act)
    ensures Plan(s, act).s.draws == s.draws && s.draws <= Step(s, act).draws
  {
    hide React;
  }

  // ---------- an open waiter's request or its response is under way ----------

  /** No response was taken in for a waiter still in the map, and its request was sent. */
  ghost predicate Awaited(s: Sys) {
    forall id :: id in s.client.ep.waiters ==> id !in s.replied && id in SentIds(s.draws)
  }

  /** A response in hand is the only one its waiter gets. */
  ghost predicate AwaitedTurn(t: Turn) {
    forall id :: id in t.s.client.ep.waiters ==>
      id in SentIds(t.s.draws)
      && (id !in t.s.replied || (t.Turn? && t.role.Client? && t.event.SocketReceive? && t.event.frame.Response?
          && t.event.frame.sequenceId == id))
  }

  lemma PlanIsAwaited(s: Sys, act: Act)
    requires Genuine(s) && Awaited(s)
    ensures AwaitedTurn(Plan(s, act))
  {
    hide SentIds;
  }

  lemma ClientKeepsAwaited(s: Sys, event: Event, now: nat)
    requires Genuine(s) && ForTheClient(event) && ConservedTurn(Turn(s, Client, event, now))
        && AwaitedTurn(Turn(s, Client, event, now))
    requires |ByClient(s, event, now).draws| <= U32_COUNT
    ensures Awaited(ByClient(s, event, now))
  {
    hide React, HandleFrame, Issue, Genuine, SentIds, UnderWay, IdOf;
    GenuineRoles(s);
    ClientHolds(s, event, now);
    var s' := ByClient(s, event, now);
    SentSnoc(s.draws, DrawsBy(s.client.ep, event, now));
    match event
    case SocketReceive(frame) => FrameWaiters(s.client.ep, frame, now);
    case IssueRequest(payload, waiter) =>
      IssueWaiters(s.client.ep, payload, waiter, now);
      SentOnce(s.draws, s.client.ep.nextId);
      DrawOfId(|s.draws|);
      assert s.client.ep.nextId !in SentIds(s.draws);
      assert s.replied <= SentIds(s.draws);
    case _ => OtherEvents(s.client.ep, event, now);
  }

  lemma FrameWaiters(e: Endpoint, frame: LoquiFrame, now: nat)
    requires e.role.Client?
    ensures HandleFrame(e, frame, now).next.waiters.Keys <= e.waiters.Keys
    ensures frame.Response? ==> frame.sequenceId !in HandleFrame(e, frame, now).next.waiters
  {
  }

  lemma IssueWaiters(e: Endpoint, payload: Payload, waiter: Waiter, now: nat)
    ensures var e' := Issue(e, payload, waiter, now).0;
            e'.waiters.Keys == e.waiters.Keys + if waiter.deadline > now then {e.nextId} else {}
  {
  }

  lemma StepIsAwaited(s: Sys, act: Act)
    requires Genuine(s) && Conserved(s) && Awaited(s) && |Step(s, act).draws| <= U32_COUNT
    ensures Awaited(Step(s, act))
  {
    hide Plan, Genuine, React, Conserved, ConservedTurn, SentIds;
    PlanIsGenuine(s, act);
    PlanConserves(s, act);
    PlanIsAwaited(s, act);
    match Plan(s, act)
    case Turn(s', Client, event, now) => ClientKeepsAwaited(s', event, now);
    case _ =>
  }

  // ---------- every run ----------

  lemma InitHolds()
    ensures var s := Init();
            Genuine(s) && OneToken(s) && Conserved(s) && Ledger(s.client.ep, 0) && Traced(s) && Awaited(s)
  {
    assert Tags(map[]) == {};
    assert Below(0) == {};
  }

  /** Throughout the run no request is sent under an id still in use. */
  ghost predicate FreshRun(acts: seq<Act>) {
    acts == [] || (FreshRun(acts[..|acts| - 1]) && FreshStep(Exec(acts[..|acts| - 1]), acts[|acts| - 1]))
  }

  lemma {:induction false} EveryRun(acts: seq<Act>)
    ensures var s := Exec(acts);
            && Genuine(s) && OneToken(s) && Conserved(s) && Ledger(s.client.ep, |s.asked|)
            && (|s.draws| <= U32_COUNT ==> Awaited(s)) && (FreshRun(acts) ==> Traced(s))
  {
    hide Step, Genuine, OneToken, Conserved, Ledger, Traced, Awaited, FreshStep;
    if acts == [] {
      InitHolds();
      assert |Init().asked| == 0;
    } else {
      var before, act := Exec(acts[..|acts| - 1]), acts[|acts| - 1];
      EveryRun(acts[..|acts| - 1]);
      StepKeepsGenuine(before, act);
      StepKeepsToken(before, act);
      StepConserves(before, act);
      StepKeepsLedger(before, act);
      DrawsGrow(before, act);
      if |Exec(acts).draws| <= U32_COUNT { StepIsAwaited(before, act); }
      if FreshRun(acts) { StepIsTraced(before, act); }
    }
  }

  /** Genuine peers raise no protocol error: in every run the only errors are a ping timeout, a requested close, and, at
      the client, being told to go away by a server that has closed, for one of these two reasons. */
  lemma OnlyExpectedErrors(acts: seq<Act>)
    ensures var s := Exec(acts); forall i :: 0 <= i < |s.errors| ==> Expected(s, s.errors[i].0, s.errors[i].1)
    ensures Exec(acts).client.tasks == []
  {
    hide Exec;
    EveryRun(acts);
  }

  /** A side's ping comes due in error exactly while its last ping, or the pong to it, is still on a wire; and never
      more than one of them is. */
  lemma TimeoutMeansUnanswered(acts: seq<Act>, now: nat)
    ensures var s := Exec(acts);
            && (Handle(s.client.ep, PingDue, now).reply == R.Err(PingTimeout) <==>
                |Ids(s.c2s, PingId)| + |Ids(s.s2c, PongId)| == 1)
            && (Handle(s.server.ep, PingDue, now).reply == R.Err(PingTimeout) <==>
                |Ids(s.s2c, PingId)| + |Ids(s.c2s, PongId)| == 1)
            && |Ids(s.c2s, PingId)| + |Ids(s.s2c, PongId)| <= 1 && |Ids(s.s2c, PingId)| + |Ids(s.c2s, PongId)| <= 1
  {
    hide Exec, Ids;
    EveryRun(acts);
  }

  /** In runs of any length in which no request is sent under an id still in use: every payload a waiter was given is
      what the server's handler answered to the payload of that waiter's own request, and no waiter was overwritten. */
  lemma AnswersAreRight(acts: seq<Act>, tag: nat)
    requires FreshRun(acts) && tag in Exec(acts).client.ep.fates
    ensures var s := Exec(acts); var fate := s.client.ep.fates[tag];
            && !fate.Overwritten? && tag < |s.asked|
            && (fate.Answered? ==> tag in s.served && s.served[tag] == (s.asked[tag], fate.payload))
  {
    hide Exec, FreshRun, Owned, OnTheirWay, UnderWay, Single;
    EveryRun(acts);
    LedgerBounds(Exec(acts).client.ep, |Exec(acts).asked|, tag);
  }

  /** In such runs the handler is asked for each request at most once: a task's request has no answer yet. */
  lemma ServedOnce(acts: seq<Act>, i: nat)
    requires FreshRun(acts) && i < |Exec(acts).server.tasks|
    ensures var s := Exec(acts); var task := s.server.tasks[i]; task.Serve? && IsOpen(s, task.sequenceId, task.payload)
  {
    hide Exec, FreshRun, Owned, WellHeld, UnderWay, Single, IsOpen;
    EveryRun(acts);
    OnlyRequests(Exec(acts));
  }

  /** Every run in which the client has drawn no more than 2^32 ids is such a run. */
  lemma {:induction false} FewDrawsAreFresh(acts: seq<Act>)
    requires |Exec(acts).draws| <= U32_COUNT
    ensures FreshRun(acts)
  {
    hide Step, FreshStep;
    if acts != [] {
      var before, act := Exec(acts[..|acts| - 1]), acts[|acts| - 1];
      DrawsGrow(before, act);
      FewDrawsAreFresh(acts[..|acts| - 1]);
      EveryRun(acts[..|acts| - 1]);
      StepIsFresh(before, act);
    }
  }

  lemma StepIsFresh(s: Sys, act: Act)
    requires Genuine(s) && Conserved(s) && Awaited(s) && |Step(s, act).draws| <= U32_COUNT
    ensures FreshStep(s, act)
  {
    hide Genuine, Conserved, Awaited, UnderWay, SentIds, IdOf, Handle;
    match act
    case ClientRequest(payload, deadline, now) =>
      if s.client.up && deadline > now {
        assert |s.draws| < U32_COUNT;
        NextIsUnused(s);
        SameUnderWay(s, Plan(s, act).s);
      }
    case _ => NoIssue(s, act);
  }

  lemma NextIsUnused(s: Sys)
    requires Conserved(s) && Awaited(s) && |s.draws| < U32_COUNT
    ensures s.client.ep.nextId !in UnderWay(s) && s.client.ep.nextId !in s.client.ep.waiters
  {
    hide UnderWay, SentIds;
    var id := s.client.ep.nextId;
    SentOnce(s.draws, id);
    DrawOfId(|s.draws|);
    assert SentIds(s.draws)[id] == 0;
    assert (UnderWay(s) + s.replied)[id] == 0;
  }

  lemma SameUnderWay(s: Sys, s': Sys)
    requires s'.c2s == s.c2s && s'.s2c == s.s2c && s'.server == s.server
    ensures UnderWay(s') == UnderWay(s)
  {
  }

  lemma NoIssue(s: Sys, act: Act)
    requires Genuine(s) && !act.ClientRequest?
    ensures FreshStep(s, act)
  {
    hide UnderWay;
  }

  lemma LedgerBounds(e: Endpoint, handled: nat, tag: nat)
    requires Ledger(e, handled) && tag in e.fates
    ensures tag < handled
  {
    InBelow(handled, tag);
    assert tag in Tags(e.waiters) + e.fates.Keys;
  }

  /** In every run each request made is in exactly one state, still waiting or with its one fate, and a fate is never
      revised later. */
  lemma NoWaiterIsLost(acts: seq<Act>, act: Act)
    ensures var s := Exec(acts); |s.client.ep.waiters| + |s.client.ep.fates| == |s.asked|
    ensures Kept(Exec(acts).client.ep.fates, Exec(acts + [act]).client.ep.fates)
  {
    hide Genuine, Step, Kept;
    EveryRun(acts);
    Conservation(Exec(acts).client.ep, |Exec(acts).asked|);
    StepKeepsLedger(Exec(acts), act);
    assert (acts + [act])[..|acts|] == acts;
  }

  /** In every run the requests sent are, id by id, those on their way, being served or on their way back, and those
      answered; so while ids are fresh the request of an open waiter, or its response, is in exactly one of these
      places. */
  lemma NoRequestIsLost(acts: seq<Act>)
    ensures var s := Exec(acts); UnderWay(s) + s.replied == SentIds(s.draws)
    ensures var s := Exec(acts);
            |s.draws| <= U32_COUNT ==> forall id :: id in s.client.ep.waiters ==> UnderWay(s)[id] == 1
  {
    hide Exec, UnderWay, SentIds, Ledger, Traced, Genuine;
    EveryRun(acts);
    var s := Exec(acts);
    if |s.draws| <= U32_COUNT {
      forall id | id in s.client.ep.waiters ensures UnderWay(s)[id] == 1 {
        SentOnce(s.draws, id);
        assert SentIds(s.draws)[id] == UnderWay(s)[id] + s.replied[id];
      }
    }
  }
}
