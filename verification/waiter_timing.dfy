/**
 The client's waiters over runs without end, where the 32-bit ids wrap around: no id is ever drawn that a waiter still
 holds, because pings sweep expired waiters out in time.
 */
module WaiterTiming {
  import opened Bytes
  import opened Connection
  import opened ConnectionRuns

  /** The client's end with a clock: when each id was drawn, which draw each waiter's id is, when the last ping came. */
  datatype Timed = Timed(ep: Endpoint, drawTimes: seq<nat>, drawnAt: map<u32, nat>, lastPing: nat, now: nat)

  function Start(): Timed {
    Timed(Fresh(Client), [], map[], 0, 0)
  }

  predicate Draws(e: Endpoint, event: Event) {
    event.IssueRequest? || (event.PingDue? && e.pongReceived)
  }

  function Next(s: Timed, m: Moment): Timed {
    Timed(Handle(s.ep, m.event, m.now).next,
          if Draws(s.ep, m.event) then s.drawTimes + [m.now] else s.drawTimes,
          if m.event.IssueRequest? && m.event.waiter.deadline > m.now then s.drawnAt[s.ep.nextId := |s.drawTimes|]
              else s.drawnAt,
          if m.event.SocketReceive? && m.event.frame.Ping? then m.now else s.lastPing,
          m.now)
  }

  /** Time goes forward, no moment is more than `gap` after the last ping, a request has at most `timeout` left when it
      is taken on, and from a draw less than 2^32 draws ago more than `timeout + gap` has not passed: that is, no window
      of that length sees 2^32 further draws. */
  ghost predicate Timely(s: Timed, m: Moment, timeout: nat, gap: nat) {
    && s.now <= m.now <= s.lastPing + gap
    && (m.event.IssueRequest? ==> m.event.waiter.deadline <= m.now + timeout)
    && (Draws(s.ep, m.event) ==>
          forall i :: 0 <= i < |s.drawTimes| && m.now - s.drawTimes[i] <= timeout + gap
              ==> |s.drawTimes| - i < U32_COUNT)
  }

  /** Every waiter in the map was drawn recently: had it expired before the last ping, that ping would have swept it. */
  ghost predicate Recent(s: Timed, timeout: nat) {
    && s.ep.role.Client? && s.ep.nextId == IdOf(|s.drawTimes|)
    && (forall i :: 0 <= i < |s.drawTimes| ==> s.drawTimes[i] <= s.now)
    && s.lastPing <= s.now
    && (forall id :: id in s.ep.waiters ==> Held(s, id, timeout))
  }

  ghost predicate Held(s: Timed, id: u32, timeout: nat)
    requires id in s.ep.waiters
  {
    && id in s.drawnAt && s.drawnAt[id] < |s.drawTimes| && IdOf(s.drawnAt[id]) == id
    && var drawn := s.drawTimes[s.drawnAt[id]];
    s.ep.waiters[id].deadline <= drawn + timeout && (s.ep.waiters[id].deadline > s.lastPing || drawn >= s.lastPing)
  }

  lemma WrapsAround(k: nat, n: nat)
    requires k < n && IdOf(k) == IdOf(n)
    ensures n - k >= U32_COUNT
  {
  }

  /** The id about to be drawn is free. */
  lemma DrawnIdIsFree(s: Timed, m: Moment, timeout: nat, gap: nat)
    requires Recent(s, timeout) && Timely(s, m, timeout, gap) && Draws(s.ep, m.event)
    ensures s.ep.nextId !in s.ep.waiters
  {
    var id := s.ep.nextId;
    if id in s.ep.waiters {
      assert Held(s, id, timeout);
      var k := s.drawnAt[id];
      assert m.now - s.drawTimes[k] <= timeout + gap;
      WrapsAround(k, |s.drawTimes|);
    }
  }

  lemma NextIsRecent(s: Timed, m: Moment, timeout: nat, gap: nat)
    requires Recent(s, timeout) && Timely(s, m, timeout, gap)
    ensures Recent(Next(s, m), timeout)
  {
    hide IdOf;
    IdOfNext(|s.drawTimes|);
    if Draws(s.ep, m.event) { DrawnIdIsFree(s, m, timeout, gap); }
    var t := Next(s, m);
    NextShape(s, m);
    forall id | id in t.ep.waiters ensures Held(t, id, timeout) {
      if id in s.ep.waiters && t.ep.waiters[id] == s.ep.waiters[id] {
        assert Held(s, id, timeout);
      }
    }
  }

  /** How an event changes the waiters: it only takes some out, a ping exactly the expired ones, or puts the new one
      in. */
  lemma NextShape(s: Timed, m: Moment)
    requires s.ep.role.Client?
    ensures var e' := Handle(s.ep, m.event, m.now).next;
            && e'.role.Client?
            && e'.nextId == (if Draws(s.ep, m.event) then Successor(s.ep.nextId) else s.ep.nextId)
            && (forall id :: id in e'.waiters ==>
                  if m.event.IssueRequest? && m.event.waiter.deadline > m.now && id == s.ep.nextId
                      then e'.waiters[id] == m.event.waiter
                  else id in s.ep.waiters && e'.waiters[id] == s.ep.waiters[id])
            && (m.event.SocketReceive? && m.event.frame.Ping? ==>
                  forall id :: id in e'.waiters ==> e'.waiters[id].deadline > m.now)
  {
  }

  /** Fates an event adds: an overwritten waiter needs its id drawn again. */
  lemma NoOverwrite(s: Timed, m: Moment)
    requires s.ep.role.Client? && (m.event.IssueRequest? ==> s.ep.nextId !in s.ep.waiters)
    requires forall t :: t in s.ep.fates ==> !s.ep.fates[t].Overwritten?
    ensures var e' := Handle(s.ep, m.event, m.now).next; forall t :: t in e'.fates ==> !e'.fates[t].Overwritten?
  {
  }

  /** A run of moments, each timely when it comes and each request bringing the next tag. */
  ghost predicate TimelyRun(ms: seq<Moment>, timeout: nat, gap: nat) {
    ms == [] ||
    (var n := |ms| - 1;
     && TimelyRun(ms[..n], timeout, gap) && Timely(After(ms[..n]), ms[n], timeout, gap)
     && (ms[n].event.IssueRequest? ==> ms[n].event.waiter.tag == Requests(ms[..n])))
  }

  function After(ms: seq<Moment>): Timed {
    if ms == [] then Start() else Next(After(ms[..|ms| - 1]), ms[|ms| - 1])
  }

  function Requests(ms: seq<Moment>): nat {
    if ms == [] then 0 else Requests(ms[..|ms| - 1]) + HandledBy(ms[|ms| - 1].event)
  }

  /** Over timely runs of any length, whatever the peer sends: every id drawn for a request is free, no waiter is ever
      overwritten, and requests taken on = waiters held + waiters answered, failed, late or swept. */
  lemma {:induction false} NeverOverwritten(ms: seq<Moment>, timeout: nat, gap: nat)
    requires TimelyRun(ms, timeout, gap)
    ensures var s := After(ms);
            && Recent(s, timeout) && Ledger(s.ep, Requests(ms))
            && (forall t :: t in s.ep.fates ==> !s.ep.fates[t].Overwritten?)
            && |s.ep.waiters| + |s.ep.fates| == Requests(ms)
  {
    hide Ledger, Timely, Recent, Handle, Draws;
    if ms == [] {
      StartIsRecent(timeout);
      Conservation(Start().ep, 0);
    } else {
      var n := |ms| - 1;
      var s, m := After(ms[..n]), ms[n];
      NeverOverwritten(ms[..n], timeout, gap);
      RecentRole(s, timeout);
      RequestDraws(s.ep, m.event);
      if Draws(s.ep, m.event) { DrawnIdIsFree(s, m, timeout, gap); }
      NextIsRecent(s, m, timeout, gap);
      LedgerStep(s.ep, Requests(ms[..n]), m.event, m.now);
      NoOverwrite(s, m);
      Conservation(After(ms).ep, Requests(ms));
    }
  }

  lemma StartIsRecent(timeout: nat)
    ensures Recent(Start(), timeout) && Ledger(Start().ep, 0)
  {
    assert Tags(map[]) == {} && Below(0) == {};
  }

  lemma RecentRole(s: Timed, timeout: nat)
    requires Recent(s, timeout)
    ensures s.ep.role.Client?
  {
  }

  lemma RequestDraws(e: Endpoint, event: Event)
    ensures event.IssueRequest? ==> Draws(e, event)
  {
  }
}
