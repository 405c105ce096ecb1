/**
 What a server's last word tells: in every run of the two ends, which GoAway is on the wire or was told to the client,
 and what happened for it to be there. The codes are the numbers of the wire.
 */
module Goodbyes {
  import opened Bytes
  import opened Connection
  import opened ConnectionRuns
  import opened LoquiErrors
  import opened Settings
  import opened R = RustCodec

  /** This frame is on its way to the client, or the client was told to go away with it. */
  predicate Heard(s: Sys, frame: LoquiFrame) {
    frame in s.s2c || (Client, ToldToGoAway(frame)) in s.errors
  }

  /** The server's ping comes due while its last one, or the pong to it, is still on a wire. */
  predicate TimesOut(s: Sys, act: Act) {
    act.Timer? && act.role.Server? && s.server.up && |Ids(s.s2c, PingId)| + |Ids(s.c2s, PongId)| == 1
  }

  predicate IsAsked(s: Sys, act: Act) {
    act == AskClose(Server) && s.server.up
  }

  /** A side fails at most once and is down from then on; a GoAway is the last frame on the wire and says one of two
      things, which are never both said. */
  ghost predicate LastWord(s: Sys) {
    && (forall i :: 0 <= i < |s.errors| ==> !Of(s, s.errors[i].0).up)
    && (forall i, j :: 0 <= i < j < |s.errors| ==> s.errors[i].0 != s.errors[j].0)
    && (forall i :: 0 <= i < |s.s2c| - 1 ==> !s.s2c[i].GoAway?)
    && (forall f: LoquiFrame :: f.GoAway? && Heard(s, f) ==>
          !s.server.up && (f == GoAway(0, 6, []) || f == GoAway(0, 0, [])))
    && !(Heard(s, GoAway(0, 6, [])) && Heard(s, GoAway(0, 0, [])))
    && (Heard(s, GoAway(0, 6, [])) <==> (Server, PingTimeout) in s.errors)
    && (Heard(s, GoAway(0, 0, [])) <==> (Server, ConnectionCloseRequested) in s.errors)
  }

  /** What a server does with an event a genuine client gives it. */
  lemma ServerTurn(s: Sys, event: Event, now: nat)
    requires s.server.ep.role.Server? && ForTheServer(event)
    ensures var s' := ByServer(s, event, now);
            s'.client == s.client && s'.server.up == (s.server.up && s'.errors == s.errors)
    ensures var s' := ByServer(s, event, now);
            if event.PingDue? && !s.server.ep.pongReceived then
              s'.s2c == s.s2c + [GoAway(0, 6, [])] && s'.errors == s.errors + [(Server, PingTimeout)]
            else if event.Close? then
              s'.s2c == s.s2c + [GoAway(0, 0, [])] && s'.errors == s.errors + [(Server, ConnectionCloseRequested)]
            else
              s'.errors == s.errors
              && (s'.s2c == s.s2c || exists f: LoquiFrame :: !f.GoAway? && s'.s2c == s.s2c + [f])
  {
    hide Sweep, Settle, Issue;
    var s', out := ByServer(s, event, now), React(s.server, event, now).1;
    if out == [] { assert s'.s2c == s.s2c; } else { assert s'.s2c == s.s2c + [out[0]]; }
    if s'.errors != s.errors { assert |s'.errors| > |s.errors|; }
  }

  /** And a client. */
  lemma ClientTurn(s: Sys, event: Event, now: nat)
    requires s.client.ep.role.Client? && ForTheClient(event)
    ensures var s' := ByClient(s, event, now); s'.server == s.server && s'.s2c == s.s2c
    ensures var s' := ByClient(s, event, now);
            if event.SocketReceive? && event.frame.GoAway? then
              !s'.client.up && s'.errors == s.errors + [(Client, ToldToGoAway(event.frame))]
            else
              s'.client.up == (s.client.up && s'.errors == s.errors)
              && (s'.errors == s.errors
                  || exists e: LoquiError :: !e.ToldToGoAway? && s'.errors == s.errors + [(Client, e)])
  {
    hide Sweep, Settle, Issue;
    var s', e := ByClient(s, event, now), React(s.client, event, now).2;
    if e.Some? { assert s'.errors == s.errors + [(Client, e.value)]; } else { assert s'.errors == s.errors; }
  }

  /** What a step may do to the last word: nothing, or say it for the first time. */
  ghost predicate Speaks(s: Sys, s': Sys, timeout: bool, asked: bool) {
    && LastWord(s')
    && (Heard(s', GoAway(0, 6, [])) <==> Heard(s, GoAway(0, 6, [])) || timeout)
    && (Heard(s', GoAway(0, 0, [])) <==> Heard(s, GoAway(0, 0, [])) || asked)
  }

  lemma StillSpeaks(s: Sys, s': Sys)
    requires LastWord(s) && s'.s2c == s.s2c && s'.errors == s.errors
    requires (s'.server.up ==> s.server.up) && (s'.client.up ==> s.client.up)
    ensures Speaks(s, s', false, false)
  {
  }

  lemma ClientFails(s: Sys, s': Sys, e: LoquiError)
    requires LastWord(s) && s.client.up && s'.s2c == s.s2c && s'.errors == s.errors + [(Client, e)]
    requires !s'.client.up && s'.server == s.server && !e.ToldToGoAway?
    ensures Speaks(s, s', false, false)
  {
    assert forall x :: x in s'.errors <==> x in s.errors || x == (Client, e);
  }

  /** The client takes a frame off the wire. */
  lemma ClientHears(s: Sys, s': Sys)
    requires LastWord(s) && s.client.up && s.s2c != [] && s'.s2c == s.s2c[1..] && s'.server.up == s.server.up
    requires if s.s2c[0].GoAway? then !s'.client.up && s'.errors == s.errors + [(Client, ToldToGoAway(s.s2c[0]))]
             else s'.client.up == s.client.up && s'.errors == s.errors
    ensures Speaks(s, s', false, false)
  {
    assert forall f :: f in s.s2c <==> f == s.s2c[0] || f in s'.s2c;
    if s.s2c[0].GoAway? {
      assert |s.s2c| == 1;
      assert forall x :: x in s'.errors <==> x in s.errors || x == (Client, ToldToGoAway(s.s2c[0]));
    }
  }

  lemma ServerFails(s: Sys, s': Sys, code: u16, e: LoquiError)
    requires LastWord(s) && s.server.up && !s'.server.up && s'.client == s.client
    requires s'.s2c == s.s2c + [GoAway(0, code, [])] && s'.errors == s.errors + [(Server, e)]
    requires (code == 6 && e == PingTimeout) || (code == 0 && e == ConnectionCloseRequested)
    ensures Speaks(s, s', code == 6, code == 0)
  {
    assert forall f :: f in s'.s2c <==> f in s.s2c || f == GoAway(0, code, []);
    assert forall x :: x in s'.errors <==> x in s.errors || x == (Server, e);
    assert forall i :: 0 <= i < |s.s2c| && s.s2c[i].GoAway? ==> Heard(s, s.s2c[i]);
    assert forall f: LoquiFrame :: f.GoAway? ==> !Heard(s, f);
  }

  lemma ServerSays(s: Sys, s': Sys, f: LoquiFrame)
    requires LastWord(s) && s.server.up && s'.server.up && s'.client == s.client
    requires s'.s2c == s.s2c + [f] && s'.errors == s.errors && !f.GoAway?
    ensures Speaks(s, s', false, false)
  {
    assert forall g :: g in s'.s2c <==> g in s.s2c || g == f;
    assert forall i :: 0 <= i < |s.s2c| && s.s2c[i].GoAway? ==> Heard(s, s.s2c[i]);
  }

  /** The client's turns leave everything as it was but for the frame they take off the wire. */
  lemma ClientPlan(s: Sys, act: Act)
    requires Genuine(s) && Plan(s, act).Turn? && Plan(s, act).role.Client?
    ensures var Turn(t, _, event, _) := Plan(s, act);
            && s.client.up && t.client.up && t.client.ep == s.client.ep && t.client.ep.role.Client?
            && t.server == s.server && t.errors == s.errors
            && (if event.SocketReceive? then s.s2c != [] && event.frame == s.s2c[0] && t.s2c == s.s2c[1..]
                else t.s2c == s.s2c)
    ensures !TimesOut(s, act) && !IsAsked(s, act)
  {
    hide Ids;
  }

  lemma ServerPlan(s: Sys, act: Act)
    requires Genuine(s) && Plan(s, act).Turn? && Plan(s, act).role.Server?
    ensures var Turn(t, _, event, _) := Plan(s, act);
            && s.server.up && t.server.up && t.server.ep == s.server.ep && t.server.ep.role.Server?
            && t.client == s.client && t.errors == s.errors && t.s2c == s.s2c
            && (event.PingDue? <==> act.Timer? && act.role.Server?) && (event.Close? <==> act == AskClose(Server))
  {
  }

  lemma StillPlan(s: Sys, act: Act)
    requires Plan(s, act).Still?
    ensures var t := Plan(s, act).s;
            && t.s2c == s.s2c && t.errors == s.errors
            && (t.server.up ==> s.server.up) && (t.client.up ==> s.client.up)
    ensures !TimesOut(s, act) && !IsAsked(s, act)
  {
    hide Ids;
  }

  lemma ClientSteps(s: Sys, act: Act)
    requires Genuine(s) && LastWord(s) && Plan(s, act).Turn? && Plan(s, act).role.Client?
    ensures Speaks(s, Step(s, act), TimesOut(s, act), IsAsked(s, act))
  {
    hide Plan, Genuine, LastWord, Speaks, ByClient, TimesOut, IsAsked;
    PlanIsGenuine(s, act);
    ClientPlan(s, act);
    var Turn(t, _, event, now) := Plan(s, act);
    var s' := ByClient(t, event, now);
    ClientTurn(t, event, now);
    if event.SocketReceive? {
      if !event.frame.GoAway? { FrameCannotFail(t, event.frame, now); }
      ClientHears(s, s');
    } else if s'.errors == s.errors {
      StillSpeaks(s, s');
    } else {
      var e: LoquiError :| !e.ToldToGoAway? && s'.errors == t.errors + [(Client, e)];
      assert |s'.errors| > |t.errors|;
      ClientFails(s, s', e);
    }
  }

  /** A genuine server's frame other than a GoAway. */
  lemma FrameCannotFail(s: Sys, frame: LoquiFrame, now: nat)
    requires FromServer(frame) && !frame.GoAway?
    ensures ByClient(s, SocketReceive(frame), now).errors == s.errors
  {
    hide Sweep, Settle;
  }

  lemma ServerSteps(s: Sys, act: Act)
    requires Genuine(s) && OneToken(s) && LastWord(s) && Plan(s, act).Turn? && Plan(s, act).role.Server?
    ensures Speaks(s, Step(s, act), TimesOut(s, act), IsAsked(s, act))
  {
    hide Plan, Genuine, LastWord, Speaks, ByServer, Ids;
    PlanIsGenuine(s, act);
    ServerPlan(s, act);
    var Turn(t, _, event, now) := Plan(s, act);
    var s' := ByServer(t, event, now);
    ServerTurn(t, event, now);
    if event.PingDue? && !s.server.ep.pongReceived {
      assert |s'.errors| > |t.errors|;
      ServerFails(s, s', 6, PingTimeout);
    } else if event.Close? {
      assert |s'.errors| > |t.errors|;
      ServerFails(s, s', 0, ConnectionCloseRequested);
    } else if s'.s2c == s.s2c {
      StillSpeaks(s, s');
    } else {
      var f: LoquiFrame :| !f.GoAway? && s'.s2c == t.s2c + [f];
      ServerSays(s, s', f);
    }
  }

  lemma StepSpeaks(s: Sys, act: Act)
    requires Genuine(s) && OneToken(s) && LastWord(s)
    ensures Speaks(s, Step(s, act), TimesOut(s, act), IsAsked(s, act))
  {
    hide Plan, Genuine, OneToken, LastWord, Speaks, TimesOut, IsAsked, ByClient, ByServer;
    match Plan(s, act)
    case Turn(_, Client, _, _) => ClientSteps(s, act);
    case Turn(_, Server, _, _) => ServerSteps(s, act);
    case Still(t) => StillPlan(s, act); StillSpeaks(s, t);
  }

  lemma NothingSaid()
    ensures LastWord(Init()) && !Heard(Init(), GoAway(0, 6, [])) && !Heard(Init(), GoAway(0, 0, []))
  {
  }

  /** At some moment of the run the server's ping came due with the last one unanswered. */
  ghost predicate TimedOut(acts: seq<Act>) {
    exists k :: 0 <= k < |acts| && TimesOut(Exec(acts[..k]), acts[k])
  }

  /** At some moment of the run the server was asked to close. */
  ghost predicate WasAsked(acts: seq<Act>) {
    exists k :: 0 <= k < |acts| && IsAsked(Exec(acts[..k]), acts[k])
  }

  lemma OneActMore(acts: seq<Act>)
    requires acts != []
    ensures var n := |acts| - 1;
            && (TimedOut(acts) <==> TimedOut(acts[..n]) || TimesOut(Exec(acts[..n]), acts[n]))
            && (WasAsked(acts) <==> WasAsked(acts[..n]) || IsAsked(Exec(acts[..n]), acts[n]))
  {
    hide Exec, TimesOut, IsAsked;
    var n := |acts| - 1;
    assert forall k :: 0 <= k <= n ==> acts[..n][..k] == acts[..k];
    assert forall k :: 0 <= k < n ==> acts[..n][k] == acts[k];
  }

  /** In every run a server that says GoAway says it once and last, and the code tells why: 6 if and only if its ping
      came due with the last one unanswered, 0 if and only if it was asked to close. No other GoAway is ever on the
      wire, and no side fails twice. */
  lemma {:induction false} GoodbyeTellsWhy(acts: seq<Act>)
    ensures LastWord(Exec(acts))
    ensures Heard(Exec(acts), GoAway(0, 6, [])) <==> TimedOut(acts)
    ensures Heard(Exec(acts), GoAway(0, 0, [])) <==> WasAsked(acts)
  {
    hide Step, Genuine, OneToken, LastWord, Heard, TimesOut, IsAsked, TimedOut, WasAsked, Conserved, Ledger, Traced,
        Awaited, FreshRun;
    if acts == [] {
      NothingSaid();
      NothingHappened();
    } else {
      var n := |acts| - 1;
      GoodbyeTellsWhy(acts[..n]);
      EveryRun(acts[..n]);
      StepSpeaks(Exec(acts[..n]), acts[n]);
      OneActMore(acts);
    }
  }

  lemma NothingHappened()
    ensures !TimedOut([]) && !WasAsked([])
  {
  }
}
