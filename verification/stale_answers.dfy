/**
 What the freshness of ids is needed for: once they have wrapped around, a request sent under an id that is still in
 use is answered with the answer to the earlier one.
 */
module StaleAnswers {
  import opened Bytes
  import opened Connection
  import opened ConnectionRuns
  import opened R = RustCodec

  lemma ExecMore(acts: seq<Act>, act: Act)
    ensures Exec(acts + [act]) == Step(Exec(acts), act)
  {
    hide Step;
    assert (acts + [act])[..|acts|] == acts;
  }

  /** Requests that come too late to be sent; each still uses up an id. */
  function TooLate(n: nat): seq<Act> {
    if n == 0 then [] else TooLate(n - 1) + [ClientRequest([], 0, 0)]
  }

  /** `k` ids are drawn; the first request is being served under the id 1, and nothing else is under way. */
  ghost predicate Served(s: Sys, a: Payload, k: nat) {
    && s.client.up && s.server.up && s.client.ep.role.Client? && s.server.ep == Fresh(Server)
    && s.client.ep.nextId == IdOf(k) && s.client.ep.waiters == map[1 := Waiter(0, 1)] && |s.asked| == k
    && s.server.tasks == [Serve(1, a)] && s.server.queue == [] && s.c2s == [] && s.s2c == []
  }

  lemma FirstRequest(a: Payload)
    ensures Served(Exec([ClientRequest(a, 1, 0), Receive(Server, 0)]), a, 1)
  {
    ExecMore([], ClientRequest(a, 1, 0));
    ExecMore([ClientRequest(a, 1, 0)], Receive(Server, 0));
    assert [] + [ClientRequest(a, 1, 0)] == [ClientRequest(a, 1, 0)];
    assert [ClientRequest(a, 1, 0)] + [Receive(Server, 0)] == [ClientRequest(a, 1, 0), Receive(Server, 0)];
    var s := Step(Init(), ClientRequest(a, 1, 0));
    assert s.c2s == [Request(0, 1, a)] && s.client.ep.waiters == map[1 := Waiter(0, 1)];
  }

  lemma OneTooLate(s: Sys, a: Payload, k: nat)
    requires Served(s, a, k)
    ensures Served(Step(s, ClientRequest([], 0, 0)), a, k + 1)
  {
    IdOfNext(k);
  }

  lemma {:induction false} ManyTooLate(acts: seq<Act>, a: Payload, n: nat)
    requires Served(Exec(acts), a, 1)
    ensures Served(Exec(acts + TooLate(n)), a, 1 + n)
  {
    hide Served, Step, Exec;
    if n == 0 {
      assert acts + [] == acts;
    } else {
      ManyTooLate(acts, a, n - 1);
      var late: Act := ClientRequest([], 0, 0);
      assert acts + TooLate(n) == acts + TooLate(n - 1) + [late];
      ExecMore(acts + TooLate(n - 1), late);
      OneTooLate(Exec(acts + TooLate(n - 1)), a, n);
    }
  }

  /** The second request takes over the id; then the first one's answer arrives. */
  function Ending(b: Payload, answer: Payload): seq<Act> {
    [ClientRequest(b, 1, 0), Finish(Server, 0, answer), TakeFinished(Server), Receive(Client, 0)]
  }

  /** The second request waits under the id while the first is served, with this much of the answer on its way. */
  ghost predicate TakenOver(s: Sys, b: Payload, tasks: seq<Task>, queue: seq<Event>, s2c: seq<LoquiFrame>) {
    && s.client.up && s.server.up && s.client.ep.role.Client? && s.server.ep == Fresh(Server)
    && 1 in s.client.ep.waiters && s.client.ep.waiters[1].tag == U32_COUNT
    && |s.asked| == U32_COUNT + 1 && s.asked[U32_COUNT] == b && s.c2s == [Request(0, 1, b)]
    && s.server.tasks == tasks && s.server.queue == queue && s.s2c == s2c
  }

  lemma IdIsTaken(s: Sys, a: Payload, b: Payload)
    requires Served(s, a, U32_COUNT)
    ensures TakenOver(Step(s, ClientRequest(b, 1, 0)), b, [Serve(1, a)], [], [])
  {
  }

  lemma FirstIsAnswered(s: Sys, a: Payload, b: Payload, answer: Payload)
    requires TakenOver(s, b, [Serve(1, a)], [], [])
    ensures TakenOver(Step(s, Finish(Server, 0, answer)), b, [], [ResponseComplete(R.Ok(Response(0, 1, answer)))], [])
  {
  }

  lemma AnswerIsSent(s: Sys, b: Payload, answer: Payload)
    requires TakenOver(s, b, [], [ResponseComplete(R.Ok(Response(0, 1, answer)))], [])
    ensures TakenOver(Step(s, TakeFinished(Server)), b, [], [], [Response(0, 1, answer)])
  {
  }

  lemma AnswerArrives(s: Sys, b: Payload, answer: Payload)
    requires TakenOver(s, b, [], [], [Response(0, 1, answer)])
    ensures var t := Step(s, Receive(Client, 0));
            && U32_COUNT in t.client.ep.fates && t.client.ep.fates[U32_COUNT] == Answered(answer)
            && |t.asked| == U32_COUNT + 1 && t.asked[U32_COUNT] == b && t.c2s == [Request(0, 1, b)]
  {
    hide Sweep, Issue;
  }

  /** A run with 2^32 + 1 draws in which a waiter is given the answer to another request, while its own is still on
      its way to the server. */
  lemma StaleAnswer(a: Payload, b: Payload, answer: Payload)
    ensures var acts := [ClientRequest(a, 1, 0), Receive(Server, 0)] + TooLate(U32_COUNT - 1) + Ending(b, answer);
            var s := Exec(acts);
            && U32_COUNT in s.client.ep.fates && s.client.ep.fates[U32_COUNT] == Answered(answer)
            && |s.asked| == U32_COUNT + 1 && s.asked[U32_COUNT] == b && s.c2s == [Request(0, 1, b)]
  {
    hide Step, Exec, Served, TakenOver, TooLate;
    var first: seq<Act> := [ClientRequest(a, 1, 0), Receive(Server, 0)];
    var acts, e := first + TooLate(U32_COUNT - 1), Ending(b, answer);
    FirstRequest(a);
    ManyTooLate(first, a, U32_COUNT - 1);
    ExecMore(acts, e[0]);
    IdIsTaken(Exec(acts), a, b);
    ExecMore(acts + [e[0]], e[1]);
    FirstIsAnswered(Exec(acts + [e[0]]), a, b, answer);
    ExecMore(acts + [e[0]] + [e[1]], e[2]);
    AnswerIsSent(Exec(acts + [e[0]] + [e[1]]), b, answer);
    ExecMore(acts + [e[0]] + [e[1]] + [e[2]], e[3]);
    AnswerArrives(Exec(acts + [e[0]] + [e[1]] + [e[2]]), b, answer);
    assert acts + e == acts + [e[0]] + [e[1]] + [e[2]] + [e[3]];
  }
}
