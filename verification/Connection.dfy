/** The course of one connection of the LED holder's request loop (led/led_service.c), for a session of any
    kind: which requests are answered, with what, and where the connection ends. */
module Connection {
  import opened Base
  import opened Led
  import opened LedWire

  /** What arrives on the socket: a whole request, with whether its response could be sent back,
      or the end of the connection. */
  datatype Input =
    | Request(words: Words, delivered: bool)
    | Gone(code: Errno)

  datatype Reply = Reply(result: Status, value: Value)

  /** The reply after which the server closes the connection. */
  predicate Closes(input: Input, reply: Reply) {
    input.Gone? || !input.delivered || (reply.result.Err? && reply.result.code == EPROTO)
  }

  /** The session before request n. */
  function State<S>(next: (S, Words) -> S, s: S, inputs: seq<Input>, n: nat): S
    requires n <= |inputs|
  {
    if n == 0 then s
    else
      var before := State(next, s, inputs, n - 1);
      if inputs[n - 1].Request? then next(before, inputs[n - 1].words) else before
  }

  function ReplyAt<S>(answer: (S, Words) -> Reply, next: (S, Words) -> S, s: S, inputs: seq<Input>, n: nat): Reply
    requires n < |inputs| && inputs[n].Request?
  {
    answer(State(next, s, inputs, n), inputs[n].words)
  }

  /** From request n on, how many are answered before the connection ends. */
  function StopAt<S>(answer: (S, Words) -> Reply, next: (S, Words) -> S, s: S, inputs: seq<Input>, n: nat): (m: nat)
    requires n <= |inputs|
    ensures n <= m <= |inputs| && forall k :: n <= k < m ==> inputs[k].Request?
    decreases |inputs| - n
  {
    if n == |inputs| || inputs[n].Gone? then n
    else if Closes(inputs[n], ReplyAt(answer, next, s, inputs, n)) then n + 1
    else StopAt(answer, next, s, inputs, n + 1)
  }

  /** The replies of the connection, and the session at its end. */
  function Replies<S>(answer: (S, Words) -> Reply, next: (S, Words) -> S, s: S, inputs: seq<Input>): seq<Reply> {
    seq(StopAt(answer, next, s, inputs, 0), n requires 0 <= n < StopAt(answer, next, s, inputs, 0) =>
      ReplyAt(answer, next, s, inputs, n))
  }

  function Final<S>(answer: (S, Words) -> Reply, next: (S, Words) -> S, s: S, inputs: seq<Input>): S {
    State(next, s, inputs, StopAt(answer, next, s, inputs, 0))
  }

  /** One answered request as it was recorded. */
  datatype Step<S> = Step(before: S, reply: Reply, after: S)

  /** The recorded steps lead from s to t, each reply and each change being the session's own, and none after
      a reply that closes the connection. */
  ghost predicate Course<S>(answer: (S, Words) -> Reply, next: (S, Words) -> S, s: S, inputs: seq<Input>,
                                  steps: seq<Step<S>>, t: S)
  {
    && |steps| <= |inputs|
    && (if steps == [] then s == t
        else
          var n := |steps| - 1;
          && inputs[n].Request? && Course(answer, next, s, inputs, steps[..n], steps[n].before) && steps[n].after == t
          && steps[n].reply == answer(steps[n].before, inputs[n].words) && t == next(steps[n].before, inputs[n].words)
          && (n > 0 ==> !Closes(inputs[n - 1], steps[n - 1].reply)))
  }

  /** It could not go on. */
  predicate Over<S>(inputs: seq<Input>, steps: seq<Step<S>>) {
    && |steps| <= |inputs|
    && (|steps| == |inputs| || inputs[|steps|].Gone? ||
        (steps != [] && Closes(inputs[|steps| - 1], steps[|steps| - 1].reply)))
  }

  lemma {:induction false} CourseStates<S>(answer: (S, Words) -> Reply, next: (S, Words) -> S, s: S, inputs: seq<Input>,
                                           steps: seq<Step<S>>, t: S)
    requires Course(answer, next, s, inputs, steps, t)
    ensures t == State(next, s, inputs, |steps|)
    ensures forall k :: 0 <= k < |steps| ==> inputs[k].Request? && steps[k].reply == ReplyAt(answer, next, s, inputs, k)
    ensures forall k :: 0 <= k < |steps| - 1 ==> !Closes(inputs[k], steps[k].reply)
    decreases |steps|
  {
    if steps != [] {
      var n := |steps| - 1;
      CourseStates(answer, next, s, inputs, steps[..n], steps[n].before);
      forall k | 0 <= k < |steps|
        ensures inputs[k].Request? && steps[k].reply == ReplyAt(answer, next, s, inputs, k)
      {
        if k < n { assert steps[..n][k] == steps[k]; }
      }
      forall k | 0 <= k < n ensures !Closes(inputs[k], steps[k].reply) {
        if k < n - 1 { assert steps[..n][k] == steps[k]; }
      }
    }
  }

  lemma {:induction false} StopsThere<S>(answer: (S, Words) -> Reply, next: (S, Words) -> S, s: S, inputs: seq<Input>,
                                         steps: seq<Step<S>>, k: nat)
    requires k <= |steps| && Over(inputs, steps)
    requires forall i :: 0 <= i < |steps| ==> inputs[i].Request? && steps[i].reply == ReplyAt(answer, next, s, inputs, i)
    requires forall i :: 0 <= i < |steps| - 1 ==> !Closes(inputs[i], steps[i].reply)
    requires k == |steps| ==> |steps| == |inputs| || inputs[|steps|].Gone?
    ensures StopAt(answer, next, s, inputs, k) == |steps|
    decreases |steps| - k
  {
    if k < |steps| {
      assert steps[k].reply == ReplyAt(answer, next, s, inputs, k);
      if !Closes(inputs[k], steps[k].reply) { StopsThere(answer, next, s, inputs, steps, k + 1); }
    }
  }

  /** A recorded course that could not go on is the session's own: same replies, same end. */
  lemma CourseIsRun<S>(answer: (S, Words) -> Reply, next: (S, Words) -> S, s: S, inputs: seq<Input>, steps: seq<Step<S>>, t: S)
    requires Course(answer, next, s, inputs, steps, t) && Over(inputs, steps)
    ensures |Replies(answer, next, s, inputs)| == |steps|
    ensures forall k :: 0 <= k < |steps| ==> Replies(answer, next, s, inputs)[k] == steps[k].reply
    ensures t == Final(answer, next, s, inputs)
  {
    CourseStates(answer, next, s, inputs, steps, t);
    StopsThere(answer, next, s, inputs, steps, 0);
  }

  /** The session after connections one after the other, `end` giving the next connection's session. */
  function After<S>(end: (S, seq<Input>) -> S, s: S, connections: seq<seq<Input>>): S {
    if connections == [] then s
    else end(After(end, s, connections[..|connections| - 1]), connections[|connections| - 1])
  }

  /** The replies of every connection. */
  function AllReplies<S>(answers: (S, seq<Input>) -> seq<Reply>, end: (S, seq<Input>) -> S, s: S, connections: seq<seq<Input>>)
    : (r: seq<seq<Reply>>)
    ensures |r| == |connections|
  {
    if connections == [] then []
    else
      var n := |connections| - 1;
      AllReplies(answers, end, s, connections[..n]) + [answers(After(end, s, connections[..n]), connections[n])]
  }

  /** One connection as it was recorded. */
  datatype Visit<S> = Visit(before: S, replies: seq<Reply>, after: S)

  /** The recorded connections lead from s to t, each being the session's own. */
  ghost predicate Visits<S>(answers: (S, seq<Input>) -> seq<Reply>, end: (S, seq<Input>) -> S, s: S,
                            connections: seq<seq<Input>>, visits: seq<Visit<S>>, t: S)
  {
    && |visits| <= |connections|
    && (if visits == [] then s == t
        else
          var n := |visits| - 1;
          && Visits(answers, end, s, connections, visits[..n], visits[n].before) && visits[n].after == t
          && visits[n].replies == answers(visits[n].before, connections[n]) && t == end(visits[n].before, connections[n]))
  }

  lemma {:induction false} VisitsAreRun<S>(answers: (S, seq<Input>) -> seq<Reply>, end: (S, seq<Input>) -> S, s: S,
                                           connections: seq<seq<Input>>, visits: seq<Visit<S>>, t: S)
    requires Visits(answers, end, s, connections, visits, t)
    ensures t == After(end, s, connections[..|visits|])
    ensures forall i :: 0 <= i < |visits| ==> AllReplies(answers, end, s, connections[..|visits|])[i] == visits[i].replies
    decreases |visits|
  {
    if visits != [] {
      var n := |visits| - 1;
      VisitsAreRun(answers, end, s, connections, visits[..n], visits[n].before);
      assert connections[..n + 1][..n] == connections[..n];
      forall i | 0 <= i < |visits|
        ensures AllReplies(answers, end, s, connections[..|visits|])[i] == visits[i].replies
      {
        if i < n { assert visits[..n][i] == visits[i]; }
      }
    }
  }

  /** Recorded replies of every connection are the session's own. */
  lemma VisitsReply<S>(answers: (S, seq<Input>) -> seq<Reply>, end: (S, seq<Input>) -> S, s: S,
                       connections: seq<seq<Input>>, visits: seq<Visit<S>>, t: S, replies: seq<seq<Reply>>)
    requires Visits(answers, end, s, connections, visits, t) && |visits| == |connections| == |replies|
    requires forall i :: 0 <= i < |visits| ==> replies[i] == visits[i].replies
    ensures replies == AllReplies(answers, end, s, connections)
  {
    VisitsAreRun(answers, end, s, connections, visits, t);
    assert connections[..|connections|] == connections;
  }
}
