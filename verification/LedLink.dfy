/** The byte stream between a client's `exchange` and the server's request loop
    (led/led_service.c), as interleaved steps: partial sends and receives, timeouts and closes at any
    byte. Frames carry no sequence number, so pairing rests on what each failure does. */
module LedLink {
  import opened Base
  import opened Led
  import opened LedWire

  const REQUEST := 64
  const RESPONSE := 384

  datatype Client =
    | Idle
    | Sending(request: seq<byte>, sent: nat)
    | Receiving(request: seq<byte>, got: seq<byte>)
    | Disconnected

  datatype Server =
    | Reading(partial: seq<byte>)
    | Writing(rest: seq<byte>)
    | Closed

  datatype Exchange = Exchange(request: seq<byte>, response: seq<byte>)

  /** `up` and `down` are the bytes in flight. `served` lists what the server answered and
      `accepted` what the client took as answers. */
  datatype Link = Link(client: Client, server: Server, up: seq<byte>, down: seq<byte>,
                       served: seq<Exchange>, accepted: seq<Exchange>)

  const FRESH := Link(Idle, Reading([]), [], [], [], [])

  datatype Action =
    | Ask(request: seq<byte>)
    | ClientSends(n: nat)
    | ClientReceives(n: nat, trusted: bool)
    | ClientFails
    | ServerReceives(n: nat, answer: seq<byte>)
    | ServerSends(n: nat)
    | ServerCloses

  /** One step; an action that does not apply changes nothing. A complete response is either kept
      (`trusted`) or rejected by the header checks, which disconnects like any other failure. */
  function Step(s: Link, a: Action): Link {
    match a
    case Ask(request) =>
      if s.client.Idle? && |request| == REQUEST then s.(client := Sending(request, 0)) else s
    case ClientSends(n) =>
      if s.client.Sending? && 0 < n <= |s.client.request| - s.client.sent then
        var k := s.client.sent + n;
        s.(up := s.up + s.client.request[s.client.sent..k],
           client := if k == |s.client.request| then Receiving(s.client.request, []) else s.client.(sent := k))
      else s
    case ClientReceives(n, trusted) =>
      if s.client.Receiving? && 0 < n <= |s.down| && |s.client.got| + n <= RESPONSE then
        var got := s.client.got + s.down[..n];
        var t := s.(down := s.down[n..]);
        if |got| < RESPONSE then t.(client := s.client.(got := got))
        else if trusted then t.(client := Idle, accepted := s.accepted + [Exchange(s.client.request, got)])
        else t.(client := Disconnected)
      else s
    case ClientFails =>
      if s.client.Idle? then s else s.(client := Disconnected)
    case ServerReceives(n, answer) =>
      if s.server.Reading? && 0 < n <= |s.up| && |s.server.partial| + n <= REQUEST && |answer| == RESPONSE then
        var partial := s.server.partial + s.up[..n];
        var t := s.(up := s.up[n..]);
        if |partial| < REQUEST then t.(server := Reading(partial))
        else t.(server := Writing(answer), served := s.served + [Exchange(partial, answer)])
      else s
    case ServerSends(n) =>
      if s.server.Writing? && 0 < n <= |s.server.rest| then
        s.(down := s.down + s.server.rest[..n],
           server := if n == |s.server.rest| then Reading([]) else Writing(s.server.rest[n..]))
      else s
    case ServerCloses => s.(server := Closed)
  }

  function Run(s: Link, actions: seq<Action>): Link {
    if actions == [] then s else Step(Run(s, actions[..|actions| - 1]), actions[|actions| - 1])
  }

  /** What the server still has to deliver. */
  function Rest(server: Server): seq<byte> {
    if server.Writing? then server.rest else []
  }

  /** The server has seen exactly the bytes `sent` of a request and answered none of it. */
  ghost predicate Unanswered(s: Link, sent: seq<byte>) {
    && s.served == s.accepted && s.down == []
    && !s.server.Writing?
    && (s.server.Reading? ==> s.server.partial + s.up == sent && |s.server.partial| < REQUEST)
  }

  /** The server answered the client's request; `got` and what is in flight make up that answer. */
  ghost predicate Answered(s: Link, request: seq<byte>, got: seq<byte>) {
    && |s.served| == |s.accepted| + 1 && s.served[..|s.accepted|] == s.accepted
    && var last := s.served[|s.accepted|];
       && last.request == request && |last.response| == RESPONSE
       && got + s.down + Rest(s.server) <= last.response
       && (!s.server.Closed? ==>
             got + s.down + Rest(s.server) == last.response && s.up == [] &&
             (s.server.Reading? ==> s.server.partial == []) && (s.server.Writing? ==> s.server.rest != []))
  }

  ghost predicate Paired(s: Link) {
    match s.client
    case Idle => Unanswered(s, [])
    case Sending(request, sent) => |request| == REQUEST && sent < REQUEST && Unanswered(s, request[..sent])
    case Receiving(request, got) =>
      && |request| == REQUEST && |got| < RESPONSE
      && ((got == [] && Unanswered(s, request)) || Answered(s, request, got))
    case Disconnected => s.accepted <= s.served
  }

  lemma AcceptedAreServed(s: Link)
    requires Paired(s)
    ensures s.accepted <= s.served
  {
  }

  lemma ClientSendsKeeps(s: Link, n: nat)
    requires Paired(s)
    ensures Paired(Step(s, ClientSends(n)))
  {
    var t := Step(s, ClientSends(n));
    if t != s {
      var request, k := s.client.request, s.client.sent + n;
      assert request[..s.client.sent] + request[s.client.sent..k] == request[..k];
      if s.server.Reading? {
        assert s.server.partial + (s.up + request[s.client.sent..k]) == (s.server.partial + s.up) + request[s.client.sent..k];
      }
      if k == REQUEST { assert request[..k] == request; }
    }
  }

  lemma ClientReceivesKeeps(s: Link, n: nat, trusted: bool)
    requires Paired(s)
    ensures Paired(Step(s, ClientReceives(n, trusted)))
  {
    var t := Step(s, ClientReceives(n, trusted));
    if t != s && t.client != Disconnected {
      var got := s.client.got + s.down[..n];
      var last := s.served[|s.accepted|];
      assert got + s.down[n..] == s.client.got + s.down;
      assert got + s.down[n..] + Rest(s.server) == s.client.got + s.down + Rest(s.server);
      if |got| == RESPONSE {
        assert got == last.response;
        assert s.served == s.accepted + [last];
      }
    } else if t != s {
      AcceptedAreServed(s);
    }
  }

  lemma ServerReceivesKeeps(s: Link, n: nat, answer: seq<byte>)
    requires Paired(s)
    ensures Paired(Step(s, ServerReceives(n, answer)))
  {
    var t := Step(s, ServerReceives(n, answer));
    if t != s && !s.client.Disconnected? {
      var partial := s.server.partial + s.up[..n];
      assert partial + s.up[n..] == s.server.partial + s.up;
      if |partial| == REQUEST {
        var request := if s.client.Idle? then [] else s.client.request;
        assert partial == request;
        assert t.served[..|s.accepted|] == s.accepted;
        assert [] + t.down + Rest(t.server) == answer;
      }
    }
  }

  lemma ServerSendsKeeps(s: Link, n: nat)
    requires Paired(s)
    ensures Paired(Step(s, ServerSends(n)))
  {
    var t := Step(s, ServerSends(n));
    if t != s && s.client.Receiving? {
      var got, rest := s.client.got, s.server.rest;
      assert s.down + rest[..n] + Rest(t.server) == s.down + rest;
      assert got + (s.down + rest[..n]) + Rest(t.server) == got + (s.down + rest[..n] + Rest(t.server));
      assert got + s.down + rest == got + (s.down + rest);
    }
  }

  lemma StepKeepsPairing(s: Link, a: Action)
    requires Paired(s)
    ensures Paired(Step(s, a))
  {
    match a
    case Ask(request) => if s.client.Idle? && |request| == REQUEST { assert request[..0] == []; }
    case ClientSends(n) => ClientSendsKeeps(s, n);
    case ClientReceives(n, trusted) => ClientReceivesKeeps(s, n, trusted);
    case ClientFails => AcceptedAreServed(s);
    case ServerReceives(n, answer) => ServerReceivesKeeps(s, n, answer);
    case ServerSends(n) => ServerSendsKeeps(s, n);
    case ServerCloses =>
      if s.client.Receiving? && Answered(s, s.client.request, s.client.got) {
        var all := s.client.got + s.down + Rest(s.server);
        assert s.client.got + s.down + [] == s.client.got + s.down == all[..|s.client.got + s.down|];
      }
  }

  /** In every run, with partial frames, timeouts and closes anywhere: the k-th response a client
      accepted is the server's answer to the k-th request, which the server saw byte for byte as the
      client sent it. */
  lemma {:induction false} AcceptedResponsesAnswer(actions: seq<Action>)
    ensures var s := Run(FRESH, actions);
      Paired(s) && s.accepted <= s.served
  {
    if actions != [] {
      var before := actions[..|actions| - 1];
      AcceptedResponsesAnswer(before);
      StepKeepsPairing(Run(FRESH, before), actions[|actions| - 1]);
    }
    AcceptedAreServed(Run(FRESH, actions));
  }

  /** Why a failed exchange must disconnect: had the client stayed on the line after giving up on
      `first`, the late answer to `first` would pass for the answer to any `second` request. */
  lemma ReusedConnectionMispairs(first: seq<byte>, second: seq<byte>, answer: seq<byte>)
    requires |first| == |second| == REQUEST && |answer| == RESPONSE
    ensures var abandoned := Run(FRESH, [Ask(first), ClientSends(REQUEST)]).(client := Idle);
      var s := Step(Step(Step(Step(Step(abandoned, Ask(second)), ClientSends(REQUEST)),
                              ServerReceives(REQUEST, answer)), ServerSends(RESPONSE)), ClientReceives(RESPONSE, true));
      s.accepted == [Exchange(second, answer)] && s.served == [Exchange(first, answer)]
  {
    var s0 := Run(FRESH, [Ask(first), ClientSends(REQUEST)]);
    assert [Ask(first), ClientSends(REQUEST)][..1] == [Ask(first)] && [Ask(first)][..0] == [];
    assert Run(FRESH, [Ask(first)]) == Step(FRESH, Ask(first));
    assert [] + first[0..REQUEST] == first;
    var s1 := Step(Step(s0.(client := Idle), Ask(second)), ClientSends(REQUEST));
    assert s1.up == first + second;
    var s2 := Step(s1, ServerReceives(REQUEST, answer));
    assert [] + (first + second)[..REQUEST] == first;
    var s3 := Step(s2, ServerSends(RESPONSE));
    assert s3.down == answer;
    assert [] + answer[..RESPONSE] == answer;
  }

  /** What the two transfers of an exchange ended with: a failure, or a complete response with
      whether its two text fields are terminated and name the client's profile. */
  datatype Delivery = Failed(code: Errno) | Delivered(words: Words, texts: bool)

  /** The client's connection (`struct ugreenctl_led_service_client`). */
  class Session {
    var connected: bool
    var confirmed: bool

    /** `exchange` from the outcome of its transfers on. A result of at most 0 is the server's answer
        and keeps the connection; every failed or untrustworthy delivery gives the connection up. */
    method Exchange(delivery: Delivery) returns (answered: bool, result: int, value: Option<Value>)
      modifies this
      ensures answered <==>
        && old(connected) && delivery.Delivered? && delivery.texts
        && delivery.words[0] == MAGIC && delivery.words[1] == VERSION && Signed(delivery.words[2]) <= 0
      ensures connected == answered
      ensures answered ==> result == Signed(delivery.words[2]) && confirmed == (delivery.words[3] == 1)
      ensures old(connected) && !answered ==> !confirmed
      ensures value == if answered && result == 0 && confirmed then Some(DecodeValue(delivery.words)) else None
    {
      answered, result, value := false, 0, None;
      if !connected { return; }
      if delivery.Failed? || !delivery.texts || delivery.words[0] != MAGIC || delivery.words[1] != VERSION {
        connected, confirmed := false, false;
        return;
      }
      confirmed, result := delivery.words[3] == 1, Signed(delivery.words[2]);
      if result > 0 {
        connected, confirmed := false, false;
        return;
      }
      answered := true;
      if result == 0 && confirmed { value := Some(DecodeValue(delivery.words)); }
    }
  }
}
