/** A whole APPLY from client to hardware and back (led/led_service.c): the client's request and the
    server's response travel over a byte stream with any interleaving, partial transfer, timeout or close,
    and the server drives the CS2011 controller in between. */
module LedSession {
  import opened Base
  import opened Led
  import opened CsBoard
  import opened Cs2011
  import opened LedWire
  import opened Connection
  import opened LedIdeal
  import Holder = LedServer
  import Link = LedLink

  const TEXT_SIZE := 320  // the profile and error texts behind the sixteen words of a response

  /** The Linux error numbers. */
  function ErrnoNumber(e: Errno): nat {
    match e
    case EPERM => 1 case ENOENT => 2 case EINTR => 4 case EIO => 5 case EBUSY => 16 case ENODEV => 19
    case EINVAL => 22 case EPIPE => 32 case EPROTO => 71 case EBADMSG => 74 case ENOTSUP => 95
    case ECONNRESET => 104 case ENOTCONN => 107 case ETIMEDOUT => 110 case ESTALE => 116
  }

  function ResultCode(s: Status): int { if s.Ok? then 0 else 0 - ErrnoNumber(s.code) }

  function ReplyBytes(s: Status, confirmed: bool, value: Value, texts: seq<byte>): seq<byte> {
    FrameBytes(ResponseWords(ResultCode(s), confirmed, value)) + texts
  }

  /** The client reads the server's reply: a value exactly for a confirmed success, and it is the server's. */
  lemma ReplyRead(s: Status, confirmed: bool, value: Value, texts: seq<byte>)
    requires |texts| == TEXT_SIZE
    ensures var reply := ReplyBytes(s, confirmed, value, texts);
      && |reply| == Link.RESPONSE
      && var w := FrameWords(reply[..REQUEST_SIZE]);
         && |w| == WORDS && w[0] == MAGIC && w[1] == VERSION && (Signed(w[2]) == 0 <==> s.Ok?) && Signed(w[2]) <= 0
         && (w[3] == 1 <==> confirmed) && (s.Ok? ==> DecodeValue(w) == value)
  {
    var words := ResponseWords(ResultCode(s), confirmed, value);
    assert ReplyBytes(s, confirmed, value, texts)[..REQUEST_SIZE] == FrameBytes(words);
    ResponseRoundTrip(ResultCode(s), confirmed, value);
  }

  /** What the server did with one request frame. */
  datatype Outcome = Outcome(result: Status, confirmed: bool, value: Value)

  /** An acknowledged APPLY left the LED with exactly the patch, and answered with its value. */
  ghost predicate Applied(o: Outcome, id: nat, p: Patch, before: seq<Raw>, after: seq<Raw>) {
    o.result.Ok? ==>
      && |before| == 4 && id < 4 && PatchAllowed(p)
      && after == before[id := Wanted(before[id], p)] && o.value == Decode(after[id])
  }

  /** One APPLY call: what was asked, the LEDs before it, whether the server was bound to serve it, and the
      faults until then. */
  datatype Call = Call(id: byte, p: Patch, texts: seq<byte>, before: seq<Raw>, due: bool, faults: nat)

  /** What is sent is the client's patch, whatever its two bookkeeping masks. */
  lemma RequestCarries(id: byte, p: Patch, raw: Raw)
    requires ValidPatch(p)
    ensures var q := RequestPatch(ApplyRequest(id, p));
      (PatchAllowed(q) <==> PatchAllowed(p)) && (PatchAllowed(p) ==> Wanted(raw, q) == Wanted(raw, p))
  {
    FrameRoundTrip(ApplyRequest(id, p));
    PatchRoundTrip(id, p);
  }

  /** The session is healthy and the ideal one would grant the request. */
  ghost predicate Due(server: Holder.Server, w: Words)
    requires server.ctl.Valid()
    reads server, server.ctl, server.ctl.board
  {
    server.ctl.confirmed && server.Healthy() && Answer(Holder.Abstract(server.Now()), w).result.Ok?
  }

  /** The server handles the client's APPLY. */
  method Handled(server: Holder.Server, w: Words, ghost id: byte, ghost p: Patch) returns (result: Status, value: Value)
    requires server.Sync() && !server.restoreFailed && ValidPatch(p) && w == ApplyRequest(id, p)
    modifies server, server.ctl, server.ctl.board
    ensures server.Sync() && server.ctl.board.faults >= old(server.ctl.board.faults)
    ensures Applied(Outcome(result, server.ctl.confirmed, value), id, p, old(server.ctl.board.hw.leds), server.ctl.board.hw.leds)
    ensures server.ctl.Clean() && old(Due(server, w)) ==> result.Ok? && server.ctl.confirmed
  {
    if id < 4 { RequestCarries(id, p, server.ctl.board.hw.leds[id]); }
    var r := server.Handle(w);
    result, value := r.result, r.value;
  }

  /** The server's turn: the client's frame received, handled and answered. */
  method AnswerFrame(server: Holder.Server, frame: seq<byte>, texts: seq<byte>, ghost id: byte, ghost p: Patch)
    returns (reply: seq<byte>, ghost o: Outcome)
    requires server.Sync() && !server.restoreFailed && |texts| == TEXT_SIZE
    requires ValidPatch(p) && frame == FrameBytes(ApplyRequest(id, p))
    modifies server, server.ctl, server.ctl.board
    ensures server.Sync() && reply == ReplyBytes(o.result, o.confirmed, o.value, texts)
    ensures Applied(o, id, p, old(server.ctl.board.hw.leds), server.ctl.board.hw.leds)
    ensures server.ctl.board.faults >= old(server.ctl.board.faults)
    ensures server.ctl.Clean() && old(Due(server, ApplyRequest(id, p))) ==> o.result.Ok? && o.confirmed
  {
    FrameRoundTrip(ApplyRequest(id, p));
    var result, value := Handled(server, FrameWords(frame), id, p);
    reply := ReplyBytes(result, server.ctl.confirmed, value, texts);
    o := Outcome(result, server.ctl.confirmed, value);
  }

  /** Where the RPC stands: the request is on its way and untouched, or it was answered once. */
  ghost predicate Underway(link: Link.Link, request: seq<byte>, handled: bool, reply: seq<byte>) {
    && Link.Paired(link) && link.served == (if handled then [Link.Exchange(request, reply)] else [])
    && match link.client
       case Idle => link.accepted == link.served && handled
       case Sending(r, _) => r == request && link.accepted == []
       case Receiving(r, _) => r == request && link.accepted == []
       case Disconnected => true
  }

  /** A step that completes no request keeps the RPC where it stands. */
  lemma StepKeepsUnderway(link: Link.Link, a: Link.Action, request: seq<byte>, handled: bool, reply: seq<byte>)
    requires Underway(link, request, handled, reply) && !link.client.Idle?
    requires Link.Step(link, a).served == link.served
    ensures Underway(Link.Step(link, a), request, handled, reply)
  {
    Link.StepKeepsPairing(link, a);
    var t := Link.Step(link, a);
    if t.client.Idle? { assert t.served == t.accepted; }
  }

  /** Only the request itself can be completed, and only once. */
  lemma ServedIsTheRequest(link: Link.Link, n: nat, request: seq<byte>, handled: bool, was: seq<byte>, reply: seq<byte>)
    requires Underway(link, request, handled, was) && !link.client.Idle? && |reply| == Link.RESPONSE
    requires Completes(link, n) && !link.client.Disconnected?
    ensures !handled && Frame(link, n) == request
    ensures Underway(Link.Step(link, Link.ServerReceives(n, reply)), request, true, reply)
  {
    var t := Link.Step(link, Link.ServerReceives(n, reply));
    Link.StepKeepsPairing(link, Link.ServerReceives(n, reply));
    assert t.served == link.served + [Link.Exchange(Frame(link, n), reply)];
  }

  /** The server's next n bytes complete a frame. */
  predicate Completes(link: Link.Link, n: nat) {
    link.server.Reading? && 0 < n <= |link.up| && |link.server.partial| + n == Link.REQUEST
  }

  function Frame(link: Link.Link, n: nat): seq<byte>
    requires Completes(link, n)
  {
    link.server.partial + link.up[..n]
  }

  /** The same link, whatever bytes the answer has. */
  ghost predicate Alike(x: Link.Link, y: Link.Link) {
    && x.up == y.up && |x.down| == |y.down|
    && (x.client == y.client ||
        (x.client.Receiving? && y.client.Receiving? && x.client.request == y.client.request && |x.client.got| == |y.client.got|))
    && (x.server == y.server || (x.server.Writing? && y.server.Writing? && |x.server.rest| == |y.server.rest|))
  }

  lemma StepsAlike(x: Link.Link, y: Link.Link, a: Link.Action, b: Link.Action)
    requires Alike(x, y)
    requires a == b || (a.ServerReceives? && b.ServerReceives? && a.n == b.n && |a.answer| == |b.answer|)
    ensures Alike(Link.Step(x, a), Link.Step(y, b))
  {
  }

  /** A step of the link alone, with a blank answer where the server would give one. */
  ghost function Shadow(link: Link.Link, a: Link.Action): Link.Link {
    if a.ServerReceives? && Completes(link, a.n)
    then Link.Step(link, Link.ServerReceives(a.n, seq(Link.RESPONSE, _ => 0)))
    else Link.Step(link, a)
  }

  /** The schedule alone decides whether the client gets a complete reply. */
  ghost predicate Finishes(link: Link.Link, schedule: seq<Link.Action>)
    decreases |schedule|
  {
    link.client.Idle? ||
    (!link.client.Disconnected? && schedule != [] && Finishes(Shadow(link, schedule[0]), schedule[1..]))
  }

  /** Four whole transfers finish an exchange. */
  lemma WholeTransfersFinish(request: seq<byte>)
    requires |request| == Link.REQUEST
    ensures Finishes(Link.Step(Link.FRESH, Link.Ask(request)),
      [Link.ClientSends(Link.REQUEST), Link.ServerReceives(Link.REQUEST, []), Link.ServerSends(Link.RESPONSE), Link.ClientReceives(Link.RESPONSE, true)])
  {
    var a, b, c, d := Link.ClientSends(Link.REQUEST), Link.ServerReceives(Link.REQUEST, []), Link.ServerSends(Link.RESPONSE), Link.ClientReceives(Link.RESPONSE, true);
    var l0 := Link.Step(Link.FRESH, Link.Ask(request));
    var l1 := Shadow(l0, a);
    assert l1.client == Link.Receiving(request, []) && |l1.up| == Link.REQUEST;
    var l2 := Shadow(l1, b);
    assert l2.server.Writing? && |l2.server.rest| == Link.RESPONSE && l2.client == l1.client && l2.down == [];
    var l3 := Shadow(l2, c);
    assert |l3.down| == Link.RESPONSE && l3.client == l1.client;
    var l4 := Shadow(l3, d);
    assert l4.client.Idle?;
    assert Finishes(l3, [d]);
    assert [c, d][1..] == [d] && Finishes(l2, [c, d]);
    assert [b, c, d][1..] == [c, d] && Finishes(l1, [b, c, d]);
    assert [a, b, c, d][1..] == [b, c, d];
  }

  /** A step of the schedule, with the bytes the server sent if it answered. */
  ghost predicate Stepped(link: Link.Link, a: Link.Action, sent: Option<seq<byte>>, next: Link.Link) {
    if a.ServerReceives? && Completes(link, a.n)
    then sent.Some? && |sent.value| == Link.RESPONSE && next == Link.Step(link, Link.ServerReceives(a.n, sent.value))
    else next == Link.Step(link, a)
  }

  lemma ShadowFollows(link: Link.Link, shadow: Link.Link, a: Link.Action, sent: Option<seq<byte>>, next: Link.Link)
    requires Alike(link, shadow) && Stepped(link, a, sent, next)
    ensures Alike(next, Shadow(shadow, a))
  {
    if a.ServerReceives? && Completes(link, a.n) {
      StepsAlike(link, shadow, Link.ServerReceives(a.n, sent.value), Link.ServerReceives(a.n, seq(Link.RESPONSE, _ => 0)));
    } else {
      StepsAlike(link, shadow, a, a);
    }
  }

  /** The RPC between two steps: before the server answered nothing has happened to it; afterwards the reply
      in flight tells what it did. */
  ghost predicate Standing(server: Holder.Server, link: Link.Link, reply: Option<seq<byte>>, o: Outcome, c: Call)
    requires ValidPatch(c.p)
    reads server, server.ctl, server.ctl.board
  {
    && server.Sync()
    && Underway(link, FrameBytes(ApplyRequest(c.id, c.p)), reply.Some?, if reply.Some? then reply.value else [])
    && (if reply.None? then
          && !server.restoreFailed && server.ctl.board.hw.leds == c.before && server.ctl.board.faults == c.faults
          && (c.due ==> Due(server, ApplyRequest(c.id, c.p)))
        else
          && reply.value == ReplyBytes(o.result, o.confirmed, o.value, c.texts)
          && Applied(o, c.id, c.p, c.before, server.ctl.board.hw.leds)
          && (c.due && server.ctl.board.faults == c.faults ==> o.result.Ok? && o.confirmed))
  }

  /** The step at which the server answers. */
  method AnswerNow(server: Holder.Server, link: Link.Link, n: nat, texts: seq<byte>, ghost c: Call)
    returns (next: Link.Link, bytes: seq<byte>, ghost o: Outcome)
    requires ValidPatch(c.p) && |texts| == TEXT_SIZE && c.texts == texts && Completes(link, n)
    requires Standing(server, link, None, Outcome(Ok, false, ZERO_VALUE), c)
    requires !link.client.Idle? && !link.client.Disconnected?
    requires Frame(link, n) == FrameBytes(ApplyRequest(c.id, c.p))
    modifies server, server.ctl, server.ctl.board
    ensures Standing(server, next, Some(bytes), o, c)
    ensures |bytes| == Link.RESPONSE && next == Link.Step(link, Link.ServerReceives(n, bytes))
  {
    bytes, o := AnswerFrame(server, Frame(link, n), texts, c.id, c.p);
    ReplyRead(o.result, o.confirmed, o.value, texts);
    ServedIsTheRequest(link, n, Frame(link, n), false, [], bytes);
    next := Link.Step(link, Link.ServerReceives(n, bytes));
  }

  /** A step at which the server does not answer leaves everything but the link as it is. */
  lemma StandsStill(server: Holder.Server, link: Link.Link, a: Link.Action, reply: Option<seq<byte>>, o: Outcome, c: Call)
    requires ValidPatch(c.p) && Standing(server, link, reply, o, c) && !link.client.Idle?
    requires Link.Step(link, a).served == link.served
    ensures Standing(server, Link.Step(link, a), reply, o, c)
  {
    StepKeepsUnderway(link, a, FrameBytes(ApplyRequest(c.id, c.p)), reply.Some?, if reply.Some? then reply.value else []);
  }

  lemma ServesOnlyOnCompletion(link: Link.Link, a: Link.Action)
    requires !(a.ServerReceives? && Completes(link, a.n))
    ensures Link.Step(link, a).served == link.served
  {
  }

  /** One step of the schedule. */
  method Advance(server: Holder.Server, link: Link.Link, a: Link.Action, reply: Option<seq<byte>>, ghost o: Outcome,
                 texts: seq<byte>, ghost c: Call)
    returns (next: Link.Link, sent: Option<seq<byte>>, ghost o': Outcome)
    requires ValidPatch(c.p) && |texts| == TEXT_SIZE && c.texts == texts && Standing(server, link, reply, o, c)
    requires !link.client.Idle? && !link.client.Disconnected?
    modifies server, server.ctl, server.ctl.board
    ensures Standing(server, next, sent, o', c) && Stepped(link, a, sent, next)
  {
    ghost var request, was := FrameBytes(ApplyRequest(c.id, c.p)), if reply.Some? then reply.value else [];
    if a.ServerReceives? && Completes(link, a.n) {
      ServedIsTheRequest(link, a.n, request, reply.Some?, was, seq(Link.RESPONSE, _ => 0));
      var bytes;
      next, bytes, o' := AnswerNow(server, link, a.n, texts, c);
      sent := Some(bytes);
    } else {
      ServesOnlyOnCompletion(link, a);
      StandsStill(server, link, a, reply, o, c);
      next, sent, o' := Link.Step(link, a), reply, o;
    }
  }

  lemma Started(request: seq<byte>)
    requires |request| == Link.REQUEST
    ensures Underway(Link.Step(Link.FRESH, Link.Ask(request)), request, false, [])
  {
    Link.StepKeepsPairing(Link.FRESH, Link.Ask(request));
  }

  /** Nothing is left to do for the client. */
  predicate Over(link: Link.Link, schedule: seq<Link.Action>) {
    link.client.Idle? || link.client.Disconnected? || schedule == []
  }

  lemma OverDecides(link: Link.Link, shadow: Link.Link, schedule: seq<Link.Action>)
    requires Alike(link, shadow)
    ensures Over(link, schedule) ==> (link.client.Idle? <==> Finishes(shadow, schedule))
    ensures !Over(link, schedule) ==> (Finishes(shadow, schedule) <==> Finishes(Shadow(shadow, schedule[0]), schedule[1..]))
  {
  }

  /** The rest of the schedule, until the client has its answer or gives up. */
  method Exchanged(server: Holder.Server, start: Link.Link, schedule: seq<Link.Action>, was: Option<seq<byte>>, ghost o: Outcome,
                   texts: seq<byte>, ghost c: Call, ghost shadow: Link.Link)
    returns (link: Link.Link, reply: Option<seq<byte>>, ghost o': Outcome)
    requires ValidPatch(c.p) && |texts| == TEXT_SIZE && c.texts == texts
    requires Standing(server, start, was, o, c) && Alike(start, shadow)
    modifies server, server.ctl, server.ctl.board
    ensures Standing(server, link, reply, o', c)
    ensures link.client.Idle? <==> Finishes(shadow, schedule)
    decreases |schedule|
  {
    OverDecides(start, shadow, schedule);
    if Over(start, schedule) { return start, was, o; }
    var next, sent;
    ghost var o1;
    next, sent, o1 := Advance(server, start, schedule[0], was, o, texts, c);
    ShadowFollows(start, shadow, schedule[0], sent, next);
    link, reply, o' := Exchanged(server, next, schedule[1..], sent, o1, texts, c, Shadow(shadow, schedule[0]));
  }

  /** The client's end: the complete reply, or a failed transfer. */
  method Receive(client: Link.Session, reply: Option<seq<byte>>, ghost o: Outcome, ghost texts: seq<byte>)
    returns (value: Option<Value>)
    requires client.connected && |texts| == TEXT_SIZE
    requires reply.Some? ==> reply.value == ReplyBytes(o.result, o.confirmed, o.value, texts)
    modifies client
    ensures value.Some? <==> reply.Some? && o.result.Ok? && o.confirmed
    ensures value.Some? ==> value.value == o.value && client.connected && client.confirmed
    ensures reply.None? ==> !client.connected
  {
    ReplyRead(o.result, o.confirmed, o.value, texts);
    var delivery :=
      if reply.Some? then Link.Delivered(FrameWords(reply.value[..REQUEST_SIZE]), true) else Link.Failed(ETIMEDOUT);
    var answered, result;
    answered, result, value := client.Exchange(delivery);
  }

  /** One APPLY over a fresh connection, for every schedule of transfers and failures. When the client ends
      up with a value, the LED holds exactly the patch, no other LED changed, and the value is what the LED
      shows. When it received a complete reply and nothing failed, a request that had to be served gives a
      value. */
  method ApplyOverHolder(client: Link.Session, server: Holder.Server, id: byte, p: Patch,
                         schedule: seq<Link.Action>, texts: seq<byte>)
    returns (value: Option<Value>, complete: bool)
    requires server.Sync() && !server.restoreFailed && ValidPatch(p) && |texts| == TEXT_SIZE && client.connected
    modifies client, server, server.ctl, server.ctl.board
    ensures server.Sync()
    ensures value.Some? ==>
      && id < 4 && PatchAllowed(p) && client.connected && client.confirmed
      && server.ctl.board.hw.leds == old(server.ctl.board.hw.leds)[id := Wanted(old(server.ctl.board.hw.leds)[id], p)]
      && value.value == Decode(server.ctl.board.hw.leds[id])
    ensures complete <==> Finishes(Link.Step(Link.FRESH, Link.Ask(FrameBytes(ApplyRequest(id, p)))), schedule)
    ensures complete && server.ctl.Clean() && old(Due(server, ApplyRequest(id, p))) ==> value.Some?
    ensures !complete ==> value.None? && !client.connected
  {
    var request := FrameBytes(ApplyRequest(id, p));
    Started(request);
    var link, reply;
    ghost var o;
    ghost var c := Call(id, p, texts, server.ctl.board.hw.leds, Due(server, ApplyRequest(id, p)), server.ctl.board.faults);
    var start := Link.Step(Link.FRESH, Link.Ask(request));
    link, reply, o := Exchanged(server, start, schedule, None, Outcome(Ok, false, ZERO_VALUE), texts, c, start);
    complete := link.client.Idle?;
    value := Receive(client, if complete then reply else None, o, texts);
  }
}
