/** The LED holder's protocol as a client may think of it (led/led_service.c): a session on four LEDs, with
    no registers, guards or faults. What the server does on the hardware is measured against it. */
module LedIdeal {
  import opened Base
  import opened Led
  import opened CsBoard
  import opened Cs2011
  import opened LedWire
  import opened Connection

  const DARK: Raw := [0, 0, 0, 0, 0, 0, 0]

  type Leds = s: seq<Raw> | |s| == 4 witness [DARK, DARK, DARK, DARK]
  type LedId = n: nat | n < 4

  /** A session: the LEDs as they are once a running identify is undone, and the LED that shows it. */
  datatype Ideal = Ideal(confirmed: bool, leds: Leds, pending: Option<LedId>)

  /** What the LEDs show. */
  function Shown(s: Ideal): Leds {
    if s.pending.Some? then s.leds[s.pending.value := IDENTIFY] else s.leds
  }

  predicate ZeroFrom(w: Words, first: nat) {
    forall i :: first <= i < WORDS ==> w[i] == 0
  }

  /** The header checks of every request. */
  predicate Addressed(w: Words) {
    w[0] == MAGIC && w[1] == VERSION && w[14] == w[15] == 0 && w[3] <= 255
  }

  function Refuse(code: Errno): Reply { Reply(Err(code, Untouched), ZERO_VALUE) }

  const DONE := Reply(Ok, ZERO_VALUE)

  function AnswerRead(s: Ideal, w: Words): Reply {
    if !ZeroFrom(w, 4) then Refuse(EPROTO)
    else if w[3] >= 4 then Refuse(EINVAL)
    else Reply(Ok, Decode(Shown(s)[w[3]]))
  }

  function AnswerIdentify(s: Ideal, w: Words): Reply {
    if !ZeroFrom(w[13 := 0], 4) then Refuse(EPROTO)
    else if w[13] != CONFIRMATION then Refuse(EPERM)
    else if w[2] == END_IDENTIFY then if s.pending.Some? && w[3] == s.pending.value then DONE else Refuse(EINVAL)
    else if w[3] >= 4 then Refuse(ENOTSUP)
    else if s.pending.Some? then Refuse(EBUSY)
    else DONE
  }

  /** The driver's answer to a patch: refused unless it gives a state the LED can run. */
  function AnswerPatch(s: Ideal, id: nat, p: Patch): Reply {
    if id < 4 && PatchAllowed(p) && ValidRaw(Wanted(s.leds[id], p)) then Reply(Ok, Decode(Wanted(s.leds[id], p)))
    else Refuse(EINVAL)
  }

  function AnswerApply(s: Ideal, w: Words): Reply {
    if w[13] != CONFIRMATION then Refuse(EPERM)
    else if s.pending.Some? then Refuse(EBUSY)
    else if !ValidPatch(RequestPatch(w)) then Refuse(EINVAL)
    else AnswerPatch(s, w[3], RequestPatch(w))
  }

  /** The answer to a request. */
  function Answer(s: Ideal, w: Words): Reply {
    if !Addressed(w) then Refuse(EPROTO)
    else if !s.confirmed then Refuse(ENOTSUP)
    else if w[2] == INFO then if ZeroFrom(w, 3) then DONE else Refuse(EPROTO)
    else if w[2] == READ then AnswerRead(s, w)
    else if w[2] == BEGIN_IDENTIFY || w[2] == END_IDENTIFY then AnswerIdentify(s, w)
    else if w[2] == APPLY then AnswerApply(s, w)
    else Refuse(EINVAL)
  }

  /** What the other requests need to succeed, in the words of their frames, and what they do. */
  lemma ReadsAndIdentifiesExactly(s: Ideal, w: Words)
    requires s.confirmed && w[2] != 3
    ensures var ok, next := Answer(s, w).result.Ok?, Next(s, w);
      && (ok <==>
            && w[0] == 0x55474c44 && w[1] == 1 && w[14] == w[15] == 0
            && ((w[2] == 1 && forall i :: 3 <= i < 16 ==> w[i] == 0) ||
                (w[2] == 2 && w[3] < 4 && forall i :: 4 <= i < 16 ==> w[i] == 0) ||
                (w[2] == 4 && w[3] < 4 && s.pending.None? && w[13] == 3 && forall i :: 4 <= i < 13 ==> w[i] == 0) ||
                (w[2] == 5 && s.pending == Some(w[3]) && w[13] == 3 && forall i :: 4 <= i < 13 ==> w[i] == 0)))
      && next.leds == s.leds && next.confirmed
      && (ok && w[2] == 2 ==> Answer(s, w).value == Decode(Shown(s)[w[3]]))
      && (ok && w[2] == 4 ==> next.pending == Some(w[3]) && Shown(next) == s.leds[w[3] := IDENTIFY])
      && (ok && w[2] == 5 ==> next.pending.None? && Shown(next) == s.leds)
      && (!ok || w[2] <= 2 ==> next == s)
  {
    if forall i :: 4 <= i < 13 ==> w[i] == 0 { assert w[14] == w[15] == 0 ==> ZeroFrom(w[13 := 0], 4); }
    if ZeroFrom(w[13 := 0], 4) { forall i | 4 <= i < 13 ensures w[i] == 0 { assert w[13 := 0][i] == 0; } }
  }

  /** Nor does any write or identify without both acknowledgements, on any session. */
  lemma UnacknowledgedChangesNothing(s: Ideal, w: Words)
    requires 3 <= w[2] <= 5 && w[13] != 3
    ensures Answer(s, w).result.Err? && Next(s, w) == s
  {
  }

  /** A write as the words of its frame: mask in word 4, then mode, brightness, colours and timing. It is
      accepted exactly when both acknowledgements are there, no identify is pending, and it asks for known
      fields in their ranges, with timing exactly with an effect, which must be able to run: 50 ms steps, at
      most 12750 ms, and the minimum times of blink and breath. */
  lemma WritesExactly(s: Ideal, w: Words)
    requires s.confirmed && w[2] == 3 && Runnable(s.leds)
    ensures var m := w[4];
      var mode, rgb, brightness, timing := m % 2 == 1, m / 2 % 2 == 1, m / 4 % 2 == 1, m / 8 % 2 == 1;
      Answer(s, w).result.Ok? <==>
        && w[0] == 0x55474c44 && w[1] == 1 && w[14] == w[15] == 0 && w[13] == 3 && w[3] < 4 && s.pending.None?
        && 0 < m < 16 && (timing <==> mode && 2 <= w[5] <= 3) && (mode ==> w[5] <= 3)
        && (brightness ==> w[6] <= 255) && (rgb ==> w[7] <= 255 && w[8] <= 255 && w[9] <= 255)
        && (timing ==> w[10] % 50 == 0 && w[11] % 50 == 0 && w[10] as int + w[11] as int <= 12750)
        && (timing && w[5] == 2 ==> w[10] >= 100 && w[11] >= 100)
        && (timing && w[5] == 3 ==> w[10] >= 1000 && w[11] >= 500)
  {
    MaskOfWord(w[4]);
    if w[3] < 4 {
      AcceptedExactly(s.leds[w[3]], RequestPatch(w));
      assert Runnable([s.leds[w[3]]]) by { assert [s.leds[w[3]]][0] == s.leds[w[3]]; }
    }
  }

  /** What an accepted write shows: the words of its frame in the fields of its mask, the previous value in
      every other field, and the other LEDs as they were. */
  lemma WriteShows(s: Ideal, w: Words)
    requires w[2] == 3 && Answer(s, w).result.Ok?
    ensures var next := Next(s, w);
      w[3] < 4 && next == s.(leds := s.leds[w[3] := next.leds[w[3]]]) && Answer(s, w).value == Decode(next.leds[w[3]])
    ensures var m, was, now := w[4], Decode(s.leds[w[3]]), Decode(Next(s, w).leds[w[3]]);
      && now.mode == (if m % 2 == 1 then w[5] else was.mode)
      && now.brightness == (if m / 4 % 2 == 1 then w[6] else was.brightness)
      && (now.red, now.green, now.blue) == (if m / 2 % 2 == 1 then (w[7], w[8], w[9]) else (was.red, was.green, was.blue))
      && (now.onMs, now.offMs) == (if m / 8 % 2 == 1 then (w[10], w[11]) else (was.onMs, was.offMs))
  {
    MaskOfWord(w[4]);
    PatchIsVisible(s.leds[w[3]], RequestPatch(w));
  }

  /** The session after a request: only acknowledged ones change it. */
  function Next(s: Ideal, w: Words): Ideal {
    if Answer(s, w).result.Err? then s
    else if w[2] == BEGIN_IDENTIFY then s.(pending := Some(w[3]))
    else if w[2] == END_IDENTIFY then s.(pending := None)
    else if w[2] == APPLY then s.(leds := s.leds[w[3] := Wanted(s.leds[w[3]], RequestPatch(w))])
    else s
  }

  /** The replies of a connection, and the session at its end. */
  function RunReplies(s: Ideal, inputs: seq<Input>): seq<Reply> { Replies(Answer, Next, s, inputs) }

  function RunEnd(s: Ideal, inputs: seq<Input>): Ideal { Final(Answer, Next, s, inputs) }

  /** A session at the start of a connection. */
  function Start(confirmed: bool, leds: Leds): Ideal { Ideal(confirmed, leds, None) }

  /** The session that the next connection begins with: a pending identify is undone. */
  function Leave(s: Ideal, inputs: seq<Input>): Ideal { Start(s.confirmed, RunEnd(s, inputs).leds) }

  /** The replies of connections one after the other. */
  function DaemonReplies(confirmed: bool, leds: Leds, connections: seq<seq<Input>>): (r: seq<seq<Reply>>)
    ensures |r| == |connections|
  {
    AllReplies(RunReplies, Leave, Start(confirmed, leds), connections)
  }

  /** Sessions only ever hold states the LEDs can run. */
  lemma NextStaysLegal(s: Ideal, w: Words)
    requires AllValid(s.leds)
    ensures AllValid(Next(s, w).leds) && AllValid(Shown(s))
  {
  }

  /** An unconfirmed session answers with errors and stays as it is, for good. */
  lemma {:induction false} UnconfirmedStays(s: Ideal, inputs: seq<Input>, n: nat)
    requires !s.confirmed && n <= |inputs|
    ensures State(Next, s, inputs, n) == s
  {
    if n > 0 { UnconfirmedStays(s, inputs, n - 1); }
  }

  lemma UnconfirmedRefuses(s: Ideal, inputs: seq<Input>)
    requires !s.confirmed
    ensures forall n :: 0 <= n < |RunReplies(s, inputs)| ==> RunReplies(s, inputs)[n].result.Err?
    ensures RunEnd(s, inputs) == s
  {
    var stop := StopAt(Answer, Next, s, inputs, 0);
    forall n | 0 <= n < |RunReplies(s, inputs)| ensures RunReplies(s, inputs)[n].result.Err? {
      UnconfirmedStays(s, inputs, n);
    }
    UnconfirmedStays(s, inputs, stop);
  }

  /** So does a daemon whose driver is unconfirmed, over any number of connections. */
  lemma {:induction false} AllRefused(leds: Leds, connections: seq<seq<Input>>)
    ensures After(Leave, Start(false, leds), connections) == Start(false, leds)
    ensures forall i :: 0 <= i < |connections| ==> forall k :: 0 <= k < |DaemonReplies(false, leds, connections)[i]| ==>
      DaemonReplies(false, leds, connections)[i][k].result.Err?
  {
    if connections != [] {
      var n := |connections| - 1;
      AllRefused(leds, connections[..n]);
      UnconfirmedRefuses(Start(false, leds), connections[n]);
      assert DaemonReplies(false, leds, connections) ==
        DaemonReplies(false, leds, connections[..n]) + [RunReplies(Start(false, leds), connections[n])];
    }
  }

  /** A write the server acknowledged. */
  datatype Accepted = Accepted(id: nat, patch: Patch)

  /** The LEDs after a list of writes, as the writes alone define them. */
  function Settled(leds: Leds, writes: seq<Accepted>): Leds {
    if writes == [] then leds
    else
      var before := Settled(leds, writes[..|writes| - 1]);
      var w := writes[|writes| - 1];
      if w.id < 4 && PatchAllowed(w.patch) then before[w.id := Wanted(before[w.id], w.patch)] else before
  }

  lemma SettledAppend(leds: Leds, writes: seq<Accepted>, w: Accepted)
    requires w.id < 4 && PatchAllowed(w.patch)
    ensures var before := Settled(leds, writes);
      Settled(leds, writes + [w]) == before[w.id := Wanted(before[w.id], w.patch)]
  {
    assert (writes + [w])[..|writes|] == writes;
  }

  /** The acknowledged writes among the first n requests. */
  function Acknowledged(s: Ideal, inputs: seq<Input>, n: nat): seq<Accepted>
    requires n <= |inputs|
  {
    if n == 0 then []
    else
      var before, input := Acknowledged(s, inputs, n - 1), inputs[n - 1];
      if input.Request? && input.words[2] == APPLY && Answer(State(Next, s, inputs, n - 1), input.words).result.Ok?
      then before + [Accepted(input.words[3], RequestPatch(input.words))] else before
  }

  /** Only an acknowledged write changes the LEDs. */
  lemma NextWrites(s: Ideal, w: Words)
    ensures w[2] == APPLY && Answer(s, w).result.Ok? ==>
      && w[3] < 4 && PatchAllowed(RequestPatch(w))
      && Next(s, w).leds == s.leds[w[3] := Wanted(s.leds[w[3]], RequestPatch(w))]
    ensures !(w[2] == APPLY && Answer(s, w).result.Ok?) ==> Next(s, w).leds == s.leds
  {
  }

  /** Identify leaves no trace: the LEDs of a session are what its acknowledged writes alone define. */
  lemma {:induction false} OnlyWritesRemain(s: Ideal, inputs: seq<Input>, n: nat)
    requires n <= |inputs|
    ensures State(Next, s, inputs, n).leds == Settled(s.leds, Acknowledged(s, inputs, n))
  {
    if n > 0 {
      OnlyWritesRemain(s, inputs, n - 1);
      var input, before := inputs[n - 1], State(Next, s, inputs, n - 1);
      if input.Request? { NextWrites(before, input.words); }
      if input.Request? && input.words[2] == APPLY && Answer(before, input.words).result.Ok? {
        SettledAppend(s.leds, Acknowledged(s, inputs, n - 1), Accepted(input.words[3], RequestPatch(input.words)));
      }
    }
  }
}
