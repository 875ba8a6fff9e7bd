/** The LED holder's server side (led/led_service.c) on top of the CS2011 driver: one session per
    connection, writes refused while an identify is pending, restoration on disconnect. Whatever fails,
    each run is tied to its requests; as long as nothing does, it is the ideal session's. */
module LedServer {
  import opened Base
  import opened Led
  import opened CsBoard
  import opened Cs2011
  import opened LedWire
  import opened Connection
  import opened LedIdeal

  /** The same LEDs, but for some. */
  ghost predicate AgreeBut(a: Leds, b: Leds, but: set<nat>) {
    forall i :: 0 <= i < 4 && i !in but ==> a[i] == b[i]
  }

  /** A patch on top of the acknowledged writes. */
  lemma WriteHolds(base: Leds, writes: seq<Accepted>, but: set<nat>, before: Leds, id: nat, patch: Patch)
    requires id < 4 && PatchAllowed(patch) && AgreeBut(before, Settled(base, writes), but)
    ensures AgreeBut(before[id := Wanted(before[id], patch)], Settled(base, writes + [Accepted(id, patch)]), but)
  {
    SettledAppend(base, writes, Accepted(id, patch));
  }

  /** After a failed BEGIN the server undoes it; this is when it concludes that something was left
      behind. ENOENT is taken to mean that the driver had saved nothing. */
  predicate LeftBehind(restored: Status) {
    restored.Err? && restored.code != ENOENT
  }

  /** The LEDs of a driver as they will be once a pending identify is undone. */
  ghost function Underlying(ctl: Controller): Leds
    requires ctl.Valid()
    reads ctl, ctl.board
  {
    if ctl.identifySaved then ctl.board.hw.leds[ctl.identifyId := ctl.identifyOriginal] else ctl.board.hw.leds
  }

  /** A session and the hardware below it at one moment; `held` when the driver holds an identify. */
  datatype View = View(states: seq<Hw>, hw: Hw, flowTrace: seq<byte>, faults: nat, confirmed: bool, healthy: bool,
                       pending: Option<LedId>, held: bool, misread: bool, restoreFailed: bool,
                       leds: Leds, writes: seq<Accepted>, uncertain: set<nat>)

  /** The ideal session of a moment. */
  function Abstract(v: View): Ideal { Ideal(v.confirmed, v.leds, v.pending) }

  /** What any number of requests may do: FLOW is kept and legal LEDs stay legal; a healthy session stays
      healthy, and confirmed, as long as nothing fails; an unconfirmed driver is left alone. */
  ghost predicate Progress(a: View, b: View) {
    && LegalRun(a.states, a.hw.leds, b.states, b.hw.leds)
    && b.hw.flow == a.hw.flow && b.flowTrace == a.flowTrace && a.faults <= b.faults
    && (a.faults == b.faults && a.healthy ==> b.healthy && (a.confirmed ==> b.confirmed))
    && (!a.confirmed ==> b == a)
  }

  lemma ProgressComposes(a: View, b: View, c: View)
    requires Progress(a, b) && Progress(b, c)
    ensures Progress(a, c)
  {
    LegalRunsCompose(a.states, a.hw.leds, b.states, b.hw.leds, c.states, c.hw.leds);
  }

  /** The session cannot but do what the ideal one does. */
  predicate Determined(a: View, b: View) {
    !a.confirmed || (a.healthy && a.faults == b.faults)
  }

  /** A write: acknowledged, it changes exactly the patched fields of its LED and answers with its value;
      refused, it leaves the hardware alone unless the LED is reported uncertain. */
  ghost predicate PatchTurn(a: View, id: nat, p: Patch, r: Reply, b: View) {
    && b.pending == a.pending && b.misread == a.misread && b.restoreFailed == a.restoreFailed
    && (r.result.Ok? ==>
          && id < 4 && |a.hw.leds| == 4 && PatchAllowed(p) && a.pending.None? && !a.misread
          && b.hw == a.hw.(leds := a.hw.leds[id := Wanted(a.hw.leds[id], p)]) && r.value == Decode(b.hw.leds[id])
          && b.leds == a.leds[id := Wanted(a.leds[id], p)]
          && b.writes == a.writes + [Accepted(id, p)] && b.uncertain == a.uncertain)
    && (r.result.Err? ==> b.writes == a.writes && (a.pending.Some? || a.misread ==> b.hw == a.hw))
    && (r.result.Err? && r.result.note != Uncertain ==> b.hw == a.hw && b.leds == a.leds && b.uncertain == a.uncertain)
    && (r.result.Err? && r.result.note == Uncertain ==> b.uncertain == a.uncertain + {id})
  }

  /** BEGIN and END: whatever fails, the LEDs with identify undone are the same. */
  ghost predicate IdentifyTurn(a: View, w: Words, r: Reply, b: View) {
    && b.leds == a.leds && b.writes == a.writes && b.uncertain == a.uncertain
    && (r.result.Ok? && w[2] == BEGIN_IDENTIFY ==>
          w[3] < |b.hw.leds| == 4 && a.pending == None && b.pending == Some(w[3]) && b.hw.leds[w[3]] == IDENTIFY)
    && (r.result.Ok? && w[2] == END_IDENTIFY ==>
          w[3] < 4 && a.pending == Some(w[3]) && b.pending == None && b.hw.leds == a.leds)
  }

  /** Every other request only reads. */
  ghost predicate ReadTurn(a: View, w: Words, r: Reply, b: View) {
    && b == a.(confirmed := b.confirmed, faults := b.faults)
    && (r.result.Ok? && w[2] == READ ==> w[3] < |b.hw.leds| && r.value == Decode(b.hw.leds[w[3]]))
  }

  /** One request from view a to view b with its reply. */
  ghost predicate Turned(a: View, w: Words, r: Reply, b: View) {
    && Progress(a, b)
    && (r.result.Ok? ==> a.confirmed && Addressed(w))
    && (if w[2] == APPLY then PatchTurn(a, w[3], RequestPatch(w), r, b)
        else if w[2] == BEGIN_IDENTIFY || w[2] == END_IDENTIFY then IdentifyTurn(a, w, r, b)
        else ReadTurn(a, w, r, b))
    && (3 <= w[2] <= 5 && w[13] != 3 ==> r.result.Err? && b == a)
    && (Determined(a, b) ==> r == Answer(Abstract(a), w) && Abstract(b) == Next(Abstract(a), w))
  }

  /** One request of a connection, from the view before it to the view after it. */
  datatype Turn = Turn(before: View, reply: Reply, after: View)

  /** The server ends the connection after this turn. */
  predicate Ends(input: Input, t: Turn) { Closes(input, t.reply) || t.after.restoreFailed }

  /** The turns of the first requests of a connection, each starting where the one before it ended, and none
      after a reply that ends the connection. */
  ghost predicate Ran(a: View, inputs: seq<Input>, turns: seq<Turn>, b: View) {
    && |turns| <= |inputs|
    && (if turns == [] then a == b
        else
          var n := |turns| - 1;
          && inputs[n].Request? && Ran(a, inputs, turns[..n], turns[n].before) && turns[n].after == b
          && Turned(turns[n].before, inputs[n].words, turns[n].reply, b)
          && (n > 0 ==> !Ends(inputs[n - 1], turns[n - 1])))
  }

  /** The server went on as long as it could: to the end of the inputs, to a disconnect, or to a reply that
      ends the connection. */
  predicate Stopped(inputs: seq<Input>, turns: seq<Turn>) {
    && |turns| <= |inputs|
    && (|turns| == |inputs| || inputs[|turns|].Gone? || (turns != [] && Ends(inputs[|turns| - 1], turns[|turns| - 1])))
  }

  /** Every request of a run but the last was answered, with anything but EPROTO, and the answer delivered. */
  lemma {:induction false} RanThrough(a: View, inputs: seq<Input>, turns: seq<Turn>, b: View, k: nat)
    requires Ran(a, inputs, turns, b) && k < |turns|
    ensures inputs[k].Request?
    ensures k < |turns| - 1 ==>
      inputs[k].delivered && !turns[k].after.restoreFailed && (turns[k].reply.result.Err? ==> turns[k].reply.result.code != EPROTO)
    decreases |turns|
  {
    var n := |turns| - 1;
    if k < n { RanThrough(a, inputs, turns[..n], turns[n].before, k); }
  }

  /** A run that leaves a request unread was stopped by the last one read: its answer could not be sent, was
      EPROTO, or followed a failed restoration. */
  lemma StoppedMeans(inputs: seq<Input>, turns: seq<Turn>)
    requires Stopped(inputs, turns) && |turns| < |inputs| && inputs[|turns|].Request?
    ensures turns != []
    ensures var n := |turns| - 1;
      !inputs[n].Request? || !inputs[n].delivered || turns[n].after.restoreFailed ||
      (turns[n].reply.result.Err? && turns[n].reply.result.code == EPROTO)
  {
  }

  function RepliesOf(turns: seq<Turn>): seq<Reply> {
    seq(|turns|, n requires 0 <= n < |turns| => turns[n].reply)
  }

  /** The acknowledged writes of a run. */
  function WritesOf(inputs: seq<Input>, turns: seq<Turn>): seq<Accepted>
    requires |turns| <= |inputs|
  {
    if turns == [] then []
    else
      var n := |turns| - 1;
      WritesOf(inputs, turns[..n]) +
      (if inputs[n].Request? && inputs[n].words[2] == APPLY && turns[n].reply.result.Ok?
       then [Accepted(inputs[n].words[3], RequestPatch(inputs[n].words))] else [])
  }

  /** The LEDs on which a write of a run ended uncertain. */
  function UncertainOf(inputs: seq<Input>, turns: seq<Turn>): set<nat>
    requires |turns| <= |inputs|
  {
    if turns == [] then {}
    else
      var n, result := |turns| - 1, turns[|turns| - 1].reply.result;
      UncertainOf(inputs, turns[..n]) +
      (if inputs[n].Request? && inputs[n].words[2] == APPLY && result.Err? && result.note == Uncertain
       then {inputs[n].words[3]} else {})
  }

  lemma RanAppend(a: View, inputs: seq<Input>, turns: seq<Turn>, t: Turn)
    requires |turns| < |inputs| && inputs[|turns|].Request? && Ran(a, inputs, turns, t.before)
    requires Turned(t.before, inputs[|turns|].words, t.reply, t.after)
    requires turns != [] ==> !Ends(inputs[|turns| - 1], turns[|turns| - 1])
    ensures Ran(a, inputs, turns + [t], t.after) && RepliesOf(turns + [t]) == RepliesOf(turns) + [t.reply]
  {
    assert (turns + [t])[..|turns|] == turns;
  }

  lemma TurnWrites(a: View, w: Words, r: Reply, b: View)
    requires Turned(a, w, r, b)
    ensures b.writes == a.writes + (if w[2] == APPLY && r.result.Ok? then [Accepted(w[3], RequestPatch(w))] else [])
    ensures b.uncertain == a.uncertain + (if w[2] == APPLY && r.result.Err? && r.result.note == Uncertain then {w[3]} else {})
  {
  }

  /** What a whole run may do, and its books. */
  lemma {:induction false} RanProgress(a: View, inputs: seq<Input>, turns: seq<Turn>, b: View)
    requires Ran(a, inputs, turns, b)
    ensures Progress(a, b)
    ensures b.writes == a.writes + WritesOf(inputs, turns) && b.uncertain == a.uncertain + UncertainOf(inputs, turns)
    decreases |turns|
  {
    if turns != [] {
      var n := |turns| - 1;
      var t := turns[n];
      RanProgress(a, inputs, turns[..n], t.before);
      ProgressComposes(a, t.before, b);
      TurnWrites(t.before, inputs[n].words, t.reply, b);
    }
  }

  /** The turns as the ideal session would record them. */
  function StepsOf(turns: seq<Turn>): (steps: seq<Step<Ideal>>)
    ensures |steps| == |turns| && forall k :: 0 <= k < |turns| ==> steps[k].reply == turns[k].reply
  {
    if turns == [] then []
    else
      var t := turns[|turns| - 1];
      StepsOf(turns[..|turns| - 1]) + [Step(Abstract(t.before), t.reply, Abstract(t.after))]
  }

  /** A run that cannot but do what the ideal session does is a course of it. */
  lemma {:induction false} RanIsCourse(a: View, inputs: seq<Input>, turns: seq<Turn>, b: View)
    requires Ran(a, inputs, turns, b) && Determined(a, b)
    ensures Course(Answer, Next, Abstract(a), inputs, StepsOf(turns), Abstract(b))
    decreases |turns|
  {
    if turns != [] {
      var n := |turns| - 1;
      var t := turns[n];
      RanProgress(a, inputs, turns[..n], t.before);
      RanIsCourse(a, inputs, turns[..n], t.before);
      assert StepsOf(turns)[..n] == StepsOf(turns[..n]);
    }
  }

  /** The whole connection, then: replies and final state are the ideal session's. */
  lemma RanAsIdeal(a: View, inputs: seq<Input>, turns: seq<Turn>, b: View)
    requires Ran(a, inputs, turns, b) && Stopped(inputs, turns) && Determined(a, b) && !b.restoreFailed
    ensures RepliesOf(turns) == RunReplies(Abstract(a), inputs) && Abstract(b) == RunEnd(Abstract(a), inputs)
  {
    RanIsCourse(a, inputs, turns, b);
    CourseIsRun(Answer, Next, Abstract(a), inputs, StepsOf(turns), Abstract(b));
  }

  /** The end of a connection: from view a, with what the caller is told, to view b. */
  ghost predicate Parted(a: View, failed: bool, b: View) {
    && LegalRun(a.states, a.hw.leds, b.states, b.hw.leds)
    && b.hw.flow == a.hw.flow && b.flowTrace == a.flowTrace && a.faults <= b.faults
    && b.leds == a.leds && b.writes == a.writes && b.uncertain == a.uncertain && b.misread == a.misread
    && (a.restoreFailed ==> failed)
    && (!failed ==> (b.held <==> a.misread) && b.confirmed == (a.confirmed || a.pending.Some?))
    && (a.healthy && a.faults == b.faults ==> !failed && !b.held && b.hw.leds == b.leds)
    && (a.pending.None? ==> b == a && failed == a.restoreFailed)
  }

  /** A whole connection. */
  ghost predicate Connected(first: View, inputs: seq<Input>, replies: seq<Reply>, turns: seq<Turn>, last: View, failed: bool, end: View) {
    && Ran(first, inputs, turns, last) && Stopped(inputs, turns) && replies == RepliesOf(turns)
    && (last.healthy ==> !last.restoreFailed) && Parted(last, failed, end)
  }

  /** How a connection that began without an identify ends. Unless the caller is told that restoring failed,
      an identify is left pending exactly when an undo was misread, and the driver is confirmed exactly if it
      was at the last request or an identify had to be undone. */
  lemma ConnectionEnds(first: View, inputs: seq<Input>, replies: seq<Reply>, turns: seq<Turn>, last: View, failed: bool, end: View)
    requires Connected(first, inputs, replies, turns, last, failed, end) && first.pending.None? && !first.restoreFailed
    ensures LegalRun(first.states, first.hw.leds, end.states, end.hw.leds)
    ensures end.hw.flow == first.hw.flow && end.flowTrace == first.flowTrace && first.faults <= end.faults
    ensures !failed ==> (end.held <==> last.misread) && (end.confirmed <==> last.confirmed || last.pending.Some?)
    ensures end.writes == first.writes + WritesOf(inputs, turns) && end.uncertain == first.uncertain + UncertainOf(inputs, turns)
    ensures !first.confirmed ==> !failed && end == first
  {
    RanProgress(first, inputs, turns, last);
    LegalRunsCompose(first.states, first.hw.leds, last.states, last.hw.leds, end.states, end.hw.leds);
  }

  /** When nothing fails, or when the driver is unconfirmed, replies and LEDs are those of the ideal session. */
  lemma ConnectionAsIdeal(first: View, inputs: seq<Input>, replies: seq<Reply>, turns: seq<Turn>, last: View, failed: bool, end: View)
    requires Connected(first, inputs, replies, turns, last, failed, end) && first.pending.None? && !first.restoreFailed
    requires Determined(first, end)
    ensures !failed && end.confirmed == first.confirmed
    ensures replies == RunReplies(Abstract(first), inputs) && end.leds == RunEnd(Abstract(first), inputs).leds
    ensures first.confirmed ==> !end.held && end.hw.leds == end.leds
  {
    ConnectionEnds(first, inputs, replies, turns, last, failed, end);
    RanProgress(first, inputs, turns, last);
    RanAsIdeal(first, inputs, turns, last);
  }

  /** A request that only reads is a turn if its answer is right. */
  lemma ReadTurns(a: View, w: Words, r: Reply, b: View)
    requires a.confirmed && Addressed(w) && w[2] == READ && ReadTurn(a, w, r, b) && a.faults <= b.faults
    requires a.healthy && a.faults == b.faults ==> b.confirmed && r == AnswerRead(Abstract(a), w)
    ensures Turned(a, w, r, b)
  {
  }

  /** A BEGIN or END is a turn if, when nothing fails, it does what the ideal session does. */
  lemma IdentifyTurns(a: View, w: Words, r: Reply, b: View)
    requires a.confirmed && Addressed(w) && (w[2] == BEGIN_IDENTIFY || w[2] == END_IDENTIFY) && IdentifyTurn(a, w, r, b)
    requires w[13] != 3 ==> r.result.Err? && b == a
    requires LegalRun(a.states, a.hw.leds, b.states, b.hw.leds)
    requires b.hw.flow == a.hw.flow && b.flowTrace == a.flowTrace && a.faults <= b.faults
    requires a.healthy && a.faults == b.faults ==>
      b.healthy && b.confirmed && r == AnswerIdentify(Abstract(a), w) && (r.result.Err? ==> b.pending == a.pending)
    ensures Turned(a, w, r, b)
  {
  }

  /** What a write does besides: LEDs stay legal, FLOW stays, and when nothing fails it is the ideal one. */
  ghost predicate Steady(a: View, r: Reply, ideal: Reply, b: View) {
    && LegalRun(a.states, a.hw.leds, b.states, b.hw.leds)
    && b.hw.flow == a.hw.flow && b.flowTrace == a.flowTrace && a.faults <= b.faults
    && (a.healthy && a.faults == b.faults ==> b.healthy && (a.confirmed ==> b.confirmed) && r == ideal)
  }

  /** An APPLY is a turn if, when nothing fails, it does what the ideal session does. */
  lemma WriteTurns(a: View, w: Words, r: Reply, b: View)
    requires a.confirmed && Addressed(w) && w[2] == APPLY && PatchTurn(a, w[3], RequestPatch(w), r, b)
    requires w[13] != 3 ==> r.result.Err? && b == a
    requires Steady(a, r, AnswerApply(Abstract(a), w), b)
    ensures Turned(a, w, r, b)
  {
  }

  /** What a turn on a healthy, confirmed session amounts to when nothing fails, in the words of the frame. */
  lemma TurnMeans(a: View, w: Words, r: Reply, b: View)
    requires Turned(a, w, r, b) && a.confirmed && a.healthy && a.faults == b.faults
    requires a.hw.leds == Shown(Abstract(a)) && b.hw.leds == Shown(Abstract(b))
    ensures w[2] != 3 ==> (r.result.Ok? <==>
      && w[0] == 0x55474c44 && w[1] == 1 && w[14] == w[15] == 0
      && ((w[2] == 1 && forall i :: 3 <= i < 16 ==> w[i] == 0) ||
          (w[2] == 2 && w[3] < 4 && forall i :: 4 <= i < 16 ==> w[i] == 0) ||
          (w[2] == 4 && w[3] < 4 && a.pending.None? && w[13] == 3 && forall i :: 4 <= i < 13 ==> w[i] == 0) ||
          (w[2] == 5 && a.pending == Some(w[3]) && w[13] == 3 && forall i :: 4 <= i < 13 ==> w[i] == 0)))
    ensures r.result.Ok? && w[2] == 2 ==> r.value == Decode(a.hw.leds[w[3]]) && b.hw.leds == a.hw.leds
    ensures r.result.Ok? && w[2] == 4 ==> b.pending == Some(w[3]) && b.hw.leds == a.hw.leds[w[3] := IDENTIFY]
    ensures r.result.Ok? && w[2] == 5 ==> b.pending.None? && b.hw.leds == a.leds
  {
    if w[2] != 3 { ReadsAndIdentifiesExactly(Abstract(a), w); }
  }

  class Server {
    const ctl: Controller
    var saved: bool
    var savedId: nat
    var restoreFailed: bool
    ghost const base: Leds  // the LEDs when the connection began, a pending identify undone
    ghost var writes: seq<Accepted>  // acknowledged writes of this connection
    ghost var uncertain: set<nat>  // LEDs on which a write ended without knowing what it left behind
    ghost var misread: bool  // an undo was refused with ENOENT while an identify was pending

    constructor (ctl: Controller)
      requires ctl.Valid()
      ensures this.ctl == ctl && Sync() && base == Underlying(ctl)
      ensures !saved && !restoreFailed && writes == [] && uncertain == {} && misread == ctl.identifySaved
    {
      this.ctl := ctl;
      saved, savedId, restoreFailed := false, 0, false;
      base := Underlying(ctl);
      writes, uncertain, misread := [], {}, ctl.identifySaved;
    }

    /** Apart from a pending identify and the LEDs of uncertain writes, the LEDs hold what the acknowledged
        writes asked for. */
    ghost predicate HoldsWrites()
      requires ctl.Valid()
      reads this, ctl, ctl.board
    {
      AgreeBut(Underlying(ctl), Settled(base, writes), uncertain)
    }

    /** At every request-loop head, unless restoring failed: the driver holds an identify exactly when the
        session does, or when an undo was misread, and it is the session's. */
    ghost predicate Sync()
      reads this, ctl, ctl.board
    {
      && ctl.Valid() && HoldsWrites() && (saved ==> savedId < 4)
      && (!restoreFailed ==>
            && (ctl.identifySaved <==> saved || misread) && !(saved && misread)
            && (saved ==> savedId == ctl.identifyId))
    }

    /** The hardware is in a state in which the driver can work. */
    ghost predicate Usable()
      requires ctl.Valid()
      reads this, ctl, ctl.board
    {
      ctl.force && ctl.apply && ctl.board.hw.flow == 1 && AllValid(ctl.board.hw.leds)
    }

    /** Nothing is wrong with the session. */
    ghost predicate Healthy()
      requires ctl.Valid()
      reads this, ctl, ctl.board
    {
      !restoreFailed && !misread && Usable() && (saved ==> savedId < 4 && ctl.board.hw.leds[savedId] == IDENTIFY)
    }

    ghost function Now(): View
      requires ctl.Valid()
      reads this, ctl, ctl.board
    {
      View(ctl.board.states, ctl.board.hw, ctl.board.flowTrace, ctl.board.faults, ctl.confirmed, Healthy(),
           if saved && savedId < 4 then Some(savedId) else None, ctl.identifySaved, misread, restoreFailed,
           Underlying(ctl), writes, uncertain)
    }

    /** The ideal session of a healthy one shows what the hardware shows. */
    lemma ShownIsActual()
      requires Sync() && Healthy()
      ensures Shown(Abstract(Now())) == ctl.board.hw.leds
    {
    }

    /** A healthy session stays healthy, and confirmed, as long as nothing fails. */
    twostate predicate StaysHealthy()
      requires old(ctl.Valid()) && ctl.Valid()
      reads this, ctl, ctl.board
    {
      ctl.Clean() && old(Healthy()) ==> Healthy() && (old(ctl.confirmed) ==> ctl.confirmed)
    }

    twostate predicate Served()
      reads this, ctl, ctl.board
    {
      && ctl.board.flowTrace == old(ctl.board.flowTrace) && ctl.KeptLegal()
      && ctl.board.hw.flow == old(ctl.board.hw.flow) && ctl.board.faults >= old(ctl.board.faults)
    }

    /** BEGIN failed: undo whatever it did. */
    method UndoBegin(id: nat) returns (restored: Status)
      requires ctl.Valid() && HoldsWrites() && id < 4 && !saved && !restoreFailed
      modifies this`saved, this`savedId, this`restoreFailed, this`misread, ctl`confirmed, ctl`identifySaved, ctl.board
      ensures Sync() && Served() && Underlying(ctl) == old(Underlying(ctl))
      ensures misread <==> old(ctl.identifySaved) && restored.Err? && restored.code == ENOENT
      ensures restoreFailed <==> LeftBehind(restored)
      ensures saved == restoreFailed
      ensures (ctl.board.machine.outage.Some? && ctl.force && ctl.apply && old(ctl.identifySaved) && old(ctl.identifyId) == id) ==>
        restored == Err(ctl.board.machine.outage.value, Uncertain) && ctl.board.hw == old(ctl.board.hw)
    {
      ghost var pending := ctl.identifySaved;
      restored := ctl.EndIdentify(id);
      if LeftBehind(restored) { saved, savedId, restoreFailed := true, id, true; }
      misread := pending && restored.Err? && restored.code == ENOENT;
    }

    /** The BEGIN branch. */
    method Begin(id: nat) returns (result: Status)
      requires Sync() && !restoreFailed && !saved && id < 4
      modifies this`saved, this`savedId, this`restoreFailed, this`misread, ctl`confirmed, ctl`identifySaved, ctl`identifyId, ctl`identifyOriginal, ctl.board
      ensures Sync() && Served() && Underlying(ctl) == old(Underlying(ctl)) && StaysHealthy()
      ensures result.Ok? ==> saved && savedId == id && !restoreFailed && ctl.board.hw.leds[id] == IDENTIFY
      ensures result.Err? && !restoreFailed ==> !saved
      ensures ctl.Clean() && old(Healthy()) ==> result.Ok?
    {
      result := ctl.BeginIdentify(id);
      if result.Ok? {
        saved, savedId := true, id;
      } else {
        ghost var mid, leds := ctl.board.states, ctl.board.hw.leds;
        var restored := UndoBegin(id);
        LegalRunsCompose(old(ctl.board.states), old(ctl.board.hw.leds), mid, leds, ctl.board.states, ctl.board.hw.leds);
      }
    }

    /** The END branch. */
    method End(id: nat) returns (result: Status)
      requires Sync() && !restoreFailed
      modifies this`saved, this`restoreFailed, ctl`confirmed, ctl`identifySaved, ctl.board
      ensures Sync() && Served() && Underlying(ctl) == old(Underlying(ctl)) && StaysHealthy()
      ensures !old(saved) || id != savedId ==>
        result == Err(EINVAL, Untouched) && !restoreFailed && ctl.confirmed == old(ctl.confirmed)
      ensures result.Ok? ==> old(saved) && !saved && id == savedId && !restoreFailed && ctl.board.hw.leds == old(Underlying(ctl))
      ensures result.Err? ==> saved == old(saved)
      ensures ctl.Clean() && old(Healthy()) && old(saved) && id == savedId ==> result.Ok?
    {
      if !saved || id != savedId { return Err(EINVAL, Untouched); }
      result := ctl.EndIdentify(id);
      if result.Ok? { saved := false; } else { restoreFailed := true; }
    }

    /** The two identify requests. */
    method HandleIdentify(w: Words) returns (r: Reply)
      requires Sync() && !restoreFailed && (w[2] == BEGIN_IDENTIFY || w[2] == END_IDENTIFY) && ctl.confirmed && Addressed(w)
      modifies this`saved, this`savedId, this`restoreFailed, this`misread, ctl`confirmed, ctl`identifySaved, ctl`identifyId, ctl`identifyOriginal, ctl.board
      ensures Sync() && Turned(old(Now()), w, r, Now())
    {
      ghost var before := Now();
      var result;
      if !ZeroFrom(w[13 := 0], 4) { result := Err(EPROTO, Untouched); }
      else if w[13] != CONFIRMATION { result := Err(EPERM, Untouched); }
      else if w[2] == END_IDENTIFY { result := End(w[3]); }
      else if w[3] >= 4 { result := Err(ENOTSUP, Untouched); }  // not in the exact model's profile
      else if saved { result := Err(EBUSY, Untouched); }
      else { result := Begin(w[3]); }
      r := Reply(result, ZERO_VALUE);
      IdentifyTurns(before, w, r, Now());
    }

    /** Keep the books of a write that the driver answered. */
    ghost method Book(result: Status, id: nat, patch: Patch, before: Leds)
      requires ctl.Valid() && AgreeBut(before, Settled(base, writes), uncertain)
      requires result.Ok? ==> id < 4 && PatchAllowed(patch) && Underlying(ctl) == before[id := Wanted(before[id], patch)]
      requires result.Err? && result.note != Uncertain ==> Underlying(ctl) == before
      requires result.Err? && result.note == Uncertain ==> AgreeBut(Underlying(ctl), before, {id})
      modifies this`writes, this`uncertain
      ensures HoldsWrites()
      ensures writes == old(writes) + (if result.Ok? then [Accepted(id, patch)] else [])
      ensures uncertain == old(uncertain) + (if result.Err? && result.note == Uncertain then {id} else {})
    {
      if result.Ok? {
        WriteHolds(base, writes, uncertain, before, id, patch);
        writes := writes + [Accepted(id, patch)];
      } else if result.note == Uncertain {
        uncertain := uncertain + {id};
      }
    }

    /** The driver's answer to a write, before it is booked. */
    method Attempt(id: nat, patch: Patch) returns (r: Reply)
      requires Sync() && !restoreFailed && !saved
      modifies ctl`confirmed, ctl.board
      ensures ctl.Valid() && Served() && StaysHealthy()
      ensures r.result.Ok? ==>
        && id < 4 && PatchAllowed(patch) && !misread && r.value == Decode(ctl.board.hw.leds[id])
        && ctl.board.hw == old(ctl.board.hw).(leds := old(ctl.board.hw.leds)[id := Wanted(old(ctl.board.hw.leds[id]), patch)])
        && Underlying(ctl) == old(Underlying(ctl))[id := Wanted(old(Underlying(ctl))[id], patch)]
      ensures r.result.Err? && (r.result.note != Uncertain || misread) ==> ctl.board.hw == old(ctl.board.hw)
      ensures r.result.Err? && r.result.note == Uncertain ==> AgreeBut(Underlying(ctl), old(Underlying(ctl)), {id})
      ensures ctl.Clean() && old(Healthy()) ==> r == AnswerPatch(Abstract(old(Now())), id, patch)
    {
      var result, value := ctl.Apply(id, patch);
      r := Reply(result, value);
    }

    /** A validated write, while the session has no identify pending. */
    method Patch(id: nat, patch: Patch) returns (r: Reply)
      requires Sync() && !restoreFailed && !saved
      modifies this`writes, this`uncertain, ctl`confirmed, ctl.board
      ensures Sync() && PatchTurn(old(Now()), id, patch, r, Now())
      ensures Steady(old(Now()), r, AnswerPatch(Abstract(old(Now())), id, patch), Now())
    {
      ghost var before := Underlying(ctl);
      r := Attempt(id, patch);
      Book(r.result, id, patch, before);
    }

    /** The APPLY branch. */
    method Write(w: Words) returns (r: Reply)
      requires Sync() && !restoreFailed && w[2] == APPLY && ctl.confirmed && Addressed(w)
      modifies this`writes, this`uncertain, ctl`confirmed, ctl.board
      ensures Sync() && Turned(old(Now()), w, r, Now())
    {
      ghost var before := Now();
      if w[13] != CONFIRMATION { r := Refuse(EPERM); }
      else if saved { r := Refuse(EBUSY); }
      else if !ValidPatch(RequestPatch(w)) { r := Refuse(EINVAL); }
      else { r := Patch(w[3], RequestPatch(w)); }
      WriteTurns(before, w, r, Now());
    }

    /** The driver's answer to a read. */
    method ReadLed(id: nat) returns (r: Reply)
      requires Sync()
      modifies ctl`confirmed, ctl.board`latch, ctl.board`faults, ctl.board`log
      ensures Sync() && Now() == old(Now()).(confirmed := ctl.confirmed, faults := ctl.board.faults)
      ensures ctl.board.faults >= old(ctl.board.faults)
      ensures r.result.Ok? ==> id < 4 && r.value == Decode(ctl.board.hw.leds[id]) && ctl.confirmed
      ensures r.result.Err? ==> r.value == ZERO_VALUE
      ensures id >= 4 ==> r == Refuse(EINVAL) && ctl.confirmed == old(ctl.confirmed)
      ensures ctl.Clean() && old(Healthy()) && id < 4 ==> r.result.Ok? && r.value == Decode(Shown(Abstract(Now()))[id])
      ensures ctl.board.machine.outage.Some? && id < 4 ==> r == Refuse(ctl.board.machine.outage.value) && !ctl.confirmed
    {
      var result, value := ctl.Read(id);
      r := Reply(result, value);
      if Healthy() { ShownIsActual(); }
    }

    /** The READ request. In an outage it leaves the driver unconfirmed. */
    method HandleRead(w: Words) returns (r: Reply)
      requires Sync() && !restoreFailed && w[2] == READ && ctl.confirmed && Addressed(w)
      modifies ctl`confirmed, ctl.board`latch, ctl.board`faults, ctl.board`log
      ensures Sync() && Turned(old(Now()), w, r, Now())
      ensures ctl.board.machine.outage.Some? && ZeroFrom(w, 4) && w[3] < 4 ==>
        r == Refuse(ctl.board.machine.outage.value) && !ctl.confirmed
    {
      ghost var before := Now();
      r := Refuse(EPROTO);
      if ZeroFrom(w, 4) { r := ReadLed(w[3]); }
      ReadTurns(before, w, r, Now());
    }

    /** One request of `serve_requests`, after its frame was received. */
    method Handle(w: Words) returns (r: Reply)
      requires Sync() && !restoreFailed
      modifies this`saved, this`savedId, this`restoreFailed, this`misread, this`writes, this`uncertain, ctl`confirmed, ctl`identifySaved, ctl`identifyId, ctl`identifyOriginal, ctl.board
      ensures Sync() && Turned(old(Now()), w, r, Now())
      ensures (old(ctl.confirmed) && ctl.board.machine.outage.Some? && Addressed(w) && w[2] == READ && ZeroFrom(w, 4) && w[3] < 4) ==>
        r == Refuse(ctl.board.machine.outage.value) && !ctl.confirmed && saved == old(saved) && savedId == old(savedId)
      ensures 3 <= w[2] <= 5 && w[13] != 3 ==> r.result.Err? && Now() == old(Now())
      ensures old(ctl.confirmed) && old(Healthy()) && ctl.Clean() && w[2] != 3 ==> (r.result.Ok? <==>
        && w[0] == 0x55474c44 && w[1] == 1 && w[14] == w[15] == 0
        && ((w[2] == 1 && forall i :: 3 <= i < 16 ==> w[i] == 0) ||
            (w[2] == 2 && w[3] < 4 && forall i :: 4 <= i < 16 ==> w[i] == 0) ||
            (w[2] == 4 && w[3] < 4 && !old(saved) && w[13] == 3 && forall i :: 4 <= i < 13 ==> w[i] == 0) ||
            (w[2] == 5 && old(saved) && w[3] == old(savedId) && w[13] == 3 && forall i :: 4 <= i < 13 ==> w[i] == 0)))
      ensures old(ctl.confirmed) && old(Healthy()) && ctl.Clean() && r.result.Ok? ==>
        && (w[2] == 2 ==> r.value == Decode(old(ctl.board.hw.leds)[w[3]]) && ctl.board.hw == old(ctl.board.hw))
        && (w[2] == 4 ==> saved && savedId == w[3] && ctl.board.hw.leds == old(ctl.board.hw.leds)[w[3] := IDENTIFY])
        && (w[2] == 5 ==> !saved && ctl.board.hw.leds == old(Underlying(ctl)))
    {
      ghost var before := Now();
      if Healthy() { ShownIsActual(); }
      r := Respond(w);
      if before.confirmed && before.healthy && ctl.Clean() {
        ShownIsActual();
        TurnMeans(before, w, r, Now());
      }
    }

    /** The header checks and the branches of a request. */
    method Respond(w: Words) returns (r: Reply)
      requires Sync() && !restoreFailed
      modifies this`saved, this`savedId, this`restoreFailed, this`misread, this`writes, this`uncertain, ctl`confirmed, ctl`identifySaved, ctl`identifyId, ctl`identifyOriginal, ctl.board
      ensures Sync() && Turned(old(Now()), w, r, Now())
      ensures (old(ctl.confirmed) && ctl.board.machine.outage.Some? && Addressed(w) && w[2] == READ && ZeroFrom(w, 4) && w[3] < 4) ==>
        r == Refuse(ctl.board.machine.outage.value) && !ctl.confirmed && saved == old(saved) && savedId == old(savedId)
    {
      if !Addressed(w) { return Refuse(EPROTO); }
      if !ctl.confirmed { return Refuse(ENOTSUP); }
      if w[2] == INFO {
        r := if ZeroFrom(w, 3) then DONE else Refuse(EPROTO);
      } else if w[2] == READ {
        r := HandleRead(w);
      } else if w[2] == BEGIN_IDENTIFY || w[2] == END_IDENTIFY {
        r := HandleIdentify(w);
      } else if w[2] == APPLY {
        r := Write(w);
      } else {
        r := Refuse(EINVAL);
      }
    }

    /** The next request: answered, and added to the run. */
    method HandleNext(ghost start: View, inputs: seq<Input>, ghost turns: seq<Turn>, w: Words) returns (r: Reply, ghost now: seq<Turn>)
      requires Sync() && !restoreFailed && Ran(start, inputs, turns, Now())
      requires |turns| < |inputs| && inputs[|turns|].Request? && w == inputs[|turns|].words
      requires turns != [] ==> !Ends(inputs[|turns| - 1], turns[|turns| - 1])
      modifies this`saved, this`savedId, this`restoreFailed, this`misread, this`writes, this`uncertain, ctl`confirmed, ctl`identifySaved, ctl`identifyId, ctl`identifyOriginal, ctl.board
      ensures Sync() && Ran(start, inputs, now, Now()) && RepliesOf(now) == RepliesOf(turns) + [r]
      ensures |now| == |turns| + 1 && now[|turns|].reply == r && now[|turns|].after.restoreFailed == restoreFailed
    {
      ghost var before := Now();
      r := Handle(w);
      now := turns + [Turn(before, r, Now())];
      RanAppend(start, inputs, turns, Turn(before, r, Now()));
    }

    /** `serve_requests`: stops at a disconnect, an undeliverable response, a malformed frame or a
        failed restoration; running out of inputs is the daemon's stop flag. */
    method ServeRequests(inputs: seq<Input>) returns (replies: seq<Reply>, ghost turns: seq<Turn>)
      requires Sync() && !restoreFailed
      modifies this`saved, this`savedId, this`restoreFailed, this`misread, this`writes, this`uncertain, ctl`confirmed, ctl`identifySaved, ctl`identifyId, ctl`identifyOriginal, ctl.board
      ensures Sync() && Ran(old(Now()), inputs, turns, Now()) && Stopped(inputs, turns) && replies == RepliesOf(turns)
    {
      replies, turns := [], [];
      ghost var start := Now();
      while |replies| < |inputs|
        invariant Sync() && !restoreFailed && Ran(start, inputs, turns, Now()) && replies == RepliesOf(turns)
        invariant turns != [] ==> !Ends(inputs[|turns| - 1], turns[|turns| - 1])
      {
        var input := inputs[|replies|];
        if input.Gone? { return; }
        var reply;
        reply, turns := HandleNext(start, inputs, turns, input.words);
        replies := replies + [reply];
        if !input.delivered || (reply.result.Err? && reply.result.code == EPROTO) || restoreFailed { return; }
      }
    }

    /** The end of a connection: undo a pending identify. That confirms the driver again. */
    method Disconnect() returns (failed: bool)
      requires Sync()
      modifies this`restoreFailed, ctl`confirmed, ctl`identifySaved, ctl.board
      ensures ctl.Valid() && HoldsWrites() && failed == restoreFailed
      ensures Parted(old(Now()), failed, Now())
    {
      if saved {
        var restored := ctl.EndIdentify(savedId);
        if restored.Err? { restoreFailed := true; }
      }
      failed := restoreFailed;
    }

    /** `serve_connection`: the requests are answered in turn up to where the loop must stop, and then a
        pending identify is undone. Each LED without an uncertain write holds what the acknowledged writes
        asked for, as if no identify had ever run. */
    method ServeConnection(inputs: seq<Input>) returns (failed: bool, replies: seq<Reply>, ghost turns: seq<Turn>, ghost last: View)
      requires Sync() && !saved && !restoreFailed && writes == [] && uncertain == {}
      modifies this`saved, this`savedId, this`restoreFailed, this`misread, this`writes, this`uncertain, ctl`confirmed, ctl`identifySaved, ctl`identifyId, ctl`identifyOriginal, ctl.board
      ensures ctl.Valid() && Connected(old(Now()), inputs, replies, turns, last, failed, Now())
      ensures AgreeBut(Underlying(ctl), Settled(base, WritesOf(inputs, turns)), UncertainOf(inputs, turns))
    {
      ghost var first := Now();
      replies, turns := ServeRequests(inputs);
      last := Now();
      RanProgress(first, inputs, turns, last);
      assert writes == WritesOf(inputs, turns) && uncertain == UncertainOf(inputs, turns);
      failed := Disconnect();
    }
  }

  /** A connection was served as far as it could be. */
  ghost predicate Complete(inputs: seq<Input>, replies: seq<Reply>, turns: seq<Turn>) {
    Stopped(inputs, turns) && replies == RepliesOf(turns) && exists a, b :: Ran(a, inputs, turns, b)
  }

  /** A driver between two connections. */
  datatype Rig = Rig(states: seq<Hw>, hw: Hw, flowTrace: seq<byte>, faults: nat, confirmed: bool, held: bool, workable: bool, leds: Leds)

  function RigOf(v: View, mayWrite: bool): Rig {
    Rig(v.states, v.hw, v.flowTrace, v.faults, v.confirmed, v.held, mayWrite && v.hw.flow == 1 && AllValid(v.hw.leds), v.leds)
  }

  ghost function At(ctl: Controller): Rig
    requires ctl.Valid()
    reads ctl, ctl.board
  {
    Rig(ctl.board.states, ctl.board.hw, ctl.board.flowTrace, ctl.board.faults, ctl.confirmed, ctl.identifySaved,
        ctl.force && ctl.apply && ctl.board.hw.flow == 1 && AllValid(ctl.board.hw.leds), Underlying(ctl))
  }

  /** What any number of connections may do to a driver: FLOW is kept, legal LEDs stay legal, and an
      unconfirmed one is left alone. */
  ghost predicate Carried(a: Rig, b: Rig) {
    && LegalRun(a.states, a.hw.leds, b.states, b.hw.leds)
    && b.hw.flow == a.hw.flow && b.flowTrace == a.flowTrace && a.faults <= b.faults
    && (!a.confirmed ==> b == a)
  }

  lemma CarriedComposes(a: Rig, b: Rig, c: Rig)
    requires Carried(a, b) && Carried(b, c)
    ensures Carried(a, c)
  {
    LegalRunsCompose(a.states, a.hw.leds, b.states, b.hw.leds, c.states, c.hw.leds);
  }

  /** Nothing can make the connections differ from those of the ideal session. */
  predicate Sure(a: Rig, b: Rig) {
    !a.confirmed || (a.workable && !a.held && a.faults == b.faults)
  }

  /** The ideal session that a connection on this driver begins with. */
  function Opening(r: Rig): Ideal { Start(r.confirmed, r.leds) }

  /** One connection on a driver: what it may do, and that it is the ideal session's when nothing can differ. */
  ghost predicate Served(a: Rig, inputs: seq<Input>, failed: bool, replies: seq<Reply>, b: Rig) {
    && Carried(a, b)
    && (Sure(a, b) ==>
          && !failed && b.held == a.held && b.workable == a.workable
          && replies == RunReplies(Opening(a), inputs) && Opening(b) == Leave(Opening(a), inputs))
  }

  lemma ConnectionServed(first: View, inputs: seq<Input>, replies: seq<Reply>, turns: seq<Turn>, last: View, failed: bool, end: View, mayWrite: bool)
    requires Connected(first, inputs, replies, turns, last, failed, end) && first.pending.None? && !first.restoreFailed
    requires first.healthy <==> !first.held && RigOf(first, mayWrite).workable
    ensures Served(RigOf(first, mayWrite), inputs, failed, replies, RigOf(end, mayWrite))
  {
    ConnectionEnds(first, inputs, replies, turns, last, failed, end);
    if Determined(first, end) { ConnectionAsIdeal(first, inputs, replies, turns, last, failed, end); }
  }

  /** A driver before and after one connection, and the connection. */
  datatype Link = Link(before: Rig, failed: bool, replies: seq<Reply>, turns: seq<Turn>, after: Rig)

  /** Connections one after the other, from driver a to driver b, each served as far as it could be. */
  ghost predicate Chain(a: Rig, connections: seq<seq<Input>>, links: seq<Link>, b: Rig) {
    && |links| <= |connections|
    && (if links == [] then a == b
        else
          var n := |links| - 1;
          && Chain(a, connections, links[..n], links[n].before) && links[n].after == b
          && Complete(connections[n], links[n].replies, links[n].turns)
          && Served(links[n].before, connections[n], links[n].failed, links[n].replies, b))
  }

  function VisitsOf(links: seq<Link>): (visits: seq<Visit<Ideal>>)
    ensures |visits| == |links| && forall i :: 0 <= i < |links| ==> visits[i].replies == links[i].replies
  {
    if links == [] then []
    else
      var l := links[|links| - 1];
      VisitsOf(links[..|links| - 1]) + [Visit(Opening(l.before), l.replies, Opening(l.after))]
  }

  lemma ChainAppend(a: Rig, connections: seq<seq<Input>>, links: seq<Link>, l: Link)
    requires Chain(a, connections, links, l.before) && |links| < |connections|
    requires Complete(connections[|links|], l.replies, l.turns)
    requires Served(l.before, connections[|links|], l.failed, l.replies, l.after)
    ensures Chain(a, connections, links + [l], l.after)
  {
    var all := links + [l];
    assert all[..|links|] == links && all[|links|] == l;
    assert Chain(a, connections, all[..|links|], all[|links|].before);
  }

  lemma {:induction false} ChainCarries(a: Rig, connections: seq<seq<Input>>, links: seq<Link>, b: Rig)
    requires Chain(a, connections, links, b)
    ensures Carried(a, b)
    ensures Sure(a, b) ==> b.held == a.held && b.workable == a.workable && (links != [] ==> !links[|links| - 1].failed)
    decreases |links|
  {
    if links != [] {
      var n := |links| - 1;
      ChainCarries(a, connections, links[..n], links[n].before);
      CarriedComposes(a, links[n].before, b);
    }
  }

  lemma {:induction false} ChainVisits(a: Rig, connections: seq<seq<Input>>, links: seq<Link>, b: Rig)
    requires Chain(a, connections, links, b) && Sure(a, b)
    ensures Visits(RunReplies, Leave, Opening(a), connections, VisitsOf(links), Opening(b))
    decreases |links|
  {
    if links != [] {
      var n, visits := |links| - 1, VisitsOf(links);
      ChainCarries(a, connections, links[..n], links[n].before);
      ChainVisits(a, connections, links[..n], links[n].before);
      assert visits[..n] == VisitsOf(links[..n]);
      assert Visits(RunReplies, Leave, Opening(a), connections, visits[..n], visits[n].before);
    }
  }

  /** Each connection of a chain was served as far as it could be. */
  lemma {:induction false} ChainIsComplete(a: Rig, connections: seq<seq<Input>>, links: seq<Link>, b: Rig, i: nat)
    requires Chain(a, connections, links, b) && i < |links|
    ensures Complete(connections[i], links[i].replies, links[i].turns)
    decreases |links|
  {
    var n := |links| - 1;
    if i < n {
      ChainIsComplete(a, connections, links[..n], links[n].before, i);
      assert links[..n][i] == links[i];
    }
  }

  /** What any number of connections amounts to. */
  lemma ChainAsIdeal(a: Rig, connections: seq<seq<Input>>, links: seq<Link>, replies: seq<seq<Reply>>, b: Rig)
    requires Chain(a, connections, links, b) && |links| == |connections| == |replies| && Sure(a, b)
    requires forall i :: 0 <= i < |links| ==> replies[i] == links[i].replies
    ensures replies == DaemonReplies(a.confirmed, a.leds, connections)
  {
    ChainVisits(a, connections, links, b);
    LinksAsIdeal(Opening(a), connections, links, replies, Opening(b));
  }

  lemma LinksAsIdeal(s: Ideal, connections: seq<seq<Input>>, links: seq<Link>, replies: seq<seq<Reply>>, t: Ideal)
    requires Visits(RunReplies, Leave, s, connections, VisitsOf(links), t) && |links| == |connections| == |replies|
    requires forall i :: 0 <= i < |links| ==> replies[i] == links[i].replies
    ensures replies == AllReplies(RunReplies, Leave, s, connections)
  {
    VisitsReply(RunReplies, Leave, s, connections, VisitsOf(links), t, replies);
  }

  /** One more connection. */
  method ServeNext(ctl: Controller, inputs: seq<Input>) returns (failed: bool, replies: seq<Reply>, ghost turns: seq<Turn>)
    requires ctl.Valid()
    modifies ctl`confirmed, ctl`identifySaved, ctl`identifyId, ctl`identifyOriginal, ctl.board
    ensures ctl.Valid() && Served(old(At(ctl)), inputs, failed, replies, At(ctl)) && Complete(inputs, replies, turns)
  {
    var server := new Server(ctl);
    ghost var first := server.Now();
    ghost var last;
    failed, replies, turns, last := server.ServeConnection(inputs);
    ConnectionServed(first, inputs, replies, turns, last, failed, server.Now(), ctl.force && ctl.apply);
  }

  /** Connections one after the other, until one cannot be restored. */
  method ServeEach(ctl: Controller, connections: seq<seq<Input>>)
    returns (result: Status, replies: seq<seq<Reply>>, ghost links: seq<Link>)
    requires ctl.Valid()
    modifies ctl`confirmed, ctl`identifySaved, ctl`identifyId, ctl`identifyOriginal, ctl.board
    ensures ctl.Valid() && Chain(old(At(ctl)), connections, links, At(ctl)) && |replies| == |links|
    ensures forall i :: 0 <= i < |links| ==> replies[i] == links[i].replies
    ensures if result.Ok? then |replies| == |connections| else links != [] && links[|links| - 1].failed
  {
    result, replies, links := Ok, [], [];
    ghost var start := At(ctl);
    ghost var now := start;
    while |replies| < |connections|
      invariant ctl.Valid() && now == At(ctl) && Chain(start, connections, links, now) && |links| == |replies|
      invariant forall i :: 0 <= i < |links| ==> replies[i] == links[i].replies
    {
      var failed, answers;
      ghost var turns;
      failed, answers, turns := ServeNext(ctl, connections[|replies|]);
      ghost var link := Link(now, failed, answers, turns, At(ctl));
      ChainAppend(start, connections, links, link);
      now, replies, links := link.after, replies + [answers], links + [link];
      if failed { result := Err(EIO, Uncertain); return; }
    }
  }

  /** The daemon's connections. Each is served as far as it can be; when nothing fails, or when the driver is
      unconfirmed, none fails and every reply is the ideal session's. */
  method ServeAll(ctl: Controller, connections: seq<seq<Input>>)
    returns (result: Status, replies: seq<seq<Reply>>, ghost links: seq<Link>)
    requires ctl.Valid()
    modifies ctl`confirmed, ctl`identifySaved, ctl`identifyId, ctl`identifyOriginal, ctl.board
    ensures ctl.Valid() && Carried(old(At(ctl)), At(ctl))
    ensures |replies| == |links| <= |connections| && (result.Ok? ==> |replies| == |connections|)
    ensures forall i :: 0 <= i < |links| ==> Complete(connections[i], replies[i], links[i].turns)
    ensures Sure(old(At(ctl)), At(ctl)) ==>
      result.Ok? && replies == DaemonReplies(old(ctl.confirmed), old(Underlying(ctl)), connections)
  {
    ghost var start := At(ctl);
    result, replies, links := ServeEach(ctl, connections);
    ChainCarries(start, connections, links, At(ctl));
    forall i | 0 <= i < |links| ensures Complete(connections[i], replies[i], links[i].turns) {
      ChainIsComplete(start, connections, links, At(ctl), i);
    }
    if Sure(start, At(ctl)) { ChainAsIdeal(start, connections, links, replies, At(ctl)); }
  }

  /** The misreading, on the session's own steps. The LED's red register is stuck, so BEGIN fails after the
      driver saved the LED, and before the server undoes it the machine identity can no longer be read. The
      session then believes that nothing is pending, and reports no failure, while the driver keeps the LED
      reserved. */
  method MisreadRestoration(server: Server, id: nat) returns (begun: Status)
    requires server.Sync() && server.Usable() && !server.saved && !server.restoreFailed && !server.misread && id < 4
    requires server.ctl.board.machine.quiet && server.ctl.board.machine.outage.None?
    requires server.ctl.StuckAgainst(id, server.ctl.board.hw)
    modifies server, server.ctl, server.ctl.board, server.ctl.board.machine
    ensures begun.Err? && server.Sync() && server.misread && !server.saved && !server.restoreFailed
    ensures server.ctl.identifySaved && server.ctl.identifyId == id && server.ctl.identifyOriginal == old(server.ctl.board.hw.leds[id])
  {
    begun := server.ctl.BeginIdentify(id);
    server.ctl.board.machine.outage := Some(ENOENT);
    var restored := server.UndoBegin(id);
  }

  /** A holder on a machine with four red LEDs whose first red register is stuck. */
  method StuckHolder() returns (ctl: Controller, started: Status)
    ensures fresh(ctl) && fresh(ctl.board) && fresh(ctl.board.machine) && ctl.Valid() && started.Ok?
    ensures ctl.force && ctl.apply && ctl.board.hw.flow == 1 && AllValid(ctl.board.hw.leds) && !ctl.identifySaved
    ensures ctl.board.machine.quiet && ctl.board.machine.outage.None? && ctl.StuckAgainst(0, ctl.board.hw)
  {
    var red: Raw := [1, 255, 0, 0, 255, 0, 0];
    var machine := new Machine();
    var board := new Board(machine, Hw([red, red, red, red], 1));
    machine.stuck := Some(RegAddress(0, RED));
    ctl := new Controller(board, true, true, true);
    started := ctl.OpenHolder(false);
  }

  /** The same from nothing: the daemon opens, and ends a connection that reports no failure with an identify
      still reserved. */
  method MisreadExample() returns (server: Server, started: Status, begun: Status, failed: bool)
    ensures started.Ok? && begun.Err? && !failed && server.ctl.Valid() && server.ctl.identifySaved
  {
    var ctl;
    ctl, started := StuckHolder();
    server := new Server(ctl);
    begun := MisreadRestoration(server, 0);
    failed := server.Disconnect();
  }

  /** A READ of LED `id`. */
  function ReadRequest(id: byte): Words {
    [MAGIC, VERSION, READ, id] + seq(12, _ => 0)
  }

  /** One READ during an outage, which then ends, and the end of the connection. The driver stays unconfirmed
      exactly if the connection held no identify: undoing one confirms it again. */
  method ReadInOutage(server: Server, code: Errno, id: byte) returns (r: Reply, failed: bool)
    requires server.Sync() && !server.restoreFailed && server.ctl.confirmed && id < 4
    modifies server, server.ctl, server.ctl.board, server.ctl.board.machine
    ensures server.ctl.Valid() && server.ctl.board.machine.outage.None? && r == Refuse(code)
    ensures !failed ==> (server.ctl.confirmed <==> old(server.saved))
    ensures !old(server.saved) ==>
      !failed && server.ctl.board.hw == old(server.ctl.board.hw) && Underlying(server.ctl) == old(Underlying(server.ctl))
  {
    server.ctl.board.machine.outage := Some(code);
    r := server.Handle(ReadRequest(id));
    server.ctl.board.machine.outage := None;
    failed := server.Disconnect();
  }

  /** The lockout: a connection that holds no identify reads once during an outage. The outage ends, and so
      does the connection. From then on every request of every connection is answered, and refused, although
      nothing is wrong any more. */
  method LockedOut(server: Server, code: Errno, id: byte, connections: seq<seq<Input>>)
    returns (first: Reply, replies: seq<seq<Reply>>)
    requires server.Sync() && !server.restoreFailed && !server.saved && server.ctl.confirmed && id < 4
    modifies server, server.ctl, server.ctl.board, server.ctl.board.machine
    ensures server.ctl.board.machine.outage.None? && first == Refuse(code)
    ensures replies == DaemonReplies(false, old(Underlying(server.ctl)), connections)
    ensures forall i :: 0 <= i < |replies| ==> forall k :: 0 <= k < |replies[i]| ==> replies[i][k].result.Err?
    ensures !server.ctl.confirmed && server.ctl.board.hw == old(server.ctl.board.hw)
  {
    ghost var leds := Underlying(server.ctl);
    var failed, result;
    first, failed := ReadInOutage(server, code, id);
    ghost var links;
    result, replies, links := ServeAll(server.ctl, connections);
    AllRefused(leds, connections);
  }

  /** The daemon's life: open the holder, serve connections one after the other until one cannot be
      restored or the daemon is stopped, then restore and close. A reported success means that every
      connection was served and that the LEDs and FLOW are as they were before the daemon started. Once it
      serves, every LED is legal at every moment of its life. Without faults an allowed start ends in
      success, with the ideal session's replies to every request. */
  method DaemonLife(board: Board, force: bool, apply: bool, takeover: bool, connections: seq<seq<Input>>)
    returns (result: Status, serving: bool, replies: seq<seq<Reply>>, ghost links: seq<Link>)
    requires board.Valid() && Disciplined(board.log)
    modifies board
    ensures board.Valid() && Disciplined(board.log)
    ensures result.Ok? ==> board.hw == old(board.hw)
    ensures TakenAndReturned(old(board.flowTrace), board.flowTrace)
    ensures |replies| == |links| <= |connections| && (result.Ok? ==> serving && |replies| == |connections|)
    ensures forall i :: 0 <= i < |links| ==> Complete(connections[i], replies[i], links[i].turns)
    ensures serving ==> AlwaysRunnable(board.states, old(|board.states|))
    ensures (board.faults == old(board.faults) && force && apply && Runnable(old(board.hw.leds)) &&
             (old(board.hw.flow) == 1 || (old(board.hw.flow) == 0 && takeover))) ==>
      result.Ok? && replies == DaemonReplies(true, old(board.hw.leds), connections)
  {
    serving, replies, links := false, [], [];
    RunnableMeans(board.hw.leds);
    if !force || !apply { result := Err(EPERM, Untouched); return; }
    var ctl := new Controller(board, force, apply, true);
    result := ctl.OpenHolder(takeover);
    if result.Err? { return; }
    serving := true;
    ghost var mid, leds := board.states, board.hw.leds;
    result, replies, links := ServeAll(ctl, connections);
    LegalRunsCompose(old(board.states), old(board.hw.leds), mid, leds, board.states, board.hw.leds);
    mid, leds := board.states, board.hw.leds;
    var restored := ctl.RestoreClose();
    LegalRunsCompose(old(board.states), old(board.hw.leds), mid, leds, board.states, board.hw.leds);
    AlwaysRunnableMeans(board.states, old(|board.states|));
    if restored.Err? { result := restored; }
  }
}
