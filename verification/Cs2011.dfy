/** The CS2011 LED controller driver (led/led_cs201x.c): guarded register writes checked by
    readback, ordered commits with rollback, identify, and the holder that takes FLOW over. */
module Cs2011 {
  import opened Base
  import opened Led
  import opened CsBoard

  /** Timing bytes count 50 ms units. */
  function Ms(units: byte): u32 { units as int * 50 }

  /** `valid_raw`: a legal mode with timing the mode can run. */
  predicate ValidRaw(raw: Raw) {
    var mode, on, period := raw[MODE], Ms(raw[DUTY]), Ms(raw[PERIOD]);
    && mode <= 3
    && (mode >= 2 ==> on < period && on >= (if mode == 2 then 100 else 1000) &&
                      period - on >= (if mode == 2 then 100 else 500))
  }

  predicate AllValid(leds: seq<Raw>) {
    forall i :: 0 <= i < |leds| ==> ValidRaw(leds[i])
  }

  /** The write order of `commit`. */
  const ORDER := [RED, GREEN, BLUE, BRIGHTNESS, PERIOD, DUTY, MODE]

  /** `decode`. */
  function Decode(raw: Raw): Value {
    var v := ZERO_VALUE.(mode := raw[MODE], brightness := raw[BRIGHTNESS],
                         red := raw[RED], green := raw[GREEN], blue := raw[BLUE]);
    if raw[PERIOD] >= raw[DUTY]
    then v.(onMs := Ms(raw[DUTY]), offMs := Ms(raw[PERIOD] - raw[DUTY]))
    else v.(unknown := TIMING_BIT)
  }

  /** The driver's own `validate_patch`. */
  predicate PatchAllowed(p: Patch) {
    var f, v := p.fields, p.value;
    && f != NO_FIELDS && f.extra == 0 && !f.color
    && (f.rgb ==> v.red <= 255 && v.green <= 255 && v.blue <= 255)
    && (f.brightness ==> v.brightness <= 255)
    && (f.mode ==> v.mode <= 3)
    && (f.timing ==> v.onMs != 0 && v.offMs != 0 && v.onMs + v.offMs <= 12750 &&
                     v.onMs % 50 == 0 && v.offMs % 50 == 0)
  }

  /** The bytes `apply` asks for. */
  function Wanted(raw: Raw, p: Patch): Raw
    requires PatchAllowed(p)
  {
    var f, v := p.fields, p.value;
    var r0: Raw := if f.rgb then raw[RED := v.red][GREEN := v.green][BLUE := v.blue] else raw;
    var r1: Raw := if f.brightness then r0[BRIGHTNESS := v.brightness] else r0;
    var r2: Raw := if f.mode then r1[MODE := v.mode] else r1;
    if f.timing then r2[PERIOD := (v.onMs + v.offMs) / 50][DUTY := v.onMs / 50] else r2
  }

  /** Reading the patched bytes back shows the patch's value in every patched field and the
      previous value in every other one; 50 ms timing survives the byte encoding. */
  lemma PatchIsVisible(raw: Raw, p: Patch)
    requires PatchAllowed(p)
    ensures var was, now, f, v := Decode(raw), Decode(Wanted(raw, p)), p.fields, p.value;
      && now.mode == (if f.mode then v.mode else was.mode)
      && now.brightness == (if f.brightness then v.brightness else was.brightness)
      && (now.red, now.green, now.blue) ==
           (if f.rgb then (v.red, v.green, v.blue) else (was.red, was.green, was.blue))
      && (now.onMs, now.offMs, now.unknown) ==
           (if f.timing then (v.onMs, v.offMs, 0) else (was.onMs, was.offMs, was.unknown))
  {
    var f, v := p.fields, p.value;
    if f.timing {
      assert (v.onMs + v.offMs) / 50 - v.onMs / 50 == v.offMs / 50;
      assert v.onMs / 50 * 50 == v.onMs && v.offMs / 50 * 50 == v.offMs;
    }
  }

  /** What legal bytes mean, in milliseconds: a blinking LED is on and off for at least 100 ms, a breathing
      one rises for at least a second and falls for at least half of one. Bytes that show no timing cannot run. */
  lemma LegalMeans(raw: Raw)
    ensures var v := Decode(raw);
      ValidRaw(raw) <==>
        v.mode <= 3 && (v.mode == 2 ==> v.onMs >= 100 && v.offMs >= 100) && (v.mode == 3 ==> v.onMs >= 1000 && v.offMs >= 500)
  {
  }

  /** The patches an LED accepts, by what the LED then runs: in the milliseconds of the patch where it has
      timing, and of the LED where it has not. */
  lemma AcceptedExactly(raw: Raw, p: Patch)
    ensures var f, v, was := p.fields, p.value, Decode(raw);
      PatchAllowed(p) && ValidRaw(Wanted(raw, p)) <==>
        && (f.mode || f.rgb || f.brightness || f.timing) && !f.color && f.extra == 0
        && (f.rgb ==> v.red <= 255 && v.green <= 255 && v.blue <= 255) && (f.brightness ==> v.brightness <= 255)
        && (f.timing ==> 0 < v.onMs && 0 < v.offMs && v.onMs + v.offMs <= 12750 && v.onMs % 50 == 0 && v.offMs % 50 == 0)
        && var mode, on, off := if f.mode then v.mode else was.mode, if f.timing then v.onMs else was.onMs,
                                if f.timing then v.offMs else was.offMs;
           mode <= 3 && (mode == 2 ==> on >= 100 && off >= 100) && (mode == 3 ==> on >= 1000 && off >= 500)
  {
    if PatchAllowed(p) {
      PatchIsVisible(raw, p);
      LegalMeans(Wanted(raw, p));
    }
  }

  /** The profile's entry for an LED of this controller. */
  function CsLed(id: nat): Descriptor {
    Descriptor(id, true, {OFF, ON, BLINK, BREATH}, {}, 0, 255, 100, 100, 1000, 500, 12750, 50)
  }

  /** The profile's limits are the driver's: of the patches that are well-formed, the driver takes exactly those
      that the command line lets through for its LEDs. */
  lemma ProfileMatchesDriver(id: nat, raw: Raw, p: Patch)
    requires ValidRaw(raw)
    ensures ValidTargetPatch(CsLed(id), p) <==> ValidPatch(p) && PatchAllowed(p) && ValidRaw(Wanted(raw, p))
  {
    AcceptedExactly(raw, p);
    LegalMeans(raw);
  }

  /** The bytes of a patch: the timing registers count 50 ms, of the time on and of the whole period. */
  lemma WantedBytes(raw: Raw, p: Patch)
    requires PatchAllowed(p)
    ensures var w, f, v := Wanted(raw, p), p.fields, p.value;
      && (f.timing ==> w[DUTY] as int * 50 == v.onMs && w[PERIOD] as int * 50 == v.onMs + v.offMs)
      && (!f.timing ==> w[DUTY] == raw[DUTY] && w[PERIOD] == raw[PERIOD])
      && w[MODE] == (if f.mode then v.mode else raw[MODE])
      && w[BRIGHTNESS] == (if f.brightness then v.brightness else raw[BRIGHTNESS])
      && (w[RED], w[GREEN], w[BLUE]) == (if f.rgb then (v.red, v.green, v.blue) else (raw[RED], raw[GREEN], raw[BLUE]))
  {
  }

  const IDENTIFY: Raw := [2, 255, 8, 4, 0, 0, 255]

  /** Identify blinks in blue at full brightness, 200 ms on and off. */
  lemma IdentifyShows()
    ensures Decode(IDENTIFY) == ZERO_VALUE.(mode := BLINK, brightness := 255, blue := 255, onMs := 200, offMs := 200)
  {
  }

  /** A write is in order when the event right before it is a guard that authorized writing; an
      LED write needs FLOW seen at 1 and an LED register, a FLOW write an earlier full snapshot. */
  ghost predicate InOrder(earlier: seq<Event>, e: Event) {
    e.Wrote? ==>
      && |earlier| > 0
      && var g := earlier[|earlier| - 1];
         && g.Guard? && g.writing && g.force && g.apply
         && (if e.reg == FLOW then Snapshotted(earlier) else g.flow == 1 && Locate(e.reg).Some?)
  }

  /** The current holder's life has seen a full snapshot. */
  ghost predicate Snapshotted(log: seq<Event>) {
    && log != [] && log[|log| - 1] != Opened
    && (log[|log| - 1] == FullSnapshot || Snapshotted(log[..|log| - 1]))
  }

  ghost predicate Disciplined(log: seq<Event>) {
    log == [] || (Disciplined(log[..|log| - 1]) && InOrder(log[..|log| - 1], log[|log| - 1]))
  }

  lemma DisciplinedAppend(log: seq<Event>, e: Event)
    requires Disciplined(log) && InOrder(log, e)
    ensures Disciplined(log + [e])
    ensures (Snapshotted(log) && e != Opened) || e == FullSnapshot ==> Snapshotted(log + [e])
  {
    assert (log + [e])[..|log|] == log;
  }

  /** A guard for writing under FLOW 1 allows an LED write. */
  lemma GuardAllows(log: seq<Event>, id: nat, field: nat, value: byte)
    requires id < 4 && field < FIELDS && log != [] && log[|log| - 1] == Guard(true, true, true, 1)
    ensures InOrder(log, Wrote(RegAddress(id, field), value))
  {
  }

  lemma {:induction false} SnapshottedMeans(log: seq<Event>) returns (j: nat)
    requires Snapshotted(log)
    ensures j < |log| && log[j] == FullSnapshot && Opened !in log[j..]
  {
    var n := |log| - 1;
    j := n;
    if log[n] != FullSnapshot {
      j := SnapshottedMeans(log[..n]);
      assert log[j..] == log[..n][j..] + [log[n]];
    }
  }

  /** What a disciplined log says about any write in it, however long the run. */
  lemma {:induction false} EveryWriteIsGuarded(log: seq<Event>, i: nat)
    requires Disciplined(log) && i < |log| && log[i].Wrote?
    ensures i > 0 && log[i - 1].Guard? && log[i - 1].writing && log[i - 1].force && log[i - 1].apply
    ensures log[i].reg != FLOW ==> log[i - 1].flow == 1 && Locate(log[i].reg).Some?
    ensures log[i].reg == FLOW ==> exists j :: 0 <= j < i && log[j] == FullSnapshot && Opened !in log[j..i]
  {
    var n := |log| - 1;
    if i < n {
      EveryWriteIsGuarded(log[..n], i);
      if log[i].reg == FLOW {
        var j :| 0 <= j < i && log[..n][j] == FullSnapshot && Opened !in log[..n][j..i];
        assert log[..n][j..i] == log[j..i];
      }
    } else {
      assert InOrder(log[..n], log[n]);
      if log[i].reg == FLOW {
        var j := SnapshottedMeans(log[..n]);
        assert log[..n][j..] == log[j..i];
      }
    }
  }

  /** From state n on, only LED `id` differs from `from`, in bytes that keep it legal. */
  ghost predicate OnlyLegal(states: seq<Hw>, n: nat, id: nat, from: Hw)
    requires id < 4 && |from.leds| == 4
  {
    forall i :: n <= i < |states| ==> LegalStep(states[i], id, from)
  }

  ghost predicate LegalStep(hw: Hw, id: nat, from: Hw)
    requires id < 4 && |from.leds| == 4
  {
    Confined(hw, id, from) && (ValidRaw(from.leds[id]) ==> ValidRaw(hw.leds[id]))
  }

  /** What one transaction on LED `id` may do to the hardware: touch nothing else, and pass only through
      legal states of that LED when it started from one. */
  ghost predicate Transacted(before: seq<Hw>, from: Hw, after: seq<Hw>, to: Hw, id: nat)
    requires id < 4 && |from.leds| == 4
  {
    && before <= after && LegalStep(to, id, from) && OnlyLegal(after, |before|, id, from)
    && to == (if after == before then from else after[|after| - 1])
  }

  lemma TransactionsCompose(a: seq<Hw>, x: Hw, b: seq<Hw>, y: Hw, c: seq<Hw>, z: Hw, id: nat)
    requires id < 4 && |x.leds| == |y.leds| == 4
    requires Transacted(a, x, b, y, id) && Transacted(b, y, c, z, id)
    ensures Transacted(a, x, c, z, id)
  {
    forall i | |a| <= i < |c| ensures LegalStep(c[i], id, x) {
      if i < |b| { assert LegalStep(b[i], id, x) && c[i] == b[i]; } else { assert LegalStep(c[i], id, y); }
    }
  }

  /** From state n on, every LED was legal. */
  ghost predicate AlwaysLegal(states: seq<Hw>, n: nat) {
    forall i :: n <= i < |states| ==> AllValid(states[i].leds)
  }

  /** LEDs that the controller can run, by what they show: a blinking LED is on and off for at least 100 ms,
      a breathing one rises for at least a second and falls for at least half of one. */
  ghost predicate Runnable(leds: seq<Raw>) {
    forall i :: 0 <= i < |leds| ==>
      var v := Decode(leds[i]);
      v.mode <= 3 && (v.mode == 2 ==> v.onMs >= 100 && v.offMs >= 100) && (v.mode == 3 ==> v.onMs >= 1000 && v.offMs >= 500)
  }

  /** From state n on, every LED was runnable. */
  ghost predicate AlwaysRunnable(states: seq<Hw>, n: nat) {
    forall i :: n <= i < |states| ==> Runnable(states[i].leds)
  }

  lemma RunnableMeans(leds: seq<Raw>)
    ensures Runnable(leds) <==> AllValid(leds)
  {
  }

  lemma AlwaysRunnableMeans(states: seq<Hw>, n: nat)
    ensures AlwaysRunnable(states, n) <==> AlwaysLegal(states, n)
  {
    forall i | n <= i < |states| ensures Runnable(states[i].leds) <==> AllValid(states[i].leds) { RunnableMeans(states[i].leds); }
  }

  /** What every state of a transaction shows: the other LEDs as they were, and LED `id` runnable if it was. */
  lemma TransactionShows(before: seq<Hw>, from: Hw, after: seq<Hw>, to: Hw, id: nat, i: nat, k: nat)
    requires id < 4 && |from.leds| == 4 && Transacted(before, from, after, to, id)
    requires |before| <= i < |after| && k < 4
    ensures |after[i].leds| == 4 && after[i].flow == from.flow && (k != id ==> after[i].leds[k] == from.leds[k])
    ensures Runnable([from.leds[k]]) ==>
      var v := Decode(after[i].leds[k]);
      v.mode <= 3 && (v.mode == 2 ==> v.onMs >= 100 && v.offMs >= 100) && (v.mode == 3 ==> v.onMs >= 1000 && v.offMs >= 500)
  {
    assert LegalStep(after[i], id, from);
    RunnableMeans([from.leds[k]]);
    if Runnable([from.leds[k]]) {
      assert ValidRaw([from.leds[k]][0]);
      LegalMeans(after[i].leds[k]);
    }
  }

  /** From LEDs `from` to LEDs `to`, the new states showed four legal LEDs if the first one did. */
  ghost predicate LegalRun(before: seq<Hw>, from: seq<Raw>, after: seq<Hw>, to: seq<Raw>) {
    before <= after && (AllValid(from) ==> AllValid(to) && AlwaysLegal(after, |before|))
  }

  /** Where a transaction arrived was shown, unless it did nothing. */
  lemma LastIsShown(before: seq<Hw>, from: Hw, after: seq<Hw>, to: Hw, later: seq<Hw>, id: nat)
    requires id < 4 && |from.leds| == 4 && Transacted(before, from, after, to, id) && after <= later
    ensures to == from || exists i :: |before| <= i < |later| && later[i] == to
  {
    if after != before { assert later[|after| - 1] == to; }
  }

  /** A transaction on one LED is a legal run of all four. */
  lemma TransactionIsLegal(before: seq<Hw>, from: Hw, after: seq<Hw>, to: Hw, id: nat)
    requires id < 4 && |from.leds| == 4 && Transacted(before, from, after, to, id)
    ensures LegalRun(before, from.leds, after, to.leds)
  {
    if AllValid(from.leds) {
      forall i | |before| <= i < |after| ensures AllValid(after[i].leds) {
        assert LegalStep(after[i], id, from);
      }
    }
  }

  lemma LegalRunsCompose(a: seq<Hw>, x: seq<Raw>, b: seq<Hw>, y: seq<Raw>, c: seq<Hw>, z: seq<Raw>)
    requires LegalRun(a, x, b, y) && LegalRun(b, y, c, z)
    ensures LegalRun(a, x, c, z)
  {
    if AllValid(x) {
      forall i | |a| <= i < |c| ensures AllValid(c[i].leds) {
        if i < |b| { assert c[i] == b[i]; }
      }
    }
  }

  /** `hw` differs from `from` in LED `id` at most. */
  ghost predicate Confined(hw: Hw, id: nat, from: Hw)
    requires id < 4 && |from.leds| == 4
  {
    |hw.leds| == 4 && hw == from.(leds := from.leds[id := hw.leds[id]])
  }

  /** A running effect whose timing changes must be stopped first. */
  predicate Retimes(before: Raw, wanted: Raw) {
    before[MODE] >= 2 && (wanted[PERIOD] != before[PERIOD] || wanted[DUTY] != before[DUTY])
  }

  /** Where `commit` stands after handling the first i fields of ORDER. */
  ghost predicate Midway(cur: Raw, wanted: Raw, before: Raw, restore: bool, i: nat)
    requires i <= FIELDS
  {
    && (forall j :: 0 <= j < i ==> cur[ORDER[j]] == wanted[ORDER[j]])
    && (i < FIELDS ==> cur[MODE] == if restore || Retimes(before, wanted) then 0 else before[MODE])
    && (!restore ==> forall j :: i <= j < 6 ==> cur[ORDER[j]] == before[ORDER[j]])
  }

  /** Writing the next byte, or skipping it when it is already right, keeps the LED legal. */
  lemma MidwayStep(cur: Raw, wanted: Raw, before: Raw, restore: bool, i: nat)
    requires i < FIELDS && Midway(cur, wanted, before, restore, i)
    requires ValidRaw(wanted) && (!restore ==> ValidRaw(before))
    ensures var f, quiesce := ORDER[i], restore || Retimes(before, wanted);
      if restore || wanted[f] != before[f] || (quiesce && f == MODE)
      then Midway(cur[f := wanted[f]], wanted, before, restore, i + 1) &&
           (ValidRaw(cur) ==> ValidRaw(cur[f := wanted[f]]))
      else Midway(cur, wanted, before, restore, i + 1)
  {
    if i == 6 {
      var next: Raw := cur[MODE := wanted[MODE]];
      assert cur[ORDER[4]] == wanted[PERIOD] && cur[ORDER[5]] == wanted[DUTY];
      assert next[PERIOD] == wanted[PERIOD] && next[DUTY] == wanted[DUTY] && next[MODE] == wanted[MODE];
    } else {
      assert cur[ORDER[i]] == cur[ORDER[i]];
    }
  }

  lemma MidwayDone(cur: Raw, wanted: Raw, before: Raw, restore: bool)
    requires Midway(cur, wanted, before, restore, FIELDS)
    ensures cur == wanted
  {
    assert cur[ORDER[0]] == wanted[RED] && cur[ORDER[1]] == wanted[GREEN] && cur[ORDER[2]] == wanted[BLUE];
    assert cur[ORDER[3]] == wanted[BRIGHTNESS] && cur[ORDER[4]] == wanted[PERIOD];
    assert cur[ORDER[5]] == wanted[DUTY] && cur[ORDER[6]] == wanted[MODE];
  }

  /** The FLOW values sent since `before` are a prefix of [1, 0]. */
  ghost predicate TakenAndReturned(before: seq<byte>, now: seq<byte>) {
    now == before || now == before + [1] || now == before + [1] + [0]
  }

  class Controller {
    const board: Board
    const force: bool
    const apply: bool
    const holder: bool
    var confirmed: bool
    var restorePending: bool
    var identifySaved: bool
    var identifyId: nat
    var identifyOriginal: Raw
    var original: seq<Raw>
    var originalFlow: byte

    ghost predicate Valid()
      reads this, board
    {
      && board.Valid() && Disciplined(board.log)
      && |original| == 4
      && (identifySaved ==> identifyId < 4 && ValidRaw(identifyOriginal))
      && (restorePending ==>
            holder && AllValid(original) && originalFlow <= 1 && Snapshotted(board.log))
    }

    twostate predicate SameIdentify()
      reads this
    {
      && identifySaved == old(identifySaved) && identifyId == old(identifyId)
      && identifyOriginal == old(identifyOriginal)
    }

    /** Nothing was written and the hardware is as it was. */
    twostate predicate ReadOnly()
      reads this, board
    {
      && board.hw == old(board.hw) && board.flowTrace == old(board.flowTrace)
      && board.states == old(board.states)
    }

    /** No port access failed or was lost, and no check refused. */
    twostate predicate Clean()
      reads this, board
    {
      board.faults == old(board.faults)
    }

    /** Nothing failed, and the driver may work on this hardware. */
    twostate predicate Workable()
      reads this, board
    {
      Clean() && force && apply && old(board.hw).flow == 1 && AllValid(old(board.hw).leds)
    }

    constructor (board: Board, force: bool, apply: bool, holder: bool)
      requires board.Valid() && Disciplined(board.log)
      ensures Valid() && this.board == board && this.holder == holder
      ensures this.force == force && this.apply == apply
      ensures !restorePending && !identifySaved
    {
      this.board, this.force, this.apply, this.holder := board, force, apply, holder;
      confirmed, restorePending, identifySaved := false, false, false;
      identifyId, identifyOriginal := 0, [0, 0, 0, 0, 0, 0, 0];
      original := seq(4, _ => [0, 0, 0, 0, 0, 0, 0]);
      originalFlow := 0;
    }

    /** `address`: select the interface, then send the register number high byte first. */
    method Address(reg: u32) returns (ok: bool)
      requires Valid()
      modifies board`latch, board`faults
      ensures Valid()
      ensures ok ==> Recompose(board.latch) == reg
      ensures board.faults >= old(board.faults) && (Clean() ==> ok)
      ensures board.machine.quiet ==> Clean()
    {
      ok := board.WriteAddress(PORT_SELECT, 0);
      var k := 4;
      while k > 0 && ok
        invariant 0 <= k <= 4 && Valid()
        invariant board.faults >= old(board.faults) && (Clean() ==> ok) && (board.machine.quiet ==> Clean())
        invariant ok ==> forall j :: k <= j < 4 ==> board.latch[j] == AddressByte(reg, j)
      {
        k := k - 1;
        ok := board.WriteAddress(PORT_ADDRESS + k, AddressByte(reg, k));
      }
      if ok { AddressBytesRecompose(reg, board.latch); }
    }

    /** `ec_read`. */
    method EcRead(reg: u32) returns (ok: bool, value: byte)
      requires Valid() && reg in board.mem
      modifies board`latch, board`faults
      ensures Valid()
      ensures ok ==> value == board.mem[reg]
      ensures board.faults >= old(board.faults) && (Clean() ==> ok)
      ensures board.machine.quiet ==> Clean()
    {
      value := 0;
      ok := Address(reg);
      if ok { ok, value := board.ReadPort(); }
    }

    /** A read of one LED byte. */
    method ReadByte(id: nat, field: nat) returns (ok: bool, value: byte)
      requires Valid() && id < 4 && field < FIELDS
      modifies board`latch, board`faults
      ensures Valid()
      ensures ok ==> value == board.hw.leds[id][field]
      ensures board.faults >= old(board.faults) && (Clean() ==> ok)
      ensures board.machine.quiet ==> Clean()
    {
      ok, value := EcRead(RegAddress(id, field));
    }

    /** A read of FLOW. */
    method ReadFlow() returns (ok: bool, flow: byte)
      requires Valid()
      modifies board`latch, board`faults
      ensures Valid()
      ensures ok ==> flow == board.hw.flow
      ensures board.faults >= old(board.faults) && (Clean() ==> ok)
      ensures board.machine.quiet ==> Clean()
    {
      ok, flow := EcRead(FLOW);
    }

    /** The machine identity, owner, probe and permission checks. They may refuse at any time. */
    method CheckMachine() returns (refused: Option<Errno>)
      modifies board`faults
      ensures refused.Some? ==> board.faults > old(board.faults)
      ensures refused.None? ==> board.faults == old(board.faults)
      ensures board.machine.outage.Some? ==> refused == board.machine.outage
      ensures board.machine.quiet && board.machine.outage.None? ==> refused.None?
    {
      refused := *;
      if board.machine.quiet { refused := None; }
      if board.machine.outage.Some? { refused := board.machine.outage; }
      board.faults := board.faults + if refused.Some? then 1 else 0;
    }

    /** Note an event that is in order. */
    ghost method Record(e: Event)
      requires Valid() && InOrder(board.log, e) && (restorePending ==> e != Opened)
      modifies board`log
      ensures Valid() && board.log == old(board.log) + [e]
      ensures e == FullSnapshot ==> Snapshotted(board.log)
    {
      DisciplinedAppend(board.log, e);
      board.log := board.log + [e];
    }

    /** The FLOW part of a guard. */
    method CheckFlow(expected: int) returns (s: Status, flow: byte)
      requires Valid()
      modifies board`latch, board`faults
      ensures Valid() && board.faults >= old(board.faults) && (board.machine.quiet ==> Clean())
      ensures s.Ok? ==> flow == board.hw.flow <= 1 && (expected >= 0 ==> flow == expected)
      ensures s.Err? ==> s.note == Untouched
      ensures Clean() && board.hw.flow <= 1 && (expected >= 0 ==> board.hw.flow == expected) ==> s.Ok?
    {
      var ok;
      ok, flow := ReadFlow();
      s := if !ok then Err(EIO, Untouched)
           else if flow > 1 then Err(EBADMSG, Untouched)
           else if expected >= 0 && flow != expected then Err(EBUSY, Untouched)
           else Ok;
    }

    /** `guard_flow`; expected == -1 accepts both published FLOW values. Machine identity, owners
        and the chip probe are one check that may refuse at any time. */
    method GuardFlow(writing: bool, expected: int) returns (s: Status, flow: byte)
      requires Valid()
      modifies this`confirmed, board`latch, board`faults, board`log
      ensures Valid() && confirmed == s.Ok?
      ensures s.Ok? ==>
        && flow == board.hw.flow <= 1 && (expected >= 0 ==> flow == expected)
        && (writing ==> force && apply)
        && board.log == old(board.log) + [Guard(writing, force, apply, flow)]
      ensures s.Err? ==> s.note == Untouched && board.log == old(board.log)
      ensures board.faults >= old(board.faults)
      ensures (Clean() && (writing ==> force && apply) && board.hw.flow <= 1 &&
               (expected >= 0 ==> board.hw.flow == expected)) ==> s.Ok?
      ensures board.machine.outage.Some? && (writing ==> force && apply) ==> s == Err(board.machine.outage.value, Untouched)
      ensures board.machine.quiet && board.machine.outage.None? ==> Clean()
    {
      flow := 0;
      confirmed := false;
      if writing && (!apply || !force) { return Err(EPERM, Untouched), 0; }
      var refused := CheckMachine();
      if refused.Some? { return Err(refused.value, Untouched), 0; }
      s, flow := CheckFlow(expected);
      if s.Err? { return; }
      confirmed := true;
      Record(Guard(writing, force, apply, flow));
    }

    /** Seven register reads of one LED. */
    method ReadLed(id: nat) returns (ok: bool, raw: Raw)
      requires Valid() && id < 4
      modifies board`latch, board`faults
      ensures Valid()
      ensures ok ==> raw == board.hw.leds[id]
      ensures board.faults >= old(board.faults) && (Clean() ==> ok)
      ensures board.machine.quiet ==> Clean()
    {
      raw := [0, 0, 0, 0, 0, 0, 0];
      var i := 0;
      ok := true;
      while i < FIELDS
        invariant 0 <= i <= FIELDS && Valid() && board.faults >= old(board.faults) && (board.machine.quiet ==> Clean())
        invariant forall j :: 0 <= j < i ==> raw[j] == board.hw.leds[id][j]
      {
        var value;
        ok, value := ReadByte(id, i);
        if !ok { return; }
        raw := raw[i := value];
        i := i + 1;
      }
    }

    /** Two equal, legal reads of one LED. */
    method ReadTwice(id: nat) returns (s: Status, raw: Raw)
      requires Valid() && id < 4
      modifies board`latch, board`faults
      ensures Valid()
      ensures s.Ok? ==> raw == board.hw.leds[id] && ValidRaw(raw)
      ensures board.faults >= old(board.faults) && (Clean() && ValidRaw(board.hw.leds[id]) ==> s.Ok?)
      ensures s.Err? ==> s.note == Untouched
      ensures board.machine.quiet ==> Clean()
    {
      var ok, again;
      ok, raw := ReadLed(id);
      if !ok { return Err(EIO, Untouched), raw; }
      ok, again := ReadLed(id);
      if !ok { return Err(EIO, Untouched), raw; }
      s := if raw == again && ValidRaw(raw) then Ok else Err(EBADMSG, Untouched);
    }

    /** `snapshot`: two equal, legal reads of one LED between two guards. */
    method Snapshot(id: nat) returns (s: Status, raw: Raw)
      requires Valid()
      modifies this`confirmed, board`latch, board`faults, board`log
      ensures Valid()
      ensures s.Ok? ==> id < 4 && raw == board.hw.leds[id] && ValidRaw(raw) && board.hw.flow == 1 && confirmed
      ensures board.faults >= old(board.faults)
      ensures Clean() && id < 4 && board.hw.flow == 1 && ValidRaw(board.hw.leds[id]) ==> s.Ok?
      ensures s.Err? ==> s.note == Untouched
      ensures board.machine.outage.Some? && id < 4 ==> s == Err(board.machine.outage.value, Untouched) && !confirmed
      ensures id >= 4 ==> s == Err(EINVAL, Untouched) && confirmed == old(confirmed)
      ensures board.machine.quiet && board.machine.outage.None? ==> Clean()
    {
      raw := [0, 0, 0, 0, 0, 0, 0];
      if id >= 4 { return Err(EINVAL, Untouched), raw; }
      var flow;
      s, flow := GuardFlow(false, 1);
      if s.Err? { return; }
      s, raw := ReadTwice(id);
      if s.Err? { return; }
      s, flow := GuardFlow(false, 1);
    }

    /** 28 register reads. */
    method ReadAll() returns (ok: bool, raw: seq<Raw>)
      requires Valid()
      modifies board`latch, board`faults
      ensures Valid()
      ensures ok ==> raw == board.hw.leds
      ensures board.faults >= old(board.faults) && (Clean() ==> ok)
      ensures board.machine.quiet ==> Clean()
    {
      raw := [];
      ok := true;
      var id := 0;
      while id < 4
        invariant 0 <= id <= 4 && Valid() && board.faults >= old(board.faults) && (board.machine.quiet ==> Clean())
        invariant raw == board.hw.leds[..id]
      {
        var led;
        ok, led := ReadLed(id);
        if !ok { return; }
        raw := raw + [led];
        id := id + 1;
      }
    }

    /** Two equal complete reads with four legal LEDs. */
    method ReadStable() returns (s: Status, raw: seq<Raw>)
      requires Valid()
      modifies board`latch, board`faults
      ensures Valid()
      ensures s.Ok? ==> raw == board.hw.leds && AllValid(raw)
      ensures board.faults >= old(board.faults) && (Clean() && AllValid(board.hw.leds) ==> s.Ok?)
      ensures s.Err? ==> s.note == Untouched
      ensures board.machine.quiet ==> Clean()
    {
      var ok, again;
      ok, raw := ReadAll();
      if !ok { return Err(EIO, Untouched), raw; }
      ok, again := ReadAll();
      if !ok { return Err(EIO, Untouched), raw; }
      if raw != again { return Err(EBADMSG, Untouched), raw; }
      s := if AllValid(raw) then Ok else Err(EBADMSG, Untouched);
    }

    /** The guard that ends a complete snapshot, which makes it count. */
    method CloseSnapshot(flow: byte) returns (s: Status)
      requires Valid()
      modifies this`confirmed, board`latch, board`faults, board`log
      ensures Valid() && board.faults >= old(board.faults)
      ensures s.Ok? ==> board.hw.flow == flow <= 1 && confirmed && Snapshotted(board.log)
      ensures Clean() && board.hw.flow == flow <= 1 ==> s.Ok?
      ensures s.Err? ==> s.note == Untouched
      ensures board.machine.quiet && board.machine.outage.None? ==> Clean()
    {
      var seen;
      s, seen := GuardFlow(false, flow);
      if s.Ok? { Record(FullSnapshot); }
    }

    /** `snapshot_all`. */
    method SnapshotAll(flow: byte) returns (s: Status, raw: seq<Raw>)
      requires Valid()
      modifies this`confirmed, board`latch, board`faults, board`log
      ensures Valid()
      ensures s.Ok? ==> raw == board.hw.leds && AllValid(raw) && board.hw.flow == flow <= 1 && confirmed
      ensures s.Ok? ==> Snapshotted(board.log)
      ensures board.faults >= old(board.faults)
      ensures Clean() && AllValid(board.hw.leds) && board.hw.flow == flow <= 1 ==> s.Ok?
      ensures s.Err? ==> s.note == Untouched
      ensures board.machine.quiet && board.machine.outage.None? ==> Clean()
    {
      var seen;
      raw := [];
      s, seen := GuardFlow(false, flow);
      if s.Err? { return; }
      s, raw := ReadStable();
      if s.Err? { return; }
      s := CloseSnapshot(flow);
    }

    /** Send one value to a register, right after a guard that allows it. */
    method EcWrite(reg: u32, value: byte) returns (ok: bool)
      requires Valid() && InOrder(board.log, Wrote(reg, value))
      modifies board
      ensures Valid() && board.faults >= old(board.faults)
      ensures if board.states == old(board.states) then board.hw == old(board.hw) && board.flowTrace == old(board.flowTrace)
              else && board.states == old(board.states) + [board.hw]
                   && board.flowTrace == old(board.flowTrace) + (if reg == FLOW then [value] else [])
      ensures if reg == FLOW && value == 1 then board.hw.flow in {old(board.hw.flow), 1}
              else board.hw == old(board.hw) || board.hw == Stored(old(board.hw), reg, value)
      ensures ok ==> board.states != old(board.states)
      ensures Clean() ==> ok && board.hw == Stored(old(board.hw), reg, value)
      ensures board.KeepsStuck()
    {
      ok := Address(reg);
      if !ok { return; }
      ghost var log := board.log;
      ok := board.WriteData(value);
      DisciplinedAppend(log, Wrote(reg, value));
    }

    /** `change_flow`: one verified FLOW transition. */
    method ChangeFlow(before: byte, wanted: byte) returns (s: Status)
      requires Valid()
      modifies this`confirmed, board
      ensures Valid() && old(board.states) <= board.states
      ensures board.flowTrace == old(board.flowTrace) ||
              (wanted <= 1 && board.flowTrace == old(board.flowTrace) + [wanted])
      ensures board.flowTrace != old(board.flowTrace) ==> force && apply && old(board.hw.flow) == before
      ensures board.flowTrace == old(board.flowTrace) ==> board.hw == old(board.hw)
      ensures wanted != 1 ==> board.hw.leds == old(board.hw.leds)
      ensures forall i :: old(|board.states|) <= i < |board.states| ==> board.states[i] == board.hw
      ensures board.hw.flow in {old(board.hw.flow), wanted}
      ensures s.Ok? ==> board.hw.flow == wanted && board.flowTrace == old(board.flowTrace) + [wanted]
      ensures board.faults >= old(board.faults)
      ensures Clean() ==> board.hw.leds == old(board.hw.leds)
      ensures Clean() && holder && restorePending && force && apply && old(board.hw.flow) == before <= 1 && wanted <= 1 ==> s.Ok?
    {
      if !holder || !restorePending || before > 1 || wanted > 1 { return Err(EPERM, Untouched); }
      var flow, ok, actual;
      s, flow := GuardFlow(true, before);
      if s.Err? { return; }
      ok := EcWrite(FLOW, wanted);
      if !ok { return Err(EIO, Uncertain); }
      ok, actual := ReadFlow();
      if !ok || actual != wanted { return Err(EIO, Uncertain); }
      s, flow := GuardFlow(false, wanted);
    }

    /** Write one LED register, right after a guard that allows it, and read it back. */
    method StoreByte(id: nat, field: nat, value: byte) returns (s: Status)
      requires Valid() && id < 4 && field < FIELDS && InOrder(board.log, Wrote(RegAddress(id, field), value))
      modifies board
      ensures Valid() && board.flowTrace == old(board.flowTrace)
      ensures board.hw == old(board.hw) || board.hw == Stored(old(board.hw), RegAddress(id, field), value)
      ensures if board.states == old(board.states) then board.hw == old(board.hw) else board.states == old(board.states) + [board.hw]
      ensures s.Ok? ==> board.hw.leds[id][field] == value
      ensures board.faults >= old(board.faults) && (Clean() ==> s.Ok?)
      ensures board.KeepsStuck()
    {
      s := Err(EIO, Uncertain);
      var ok := EcWrite(RegAddress(id, field), value);
      if !ok { return; }
      var actual;
      ok, actual := ReadByte(id, field);
      if ok && actual == value { s := Ok; }
    }

    /** `write_byte`: guard, write one LED register, read it back. */
    method WriteByte(id: nat, field: nat, value: byte) returns (s: Status)
      requires Valid() && id < 4 && field < FIELDS
      modifies this`confirmed, board
      ensures Valid() && old(board.states) <= board.states && board.flowTrace == old(board.flowTrace)
      ensures board.hw == old(board.hw) || board.hw == Stored(old(board.hw), RegAddress(id, field), value)
      ensures if board.states == old(board.states) then board.hw == old(board.hw) else board.states == old(board.states) + [board.hw]
      ensures s.Ok? ==> board.hw.leds[id][field] == value && force && apply
      ensures board.faults >= old(board.faults) && (Clean() && force && apply && board.hw.flow == 1 ==> s.Ok?)
      ensures board.machine.outage.Some? && force && apply ==> s == Err(board.machine.outage.value, Untouched) && ReadOnly() && !confirmed
      ensures board.KeepsStuck()
    {
      var flow;
      s, flow := GuardFlow(true, 1);
      if s.Err? { return; }
      GuardAllows(board.log, id, field, value);
      s := StoreByte(id, field, value);
    }

    /** One transaction on LED `id`; FLOW is not written. */
    twostate predicate TransactionOn(id: nat)
      requires id < 4 && old(board.Valid())
      reads this, board
    {
      && Valid() && board.flowTrace == old(board.flowTrace) && board.faults >= old(board.faults)
      && Transacted(old(board.states), old(board.hw), board.states, board.hw, id)
    }

    /** A verified byte write that cannot make a legal LED illegal. */
    method WriteField(id: nat, field: nat, value: byte) returns (s: Status)
      requires Valid() && id < 4 && field < FIELDS
      requires ValidRaw(board.hw.leds[id]) ==> ValidRaw(board.hw.leds[id][field := value])
      modifies this`confirmed, board
      ensures TransactionOn(id)
      ensures s.Ok? ==> board.hw.leds[id] == old(board.hw.leds[id])[field := value]
      ensures Clean() && force && apply && old(board.hw.flow) == 1 ==> s.Ok?
      ensures board.machine.outage.Some? && force && apply ==> s == Err(board.machine.outage.value, Untouched) && ReadOnly() && !confirmed
      ensures board.KeepsStuck()
    {
      s := WriteByte(id, field, value);
    }

    /** One field of the writing loop of `commit`: written if it must be. */
    method WriteNext(id: nat, wanted: Raw, before: Raw, restore: bool, i: nat) returns (s: Status)
      requires Valid() && id < 4 && i < FIELDS && ValidRaw(wanted) && (!restore ==> ValidRaw(before))
      requires Midway(board.hw.leds[id], wanted, before, restore, i)
      modifies this`confirmed, board
      ensures TransactionOn(id) && board.KeepsStuck()
      ensures s.Ok? ==> Midway(board.hw.leds[id], wanted, before, restore, i + 1)
      ensures Clean() && force && apply && old(board.hw.flow) == 1 ==> s.Ok?
      ensures board.machine.outage.Some? && force && apply ==>
        ReadOnly() && (s.Err? ==> s == Err(board.machine.outage.value, Untouched) && !confirmed)
    {
      s := Ok;
      var field := ORDER[i];
      MidwayStep(board.hw.leds[id], wanted, before, restore, i);
      if restore || wanted[field] != before[field] || (Retimes(before, wanted) && field == MODE) {
        s := WriteField(id, field, wanted[field]);
      }
    }

    /** The writing loop of `commit`: the differing bytes in order, with the mode last. */
    method WriteFields(id: nat, wanted: Raw, before: Raw, restore: bool) returns (s: Status)
      requires Valid() && id < 4 && ValidRaw(wanted) && (!restore ==> ValidRaw(before))
      requires Midway(board.hw.leds[id], wanted, before, restore, 0)
      modifies this`confirmed, board
      ensures TransactionOn(id)
      ensures s.Ok? ==> board.hw.leds[id] == wanted
      ensures Clean() && force && apply && old(board.hw.flow) == 1 ==> s.Ok?
      ensures board.machine.outage.Some? && force && apply ==>
        ReadOnly() && (s.Err? ==> s == Err(board.machine.outage.value, Untouched) && !confirmed)
      ensures board.KeepsStuck()
    {
      s := Ok;
      var i := 0;
      while i < FIELDS
        invariant 0 <= i <= FIELDS && s.Ok? && TransactionOn(id)
        invariant Midway(board.hw.leds[id], wanted, before, restore, i)
        invariant (board.machine.outage.Some? && force && apply ==> ReadOnly()) && board.KeepsStuck()
      {
        ghost var states, hw := board.states, board.hw;
        s := WriteNext(id, wanted, before, restore, i);
        TransactionsCompose(old(board.states), old(board.hw), states, hw, board.states, board.hw, id);
        if s.Err? { return; }
        i := i + 1;
      }
      MidwayDone(board.hw.leds[id], wanted, before, restore);
    }

    /** `commit`: quiesce if needed, write the bytes, and check the complete result. */
    method Commit(id: nat, wanted: Raw, before: Raw, restore: bool) returns (s: Status)
      requires Valid() && id < 4 && ValidRaw(wanted)
      requires !restore ==> before == board.hw.leds[id] && ValidRaw(before)
      modifies this`confirmed, board
      ensures TransactionOn(id)
      ensures s.Ok? ==> board.hw.leds[id] == wanted && board.hw.flow == 1 && confirmed
      ensures Clean() && force && apply && old(board.hw.flow) == 1 ==> s.Ok?
      ensures board.machine.outage.Some? && force && apply ==> s == Err(board.machine.outage.value, Untouched) && ReadOnly() && !confirmed
      ensures board.KeepsStuck()
    {
      if restore || Retimes(before, wanted) {
        s := WriteField(id, MODE, 0);
        if s.Err? { return; }
      }
      ghost var states, hw := board.states, board.hw;
      s := WriteFields(id, wanted, before, restore);
      TransactionsCompose(old(board.states), old(board.hw), states, hw, board.states, board.hw, id);
      if s.Err? { return; }
      var actual;
      s, actual := Snapshot(id);
      if s.Ok? && actual != wanted { s := Err(EIO, Uncertain); }
    }

    /** `restore_after_error`: roll the LED back and say whether that worked. */
    method RestoreAfterError(id: nat, before: Raw, wanted: Raw, cause: Errno) returns (s: Status)
      requires Valid() && id < 4 && ValidRaw(before)
      modifies this`confirmed, board
      ensures TransactionOn(id) && s.Err? && s.note != Untouched
      ensures s.note == Restored ==> board.hw.leds[id] == before
      ensures board.KeepsStuck()
    {
      var r := Commit(id, before, wanted, true);
      s := if r.Err? then Err(r.code, Uncertain) else Err(cause, Restored);
    }

    /** A commit from the current bytes, rolled back if it fails. */
    method CommitOrRestore(id: nat, wanted: Raw, before: Raw) returns (s: Status)
      requires Valid() && id < 4 && ValidRaw(wanted) && ValidRaw(before) && before == board.hw.leds[id]
      modifies this`confirmed, board
      ensures TransactionOn(id)
      ensures s.Ok? ==> board.hw == old(board.hw).(leds := old(board.hw.leds)[id := wanted]) && confirmed
      ensures s.Err? ==> s.note != Untouched && (s.note == Restored ==> board.hw == old(board.hw))
      ensures Clean() && force && apply && old(board.hw.flow) == 1 ==> s.Ok?
      ensures board.KeepsStuck()
    {
      s := Commit(id, wanted, before, false);
      if s.Err? {
        ghost var states, hw := board.states, board.hw;
        s := RestoreAfterError(id, before, wanted, s.code);
        TransactionsCompose(old(board.states), old(board.hw), states, hw, board.states, board.hw, id);
      }
    }

    /** Starting with four legal LEDs, every state passed through had four legal LEDs. */
    twostate predicate KeptLegal()
      reads this, board
    {
      LegalRun(old(board.states), old(board.hw.leds), board.states, board.hw.leds)
    }

    /** `ugreenctl_led_cs201x_read`. */
    method Read(id: nat) returns (s: Status, value: Value)
      requires Valid()
      modifies this`confirmed, board`latch, board`faults, board`log
      ensures Valid()
      ensures s.Ok? ==> id < 4 && value == Decode(board.hw.leds[id])
      ensures s.Err? ==> value == ZERO_VALUE
      ensures id >= 4 ==> s == Err(EINVAL, Untouched) && confirmed == old(confirmed)
      ensures board.faults >= old(board.faults)
      ensures Clean() && id < 4 && board.hw.flow == 1 && ValidRaw(board.hw.leds[id]) ==> s.Ok?
      ensures s.Ok? ==> confirmed
      ensures Workable() && old(confirmed) ==> confirmed
      ensures board.machine.outage.Some? && id < 4 ==> s == Err(board.machine.outage.value, Untouched) && !confirmed
    {
      var raw;
      s, raw := Snapshot(id);
      value := if s.Ok? then Decode(raw) else ZERO_VALUE;
    }

    /** The check and snapshot every write operation starts with. */
    method Prepare(id: nat) returns (s: Status, before: Raw)
      requires Valid() && id < 4
      modifies this`confirmed, board`latch, board`faults, board`log
      ensures Valid()
      ensures s.Ok? ==> force && apply && before == board.hw.leds[id] && ValidRaw(before) && confirmed
      ensures board.machine.outage.Some? && force && apply ==> s == Err(board.machine.outage.value, Untouched) && !confirmed
      ensures board.faults >= old(board.faults)
      ensures Clean() && force && apply && old(board.hw.flow) == 1 && ValidRaw(board.hw.leds[id]) ==> s.Ok?
      ensures s.Err? ==> s.note == Untouched
      ensures board.machine.quiet && board.machine.outage.None? ==> Clean()
    {
      var flow;
      before := [0, 0, 0, 0, 0, 0, 0];
      s, flow := GuardFlow(true, 1);
      if s.Ok? { s, before := Snapshot(id); }
    }

    /** `ugreenctl_led_cs201x_apply`: all or restored. */
    method Apply(id: nat, patch: Patch) returns (s: Status, value: Value)
      requires Valid()
      modifies this`confirmed, board
      ensures KeptLegal()
      ensures id < 4 ==> TransactionOn(id)
      ensures s.Ok? ==>
        && id < 4 && PatchAllowed(patch) && !identifySaved && force && apply
        && board.hw == old(board.hw).(leds := old(board.hw.leds)[id := Wanted(old(board.hw.leds[id]), patch)])
        && value == Decode(board.hw.leds[id]) && confirmed
      ensures Workable() && old(confirmed) ==> confirmed
      ensures s.Err? && s.note != Uncertain ==> board.hw == old(board.hw)
      ensures s.Err? && s.note == Untouched ==> ReadOnly()
      ensures Valid() && (id >= 4 ==> s == Err(EINVAL, Untouched))
      ensures identifySaved && id < 4 ==> s == Err(EBUSY, Untouched)
      ensures s.Err? ==> value == ZERO_VALUE
      ensures (Workable() && id < 4 && !identifySaved &&
               !(PatchAllowed(patch) && ValidRaw(Wanted(old(board.hw.leds[id]), patch)))) ==> s == Err(EINVAL, Untouched)
      ensures board.machine.outage.Some? && force && apply && id < 4 && !identifySaved && PatchAllowed(patch) ==>
        s == Err(board.machine.outage.value, Untouched) && !confirmed
      ensures (Clean() && force && apply && old(board.hw.flow) == 1 && id < 4 && !identifySaved && PatchAllowed(patch) &&
               ValidRaw(old(board.hw.leds[id])) && ValidRaw(Wanted(old(board.hw.leds[id]), patch))) ==> s.Ok?
      ensures board.faults >= old(board.faults)
      ensures (Clean() && force && apply && old(board.hw.flow) == 1 && id < 4 && !identifySaved &&
               old(board.hw.leds[id])[MODE] <= 1 && patch.fields == NO_FIELDS.(mode := true, timing := true)) ==>
        && (patch.value.mode == 2 && patch.value.onMs % 50 == patch.value.offMs % 50 == 0 && patch.value.onMs + patch.value.offMs <= 12750 ==>
              (s.Ok? <==> patch.value.onMs >= 100 && patch.value.offMs >= 100))
        && (patch.value.mode == 3 && patch.value.onMs % 50 == patch.value.offMs % 50 == 0 && patch.value.onMs + patch.value.offMs <= 12750 ==>
              (s.Ok? <==> patch.value.onMs >= 1000 && patch.value.offMs >= 500))
    {
      if id < 4 { AcceptedExactly(board.hw.leds[id], patch); }
      value := ZERO_VALUE;
      if id >= 4 { return Err(EINVAL, Untouched), value; }
      if identifySaved { return Err(EBUSY, Untouched), value; }
      if !PatchAllowed(patch) { return Err(EINVAL, Untouched), value; }
      var before;
      s, before := Prepare(id);
      if s.Err? { return; }
      var wanted := Wanted(before, patch);
      if !ValidRaw(wanted) { return Err(EINVAL, Untouched), value; }
      s := CommitOrRestore(id, wanted, before);
      TransactionIsLegal(old(board.states), old(board.hw), board.states, board.hw, id);
      if s.Ok? { value := Decode(wanted); }
    }

    /** The LED's red register is stuck at a value that the identify pattern does not have. */
    predicate StuckAgainst(id: nat, hw: Hw)
      requires id < 4
      reads board.machine
    {
      |hw.leds| == 4 && board.machine.stuck == Some(RegAddress(id, RED)) && hw.leds[id][RED] != IDENTIFY[RED]
    }

    /** `ugreenctl_led_cs201x_begin_identify`. */
    method BeginIdentify(id: nat) returns (s: Status)
      requires Valid()
      modifies this`confirmed, this`identifySaved, this`identifyId, this`identifyOriginal, board
      ensures Valid()
      ensures KeptLegal()
      ensures id < 4 ==> TransactionOn(id)
      ensures id >= 4 ==> s == Err(EINVAL, Untouched)
      ensures s.Ok? ==> id < 4 && !old(identifySaved) && identifySaved && board.hw.leds[id] == IDENTIFY && confirmed
      ensures Workable() && old(confirmed) ==> confirmed
      ensures identifySaved && !old(identifySaved) ==>
        identifyId == id < 4 && identifyOriginal == old(board.hw.leds[id]) && force && apply
      ensures old(identifySaved) || !identifySaved ==> s.Err? && ReadOnly() && SameIdentifyOr(old(identifySaved))
      ensures s.Err? && s.note == Restored ==> board.hw == old(board.hw)
      ensures board.faults >= old(board.faults)
      ensures Clean() && force && apply && old(board.hw.flow) == 1 && id < 4 && !old(identifySaved) && ValidRaw(old(board.hw.leds[id])) ==> s.Ok?
      ensures (board.machine.quiet && board.machine.outage.None? && force && apply && old(board.hw.flow) == 1 && id < 4 &&
               !old(identifySaved) && ValidRaw(old(board.hw.leds[id])) && StuckAgainst(id, old(board.hw))) ==> s.Err? && identifySaved
    {
      if id >= 4 { return Err(EINVAL, Untouched); }
      if identifySaved { return Err(EBUSY, Untouched); }
      var before;
      s, before := Prepare(id);
      if s.Err? { return; }
      identifyOriginal, identifyId, identifySaved := before, id, true;
      s := CommitOrRestore(id, IDENTIFY, identifyOriginal);
      TransactionIsLegal(old(board.states), old(board.hw), board.states, board.hw, id);
    }

    twostate predicate SameIdentifyOr(saved: bool)
      reads this
    {
      if saved then SameIdentify() else !identifySaved
    }

    /** `ugreenctl_led_cs201x_end_identify`: put the saved bytes back, whatever is there now. */
    method EndIdentify(id: nat) returns (s: Status)
      requires Valid()
      modifies this`confirmed, this`identifySaved, board
      ensures Valid()
      ensures KeptLegal()
      ensures id < 4 ==> TransactionOn(id)
      ensures s.Ok? ==> id < 4 && old(identifySaved) && !identifySaved && id == identifyId &&
                        board.hw.leds[id] == identifyOriginal && confirmed
      ensures Workable() && old(confirmed) ==> confirmed
      ensures s.Err? ==> identifySaved == old(identifySaved)
      ensures board.machine.outage.Some? && force && apply && old(identifySaved) && id == identifyId ==>
        s == Err(board.machine.outage.value, Uncertain) && ReadOnly() && !confirmed
      ensures !old(identifySaved) || id != identifyId ==> ReadOnly()
      ensures id < 4 ==> (s == Err(ENOENT, Untouched) <== !old(identifySaved))
      ensures old(identifySaved) && s.Err? ==> s.note == Uncertain || id != identifyId
      ensures board.faults >= old(board.faults)
      ensures Clean() && force && apply && old(board.hw.flow) == 1 && id < 4 && old(identifySaved) && id == identifyId ==> s.Ok?
    {
      if id >= 4 { return Err(EINVAL, Untouched); }
      if !identifySaved { return Err(ENOENT, Untouched); }
      if id != identifyId { return Err(EINVAL, Untouched); }
      s := Commit(id, identifyOriginal, identifyOriginal, true);
      TransactionIsLegal(old(board.states), old(board.hw), board.states, board.hw, id);
      if s.Err? { return Err(s.code, Uncertain); }
      identifySaved := false;
    }

    /** `ugreenctl_led_cs201x_identify`: blink for a while, then put the bytes back. */
    method Identify(id: nat, seconds: nat, cancelledFirst: bool, cancelled: bool) returns (s: Status)
      requires Valid()
      modifies this`confirmed, board
      ensures Valid()
      ensures id < 4 ==> TransactionOn(id)
      ensures s.Ok? ==> !cancelled && board.hw == old(board.hw)
      ensures s.Ok? ==>
        && id < 4
        && (old(board.hw.leds[id]) == IDENTIFY || exists i :: old(|board.states|) <= i < |board.states| && board.states[i].leds[id] == IDENTIFY)
      ensures board.faults >= old(board.faults)
      ensures (Clean() && force && apply && old(board.hw.flow) == 1 && id < 4 && 1 <= seconds <= 60 && !identifySaved && !cancelledFirst && !cancelled &&
               ValidRaw(old(board.hw.leds[id]))) ==> s.Ok?
      ensures s.Err? && s.note != Uncertain ==> board.hw == old(board.hw)
    {
      if id >= 4 || seconds < 1 || seconds > 60 { return Err(EINVAL, Untouched); }
      if identifySaved { return Err(EBUSY, Untouched); }
      var flow, before;
      s, flow := GuardFlow(true, 1);
      if s.Err? { return; }
      if cancelledFirst { return Err(EINTR, Untouched); }
      s, before := Snapshot(id);
      if s.Err? { return; }
      s := CommitOrRestore(id, IDENTIFY, before);
      if s.Err? { return; }
      ghost var states, hw := board.states, board.hw;
      s := Commit(id, before, IDENTIFY, true);
      LastIsShown(old(board.states), old(board.hw), states, hw, board.states, id);
      TransactionsCompose(old(board.states), old(board.hw), states, hw, board.states, board.hw, id);
      if s.Err? { return Err(s.code, Uncertain); }
      if cancelled { s := Err(EINTR, Restored); }
    }

    /** One LED of the baseline, committed unconditionally. */
    method RestoreLed(id: nat) returns (s: Status)
      requires Valid() && restorePending && id < 4
      modifies this`confirmed, board
      ensures Valid() && KeptLegal() && Confined(board.hw, id, old(board.hw))
      ensures board.faults >= old(board.faults) && (Clean() && force && apply && old(board.hw.flow) == 1 ==> s.Ok?)
      ensures board.flowTrace == old(board.flowTrace)
      ensures s.Ok? ==> board.hw.leds[id] == original[id] && board.hw.flow == 1
    {
      s := Commit(id, original[id], original[id], true);
      TransactionIsLegal(old(board.states), old(board.hw), board.states, board.hw, id);
    }

    /** The baseline's 28 bytes, written and then checked as a whole. */
    method RestoreLeds() returns (s: Status)
      requires Valid() && restorePending
      modifies this`confirmed, board
      ensures Valid() && KeptLegal() && board.flowTrace == old(board.flowTrace)
      ensures board.hw.flow == old(board.hw.flow)
      ensures s.Ok? ==> board.hw == Hw(original, 1)
      ensures board.faults >= old(board.faults) && (Clean() && force && apply && old(board.hw.flow) == 1 ==> s.Ok?)
    {
      var id := 0;
      s := Ok;
      while id < 4
        invariant 0 <= id <= 4 && Valid() && KeptLegal() && board.flowTrace == old(board.flowTrace)
        invariant restorePending && board.hw.flow == old(board.hw.flow) && board.faults >= old(board.faults)
        invariant forall j :: 0 <= j < id ==> board.hw.leds[j] == original[j]
      {
        ghost var mid, leds := board.states, board.hw.leds;
        s := RestoreLed(id);
        LegalRunsCompose(old(board.states), old(board.hw.leds), mid, leds, board.states, board.hw.leds);
        if s.Err? { return; }
        id := id + 1;
      }
      var actual;
      s, actual := SnapshotAll(1);
      if s.Ok? && actual != original { s := Err(EIO, Uncertain); }
    }

    /** FLOW was written at most once, with 0, and only to return a FLOW that was taken. */
    twostate predicate GaveFlowBack()
      reads this, board
    {
      || board.flowTrace == old(board.flowTrace)
      || (board.flowTrace == old(board.flowTrace) + [0] && originalFlow == 0 && old(board.hw.flow) == 1)
    }

    /** The FLOW 1 branch of `restore_holder`. */
    method RestoreUnderFlow() returns (s: Status)
      requires Valid() && restorePending && board.hw.flow == 1
      modifies this`confirmed, board
      ensures board.faults >= old(board.faults) && (Clean() && force && apply ==> s.Ok?)
      ensures Valid() && KeptLegal() && GaveFlowBack()
      ensures s.Ok? ==> board.hw == Hw(original, originalFlow)
    {
      s := RestoreLeds();
      if s.Err? { return; }
      if originalFlow == 0 {
        ghost var mid, leds := board.states, board.hw.leds;
        s := ChangeFlow(1, 0);
        LegalRunsCompose(old(board.states), old(board.hw.leds), mid, leds, board.states, board.hw.leds);
      }
    }

    /** Finish a pending identify; its outcome does not matter to what follows. */
    method FinishIdentify()
      requires Valid()
      modifies this`confirmed, this`identifySaved, board
      ensures board.faults >= old(board.faults)
      ensures Valid() && KeptLegal() && board.flowTrace == old(board.flowTrace)
      ensures board.hw.flow == old(board.hw.flow)
    {
      if identifySaved {
        var ended := EndIdentify(identifyId);
      }
    }

    /** Bring the hardware to the baseline, or refuse when FLOW was changed by someone else. */
    method RestoreBaseline() returns (s: Status)
      requires Valid() && restorePending
      modifies this`confirmed, board
      ensures board.faults >= old(board.faults) && (Clean() && force && apply && old(board.hw.flow) == 1 ==> s.Ok?)
      ensures Valid() && KeptLegal() && GaveFlowBack()
      ensures s.Ok? ==> board.hw == Hw(original, originalFlow)
    {
      var flow, actual;
      s, flow := GuardFlow(true, -1);
      if s.Err? { return; }
      if flow == 0 {
        if originalFlow != 0 { return Err(EBUSY, Uncertain); }
        s, actual := SnapshotAll(0);
        if s.Ok? && actual != original { s := Err(EBUSY, Uncertain); }
      } else {
        ghost var mid, leds := board.states, board.hw.leds;
        s := RestoreUnderFlow();
        LegalRunsCompose(old(board.states), old(board.hw.leds), mid, leds, board.states, board.hw.leds);
      }
    }

    /** `restore_holder`: on success the LEDs and FLOW are the baseline's, whatever state the
        hardware was in before. */
    method RestoreHolder() returns (s: Status)
      requires Valid()
      modifies this`confirmed, this`restorePending, this`identifySaved, board
      ensures board.faults >= old(board.faults) && (Clean() && force && apply && old(board.hw.flow) == 1 ==> s.Ok?)
      ensures Valid() && KeptLegal() && GaveFlowBack()
      ensures !(holder && old(restorePending)) ==> s.Ok? && board.hw == old(board.hw)
      ensures holder && old(restorePending) && s.Ok? ==>
        board.hw == Hw(original, originalFlow) && !restorePending && !identifySaved
      ensures s.Err? ==> restorePending == old(restorePending)
    {
      if !holder || !restorePending { return Ok; }
      FinishIdentify();
      ghost var mid, leds := board.states, board.hw.leds;
      s := RestoreBaseline();
      LegalRunsCompose(old(board.states), old(board.hw.leds), mid, leds, board.states, board.hw.leds);
      if s.Ok? { restorePending, identifySaved := false, false; }
    }

    /** The checks a holder starts with, and FLOW as it finds it. */
    method Inspect(takeover: bool) returns (s: Status, flow: byte)
      requires Valid() && !restorePending
      modifies this`confirmed, board`latch, board`faults, board`log
      ensures Valid() && board.faults >= old(board.faults)
      ensures s.Ok? ==> force && apply && flow == board.hw.flow <= 1 && (flow == 0 ==> takeover)
      ensures s.Err? ==> s.note == Untouched
      ensures Clean() && force && apply && (board.hw.flow == 1 || (board.hw.flow == 0 && takeover)) ==> s.Ok?
      ensures board.machine.quiet && board.machine.outage.None? ==> Clean()
    {
      if !force || !apply { return Err(EPERM, Untouched), 0; }
      Record(Opened);
      var refused := CheckMachine();
      if refused.Some? { return Err(refused.value, Untouched), 0; }
      s, flow := GuardFlow(false, -1);
      if s.Ok? && flow == 0 && !takeover { s := Err(EBUSY, Untouched); }
    }

    /** The first half of `open_context` for a holder: check, and capture the baseline. */
    method Capture(takeover: bool) returns (s: Status)
      requires Valid() && holder && !restorePending && !identifySaved
      modifies this`confirmed, this`restorePending, this`original, this`originalFlow
      modifies board`latch, board`faults, board`log
      ensures Valid() && board.faults >= old(board.faults)
      ensures s.Ok? ==>
        && force && apply && restorePending && (originalFlow == 0 ==> takeover)
        && board.hw == Hw(original, originalFlow) && AllValid(original)
      ensures s.Err? ==> s.note == Untouched && !restorePending
      ensures (Clean() && force && apply && AllValid(board.hw.leds) &&
               (board.hw.flow == 1 || (board.hw.flow == 0 && takeover))) ==> s.Ok?
      ensures board.machine.quiet && board.machine.outage.None? ==> Clean()
    {
      s, originalFlow := Inspect(takeover);
      if s.Err? { return; }
      var saved;
      s, saved := SnapshotAll(originalFlow);
      if s.Err? { return; }
      original, restorePending := saved, true;
    }

    /** The second half: take FLOW over, and roll everything back if that does not end with an
        undisturbed baseline under FLOW 1. */
    method TakeOver() returns (s: Status)
      requires Valid() && holder && restorePending && !identifySaved && board.hw == Hw(original, originalFlow)
      modifies this`confirmed, this`restorePending, this`identifySaved, board
      ensures Valid() && board.faults >= old(board.faults)
      ensures s.Ok? ==> restorePending && !identifySaved && confirmed && board.hw == Hw(original, 1) && KeptLegal()
      ensures s.Ok? ==> board.flowTrace == old(board.flowTrace) + (if originalFlow == 0 then [1] else [])
      ensures s.Err? ==> s.note != Untouched && (s.note == Restored ==> board.hw == old(board.hw))
      ensures Clean() && force && apply ==> s.Ok?
      ensures TakenAndReturned(old(board.flowTrace), board.flowTrace)
      ensures originalFlow == 1 ==> board.flowTrace == old(board.flowTrace)
      ensures board.flowTrace == old(board.flowTrace) ==> KeptLegal()
      ensures board.machine.quiet && board.machine.outage.None? && originalFlow == 1 && force && apply ==> s.Ok?
    {
      s := TakeFlow();
      if s.Err? {
        ghost var mid, leds := board.states, board.hw.leds;
        var recovered := RestoreHolder();
        if board.flowTrace == old(board.flowTrace) {
          LegalRunsCompose(old(board.states), old(board.hw.leds), mid, leds, board.states, board.hw.leds);
        }
        s := if recovered.Err? then Err(recovered.code, Uncertain) else Err(s.code, Restored);
      }
    }

    /** `open_context` for a holder: on success it holds FLOW at 1 over an unchanged baseline. */
    method OpenHolder(takeover: bool) returns (s: Status)
      requires Valid() && holder && !restorePending && !identifySaved
      modifies this`confirmed, this`restorePending, this`identifySaved, this`original, this`originalFlow, board
      ensures Valid()
      ensures s.Ok? ==>
        && force && apply && restorePending && !identifySaved && confirmed && AllValid(original) && KeptLegal()
        && original == old(board.hw.leds) && originalFlow == old(board.hw.flow)
        && board.hw == Hw(original, 1) && (originalFlow == 0 ==> takeover)
        && board.flowTrace == old(board.flowTrace) + (if originalFlow == 0 then [1] else [])
      ensures s.Err? && s.note != Uncertain ==> board.hw == old(board.hw)
      ensures old(board.hw.flow) == 1 || !takeover ==> board.flowTrace == old(board.flowTrace)
      ensures board.faults >= old(board.faults)
      ensures (Clean() && force && apply && AllValid(old(board.hw.leds)) &&
               (old(board.hw.flow) == 1 || (old(board.hw.flow) == 0 && takeover))) ==> s.Ok?
      ensures TakenAndReturned(old(board.flowTrace), board.flowTrace)
      ensures board.flowTrace == old(board.flowTrace) ==> KeptLegal()
      ensures (board.machine.quiet && board.machine.outage.None? && force && apply && AllValid(old(board.hw.leds)) &&
               old(board.hw.flow) == 1) ==> s.Ok?
    {
      s := Capture(takeover);
      if s.Ok? { s := TakeOver(); }
    }

    /** Take FLOW over if it was 0, and check that this left the LEDs alone. */
    method TakeFlow() returns (s: Status)
      requires Valid() && restorePending && board.hw == Hw(original, originalFlow)
      modifies this`confirmed, board
      ensures Valid()
      ensures s.Ok? ==> board.hw == Hw(original, 1) && confirmed && KeptLegal()
      ensures board.flowTrace == old(board.flowTrace) ||
              (originalFlow == 0 && board.flowTrace == old(board.flowTrace) + [1])
      ensures s.Ok? && originalFlow == 0 ==> board.flowTrace != old(board.flowTrace)
      ensures board.faults >= old(board.faults) && (Clean() && force && apply ==> s.Ok?)
      ensures board.flowTrace == old(board.flowTrace) ==> board.hw == old(board.hw) && KeptLegal()
      ensures board.machine.quiet && board.machine.outage.None? && originalFlow == 1 ==> Clean()
    {
      s := Ok;
      if originalFlow == 0 { s := ChangeFlow(0, 1); }
      if s.Ok? {
        var actual;
        s, actual := SnapshotAll(1);
        if s.Ok? && actual != original { s := Err(EIO, Uncertain); }
      }
    }

    /** `ugreenctl_led_cs201x_restore_close`. */
    method RestoreClose() returns (s: Status)
      requires Valid()
      modifies this`confirmed, this`restorePending, this`identifySaved, board
      ensures board.faults >= old(board.faults) && (Clean() && force && apply && old(board.hw.flow) == 1 ==> s.Ok?)
      ensures Valid() && KeptLegal()
      ensures holder && old(restorePending) && s.Ok? ==> board.hw == Hw(original, originalFlow)
      ensures !holder && s.Ok? && old(identifySaved) ==> board.hw.leds[identifyId] == identifyOriginal
      ensures GaveFlowBack()
    {
      s := Ok;
      if holder { s := RestoreHolder(); }
      else if identifySaved {
        s := EndIdentify(identifyId);
      }
    }
  }

  /** One thing that can happen while a holder is open. Between two operations another program may write
      a register (`Foreign`) and a machine outage may begin or end (`Environment`). */
  datatype Command =
    | ReadCommand(id: nat)
    | ApplyCommand(id: nat, patch: Patch)
    | BeginCommand(id: nat)
    | EndCommand(id: nat)
    | Foreign(reg: u32, value: byte)
    | Environment(outage: Option<Errno>)

  predicate TouchesFlow(command: Command) { command.Foreign? && command.reg == FLOW }

  /** A driver between two commands. */
  datatype Moment = Moment(hw: Hw, saved: Option<(nat, Raw)>, faults: nat, mayWrite: bool)

  ghost function Now(c: Controller): Moment
    reads c, c.board
  {
    Moment(c.board.hw, if c.identifySaved then Some((c.identifyId, c.identifyOriginal)) else None, c.board.faults,
           c.force && c.apply)
  }

  /** Nothing failed, and the driver may work on this hardware. */
  predicate Unhindered(a: Moment, b: Moment) {
    a.faults == b.faults && a.mayWrite && a.hw.flow == 1 && AllValid(a.hw.leds)
  }

  /** What an APPLY does. */
  ghost predicate DidApply(a: Moment, id: nat, p: Patch, s: Status, b: Moment) {
    && |a.hw.leds| == 4 && b.saved == a.saved
    && (s.Ok? ==> id < 4 && PatchAllowed(p) && a.saved.None? &&
                  b.hw == a.hw.(leds := a.hw.leds[id := Wanted(a.hw.leds[id], p)]))
    && (s.Err? && s.note != Uncertain ==> b.hw == a.hw)
    && (Unhindered(a, b) && id < 4 && a.saved.None? && PatchAllowed(p) && ValidRaw(Wanted(a.hw.leds[id], p)) ==> s.Ok?)
  }

  /** What BEGIN does: whatever happens to the LED, its bytes are saved once it may have been written. */
  ghost predicate DidBegin(a: Moment, id: nat, s: Status, b: Moment) {
    && |a.hw.leds| == |b.hw.leds| == 4
    && (s.Ok? ==> id < 4 && a.saved.None? && b.saved.Some? && b.hw.leds[id] == IDENTIFY)
    && (if b.saved != a.saved then id < 4 && a.saved.None? && b.saved == Some((id, a.hw.leds[id])) else s.Err? && b.hw == a.hw)
    && (Unhindered(a, b) && id < 4 && a.saved.None? ==> s.Ok?)
  }

  /** What END does: success puts the saved bytes back, failure keeps them saved. */
  ghost predicate DidEnd(a: Moment, id: nat, s: Status, b: Moment) {
    && |b.hw.leds| == 4
    && (s.Ok? ==> id < 4 && a.saved.Some? && a.saved.value.0 == id && b.saved.None? && b.hw.leds[id] == a.saved.value.1)
    && (s.Err? ==> b.saved == a.saved)
    && (Unhindered(a, b) && id < 4 && a.saved.Some? && a.saved.value.0 == id ==> s.Ok?)
  }

  ghost predicate Did(a: Moment, command: Command, s: Status, b: Moment) {
    && a.faults <= b.faults && a.mayWrite == b.mayWrite && (!TouchesFlow(command) ==> b.hw.flow == a.hw.flow)
    && match command
       case ReadCommand(id) => b.hw == a.hw && b.saved == a.saved && (Unhindered(a, b) ==> (s.Ok? <==> id < 4))
       case ApplyCommand(id, patch) => DidApply(a, id, patch, s, b)
       case BeginCommand(id) => DidBegin(a, id, s, b)
       case EndCommand(id) => DidEnd(a, id, s, b)
       case Foreign(reg, value) => |a.hw.leds| == 4 && b == a.(hw := Stored(a.hw, reg, value))
       case Environment(outage) => b == a
  }

  method RunCommand(c: Controller, command: Command) returns (s: Status)
    requires c.Valid()
    modifies c`confirmed, c`identifySaved, c`identifyId, c`identifyOriginal, c.board, c.board.machine
    ensures c.Valid() && c.board.flowTrace == old(c.board.flowTrace) && Did(old(Now(c)), command, s, Now(c))
    ensures if command.Foreign? then c.board.states == old(c.board.states) else c.KeptLegal()
    ensures command.Environment? ==> c.board.machine.outage == command.outage
  {
    s := Ok;
    match command
    case ReadCommand(id) =>
      var v;
      s, v := c.Read(id);
    case ApplyCommand(id, patch) =>
      var v;
      s, v := c.Apply(id, patch);
    case BeginCommand(id) => s := c.BeginIdentify(id);
    case EndCommand(id) => s := c.EndIdentify(id);
    case Foreign(reg, value) => c.board.Store(reg, value);
    case Environment(outage) => c.board.machine.outage := outage;
  }

  /** One command of a holder's life. */
  datatype Act = Act(before: Moment, s: Status, after: Moment)

  /** The commands one after the other, from moment a to moment b. */
  ghost predicate Acted(a: Moment, commands: seq<Command>, acts: seq<Act>, b: Moment) {
    && |acts| <= |commands|
    && (if acts == [] then a == b
        else
          var n := |acts| - 1;
          && Acted(a, commands, acts[..n], acts[n].before) && acts[n].after == b
          && Did(acts[n].before, commands[n], acts[n].s, b))
  }

  lemma ActedAppend(a: Moment, commands: seq<Command>, acts: seq<Act>, act: Act)
    requires Acted(a, commands, acts, act.before) && |acts| < |commands|
    requires Did(act.before, commands[|acts|], act.s, act.after)
    ensures Acted(a, commands, acts + [act], act.after)
  {
    var all := acts + [act];
    assert all[..|acts|] == acts && all[|acts|] == act;
    assert Acted(a, commands, all[..|acts|], all[|acts|].before);
  }

  lemma {:induction false} ActedKeepsFlow(a: Moment, commands: seq<Command>, acts: seq<Act>, b: Moment)
    requires Acted(a, commands, acts, b)
    ensures a.faults <= b.faults
    ensures (forall i :: 0 <= i < |acts| ==> !TouchesFlow(commands[i])) ==> b.hw.flow == a.hw.flow
    decreases |acts|
  {
    if acts != [] { ActedKeepsFlow(a, commands, acts[..|acts| - 1], acts[|acts| - 1].before); }
  }

  /** The commands of a holder, one after the other. */
  method RunCommands(c: Controller, commands: seq<Command>) returns (done: seq<Status>, ghost acts: seq<Act>)
    requires c.Valid()
    modifies c`confirmed, c`identifySaved, c`identifyId, c`identifyOriginal, c.board, c.board.machine
    ensures c.Valid() && c.board.flowTrace == old(c.board.flowTrace)
    ensures |done| == |acts| == |commands| && Acted(old(Now(c)), commands, acts, Now(c))
    ensures forall i :: 0 <= i < |acts| ==> done[i] == acts[i].s
    ensures (forall i :: 0 <= i < |commands| ==> !commands[i].Foreign?) ==> c.KeptLegal()
  {
    done, acts := [], [];
    ghost var start := Now(c);
    while |done| < |commands|
      invariant c.Valid() && c.board.flowTrace == old(c.board.flowTrace)
      invariant |done| == |acts| <= |commands| && Acted(start, commands, acts, Now(c))
      invariant forall i :: 0 <= i < |acts| ==> done[i] == acts[i].s
      invariant (forall i :: 0 <= i < |done| ==> !commands[i].Foreign?) ==> c.KeptLegal()
    {
      ghost var before, mid, leds := Now(c), c.board.states, c.board.hw.leds;
      var s := RunCommand(c, commands[|done|]);
      if forall i :: 0 <= i <= |done| ==> !commands[i].Foreign? {
        LegalRunsCompose(old(c.board.states), old(c.board.hw.leds), mid, leds, c.board.states, c.board.hw.leds);
      }
      ActedAppend(start, commands, acts, Act(before, s, Now(c)));
      done, acts := done + [s], acts + [Act(before, s, Now(c))];
    }
  }

  /** A whole holder life: open, any commands with any faults, restore and close. Every command is carried out
      as its outcome says. If the close reports success, the 28 LED bytes and FLOW are those captured at open;
      so they are after a failed open that does not report uncertainty. FLOW was written at most once each
      way, and never when it was already 1. Without faults or a foreign FLOW write, both ends succeed, and
      without any foreign write every LED was legal at every moment since the open. */
  method HolderLife(board: Board, force: bool, apply: bool, takeover: bool, commands: seq<Command>)
    returns (started: Status, closed: Status, done: seq<Status>, ghost acts: seq<Act>, ghost last: Moment)
    requires board.Valid() && Disciplined(board.log)
    modifies board, board.machine
    ensures board.Valid() && Disciplined(board.log)
    ensures started.Ok? ==>
      && |done| == |acts| == |commands| && (forall i :: 0 <= i < |acts| ==> done[i] == acts[i].s)
      && exists first: Moment :: first.hw == Hw(old(board.hw.leds), 1) && first.saved.None? && Acted(first, commands, acts, last)
    ensures started.Ok? && closed.Ok? ==> board.hw == old(board.hw)
    ensures started.Err? && started.note != Uncertain ==> board.hw == old(board.hw)
    ensures TakenAndReturned(old(board.flowTrace), board.flowTrace)
    ensures old(board.hw.flow) == 1 || !takeover ==> board.flowTrace == old(board.flowTrace)
    ensures (board.faults == old(board.faults) && force && apply && Runnable(old(board.hw.leds)) &&
             (old(board.hw.flow) == 1 || (old(board.hw.flow) == 0 && takeover)) &&
             forall i :: 0 <= i < |commands| ==> !TouchesFlow(commands[i])) ==> started.Ok? && closed.Ok?
    ensures started.Ok? && (forall i :: 0 <= i < |commands| ==> !commands[i].Foreign?) ==>
      AlwaysRunnable(board.states, old(|board.states|))
    ensures started.Err? && board.flowTrace == old(board.flowTrace) && Runnable(old(board.hw.leds)) ==>
      AlwaysRunnable(board.states, old(|board.states|))
  {
    RunnableMeans(board.hw.leds);
    closed, done, acts := Ok, [], [];
    var c := new Controller(board, force, apply, true);
    started := c.OpenHolder(takeover);
    last := Now(c);
    AlwaysRunnableMeans(board.states, old(|board.states|));
    if started.Err? { return; }
    ghost var first, states, leds := Now(c), board.states, board.hw.leds;
    done, acts := RunCommands(c, commands);
    last := Now(c);
    ActedKeepsFlow(first, commands, acts, last);
    ghost var mid, shown := board.states, board.hw.leds;
    closed := c.RestoreClose();
    if forall i :: 0 <= i < |commands| ==> !commands[i].Foreign? {
      LegalRunsCompose(old(board.states), old(board.hw.leds), states, leds, mid, shown);
      LegalRunsCompose(old(board.states), old(board.hw.leds), mid, shown, board.states, board.hw.leds);
    }
    AlwaysRunnableMeans(board.states, old(|board.states|));
  }
}
