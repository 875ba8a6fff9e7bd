/** The N76 register-write planner (led/led_n76_protocol.c) and what its plans do to the chip. */
module N76 {
  import opened Base
  import opened Led

  datatype Model = DH2600 | DXP480T

  datatype Write = Write(reg: byte, value: byte, settleMs: nat)

  datatype Plan = Plan(commands: seq<Write>, modeRegisters: seq<byte>, expectedModes: seq<byte>)

  const CLEAR: byte := 0xb1
  const SET: byte := 0xa0
  const CAPACITY := 12

  /** The profile's entry for an LED. */
  function Target(model: Model, id: nat): Descriptor {
    if model == DH2600 then Descriptor(id, false, {OFF, ON, BLINK}, {1, 2, 3}, 0, 1, 20, 20, 0, 0, 0, 0)
    else Descriptor(id, false, {OFF, ON, BLINK}, {1, 2, 3}, 2, 254, 20, 20, 0, 0, 0, 0)
  }

  /** The checks before planning. */
  predicate Plannable(model: Model, id: nat, p: Patch) {
    var f, v := p.fields, p.value;
    && (if model == DH2600 then id <= 2 else id == 0)
    && ValidTargetPatch(Target(model, id), p)
    && f.mode && v.mode != BREATH
    && (v.mode == OFF ==> f == NO_FIELDS.(mode := true))
    && (v.mode != OFF ==> f.color)
    && (model == DH2600 && f.brightness ==> v.brightness == 1)
    && (v.mode == BLINK ==> v.color == 1 || v.color == 2)
  }

  /** The first of the two output bits of an LED. */
  function FirstBit(id: nat): nat { if id == 1 then 4 else if id == 2 then 2 else 0 }

  /** The plan's fixed array of commands. */
  class Buffer {
    const commands: array<Write>
    var count: nat

    constructor ()
      ensures Valid() && Contents() == [] && fresh(commands)
    {
      commands := new Write[CAPACITY](_ => Write(0, 0, 0));
      count := 0;
    }

    ghost predicate Valid()
      reads this
    {
      count <= commands.Length == CAPACITY
    }

    ghost function Contents(): seq<Write>
      requires Valid()
      reads this, commands
    {
      commands[..count]
    }

    /** `append`. */
    method Append(reg: byte, value: byte)
      requires Valid() && count < CAPACITY
      modifies this`count, commands
      ensures Valid() && Contents() == old(Contents()) + [Entry(reg, value)] && count == old(count) + 1
    {
      commands[count] := Entry(reg, value);
      count := count + 1;
    }
  }

  function Entry(reg: byte, value: byte): Write {
    Write(reg, value, if reg == SET || reg == CLEAR then 2 else 10)
  }

  /** Stop both effects of the LED and switch its outputs off. */
  function StopPart(b: nat): seq<Write>
    requires b in {0, 2, 4}
  {
    [Entry(0x50 + b, 0), Entry(0x51 + b, 0), Entry(CLEAR, if b == 0 then 3 else if b == 2 then 12 else 48)]
  }

  function TimingPart(b: nat, p: Patch): seq<Write>
    requires b in {0, 2, 4} && (p.fields.timing ==> p.value.onMs <= 65535 && p.value.offMs <= 65535)
  {
    if !p.fields.timing then []
    else
      var at := b * 2 + (if p.value.color == 2 then 2 else 0);
      [Entry(0xc0 + at, p.value.onMs % 256), Entry(0xc1 + at, p.value.onMs / 256),
       Entry(0xd0 + at, p.value.offMs % 256), Entry(0xd1 + at, p.value.offMs / 256)]
  }

  function BrightnessPart(model: Model, p: Patch): seq<Write>
    requires p.fields.brightness ==> p.value.brightness <= 255
  {
    if model == DXP480T && p.fields.brightness then [Entry(0xe0, p.value.brightness), Entry(0xe1, p.value.brightness)] else []
  }

  function ColorMask(b: nat, color: nat): byte
    requires b in {0, 2, 4} && 1 <= color <= 3
  {
    if b == 0 then color else if b == 2 then color * 4 else color * 16
  }

  function BlinkPart(b: nat, p: Patch): seq<Write>
    requires b in {0, 2, 4}
  {
    if p.value.mode == BLINK then [Entry(0x50 + b + (if p.value.color == 2 then 1 else 0), 1)] else []
  }

  /** What the checks leave for the planner: the LED's bit, and values that fit their registers. */
  predicate Encodable(b: nat, p: Patch) {
    && b in {0, 2, 4}
    && (p.fields.timing ==> p.value.onMs <= 65535 && p.value.offMs <= 65535 && p.value.mode == BLINK)
    && (p.fields.brightness ==> p.value.brightness <= 255)
    && (p.value.mode != OFF ==> 1 <= p.value.color <= 3)
    && (p.value.mode == BLINK ==> p.value.color <= 2)
    && (p.value.mode == OFF ==> !p.fields.brightness)
  }

  lemma PlannableIsEncodable(model: Model, id: nat, p: Patch)
    requires Plannable(model, id, p)
    ensures Encodable(FirstBit(id), p)
  {
  }

  /** Exactly the plannable requests: an LED the model has; off on its own, or on or blinking in an explicit
      colour, a blink in one colour and with its timing; brightness one on a DH2600, two to 254 otherwise. */
  lemma PlannableExactly(model: Model, id: nat, p: Patch)
    ensures var f, v := p.fields, p.value;
      Plannable(model, id, p) <==>
        && (if model == DH2600 then id <= 2 else id == 0)
        && f.mode && !f.rgb && f.extra == 0 && v.mode <= 2
        && (v.mode == 0 ==> !f.brightness && !f.color)
        && (v.mode != 0 ==> f.color && 1 <= v.color <= 3)
        && (f.timing <==> v.mode == 2)
        && (v.mode == 2 ==> v.color <= 2 && v.onMs >= 20 && v.offMs >= 20 && v.onMs + v.offMs <= 65535)
        && (f.brightness ==> if model == DH2600 then v.brightness == 1 else 2 <= v.brightness <= 254)
  {
  }

  /** The commands of an accepted plan. */
  function Commands(model: Model, b: nat, p: Patch): seq<Write>
    requires Encodable(b, p)
  {
    if p.value.mode == OFF then StopPart(b)
    else StopPart(b) + TimingPart(b, p) + BrightnessPart(model, p) + [Entry(SET, ColorMask(b, p.value.color))] + BlinkPart(b, p)
  }

  function ExpectedModes(p: Patch): seq<byte> {
    if p.value.mode != BLINK then [0, 0] else if p.value.color == 2 then [0, 1] else [1, 0]
  }

  /** Plans as register writes: a DH2600 LED in orange, its disk LED blinking, a DXP480T LED dimmed in both
      colours, and any LED off. */
  lemma KnownPlans(id: nat)
    requires id <= 2
    ensures var b := [0, 4, 2][id];
      && FirstBit(id) == b
      && Commands(DH2600, b, Patch(NO_FIELDS.(mode := true, color := true), ZERO_VALUE.(mode := ON, color := 2))) ==
           [Write(0x50 + b, 0, 10), Write(0x51 + b, 0, 10), Write(0xb1, [3, 48, 12][id], 2), Write(0xa0, [2, 32, 8][id], 2)]
      && Commands(DH2600, b, Patch(NO_FIELDS.(mode := true), ZERO_VALUE)) ==
           [Write(0x50 + b, 0, 10), Write(0x51 + b, 0, 10), Write(0xb1, [3, 48, 12][id], 2)]
    ensures
      var blink := Patch(NO_FIELDS.(mode := true, color := true, timing := true), ZERO_VALUE.(mode := BLINK, color := 2, onMs := 0x1234, offMs := 0x4321));
      Commands(DH2600, 4, blink) ==
        [Write(0x54, 0, 10), Write(0x55, 0, 10), Write(0xb1, 48, 2), Write(0xca, 0x34, 10), Write(0xcb, 0x12, 10),
         Write(0xda, 0x21, 10), Write(0xdb, 0x43, 10), Write(0xa0, 32, 2), Write(0x55, 1, 10)]
    ensures
      var dim := Patch(NO_FIELDS.(mode := true, color := true, brightness := true), ZERO_VALUE.(mode := ON, color := 3, brightness := 128));
      Commands(DXP480T, 0, dim) ==
        [Write(0x50, 0, 10), Write(0x51, 0, 10), Write(0xb1, 3, 2), Write(0xe0, 128, 10), Write(0xe1, 128, 10), Write(0xa0, 3, 2)]
  {
  }

  /** `ugreenctl_n76_plan`: accepts exactly the plannable requests, and never overruns its array. */
  method MakePlan(model: Model, id: nat, p: Patch) returns (r: Option<Plan>)
    ensures r.Some? <==> Plannable(model, id, p)
    ensures r.Some? ==>
      && Encodable(FirstBit(id), p)
      && r.value.commands == Commands(model, FirstBit(id), p) && |r.value.commands| < CAPACITY
      && r.value.modeRegisters == [0x50 + FirstBit(id), 0x51 + FirstBit(id)]
      && r.value.expectedModes == ExpectedModes(p)
  {
    if !Plannable(model, id, p) { return None; }
    PlannableIsEncodable(model, id, p);
    var b := FirstBit(id);
    var commands := Build(model, b, p);
    r := Some(Plan(commands, [0x50 + b, 0x51 + b], ExpectedModes(p)));
  }

  /** The appending part, on the fixed array. */
  method Build(model: Model, b: nat, p: Patch) returns (commands: seq<Write>)
    requires Encodable(b, p)
    ensures commands == Commands(model, b, p) && |commands| < CAPACITY
  {
    var plan := new Buffer();
    AppendStop(plan, b);
    if p.value.mode != OFF { AppendActive(plan, model, b, p); }
    commands := plan.commands[..plan.count];
  }

  /** The part for an LED that is not to be dark. */
  method AppendActive(plan: Buffer, model: Model, b: nat, p: Patch)
    requires plan.Valid() && plan.count <= CAPACITY - 9 && Encodable(b, p) && p.value.mode != OFF
    modifies plan`count, plan.commands
    ensures plan.Valid() && plan.count <= old(plan.count) + 8
    ensures plan.Contents() ==
      old(plan.Contents()) + TimingPart(b, p) + BrightnessPart(model, p) + [Entry(SET, ColorMask(b, p.value.color))] + BlinkPart(b, p)
  {
    AppendTiming(plan, b, p);
    AppendBrightness(plan, model, p);
    AppendColor(plan, b, p);
  }

  method AppendColor(plan: Buffer, b: nat, p: Patch)
    requires plan.Valid() && plan.count <= CAPACITY - 3 && Encodable(b, p) && p.value.mode != OFF
    modifies plan`count, plan.commands
    ensures plan.Valid() && plan.count <= old(plan.count) + 2
    ensures plan.Contents() == old(plan.Contents()) + [Entry(SET, ColorMask(b, p.value.color))] + BlinkPart(b, p)
  {
    plan.Append(SET, ColorMask(b, p.value.color));
    if p.value.mode == BLINK { plan.Append(0x50 + b + (if p.value.color == 2 then 1 else 0), 1); }
  }

  method AppendStop(plan: Buffer, b: nat)
    requires plan.Valid() && plan.count <= CAPACITY - 3 && b in {0, 2, 4}
    modifies plan`count, plan.commands
    ensures plan.Valid() && plan.Contents() == old(plan.Contents()) + StopPart(b) && plan.count == old(plan.count) + 3
  {
    plan.Append(0x50 + b, 0);
    plan.Append(0x51 + b, 0);
    plan.Append(CLEAR, if b == 0 then 3 else if b == 2 then 12 else 48);
  }

  method AppendTiming(plan: Buffer, b: nat, p: Patch)
    requires plan.Valid() && plan.count <= CAPACITY - 4 && b in {0, 2, 4}
    requires p.fields.timing ==> p.value.onMs <= 65535 && p.value.offMs <= 65535
    modifies plan`count, plan.commands
    ensures plan.Valid() && plan.Contents() == old(plan.Contents()) + TimingPart(b, p)
    ensures plan.count == old(plan.count) + |TimingPart(b, p)| <= old(plan.count) + 4
  {
    if p.fields.timing {
      var at := b * 2 + (if p.value.color == 2 then 2 else 0);
      plan.Append(0xc0 + at, p.value.onMs % 256);
      plan.Append(0xc1 + at, p.value.onMs / 256);
      plan.Append(0xd0 + at, p.value.offMs % 256);
      plan.Append(0xd1 + at, p.value.offMs / 256);
    }
  }

  method AppendBrightness(plan: Buffer, model: Model, p: Patch)
    requires plan.Valid() && plan.count <= CAPACITY - 2 && (p.fields.brightness ==> p.value.brightness <= 255)
    modifies plan`count, plan.commands
    ensures plan.Valid() && plan.Contents() == old(plan.Contents()) + BrightnessPart(model, p)
    ensures plan.count == old(plan.count) + |BrightnessPart(model, p)| <= old(plan.count) + 2
  {
    if model == DXP480T && p.fields.brightness {
      plan.Append(0xe0, p.value.brightness);
      plan.Append(0xe1, p.value.brightness);
    }
  }

  /** The chip: 256 plain registers and eight output bits behind the two mask registers. */
  datatype Chip = Chip(regs: seq<byte>, outputs: seq<bool>)

  predicate ValidChip(c: Chip) { |c.regs| == 256 && |c.outputs| == 8 }

  function BitOf(v: byte, k: nat): bool
    requires k < 8
  {
    [v % 2 == 1, v / 2 % 2 == 1, v / 4 % 2 == 1, v / 8 % 2 == 1,
     v / 16 % 2 == 1, v / 32 % 2 == 1, v / 64 % 2 == 1, v / 128 % 2 == 1][k]
  }

  function Send(c: Chip, w: Write): (r: Chip)
    requires ValidChip(c)
    ensures ValidChip(r)
  {
    if w.reg == CLEAR then c.(outputs := seq(8, k requires 0 <= k < 8 => c.outputs[k] && !BitOf(w.value, k)))
    else if w.reg == SET then c.(outputs := seq(8, k requires 0 <= k < 8 => c.outputs[k] || BitOf(w.value, k)))
    else c.(regs := c.regs[w.reg := w.value])
  }

  function Run(c: Chip, ws: seq<Write>): (r: Chip)
    requires ValidChip(c)
    ensures ValidChip(r)
    decreases |ws|
  {
    if ws == [] then c else Run(Send(c, ws[0]), ws[1..])
  }

  lemma {:induction false} RunConcat(c: Chip, a: seq<Write>, b: seq<Write>)
    requires ValidChip(c)
    ensures Run(c, a + b) == Run(Run(c, a), b)
    decreases |a|
  {
    if a == [] {
      assert a + b == b;
    } else {
      assert (a + b)[1..] == a[1..] + b;
      RunConcat(Send(c, a[0]), a[1..], b);
    }
  }

  /** The registers of an LED: its two mode registers and its two channels' timing registers. The
      brightness registers belong to the only LED of a DXP480T. */
  predicate Owns(model: Model, b: nat, reg: nat) {
    || reg == 0x50 + b || reg == 0x51 + b
    || 0xc0 + 2 * b <= reg < 0xc4 + 2 * b || 0xd0 + 2 * b <= reg < 0xd4 + 2 * b
    || (model == DXP480T && (reg == 0xe0 || reg == 0xe1))
  }

  /** No register and no output bit belongs to two LEDs. */
  lemma LedsAreSeparate(i: nat, j: nat, reg: nat)
    requires i < j <= 2
    ensures !(Owns(DH2600, FirstBit(i), reg) && Owns(DH2600, FirstBit(j), reg))
    ensures FirstBit(i) != FirstBit(j) && FirstBit(i) != FirstBit(j) + 1 && FirstBit(i) + 1 != FirstBit(j)
  {
  }

  /** At most the given registers differ. */
  ghost predicate OnlyRegs(before: seq<byte>, after: seq<byte>, changed: set<nat>)
    requires |before| == |after| == 256
  {
    forall reg :: 0 <= reg < 256 && reg !in changed ==> after[reg] == before[reg]
  }

  lemma StopBits(b: nat, k: nat)
    requires b in {0, 2, 4} && k < 8
    ensures BitOf(if b == 0 then 3 else if b == 2 then 12 else 48, k) <==> k == b || k == b + 1
  {
  }

  lemma ColorBits(b: nat, color: nat, k: nat)
    requires b in {0, 2, 4} && 1 <= color <= 3 && k < 8
    ensures BitOf(ColorMask(b, color), k) <==> (k == b && color % 2 == 1) || (k == b + 1 && color >= 2)
  {
    assert color == 1 || color == 2 || color == 3;
  }

  lemma RunOne(c: Chip, w: Write)
    requires ValidChip(c)
    ensures Run(c, [w]) == Send(c, w)
  {
    assert [w][1..] == [];
  }

  lemma RunTwo(c: Chip, v: Write, w: Write)
    requires ValidChip(c)
    ensures Run(c, [v, w]) == Send(Send(c, v), w)
  {
    assert [v, w][1..] == [w];
    RunOne(Send(c, v), w);
  }

  lemma StopEffect(c: Chip, b: nat)
    requires ValidChip(c) && b in {0, 2, 4}
    ensures var r := Run(c, StopPart(b));
      && r.regs == c.regs[0x50 + b := 0][0x51 + b := 0]
      && forall k :: 0 <= k < 8 ==> r.outputs[k] == (c.outputs[k] && k != b && k != b + 1)
  {
    var w := StopPart(b);
    assert w == [w[0], w[1]] + [w[2]];
    RunConcat(c, [w[0], w[1]], [w[2]]);
    RunTwo(c, w[0], w[1]);
    RunOne(Send(Send(c, w[0]), w[1]), w[2]);
    forall k | 0 <= k < 8 ensures BitOf(w[2].value, k) <==> k == b || k == b + 1 { StopBits(b, k); }
  }

  function TimingAt(b: nat, color: nat): nat { b * 2 + (if color == 2 then 2 else 0) }

  /** The 16-bit timing of the selected channel, low byte first. */
  ghost predicate Timed(regs: seq<byte>, b: nat, v: Value)
    requires |regs| == 256 && b in {0, 2, 4}
  {
    var at := TimingAt(b, v.color);
    && regs[0xc0 + at] as int + 256 * (regs[0xc1 + at] as int) == v.onMs
    && regs[0xd0 + at] as int + 256 * (regs[0xd1 + at] as int) == v.offMs
  }

  function TimingRegs(b: nat, color: nat): set<nat> {
    var at := TimingAt(b, color);
    {0xc0 + at, 0xc1 + at, 0xd0 + at, 0xd1 + at}
  }

  lemma TimingEffect(c: Chip, b: nat, p: Patch)
    requires ValidChip(c) && b in {0, 2, 4} && p.fields.timing && p.value.onMs <= 65535 && p.value.offMs <= 65535
    ensures var r := Run(c, TimingPart(b, p));
      r.outputs == c.outputs && OnlyRegs(c.regs, r.regs, TimingRegs(b, p.value.color)) && Timed(r.regs, b, p.value)
  {
    var w := TimingPart(b, p);
    assert w == [w[0], w[1]] + [w[2], w[3]];
    RunConcat(c, [w[0], w[1]], [w[2], w[3]]);
    RunTwo(c, w[0], w[1]);
    RunTwo(Send(Send(c, w[0]), w[1]), w[2], w[3]);
  }

  lemma BrightnessEffect(c: Chip, model: Model, p: Patch)
    requires ValidChip(c) && (p.fields.brightness ==> p.value.brightness <= 255)
    ensures var r := Run(c, BrightnessPart(model, p));
      && r.outputs == c.outputs
      && r.regs == if model == DXP480T && p.fields.brightness
                   then c.regs[0xe0 := p.value.brightness][0xe1 := p.value.brightness] else c.regs
  {
    var w := BrightnessPart(model, p);
    if w != [] {
      assert w == [w[0], w[1]];
      RunTwo(c, w[0], w[1]);
    }
  }

  lemma ColorEffect(c: Chip, b: nat, color: nat)
    requires ValidChip(c) && b in {0, 2, 4} && 1 <= color <= 3
    ensures var r := Run(c, [Entry(SET, ColorMask(b, color))]);
      && r.regs == c.regs
      && forall k :: 0 <= k < 8 ==>
           r.outputs[k] == (c.outputs[k] || (k == b && color % 2 == 1) || (k == b + 1 && color >= 2))
  {
    RunOne(c, Entry(SET, ColorMask(b, color)));
    forall k | 0 <= k < 8
      ensures BitOf(ColorMask(b, color), k) <==> (k == b && color % 2 == 1) || (k == b + 1 && color >= 2)
    {
      ColorBits(b, color, k);
    }
  }

  lemma BlinkEffect(c: Chip, b: nat, p: Patch)
    requires ValidChip(c) && b in {0, 2, 4}
    ensures var r := Run(c, BlinkPart(b, p));
      && r.outputs == c.outputs
      && r.regs == if p.value.mode == BLINK then c.regs[0x50 + b + (if p.value.color == 2 then 1 else 0) := 1] else c.regs
  {
    var w := BlinkPart(b, p);
    if w != [] {
      assert w == [w[0]];
      RunOne(c, w[0]);
    }
  }

  /** The outputs asked for, and no other bit touched. */
  ghost predicate OutputsAchieved(b: nat, p: Patch, c: Chip, r: Chip)
    requires ValidChip(c) && ValidChip(r) && b in {0, 2, 4}
  {
    && r.outputs[b] == (p.value.mode != OFF && p.value.color % 2 == 1)
    && r.outputs[b + 1] == (p.value.mode != OFF && p.value.color >= 2)
    && forall k :: 0 <= k < 8 && k != b && k != b + 1 ==> r.outputs[k] == c.outputs[k]
  }

  /** The modes, timing and brightness asked for, and no other LED's register touched. */
  ghost predicate RegistersAchieved(model: Model, b: nat, p: Patch, c: seq<byte>, r: seq<byte>)
    requires |c| == |r| == 256 && b in {0, 2, 4}
  {
    && [r[0x50 + b], r[0x51 + b]] == ExpectedModes(p)
    && (p.fields.timing ==> Timed(r, b, p.value))
    && (model == DXP480T && p.fields.brightness ==> r[0xe0] == r[0xe1] == p.value.brightness)
    && forall reg :: 0 <= reg < 256 && !Owns(model, b, reg) ==> r[reg] == c[reg]
  }

  /** The register side of the parts, one after the other. */
  ghost predicate Chain(model: Model, b: nat, p: Patch, c: seq<byte>, s: seq<byte>, t: seq<byte>, u: seq<byte>, r: seq<byte>) {
    && |c| == |s| == |t| == |u| == |r| == 256 && Encodable(b, p) && p.value.mode != OFF
    && s == c[0x50 + b := 0][0x51 + b := 0]
    && (if p.fields.timing then OnlyRegs(s, t, TimingRegs(b, p.value.color)) && Timed(t, b, p.value) else t == s)
    && (if model == DXP480T && p.fields.brightness then u == t[0xe0 := p.value.brightness][0xe1 := p.value.brightness] else u == t)
    && (if p.value.mode == BLINK then r == u[BlinkReg(b, p) := 1] else r == u)
  }

  function BlinkReg(b: nat, p: Patch): nat { 0x50 + b + (if p.value.color == 2 then 1 else 0) }

  lemma ChainFrame(model: Model, b: nat, p: Patch, c: seq<byte>, s: seq<byte>, t: seq<byte>, u: seq<byte>, r: seq<byte>, reg: nat)
    requires Chain(model, b, p, c, s, t, u, r) && reg < 256 && !Owns(model, b, reg)
    ensures r[reg] == c[reg]
  {
    assert reg !in TimingRegs(b, p.value.color);
    assert t[reg] == s[reg] == c[reg];
    assert u[reg] == t[reg];
    assert reg != BlinkReg(b, p);
  }

  lemma ChainModes(model: Model, b: nat, p: Patch, c: seq<byte>, s: seq<byte>, t: seq<byte>, u: seq<byte>, r: seq<byte>)
    requires Chain(model, b, p, c, s, t, u, r)
    ensures [r[0x50 + b], r[0x51 + b]] == ExpectedModes(p)
  {
    assert 0x50 + b !in TimingRegs(b, p.value.color) && 0x51 + b !in TimingRegs(b, p.value.color);
    assert t[0x50 + b] == t[0x51 + b] == 0;
    assert u[0x50 + b] == u[0x51 + b] == 0;
  }

  lemma ChainValues(model: Model, b: nat, p: Patch, c: seq<byte>, s: seq<byte>, t: seq<byte>, u: seq<byte>, r: seq<byte>)
    requires Chain(model, b, p, c, s, t, u, r)
    ensures p.fields.timing ==> Timed(r, b, p.value)
    ensures model == DXP480T && p.fields.brightness ==> r[0xe0] == r[0xe1] == p.value.brightness
  {
    var at := TimingAt(b, p.value.color);
    assert forall reg :: 0xc0 <= reg < 0xe0 ==> r[reg] == t[reg];
    assert 0 <= at <= 10;
  }

  /** A lit plan runs part by part. */
  lemma RunParts(model: Model, b: nat, p: Patch, c: Chip)
    requires ValidChip(c) && Encodable(b, p) && p.value.mode != OFF
    ensures Run(c, Commands(model, b, p)) ==
      Run(Run(Run(Run(Run(c, StopPart(b)), TimingPart(b, p)), BrightnessPart(model, p)),
              [Entry(SET, ColorMask(b, p.value.color))]), BlinkPart(b, p))
  {
    var color := [Entry(SET, ColorMask(b, p.value.color))];
    RunConcat(c, StopPart(b) + TimingPart(b, p) + BrightnessPart(model, p) + color, BlinkPart(b, p));
    RunConcat(c, StopPart(b) + TimingPart(b, p) + BrightnessPart(model, p), color);
    RunConcat(c, StopPart(b) + TimingPart(b, p), BrightnessPart(model, p));
    RunConcat(c, StopPart(b), TimingPart(b, p));
  }

  lemma CommandsAchieveOutputs(model: Model, b: nat, p: Patch, c: Chip)
    requires ValidChip(c) && Encodable(b, p)
    ensures OutputsAchieved(b, p, c, Run(c, Commands(model, b, p)))
  {
    StopEffect(c, b);
    if p.value.mode != OFF {
      RunParts(model, b, p, c);
      var stopped := Run(c, StopPart(b));
      var timed := Run(stopped, TimingPart(b, p));
      assert timed.outputs == stopped.outputs by { if p.fields.timing { TimingEffect(stopped, b, p); } }
      var bright := Run(timed, BrightnessPart(model, p));
      assert bright.outputs == timed.outputs by { BrightnessEffect(timed, model, p); }
      ColorEffect(bright, b, p.value.color);
      var lit := Run(bright, [Entry(SET, ColorMask(b, p.value.color))]);
      assert Run(lit, BlinkPart(b, p)).outputs == lit.outputs by { BlinkEffect(lit, b, p); }
    }
  }

  lemma CommandsAchieveRegisters(model: Model, b: nat, p: Patch, c: Chip)
    requires ValidChip(c) && Encodable(b, p)
    ensures RegistersAchieved(model, b, p, c.regs, Run(c, Commands(model, b, p)).regs)
  {
    StopEffect(c, b);
    if p.value.mode != OFF {
      RunParts(model, b, p, c);
      var stopped := Run(c, StopPart(b));
      var timed := Run(stopped, TimingPart(b, p));
      if p.fields.timing { TimingEffect(stopped, b, p); }
      var bright := Run(timed, BrightnessPart(model, p));
      BrightnessEffect(timed, model, p);
      var lit := Run(bright, [Entry(SET, ColorMask(b, p.value.color))]);
      ColorEffect(bright, b, p.value.color);
      BlinkEffect(lit, b, p);
      var r := Run(lit, BlinkPart(b, p));
      forall reg | 0 <= reg < 256 && !Owns(model, b, reg) ensures r.regs[reg] == c.regs[reg] {
        ChainFrame(model, b, p, c.regs, stopped.regs, timed.regs, bright.regs, r.regs, reg);
      }
      ChainModes(model, b, p, c.regs, stopped.regs, timed.regs, bright.regs, r.regs);
      ChainValues(model, b, p, c.regs, stopped.regs, timed.regs, bright.regs, r.regs);
    }
  }

  /** Every accepted plan, run from any state of the chip, does what was asked and nothing else. */
  lemma PlanAchieves(model: Model, id: nat, p: Patch, c: Chip)
    requires ValidChip(c) && Plannable(model, id, p)
    ensures Encodable(FirstBit(id), p)
    ensures var r := Run(c, Commands(model, FirstBit(id), p));
      OutputsAchieved(FirstBit(id), p, c, r) && RegistersAchieved(model, FirstBit(id), p, c.regs, r.regs)
  {
    PlannableIsEncodable(model, id, p);
    CommandsAchieveOutputs(model, FirstBit(id), p, c);
    CommandsAchieveRegisters(model, FirstBit(id), p, c);
  }
}
