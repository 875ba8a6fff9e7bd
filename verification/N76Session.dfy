/** Applying an N76 plan register by register, with faults anywhere (the N76 path of
    `ugreenctl_led_apply` in led/led.c). Output bits cannot be read back, so a failed transaction
    closes the session to further writes. */
module N76Session {
  import opened Base
  import opened Led
  import opened N76

  /** Nothing but LED `b`'s registers and output bits differs. */
  ghost predicate Elsewhere(model: Model, b: nat, before: Chip, after: Chip) {
    && ValidChip(before) && ValidChip(after)
    && (forall reg :: 0 <= reg < 256 && !Owns(model, b, reg) ==> after.regs[reg] == before.regs[reg])
    && (forall k :: 0 <= k < 8 && k != b && k != b + 1 ==> after.outputs[k] == before.outputs[k])
  }

  /** A write that can only touch LED `b`. */
  ghost predicate Local(model: Model, b: nat, w: Write) {
    if w.reg == CLEAR || w.reg == SET then forall k :: 0 <= k < 8 && k != b && k != b + 1 ==> !BitOf(w.value, k)
    else Owns(model, b, w.reg)
  }

  lemma SendStaysLocal(model: Model, b: nat, before: Chip, c: Chip, w: Write)
    requires Elsewhere(model, b, before, c) && Local(model, b, w)
    ensures Elsewhere(model, b, before, Send(c, w))
  {
  }

  ghost predicate AllLocal(model: Model, b: nat, ws: seq<Write>) {
    forall k :: 0 <= k < |ws| ==> Local(model, b, ws[k])
  }

  lemma StopIsLocal(model: Model, b: nat)
    requires b in {0, 2, 4}
    ensures AllLocal(model, b, StopPart(b))
  {
    forall k | 0 <= k < 8 && k != b && k != b + 1 ensures !BitOf(StopPart(b)[2].value, k) { StopBits(b, k); }
  }

  lemma ColorIsLocal(model: Model, b: nat, color: nat)
    requires b in {0, 2, 4} && 1 <= color <= 3
    ensures Local(model, b, Entry(SET, ColorMask(b, color)))
  {
    forall k | 0 <= k < 8 && k != b && k != b + 1 ensures !BitOf(ColorMask(b, color), k) { ColorBits(b, color, k); }
  }

  lemma OthersAreLocal(model: Model, b: nat, p: Patch)
    requires Encodable(b, p)
    ensures AllLocal(model, b, TimingPart(b, p)) && AllLocal(model, b, BrightnessPart(model, p))
    ensures AllLocal(model, b, BlinkPart(b, p))
  {
  }

  lemma LocalConcat(model: Model, b: nat, ws: seq<Write>, more: seq<Write>)
    requires AllLocal(model, b, ws) && AllLocal(model, b, more)
    ensures AllLocal(model, b, ws + more)
  {
  }

  /** Every single command of a plan stays within the LED, so a plan cut short or with lost writes does too. */
  lemma CommandsAreLocal(model: Model, b: nat, p: Patch)
    requires Encodable(b, p)
    ensures AllLocal(model, b, Commands(model, b, p))
  {
    StopIsLocal(model, b);
    if p.value.mode != OFF {
      var color := [Entry(SET, ColorMask(b, p.value.color))];
      ColorIsLocal(model, b, p.value.color);
      OthersAreLocal(model, b, p);
      LocalConcat(model, b, StopPart(b), TimingPart(b, p));
      LocalConcat(model, b, StopPart(b) + TimingPart(b, p), BrightnessPart(model, p));
      LocalConcat(model, b, StopPart(b) + TimingPart(b, p) + BrightnessPart(model, p), color);
      LocalConcat(model, b, StopPart(b) + TimingPart(b, p) + BrightnessPart(model, p) + color, BlinkPart(b, p));
    }
  }

  lemma RunOneMore(c: Chip, ws: seq<Write>, i: nat)
    requires ValidChip(c) && i < |ws|
    ensures Run(c, ws[..i + 1]) == Send(Run(c, ws[..i]), ws[i])
  {
    assert ws[..i + 1] == ws[..i] + [ws[i]];
    RunConcat(c, ws[..i], [ws[i]]);
    RunOne(Run(c, ws[..i]), ws[i]);
  }

  class Session {
    const model: Model
    const mayWrite: bool
    var chip: Chip
    var failed: bool
    ghost var faults: nat  // lost or failed transfers and refused checks so far

    constructor (model: Model, mayWrite: bool, chip: Chip)
      requires ValidChip(chip)
      ensures this.model == model && this.mayWrite == mayWrite && this.chip == chip && !failed
    {
      this.model, this.mayWrite, this.chip, failed, faults := model, mayWrite, chip, false, 0;
    }

    twostate predicate Clean()
      reads this
    {
      faults == old(faults)
    }

    /** `authorize_write`: the identity, owner, chip and version checks may refuse at any time. */
    method Authorize() returns (ok: bool)
      modifies this`faults
      ensures faults >= old(faults) && (ok ==> mayWrite && !failed) && (Clean() && mayWrite && !failed ==> ok)
    {
      ok := false;
      if mayWrite && !failed {
        ok := *;
        faults := faults + if ok then 0 else 1;
      }
    }

    /** One register write; it may be lost, and an error leaves open whether it arrived. */
    method WriteRegister(w: Write) returns (ok: bool)
      requires ValidChip(chip)
      modifies this`chip, this`faults
      ensures chip == old(chip) || chip == Send(old(chip), w)
      ensures faults >= old(faults) && (Clean() ==> ok && chip == Send(old(chip), w))
    {
      ok := *;
      var lands: bool := *;
      faults := faults + if ok && lands then 0 else 1;
      if lands { chip := Send(chip, w); }
    }

    method ReadRegister(reg: byte) returns (ok: bool, value: byte)
      requires ValidChip(chip)
      modifies this`faults
      ensures ok ==> value == chip.regs[reg]
      ensures faults >= old(faults) && (Clean() ==> ok)
    {
      ok, value := *, chip.regs[reg];
      faults := faults + if ok then 0 else 1;
    }

    /** `ugreenctl_led_read` for a directly driven N76: only the two mode registers are readable. */
    method ReadModes(b: nat) returns (r: Option<seq<byte>>)
      requires ValidChip(chip) && b in {0, 2, 4}
      modifies this`faults
      ensures r.Some? ==> r.value == [chip.regs[0x50 + b], chip.regs[0x51 + b]]
      ensures faults >= old(faults)
      ensures Clean() && chip.regs[0x50 + b] <= 3 && chip.regs[0x51 + b] <= 3 ==> r.Some?
    {
      var ok, first, second;
      ok := *;  // chip identity and version
      if !ok { faults := faults + 1; return None; }
      ok, first := ReadRegister(0x50 + b);
      if !ok { return None; }
      ok, second := ReadRegister(0x51 + b);
      if !ok { return None; }
      r := if first > 3 || second > 3 then None else Some([first, second]);
    }

    /** One command of the loop: authorize, write, and read a mode register back. */
    method SendOne(w: Write, b: nat) returns (ok: bool)
      requires ValidChip(chip) && b in {0, 2, 4}
      modifies this`chip, this`faults
      ensures chip == old(chip) || chip == Send(old(chip), w)
      ensures faults >= old(faults)
      ensures Clean() && mayWrite && !failed ==> ok && chip == Send(old(chip), w)
    {
      ok := Authorize();
      if !ok { return; }
      ok := WriteRegister(w);
      if !ok { return; }
      if w.reg == 0x50 + b || w.reg == 0x51 + b {
        var actual;
        ok, actual := ReadRegister(w.reg);
        ok := ok && actual == w.value;
      }
    }

    /** The sending loop. */
    method SendAll(ws: seq<Write>, b: nat) returns (ok: bool)
      requires ValidChip(chip) && b in {0, 2, 4} && AllLocal(model, b, ws)
      modifies this`chip, this`faults
      ensures Elsewhere(model, b, old(chip), chip)
      ensures faults >= old(faults)
      ensures Clean() && mayWrite && !failed ==> ok && chip == Run(old(chip), ws)
    {
      ok := true;
      var i := 0;
      while i < |ws|
        invariant 0 <= i <= |ws| && ok && Elsewhere(model, b, old(chip), chip) && faults >= old(faults)
        invariant Clean() && mayWrite && !failed ==> chip == Run(old(chip), ws[..i])
      {
        RunOneMore(old(chip), ws, i);
        SendStaysLocal(model, b, old(chip), chip, ws[i]);
        ok := SendOne(ws[i], b);
        if !ok { return; }
        i := i + 1;
      }
      assert ws[..i] == ws;
    }

    /** The N76 path of `ugreenctl_led_apply`. Under any faults no other LED is touched, success means
        that the mode registers were read back as planned, and a failure after the first write closes
        the session: from then on nothing is written. Without faults the request is fully carried out. */
    method Apply(id: nat, p: Patch) returns (ok: bool)
      requires ValidChip(chip)
      modifies this`chip, this`failed, this`faults
      ensures Elsewhere(model, FirstBit(id), old(chip), chip)
      ensures old(failed) ==> !ok && failed && chip == old(chip)
      ensures !mayWrite ==> !ok && chip == old(chip)
      ensures !ok && !failed ==> chip == old(chip)
      ensures ok ==>
        && Plannable(model, id, p) && mayWrite && !failed
        && [chip.regs[0x50 + FirstBit(id)], chip.regs[0x51 + FirstBit(id)]] == ExpectedModes(p)
      ensures faults >= old(faults)
      ensures (Clean() && mayWrite && !old(failed) && Plannable(model, id, p) &&
               old(chip).regs[0x50 + FirstBit(id)] <= 3 && old(chip).regs[0x51 + FirstBit(id)] <= 3) ==>
        && ok && OutputsAchieved(FirstBit(id), p, old(chip), chip)
        && RegistersAchieved(model, FirstBit(id), p, old(chip).regs, chip.regs)
    {
      ok := Authorize();
      if !ok { return; }
      var plan := MakePlan(model, id, p);
      if plan.None? { return false; }
      ok := Carry(id, p, plan.value);
    }

    /** An accepted plan: read the modes, send the commands, read the modes again. */
    method Carry(id: nat, p: Patch, plan: Plan) returns (ok: bool)
      requires ValidChip(chip) && mayWrite && !failed && Plannable(model, id, p) && Encodable(FirstBit(id), p)
      requires plan.commands == Commands(model, FirstBit(id), p) && plan.expectedModes == ExpectedModes(p)
      modifies this`chip, this`failed, this`faults
      ensures Elsewhere(model, FirstBit(id), old(chip), chip)
      ensures !ok && !failed ==> chip == old(chip)
      ensures ok ==> !failed && [chip.regs[0x50 + FirstBit(id)], chip.regs[0x51 + FirstBit(id)]] == ExpectedModes(p)
      ensures faults >= old(faults)
      ensures (Clean() && old(chip).regs[0x50 + FirstBit(id)] <= 3 && old(chip).regs[0x51 + FirstBit(id)] <= 3) ==>
        && ok && OutputsAchieved(FirstBit(id), p, old(chip), chip)
        && RegistersAchieved(model, FirstBit(id), p, old(chip).regs, chip.regs)
    {
      var b := FirstBit(id);
      var modes := ReadModes(b);
      if modes.None? { return false; }
      CommandsAreLocal(model, b, p);
      PlanAchieves(model, id, p, chip);
      ok := SendAll(plan.commands, b);
      if ok {
        modes := ReadModes(b);
        ok := modes.Some? && modes.value == plan.expectedModes;
      }
      failed := !ok;
    }
  }
}
