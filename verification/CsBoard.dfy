/** The CS2011 embedded controller as seen through its runtime I/O ports: an address latch,
    a register file and a data port whose writes may be lost or report an error. */
module CsBoard {
  import opened Base

  const MODE := 0
  const BRIGHTNESS := 1
  const PERIOD := 2
  const DUTY := 3
  const RED := 4
  const GREEN := 5
  const BLUE := 6
  const FIELDS := 7
  const FLOW: u32 := 0x20005440

  const PORT_SELECT := 1
  const PORT_ADDRESS := 4
  const PORT_DATA := 8

  type Raw = s: seq<byte> | |s| == FIELDS witness [0, 0, 0, 0, 0, 0, 0]

  /** The part of the register file this driver owns: four LEDs and the global FLOW byte. */
  datatype Hw = Hw(leds: seq<Raw>, flow: byte)

  /** What the driver did, in order. */
  datatype Event =
    | Opened  // a holder's life began
    | Guard(writing: bool, force: bool, apply: bool, flow: byte)
    | FullSnapshot
    | Wrote(reg: u32, value: byte)

  /** `reg_address`. */
  function RegAddress(id: nat, field: nat): (a: u32)
    requires id < 4 && field < FIELDS
    ensures a != FLOW && Locate(a) == Some((id, field))
  {
    var bases := [0x20005400, 0x20005404, 0x20005408, 0x2000540c, 0x20005445, 0x20005446, 0x20005444];
    bases[field] + (if field >= RED then id * 4 else id)
  }

  /** The LED byte a register number denotes, read off the register map directly. */
  function Locate(a: u32): (r: Option<(nat, nat)>)
    ensures r.Some? ==> r.value.0 < 4 && r.value.1 < FIELDS
  {
    if 0x20005400 <= a < 0x20005410 then Some(((a - 0x20005400) % 4, (a - 0x20005400) / 4))
    else if 0x20005444 <= a < 0x20005454 && (a - 0x20005444) % 4 != 3 then
      Some(((a - 0x20005444) / 4, [BLUE, RED, GREEN][(a - 0x20005444) % 4]))
    else None
  }

  /** No two LED bytes share a register, none is FLOW, and `Locate` finds exactly these registers. */
  lemma RegistersAreDistinct(a: u32)
    ensures Locate(a) == None || (a == RegAddress(Locate(a).value.0, Locate(a).value.1) && a != FLOW)
  {
  }

  /** The register of each byte: mode, brightness, period and duty in banks of four, and three colours a LED. */
  lemma RegisterMap(id: nat)
    requires id < 4
    ensures RegAddress(id, MODE) == 0x20005400 + id && RegAddress(id, BRIGHTNESS) == 0x20005404 + id
    ensures RegAddress(id, PERIOD) == 0x20005408 + id && RegAddress(id, DUTY) == 0x2000540c + id
    ensures RegAddress(id, RED) == 0x20005445 + 4 * id && RegAddress(id, GREEN) == 0x20005446 + 4 * id
    ensures RegAddress(id, BLUE) == 0x20005444 + 4 * id && FLOW == 0x20005440
  {
  }

  /** Byte k of a register number, as `address` puts it on the bus. */
  function AddressByte(reg: u32, k: nat): byte
    requires k < 4
  {
    if k == 0 then reg % 256 else AddressByte(reg / 256, k - 1)
  }

  function Recompose(latch: seq<byte>): u32
    requires |latch| == 4
  {
    latch[0] as int + 0x100 * (latch[1] as int) + 0x10000 * (latch[2] as int) + 0x1000000 * (latch[3] as int)
  }

  /** The four address bytes recompose the register number. */
  lemma AddressBytesRecompose(reg: u32, latch: seq<byte>)
    requires |latch| == 4
    requires forall k :: 0 <= k < 4 ==> latch[k] == AddressByte(reg, k)
    ensures Recompose(latch) == reg
  {
    var q1 := reg / 256;
    var q2 := q1 / 256;
    assert latch[0] == reg % 256 && latch[1] == AddressByte(reg, 1) == q1 % 256;
    assert latch[2] == AddressByte(reg, 2) == AddressByte(q1, 1) == q2 % 256;
    assert latch[3] == AddressByte(reg, 3) == AddressByte(q1, 2) == AddressByte(q2, 1) == q2 / 256;
  }

  /** The owned registers after storing `v` at register `a`. */
  function Stored(hw: Hw, a: u32, v: byte): (h: Hw)
    requires |hw.leds| == 4
    ensures |h.leds| == 4
  {
    if a == FLOW then hw.(flow := v)
    else match Locate(a)
      case None => hw
      case Some((id, f)) => hw.(leds := hw.leds[id := hw.leds[id][f := v]])
  }

  /** What the driver asks of the machine before it acts: identity, owners, chip probe, permission. While
      there is an outage, every such check is refused with its error. A register may be stuck, so that no
      write reaches it, and a quiet machine has no other faults. */
  class Machine {
    var outage: Option<Errno>
    var stuck: Option<u32>
    var quiet: bool

    constructor ()
      ensures outage.None? && stuck.None? && quiet
    {
      outage, stuck, quiet := None, None, true;
    }
  }

  /** The registers of an LED state. */
  function Registers(hw: Hw): map<u32, byte>
    requires |hw.leds| == 4
  {
    map a: u32 | 0x20005400 <= a < 0x20005460 && (a == FLOW || Locate(a).Some?) ::
      if a == FLOW then hw.flow else hw.leds[Locate(a).value.0][Locate(a).value.1]
  }

  class Board {
    const machine: Machine
    var mem: map<u32, byte>
    var latch: seq<byte>
    ghost var hw: Hw
    ghost var log: seq<Event>
    ghost var states: seq<Hw>  // the hardware right after each data write, landed or not
    ghost var flowTrace: seq<byte>  // values this driver sent to FLOW
    ghost var faults: nat  // lost or failed port accesses, disturbances and refusals so far

    ghost predicate Valid()
      reads this
    {
      && |latch| == 4 && |hw.leds| == 4
      && FLOW in mem && mem[FLOW] == hw.flow
      && forall id, f {:trigger RegAddress(id, f)} :: 0 <= id < 4 && 0 <= f < FIELDS ==>
           RegAddress(id, f) in mem && mem[RegAddress(id, f)] == hw.leds[id][f]
    }

    constructor (machine: Machine, hw: Hw)
      requires |hw.leds| == 4
      ensures Valid() && this.machine == machine && this.hw == hw && log == [] && faults == 0
    {
      this.machine, this.hw, mem, latch := machine, hw, Registers(hw), [0, 0, 0, 0];
      log, states, flowTrace, faults := [], [], [], 0;
      new;
      forall id, f | 0 <= id < 4 && 0 <= f < FIELDS
        ensures RegAddress(id, f) in mem && mem[RegAddress(id, f)] == hw.leds[id][f]
      {
        RegistersAreDistinct(RegAddress(id, f));
      }
    }

    /** The stuck register keeps its value. */
    twostate predicate KeepsStuck()
      reads this, machine
    {
      machine.stuck.Some? && machine.stuck.value in old(mem) ==>
        machine.stuck.value in mem && mem[machine.stuck.value] == old(mem)[machine.stuck.value]
    }

    /** A register changed by anyone, this driver or not. */
    method Store(reg: u32, value: byte)
      requires Valid()
      modifies `mem, `hw
      ensures Valid() && hw == Stored(old(hw), reg, value)
      ensures mem == old(mem)[reg := value]
    {
      RegistersAreDistinct(reg);
      mem := mem[reg := value];
      hw := Stored(hw, reg, value);
    }

    /** A write to the select port or to an address port. An error leaves open whether it took effect. */
    method WriteAddress(offset: nat, value: byte) returns (ok: bool)
      requires Valid()
      requires offset == PORT_SELECT || PORT_ADDRESS <= offset < PORT_DATA
      modifies `latch, `faults
      ensures Valid()
      ensures offset == PORT_SELECT ==> latch == old(latch)
      ensures ok && offset != PORT_SELECT ==> latch == old(latch)[offset - PORT_ADDRESS := value]
      ensures faults >= old(faults) && (faults == old(faults) ==> ok) && (machine.quiet ==> faults == old(faults))
    {
      ok := *;
      if machine.quiet { ok := true; }
      var lands: bool := *;
      faults := faults + if ok then 0 else 1;
      if offset != PORT_SELECT && (ok || lands) { latch := latch[offset - PORT_ADDRESS := value]; }
    }

    /** A write to the data port. An error leaves open whether it took effect, and an accepted write may
        still be lost. A FLOW write of 1 may disturb the LED registers. */
    method WriteData(value: byte) returns (ok: bool)
      requires Valid()
      modifies `mem, `hw, `log, `states, `flowTrace, `faults
      ensures Valid()
      ensures var reg := Recompose(latch);
        && log == old(log) + [Wrote(reg, value)] && states == old(states) + [hw]
        && flowTrace == old(flowTrace) + (if reg == FLOW then [value] else [])
        && (if reg == FLOW && value == 1 then hw.flow in {old(hw).flow, 1}
            else hw == old(hw) || hw == Stored(old(hw), reg, value))
      ensures faults >= old(faults) && KeepsStuck()
      ensures faults == old(faults) ==> ok && hw == Stored(old(hw), Recompose(latch), value)
      ensures machine.quiet && machine.stuck != Some(Recompose(latch)) ==> faults == old(faults)
    {
      ok := *;
      var lands: bool := *;
      if machine.quiet { ok, lands := true, true; }
      if machine.stuck == Some(Recompose(latch)) { lands := false; }
      faults := faults + if ok && lands then 0 else 1;
      var reg := Recompose(latch);
      if lands { Store(reg, value); }
      if reg == FLOW && value == 1 {
        var disturbed: bool := *;
        if disturbed && !machine.quiet { Disturb(); faults := faults + 1; }
      }
      log := log + [Wrote(reg, value)];
      states := states + [hw];
      flowTrace := flowTrace + (if reg == FLOW then [value] else []);
    }

    /** Any number of LED registers take arbitrary values. */
    method Disturb()
      requires Valid()
      modifies `mem, `hw
      ensures Valid() && hw.flow == old(hw.flow) && KeepsStuck()
    {
      var id := 0;
      while id < 4
        invariant Valid() && hw.flow == old(hw.flow) && KeepsStuck()
      {
        var f := 0;
        while f < FIELDS
          invariant Valid() && hw.flow == old(hw.flow) && KeepsStuck()
        {
          var touched: bool := *;
          var v: byte := *;
          if touched && machine.stuck != Some(RegAddress(id, f)) { Store(RegAddress(id, f), v); }
          f := f + 1;
        }
        id := id + 1;
      }
    }

    /** A data-port read: the latched register's value, or an error. */
    method ReadPort() returns (ok: bool, value: byte)
      requires Valid()
      modifies `faults
      ensures Valid() && faults >= old(faults) && (faults == old(faults) ==> ok) && (machine.quiet ==> faults == old(faults))
      ensures ok && Recompose(latch) in mem ==> value == mem[Recompose(latch)]
    {
      ok := *;
      if machine.quiet { ok := true; }
      faults := faults + if ok then 0 else 1;
      value := if ok && Recompose(latch) in mem then mem[Recompose(latch)] else 0;
    }
  }
}
