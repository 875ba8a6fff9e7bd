/** LED changes and identify on the microcontroller path (led/led.c): one framed command per field,
    acknowledged and read back, with faults anywhere. */
module Mcu {
  import opened Base
  import opened Led
  import opened LedFrame

  /** Every RGB LED of the microcontroller models. */
  function RgbLed(id: nat): Descriptor {
    Descriptor(id, true, {OFF, ON, BLINK, BREATH}, {}, 0, 255, 0, 0, 0, 0, 0, 0)
  }

  /** Exactly the patches an RGB LED takes: some of mode, colour, brightness and timing, each in its range, and
      timing exactly with an effect. */
  lemma RgbAccepts(id: nat, p: Patch)
    ensures var f, v := p.fields, p.value;
      ValidTargetPatch(RgbLed(id), p) <==>
        && (f.mode || f.rgb || f.brightness) && !f.color && f.extra == 0
        && (f.rgb ==> v.red <= 255 && v.green <= 255 && v.blue <= 255) && (f.brightness ==> v.brightness <= 255)
        && (f.mode ==> v.mode <= 3) && (f.timing <==> f.mode && 2 <= v.mode <= 3) && (f.timing ==> v.onMs + v.offMs <= 65535)
  {
  }

  datatype StatusReply = Reply(frame: seq<byte>) | ReadError(fatal: bool)

  class Chip {
    const protocol: Protocol
    var lamps: seq<Lamp>
    ghost var shown: seq<seq<Lamp>>  // the LEDs after each command that arrived
    ghost var faults: nat  // failed, lost or corrupted transfers and refused checks so far

    constructor (protocol: Protocol, lamps: seq<Lamp>)
      ensures this.protocol == protocol && this.lamps == lamps
    {
      this.protocol, this.lamps, shown, faults := protocol, lamps, [], 0;
    }

    /** A command frame on the bus. It may be lost, and an error leaves open whether it arrived. */
    method WriteCommand(id: nat, frame: seq<byte>) returns (ok: bool)
      requires id < |lamps| <= 256
      modifies this
      ensures faults >= old(faults) && |lamps| == |old(lamps)|
      ensures if shown == old(shown) then lamps == old(lamps) else shown == old(shown) + [lamps]
      ensures var c := Accept(protocol, id, frame);
        && (lamps == old(lamps) || (c.Some? && lamps == old(lamps)[id := Effect(old(lamps)[id], c.value)]))
        && (faults == old(faults) ==> ok && (c.Some? ==> lamps == old(lamps)[id := Effect(old(lamps)[id], c.value)]))
    {
      ok := *;
      var lands: bool := *;
      faults := faults + if ok && lands then 0 else 1;
      var c := Accept(protocol, id, frame);
      if lands && c.Some? {
        lamps := lamps[id := Effect(lamps[id], c.value)];
        shown := shown + [lamps];
      }
    }

    /** A status read: the true frame, a frame whose corruption the checks catch, or an error. */
    method ReadStatus(id: nat) returns (r: StatusReply)
      requires id < |lamps|
      modifies `faults
      ensures faults >= old(faults)
      ensures r.Reply? ==> r.frame == StatusFrame(lamps[id]) || Decode(r.frame) == None
      ensures faults == old(faults) ==> r == Reply(StatusFrame(lamps[id]))
    {
      var clean: bool := *;
      if clean { return Reply(StatusFrame(lamps[id])); }
      faults := faults + 1;
      var fatal: bool := *;
      var noise: seq<byte> := *;
      r := if Decode(noise).None? then Reply(noise) else ReadError(fatal);
    }

    /** A check or acknowledgement that may fail at any time. */
    method Check() returns (ok: bool)
      modifies `faults
      ensures faults >= old(faults) && (faults == old(faults) ==> ok)
    {
      ok := *;
      faults := faults + if ok then 0 else 1;
    }
  }

  /** The part of a value that one command sets. */
  datatype Part = RgbPart | BrightnessPart | SteadyPart | EffectPart

  predicate InRange(part: Part, v: Value) {
    match part
    case RgbPart => v.red <= 255 && v.green <= 255 && v.blue <= 255
    case BrightnessPart => v.brightness <= 255
    case SteadyPart => v.mode <= ON
    case EffectPart => (v.mode == BLINK || v.mode == BREATH) && v.onMs + v.offMs <= 65535
  }

  function PartCommand(part: Part, v: Value): (c: Command)
    requires InRange(part, v)
    ensures |c.p| == 4 && 1 <= c.code <= 5
  {
    match part
    case RgbPart => Command(2, [v.red, v.green, v.blue, 0])
    case BrightnessPart => Command(1, [v.brightness, 0, 0, 0])
    case SteadyPart => Command(3, [v.mode, 0, 0, 0])
    case EffectPart =>
      var cycle: u16 := v.onMs + v.offMs;
      Command(if v.mode == BLINK then 4 else 5, [High(cycle), Low(cycle), High(v.onMs), Low(v.onMs)])
  }

  function PartFields(part: Part): Fields {
    match part
    case RgbPart => NO_FIELDS.(rgb := true)
    case BrightnessPart => NO_FIELDS.(brightness := true)
    case SteadyPart => NO_FIELDS.(mode := true)
    case EffectPart => NO_FIELDS.(mode := true, timing := true)
  }

  /** The LED with one part of a value. */
  function WithPart(l: Lamp, part: Part, v: Value): Lamp
    requires InRange(part, v)
  {
    match part
    case RgbPart => l.(red := v.red, green := v.green, blue := v.blue)
    case BrightnessPart => l.(brightness := v.brightness)
    case SteadyPart => l.(mode := v.mode)
    case EffectPart => l.(mode := v.mode, cycle := v.onMs + v.offMs, on := v.onMs)
  }

  /** The command for a part does just that, keeps the LED readable, and a readback that already shows
      the part means that the command would change nothing. */
  lemma PartCommandSets(l: Lamp, part: Part, v: Value)
    requires InRange(part, v) && Decodable(l)
    ensures Effect(l, PartCommand(part, v)) == WithPart(l, part, v) && Decodable(WithPart(l, part, v))
    ensures Matches(ValueOf(WithPart(l, part, v)), PartFields(part), v)
    ensures Matches(ValueOf(l), PartFields(part), v) ==> WithPart(l, part, v) == l
  {
    if part == EffectPart {
      WordRoundTrip(v.onMs + v.offMs);
      WordRoundTrip(v.onMs);
    }
  }

  /** The LED state a patch asks for. */
  function Patched(l: Lamp, p: Patch): Lamp
    requires ValidPatch(p)
  {
    var f, v := p.fields, p.value;
    var a := if f.rgb then WithPart(l, RgbPart, v) else l;
    var b := if f.brightness then WithPart(a, BrightnessPart, v) else a;
    if f.mode then WithPart(b, if v.mode <= ON then SteadyPart else EffectPart, v) else b
  }

  /** Every patched field reads back as requested and every other field as before. */
  lemma PatchedShows(l: Lamp, p: Patch)
    requires ValidPatch(p) && Decodable(l)
    ensures Decodable(Patched(l, p))
    ensures var was, now, f, v := ValueOf(l), ValueOf(Patched(l, p)), p.fields, p.value;
      && now.mode == (if f.mode then v.mode else was.mode)
      && now.brightness == (if f.brightness then v.brightness else was.brightness)
      && (now.red, now.green, now.blue) == (if f.rgb then (v.red, v.green, v.blue) else (was.red, was.green, was.blue))
      && (now.onMs, now.offMs) == (if f.timing then (v.onMs, v.offMs) else (was.onMs, was.offMs))
  {
  }

  /** The session: the chip, the opener's flags, and how many LEDs the exact model has. */
  class Session {
    const chip: Chip
    const apply: bool
    const force: bool
    const experimental: bool

    constructor (chip: Chip, apply: bool, force: bool, experimental: bool)
      ensures this.chip == chip && this.apply == apply && this.force == force && this.experimental == experimental
    {
      this.chip, this.apply, this.force, this.experimental := chip, apply, force, experimental;
    }

    ghost predicate Valid()
      reads this, chip
    {
      |chip.lamps| <= 10
    }

    predicate MayWrite() { apply && (!experimental || force) }

    twostate predicate Clean()
      reads this, chip
    {
      chip.faults == old(chip.faults)
    }

    /** `authorize_write`. */
    method Authorize() returns (ok: bool)
      modifies chip`faults
      ensures chip.faults >= old(chip.faults) && (ok ==> MayWrite()) && (Clean() && MayWrite() ==> ok)
    {
      ok := false;
      if MayWrite() { ok := chip.Check(); }
    }

    /** `ugreenctl_led_read`: up to three attempts. */
    method Read(id: nat) returns (r: Option<Value>)
      requires Valid()
      modifies chip`faults
      ensures chip.faults >= old(chip.faults)
      ensures r.Some? ==> id < |chip.lamps| && Decodable(chip.lamps[id]) && r.value == ValueOf(chip.lamps[id])
      ensures Clean() && id < |chip.lamps| && Decodable(chip.lamps[id]) ==> r.Some?
    {
      if id >= |chip.lamps| { return None; }
      var usable := chip.Check();
      if !usable { return None; }
      StatusRoundTrip(chip.lamps[id]);
      var attempt := 0;
      while attempt < 3
        invariant 0 <= attempt <= 3 && chip.faults >= old(chip.faults)
        invariant attempt > 0 && Decodable(chip.lamps[id]) ==> chip.faults > old(chip.faults)
      {
        var reply := chip.ReadStatus(id);
        if reply.Reply? {
          r := Decode(reply.frame);
          if r.Some? { return; }
        } else if reply.fatal {
          return None;
        }
        attempt := attempt + 1;
      }
      r := None;
    }

    /** `change`: one framed command, acknowledged, read back and compared in the fields it sets. */
    method Change(id: nat, part: Part, v: Value) returns (r: Option<Value>)
      requires Valid() && id < |chip.lamps| && InRange(part, v) && Decodable(chip.lamps[id])
      modifies chip
      ensures Valid() && chip.faults >= old(chip.faults)
      ensures chip.lamps == old(chip.lamps) || chip.lamps == old(chip.lamps)[id := WithPart(old(chip.lamps[id]), part, v)]
      ensures Recorded()
      ensures Decodable(chip.lamps[id])
      ensures r.Some? ==>
        && chip.lamps == old(chip.lamps)[id := WithPart(old(chip.lamps[id]), part, v)]
        && r.value == ValueOf(chip.lamps[id])
      ensures Clean() && MayWrite() ==> r.Some?
    {
      PartCommandSets(chip.lamps[id], part, v);
      var ok := Authorize();
      if !ok { return None; }
      var c := PartCommand(part, v);
      var frame := Encode(chip.protocol, id, c.code, c.p);
      CommandRoundTrip(chip.protocol, id, c.code, c.p);
      ok := chip.WriteCommand(id, frame.value);
      if !ok { return None; }
      ok := chip.Check();
      if !ok { return None; }
      r := Read(id);
      if r.Some? && !Matches(r.value, PartFields(part), v) { r := None; }
    }

    /** Whatever changed on the LEDs was recorded. */
    twostate predicate Recorded()
      reads this, chip
    {
      && old(chip.shown) <= chip.shown
      && chip.lamps == (if chip.shown == old(chip.shown) then old(chip.lamps) else chip.shown[|chip.shown| - 1])
    }

    /** LED `id` is the only one that changed, and it is still readable. */
    twostate predicate OnlyTouched(id: nat)
      reads this, chip
    {
      && Valid() && Recorded() && chip.faults >= old(chip.faults) && |chip.lamps| == |old(chip.lamps)|
      && (if id < |chip.lamps| then
            && chip.lamps == old(chip.lamps)[id := chip.lamps[id]]
            && (Decodable(old(chip.lamps)[id]) ==> Decodable(chip.lamps[id]))
          else chip.lamps == old(chip.lamps))
    }

    /** One part of a patch, if the patch has it. */
    method ChangeIf(asked: bool, id: nat, part: Part, v: Value, current: Value) returns (r: Option<Value>)
      requires Valid() && id < |chip.lamps| && (asked ==> InRange(part, v))
      requires Decodable(chip.lamps[id]) && current == ValueOf(chip.lamps[id])
      modifies chip
      ensures OnlyTouched(id) && Decodable(chip.lamps[id])
      ensures r.Some? ==>
        && chip.lamps[id] == (if asked then WithPart(old(chip.lamps[id]), part, v) else old(chip.lamps[id]))
        && r.value == ValueOf(chip.lamps[id])
      ensures Clean() && MayWrite() ==> r.Some?
    {
      r := Some(current);
      if asked { r := Change(id, part, v); }
    }

    /** `ugreenctl_led_apply` on the microcontroller path. */
    method Apply(id: nat, p: Patch) returns (r: Option<Value>)
      requires Valid()
      modifies chip
      ensures OnlyTouched(id)
      ensures !apply || (experimental && !force) ==> r.None? && chip.lamps == old(chip.lamps)
      ensures r.Some? ==>
        && id < |chip.lamps| && ValidTargetPatch(RgbLed(id), p) && Decodable(old(chip.lamps)[id])
        && chip.lamps[id] == Patched(old(chip.lamps)[id], p) && r.value == ValueOf(chip.lamps[id])
      ensures (Clean() && MayWrite() && id < |chip.lamps| && ValidTargetPatch(RgbLed(id), p) &&
               Decodable(old(chip.lamps)[id])) ==> r.Some?
    {
      if id >= |chip.lamps| || !ValidTargetPatch(RgbLed(id), p) { return None; }
      var ok := Authorize();
      if !ok { return None; }
      r := Read(id);
      if r.None? { return; }
      PatchedShows(chip.lamps[id], p);
      r := ChangeAll(id, p, r.value);
      if r.Some? && !Matches(r.value, p.fields, p.value) { r := None; }
    }

    /** One command for each part of the patch. */
    method ChangeAll(id: nat, p: Patch, current: Value) returns (r: Option<Value>)
      requires Valid() && id < |chip.lamps| && ValidPatch(p) && Decodable(chip.lamps[id]) && current == ValueOf(chip.lamps[id])
      modifies chip
      ensures OnlyTouched(id)
      ensures r.Some? ==> chip.lamps[id] == Patched(old(chip.lamps[id]), p) && r.value == ValueOf(chip.lamps[id])
      ensures Clean() && MayWrite() ==> r.Some?
    {
      var f, v := p.fields, p.value;
      r := ChangeIf(f.rgb, id, RgbPart, v, current);
      if r.None? { return; }
      r := ChangeIf(f.brightness, id, BrightnessPart, v, r.value);
      if r.None? { return; }
      r := ChangeIf(f.mode, id, if v.mode <= ON then SteadyPart else EffectPart, v, r.value);
    }

    /** LED `id` looked so at some moment from moment n on. */
    ghost predicate ShownSince(n: nat, id: nat, l: Lamp)
      reads this, chip
    {
      exists k :: n <= k < |chip.shown| && id < |chip.shown[k]| && chip.shown[k][id] == l
    }

    /** `ugreenctl_led_identify` for an RGB LED: orange at full brightness, 250 ms on and off. `Restored` reports a blink that failed after which the
        saved state was verified to be back. */
    method Identify(id: nat, seconds: nat) returns (s: Status)
      requires Valid()
      modifies chip
      ensures OnlyTouched(id)
      ensures !apply || (experimental && !force) ==> s.Err? && chip.lamps == old(chip.lamps)
      ensures s.Ok? || s.note != Uncertain ==> chip.lamps == old(chip.lamps)
      ensures s.Ok? ==>
        && id < |chip.lamps|
        && (old(chip.lamps)[id] == Lamp(BLINK, 255, 255, 100, 0, 500, 250) || ShownSince(old(|chip.shown|), id, Lamp(BLINK, 255, 255, 100, 0, 500, 250)))
      ensures (Clean() && MayWrite() && id < |chip.lamps| && 1 <= seconds <= 60 && Decodable(old(chip.lamps)[id])) ==> s.Ok?
    {
      if seconds < 1 || seconds > 60 { return Err(EINVAL, Untouched); }
      var ok := Authorize();
      if !ok || id >= |chip.lamps| { return Err(EINVAL, Untouched); }
      var original := Read(id);
      if original.None? { return Err(EIO, Untouched); }
      var blinked := Blink(id);
      ghost var during := chip.shown;
      s := Restore(id, original.value, old(chip.lamps[id]));
      assert blinked && during != old(chip.shown) ==> chip.shown[|during| - 1] == during[|during| - 1];
      if s.Ok? && !blinked { s := Err(EIO, Restored); }
    }

    /** The blink of identify. */
    method Blink(id: nat) returns (ok: bool)
      requires Valid() && id < |chip.lamps| && Decodable(chip.lamps[id])
      modifies chip
      ensures OnlyTouched(id)
      ensures !apply || (experimental && !force) ==> !ok && chip.lamps == old(chip.lamps)
      ensures ok && chip.shown == old(chip.shown) ==> old(chip.lamps)[id] == Lamp(BLINK, 255, 255, 100, 0, 500, 250)
      ensures ok && chip.shown != old(chip.shown) ==>
        |chip.shown[|chip.shown| - 1]| == |chip.lamps| && chip.shown[|chip.shown| - 1][id] == Lamp(BLINK, 255, 255, 100, 0, 500, 250)
      ensures Clean() && MayWrite() ==> ok
    {
      var blinked := Apply(id, BLINK_PATCH);
      ok := blinked.Some?;
    }

    /** Put a saved state back: all fields through an effect mode, since only those commands carry the
        timing, and then a steady mode on its own. */
    method Restore(id: nat, original: Value, ghost was: Lamp) returns (s: Status)
      requires Valid() && id < |chip.lamps| && Decodable(was) && original == ValueOf(was) && Decodable(chip.lamps[id])
      modifies chip
      ensures OnlyTouched(id)
      ensures s.Ok? ==> chip.lamps[id] == was
      ensures s.Err? ==> s.note == Uncertain
      ensures Clean() && MayWrite() ==> s.Ok?
    {
      var steady := original.mode == OFF || original.mode == ON;
      var patch := Patch(ALL_FIELDS, original.(mode := if steady then BLINK else original.mode));
      var current := Apply(id, patch);
      if current.None? { return Err(EIO, Uncertain); }
      if steady {
        current := Apply(id, Patch(NO_FIELDS.(mode := true), original));
        if current.None? { return Err(EIO, Uncertain); }
      }
      s := if Matches(current.value, ALL_FIELDS, original) then Ok else Err(EIO, Uncertain);
    }
  }

  const ALL_FIELDS := Fields(true, true, true, true, false, 0)
  const BLINK_PATCH := Patch(ALL_FIELDS, ZERO_VALUE.(mode := BLINK, red := 255, green := 100, brightness := 255, onMs := 250, offMs := 250))

  /** The comparison of a readback with the wanted fields. */
  predicate Matches(got: Value, f: Fields, want: Value) {
    && (f.rgb ==> got.red == want.red && got.green == want.green && got.blue == want.blue)
    && (f.brightness ==> got.brightness == want.brightness)
    && (f.mode ==> got.mode == want.mode)
    && (f.timing ==> got.onMs == want.onMs && got.offMs == want.offMs)
  }
}
