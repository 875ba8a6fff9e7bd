/** LED values and patches (led/led.h), and the backend-independent patch checks. */
module Led {
  import opened Base

  const OFF := 0
  const ON := 1
  const BLINK := 2
  const BREATH := 3
  const COLOR_MAX := 9

  /** The `fields` mask, one flag per known bit; `extra` holds every bit above them. */
  datatype Fields = Fields(mode: bool, rgb: bool, brightness: bool, timing: bool, color: bool, extra: nat)

  const NO_FIELDS := Fields(false, false, false, false, false, 0)
  const TIMING_BIT := 8

  datatype Value = Value(mode: u32, brightness: u32, red: u32, green: u32, blue: u32,
                         onMs: u32, offMs: u32, color: u32, unknown: u32, cached: u32)

  const ZERO_VALUE := Value(0, 0, 0, 0, 0, 0, 0, 0, 0, 0)

  datatype Patch = Patch(fields: Fields, value: Value)

  /** `ugreenctl_led_validate_patch`: true when the patch is accepted. */
  predicate ValidPatch(p: Patch) {
    var f, v := p.fields, p.value;
    && f != NO_FIELDS && f.extra == 0
    && (f.rgb ==> v.red <= 255 && v.green <= 255 && v.blue <= 255)
    && (f.brightness ==> v.brightness <= 255)
    && (f.color ==> v.color <= COLOR_MAX && !f.rgb)
    && (f.mode ==> v.mode <= BREATH)
    && (f.timing ==> f.mode && (v.mode == BLINK || v.mode == BREATH))
    && (f.mode && (v.mode == BLINK || v.mode == BREATH) ==> f.timing)
    && (f.timing ==> v.onMs + v.offMs <= 65535)
  }

  datatype Descriptor = Descriptor(id: nat, rgb: bool, modes: set<nat>, colors: set<nat>,
                                   minBrightness: nat, maxBrightness: nat,
                                   minOn: nat, minOff: nat, minBreathOn: nat, minBreathOff: nat,
                                   maxCycle: nat, quantum: nat)

  /** `ugreenctl_led_validate_target_patch` for a present target. */
  predicate ValidTargetPatch(t: Descriptor, p: Patch) {
    var f, v := p.fields, p.value;
    && ValidPatch(p)
    && (f.rgb ==> t.rgb)
    && (f.color ==> v.color in t.colors)
    && (f.mode ==> v.mode in t.modes)
    && (f.brightness ==> t.maxBrightness != 0 && t.minBrightness <= v.brightness <= t.maxBrightness)
    && !(!t.rgb && t.maxBrightness == 1 && f.mode && f.brightness && v.mode <= ON &&
         (v.mode == ON) != (v.brightness != 0))
    && (f.timing && v.mode == BLINK ==> t.minOn <= v.onMs && t.minOff <= v.offMs)
    && (f.timing && v.mode == BREATH ==> t.minBreathOn <= v.onMs && t.minBreathOff <= v.offMs)
    && (f.timing && t.maxCycle != 0 ==> v.onMs + v.offMs <= t.maxCycle)
    && (f.timing && t.quantum != 0 ==> v.onMs % t.quantum == 0 && v.offMs % t.quantum == 0)
  }
}
