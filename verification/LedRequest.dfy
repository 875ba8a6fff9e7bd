/** LED requests of the command line (core/hardware_cli.c): actions become patches, `led set` options
    merge into one, and nothing is written before every target has passed every check. */
module LedRequest {
  import opened Base
  import opened Led
  import N76

  datatype Action =
    | TurnOn
    | TurnOff
    | Color(named: bool, color: u32, red: byte, green: byte, blue: byte)
    | Brightness(amount: byte, percent: bool)
    | Blink(onMs: u32, offMs: u32)
    | Breath(onMs: u32, offMs: u32)
    | ShowStatus

  /** `patch_for_action`. */
  function PatchFor(a: Action, led: Descriptor): Patch {
    match a
    case TurnOn => Patch(NO_FIELDS.(mode := true), ZERO_VALUE.(mode := ON))
    case TurnOff => Patch(NO_FIELDS.(mode := true), ZERO_VALUE.(mode := OFF))
    case Color(named, color, red, green, blue) =>
      if named && (!led.rgb || color == 3 || color >= 7) then
        Patch(NO_FIELDS.(color := true), ZERO_VALUE.(color := color))
      else Patch(NO_FIELDS.(rgb := true), ZERO_VALUE.(red := red, green := green, blue := blue))
    case Brightness(amount, percent) =>
      var value := if percent then (amount * (led.maxBrightness % 0x1_0000_0000) + 50) / 100 else amount;
      Patch(NO_FIELDS.(brightness := true), ZERO_VALUE.(brightness := value % 0x1_0000_0000))
    case Blink(onMs, offMs) =>
      Patch(NO_FIELDS.(mode := true, timing := true), ZERO_VALUE.(mode := BLINK, onMs := onMs, offMs := offMs))
    case Breath(onMs, offMs) =>
      Patch(NO_FIELDS.(mode := true, timing := true), ZERO_VALUE.(mode := BREATH, onMs := onMs, offMs := offMs))
    case ShowStatus => Patch(NO_FIELDS, ZERO_VALUE)
  }

  /** One iteration of `merged_patch`: the next patch wins, and RGB and palette colour exclude each other. */
  function Merge(p: Patch, next: Patch): Patch {
    var f, n, v, w := p.fields, next.fields, p.value, next.value;
    var fields := Fields(f.mode || n.mode, (f.rgb && !n.color) || n.rgb, f.brightness || n.brightness,
                         f.timing || n.timing, (f.color && !n.rgb) || n.color, 0);
    var v1 := if n.rgb then v.(red := w.red, green := w.green, blue := w.blue) else v;
    var v2 := if n.color then v1.(color := w.color) else v1;
    var v3 := if n.brightness then v2.(brightness := w.brightness) else v2;
    var v4 := if n.mode then v3.(mode := w.mode) else v3;
    Patch(fields, if n.timing then v4.(onMs := w.onMs, offMs := w.offMs) else v4)
  }

  function Merged(actions: seq<Action>, led: Descriptor): Patch {
    if actions == [] then Patch(NO_FIELDS, ZERO_VALUE)
    else Merge(Merged(actions[..|actions| - 1], led), PatchFor(actions[|actions| - 1], led))
  }

  /** `merged_patch`. */
  method MergedPatch(actions: seq<Action>, led: Descriptor) returns (p: Patch)
    ensures p == Merged(actions, led)
  {
    p := Patch(NO_FIELDS, ZERO_VALUE);
    var i := 0;
    while i < |actions|
      invariant 0 <= i <= |actions| && p == Merged(actions[..i], led)
    {
      assert actions[..i + 1][..i] == actions[..i];
      p := Merge(p, PatchFor(actions[i], led));
      i := i + 1;
    }
    assert actions[..i] == actions;
  }

  /** What an LED shows. Its colour is either RGB or a palette entry. */
  datatype Colour = Rgb(red: u32, green: u32, blue: u32) | Palette(color: u32)
  datatype Look = Look(mode: u32, brightness: u32, colour: Colour, onMs: u32, offMs: u32)

  function Show(l: Look, p: Patch): Look {
    var f, v := p.fields, p.value;
    Look(if f.mode then v.mode else l.mode,
         if f.brightness then v.brightness else l.brightness,
         if f.color then Palette(v.color) else if f.rgb then Rgb(v.red, v.green, v.blue) else l.colour,
         if f.timing then v.onMs else l.onMs,
         if f.timing then v.offMs else l.offMs)
  }

  /** Each action changes just what it names. */
  lemma ActionShows(l: Look, a: Action, led: Descriptor)
    ensures var s := Show(l, PatchFor(a, led));
      match a
      case TurnOn => s == l.(mode := ON)
      case TurnOff => s == l.(mode := OFF)
      case Color(named, color, red, green, blue) =>
        && s == l.(colour := s.colour)
        && s.colour == if named && (!led.rgb || color == 3 || color >= 7) then Palette(color) else Rgb(red, green, blue)
      case Brightness(amount, percent) => s == l.(brightness := s.brightness) && (!percent ==> s.brightness == amount)
      case Blink(onMs, offMs) => s == l.(mode := BLINK, onMs := onMs, offMs := offMs)
      case Breath(onMs, offMs) => s == l.(mode := BREATH, onMs := onMs, offMs := offMs)
      case ShowStatus => s == l
  {
  }

  /** A percentage becomes the nearest level the LED has. */
  lemma PercentIsNearest(percent: byte, led: Descriptor)
    requires percent <= 100 && led.maxBrightness <= 255
    ensures var level, max := PatchFor(Brightness(percent, true), led).value.brightness, led.maxBrightness;
      && level <= max && -50 <= 100 * level - percent as int * max <= 50
      && (percent == 0 ==> level == 0) && (percent == 100 ==> level == max)
  {
    var max := led.maxBrightness;
    assert max % 0x1_0000_0000 == max;
    Scale(max, 0, percent);
    Scale(max, percent, 100);
    NearestHundredth(percent as int * max, max);
  }

  lemma NearestHundredth(x: nat, max: nat)
    requires x <= 100 * max && max <= 255
    ensures var level := (x + 50) / 100 % 0x1_0000_0000;
      && level <= max && -50 <= 100 * level - x <= 50
      && (x == 0 ==> level == 0) && (x == 100 * max ==> level == max)
  {
  }

  /** The actions one after the other. */
  function ShowAll(l: Look, actions: seq<Action>, led: Descriptor): Look {
    if actions == [] then l
    else Show(ShowAll(l, actions[..|actions| - 1], led), PatchFor(actions[|actions| - 1], led))
  }

  /** From any starting state the merged patch has the same visible effect as the actions in order, and
      it never carries two colours. */
  lemma {:induction false} MergeShowsTheSame(l: Look, actions: seq<Action>, led: Descriptor)
    ensures Show(l, Merged(actions, led)) == ShowAll(l, actions, led)
    ensures !(Merged(actions, led).fields.rgb && Merged(actions, led).fields.color)
  {
    if actions != [] { MergeShowsTheSame(l, actions[..|actions| - 1], led); }
  }

  predicate IsEffect(a: Action) { a.Blink? || a.Breath? }

  predicate SetsMode(a: Action) { IsEffect(a) || a.TurnOn? || a.TurnOff? }

  predicate HasEffect(actions: seq<Action>) {
    actions != [] && (IsEffect(actions[|actions| - 1]) || HasEffect(actions[..|actions| - 1]))
  }

  /** The last action that sets a mode is a steady one, though an earlier one asked for an effect. */
  predicate EffectCancelled(actions: seq<Action>) {
    && actions != []
    && var n := |actions| - 1;
       if actions[n].TurnOn? || actions[n].TurnOff? then HasEffect(actions[..n])
       else !IsEffect(actions[n]) && EffectCancelled(actions[..n])
  }

  /** Some action is more than a status request. */
  predicate Writes(actions: seq<Action>) {
    actions != [] && (!actions[|actions| - 1].ShowStatus? || Writes(actions[..|actions| - 1]))
  }

  ghost predicate EachValid(actions: seq<Action>, led: Descriptor) {
    forall k :: 0 <= k < |actions| && !actions[k].ShowStatus? ==> ValidPatch(PatchFor(actions[k], led))
  }

  /** A merged patch after actions that wrote, asked for an effect, or cancelled one. */
  ghost predicate Sound(p: Patch, writes: bool, effect: bool, cancelled: bool) {
    var f, v := p.fields, p.value;
    && (f != NO_FIELDS <==> writes) && (f.timing <==> effect) && f.extra == 0
    && (f.timing ==> f.mode && v.onMs + v.offMs <= 65535)
    && (f.mode ==> v.mode <= BREATH && (v.mode > ON ==> f.timing))
    && (f.timing && v.mode <= ON <==> cancelled)
    && (f.rgb ==> v.red <= 255 && v.green <= 255 && v.blue <= 255)
    && (f.brightness ==> v.brightness <= 255)
    && (f.color ==> v.color <= COLOR_MAX && !f.rgb)
  }

  lemma MergeKeepsSound(p: Patch, a: Action, led: Descriptor, writes: bool, effect: bool, cancelled: bool)
    requires Sound(p, writes, effect, cancelled) && (a.ShowStatus? || ValidPatch(PatchFor(a, led)))
    ensures Sound(Merge(p, PatchFor(a, led)), writes || !a.ShowStatus?, effect || IsEffect(a),
                  if a.TurnOn? || a.TurnOff? then effect else !IsEffect(a) && cancelled)
  {
  }

  lemma {:induction false} MergedIsSound(actions: seq<Action>, led: Descriptor)
    requires EachValid(actions, led)
    ensures Sound(Merged(actions, led), Writes(actions), HasEffect(actions), EffectCancelled(actions))
  {
    if actions != [] {
      var n := |actions| - 1;
      var before := actions[..n];
      MergedIsSound(before, led);
      MergeKeepsSound(Merged(before, led), actions[n], led, Writes(before), HasEffect(before), EffectCancelled(before));
    }
  }

  /** Options that are valid one by one merge into a valid patch exactly when no later steady mode
      cancels an effect: the merged patch would then carry timing without an effect mode. */
  lemma MergeIsValidUnlessCancelled(actions: seq<Action>, led: Descriptor)
    requires EachValid(actions, led) && Writes(actions)
    ensures ValidPatch(Merged(actions, led)) <==> !EffectCancelled(actions)
  {
    MergedIsSound(actions, led);
  }

  /** Blink and then on: each option is fine, and so are both in order, but not the merged patch. */
  lemma CancelledEffectIsRefused(led: Descriptor)
    ensures var actions := [Blink(500, 500), TurnOn];
      EachValid(actions, led) && Writes(actions) && !ValidPatch(Merged(actions, led))
  {
    var actions := [Blink(500, 500), TurnOn];
    assert actions[..1] == [Blink(500, 500)];
    assert HasEffect(actions[..1]);
    MergeIsValidUnlessCancelled(actions, led);
  }

  /** What the parser produces: at most one option sets the mode. Such options always merge well. */
  lemma {:induction false} OneModeIsNeverCancelled(actions: seq<Action>)
    requires forall i, j :: 0 <= i < j < |actions| ==> !(SetsMode(actions[i]) && SetsMode(actions[j]))
    ensures !EffectCancelled(actions)
  {
    if actions != [] {
      var n := |actions| - 1;
      OneModeIsNeverCancelled(actions[..n]);
      if SetsMode(actions[n]) { NoEffects(actions[..n]); }
    }
  }

  lemma {:induction false} NoEffects(actions: seq<Action>)
    requires forall k :: 0 <= k < |actions| ==> !SetsMode(actions[k])
    ensures !HasEffect(actions)
  {
    if actions != [] { NoEffects(actions[..|actions| - 1]); }
  }

  datatype Step = Step(action: nat, target: nat)

  /** The step-to-pair rule: the compatible tool finishes one target's actions before the next target. */
  function StepAt(compatible: bool, actions: nat, targets: nat, step: nat): Step
    requires actions > 0 && targets > 0
  {
    if compatible then Step(step % actions, step / actions) else Step(step / targets, step % targets)
  }

  function Position(compatible: bool, actions: nat, targets: nat, s: Step): nat {
    if compatible then s.target * actions + s.action else s.action * targets + s.target
  }

  lemma DivMod(q: nat, r: nat, d: nat)
    requires r < d
    ensures (q * d + r) / d == q && (q * d + r) % d == r
  {
    var x := q * d + r;
    var e := x / d - q;
    assert d * e == r - x % d;
    if e >= 1 { Scale(d, 1, e); } else if e <= -1 { Scale(d, 1, -e); }
  }

  lemma Scale(d: nat, a: int, b: int)
    requires a <= b
    ensures d * a <= d * b
  {
  }

  lemma InGrid(q: nat, r: nat, rows: nat, d: nat)
    requires q < rows && r < d
    ensures q * d + r < rows * d
  {
    Scale(d, q + 1, rows);
    assert (q + 1) * d == q * d + d;
  }

  /** Both schedules visit every (action, target) pair exactly once: positions and pairs correspond. */
  lemma EveryPairOnce(compatible: bool, actions: nat, targets: nat, s: Step)
    requires s.action < actions && s.target < targets
    ensures Position(compatible, actions, targets, s) < actions * targets
    ensures StepAt(compatible, actions, targets, Position(compatible, actions, targets, s)) == s
  {
    if compatible {
      DivMod(s.target, s.action, actions);
      InGrid(s.target, s.action, targets, actions);
    } else {
      DivMod(s.action, s.target, targets);
      InGrid(s.action, s.target, actions, targets);
    }
  }

  lemma EveryPositionIsAPair(compatible: bool, actions: nat, targets: nat, step: nat)
    requires actions > 0 && targets > 0 && step < actions * targets
    ensures var s := StepAt(compatible, actions, targets, step);
      s.action < actions && s.target < targets && Position(compatible, actions, targets, s) == step
  {
    var d, rows := if compatible then actions else targets, if compatible then targets else actions;
    var q := step / d;
    assert step == q * d + step % d;
    if q >= rows { Scale(d, rows, q); }
  }

  /** For each target the actions come in the order given. */
  lemma ActionsStayInOrder(compatible: bool, actions: nat, targets: nat, a: nat, b: nat, target: nat)
    requires a < b < actions && target < targets
    ensures Position(compatible, actions, targets, Step(a, target)) < Position(compatible, actions, targets, Step(b, target))
  {
    if !compatible { Scale(targets, a + 1, b); }
  }

  /** The compatible tool finishes a target before the next one; otherwise each action reaches all targets
      before the next action. */
  lemma ScheduleOrder(compatible: bool, actions: nat, targets: nat, j: nat, k: nat)
    requires actions > 0 && targets > 0 && j < k
    ensures var s, t := StepAt(compatible, actions, targets, j), StepAt(compatible, actions, targets, k);
      if compatible then s.target < t.target || (s.target == t.target && s.action < t.action)
      else s.action < t.action || (s.action == t.action && s.target < t.target)
  {
    DivOrder(if compatible then actions else targets, j, k);
  }

  lemma DivOrder(d: nat, j: nat, k: nat)
    requires d > 0 && j < k
    ensures j / d < k / d || (j / d == k / d && j % d < k % d)
  {
    var q, r := j / d, k / d;
    if q > r { Scale(d, r + 1, q); }
  }

  /** How the LEDs are driven: the N76 over its bus, a kernel driver (that of the N76 or another), the GPIO
      lines of the holder, or a controller whose checks do not look at the LED's state. */
  datatype Backend = Direct(model: N76.Model) | Sysfs(n76: bool) | Gpio | Controller

  datatype Trigger = Normal | Timer | Breathing

  const NONE := 0
  const WHITE := 1
  const ORANGE := 2

  /** What a read tells of an LED, as far as later checks look at it; the fields in `unknown` are not known. */
  datatype Seen = Seen(mode: u32, color: u32, brightness: u32, unknown: Fields)

  /** A target before the first write: its state when it can be read, whether its driver is bound as
      expected, and the triggers the driver offers. */
  datatype Probe = Probe(seen: Option<Seen>, bound: bool, triggers: set<Trigger>)

  function ModeAfter(before: Seen, p: Patch): u32 { if p.fields.mode then p.value.mode else before.mode }

  function ColorAfter(before: Seen, p: Patch): u32 { if p.fields.color then p.value.color else before.color }

  function Required(mode: u32): Trigger { if mode <= ON then Normal else if mode == BLINK then Timer else Breathing }

  /** The N76 part of `ugreenctl_led_validate_state_patch`. */
  predicate ValidN76Patch(led: Descriptor, before: Seen, p: Patch) {
    var f, mode, color := p.fields, ModeAfter(before, p), ColorAfter(before, p);
    && (f.mode || (!before.unknown.mode && mode <= ON))
    && !(led.maxBrightness > 1 && f.brightness && p.value.brightness == 1)
    && !((mode == ON || mode == BLINK) && !f.color && before.unknown.color)
    && !(mode == ON && color == NONE)
    && (mode == BLINK ==> color == WHITE || color == ORANGE)
  }

  /** What the N76 checks leave behind: a known mode, steady unless the patch asks for an effect itself; a lit or
      blinking LED in a known colour, on in some colour, blinking in just one; and no brightness of one where
      the LED can be dimmed, since it would switch the LED on. */
  lemma N76PatchLeaves(led: Descriptor, before: Seen, p: Patch)
    ensures var after := Predict(before, p);
      ValidN76Patch(led, before, p) <==>
        && !after.unknown.mode && (p.fields.mode || after.mode <= 1)
        && (after.mode == 1 ==> !after.unknown.color && after.color != 0)
        && (after.mode == 2 ==> !after.unknown.color && 1 <= after.color <= 2)
        && (led.maxBrightness > 1 && p.fields.brightness ==> after.brightness != 1)
  {
  }

  /** The state the command line predicts after a write. */
  function Predict(s: Seen, p: Patch): Seen {
    var f, u := p.fields, s.unknown;
    Seen(ModeAfter(s, p), ColorAfter(s, p), if f.brightness then p.value.brightness else s.brightness,
         Fields(u.mode && !f.mode, u.rgb && !f.rgb, u.brightness && !f.brightness, u.timing && !f.timing,
                u.color && !f.color, u.extra))
  }

  /** A GPIO LED is lit after the patch. */
  predicate Lit(before: Seen, p: Patch) {
    if p.fields.mode then p.value.mode == ON
    else if p.fields.brightness then p.value.brightness != 0
    else before.mode == ON
  }

  /** A request as `led_execute` sees it after target selection. */
  datatype Job = Job(leds: seq<Descriptor>, actions: seq<Action>, combined: bool, compatible: bool,
                     apply: bool, force: bool, experimental: bool, backend: Backend) {
    function Count(): nat { if combined then 1 else |actions| }

    predicate IsRead(a: nat)
      requires a < Count()
    {
      !combined && actions[a].ShowStatus?
    }

    function PatchAt(a: nat, t: nat): Patch
      requires a < Count() && t < |leds|
    {
      if combined then Merged(actions, leds[t]) else PatchFor(actions[a], leds[t])
    }

    /** The patch suits its target, and can be planned when the N76 is driven directly. */
    predicate Acceptable(a: nat, t: nat)
      requires a < Count() && t < |leds|
    {
      && ValidTargetPatch(leds[t], PatchAt(a, t))
      && (backend.Direct? ==> N76.Plannable(backend.model, leds[t].id, PatchAt(a, t)))
    }

    ghost predicate AllValid() {
      forall a, t :: 0 <= a < Count() && 0 <= t < |leds| && !IsRead(a) ==> Acceptable(a, t)
    }

    predicate HasWrite() { exists a :: 0 <= a < Count() && !IsRead(a) }

    /** Experimental models are written to only with an explicit force. */
    predicate Confirmed() { apply && HasWrite() && experimental ==> force }

    /** `ugreenctl_led_preflight` for a write that meets the target in the given state. */
    predicate Foreseen(a: nat, t: nat, probe: Probe, before: Seen)
      requires a < Count() && t < |leds|
    {
      var p := PatchAt(a, t);
      match backend
      case Direct(model) => N76.Plannable(model, leds[t].id, p)
      case Sysfs(n76) =>
        && ValidTargetPatch(leds[t], p) && probe.bound
        && (n76 ==> ValidN76Patch(leds[t], before, p) && Required(ModeAfter(before, p)) in probe.triggers)
      case _ => ValidTargetPatch(leds[t], p)
    }

    /** The check of a write itself, on the state it meets. */
    predicate Allowed(a: nat, t: nat, probe: Probe, before: Seen)
      requires a < Count() && t < |leds|
    {
      && ValidTargetPatch(leds[t], PatchAt(a, t)) && Foreseen(a, t, probe, before)
      && (backend.Gpio? && PatchAt(a, t).fields.color ==> Lit(before, PatchAt(a, t)))
    }

    /** A colour for a binary LED that shows none, without a request to light it. */
    predicate Dormant(a: nat, t: nat, before: Seen)
      requires a < Count() && t < |leds|
    {
      var f, v := PatchAt(a, t).fields, PatchAt(a, t).value;
      && combined && !backend.Direct? && !leds[t].rgb && leds[t].maxBrightness == 1
      && f.color && before.unknown.color && !(f.mode && v.mode == ON) && !(f.brightness && v.brightness != 0)
    }

    /** The predicted state of a target before action a. */
    function Planned(a: nat, t: nat, seen: Seen): Seen
      requires a <= Count() && t < |leds|
    {
      if a == 0 then seen
      else if IsRead(a - 1) then Planned(a - 1, t, seen)
      else Predict(Planned(a - 1, t, seen), PatchAt(a - 1, t))
    }

    /** Action a of target t passes the preflight. */
    predicate Cleared(a: nat, t: nat, probe: Probe, before: Seen)
      requires a < Count() && t < |leds|
    {
      IsRead(a) || (Foreseen(a, t, probe, before) && !Dormant(a, t, before))
    }

    /** Target t passes the preflight of its first n actions. */
    ghost predicate Preflighted(t: nat, probe: Probe, n: nat)
      requires t < |leds| && n <= Count() && probe.seen.Some?
    {
      forall a :: 0 <= a < n ==> Cleared(a, t, probe, Planned(a, t, probe.seen.value))
    }

    function At(k: nat): (s: Step)
      requires Count() > 0 && |leds| > 0 && k < Count() * |leds|
      ensures s.action < Count() && s.target < |leds| && Position(compatible, Count(), |leds|, s) == k
    {
      EveryPositionIsAPair(compatible, Count(), |leds|, k);
      StepAt(compatible, Count(), |leds|, k)
    }

    predicate IsWrite(k: nat)
      requires Count() > 0 && |leds| > 0 && k < Count() * |leds|
    {
      apply && !IsRead(At(k).action)
    }

    /** Step k does something: it writes, or it reads. */
    predicate Attempted(k: nat)
      requires Count() > 0 && |leds| > 0 && k < Count() * |leds|
    {
      apply || IsRead(At(k).action)
    }

    /** The writes among the first n steps of the schedule. */
    function WriteSteps(n: nat): seq<Step>
      requires Count() > 0 && |leds| > 0 && n <= Count() * |leds|
    {
      if n == 0 then [] else WriteSteps(n - 1) + (if IsWrite(n - 1) then [At(n - 1)] else [])
    }
  }

  /** What the preflight asks of the kernel driver of the N76: the binding, and the trigger of the mode that the
      LED will be in. */
  lemma ForeseenOnN76(job: Job, a: nat, t: nat, probe: Probe, before: Seen)
    requires a < job.Count() && t < |job.leds| && job.backend == Sysfs(true)
    ensures var p, mode := job.PatchAt(a, t), Predict(before, job.PatchAt(a, t)).mode;
      job.Foreseen(a, t, probe, before) <==>
        && ValidTargetPatch(job.leds[t], p) && probe.bound && ValidN76Patch(job.leds[t], before, p)
        && (mode <= 1 ==> Normal in probe.triggers) && (mode == 2 ==> Timer in probe.triggers)
        && (mode >= 3 ==> Breathing in probe.triggers)
  {
  }

  /** The profile's entry for an LED on GPIO lines, with its second colour. */
  function GpioLed(id: nat, second: nat): Descriptor {
    Descriptor(id, false, {OFF, ON}, {1, second, 7, 8}, 0, 1, 0, 0, 0, 0, 0, 0)
  }

  /** Exactly the patches a GPIO LED takes: on or off, a brightness of one or none that agrees, and a colour of
      its two channels. */
  lemma GpioAccepts(id: nat, second: nat, p: Patch)
    requires second in {2, 4}
    ensures var f, v := p.fields, p.value;
      ValidTargetPatch(GpioLed(id, second), p) <==>
        && (f.mode || f.brightness || f.color) && !f.rgb && !f.timing && f.extra == 0
        && (f.mode ==> v.mode <= 1) && (f.brightness ==> v.brightness <= 1) && (f.mode && f.brightness ==> v.mode == v.brightness)
        && (f.color ==> v.color in {1, second, 7, 8})
  {
  }

  /** What the machine answers: whether the session opens, what each target shows before the first write,
      and what each step of the schedule leaves or finds, or None when it fails. */
  datatype Answers = Answers(opens: bool, probes: seq<Probe>, steps: seq<Option<Seen>>)

  ghost predicate Fits(job: Job, answers: Answers) {
    job.Count() > 0 && |job.leds| > 0 && |answers.probes| == |job.leds| && |answers.steps| == job.Count() * |job.leds|
  }

  ghost predicate AllReadable(job: Job, answers: Answers)
    requires Fits(job, answers)
  {
    forall t :: 0 <= t < |job.leds| ==> answers.probes[t].seen.Some?
  }

  /** Every write of the request is foreseen on the state that the earlier ones are predicted to leave. */
  ghost predicate AllPreflighted(job: Job, answers: Answers)
    requires Fits(job, answers) && AllReadable(job, answers)
  {
    forall t :: 0 <= t < |job.leds| ==> job.Preflighted(t, answers.probes[t], job.Count())
  }

  /** The first nested loop of `led_execute`. */
  method ValidateAll(job: Job) returns (valid: bool)
    ensures valid <==> job.AllValid()
  {
    var a := 0;
    while a < job.Count()
      invariant 0 <= a <= job.Count()
      invariant forall b, t :: 0 <= b < a && 0 <= t < |job.leds| && !job.IsRead(b) ==> job.Acceptable(b, t)
    {
      if !job.IsRead(a) {
        var t := 0;
        while t < |job.leds|
          invariant 0 <= t <= |job.leds|
          invariant forall u :: 0 <= u < t ==> job.Acceptable(a, u)
        {
          if !job.Acceptable(a, t) { return false; }
          t := t + 1;
        }
      }
      a := a + 1;
    }
    valid := true;
  }

  /** The preflight of one more action, on the state predicted so far. */
  method PreflightNext(job: Job, a: nat, t: nat, probe: Probe, planned: Seen) returns (ready: bool, next: Seen)
    requires a < job.Count() && t < |job.leds|
    ensures ready <==> job.Cleared(a, t, probe, planned)
    ensures next == if job.IsRead(a) then planned else Predict(planned, job.PatchAt(a, t))
  {
    ready, next := job.Cleared(a, t, probe, planned), planned;
    if !job.IsRead(a) { next := Predict(planned, job.PatchAt(a, t)); }
  }

  /** One target of the preflight: its actions in order, on a predicted state. */
  method PreflightTarget(job: Job, t: nat, probe: Probe) returns (ready: bool)
    requires t < |job.leds| && probe.seen.Some?
    ensures ready <==> job.Preflighted(t, probe, job.Count())
  {
    ready := true;
    var planned, a := probe.seen.value, 0;
    while a < job.Count() && ready
      invariant 0 <= a <= job.Count() && (ready ==> planned == job.Planned(a, t, probe.seen.value))
      invariant ready <==> job.Preflighted(t, probe, a)
    {
      ready, planned := PreflightNext(job, a, t, probe, planned);
      PreflightedNext(job, t, probe, a);
      a := a + 1;
    }
    if job.Preflighted(t, probe, job.Count()) { PreflightedPrefix(job, t, probe, a); }
  }

  lemma PreflightedNext(job: Job, t: nat, probe: Probe, a: nat)
    requires t < |job.leds| && a < job.Count() && probe.seen.Some?
    ensures job.Preflighted(t, probe, a + 1) <==>
      job.Preflighted(t, probe, a) && job.Cleared(a, t, probe, job.Planned(a, t, probe.seen.value))
  {
  }

  lemma PreflightedPrefix(job: Job, t: nat, probe: Probe, a: nat)
    requires t < |job.leds| && a <= job.Count() && probe.seen.Some? && job.Preflighted(t, probe, job.Count())
    ensures job.Preflighted(t, probe, a)
  {
  }

  /** Read every target, then preflight every planned write. */
  method PreflightAll(job: Job, answers: Answers) returns (ready: bool)
    requires Fits(job, answers)
    ensures ready <==> AllReadable(job, answers) && (job.apply ==> AllPreflighted(job, answers))
  {
    var t := 0;
    while t < |job.leds|
      invariant 0 <= t <= |job.leds| && forall u :: 0 <= u < t ==> answers.probes[u].seen.Some?
    {
      if answers.probes[t].seen.None? { return false; }
      t := t + 1;
    }
    if !job.apply { return true; }
    t := 0;
    while t < |job.leds|
      invariant 0 <= t <= |job.leds|
      invariant forall u :: 0 <= u < t ==> job.Preflighted(u, answers.probes[u], job.Count())
    {
      ready := PreflightTarget(job, t, answers.probes[t]);
      if !ready { return; }
      t := t + 1;
    }
    ready := true;
  }

  /** What the targets show before step k, when every step before it succeeded. */
  function Shown(job: Job, answers: Answers, k: nat): (shown: seq<Seen>)
    requires Fits(job, answers) && AllReadable(job, answers) && k <= |answers.steps|
    ensures |shown| == |job.leds|
  {
    if k == 0 then seq(|job.leds|, t requires 0 <= t < |job.leds| => answers.probes[t].seen.value)
    else if job.IsWrite(k - 1) && answers.steps[k - 1].Some? then
      Shown(job, answers, k - 1)[job.At(k - 1).target := answers.steps[k - 1].value]
    else Shown(job, answers, k - 1)
  }

  /** Step k is not a write that its own check refuses. */
  predicate Passes(job: Job, answers: Answers, k: nat)
    requires Fits(job, answers) && AllReadable(job, answers) && k < |answers.steps|
  {
    var s := job.At(k);
    job.IsWrite(k) ==> job.Allowed(s.action, s.target, answers.probes[s.target], Shown(job, answers, k)[s.target])
  }

  /** How a run ended: after its last step, at a write refused before it touched the LED, or at a failure. */
  datatype End = Finished | Refused | Failed

  ghost predicate RunsTo(job: Job, answers: Answers, end: End, tried: nat)
    requires Fits(job, answers) && AllReadable(job, answers)
  {
    && (if end.Finished? then tried == |answers.steps| else 0 < tried <= |answers.steps|)
    && (forall k :: 0 <= k < (if end.Finished? then tried else tried - 1) ==> Succeeds(job, answers, k))
    && (!end.Finished? ==> !Succeeds(job, answers, tried - 1) && (end.Refused? <==> !Passes(job, answers, tried - 1)))
  }

  /** Step k does not stop the run. */
  predicate Succeeds(job: Job, answers: Answers, k: nat)
    requires Fits(job, answers) && AllReadable(job, answers) && k < |answers.steps|
  {
    job.Attempted(k) ==> Passes(job, answers, k) && answers.steps[k].Some?
  }

  /** One step: a read, a write after its own check, or nothing in a preview. */
  method TakeStep(job: Job, answers: Answers, k: nat, shown: seq<Seen>) returns (end: End, next: seq<Seen>, made: seq<Step>)
    requires Fits(job, answers) && AllReadable(job, answers) && k < |answers.steps| && shown == Shown(job, answers, k)
    ensures end.Finished? <==> Succeeds(job, answers, k)
    ensures !end.Finished? ==> job.Attempted(k) && (end.Refused? <==> !Passes(job, answers, k))
    ensures end.Finished? ==> next == Shown(job, answers, k + 1)
    ensures made == if job.IsWrite(k) && !end.Refused? then [job.At(k)] else []
  {
    var s, answer := job.At(k), answers.steps[k];
    end, next, made := Finished, shown, [];
    if job.apply && !job.IsRead(s.action) {
      if !job.Allowed(s.action, s.target, answers.probes[s.target], shown[s.target]) { return Refused, next, made; }
      made := [s];
      if answer.None? { return Failed, next, made; }
      next := shown[s.target := answer.value];
    } else if job.IsRead(s.action) && answer.None? {
      end := Failed;
    }
  }

  /** The execution loop of a session: step by step through the schedule, stopping at the first step that
      is refused or fails. */
  method RunSchedule(job: Job, answers: Answers) returns (end: End, writes: seq<Step>, tried: nat)
    requires Fits(job, answers) && AllReadable(job, answers)
    ensures RunsTo(job, answers, end, tried)
    ensures writes == job.WriteSteps(if end.Refused? then tried - 1 else tried)
  {
    end, writes, tried := Finished, [], 0;
    var shown := seq(|job.leds|, t requires 0 <= t < |job.leds| => answers.probes[t].seen.value);
    while tried < |answers.steps|
      invariant tried <= |answers.steps| && writes == job.WriteSteps(tried) && shown == Shown(job, answers, tried)
      invariant end.Finished? && forall k :: 0 <= k < tried ==> Succeeds(job, answers, k)
    {
      var made;
      end, shown, made := TakeStep(job, answers, tried, shown);
      writes, tried := writes + made, tried + 1;
      if !end.Finished? { return; }
    }
  }

  /** The actions of target t that stand before step k of the schedule. */
  function DoneBefore(job: Job, k: nat, t: nat): nat
    requires job.Count() > 0 && |job.leds| > 0 && k <= job.Count() * |job.leds|
  {
    if k == 0 then 0 else DoneBefore(job, k - 1, t) + (if job.At(k - 1).target == t then 1 else 0)
  }

  /** They are the first ones of the request. */
  lemma {:induction false} DoneInOrder(job: Job, k: nat, a: nat, t: nat)
    requires job.Count() > 0 && |job.leds| > 0 && k <= job.Count() * |job.leds| && a < job.Count() && t < |job.leds|
    ensures Position(job.compatible, job.Count(), |job.leds|, Step(a, t)) < k <==> a < DoneBefore(job, k, t)
  {
    if k > 0 {
      DoneInOrder(job, k - 1, a, t);
      var s := job.At(k - 1);
      EveryPairOnce(job.compatible, job.Count(), |job.leds|, Step(a, t));
      if s.target == t { TurnOf(job, k - 1); }
    }
  }

  /** So a target meets its actions one after the other, in either schedule. */
  lemma {:induction false} TurnOf(job: Job, k: nat)
    requires job.Count() > 0 && |job.leds| > 0 && k < job.Count() * |job.leds|
    ensures DoneBefore(job, k, job.At(k).target) == job.At(k).action
  {
    var s := job.At(k);
    var m := DoneBefore(job, k, s.target);
    DoneInOrder(job, k, s.action, s.target);
    if m < s.action {
      DoneInOrder(job, k, m, s.target);
      ActionsStayInOrder(job.compatible, job.Count(), |job.leds|, m, s.action, s.target);
    }
  }

  /** The same mode and colour, known or not. */
  predicate Alike(x: Seen, y: Seen) {
    x.mode == y.mode && x.color == y.color && x.unknown.mode == y.unknown.mode && x.unknown.color == y.unknown.color
  }

  /** A write leaves the requested mode and colour, and those not requested as they were. */
  ghost predicate Keeps(before: Seen, p: Patch, after: Seen) {
    && (if p.fields.mode then after.mode == p.value.mode && !after.unknown.mode
        else after.mode == before.mode && after.unknown.mode == before.unknown.mode)
    && (if p.fields.color then after.color == p.value.color && !after.unknown.color
        else after.color == before.color && after.unknown.color == before.unknown.color)
  }

  /** Every successful write does so, and nothing else changes the LEDs meanwhile. */
  ghost predicate Undisturbed(job: Job, answers: Answers)
    requires Fits(job, answers) && AllReadable(job, answers)
  {
    forall k :: 0 <= k < |answers.steps| && job.IsWrite(k) && answers.steps[k].Some? ==>
      var s := job.At(k);
      Keeps(Shown(job, answers, k)[s.target], job.PatchAt(s.action, s.target), answers.steps[k].value)
  }

  /** Every step before k succeeded. */
  ghost predicate Reached(job: Job, answers: Answers, k: nat)
    requires Fits(job, answers) && k <= |answers.steps|
  {
    forall j :: 0 <= j < k && job.Attempted(j) ==> answers.steps[j].Some?
  }

  /** Step k, if it is a write, succeeds and does what it is asked. */
  ghost predicate Obeys(job: Job, answers: Answers, k: nat)
    requires Fits(job, answers) && AllReadable(job, answers) && k < |answers.steps|
  {
    var s := job.At(k);
    job.IsWrite(k) ==>
      && answers.steps[k].Some?
      && Keeps(Shown(job, answers, k)[s.target], job.PatchAt(s.action, s.target), answers.steps[k].value)
  }

  ghost predicate ObeysUpTo(job: Job, answers: Answers, k: nat)
    requires Fits(job, answers) && AllReadable(job, answers) && k <= |answers.steps|
  {
    k == 0 || (ObeysUpTo(job, answers, k - 1) && Obeys(job, answers, k - 1))
  }

  lemma {:induction false} ReachedObeys(job: Job, answers: Answers, k: nat)
    requires Fits(job, answers) && AllReadable(job, answers) && k <= |answers.steps|
    requires Undisturbed(job, answers) && Reached(job, answers, k)
    ensures ObeysUpTo(job, answers, k)
  {
    if k > 0 {
      ReachedObeys(job, answers, k - 1);
      if job.IsWrite(k - 1) { assert job.Attempted(k - 1); }
    }
  }

  /** The prediction is what each step meets: before step k every target shows what the preflight
      predicted after those of its actions that came before. */
  lemma {:induction false} ShownAsPlanned(job: Job, answers: Answers, k: nat, t: nat)
    requires Fits(job, answers) && AllReadable(job, answers) && job.apply && k <= |answers.steps| && t < |job.leds|
    requires ObeysUpTo(job, answers, k)
    ensures DoneBefore(job, k, t) <= job.Count()
    ensures Alike(Shown(job, answers, k)[t], job.Planned(DoneBefore(job, k, t), t, answers.probes[t].seen.value))
  {
    if k > 0 {
      ShownAsPlanned(job, answers, k - 1, t);
      if job.At(k - 1).target == t {
        TurnOf(job, k - 1);
        ShownNext(job, answers, k - 1, t);
      } else {
        ShownElsewhere(job, answers, k - 1, t);
      }
    }
  }

  lemma ShownElsewhere(job: Job, answers: Answers, k: nat, t: nat)
    requires Fits(job, answers) && AllReadable(job, answers) && k < |answers.steps| && t < |job.leds| && job.At(k).target != t
    ensures Shown(job, answers, k + 1)[t] == Shown(job, answers, k)[t]
  {
  }

  /** One action of a target, when its turn comes. */
  lemma ShownNext(job: Job, answers: Answers, k: nat, t: nat)
    requires Fits(job, answers) && AllReadable(job, answers) && job.apply && k < |answers.steps| && job.At(k).target == t
    requires Obeys(job, answers, k)
    requires Alike(Shown(job, answers, k)[t], job.Planned(job.At(k).action, t, answers.probes[t].seen.value))
    ensures Alike(Shown(job, answers, k + 1)[t], job.Planned(job.At(k).action + 1, t, answers.probes[t].seen.value))
  {
    if job.IsWrite(k) {
      var a := job.At(k).action;
      PredictionHolds(Shown(job, answers, k)[t], job.Planned(a, t, answers.probes[t].seen.value), job.PatchAt(a, t),
                      answers.steps[k].value);
    }
  }

  lemma PredictionHolds(before: Seen, planned: Seen, p: Patch, after: Seen)
    requires Alike(before, planned) && Keeps(before, p, after)
    ensures Alike(after, Predict(planned, p))
  {
  }

  /** What is foreseen on one state is foreseen on any alike. */
  lemma ForeseenByLook(job: Job, a: nat, t: nat, probe: Probe, x: Seen, y: Seen)
    requires a < job.Count() && t < |job.leds| && Alike(x, y) && job.Foreseen(a, t, probe, x)
    ensures job.Foreseen(a, t, probe, y)
  {
  }

  /** After a preflight no write is refused for the state it meets, whatever the schedule. */
  lemma NothingIsRefused(job: Job, answers: Answers, k: nat)
    requires Fits(job, answers) && AllReadable(job, answers) && k < |answers.steps|
    requires job.AllValid() && (job.apply ==> AllPreflighted(job, answers))
    requires !job.backend.Gpio? && (job.backend == Sysfs(true) ==> Undisturbed(job, answers) && Reached(job, answers, k))
    ensures Passes(job, answers, k)
  {
    if job.IsWrite(k) {
      var s := job.At(k);
      var probe, shown := answers.probes[s.target], Shown(job, answers, k)[s.target];
      var planned := job.Planned(s.action, s.target, probe.seen.value);
      assert job.Cleared(s.action, s.target, probe, planned) && job.Acceptable(s.action, s.target);
      if job.backend == Sysfs(true) {
        TurnOf(job, k);
        ReachedObeys(job, answers, k);
        ShownAsPlanned(job, answers, k, s.target);
        ForeseenByLook(job, s.action, s.target, probe, planned, shown);
      }
    }
  }

  /** What the parsers produce: options are merged outside the compatible tool, which has no palette. */
  ghost predicate Parsed(job: Job) {
    if job.combined then !job.compatible
    else forall a :: 0 <= a < |job.actions| && job.actions[a].Color? ==> !job.actions[a].named
  }

  /** GPIO LEDs are binary, and a dark one shows no colour. */
  ghost predicate Binary(job: Job, answers: Answers)
    requires Fits(job, answers) && AllReadable(job, answers)
  {
    && (forall t :: 0 <= t < |job.leds| ==> !job.leds[t].rgb && job.leds[t].maxBrightness == 1)
    && (forall t :: 0 <= t < |job.leds| ==>
          answers.probes[t].seen.value.mode == ON || answers.probes[t].seen.value.unknown.color)
  }

  lemma {:induction false} SamePatch(actions: seq<Action>, x: Descriptor, y: Descriptor)
    requires x.rgb == y.rgb && x.maxBrightness == y.maxBrightness
    ensures Merged(actions, x) == Merged(actions, y)
  {
    if actions != [] { SamePatch(actions[..|actions| - 1], x, y); }
  }

  /** A combined request turns to each target once, so it meets the states that were read. */
  lemma {:induction false} MetAsRead(job: Job, answers: Answers, k: nat, t: nat)
    requires Fits(job, answers) && AllReadable(job, answers) && job.combined && !job.compatible
    requires k <= t < |job.leds|
    ensures Shown(job, answers, k)[t] == answers.probes[t].seen.value
  {
    if k > 0 { MetAsRead(job, answers, k - 1, t); }
  }

  /** The GPIO holder refuses a colour for an LED that stays dark, which the preflight does not foresee.
      Still no request is left half done: it refuses at the first target or at none. */
  lemma RefusedFirstOrNever(job: Job, answers: Answers, k: nat)
    requires Fits(job, answers) && AllReadable(job, answers) && k < |answers.steps| && job.backend.Gpio?
    requires job.AllValid() && (job.apply ==> AllPreflighted(job, answers)) && Parsed(job) && Binary(job, answers)
    requires Passes(job, answers, 0)
    ensures Passes(job, answers, k)
  {
    if job.IsWrite(k) {
      var s := job.At(k);
      assert job.Acceptable(s.action, s.target);
      if job.combined {
        var probe := answers.probes[s.target];
        assert s == Step(0, k) && job.At(0) == Step(0, 0);
        SamePatch(job.actions, job.leds[0], job.leds[k]);
        MetAsRead(job, answers, k, k);
        assert job.Cleared(0, k, probe, job.Planned(0, k, probe.seen.value));
      }
    }
  }

  /** The patch sets a colour and darkens the LED. */
  predicate Darkens(p: Patch) {
    p.fields.color && if p.fields.mode then p.value.mode != ON else p.fields.brightness && p.value.brightness == 0
  }

  /** The first write passes exactly if it does not ask for that. */
  lemma FirstPasses(job: Job, answers: Answers)
    requires Fits(job, answers) && AllReadable(job, answers) && job.backend.Gpio? && job.apply && job.AllValid()
    requires AllPreflighted(job, answers) && Parsed(job) && Binary(job, answers)
    ensures job.At(0) == Step(0, 0) && (Passes(job, answers, 0) <==> !(job.combined && Darkens(job.PatchAt(0, 0))))
  {
    var probe := answers.probes[0];
    assert job.At(0) == Step(0, 0);
    assert !job.IsRead(0) ==> job.Acceptable(0, 0);
    assert job.Cleared(0, 0, probe, job.Planned(0, 0, probe.seen.value));
  }

  /** So the preflight is right about a GPIO request exactly unless it sets a colour and darkens. */
  lemma RefusedExactlyWhenDarkened(job: Job, answers: Answers)
    requires Fits(job, answers) && AllReadable(job, answers) && job.backend.Gpio? && job.apply && job.AllValid()
    requires AllPreflighted(job, answers) && Parsed(job) && Binary(job, answers)
    ensures (forall k :: 0 <= k < |answers.steps| ==> Passes(job, answers, k)) <==> !(job.combined && Darkens(job.PatchAt(0, 0)))
  {
    FirstPasses(job, answers);
    if Passes(job, answers, 0) {
      forall k | 0 <= k < |answers.steps| ensures Passes(job, answers, k) { RefusedFirstOrNever(job, answers, k); }
    }
  }

  /** Such a request: a lit LED asked to take a colour and go dark. */
  lemma DarkColorIsNotForeseen(led: Descriptor, answer: Option<Seen>)
    requires !led.rgb && led.maxBrightness == 1 && OFF in led.modes && WHITE in led.colors
    ensures var job := Job([led], [Color(true, WHITE, 255, 255, 255), TurnOff], true, false, true, true, true, Gpio);
      var answers := Answers(true, [Probe(Some(Seen(ON, WHITE, 1, NO_FIELDS)), true, {})], [answer]);
      && Fits(job, answers) && AllReadable(job, answers) && Parsed(job) && Binary(job, answers)
      && job.AllValid() && AllPreflighted(job, answers) && !Passes(job, answers, 0)
  {
    var actions := [Color(true, WHITE, 255, 255, 255), TurnOff];
    assert actions[..1][..0] == [] && actions[..1] == [actions[0]];
    assert Merged(actions[..1], led) == Patch(NO_FIELDS.(color := true), ZERO_VALUE.(color := WHITE));
    assert Merged(actions, led) == Patch(NO_FIELDS.(color := true, mode := true), ZERO_VALUE.(color := WHITE));
  }

  /** What became of a request. */
  datatype Verdict = Rejected | Ran(end: End)

  /** Force is needed exactly to write to an experimental model. */
  lemma ConfirmedExactly(job: Job)
    requires job.Count() > 0
    ensures job.Confirmed() <==>
      !(job.experimental && job.apply && !job.force && (job.combined || exists a :: 0 <= a < |job.actions| && !job.actions[a].ShowStatus?))
  {
    if job.combined { assert !job.IsRead(0); }
    if !job.combined {
      if a :| 0 <= a < |job.actions| && !job.actions[a].ShowStatus? { assert !job.IsRead(a); }
      if a :| 0 <= a < job.Count() && !job.IsRead(a) { assert !job.actions[a].ShowStatus?; }
    }
  }

  /** What a request must pass before its first step. */
  ghost predicate Admitted(job: Job, answers: Answers)
    requires Fits(job, answers)
  {
    && job.AllValid() && job.Confirmed()
    && (job.apply || HasRead(job) ==>
          answers.opens && AllReadable(job, answers) && (job.apply ==> AllPreflighted(job, answers)))
  }

  method Admit(job: Job, answers: Answers) returns (ready: bool)
    requires Fits(job, answers)
    ensures ready <==> Admitted(job, answers)
    ensures (job.experimental && job.apply && !job.force &&
             (job.combined || exists a :: 0 <= a < |job.actions| && !job.actions[a].ShowStatus?)) ==> !ready
  {
    ConfirmedExactly(job);
    ready := ValidateAll(job);
    if !ready || !job.Confirmed() { return false; }
    if job.apply || HasRead(job) {
      if !answers.opens { return false; }
      ready := PreflightAll(job, answers);
    }
  }

  /** `led_execute`: no write is even tried unless every target is valid, readable and foreseen to accept
      its writes; then the writes tried are those of the schedule, in order, up to the first failure. */
  method Execute(job: Job, answers: Answers) returns (verdict: Verdict, writes: seq<Step>, tried: nat)
    requires Fits(job, answers)
    ensures verdict.Rejected? ==> writes == []
    ensures verdict.Rejected? <==> !Admitted(job, answers)
    ensures (job.experimental && job.apply && !job.force &&
             (job.combined || exists a :: 0 <= a < |job.actions| && !job.actions[a].ShowStatus?)) ==> verdict.Rejected?
    ensures !job.apply ==> writes == []
    ensures verdict.Ran? && (job.apply || HasRead(job)) ==>
      && RunsTo(job, answers, verdict.end, tried)
      && writes == job.WriteSteps(if verdict.end.Refused? then tried - 1 else tried)
    ensures verdict.Ran? && !job.backend.Gpio? && (job.apply && job.backend == Sysfs(true) ==> Undisturbed(job, answers)) ==>
      !verdict.end.Refused?
    ensures verdict.Ran? && job.backend.Gpio? && Parsed(job) && (job.apply ==> Binary(job, answers)) && verdict.end.Refused? ==>
      writes == []
  {
    writes, tried := [], 0;
    var ready := Admit(job, answers);
    if !ready { return Rejected, writes, tried; }
    if !job.apply && !HasRead(job) { return Ran(Finished), writes, tried; }
    var end;
    end, writes, tried := RunSession(job, answers);
    verdict := Ran(end);
  }

  /** The run of an admitted request. */
  method RunSession(job: Job, answers: Answers) returns (end: End, writes: seq<Step>, tried: nat)
    requires Fits(job, answers) && Admitted(job, answers) && (job.apply || HasRead(job))
    ensures RunsTo(job, answers, end, tried) && writes == job.WriteSteps(if end.Refused? then tried - 1 else tried)
    ensures !job.apply ==> writes == []
    ensures end.Refused? ==> job.apply
    ensures end.Refused? && !job.backend.Gpio? ==> job.backend == Sysfs(true) && !Undisturbed(job, answers)
    ensures end.Refused? && job.backend.Gpio? && Parsed(job) && Binary(job, answers) ==> writes == []
  {
    end, writes, tried := RunSchedule(job, answers);
    if !job.apply { PreviewWritesNothing(job, if end.Refused? then tried - 1 else tried); }
    RefusedMeans(job, answers, end, tried);
  }

  /** When a preflighted request can still be stopped by the state of an LED. */
  lemma RefusedMeans(job: Job, answers: Answers, end: End, tried: nat)
    requires Fits(job, answers) && AllReadable(job, answers) && RunsTo(job, answers, end, tried)
    requires job.AllValid() && (job.apply ==> AllPreflighted(job, answers))
    ensures end.Refused? ==> job.apply
    ensures end.Refused? && !job.backend.Gpio? ==> job.backend == Sysfs(true) && !Undisturbed(job, answers)
    ensures end.Refused? && job.backend.Gpio? && Parsed(job) && Binary(job, answers) ==> job.WriteSteps(tried - 1) == []
  {
    if end.Refused? && !job.backend.Gpio? && (job.backend == Sysfs(true) ==> Undisturbed(job, answers)) {
      NeverRefused(job, answers, end, tried);
    } else if end.Refused? && job.backend.Gpio? && Parsed(job) && Binary(job, answers) {
      RefusedAtOnce(job, answers, tried);
    }
  }

  /** No run of a preflighted request is stopped by the state of an LED. */
  lemma NeverRefused(job: Job, answers: Answers, end: End, tried: nat)
    requires Fits(job, answers) && AllReadable(job, answers) && RunsTo(job, answers, end, tried)
    requires job.AllValid() && job.apply && AllPreflighted(job, answers)
    requires !job.backend.Gpio? && (job.backend == Sysfs(true) ==> Undisturbed(job, answers))
    ensures !end.Refused?
  {
    if end.Refused? {
      assert Reached(job, answers, tried - 1) by {
        forall j | 0 <= j < tried - 1 && job.Attempted(j) ensures answers.steps[j].Some? { assert Succeeds(job, answers, j); }
      }
      NothingIsRefused(job, answers, tried - 1);
    }
  }

  /** A GPIO run that the state of an LED stops has not written anything. */
  lemma RefusedAtOnce(job: Job, answers: Answers, tried: nat)
    requires Fits(job, answers) && AllReadable(job, answers) && RunsTo(job, answers, Refused, tried) && job.backend.Gpio?
    requires job.AllValid() && job.apply && AllPreflighted(job, answers) && Parsed(job) && Binary(job, answers)
    ensures tried == 1
  {
    if tried > 1 {
      assert Succeeds(job, answers, 0);
      RefusedFirstOrNever(job, answers, tried - 1);
    }
  }

  lemma {:induction false} PreviewWritesNothing(job: Job, n: nat)
    requires job.Count() > 0 && |job.leds| > 0 && n <= job.Count() * |job.leds| && !job.apply
    ensures job.WriteSteps(n) == []
  {
    if n > 0 { PreviewWritesNothing(job, n - 1); }
  }

  predicate HasRead(job: Job) {
    !job.combined && exists a :: 0 <= a < |job.actions| && job.actions[a].ShowStatus?
  }
}
