/** The fan temperature policy (fan/thermal_curve.c): piecewise integer interpolation, the CPU floor
    of the system channel, and the plan for both channels. */
module FanCurve {
  import opened Base

  const MAX_CELSIUS := 125

  datatype Thresholds = Thresholds(stop: nat, start: nat, mid: nat, full: nat, maximum: nat)
  datatype Points = Points(idle: nat, mid: nat, full: nat, maximum: nat)
  datatype Floor = Floor(startCelsius: nat, endCelsius: nat, startPwm: nat, endPwm: nat)

  /** -1 means that the sensor is not available. */
  datatype Snapshot = Snapshot(cpu: int, hdd: int, ssd: int, cpuPeak: int)

  datatype Plan = Plan(cpu: nat, system: nat)

  datatype Config = Config(custom: bool, interval: nat, delay: nat, minimum: nat, failsafe: nat,
                           requireStorage: bool, hddEnabled: bool, ssdEnabled: bool,
                           cpu: Thresholds, hdd: Thresholds, ssd: Thresholds,
                           pwm: Points, systemPwm: Points, cpuPwm: Points, floor: Option<Floor>)

  predicate ValidThresholds(t: Thresholds) {
    t.stop < t.start < t.mid < t.full < t.maximum <= MAX_CELSIUS
  }

  predicate ValidPoints(p: Points, minimum: nat) {
    minimum <= p.idle <= p.mid <= p.full <= p.maximum <= 255
  }

  /** `ugreenctl_fan_curve_validate_config`. */
  predicate ValidConfig(c: Config) {
    && 2 <= c.interval <= 300 && c.delay <= 3600
    && 40 <= c.minimum <= c.failsafe <= 255
    && ValidPoints(c.pwm, c.minimum) && ValidPoints(c.systemPwm, c.minimum) && ValidPoints(c.cpuPwm, c.minimum)
    && ValidThresholds(c.cpu)
    && (c.hddEnabled ==> ValidThresholds(c.hdd)) && (c.ssdEnabled ==> ValidThresholds(c.ssd))
    && (c.floor.Some? ==>
          var f := c.floor.value;
          f.startCelsius < f.endCelsius <= MAX_CELSIUS && c.minimum <= f.startPwm <= f.endPwm <= 255)
  }

  /** `interpolate`. */
  function Interpolate(leftT: nat, rightT: nat, leftPwm: nat, rightPwm: nat, t: nat): nat
    requires leftT <= t <= rightT && leftPwm <= rightPwm
  {
    if rightT == leftT then rightPwm
    else
      MulMonotone(0, t - leftT, rightPwm - leftPwm);
      DivMonotone(0, (t - leftT) * (rightPwm - leftPwm), rightT - leftT);
      leftPwm + (t - leftT) * (rightPwm - leftPwm) / (rightT - leftT)
  }

  /** Interpolation stays between its points, meets them exactly at the segment's ends, and never
      falls as the temperature rises, in spite of the rounding. */
  lemma InterpolateMonotone(leftT: nat, rightT: nat, leftPwm: nat, rightPwm: nat, t: nat, u: nat)
    requires leftT < rightT && leftT <= t <= u <= rightT && leftPwm <= rightPwm
    ensures leftPwm <= Interpolate(leftT, rightT, leftPwm, rightPwm, t)
                    <= Interpolate(leftT, rightT, leftPwm, rightPwm, u) <= rightPwm
    ensures t == leftT ==> Interpolate(leftT, rightT, leftPwm, rightPwm, t) == leftPwm
    ensures u == rightT ==> Interpolate(leftT, rightT, leftPwm, rightPwm, u) == rightPwm
  {
    var d, r := rightT - leftT, rightPwm - leftPwm;
    MulMonotone(0, t - leftT, r);
    MulMonotone(t - leftT, u - leftT, r);
    MulMonotone(u - leftT, d, r);
    DivMonotone(0, (t - leftT) * r, d);
    DivMonotone((t - leftT) * r, (u - leftT) * r, d);
    DivMonotone((u - leftT) * r, d * r, d);
    DivExact(d, r);
  }

  /** Between its points the line is followed exactly, rounded down. */
  lemma InterpolateFollowsLine(leftT: nat, rightT: nat, leftPwm: nat, rightPwm: nat, t: nat)
    requires leftT < rightT && leftT <= t <= rightT && leftPwm <= rightPwm
    ensures OnLine(leftT, rightT, leftPwm, rightPwm, t, Interpolate(leftT, rightT, leftPwm, rightPwm, t))
  {
    MulMonotone(0, t - leftT, rightPwm - leftPwm);
    var x, d := (t - leftT) * (rightPwm - leftPwm), rightT - leftT;
    assert x == x / d * d + x % d;
  }

  /** A PWM on the line through two points, rounded down. */
  predicate OnLine(leftT: nat, rightT: nat, leftPwm: nat, rightPwm: nat, t: nat, pwm: nat) {
    (pwm - leftPwm) * (rightT - leftT) <= (t - leftT) * (rightPwm - leftPwm) < (pwm - leftPwm + 1) * (rightT - leftT)
  }

  lemma MulMonotone(a: nat, b: nat, c: nat)
    requires a <= b
    ensures 0 <= a * c <= b * c
  {
  }

  lemma DivMonotone(a: nat, b: nat, d: nat)
    requires a <= b && 0 < d
    ensures 0 <= a / d <= b / d
  {
    var p, q := a / d, b / d;
    if p > q { MulMonotone(q + 1, p, d); }
  }

  lemma DivExact(d: nat, r: nat)
    requires 0 < d
    ensures d * r / d == r
  {
    var q, m := d * r / d, d * r % d;
    assert d * (r - q) == m;
    if r - q >= 1 { MulMonotone(1, r - q, d); } else if r - q <= -1 { MulMonotone(1, q - r, d); }
  }

  /** `evaluate_source`. */
  function Evaluate(t: Thresholds, p: Points, celsius: nat): nat
    requires ValidThresholds(t) && ValidPoints(p, 0)
  {
    if celsius <= t.start then p.idle
    else if celsius < t.mid then Interpolate(t.start, t.mid, p.idle, p.mid, celsius)
    else if celsius < t.full then Interpolate(t.mid, t.full, p.mid, p.full, celsius)
    else if celsius < t.maximum then Interpolate(t.full, t.maximum, p.full, p.maximum, celsius)
    else p.maximum
  }

  /** Every point of the curve lies between the idle and the maximum PWM of its segment. */
  lemma EvaluateInSegment(t: Thresholds, p: Points, c: nat)
    requires ValidThresholds(t) && ValidPoints(p, 0)
    ensures p.idle <= Evaluate(t, p, c) <= p.maximum
    ensures t.start <= c <= t.mid ==> p.idle <= Evaluate(t, p, c) <= p.mid
    ensures t.mid <= c <= t.full ==> p.mid <= Evaluate(t, p, c) <= p.full
    ensures t.full <= c <= t.maximum ==> p.full <= Evaluate(t, p, c)
    ensures c == t.start ==> Evaluate(t, p, c) == p.idle
    ensures c == t.mid ==> Evaluate(t, p, c) == p.mid
    ensures c == t.full ==> Evaluate(t, p, c) == p.full
    ensures c >= t.maximum ==> Evaluate(t, p, c) == p.maximum
  {
    if t.start <= c <= t.mid { InterpolateMonotone(t.start, t.mid, p.idle, p.mid, c, c); }
    if t.mid <= c <= t.full { InterpolateMonotone(t.mid, t.full, p.mid, p.full, c, c); }
    if t.full <= c <= t.maximum { InterpolateMonotone(t.full, t.maximum, p.full, p.maximum, c, c); }
  }

  lemma EvaluateMonotone(t: Thresholds, p: Points, a: nat, b: nat)
    requires ValidThresholds(t) && ValidPoints(p, 0) && a <= b
    ensures p.idle <= Evaluate(t, p, a) <= Evaluate(t, p, b) <= p.maximum
  {
    EvaluateInSegment(t, p, a);
    EvaluateInSegment(t, p, b);
    if t.start < a && b < t.mid { InterpolateMonotone(t.start, t.mid, p.idle, p.mid, a, b); }
    else if t.mid <= a && b < t.full { InterpolateMonotone(t.mid, t.full, p.mid, p.full, a, b); }
    else if t.full <= a && b < t.maximum { InterpolateMonotone(t.full, t.maximum, p.full, p.maximum, a, b); }
  }

  /** The whole curve: flat up to the start and from the maximum on, and in between on the line through the
      points at start, mid, full and maximum. */
  lemma EvaluateFollowsCurve(t: Thresholds, p: Points, c: nat)
    requires ValidThresholds(t) && ValidPoints(p, 0)
    ensures c <= t.start ==> Evaluate(t, p, c) == p.idle
    ensures t.start < c < t.mid ==> OnLine(t.start, t.mid, p.idle, p.mid, c, Evaluate(t, p, c))
    ensures t.mid <= c < t.full ==> OnLine(t.mid, t.full, p.mid, p.full, c, Evaluate(t, p, c))
    ensures t.full <= c < t.maximum ==> OnLine(t.full, t.maximum, p.full, p.maximum, c, Evaluate(t, p, c))
    ensures t.maximum <= c ==> Evaluate(t, p, c) == p.maximum
  {
    if t.start < c < t.mid { InterpolateFollowsLine(t.start, t.mid, p.idle, p.mid, c); }
    else if t.mid <= c < t.full { InterpolateFollowsLine(t.mid, t.full, p.mid, p.full, c); }
    else if t.full <= c < t.maximum { InterpolateFollowsLine(t.full, t.maximum, p.full, p.maximum, c); }
  }

  /** `cpu_system_floor`. */
  function CpuFloor(c: Config, celsius: nat): nat
    requires ValidConfig(c)
  {
    if c.floor.None? || celsius < c.floor.value.startCelsius then 0
    else
      var f := c.floor.value;
      if celsius >= f.endCelsius then f.endPwm
      else Interpolate(f.startCelsius, f.endCelsius, f.startPwm, f.endPwm, celsius)
  }

  /** The floor: nothing below its start, its end PWM from its end on, and the line in between. */
  lemma CpuFloorFollowsLine(c: Config, celsius: nat)
    requires ValidConfig(c)
    ensures c.floor.None? ==> CpuFloor(c, celsius) == 0
    ensures c.floor.Some? ==>
      var f := c.floor.value;
      && (celsius < f.startCelsius ==> CpuFloor(c, celsius) == 0)
      && (f.startCelsius <= celsius < f.endCelsius ==>
            OnLine(f.startCelsius, f.endCelsius, f.startPwm, f.endPwm, celsius, CpuFloor(c, celsius)))
      && (f.endCelsius <= celsius ==> CpuFloor(c, celsius) == f.endPwm)
  {
    if c.floor.Some? {
      var f := c.floor.value;
      if f.startCelsius <= celsius < f.endCelsius {
        InterpolateFollowsLine(f.startCelsius, f.endCelsius, f.startPwm, f.endPwm, celsius);
      }
    }
  }

  lemma CpuFloorMonotone(c: Config, a: nat, b: nat)
    requires ValidConfig(c) && a <= b
    ensures CpuFloor(c, a) <= CpuFloor(c, b) <= 255
  {
    if c.floor.Some? {
      var f := c.floor.value;
      if f.startCelsius <= a < f.endCelsius {
        InterpolateMonotone(f.startCelsius, f.endCelsius, f.startPwm, f.endPwm, a, if b < f.endCelsius then b else a);
      }
      if f.startCelsius <= b < f.endCelsius {
        InterpolateMonotone(f.startCelsius, f.endCelsius, f.startPwm, f.endPwm, b, b);
      }
    }
  }

  function Max(a: nat, b: nat): nat { if a > b then a else b }

  /** `fan_curve_cpu_celsius`: the hottest core when it is known. */
  function CpuCelsius(s: Snapshot): int { if s.cpuPeak >= 0 then s.cpuPeak else s.cpu }

  predicate Measurable(c: Config, s: Snapshot) {
    CpuCelsius(s) >= 0 && !(c.requireStorage && s.hdd < 0 && s.ssd < 0)
  }

  /** Raise a target to what one more source asks for, if it is enabled and available. */
  function WithSource(target: nat, enabled: bool, t: Thresholds, p: Points, celsius: int): nat
    requires (enabled ==> ValidThresholds(t)) && ValidPoints(p, 0)
  {
    if enabled && celsius >= 0 then Max(target, Evaluate(t, p, celsius)) else target
  }

  lemma WithSourceMonotone(x: nat, y: nat, enabled: bool, t: Thresholds, p: Points, a: int, b: int)
    requires (enabled ==> ValidThresholds(t)) && ValidPoints(p, 0) && x <= y <= 255 && a <= b
    ensures WithSource(x, enabled, t, p, a) <= WithSource(y, enabled, t, p, b) <= 255
  {
    if enabled && a >= 0 { EvaluateMonotone(t, p, a, b); }
    else if enabled && b >= 0 { EvaluateInSegment(t, p, b); }
  }

  function SystemTarget(c: Config, s: Snapshot): nat
    requires ValidConfig(c) && CpuCelsius(s) >= 0
  {
    var cpu := CpuCelsius(s);
    var t0 := Evaluate(c.cpu, c.systemPwm, cpu);
    var t1 := WithSource(t0, c.hddEnabled, c.hdd, c.systemPwm, s.hdd);
    var t2 := WithSource(t1, c.ssdEnabled, c.ssd, c.systemPwm, s.ssd);
    Max(t2, CpuFloor(c, cpu))
  }

  /** `ugreenctl_fan_curve_evaluate_plan` for a loaded configuration; without the temperatures it
      needs, both channels run at the failsafe PWM. */
  function EvaluatePlan(c: Config, s: Snapshot): Plan
    requires ValidConfig(c)
  {
    if !Measurable(c, s) then Plan(c.failsafe, c.failsafe)
    else
      var system := SystemTarget(c, s);
      var cpu := if c.custom then system else Evaluate(c.cpu, c.cpuPwm, CpuCelsius(s));
      Plan(Max(cpu, c.minimum), Max(system, c.minimum))
  }

  /** At least as hot everywhere. A sensor that becomes available counts as hotter. */
  predicate Hotter(s: Snapshot, t: Snapshot) {
    CpuCelsius(s) <= CpuCelsius(t) && s.hdd <= t.hdd && s.ssd <= t.ssd
  }

  lemma SystemTargetMonotone(c: Config, s: Snapshot, t: Snapshot)
    requires ValidConfig(c) && CpuCelsius(s) >= 0 && Hotter(s, t)
    ensures SystemTarget(c, s) <= SystemTarget(c, t) <= 255
  {
    var a, b := CpuCelsius(s), CpuCelsius(t);
    EvaluateMonotone(c.cpu, c.systemPwm, a, b);
    var x0, y0 := Evaluate(c.cpu, c.systemPwm, a), Evaluate(c.cpu, c.systemPwm, b);
    WithSourceMonotone(x0, y0, c.hddEnabled, c.hdd, c.systemPwm, s.hdd, t.hdd);
    var x1, y1 := WithSource(x0, c.hddEnabled, c.hdd, c.systemPwm, s.hdd), WithSource(y0, c.hddEnabled, c.hdd, c.systemPwm, t.hdd);
    WithSourceMonotone(x1, y1, c.ssdEnabled, c.ssd, c.systemPwm, s.ssd, t.ssd);
    CpuFloorMonotone(c, a, b);
  }

  /** For every configuration that loads and every snapshot: both PWMs lie in [minimum, 255], and when
      the temperatures can be measured neither falls as any of them rises. */
  lemma PlanBoundedAndMonotone(c: Config, s: Snapshot, t: Snapshot)
    requires ValidConfig(c) && Hotter(s, t)
    ensures c.minimum <= EvaluatePlan(c, s).cpu <= 255 && c.minimum <= EvaluatePlan(c, s).system <= 255
    ensures Measurable(c, s) ==>
      && Measurable(c, t)
      && EvaluatePlan(c, s).cpu <= EvaluatePlan(c, t).cpu
      && EvaluatePlan(c, s).system <= EvaluatePlan(c, t).system
  {
    if Measurable(c, s) {
      SystemTargetMonotone(c, s, t);
      EvaluateMonotone(c.cpu, c.cpuPwm, CpuCelsius(s), CpuCelsius(t));
    }
  }

  /** Without a CPU reading, or without storage readings where they are required, and only then, both channels
      run at the failsafe PWM. The CPU temperature is the hottest core's where it is known. */
  lemma FailsafeExactlyWithoutReadings(c: Config, s: Snapshot)
    requires ValidConfig(c)
    ensures Measurable(c, s) <==> (s.cpuPeak >= 0 || s.cpu >= 0) && (c.requireStorage ==> s.hdd >= 0 || s.ssd >= 0)
    ensures !Measurable(c, s) ==> EvaluatePlan(c, s) == Plan(c.failsafe, c.failsafe)
    ensures Measurable(c, s) ==> CpuCelsius(s) == if s.cpuPeak >= 0 then s.cpuPeak else s.cpu
  {
  }

  /** The CPU channel: under a custom profile it runs with the system channel, under a stock profile it
      follows the profile's own CPU curve, but never below the minimum. */
  lemma CpuChannelFollowsCurve(c: Config, s: Snapshot)
    requires ValidConfig(c) && Measurable(c, s)
    ensures var t, cpu := CpuCelsius(s), EvaluatePlan(c, s).cpu;
      && (c.custom ==> cpu == EvaluatePlan(c, s).system)
      && (!c.custom ==>
            && Evaluate(c.cpu, c.cpuPwm, t) <= cpu && cpu in {Evaluate(c.cpu, c.cpuPwm, t), c.minimum}
            && (t <= c.cpu.start ==> cpu == Max(c.cpuPwm.idle, c.minimum))
            && (t == c.cpu.mid ==> cpu == Max(c.cpuPwm.mid, c.minimum))
            && (t == c.cpu.full ==> cpu == Max(c.cpuPwm.full, c.minimum))
            && (t >= c.cpu.maximum ==> cpu == Max(c.cpuPwm.maximum, c.minimum)))
  {
    EvaluateInSegment(c.cpu, c.cpuPwm, CpuCelsius(s));
  }

  /** The system channel never runs below what any enabled source, or the CPU floor, asks for. */
  lemma PlanCoversEverySource(c: Config, s: Snapshot)
    requires ValidConfig(c) && Measurable(c, s)
    ensures var p := EvaluatePlan(c, s).system;
      && Evaluate(c.cpu, c.systemPwm, CpuCelsius(s)) <= p && CpuFloor(c, CpuCelsius(s)) <= p
      && (c.hddEnabled && s.hdd >= 0 ==> Evaluate(c.hdd, c.systemPwm, s.hdd) <= p)
      && (c.ssdEnabled && s.ssd >= 0 ==> Evaluate(c.ssd, c.systemPwm, s.ssd) <= p)
      && (p == c.minimum || p == CpuFloor(c, CpuCelsius(s)) ||
          p == Evaluate(c.cpu, c.systemPwm, CpuCelsius(s)) ||
          (c.hddEnabled && s.hdd >= 0 && p == Evaluate(c.hdd, c.systemPwm, s.hdd)) ||
          (c.ssdEnabled && s.ssd >= 0 && p == Evaluate(c.ssd, c.systemPwm, s.ssd)))
  {
  }

  datatype Profile = Stock4600 | Stock4800 | Stock4800s | Stock4800plus | Stock480tplus | Stock6800

  /** `apply_stock_profile`. */
  function ApplyStock(profile: Profile, c: Config): Config {
    var b := c.(custom := false, minimum := 40, hddEnabled := true, ssdEnabled := true, floor := None);
    var d := match profile
      case Stock4600 =>
        b.(cpu := Thresholds(40, 45, 70, 80, 90), hdd := Thresholds(30, 35, 50, 55, 70),
           ssd := Thresholds(35, 40, 55, 65, 70),
           systemPwm := Points(64, 152, 228, 255), cpuPwm := Points(64, 152, 228, 255))
      case Stock4800 =>
        b.(cpu := Thresholds(45, 50, 70, 75, 85), hdd := Thresholds(35, 40, 45, 50, 65),
           ssd := Thresholds(40, 45, 55, 60, 65),
           systemPwm := Points(64, 128, 204, 255), cpuPwm := Points(64, 128, 204, 255))
      case Stock4800s =>
        b.(cpu := Thresholds(50, 55, 75, 80, 90), hdd := Thresholds(40, 45, 50, 55, 70),
           ssd := Thresholds(45, 50, 60, 65, 70),
           systemPwm := Points(64, 128, 204, 255), cpuPwm := Points(64, 128, 204, 255))
      case Stock4800plus =>
        b.(cpu := Thresholds(42, 50, 70, 78, 90), hdd := Thresholds(30, 40, 46, 52, 55),
           ssd := Thresholds(50, 55, 60, 65, 70),
           systemPwm := Points(65, 125, 200, 235), cpuPwm := Points(60, 125, 205, 230),
           floor := Some(Floor(65, 90, 100, 205)))
      case Stock480tplus =>
        b.(cpu := Thresholds(25, 55, 75, 85, 95), hdd := Thresholds(0, 0, 0, 0, 0), hddEnabled := false,
           ssd := Thresholds(40, 50, 60, 70, 80),
           systemPwm := Points(55, 90, 110, 128), cpuPwm := Points(70, 130, 150, 200))
      case Stock6800 =>
        b.(cpu := Thresholds(25, 38, 55, 75, 90), hdd := Thresholds(30, 35, 43, 48, 55),
           ssd := Thresholds(45, 50, 60, 65, 70),
           systemPwm := Points(64, 130, 210, 230), cpuPwm := Points(80, 130, 210, 230),
           floor := Some(Floor(65, 90, 125, 220)));
    d.(pwm := d.systemPwm)
  }

  /** A stock profile loads exactly when the user's timing and failsafe settings are in range: no
      user curve point can make it unloadable, and none survives. */
  lemma StockProfilesLoad(profile: Profile, c: Config)
    ensures ValidConfig(ApplyStock(profile, c)) <==>
            2 <= c.interval <= 300 && c.delay <= 3600 && 40 <= c.failsafe <= 255
  {
  }

  function At(profile: Profile, c: Config, cpu: int, hdd: int, ssd: int): Plan
    requires ValidConfig(ApplyStock(profile, c))
  {
    EvaluatePlan(ApplyStock(profile, c), Snapshot(cpu, hdd, ssd, -1))
  }

  /** The stock profiles at their thresholds: the CPU alone, then each kind of disk next to a cool CPU. No
      setting of the user but the required storage sensor matters. */
  lemma Stock4600Plans(c: Config)
    requires ValidConfig(ApplyStock(Stock4600, c)) && !c.requireStorage
    ensures At(Stock4600, c, 45, -1, -1) == Plan(64, 64) && At(Stock4600, c, 70, -1, -1) == Plan(152, 152)
    ensures At(Stock4600, c, 80, -1, -1) == Plan(228, 228) && At(Stock4600, c, 90, -1, -1) == Plan(255, 255)
    ensures At(Stock4600, c, 45, 50, -1) == Plan(64, 152) && At(Stock4600, c, 45, 55, -1) == Plan(64, 228)
    ensures At(Stock4600, c, 45, 70, -1) == Plan(64, 255) && At(Stock4600, c, 45, -1, 55) == Plan(64, 152)
    ensures At(Stock4600, c, 45, -1, 65) == Plan(64, 228) && At(Stock4600, c, 45, -1, 70) == Plan(64, 255)
  {
  }

  lemma Stock4800Plans(c: Config)
    requires ValidConfig(ApplyStock(Stock4800, c)) && !c.requireStorage
    ensures At(Stock4800, c, 50, -1, -1) == Plan(64, 64) && At(Stock4800, c, 70, -1, -1) == Plan(128, 128)
    ensures At(Stock4800, c, 75, -1, -1) == Plan(204, 204) && At(Stock4800, c, 85, -1, -1) == Plan(255, 255)
    ensures At(Stock4800, c, 50, 45, -1) == Plan(64, 128) && At(Stock4800, c, 50, 50, -1) == Plan(64, 204)
    ensures At(Stock4800, c, 50, 65, -1) == Plan(64, 255) && At(Stock4800, c, 50, -1, 55) == Plan(64, 128)
    ensures At(Stock4800, c, 50, -1, 60) == Plan(64, 204) && At(Stock4800, c, 50, -1, 65) == Plan(64, 255)
  {
  }

  lemma Stock4800sPlans(c: Config)
    requires ValidConfig(ApplyStock(Stock4800s, c)) && !c.requireStorage
    ensures At(Stock4800s, c, 55, -1, -1) == Plan(64, 64) && At(Stock4800s, c, 75, -1, -1) == Plan(128, 128)
    ensures At(Stock4800s, c, 80, -1, -1) == Plan(204, 204) && At(Stock4800s, c, 90, -1, -1) == Plan(255, 255)
    ensures At(Stock4800s, c, 55, 50, -1) == Plan(64, 128) && At(Stock4800s, c, 55, 55, -1) == Plan(64, 204)
    ensures At(Stock4800s, c, 55, 70, -1) == Plan(64, 255) && At(Stock4800s, c, 55, -1, 60) == Plan(64, 128)
    ensures At(Stock4800s, c, 55, -1, 65) == Plan(64, 204) && At(Stock4800s, c, 55, -1, 70) == Plan(64, 255)
  {
  }

  lemma Stock4800plusPlans(c: Config)
    requires ValidConfig(ApplyStock(Stock4800plus, c)) && !c.requireStorage
    ensures At(Stock4800plus, c, 50, -1, -1) == Plan(60, 65) && At(Stock4800plus, c, 70, -1, -1) == Plan(125, 125)
    ensures At(Stock4800plus, c, 78, -1, -1) == Plan(205, 200) && At(Stock4800plus, c, 90, -1, -1) == Plan(230, 235)
    ensures At(Stock4800plus, c, 50, 46, -1) == Plan(60, 125) && At(Stock4800plus, c, 50, 52, -1) == Plan(60, 200)
    ensures At(Stock4800plus, c, 50, 55, -1) == Plan(60, 235) && At(Stock4800plus, c, 50, -1, 60) == Plan(60, 125)
    ensures At(Stock4800plus, c, 50, -1, 65) == Plan(60, 200) && At(Stock4800plus, c, 50, -1, 70) == Plan(60, 235)
  {
  }

  lemma Stock480tplusPlans(c: Config)
    requires ValidConfig(ApplyStock(Stock480tplus, c)) && !c.requireStorage
    ensures At(Stock480tplus, c, 55, -1, -1) == Plan(70, 55) && At(Stock480tplus, c, 75, -1, -1) == Plan(130, 90)
    ensures At(Stock480tplus, c, 85, -1, -1) == Plan(150, 110) && At(Stock480tplus, c, 95, -1, -1) == Plan(200, 128)
    ensures At(Stock480tplus, c, 55, -1, 60) == Plan(70, 90) && At(Stock480tplus, c, 55, -1, 70) == Plan(70, 110)
    ensures At(Stock480tplus, c, 55, -1, 80) == Plan(70, 128)
  {
  }

  lemma Stock6800Plans(c: Config)
    requires ValidConfig(ApplyStock(Stock6800, c)) && !c.requireStorage
    ensures At(Stock6800, c, 38, -1, -1) == Plan(80, 64) && At(Stock6800, c, 55, -1, -1) == Plan(130, 130)
    ensures At(Stock6800, c, 75, -1, -1) == Plan(210, 210) && At(Stock6800, c, 90, -1, -1) == Plan(230, 230)
    ensures At(Stock6800, c, 38, 43, -1) == Plan(80, 130) && At(Stock6800, c, 38, 48, -1) == Plan(80, 210)
    ensures At(Stock6800, c, 38, 55, -1) == Plan(80, 230) && At(Stock6800, c, 38, -1, 60) == Plan(80, 130)
    ensures At(Stock6800, c, 38, -1, 65) == Plan(80, 210) && At(Stock6800, c, 38, -1, 70) == Plan(80, 230)
  {
  }

  /** Readings between the thresholds. */
  lemma StockPlansBetween(c: Config)
    requires 2 <= c.interval <= 300 && c.delay <= 3600 && 40 <= c.failsafe <= 255 && !c.requireStorage
    ensures At(Stock4800plus, c, 65, 42, -1) == Plan(108, 110) && At(Stock480tplus, c, 80, 70, 50) == Plan(140, 100)
    ensures At(Stock6800, c, 46, 39, -1) == Plan(103, 97) && At(Stock6800, c, 95, -1, -1) == Plan(230, 230)
  {
  }
}
