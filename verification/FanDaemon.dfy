/** The fan daemon's control loop (core/fan_daemon.c): a target speeds up at once and slows down only
    after the lower PWM has been wanted for the configured delay. */
module FanDaemon {
  import opened Base
  import opened FanCurve

  const UNSIGNED_LONG: int := 0x1_0000_0000_0000_0000

  /** `struct pwm_hold_state`; a zero `pendingLower` means that no downshift is pending. */
  datatype Hold = Hold(applied: nat, pendingLower: nat, pendingSince: int, known: bool)

  const INITIAL := Hold(0, 0, 0, false)

  /** `hold_lower_pwm`, with the clock as an argument: the new state and the PWM to apply. The
      elapsed time is cast to an unsigned 64-bit integer. */
  function HoldLower(h: Hold, desired: nat, delay: nat, now: int): (Hold, nat) {
    if !h.known || desired >= h.applied then (h.(pendingLower := 0, pendingSince := 0), desired)
    else
      var p := if h.pendingLower != desired then h.(pendingLower := desired, pendingSince := now) else h;
      (p, if Elapsed(p.pendingSince, now) < delay then h.applied else desired)
  }

  function Elapsed(since: int, now: int): nat { (now - since) % UNSIGNED_LONG }

  type Time = t: int | -0x8000_0000_0000_0000 <= t < 0x8000_0000_0000_0000

  /** Exactly when a pending downshift is held back: the clock reads between the moment it was first
      wanted and the end of the delay. */
  lemma HeldExactlyWithinDelay(h: Hold, desired: nat, delay: nat, now: Time)
    requires h.known && desired < h.applied && h.pendingLower == desired && delay <= 3600
    requires -0x8000_0000_0000_0000 <= h.pendingSince < 0x8000_0000_0000_0000 - 3600
    ensures HoldLower(h, desired, delay, now).1 == h.applied <==> h.pendingSince <= now < h.pendingSince + delay
  {
    var e := now - h.pendingSince;
    assert Elapsed(h.pendingSince, now) == if e < 0 then e + UNSIGNED_LONG else e;
  }

  /** A clock set back by one second ends the hold at once, whatever the delay. */
  lemma ClockSetBackEndsHold()
    ensures HoldLower(Hold(200, 100, 1000, true), 100, 3600, 999).1 == 100
  {
  }

  /** One evaluation of a target: when, what the plan wanted, and whether a PWM write would work. */
  datatype Eval = Eval(now: Time, desired: nat, works: bool)

  /** One turn of the loop body for one target. */
  function Turn(h: Hold, e: Eval, delay: nat): Hold {
    var (p, pwm) := HoldLower(h, e.desired, delay, e.now);
    if (!p.known || pwm != p.applied) && e.works then p.(applied := pwm, known := true) else p
  }

  /** The state of a target after a whole run. */
  function After(delay: nat, evals: seq<Eval>): Hold {
    if evals == [] then INITIAL else Turn(After(delay, evals[..|evals| - 1]), evals[|evals| - 1], delay)
  }

  lemma AfterPrefix(delay: nat, evals: seq<Eval>, n: nat)
    requires n < |evals|
    ensures After(delay, evals[..n + 1]) == Turn(After(delay, evals[..n]), evals[n], delay)
  {
    assert evals[..n + 1][..n] == evals[..n];
  }

  ghost predicate Monotone(evals: seq<Eval>) {
    forall i, j :: 0 <= i < j < |evals| ==> evals[i].now <= evals[j].now
  }

  ghost predicate Wanted(evals: seq<Eval>, from: nat, to: nat, pwm: nat)
    requires to <= |evals|
  {
    forall i :: from <= i < to ==> evals[i].desired == pwm
  }

  ghost predicate Positive(evals: seq<Eval>) {
    forall i :: 0 <= i < |evals| ==> evals[i].desired > 0
  }

  /** A turn leaves nothing pending, or what it wanted: since now, or since before if it already was pending. */
  lemma TurnPending(h: Hold, e: Eval, delay: nat)
    ensures var p := Turn(h, e, delay);
      p.pendingLower == 0 ||
      (p.pendingLower == e.desired && p.pendingSince == if h.pendingLower == e.desired then h.pendingSince else e.now)
  {
  }

  lemma PendingStep(delay: nat, evals: seq<Eval>, n: nat)
    requires n < |evals|
    ensures var h, p, e := After(delay, evals[..n]), After(delay, evals[..n + 1]), evals[n];
      p.pendingLower == 0 ||
      (p.pendingLower == e.desired && p.pendingSince == if h.pendingLower == e.desired then h.pendingSince else e.now)
  {
    AfterPrefix(delay, evals, n);
    TurnPending(After(delay, evals[..n]), evals[n], delay);
  }

  /** A pending downshift was first wanted at `pendingSince`, and nothing else has been wanted since. */
  lemma {:induction false} PendingIsUnbroken(delay: nat, evals: seq<Eval>, n: nat) returns (j: nat)
    requires n <= |evals| && Positive(evals)
    ensures var h := After(delay, evals[..n]);
      h.pendingLower != 0 ==> j < n && evals[j].now == h.pendingSince && Wanted(evals, j, n, h.pendingLower)
  {
    j := 0;
    if n > 0 {
      j := PendingIsUnbroken(delay, evals, n - 1);
      PendingStep(delay, evals, n - 1);
      j := PendingContinues(evals, n - 1, j, After(delay, evals[..n - 1]), After(delay, evals[..n]));
    }
  }

  /** One more turn: what was pending still is, or it is pending from now on. */
  lemma PendingContinues(evals: seq<Eval>, n: nat, j: nat, h: Hold, p: Hold) returns (k: nat)
    requires n < |evals| && evals[n].desired > 0
    requires h.pendingLower != 0 ==> j < n && evals[j].now == h.pendingSince && Wanted(evals, j, n, h.pendingLower)
    requires p.pendingLower == 0 ||
      (p.pendingLower == evals[n].desired &&
       p.pendingSince == if h.pendingLower == evals[n].desired then h.pendingSince else evals[n].now)
    ensures p.pendingLower != 0 ==> k <= n && evals[k].now == p.pendingSince && Wanted(evals, k, n + 1, p.pendingLower)
  {
    k := if h.pendingLower == p.pendingLower then j else n;
  }

  /** A turn that wants less than it leaves applied found more applied, and leaves the wish pending. */
  lemma WantedTurn(h: Hold, e: Eval, delay: nat)
    requires var p := Turn(h, e, delay); p.known && e.desired < p.applied && e.desired > 0
    ensures h.known && e.desired < h.applied
    ensures var p := Turn(h, e, delay);
      p.pendingLower == e.desired && p.pendingSince == if h.pendingLower == e.desired then h.pendingSince else e.now
  {
  }

  /** While a lower PWM stays wanted and unapplied, it is pending since no later than it was wanted. */
  lemma {:induction false} WantedIsPending(delay: nat, evals: seq<Eval>, j: nat, n: nat, d: nat)
    requires j < n <= |evals| && Positive(evals) && Monotone(evals) && Wanted(evals, j, n, d)
    requires After(delay, evals[..n]).known && d < After(delay, evals[..n]).applied
    ensures After(delay, evals[..n]).pendingLower == d && After(delay, evals[..n]).pendingSince <= evals[j].now
  {
    AfterPrefix(delay, evals, n - 1);
    var before := After(delay, evals[..n - 1]);
    WantedTurn(before, evals[n - 1], delay);
    if n - 1 > j {
      WantedIsPending(delay, evals, j, n - 1, d);
    } else if before.pendingLower == d {
      var k := PendingIsUnbroken(delay, evals, n - 1);
    }
  }

  /** The lower PWM was wanted at every evaluation from j to n, over at least the delay. */
  ghost predicate LongEnough(delay: nat, evals: seq<Eval>, j: nat, n: nat)
    requires n < |evals|
  {
    j <= n && Wanted(evals, j, n + 1, evals[n].desired) && evals[n].now - evals[j].now >= delay
  }

  /** Over every run with a clock that never goes back: a working write lowers the applied PWM to what
      is wanted exactly when that was wanted without interruption for at least the delay. */
  lemma DownshiftExactlyAfterDelay(delay: nat, evals: seq<Eval>, n: nat)
    requires n < |evals| && Positive(evals) && Monotone(evals) && evals[n].works
    requires var h := After(delay, evals[..n]); h.known && evals[n].desired < h.applied
    ensures After(delay, evals[..n + 1]).applied in {evals[n].desired, After(delay, evals[..n]).applied}
    ensures After(delay, evals[..n + 1]).applied == evals[n].desired <==> exists j: nat :: LongEnough(delay, evals, j, n)
  {
    AfterPrefix(delay, evals, n);
    var d, h := evals[n].desired, After(delay, evals[..n]);
    var k := PendingIsUnbroken(delay, evals, n);
    var since := if h.pendingLower == d then h.pendingSince else evals[n].now;
    var first := if h.pendingLower == d then k else n;
    assert since == evals[first].now <= evals[n].now;
    assert Elapsed(since, evals[n].now) == evals[n].now - since;
    if evals[n].now - since >= delay { assert LongEnough(delay, evals, first, n); }
    forall j: nat | LongEnough(delay, evals, j, n) ensures evals[n].now - since >= delay {
      if j < n {
        assert evals[j].desired == d;
        WantedIsPending(delay, evals, j, n, d);
      }
    }
  }

  /** Nothing but a wanted PWM is ever applied, a rise is applied at once, and a write that is due and
      works leaves the target at least as fast as the plan wants. */
  lemma {:induction false} AppliedStaysInRange(delay: nat, evals: seq<Eval>, low: nat, high: nat)
    requires forall i :: 0 <= i < |evals| ==> low <= evals[i].desired <= high
    ensures var h := After(delay, evals);
      && (h.known ==> low <= h.applied <= high)
      && (evals != [] && evals[|evals| - 1].works ==> h.known && h.applied >= evals[|evals| - 1].desired)
  {
    if evals != [] {
      AppliedStaysInRange(delay, evals[..|evals| - 1], low, high);
    }
  }

  datatype Channel = CpuChannel | SystemChannel

  /** `desired_for_target`. */
  function Desired(channel: Channel, plan: Plan): nat {
    if channel == CpuChannel then plan.cpu else plan.system
  }

  /** What the loop plans from a thermal reading, or from a reading that failed. */
  function PlanFor(c: Config, reading: Option<Snapshot>): Plan
    requires ValidConfig(c)
  {
    match reading
    case None => Plan(c.failsafe, c.failsafe)
    case Some(s) => EvaluatePlan(c, s)
  }

  /** Inputs of one loop iteration: the reading, and per target the clock and whether a write works. */
  datatype Round = Round(reading: Option<Snapshot>, clocks: seq<Time>, works: seq<bool>)

  ghost predicate Fitting(rounds: seq<Round>, targets: nat) {
    forall r :: 0 <= r < |rounds| ==> |rounds[r].clocks| == |rounds[r].works| == targets
  }

  /** What a round asks of target t, if it gets that far. */
  function EvalOf(c: Config, channels: seq<Channel>, round: Round, t: nat): Eval
    requires ValidConfig(c) && t < |channels| == |round.clocks| == |round.works|
  {
    Eval(round.clocks[t], Desired(channels[t], PlanFor(c, round.reading)), round.works[t])
  }

  /** A CPU fan wants the plan's CPU PWM, any other fan the system PWM, and both the failsafe PWM in a round
      whose reading failed or lacks a temperature that is needed. */
  lemma WantsItsChannel(c: Config, channels: seq<Channel>, round: Round, t: nat)
    requires ValidConfig(c) && t < |channels| == |round.clocks| == |round.works|
    ensures var e := EvalOf(c, channels, round, t);
      && e.now == round.clocks[t] && e.works == round.works[t]
      && (round.reading.None? ==> e.desired == c.failsafe)
      && (round.reading.Some? ==>
            var s := round.reading.value;
            && e.desired == (if channels[t].CpuChannel? then EvaluatePlan(c, s).cpu else EvaluatePlan(c, s).system)
            && ((s.cpuPeak < 0 && s.cpu < 0) || (c.requireStorage && s.hdd < 0 && s.ssd < 0) ==> e.desired == c.failsafe)
            && (Measurable(c, s) && !c.custom && channels[t].CpuChannel? && CpuCelsius(s) >= c.cpu.maximum ==>
                  e.desired == Max(c.cpuPwm.maximum, c.minimum)))
  {
    if round.reading.Some? && Measurable(c, round.reading.value) { CpuChannelFollowsCurve(c, round.reading.value); }
  }

  /** The evaluation makes a write necessary, and the write fails. */
  predicate Fails(delay: nat, evals: seq<Eval>, e: Eval) {
    var (p, pwm) := HoldLower(After(delay, evals), e.desired, delay, e.now);
    (!p.known || pwm != p.applied) && !e.works
  }

  /** Target t is reached in a round unless the write of an earlier target fails. */
  ghost predicate Reached(c: Config, channels: seq<Channel>, histories: seq<seq<Eval>>, round: Round, t: nat)
    requires ValidConfig(c) && |histories| == |channels| == |round.clocks| == |round.works| && t <= |channels|
  {
    forall u :: 0 <= u < t ==> !Fails(c.delay, histories[u], EvalOf(c, channels, round, u))
  }

  /** The evaluations of every target after one more round. */
  ghost function Advance(c: Config, channels: seq<Channel>, histories: seq<seq<Eval>>, round: Round): (r: seq<seq<Eval>>)
    requires ValidConfig(c) && |histories| == |channels| == |round.clocks| == |round.works|
    ensures |r| == |channels|
  {
    seq(|channels|, t requires 0 <= t < |channels| =>
      if Reached(c, channels, histories, round, t) then histories[t] + [EvalOf(c, channels, round, t)] else histories[t])
  }

  /** The evaluations of every target over a whole run, as the rounds alone define them. */
  ghost function Histories(c: Config, channels: seq<Channel>, rounds: seq<Round>): (r: seq<seq<Eval>>)
    requires ValidConfig(c) && Fitting(rounds, |channels|)
    ensures |r| == |channels|
  {
    if rounds == [] then seq(|channels|, _ => [])
    else Advance(c, channels, Histories(c, channels, rounds[..|rounds| - 1]), rounds[|rounds| - 1])
  }

  lemma DesiredInRange(c: Config, channels: seq<Channel>, round: Round, t: nat)
    requires ValidConfig(c) && t < |channels| == |round.clocks| == |round.works|
    ensures c.minimum <= EvalOf(c, channels, round, t).desired <= 255
  {
    if round.reading.Some? { PlanBoundedAndMonotone(c, round.reading.value, round.reading.value); }
  }

  ghost predicate InRange(c: Config, evals: seq<Eval>) {
    forall i :: 0 <= i < |evals| ==> c.minimum <= evals[i].desired <= 255
  }

  /** In every run each target only ever wants PWMs between the configured minimum and 255. */
  lemma {:induction false} HistoriesInRange(c: Config, channels: seq<Channel>, rounds: seq<Round>, t: nat)
    requires ValidConfig(c) && Fitting(rounds, |channels|) && t < |channels|
    ensures InRange(c, Histories(c, channels, rounds)[t])
  {
    if rounds != [] {
      var n := |rounds| - 1;
      HistoriesInRange(c, channels, rounds[..n], t);
      DesiredInRange(c, channels, rounds[n], t);
    }
  }

  /** Each target's clock readings never go back from one round to the next. */
  ghost predicate Forward(rounds: seq<Round>, targets: nat)
    requires Fitting(rounds, targets)
  {
    forall q, r, t :: 0 <= q <= r < |rounds| && 0 <= t < targets ==> rounds[q].clocks[t] <= rounds[r].clocks[t]
  }

  ghost predicate NoLaterThan(evals: seq<Eval>, now: Time) {
    forall i :: 0 <= i < |evals| ==> evals[i].now <= now
  }

  lemma {:induction false} HistoriesMonotone(c: Config, channels: seq<Channel>, rounds: seq<Round>, t: nat)
    requires ValidConfig(c) && Fitting(rounds, |channels|) && t < |channels| && Forward(rounds, |channels|)
    ensures var evals := Histories(c, channels, rounds)[t];
      Monotone(evals) && (rounds != [] ==> NoLaterThan(evals, rounds[|rounds| - 1].clocks[t]))
  {
    if rounds != [] {
      var n := |rounds| - 1;
      var before := rounds[..n];
      assert forall q, r, u :: 0 <= q <= r < n && 0 <= u < |channels| ==> rounds[q].clocks[u] <= rounds[r].clocks[u];
      HistoriesMonotone(c, channels, before, t);
      if n > 0 { assert before[n - 1] == rounds[n - 1] && rounds[n - 1].clocks[t] <= rounds[n].clocks[t]; }
      MonotoneNext(Histories(c, channels, before)[t], EvalOf(c, channels, rounds[n], t));
    }
  }

  lemma MonotoneNext(evals: seq<Eval>, e: Eval)
    requires Monotone(evals) && NoLaterThan(evals, e.now)
    ensures Monotone(evals + [e]) && NoLaterThan(evals + [e], e.now)
  {
  }

  /** The downshift law for evaluation n of a run: where a lower PWM is wanted and writes work, it is applied
      exactly when it was wanted without interruption for at least the delay. */
  ghost predicate DownshiftLaw(delay: nat, evals: seq<Eval>, n: nat)
    requires n < |evals|
  {
    var before, after := After(delay, evals[..n]), After(delay, evals[..n + 1]);
    before.known && evals[n].desired < before.applied && evals[n].works ==>
      && after.applied in {evals[n].desired, before.applied}
      && (after.applied == evals[n].desired <==> exists j: nat :: LongEnough(delay, evals, j, n))
  }

  /** The law holds of every target of every run whose clock never goes back. */
  lemma RunsObeyDownshiftLaw(c: Config, channels: seq<Channel>, rounds: seq<Round>, t: nat, n: nat)
    requires ValidConfig(c) && Fitting(rounds, |channels|) && Forward(rounds, |channels|)
    requires t < |channels| && n < |Histories(c, channels, rounds)[t]|
    ensures DownshiftLaw(c.delay, Histories(c, channels, rounds)[t], n)
  {
    var evals := Histories(c, channels, rounds)[t];
    HistoriesMonotone(c, channels, rounds, t);
    HistoriesInRange(c, channels, rounds, t);
    var before := After(c.delay, evals[..n]);
    if before.known && evals[n].desired < before.applied && evals[n].works {
      DownshiftExactlyAfterDelay(c.delay, evals, n);
    }
  }

  class Daemon {
    const config: Config
    const channels: seq<Channel>
    var states: seq<Hold>
    ghost var history: seq<seq<Eval>>

    ghost predicate Valid()
      reads this
    {
      && ValidConfig(config) && |states| == |history| == |channels|
      && forall t :: 0 <= t < |channels| ==> states[t] == After(config.delay, history[t])
    }

    constructor (config: Config, channels: seq<Channel>)
      requires ValidConfig(config)
      ensures Valid() && this.config == config && this.channels == channels
      ensures history == Histories(config, channels, [])
    {
      this.config, this.channels := config, channels;
      states := seq(|channels|, _ => INITIAL);
      history := seq(|channels|, _ => []);
    }

    /** One target of one iteration. */
    method ServeTarget(t: nat, desired: nat, now: Time, works: bool) returns (ok: bool)
      requires Valid() && t < |channels|
      modifies this
      ensures Valid() && history == old(history)[t := old(history[t]) + [Eval(now, desired, works)]]
      ensures ok <==> !Fails(config.delay, old(history[t]), Eval(now, desired, works))
      ensures ok ==> states[t].known && states[t].applied >= desired
    {
      ghost var evals := history[t] + [Eval(now, desired, works)];
      assert evals[..|history[t]|] == history[t];
      var (p, pwm) := HoldLower(states[t], desired, config.delay, now);
      ok := true;
      if !p.known || pwm != p.applied {
        ok := works;
        if ok { p := p.(applied := pwm, known := true); }
      }
      states := states[t := p];
      history := history[t := evals];
    }

    /** If every write of the round worked, each target runs at least as fast as its channel's plan. */
    ghost predicate Follows(round: Round)
      requires Valid() && |round.clocks| == |round.works| == |channels|
      reads this
    {
      (forall t :: 0 <= t < |channels| ==> round.works[t]) ==>
        forall t :: 0 <= t < |channels| ==> states[t].known && states[t].applied >= EvalOf(config, channels, round, t).desired
    }

    /** One iteration of the control loop. A failed write skips the remaining targets. */
    method Iterate(round: Round) returns (ok: bool)
      requires Valid() && |round.clocks| == |round.works| == |channels|
      modifies this
      ensures Valid() && history == Advance(config, channels, old(history), round)
      ensures ok <==> Reached(config, channels, old(history), round, |channels|)
      ensures ok ==> forall t :: 0 <= t < |channels| ==>
        states[t].known && states[t].applied >= EvalOf(config, channels, round, t).desired
      ensures Follows(round)
    {
      var plan := PlanFor(config, round.reading);
      var t := 0;
      while t < |channels|
        invariant 0 <= t <= |channels| && Valid() && Reached(config, channels, old(history), round, t)
        invariant forall u :: 0 <= u < t ==>
          && states[u].known && states[u].applied >= Desired(channels[u], plan)
          && history[u] == old(history[u]) + [EvalOf(config, channels, round, u)]
        invariant forall u :: t <= u < |channels| ==> history[u] == old(history[u])
      {
        ok := ServeTarget(t, Desired(channels[t], plan), round.clocks[t], round.works[t]);
        t := t + 1;
        if !ok { return; }
      }
      ok := true;
    }
  }

  /** A whole daemon run: every target has gone through exactly the evaluations that the rounds define, so
      its applied PWM lies between the configured minimum and 255, and the downshift law holds of each
      evaluation when the clock never goes back. */
  method RunDaemon(config: Config, channels: seq<Channel>, rounds: seq<Round>) returns (daemon: Daemon)
    requires ValidConfig(config) && Fitting(rounds, |channels|)
    ensures daemon.Valid() && daemon.config == config && daemon.channels == channels
    ensures daemon.history == Histories(config, channels, rounds)
    ensures forall t :: 0 <= t < |channels| && daemon.states[t].known ==> config.minimum <= daemon.states[t].applied <= 255
    ensures Forward(rounds, |channels|) ==>
      forall t, n :: 0 <= t < |channels| && 0 <= n < |daemon.history[t]| ==> DownshiftLaw(config.delay, daemon.history[t], n)
    ensures rounds != [] ==> daemon.Follows(rounds[|rounds| - 1])
  {
    daemon := new Daemon(config, channels);
    var r := 0;
    while r < |rounds|
      invariant 0 <= r <= |rounds| && daemon.Valid() && daemon.config == config && daemon.channels == channels
      invariant fresh(daemon) && daemon.history == Histories(config, channels, rounds[..r])
      invariant r > 0 ==> daemon.Follows(rounds[r - 1])
    {
      assert rounds[..r + 1][..r] == rounds[..r];
      var ok := daemon.Iterate(rounds[r]);
      r := r + 1;
    }
    assert rounds[..r] == rounds;
    forall t | 0 <= t < |channels| && daemon.states[t].known
      ensures config.minimum <= daemon.states[t].applied <= 255
    {
      HistoriesInRange(config, channels, rounds, t);
      AppliedStaysInRange(config.delay, daemon.history[t], config.minimum, 255);
    }
    if Forward(rounds, |channels|) {
      forall t, n | 0 <= t < |channels| && 0 <= n < |daemon.history[t]|
        ensures DownshiftLaw(config.delay, daemon.history[t], n)
      {
        RunsObeyDownshiftLaw(config, channels, rounds, t, n);
      }
    }
  }
}
