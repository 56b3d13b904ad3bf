/** When a thread that nothing disturbs starts its device, and how one that is told to end stops it. */
module Schedules {
  import opened Wrappers
  import opened Haptics
  import opened CompositeEffects
  import opened Playback

  /** A start of the device, and how long the thread has waited before it. */
  datatype Begun = Begun(at: int, call: DeviceCall)

  /** Every start among the acts. The pauses for a device to come to rest are not waits of the plan. */
  function Schedule(acts: seq<Act>, clock: int): seq<Begun> {
    if acts == [] then []
    else
      match acts[0]
      case Sleep(ms) => Schedule(acts[1..], clock + ms)
      case Pause(_) => Schedule(acts[1..], clock)
      case Call(c) => (if c.Stop? then [] else [Begun(clock, c)]) + Schedule(acts[1..], clock)
  }

  /** The same for the instructions. */
  function Planned(prog: seq<Instr>, clock: int): seq<Begun> {
    if prog == [] then []
    else
      match prog[0]
      case Start(c) => [Begun(clock, c)] + Planned(prog[1..], clock)
      case Wait(ms) => Planned(prog[1..], clock + ms)
      case _ => Planned(prog[1..], clock)
  }

  ghost predicate StartsOnly(prog: seq<Instr>) {
    forall k :: 0 <= k < |prog| && prog[k].Start? ==> !prog[k].call.Stop?
  }

  lemma SchedulePause(ms: int, later: seq<Act>, clock: int)
    ensures Schedule([Pause(ms)] + later, clock) == Schedule(later, clock)
  {
    assert ([Pause(ms)] + later)[1..] == later;
  }

  lemma ScheduleStop(mode: StopMode, later: seq<Act>, clock: int)
    ensures Schedule([Call(Stop(mode))] + later, clock) == Schedule(later, clock)
  {
    assert ([Call(Stop(mode))] + later)[1..] == later;
  }

  lemma {:induction false} PollsStartNothing(env: Env, k: nat, j: nat, later: seq<Act>, clock: int)
    ensures Schedule(PollActs(env, k, j) + later, clock) == Schedule(later, clock)
    decreases RETRY_NUMBER - j
  {
    if j < RETRY_NUMBER && env.busy(k, j + 1) {
      var polls := PollActs(env, k, j + 1);
      PollsStartNothing(env, k, j + 1, later, clock);
      SchedulePause(DELAY_TIME1, polls + later, clock);
      Assoc([Pause(DELAY_TIME1)], polls, later);
    } else {
      assert [] + later == later;
    }
  }

  lemma QuiesceStartsNothing(env: Env, k: nat, later: seq<Act>, clock: int)
    ensures Schedule(QuiesceActs(env, k) + later, clock) == Schedule(later, clock)
  {
    if env.busy(k, 0) {
      var polls := PollActs(env, k, 0) + later;
      PollsStartNothing(env, k, 0, later, clock);
      ScheduleStop(HdHapticMode, polls, clock);
      ScheduleStop(PresetMode, [Call(Stop(HdHapticMode))] + polls, clock);
      assert QuiesceActs(env, k) + later == [Call(Stop(PresetMode))] + ([Call(Stop(HdHapticMode))] + polls);
    } else {
      assert [] + later == later;
    }
  }

  lemma ScheduleCall(c: DeviceCall, later: seq<Act>, clock: int)
    requires !c.Stop?
    ensures Schedule([Call(c)] + later, clock) == [Begun(clock, c)] + Schedule(later, clock)
  {
    assert ([Call(c)] + later)[1..] == later;
  }

  lemma ScheduleSleep(ms: int, later: seq<Act>, clock: int)
    ensures Schedule([Sleep(ms)] + later, clock) == Schedule(later, clock + ms)
  {
    assert ([Sleep(ms)] + later)[1..] == later;
  }

  /** Undisturbed, the starts are those of the instructions. */
  lemma {:induction false} RunsAsPlanned(prog: seq<Instr>, k: nat, env: Env, clock: int)
    requires Undisturbed(env) && StartsOnly(prog)
    ensures Schedule(Exec(prog, k, env).1, clock) == Planned(prog, clock)
  {
    if prog != [] {
      var later := Exec(prog[1..], k + 1, env).1;
      match prog[0]
      case Start(c) =>
        RunsAsPlanned(prog[1..], k + 1, env, clock);
        ScheduleCall(c, later, clock);
      case Wait(ms) =>
        RunsAsPlanned(prog[1..], k + 1, env, clock + ms);
        ScheduleSleep(ms, later, clock);
      case Check(_) =>
        RunsAsPlanned(prog[1..], k + 1, env, clock);
      case Quiesce =>
        RunsAsPlanned(prog[1..], k + 1, env, clock);
        QuiesceStartsNothing(env, k, later, clock);
    }
  }

  // ----- a device that is still playing -----

  /** n pauses of 5 ms. */
  function Pauses(n: nat): seq<Act> {
    seq(n, _ => Pause(5))
  }

  lemma {:induction false} PollsArePauses(env: Env, k: nat, j: nat) returns (n: nat)
    requires j <= 6
    ensures PollActs(env, k, j) == Pauses(n) && j + n <= 6
    ensures forall i :: j < i <= j + n ==> env.busy(k, i)
    ensures j + n < 6 ==> !env.busy(k, j + n + 1)
    decreases 6 - j
  {
    if j < 6 && env.busy(k, j + 1) {
      n := PollsArePauses(env, k, j + 1);
      n := n + 1;
      assert Pauses(n) == [Pause(5)] + Pauses(n - 1);
    } else {
      n := 0;
    }
  }

  /** A device that is at rest is left alone; one that is not is stopped in both modes and then waited for,
      5 ms at a time, until it is at rest or has been looked at six times. */
  lemma QuiesceIs(env: Env, k: nat) returns (n: nat)
    ensures !env.busy(k, 0) ==> QuiesceActs(env, k) == []
    ensures env.busy(k, 0) ==> QuiesceActs(env, k) == [Call(Stop(PresetMode)), Call(Stop(HdHapticMode))] + Pauses(n)
    ensures n <= 6 && (forall i :: 0 < i <= n ==> env.busy(k, i)) && (n < 6 ==> !env.busy(k, n + 1))
  {
    n := PollsArePauses(env, k, 0);
  }

  lemma PlannedStart(c: DeviceCall, rest: seq<Instr>, clock: int)
    ensures Planned([Start(c)] + rest, clock) == [Begun(clock, c)] + Planned(rest, clock)
  {
    assert ([Start(c)] + rest)[1..] == rest;
  }

  lemma PlannedWait(ms: int, rest: seq<Instr>, clock: int)
    ensures Planned([Wait(ms)] + rest, clock) == Planned(rest, clock + ms)
  {
    assert ([Wait(ms)] + rest)[1..] == rest;
  }

  lemma PlannedOther(x: Instr, rest: seq<Instr>, clock: int)
    requires x.Check? || x.Quiesce?
    ensures Planned([x] + rest, clock) == Planned(rest, clock)
  {
    assert ([x] + rest)[1..] == rest;
  }

  // ----- a single vibration -----

  /** A timed vibration starts at once, and the thread waits for as long as it lasts. */
  lemma OnceSchedule(info: VibrateInfo, env: Env)
    requires Undisturbed(env)
    ensures var acts := Exec(OnceSteps(info), 0, env).1;
            Schedule(acts, 0) == [Begun(0, StartOnce(info.duration))] && Sleeps(acts) == [info.duration]
  {
    var start, ms := StartOnce(info.duration), info.duration;
    var check := [Check(OnceMode)] + [];
    var wait := [Wait(ms)] + check;
    var prog := [Start(start)] + wait;
    assert OnceSteps(info) == prog && prog[1..] == wait && wait[1..] == check && check[1..] == [];
    assert Exec(check, 2, env) == Exec([], 3, env);
    assert Exec(wait, 1, env).1 == [Sleep(ms)];
    var acts := Exec(prog, 0, env).1;
    assert acts == [Call(start)] + [Sleep(ms)];
    ScheduleCall(start, [Sleep(ms)], 0);
    ScheduleSleep(ms, [], 0);
    assert acts[1..] == [Sleep(ms)] && [Sleep(ms)][1..] == [] && [Sleep(ms)] + [] == [Sleep(ms)];
    assert Sleeps([Sleep(ms)]) == [ms] && Sleeps(acts) == [] + Sleeps(acts[1..]);
  }

  // ----- a repeated effect -----

  /** The k-th repetition starts when the ones ahead of it have lasted, and 10 ms more for each but the first. */
  function EffectStart(duration: int, k: nat): int {
    if k == 0 then 0 else k * duration + 10 * (k - 1)
  }

  function EffectStarts(info: VibrateInfo, i: nat): seq<Begun>
    decreases info.count - i
  {
    if i >= info.count then []
    else [Begun(EffectStart(info.duration, i), StartByIntensity(info.effect, info.intensity))] + EffectStarts(info, i + 1)
  }

  lemma NextEffect(duration: int, i: nat)
    ensures EffectStart(duration, i) + duration + (if i >= 1 then 10 else 0) == EffectStart(duration, i + 1)
  {
  }

  lemma PlannedRound(c: DeviceCall, ms: int, mode: StopMode, rest: seq<Instr>, clock: int)
    ensures Planned([Start(c)] + ([Wait(ms)] + ([Check(mode)] + rest)), clock)
         == [Begun(clock, c)] + Planned(rest, clock + ms)
  {
    PlannedStart(c, [Wait(ms)] + ([Check(mode)] + rest), clock);
    PlannedWait(ms, [Check(mode)] + rest, clock);
    PlannedOther(Check(mode), rest, clock + ms);
  }

  lemma {:induction false} EffectPlanned(info: VibrateInfo, i: nat)
    ensures Planned(EffectSteps(info, i), EffectStart(info.duration, i)) == EffectStarts(info, i)
    decreases info.count - i
  {
    if i < info.count {
      var c, at := StartByIntensity(info.effect, info.intensity), EffectStart(info.duration, i);
      var ms := info.duration + if i >= 1 then DELAY_TIME2 else 0;
      var later := EffectSteps(info, i + 1);
      EffectPlanned(info, i + 1);
      NextEffect(info.duration, i);
      EffectStepsAre(info, i);
      PlannedRound(c, ms, PresetMode, later, at);
      PlannedOther(Quiesce, [Start(c)] + ([Wait(ms)] + ([Check(PresetMode)] + later)), at);
    }
  }

  lemma {:induction false} EffectStartsOnly(info: VibrateInfo, i: nat)
    ensures StartsOnly(EffectSteps(info, i))
    decreases info.count - i
  {
    if i < info.count {
      EffectStartsOnly(info, i + 1);
    }
  }

  lemma {:induction false} EffectStartsAt(info: VibrateInfo, i: nat, k: nat)
    requires i + k < info.count
    ensures |EffectStarts(info, i)| == info.count - i
    ensures EffectStarts(info, i)[k]
         == Begun(EffectStart(info.duration, i + k), StartByIntensity(info.effect, info.intensity))
    decreases info.count - i
  {
    if i + 1 < info.count {
      EffectStartsAt(info, i + 1, if k > 0 then k - 1 else 0);
    }
  }

  /** A preset effect is started as often as asked for, the first at once, each of the others when the one
      ahead of it has lasted, the third and later ones 10 ms after that. */
  lemma EffectSchedule(info: VibrateInfo, env: Env, k: nat)
    requires Undisturbed(env) && k < info.count
    ensures var begun := Schedule(Exec(EffectSteps(info, 0), 0, env).1, 0);
            && |begun| == info.count
            && begun[k] == Begun(if k == 0 then 0 else k * info.duration + 10 * (k - 1),
                                 StartByIntensity(info.effect, info.intensity))
  {
    EffectStartsOnly(info, 0);
    RunsAsPlanned(EffectSteps(info, 0), 0, env, 0);
    EffectPlanned(info, 0);
    EffectStartsAt(info, 0, k);
  }

  // ----- the patterns of an HD vibration -----

  function HdStarts(ps: seq<Pattern>, i: nat): (r: seq<Begun>)
    requires i <= |ps|
    ensures |r| == |ps| - i && forall k :: i <= k < |ps| ==> r[k - i] == Begun(ps[k].startTime, PlayPattern(ps[k]))
    decreases |ps| - i
  {
    if i == |ps| then [] else [Begun(ps[i].startTime, PlayPattern(ps[i]))] + HdStarts(ps, i + 1)
  }

  lemma {:induction false} HdStartsOnly(ps: seq<Pattern>, i: nat)
    requires i <= |ps|
    ensures StartsOnly(HdSteps(ps, i))
    decreases |ps| - i
  {
    if i < |ps| {
      HdStartsOnly(ps, i + 1);
    }
  }

  lemma PlannedHdRound(ms: int, c: DeviceCall, rest: seq<Instr>, clock: int)
    ensures Planned([Wait(ms)] + ([Check(HdHapticMode)] + ([Quiesce] + ([Start(c)] + rest))), clock)
         == [Begun(clock + ms, c)] + Planned(rest, clock + ms)
  {
    PlannedWait(ms, [Check(HdHapticMode)] + ([Quiesce] + ([Start(c)] + rest)), clock);
    PlannedOther(Check(HdHapticMode), [Quiesce] + ([Start(c)] + rest), clock + ms);
    PlannedOther(Quiesce, [Start(c)] + rest, clock + ms);
    PlannedStart(c, rest, clock + ms);
  }

  lemma {:induction false} HdPlanned(ps: seq<Pattern>, i: nat)
    requires i <= |ps|
    ensures Planned(HdSteps(ps, i), if i == 0 then 0 else ps[i - 1].startTime) == HdStarts(ps, i)
    decreases |ps| - i
  {
    if i < |ps| {
      HdPlanned(ps, i + 1);
      HdStepsAre(ps, i);
      PlannedHdRound(HdDelay(ps, i), PlayPattern(ps[i]), HdSteps(ps, i + 1), if i == 0 then 0 else ps[i - 1].startTime);
    }
  }

  /** The waits add up to the start of each pattern, and it is then that the pattern is played. */
  lemma HdSchedule(ps: seq<Pattern>, env: Env)
    requires Undisturbed(env)
    ensures var begun := Schedule(Exec(HdSteps(ps, 0), 0, env).1, 0);
            && |begun| == |ps|
            && forall k :: 0 <= k < |ps| ==> begun[k] == Begun(ps[k].startTime, PlayPattern(ps[k]))
  {
    HdStartsOnly(ps, 0);
    RunsAsPlanned(HdSteps(ps, 0), 0, env, 0);
    HdPlanned(ps, 0);
    var starts := HdStarts(ps, 0);
    forall k | 0 <= k < |ps| ensures starts[k] == Begun(ps[k].startTime, PlayPattern(ps[k])) {
      assert starts[k - 0] == starts[k];
    }
  }

  // ----- being told to end -----

  ghost predicate ChecksIn(prog: seq<Instr>, mode: StopMode) {
    forall k :: 0 <= k < |prog| && prog[k].Check? ==> prog[k].mode == mode
  }

  lemma {:induction false} StoppedInMode(prog: seq<Instr>, k: nat, env: Env, mode: StopMode)
    requires ChecksIn(prog, mode) && Exec(prog, k, env).0 == Stopped
    ensures var acts := Exec(prog, k, env).1;
            acts != [] && acts[|acts| - 1] == Call(Stop(mode))
  {
    if prog[0].Check? && env.exitFlag(k) {
    } else {
      StoppedInMode(prog[1..], k + 1, env, mode);
    }
  }

  lemma {:induction false} EffectChecks(info: VibrateInfo, i: nat)
    ensures ChecksIn(EffectSteps(info, i), PresetMode)
    decreases info.count - i
  {
    if i < info.count {
      EffectChecks(info, i + 1);
    }
  }

  lemma {:induction false} HdChecks(ps: seq<Pattern>, i: nat)
    requires i <= |ps|
    ensures ChecksIn(HdSteps(ps, i), HdHapticMode)
    decreases |ps| - i
  {
    if i < |ps| {
      HdChecks(ps, i + 1);
    }
  }

  lemma {:induction false} CompositeChecks(es: seq<CompositeEffect>, i: nat, part: seq<CompositeEffect>, delay: int)
    requires i <= |es|
    ensures ChecksIn(CompositeSteps(es, i, part, delay), PresetMode)
    decreases |es| - i
  {
    if i < |es| {
      CompositeChecks(es, i + 1, [], 0);
      CompositeChecks(es, i + 1, part + [es[i]], delay + es[i].delay);
    }
  }

  /** The last act of a thread that has seen the exit flag is to stop its device, in the mode it was
      started in: once for a timed vibration, HD haptic for patterns, preset for everything else. */
  lemma StopsInItsMode(info: VibrateInfo, position: int, waves: seq<Wave>, env: Env)
    requires Exec(Plan(info, position, waves), 0, env).0 == Stopped
    ensures var acts := Exec(Plan(info, position, waves), 0, env).1;
            acts != [] && acts[|acts| - 1] == Call(Stop(match info.mode
                                                        case Time => OnceMode
                                                        case CustomHd => HdHapticMode
                                                        case _ => PresetMode))
  {
    var prog := Plan(info, position, waves);
    match info.mode
    case Time => StoppedInMode(prog, 0, env, OnceMode);
    case Preset =>
      EffectChecks(info, 0);
      StoppedInMode(prog, 0, env, PresetMode);
    case CustomHd =>
      HdChecks(info.package.patterns, 0);
      StoppedInMode(prog, 0, env, HdHapticMode);
    case CustomCompositeEffect => CompositeStops(prog, env, info, position, waves);
    case CustomCompositeTime => CompositeStops(prog, env, info, position, waves);
    case _ =>
  }

  lemma CompositeStops(prog: seq<Instr>, env: Env, info: VibrateInfo, position: int, waves: seq<Wave>)
    requires info.mode == CustomCompositeEffect || info.mode == CustomCompositeTime
    requires prog == Plan(info, position, waves) && Exec(prog, 0, env).0 == Stopped
    ensures var acts := Exec(prog, 0, env).1; acts != [] && acts[|acts| - 1] == Call(Stop(PresetMode))
  {
    if es :| prog == CompositeSteps(es, 0, [], 0) {
      CompositeChecks(es, 0, [], 0);
      StoppedInMode(prog, 0, env, PresetMode);
    }
  }
}
