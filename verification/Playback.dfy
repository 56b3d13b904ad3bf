/** What one vibrator thread does with the device: the Play functions of VibratorThread, each as the
    loop the source has and as the list of instructions that loop amounts to. The environment (which
    starts the device accepts, when the exit flag is seen, when the device is still busy) is a set of
    oracles, indexed by the position in the instruction list. */
module Playback {
  import opened Haptics
  import opened MixedWave
  import opened CompositeEffects

  const RETRY_NUMBER := 6
  const DELAY_TIME1 := 5
  const DELAY_TIME2 := 10
  const MAX_VIBRATE_COUNT := 1000
  const COMPOSITE_EFFECT_PART := 128

  datatype StopMode = OnceMode | PresetMode | HdHapticMode

  datatype DeviceCall =
    | StartOnce(duration: int)
    | StartByIntensity(effect: string, intensity: int)
    | PlayPattern(pattern: Pattern)
    | EnableCompositeEffect(part: seq<CompositeEffect>)
    | Stop(mode: StopMode)

  /** Sleep is a wait that the exit flag cuts short, Pause one that it does not. */
  datatype Act = Call(call: DeviceCall) | Sleep(ms: int) | Pause(ms: int)

  /** Start the device; wait for the exit flag with a timeout; leave, stopping the device, if the flag
      is set; stop what the device is still playing. */
  datatype Instr = Start(call: DeviceCall) | Wait(ms: int) | Check(mode: StopMode) | Quiesce

  datatype Env = Env(accepts: nat -> bool, exitFlag: nat -> bool, busy: (nat, nat) -> bool)

  datatype Outcome = Finished | Stopped | Failed

  /** Looking at the device from the j-th time on, up to six times, until it has come to rest. */
  function PollActs(env: Env, k: nat, j: nat): seq<Act>
    decreases RETRY_NUMBER - j
  {
    if j < RETRY_NUMBER && env.busy(k, j + 1) then [Pause(DELAY_TIME1)] + PollActs(env, k, j + 1) else []
  }

  function QuiesceActs(env: Env, k: nat): seq<Act> {
    if env.busy(k, 0) then [Call(Stop(PresetMode)), Call(Stop(HdHapticMode))] + PollActs(env, k, 0) else []
  }

  /** Running the instructions prog, the first of which stands at position k. */
  function Exec(prog: seq<Instr>, k: nat, env: Env): (Outcome, seq<Act>) {
    if prog == [] then (Finished, [])
    else
      var rest := Exec(prog[1..], k + 1, env);
      match prog[0]
      case Start(c) => if env.accepts(k) then (rest.0, [Call(c)] + rest.1) else (Failed, [Call(c)])
      case Wait(ms) => (rest.0, [Sleep(ms)] + rest.1)
      case Check(mode) => if env.exitFlag(k) then (Stopped, [Call(Stop(mode))]) else rest
      case Quiesce => (rest.0, QuiesceActs(env, k) + rest.1)
  }

  // ----- the instruction lists -----

  function OnceSteps(info: VibrateInfo): seq<Instr> {
    [Start(StartOnce(info.duration)), Wait(info.duration), Check(OnceMode)]
  }

  function EffectRound(info: VibrateInfo, i: nat): seq<Instr> {
    (if i >= 1 then [Quiesce] else [])
    + [Start(StartByIntensity(info.effect, info.intensity)),
       Wait(info.duration + if i >= 1 then DELAY_TIME2 else 0), Check(PresetMode)]
  }

  function EffectSteps(info: VibrateInfo, i: nat): seq<Instr>
    decreases info.count - i
  {
    if i >= info.count then [] else EffectRound(info, i) + EffectSteps(info, i + 1)
  }

  function HdDelay(ps: seq<Pattern>, i: nat): int
    requires i < |ps|
  {
    if i == 0 then ps[i].startTime else ps[i].startTime - ps[i - 1].startTime
  }

  function HdRound(ps: seq<Pattern>, i: nat): seq<Instr>
    requires i < |ps|
  {
    [Wait(HdDelay(ps, i)), Check(HdHapticMode), Quiesce, Start(PlayPattern(ps[i]))]
  }

  function HdSteps(ps: seq<Pattern>, i: nat): seq<Instr>
    requires i <= |ps|
    decreases |ps| - i
  {
    if i == |ps| then [] else HdRound(ps, i) + HdSteps(ps, i + 1)
  }

  /** part and delay are what has been gathered since the device was last started. */
  function CompositeSteps(es: seq<CompositeEffect>, i: nat, part: seq<CompositeEffect>, delay: int): seq<Instr>
    requires i <= |es|
    decreases |es| - i
  {
    if i == |es| then []
    else
      var part', delay' := part + [es[i]], delay + es[i].delay;
      if |part'| >= COMPOSITE_EFFECT_PART || i == |es| - 1 then
        [Start(EnableCompositeEffect(part')), Wait(delay'), Check(PresetMode)] + CompositeSteps(es, i + 1, [], 0)
      else [Check(PresetMode)] + CompositeSteps(es, i + 1, part', delay')
  }

  // ----- the loops -----

  /** Having done acts, the thread stands at position k of whole, with rest still to run. */
  ghost predicate At(whole: seq<Instr>, env: Env, acts: seq<Act>, rest: seq<Instr>, k: nat) {
    Exec(whole, 0, env) == (Exec(rest, k, env).0, acts + Exec(rest, k, env).1)
  }

  lemma AtBegin(whole: seq<Instr>, env: Env)
    ensures At(whole, env, [], whole, 0)
  {
    assert [] + Exec(whole, 0, env).1 == Exec(whole, 0, env).1;
  }

  /** One instruction that does not end the run. */
  lemma AtNext(whole: seq<Instr>, env: Env, acts: seq<Act>, x: Instr, rest: seq<Instr>, k: nat)
    requires At(whole, env, acts, [x] + rest, k)
    requires x.Start? ==> env.accepts(k)
    requires x.Check? ==> !env.exitFlag(k)
    ensures At(whole, env, acts + ActsOf(x, k, env), rest, k + 1)
  {
    assert ([x] + rest)[1..] == rest;
    var later := Exec(rest, k + 1, env).1;
    assert Exec([x] + rest, k, env).1 == ActsOf(x, k, env) + later;
    assert acts + (ActsOf(x, k, env) + later) == acts + ActsOf(x, k, env) + later;
  }

  function ActsOf(x: Instr, k: nat, env: Env): seq<Act> {
    match x
    case Start(c) => [Call(c)]
    case Wait(ms) => [Sleep(ms)]
    case Check(_) => []
    case Quiesce => QuiesceActs(env, k)
  }

  /** One instruction that ends the run. */
  lemma AtLeave(whole: seq<Instr>, env: Env, acts: seq<Act>, x: Instr, rest: seq<Instr>, k: nat)
    requires At(whole, env, acts, [x] + rest, k)
    ensures x.Start? && !env.accepts(k) ==> Exec(whole, 0, env) == (Failed, acts + [Call(x.call)])
    ensures x.Check? && env.exitFlag(k) ==> Exec(whole, 0, env) == (Stopped, acts + [Call(Stop(x.mode))])
  {
    assert ([x] + rest)[1..] == rest;
  }

  /** The return value and the device calls of a Play function are those of its instruction list. */
  ghost predicate Performs(ok: bool, acts: seq<Act>, prog: seq<Instr>, env: Env) {
    acts == Exec(prog, 0, env).1 && (ok <==> Exec(prog, 0, env).0 != Failed)
  }

  lemma AtEnd(whole: seq<Instr>, env: Env, acts: seq<Act>, k: nat)
    requires At(whole, env, acts, [], k)
    ensures Performs(true, acts, whole, env)
  {
  }

  /** Starting the device, waiting, and looking at the exit flag: the three ways it can go. */
  lemma AtStartWaitCheck(whole: seq<Instr>, env: Env, acts: seq<Act>, call: DeviceCall, ms: int, mode: StopMode,
                         rest: seq<Instr>, k: nat)
    requires At(whole, env, acts, [Start(call)] + ([Wait(ms)] + ([Check(mode)] + rest)), k)
    ensures !env.accepts(k) ==> Performs(false, acts + [Call(call)], whole, env)
    ensures env.accepts(k) && env.exitFlag(k + 2) ==>
              Performs(true, acts + [Call(call)] + [Sleep(ms)] + [Call(Stop(mode))], whole, env)
    ensures env.accepts(k) && !env.exitFlag(k + 2) ==>
              At(whole, env, acts + [Call(call)] + [Sleep(ms)], rest, k + 3)
  {
    AtLeave(whole, env, acts, Start(call), [Wait(ms)] + ([Check(mode)] + rest), k);
    if env.accepts(k) {
      AtNext(whole, env, acts, Start(call), [Wait(ms)] + ([Check(mode)] + rest), k);
      AtNext(whole, env, acts + [Call(call)], Wait(ms), [Check(mode)] + rest, k + 1);
      var done := acts + [Call(call)] + [Sleep(ms)];
      AtLeave(whole, env, done, Check(mode), rest, k + 2);
      if !env.exitFlag(k + 2) {
        AtNext(whole, env, done, Check(mode), rest, k + 2);
        assert done + [] == done;
      }
    }
  }

  method PlayOnce(info: VibrateInfo, env: Env) returns (ok: bool, acts: seq<Act>)
    ensures Performs(ok, acts, OnceSteps(info), env)
  {
    ghost var prog := OnceSteps(info);
    AtBegin(prog, env);
    assert prog == [Start(StartOnce(info.duration))] + ([Wait(info.duration)] + ([Check(OnceMode)] + []));
    AtStartWaitCheck(prog, env, [], StartOnce(info.duration), info.duration, OnceMode, [], 0);
    acts := [];
    acts := acts + [Call(StartOnce(info.duration))];
    if !env.accepts(0) { return false, acts; }
    acts := acts + [Sleep(info.duration)];
    if env.exitFlag(2) {
      acts := acts + [Call(Stop(OnceMode))];
      return true, acts;
    }
    AtEnd(prog, env, acts, 3);
    ok := true;
  }

  /** Stops what the device is still playing, and gives it up to 30 ms to come to rest. */
  method HandleMultipleVibrations(env: Env, k: nat) returns (acts: seq<Act>)
    ensures acts == QuiesceActs(env, k)
  {
    acts := [];
    if env.busy(k, 0) {
      acts := acts + [Call(Stop(PresetMode))];
      acts := acts + [Call(Stop(HdHapticMode))];
      for i := 0 to RETRY_NUMBER
        invariant acts + PollActs(env, k, i) == QuiesceActs(env, k)
      {
        if !env.busy(k, i + 1) { return; }
        PollsOn(acts, env, k, i);
        acts := acts + [Pause(DELAY_TIME1)];
      }
    }
  }

  lemma PollsOn(acts: seq<Act>, env: Env, k: nat, j: nat)
    requires j < RETRY_NUMBER && env.busy(k, j + 1)
    ensures acts + [Pause(DELAY_TIME1)] + PollActs(env, k, j + 1) == acts + PollActs(env, k, j)
  {
  }

  /** One round of PlayEffect, instruction by instruction. */
  lemma EffectStepsAre(info: VibrateInfo, i: nat)
    requires i < info.count
    ensures var start := Start(StartByIntensity(info.effect, info.intensity));
            var wait := Wait(info.duration + if i >= 1 then DELAY_TIME2 else 0);
            var round := [start] + ([wait] + ([Check(PresetMode)] + EffectSteps(info, i + 1)));
            EffectSteps(info, i) == if i >= 1 then [Quiesce] + round else round
  {
  }

  method PlayEffect(info: VibrateInfo, env: Env) returns (ok: bool, acts: seq<Act>)
    ensures 0 <= info.count <= MAX_VIBRATE_COUNT ==> Performs(ok, acts, EffectSteps(info, 0), env)
    ensures !(0 <= info.count <= MAX_VIBRATE_COUNT) ==> !ok && acts == []
  {
    acts := [];
    if info.count < 0 || info.count > MAX_VIBRATE_COUNT { return false, acts; }
    ghost var prog := EffectSteps(info, 0);
    AtBegin(prog, env);
    var k: nat := 0;
    for i := 0 to info.count
      invariant At(prog, env, acts, EffectSteps(info, i), k)
    {
      ghost var later := EffectSteps(info, i + 1);
      ghost var start := Start(StartByIntensity(info.effect, info.intensity));
      var duration := info.duration;
      EffectStepsAre(info, i);
      if i >= 1 {
        duration := duration + DELAY_TIME2;
        AtNext(prog, env, acts, Quiesce, [start] + ([Wait(duration)] + ([Check(PresetMode)] + later)), k);
        var quiet := HandleMultipleVibrations(env, k);
        acts := acts + quiet;
        k := k + 1;
      }
      AtStartWaitCheck(prog, env, acts, start.call, duration, PresetMode, later, k);
      acts := acts + [Call(StartByIntensity(info.effect, info.intensity))];
      if !env.accepts(k) { return false, acts; }
      acts := acts + [Sleep(duration)];
      if env.exitFlag(k + 2) {
        acts := acts + [Call(Stop(PresetMode))];
        return true, acts;
      }
      k := k + 3;
    }
    AtEnd(prog, env, acts, k);
    ok := true;
  }

  /** One round of PlayCustomByHdHptic, instruction by instruction. */
  lemma HdStepsAre(ps: seq<Pattern>, i: nat)
    requires i < |ps|
    ensures HdSteps(ps, i)
         == [Wait(HdDelay(ps, i))] + ([Check(HdHapticMode)] + ([Quiesce] + ([Start(PlayPattern(ps[i]))] + HdSteps(ps, i + 1))))
  {
  }

  /** Waiting, looking at the exit flag, making the device quiet, starting it: the three ways it can go. */
  lemma AtWaitCheckStart(whole: seq<Instr>, env: Env, acts: seq<Act>, ms: int, mode: StopMode, call: DeviceCall,
                         rest: seq<Instr>, k: nat)
    requires At(whole, env, acts, [Wait(ms)] + ([Check(mode)] + ([Quiesce] + ([Start(call)] + rest))), k)
    ensures env.exitFlag(k + 1) ==> Performs(true, acts + [Sleep(ms)] + [Call(Stop(mode))], whole, env)
    ensures !env.exitFlag(k + 1) && !env.accepts(k + 3) ==>
              Performs(false, acts + [Sleep(ms)] + QuiesceActs(env, k + 2) + [Call(call)], whole, env)
    ensures !env.exitFlag(k + 1) && env.accepts(k + 3) ==>
              At(whole, env, acts + [Sleep(ms)] + QuiesceActs(env, k + 2) + [Call(call)], rest, k + 4)
  {
    var quiesce := [Quiesce] + ([Start(call)] + rest);
    AtNext(whole, env, acts, Wait(ms), [Check(mode)] + quiesce, k);
    var done := acts + [Sleep(ms)];
    AtLeave(whole, env, done, Check(mode), quiesce, k + 1);
    if !env.exitFlag(k + 1) {
      AtNext(whole, env, done, Check(mode), quiesce, k + 1);
      assert done + [] == done;
      AtNext(whole, env, done, Quiesce, [Start(call)] + rest, k + 2);
      AtLeave(whole, env, done + QuiesceActs(env, k + 2), Start(call), rest, k + 3);
      if env.accepts(k + 3) {
        AtNext(whole, env, done + QuiesceActs(env, k + 2), Start(call), rest, k + 3);
      }
    }
  }

  method PlayCustomByHdHptic(info: VibrateInfo, env: Env) returns (ok: bool, acts: seq<Act>)
    ensures Performs(ok, acts, HdSteps(info.package.patterns, 0), env)
  {
    acts := [];
    var patterns := info.package.patterns;
    ghost var prog := HdSteps(patterns, 0);
    AtBegin(prog, env);
    var k: nat := 0;
    for i := 0 to |patterns|
      invariant At(prog, env, acts, HdSteps(patterns, i), k)
    {
      var delayTime;
      if i == 0 {
        delayTime := patterns[i].startTime;
      } else {
        delayTime := patterns[i].startTime - patterns[i - 1].startTime;
      }
      HdStepsAre(patterns, i);
      AtWaitCheckStart(prog, env, acts, delayTime, HdHapticMode, PlayPattern(patterns[i]),
                       HdSteps(patterns, i + 1), k);
      acts := acts + [Sleep(delayTime)];
      if env.exitFlag(k + 1) {
        acts := acts + [Call(Stop(HdHapticMode))];
        return true, acts;
      }
      var quiet := HandleMultipleVibrations(env, k + 2);
      acts := acts + quiet;
      acts := acts + [Call(PlayPattern(patterns[i]))];
      if !env.accepts(k + 3) { return false, acts; }
      k := k + 4;
    }
    AtEnd(prog, env, acts, k);
    ok := true;
  }

  method PlayCompositeEffect(es: seq<CompositeEffect>, env: Env) returns (ok: bool, acts: seq<Act>)
    ensures Performs(ok, acts, CompositeSteps(es, 0, [], 0), env)
  {
    acts := [];
    var effectsPart: seq<CompositeEffect> := [];
    var delayTime := 0;
    ghost var prog := CompositeSteps(es, 0, [], 0);
    AtBegin(prog, env);
    var k: nat := 0;
    for i := 0 to |es|
      invariant At(prog, env, acts, CompositeSteps(es, i, effectsPart, delayTime), k)
    {
      ghost var before, delayBefore := effectsPart, delayTime;
      effectsPart := effectsPart + [es[i]];
      delayTime := delayTime + es[i].delay;
      if |effectsPart| >= COMPOSITE_EFFECT_PART || i == |es| - 1 {
        ghost var later := CompositeSteps(es, i + 1, [], 0);
        ghost var start := Start(EnableCompositeEffect(effectsPart));
        assert CompositeSteps(es, i, before, delayBefore)
            == [start] + ([Wait(delayTime)] + ([Check(PresetMode)] + later));
        AtLeave(prog, env, acts, start, [Wait(delayTime)] + ([Check(PresetMode)] + later), k);
        if !env.accepts(k) {
          acts := acts + [Call(EnableCompositeEffect(effectsPart))];
          return false, acts;
        }
        AtNext(prog, env, acts, start, [Wait(delayTime)] + ([Check(PresetMode)] + later), k);
        acts := acts + [Call(EnableCompositeEffect(effectsPart))];
        AtNext(prog, env, acts, Wait(delayTime), [Check(PresetMode)] + later, k + 1);
        acts := acts + [Sleep(delayTime)];
        k := k + 2;
        delayTime := 0;
        effectsPart := [];
      }
      ghost var later := CompositeSteps(es, i + 1, effectsPart, delayTime);
      AtLeave(prog, env, acts, Check(PresetMode), later, k);
      if env.exitFlag(k) {
        acts := acts + [Call(Stop(PresetMode))];
        return true, acts;
      }
      AtNext(prog, env, acts, Check(PresetMode), later, k);
      assert acts + [] == acts;
      k := k + 1;
    }
    AtEnd(prog, env, acts, k);
    ok := true;
  }

  // ----- an undisturbed composite run -----

  function Parts(acts: seq<Act>): seq<seq<CompositeEffect>> {
    if acts == [] then []
    else (if acts[0].Call? && acts[0].call.EnableCompositeEffect? then [acts[0].call.part] else [])
         + Parts(acts[1..])
  }

  function Sleeps(acts: seq<Act>): seq<int> {
    if acts == [] then [] else (if acts[0].Sleep? then [acts[0].ms] else []) + Sleeps(acts[1..])
  }

  function Concat<T>(ss: seq<seq<T>>): seq<T> {
    if ss == [] then [] else ss[0] + Concat(ss[1..])
  }

  ghost predicate Undisturbed(env: Env) {
    forall k :: env.accepts(k) && !env.exitFlag(k)
  }

  /** Every part is played for exactly as long as its delays say, and is as long as it can be. */
  ghost predicate PlaysInParts(parts: seq<seq<CompositeEffect>>, sleeps: seq<int>) {
    && |parts| == |sleeps|
    && (forall m :: 0 <= m < |parts| ==>
          1 <= |parts[m]| <= 128 && sleeps[m] == Sum(Delays(parts[m])))
    && (forall m :: 0 <= m < |parts| - 1 ==> |parts[m]| == 128)
  }

  lemma DelaysSnoc(part: seq<CompositeEffect>, e: CompositeEffect)
    ensures Sum(Delays(part + [e])) == Sum(Delays(part)) + e.delay
  {
    var d := Delays(part + [e]);
    assert d[..|d| - 1] == Delays(part);
  }

  lemma ExecPart(part: seq<CompositeEffect>, delay: int, rest: seq<Instr>, k: nat, env: Env)
    requires Undisturbed(env)
    ensures var prog := [Start(EnableCompositeEffect(part)), Wait(delay), Check(PresetMode)] + rest;
            var (outcome, acts) := Exec(prog, k, env);
            && outcome == Exec(rest, k + 3, env).0
            && Parts(acts) == [part] + Parts(Exec(rest, k + 3, env).1)
            && Sleeps(acts) == [delay] + Sleeps(Exec(rest, k + 3, env).1)
  {
    var prog := [Start(EnableCompositeEffect(part)), Wait(delay), Check(PresetMode)] + rest;
    assert prog[1..][1..][1..] == rest;
    var tail := Exec(rest, k + 3, env).1;
    assert Exec(prog[1..], k + 1, env).1 == [Sleep(delay)] + tail;
    assert ([Sleep(delay)] + tail)[1..] == tail;
    var acts := Exec(prog, k, env).1;
    assert acts == [Call(EnableCompositeEffect(part))] + ([Sleep(delay)] + tail);
    assert acts[1..] == [Sleep(delay)] + tail;
  }

  /** The instructions, run from position k, play todo part by part. */
  ghost predicate PlaysAll(prog: seq<Instr>, k: nat, env: Env, todo: seq<CompositeEffect>) {
    var (outcome, acts) := Exec(prog, k, env);
    && outcome == Finished
    && PlaysInParts(Parts(acts), Sleeps(acts))
    && Concat(Parts(acts)) == todo
  }

  lemma PlaysPart(part: seq<CompositeEffect>, delay: int, rest: seq<Instr>, k: nat, env: Env, todo: seq<CompositeEffect>)
    requires Undisturbed(env) && PlaysAll(rest, k + 3, env, todo)
    requires 1 <= |part| <= COMPOSITE_EFFECT_PART && delay == Sum(Delays(part))
    requires todo != [] ==> |part| == COMPOSITE_EFFECT_PART
    ensures PlaysAll([Start(EnableCompositeEffect(part)), Wait(delay), Check(PresetMode)] + rest, k, env, part + todo)
  {
    ExecPart(part, delay, rest, k, env);
    var later := Exec(rest, k + 3, env).1;
    var parts := Parts(later);
    assert ([part] + parts)[1..] == parts;
    assert parts != [] ==> |parts[0]| > 0 && todo != [];
  }

  lemma PlaysCheck(rest: seq<Instr>, k: nat, env: Env, todo: seq<CompositeEffect>)
    requires Undisturbed(env) && PlaysAll(rest, k + 1, env, todo)
    ensures PlaysAll([Check(PresetMode)] + rest, k, env, todo)
  {
    assert ([Check(PresetMode)] + rest)[1..] == rest;
  }

  lemma {:induction false} CompositeRunFrom(es: seq<CompositeEffect>, i: nat, part: seq<CompositeEffect>, delay: int,
                                            k: nat, env: Env)
    requires i <= |es| && Undisturbed(env)
    requires |part| < COMPOSITE_EFFECT_PART && delay == Sum(Delays(part)) && (i == |es| ==> part == [])
    ensures PlaysAll(CompositeSteps(es, i, part, delay), k, env, part + es[i..])
    decreases |es| - i
  {
    if i < |es| {
      var part', delay' := part + [es[i]], delay + es[i].delay;
      DelaysSnoc(part, es[i]);
      assert part' + es[i + 1..] == part + es[i..];
      if |part'| >= COMPOSITE_EFFECT_PART || i == |es| - 1 {
        CompositeRunFrom(es, i + 1, [], 0, k + 3, env);
        assert [] + es[i + 1..] == es[i + 1..];
        PlaysPart(part', delay', CompositeSteps(es, i + 1, [], 0), k, env, es[i + 1..]);
      } else {
        CompositeRunFrom(es, i + 1, part', delay', k + 1, env);
        PlaysCheck(CompositeSteps(es, i + 1, part', delay'), k, env, part' + es[i + 1..]);
      }
    } else {
      assert part + es[i..] == [];
    }
  }

  lemma SumOfFirst(x: int, rest: seq<int>)
    ensures Sum([x] + rest) == x + Sum(rest)
  {
    SumSplit([x], rest);
    assert [x][..0] == [];
  }

  lemma SumOfDelays(part: seq<CompositeEffect>, rest: seq<CompositeEffect>)
    ensures Sum(Delays(part + rest)) == Sum(Delays(part)) + Sum(Delays(rest))
  {
    assert Delays(part + rest) == Delays(part) + Delays(rest);
    SumSplit(Delays(part), Delays(rest));
  }

  lemma {:induction false} SumOfParts(parts: seq<seq<CompositeEffect>>, sleeps: seq<int>)
    requires PlaysInParts(parts, sleeps)
    ensures Sum(sleeps) == Sum(Delays(Concat(parts)))
  {
    if parts != [] {
      SumOfParts(parts[1..], sleeps[1..]);
      assert sleeps == [sleeps[0]] + sleeps[1..];
      SumOfFirst(sleeps[0], sleeps[1..]);
      SumOfDelays(parts[0], Concat(parts[1..]));
    }
  }

  /** With every start accepted and no exit, the parts handed to the device concatenate to the effect
      list, each holds 1..128 effects, all but the last exactly 128, and the waits add up to the
      delays. */
  lemma CompositeRun(es: seq<CompositeEffect>, env: Env)
    requires Undisturbed(env)
    ensures var (outcome, acts) := Exec(CompositeSteps(es, 0, [], 0), 0, env);
            && outcome == Finished
            && PlaysInParts(Parts(acts), Sleeps(acts))
            && Concat(Parts(acts)) == es
            && Sum(Sleeps(acts)) == Sum(Delays(es))
  {
    CompositeRunFrom(es, 0, [], 0, 0, env);
    var acts := Exec(CompositeSteps(es, 0, [], 0), 0, env).1;
    assert [] + es[0..] == es;
    SumOfParts(Parts(acts), Sleeps(acts));
  }

  // ----- choosing the events of one vibrator -----

  predicate Selects(e: Event, position: int) {
    e.index == 0 || e.index == position
  }

  function KeptEvents(es: seq<Event>, position: int): seq<Event> {
    if es == [] then []
    else KeptEvents(es[..|es| - 1], position)
         + if Selects(es[|es| - 1], position) then [es[|es| - 1]] else []
  }

  function KeptPatterns(ps: seq<Pattern>, position: int): seq<Pattern> {
    if ps == [] then []
    else
      var p := ps[|ps| - 1];
      var kept := KeptEvents(p.events, position);
      KeptPatterns(ps[..|ps| - 1], position) + if kept == [] then [] else [p.(events := kept)]
  }

  function LastDuration(es: seq<Event>): int {
    if es == [] then 0 else es[|es| - 1].duration
  }

  lemma LastDurationMore(ps: seq<Pattern>, p: Pattern)
    requires p.events != []
    ensures LastDuration(Flatten(ps + [p])) == LastDuration(p.events)
  {
    assert (ps + [p])[..|ps|] == ps;
  }

  /** The loop over the events of one pattern. */
  method CopyEvents(es: seq<Event>, position: int, duration: int) returns (events: seq<Event>, parseDuration: int)
    ensures events == KeptEvents(es, position)
    ensures parseDuration == if events == [] then duration else LastDuration(events)
  {
    events, parseDuration := [], duration;
    for j := 0 to |es|
      invariant events == KeptEvents(es[..j], position)
      invariant parseDuration == if events == [] then duration else LastDuration(events)
    {
      assert es[..j + 1][..j] == es[..j];
      if es[j].index == 0 || es[j].index == position {
        events := events + [es[j]];
        parseDuration := es[j].duration;
      }
    }
    assert es[..|es|] == es;
  }

  lemma KeptPatternsSnoc(ps: seq<Pattern>, i: nat, position: int)
    requires i < |ps|
    ensures var kept := KeptEvents(ps[i].events, position);
            KeptPatterns(ps[..i + 1], position)
            == KeptPatterns(ps[..i], position) + if kept == [] then [] else [ps[i].(events := kept)]
  {
    assert ps[..i + 1][..i] == ps[..i];
  }

  /** The copy of a request that one vibrator plays. It is as long as the last event it keeps. */
  method CopyInfoWithIndexEvents(originalInfo: VibrateInfo, position: int) returns (newInfo: VibrateInfo)
    ensures newInfo.package.patterns == KeptPatterns(originalInfo.package.patterns, position)
    ensures newInfo.package.packageDuration == LastDuration(Flatten(newInfo.package.patterns))
    ensures newInfo == originalInfo.(package := newInfo.package)
  {
    var ps := originalInfo.package.patterns;
    var patterns: seq<Pattern> := [];
    var parseDuration := 0;
    for i := 0 to |ps|
      invariant patterns == KeptPatterns(ps[..i], position)
      invariant parseDuration == LastDuration(Flatten(patterns))
    {
      var events;
      events, parseDuration := CopyEvents(ps[i].events, position, parseDuration);
      KeptPatternsSnoc(ps, i, position);
      if events != [] {
        LastDurationMore(patterns, Pattern(ps[i].startTime, ps[i].patternDuration, events));
        patterns := patterns + [Pattern(ps[i].startTime, ps[i].patternDuration, events)];
      }
    }
    assert ps[..|ps|] == ps;
    newInfo := originalInfo.(package := Package(patterns, parseDuration));
  }

  // ----- one run of the thread -----

  /** The instructions a request amounts to on the vibrator at a position; a request that is refused
      before the device is touched amounts to none. */
  function Plan(info: VibrateInfo, position: int, waves: seq<Wave>): seq<Instr> {
    match info.mode
    case Time => OnceSteps(info)
    case Preset => if 0 <= info.count <= MAX_VIBRATE_COUNT then EffectSteps(info, 0) else []
    case CustomHd => HdSteps(info.package.patterns, 0)
    case CustomCompositeEffect =>
      var flat := Mix(Flatten(KeptPatterns(info.package.patterns, position)));
      if flat != [] && AllPlayable(waves, flat) then CompositeSteps(PrimitiveEffects(waves, flat), 0, [], 0) else []
    case CustomCompositeTime =>
      // the time-series form is made from the request as it came, before events are chosen by position
      var flat := FlatEvents(info.package);
      if flat != [] then CompositeSteps(TimeEffects(flat), 0, [], 0) else []
    case _ => []
  }

  /** The request has an encoding in the form its mode asks for. */
  predicate Encodable(info: VibrateInfo, position: int, waves: seq<Wave>) {
    if info.mode == CustomCompositeEffect then
      var flat := Mix(Flatten(KeptPatterns(info.package.patterns, position)));
      flat != [] && AllPlayable(waves, flat)
    else
      FlatEvents(info.package) != []
  }

  method PlayCustomByCompositeEffect(info: VibrateInfo, position: int, waves: seq<Wave>, env: Env)
    returns (ok: bool, acts: seq<Act>)
    requires info.mode == CustomCompositeEffect || info.mode == CustomCompositeTime
    ensures ok <==> Encodable(info, position, waves) && Exec(Plan(info, position, waves), 0, env).0 != Failed
    ensures acts == Exec(Plan(info, position, waves), 0, env).1
  {
    var es;
    var newInfo := CopyInfoWithIndexEvents(info, position);
    if newInfo.mode == CustomCompositeEffect {
      ok, es := TransformEffect(waves, newInfo.package);
    } else {
      ok, es := TransformTime(info.package);
    }
    if !ok { return false, []; }
    ok, acts := PlayCompositeEffect(es, env);
  }

  /** The body of the thread: dispatch on the mode. */
  method Run(info: VibrateInfo, position: int, waves: seq<Wave>, env: Env) returns (acts: seq<Act>)
    ensures acts == Exec(Plan(info, position, waves), 0, env).1
  {
    var ok;
    match info.mode {
      case Time => ok, acts := PlayOnce(info, env);
      case Preset => ok, acts := PlayEffect(info, env);
      case CustomHd => ok, acts := PlayCustomByHdHptic(info, env);
      case CustomCompositeEffect => ok, acts := PlayCustomByCompositeEffect(info, position, waves, env);
      case CustomCompositeTime => ok, acts := PlayCustomByCompositeEffect(info, position, waves, env);
      case _ => acts := [];
    }
  }
}
