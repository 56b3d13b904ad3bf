/** The start/stop protocol between the callers of the service and one vibrator thread, as a state
    machine over the steps between which other threads can run. Callers are serialized by
    vibratorThreadMutex_ and talk to the worker through exitFlag_ (set under vibrateMutex_) and the
    end of its Run; the worker runs the instructions of Playback. */
module StopProtocol {
  import opened Wrappers
  import opened Haptics
  import MixedWave
  import opened CompositeEffects
  import opened Playback

  datatype Request = Request(info: VibrateInfo, position: int, waves: seq<Wave>)

  /** Fresh: running, nothing read yet. Planned: request read, vibrateMutex_ not yet taken.
      At: holding vibrateMutex_, rest still to do. Waiting: in wait_for, the mutex released.
      Leaving: about to return, holding the mutex. Ended: Run has returned, IsRunning still true. */
  datatype WorkerPc =
    | Fresh | Planned(plan: seq<Instr>)
    | At(rest: seq<Instr>) | Waiting(rest: seq<Instr>)
    | Leaving(byFlag: bool) | Ended(byFlag: bool)

  datatype Worker = NoWorker | Running(pc: WorkerPc)

  datatype Op = StopOp | StartOp(request: Request)

  /** Where one caller stands. Every state but Idle holds vibratorThreadMutex_. */
  datatype CallerPc =
    | Idle | Checking(op: Op) | Notifying(op: Op) | Syncing(op: Op) | Clearing(op: Op) | Resetting(op: Op)
    | StopReturned(op: Op, wasRunning: bool) | Launching(request: Request)

  datatype State = State(
    exitFlag: bool,
    vibrateMutexHeld: bool,             // held by the worker; callers hold it within one step only
    threadMutex: Option<int>,           // the caller that holds vibratorThreadMutex_
    callers: map<int, CallerPc>,
    currentVibration: Option<Request>,  // None after ResetVibrateInfo
    worker: Worker,
    launched: Option<Request>,          // history: the request of the last launch
    log: seq<DeviceCall>,               // history: the device calls of the current worker
    startsAfterFlag: nat)               // history: its device starts since the flag was set

  function Caller(s: State, c: int): CallerPc {
    if c in s.callers then s.callers[c] else Idle
  }

  function PlanOf(r: Request): seq<Instr> {
    Plan(r.info, r.position, r.waves)
  }

  ghost predicate Init(s: State) {
    s == State(false, false, None, map[], None, NoWorker, None, [], 0)
  }

  // ----- worker steps -----

  function WithPc(s: State, pc: WorkerPc): State {
    s.(worker := Running(pc))
  }

  ghost predicate ReadRequest(s: State, s': State) {
    && s.worker == Running(Fresh)
    && s' == WithPc(s, Planned(if s.currentVibration.Some? then PlanOf(s.currentVibration.value) else []))
  }

  ghost predicate TakeMutex(s: State, s': State) {
    && s.worker.Running? && s.worker.pc.Planned? && !s.vibrateMutexHeld
    && s' == WithPc(s, At(s.worker.pc.plan)).(vibrateMutexHeld := true)
  }

  /** A request refused before any Play function locks. */
  ghost predicate SkipMutex(s: State, s': State) {
    && s.worker == Running(Planned([]))
    && s' == WithPc(s, Ended(false))
  }

  ghost predicate StartDevice(s: State, s': State, accepted: bool) {
    && s.worker.Running? && s.worker.pc.At? && s.worker.pc.rest != [] && s.worker.pc.rest[0].Start?
    && s' == WithPc(s, if accepted then At(s.worker.pc.rest[1..]) else Leaving(false))
             .(log := s.log + [s.worker.pc.rest[0].call],
               startsAfterFlag := s.startsAfterFlag + if s.exitFlag then 1 else 0)
  }

  ghost predicate BeginWait(s: State, s': State) {
    && s.worker.Running? && s.worker.pc.At? && s.worker.pc.rest != [] && s.worker.pc.rest[0].Wait?
    && s' == WithPc(s, Waiting(s.worker.pc.rest[1..])).(vibrateMutexHeld := false)
  }

  /** Woken by the notification, by the timeout or for no reason; the mutex must be free. */
  ghost predicate EndWait(s: State, s': State) {
    && s.worker.Running? && s.worker.pc.Waiting? && !s.vibrateMutexHeld
    && s' == WithPc(s, At(s.worker.pc.rest)).(vibrateMutexHeld := true)
  }

  ghost predicate CheckFlag(s: State, s': State) {
    && s.worker.Running? && s.worker.pc.At? && s.worker.pc.rest != [] && s.worker.pc.rest[0].Check?
    && s' == if s.exitFlag
             then WithPc(s, Leaving(true)).(log := s.log + [Stop(s.worker.pc.rest[0].mode)])
             else WithPc(s, At(s.worker.pc.rest[1..]))
  }

  ghost predicate QuietDevice(s: State, s': State, busy: bool) {
    && s.worker.Running? && s.worker.pc.At? && s.worker.pc.rest != [] && s.worker.pc.rest[0].Quiesce?
    && s' == WithPc(s, At(s.worker.pc.rest[1..]))
             .(log := s.log + if busy then [Stop(PresetMode), Stop(HdHapticMode)] else [])
  }

  ghost predicate FinishPlan(s: State, s': State) {
    s.worker == Running(At([])) && s' == WithPc(s, Leaving(false))
  }

  ghost predicate DropMutex(s: State, s': State) {
    && s.worker.Running? && s.worker.pc.Leaving?
    && s' == WithPc(s, Ended(s.worker.pc.byFlag)).(vibrateMutexHeld := false)
  }

  /** The thread is no longer running. */
  ghost predicate Exit(s: State, s': State) {
    s.worker.Running? && s.worker.pc.Ended? && s' == s.(worker := NoWorker)
  }

  /** Steps that do not touch the device. */
  ghost predicate QuietStep(s: State, s': State) {
    || ReadRequest(s, s') || TakeMutex(s, s') || SkipMutex(s, s') || BeginWait(s, s') || EndWait(s, s')
    || FinishPlan(s, s') || DropMutex(s, s') || Exit(s, s')
  }

  /** Steps that may. */
  ghost predicate DeviceStep(s: State, s': State) {
    || StartDevice(s, s', true) || StartDevice(s, s', false) || CheckFlag(s, s')
    || QuietDevice(s, s', true) || QuietDevice(s, s', false)
  }

  ghost predicate WorkerStep(s: State, s': State) {
    QuietStep(s, s') || DeviceStep(s, s')
  }

  // ----- caller steps -----

  function WithCaller(s: State, c: int, pc: CallerPc): State {
    s.(callers := s.callers[c := pc])
  }

  /** vibratorThreadMutex_ is taken, to stop or to start. */
  ghost predicate Enter(s: State, s': State, c: int, op: Op) {
    && Caller(s, c) == Idle && s.threadMutex == None
    && s' == WithCaller(s, c, Checking(op)).(threadMutex := Some(c))
  }

  ghost predicate CheckRunning(s: State, s': State, c: int) {
    && Caller(s, c).Checking?
    && s' == WithCaller(s, c, if s.worker.Running? then Notifying(Caller(s, c).op)
                              else StopReturned(Caller(s, c).op, false))
  }

  /** NotifyExit: the flag is set and the condition variable notified under vibrateMutex_. */
  ghost predicate Notify(s: State, s': State, c: int) {
    && Caller(s, c).Notifying? && !s.vibrateMutexHeld
    && s' == WithCaller(s, c, Syncing(Caller(s, c).op)).(exitFlag := true)
  }

  /** NotifyExitSync returns once the thread is no longer running. */
  ghost predicate Sync(s: State, s': State, c: int) {
    && Caller(s, c).Syncing? && s.worker == NoWorker
    && s' == WithCaller(s, c, Clearing(Caller(s, c).op))
  }

  ghost predicate ClearFlag(s: State, s': State, c: int) {
    && Caller(s, c).Clearing?
    && s' == WithCaller(s, c, Resetting(Caller(s, c).op)).(exitFlag := false)
  }

  ghost predicate ResetInfo(s: State, s': State, c: int) {
    && Caller(s, c).Resetting?
    && s' == WithCaller(s, c, StopReturned(Caller(s, c).op, true)).(currentVibration := None)
  }

  /** StopVibrateThread has returned to a caller that only wanted to stop. */
  ghost predicate LeaveStopped(s: State, s': State, c: int) {
    && Caller(s, c).StopReturned? && Caller(s, c).op.StopOp?
    && s' == WithCaller(s, c, Idle).(threadMutex := None)
  }

  ghost predicate Update(s: State, s': State, c: int) {
    && Caller(s, c).StopReturned? && Caller(s, c).op.StartOp?
    && s' == WithCaller(s, c, Launching(Caller(s, c).op.request))
             .(currentVibration := Some(Caller(s, c).op.request))
  }

  /** Thread::Start, then the mutex is released. A thread that is running is not started again. */
  ghost predicate Launch(s: State, s': State, c: int) {
    && Caller(s, c).Launching?
    && s' == if s.worker.Running? then WithCaller(s, c, Idle).(threadMutex := None)
             else WithCaller(s, c, Idle).(threadMutex := None, worker := Running(Fresh),
                    launched := Some(Caller(s, c).request), log := [], startsAfterFlag := 0)
  }

  ghost predicate CallerStep(s: State, s': State, c: int) {
    || (exists op :: Enter(s, s', c, op))
    || CheckRunning(s, s', c) || Notify(s, s', c) || Sync(s, s', c) || ClearFlag(s, s', c)
    || ResetInfo(s, s', c) || LeaveStopped(s, s', c) || Update(s, s', c) || Launch(s, s', c)
  }

  ghost predicate Next(s: State, s': State) {
    WorkerStep(s, s') || exists c :: CallerStep(s, s', c)
  }

  ghost predicate IsRun(run: seq<State>) {
    && run != [] && Init(run[0])
    && forall k :: 0 <= k < |run| - 1 ==> Next(run[k], run[k + 1])
  }

  // ----- what every plan guarantees -----

  /** Device starts before the next look at the flag. */
  function StartsAhead(p: seq<Instr>): nat {
    if p == [] || p[0].Check? then 0 else (if p[0].Start? then 1 else 0) + StartsAhead(p[1..])
  }

  /** Worker steps up to and including the next look at the flag, or the end of the plan. */
  function StepsAhead(p: seq<Instr>): nat {
    if p == [] || p[0].Check? then 1 else (if p[0].Wait? then 2 else 1) + StepsAhead(p[1..])
  }

  /** From anywhere in the plan, at most one start and five steps lie before the next look at the flag. */
  ghost predicate Guarded(p: seq<Instr>)
    decreases |p|
  {
    StartsAhead(p) <= 1 && StepsAhead(p) <= 5 && (p != [] ==> Guarded(p[1..]))
  }

  lemma GuardedCons(x: Instr, p: seq<Instr>)
    requires Guarded(p)
    requires x.Check? || ((x.Start? ==> StartsAhead(p) == 0) && StepsAhead(p) <= if x.Wait? then 3 else 4)
    ensures Guarded([x] + p)
    ensures StartsAhead([x] + p) == (if x.Check? then 0 else (if x.Start? then 1 else 0) + StartsAhead(p))
    ensures StepsAhead([x] + p) == (if x.Check? then 1 else (if x.Wait? then 2 else 1) + StepsAhead(p))
  {
    assert ([x] + p)[1..] == p;
  }

  /** A start, a wait and a look at the flag, before anything guarded. */
  lemma GuardedStart(call: DeviceCall, ms: int, mode: StopMode, p: seq<Instr>)
    requires Guarded(p)
    ensures var q := [Start(call), Wait(ms), Check(mode)] + p;
            Guarded(q) && StartsAhead(q) == 1 && StepsAhead(q) == 4
  {
    GuardedCons(Check(mode), p);
    GuardedCons(Wait(ms), [Check(mode)] + p);
    GuardedCons(Start(call), [Wait(ms)] + ([Check(mode)] + p));
    assert [Start(call), Wait(ms), Check(mode)] + p == [Start(call)] + ([Wait(ms)] + ([Check(mode)] + p));
  }

  lemma {:induction false} EffectGuarded(info: VibrateInfo, i: nat)
    ensures Guarded(EffectSteps(info, i))
    decreases info.count - i
  {
    if i < info.count {
      EffectGuarded(info, i + 1);
      var later := EffectSteps(info, i + 1);
      var call := StartByIntensity(info.effect, info.intensity);
      var ms := info.duration + if i >= 1 then DELAY_TIME2 else 0;
      var played := [Start(call), Wait(ms), Check(PresetMode)] + later;
      GuardedStart(call, ms, PresetMode, later);
      if i >= 1 {
        GuardedCons(Quiesce, played);
        assert EffectSteps(info, i) == [Quiesce] + played;
      } else {
        assert EffectSteps(info, i) == played;
      }
    }
  }

  lemma {:induction false} HdGuarded(ps: seq<Pattern>, i: nat)
    requires i <= |ps|
    ensures Guarded(HdSteps(ps, i)) && StartsAhead(HdSteps(ps, i)) == 0 && StepsAhead(HdSteps(ps, i)) <= 3
    decreases |ps| - i
  {
    if i < |ps| {
      HdGuarded(ps, i + 1);
      var later := HdSteps(ps, i + 1);
      var start, wait := Start(PlayPattern(ps[i])), Wait(HdDelay(ps, i));
      GuardedHdRound(wait, start, later);
      HdUnfold(ps, i);
    }
  }

  lemma HdUnfold(ps: seq<Pattern>, i: nat)
    requires i < |ps|
    ensures HdSteps(ps, i) == [Wait(HdDelay(ps, i))] + ([Check(HdHapticMode)] + ([Quiesce]
                              + ([Start(PlayPattern(ps[i]))] + HdSteps(ps, i + 1))))
  {
  }

  lemma GuardedHdRound(wait: Instr, start: Instr, later: seq<Instr>)
    requires wait.Wait? && start.Start?
    requires Guarded(later) && StartsAhead(later) == 0 && StepsAhead(later) <= 3
    ensures var p := [wait] + ([Check(HdHapticMode)] + ([Quiesce] + ([start] + later)));
            Guarded(p) && StartsAhead(p) == 0 && StepsAhead(p) == 3
  {
    GuardedCons(start, later);
    GuardedCons(Quiesce, [start] + later);
    GuardedCons(Check(HdHapticMode), [Quiesce] + ([start] + later));
    GuardedCons(wait, [Check(HdHapticMode)] + ([Quiesce] + ([start] + later)));
  }

  lemma {:induction false} CompositeGuarded(es: seq<CompositeEffect>, i: nat, part: seq<CompositeEffect>, delay: int)
    requires i <= |es|
    ensures Guarded(CompositeSteps(es, i, part, delay))
    decreases |es| - i
  {
    if i < |es| {
      var part', delay' := part + [es[i]], delay + es[i].delay;
      if |part'| >= COMPOSITE_EFFECT_PART || i == |es| - 1 {
        CompositeGuarded(es, i + 1, [], 0);
        GuardedStart(EnableCompositeEffect(part'), delay', PresetMode, CompositeSteps(es, i + 1, [], 0));
      } else {
        CompositeGuarded(es, i + 1, part', delay');
        GuardedCons(Check(PresetMode), CompositeSteps(es, i + 1, part', delay'));
      }
    }
  }

  /** Whatever is requested, in any mode and of any length. */
  lemma PlanGuarded(r: Request)
    ensures Guarded(PlanOf(r))
  {
    var info := r.info;
    match info.mode {
      case Time =>
        GuardedStart(StartOnce(info.duration), info.duration, OnceMode, []);
        assert OnceSteps(info) == [Start(StartOnce(info.duration)), Wait(info.duration), Check(OnceMode)] + [];
      case Preset => EffectGuarded(info, 0);
      case CustomHd => HdGuarded(info.package.patterns, 0);
      case CustomCompositeEffect =>
        var es := PlanEffects(r);
        CompositeGuarded(es, 0, [], 0);
      case CustomCompositeTime =>
        var es := PlanEffects(r);
        CompositeGuarded(es, 0, [], 0);
      case _ =>
    }
  }

  /** The effect list of a composite request. */
  function PlanEffects(r: Request): seq<CompositeEffect> {
    if r.info.mode == CustomCompositeEffect then
      var flat := MixedWave.Mix(MixedWave.Flatten(KeptPatterns(r.info.package.patterns, r.position)));
      if flat == [] then [] else PrimitiveEffects(r.waves, flat)
    else
      var flat := FlatEvents(r.info.package);
      if flat == [] then [] else TimeEffects(flat)
  }
}
