/** What holds in every state of every interleaving of callers and worker. */
module StopProtocolProofs {
  import opened Wrappers
  import opened Haptics
  import opened Playback
  import opened StopProtocol

  // ----- the invariant -----

  /** The mutexes are held by exactly those whose position says so. */
  ghost predicate MutexesAgree(s: State) {
    && (forall c :: Caller(s, c) != Idle <==> s.threadMutex == Some(c))
    && (s.vibrateMutexHeld <==> s.worker.Running? && (s.worker.pc.At? || s.worker.pc.Leaving?))
  }

  /** The flag is up only while the caller that set it is still to take it down. */
  ghost predicate FlagOwned(s: State) {
    s.exitFlag <==> s.threadMutex.Some? && var pc := Caller(s, s.threadMutex.value); pc.Syncing? || pc.Clearing?
  }

  /** Once the worker has been seen to have ended, it stays so until this caller starts a new one. */
  ghost predicate CallersRight(s: State) {
    s.threadMutex.Some? ==>
      var pc := Caller(s, s.threadMutex.value);
      && (pc.Clearing? || pc.Resetting? || pc.StopReturned? || pc.Launching? ==> s.worker == NoWorker)
      && (pc.StopReturned? && pc.wasRunning ==> s.currentVibration == None)
      && (pc.Launching? ==> s.currentVibration == Some(pc.request))
  }

  /** The worker plays the request it was launched with. */
  ghost predicate PlaysItsRequest(s: State) {
    s.worker.Running? ==>
      && s.launched.Some? && s.currentVibration == s.launched
      && match s.worker.pc
         case Planned(plan) => plan == PlanOf(s.launched.value)
         case At(rest) => IsSuffix(rest, PlanOf(s.launched.value)) && Guarded(rest)
         case Waiting(rest) => IsSuffix(rest, PlanOf(s.launched.value)) && Guarded(rest)
         case _ => true
  }

  ghost predicate IsSuffix(rest: seq<Instr>, plan: seq<Instr>) {
    |rest| <= |plan| && rest == plan[|plan| - |rest|..]
  }

  /** Device starts made, or still possible before the next look at the flag, since the flag went up. */
  ghost predicate FewStarts(s: State) {
    && s.startsAfterFlag <= 1
    && (s.worker.Running? && !s.exitFlag ==> s.startsAfterFlag == 0)
    && (s.worker.Running? && s.exitFlag ==>
          match s.worker.pc
          case Fresh => s.startsAfterFlag == 0
          case Planned(_) => s.startsAfterFlag == 0
          case At(rest) => s.startsAfterFlag + StartsAhead(rest) <= 1
          case Waiting(rest) => s.startsAfterFlag + StartsAhead(rest) <= 1
          case _ => true)
  }

  /** Whoever leaves because of the flag has just stopped the device. */
  ghost predicate StopsOnLeaving(s: State) {
    s.worker.Running? && ((s.worker.pc.Leaving? || s.worker.pc.Ended?) && s.worker.pc.byFlag) ==>
      s.exitFlag && s.log != [] && s.log[|s.log| - 1].Stop?
  }

  ghost predicate Inv(s: State) {
    MutexesAgree(s) && FlagOwned(s) && CallersRight(s) && PlaysItsRequest(s) && FewStarts(s) && StopsOnLeaving(s)
  }

  lemma InitInv(s: State)
    requires Init(s)
    ensures Inv(s)
  {
  }

  lemma SuffixTail(rest: seq<Instr>, plan: seq<Instr>)
    requires IsSuffix(rest, plan) && rest != []
    ensures IsSuffix(rest[1..], plan)
  {
  }

  lemma QuietKeepsRequest(s: State, s': State)
    requires Inv(s) && QuietStep(s, s')
    ensures PlaysItsRequest(s') && FewStarts(s')
  {
    if s.worker.pc.At? && s.worker.pc.rest != [] {
      SuffixTail(s.worker.pc.rest, PlanOf(s.launched.value));
    }
    if s.worker.pc.Planned? {
      PlanGuarded(s.launched.value);
    }
  }

  lemma DeviceKeepsRequest(s: State, s': State)
    requires Inv(s) && DeviceStep(s, s')
    ensures PlaysItsRequest(s') && FewStarts(s')
  {
    SuffixTail(s.worker.pc.rest, PlanOf(s.launched.value));
  }

  lemma WorkerKeepsCallers(s: State, s': State)
    requires MutexesAgree(s) && FlagOwned(s) && CallersRight(s) && WorkerStep(s, s')
    ensures MutexesAgree(s') && FlagOwned(s') && CallersRight(s')
  {
    assert s'.callers == s.callers && s'.threadMutex == s.threadMutex && s'.exitFlag == s.exitFlag;
    assert forall c :: Caller(s', c) == Caller(s, c);
  }

  lemma WorkerKeepsInv(s: State, s': State)
    requires Inv(s) && WorkerStep(s, s')
    ensures Inv(s')
  {
    WorkerKeepsCallers(s, s');
    if QuietStep(s, s') {
      QuietKeepsRequest(s, s');
    } else {
      DeviceKeepsRequest(s, s');
    }
  }

  lemma CallerKeepsInv(s: State, s': State, c: int)
    requires Inv(s) && CallerStep(s, s', c)
    ensures Inv(s')
  {
    assert Caller(s, c) == Idle || s.threadMutex == Some(c);
    assert forall d :: d != c ==> Caller(s', d) == Caller(s, d);
  }

  /** Every step of every thread keeps the invariant. */
  lemma NextKeepsInv(s: State, s': State)
    requires Inv(s) && Next(s, s')
    ensures Inv(s')
  {
    if WorkerStep(s, s') {
      WorkerKeepsInv(s, s');
    } else {
      var c :| CallerStep(s, s', c);
      CallerKeepsInv(s, s', c);
    }
  }

  /** The invariant holds in every state of every run. */
  lemma {:induction false} RunInv(run: seq<State>, k: nat)
    requires IsRun(run) && k < |run|
    ensures Inv(run[k])
  {
    if k == 0 {
      InitInv(run[0]);
    } else {
      RunInv(run, k - 1);
      NextKeepsInv(run[k - 1], run[k]);
    }
  }

  // ----- the theorems -----

  /** When StopVibrateThread returns after finding the worker running, the worker has ended, its
      request is reset and the exit flag is down. */
  lemma StopMeansStopped(run: seq<State>, k: nat, c: int, op: Op)
    requires IsRun(run) && k < |run| && Caller(run[k], c) == StopReturned(op, true)
    ensures run[k].worker == NoWorker && run[k].currentVibration == None && !run[k].exitFlag
  {
    RunInv(run, k);
  }

  /** Every worker begins with the flag down, and with the request its starter gave. */
  lemma WorkersBeginClean(run: seq<State>, k: nat)
    requires IsRun(run) && k < |run| - 1
    requires run[k].worker == NoWorker && run[k + 1].worker != NoWorker
    ensures run[k + 1].worker == Running(Fresh) && !run[k + 1].exitFlag
    ensures exists c :: Caller(run[k], c).Launching?
                        && run[k + 1].currentVibration == Some(Caller(run[k], c).request) == run[k + 1].launched
  {
    RunInv(run, k);
    RunInv(run, k + 1);
    assert Next(run[k], run[k + 1]);
    var c :| CallerStep(run[k], run[k + 1], c);
    assert Caller(run[k], c).Launching?;
  }

  /** A launch never finds a worker still running: the request is not lost. */
  lemma LaunchAlwaysStarts(run: seq<State>, k: nat, c: int)
    requires IsRun(run) && k < |run| && Caller(run[k], c).Launching?
    ensures run[k].worker == NoWorker && !run[k].exitFlag
  {
    RunInv(run, k);
  }

  /** After the flag goes up a worker makes at most one more device start. */
  lemma AtMostOneStartAfterFlag(run: seq<State>, k: nat)
    requires IsRun(run) && k < |run|
    ensures run[k].startsAfterFlag <= 1
  {
    RunInv(run, k);
  }

  /** The last device call of a worker that returns because of the flag is Stop. */
  lemma LastCallIsStop(run: seq<State>, k: nat)
    requires IsRun(run) && k < |run|
    requires run[k].worker.Running? && run[k].worker.pc.Ended? && run[k].worker.pc.byFlag
    ensures run[k].log != [] && run[k].log[|run[k].log| - 1].Stop?
  {
    RunInv(run, k);
  }

  /** What is left for the worker to do is always a remainder of the plan of the request its starter gave. */
  lemma PlaysOnlyItsRequest(run: seq<State>, k: nat)
    requires IsRun(run) && k < |run|
    requires run[k].worker.Running? && run[k].worker.pc.At?
    ensures run[k].launched.Some? && IsSuffix(run[k].worker.pc.rest, PlanOf(run[k].launched.value))
  {
    RunInv(run, k);
  }

  // ----- the wait for the end of Run is short -----

  /** An upper bound on the worker steps left, once the flag is up. */
  function StepsLeft(s: State): nat {
    if s.worker == NoWorker then 0
    else match s.worker.pc
      case Fresh => 9
      case Planned(plan) => 8
      case At(rest) => StepsAhead(rest) + 2
      case Waiting(rest) => StepsAhead(rest) + 3
      case Leaving(_) => 2
      case Ended(_) => 1
  }

  lemma StepsLeftBounded(s: State)
    requires Inv(s)
    ensures StepsLeft(s) <= 9
  {
    assert s.worker.Running? && s.worker.pc.Waiting? ==> StepsAhead(s.worker.pc.rest) <= 5;
  }

  lemma FlagHurriesQuietSteps(s: State, s': State)
    requires Inv(s) && s.exitFlag && QuietStep(s, s')
    ensures StepsLeft(s') < StepsLeft(s)
  {
    if s.worker.pc.Planned? {
      PlanGuarded(s.launched.value);
    }
  }

  /** While the flag is up every worker step brings its end nearer, however long the request is. */
  lemma FlagHurriesWorker(s: State, s': State)
    requires Inv(s) && s.exitFlag && WorkerStep(s, s')
    ensures StepsLeft(s') < StepsLeft(s)
  {
    if QuietStep(s, s') {
      FlagHurriesQuietSteps(s, s');
    }
  }

  /** A caller that moves while the flag is up leaves the worker alone. */
  lemma CallersLeaveWorkerAlone(s: State, s': State, c: int)
    requires Inv(s) && s.exitFlag && CallerStep(s, s', c)
    ensures s'.worker == s.worker
  {
    assert Caller(s, c) == Idle || s.threadMutex == Some(c);
  }

  lemma StepsLeftStep(s: State, s': State)
    requires Inv(s) && s.exitFlag && Next(s, s')
    ensures (if s.worker != s'.worker then 1 else 0) + StepsLeft(s') <= StepsLeft(s)
  {
    if WorkerStep(s, s') {
      FlagHurriesWorker(s, s');
    } else {
      var c :| CallerStep(s, s', c);
      CallersLeaveWorkerAlone(s, s', c);
    }
  }

  /** A running worker is never stuck: some worker step is possible in every reachable state. */
  lemma WorkerNeverStuck(s: State)
    requires Inv(s) && s.worker.Running?
    ensures exists s' :: WorkerStep(s, s')
  {
    var pc := s.worker.pc;
    match pc {
      case Fresh =>
        var plan := if s.currentVibration.Some? then PlanOf(s.currentVibration.value) else [];
        assert WorkerStep(s, WithPc(s, Planned(plan)));
      case Planned(plan) =>
        assert WorkerStep(s, WithPc(s, At(plan)).(vibrateMutexHeld := true));
      case Waiting(rest) =>
        assert WorkerStep(s, WithPc(s, At(rest)).(vibrateMutexHeld := true));
      case Leaving(byFlag) =>
        assert WorkerStep(s, WithPc(s, Ended(byFlag)).(vibrateMutexHeld := false));
      case Ended(_) =>
        assert WorkerStep(s, s.(worker := NoWorker));
      case At(rest) =>
        if rest == [] {
          assert WorkerStep(s, WithPc(s, Leaving(false)));
        } else {
          InstructionPossible(s);
        }
    }
  }

  lemma InstructionPossible(s: State)
    requires s.worker.Running? && s.worker.pc.At? && s.worker.pc.rest != []
    ensures exists s' :: WorkerStep(s, s')
  {
    var rest := s.worker.pc.rest;
    match rest[0] {
      case Start(call) =>
        var s' := WithPc(s, At(rest[1..])).(log := s.log + [call],
                    startsAfterFlag := s.startsAfterFlag + if s.exitFlag then 1 else 0);
        assert StartDevice(s, s', true) && WorkerStep(s, s');
      case Wait(_) =>
        assert WorkerStep(s, WithPc(s, Waiting(rest[1..])).(vibrateMutexHeld := false));
      case Check(mode) =>
        var s' := if s.exitFlag then WithPc(s, Leaving(true)).(log := s.log + [Stop(mode)])
                  else WithPc(s, At(rest[1..]));
        assert WorkerStep(s, s');
      case Quiesce =>
        var s' := WithPc(s, At(rest[1..])).(log := s.log + []);
        assert QuietDevice(s, s', false) && WorkerStep(s, s');
    }
  }

  lemma StepsLeftBoundedAt(run: seq<State>, k: nat)
    requires IsRun(run) && k < |run|
    ensures StepsLeft(run[k]) <= 9
  {
    RunInv(run, k);
    StepsLeftBounded(run[k]);
  }

  /** 1 if the worker moves from run[k] to run[k + 1]. */
  function Moved(run: seq<State>, k: nat): nat
    requires k < |run| - 1
  {
    if run[k].worker != run[k + 1].worker then 1 else 0
  }

  function Moves(run: seq<State>, a: nat, b: nat): (r: seq<int>)
    requires a <= b < |run|
    ensures |r| == b - a && forall k :: 0 <= k < b - a ==> r[k] == Moved(run, a + k)
  {
    seq(b - a, k requires 0 <= k < b - a => Moved(run, a + k))
  }

  function Lefts(run: seq<State>, a: nat, b: nat): (r: seq<int>)
    requires a <= b < |run|
    ensures |r| == b - a + 1 && forall k :: 0 <= k <= b - a ==> r[k] == StepsLeft(run[a + k])
  {
    seq(b - a + 1, k requires 0 <= k <= b - a => StepsLeft(run[a + k]))
  }

  /** The number of worker steps in run[a..b]. */
  function WorkerSteps(run: seq<State>, a: nat, b: nat): int
    requires a <= b < |run|
  {
    Sum(Moves(run, a, b))
  }

  lemma MovesCountDown(run: seq<State>, a: nat, b: nat, k: nat)
    requires IsRun(run) && a <= b < |run| && k < b - a && run[a + k].exitFlag
    ensures Moves(run, a, b)[k] + Lefts(run, a, b)[k + 1] <= Lefts(run, a, b)[k]
  {
    StepsLeftAt(run, a + k);
    assert a + (k + 1) == a + k + 1;
  }

  lemma StepsLeftAt(run: seq<State>, k: nat)
    requires IsRun(run) && k < |run| - 1 && run[k].exitFlag
    ensures Moved(run, k) + StepsLeft(run[k + 1]) <= StepsLeft(run[k])
  {
    RunInv(run, k);
    StepsLeftStep(run[k], run[k + 1]);
  }

  lemma {:induction false} Countdown(steps: seq<int>, left: seq<int>)
    requires |left| == |steps| + 1 && left[|steps|] >= 0
    requires forall k :: 0 <= k < |steps| ==> 0 <= steps[k] && steps[k] + left[k + 1] <= left[k]
    ensures Sum(steps) + left[|steps|] <= left[0]
  {
    if steps != [] {
      assert steps[|steps| - 1] + left[|steps|] <= left[|steps| - 1];
      Countdown(steps[..|steps| - 1], left[..|steps|]);
    }
  }

  /** While the flag stays up the worker takes at most nine steps, whatever it is playing. */
  lemma WorkerEndsWithinNineSteps(run: seq<State>, a: nat, b: nat)
    requires IsRun(run) && a <= b < |run|
    requires forall k :: a <= k <= b ==> run[k].exitFlag
    ensures WorkerSteps(run, a, b) <= 9
  {
    forall k | 0 <= k < b - a
      ensures 0 <= Moves(run, a, b)[k] && Moves(run, a, b)[k] + Lefts(run, a, b)[k + 1] <= Lefts(run, a, b)[k]
    {
      assert run[a + k].exitFlag;
      MovesCountDown(run, a, b, k);
    }
    Countdown(Moves(run, a, b), Lefts(run, a, b));
    StepsLeftBoundedAt(run, a);
  }
}
