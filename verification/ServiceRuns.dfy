/** Properties of the service over every run of requests, driver events and vibrations coming to their
    end: the registry stays sound, stops reach every thread they should, and priority holds. */
module ServiceRuns {
  import opened Haptics
  import opened PriorityManager
  import opened Registry

  // ----- what stops and starts do to one thread -----

  ghost predicate Names(ts: seq<Identifier>, d: int32, v: int32) {
    exists k :: 0 <= k < |ts| && ts[k].deviceId == d && ts[k].vibratorId == v
  }

  lemma NamesLast(ts: seq<Identifier>, d: int32, v: int32)
    requires ts != []
    ensures Names(ts, d, v)
       <==> Names(ts[..|ts| - 1], d, v) || (ts[|ts| - 1].deviceId == d && ts[|ts| - 1].vibratorId == v)
  {
    var n := |ts| - 1;
    if Names(ts[..n], d, v) {
      var k :| 0 <= k < n && ts[..n][k].deviceId == d && ts[..n][k].vibratorId == v;
      assert ts[k] == ts[..n][k];
    }
    if Names(ts, d, v) {
      var k :| 0 <= k < |ts| && ts[k].deviceId == d && ts[k].vibratorId == v;
      assert k < n ==> ts[..n][k] == ts[k];
    }
  }

  /** Stopping a list of vibrators stops each of them, whatever the order and however often named, and
      touches no other. */
  lemma {:induction false} StopAllAt(ds: Devices, ts: seq<Identifier>, d: int32, v: int32)
    requires Resolve(ds, ts) && Known(ds, d, v)
    ensures ThreadOf(StopAll(ds, ts), d, v)
         == if Names(ts, d, v) then StopThread(ThreadOf(ds, d, v)) else ThreadOf(ds, d, v)
  {
    if ts != [] {
      StopAllAt(ds, ts[..|ts| - 1], d, v);
      NamesLast(ts, d, v);
    }
  }

  lemma {:induction false} StopAllByModeAt(ds: Devices, ts: seq<Identifier>, busy: set<(int32, int32)>, mode: Mode,
                                           d: int32, v: int32)
    requires Resolve(ds, ts) && Known(ds, d, v)
    ensures ThreadOf(StopAllByMode(ds, ts, busy, mode), d, v)
         == if Names(ts, d, v) && ThreadOf(ds, d, v).info.mode == mode then StopThread(ThreadOf(ds, d, v))
            else ThreadOf(ds, d, v)
  {
    if ts != [] {
      StopAllByModeAt(ds, ts[..|ts| - 1], busy, mode, d, v);
      NamesLast(ts, d, v);
    }
  }

  /** Some target of the request is this vibrator and is not turned away. */
  ghost predicate Starts(ds: Devices, ts: seq<Identifier>, info: VibrateInfo, env: StartEnv, d: int32, v: int32)
    requires Resolve(ds, ts)
  {
    exists k :: 0 <= k < |ts| && ts[k].deviceId == d && ts[k].vibratorId == v && StartsTarget(ds, ts[k], info, env)
  }

  lemma StartsLast(ds: Devices, ts: seq<Identifier>, info: VibrateInfo, env: StartEnv, d: int32, v: int32)
    requires Resolve(ds, ts) && ts != []
    ensures Starts(ds, ts, info, env, d, v)
       <==> Starts(ds, ts[..|ts| - 1], info, env, d, v)
            || (ts[|ts| - 1].deviceId == d && ts[|ts| - 1].vibratorId == v && StartsTarget(ds, ts[|ts| - 1], info, env))
  {
    var n := |ts| - 1;
    if Starts(ds, ts[..n], info, env, d, v) {
      var k :| 0 <= k < n && ts[..n][k].deviceId == d && ts[..n][k].vibratorId == v
               && StartsTarget(ds, ts[..n][k], info, env);
      assert ts[k] == ts[..n][k];
    }
    if Starts(ds, ts, info, env, d, v) {
      var k :| 0 <= k < |ts| && ts[k].deviceId == d && ts[k].vibratorId == v && StartsTarget(ds, ts[k], info, env);
      assert k < n ==> ts[..n][k] == ts[k];
    }
  }

  lemma StartOneAt(p: Progress, t: Identifier, info: VibrateInfo, env: StartEnv, d: int32, v: int32)
    requires Known(p.devices, t.deviceId, t.vibratorId) && Known(p.devices, d, v)
    ensures ThreadOf(StartOne(p, t, info, env).devices, d, v)
         == if t.deviceId == d && t.vibratorId == v && StartsTarget(p.devices, t, info, env) then Thread(true, info)
            else ThreadOf(p.devices, d, v)
  {
  }

  lemma SameThreadSameAnswer(a: Devices, b: Devices, t: Identifier, info: VibrateInfo, env: StartEnv)
    requires Known(a, t.deviceId, t.vibratorId) && Known(b, t.deviceId, t.vibratorId)
    requires a[t.deviceId].threads[t.vibratorId] == b[t.deviceId].threads[t.vibratorId]
    ensures StartsTarget(a, t, info, env) == StartsTarget(b, t, info, env)
  {
  }

  /** A request decides about each vibrator by what was playing there when the request came, and either
      leaves its thread alone or has it play the request. */
  lemma {:induction false} StartAllAt(ds: Devices, ts: seq<Identifier>, info: VibrateInfo, env: StartEnv,
                                      d: int32, v: int32)
    requires Resolve(ds, ts) && Known(ds, d, v)
    ensures ThreadOf(StartAll(ds, ts, info, env).devices, d, v)
         == if Starts(ds, ts, info, env, d, v) then Thread(true, info) else ThreadOf(ds, d, v)
  {
    if ts != [] {
      var n := |ts| - 1;
      var p := StartAll(ds, ts[..n], info, env);
      StartAllAt(ds, ts[..n], info, env, d, v);
      StartsLast(ds, ts, info, env, d, v);
      StartOneAt(p, ts[n], info, env, d, v);
      if ts[n].deviceId == d && ts[n].vibratorId == v && !Starts(ds, ts[..n], info, env, d, v) {
        SameThreadSameAnswer(ds, p.devices, ts[n], info, env);
      }
    }
  }

  ghost predicate AllIgnored(ds: Devices, ts: seq<Identifier>, info: VibrateInfo, env: StartEnv)
    requires Resolve(ds, ts)
  {
    forall k :: 0 <= k < |ts| ==> IgnoresTarget(ds, ts[k], info, env)
  }

  lemma AllIgnoredLast(ds: Devices, ts: seq<Identifier>, info: VibrateInfo, env: StartEnv)
    requires Resolve(ds, ts) && ts != []
    ensures AllIgnored(ds, ts, info, env)
       <==> AllIgnored(ds, ts[..|ts| - 1], info, env) && IgnoresTarget(ds, ts[|ts| - 1], info, env)
  {
    assert forall k :: 0 <= k < |ts| - 1 ==> ts[..|ts| - 1][k] == ts[k];
  }

  lemma {:induction false} IgnoredCount(ds: Devices, ts: seq<Identifier>, info: VibrateInfo, env: StartEnv)
    requires Resolve(ds, ts)
    ensures StartAll(ds, ts, info, env).ignored <= |ts|
    ensures AllIgnored(ds, ts, info, env) ==> StartAll(ds, ts, info, env) == Progress(ds, |ts|, [])
    ensures StartAll(ds, ts, info, env).ignored == |ts| ==> AllIgnored(ds, ts, info, env)
  {
    if ts != [] {
      IgnoredCount(ds, ts[..|ts| - 1], info, env);
      AllIgnoredLast(ds, ts, info, env);
    }
  }

  /** StartVibrateThreadControl fails exactly when no vibrator is meant, the process is disabled, or every
      vibrator meant is local, asked to play and turned away; and then no thread has changed. */
  lemma FailsIff(s: State, a: Action)
    requires Ok(s) && a.StartRequest?
    ensures Resolve(s.devices, Targets(s.devices, a.id))
    ensures StartResult(s, a) == Error
       <==> || a.info.pid in s.disabled
            || AllIgnored(s.devices, Targets(s.devices, a.id), a.info, EnvOf(s, a))
    ensures StartResult(s, a) == Error ==> Step(s, a) == s
  {
    TargetsResolve(s.devices, a.id);
    IgnoredCount(s.devices, Targets(s.devices, a.id), a.info, EnvOf(s, a));
  }

  // ----- the registry stays sound -----

  lemma {:induction false} InfosOfAre(infos: seq<HdfVibratorInfo>, d: int32, x: HdfVibratorInfo)
    ensures x in InfosOf(infos, d) <==> x in infos && x.deviceId == d
  {
    if infos != [] {
      var n := |infos| - 1;
      InfosOfAre(infos[..n], d, x);
      assert infos == infos[..n] + [infos[n]];
    }
  }

  lemma InsertKeepsOk(ds: Devices, d: int32, name: string, infos: seq<HdfVibratorInfo>)
    requires DevicesOk(ds) && Reported(infos) && d != ANY
    ensures DevicesOk(Insert(ds, d, name, infos))
  {
    var own := InfosOf(infos, d);
    if d !in ds && own != [] {
      var device := NewDevice(own, name);
      forall k | 0 <= k < |own| ensures own[k].deviceId == d && own[k].vibratorId != ANY {
        assert own[k] in own;
        InfosOfAre(infos, d, own[k]);
        var j :| 0 <= j < |infos| && infos[j] == own[k];
      }
      forall v ensures v in device.threads <==> Carries(device.baseInfo, v) {
        if v in device.threads {
          var k :| 0 <= k < |own| && own[k].vibratorId == v;
          assert device.baseInfo[k].vibratorId == v;
        }
        if Carries(device.baseInfo, v) {
          var k :| 0 <= k < |device.baseInfo| && device.baseInfo[k].vibratorId == v;
          assert own[k].vibratorId == v;
        }
      }
      assert DeviceOk(d, device);
    }
  }

  lemma {:induction false} InsertEachKeepsOk(ds: Devices, seen: seq<HdfVibratorInfo>, infos: seq<HdfVibratorInfo>)
    requires DevicesOk(ds) && Reported(seen) && Reported(infos)
    ensures DevicesOk(InsertEach(ds, seen, infos))
  {
    if seen != [] {
      var n := |seen| - 1;
      assert forall k :: 0 <= k < n ==> seen[..n][k] == seen[k];
      InsertEachKeepsOk(ds, seen[..n], infos);
      InsertKeepsOk(InsertEach(ds, seen[..n], infos), seen[n].deviceId, "", infos);
    }
  }

  predicate ThreadsOnly(a: Action) {
    a.StartRequest? || a.StopRequest? || a.StopByMode? || a.ClientDied? || a.Finished?
  }

  lemma ThreadsOnlyKeepsShape(s: State, a: Action)
    requires Ok(s) && ThreadsOnly(a)
    ensures SameShape(s.devices, Step(s, a).devices)
  {
    if a.ClientDied? || a.Finished? {
      EnvironmentKeepsShape(s, a);
    }
  }

  lemma EnvironmentKeepsShape(s: State, a: Action)
    requires Ok(s) && (a.ClientDied? || a.Finished?)
    ensures SameShape(s.devices, Step(s, a).devices)
  {
  }

  lemma OtherStepKeepsOk(s: State, a: Action)
    requires Ok(s) && Fits(a) && !ThreadsOnly(a)
    ensures Ok(Step(s, a))
  {
    match a
    case Online(infos) =>
      if s.devices == map[] {
        InsertEachKeepsOk(s.devices, infos, infos);
      }
    case PluggedIn(d, name, infos) => InsertKeepsOk(s.devices, d, name, infos);
    case _ =>
  }

  lemma StepKeepsOk(s: State, a: Action)
    requires Ok(s) && Fits(a)
    ensures Ok(Step(s, a))
  {
    if ThreadsOnly(a) {
      ThreadsOnlyKeepsShape(s, a);
      ShapeKeepsOk(s.devices, Step(s, a).devices);
    } else {
      OtherStepKeepsOk(s, a);
    }
  }

  ghost predicate AllFit(run: seq<Action>) {
    forall i :: 0 <= i < |run| ==> Fits(run[i])
  }

  /** The state a run of actions leads to. In every state of every run, each device has some vibrators,
      all its own, and exactly one thread for each of them. */
  ghost function After(s: State, run: seq<Action>): (r: State)
    requires Ok(s) && AllFit(run)
    ensures Ok(r)
  {
    if run == [] then s
    else
      var before := After(s, run[..|run| - 1]);
      StepKeepsOk(before, run[|run| - 1]);
      Step(before, run[|run| - 1])
  }

  // ----- what an identifier reaches -----

  /** The identifier means that vibrator. */
  ghost predicate Means(ds: Devices, id: Identifier, d: int32, v: int32) {
    exists k :: Wanted(ds, d, k, id) && ds[d].baseInfo[k].vibratorId == v
  }

  lemma NamesWhatIsMeant(ds: Devices, id: Identifier, d: int32, v: int32)
    requires DevicesOk(ds)
    ensures Names(Targets(ds, id), d, v) <==> Means(ds, id, d, v)
  {
    var ts := Targets(ds, id);
    if Names(ts, d, v) {
      var j :| 0 <= j < |ts| && ts[j].deviceId == d && ts[j].vibratorId == v;
      TargetsAreExactly(ds, id, ts[j]);
      var d', k :| Wanted(ds, d', k, id) && ts[j] == IdentifierOf(ds[d'].baseInfo[k]);
      assert DeviceOk(d', ds[d']);
    }
    if Means(ds, id, d, v) {
      var k :| Wanted(ds, d, k, id) && ds[d].baseInfo[k].vibratorId == v;
      assert DeviceOk(d, ds[d]);
      TargetsAreExactly(ds, id, IdentifierOf(ds[d].baseInfo[k]));
      var j :| 0 <= j < |ts| && ts[j] == IdentifierOf(ds[d].baseInfo[k]);
    }
  }

  /** Naming one vibrator reaches that one alone. */
  lemma VibratorMeansItself(ds: Devices, d: int32, v: int32, d': int32, v': int32)
    requires DevicesOk(ds) && Known(ds, d, v)
    ensures Names(Targets(ds, Vibrator(d, v)), d', v') <==> d' == d && v' == v
  {
    NamesWhatIsMeant(ds, Vibrator(d, v), d', v');
    assert DeviceOk(d, ds[d]);
    if d' == d && v' == v {
      var k :| 0 <= k < |ds[d].baseInfo| && ds[d].baseInfo[k].vibratorId == v;
      assert Wanted(ds, d, k, Vibrator(d, v));
    }
  }

  lemma StopVibratorAt(ds: Devices, d: int32, v: int32, d': int32, v': int32)
    requires DevicesOk(ds) && Known(ds, d, v) && Known(ds, d', v')
    ensures Resolve(ds, Targets(ds, Vibrator(d, v)))
    ensures ThreadOf(StopAll(ds, Targets(ds, Vibrator(d, v))), d', v')
         == if d' == d && v' == v then StopThread(ThreadOf(ds, d', v')) else ThreadOf(ds, d', v')
  {
    TargetsResolve(ds, Vibrator(d, v));
    VibratorMeansItself(ds, d, v, d', v');
    StopAllAt(ds, Targets(ds, Vibrator(d, v)), d', v');
  }

  lemma CarriesLast(base: seq<VibratorInfo>, n: nat, v: int32)
    requires 0 < n <= |base|
    ensures Carries(base[..n], v) <==> Carries(base[..n - 1], v) || base[n - 1].vibratorId == v
  {
    if Carries(base[..n - 1], v) {
      var k :| 0 <= k < n - 1 && base[..n - 1][k].vibratorId == v;
      assert base[..n][k].vibratorId == v;
    }
    if base[n - 1].vibratorId == v {
      assert base[..n][n - 1].vibratorId == v;
    }
    if Carries(base[..n], v) {
      var k :| 0 <= k < n && base[..n][k].vibratorId == v;
      assert k < n - 1 ==> base[..n - 1][k].vibratorId == v;
    }
  }

  lemma SameDevice(ds: Devices, r: Devices, d: int32)
    requires SameShape(ds, r) && d in ds
    requires forall v :: ThreadOf(r, d, v) == ThreadOf(ds, d, v)
    ensures r[d] == ds[d]
  {
    forall v | v in ds[d].threads ensures r[d].threads[v] == ds[d].threads[v] {
      assert ThreadOf(r, d, v) == ThreadOf(ds, d, v);
    }
    assert r[d].threads == ds[d].threads;
  }

  lemma SameRest(ds: Devices, r: Devices, d: int32)
    requires SameShape(ds, r)
    requires forall d', v :: d' != d ==> ThreadOf(r, d', v) == ThreadOf(ds, d', v)
    ensures r - {d} == ds - {d}
  {
    forall d' | d' in ds && d' != d ensures r[d'] == ds[d'] {
      SameDevice(ds, r, d');
    }
  }

  /** The first n vibrators of device d have been stopped, and nothing else has happened. */
  ghost predicate StoppedSoFar(before: Devices, now: Devices, d: int32, n: nat)
    requires d in before && n <= |before[d].baseInfo|
  {
    && SameShape(before, now)
    && forall d', v :: ThreadOf(now, d', v)
                    == if d' == d && Carries(before[d].baseInfo[..n], v) then StopThread(ThreadOf(before, d', v))
                       else ThreadOf(before, d', v)
  }

  lemma StopVibratorChanges(ds: Devices, d: int32, v: int32)
    requires DevicesOk(ds) && Known(ds, d, v)
    ensures Resolve(ds, Targets(ds, Vibrator(d, v)))
    ensures forall d', v' :: ThreadOf(StopAll(ds, Targets(ds, Vibrator(d, v))), d', v')
                          == if d' == d && v' == v then StopThread(ThreadOf(ds, d', v')) else ThreadOf(ds, d', v')
  {
    TargetsResolve(ds, Vibrator(d, v));
    forall d', v' ensures ThreadOf(StopAll(ds, Targets(ds, Vibrator(d, v))), d', v')
                       == if d' == d && v' == v then StopThread(ThreadOf(ds, d', v')) else ThreadOf(ds, d', v') {
      if Known(ds, d', v') {
        StopVibratorAt(ds, d, v, d', v');
      }
    }
  }

  lemma StoppedNext(before: Devices, now: Devices, d: int32, n: nat)
    requires DevicesOk(before) && d in before && n < |before[d].baseInfo| && StoppedSoFar(before, now, d, n)
    ensures var id := Vibrator(d, before[d].baseInfo[n].vibratorId);
            Resolve(now, Targets(now, id)) && StoppedSoFar(before, StopAll(now, Targets(now, id)), d, n + 1)
  {
    var v := before[d].baseInfo[n].vibratorId;
    assert DeviceOk(d, before[d]) && Carries(before[d].baseInfo, v);
    ShapeKeepsOk(before, now);
    StopVibratorChanges(now, d, v);
    StoppedOneMore(before, now, StopAll(now, Targets(now, Vibrator(d, v))), d, n);
  }

  lemma StoppedOneMore(before: Devices, now: Devices, next: Devices, d: int32, n: nat)
    requires d in before && n < |before[d].baseInfo| && StoppedSoFar(before, now, d, n) && SameShape(now, next)
    requires var v := before[d].baseInfo[n].vibratorId;
             forall d', v' :: ThreadOf(next, d', v')
                           == if d' == d && v' == v then StopThread(ThreadOf(now, d', v')) else ThreadOf(now, d', v')
    ensures StoppedSoFar(before, next, d, n + 1)
  {
    forall d', v' ensures ThreadOf(next, d', v')
                       == if d' == d && Carries(before[d].baseInfo[..n + 1], v') then StopThread(ThreadOf(before, d', v'))
                          else ThreadOf(before, d', v') {
      CarriesLast(before[d].baseInfo, n + 1, v');
    }
  }

  /** Once all its vibrators have been stopped, none of a device's threads is running, and the other
      devices are as they were. */
  lemma AllStopped(before: Devices, now: Devices, d: int32)
    requires DevicesOk(before) && d in before && StoppedSoFar(before, now, d, |before[d].baseInfo|)
    ensures now - {d} == before - {d}
    ensures d in now && forall v :: v in now[d].threads ==> !now[d].threads[v].running
  {
    assert before[d].baseInfo[..|before[d].baseInfo|] == before[d].baseInfo && DeviceOk(d, before[d]);
    SameRest(before, now, d);
    forall v | v in now[d].threads ensures !now[d].threads[v].running {
      assert now[d].threads[v] == ThreadOf(now, d, v);
    }
  }

  /** Of the threads playing for that process, this one has been stopped. */
  ghost predicate OneOwned(before: Devices, now: Devices, d: int32, v: int32, pid: int) {
    && SameShape(before, now)
    && (forall d', v' :: d' != d || v' != v ==> ThreadOf(now, d', v') == ThreadOf(before, d', v'))
    && ThreadOf(now, d, v) == StopIfPid(ThreadOf(before, d, v), pid)
  }

  /** Those of device d have been stopped, except the ones still to come. */
  ghost predicate DeviceOwned(before: Devices, now: Devices, d: int32, rest: set<int32>, pid: int) {
    && SameShape(before, now)
    && (forall d', v :: d' != d || v in rest ==> ThreadOf(now, d', v) == ThreadOf(before, d', v))
    && (forall v :: v !in rest ==> ThreadOf(now, d, v) == StopIfPid(ThreadOf(before, d, v), pid))
  }

  /** Those of all devices have been stopped, except the devices still to come. */
  ghost predicate AllOwned(before: Devices, now: Devices, rest: set<int32>, pid: int) {
    && SameShape(before, now)
    && (forall d, v :: d in rest ==> ThreadOf(now, d, v) == ThreadOf(before, d, v))
    && (forall d, v :: d !in rest ==> ThreadOf(now, d, v) == StopIfPid(ThreadOf(before, d, v), pid))
  }

  lemma DeviceOwnedNext(before: Devices, mid: Devices, now: Devices, d: int32, v: int32, rest: set<int32>, pid: int)
    requires DeviceOwned(before, mid, d, rest, pid) && v in rest && OneOwned(mid, now, d, v, pid)
    ensures DeviceOwned(before, now, d, rest - {v}, pid)
  {
  }

  lemma AllOwnedNext(before: Devices, mid: Devices, now: Devices, d: int32, rest: set<int32>, pid: int)
    requires AllOwned(before, mid, rest, pid) && d in rest && DeviceOwned(mid, now, d, {}, pid)
    ensures AllOwned(before, now, rest - {d}, pid)
  {
  }

  lemma OwnedBegin(ds: Devices, d: int32, pid: int)
    ensures d in ds ==> DeviceOwned(ds, ds, d, ds[d].threads.Keys, pid)
    ensures AllOwned(ds, ds, ds.Keys, pid)
  {
  }

  lemma OwnedStopped(before: Devices, now: Devices, pid: int)
    requires AllOwned(before, now, {}, pid)
    ensures now == StopOwned(before, pid)
  {
    forall d | d in now ensures now[d] == StopOwned(before, pid)[d] {
      forall v ensures ThreadOf(now, d, v) == ThreadOf(StopOwned(before, pid), d, v) {
        assert ThreadOf(now, d, v) == StopIfPid(ThreadOf(before, d, v), pid);
      }
      SameDevice(StopOwned(before, pid), now, d);
    }
  }

  /** When a client dies whose process is on record, no thread is left playing for that process, and the
      threads playing for others are as they were. */
  lemma DeathStopsItsThreads(s: State, client: int, d: int32, v: int32)
    requires Ok(s) && Known(s.devices, d, v)
    ensures var before, after := ThreadOf(s.devices, d, v), ThreadOf(Step(s, ClientDied(client)).devices, d, v);
            if client in s.clients && before.info.pid == s.clients[client] then !after.running else after == before
  {
  }

  /** A client that joins past the limit of 1024 is not put on record, and its death stops nothing. */
  lemma UnrecordedClientKeepsPlaying(s: State, client: int, pid: int)
    requires Ok(s) && |s.clients| >= MAX_SUPPORT_CLIENT_NUM && client !in s.clients
    ensures Step(s, ClientJoined(client, pid)) == s
    ensures Step(s, ClientDied(client)) == s
  {
    OwnedStopped(s.devices, s.devices, INVALID_PID);
    assert s.clients - {client} == s.clients;
  }

  // ----- what starts and what ends a vibration -----

  ghost predicate StartsOn(s: State, a: Action, d: int32, v: int32)
    requires Ok(s)
  {
    && a.StartRequest? && a.info.pid !in s.disabled
    && Resolve(s.devices, Targets(s.devices, a.id))
    && Starts(s.devices, Targets(s.devices, a.id), a.info, EnvOf(s, a), d, v)
  }

  ghost predicate Plays(s: State, d: int32, v: int32) {
    ThreadOf(s.devices, d, v).running
  }

  /** The action ends what this vibrator is playing. */
  ghost predicate Ends(s: State, a: Action, d: int32, v: int32)
    requires Ok(s) && Plays(s, d, v)
  {
    var info := ThreadOf(s.devices, d, v).info;
    match a
    case Finished(d', v') => d' == d && v' == v
    case PluggedOut(d') => d' == d
    case StopRequest(id) => Means(s.devices, id, d, v)
    case StopByMode(id, mode, _) => Means(s.devices, id, d, v) && info.mode == mode
    case ClientDied(client) => client in s.clients && s.clients[client] == info.pid
    case _ => false
  }

  lemma StartOnAt(s: State, a: Action, ts: seq<Identifier>, d: int32, v: int32)
    requires a.StartRequest? && Resolve(s.devices, ts) && Known(s.devices, d, v)
    ensures ThreadOf(StartOn(s, a, ts).devices, d, v)
         == if a.info.pid !in s.disabled && Starts(s.devices, ts, a.info, EnvOf(s, a), d, v) then Thread(true, a.info)
            else ThreadOf(s.devices, d, v)
  {
    StartAllAt(s.devices, ts, a.info, EnvOf(s, a), d, v);
  }

  lemma StartsGoOn(s: State, a: Action, d: int32, v: int32)
    requires Ok(s) && a.StartRequest? && Known(s.devices, d, v)
    ensures ThreadOf(Step(s, a).devices, d, v)
         == if StartsOn(s, a, d, v) then Thread(true, a.info) else ThreadOf(s.devices, d, v)
  {
    StartStep(s, a);
    StartOnAt(s, a, Targets(s.devices, a.id), d, v);
  }

  lemma StartStep(s: State, a: Action)
    requires Ok(s) && a.StartRequest?
    ensures Resolve(s.devices, Targets(s.devices, a.id)) && Step(s, a) == StartOn(s, a, Targets(s.devices, a.id))
  {
    TargetsResolve(s.devices, a.id);
  }

  lemma StopAllMeant(ds: Devices, id: Identifier, d: int32, v: int32)
    requires DevicesOk(ds) && Known(ds, d, v)
    ensures Resolve(ds, Targets(ds, id)) && Known(StopAll(ds, Targets(ds, id)), d, v)
    ensures ThreadOf(StopAll(ds, Targets(ds, id)), d, v)
         == if Means(ds, id, d, v) then StopThread(ThreadOf(ds, d, v)) else ThreadOf(ds, d, v)
  {
    TargetsResolve(ds, id);
    NamesWhatIsMeant(ds, id, d, v);
    StopAllAt(ds, Targets(ds, id), d, v);
  }

  lemma StopRequestGoesOn(s: State, a: Action, d: int32, v: int32)
    requires Ok(s) && a.StopRequest? && Known(s.devices, d, v)
    ensures Known(Step(s, a).devices, d, v)
    ensures ThreadOf(Step(s, a).devices, d, v)
         == if Means(s.devices, a.id, d, v) then StopThread(ThreadOf(s.devices, d, v)) else ThreadOf(s.devices, d, v)
  {
    StopAllMeant(s.devices, a.id, d, v);
    StopStepIs(s, a);
  }

  lemma StopStepIs(s: State, a: Action)
    requires Ok(s) && a.StopRequest?
    ensures Resolve(s.devices, Targets(s.devices, a.id))
    ensures Step(s, a).devices == StopAll(s.devices, Targets(s.devices, a.id))
  {
    TargetsResolve(s.devices, a.id);
  }

  lemma StopAllByModeMeant(ds: Devices, id: Identifier, busy: set<(int32, int32)>, mode: Mode, d: int32, v: int32)
    requires DevicesOk(ds) && Known(ds, d, v)
    ensures Resolve(ds, Targets(ds, id)) && Known(StopAllByMode(ds, Targets(ds, id), busy, mode), d, v)
    ensures ThreadOf(StopAllByMode(ds, Targets(ds, id), busy, mode), d, v)
         == if Means(ds, id, d, v) && ThreadOf(ds, d, v).info.mode == mode then StopThread(ThreadOf(ds, d, v))
            else ThreadOf(ds, d, v)
  {
    TargetsResolve(ds, id);
    NamesWhatIsMeant(ds, id, d, v);
    StopAllByModeAt(ds, Targets(ds, id), busy, mode, d, v);
  }

  lemma StopByModeGoesOn(s: State, a: Action, d: int32, v: int32)
    requires Ok(s) && a.StopByMode? && Known(s.devices, d, v)
    ensures Known(Step(s, a).devices, d, v)
    ensures ThreadOf(Step(s, a).devices, d, v)
         == if Means(s.devices, a.id, d, v) && ThreadOf(s.devices, d, v).info.mode == a.mode
            then StopThread(ThreadOf(s.devices, d, v)) else ThreadOf(s.devices, d, v)
  {
    StopAllByModeMeant(s.devices, a.id, a.busy, a.mode, d, v);
    StopByModeStepIs(s, a);
  }

  lemma StopByModeStepIs(s: State, a: Action)
    requires Ok(s) && a.StopByMode?
    ensures Resolve(s.devices, Targets(s.devices, a.id))
    ensures Step(s, a).devices == StopAllByMode(s.devices, Targets(s.devices, a.id), a.busy, a.mode)
  {
    TargetsResolve(s.devices, a.id);
  }

  predicate Bookkeeping(a: Action) {
    a.ClientJoined? || a.Disable? || a.Enable? || a.ManagerReady?
  }

  predicate Adds(a: Action) {
    a.Online? || a.PluggedIn?
  }

  lemma InsertKeeps(ds: Devices, d: int32, name: string, infos: seq<HdfVibratorInfo>, d': int32, v: int32)
    ensures d' in ds ==> d' in Insert(ds, d, name, infos) && Insert(ds, d, name, infos)[d'] == ds[d']
    ensures ThreadOf(Insert(ds, d, name, infos), d', v).running == ThreadOf(ds, d', v).running
  {
  }

  lemma {:induction false} InsertEachKeeps(ds: Devices, seen: seq<HdfVibratorInfo>, infos: seq<HdfVibratorInfo>,
                                           d: int32, v: int32)
    ensures d in ds ==> d in InsertEach(ds, seen, infos) && InsertEach(ds, seen, infos)[d] == ds[d]
    ensures ThreadOf(InsertEach(ds, seen, infos), d, v).running == ThreadOf(ds, d, v).running
  {
    if seen != [] {
      var n := |seen| - 1;
      InsertEachKeeps(ds, seen[..n], infos, d, v);
      InsertKeeps(InsertEach(ds, seen[..n], infos), seen[n].deviceId, "", infos, d, v);
    }
  }

  /** A device that appears brings threads that are not running, and disturbs no other. */
  lemma AddsGoOn(s: State, a: Action, d: int32, v: int32)
    requires Ok(s) && Adds(a)
    ensures Known(s.devices, d, v)
            ==> Known(Step(s, a).devices, d, v) && Step(s, a).devices[d] == s.devices[d]
    ensures !Known(s.devices, d, v) ==> !Plays(Step(s, a), d, v)
  {
    if a.Online? {
      InsertEachKeeps(s.devices, a.infos, a.infos, d, v);
    } else {
      InsertKeeps(s.devices, a.deviceId, a.name, a.infos, d, v);
    }
  }

  /** A vibration that is playing goes on, unchanged, through every action except one that starts
      another on the same vibrator and one that ends it; and each of those takes effect at once. */
  lemma VibrationsGoOn(s: State, a: Action, d: int32, v: int32)
    requires Ok(s) && Fits(a) && Plays(s, d, v)
    ensures Plays(Step(s, a), d, v) <==> !Ends(s, a, d, v)
    ensures Plays(Step(s, a), d, v) ==>
              ThreadOf(Step(s, a).devices, d, v)
              == if StartsOn(s, a, d, v) then Thread(true, a.info) else ThreadOf(s.devices, d, v)
  {
    if a.StartRequest? {
      StartsGoOn(s, a, d, v);
    } else if a.StopRequest? {
      StopRequestGoesOn(s, a, d, v);
    } else if a.StopByMode? {
      StopByModeGoesOn(s, a, d, v);
    } else if Adds(a) {
      AddsGoOn(s, a, d, v);
    } else {
      OthersGoOn(s, a, d, v);
    }
  }

  lemma OthersGoOn(s: State, a: Action, d: int32, v: int32)
    requires Ok(s) && (Bookkeeping(a) || a.PluggedOut? || a.Finished? || a.ClientDied?)
    requires Plays(s, d, v)
    ensures Plays(Step(s, a), d, v) <==> !Ends(s, a, d, v)
    ensures !Ends(s, a, d, v) ==> ThreadOf(Step(s, a).devices, d, v) == ThreadOf(s.devices, d, v)
  {
    if a.ClientDied? {
      DeathGoesOn(s, a, d, v);
    }
  }

  lemma DeathGoesOn(s: State, a: Action, d: int32, v: int32)
    requires Ok(s) && a.ClientDied? && Plays(s, d, v)
    ensures Plays(Step(s, a), d, v) <==> !Ends(s, a, d, v)
    ensures !Ends(s, a, d, v) ==> ThreadOf(Step(s, a).devices, d, v) == ThreadOf(s.devices, d, v)
  {
    DeathStopsItsThreads(s, a.client, d, v);
  }

  /** Only a request that is let through makes a thread play something new. */
  lemma OnlyRequestsStart(s: State, a: Action, d: int32, v: int32)
    requires Ok(s) && Fits(a) && Plays(Step(s, a), d, v)
    ensures || (StartsOn(s, a, d, v) && ThreadOf(Step(s, a).devices, d, v) == Thread(true, a.info))
            || (Plays(s, d, v) && ThreadOf(Step(s, a).devices, d, v) == ThreadOf(s.devices, d, v))
  {
    if Plays(s, d, v) {
      VibrationsGoOn(s, a, d, v);
    } else if a.StartRequest? {
      KeepsKnown(s, a, d, v);
      StartsGoOn(s, a, d, v);
    } else if a.StopRequest? {
      KeepsKnown(s, a, d, v);
      StopRequestGoesOn(s, a, d, v);
    } else if a.StopByMode? {
      KeepsKnown(s, a, d, v);
      StopByModeGoesOn(s, a, d, v);
    } else if a.ClientDied? {
      KeepsKnown(s, a, d, v);
      DeathStopsItsThreads(s, a.client, d, v);
    } else if Adds(a) {
      AddsGoOn(s, a, d, v);
    }
  }

  lemma KeepsKnown(s: State, a: Action, d: int32, v: int32)
    requires Ok(s) && ThreadsOnly(a)
    ensures Known(Step(s, a).devices, d, v) <==> Known(s.devices, d, v)
  {
    ThreadsOnlyKeepsShape(s, a);
  }

  // ----- disabled processes -----

  lemma {:induction false} NotAfterRemoval(s: seq<int>, x: int)
    requires forall i, j :: 0 <= i < j < |s| ==> s[i] != s[j]
    ensures x !in WithoutFirst(s, x)
    ensures forall y :: y != x ==> (y in WithoutFirst(s, x) <==> y in s)
  {
    var k := IndexOf(s, x);
    if k < |s| {
      assert s == s[..k] + [s[k]] + s[k + 1..];
    }
  }

  lemma DisabledStays(s: State, a: Action, pid: int)
    requires Ok(s) && Fits(a) && pid in s.disabled && a != Enable(pid)
    ensures pid in Step(s, a).disabled
  {
    if a.Enable? {
      NotAfterRemoval(s.disabled, a.pid);
    }
  }

  /** From the moment a process is disabled until it is enabled again, each of its requests is refused
      and changes nothing, so no thread plays for it but those that already did and still play the same. */
  lemma {:induction false} DisabledNeverStarts(s: State, run: seq<Action>, pid: int, d: int32, v: int32)
    requires Ok(s) && AllFit(run) && pid in s.disabled
    requires Enable(pid) !in run
    ensures pid in After(s, run).disabled
    ensures forall a: Action :: a.StartRequest? && a.info.pid == pid ==>
              StartResult(After(s, run), a) == Error && Step(After(s, run), a) == After(s, run)
    ensures Plays(After(s, run), d, v) && ThreadOf(After(s, run).devices, d, v).info.pid == pid
            ==> ThreadOf(s.devices, d, v) == ThreadOf(After(s, run).devices, d, v)
  {
    if run != [] {
      var n := |run| - 1;
      var before := After(s, run[..n]);
      DisabledNeverStarts(s, run[..n], pid, d, v);
      DisabledStays(before, run[n], pid);
      if Plays(After(s, run), d, v) {
        OnlyRequestsStart(before, run[n], d, v);
      }
    }
  }

  // ----- priority -----

  /** Every record of this vibrator says that it is local. */
  ghost predicate Local(ds: Devices, d: int32, v: int32) {
    d in ds && forall k :: 0 <= k < |ds[d].baseInfo| && ds[d].baseInfo[k].vibratorId == v ==> ds[d].baseInfo[k].isLocalVibrator
  }

  lemma StartsOnlyLoops(s: State, a: Action, d: int32, v: int32)
    requires Ok(s) && s.ready && Local(s.devices, d, v) && StartsOn(s, a, d, v)
    requires Plays(s, d, v) && Protected(ThreadOf(s.devices, d, v).info)
    ensures IsLoopVibrate(a.info)
  {
    var ts := Targets(s.devices, a.id);
    var k :| 0 <= k < |ts| && ts[k].deviceId == d && ts[k].vibratorId == v
             && StartsTarget(s.devices, ts[k], a.info, EnvOf(s, a));
    TargetsAreExactly(s.devices, a.id, ts[k]);
    var d', j :| Wanted(s.devices, d', j, a.id) && ts[k] == IdentifierOf(s.devices[d'].baseInfo[j]);
    assert DeviceOk(d', s.devices[d']);
    AllowedIff(a.settings, a.fromSystem, a.info, true, s.devices[d].threads[v].info);
  }

  /** While it plays, a vibrator keeps its record. */
  lemma StaysLocal(s: State, a: Action, d: int32, v: int32)
    requires Ok(s) && Fits(a) && Local(s.devices, d, v) && d in Step(s, a).devices
    ensures Local(Step(s, a).devices, d, v)
  {
    if ThreadsOnly(a) {
      ThreadsOnlyKeepsShape(s, a);
    } else if a.Online? {
      InsertEachKeeps(s.devices, a.infos, a.infos, d, v);
    }
  }

  /** The vibrator is playing in every state of the run. */
  ghost predicate PlaysThroughout(s: State, run: seq<Action>, d: int32, v: int32)
    requires Ok(s) && AllFit(run)
  {
    && Plays(After(s, run), d, v)
    && (run != [] ==> PlaysThroughout(s, run[..|run| - 1], d, v))
  }

  /** From the start of an alarm or a looped preset on a local vibrator, for as long as that vibrator
      plays without a break, what plays on it is that vibration or a looped preset: nothing but a
      looped preset is let through to it. */
  lemma {:induction false} PriorityHolds(s: State, run: seq<Action>, d: int32, v: int32)
    requires Ok(s) && AllFit(run) && s.ready && Local(s.devices, d, v)
    requires Protected(ThreadOf(s.devices, d, v).info)
    requires PlaysThroughout(s, run, d, v)
    ensures var now := ThreadOf(After(s, run).devices, d, v);
            now == ThreadOf(s.devices, d, v) || IsLoopVibrate(now.info)
    ensures forall a: Action :: Fits(a) && StartsOn(After(s, run), a, d, v) ==> IsLoopVibrate(a.info)
  {
    StillProtected(s, run, d, v);
    var now := After(s, run);
    forall a: Action | Fits(a) && StartsOn(now, a, d, v) ensures IsLoopVibrate(a.info) {
      StartsOnlyLoops(now, a, d, v);
    }
  }

  lemma ProtectedStep(s: State, a: Action, d: int32, v: int32)
    requires Ok(s) && Fits(a) && s.ready && Local(s.devices, d, v)
    requires Plays(s, d, v) && Plays(Step(s, a), d, v) && Protected(ThreadOf(s.devices, d, v).info)
    ensures Step(s, a).ready && Local(Step(s, a).devices, d, v)
    ensures || ThreadOf(Step(s, a).devices, d, v) == ThreadOf(s.devices, d, v)
            || IsLoopVibrate(ThreadOf(Step(s, a).devices, d, v).info)
  {
    StaysLocal(s, a, d, v);
    VibrationsGoOn(s, a, d, v);
    if StartsOn(s, a, d, v) {
      StartsOnlyLoops(s, a, d, v);
    }
  }

  lemma {:induction false} StillProtected(s: State, run: seq<Action>, d: int32, v: int32)
    requires Ok(s) && AllFit(run) && s.ready && Local(s.devices, d, v)
    requires Protected(ThreadOf(s.devices, d, v).info)
    requires PlaysThroughout(s, run, d, v)
    ensures After(s, run).ready && Local(After(s, run).devices, d, v)
    ensures Protected(ThreadOf(After(s, run).devices, d, v).info)
    ensures ThreadOf(After(s, run).devices, d, v) == ThreadOf(s.devices, d, v)
            || IsLoopVibrate(ThreadOf(After(s, run).devices, d, v).info)
  {
    if run != [] {
      var n := |run| - 1;
      StillProtected(s, run[..n], d, v);
      ProtectedStep(After(s, run[..n]), run[n], d, v);
    }
  }

  // ----- indices -----

  /** The request is not in one of the special modes, or holds no event, or one of its events has
      index 0 and so names no motor. */
  ghost predicate MeantForAnyMotor(info: VibrateInfo) {
    var ps := info.package.patterns;
    info.mode == CustomHd || info.mode == CustomCompositeEffect || info.mode == CustomCompositeTime || info.mode == Butt
    ==> HasIndex(ps, 0) || forall k :: 0 <= k < |ps| ==> ps[k].events == []
  }

  lemma MeantForAnyMotorIff(info: VibrateInfo)
    ensures MeantForAnyMotor(info) <==> UniqueIndices(info) == {} || 0 in UniqueIndices(info)
  {
    var ps := info.package.patterns;
    IndicesAre(ps, 0);
    if k :| 0 <= k < |ps| && ps[k].events != [] {
      IndicesAre(ps, ps[k].events[0].index);
    } else {
      forall x ensures x !in PatternIndices(ps) {
        IndicesAre(ps, x);
      }
    }
  }

  /** Nothing ever gives a vibrator a position, so a request whose events all name a motor starts nothing,
      and still reports success; any other that succeeds starts a vibrator. */
  lemma SuccessStartsIff(s: State, a: Action)
    requires Ok(s) && a.StartRequest? && StartResult(s, a) == ErrOk
    ensures a.info.pid !in s.disabled && Resolve(s.devices, Targets(s.devices, a.id))
    ensures (exists d, v :: Starts(s.devices, Targets(s.devices, a.id), a.info, EnvOf(s, a), d, v))
       <==> MeantForAnyMotor(a.info)
    ensures !MeantForAnyMotor(a.info) ==> Step(s, a) == s
  {
    MeantForAnyMotorIff(a.info);
    TargetsResolve(s.devices, a.id);
    PositionsAreZero(s.devices, a.id);
    SuccessStartsOn(s, a, Targets(s.devices, a.id));
  }

  lemma SuccessStartsOn(s: State, a: Action, ts: seq<Identifier>)
    requires a.StartRequest? && Resolve(s.devices, ts) && ResultOn(s, a, ts) == ErrOk
    requires forall k :: 0 <= k < |ts| ==> ts[k].position == 0
    ensures (exists d, v :: Starts(s.devices, ts, a.info, EnvOf(s, a), d, v))
       <==> UniqueIndices(a.info) == {} || 0 in UniqueIndices(a.info)
    ensures UniqueIndices(a.info) != {} && 0 !in UniqueIndices(a.info) ==> StartOn(s, a, ts) == s
  {
    var env := EnvOf(s, a);
    IgnoredCount(s.devices, ts, a.info, env);
    if UniqueIndices(a.info) == {} || 0 in UniqueIndices(a.info) {
      var k :| 0 <= k < |ts| && !IgnoresTarget(s.devices, ts[k], a.info, env);
      assert Starts(s.devices, ts, a.info, env, ts[k].deviceId, ts[k].vibratorId);
    } else {
      NothingProcessed(s.devices, ts, a.info, env);
    }
  }

  lemma PositionsAreZero(ds: Devices, id: Identifier)
    requires DevicesOk(ds)
    ensures forall k :: 0 <= k < |Targets(ds, id)| ==> Targets(ds, id)[k].position == 0
  {
    var ts := Targets(ds, id);
    forall k | 0 <= k < |ts| ensures ts[k].position == 0 {
      TargetsAreExactly(ds, id, ts[k]);
      var d, j :| Wanted(ds, d, j, id) && ts[k] == IdentifierOf(ds[d].baseInfo[j]);
      assert DeviceOk(d, ds[d]);
    }
  }

  lemma {:induction false} NothingProcessed(ds: Devices, ts: seq<Identifier>, info: VibrateInfo, env: StartEnv)
    requires Resolve(ds, ts)
    requires forall k :: 0 <= k < |ts| ==> !ShouldProcess(UniqueIndices(info), ts[k].position)
    ensures StartAll(ds, ts, info, env) == Progress(ds, 0, [])
  {
    if ts != [] {
      var n := |ts| - 1;
      assert forall k :: 0 <= k < n ==> ts[..n][k] == ts[k];
      NothingProcessed(ds, ts[..n], info, env);
    }
  }

  lemma {:induction false} IndicesAre(ps: seq<Pattern>, x: int)
    ensures x in PatternIndices(ps) <==> HasIndex(ps, x)
  {
    if ps != [] {
      var n := |ps| - 1;
      IndicesAre(ps[..n], x);
      if HasIndex(ps[..n], x) {
        var p, e :| 0 <= p < n && 0 <= e < |ps[..n][p].events| && ps[..n][p].events[e].index == x;
        assert ps[p].events[e].index == x;
      }
      if x in EventIndices(ps[n].events) {
        var e :| 0 <= e < |ps[n].events| && ps[n].events[e].index == x;
        assert ps[n].events[e].index == x;
      }
      if HasIndex(ps, x) {
        var p, e :| 0 <= p < |ps| && 0 <= e < |ps[p].events| && ps[p].events[e].index == x;
        if p < n {
          assert ps[..n][p].events[e].index == x;
        }
      }
    }
  }
}
