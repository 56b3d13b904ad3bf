/** The vibrator service itself, its tables updated in place by the requests it serves. Each method is
    shown to take the service through the corresponding step of Registry. Requests hold the service's
    mutexes throughout, so each runs on its own; a thread may come to its end between any two. */
module MiscdeviceServices {
  import opened Haptics
  import opened PriorityManager
  import opened Registry
  import S = ServiceRuns
  import opened Wrappers

  lemma FirstOfOrder(ds: Devices, rest: set<int32>, d: int32, id: Identifier)
    requires rest <= ds.Keys && IsSmallest(rest, d)
    ensures FromDevices(ds, InOrder(rest), id)
         == FromDevice(ds[d].baseInfo, id) + FromDevices(ds, InOrder(rest - {d}), id)
  {
    assert Smallest(rest) == d;
    assert InOrder(rest) == [d] + InOrder(rest - {d});
    assert ([d] + InOrder(rest - {d}))[1..] == InOrder(rest - {d});
  }

  lemma StopAllNext(ds: Devices, ts: seq<Identifier>, i: nat)
    requires Resolve(ds, ts) && i < |ts|
    ensures Resolve(ds, ts[..i]) && Known(StopAll(ds, ts[..i]), ts[i].deviceId, ts[i].vibratorId)
    ensures Resolve(ds, ts[..i + 1]) && StopAll(ds, ts[..i + 1]) == StopOne(StopAll(ds, ts[..i]), ts[i])
  {
    assert ts[..i + 1][..i] == ts[..i];
  }

  lemma HdiStopsNext(ts: seq<Identifier>, i: nat, busy: set<(int32, int32)>)
    requires i < |ts|
    ensures HdiStops(ts[..i + 1], busy) == HdiStops(ts[..i], busy) + BothStops(ts[i], busy)
  {
    assert ts[..i + 1][..i] == ts[..i];
  }

  lemma StopStepOk(s: Registry.State, id: Identifier)
    requires Ok(s)
    ensures Ok(StopStep(s, id))
  {
    ShapeKeepsOk(s.devices, StopStep(s, id).devices);
  }

  /** The first i targets have been stopped by mode, and the devices that run sent their stops. */
  ghost predicate StoppedByMode(before: Devices, now: Devices, stops: seq<HdiStop>, ts: seq<Identifier>, i: nat,
                                busy: set<(int32, int32)>, mode: Mode)
    requires Resolve(before, ts) && i <= |ts|
  {
    && Resolve(before, ts[..i]) && now == StopAllByMode(before, ts[..i], busy, mode)
    && stops == HdiStopsByMode(before, ts[..i], busy, mode)
  }

  lemma StoppedByModeNext(before: Devices, now: Devices, stops: seq<HdiStop>, ts: seq<Identifier>, i: nat,
                          busy: set<(int32, int32)>, mode: Mode)
    requires Resolve(before, ts) && i < |ts| && StoppedByMode(before, now, stops, ts, i, busy, mode)
    ensures Known(now, ts[i].deviceId, ts[i].vibratorId)
    ensures StoppedByMode(before, StopOneByMode(now, ts[i], busy, mode), stops + StopOfMode(now, ts[i], busy, mode),
                          ts, i + 1, busy, mode)
  {
    assert ts[..i + 1][..i] == ts[..i];
  }

  lemma StopByModeStepOk(s: Registry.State, id: Identifier, mode: Mode, busy: set<(int32, int32)>)
    requires Ok(s)
    ensures Ok(StopByModeStep(s, id, mode, busy))
  {
    ShapeKeepsOk(s.devices, StopByModeStep(s, id, mode, busy).devices);
  }

  lemma StartAllNext(ds: Devices, ts: seq<Identifier>, info: VibrateInfo, env: StartEnv, i: nat)
    requires Resolve(ds, ts) && i < |ts|
    ensures Resolve(ds, ts[..i]) && Known(StartAll(ds, ts[..i], info, env).devices, ts[i].deviceId, ts[i].vibratorId)
    ensures Resolve(ds, ts[..i + 1])
    ensures StartAll(ds, ts[..i + 1], info, env) == StartOne(StartAll(ds, ts[..i], info, env), ts[i], info, env)
  {
    assert ts[..i + 1][..i] == ts[..i];
  }

  function After(stops: seq<HdiStop>, p: Progress): Progress {
    p.(stops := stops + p.stops)
  }

  lemma StartOneAfter(p: Progress, t: Identifier, info: VibrateInfo, env: StartEnv, stops: seq<HdiStop>)
    requires Known(p.devices, t.deviceId, t.vibratorId)
    ensures StartOne(After(stops, p), t, info, env) == After(stops, StartOne(p, t, info, env))
  {
    assert stops + (p.stops + BothStops(t, env.busy)) == stops + p.stops + BothStops(t, env.busy);
  }

  lemma StartStepOk(s: Registry.State, a: Action)
    requires Ok(s) && a.StartRequest?
    ensures Ok(StartStep(s, a))
  {
    S.StepKeepsOk(s, a);
  }

  lemma DeathStepOk(s: Registry.State, client: int)
    requires Ok(s)
    ensures Ok(DeathStep(s, client))
  {
    ShapeKeepsOk(s.devices, DeathStep(s, client).devices);
    assert (s.clients - {client}).Keys == s.clients.Keys - {client};
  }

  class MiscdeviceService {
    var devicesManageMap: Devices
    var disablePids: seq<int>
    var clientPidMap: map<int, int>
    var isVibrationPriorityReady: bool
    var hdiStops: seq<HdiStop>             // the stops sent straight to the devices, not by a thread

    constructor ()
      ensures Valid() && State() == Initial && hdiStops == []
    {
      devicesManageMap, disablePids, clientPidMap := map[], [], map[];
      isVibrationPriorityReady, hdiStops := false, [];
    }

    ghost function State(): Registry.State
      reads this
    {
      Registry.State(devicesManageMap, disablePids, clientPidMap, isVibrationPriorityReady)
    }

    ghost predicate Valid()
      reads this
    {
      Ok(State())
    }

    // ----- looking up -----

    method GetVibratorThread(id: Identifier) returns (thread: Option<Thread>)
      ensures thread == if Known(devicesManageMap, id.deviceId, id.vibratorId)
                        then Some(ThreadOf(devicesManageMap, id.deviceId, id.vibratorId)) else None
    {
      if id.deviceId in devicesManageMap {
        if id.vibratorId in devicesManageMap[id.deviceId].threads {
          return Some(devicesManageMap[id.deviceId].threads[id.vibratorId]);
        }
      }
      return None;
    }

    static method ProcessDevice(base: seq<VibratorInfo>, id: Identifier) returns (result: seq<Identifier>)
      ensures result == Chosen(base, id)
    {
      result := [];
      for i := 0 to |base|
        invariant result == Chosen(base[..i], id)
      {
        assert base[..i + 1][..i] == base[..i];
        if ShouldAdd(base[i], id) {
          result := result + [IdentifierOf(base[i])];
        }
      }
      assert base[..|base|] == base;
    }

    static method FromOneDevice(base: seq<VibratorInfo>, id: Identifier) returns (result: seq<Identifier>)
      ensures result == FromDevice(base, id)
    {
      if !IsVibratorIdValid(base, id.vibratorId) {
        result := [];
        for i := 0 to |base|
          invariant result == All(base[..i])
        {
          result := result + [IdentifierOf(base[i])];
        }
        assert base[..|base|] == base;
      } else {
        result := ProcessDevice(base, id);
      }
    }

    method FromEveryDevice(id: Identifier) returns (result: seq<Identifier>)
      ensures result == FromDevices(devicesManageMap, InOrder(devicesManageMap.Keys), id)
    {
      result := [];
      var rest := devicesManageMap.Keys;
      ghost var all := FromDevices(devicesManageMap, InOrder(rest), id);
      while rest != {}
        invariant rest <= devicesManageMap.Keys
        invariant result + FromDevices(devicesManageMap, InOrder(rest), id) == all
        decreases |rest|
      {
        ghost var least := Smallest(rest);
        var d :| d in rest && IsSmallest(rest, d);
        var more := FromOneDevice(devicesManageMap[d].baseInfo, id);
        FirstOfOrder(devicesManageMap, rest, d, id);
        Assoc(result, more, FromDevices(devicesManageMap, InOrder(rest - {d}), id));
        result := result + more;
        rest := rest - {d};
      }
      assert result + [] == result;
    }

    method CheckDeviceIdIsValid(id: Identifier) returns (result: seq<Identifier>)
      ensures result == Targets(devicesManageMap, id)
    {
      if id.deviceId != ANY {
        if id.deviceId in devicesManageMap {
          result := ProcessDevice(devicesManageMap[id.deviceId].baseInfo, id);
        } else {
          result := [];
        }
      } else {
        result := FromEveryDevice(id);
      }
    }

    // ----- stopping -----

    /** Notify the worker, wait for the end of its Run, clear the flag, forget what it played. */
    method StopVibrateThread(t: Identifier)
      requires Known(devicesManageMap, t.deviceId, t.vibratorId)
      modifies this`devicesManageMap
      ensures devicesManageMap == StopOne(old(devicesManageMap), t)
    {
      var thread := devicesManageMap[t.deviceId].threads[t.vibratorId];
      if thread.running {
        devicesManageMap := WithThread(devicesManageMap, t.deviceId, t.vibratorId, Thread(false, Reset(thread.info)));
      } else {
        WithThreadIs(devicesManageMap, devicesManageMap, t.deviceId, t.vibratorId);
      }
    }

    method StopHdi(t: Identifier, mode: HdiMode)
      modifies this`hdiStops
      ensures hdiStops == old(hdiStops) + [HdiStop(t.deviceId, t.vibratorId, mode)]
    {
      hdiStops := hdiStops + [HdiStop(t.deviceId, t.vibratorId, mode)];
    }

    method StopTarget(t: Identifier, busy: set<(int32, int32)>) returns (stopped: bool)
      requires Known(devicesManageMap, t.deviceId, t.vibratorId)
      modifies this`hdiStops, this`devicesManageMap
      ensures devicesManageMap == StopOne(old(devicesManageMap), t)
      ensures hdiStops == old(hdiStops) + BothStops(t, busy)
    {
      var thread := GetVibratorThread(t);
      if thread.None? || (!thread.value.running && (t.deviceId, t.vibratorId) !in busy) {
        WithThreadIs(devicesManageMap, devicesManageMap, t.deviceId, t.vibratorId);
        return false;
      }
      if (t.deviceId, t.vibratorId) in busy {
        StopHdi(t, PresetMode);
        StopHdi(t, HdHapticMode);
      }
      StopVibrateThread(t);
      return true;
    }

    method StopTargets(ts: seq<Identifier>, busy: set<(int32, int32)>) returns (ignoreVibrateNum: nat)
      requires Resolve(devicesManageMap, ts)
      modifies this`hdiStops, this`devicesManageMap
      ensures devicesManageMap == StopAll(old(devicesManageMap), ts)
      ensures hdiStops == old(hdiStops) + HdiStops(ts, busy)
    {
      ignoreVibrateNum := 0;
      ghost var before := devicesManageMap;
      for i := 0 to |ts|
        invariant Resolve(before, ts[..i]) && devicesManageMap == StopAll(before, ts[..i])
        invariant hdiStops == old(hdiStops) + HdiStops(ts[..i], busy)
      {
        StopAllNext(before, ts, i);
        HdiStopsNext(ts, i, busy);
        var stopped := StopTarget(ts[i], busy);
        if !stopped {
          ignoreVibrateNum := ignoreVibrateNum + 1;
        }
      }
      assert ts[..|ts|] == ts;
    }

    method StopFound(id: Identifier, busy: set<(int32, int32)>) returns (ret: ErrCode)
      requires Resolve(devicesManageMap, Targets(devicesManageMap, id))
      modifies this`hdiStops, this`devicesManageMap
      ensures devicesManageMap == StopAll(old(devicesManageMap), Targets(old(devicesManageMap), id))
      ensures ret == Error <==> Targets(old(devicesManageMap), id) == []
      ensures hdiStops == old(hdiStops) + HdiStops(Targets(old(devicesManageMap), id), busy)
    {
      var result := CheckDeviceIdIsValid(id);
      if result == [] {
        return Error;
      }
      var ignored := StopTargets(result, busy);
      return ErrOk;
    }

    method StopVibratorService(id: Identifier, busy: set<(int32, int32)>) returns (ret: ErrCode)
      requires Valid()
      modifies this`hdiStops, this`devicesManageMap
      ensures Valid() && State() == StopStep(old(State()), id)
      ensures ret == Error <==> Targets(old(devicesManageMap), id) == []
      ensures hdiStops == old(hdiStops) + HdiStops(Targets(old(devicesManageMap), id), busy)
    {
      TargetsResolve(devicesManageMap, id);
      StopStepOk(State(), id);
      ret := StopFound(id, busy);
    }

    /** One vibrator of StopVibratorByMode: the device is sent one stop, and only when the modes agree. */
    method StopTargetByMode(t: Identifier, busy: set<(int32, int32)>, mode: Mode)
      requires Known(devicesManageMap, t.deviceId, t.vibratorId)
      modifies this`hdiStops, this`devicesManageMap
      ensures devicesManageMap == StopOneByMode(old(devicesManageMap), t, busy, mode)
      ensures hdiStops == old(hdiStops) + StopOfMode(old(devicesManageMap), t, busy, mode)
    {
      var thread := GetVibratorThread(t);
      if thread.None? || (!thread.value.running && (t.deviceId, t.vibratorId) !in busy) {
        return;
      }
      if thread.value.info.mode != mode {
        return;
      }
      StopVibrateThread(t);
      if (t.deviceId, t.vibratorId) in busy {
        StopHdi(t, PresetMode);
      }
    }

    method StopTargetsByMode(ts: seq<Identifier>, busy: set<(int32, int32)>, mode: Mode)
      requires Resolve(devicesManageMap, ts)
      modifies this`hdiStops, this`devicesManageMap
      ensures devicesManageMap == StopAllByMode(old(devicesManageMap), ts, busy, mode)
      ensures hdiStops == old(hdiStops) + HdiStopsByMode(old(devicesManageMap), ts, busy, mode)
    {
      ghost var before, sent := devicesManageMap, hdiStops;
      ghost var stops: seq<HdiStop> := [];
      for i := 0 to |ts|
        invariant hdiStops == sent + stops
        invariant StoppedByMode(before, devicesManageMap, stops, ts, i, busy, mode)
      {
        StoppedByModeNext(before, devicesManageMap, stops, ts, i, busy, mode);
        ghost var more := StopOfMode(devicesManageMap, ts[i], busy, mode);
        StopTargetByMode(ts[i], busy, mode);
        Assoc(sent, stops, more);
        stops := stops + more;
      }
      assert ts[..|ts|] == ts;
    }

    method StopFoundByMode(id: Identifier, mode: Mode, busy: set<(int32, int32)>) returns (ret: ErrCode)
      requires Resolve(devicesManageMap, Targets(devicesManageMap, id))
      modifies this`hdiStops, this`devicesManageMap
      ensures devicesManageMap == StopAllByMode(old(devicesManageMap), Targets(old(devicesManageMap), id), busy, mode)
      ensures ret == Error <==> Targets(old(devicesManageMap), id) == []
      ensures hdiStops == old(hdiStops)
                        + HdiStopsByMode(old(devicesManageMap), Targets(old(devicesManageMap), id), busy, mode)
    {
      var ts := CheckDeviceIdIsValid(id);
      if ts == [] {
        return Error;
      }
      StopTargetsByMode(ts, busy, mode);
      return ErrOk;
    }

    method StopVibratorByMode(id: Identifier, mode: Mode, busy: set<(int32, int32)>) returns (ret: ErrCode)
      requires Valid()
      modifies this`hdiStops, this`devicesManageMap
      ensures Valid() && State() == StopByModeStep(old(State()), id, mode, busy)
      ensures ret == Error <==> Targets(old(devicesManageMap), id) == []
      ensures Resolve(old(devicesManageMap), Targets(old(devicesManageMap), id))
      ensures hdiStops == old(hdiStops)
                        + HdiStopsByMode(old(devicesManageMap), Targets(old(devicesManageMap), id), busy, mode)
    {
      TargetsResolve(devicesManageMap, id);
      StopByModeStepOk(State(), id, mode, busy);
      ret := StopFoundByMode(id, mode, busy);
    }

    // ----- starting -----

    static method CollectIndices(info: VibrateInfo) returns (uniqueIndices: set<int>)
      ensures uniqueIndices == UniqueIndices(info)
    {
      uniqueIndices := {};
      if SpecialMode(info.mode) {
        var ps := info.package.patterns;
        for i := 0 to |ps|
          invariant uniqueIndices == PatternIndices(ps[..i])
        {
          assert ps[..i + 1][..i] == ps[..i];
          var es := ps[i].events;
          for j := 0 to |es|
            invariant uniqueIndices == PatternIndices(ps[..i]) + EventIndices(es[..j])
          {
            assert EventIndices(es[..j + 1]) == EventIndices(es[..j]) + {es[j].index};
            uniqueIndices := uniqueIndices + {es[j].index};
          }
          assert es[..|es|] == es;
        }
        assert ps[..|ps|] == ps;
      }
    }

    method IgnoreVibrate(t: Identifier, info: VibrateInfo, env: StartEnv) returns (ignored: bool)
      requires env.ready == isVibrationPriorityReady
      requires Known(devicesManageMap, t.deviceId, t.vibratorId)
      ensures ignored == ShouldIgnore(ThreadOf(devicesManageMap, t.deviceId, t.vibratorId), t.deviceId, t.vibratorId,
                                      info, env)
    {
      if !isVibrationPriorityReady {
        return false;
      }
      var thread := GetVibratorThread(t);
      var vibrating := thread.value.running || (t.deviceId, t.vibratorId) in env.busy;
      var ret := PriorityManager.ShouldIgnoreVibrate(env.settings, env.fromSystem, info, vibrating, thread.value.info);
      return ret != Vibration;
    }

    method StartVibrateThread(t: Identifier, info: VibrateInfo, busy: set<(int32, int32)>)
      requires Known(devicesManageMap, t.deviceId, t.vibratorId)
      modifies this`hdiStops, this`devicesManageMap
      ensures devicesManageMap == WithThread(old(devicesManageMap), t.deviceId, t.vibratorId, Thread(true, info))
      ensures hdiStops == old(hdiStops) + BothStops(t, busy)
    {
      StopVibrateThread(t);
      if (t.deviceId, t.vibratorId) in busy {
        StopHdi(t, PresetMode);
        StopHdi(t, HdHapticMode);
      }
      devicesManageMap := WithThread(devicesManageMap, t.deviceId, t.vibratorId, Thread(true, info));
      WithThreadIs(old(devicesManageMap), devicesManageMap, t.deviceId, t.vibratorId);
    }

    method StartTarget(t: Identifier, info: VibrateInfo, uniqueIndices: set<int>, env: StartEnv, ignored: nat)
      returns (ignoreVibrateNum: nat)
      requires env.ready == isVibrationPriorityReady && uniqueIndices == UniqueIndices(info)
      requires Known(devicesManageMap, t.deviceId, t.vibratorId)
      modifies this`hdiStops, this`devicesManageMap
      ensures Progress(devicesManageMap, ignoreVibrateNum, hdiStops)
           == StartOne(Progress(old(devicesManageMap), ignored, old(hdiStops)), t, info, env)
    {
      ignoreVibrateNum := ignored;
      var shouldProcess := uniqueIndices == {} || 0 in uniqueIndices || t.position in uniqueIndices;
      if t.isLocalVibrator {
        var ignore := IgnoreVibrate(t, info, env);
        if ignore && shouldProcess {
          return ignoreVibrateNum + 1;
        }
      }
      if shouldProcess {
        StartVibrateThread(t, info, env.busy);
      }
    }

    method StartTargets(ts: seq<Identifier>, info: VibrateInfo, env: StartEnv) returns (ignoreVibrateNum: nat)
      requires env.ready == isVibrationPriorityReady && Resolve(devicesManageMap, ts)
      modifies this`hdiStops, this`devicesManageMap
      ensures Progress(devicesManageMap, ignoreVibrateNum, hdiStops)
           == After(old(hdiStops), StartAll(old(devicesManageMap), ts, info, env))
    {
      var uniqueIndices := CollectIndices(info);
      ghost var before, stops := devicesManageMap, hdiStops;
      ignoreVibrateNum := 0;
      for i := 0 to |ts|
        invariant Resolve(before, ts[..i])
        invariant Progress(devicesManageMap, ignoreVibrateNum, hdiStops)
               == After(stops, StartAll(before, ts[..i], info, env))
      {
        StartAllNext(before, ts, info, env, i);
        StartOneAfter(StartAll(before, ts[..i], info, env), ts[i], info, env, stops);
        ignoreVibrateNum := StartTarget(ts[i], info, uniqueIndices, env, ignoreVibrateNum);
      }
      assert ts[..|ts|] == ts;
    }

    method StartFound(a: Action) returns (ret: ErrCode)
      requires a.StartRequest? && Resolve(devicesManageMap, Targets(devicesManageMap, a.id))
      modifies this`hdiStops, this`devicesManageMap
      ensures State() == StartOn(old(State()), a, Targets(old(devicesManageMap), a.id))
      ensures ret == ResultOn(old(State()), a, Targets(old(devicesManageMap), a.id))
    {
      var result := CheckDeviceIdIsValid(a.id);
      if result == [] {
        return Error;
      }
      if a.info.pid in disablePids {
        return Error;
      }
      var env := StartEnv(isVibrationPriorityReady, a.settings, a.fromSystem, a.busy);
      var ignoreVibrateNum := StartTargets(result, a.info, env);
      return if ignoreVibrateNum == |result| then Error else ErrOk;
    }

    /** The request is a StartRequest: the identifier and the info, with what the priority manager, the
        caller's token and the driver answer while it is served. */
    method StartVibrateThreadControl(a: Action) returns (ret: ErrCode)
      requires Valid() && a.StartRequest?
      modifies this`hdiStops, this`devicesManageMap
      ensures Valid() && State() == StartStep(old(State()), a)
      ensures ret == StartResult(old(State()), a)
    {
      TargetsResolve(devicesManageMap, a.id);
      StartStepOk(State(), a);
      ret := StartFound(a);
    }

    // ----- devices coming and going -----

    method InsertVibratorInfo(d: int32, name: string, reported: seq<HdfVibratorInfo>)
      modifies this`devicesManageMap
      ensures devicesManageMap == Insert(old(devicesManageMap), d, name, reported)
    {
      var infos: seq<HdfVibratorInfo> := [];
      for i := 0 to |reported|
        invariant infos == if d in devicesManageMap then [] else InfosOf(reported[..i], d)
      {
        assert reported[..i + 1][..i] == reported[..i];
        if reported[i].deviceId !in devicesManageMap && reported[i].deviceId == d {
          infos := infos + [reported[i]];
        }
      }
      assert reported[..|reported|] == reported;
      if infos != [] {
        devicesManageMap := devicesManageMap[d := NewDevice(infos, name)];
      }
    }

    method GetOnlineVibratorInfo(reported: seq<HdfVibratorInfo>)
      requires Valid() && Reported(reported)
      modifies this`devicesManageMap
      ensures Valid() && State() == old(State()).(devices := GetOnline(old(devicesManageMap), reported))
    {
      S.StepKeepsOk(State(), Online(reported));
      if devicesManageMap != map[] {
        return;
      }
      for i := 0 to |reported|
        invariant devicesManageMap == InsertEach(map[], reported[..i], reported)
      {
        assert reported[..i + 1][..i] == reported[..i];
        if reported[i].deviceId !in devicesManageMap {
          InsertVibratorInfo(reported[i].deviceId, "", reported);
        }
      }
      assert reported[..|reported|] == reported;
    }

    /** One turn of the loop over the vibrators of a device. */
    method StopVibratorOf(d: int32, i: nat, v: int32, busy: set<(int32, int32)>, ghost before: Devices)
      requires Valid() && DevicesOk(before) && d in before && i < |before[d].baseInfo|
      requires v == before[d].baseInfo[i].vibratorId && S.StoppedSoFar(before, devicesManageMap, d, i)
      modifies this`hdiStops, this`devicesManageMap
      ensures Valid() && S.StoppedSoFar(before, devicesManageMap, d, i + 1)
    {
      S.StoppedNext(before, devicesManageMap, d, i);
      var ret := StopVibratorService(Vibrator(d, v), busy);
    }

    method StopVibratorsOf(d: int32, busy: set<(int32, int32)>)
      requires Valid() && d in devicesManageMap
      modifies this`hdiStops, this`devicesManageMap
      ensures Valid()
      ensures S.StoppedSoFar(old(devicesManageMap), devicesManageMap, d, |old(devicesManageMap)[d].baseInfo|)
    {
      ghost var before := devicesManageMap;
      var base := devicesManageMap[d].baseInfo;
      for i := 0 to |base|
        invariant Valid() && S.StoppedSoFar(before, devicesManageMap, d, i)
      {
        StopVibratorOf(d, i, base[i].vibratorId, busy, before);
      }
    }

    /** SendMsgToClient for a device that is gone: when its record goes, none of its threads is left
        running, and no other device is touched. */
    method DeviceGone(d: int32, busy: set<(int32, int32)>) returns (ghost last: Devices)
      requires Valid()
      modifies this`hdiStops, this`devicesManageMap
      ensures devicesManageMap == old(devicesManageMap) - {d}
      ensures d in old(devicesManageMap) ==> d in last && forall v :: v in last[d].threads ==> !last[d].threads[v].running
    {
      ghost var before := devicesManageMap;
      last := before;
      if d in devicesManageMap {
        StopVibratorsOf(d, busy);
        last := devicesManageMap;
        S.AllStopped(before, last, d);
        devicesManageMap := devicesManageMap - {d};
      } else {
        assert before - {d} == before;
      }
    }

    /** SendMsgToClient, up to telling the clients. */
    method SendMsgToClient(status: int, d: int32, name: string, reported: seq<HdfVibratorInfo>,
                           busy: set<(int32, int32)>)
      requires Valid() && Reported(reported) && d != ANY
      modifies this`hdiStops, this`devicesManageMap
      ensures Valid()
      ensures State() == old(State()).(devices :=
                if status == 0 then old(devicesManageMap) - {d} else Insert(old(devicesManageMap), d, name, reported))
    {
      if status == 0 {
        S.StepKeepsOk(State(), PluggedOut(d));
        ghost var last := DeviceGone(d, busy);
      } else {
        S.StepKeepsOk(State(), PluggedIn(d, name, reported));
        InsertVibratorInfo(d, name, reported);
      }
    }

    // ----- clients -----

    method TransferClientRemoteObject(client: int, pid: int) returns (ret: ErrCode)
      requires Valid()
      modifies this`clientPidMap
      ensures Valid() && clientPidMap == SaveClient(old(clientPidMap), client, pid)
      ensures ret == Error <==> pid < 0
    {
      S.StepKeepsOk(State(), ClientJoined(client, pid));
      if pid < 0 {
        return Error;
      }
      if |clientPidMap| < MAX_SUPPORT_CLIENT_NUM && client !in clientPidMap {
        clientPidMap := clientPidMap[client := pid];
      }
      return ErrOk;
    }

    method StopIfOwned(d: int32, v: int32, pid: int, busy: set<(int32, int32)>)
      requires Valid() && Known(devicesManageMap, d, v)
      modifies this`hdiStops, this`devicesManageMap
      ensures Valid() && S.OneOwned(old(devicesManageMap), devicesManageMap, d, v, pid)
    {
      var thread := devicesManageMap[d].threads[v];
      if pid != INVALID_PID && pid == thread.info.pid {
        S.StopVibratorChanges(devicesManageMap, d, v);
        var ret := StopVibratorService(Vibrator(d, v), busy);
      }
    }

    /** The threads of one device, in whatever order its table is walked. */
    method StopOwnedOn(d: int32, pid: int, busy: set<(int32, int32)>)
      requires Valid() && d in devicesManageMap
      modifies this`hdiStops, this`devicesManageMap
      ensures Valid() && S.DeviceOwned(old(devicesManageMap), devicesManageMap, d, {}, pid)
    {
      ghost var before := devicesManageMap;
      var rest := devicesManageMap[d].threads.Keys;
      S.OwnedBegin(before, d, pid);
      while rest != {}
        invariant Valid() && rest <= before[d].threads.Keys
        invariant S.DeviceOwned(before, devicesManageMap, d, rest, pid)
        decreases |rest|
      {
        var v :| v in rest;
        ghost var mid := devicesManageMap;
        StopIfOwned(d, v, pid, busy);
        S.DeviceOwnedNext(before, mid, devicesManageMap, d, v, rest, pid);
        rest := rest - {v};
      }
    }

    method StopOwnedEverywhere(pid: int, busy: set<(int32, int32)>)
      requires Valid()
      modifies this`hdiStops, this`devicesManageMap
      ensures devicesManageMap == StopOwned(old(devicesManageMap), pid)
    {
      ghost var before := devicesManageMap;
      var rest := devicesManageMap.Keys;
      S.OwnedBegin(before, 0, pid);
      while rest != {}
        invariant Valid() && rest <= before.Keys && S.AllOwned(before, devicesManageMap, rest, pid)
        decreases |rest|
      {
        var d :| d in rest;
        ghost var mid := devicesManageMap;
        StopOwnedOn(d, pid, busy);
        S.AllOwnedNext(before, mid, devicesManageMap, d, rest, pid);
        rest := rest - {d};
      }
      S.OwnedStopped(before, devicesManageMap, pid);
    }

    method ProcessDeathObserver(client: int, busy: set<(int32, int32)>)
      requires Valid()
      modifies this`hdiStops, this`devicesManageMap, this`clientPidMap
      ensures Valid() && State() == DeathStep(old(State()), client)
    {
      DeathStepOk(State(), client);
      var pid := FindClientPid(clientPidMap, client);
      StopOwnedEverywhere(pid, busy);
      if pid != INVALID_PID {
        clientPidMap := clientPidMap - {client};
      } else {
        assert clientPidMap - {client} == clientPidMap;
      }
    }

    // ----- disabled processes -----

    static method Find(s: seq<int>, x: int) returns (k: nat)
      ensures k == IndexOf(s, x)
    {
      k := 0;
      while k < |s| && s[k] != x
        invariant k <= |s| && forall j :: 0 <= j < k ==> s[j] != x
      {
        k := k + 1;
      }
    }

    method DisableVibratorByPid(pid: int)
      requires Valid()
      modifies this`disablePids
      ensures Valid() && State() == DisableStep(old(State()), pid)
    {
      S.StepKeepsOk(State(), Disable(pid));
      var k := Find(disablePids, pid);
      if k == |disablePids| {
        disablePids := disablePids + [pid];
      }
    }

    method EnableVibratorByPid(pid: int)
      requires Valid()
      modifies this`disablePids
      ensures Valid() && disablePids == WithoutFirst(old(disablePids), pid)
    {
      S.StepKeepsOk(State(), Enable(pid));
      var k := Find(disablePids, pid);
      if k < |disablePids| {
        disablePids := disablePids[..k] + disablePids[k + 1..];
      }
    }
  }
}
