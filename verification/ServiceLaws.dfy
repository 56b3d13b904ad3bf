/** What requests, stops and plugged-in devices come to, in terms of what the caller gave and the driver
    reported. */
module ServiceLaws {
  import opened Wrappers
  import opened Haptics
  import opened PriorityManager
  import opened Registry
  import opened ServiceRuns

  // ----- starting -----

  /** The k-th vibrator of the device is meant, and is not one that turns the request away: only local ones
      do, once the priority manager is ready. */
  ghost predicate LetsThrough(s: State, a: Action, d: int32, v: int32, k: int)
    requires a.StartRequest?
  {
    var t := ThreadOf(s.devices, d, v);
    && Wanted(s.devices, d, k, a.id) && s.devices[d].baseInfo[k].vibratorId == v
    && (s.devices[d].baseInfo[k].isLocalVibrator && s.ready ==>
          && SwitchesAllow(a.settings, a.fromSystem, a.info)
          && (t.running || (d, v) in a.busy ==> GivesWay(a.info, t.info)))
  }

  ghost predicate IsStarted(s: State, a: Action, d: int32, v: int32)
    requires a.StartRequest?
  {
    a.info.pid !in s.disabled && MeantForAnyMotor(a.info) && exists k :: LetsThrough(s, a, d, v, k)
  }

  lemma TargetStarts(s: State, a: Action, t: Identifier, thread: Thread)
    requires a.StartRequest? && Known(s.devices, t.deviceId, t.vibratorId) && t.position == 0
    requires thread == ThreadOf(s.devices, t.deviceId, t.vibratorId)
    ensures StartsTarget(s.devices, t, a.info, EnvOf(s, a))
       <==> && MeantForAnyMotor(a.info)
            && (t.isLocalVibrator && s.ready ==>
                  && SwitchesAllow(a.settings, a.fromSystem, a.info)
                  && (thread.running || (t.deviceId, t.vibratorId) in a.busy ==> GivesWay(a.info, thread.info)))
  {
    MeantForAnyMotorIff(a.info);
    AllowedIff(a.settings, a.fromSystem, a.info, thread.running || (t.deviceId, t.vibratorId) in a.busy, thread.info);
  }

  lemma StartedOnlyIf(s: State, a: Action, d: int32, v: int32)
    requires Ok(s) && a.StartRequest? && Known(s.devices, d, v) && StartsOn(s, a, d, v)
    ensures IsStarted(s, a, d, v)
  {
    var ts := Targets(s.devices, a.id);
    var j :| 0 <= j < |ts| && ts[j].deviceId == d && ts[j].vibratorId == v
             && StartsTarget(s.devices, ts[j], a.info, EnvOf(s, a));
    TargetsAreExactly(s.devices, a.id, ts[j]);
    var d', k :| Wanted(s.devices, d', k, a.id) && ts[j] == IdentifierOf(s.devices[d'].baseInfo[k]);
    assert DeviceOk(d', s.devices[d']);
    TargetStarts(s, a, ts[j], ThreadOf(s.devices, d, v));
    assert LetsThrough(s, a, d, v, k);
  }

  lemma StartedIf(s: State, a: Action, d: int32, v: int32)
    requires Ok(s) && a.StartRequest? && Known(s.devices, d, v) && IsStarted(s, a, d, v)
    ensures StartsOn(s, a, d, v)
  {
    var k :| LetsThrough(s, a, d, v, k);
    var t := IdentifierOf(s.devices[d].baseInfo[k]);
    assert DeviceOk(d, s.devices[d]);
    TargetsResolve(s.devices, a.id);
    TargetsAreExactly(s.devices, a.id, t);
    TargetStarts(s, a, t, ThreadOf(s.devices, d, v));
    var ts := Targets(s.devices, a.id);
    var j :| 0 <= j < |ts| && ts[j] == t;
    assert StartsTarget(s.devices, ts[j], a.info, EnvOf(s, a));
  }

  /** A start request has a vibrator play exactly when its process is not disabled, it is not meant for
      another motor, and the vibrator is among those it names and is free of the switches and of what
      plays there, or not local, or the priority manager is not ready; otherwise the vibrator goes on. */
  lemma StartedIff(s: State, a: Action, d: int32, v: int32)
    requires Ok(s) && a.StartRequest? && Known(s.devices, d, v)
    ensures ThreadOf(Step(s, a).devices, d, v)
         == if IsStarted(s, a, d, v) then Thread(true, a.info) else ThreadOf(s.devices, d, v)
  {
    StartsGoOn(s, a, d, v);
    if IsStarted(s, a, d, v) {
      StartedIf(s, a, d, v);
    }
    if StartsOn(s, a, d, v) {
      StartedOnlyIf(s, a, d, v);
    }
  }

  /** The k-th vibrator of the device is local and turns the request away. */
  ghost predicate TurnsAway(s: State, a: Action, d: int32, k: int)
    requires a.StartRequest? && d in s.devices && 0 <= k < |s.devices[d].baseInfo|
  {
    var base := s.devices[d].baseInfo[k];
    var t := ThreadOf(s.devices, d, base.vibratorId);
    && base.isLocalVibrator && s.ready && MeantForAnyMotor(a.info)
    && !(&& SwitchesAllow(a.settings, a.fromSystem, a.info)
         && (t.running || (d, base.vibratorId) in a.busy ==> GivesWay(a.info, t.info)))
  }

  lemma TargetTurnsAway(s: State, a: Action, t: Identifier, d: int32, k: int)
    requires Ok(s) && a.StartRequest? && Wanted(s.devices, d, k, a.id)
    requires t == IdentifierOf(s.devices[d].baseInfo[k])
    ensures Known(s.devices, t.deviceId, t.vibratorId)
    ensures IgnoresTarget(s.devices, t, a.info, EnvOf(s, a)) <==> TurnsAway(s, a, d, k)
  {
    assert DeviceOk(d, s.devices[d]) && Carries(s.devices[d].baseInfo, t.vibratorId);
    var thread := ThreadOf(s.devices, d, t.vibratorId);
    MeantForAnyMotorIff(a.info);
    AllowedIff(a.settings, a.fromSystem, a.info, thread.running || (d, t.vibratorId) in a.busy, thread.info);
  }

  /** A start request fails exactly when its process is disabled or every vibrator it names, possibly none,
      turns it away. */
  lemma FailsExactlyIff(s: State, a: Action)
    requires Ok(s) && a.StartRequest?
    ensures StartResult(s, a) == Error
       <==> || a.info.pid in s.disabled
            || forall d, k :: Wanted(s.devices, d, k, a.id) ==> TurnsAway(s, a, d, k)
  {
    var ts := Targets(s.devices, a.id);
    FailsIff(s, a);
    forall d, k | Wanted(s.devices, d, k, a.id) && AllIgnored(s.devices, ts, a.info, EnvOf(s, a))
      ensures TurnsAway(s, a, d, k)
    {
      var t := IdentifierOf(s.devices[d].baseInfo[k]);
      TargetsAreExactly(s.devices, a.id, t);
      TargetTurnsAway(s, a, t, d, k);
    }
    if forall d, k :: Wanted(s.devices, d, k, a.id) ==> TurnsAway(s, a, d, k) {
      forall j | 0 <= j < |ts| ensures IgnoresTarget(s.devices, ts[j], a.info, EnvOf(s, a)) {
        TargetsAreExactly(s.devices, a.id, ts[j]);
        var d, k :| Wanted(s.devices, d, k, a.id) && ts[j] == IdentifierOf(s.devices[d].baseInfo[k]);
        TargetTurnsAway(s, a, ts[j], d, k);
      }
    }
  }

  // ----- stopping -----

  /** What has been stopped leaves nothing behind: from then on the switches alone decide, even while the
      device is still running, and the end of no client and no mode concerns it. */
  lemma StoppedIsForgotten(t: Thread, s: Settings, fromSystem: bool, info: VibrateInfo, vibrating: bool)
    requires t.running
    ensures var stopped := StopThread(t);
            && !stopped.running && stopped.info.pid == -1 && stopped.info.mode == NoMode
            && (Decide(s, fromSystem, info, vibrating, stopped.info) == Vibration
                <==> SwitchesAllow(s, fromSystem, info))
  {
    AllowedIff(s, fromSystem, info, vibrating, StopThread(t).info);
  }

  ghost predicate IsStopped(ts: seq<Identifier>, busy: set<(int32, int32)>, h: HdiStop) {
    exists k :: 0 <= k < |ts| && ts[k].deviceId == h.deviceId && ts[k].vibratorId == h.vibratorId
                && (h.deviceId, h.vibratorId) in busy
  }

  /** Stops in both modes go straight to each device that is meant and running, and to no other. */
  lemma {:induction false} HdiStopsAre(ts: seq<Identifier>, busy: set<(int32, int32)>, h: HdiStop)
    ensures h in HdiStops(ts, busy) <==> IsStopped(ts, busy, h)
  {
    if ts != [] {
      var n := |ts| - 1;
      HdiStopsAre(ts[..n], busy, h);
      if IsStopped(ts[..n], busy, h) {
        var k :| 0 <= k < n && ts[..n][k].deviceId == h.deviceId && ts[..n][k].vibratorId == h.vibratorId
                 && (h.deviceId, h.vibratorId) in busy;
        assert ts[k] == ts[..n][k];
      }
      if IsStopped(ts, busy, h) {
        var k :| 0 <= k < |ts| && ts[k].deviceId == h.deviceId && ts[k].vibratorId == h.vibratorId
                 && (h.deviceId, h.vibratorId) in busy;
        assert k < n ==> ts[..n][k] == ts[k];
        assert k == n ==> BothStops(ts[n], busy)[if h.mode == HdiMode.PresetMode then 0 else 1] == h;
      }
    }
  }

  /** The vibrator is among those named, its device is running, and it plays in that mode. */
  ghost predicate IsStoppedByMode(ds: Devices, ts: seq<Identifier>, busy: set<(int32, int32)>, mode: Mode, h: HdiStop) {
    h.mode == HdiMode.PresetMode && Names(ts, h.deviceId, h.vibratorId) && (h.deviceId, h.vibratorId) in busy
    && ThreadOf(ds, h.deviceId, h.vibratorId).info.mode == mode
  }

  /** Stopping by mode sends a preset stop straight to each device that is meant, running, and plays in that
      mode, and to no other. */
  lemma {:induction false} HdiStopsByModeAre(ds: Devices, ts: seq<Identifier>, busy: set<(int32, int32)>, mode: Mode,
                                             h: HdiStop)
    requires Resolve(ds, ts) && Known(ds, h.deviceId, h.vibratorId)
    ensures h in HdiStopsByMode(ds, ts, busy, mode) <==> IsStoppedByMode(ds, ts, busy, mode, h)
  {
    if ts != [] {
      var front := ts[..|ts| - 1];
      HdiStopsByModeAre(ds, front, busy, mode, h);
      NamesLast(ts, h.deviceId, h.vibratorId);
      StopAllByModeAt(ds, front, busy, mode, h.deviceId, h.vibratorId);
    }
  }

  // ----- devices that appear -----

  lemma {:induction false} InfosOfFiltered(infos: seq<HdfVibratorInfo>, d: int32)
    ensures InfosOf(infos, d) == Filtered(infos, (i: HdfVibratorInfo) => i.deviceId == d)
  {
    if infos != [] {
      InfosOfFiltered(infos[..|infos| - 1], d);
    }
  }

  /** The record of a device as the driver reported it: each of its vibrators in order, local or not as
      reported, at position 0, and a thread for each, none of them running. */
  ghost predicate IsAsReported(device: Device, d: int32, name: string, own: seq<HdfVibratorInfo>) {
    && |device.baseInfo| == |own|
    && (forall k :: 0 <= k < |own| ==>
          var info := device.baseInfo[k];
          && info.deviceId == d && info.vibratorId == own[k].vibratorId && info.deviceName == name
          && info.isLocalVibrator == own[k].isLocal && info.position == 0)
    && (forall v :: v in device.threads <==> exists k :: 0 <= k < |own| && own[k].vibratorId == v)
    && (forall v :: v in device.threads ==> !device.threads[v].running)
  }

  lemma NewDeviceIsAsReported(own: seq<HdfVibratorInfo>, d: int32, name: string)
    requires forall k :: 0 <= k < |own| ==> own[k].deviceId == d
    ensures IsAsReported(NewDevice(own, name), d, name, own)
  {
  }

  /** A device that is plugged in is added, as reported, if it is not there and any vibrator was reported
      for it; no other device is touched. */
  lemma PluggedInIsReported(ds: Devices, d: int32, name: string, infos: seq<HdfVibratorInfo>)
    ensures var own := Filtered(infos, (i: HdfVibratorInfo) => i.deviceId == d);
            var after := Insert(ds, d, name, infos);
            && (d in after <==> d in ds || own != [])
            && (d in ds ==> after == ds)
            && (d !in ds && own != [] ==> IsAsReported(after[d], d, name, own))
            && (forall d' :: d' != d ==> (d' in after <==> d' in ds) && (d' in ds ==> after[d'] == ds[d']))
  {
    var own := InfosOf(infos, d);
    InfosOfFiltered(infos, d);
    forall k | 0 <= k < |own| ensures own[k].deviceId == d {
      InfosOfAre(infos, d, own[k]);
    }
    NewDeviceIsAsReported(own, d, name);
  }

  lemma {:induction false} EachIsReported(seen: seq<HdfVibratorInfo>, infos: seq<HdfVibratorInfo>, d: int32)
    requires forall k :: 0 <= k < |seen| ==> seen[k] in infos
    ensures var own := Filtered(infos, (i: HdfVibratorInfo) => i.deviceId == d);
            var after := InsertEach(map[], seen, infos);
            && (d in after <==> exists k :: 0 <= k < |seen| && seen[k].deviceId == d)
            && (d in after ==> IsAsReported(after[d], d, "", own))
  {
    if seen != [] {
      var n := |seen| - 1;
      assert forall k :: 0 <= k < n ==> seen[..n][k] == seen[k];
      EachIsReported(seen[..n], infos, d);
      PluggedInIsReported(InsertEach(map[], seen[..n], infos), seen[n].deviceId, "", infos);
      if seen[n].deviceId == d {
        InfosOfFiltered(infos, d);
        InfosOfAre(infos, d, seen[n]);
      }
    }
  }

  /** From empty tables, exactly the devices that the driver reports come online, each as reported. */
  lemma OnlineIsReported(infos: seq<HdfVibratorInfo>, d: int32)
    ensures var own := Filtered(infos, (i: HdfVibratorInfo) => i.deviceId == d);
            var after := GetOnline(map[], infos);
            && (d in after <==> exists k :: 0 <= k < |infos| && infos[k].deviceId == d)
            && (d in after ==> IsAsReported(after[d], d, "", own))
  {
    EachIsReported(infos, infos, d);
  }

  // ----- clients and disabled processes -----

  /** A client is put on record, with its process, unless the process id is negative, it is on record
      already, or 1024 clients are; nobody else's record changes. */
  lemma JoinedIsRecorded(clients: map<int, int>, client: int, pid: int)
    ensures var after := SaveClient(clients, client, pid);
            && (client in after <==> client in clients || (pid >= 0 && |clients| < 1024))
            && (client !in clients && client in after ==> after[client] == pid)
            && (forall c :: c in clients ==> c in after && after[c] == clients[c])
            && (forall c :: c in after && c != client ==> c in clients)
  {
  }

  lemma FilteredOne<T>(x: T, keep: T -> bool)
    requires !keep(x)
    ensures Filtered([x], keep) == []
  {
    assert [x][..0] == [];
  }

  lemma FilteredAround<T>(a: seq<T>, one: seq<T>, b: seq<T>, keep: T -> bool)
    requires Filtered(a, keep) == a && Filtered(one, keep) == [] && Filtered(b, keep) == b
    ensures Filtered(a + one + b, keep) == a + b
  {
    var front := a + one;
    FilteredJoin(a, one, keep);
    FilteredJoin(front, b, keep);
    assert a + [] == a;
  }

  lemma TakenOut<T>(a: seq<T>, x: T, b: seq<T>, keep: T -> bool)
    requires (forall k :: 0 <= k < |a| ==> keep(a[k])) && (forall k :: 0 <= k < |b| ==> keep(b[k])) && !keep(x)
    ensures Filtered(a + [x] + b, keep) == a + b
  {
    AllKept(a, keep);
    AllKept(b, keep);
    FilteredOne(x, keep);
    FilteredAround(a, [x], b, keep);
  }

  function OtherThan(pid: int): int -> bool {
    (p: int) => p != pid
  }

  lemma OthersAround(pids: seq<int>, k: nat, a: seq<int>, b: seq<int>)
    requires k < |pids| && forall j :: 0 <= j < |pids| && j != k ==> pids[j] != pids[k]
    requires a == pids[..k] && b == pids[k + 1..]
    ensures Filtered(pids, OtherThan(pids[k])) == a + b
  {
    TakenOut(a, pids[k], b, OtherThan(pids[k]));
    assert pids == a + [pids[k]] + b;
  }

  lemma WithoutAt(pids: seq<int>, k: nat)
    requires k < |pids| && forall j :: 0 <= j < |pids| && j != k ==> pids[j] != pids[k]
    ensures WithoutFirst(pids, pids[k]) == pids[..k] + pids[k + 1..]
  {
    assert IndexOf(pids, pids[k]) == k;
  }

  /** Of a list without repetitions, enabling takes out the one process and leaves the others in order. */
  lemma EnabledIsTakenOut(pids: seq<int>, pid: int)
    requires forall i, j :: 0 <= i < j < |pids| ==> pids[i] != pids[j]
    ensures WithoutFirst(pids, pid) == Filtered(pids, OtherThan(pid))
  {
    if k :| 0 <= k < |pids| && pids[k] == pid {
      OthersAround(pids, k, pids[..k], pids[k + 1..]);
      WithoutAt(pids, k);
    } else {
      AllKept(pids, OtherThan(pid));
    }
  }
}
