/** The device registry of MiscdeviceService and what each request does to it, as functions on values:
    the specification that the methods of class MiscdeviceService meet and over which whole runs of
    the service are reasoned about. */
module Registry {
  import opened Haptics
  import opened PriorityManager

  type int32 = x: int | -0x8000_0000 <= x < 0x8000_0000

  const ANY: int32 := -1                    // wildcard device or vibrator id in an identifier
  const INVALID_PID := -1
  const MAX_SUPPORT_CLIENT_NUM := 1024

  datatype VibratorInfo = VibratorInfo(deviceId: int32, vibratorId: int32, deviceName: string,
                                       isLocalVibrator: bool, position: int32)

  datatype Identifier = Identifier(deviceId: int32, vibratorId: int32, position: int32, isLocalVibrator: bool)

  /** What the driver reports of a vibrator. */
  datatype HdfVibratorInfo = HdfVibratorInfo(deviceId: int32, vibratorId: int32, isLocal: bool)

  datatype Thread = Thread(running: bool, info: VibrateInfo)

  datatype Device = Device(baseInfo: seq<VibratorInfo>, threads: map<int32, Thread>)

  type Devices = map<int32, Device>

  datatype ErrCode = ErrOk | Error

  datatype HdiMode = PresetMode | HdHapticMode

  /** A stop sent straight to the device, outside the vibrator threads. */
  datatype HdiStop = HdiStop(deviceId: int32, vibratorId: int32, mode: HdiMode)

  // ----- the registry invariant -----

  predicate Carries(base: seq<VibratorInfo>, v: int32) {
    exists k :: 0 <= k < |base| && base[k].vibratorId == v
  }

  /** The record of a device: some vibrators, all its own, and exactly one thread for each. Nothing ever
      sets a position, and the driver never uses the wildcard for an id. */
  ghost predicate DeviceOk(d: int32, device: Device) {
    && d != ANY
    && device.baseInfo != []
    && (forall k :: 0 <= k < |device.baseInfo| ==> device.baseInfo[k].deviceId == d)
    && (forall k :: 0 <= k < |device.baseInfo| ==> device.baseInfo[k].position == 0)
    && (forall v :: v in device.threads <==> Carries(device.baseInfo, v))
    && ANY !in device.threads
  }

  ghost predicate DevicesOk(ds: Devices) {
    forall d :: d in ds ==> DeviceOk(d, ds[d])
  }

  predicate Known(ds: Devices, d: int32, v: int32) {
    d in ds && v in ds[d].threads
  }

  /** The same devices and vibrators, whatever their threads are doing. */
  ghost predicate SameShape(a: Devices, b: Devices) {
    && a.Keys == b.Keys
    && forall d :: d in a ==> a[d].baseInfo == b[d].baseInfo && a[d].threads.Keys == b[d].threads.Keys
  }

  /** What a vibrator's thread is doing; nothing, when there is no such vibrator. */
  function ThreadOf(ds: Devices, d: int32, v: int32): Thread {
    if Known(ds, d, v) then ds[d].threads[v] else Thread(false, DefaultInfo)
  }

  predicate Resolve(ds: Devices, ts: seq<Identifier>) {
    forall k :: 0 <= k < |ts| ==> Known(ds, ts[k].deviceId, ts[k].vibratorId)
  }

  // ----- which vibrators an identifier means -----

  predicate IsSmallest(s: set<int32>, m: int32) {
    m in s && forall x :: x in s ==> m <= x
  }

  lemma {:induction false} HasSmallest(s: set<int32>) returns (m: int32)
    requires s != {}
    ensures IsSmallest(s, m)
    decreases |s|
  {
    m :| m in s;
    var rest := s - {m};
    if rest != {} {
      var b := HasSmallest(rest);
      assert forall x :: x in s ==> x == m || x in rest;
      m := if m <= b then m else b;
    } else {
      assert forall x :: x in s ==> x == m || x in rest;
    }
  }

  ghost function Smallest(s: set<int32>): (m: int32)
    requires s != {}
    ensures IsSmallest(s, m)
  {
    assert exists m :: IsSmallest(s, m) by { var m := HasSmallest(s); }
    var m :| IsSmallest(s, m);
    m
  }

  /** The order in which a std::map is walked. */
  ghost function InOrder(keys: set<int32>): seq<int32> {
    if keys == {} then [] else [Smallest(keys)] + InOrder(keys - {Smallest(keys)})
  }

  lemma {:induction false} InOrderHasAll(keys: set<int32>, x: int32)
    ensures x in InOrder(keys) <==> x in keys
  {
    if keys != {} {
      InOrderHasAll(keys - {Smallest(keys)}, x);
    }
  }

  function IdentifierOf(info: VibratorInfo): Identifier {
    Identifier(info.deviceId, info.vibratorId, info.position, info.isLocalVibrator)
  }

  predicate ShouldAdd(info: VibratorInfo, id: Identifier) {
    if id.deviceId == ANY && id.vibratorId != ANY then info.isLocalVibrator && info.vibratorId == id.vibratorId
    else if id.deviceId != ANY && id.vibratorId != ANY then info.vibratorId == id.vibratorId
    else if id.deviceId == ANY && id.vibratorId == ANY then info.isLocalVibrator
    else true
  }

  function Chosen(base: seq<VibratorInfo>, id: Identifier): seq<Identifier> {
    if base == [] then []
    else
      var last := base[|base| - 1];
      Chosen(base[..|base| - 1], id) + if ShouldAdd(last, id) then [IdentifierOf(last)] else []
  }

  function All(base: seq<VibratorInfo>): seq<Identifier> {
    seq(|base|, k requires 0 <= k < |base| => IdentifierOf(base[k]))
  }

  predicate IsVibratorIdValid(base: seq<VibratorInfo>, target: int32) {
    base != [] && (target == ANY || Carries(base, target))
  }

  /** What one device contributes when no device is named. */
  function FromDevice(base: seq<VibratorInfo>, id: Identifier): seq<Identifier> {
    if IsVibratorIdValid(base, id.vibratorId) then Chosen(base, id) else All(base)
  }

  function FromDevices(ds: Devices, keys: seq<int32>, id: Identifier): seq<Identifier> {
    if keys == [] then []
    else (if keys[0] in ds then FromDevice(ds[keys[0]].baseInfo, id) else []) + FromDevices(ds, keys[1..], id)
  }

  ghost function Targets(ds: Devices, id: Identifier): seq<Identifier> {
    if id.deviceId != ANY then
      if id.deviceId in ds then Chosen(ds[id.deviceId].baseInfo, id) else []
    else FromDevices(ds, InOrder(ds.Keys), id)
  }

  /** Whether the identifier means the k-th vibrator of device d: a wildcard device means the local
      ones, except that a device lacking the vibrator id asked for contributes all it has. */
  ghost predicate Wanted(ds: Devices, d: int32, k: int, id: Identifier) {
    && d in ds && 0 <= k < |ds[d].baseInfo|
    && var info := ds[d].baseInfo[k];
       if id.deviceId != ANY then d == id.deviceId && (id.vibratorId == ANY || info.vibratorId == id.vibratorId)
       else if id.vibratorId == ANY then info.isLocalVibrator
       else if Carries(ds[d].baseInfo, id.vibratorId) then info.isLocalVibrator && info.vibratorId == id.vibratorId
       else true
  }

  ghost predicate Selected(base: seq<VibratorInfo>, id: Identifier, t: Identifier) {
    exists k :: 0 <= k < |base| && ShouldAdd(base[k], id) && t == IdentifierOf(base[k])
  }

  lemma {:induction false} ChosenAre(base: seq<VibratorInfo>, id: Identifier, t: Identifier)
    ensures t in Chosen(base, id) <==> Selected(base, id, t)
  {
    if base != [] {
      var n := |base| - 1;
      ChosenAre(base[..n], id, t);
      if Selected(base[..n], id, t) {
        var k :| 0 <= k < n && ShouldAdd(base[..n][k], id) && t == IdentifierOf(base[..n][k]);
        assert base[k] == base[..n][k];
      }
      if Selected(base, id, t) {
        var k :| 0 <= k < |base| && ShouldAdd(base[k], id) && t == IdentifierOf(base[k]);
        assert k < n ==> base[..n][k] == base[k];
      }
    }
  }

  ghost predicate WantedAs(ds: Devices, id: Identifier, t: Identifier, d: int32) {
    exists k :: Wanted(ds, d, k, id) && t == IdentifierOf(ds[d].baseInfo[k])
  }

  lemma FromDeviceAre(ds: Devices, d: int32, id: Identifier, t: Identifier)
    requires d in ds && id.deviceId == ANY
    ensures t in FromDevice(ds[d].baseInfo, id) <==> WantedAs(ds, id, t, d)
  {
    var base := ds[d].baseInfo;
    if IsVibratorIdValid(base, id.vibratorId) {
      ChosenAre(base, id, t);
      if Selected(base, id, t) {
        var k :| 0 <= k < |base| && ShouldAdd(base[k], id) && t == IdentifierOf(base[k]);
        assert Wanted(ds, d, k, id);
      }
    } else {
      if t in All(base) {
        var k :| 0 <= k < |base| && All(base)[k] == t;
        assert Wanted(ds, d, k, id);
      }
      if WantedAs(ds, id, t, d) {
        var k :| Wanted(ds, d, k, id) && t == IdentifierOf(base[k]);
        assert All(base)[k] == t;
      }
    }
  }

  lemma {:induction false} FromDevicesAre(ds: Devices, keys: seq<int32>, id: Identifier, t: Identifier)
    requires id.deviceId == ANY
    ensures t in FromDevices(ds, keys, id) <==> exists d :: d in keys && WantedAs(ds, id, t, d)
  {
    if keys != [] {
      if keys[0] in ds {
        FromDeviceAre(ds, keys[0], id, t);
      }
      FromDevicesAre(ds, keys[1..], id, t);
    }
  }

  /** CheckDeviceIdIsValid finds exactly the vibrators meant. */
  lemma TargetsAreExactly(ds: Devices, id: Identifier, t: Identifier)
    ensures t in Targets(ds, id) <==> exists d, k :: Wanted(ds, d, k, id) && t == IdentifierOf(ds[d].baseInfo[k])
  {
    if id.deviceId != ANY {
      if id.deviceId in ds {
        var base := ds[id.deviceId].baseInfo;
        ChosenAre(base, id, t);
        if Selected(base, id, t) {
          var k :| 0 <= k < |base| && ShouldAdd(base[k], id) && t == IdentifierOf(base[k]);
          assert Wanted(ds, id.deviceId, k, id);
        }
      }
    } else {
      FromDevicesAre(ds, InOrder(ds.Keys), id, t);
      if t in Targets(ds, id) {
        var d :| d in InOrder(ds.Keys) && WantedAs(ds, id, t, d);
        InOrderHasAll(ds.Keys, d);
        var k :| Wanted(ds, d, k, id) && t == IdentifierOf(ds[d].baseInfo[k]);
      }
      if d, k :| Wanted(ds, d, k, id) && t == IdentifierOf(ds[d].baseInfo[k]) {
        InOrderHasAll(ds.Keys, d);
        assert d in InOrder(ds.Keys) && WantedAs(ds, id, t, d);
      }
    }
  }

  /** Every identifier CheckDeviceIdIsValid returns has a thread. */
  lemma TargetsResolve(ds: Devices, id: Identifier)
    requires DevicesOk(ds)
    ensures Resolve(ds, Targets(ds, id))
  {
    var ts := Targets(ds, id);
    forall j | 0 <= j < |ts| ensures Known(ds, ts[j].deviceId, ts[j].vibratorId) {
      TargetsAreExactly(ds, id, ts[j]);
      var d, k :| Wanted(ds, d, k, id) && ts[j] == IdentifierOf(ds[d].baseInfo[k]);
      assert Carries(ds[d].baseInfo, ts[j].vibratorId);
    }
  }

  lemma ShapeKeepsOk(a: Devices, b: Devices)
    requires DevicesOk(a) && SameShape(a, b)
    ensures DevicesOk(b)
  {
    forall d | d in b ensures DeviceOk(d, b[d]) {
      assert DeviceOk(d, a[d]);
      assert a[d].baseInfo == b[d].baseInfo;
    }
  }

  // ----- stopping -----

  /** ResetVibrateInfo: the package is left as it was. */
  function Reset(info: VibrateInfo): VibrateInfo {
    VibrateInfo(NoMode, "", INVALID_PID, -1, USAGE_UNKNOWN, false, 0, "", 0, 0, info.package)
  }

  function StopThread(t: Thread): Thread {
    if t.running then Thread(false, Reset(t.info)) else t
  }

  function WithThread(ds: Devices, d: int32, v: int32, t: Thread): (r: Devices)
    requires Known(ds, d, v)
    ensures SameShape(ds, r)
  {
    ds[d := ds[d].(threads := ds[d].threads[v := t])]
  }

  /** Devices that differ in one thread only. */
  lemma WithThreadIs(a: Devices, b: Devices, d: int32, v: int32)
    requires SameShape(a, b) && Known(a, d, v)
    requires forall d', v' :: d' != d || v' != v ==> ThreadOf(b, d', v') == ThreadOf(a, d', v')
    ensures b == WithThread(a, d, v, ThreadOf(b, d, v))
  {
    var c := WithThread(a, d, v, ThreadOf(b, d, v));
    forall d' | d' in b ensures b[d'] == c[d'] {
      forall v' | v' in b[d'].threads ensures b[d'].threads[v'] == c[d'].threads[v'] {
        assert ThreadOf(b, d', v') == ThreadOf(c, d', v');
      }
      assert b[d'].threads == c[d'].threads;
    }
  }

  function StopOne(ds: Devices, t: Identifier): (r: Devices)
    requires Known(ds, t.deviceId, t.vibratorId)
    ensures SameShape(ds, r)
  {
    WithThread(ds, t.deviceId, t.vibratorId, StopThread(ds[t.deviceId].threads[t.vibratorId]))
  }

  function StopAll(ds: Devices, ts: seq<Identifier>): (r: Devices)
    requires Resolve(ds, ts)
    ensures SameShape(ds, r)
  {
    if ts == [] then ds else StopOne(StopAll(ds, ts[..|ts| - 1]), ts[|ts| - 1])
  }

  function BothStops(t: Identifier, busy: set<(int32, int32)>): seq<HdiStop> {
    if (t.deviceId, t.vibratorId) in busy then
      [HdiStop(t.deviceId, t.vibratorId, PresetMode), HdiStop(t.deviceId, t.vibratorId, HdHapticMode)]
    else []
  }

  function HdiStops(ts: seq<Identifier>, busy: set<(int32, int32)>): seq<HdiStop> {
    if ts == [] then [] else HdiStops(ts[..|ts| - 1], busy) + BothStops(ts[|ts| - 1], busy)
  }

  /** StopVibratorByMode: a thread playing something else is left alone; so is one that has ended, when
      its device has too. */
  predicate StopsByMode(t: Thread, vibrating: bool, mode: Mode) {
    vibrating && t.info.mode == mode
  }

  function StopOneByMode(ds: Devices, t: Identifier, busy: set<(int32, int32)>, mode: Mode): (r: Devices)
    requires Known(ds, t.deviceId, t.vibratorId)
    ensures SameShape(ds, r)
  {
    var thread := ds[t.deviceId].threads[t.vibratorId];
    if StopsByMode(thread, thread.running || (t.deviceId, t.vibratorId) in busy, mode) then StopOne(ds, t) else ds
  }

  function StopAllByMode(ds: Devices, ts: seq<Identifier>, busy: set<(int32, int32)>, mode: Mode): (r: Devices)
    requires Resolve(ds, ts)
    ensures SameShape(ds, r)
  {
    if ts == [] then ds
    else StopOneByMode(StopAllByMode(ds, ts[..|ts| - 1], busy, mode), ts[|ts| - 1], busy, mode)
  }

  /** The stop sent to a device that is running what the request names: one, before the next target. */
  function StopOfMode(ds: Devices, t: Identifier, busy: set<(int32, int32)>, mode: Mode): seq<HdiStop> {
    if (t.deviceId, t.vibratorId) in busy && ThreadOf(ds, t.deviceId, t.vibratorId).info.mode == mode
    then [HdiStop(t.deviceId, t.vibratorId, PresetMode)] else []
  }

  function HdiStopsByMode(ds: Devices, ts: seq<Identifier>, busy: set<(int32, int32)>, mode: Mode): seq<HdiStop>
    requires Resolve(ds, ts)
  {
    if ts == [] then []
    else
      var front := ts[..|ts| - 1];
      HdiStopsByMode(ds, front, busy, mode) + StopOfMode(StopAllByMode(ds, front, busy, mode), ts[|ts| - 1], busy, mode)
  }

  // ----- starting -----

  /** What a start depends on besides the registry: whether the priority manager is ready, the
      switches, the caller, and which devices the driver says are running. */
  datatype StartEnv = StartEnv(ready: bool, settings: Settings, fromSystem: bool, busy: set<(int32, int32)>)

  predicate SpecialMode(mode: Mode) {
    mode == CustomHd || mode == CustomCompositeEffect || mode == CustomCompositeTime || mode == Butt
  }

  ghost predicate HasIndex(ps: seq<Pattern>, x: int) {
    exists p, e :: 0 <= p < |ps| && 0 <= e < |ps[p].events| && ps[p].events[e].index == x
  }

  function EventIndices(es: seq<Event>): (r: set<int>)
    ensures forall x :: x in r <==> exists e :: 0 <= e < |es| && es[e].index == x
  {
    set e | 0 <= e < |es| :: es[e].index
  }

  function PatternIndices(ps: seq<Pattern>): set<int> {
    if ps == [] then {} else PatternIndices(ps[..|ps| - 1]) + EventIndices(ps[|ps| - 1].events)
  }

  function UniqueIndices(info: VibrateInfo): set<int> {
    if SpecialMode(info.mode) then PatternIndices(info.package.patterns) else {}
  }

  predicate ShouldProcess(indices: set<int>, position: int32) {
    indices == {} || 0 in indices || position in indices
  }

  function ShouldIgnore(t: Thread, d: int32, v: int32, info: VibrateInfo, env: StartEnv): bool {
    env.ready
    && Decide(env.settings, env.fromSystem, info, t.running || (d, v) in env.busy, t.info) != Vibration
  }

  predicate IgnoresTarget(ds: Devices, t: Identifier, info: VibrateInfo, env: StartEnv)
    requires Known(ds, t.deviceId, t.vibratorId)
  {
    && ShouldProcess(UniqueIndices(info), t.position)
    && t.isLocalVibrator
    && ShouldIgnore(ds[t.deviceId].threads[t.vibratorId], t.deviceId, t.vibratorId, info, env)
  }

  predicate StartsTarget(ds: Devices, t: Identifier, info: VibrateInfo, env: StartEnv)
    requires Known(ds, t.deviceId, t.vibratorId)
  {
    ShouldProcess(UniqueIndices(info), t.position) && !IgnoresTarget(ds, t, info, env)
  }

  datatype Progress = Progress(devices: Devices, ignored: nat, stops: seq<HdiStop>)

  function StartOne(p: Progress, t: Identifier, info: VibrateInfo, env: StartEnv): (r: Progress)
    requires Known(p.devices, t.deviceId, t.vibratorId)
    ensures SameShape(p.devices, r.devices)
  {
    if IgnoresTarget(p.devices, t, info, env) then p.(ignored := p.ignored + 1)
    else if ShouldProcess(UniqueIndices(info), t.position) then
      p.(devices := WithThread(p.devices, t.deviceId, t.vibratorId, Thread(true, info)),
         stops := p.stops + BothStops(t, env.busy))
    else p
  }

  function StartAll(ds: Devices, ts: seq<Identifier>, info: VibrateInfo, env: StartEnv): (r: Progress)
    requires Resolve(ds, ts)
    ensures SameShape(ds, r.devices)
  {
    if ts == [] then Progress(ds, 0, []) else StartOne(StartAll(ds, ts[..|ts| - 1], info, env), ts[|ts| - 1], info, env)
  }

  // ----- plugging in and out -----

  function InfosOf(infos: seq<HdfVibratorInfo>, d: int32): seq<HdfVibratorInfo> {
    if infos == [] then []
    else
      var last := infos[|infos| - 1];
      InfosOf(infos[..|infos| - 1], d) + if last.deviceId == d then [last] else []
  }

  const DefaultInfo := VibrateInfo(NoMode, "", INVALID_PID, -1, USAGE_UNKNOWN, false, 0, "", 0, 0, Package([], 0))

  function VibratorIds(infos: seq<HdfVibratorInfo>): set<int32> {
    set k | 0 <= k < |infos| :: infos[k].vibratorId
  }

  /** VibratorControlInfo and ConvertToServerInfos; the position keeps its default. */
  function NewDevice(infos: seq<HdfVibratorInfo>, name: string): Device {
    Device(seq(|infos|, k requires 0 <= k < |infos| =>
             VibratorInfo(infos[k].deviceId, infos[k].vibratorId, name, infos[k].isLocal, 0)),
           map v | v in VibratorIds(infos) :: Thread(false, DefaultInfo))
  }

  function Insert(ds: Devices, d: int32, name: string, infos: seq<HdfVibratorInfo>): Devices {
    if d in ds || InfosOf(infos, d) == [] then ds else ds[d := NewDevice(InfosOf(infos, d), name)]
  }

  /** The driver's ids are its own, never the wildcard. */
  predicate Reported(infos: seq<HdfVibratorInfo>) {
    forall k :: 0 <= k < |infos| ==> infos[k].deviceId != ANY && infos[k].vibratorId != ANY
  }

  /** GetOnlineVibratorInfo over the first reports. */
  function InsertEach(ds: Devices, seen: seq<HdfVibratorInfo>, infos: seq<HdfVibratorInfo>): Devices {
    if seen == [] then ds
    else Insert(InsertEach(ds, seen[..|seen| - 1], infos), seen[|seen| - 1].deviceId, "", infos)
  }

  function GetOnline(ds: Devices, infos: seq<HdfVibratorInfo>): Devices {
    if ds != map[] then ds else InsertEach(ds, infos, infos)
  }

  /** An identifier for one vibrator. */
  function Vibrator(d: int32, v: int32): Identifier {
    Identifier(d, v, 0, false)
  }

  // ----- the whole service -----

  datatype State = State(devices: Devices, disabled: seq<int>, clients: map<int, int>, ready: bool)

  datatype Action =
    | Online(infos: seq<HdfVibratorInfo>)
    | PluggedIn(deviceId: int32, name: string, infos: seq<HdfVibratorInfo>)
    | PluggedOut(deviceId: int32)
    | StartRequest(id: Identifier, info: VibrateInfo, settings: Settings, fromSystem: bool, busy: set<(int32, int32)>)
    | StopRequest(id: Identifier)
    | StopByMode(id: Identifier, mode: Mode, busy: set<(int32, int32)>)
    | ClientJoined(client: int, pid: int)
    | ClientDied(client: int)
    | Disable(pid: int)
    | Enable(pid: int)
    | ManagerReady
    | Finished(d: int32, v: int32)         // a thread's Run comes to its own end

  function StopIfPid(t: Thread, pid: int): Thread {
    if pid != INVALID_PID && t.info.pid == pid then StopThread(t) else t
  }

  /** Every thread playing for that process is stopped. */
  function StopOwned(ds: Devices, pid: int): (r: Devices)
    ensures SameShape(ds, r)
  {
    map d | d in ds :: ds[d].(threads := map v | v in ds[d].threads :: StopIfPid(ds[d].threads[v], pid))
  }

  function FindClientPid(clients: map<int, int>, client: int): int {
    if client in clients then clients[client] else INVALID_PID
  }

  /** RegisterClientDeathRecipient for a caller with that process id. */
  function SaveClient(clients: map<int, int>, client: int, pid: int): map<int, int> {
    if pid < 0 || |clients| >= MAX_SUPPORT_CLIENT_NUM || client in clients then clients else clients[client := pid]
  }

  function IndexOf(s: seq<int>, x: int): (k: nat)
    ensures k <= |s| && (k < |s| ==> s[k] == x) && forall j :: 0 <= j < k ==> s[j] != x
  {
    if s == [] || s[0] == x then 0 else 1 + IndexOf(s[1..], x)
  }

  function WithoutFirst(s: seq<int>, x: int): seq<int> {
    var k := IndexOf(s, x);
    if k < |s| then s[..k] + s[k + 1..] else s
  }

  ghost predicate Ok(s: State) {
    && DevicesOk(s.devices)
    && (forall i, j :: 0 <= i < j < |s.disabled| ==> s.disabled[i] != s.disabled[j])
    && |s.clients| <= MAX_SUPPORT_CLIENT_NUM
    && (forall c :: c in s.clients ==> s.clients[c] >= 0)
  }

  function EnvOf(s: State, a: Action): StartEnv
    requires a.StartRequest?
  {
    StartEnv(s.ready, a.settings, a.fromSystem, a.busy)
  }

  /** What the environment may do: the driver reports its own ids only. */
  predicate Fits(a: Action) {
    && (a.Online? || a.PluggedIn? ==> Reported(a.infos))
    && (a.PluggedIn? ==> a.deviceId != ANY)
  }

  function StartOn(s: State, a: Action, ts: seq<Identifier>): State
    requires a.StartRequest? && Resolve(s.devices, ts)
  {
    if a.info.pid in s.disabled then s else s.(devices := StartAll(s.devices, ts, a.info, EnvOf(s, a)).devices)
  }

  function ResultOn(s: State, a: Action, ts: seq<Identifier>): ErrCode
    requires a.StartRequest? && Resolve(s.devices, ts)
  {
    if ts == [] || a.info.pid in s.disabled || StartAll(s.devices, ts, a.info, EnvOf(s, a)).ignored == |ts| then Error
    else ErrOk
  }

  ghost function StartStep(s: State, a: Action): State
    requires Ok(s) && a.StartRequest?
  {
    TargetsResolve(s.devices, a.id);
    StartOn(s, a, Targets(s.devices, a.id))
  }

  ghost function StopStep(s: State, id: Identifier): State
    requires Ok(s)
  {
    TargetsResolve(s.devices, id);
    s.(devices := StopAll(s.devices, Targets(s.devices, id)))
  }

  ghost function StopByModeStep(s: State, id: Identifier, mode: Mode, busy: set<(int32, int32)>): State
    requires Ok(s)
  {
    TargetsResolve(s.devices, id);
    s.(devices := StopAllByMode(s.devices, Targets(s.devices, id), busy, mode))
  }

  function DeathStep(s: State, client: int): State {
    s.(devices := StopOwned(s.devices, FindClientPid(s.clients, client)), clients := s.clients - {client})
  }

  function DisableStep(s: State, pid: int): State {
    s.(disabled := if pid in s.disabled then s.disabled else s.disabled + [pid])
  }

  function FinishStep(s: State, d: int32, v: int32): State {
    if Known(s.devices, d, v) then
      s.(devices := WithThread(s.devices, d, v, s.devices[d].threads[v].(running := false)))
    else s
  }

  ghost function Step(s: State, a: Action): State
    requires Ok(s)
  {
    match a
    case Online(infos) => s.(devices := GetOnline(s.devices, infos))
    case PluggedIn(d, name, infos) => s.(devices := Insert(s.devices, d, name, infos))
    case PluggedOut(d) => s.(devices := s.devices - {d})
    case StartRequest(_, _, _, _, _) => StartStep(s, a)
    case StopRequest(id) => StopStep(s, id)
    case StopByMode(id, mode, busy) => StopByModeStep(s, id, mode, busy)
    case ClientJoined(client, pid) => s.(clients := SaveClient(s.clients, client, pid))
    case ClientDied(client) => DeathStep(s, client)
    case Disable(pid) => DisableStep(s, pid)
    case Enable(pid) => s.(disabled := WithoutFirst(s.disabled, pid))
    case ManagerReady => s.(ready := true)
    case Finished(d, v) => FinishStep(s, d, v)
  }

  /** What StartVibrateThreadControl returns. */
  ghost function StartResult(s: State, a: Action): ErrCode
    requires Ok(s) && a.StartRequest?
  {
    TargetsResolve(s.devices, a.id);
    ResultOn(s, a, Targets(s.devices, a.id))
  }

  const Initial := State(map[], [], map[], false)
}
