/** Who may vibrate while something else is vibrating (vibration_priority_manager.cpp). The switch
    values are what UpdateStatus has read; which process is calling is an input. */
module PriorityManager {
  import opened Haptics

  const USAGE_UNKNOWN := 0
  const USAGE_ALARM := 1
  const USAGE_RING := 2
  const USAGE_NOTIFICATION := 3
  const USAGE_COMMUNICATION := 4
  const USAGE_TOUCH := 5
  const USAGE_MEDIA := 6
  const USAGE_PHYSICAL_FEEDBACK := 7
  const USAGE_SIMULATE_REALITY := 8

  const RINGER_MODE_SILENT := 0
  const FEEDBACK_MODE_OFF := 0

  datatype Status =
    | Vibration | IgnoreGlobalSettings | IgnoreRepeat | IgnoreAlarm | IgnoreUnknown
    | IgnoreRingerMode | IgnoreFeedback | IgnoreVibratorMute

  datatype App = App(bundle: string, uid: int)

  datatype Settings = Settings(mute: bool, doNotDisturb: bool, whiteList: seq<App>, ringerMode: int, feedback: int)

  predicate IsLoopVibrate(info: VibrateInfo) {
    info.mode == Preset && info.count > 1
  }

  /** What nothing but a looped preset may replace. */
  predicate Protected(info: VibrateInfo) {
    info.usage == USAGE_ALARM || IsLoopVibrate(info)
  }

  predicate Rings(usage: int) {
    usage == USAGE_ALARM || usage == USAGE_RING || usage == USAGE_NOTIFICATION || usage == USAGE_COMMUNICATION
  }

  predicate GivesFeedback(usage: int) {
    || usage == USAGE_TOUCH || usage == USAGE_MEDIA || usage == USAGE_UNKNOWN
    || usage == USAGE_PHYSICAL_FEEDBACK || usage == USAGE_SIMULATE_REALITY
  }

  predicate Disturbs(s: Settings, info: VibrateInfo) {
    && (info.usage == USAGE_NOTIFICATION || info.usage == USAGE_RING)
    && s.doNotDisturb
    && App(info.packageName, info.uid) !in s.whiteList
  }

  method IgnoreAppVibrations(s: Settings, info: VibrateInfo) returns (ignored: bool)
    ensures ignored == Disturbs(s, info)
  {
    if info.usage != USAGE_NOTIFICATION && info.usage != USAGE_RING {
      return false;
    }
    if !s.doNotDisturb {
      return false;
    }
    for i := 0 to |s.whiteList|
      invariant forall j :: 0 <= j < i ==> s.whiteList[j] != App(info.packageName, info.uid)
    {
      if info.packageName == s.whiteList[i].bundle && info.uid == s.whiteList[i].uid {
        return false;
      }
    }
    return true;
  }

  /** What the switches alone say. */
  function BySettings(s: Settings, fromSystem: bool, info: VibrateInfo): Status {
    if Rings(info.usage) && s.mute then IgnoreVibratorMute
    else if fromSystem && info.systemUsage then Vibration
    else if Disturbs(s, info) then IgnoreGlobalSettings
    else if Rings(info.usage) && s.ringerMode == RINGER_MODE_SILENT then IgnoreRingerMode
    else if GivesFeedback(info.usage) && s.feedback == FEEDBACK_MODE_OFF then IgnoreFeedback
    else Vibration
  }

  /** What the vibration now playing says. */
  function ByCurrent(info: VibrateInfo, current: VibrateInfo): Status {
    if current.usage == USAGE_ALARM then IgnoreAlarm
    else if IsLoopVibrate(current) then IgnoreRepeat
    else if current.usage != info.usage && info.usage == USAGE_UNKNOWN then IgnoreUnknown
    else Vibration
  }

  /** vibrating: the thread is running, or the device is. */
  function Decide(s: Settings, fromSystem: bool, info: VibrateInfo, vibrating: bool, current: VibrateInfo): Status {
    var settings := BySettings(s, fromSystem, info);
    if settings != Vibration then settings
    else if !vibrating || IsLoopVibrate(info) then Vibration
    else ByCurrent(info, current)
  }

  method ShouldIgnoreVibrate(s: Settings, fromSystem: bool, info: VibrateInfo, vibrating: bool, current: VibrateInfo)
    returns (status: Status)
    ensures status == Decide(s, fromSystem, info, vibrating, current)
  {
    if Rings(info.usage) && s.mute {
      return IgnoreVibratorMute;
    }
    if !fromSystem || !info.systemUsage {
      var ignored := IgnoreAppVibrations(s, info);
      if ignored {
        return IgnoreGlobalSettings;
      }
      if Rings(info.usage) && s.ringerMode == RINGER_MODE_SILENT {
        return IgnoreRingerMode;
      }
      if GivesFeedback(info.usage) && s.feedback == FEEDBACK_MODE_OFF {
        return IgnoreFeedback;
      }
    }
    if !vibrating {
      return Vibration;
    }
    if IsLoopVibrate(info) {
      return Vibration;
    }
    return ByCurrent(info, current);
  }

  /** A request obeys the mute switch if its usage is one of 1 to 4: alarm, ring, notification and
      communication. Unless a system caller asks for system usage, it also obeys the do-not-disturb switch
      if its usage is ring or notification and the app is not on the white list, the ringer mode if its
      usage is one of 1 to 4, and the feedback switch if it is unknown, 0, or one of 5 to 8. */
  predicate SwitchesAllow(s: Settings, fromSystem: bool, info: VibrateInfo) {
    && (1 <= info.usage <= 4 ==> !s.mute)
    && (!(fromSystem && info.systemUsage) ==>
          && (2 <= info.usage <= 3 && s.doNotDisturb ==> App(info.packageName, info.uid) in s.whiteList)
          && (1 <= info.usage <= 4 ==> s.ringerMode != 0)
          && (info.usage == 0 || 5 <= info.usage <= 8 ==> s.feedback != 0))
  }

  /** What is playing gives way, unless the request is a looped preset: to any other request if it is
      neither an alarm nor a looped preset itself, and to one of unknown usage only if it is that, too. */
  predicate GivesWay(info: VibrateInfo, current: VibrateInfo) {
    || (info.mode == Preset && info.count > 1)
    || (&& current.usage != 1 && !(current.mode == Preset && current.count > 1)
        && (info.usage == 0 ==> current.usage == 0))
  }

  lemma SwitchesAllowIff(s: Settings, fromSystem: bool, info: VibrateInfo)
    ensures BySettings(s, fromSystem, info) == Vibration <==> SwitchesAllow(s, fromSystem, info)
  {
  }

  /** Whether a request gets through: the switches must allow it, and what is playing must give way. */
  lemma AllowedIff(s: Settings, fromSystem: bool, info: VibrateInfo, vibrating: bool, current: VibrateInfo)
    ensures Decide(s, fromSystem, info, vibrating, current) == Vibration
       <==> SwitchesAllow(s, fromSystem, info) && (vibrating ==> GivesWay(info, current))
    ensures vibrating && Protected(current) && Decide(s, fromSystem, info, vibrating, current) == Vibration
            ==> IsLoopVibrate(info)
  {
    SwitchesAllowIff(s, fromSystem, info);
  }

  /** Which status a request is given: mute goes before do-not-disturb, that before the ringer mode and that
      before feedback; then an alarm that plays before a looped preset, and that before unknown usage. */
  lemma StatusIs(s: Settings, fromSystem: bool, info: VibrateInfo, vibrating: bool, current: VibrateInfo)
    ensures var status := Decide(s, fromSystem, info, vibrating, current);
            var rings, free := 1 <= info.usage <= 4, fromSystem && info.systemUsage;
            var disturbs := 2 <= info.usage <= 3 && s.doNotDisturb && App(info.packageName, info.uid) !in s.whiteList;
            var playing := SwitchesAllow(s, fromSystem, info) && vibrating && !(info.mode == Preset && info.count > 1);
            var loops := current.mode == Preset && current.count > 1;
            && (status == IgnoreVibratorMute <==> rings && s.mute)
            && (status == IgnoreGlobalSettings <==> !(rings && s.mute) && !free && disturbs)
            && (status == IgnoreRingerMode <==> rings && !s.mute && !free && !disturbs && s.ringerMode == 0)
            && (status == IgnoreFeedback <==> (info.usage == 0 || 5 <= info.usage <= 8) && !free && s.feedback == 0)
            && (status == IgnoreAlarm <==> playing && current.usage == 1)
            && (status == IgnoreRepeat <==> playing && current.usage != 1 && loops)
            && (status == IgnoreUnknown <==>
                  playing && current.usage != 1 && !loops && info.usage == 0 && current.usage != 0)
  {
    SwitchesAllowIff(s, fromSystem, info);
  }

  /** What is protected is exactly what gives way to nothing but a looped preset. */
  lemma ProtectedIff(current: VibrateInfo)
    ensures Protected(current)
       <==> forall info :: GivesWay(info, current) ==> info.mode == Preset && info.count > 1
  {
    var other := current.(mode := NoMode);
    assert GivesWay(other, current) || Protected(current);
  }

  /** A system caller that asks for system usage is turned away by the mute switch alone; a ringing
      request by any other caller passes the switches only with the ringer on, nobody to disturb and
      no mute; no switch lets through more by being turned to its strict position. */
  lemma SwitchesOnlyRestrict(s: Settings, strict: Settings, fromSystem: bool, info: VibrateInfo,
                             vibrating: bool, current: VibrateInfo)
    requires s.mute ==> strict.mute
    requires s.doNotDisturb ==> strict.doNotDisturb
    requires forall a :: a in strict.whiteList ==> a in s.whiteList
    requires s.ringerMode == RINGER_MODE_SILENT ==> strict.ringerMode == RINGER_MODE_SILENT
    requires s.feedback == FEEDBACK_MODE_OFF ==> strict.feedback == FEEDBACK_MODE_OFF
    ensures Decide(strict, fromSystem, info, vibrating, current) == Vibration
            ==> Decide(s, fromSystem, info, vibrating, current) == Vibration
    ensures fromSystem && info.systemUsage && BySettings(s, fromSystem, info) != Vibration ==> s.mute
  {
  }
}
