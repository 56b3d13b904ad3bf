# The vibrator service, modelled and proved

This project models the haptic timing pipeline of the miscdevice service and the part of the service
that decides who vibrates, in Dafny 4.11. `dafny verify dfyconfig.toml` checks all of it.

| files | what they model |
|---|---|
| `Haptics`, `Wrappers` | packages of patterns of events of curve points, requests, the C++ arithmetic on them |
| `CurveMerge`, `CurveMergeProofs`, `CurveMergeValues` | merging the curves of overlapping events |
| `MixedWave`, `MixRuns`, `FlatEvents` | turning a package into one flat list of events, and how the list follows from the runs that join |
| `CompositeEffects` | delay-encoded effects made from the flat list |
| `Slicing`, `SlicingProofs` | cutting a continuous event into run-length coded slices |
| `Playback`, `Schedules` | what one vibrator thread does with the device, loop by loop, and when |
| `StopProtocol`, `StopProtocolProofs` | worker and callers interleaving over the exit flag and the mutexes |
| `PriorityManager`, `Registry`, `ServiceRuns`, `ServiceLaws`, `MiscdeviceServices` | the device table, stops, starts, priority, clients |
| `Seek`, `SeekEvents`, `ClientStructs`, `SeekMethods` | seeking in a package, over values and over the client's C structures |
| `Modulate`, `ModulateMethods`, `ModulatePackage` | modulating a package by a step curve, with its allocations |
| `OhDecoder`, `EndToEnd` | the OH decoder, and playing what it delivers |
| `HeDecoder`, `HeProofs`, `HeRange` | the HE decoder, and playing what it delivers |
| `ParcelCodec`, `Parcels` | writing packages to a parcel and reading them back |
| `Converter`, `ConverterProofs` | the OH / HE 1 / HE 2 format converter |

A loop of the source is a method with a loop, proved equal to a function of its inputs; what the source
promises is then proved of that function. The service is a class whose methods are proved to take its
state through the steps of a transition function, over which whole runs are reasoned about. The
Values are stated over the integers, without the division or the rounding that computes them
(`Haptics.IsQuotient`, `Haptics.IsPercent`). The
stop/start protocol is a transition relation whose steps are the points between which other threads can
run. Every claim below is for all inputs, all runs or all reachable states unless it names an example.

How the source is read:

- The build is the one with the HDI vibrator interface and custom vibration, without preset information,
  input-method support and crown.
- Floating-point code is modelled over the reals, followed by truncation toward zero; 32-bit integers are
  unbounded, so overflow of absurd times is not modelled (the ids of devices and vibrators are bounded).
- `std::sort` is some sorted permutation. A `std::map` is walked in the order of its keys, a
  `std::unordered_map` in any order.
- Device calls are a logged trace. Whether a device is running, whether it accepts a start and when the
  exit flag is seen are inputs; so are the switches of the priority manager and who is calling.
- The client's C structures live in a map of live blocks; a heap method that frees or reads a block must
  show that the block is live, so a double free or a stray read would not verify.
- `NotifyExitSync` is taken to wait for the end of `Run`.
- Functions of the source that hold several loops are split: `EncodeTimes`, `EncodePrimitives`,
  `BlendNext`, `NextSlice`, `ModulateInto`, `ModulatePatterns`, `CopyEvents`, `MarshalPatterns`,
  `UnmarshalPatterns` and the like are loops or steps of the function they are called from.
- A parcel takes as many words as it has room for, and refuses the next.

What the proofs found in the code, beyond what holds:

- A merged curve is in strict time order exactly when the earlier end of the two is a knot of both, or the
  curves are disjoint with the left one first (`CurveMergeProofs.MergeIncreasingIff`). So the curves of a
  flat list are all in order exactly when each event that joins a run of overlapping events meets it in
  this sense (`MixRuns.MixIncreasingIff`), and its values are in range as long as nothing is joined to a
  run that is out of order (`MixRuns.MixStaysInRange`). An accepted file with three events in time order
  gives a frequency of 101 (`HeRange.AcceptedFileCanLeaveRange`).
- The time-series effects are made from the request before its events are chosen by index; the primitive
  effects after.
- The HE decoder accepts patterns one of which begins before the one ahead of it has ended; their effects
  can then carry negative delays (`HeProofs.AcceptedFileCanRunBackwards`). The delays of an accepted file
  are all non-negative exactly when no event begins before a transient that is ahead of it and that
  nothing was joined to (`HeProofs.AcceptedFileDelaysIff`, from `MixRuns.MixStartsIff`). A non-numeric
  item reads as -1, which is a legal frequency.
- Nothing sets a vibrator's position, so it stays 0. A request whose events all carry a non-zero index
  starts nothing and still reports success (`ServiceRuns.SuccessStartsIff`).
- With no device named, a device that lacks the vibrator id asked for contributes all its vibrators, local
  or not (`Registry.TargetsAreExactly`).
- A client past the 1024th is not recorded, and its death stops nothing
  (`ServiceRuns.UnrecordedClientKeepsPlaying`).
- The reader of a single pattern accepts a negative count, which is written again as zero
  (`ParcelCodec.PatternRewrittenIff`); the reader of packages does not.
- Two seeks compose on the patterns of every package, and on the package duration exactly when the clamp
  at 0 adds as much in both as in the later one alone (`Seek.SeekComposesIff`): always when no duration is
  negative, not always otherwise (`Seek.NegativeDurationsDoNotCompose`).
- In HE 1 to HE 2 an end at exactly -1 is taken for no event yet, and hides the pause after it
  (`ConverterProofs.PatternsAreTightIff`).
- Modulating by a curve that has no interval, such as one of duration 0, which is not refused, reads
  `modInterval[0]` of an empty vector as soon as an event with 4 to 16 points is met; `SafeCurve` in
  `ModulateMethods` is the condition under which that does not happen.
- In `ProcessContinuousEvent` the branch for a cursor on the first point is never taken
  (`Slicing.Advance`).
- From OH, a curve point without intensity becomes 0 on the way to HE 1 and 100, or nothing, on the way to
  HE 2 (`ConverterProofs.DiagramCommutesIff`).

## Model

| member | source | states |
|---|---|---|
| `CurveMerge.MergeCurve` | services/miscdevice_service/haptic_matcher/src/custom_vibration_matcher.cpp:264-320 | the two-cursor loop terminates for every pair of curves, sorted or not, and yields the merge defined point by point |
| `CurveMerge.BlendNext` | services/miscdevice_service/haptic_matcher/src/custom_vibration_matcher.cpp:289-317 | inside the overlap, one of the three branches emits the next point of the merge and moves the right cursors |
| `CurveMergeProofs.BothAdvanceOnEqualTimes` | services/miscdevice_service/haptic_matcher/src/custom_vibration_matcher.cpp:309-315 | the branch that advances both cursors is reached with equal times only |
| `CurveMergeProofs.MergeKeepsExactlyTheTimes` | services/miscdevice_service/haptic_matcher/src/custom_vibration_matcher.cpp:264-320 | sorted or not, the set of output times is the union of the input times, and the length lies between the longer input and the sum of both |
| `CurveMergeProofs.DisjointMerge` | services/miscdevice_service/haptic_matcher/src/custom_vibration_matcher.cpp:279-288 | if the left curve ends before the right one begins, the merge is one after the other |
| `CurveMergeProofs.MergeIncreasingIff` | services/miscdevice_service/haptic_matcher/src/custom_vibration_matcher.cpp:264-320 | two strictly increasing curves merge into a strictly increasing one if and only if the left ends before the right begins or the earlier end is a knot of both |
| `CurveMergeValues.InterpolationBetween` | services/miscdevice_service/haptic_matcher/src/custom_vibration_matcher.cpp:437-445 | between two knots the interpolated, truncated value lies between the values at the knots |
| `CurveMergeValues.InterpolationIsOnLine` | services/miscdevice_service/haptic_matcher/src/custom_vibration_matcher.cpp:437-445 | for every two knots and every time, between them or not, the value r is the line through the knots, its fraction dropped: with d the width and N the numerator, r * d lies between 0 and N and less than d away from N |
| `Haptics.QuotientUnique` | services/miscdevice_service/haptic_matcher/src/custom_vibration_matcher.cpp:437-445 | there is only one such integer |
| `CurveMergeValues.HasExactlyOne` | services/miscdevice_service/haptic_matcher/src/custom_vibration_matcher.cpp:355-371 | read by that relation, every curve, in time order or not, has exactly one value at each time it spans |
| `CurveMergeValues.SortedNeverExtrapolates` | services/miscdevice_service/haptic_matcher/src/custom_vibration_matcher.cpp:289-316 | on time-sorted curves every interpolation of the merge asks for a time between its knots |
| `CurveMergeValues.MergeStaysInRange` | services/miscdevice_service/haptic_matcher/src/custom_vibration_matcher.cpp:264-320 | time-sorted curves with values in 0..100 merge into one with values in 0..100 |
| `CurveMergeValues.MergeIsPointwise` | services/miscdevice_service/haptic_matcher/src/custom_vibration_matcher.cpp:264-320 | whenever the merge is in strict order, each of its points carries the larger intensity and the mean frequency of what the two curves have there by the lines through their knots |
| `MixedWave.PreProcessEvent` | services/miscdevice_service/haptic_matcher/src/custom_vibration_matcher.cpp:234-262 | a duration under 15 becomes 15 and any other is kept; each point is moved to absolute time, its intensity i satisfies 100 i <= p e < 100 (i + 1) for point intensity p and event intensity e and is kept within 0..100, its frequency is the sum kept within 0..100; an event without a curve gets full strength from its start to its end; all else is kept |
| `MixedWave.AddEvent` | services/miscdevice_service/haptic_matcher/src/custom_vibration_matcher.cpp:207-229 | joins, trims or appends one more event |
| `MixedWave.MixedWaveProcess` | services/miscdevice_service/haptic_matcher/src/custom_vibration_matcher.cpp:199-232 | flattens patterns and events in stored order into one list |
| `MixedWave.MixStarts` | services/miscdevice_service/haptic_matcher/src/custom_vibration_matcher.cpp:199-232 | time-sorted input gives output starts that never decrease |
| `MixedWave.Coverage` | services/miscdevice_service/haptic_matcher/src/custom_vibration_matcher.cpp:199-262 | for time-sorted input every event lies inside an output event, up to 20 ms at its end, and there are no more output events than input events |
| `MixedWave.NothingMadeUp` | services/miscdevice_service/haptic_matcher/src/custom_vibration_matcher.cpp:199-232 | in any order of input, an output event starts as one of the events it hosts and ends no later than one of them, or has been cut to nothing |
| `MixedWave.MixSeparates` | services/miscdevice_service/haptic_matcher/src/custom_vibration_matcher.cpp:199-232 | in any order of input, a continuous output event is followed by a gap of 20 ms, or is cut to 0 with a gap of 15 ms; every output event has a curve |
| `MixedWave.PreProcessedCurve` | services/miscdevice_service/haptic_matcher/src/custom_vibration_matcher.cpp:234-262 | preprocessing brings all values into range and keeps a curve in time order |
| `MixedWave.FirstJoinInRange` | services/miscdevice_service/haptic_matcher/src/custom_vibration_matcher.cpp:215-228 | two preprocessed events with time-sorted curves join into one with all values in range |
| `FlatEvents.FlatListIs` | services/miscdevice_service/haptic_matcher/src/custom_vibration_matcher.cpp:199-262 | for events in any order, the flat list is one event for each run: an event belongs to the run ahead of it exactly when it begins before one of that run has ended and the run is not a lone transient; a run has the start, strength, frequency and index of its first event, the latest end, the merge of its prepared curves, and is cut exactly as far as 20 ms ahead of the next start need, transients not at all |
| `MixRuns.MixStartsIff` | services/miscdevice_service/haptic_matcher/src/custom_vibration_matcher.cpp:199-232 | for events in any order, the flat events start in time order exactly when no event that follows a lone transient starts before it; the first starts with the first event |
| `MixRuns.MixIncreasingIff` | services/miscdevice_service/haptic_matcher/src/custom_vibration_matcher.cpp:199-232 | for events in any order with curves in strict time order, every flat curve is in strict time order exactly when each event that joins a run meets it: the earlier of the two ends is a time of both, or the run's curves have ended before |
| `MixRuns.MixStaysInRange` | services/miscdevice_service/haptic_matcher/src/custom_vibration_matcher.cpp:199-262 | every value of the flat list is in 0..100 as long as nothing is joined to a run that is out of order |
| `MixRuns.MeetingJoinsAreOrdered` | services/miscdevice_service/haptic_matcher/src/custom_vibration_matcher.cpp:199-232 | where every join meets, no run is ever out of order |
| `CompositeEffects.ProcessTransientEvent` | services/miscdevice_service/haptic_matcher/src/custom_vibration_matcher.cpp:409-434 | appends an effect with the delay since the previous start and the id of the first of the nearest waves; the event is the one the next effect is placed after |
| `CompositeEffects.NearestIsFirstMinimum` | services/miscdevice_service/haptic_matcher/src/custom_vibration_matcher.cpp:412-424 | the scan finds the first wave at minimal weighted distance, among those nearer than 100 |
| `CompositeEffects.NearestIsMatch` | services/miscdevice_service/haptic_matcher/src/custom_vibration_matcher.cpp:412-424 | the id is that of the first wave with the least sum of intensity and frequency differences, if any is under 200, or 0 |
| `CompositeEffects.TransformTime` | services/miscdevice_service/haptic_matcher/src/custom_vibration_matcher.cpp:127-157 | fails just on an empty flat list; otherwise one time effect per flat event with its duration, intensity and frequency and the delay since the previous start, and a silent closing one |
| `CompositeEffects.TransformEffect` | services/miscdevice_service/haptic_matcher/src/custom_vibration_matcher.cpp:159-196 | fails just on an empty list or an event that is neither continuous nor transient; otherwise one primitive effect per flat event, its duration and intensity, or minus the id of the matching wave at 100, and a silent closing one |
| `CompositeEffects.EffectsKeepTiming` | services/miscdevice_service/haptic_matcher/src/custom_vibration_matcher.cpp:127-196 | in both encodings the prefix sums of the delays are the absolute starts, and all delays together the end of the last event |
| `CompositeEffects.DelaysNonNegativeIff` | services/miscdevice_service/haptic_matcher/src/custom_vibration_matcher.cpp:127-196 | all delays are non-negative if and only if the flat events are in time order from time 0 on |
| `Slicing.ProcessContinuousEventSlice` | services/miscdevice_service/haptic_matcher/src/custom_vibration_matcher.cpp:379-407 | extends the last effect or appends a new one |
| `Slicing.ProcessContinuousEvent` | services/miscdevice_service/haptic_matcher/src/custom_vibration_matcher.cpp:323-377 | emits the slices of the event in order |
| `Slicing.Advance` | services/miscdevice_service/haptic_matcher/src/custom_vibration_matcher.cpp:355-361 | the curve index stops at the first point at or after the slice end, in bounds and never 0, for curves in any order |
| `Slicing.GradeIsEighth` | services/miscdevice_service/haptic_matcher/src/custom_vibration_matcher.cpp:382-387 | the rounded grade of an intensity in 0..100 is its eighth, 0..7 |
| `Slicing.SlicesTile` | services/miscdevice_service/haptic_matcher/src/custom_vibration_matcher.cpp:347-376 | the slices tile the curve from first point to last: 50 ms each, the last under 100 |
| `Slicing.SlicesInRange` | services/miscdevice_service/haptic_matcher/src/custom_vibration_matcher.cpp:362-371 | a curve within 0..100 gives slices within 0..100 |
| `Slicing.EventFollowsCurve` | services/miscdevice_service/haptic_matcher/src/custom_vibration_matcher.cpp:347-376 | for curves in any order, each slice has the means of what the curve has at the two ends of the slice by the line through its knots there |
| `SlicingProofs.EmitPlays` | services/miscdevice_service/haptic_matcher/src/custom_vibration_matcher.cpp:388-406 | coalesced or not, one more slice adds its grade, for its milliseconds, to what the effects play |
| `SlicingProofs.ContinuousEventPlays` | services/miscdevice_service/haptic_matcher/src/custom_vibration_matcher.cpp:323-407 | the effects play one grade for each millisecond of the curve, each slice its own, with the total decoded duration grown by exactly back minus front; the last effect ends with the curve and the delays add up to its start |
| `SlicingProofs.ShortEventPlays` | services/miscdevice_service/haptic_matcher/src/custom_vibration_matcher.cpp:326-345 | an event under 100 ms plays its own eighth for its duration, at its own time; a longer one without a curve plays nothing |
| `SlicingProofs.SlicesAreCompact` | services/miscdevice_service/haptic_matcher/src/custom_vibration_matcher.cpp:379-407 | the coding is as short as can be: no two neighbouring effects could have been one, by gap, grade, or 1600 ms together; what is added has intensity 0 |
| `Playback.PlayOnce` | services/miscdevice_service/src/vibrator_thread.cpp:85-102 | acts and result are those of start, wait, check |
| `Schedules.OnceSchedule` | services/miscdevice_service/src/vibrator_thread.cpp:85-102 | undisturbed, the device is started at once and the thread waits for the duration |
| `Playback.HandleMultipleVibrations` | services/miscdevice_service/src/vibrator_thread.cpp:104-118 | stops both modes of a device that is still playing, then looks at it up to six times, 5 ms apart, until it has come to rest |
| `Schedules.QuiesceIs` | services/miscdevice_service/src/vibrator_thread.cpp:104-118 | a device at rest is left alone; one that plays gets both stops and up to six pauses of 5 ms, the last when it is first found at rest |
| `Playback.PlayEffect` | services/miscdevice_service/src/vibrator_thread.cpp:120-149 | acts and result are those of one round per repetition |
| `Schedules.EffectSchedule` | services/miscdevice_service/src/vibrator_thread.cpp:120-149 | undisturbed, the effect is started count times, the k-th after k durations and 10 (k - 1) ms of waits |
| `Playback.PlayCustomByHdHptic` | services/miscdevice_service/src/vibrator_thread.cpp:151-181 | acts and result are those of waiting for, then starting, each pattern |
| `Schedules.HdSchedule` | services/miscdevice_service/src/vibrator_thread.cpp:151-181 | undisturbed, the waits add up to the start of each pattern, and it is then that it is played |
| `Playback.PlayCompositeEffect` | services/miscdevice_service/src/vibrator_thread.cpp:237-272 | acts and result are those of gathering parts of 128 and waiting out their delays |
| `Playback.CopyInfoWithIndexEvents` | services/miscdevice_service/src/vibrator_thread.cpp:183-210 | keeps the events with index 0 or the position, and the patterns that have any; the package duration becomes that of the last event kept, and nothing else of the request changes |
| `Playback.PlayCustomByCompositeEffect` | services/miscdevice_service/src/vibrator_thread.cpp:213-235 | runs the plan of the request in either composite mode; succeeds just when the request can be encoded and no start is refused |
| `Playback.Run` | services/miscdevice_service/src/vibrator_thread.cpp:43-83 | dispatches on the mode: the acts are those of the plan of the request |
| `Schedules.StopsInItsMode` | services/miscdevice_service/src/vibrator_thread.cpp:85-272 | the last act of a thread that sees the exit flag is a stop in the mode of its request: once, HD haptic or preset |
| `Playback.CompositeRun` | services/miscdevice_service/src/vibrator_thread.cpp:237-272 | undisturbed, the parts concatenate to the effects, hold 1..128 each, every one before the last 128, and the waits add up to the delays |
| `StopProtocol.PlanGuarded` | services/miscdevice_service/src/vibrator_thread.cpp:85-272 | in every mode a device start is followed by a look at the exit flag before the next start |
| `StopProtocolProofs.RunInv` | services/miscdevice_service/src/vibrator_thread.cpp:85-181 | the protocol invariant holds in every state of every interleaving |
| `StopProtocolProofs.StopMeansStopped` | services/miscdevice_service/src/miscdevice_service.cpp:595-603 | when a stop returns after finding the worker running, the worker has ended, its request is reset and the exit flag is down |
| `StopProtocolProofs.WorkersBeginClean` | services/miscdevice_service/src/miscdevice_service.cpp:579-588 | every worker begins with the flag down and the request its starter gave |
| `StopProtocolProofs.LaunchAlwaysStarts` | services/miscdevice_service/src/miscdevice_service.cpp:587-588 | a launch never finds a worker still running |
| `StopProtocolProofs.AtMostOneStartAfterFlag` | services/miscdevice_service/src/vibrator_thread.cpp:307-312 | after the flag goes up a worker makes at most one more device start |
| `StopProtocolProofs.LastCallIsStop` | services/miscdevice_service/src/vibrator_thread.cpp:94-99 | the last device call of a worker that returns because of the flag is a stop |
| `StopProtocolProofs.PlaysOnlyItsRequest` | services/miscdevice_service/src/vibrator_thread.cpp:275-282 | what a worker still has to do is always a remainder of the plan of the request it was started for |
| `StopProtocolProofs.WorkerNeverStuck` | services/miscdevice_service/src/vibrator_thread.cpp:43-83 | in every reachable state a running worker has a step to take |
| `StopProtocolProofs.FlagHurriesWorker` | services/miscdevice_service/src/vibrator_thread.cpp:307-312 | while the flag is up every worker step brings its end nearer |
| `StopProtocolProofs.WorkerEndsWithinNineSteps` | services/miscdevice_service/src/vibrator_thread.cpp:307-312 | while the flag stays up a worker takes at most nine steps, whatever it plays |
| `PriorityManager.IgnoreAppVibrations` | services/miscdevice_service/src/vibration_priority_manager.cpp:536-556 | notifications and rings of apps off the white list, with do-not-disturb on |
| `PriorityManager.ShouldIgnoreVibrate` | services/miscdevice_service/src/vibration_priority_manager.cpp:904-966 | the status is that of the switches, then of the vibration playing |
| `PriorityManager.SwitchesAllowIff` | services/miscdevice_service/src/vibration_priority_manager.cpp:908-946 | the switches allow exactly: usage 1 to 4 without mute; and, but for a system caller asking for system usage, ring and notification not disturbing or white-listed, usage 1 to 4 with the ringer not silent, usage 0 and 5 to 8 with feedback on |
| `PriorityManager.StatusIs` | services/miscdevice_service/src/vibration_priority_manager.cpp:904-1000 | each status is given exactly when it should be: mute before do-not-disturb before ringer mode before feedback, a playing alarm before a looped preset before unknown usage |
| `PriorityManager.AllowedIff` | services/miscdevice_service/src/vibration_priority_manager.cpp:957-1000 | a request gets through if and only if the switches allow it and what plays gives way: to a looped preset always, to others unless it is an alarm or a looped preset, to unknown usage only if it is unknown itself |
| `PriorityManager.ProtectedIff` | services/miscdevice_service/src/vibration_priority_manager.cpp:984-1000 | what is protected is exactly what gives way to nothing but a looped preset |
| `PriorityManager.SwitchesOnlyRestrict` | services/miscdevice_service/src/vibration_priority_manager.cpp:908-946 | turning switches to their strict position lets no more through; a system caller asking for system usage is turned away by mute alone |
| `Registry.TargetsAreExactly` | services/miscdevice_service/src/miscdevice_service.cpp:1840-1893 | CheckDeviceIdIsValid finds exactly the vibrators the identifier means, wildcards and missing ids included |
| `Registry.TargetsResolve` | services/miscdevice_service/src/miscdevice_service.cpp:1840-1893 | every identifier it returns resolves to a thread |
| `ServiceRuns.After` | services/miscdevice_service/include/miscdevice_service.h:39-69 | in every state of every run each device key has a non-empty baseInfo all its own, and its thread table has exactly those vibrator ids |
| `ServiceRuns.StepKeepsOk` | services/miscdevice_service/src/miscdevice_service.cpp:1725-1767 | every request, driver event and ending keeps the registry invariant |
| `ServiceRuns.StopAllAt` | services/miscdevice_service/src/miscdevice_service.cpp:451-492 | stopping a list of vibrators stops each of them, however often named, and no other |
| `ServiceRuns.StopAllByModeAt` | services/miscdevice_service/src/miscdevice_service.cpp:605-653 | stopping by mode stops exactly the vibrators meant that play in that mode |
| `ServiceLaws.StoppedIsForgotten` | services/miscdevice_service/src/vibrator_thread.cpp:314-327 | after a stop the switches alone decide about the next request, even while the device runs on, and no client and no mode is left behind |
| `ServiceLaws.HdiStopsAre` | services/miscdevice_service/src/miscdevice_service.cpp:467-470 | stops in both modes go straight to each device meant and running, and to no other |
| `ServiceLaws.HdiStopsByModeAre` | services/miscdevice_service/src/miscdevice_service.cpp:625-646 | stopping by mode sends a preset stop straight to each device meant, running, and playing in that mode, and to no other |
| `ServiceRuns.StartAllAt` | services/miscdevice_service/src/miscdevice_service.cpp:1769-1821 | each vibrator is decided by what played when the request came: left alone, or made to play the request |
| `ServiceLaws.StartedIff` | services/miscdevice_service/src/miscdevice_service.cpp:1769-1820 | a request has a vibrator play exactly when its process is not disabled, it is meant for any motor, and the vibrator is among those it names and is not local, or the manager is not ready, or the switches allow it and what plays there gives way |
| `ServiceLaws.FailsExactlyIff` | services/miscdevice_service/src/miscdevice_service.cpp:1769-1820 | a request fails exactly when its process is disabled or every vibrator it names, possibly none, is local and turns it away by the switches or by what plays there |
| `ServiceRuns.FailsIff` | services/miscdevice_service/src/miscdevice_service.cpp:1769-1821 | a start request fails if and only if the process is disabled, or every vibrator meant (possibly none) is local, asked for and turned away; then no thread has changed |
| `ServiceRuns.SuccessStartsIff` | services/miscdevice_service/src/miscdevice_service.cpp:1785-1820 | a successful request starts a vibrator if and only if no event names a motor or some event has index 0; otherwise it changes nothing |
| `ServiceRuns.AllStopped` | services/miscdevice_service/src/miscdevice_service.cpp:1219-1235 | when the vibrators of a device have been stopped none of its threads runs and other devices are untouched |
| `ServiceRuns.DeathStopsItsThreads` | services/miscdevice_service/src/miscdevice_service.cpp:1273-1306 | after a recorded client dies no thread plays for its process, and the others are as before |
| `ServiceRuns.UnrecordedClientKeepsPlaying` | services/miscdevice_service/src/miscdevice_service.cpp:1343-1354 | a client past the limit is not recorded and its death stops nothing |
| `ServiceRuns.VibrationsGoOn` | services/miscdevice_service/src/miscdevice_service.cpp:560-603 | a vibration goes on unchanged through every action but a start on its vibrator and the five that end it, and those take effect at once |
| `ServiceRuns.OnlyRequestsStart` | services/miscdevice_service/src/miscdevice_service.cpp:560-593 | a thread plays something new only by a request that is let through |
| `ServiceRuns.DisabledNeverStarts` | services/miscdevice_service/src/miscdevice_service.cpp:1895-1945 | from disabling a process until enabling it, its requests fail and change nothing, and no thread plays for it but those that already did |
| `ServiceRuns.PriorityHolds` | services/miscdevice_service/src/vibration_priority_manager.cpp:953-1000 | from an alarm or looped preset on a local vibrator, for as long as it plays without a break, only looped presets are let through to it |
| `MiscdeviceServices.MiscdeviceService.GetVibratorThread` | services/miscdevice_service/src/miscdevice_service.cpp:1597-1612 | the thread the tables hold for that vibrator, or none |
| `MiscdeviceServices.MiscdeviceService.CheckDeviceIdIsValid` | services/miscdevice_service/src/miscdevice_service.cpp:1840-1893 | the list of targets, devices in key order |
| `MiscdeviceServices.MiscdeviceService.StopVibratorService` | services/miscdevice_service/src/miscdevice_service.cpp:451-492 | the stop step on the tables, both stops to every target whose device is running, ERROR just when nothing is meant |
| `MiscdeviceServices.MiscdeviceService.StopVibratorByMode` | services/miscdevice_service/src/miscdevice_service.cpp:605-653 | the stop-by-mode step, and one stop to every device meant that runs and plays in that mode when its turn comes; ERROR just when nothing is meant |
| `MiscdeviceServices.MiscdeviceService.StopVibrateThread` | services/miscdevice_service/src/miscdevice_service.cpp:595-603 | a running thread ends and its info is reset; another is left alone |
| `MiscdeviceServices.MiscdeviceService.StartVibrateThread` | services/miscdevice_service/src/miscdevice_service.cpp:560-593 | the thread plays the request, and a running device has been sent both stops |
| `MiscdeviceServices.MiscdeviceService.StartVibrateThreadControl` | services/miscdevice_service/src/miscdevice_service.cpp:1769-1821 | the start step on the tables, with its result |
| `MiscdeviceServices.MiscdeviceService.IgnoreVibrate` | services/miscdevice_service/src/miscdevice_service.cpp:376-393 | nothing is ignored until the priority manager is ready; then what its status says |
| `MiscdeviceServices.MiscdeviceService.InsertVibratorInfo` | services/miscdevice_service/src/miscdevice_service.cpp:1725-1767 | adds a device with the vibrators reported for it, unless it is there or has none |
| `MiscdeviceServices.MiscdeviceService.GetOnlineVibratorInfo` | services/miscdevice_service/src/miscdevice_service.cpp:1698-1723 | fills empty tables with every device reported |
| `ServiceLaws.PluggedInIsReported` | services/miscdevice_service/src/miscdevice_service.cpp:1725-1767 | a device is added if it is not there and any vibrator was reported for it: its vibrators in order, local or not as reported, at position 0, no thread running; no other device changes |
| `ServiceLaws.OnlineIsReported` | services/miscdevice_service/src/miscdevice_service.cpp:1698-1723 | from empty tables exactly the devices reported come online, each as reported |
| `MiscdeviceServices.MiscdeviceService.DeviceGone` | services/miscdevice_service/src/miscdevice_service.cpp:1224-1235 | when the record goes none of the device's threads is running; the other devices are as before |
| `MiscdeviceServices.MiscdeviceService.SendMsgToClient` | services/miscdevice_service/src/miscdevice_service.cpp:1219-1245 | a device that goes is taken out, one that comes is put in |
| `MiscdeviceServices.MiscdeviceService.ProcessDeathObserver` | services/miscdevice_service/src/miscdevice_service.cpp:1273-1306 | the threads of the client's process are stopped and the client is forgotten |
| `MiscdeviceServices.MiscdeviceService.TransferClientRemoteObject` | services/miscdevice_service/src/miscdevice_service.cpp:1262-1271 | records a client with a valid pid, up to 1024, once |
| `ServiceLaws.JoinedIsRecorded` | services/miscdevice_service/src/miscdevice_service.cpp:1342-1354 | a client is recorded with its process unless the id is negative, it is on record, or 1024 are; no other record changes |
| `MiscdeviceServices.MiscdeviceService.DisableVibratorByPid` | services/miscdevice_service/src/miscdevice_service.cpp:1911-1918 | the pid is in the list afterwards, once |
| `MiscdeviceServices.MiscdeviceService.EnableVibratorByPid` | services/miscdevice_service/src/miscdevice_service.cpp:1937-1944 | its first occurrence is taken out |
| `ServiceLaws.EnabledIsTakenOut` | services/miscdevice_service/src/miscdevice_service.cpp:1937-1944 | of a list without repetitions, the process is taken out and the others stay in order |
| `Seek.SeekPatternsCompose` | frameworks/native/vibrator/src/vibrator_service_client.cpp:827-833 | for every package, seeking twice leaves the patterns of the later seek alone |
| `Seek.SeekComposesIff` | frameworks/native/vibrator/src/vibrator_service_client.cpp:983-1046 | for every package, seeking to s1 and then to s2 is seeking to s2 exactly when the clamp at 0 adds as much to the package duration in both seeks as in the later one alone |
| `Seek.SeekComposes` | frameworks/native/vibrator/src/vibrator_service_client.cpp:983-1046 | where no duration is negative, seeking to s1 and then to s2 is seeking to s2, the package duration included |
| `Seek.NegativeDurationsDoNotCompose` | frameworks/native/vibrator/src/vibrator_service_client.cpp:983-1046 | example: with negative durations the package duration depends on the order of the cuts |
| `Seek.SeekConservesDuration` | frameworks/native/vibrator/src/vibrator_service_client.cpp:983-1046 | the package duration of the result is again the sum of its event durations |
| `Seek.SeekConservesEnds` | frameworks/native/vibrator/src/vibrator_service_client.cpp:1339-1357 | exactly the events that are not dropped remain, in order, each ending when it did |
| `SeekEvents.SeekKeepsEvents` | frameworks/native/vibrator/src/vibrator_service_client.cpp:983-1046 | for every package, well-formed or not, the result holds one for one and in order what is left of each survivor: tag, intensity, frequency and index; start, duration and 4 to 16 points of one not yet begun; from the seek time to its end and without points of one that is resumed |
| `SeekEvents.SeekRebuildsDurations` | frameworks/native/vibrator/src/vibrator_service_client.cpp:668-719 | each pattern of the result is as long as its last event takes to end, an empty one as long as the one ahead of it |
| `SeekMethods.ConvertVibratorPattern` | frameworks/native/vibrator/src/vibrator_service_client.cpp:1048-1078 | one pattern, read from the client's blocks |
| `SeekMethods.SkipEventAndConvertVibratorEvent` | frameworks/native/vibrator/src/vibrator_service_client.cpp:1339-1357 | whether the event is dropped, and what is kept of it |
| `SeekMethods.ConvertSeekVibratorPackage` | frameworks/native/vibrator/src/vibrator_service_client.cpp:983-1046 | the cut patterns and the remaining duration |
| `SeekMethods.ConvertVibratorPackage` | frameworks/native/vibrator/src/vibrator_service_client.cpp:668-719 | client structures that read as the package, on pattern, event and point blocks that are new and of which no two are the same |
| `SeekMethods.SeekTimeOnPackage` | frameworks/native/vibrator/src/vibrator_service_client.cpp:827-833 | the result reads as the sought package, on new pattern, event and point blocks no two of which are the same; all blocks that were live are as before |
| `Modulate.ConvertVibratorEventsToCurveIntervals` | frameworks/native/vibrator/src/vibrator_service_client.cpp:1297-1315 | one interval per point, up to the duration |
| `Modulate.IntervalsTile` | frameworks/native/vibrator/src/vibrator_service_client.cpp:1297-1315 | the intervals of a good curve tile the time from its first point to its end exactly |
| `Modulate.BinarySearchInterval` | frameworks/native/vibrator/src/vibrator_service_client.cpp:1268-1295 | the loop computes the search function on all interval lists, sorted or not |
| `Modulate.SearchFindsFirst` | frameworks/native/vibrator/src/vibrator_service_client.cpp:1268-1295 | over tiling intervals it finds the first that does not end before the time, or reports the time outside |
| `Modulate.SearchIsInForce` | frameworks/native/vibrator/src/vibrator_service_client.cpp:1268-1315 | searching the intervals of a good curve is reading the step function its points define |
| `Modulate.ScaledAndShifted` | frameworks/native/vibrator/src/vibrator_service_client.cpp:1206-1213 | the same of any two intensities and any frequency |
| `Modulate.ModulationIsPointwise` | frameworks/native/vibrator/src/vibrator_service_client.cpp:1193-1266 | each curve point, or the event's start, is changed by the step in force there, and only there: intensity i scaled to r with 100 r <= i s < 100 (r + 1), kept within 0..100, frequency the sum, kept within -100..100 |
| `ModulateMethods.GetCurveListAfterModulation` | frameworks/native/vibrator/src/vibrator_service_client.cpp:1241-1266 | a fresh block with the modulated points |
| `ModulateMethods.ModulateEventWithoutCurvePoints` | frameworks/native/vibrator/src/vibrator_service_client.cpp:1193-1216 | the event modulated at its start, its point list dropped |
| `ModulateMethods.ModulateVibratorEvent` | frameworks/native/vibrator/src/vibrator_service_client.cpp:1180-1191 | succeeds just when there are intervals and the count is legal; otherwise the heap is as before |
| `ModulateMethods.ModulateVibratorPattern` | frameworks/native/vibrator/src/vibrator_service_client.cpp:1124-1150 | success just when accepted; on failure every block allocated is freed and the heap is as before |
| `ModulateMethods.FreePartiallyAllocatedVibratorEvents` | frameworks/native/vibrator/src/vibrator_service_client.cpp:1166-1178 | frees the event block and each point block once |
| `ModulatePackages.FreePartiallyAllocatedVibratorPatterns` | frameworks/native/vibrator/src/vibrator_service_client.cpp:1152-1164 | frees the pattern block and every block of the patterns built so far, each once |
| `ModulatePackages.ModulatePackage` | frameworks/native/vibrator/src/vibrator_service_client.cpp:1080-1114 | succeeds just when all is accepted; on failure the heap is exactly as before; on success the result is built pattern by pattern on fresh blocks |
| `ModulatePackages.ResultSharesNothing` | frameworks/native/vibrator/src/vibrator_service_client.cpp:1080-1114 | the result shares no block with anything live before, nor two of its patterns a block |
| `ModulatePackages.ModulatedPackageIsPointwise` | frameworks/native/vibrator/src/vibrator_service_client.cpp:1080-1266 | for a good curve the result is the pointwise image of the input; times, durations and counts are kept |
| `OhDecoder.ParseCurve` | utils/haptic_decoder/oh_json/src/default_vibrator_decoder.cpp:233-273 | accepts just the legal curves; the points have the times, frequencies and a hundred times the intensities of the items, in time order |
| `OhDecoder.ParseEvent` | utils/haptic_decoder/oh_json/src/default_vibrator_decoder.cpp:167-209 | accepts just the legal events, each field as its item says, 48 ms for a transient |
| `OhDecoder.AcceptedIff` | utils/haptic_decoder/oh_json/src/default_vibrator_decoder.cpp:167-273 | accepted exactly: start in 0..1800000, duration in 0..5000, intensity and frequency in 0..100, a used curve of 4 to 16 points within the event with intensities in 0..100 and frequencies in -100..100 |
| `OhDecoder.ParsePattern` | utils/haptic_decoder/oh_json/src/default_vibrator_decoder.cpp:139-165 | accepts just the legal patterns, with the sum of their durations |
| `OhDecoder.ParseChannel` | utils/haptic_decoder/oh_json/src/default_vibrator_decoder.cpp:96-127 | the events of all channels in time order, and the sum of all their durations |
| `OhDecoder.PatternSplit` | utils/haptic_decoder/oh_json/src/default_vibrator_decoder.cpp:275-294 | slices of 16, each made relative to its first event |
| `OhDecoder.SplitIsLossless` | utils/haptic_decoder/oh_json/src/default_vibrator_decoder.cpp:275-294 | ceil(n/16) patterns, all but the last full, each opening at 0; put back and concatenated they are the events that were split |
| `OhDecoder.DecodeEffect` | utils/haptic_decoder/oh_json/src/default_vibrator_decoder.cpp:51-73 | accepts just the legal files; the package holds the decoded events in time order, with the sum of their durations |
| `EndToEnd.OrderlyPlaysInTurn` | services/miscdevice_service/haptic_matcher/src/custom_vibration_matcher.cpp:127-196 | events in time order from 0 on give encodings without a negative delay |
| `EndToEnd.KeptPatternsOrderly` | services/miscdevice_service/src/vibrator_thread.cpp:183-210 | choosing events by index keeps them in time order |
| `EndToEnd.KeptPatternsFiltered` | services/miscdevice_service/src/vibrator_thread.cpp:183-210 | choosing by index leaves exactly the events with index 0 or that of the position, in order, and no empty pattern |
| `EndToEnd.CompositePlaysInTurnIff` | services/miscdevice_service/src/vibrator_thread.cpp:213-272 | for continuous and transient events from time 0 on, in any order: undisturbed, the delays handed to the device encode the flat list, each effect plays its flat event, the waits add up to its end, and no delay is negative exactly when no event that follows a lone transient starts before it |
| `EndToEnd.CompositePlaysOnTime` | services/miscdevice_service/src/vibrator_thread.cpp:213-272 | undisturbed, the delays handed to the device are non-negative and encode the flat list, and the waits add up to its end |
| `EndToEnd.DecodedFilePlaysOnTime` | utils/haptic_decoder/oh_json/src/default_vibrator_decoder.cpp:51-73 | the same for every file the OH decoder accepts, at any position, in either composite mode |
| `HeDecoder.ParseCurve` | utils/haptic_decoder/he_json/src/he_vibrator_decoder.cpp:203-244 | accepts just the legal curves, as they stand |
| `HeDecoder.ParseEvent` | utils/haptic_decoder/he_json/src/he_vibrator_decoder.cpp:152-201 | accepts just the legal events, each field as its item says, index 0 for a missing one and 48 ms for a transient |
| `HeDecoder.AcceptedIff` | utils/haptic_decoder/he_json/src/he_vibrator_decoder.cpp:152-314 | accepted exactly what reads as a legal event: index 0..2, intensity 0..100, frequency -50..150, or 0..100 and 1..5000 ms for a continuous one, with 4 to 16 points of strictly rising times from 0 to the duration and strength 0 at both ends |
| `HeDecoder.ParsePattern` | utils/haptic_decoder/he_json/src/he_vibrator_decoder.cpp:122-150 | 1..16 accepted events with times that do not decrease |
| `HeDecoder.ParsePatternList` | utils/haptic_decoder/he_json/src/he_vibrator_decoder.cpp:88-120 | accepted patterns with absolute times that increase |
| `HeDecoder.DecodeEffect` | utils/haptic_decoder/he_json/src/he_vibrator_decoder.cpp:48-77 | accepts just the legal files of version 1 and 2 |
| `HeProofs.AcceptedCurve` | utils/haptic_decoder/he_json/src/he_vibrator_decoder.cpp:279-314 | the curve of an accepted continuous event rises strictly in time from (0, 0) to (duration, 0) |
| `HeProofs.AcceptedPatterns` | utils/haptic_decoder/he_json/src/he_vibrator_decoder.cpp:88-150 | every pattern holds 1..16 events in time order, and patterns start later and later from 0 on |
| `HeProofs.DecodedReads` | utils/haptic_decoder/he_json/src/he_vibrator_decoder.cpp:48-150 | version 1 is one pattern at time 0, version 2 the patterns of the list at their absolute times, every event as its item says |
| `HeProofs.HeJoinIncreasingIff` | services/miscdevice_service/haptic_matcher/src/custom_vibration_matcher.cpp:215-228 | two overlapping accepted events join with all values in range, and in strict time order exactly when the earlier end is a knot of both |
| `HeProofs.AcceptedIsOrderlyIff` | utils/haptic_decoder/he_json/src/he_vibrator_decoder.cpp:48-120 | an accepted file is in time order exactly when no pattern begins before the last event of the one ahead of it; version 1 always is |
| `HeProofs.AcceptedFilePlaysOnTime` | services/miscdevice_service/src/vibrator_thread.cpp:213-272 | an accepted file in time order, as every one of version 1, plays with non-negative delays and lasts until the end of its last flat event |
| `HeProofs.AcceptedFileDelaysIff` | services/miscdevice_service/src/vibrator_thread.cpp:213-272 | every accepted file, patterns in turn or not, at any position: undisturbed, the effects encode the flat list, the waits last until its end, and no delay is negative exactly when no event begins before a transient ahead of it that nothing was joined to |
| `HeProofs.AcceptedFileCurvesIff` | services/miscdevice_service/haptic_matcher/src/custom_vibration_matcher.cpp:199-320 | the flat curves of an accepted file are all in strict time order exactly when each join meets its run; then, and as long as nothing is joined to a run out of order, every value is in range |
| `HeProofs.AcceptedFileCanRunBackwards` | utils/haptic_decoder/he_json/src/he_vibrator_decoder.cpp:99-118 | example: an accepted file with an effect due 999 ms before the one ahead of it |
| `HeRange.AcceptedFileCanLeaveRange` | services/miscdevice_service/haptic_matcher/src/custom_vibration_matcher.cpp:215-228 | example: an accepted version 1 file with three events in time order whose flat list is one event with a point of frequency 101 |
| `Parcels.MarshalPackage` | utils/common/src/vibrator_infos.cpp:248-317 | appends the encoding of the package, or as much of it as there is room for, and then reports so |
| `Parcels.MarshalPattern` | utils/common/src/vibrator_infos.cpp:124-183 | appends the encoding of the pattern, or as much of it as there is room for, and then reports so |
| `Parcels.UnmarshalPackage` | utils/common/src/vibrator_infos.cpp:319-404 | reads what the decoding function reads, the cursor ending after it |
| `Parcels.UnmarshalPattern` | utils/common/src/vibrator_infos.cpp:185-246 | the same for one pattern, strict or not |
| `ParcelCodec.PackageRoundTrip` | utils/common/src/vibrator_infos.cpp:248-404 | a written package, whatever follows it, reads back as itself and leaves what follows; it fails exactly beyond 1000 patterns, 16 events, 16 points or with an unknown tag |
| `ParcelCodec.EventLayout` | utils/common/src/vibrator_infos.cpp:271-314 | seven words and three for each point: tag 0 or 1, time, duration, intensity, frequency, index, count; time, intensity, frequency |
| `ParcelCodec.PatternLayout` | utils/common/src/vibrator_infos.cpp:124-183 | start time, duration, count, then the events in order |
| `ParcelCodec.PackageLayout` | utils/common/src/vibrator_infos.cpp:248-317 | duration, count, then the patterns in order |
| `ParcelCodec.PackageRewritten` | utils/common/src/vibrator_infos.cpp:248-404 | writing an accepted package again reproduces the words read |
| `ParcelCodec.PatternRoundTrip` | utils/common/src/vibrator_infos.cpp:124-246 | the round trip of one pattern, whichever reader is used |
| `ParcelCodec.PatternRewrittenIff` | utils/common/src/vibrator_infos.cpp:124-246 | the pattern reader's result rewrites to what was read exactly when the strict reader accepts it |
| `ParcelCodec.NegativeCountIsNotRewritten` | utils/common/src/vibrator_infos.cpp:196-202 | example: a negative event count is read as an empty pattern |
| `Converter.ConvertOhToHeV1` | utils/tools/haptic_format_converter/converter/converter.py:130-181 | fails just on a missing key; otherwise one event after the other |
| `Converter.ConvertOhToHeV2` | utils/tools/haptic_format_converter/converter/converter.py:184-268 | fails just on a missing key; otherwise the converted events split into patterns |
| `Converter.ConvertHeV1ToV2` | utils/tools/haptic_format_converter/converter/converter.py:271-322 | fails just on a continuous event without a duration; otherwise the split |
| `Converter.ConvertHeV2ToV1` | utils/tools/haptic_format_converter/converter/converter.py:325-349 | all events in absolute time |
| `ConverterProofs.V1RoundTrip` | utils/tools/haptic_format_converter/converter/converter.py:271-349 | version 1 to 2 and back keeps type, time, duration and parameters of every event, and is the identity exactly when no event carries an index, or a duration without being continuous |
| `ConverterProofs.V2RoundTripIff` | utils/tools/haptic_format_converter/converter/converter.py:271-349 | version 2 to 1 and back is the identity exactly when the patterns are split as the converter splits them |
| `ConverterProofs.EventsConverted` | utils/tools/haptic_format_converter/converter/converter.py:130-268 | each OH event comes out one for one: type, time, duration of a continuous one; in HE 1 intensity and frequency, 0 where a curve point states none; in HE 2 frequency 50 if none, and only curve points that state anything, intensity 100 if none; four points of full strength where there is no curve |
| `ConverterProofs.PatternsAreTightIff` | utils/tools/haptic_format_converter/converter/converter.py:296-303 | each emitted pattern has 1..16 events, opens at relative time 0 and holds no pause over 1000 ms after an event that does not end at exactly -1; there is no such pause at all exactly when none follows, in a pattern with room, an event that ends at -1 |
| `ConverterProofs.PauseCanBeHidden` | utils/tools/haptic_format_converter/converter/converter.py:296-299 | example: a pause after an event that ends at -1 stays inside a pattern |
| `ConverterProofs.DiagramCommutesIff` | utils/tools/haptic_format_converter/converter/converter.py:130-322 | OH to HE 2 is OH to HE 1 to HE 2 exactly when every curve point of a continuous event states its intensity |

## Left out

- Vibrator threads in `MiscdeviceServices` are values in the device table, replaced when they change: sharing of one thread object by several owners is not captured. How a thread ends when it is told to is the subject of `StopProtocol`.
- The device mute callback stops vibrators without holding the lock of the device table; that data race is not modelled, each request runs on its own.
- `MiscdeviceServices.MiscdeviceService.ProcessDeathObserver`: the stops sent to the devices are not stated, only what becomes of the threads; the same holds when a device goes.
- `MiscdeviceServices.MiscdeviceService.SendMsgToClient`: telling the clients of the change is left out, and the driver is taken never to use -1 as an id, which the service reads as a wildcard.
- `CurveMergeValues.MergeStaysInRange`: time order of both inputs is sufficient, not necessary; so is that of the runs in `MixRuns.MixStaysInRange`.
- `Modulate.IntervalsTile`: a good curve is in time order with its first point before its end, as the tiling needs; the loops and the search are proved on all curves.
- `ModulateMethods.GetCurveListAfterModulation`: asks for an interval, where the source reads the first one of an empty list.
- `ModulateMethods.ModulateVibratorEvent`: leaves out (`SafeCurve`) a curve without an interval together with an event of 4 to 16 points, for which the source reads the first interval of an empty list (lines 1241-1262 of the client).
- `ModulateMethods.ModulateVibratorPattern`: leaves out the same input, for any event of the pattern.
- `ModulatePackages.ModulatePackage`: leaves out the same input, for any event of the package; a curve of duration 0 is not refused before.
- `MiscdeviceServices.MiscdeviceService.StartVibrateThread`: the identifier and the wave information stored with the request are left out.
- `MiscdeviceServices.MiscdeviceService.InsertVibratorInfo`: the capacity and the wave information kept with the device are left out.
- `OhDecoder.DecodeEffect`: the checks of the file descriptor and of the version are left to the caller.
- `Converter.ConvertOhToHeV1`: a missing Type, StartTime or point Time key, which raises an error, is not represented.
- `Converter.ConvertOhToHeV2`: a missing Type, StartTime or point Time key, which raises an error, is not represented.
- `Converter.ConvertHeV1ToV2`: a missing Type, RelativeTime or Parameters key, which raises an error, is not represented.
- Capacities and wave information kept with a device, and the normalization of waves, are left out: they carry no claim about who plays when.
- Call counting, dumps, logs, tracing, permissions and priorities of threads.
- Allocation failure (a null from calloc) and overflow of 32-bit times.
- Reading JSON text: the decoders and the converter start from the values of the items.
- The conversions from HE to OH, which clamp and so add members of an easier kind.
- IPC proxies and stubs, the HDI layer, the light service, the JS, ANI, Cangjie and C bindings, data-share observers, user switching, and the audio-to-haptic tool.
