/** The streaming background-recording context,
    `frontend/parrot/context/BackgroundRecordingContext.tsx`: an
    energy-threshold voice-activity detector fed by the recording's status
    callback (`handleAudioLevel`), a silence timer whose callback ends the
    utterance and hands the recorded audio to `SegmentUploader.Send`, and
    `startBackgroundRecording` / `stopBackgroundRecording`, which reset the
    detector.

    Time is the `now` of each event. The runtime's timers are an explicit map
    from timer id to due time, so that "at most one silence timer is armed"
    is a statement about this map and the ref that points into it. The
    device and the network are outcomes supplied with each event. */
module StreamingRecorder {
  import opened Nullable
  import DataUrl
  import U = SegmentUploader

  const NoiseThreshold: real := -30.0
  const SilenceDuration: int := 5000

  /** Errors the provider stores with `setError`. */
  datatype Failure = PermissionDenied | AudioModeFailed | CreateFailed | UnloadFailed | ReadFailed

  datatype Recorder = Recorder(
    isSpeaking: bool,             // isSpeakingRef
    silenceTimer: Option<nat>,    // silenceTimerRef: id of the last timer armed, until cleared
    timers: map<nat, int>,        // timers still scheduled with the runtime: id -> due time
    nextTimer: nat,               // id the next `setTimeout` returns
    segmentStart: Option<int>,    // segmentStartTimeRef
    recordingRef: Option<nat>,    // recordingRef (read by the timer callback and by start)
    recording: Option<nat>,       // the `recording` React state (read by stop)
    isRecording: bool,            // the `isRecording` React state, exposed as isBackgroundRecording
    error: Option<Failure>,
    controllers: U.Controllers,   // abortControllerRef and the controllers created so far
    created: nat)                 // recordings created so far; the next one gets this id

  const Initial := Recorder(false, None, map[], 0, None, None, None, false, None, U.NoControllers, 0)

  /** Every scheduled timer is the one the ref points to, and ids are fresh. */
  ghost predicate TimersValid(s: Recorder) {
    forall id :: id in s.timers ==> s.silenceTimer == Some(id) && id < s.nextTimer
  }

  ghost predicate Valid(s: Recorder) {
    TimersValid(s) && U.Valid(s.controllers)
  }

  /** The fields the detector and timer logic never write. */
  ghost predicate SameDevice(s: Recorder, r: Recorder) {
    && r.recordingRef == s.recordingRef && r.recording == s.recording
    && r.isRecording == s.isRecording && r.created == s.created
  }

  lemma InitialValid()
    ensures Valid(Initial)
  {
  }

  /** At most one silence timer is ever scheduled. */
  lemma AtMostOneTimer(s: Recorder)
    requires TimersValid(s)
    ensures |s.timers| <= 1
  {
    if s.silenceTimer.Some? && s.silenceTimer.value in s.timers {
      assert s.timers.Keys == {s.silenceTimer.value};
    } else {
      assert s.timers.Keys == {};
    }
    assert |s.timers| == |s.timers.Keys|;
  }

  /** `if (silenceTimerRef.current) { clearTimeout(...); silenceTimerRef.current = null; }` */
  function ClearSilenceTimer(s: Recorder): (r: Recorder)
    ensures r.silenceTimer == None
    ensures TimersValid(s) ==> r.timers == map[] && TimersValid(r)
    ensures r.timers.Keys <= s.timers.Keys && r.nextTimer == s.nextTimer
    ensures r == s.(silenceTimer := None, timers := r.timers)
  {
    if s.silenceTimer.Some? then
      var r := s.(silenceTimer := None, timers := s.timers - {s.silenceTimer.value});
      assert TimersValid(s) ==> r.timers.Keys == {};
      r
    else
      assert TimersValid(s) ==> s.timers.Keys == {};
      s
  }

  /** `handleAudioLevel(status)`: one status update with its `metering`, at time `now`. */
  function HandleAudioLevel(s: Recorder, metering: Option<real>, now: int): (r: Recorder)
    // a status without metering changes nothing
    ensures metering.None? ==> r == s
    // onset: only from not speaking, only strictly above the threshold
    ensures r.isSpeaking && !s.isSpeaking ==> metering.Some? && metering.value > NoiseThreshold
    ensures !s.isSpeaking && metering.Some? && metering.value > NoiseThreshold ==>
      && r.isSpeaking && r.segmentStart == Some(now) && r.silenceTimer == None
      && (TimersValid(s) ==> r.timers == map[])
    ensures !s.isSpeaking && metering.Some? && metering.value <= NoiseThreshold ==> r == s
    // while speaking, samples never end the utterance and never move its start
    ensures s.isSpeaking ==> r.isSpeaking && r.segmentStart == s.segmentStart
    // while speaking, a level at or above the threshold disarms the timer
    ensures s.isSpeaking && metering.Some? && metering.value >= NoiseThreshold ==>
      r.silenceTimer == None && (TimersValid(s) ==> r.timers == map[])
    // while speaking, a level below the threshold arms a timer only if none is in the ref
    ensures s.isSpeaking && metering.Some? && metering.value < NoiseThreshold && s.silenceTimer.None? ==>
      && r.silenceTimer == Some(s.nextTimer)
      && r.timers == s.timers[s.nextTimer := now + SilenceDuration]
    ensures s.isSpeaking && metering.Some? && metering.value < NoiseThreshold && s.silenceTimer.Some? ==> r == s
    // a timer is added only by arming, and arming never leaves a second one behind
    ensures r.timers.Keys - s.timers.Keys != {} ==> s.silenceTimer.None? && r.silenceTimer == Some(s.nextTimer)
    ensures TimersValid(s) ==> TimersValid(r)
    ensures SameDevice(s, r) && r.error == s.error && r.controllers == s.controllers
  {
    if metering.None? then s
    else
      var level := metering.value;
      if s.isSpeaking then
        if level < NoiseThreshold then
          if s.silenceTimer.None? then
            s.(silenceTimer := Some(s.nextTimer),
               timers := s.timers[s.nextTimer := now + SilenceDuration],
               nextTimer := s.nextTimer + 1)
          else s
        else ClearSilenceTimer(s)
      else if level > NoiseThreshold then
        ClearSilenceTimer(s.(isSpeaking := true, segmentStart := Some(now)))
      else s
  }

  /** What the silence-timer callback reads back: `recording.getURI()`, whether
      `fetch(uri)` and `response.blob()` succeeded, and the data URL the
      `FileReader` loads (`None` when it never loads). */
  datatype ReadBack = ReadBack(uri: Option<string>, blobRead: bool, dataUrl: Option<string>)

  /** What one run of the silence-timer callback produces: the state after
      it, the `segmentDuration` it computes and logs once both guards pass,
      the `audioData` it hands to `sendAudioSegment` (field 1 of the data
      URL, `None` for `undefined`), and the outcome of that upload. */
  datatype Fired = Fired(state: Recorder, duration: Option<int>, sent: Option<Option<string>>,
                         upload: Option<U.SendResult>)

  ghost predicate Due(s: Recorder, id: nat, now: int) {
    id in s.timers && s.timers[id] <= now
  }

  /** The runtime runs the callback `handleAudioLevel` armed for timer `id`,
      at time `now`. The upload it starts is run to completion within the
      same event. */
  function SilenceTimerFires(s: Recorder, id: nat, now: int, rb: ReadBack, transport: nat -> U.Attempt): (r: Fired)
    // only a scheduled timer whose delay has passed runs
    ensures !Due(s, id, now) ==> r == Fired(s, None, None, None)
    ensures Due(s, id, now) ==> r.state.timers == s.timers - {id}
    // the callback never clears the ref, never moves the start, never touches the recording
    ensures r.state.silenceTimer == s.silenceTimer && r.state.segmentStart == s.segmentStart
    ensures r.state.nextTimer == s.nextTimer && SameDevice(s, r.state)
    // with no recording or no (truthy) start time it returns and changes nothing else
    ensures Due(s, id, now) && (s.recordingRef.None? || !Truthy(s.segmentStart)) ==>
      r == Fired(s.(timers := s.timers - {id}), None, None, None)
    // otherwise the utterance ends and its duration is computed, whatever the read-back gives
    ensures Due(s, id, now) && s.recordingRef.Some? && Truthy(s.segmentStart) ==>
      !r.state.isSpeaking && r.duration == Some(now - s.segmentStart.value)
    ensures !Due(s, id, now) || s.recordingRef.None? || !Truthy(s.segmentStart) ==>
      r.state.isSpeaking == s.isSpeaking && r.duration.None?
    // audio is sent exactly when it could be read back, and it is field 1 of the data URL
    ensures r.sent.Some? <==>
      Due(s, id, now) && s.recordingRef.Some? && Truthy(s.segmentStart)
      && NonEmpty(rb.uri) && rb.blobRead && rb.dataUrl.Some?
    ensures r.sent.Some? ==> r.sent.value == DataUrl.Payload(rb.dataUrl.value)
    // what is sent goes through the retrying upload, and only the upload moves the controllers
    ensures r.upload.Some? <==> r.sent.Some?
    ensures r.upload.Some? ==> r.upload.value == U.Send(transport, 0, s.controllers)
                               && r.state.controllers == r.upload.value.controllers
    ensures r.upload.None? ==> r.state.controllers == s.controllers
    // a failed fetch or blob read of a truthy URI, and only that, records an error
    ensures r.state.error ==
      if Due(s, id, now) && s.recordingRef.Some? && Truthy(s.segmentStart) && NonEmpty(rb.uri) && !rb.blobRead
      then Some(ReadFailed) else s.error
    ensures Valid(s) ==> Valid(r.state)
  {
    if id !in s.timers || now < s.timers[id] then Fired(s, None, None, None)
    else
      var s1 := s.(timers := s.timers - {id});
      if s1.recordingRef.None? || !Truthy(s1.segmentStart) then Fired(s1, None, None, None)
      else
        var duration := Some(now - s1.segmentStart.value);
        var s2 := s1.(isSpeaking := false);
        if !NonEmpty(rb.uri) then Fired(s2, duration, None, None)
        else if !rb.blobRead then Fired(s2.(error := Some(ReadFailed)), duration, None, None)
        else if rb.dataUrl.None? then Fired(s2, duration, None, None)
        else
          var audio := DataUrl.Payload(rb.dataUrl.value);
          var upload := U.Send(transport, 0, s2.controllers);
          Fired(s2.(controllers := upload.controllers), duration, Some(audio), Some(upload))
  }

  /** What start and stop report: the state afterwards and the error they rethrow, if any. */
  datatype Outcome = Outcome(state: Recorder, thrown: Option<Failure>)

  /** The device's answers during `startBackgroundRecording`. */
  datatype StartEnv = StartEnv(permissionGranted: bool, audioModeSet: bool, created: bool)

  /** `startBackgroundRecording`. Errors from unloading a
      leftover recording are caught and ignored, so they are not an input. */
  function StartBackgroundRecording(s: Recorder, env: StartEnv): (r: Outcome)
    ensures r.thrown.None? <==> env.permissionGranted && env.audioModeSet && env.created
    // a leftover recording is always released first
    ensures r.thrown.Some? ==>
      r.state.recordingRef.None? && r.state.created == s.created && r.state.error == r.thrown
    ensures !env.permissionGranted ==> r.thrown == Some(PermissionDenied)
    // a failure only releases the leftover and records the error: the flag and detector stay as they were
    ensures r.thrown.Some? ==>
      r.state == s.(recordingRef := None, recording := if s.recordingRef.Some? then None else s.recording,
                    error := r.thrown)
    ensures r.thrown.None? ==>
      && r.state.recordingRef == Some(s.created) && r.state.recording == Some(s.created)
      && r.state.created == s.created + 1 && r.state.isRecording && r.state.error.None?
      && !r.state.isSpeaking && r.state.segmentStart.None?
    // the silence timer and the upload controllers are left as they were
    ensures r.state.silenceTimer == s.silenceTimer && r.state.timers == s.timers
    ensures r.state.nextTimer == s.nextTimer && r.state.controllers == s.controllers
    ensures Valid(s) ==> Valid(r.state)
  {
    var s1 := if s.recordingRef.Some? then s.(recordingRef := None, recording := None) else s;
    if !env.permissionGranted then Outcome(s1.(error := Some(PermissionDenied)), Some(PermissionDenied))
    else if !env.audioModeSet then Outcome(s1.(error := Some(AudioModeFailed)), Some(AudioModeFailed))
    else if !env.created then Outcome(s1.(error := Some(CreateFailed)), Some(CreateFailed))
    else
      var id := s1.created;
      Outcome(s1.(recordingRef := Some(id), recording := Some(id), created := id + 1,
                  isRecording := true, error := None, isSpeaking := false, segmentStart := None),
              None)
  }

  /** `stopBackgroundRecording`. `unloaded` is whether
      `recording.stopAndUnloadAsync()` resolves. */
  function StopBackgroundRecording(s: Recorder, unloaded: bool): (r: Outcome)
    // the silence timer is cleared first, whatever happens next
    ensures r.state.silenceTimer == None
    ensures TimersValid(s) ==> r.state.timers == map[]
    ensures r.thrown.None? <==> s.recording.None? || unloaded
    ensures r.thrown.Some? ==>
      r.thrown == Some(UnloadFailed) && r.state.error == r.thrown && r.state.recording == s.recording
    // a failed unload throws before the resets: only the timer and the error change
    ensures r.thrown.Some? ==>
      r.state == s.(silenceTimer := None, timers := r.state.timers, error := Some(UnloadFailed))
    ensures r.thrown.None? ==>
      && !r.state.isSpeaking && r.state.segmentStart.None? && r.state.recording.None?
      && !r.state.isRecording && r.state.controllers.current.None? && r.state.error == s.error
    ensures r.thrown.None? && U.Valid(s.controllers) ==> U.Live(r.state.controllers) == {}
    // the recording ref is not cleared by stop
    ensures r.state.recordingRef == s.recordingRef && r.state.created == s.created
    ensures Valid(s) ==> Valid(r.state)
  {
    var s1 := ClearSilenceTimer(s);
    if s1.recording.Some? && !unloaded then
      Outcome(s1.(error := Some(UnloadFailed)), Some(UnloadFailed))
    else
      Outcome(s1.(recording := None, isRecording := false, isSpeaking := false,
                  segmentStart := None, controllers := U.Abort(s1.controllers)),
              None)
  }

  /** Stopping twice gives the state of stopping once, and the second call
      cannot fail because no recording is left to unload. */
  lemma StopIdempotent(s: Recorder, unloaded: bool, unloadedAgain: bool)
    requires StopBackgroundRecording(s, unloaded).thrown.None?
    ensures StopBackgroundRecording(StopBackgroundRecording(s, unloaded).state, unloadedAgain)
            == StopBackgroundRecording(s, unloaded)
  {
  }

  /** The events the provider reacts to. */
  datatype Event =
    | Status(metering: Option<real>, now: int)
    | TimerFires(id: nat, now: int, readBack: ReadBack, transport: nat -> U.Attempt)
    | Start(env: StartEnv)
    | Stop(unloaded: bool)

  function Step(s: Recorder, e: Event): (r: Recorder)
    ensures Valid(s) ==> Valid(r)
  {
    match e
    case Status(m, now) => HandleAudioLevel(s, m, now)
    case TimerFires(id, now, rb, t) => SilenceTimerFires(s, id, now, rb, t).state
    case Start(env) => StartBackgroundRecording(s, env).state
    case Stop(u) => StopBackgroundRecording(s, u).state
  }

  function Run(s: Recorder, events: seq<Event>): Recorder
    decreases |events|
  {
    if events == [] then s else Run(Step(s, events[0]), events[1..])
  }

  /** Whatever the samples, timer firings, starts, stops, device and network
      outcomes, at most one silence timer is ever scheduled and at most one
      upload controller is live. */
  lemma {:induction false} RunKeepsValid(s: Recorder, events: seq<Event>)
    requires Valid(s)
    ensures Valid(Run(s, events))
    ensures |Run(s, events).timers| <= 1
    ensures forall id :: id in U.Live(Run(s, events).controllers) ==> Run(s, events).controllers.current == Some(id)
    decreases |events|
  {
    if events == [] {
      AtMostOneTimer(s);
    } else {
      RunKeepsValid(Step(s, events[0]), events[1..]);
    }
  }

  /** The phases of a three-phase reference detector: idle, speaking, and
      speaking with a silence timer pending. */
  datatype Phase = Idle | Speaking | TrailingSilence

  function PhaseOf(s: Recorder): Phase {
    if !s.isSpeaking then Idle
    else if s.silenceTimer.Some? && s.silenceTimer.value in s.timers then TrailingSilence
    else Speaking
  }

  /** The reference detector's transition on a metered sample, in which a
      level strictly above the threshold is speech and a level at or below
      it is silence. */
  function ReferenceStep(p: Phase, level: real): Phase {
    match p
    case Idle => if level > NoiseThreshold then Speaking else Idle
    case Speaking => if level > NoiseThreshold then Speaking else TrailingSilence
    case TrailingSilence => if level > NoiseThreshold then Speaking else TrailingSilence
  }

  /** A speaking detector whose ref still holds an already-fired timer: quiet
      samples cannot arm a new one until a loud sample clears the ref. */
  ghost predicate StaleRefWhileSpeaking(s: Recorder) {
    s.isSpeaking && s.silenceTimer.Some? && s.silenceTimer.value !in s.timers
  }

  /** Away from a stale ref and off the threshold itself, each metered sample
      moves the detector exactly as the reference detector does. */
  lemma SampleFollowsReference(s: Recorder, level: real, now: int)
    requires TimersValid(s) && !StaleRefWhileSpeaking(s) && level != NoiseThreshold
    ensures PhaseOf(HandleAudioLevel(s, Some(level), now)) == ReferenceStep(PhaseOf(s), level)
    ensures !StaleRefWhileSpeaking(HandleAudioLevel(s, Some(level), now))
  {
  }

  /** At exactly the threshold `handleAudioLevel` and the reference detector
      part ways: the reference keeps a trailing silence armed, while the code
      (`<` to arm, `else` to clear) disarms the timer and goes back to plain
      speaking. */
  lemma ThresholdSampleDisarms(s: Recorder, now: int)
    requires TimersValid(s) && PhaseOf(s) == TrailingSilence
    ensures PhaseOf(HandleAudioLevel(s, Some(NoiseThreshold), now)) == Speaking
    ensures ReferenceStep(PhaseOf(s), NoiseThreshold) == TrailingSilence
  {
  }

  /** A trailing silence whose timer comes due ends the utterance: the
      detector is idle again, the stale handle stays in the ref, the logged
      duration runs from onset to now, and audio that can be read back is sent. */
  lemma TimerEndsUtterance(s: Recorder, now: int, rb: ReadBack, transport: nat -> U.Attempt)
    requires TimersValid(s) && PhaseOf(s) == TrailingSilence
    requires s.timers[s.silenceTimer.value] <= now
    requires s.recordingRef.Some? && Truthy(s.segmentStart)
    ensures PhaseOf(SilenceTimerFires(s, s.silenceTimer.value, now, rb, transport).state) == Idle
    ensures SilenceTimerFires(s, s.silenceTimer.value, now, rb, transport).state.timers == map[]
    ensures SilenceTimerFires(s, s.silenceTimer.value, now, rb, transport).duration
            == Some(now - s.segmentStart.value)
    ensures NonEmpty(rb.uri) && rb.blobRead && rb.dataUrl.Some? ==>
      SilenceTimerFires(s, s.silenceTimer.value, now, rb, transport).sent == Some(DataUrl.Payload(rb.dataUrl.value))
  {
    var id := s.silenceTimer.value;
    assert s.timers.Keys == {id};
    assert (s.timers - {id}).Keys == {};
  }

  /** A loud sample before the timer is due cancels it: the utterance goes
      on and no later firing of that timer can end it. */
  lemma LoudSampleCancelsSegment(s: Recorder, level: real, now: int, later: int,
                                 rb: ReadBack, transport: nat -> U.Attempt)
    requires TimersValid(s) && PhaseOf(s) == TrailingSilence && level > NoiseThreshold
    ensures PhaseOf(HandleAudioLevel(s, Some(level), now)) == Speaking
    ensures SilenceTimerFires(HandleAudioLevel(s, Some(level), now), s.silenceTimer.value, later, rb, transport)
            == Fired(HandleAudioLevel(s, Some(level), now), None, None, None)
  {
  }
}
