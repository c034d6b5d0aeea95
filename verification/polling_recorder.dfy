/** The polling background-recording context,
    `frontend/parrot/app/context/BackgroundRecordingContext.tsx`: a
    `setInterval` body polls the recording's status every `PollInterval` ms,
    keeps the time the current quiet run began, and once the quiet has
    lasted `SilenceDuration` it stops the recording (uploading it) and
    starts a fresh one.

    Live intervals are an explicit map from interval id to that interval's
    `silenceStartTime`; `monitoringIntervalRef` points into it. The device
    and the network are outcomes supplied with each event. */
module PollingRecorder {
  import opened Nullable
  import DataUrl

  const NoiseThreshold: real := -35.0
  const SilenceDuration: int := 1000
  const PollInterval: nat := 100
  const UploadUrl: string := "http://172.20.10.2:5000/send-transcription-to-s3"

  /** One `getStatusAsync()`: it throws, or reports whether the recording is
      still recording and its metering level, if any. */
  datatype Poll = PollThrew | Polled(isRecording: bool, metering: Option<real>)

  /** `checkAudioLevel(recording)`: is the recording hearing noise? */
  function CheckAudioLevel(p: Poll): (loud: bool)
    ensures loud ==> p.Polled? && p.isRecording && p.metering.Some?
    ensures p.Polled? && p.isRecording && p.metering.Some? ==> (loud <==> p.metering.value > NoiseThreshold)
  {
    match p
    case PollThrew => false
    case Polled(isRecording, metering) =>
      if !isRecording then false
      else if metering.Some? then metering.value > NoiseThreshold
      else false
  }

  datatype Poller = Poller(
    isBackgroundRecording: bool,        // the React state flag
    recording: Option<nat>,             // the `recording` ref
    monitoringInterval: Option<nat>,    // monitoringIntervalRef
    monitors: map<nat, Option<int>>,    // live intervals: id -> that closure's silenceStartTime
    created: nat,                       // recordings created so far
    intervals: nat)                     // intervals created so far

  const Initial := Poller(false, None, None, map[], 0, 0)

  /** The flag mirrors the recording ref, and a live interval exists only
      while the flag is up, as the one the ref points to. */
  ghost predicate Valid(s: Poller) {
    && (s.isBackgroundRecording <==> s.recording.Some?)
    && (s.recording.Some? ==> s.recording.value < s.created)
    && (forall id :: id in s.monitors ==>
          s.isBackgroundRecording && s.monitoringInterval == Some(id) && id < s.intervals)
  }

  lemma InitialValid()
    ensures Valid(Initial)
  {
  }

  /** At most one monitoring interval is ever live. */
  lemma AtMostOneMonitor(s: Poller)
    requires Valid(s)
    ensures |s.monitors| <= 1
  {
    if s.monitoringInterval.Some? && s.monitoringInterval.value in s.monitors {
      assert s.monitors.Keys == {s.monitoringInterval.value};
    } else {
      assert s.monitors.Keys == {};
    }
    assert |s.monitors| == |s.monitors.Keys|;
  }

  /** The device's answers during `startBackgroundRecording`. */
  datatype StartEnv = StartEnv(audioModeSet: bool, created: bool)

  /** `startBackgroundRecording`. Failures are caught and logged. */
  function StartBackgroundRecording(s: Poller, env: StartEnv): (r: Poller)
    // already flagged active: nothing happens
    ensures s.isBackgroundRecording ==> r == s
    ensures !s.isBackgroundRecording && !(env.audioModeSet && env.created) ==>
      r == s.(recording := None)
    ensures !s.isBackgroundRecording && env.audioModeSet && env.created ==>
      && r.isBackgroundRecording && r.recording == Some(s.created) && r.created == s.created + 1
      && r.monitoringInterval == Some(s.intervals) && r.intervals == s.intervals + 1
      && r.monitors == s.monitors[s.intervals := None]
    ensures Valid(s) ==> Valid(r)
  {
    if s.isBackgroundRecording then s
    else if !env.audioModeSet || !env.created then s.(isBackgroundRecording := false, recording := None)
    else
      var iv := s.intervals;
      s.(recording := Some(s.created), created := s.created + 1, isBackgroundRecording := true,
         monitors := s.monitors[iv := None], monitoringInterval := Some(iv), intervals := iv + 1)
  }

  /** The text a blob read yields: its size, and the data URL `onloadend`
      sees (`None` when the read failed and `reader.result` is null). */
  datatype Blob = Blob(size: nat, dataUrl: Option<string>)

  /** The device's and the network's answers during the stop path:
      whether `stopAndUnloadAsync()` resolves, `getURI()`, and the blob
      `fetch(uri)` gives (`None` when the fetch throws). */
  datatype StopEnv = StopEnv(unloaded: bool, uri: Option<string>, blob: Option<Blob>)

  /** The POST the stop path issues: JSON `{audio: <field 1 of the data URL>}`
      to `UploadUrl`; an `undefined` field is dropped by `JSON.stringify`. */
  datatype Upload = Upload(url: string, audio: Option<string>)

  datatype Stopped = Stopped(state: Poller, upload: Option<Upload>)

  /** `stopBackgroundRecording`. */
  function StopBackgroundRecording(s: Poller, env: StopEnv): (r: Stopped)
    // no recording: nothing happens
    ensures s.recording.None? ==> r == Stopped(s, None)
    // otherwise the ref, the flag and the interval are cleared before the device is awaited
    ensures s.recording.Some? ==>
      && r.state.recording.None? && !r.state.isBackgroundRecording && r.state.monitoringInterval.None?
      && r.state.created == s.created && r.state.intervals == s.intervals
    ensures s.recording.Some? && Valid(s) ==> r.state.monitors == map[]
    // an upload happens only for a non-empty blob read back from a URI
    ensures r.upload.Some? <==>
      && s.recording.Some? && env.unloaded && NonEmpty(env.uri)
      && env.blob.Some? && env.blob.value.size > 0 && env.blob.value.dataUrl.Some?
    ensures r.upload.Some? ==>
      r.upload.value == Upload(UploadUrl, DataUrl.Payload(env.blob.value.dataUrl.value))
    ensures Valid(s) ==> Valid(r.state)
  {
    if s.recording.None? then Stopped(s, None)
    else
      var live := if s.monitoringInterval.Some? then s.monitors - {s.monitoringInterval.value} else s.monitors;
      var s1 := s.(recording := None, isBackgroundRecording := false, monitoringInterval := None, monitors := live);
      assert Valid(s) ==> live.Keys == {};
      var upload :=
        if env.unloaded && NonEmpty(env.uri) && env.blob.Some? && env.blob.value.size > 0
           && env.blob.value.dataUrl.Some?
        then Some(Upload(UploadUrl, DataUrl.Payload(env.blob.value.dataUrl.value)))
        else None;
      Stopped(s1, upload)
  }

  /** Stopping a second time does nothing. */
  lemma StopIdempotent(s: Poller, env: StopEnv, envAgain: StopEnv)
    ensures StopBackgroundRecording(StopBackgroundRecording(s, env).state, envAgain).state
            == StopBackgroundRecording(s, env).state
    ensures StopBackgroundRecording(StopBackgroundRecording(s, env).state, envAgain).upload.None?
  {
  }

  /** The decision one metered poll makes about the quiet run:
      the new `silenceStartTime`, and whether the quiet has lasted long enough. */
  datatype Verdict = Continue(silenceStart: Option<int>) | Finalize

  /** The interval body on a metered level: a loud level forgets the quiet
      run; the first quiet level remembers `now`; a later quiet level
      finalises once the run has lasted `SilenceDuration`. Falsy starts
      (`null`, `0`) count as no quiet run. */
  function SilenceStep(silenceStart: Option<int>, level: real, now: int): (v: Verdict)
    ensures level > NoiseThreshold ==> v.Continue? && !Truthy(v.silenceStart)
    ensures level <= NoiseThreshold && !Truthy(silenceStart) ==> v == Continue(Some(now))
    ensures v.Finalize? <==>
      level <= NoiseThreshold && Truthy(silenceStart) && now - silenceStart.value >= SilenceDuration
    ensures v.Continue? && level <= NoiseThreshold && Truthy(silenceStart) ==> v.silenceStart == silenceStart
  {
    if level > NoiseThreshold then
      Continue(if Truthy(silenceStart) then None else silenceStart)
    else if !Truthy(silenceStart) then Continue(Some(now))
    else if now - silenceStart.value >= SilenceDuration then Finalize
    else Continue(silenceStart)
  }

  datatype Ticked = Ticked(state: Poller, finalized: bool, upload: Option<Upload>)

  /** One run of the `setInterval` body of interval `id` at time `now`. On
      finalisation it clears itself, awaits the stop and issues a restart. */
  function MonitorTick(s: Poller, id: nat, now: int, poll: Poll, stopEnv: StopEnv, startEnv: StartEnv): (r: Ticked)
    // a cleared interval never runs
    ensures id !in s.monitors ==> r == Ticked(s, false, None)
    // not recording any more, or a thrown poll: monitoring ends quietly
    ensures id in s.monitors && (poll.PollThrew? || !poll.isRecording) ==>
      r == Ticked(s.(monitors := s.monitors - {id}), false, None)
    // no metering: the sample is ignored
    ensures id in s.monitors && poll == Polled(true, None) ==> r == Ticked(s, false, None)
    // a metered sample moves the quiet run as SilenceStep says, finalising exactly when it says so
    ensures id in s.monitors && poll.Polled? && poll.isRecording && poll.metering.Some? ==>
      (r.finalized <==> SilenceStep(s.monitors[id], poll.metering.value, now).Finalize?)
    ensures !r.finalized ==> r.upload.None? && r.state.recording == s.recording
    ensures id in s.monitors && poll.Polled? && poll.isRecording && poll.metering.Some? && !r.finalized ==>
      r.state == s.(monitors := s.monitors[id := SilenceStep(s.monitors[id], poll.metering.value, now).silenceStart])
    // finalising stops this interval, then the recording, then restarts
    ensures r.finalized ==>
      var stopped := StopBackgroundRecording(s.(monitors := s.monitors - {id}), stopEnv);
      r.state == StartBackgroundRecording(stopped.state, startEnv) && r.upload == stopped.upload
    ensures Valid(s) ==> Valid(r.state)
  {
    if id !in s.monitors then Ticked(s, false, None)
    else
      match poll
      case PollThrew => Ticked(s.(monitors := s.monitors - {id}), false, None)
      case Polled(isRecording, metering) =>
        if !isRecording then Ticked(s.(monitors := s.monitors - {id}), false, None)
        else if metering.None? then Ticked(s, false, None)
        else
          match SilenceStep(s.monitors[id], metering.value, now)
          case Continue(start) => Ticked(s.(monitors := s.monitors[id := start]), false, None)
          case Finalize =>
            var stopped := StopBackgroundRecording(s.(monitors := s.monitors - {id}), stopEnv);
            Ticked(StartBackgroundRecording(stopped.state, startEnv), true, stopped.upload)
  }

  /** A poll `checkAudioLevel` calls loud is exactly one after which no quiet
      run is pending (for a positive `Date.now()`). */
  lemma CheckAudioLevelMatchesMonitor(s: Poller, id: nat, now: int, level: real,
                                      stopEnv: StopEnv, startEnv: StartEnv)
    requires id in s.monitors && now > 0
    ensures var r := MonitorTick(s, id, now, Polled(true, Some(level)), stopEnv, startEnv);
      CheckAudioLevel(Polled(true, Some(level))) <==> !r.finalized && !Truthy(r.state.monitors[id])
  {
  }

  /** A monitor that ended because the recording stopped on its own leaves
      the flag up, so a later start does nothing until stop is called. */
  lemma SelfEndedMonitorBlocksRestart(s: Poller, id: nat, now: int, stopEnv: StopEnv, startEnv: StartEnv)
    requires Valid(s) && id in s.monitors
    ensures var r := MonitorTick(s, id, now, Polled(false, None), stopEnv, startEnv).state;
      r.monitors == map[] && r.isBackgroundRecording
      && StartBackgroundRecording(r, startEnv) == r
  {
    assert s.monitors.Keys == {id};
    assert (s.monitors - {id}).Keys == {};
  }

  /** The events the provider reacts to. */
  datatype Event =
    | Tick(id: nat, now: int, poll: Poll, stopEnv: StopEnv, startEnv: StartEnv)
    | Start(startEnv: StartEnv)
    | Stop(stopEnv: StopEnv)

  function Step(s: Poller, e: Event): (r: Poller)
    ensures Valid(s) ==> Valid(r)
  {
    match e
    case Tick(id, now, poll, stopEnv, startEnv) => MonitorTick(s, id, now, poll, stopEnv, startEnv).state
    case Start(startEnv) => StartBackgroundRecording(s, startEnv)
    case Stop(stopEnv) => StopBackgroundRecording(s, stopEnv).state
  }

  function Run(s: Poller, events: seq<Event>): Poller
    decreases |events|
  {
    if events == [] then s else Run(Step(s, events[0]), events[1..])
  }

  /** Whatever the polls, starts, stops and device outcomes, the flag mirrors
      the recording ref and at most one monitoring interval is live. */
  lemma {:induction false} RunKeepsValid(s: Poller, events: seq<Event>)
    requires Valid(s)
    ensures Valid(Run(s, events))
    ensures |Run(s, events).monitors| <= 1
    decreases |events|
  {
    if events == [] {
      AtMostOneMonitor(s);
    } else {
      RunKeepsValid(Step(s, events[0]), events[1..]);
    }
  }

  /** A metered sample from a recording that is still recording. */
  datatype Sample = Sample(level: real, at: int)

  predicate Quiet(x: Sample) {
    x.level <= NoiseThreshold
  }

  /** Where the run of quiet samples reaching back from just before `i` begins. */
  function RunStart(xs: seq<Sample>, i: nat): (j: nat)
    requires i < |xs|
    ensures j <= i
    ensures forall k :: j <= k < i ==> Quiet(xs[k])
    ensures j > 0 ==> !Quiet(xs[j - 1])
  {
    if i > 0 && Quiet(xs[i - 1]) then RunStart(xs, i - 1) else i
  }

  /** Sample `i` confirms the end of the utterance: it is quiet, the quiet
      run it belongs to began at an earlier sample, and that was at least
      `SilenceDuration` before it. */
  ghost predicate SilenceConfirmed(xs: seq<Sample>, i: nat)
    requires i < |xs|
  {
    Quiet(xs[i]) && RunStart(xs, i) < i && xs[i].at - xs[RunStart(xs, i)].at >= SilenceDuration
  }

  /** The `silenceStartTime` the interval holds after the first `n` samples. */
  function QuietSince(xs: seq<Sample>, n: nat): Option<int>
    requires n <= |xs|
  {
    if n > 0 && Quiet(xs[n - 1]) then Some(xs[RunStart(xs, n - 1)].at) else None
  }

  /** Polled every `PollInterval` ms through unbroken quiet, the silence is
      confirmed from the first poll at least `SilenceDuration` after the
      first quiet poll on: the eleventh. */
  lemma SteadyQuietConfirmsOnEleventhPoll(xs: seq<Sample>, t0: int)
    requires forall k :: 0 <= k < |xs| ==> Quiet(xs[k]) && xs[k].at == t0 + PollInterval * k
    ensures forall i :: 0 <= i < |xs| ==> (SilenceConfirmed(xs, i) <==> PollInterval * i >= SilenceDuration)
    ensures forall i :: 0 <= i < |xs| ==> (SilenceConfirmed(xs, i) <==> i >= 10)
  {
  }

  /** The interval body run over a stream of metered samples, as a loop:
      returns the index of the sample on which it finalises, if any. Sample
      times are `Date.now()` readings, so they are positive. */
  method MonitorSamples(xs: seq<Sample>) returns (finalizedAt: Option<nat>)
    requires forall k :: 0 <= k < |xs| ==> xs[k].at > 0
    ensures finalizedAt.Some? ==>
      finalizedAt.value < |xs| && SilenceConfirmed(xs, finalizedAt.value)
    ensures finalizedAt.Some? ==> forall k :: 0 <= k < finalizedAt.value ==> !SilenceConfirmed(xs, k)
    ensures finalizedAt.None? ==> forall k :: 0 <= k < |xs| ==> !SilenceConfirmed(xs, k)
  {
    var silenceStart: Option<int> := None;
    var i := 0;
    while i < |xs|
      invariant 0 <= i <= |xs|
      invariant silenceStart == QuietSince(xs, i)
      invariant forall k :: 0 <= k < i ==> !SilenceConfirmed(xs, k)
    {
      var verdict := SilenceStep(silenceStart, xs[i].level, xs[i].at);
      if verdict.Finalize? {
        return Some(i);
      }
      silenceStart := verdict.silenceStart;
      i := i + 1;
    }
    return None;
  }
}
