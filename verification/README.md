# Parrot: voice-activity detection, segment upload, sentence grouping and the typewriter

This project models, in Dafny, the deterministic logic of the Parrot app. Parrot is a phone app that records in the background, cuts the recording into utterances, and ships the audio to a backend that turns transcripts into sentences. Four pieces are modelled.

- **The streaming recording context** (`StreamingRecorder`, `SegmentUploader`) is the provider under `frontend/parrot/context/`.
  - An energy-threshold voice-activity detector (`handleAudioLevel`) reacts to the recording's metering samples.
  - A silence timer ends an utterance, logs its duration, and hands the recorded audio to `sendAudioSegment`.
  - `sendAudioSegment` POSTs with up to three retries. Each attempt aborts the previous attempt's `AbortController`.
  - Start and stop operations reset the detector.
- **The polling recording context** (`PollingRecorder`) is the provider under `frontend/parrot/app/context/`.
  - A 100 ms interval polls the recording and tracks `silenceStartTime`.
  - After 1000 ms of quiet, the interval stops the recording, uploads the audio and starts a new recording.
  - `checkAudioLevel` classifies a single poll.
  - Start and stop each have a guard that makes them a no-op when there is nothing to do.
- **Sentence grouping** (`TextSegmentation`): `text_segmentation` folds the syntax tokens returned by Amazon Comprehend into sentences ending at `.`, `!` or `?`.
- **The landing screen's typewriter** (`Typewriter`): the effect that types and deletes four lines, and the blinking cursor.

Shared pieces:
- `Nullable` holds nullable values and JavaScript truthiness. `0` and `""` are falsy, which matters for `if (!segmentStartTimeRef.current)`, `if (silenceStartTime)` and `if (!uri)`.
- `DataUrl` models `split(',')[1]`, applied to a data URL.

Modelling choices:
- Time is the `now` parameter of each event.
- `setTimeout`/`setInterval` are explicit maps from a timer or interval id to its pending data, with the ref pointing into the map. "At most one silence timer" and "at most one monitoring interval" are therefore statements about these maps.
- The device, the file reads and the network are outcomes supplied with each event:
  - a status poll's answer;
  - whether `stopAndUnloadAsync` resolves;
  - the URI, blob and data URL read back;
  - a `transport` from attempt number to HTTP outcome.

Behaviour of the code worth knowing:
- **Root variant threshold.** Arming uses `<` and onset uses `>`. A sample exactly at −30 dB therefore disarms a pending timer (`ThresholdSampleDisarms`). A three-phase reference detector that counts a level at the threshold as silence (`ReferenceStep`) would keep the timer armed. Off the threshold, the two agree (`SampleFollowsReference`).
- **No restart after the silence timer (root variant).** The silence timer's callback does not stop and reopen the recording. It reads the whole recording file so far and sends it. The segment duration it computes is only logged.
- **Stale timer handle (root variant).** The callback never clears `silenceTimerRef`, so a fired timer's handle stays in the ref (`StaleRefWhileSpeaking`). It stays there until one of three things clears it: a sample at or above −30 dB while speaking, a speech onset, or `stopBackgroundRecording`. A quiet sample does not clear it, and neither does an idle sample at exactly −30 dB.
- **Polling monitor ends quietly.** When the recording reports it is no longer recording, or a poll throws, the monitor stops but `isBackgroundRecording` stays up. A later start is then a no-op until stop is called (`SelfEndedMonitorBlocksRestart`).
- **Permission.** Only the root variant asks for microphone permission.
- **Different constants.** The two variants keep their own thresholds (−30 and −35 dB) and silence windows (5000 and 1000 ms).
- **Unused code.** `checkAudioLevel` is never called by the app. `MIN_NOISE_DURATION` and `REQUEST_TIMEOUT` are never used. The polling variant's `silenceTimerRef` is never assigned; only its unmount cleanup reads it.

## Model

| member | source | states |
|---|---|---|
| DataUrl.Split | frontend/parrot/context/BackgroundRecordingContext.tsx:127 | `split(',')` yields at least one piece and no piece contains a comma |
| DataUrl.SplitCount | frontend/parrot/context/BackgroundRecordingContext.tsx:127 | there is a field 1 exactly when the data URL contains a comma |
| DataUrl.JoinSplit | frontend/parrot/context/BackgroundRecordingContext.tsx:127 | re-joining the pieces with commas gives back the original text (nothing is lost by splitting) |
| DataUrl.SplitJoin | frontend/parrot/context/BackgroundRecordingContext.tsx:127 | comma-free pieces joined with commas split back into the same pieces |
| DataUrl.Payload | frontend/parrot/app/context/BackgroundRecordingContext.tsx:166 | field 1 is `undefined` exactly when there is no comma; otherwise it is a comma-free string |
| DataUrl.PayloadOfDataUrl | frontend/parrot/app/context/BackgroundRecordingContext.tsx:166 | for a data URL `header,base64` with a comma-free header and body, the text sent is exactly the base64 body |
| SegmentUploader.Install | frontend/parrot/context/BackgroundRecordingContext.tsx:44-47 | the previous controller is aborted before a new one is installed, so the new controller is the only live one |
| SegmentUploader.Abort | frontend/parrot/context/BackgroundRecordingContext.tsx:251-255 | after stop aborts and clears the ref, no controller is live |
| SegmentUploader.Send | frontend/parrot/context/BackgroundRecordingContext.tsx:42-76 | at least one and at most `MAX_RETRIES + 1` attempts; every attempt before the last failed; delivered iff the last attempt had a 2xx status and a parsable body; an error is rethrown only once the retries are used up; one `RETRY_DELAY` is waited per retry; afterwards only the last controller is live |
| SegmentUploader.AlwaysFailingMakesFourAttempts | frontend/parrot/context/BackgroundRecordingContext.tsx:68-74 | a transport that always fails sees exactly 4 POSTs and 3000 ms of waiting, then the error is rethrown |
| SegmentUploader.FirstSuccessStops | frontend/parrot/context/BackgroundRecordingContext.tsx:59-64 | the first acknowledged attempt within the budget ends the retries and the segment counts as delivered |
| StreamingRecorder.InitialValid | frontend/parrot/context/BackgroundRecordingContext.tsx:33-40 | the provider's initial refs and state satisfy the timer and controller invariant |
| StreamingRecorder.AtMostOneTimer | frontend/parrot/context/BackgroundRecordingContext.tsx:84-89 | under the invariant, at most one silence timer is scheduled with the runtime |
| StreamingRecorder.ClearSilenceTimer | frontend/parrot/context/BackgroundRecordingContext.tsx:143-147 | clearing cancels the one scheduled timer and empties the ref, touching nothing else |
| StreamingRecorder.HandleAudioLevel | frontend/parrot/context/BackgroundRecordingContext.tsx:78-165 | no metering: no change; onset only from idle and strictly above −30 dB, recording the start as now and disarming; an idle sample at or below the threshold changes nothing; while speaking a level below the threshold arms a 5000 ms timer only if the ref is empty, and a level at or above it disarms; speaking never ends here; the at-most-one-timer invariant is kept |
| StreamingRecorder.SilenceTimerFires | frontend/parrot/context/BackgroundRecordingContext.tsx:89-138 | only a due timer runs; with no recording or a falsy start it returns changing nothing else; otherwise speaking ends and the logged duration is now − start, whatever the read-back gives; audio is sent iff the URI, blob and data URL are all read back, and it is field 1 of the data URL, through the retrying upload; an error is recorded exactly when a truthy URI is fetched and the blob read fails, and the error is otherwise unchanged; the ref is never cleared |
| StreamingRecorder.StartBackgroundRecording | frontend/parrot/context/BackgroundRecordingContext.tsx:167-228 | a leftover recording is released first; permission denied throws and creates nothing; success iff permission, audio mode and creation all succeed, then recording is on, speaking is false and the start is null; the timer and controllers are untouched; a failure only releases the leftover and records the error, leaving the recording flag and the detector as they were |
| StreamingRecorder.StopBackgroundRecording | frontend/parrot/context/BackgroundRecordingContext.tsx:230-263 | the timer is always disarmed first; a failed unload rethrows, and then only the timer and the error change: the recording stays on and every controller stays live; otherwise speaking is false, start is null, recording is off and no controller is live |
| StreamingRecorder.StopIdempotent | frontend/parrot/context/BackgroundRecordingContext.tsx:234-255 | after a successful stop, stopping again changes nothing and cannot fail |
| StreamingRecorder.Step | frontend/parrot/context/BackgroundRecordingContext.tsx:78-263 | every sample, timer firing, start and stop keeps the timer and controller invariant |
| StreamingRecorder.RunKeepsValid | frontend/parrot/context/BackgroundRecordingContext.tsx:84-89 | over any sequence of events and outcomes, at most one silence timer is ever scheduled and only the current controller can be live |
| StreamingRecorder.SampleFollowsReference | frontend/parrot/context/BackgroundRecordingContext.tsx:84-164 | off the threshold and without a stale ref, each sample moves idle / speaking / trailing-silence exactly as a three-phase reference detector (speech strictly above the threshold, silence at or below it) does |
| StreamingRecorder.ThresholdSampleDisarms | frontend/parrot/context/BackgroundRecordingContext.tsx:141-147 | a sample exactly at −30 dB during trailing silence disarms the timer, where the reference detector would keep it armed |
| StreamingRecorder.TimerEndsUtterance | frontend/parrot/context/BackgroundRecordingContext.tsx:97-110 | a due trailing-silence timer with a recording and a start time makes the detector idle, logs the duration from onset to now, and sends the audio when it can be read back |
| StreamingRecorder.LoudSampleCancelsSegment | frontend/parrot/context/BackgroundRecordingContext.tsx:141-147 | a loud sample during trailing silence cancels the timer, so its later firing does nothing |
| PollingRecorder.CheckAudioLevel | frontend/parrot/app/context/BackgroundRecordingContext.tsx:22-37 | true iff the poll succeeded, the recording is recording, metering is defined and above −35 dB; false on any error |
| PollingRecorder.InitialValid | frontend/parrot/app/context/BackgroundRecordingContext.tsx:14-17 | the initial flag, refs and intervals satisfy the invariant |
| PollingRecorder.AtMostOneMonitor | frontend/parrot/app/context/BackgroundRecordingContext.tsx:79-126 | under the invariant, at most one monitoring interval is live |
| PollingRecorder.StartBackgroundRecording | frontend/parrot/app/context/BackgroundRecordingContext.tsx:39-132 | a no-op when already flagged active; a failure clears the recording and leaves the flag down; success creates one recording and one monitor with no quiet run, referenced by the interval ref; keeps the invariant |
| PollingRecorder.StopBackgroundRecording | frontend/parrot/app/context/BackgroundRecordingContext.tsx:134-193 | a no-op without a recording; otherwise the ref, the flag and the interval are cleared whatever the device does; an upload of field 1 of the data URL to the transcription endpoint happens iff the unload succeeded, a URI exists, the blob was fetched with size > 0 and its data URL was read |
| PollingRecorder.StopIdempotent | frontend/parrot/app/context/BackgroundRecordingContext.tsx:135-138 | stopping a second time changes nothing and uploads nothing |
| PollingRecorder.SilenceStep | frontend/parrot/app/context/BackgroundRecordingContext.tsx:97-116 | a loud sample forgets the quiet run; the first quiet sample records now and never finalises; finalisation happens iff the sample is quiet and at least 1000 ms have passed since a truthy quiet-run start |
| PollingRecorder.MonitorTick | frontend/parrot/app/context/BackgroundRecordingContext.tsx:79-123 | a cleared interval does nothing; not recording, or a thrown poll, ends the monitor quietly; no metering is ignored; a metered sample finalises exactly when `SilenceStep` does, and then the tick clears itself, stops (uploading) and restarts; keeps the invariant |
| PollingRecorder.CheckAudioLevelMatchesMonitor | frontend/parrot/app/context/BackgroundRecordingContext.tsx:22-37 | `checkAudioLevel` calls a sample loud exactly when, after the monitor sees it, no quiet run is pending and nothing was finalised |
| PollingRecorder.SelfEndedMonitorBlocksRestart | frontend/parrot/app/context/BackgroundRecordingContext.tsx:87-91 | a monitor that ends because the recording stopped leaves the flag up, so a following start is a no-op |
| PollingRecorder.Step | frontend/parrot/app/context/BackgroundRecordingContext.tsx:39-193 | every tick, start and stop keeps the flag mirroring the recording ref and the monitor tied to the interval ref |
| PollingRecorder.RunKeepsValid | frontend/parrot/app/context/BackgroundRecordingContext.tsx:79-126 | over any sequence of ticks, starts, stops and outcomes, at most one monitoring interval is live |
| PollingRecorder.RunStart | frontend/parrot/app/context/BackgroundRecordingContext.tsx:102-105 | the quiet run a sample belongs to: every sample from its start up to the current sample is quiet, and the sample before its start is loud |
| PollingRecorder.SteadyQuietConfirmsOnEleventhPoll | frontend/parrot/app/context/BackgroundRecordingContext.tsx:97-123 | polled every 100 ms through unbroken quiet, silence is confirmed exactly from the poll 1000 ms after the first quiet one: the eleventh |
| PollingRecorder.MonitorSamples | frontend/parrot/app/context/BackgroundRecordingContext.tsx:79-123 | run over a stream of samples, the interval finalises on the first sample that ends a quiet run lasting at least 1000 ms (measured from that run's first sample), and never finalises if no sample does |
| TextSegmentation.Join | modules/text_segmentation.py:21 | `" ".join` keeps every character of every token and adds exactly one separator between neighbours; it starts with the first token; no tokens give `""` |
| TextSegmentation.JoinAppend | modules/text_segmentation.py:21 | joining two non-empty token lists is joining each with exactly one space between them |
| TextSegmentation.Sentences | modules/text_segmentation.py:12-27 | one output string per sentence of the grouping; the result is empty exactly when Comprehend returned no tokens |
| TextSegmentation.ChunkEnd | modules/text_segmentation.py:17-22 | a sentence holds at least one token and never more than remain |
| TextSegmentation.ChunkEndSpec | modules/text_segmentation.py:20-22 | the first sentence contains no terminator before its last token, and ends with a terminator unless it reaches the end of the stream |
| TextSegmentation.ChunkEndUnique | modules/text_segmentation.py:20-22 | those two facts determine where the first sentence ends |
| TextSegmentation.GroupFlatten | modules/text_segmentation.py:15-25 | concatenating the sentences' token lists gives back the token stream: nothing dropped, duplicated or reordered |
| TextSegmentation.GroupShape | modules/text_segmentation.py:17-25 | no sentence is empty, a terminator appears only as the last token of its sentence, and every sentence but the last ends with one |
| TextSegmentation.GroupCount | modules/text_segmentation.py:12-25 | one sentence per terminator token, plus one iff tokens follow the last terminator |
| TextSegmentation.SentenceCount | modules/text_segmentation.py:12-27 | the same count for the joined sentences of a Comprehend response; no tokens gives `[]` |
| TextSegmentation.GroupSnoc | modules/text_segmentation.py:17-22 | one more token opens a new sentence after a terminator or at the start, and otherwise extends the open sentence |
| TextSegmentation.GroupIsTheSentencePartition | modules/text_segmentation.py:15-25 | the grouping is a partition of the tokens with that shape, and the only one |
| TextSegmentation.JoinExample | modules/text_segmentation.py:21 | tokens are joined with single spaces: `["hi", "."]` becomes `"hi ."` |
| TextSegmentation.SentenceSpansResults | modules/text_segmentation.py:13-21 | the open sentence carries across `ResultList` entries |
| TextSegmentation.GroupExample | modules/text_segmentation.py:16-21 | a chunk closes at the first terminator and the tokens after it start a new sentence |
| TextSegmentation.FoldToken | modules/text_segmentation.py:17-22 | one loop iteration keeps "emitted sentences plus the open one = the grouping of the tokens seen", with a sentence open iff the last token was not a terminator |
| TextSegmentation.Segment | modules/text_segmentation.py:12-27 | the nested loop and the trailing flush return exactly the joined sentences of the grouping |
| Typewriter.Slice | frontend/parrot/app/index.tsx:31 | `slice(0, n)` is a prefix of the line, clamped to its length |
| Typewriter.Step | frontend/parrot/app/index.tsx:26-49 | one effect run keeps the displayed text a prefix of the current line, and changes the line only from an emptied, deleting line, to the next line modulo 4 with typing resumed |
| Typewriter.StepSpec | frontend/parrot/app/index.tsx:26-49 | a typing step adds the line's next character after 60 ms; a full line pauses 1200 ms and switches to deleting with the text unchanged; a deleting step removes the last character after 30 ms; the line changes only from empty and deleting, to the next line modulo 4 with typing resumed; the prefix property is kept |
| Typewriter.InitialShown | frontend/parrot/app/index.tsx:20-22 | the initial state shows an empty prefix of line 0 |
| Typewriter.AlwaysShown | frontend/parrot/app/index.tsx:28-46 | after any number of steps, what is displayed is a prefix of the current line |
| Typewriter.TypeOut | frontend/parrot/app/index.tsx:29-32 | typing from k characters to the full line takes one 60 ms step per missing character |
| Typewriter.DeleteOut | frontend/parrot/app/index.tsx:37-40 | deleting k shown characters takes k steps of 30 ms |
| Typewriter.PauseStep | frontend/parrot/app/index.tsx:33-34 | a complete line waits 1200 ms and starts deleting |
| Typewriter.NextLineStep | frontend/parrot/app/index.tsx:41-45 | an emptied line waits 400 ms and typing of the next line begins |
| Typewriter.Cycle | frontend/parrot/app/index.tsx:26-49 | a whole line cycle takes 2·len + 2 steps and 90·len + 1600 ms and lands on the next line, empty and typing |
| Typewriter.ToggleCursor | frontend/parrot/app/index.tsx:54 | every tick flips the cursor's visibility |
| Typewriter.CursorParity | frontend/parrot/app/index.tsx:52-57 | after an even number of 500 ms ticks the cursor is as it began, after an odd number it is inverted |
| Typewriter.CursorBlinks | frontend/parrot/app/index.tsx:52-57 | a cursor that starts visible is shown during the first 500 ms of every second and hidden during the second 500 ms |

## Left out

- Device and browser APIs (`expo-av` recording, `fetch`, `FileReader`, base64 production) are not modelled. Their outcomes are inputs to the events.
- React hooks and context are left out, and the real timer scheduling is replaced by explicit events that carry `now`. This covers `useState`, `useRef`, the unmount `useEffect` cleanups and the `useBackgroundRecording` hook.
- Stale closures are left out. For example, the unmount cleanup in the root variant captures the first render's `stopBackgroundRecording`.
- Concurrency is left out. Each event runs to completion before the next one:
  - An upload started by the silence timer, with all its retries, completes within the timer's event.
  - An upload aborted by a newer one entering its own retry path is not modelled.
  - Overlapping async interval ticks are not modelled.
- StreamingRecorder.SilenceTimerFires: an error rethrown by `sendAudioSegment` inside `reader.onload` is not recorded. The source does not catch it there, so it escapes as an unhandled rejection rather than reaching `setError`.
- Logging and the recording options presets are left out. So is the 100 ms status-update interval passed to `createAsync`: only the sequence of samples matters.
- Metering levels are reals. No floating-point behaviour is modelled.
- Error messages are a `Failure` enumeration, not strings.
- PollingRecorder.CheckAudioLevelMatchesMonitor: requires `now > 0`. A `Date.now()` reading of 0 would be a falsy `silenceStartTime`.
- PollingRecorder.MonitorSamples: requires every sample time to be positive, for the same reason.
- PollingRecorder.MonitorSamples: covers only metered samples from a recording that is still recording. Polls that end the monitor or lack metering are handled by `MonitorTick`.
- The Comprehend `batch_detect_syntax` call is left out. Its `ResultList` token texts are the input of `Segment`.
- The rest of `index.tsx` (the animations, styles and the `Index` screen) is left out.
