# ViveMotionCapture capture core, modelled in Dafny

ViveMotionCapture records the poses of a set of tracked Vive devices at a fixed
rate. `PositionTracker` is a Unity component. The space key starts and stops a
capture. R and K mark a reference pose and key times. Each call of
`FixedFPSCapture` takes one sample. When a capture stops, the session is written
to the first free file name for the team and the date. `TrackedData` is the
in-memory session record that a capture fills.

The model is a functional state machine:

- `vectors.dfy` (`Vectors`): `Vector3` and its serializable copy
  `SerializedVec3`.
- `session.dfy` (`Session`): `TrackedDevice` and `TrackedData`, with `Clear`,
  `Count` and `RecordingLength`.
- `sampler.dfy` (`Sampler`): the two per-device loops of a tick. One records
  the reference pose and one appends a sample. Both create missing tracks.
- `clock.dfy` (`Clock`): the real-time clock as an oracle, plus the busy-wait.
  The oracle is a function from "how many reads so far" to the value that read
  returns, and a cursor. Where stated, it is assumed never to run backwards.
- `filenames.dfy` (`FileNames`): the output file name, the `"_000"` id format,
  and the search for a free id.
- `capture.dfy` (`Capture`): the tracker's fields, plus `StartCapture`,
  `StopCapture` (with the file-name choice), `Update` and one `Tick`
  (`FixedFPSCapture`).
- `properties.dfy` (`CaptureProperties`, `KeyTimeExample`): the invariant kept
  by every step, what `k` ticks of one capture leave behind, how the marker
  flags move from key press to tick, and a concrete run.

These are inputs to the model rather than parts of it:

- the keys that went down in a frame;
- the date text and the session-time text;
- the output folder and the set of files that already exist;
- the clock;
- the pose each game object's transform reports during a tick.

A game object's transform is read in both loops of a tick (lines 149-150 and
171-172). Both reads happen within one synchronous call, so they return the
same pose, and the model uses one pose per device per tick.

Some behaviour of the source is easy to overlook:

- The tick counter is reset in `StopCapture` (`PositionTracker.cs:92`), not in
  `StartCapture`. Every step keeps the counter at 0 while idle
  (`CaptureProperties.Consistent`), so the first tick of a capture still
  anchors the clock.
- The reference time, each key time and each sample time come from separate
  clock reads (lines 142, 159, 164). So a key time need not be one of the
  sample times. It lies between the tick's deadline and that tick's sample time
  (`Capture.Tick`). `KeyTimeExample.KeyTimeNeedNotBeASample` gives a run where
  it differs from every sample.
- Every consumed reference marker overwrites the reference pose of every
  device. A later firing replaces an earlier one.
- A stop before the first sample exports nothing. The serializer reads
  `RecordingLength`, which throws on an empty timestamp list
  (`TrackingDataContainer.cs:69-71`). By then the tracker is already idle with
  the counter at 0 (lines 90-92). The exception also skips lines 59-60 of
  `Update`, so that frame's R and K presses are lost.
- `captureCounter` is a `uint`, so it wraps after 2^32 ticks. The wrap is
  modelled: the tick after a wrap re-anchors the capture start time. The
  properties of a whole capture are stated for fewer than 2^32 ticks.

## Model

| member | source | states |
|---|---|---|
| `Vectors.ToVec3InvertsCopy` | ViveMotionCapture/Assets/TrackingDataContainer.cs:27-37 | the copy constructor takes x, y and z from the vector unchanged, and `ToVec3(new SerializedVec3(v)) == v` for every vector |
| `Vectors.CopyInvertsToVec3` | ViveMotionCapture/Assets/TrackingDataContainer.cs:27-37 | copying the result of `ToVec3` gives back the stored record, so the copy is a bijection |
| `Vectors.OriginIsZeroCopy` | ViveMotionCapture/Assets/TrackingDataContainer.cs:20-32 | the parameterless constructor gives x = y = z = 0, the copy of Unity's zero vector |
| `Session.NewTrackedDevice` | ViveMotionCapture/Assets/TrackingDataContainer.cs:45-52 | a new track has empty position and rotation lists and both reference poses at the origin |
| `Session.NewTrackedData` | ViveMotionCapture/Assets/TrackingDataContainer.cs:54-63 | a new record has empty lists and map, reference time -1 and null metadata strings |
| `Session.Clear` | ViveMotionCapture/Assets/TrackingDataContainer.cs:74-83 | after `Clear`, timestamps, device map and key times are empty, the reference time is -1 and both strings are null |
| `Session.ClearIdempotent` | ViveMotionCapture/Assets/TrackingDataContainer.cs:74-83 | clearing twice gives the same record as clearing once |
| `Session.ClearGivesFreshRecord` | ViveMotionCapture/Assets/TrackingDataContainer.cs:56-83 | a cleared record equals a freshly constructed one, whatever it held before |
| `Session.Count` | ViveMotionCapture/Assets/TrackingDataContainer.cs:65-71 | the sample count is zero exactly when `RecordingLength` throws, and otherwise `RecordingLength` is the timestamp at index count - 1 |
| `CaptureProperties.CountsSamples` | ViveMotionCapture/Assets/TrackingDataContainer.cs:65-67 | `Count` is the number of timestamps: 0 for a new or cleared record, one more after each recorded sample, unchanged by a key or reference marker |
| `Session.RecordingLength` | ViveMotionCapture/Assets/TrackingDataContainer.cs:69-71 | defined exactly when there is a timestamp; it is a recorded timestamp, and the largest one when they are in order |
| `Sampler.AppendSamples` | ViveMotionCapture/Assets/PositionTracker.cs:166-173 | the map gains a track for every device name; each track gains the poses of the devices of its name, in array order; the reference poses stay |
| `Sampler.DistinctNameGetsOne` | ViveMotionCapture/Assets/PositionTracker.cs:166-173 | with distinct device names, each name receives exactly one position and one rotation per pass |
| `Sampler.RecordReference` | ViveMotionCapture/Assets/PositionTracker.cs:144-151 | missing tracks are created; each name's reference pose becomes the pose of the last device of that name; the sample lists and unnamed tracks are untouched |
| `Clock.SpinExit` | ViveMotionCapture/Assets/PositionTracker.cs:135-137 | on a clock that never runs backwards and reaches the deadline, the wait ends at the first read whose elapsed time reaches the deadline |
| `Clock.BusyWait` | ViveMotionCapture/Assets/PositionTracker.cs:135-137 | the empty `while` loop consumes exactly the reads up to and including that first read |
| `FileNames.ReplaceSpaces` | ViveMotionCapture/Assets/PositionTracker.cs:111 | spaces in the team name become `-`; every other character and the length are kept |
| `FileNames.ReplaceSpacesIdempotent` | ViveMotionCapture/Assets/PositionTracker.cs:111 | the dashed team name has no spaces, so dashing it again changes nothing |
| `FileNames.IdSuffix` | ViveMotionCapture/Assets/PositionTracker.cs:111 | the `"_000"` format is an underscore and decimal digits that read back as the id: exactly three when the id has at most three digits, otherwise the id's own digits with no leading zero |
| `FileNames.IdSuffixExamples` | ViveMotionCapture/Assets/PositionTracker.cs:111 | ids 0, 1, 42 and 1000 format as `_000`, `_001`, `_042` and `_1000` |
| `FileNames.IdSuffixInjective` | ViveMotionCapture/Assets/PositionTracker.cs:111 | different ids give different suffixes |
| `FileNames.FileNameLayout` | ViveMotionCapture/Assets/PositionTracker.cs:111-114 | the name is, in order: the folder; the team name with each space replaced by `-`; `_session_`; the date; the id suffix; `.json`. The length is the sum of the parts |
| `FileNames.FileNameInjective` | ViveMotionCapture/Assets/PositionTracker.cs:111-114 | with folder, team and date fixed, different ids give different file names |
| `FileNames.TakenBound` | ViveMotionCapture/Assets/PositionTracker.cs:110-115 | if the names of ids 0 to n-1 all exist, at least n files exist, so the search ends on a finite file set |
| `FileNames.FirstFreeId` | ViveMotionCapture/Assets/PositionTracker.cs:110-115 | the id found is free, every smaller id is taken, and it is at most the number of existing files |
| `FileNames.ChooseFileName` | ViveMotionCapture/Assets/PositionTracker.cs:110-115 | the loop returns a name not in the existing set, every smaller id's name is in the set, and the id is the first free one |
| `FileNames.SecondExportGetsNextId` | ViveMotionCapture/Assets/PositionTracker.cs:110-115 | a first export with no files gets id 0; once that file exists, the next export gets id 1 |
| `Capture.NewPositionTracker` | ViveMotionCapture/Assets/PositionTracker.cs:18-30 | a new tracker is idle, with counter 0, no pending marker and a cleared session |
| `Capture.StartCapture` | ViveMotionCapture/Assets/PositionTracker.cs:64-79 | no change while capturing; otherwise the session is cleared and then stamped with the session time and team name, capture begins, and counter and marker flags are untouched |
| `Capture.StopCapture` | ViveMotionCapture/Assets/PositionTracker.cs:84-115 | no change while idle; otherwise capture ends and the counter becomes 0. With a sample, the session stays in place and is exported to a name not yet taken, every smaller id's name being taken. With no sample, serializing throws and nothing is exported |
| `Capture.Update` | ViveMotionCapture/Assets/PositionTracker.cs:50-62 | the toggle key flips capturing; only a stop of a session with a sample exports, and only a stop of an empty one throws; unless it throws, each marker flag becomes its old value OR this frame's press; after a throw the flags are unchanged |
| `Capture.ConsumeReference` | ViveMotionCapture/Assets/PositionTracker.cs:139-151 | sets the reference time and every named device's reference pose; no other field changes |
| `Capture.ConsumeKey` | ViveMotionCapture/Assets/PositionTracker.cs:156-159 | appends exactly one key time at the end; no other field changes |
| `Capture.RecordSample` | ViveMotionCapture/Assets/PositionTracker.cs:163-173 | appends exactly one timestamp and one pose per device to its track; no other field changes |
| `Capture.NextCounter` | ViveMotionCapture/Assets/PositionTracker.cs:133 | the `uint` counter stays below 2^32 and goes up by one unless it wraps |
| `Capture.Tick` | ViveMotionCapture/Assets/PositionTracker.cs:127-180 | idle: nothing changes. Capturing: the counter goes up by one and both flags end false. Exactly one timestamp is appended, no earlier than counter × Δt. A pending key adds one key time, no later than the sample. A pending reference sets the reference time and overwrites the reference poses. Tracks gain one pose per device |
| `CaptureProperties.NewTrackerConsistent` | ViveMotionCapture/Assets/PositionTracker.cs:24-30 | the initial tracker satisfies the capture invariant |
| `CaptureProperties.UpdatePreservesConsistent` | ViveMotionCapture/Assets/PositionTracker.cs:50-92 | start, stop and marker presses keep the invariant: counter 0 while idle, and an empty session at start |
| `CaptureProperties.TickPreservesConsistent` | ViveMotionCapture/Assets/PositionTracker.cs:129-173 | a tick over distinct, fixed device names keeps the invariant: one timestamp per tick, in order and each at or after its deadline; one pose per timestamp in every track; key times in order |
| `CaptureProperties.RunPreservesConsistent` | ViveMotionCapture/Assets/PositionTracker.cs:129-173 | k ticks keep the invariant and add k to both the counter and the sample count |
| `CaptureProperties.CaptureSession` | ViveMotionCapture/Assets/PositionTracker.cs:64-173 | after a start and k ticks: counter = Count = k; the timestamps are non-decreasing, the i-th at least i × Δt; every tracked name has k positions and k rotations; the recording length is the last timestamp |
| `CaptureProperties.StopBeforeFirstSample` | ViveMotionCapture/Assets/PositionTracker.cs:50-97 | a start followed at once by a stop leaves the tracker idle with counter 0, exports nothing, reports the exception, and drops that frame's marker presses |
| `CaptureProperties.PressesCoalesce` | ViveMotionCapture/Assets/PositionTracker.cs:59-60 | pressing R or K again before a tick leaves the same state as one press: requests do not queue |
| `CaptureProperties.MarkerPressedWhileIdle` | ViveMotionCapture/Assets/PositionTracker.cs:59-142 | a reference press while idle survives the start; the first tick of the capture consumes it and sets a reference time of at least Δt |
| `CaptureProperties.CounterWrapReanchors` | ViveMotionCapture/Assets/PositionTracker.cs:129-133 | a tick at counter 2^32 - 1 wraps it to 0, and the next tick re-anchors the capture start time |
| `KeyTimeExample.KeyTimeNeedNotBeASample` | ViveMotionCapture/Assets/PositionTracker.cs:156-164 | key time and sample time are separate reads: in a concrete run the key time is 2.0 and the only sample is 3.0 |

## Left out

- Unity scheduling: `InvokeRepeating` and `CancelInvoke` are not modelled. Each call of `FixedFPSCapture` is one `Capture.Tick`. `Input.GetKeyDown` is the `KeysDown` input of `Capture.Update`.
- Unity's `Start`: it sets `captureDeltaT = 1 / captureFPS` and creates the save folder. The model takes `captureDeltaT` as a tracker field and the folder as an input.
- `WriteJSON`'s optional `path` argument is not modelled. The source always calls it without one, so the folder is `SaveFolder`, which is an input here.
- Float arithmetic: times, Δt and pose components are reals. Float rounding in `captureCounter * captureDeltaT` and in the elapsed time is not modelled.
- The busy-wait's termination: `Capture.Tick` requires that the clock reaches the tick's deadline at some read. Runs of ticks require a clock that passes every value. The source just spins on a real clock.
- Log-only clock reads: the reads inside the log calls at lines 153, 160 and 177 have no effect on the data, and the model does not count them. Against a clock that never runs backwards, they only make the later reads later.
- Exceptions: Unity logs an exception that escapes `Update` and carries on with the next frame. The model reports it as `Outcome.threw` and models no log output.
- Destroyed or null game objects: every entry of `trackedDevices` is assumed non-null and alive. Reading `obj.name` on such an entry throws inside the loop at line 145 or the one at line 167, and the model has no way to represent that entry. At line 145 the counter, the reference flag and the reference time have already changed. At line 167 the key flag and the new timestamp have changed as well, and some tracks end one pose short.
- Diagnostics: `Debug.Log` calls and the every-50-samples FPS report.
- Serialization and I/O: JSON serialization of the session, `FileStream`/`StreamWriter`, `Directory.Exists`/`CreateDirectory`, `File.Exists`. The file test is membership in a finite set of existing names, and the export is the record and its file name.
- Date and time text: `DateTime.Now` formatting is an input. The source re-reads the date on every iteration of the name search; the model uses one date for the whole search, so a search running across midnight is not covered.
- `sessionID` is a C# `int`, but the model uses an unbounded id. `FileNames.FirstFreeId` bounds the id by the number of existing files, so it can only overflow with more than 2^31 - 1 existing files.
- `SerializedVec3.ToQuat`: Unity's `Quaternion.Euler` with float trigonometry.
- The `TrackedData` indexer: it goes through `Keys.ElementAt`, and .NET does not specify dictionary enumeration order.
- CaptureProperties.TickPreservesConsistent: stated only for device arrays with distinct names that stay the same for the whole capture. With repeated names, a track gets one entry per device of that name (`Sampler.AppendSamples`). A device first seen mid-capture has a shorter track.
