/** The `PositionTracker` component as a state machine: the space key toggles
    between idle and capturing, R and K raise the two marker flags, and every
    call of `FixedFPSCapture` is one `Tick`. Unity's scheduling, input polling,
    device transforms, the clock, the date and the file system are inputs. */
module Capture {
  import opened Wrappers
  import opened Vectors
  import opened Session
  import opened Clock
  import opened Sampler
  import opened FileNames

  /** `captureCounter` is a `uint`: it counts modulo 2^32. */
  const CounterModulus: nat := 0x1_0000_0000

  /** The component's fields. `teamName` and `captureDeltaT` are configuration
      (set in the editor and by Unity's `Start`); the rest is capture state. */
  datatype PositionTracker = PositionTracker(
    teamName: string,
    captureDeltaT: real,
    isCapturing: bool,
    captureCounter: nat,
    captureStartTime: real,
    data: TrackedData,
    refTimeSnapPending: bool,
    keyTimeSnapPending: bool)

  /** The tracker as its field initialisers leave it. */
  function NewPositionTracker(teamName: string, captureDeltaT: real): (t: PositionTracker)
    ensures !t.isCapturing && t.captureCounter == 0
    ensures !t.refTimeSnapPending && !t.keyTimeSnapPending
    ensures IsCleared(t.data)
    ensures t.teamName == teamName && t.captureDeltaT == captureDeltaT
  {
    PositionTracker(teamName, captureDeltaT, false, 0, 0.0, NewTrackedData(), false, false)
  }

  /** `StartCapture`: a no-op while capturing; otherwise the session is cleared,
      stamped with the session time and the team name, and capture begins. The
      counter and the marker flags are left as they are. */
  function StartCapture(t: PositionTracker, sessionDTime: string): (r: PositionTracker)
    ensures t.isCapturing ==> r == t
    ensures !t.isCapturing ==>
              && r.isCapturing
              && r.data.timeStamp == [] && r.data.trackedDevice == map[]
              && r.data.keyTimeStamp == [] && r.data.refTimeStamp == NoReference
              && r.data.sessionDTime == Some(sessionDTime)
              && r.data.teamName == Some(t.teamName)
              && r == t.(isCapturing := true, data := r.data)
  {
    if t.isCapturing then t
    else
      var cleared := Clear(t.data);
      t.(isCapturing := true,
         data := cleared.(sessionDTime := Some(sessionDTime), teamName := Some(t.teamName)))
  }

  /** A finished session and the file it is written to. */
  datatype Export = Export(fileName: string, session: TrackedData)

  /** The tracker after a step, the export the step produced, if any, and
      whether an exception escaped the step. */
  datatype Outcome = Outcome(tracker: PositionTracker, exported: Option<Export>, threw: bool)

  /** Serializing a session reads every public getter of `TrackedData`, and
      `RecordingLength` throws on an empty timestamp list; no error handler is
      installed, so the exception leaves `StopCapture`. */
  predicate SerializationThrows(d: TrackedData)
  {
    RecordingLength(d).None?
  }

  /** `StopCapture` followed by `WriteJSON`: a no-op while idle; otherwise
      capture ends and the counter returns to 0. A session with a sample is then
      exported (left in place) under the first free file name for this team and
      date; a session without one makes the serializer throw, and nothing is
      written. */
  function StopCapture(t: PositionTracker, folder: string, date: string, existing: set<string>): (r: Outcome)
    ensures !t.isCapturing ==> r == Outcome(t, None, false)
    ensures t.isCapturing ==>
              && r.tracker == t.(isCapturing := false, captureCounter := 0)
              && (r.threw <==> t.data.timeStamp == [])
              && (r.exported.Some? <==> t.data.timeStamp != [])
    ensures t.isCapturing && t.data.timeStamp != [] ==>
              && r.exported.Some?
              && r.exported.value.session == t.data
              && r.exported.value.fileName !in existing
              && exists id: nat ::
                   && r.exported.value.fileName == FileName(folder, t.teamName, date, id)
                   && TakenBelow(folder, t.teamName, date, existing, id)
  {
    if !t.isCapturing then Outcome(t, None, false)
    else
      var stopped := t.(isCapturing := false, captureCounter := 0);
      if SerializationThrows(t.data) then Outcome(stopped, None, true)
      else
        var id := FirstFreeId(folder, t.teamName, date, existing, 0);
        Outcome(stopped, Some(Export(FileName(folder, t.teamName, date, id), t.data)), false)
  }

  /** The keys that went down this frame (`Input.GetKeyDown`). */
  datatype KeysDown = KeysDown(toggle: bool, reference: bool, key: bool)

  /** What the host supplies to a frame: the session time text for a start, and
      the output folder, date text and existing files for a stop. */
  datatype Host = Host(sessionDTime: string, folder: string, date: string, existing: set<string>)

  /** `Update`: the toggle key starts or stops capture, then the R and K presses
      are OR-ed into the pending flags, whether or not capture is running. When
      the stop throws, the rest of the frame is skipped and the presses are lost. */
  function Update(t: PositionTracker, keys: KeysDown, host: Host): (r: Outcome)
    ensures r.tracker.isCapturing == (t.isCapturing != keys.toggle)
    ensures r.threw <==> keys.toggle && t.isCapturing && t.data.timeStamp == []
    ensures r.exported.Some? <==> keys.toggle && t.isCapturing && t.data.timeStamp != []
    ensures !r.threw ==> r.tracker.refTimeSnapPending == (t.refTimeSnapPending || keys.reference)
    ensures !r.threw ==> r.tracker.keyTimeSnapPending == (t.keyTimeSnapPending || keys.key)
    ensures r.threw ==> r.tracker == t.(isCapturing := false, captureCounter := 0)
    ensures !keys.toggle ==> r.tracker.data == t.data && r.tracker.captureCounter == t.captureCounter
    ensures r.tracker.teamName == t.teamName && r.tracker.captureDeltaT == t.captureDeltaT
    ensures r.tracker.captureStartTime == t.captureStartTime
  {
    var toggled :=
      if !keys.toggle then Outcome(t, None, false)
      else if t.isCapturing then StopCapture(t, host.folder, host.date, host.existing)
      else Outcome(StartCapture(t, host.sessionDTime), None, false);
    if toggled.threw then toggled
    else
      toggled.(tracker := toggled.tracker.(
        refTimeSnapPending := toggled.tracker.refTimeSnapPending || keys.reference,
        keyTimeSnapPending := toggled.tracker.keyTimeSnapPending || keys.key))
  }

  /** Lines 140-151 with the flag already seen: the reference time is set and
      every device's reference pose is replaced; nothing else changes. */
  function ConsumeReference(d: TrackedData, now: real, devices: seq<Device>): (r: TrackedData)
    ensures r.refTimeStamp == now
    ensures ReferenceRecorded(d.trackedDevice, devices, r.trackedDevice)
    ensures r.(refTimeStamp := d.refTimeStamp, trackedDevice := d.trackedDevice) == d
  {
    d.(refTimeStamp := now, trackedDevice := RecordReference(d.trackedDevice, devices))
  }

  /** Lines 157-160 with the flag already seen: exactly one key time is added
      at the end; nothing else changes. */
  function ConsumeKey(d: TrackedData, now: real): (r: TrackedData)
    ensures |r.keyTimeStamp| == |d.keyTimeStamp| + 1
    ensures r.keyTimeStamp[..|d.keyTimeStamp|] == d.keyTimeStamp
    ensures r.keyTimeStamp[|d.keyTimeStamp|] == now
    ensures r.(keyTimeStamp := d.keyTimeStamp) == d
  {
    d.(keyTimeStamp := d.keyTimeStamp + [now])
  }

  /** Lines 164-173: one timestamp, and one pose per device into its track. */
  function RecordSample(d: TrackedData, now: real, devices: seq<Device>): (r: TrackedData)
    ensures |r.timeStamp| == |d.timeStamp| + 1
    ensures r.timeStamp[..|d.timeStamp|] == d.timeStamp
    ensures r.timeStamp[|d.timeStamp|] == now
    ensures r.trackedDevice.Keys == d.trackedDevice.Keys + Names(devices)
    ensures forall n :: n in r.trackedDevice ==>
              SampledFrom(r.trackedDevice[n], Track(d.trackedDevice, n), devices, n)
    ensures r.(timeStamp := d.timeStamp, trackedDevice := d.trackedDevice) == d
  {
    d.(timeStamp := d.timeStamp + [now], trackedDevice := AppendSamples(d.trackedDevice, devices))
  }

  /** The counter after `captureCounter += 1`. */
  function NextCounter(counter: nat): (r: nat)
    ensures r < CounterModulus
    ensures counter + 1 < CounterModulus ==> r == counter + 1
  {
    (counter + 1) % CounterModulus
  }

  /** The capture start time a tick measures from: anchored on the clock when
      the counter is 0, otherwise kept. */
  function Anchor(t: PositionTracker, c: Clock): real
  {
    if t.captureCounter == 0 then Now(c) else t.captureStartTime
  }

  /** The index of the first read of the busy-wait. */
  function WaitFrom(t: PositionTracker, c: Clock): nat
  {
    if t.captureCounter == 0 then c.next + 1 else c.next
  }

  /** The nominal time of tick number `counter`: `counter * captureDeltaT`. */
  function Due(counter: nat, deltaT: real): real
  {
    counter as real * deltaT
  }

  /** The deadline of the tick, in seconds since the capture start. */
  function Deadline(t: PositionTracker): real
  {
    Due(NextCounter(t.captureCounter), t.captureDeltaT)
  }

  /** The busy-wait of a capturing tick ends at some read. */
  ghost predicate CanFinishTick(t: PositionTracker, c: Clock)
  {
    t.isCapturing ==> Reaches(c.reading, Anchor(t, c), Deadline(t))
  }

  /** The tracker and the clock after a tick. */
  datatype Ticked = Ticked(tracker: PositionTracker, clock: Clock)

  /** `FixedFPSCapture`. While idle it does nothing. While capturing it anchors
      the clock on the first tick, counts the tick, waits until the elapsed time
      reaches counter * captureDeltaT, consumes the reference flag, then the key
      flag, then records one sample. The three clock values are separate reads. */
  function Tick(t: PositionTracker, c: Clock, devices: seq<Device>): (r: Ticked)
    requires Monotone(c.reading) && CanFinishTick(t, c)
    ensures r.clock.reading == c.reading && c.next <= r.clock.next
    ensures !t.isCapturing ==> r == Ticked(t, c)
    ensures t.isCapturing ==> TickEffect(t, c, devices, r)
  {
    if !t.isCapturing then Ticked(t, c)
    else
      var start := Anchor(t, c);
      var counter := NextCounter(t.captureCounter);
      var exit := SpinExit(c.reading, WaitFrom(t, c), start, Deadline(t));
      var refRead := exit + 1;
      var keyRead := if t.refTimeSnapPending then refRead + 1 else refRead;
      var sampleRead := if t.keyTimeSnapPending then keyRead + 1 else keyRead;
      var d1 := if t.refTimeSnapPending
                then ConsumeReference(t.data, c.reading(refRead) - start, devices)
                else t.data;
      var d2 := if t.keyTimeSnapPending then ConsumeKey(d1, c.reading(keyRead) - start) else d1;
      var d3 := RecordSample(d2, c.reading(sampleRead) - start, devices);
      var r := Ticked(t.(captureCounter := counter, captureStartTime := start, data := d3,
                         refTimeSnapPending := false, keyTimeSnapPending := false),
                      c.(next := sampleRead + 1));
      TickEffectHolds(t, c, devices, start, exit, refRead, keyRead, sampleRead, d1, d2, r);
      r
  }

  /** Everything a capturing tick promises. `sample` is the new timestamp. */
  ghost predicate TickEffect(t: PositionTracker, c: Clock, devices: seq<Device>, r: Ticked)
  {
    var d := t.data;
    var d' := r.tracker.data;
    var n := |d.timeStamp|;
    && r.tracker.isCapturing
    && r.tracker.teamName == t.teamName && r.tracker.captureDeltaT == t.captureDeltaT
    && r.tracker.captureCounter == NextCounter(t.captureCounter)
    && r.tracker.captureStartTime == Anchor(t, c)
    && !r.tracker.refTimeSnapPending && !r.tracker.keyTimeSnapPending
    // exactly one timestamp is appended, no earlier than its deadline and
    // between the clock before and after the tick
    && |d'.timeStamp| == n + 1 && d'.timeStamp == d.timeStamp + [d'.timeStamp[n]]
    && d'.timeStamp[n] >= Deadline(t)
    && Now(c) - Anchor(t, c) <= d'.timeStamp[n] <= Now(r.clock) - Anchor(t, c)
    // the key flag adds one key time, after the deadline and not after the sample
    && (t.keyTimeSnapPending ==>
          && |d'.keyTimeStamp| == |d.keyTimeStamp| + 1
          && d'.keyTimeStamp == d.keyTimeStamp + [d'.keyTimeStamp[|d.keyTimeStamp|]]
          && Deadline(t) <= d'.keyTimeStamp[|d.keyTimeStamp|] <= d'.timeStamp[n]
          && Now(c) - Anchor(t, c) <= d'.keyTimeStamp[|d.keyTimeStamp|])
    && (!t.keyTimeSnapPending ==> d'.keyTimeStamp == d.keyTimeStamp)
    // the reference flag sets the reference time, read before the key and the sample
    && (t.refTimeSnapPending ==>
          && Deadline(t) <= d'.refTimeStamp <= d'.timeStamp[n]
          && (t.keyTimeSnapPending ==> d'.refTimeStamp <= d'.keyTimeStamp[|d.keyTimeStamp|]))
    && (!t.refTimeSnapPending ==> d'.refTimeStamp == d.refTimeStamp)
    && d'.sessionDTime == d.sessionDTime && d'.teamName == d.teamName
    // every track of a device gains that device's pose
    && d'.trackedDevice.Keys == d.trackedDevice.Keys + Names(devices)
    && (forall name :: name in d'.trackedDevice ==>
          && d'.trackedDevice[name].position == Track(d.trackedDevice, name).position + PositionsOf(devices, name)
          && d'.trackedDevice[name].rotation == Track(d.trackedDevice, name).rotation + RotationsOf(devices, name))
    // reference poses: replaced by the last device of each name when the flag
    // was pending, otherwise kept
    && (t.refTimeSnapPending ==>
          && (forall i :: 0 <= i < |devices| && LastWithName(devices, i) ==>
                && d'.trackedDevice[devices[i].name].refPosition == FromVector3(devices[i].position)
                && d'.trackedDevice[devices[i].name].refRotation == FromVector3(devices[i].eulerAngles))
          && (forall name :: name in d.trackedDevice && name !in Names(devices) ==>
                && d'.trackedDevice[name].refPosition == d.trackedDevice[name].refPosition
                && d'.trackedDevice[name].refRotation == d.trackedDevice[name].refRotation))
    && (!t.refTimeSnapPending ==>
          forall name :: name in d'.trackedDevice ==>
            && d'.trackedDevice[name].refPosition == Track(d.trackedDevice, name).refPosition
            && d'.trackedDevice[name].refRotation == Track(d.trackedDevice, name).refRotation)
  }

  lemma TickEffectHolds(t: PositionTracker, c: Clock, devices: seq<Device>, start: real,
                        exit: nat, refRead: nat, keyRead: nat, sampleRead: nat,
                        d1: TrackedData, d2: TrackedData, r: Ticked)
    requires Monotone(c.reading) && t.isCapturing && CanFinishTick(t, c)
    requires start == Anchor(t, c)
    requires exit == SpinExit(c.reading, WaitFrom(t, c), start, Deadline(t))
    requires refRead == exit + 1
    requires keyRead == if t.refTimeSnapPending then refRead + 1 else refRead
    requires sampleRead == if t.keyTimeSnapPending then keyRead + 1 else keyRead
    requires d1 == if t.refTimeSnapPending
                   then ConsumeReference(t.data, c.reading(refRead) - start, devices)
                   else t.data
    requires d2 == if t.keyTimeSnapPending then ConsumeKey(d1, c.reading(keyRead) - start) else d1
    requires r == Ticked(t.(captureCounter := NextCounter(t.captureCounter), captureStartTime := start,
                            data := RecordSample(d2, c.reading(sampleRead) - start, devices),
                            refTimeSnapPending := false, keyTimeSnapPending := false),
                         c.(next := sampleRead + 1))
    ensures TickEffect(t, c, devices, r)
  {
  }
}
