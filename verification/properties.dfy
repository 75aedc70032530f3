/** Properties of whole captures: the invariant every step keeps, what k ticks
    of one capture leave behind, and how the marker flags travel from key press
    to tick. */
module CaptureProperties {
  import opened Wrappers
  import opened Session
  import opened Clock
  import opened Sampler
  import opened Capture

  /** The state a tracker keeps between steps, given the clock and the names of
      the tracked game objects. While capturing: one timestamp per counted tick,
      each no earlier than its own deadline and none later than the clock now;
      the tracks exist for exactly the tracked names once a sample is taken, and
      each holds one position and one rotation per timestamp; the key times are
      ordered and none is later than the last sample. */
  ghost predicate Consistent(t: PositionTracker, c: Clock, names: set<string>)
  {
    && t.captureCounter < CounterModulus
    && (!t.isCapturing ==> t.captureCounter == 0)
    && (t.isCapturing ==> CaptureConsistent(t.data, t.captureCounter, t.captureDeltaT, Now(c) - t.captureStartTime, names))
  }

  ghost predicate CaptureConsistent(d: TrackedData, counter: nat, deltaT: real, now: real, names: set<string>)
  {
    && |d.timeStamp| == counter
    && TimesConsistent(d.timeStamp, deltaT, now)
    && TracksConsistent(d.trackedDevice, |d.timeStamp|, names)
    && KeysConsistent(d.keyTimeStamp, d.timeStamp)
  }

  /** Timestamps in order, the i-th (from 1) no earlier than i * deltaT, the
      last no later than `now`. */
  ghost predicate TimesConsistent(ts: seq<real>, deltaT: real, now: real)
  {
    && NonDecreasing(ts)
    && (forall i :: 0 <= i < |ts| ==> ts[i] >= Due(i + 1, deltaT))
    && (ts != [] ==> ts[|ts| - 1] <= now)
  }

  /** No tracks before the first sample, afterwards one per name, each with
      `samples` positions and rotations. */
  ghost predicate TracksConsistent(m: map<string, TrackedDevice>, samples: nat, names: set<string>)
  {
    && (samples == 0 ==> m == map[])
    && (samples != 0 ==> m.Keys == names)
    && (forall n :: n in m ==> |m[n].position| == samples && |m[n].rotation| == samples)
  }

  /** Key times in order, no more of them than samples, none after the last sample. */
  ghost predicate KeysConsistent(keys: seq<real>, ts: seq<real>)
  {
    && |keys| <= |ts|
    && NonDecreasing(keys)
    && (keys != [] ==> keys[|keys| - 1] <= ts[|ts| - 1])
  }

  lemma TracksStep(m: map<string, TrackedDevice>, m': map<string, TrackedDevice>, samples: nat,
                   devices: seq<Device>, names: set<string>)
    requires TracksConsistent(m, samples, names)
    requires Names(devices) == names && DistinctNames(devices)
    requires m'.Keys == m.Keys + Names(devices)
    requires forall n :: n in m' ==>
               && m'[n].position == Track(m, n).position + PositionsOf(devices, n)
               && m'[n].rotation == Track(m, n).rotation + RotationsOf(devices, n)
    ensures TracksConsistent(m', samples + 1, names)
  {
    forall n | n in m'
      ensures |m'[n].position| == samples + 1 && |m'[n].rotation| == samples + 1
    {
      DistinctNameGetsOne(devices, n);
    }
  }

  /** `Count` is the number of samples: a new or cleared record has none, and
      each recorded sample adds exactly one. */
  lemma CountsSamples(d: TrackedData, now: real, devices: seq<Device>)
    ensures Count(d) == |d.timeStamp|
    ensures Count(NewTrackedData()) == 0 && Count(Clear(d)) == 0
    ensures Count(RecordSample(d, now, devices)) == Count(d) + 1
    ensures Count(ConsumeKey(d, now)) == Count(d)
    ensures Count(ConsumeReference(d, now, devices)) == Count(d)
  {
  }

  /** The tracker as its field initialisers leave it satisfies the invariant. */
  lemma NewTrackerConsistent(teamName: string, deltaT: real, c: Clock, names: set<string>)
    ensures Consistent(NewPositionTracker(teamName, deltaT), c, names)
  {
  }

  /** A frame of input keeps the invariant: a start opens an empty session with
      the counter at 0, a stop returns the counter to 0. */
  lemma UpdatePreservesConsistent(t: PositionTracker, c: Clock, keys: KeysDown, host: Host, names: set<string>)
    requires Consistent(t, c, names)
    ensures Consistent(Update(t, keys, host).tracker, c, names)
  {
  }

  /** A tick keeps the invariant when the tracked names are distinct and are
      the ones the invariant names, and the counter does not wrap. */
  lemma TickPreservesConsistent(t: PositionTracker, c: Clock, devices: seq<Device>, names: set<string>)
    requires Consistent(t, c, names)
    requires Monotone(c.reading) && CanFinishTick(t, c)
    requires Names(devices) == names && DistinctNames(devices)
    requires t.captureCounter + 1 < CounterModulus
    ensures Consistent(Tick(t, c, devices).tracker, Tick(t, c, devices).clock, names)
  {
    var r := Tick(t, c, devices);
    if t.isCapturing {
      EffectPreservesConsistent(t, c, devices, names, r);
    }
  }

  lemma EffectPreservesConsistent(t: PositionTracker, c: Clock, devices: seq<Device>, names: set<string>, r: Ticked)
    requires Consistent(t, c, names) && t.isCapturing
    requires Names(devices) == names && DistinctNames(devices)
    requires t.captureCounter + 1 < CounterModulus
    requires TickEffect(t, c, devices, r)
    ensures Consistent(r.tracker, r.clock, names)
  {
    EffectKeepsTimes(t, c, devices, r);
    EffectKeepsKeys(t, c, devices, r);
    TracksStep(t.data.trackedDevice, r.tracker.data.trackedDevice, |t.data.timeStamp|, devices, names);
  }

  lemma EffectKeepsTimes(t: PositionTracker, c: Clock, devices: seq<Device>, r: Ticked)
    requires t.isCapturing && |t.data.timeStamp| == t.captureCounter
    requires TimesConsistent(t.data.timeStamp, t.captureDeltaT, Now(c) - t.captureStartTime)
    requires t.captureCounter + 1 < CounterModulus
    requires TickEffect(t, c, devices, r)
    ensures TimesConsistent(r.tracker.data.timeStamp, t.captureDeltaT, Now(r.clock) - r.tracker.captureStartTime)
  {
  }

  lemma EffectKeepsKeys(t: PositionTracker, c: Clock, devices: seq<Device>, r: Ticked)
    requires t.isCapturing && |t.data.timeStamp| == t.captureCounter
    requires TimesConsistent(t.data.timeStamp, t.captureDeltaT, Now(c) - t.captureStartTime)
    requires KeysConsistent(t.data.keyTimeStamp, t.data.timeStamp)
    requires TickEffect(t, c, devices, r)
    ensures KeysConsistent(r.tracker.data.keyTimeStamp, r.tracker.data.timeStamp)
  {
  }

  /** `k` calls of `FixedFPSCapture`, each seeing the devices of its frame, on
      a clock that passes every value. */
  function RunTicks(t: PositionTracker, c: Clock, frames: seq<seq<Device>>): (r: Ticked)
    requires Monotone(c.reading) && Unbounded(c.reading)
    ensures r.clock.reading == c.reading
    ensures r.tracker.isCapturing == t.isCapturing
    decreases |frames|
  {
    if frames == [] then Ticked(t, c)
    else
      UnboundedReaches(c.reading, Anchor(t, c), Deadline(t));
      var s := Tick(t, c, frames[0]);
      RunTicks(s.tracker, s.clock, frames[1..])
  }

  /** Every frame tracks the same distinct names. */
  predicate FixedNames(frames: seq<seq<Device>>, names: set<string>)
  {
    forall i :: 0 <= i < |frames| ==> Names(frames[i]) == names && DistinctNames(frames[i])
  }

  /** `k` ticks of one capture keep the invariant and count `k` ticks and `k`
      samples. */
  lemma {:induction false} RunPreservesConsistent(t: PositionTracker, c: Clock, frames: seq<seq<Device>>, names: set<string>)
    requires Consistent(t, c, names) && t.isCapturing
    requires Monotone(c.reading) && Unbounded(c.reading)
    requires FixedNames(frames, names)
    requires t.captureCounter + |frames| < CounterModulus
    ensures Consistent(RunTicks(t, c, frames).tracker, RunTicks(t, c, frames).clock, names)
    ensures RunTicks(t, c, frames).tracker.captureCounter == t.captureCounter + |frames|
    ensures Count(RunTicks(t, c, frames).tracker.data) == Count(t.data) + |frames|
    decreases |frames|
  {
    if frames != [] {
      UnboundedReaches(c.reading, Anchor(t, c), Deadline(t));
      var s := Tick(t, c, frames[0]);
      TickPreservesConsistent(t, c, frames[0], names);
      assert FixedNames(frames[1..], names);
      RunPreservesConsistent(s.tracker, s.clock, frames[1..], names);
    }
  }

  /** A capture started from a consistent idle tracker and ticked `k` times:
      the counter is `k`, there are `k` timestamps in order with the i-th (from
      1) no earlier than i * captureDeltaT, every tracked name has a track with
      `k` positions and `k` rotations, and the recording length is the latest
      timestamp. */
  lemma CaptureSession(t: PositionTracker, c: Clock, sessionDTime: string, frames: seq<seq<Device>>, names: set<string>)
    requires Consistent(t, c, names) && !t.isCapturing
    requires Monotone(c.reading) && Unbounded(c.reading)
    requires FixedNames(frames, names)
    requires |frames| < CounterModulus
    ensures var d := RunTicks(StartCapture(t, sessionDTime), c, frames).tracker.data;
            && RunTicks(StartCapture(t, sessionDTime), c, frames).tracker.captureCounter == |frames|
            && Count(d) == |frames|
            && NonDecreasing(d.timeStamp)
            && (forall i :: 0 <= i < |d.timeStamp| ==> d.timeStamp[i] >= Due(i + 1, t.captureDeltaT))
            && (frames != [] ==> d.trackedDevice.Keys == names)
            && (forall n :: n in d.trackedDevice ==>
                  |d.trackedDevice[n].position| == |frames| && |d.trackedDevice[n].rotation| == |frames|)
            && (frames != [] ==> RecordingLength(d) == Some(d.timeStamp[|frames| - 1]))
            && d.sessionDTime == Some(sessionDTime) && d.teamName == Some(t.teamName)
  {
    var s := StartCapture(t, sessionDTime);
    assert Consistent(s, c, names);
    RunPreservesConsistent(s, c, frames, names);
    RunKeepsMetadata(s, c, frames);
    var r := RunTicks(s, c, frames);
    assert r.tracker.isCapturing;
    SessionFacts(r.tracker.data, |frames|, t.captureDeltaT, Now(r.clock) - r.tracker.captureStartTime, names);
  }

  /** What the invariant says about a session of `k` samples. */
  lemma SessionFacts(d: TrackedData, k: nat, deltaT: real, now: real, names: set<string>)
    requires CaptureConsistent(d, k, deltaT, now, names)
    ensures Count(d) == k
    ensures NonDecreasing(d.timeStamp)
    ensures forall i :: 0 <= i < |d.timeStamp| ==> d.timeStamp[i] >= Due(i + 1, deltaT)
    ensures k != 0 ==> d.trackedDevice.Keys == names
    ensures forall n :: n in d.trackedDevice ==> |d.trackedDevice[n].position| == k && |d.trackedDevice[n].rotation| == k
    ensures k != 0 ==> RecordingLength(d) == Some(d.timeStamp[k - 1])
  {
  }

  /** Ticks never touch the session time, the team name or the configuration. */
  lemma {:induction false} RunKeepsMetadata(t: PositionTracker, c: Clock, frames: seq<seq<Device>>)
    requires Monotone(c.reading) && Unbounded(c.reading)
    ensures RunTicks(t, c, frames).tracker.data.sessionDTime == t.data.sessionDTime
    ensures RunTicks(t, c, frames).tracker.data.teamName == t.data.teamName
    ensures RunTicks(t, c, frames).tracker.captureDeltaT == t.captureDeltaT
    ensures RunTicks(t, c, frames).tracker.teamName == t.teamName
    decreases |frames|
  {
    if frames != [] {
      UnboundedReaches(c.reading, Anchor(t, c), Deadline(t));
      var s := Tick(t, c, frames[0]);
      RunKeepsMetadata(s.tracker, s.clock, frames[1..]);
    }
  }

  /** Presses do not queue: pressing R or K again before a tick leaves the
      tracker as one press did. */
  lemma PressesCoalesce(t: PositionTracker, keys: KeysDown, host: Host)
    requires !keys.toggle
    ensures Update(Update(t, keys, host).tracker, keys, host) == Update(t, keys, host)
  {
  }

  /** A stop before the first sample: the tracker is already idle with the
      counter at 0 when serializing the empty session throws, so no file is
      written and the marker presses of that frame are lost. */
  lemma StopBeforeFirstSample(t: PositionTracker, host: Host, keys: KeysDown)
    requires !t.isCapturing && keys.toggle
    ensures var started := Update(t, KeysDown(true, false, false), host).tracker;
            var stopped := Update(started, keys, host);
            && stopped.threw && stopped.exported == None
            && !stopped.tracker.isCapturing && stopped.tracker.captureCounter == 0
            && stopped.tracker.refTimeSnapPending == t.refTimeSnapPending
            && stopped.tracker.keyTimeSnapPending == t.keyTimeSnapPending
  {
  }

  /** A reference press while idle survives the start and is consumed by the
      first tick of the capture, which sets the reference time and clears the
      flag. */
  lemma MarkerPressedWhileIdle(t: PositionTracker, c: Clock, host: Host, devices: seq<Device>)
    requires !t.isCapturing && t.captureCounter == 0 && t.captureDeltaT > 0.0
    requires Monotone(c.reading) && Unbounded(c.reading)
    ensures var pressed := Update(t, KeysDown(false, true, false), host).tracker;
            var started := Update(pressed, KeysDown(true, false, false), host).tracker;
            && started.isCapturing && started.refTimeSnapPending
            && started.data.refTimeStamp == NoReference
            && var ticked := (UnboundedReaches(c.reading, Anchor(started, c), Deadline(started));
                              Tick(started, c, devices).tracker);
               && !ticked.refTimeSnapPending
               && ticked.data.refTimeStamp >= t.captureDeltaT
               && ticked.data.refTimeStamp != NoReference
  {
    var pressed := Update(t, KeysDown(false, true, false), host).tracker;
    var started := Update(pressed, KeysDown(true, false, false), host).tracker;
    assert started.captureCounter == 0;
    assert Deadline(started) == t.captureDeltaT;
  }

  /** After 2^32 - 1 ticks the `uint` counter wraps to 0, and the next tick
      anchors the capture start time afresh on the clock. */
  lemma CounterWrapReanchors(t: PositionTracker, c: Clock, devices1: seq<Device>, devices2: seq<Device>)
    requires t.isCapturing && t.captureCounter == CounterModulus - 1
    requires Monotone(c.reading) && Unbounded(c.reading)
    ensures var first := (UnboundedReaches(c.reading, Anchor(t, c), Deadline(t)); Tick(t, c, devices1));
            && first.tracker.captureCounter == 0
            && var second := (UnboundedReaches(c.reading, Anchor(first.tracker, first.clock), Deadline(first.tracker));
                              Tick(first.tracker, first.clock, devices2));
               && second.tracker.captureStartTime == Now(first.clock)
               && second.tracker.captureCounter == 1
  {
  }
}

/** A concrete run showing that the key time is its own clock read: with a
    clock that advances one second per read, the key time of the first tick is
    2.0 and its sample time 3.0. */
module KeyTimeExample {
  import opened Clock
  import opened Capture

  function SecondPerRead(i: nat): real
  {
    i as real
  }

  lemma KeyTimeNeedNotBeASample()
    ensures var c := Clock(SecondPerRead, 0);
            var started := StartCapture(NewPositionTracker("", 0.5), "").(keyTimeSnapPending := true);
            && Monotone(c.reading) && CanFinishTick(started, c)
            && var d := Tick(started, c, []).tracker.data;
               && d.keyTimeStamp == [2.0]
               && d.timeStamp == [3.0]
               && d.keyTimeStamp[0] !in d.timeStamp
  {
    var c := Clock(SecondPerRead, 0);
    var started := StartCapture(NewPositionTracker("", 0.5), "").(keyTimeSnapPending := true);
    assert c.reading(1) - Anchor(started, c) >= Deadline(started);
    assert SpinExit(c.reading, WaitFrom(started, c), Anchor(started, c), Deadline(started)) == 1;
  }
}
