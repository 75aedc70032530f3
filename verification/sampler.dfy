/** What one tick does to the device map: the two `foreach (GameObject obj in
    trackedDevices)` loops of `FixedFPSCapture`. Each loop creates a missing
    track on first sight of a name, then writes into it. */
module Sampler {
  import opened Vectors
  import opened Session

  /** A tracked game object as seen during one tick: its name and the pose its
      transform reports. */
  datatype Device = Device(name: string, position: Vector3, eulerAngles: Vector3)

  function Names(devices: seq<Device>): set<string>
  {
    set i | 0 <= i < |devices| :: devices[i].name
  }

  /** No two game objects share a name. */
  predicate DistinctNames(devices: seq<Device>)
  {
    forall i, j :: 0 <= i < j < |devices| ==> devices[i].name != devices[j].name
  }

  /** The track stored under `name`, or the track the loop would create. */
  function Track(m: map<string, TrackedDevice>, name: string): TrackedDevice
  {
    if name in m then m[name] else NewTrackedDevice()
  }

  /** The positions of the devices called `name`, in array order: what one
      sampling pass appends to that track. */
  function PositionsOf(devices: seq<Device>, name: string): seq<SerializedVec3>
  {
    if devices == [] then []
    else (if devices[0].name == name then [FromVector3(devices[0].position)] else [])
         + PositionsOf(devices[1..], name)
  }

  /** Likewise for the Euler angles. */
  function RotationsOf(devices: seq<Device>, name: string): seq<SerializedVec3>
  {
    if devices == [] then []
    else (if devices[0].name == name then [FromVector3(devices[0].eulerAngles)] else [])
         + RotationsOf(devices[1..], name)
  }

  lemma NamesOfTail(devices: seq<Device>)
    requires devices != []
    ensures Names(devices) == {devices[0].name} + Names(devices[1..])
  {
    assert forall i :: 0 < i < |devices| ==> devices[i].name == devices[1..][i - 1].name;
  }

  /** A name that is not in the array receives nothing. */
  lemma {:induction false} AbsentNameGetsNothing(devices: seq<Device>, name: string)
    requires name !in Names(devices)
    ensures PositionsOf(devices, name) == [] && RotationsOf(devices, name) == []
    decreases |devices|
  {
    if devices != [] {
      NamesOfTail(devices);
      AbsentNameGetsNothing(devices[1..], name);
    }
  }

  /** With distinct names, every present name receives exactly one pose. */
  lemma {:induction false} DistinctNameGetsOne(devices: seq<Device>, name: string)
    requires DistinctNames(devices) && name in Names(devices)
    ensures |PositionsOf(devices, name)| == 1 && |RotationsOf(devices, name)| == 1
    decreases |devices|
  {
    NamesOfTail(devices);
    assert DistinctNames(devices[1..]);
    if devices[0].name == name {
      assert name !in Names(devices[1..]);
      AbsentNameGetsNothing(devices[1..], name);
    } else {
      DistinctNameGetsOne(devices[1..], name);
    }
  }

  /** Lines 168-172 for one game object. */
  function AppendPose(m: map<string, TrackedDevice>, d: Device): map<string, TrackedDevice>
  {
    var t := Track(m, d.name);
    m[d.name := t.(position := t.position + [FromVector3(d.position)],
                   rotation := t.rotation + [FromVector3(d.eulerAngles)])]
  }

  /** The sampling loop (lines 167-173): every track gains the poses of the
      devices bearing its name, in order, and nothing else changes. */
  function AppendSamples(m: map<string, TrackedDevice>, devices: seq<Device>): (r: map<string, TrackedDevice>)
    ensures r.Keys == m.Keys + Names(devices)
    ensures forall n :: n in r ==> SampledFrom(r[n], Track(m, n), devices, n)
    decreases |devices|
  {
    if devices == [] then m
    else
      var r := AppendSamples(AppendPose(m, devices[0]), devices[1..]);
      AppendSamplesStep(m, devices, r);
      r
  }

  /** `after` is `before` with the poses of the devices called `name` appended. */
  predicate SampledFrom(after: TrackedDevice, before: TrackedDevice, devices: seq<Device>, name: string)
  {
    && after.position == before.position + PositionsOf(devices, name)
    && after.rotation == before.rotation + RotationsOf(devices, name)
    && after.refPosition == before.refPosition
    && after.refRotation == before.refRotation
  }

  /** One step of the sampling loop, given what the rest of the loop does. */
  lemma AppendSamplesStep(m: map<string, TrackedDevice>, devices: seq<Device>, r: map<string, TrackedDevice>)
    requires devices != []
    requires r.Keys == AppendPose(m, devices[0]).Keys + Names(devices[1..])
    requires forall n :: n in r ==> SampledFrom(r[n], Track(AppendPose(m, devices[0]), n), devices[1..], n)
    ensures r.Keys == m.Keys + Names(devices)
    ensures forall n :: n in r ==> SampledFrom(r[n], Track(m, n), devices, n)
  {
    NamesOfTail(devices);
    forall n | n in r
      ensures SampledFrom(r[n], Track(m, n), devices, n)
    {
      SampledFromStep(r[n], m, devices, n);
    }
  }

  lemma SampledFromStep(t: TrackedDevice, m: map<string, TrackedDevice>, devices: seq<Device>, n: string)
    requires devices != []
    requires SampledFrom(t, Track(AppendPose(m, devices[0]), n), devices[1..], n)
    ensures SampledFrom(t, Track(m, n), devices, n)
  {
    var d := devices[0];
    var before := Track(m, n);
    var mid := Track(AppendPose(m, d), n);
    if n == d.name {
      assert mid.position == before.position + [FromVector3(d.position)];
      assert mid.rotation == before.rotation + [FromVector3(d.eulerAngles)];
      assert mid.refPosition == before.refPosition && mid.refRotation == before.refRotation;
      assert PositionsOf(devices, n) == [FromVector3(d.position)] + PositionsOf(devices[1..], n);
      assert RotationsOf(devices, n) == [FromVector3(d.eulerAngles)] + RotationsOf(devices[1..], n);
    } else {
      assert mid == before;
      assert PositionsOf(devices, n) == PositionsOf(devices[1..], n);
      assert RotationsOf(devices, n) == RotationsOf(devices[1..], n);
    }
  }

  /** Lines 146-150 for one game object. */
  function SetReference(m: map<string, TrackedDevice>, d: Device): map<string, TrackedDevice>
  {
    m[d.name := Track(m, d.name).(refPosition := FromVector3(d.position),
                                  refRotation := FromVector3(d.eulerAngles))]
  }

  /** No later game object in the array has the name of the one at `i`. */
  predicate LastWithName(devices: seq<Device>, i: nat)
    requires i < |devices|
  {
    forall j :: i < j < |devices| ==> devices[j].name != devices[i].name
  }

  /** The reference loop (lines 145-151): each named track's reference pose
      becomes the pose of the last device of that name; the sample lists and
      all other tracks are untouched. */
  function RecordReference(m: map<string, TrackedDevice>, devices: seq<Device>): (r: map<string, TrackedDevice>)
    ensures ReferenceRecorded(m, devices, r)
    decreases |devices|
  {
    if devices == [] then m
    else
      var r := RecordReference(SetReference(m, devices[0]), devices[1..]);
      RecordReferenceStep(m, devices, r);
      r
  }

  /** What the reference loop promises about its result `r`. */
  ghost predicate ReferenceRecorded(m: map<string, TrackedDevice>, devices: seq<Device>, r: map<string, TrackedDevice>)
  {
    && r.Keys == m.Keys + Names(devices)
    && (forall n :: n in r ==>
          r[n].position == Track(m, n).position && r[n].rotation == Track(m, n).rotation)
    && (forall n :: n in m && n !in Names(devices) ==> r[n] == m[n])
    && (forall i :: 0 <= i < |devices| && LastWithName(devices, i) ==>
          && devices[i].name in r
          && r[devices[i].name].refPosition == FromVector3(devices[i].position)
          && r[devices[i].name].refRotation == FromVector3(devices[i].eulerAngles))
  }

  /** One step of the reference loop, given what the rest of the loop does. */
  lemma RecordReferenceStep(m: map<string, TrackedDevice>, devices: seq<Device>, r: map<string, TrackedDevice>)
    requires devices != []
    requires ReferenceRecorded(SetReference(m, devices[0]), devices[1..], r)
    ensures ReferenceRecorded(m, devices, r)
  {
    NamesOfTail(devices);
    var d := devices[0];
    var rest := devices[1..];
    var m' := SetReference(m, d);
    forall n | n in r
      ensures r[n].position == Track(m, n).position && r[n].rotation == Track(m, n).rotation
    {
      assert Track(m', n).position == Track(m, n).position;
      assert Track(m', n).rotation == Track(m, n).rotation;
    }
    forall n | n in m && n !in Names(devices)
      ensures r[n] == m[n]
    {
      assert n !in Names(rest) && n != d.name;
      assert m'[n] == m[n];
    }
    forall i | 0 <= i < |devices| && LastWithName(devices, i)
      ensures devices[i].name in r
      ensures r[devices[i].name].refPosition == FromVector3(devices[i].position)
      ensures r[devices[i].name].refRotation == FromVector3(devices[i].eulerAngles)
    {
      if i == 0 {
        assert d.name !in Names(rest);
        assert d.name in m';
        assert r[d.name] == m'[d.name];
      } else {
        assert LastWithName(rest, i - 1);
        assert rest[i - 1] == devices[i];
      }
    }
  }
}
