/** The in-memory session record that one capture fills: `TrackedDevice` and
    `TrackedData` with its `Clear`, `Count` and `RecordingLength` members. */
module Session {
  import opened Wrappers
  import opened Vectors

  /** One device's track: parallel position and rotation lists (one entry per
      sample) and the pose captured by the last reference marker. */
  datatype TrackedDevice = TrackedDevice(
    position: seq<SerializedVec3>,
    rotation: seq<SerializedVec3>,
    refPosition: SerializedVec3,
    refRotation: SerializedVec3)

  /** A track as the field initialisers leave it. */
  function NewTrackedDevice(): (d: TrackedDevice)
    ensures d.position == [] && d.rotation == []
    ensures d.refPosition == Origin() && d.refRotation == Origin()
  {
    TrackedDevice([], [], Origin(), Origin())
  }

  /** The value of `refTimeStamp` while no reference marker has fired. */
  const NoReference: real := -1.0

  /** The whole session. The two metadata strings are `None` where the source
      holds `null`. */
  datatype TrackedData = TrackedData(
    timeStamp: seq<real>,
    trackedDevice: map<string, TrackedDevice>,
    refTimeStamp: real,
    keyTimeStamp: seq<real>,
    sessionDTime: Option<string>,
    teamName: Option<string>)

  /** Every list and map empty, the reference time at its sentinel and both
      metadata strings null. */
  predicate IsCleared(d: TrackedData)
  {
    && d.timeStamp == []
    && d.trackedDevice == map[]
    && d.keyTimeStamp == []
    && d.refTimeStamp == NoReference
    && d.sessionDTime == None
    && d.teamName == None
  }

  /** `new TrackedData()`: C# leaves the string fields null. */
  function NewTrackedData(): (d: TrackedData)
    ensures IsCleared(d)
  {
    TrackedData([], map[], NoReference, [], None, None)
  }

  /** `TrackedData.Clear`. */
  function Clear(d: TrackedData): (r: TrackedData)
    ensures IsCleared(r)
  {
    d.(timeStamp := [], trackedDevice := map[], keyTimeStamp := [],
       refTimeStamp := NoReference, sessionDTime := None, teamName := None)
  }

  /** Only one value is cleared, so a fresh record and a cleared one agree. */
  lemma ClearedIsUnique(a: TrackedData, b: TrackedData)
    requires IsCleared(a) && IsCleared(b)
    ensures a == b
  {
  }

  /** Whatever it held before, a cleared record equals a freshly built one. */
  lemma ClearGivesFreshRecord(d: TrackedData)
    ensures Clear(d) == NewTrackedData()
  {
    ClearedIsUnique(Clear(d), NewTrackedData());
  }

  /** Clearing twice is clearing once. */
  lemma ClearIdempotent(d: TrackedData)
    ensures Clear(Clear(d)) == Clear(d)
  {
    ClearedIsUnique(Clear(Clear(d)), Clear(d));
  }

  /** `TrackedData.Count`: the number of samples. It is zero exactly when
      `RecordingLength` has no value, and otherwise indexes one past the
      timestamp `RecordingLength` returns. */
  function Count(d: TrackedData): (r: nat)
    ensures r == 0 <==> RecordingLength(d).None?
    ensures r > 0 ==> r <= |d.timeStamp| && RecordingLength(d) == Some(d.timeStamp[r - 1])
  {
    |d.timeStamp|
  }

  /** Adjacent and non-adjacent timestamps are in order. */
  ghost predicate NonDecreasing(s: seq<real>)
  {
    forall i, j :: 0 <= i <= j < |s| ==> s[i] <= s[j]
  }

  /** `TrackedData.RecordingLength`: the last timestamp. `List.Last` throws on
      an empty list, which is the `None` case here. */
  function RecordingLength(d: TrackedData): (r: Option<real>)
    ensures r.Some? <==> |d.timeStamp| > 0
    ensures r.Some? ==> r.value in d.timeStamp
    ensures r.Some? && NonDecreasing(d.timeStamp) ==>
              forall i :: 0 <= i < |d.timeStamp| ==> d.timeStamp[i] <= r.value
  {
    if |d.timeStamp| == 0 then None else Some(d.timeStamp[|d.timeStamp| - 1])
  }
}
