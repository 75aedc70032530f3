/** Three-component vectors: Unity's `Vector3` and the serializable copy
    `SerializedVec3` that a session stores for every position and rotation.
    The source's 32-bit floats are modelled as reals; a copy is exact either way. */
module Vectors {

  /** Unity's `Vector3`, as returned by a transform's `position` or `eulerAngles`. */
  datatype Vector3 = Vector3(x: real, y: real, z: real)

  /** The plain x/y/z record written to the session file. */
  datatype SerializedVec3 = SerializedVec3(x: real, y: real, z: real)

  /** The parameterless constructor: the origin. */
  function Origin(): SerializedVec3
  {
    SerializedVec3(0.0, 0.0, 0.0)
  }

  /** The copy constructor `SerializedVec3(Vector3)`. */
  function FromVector3(v: Vector3): SerializedVec3
  {
    SerializedVec3(v.x, v.y, v.z)
  }

  /** `SerializedVec3.ToVec3`: back to a Unity vector. */
  function ToVec3(s: SerializedVec3): Vector3
  {
    Vector3(s.x, s.y, s.z)
  }

  /** The copy keeps every component, and converting back undoes it. */
  lemma ToVec3InvertsCopy(v: Vector3)
    ensures FromVector3(v).x == v.x && FromVector3(v).y == v.y && FromVector3(v).z == v.z
    ensures ToVec3(FromVector3(v)) == v
  {
  }

  /** And the other way round: the copy constructor is a bijection. */
  lemma CopyInvertsToVec3(s: SerializedVec3)
    ensures FromVector3(ToVec3(s)) == s
  {
  }

  /** The default constructor is the copy of Unity's zero vector. */
  lemma OriginIsZeroCopy()
    ensures Origin().x == 0.0 && Origin().y == 0.0 && Origin().z == 0.0
    ensures Origin() == FromVector3(Vector3(0.0, 0.0, 0.0))
    ensures ToVec3(Origin()) == Vector3(0.0, 0.0, 0.0)
  {
  }
}
