/** The real-time clock as an abstract oracle, and the per-tick busy-wait.

    `Time.realtimeSinceStartup` is modelled as a function from the number of
    reads made so far to the value that read returns; `next` counts the reads.
    Nothing is assumed about the values except, where stated, that they never
    decrease. */
module Clock {

  datatype Clock = Clock(reading: nat -> real, next: nat)

  /** The value the next read of the clock returns. */
  function Now(c: Clock): real
  {
    c.reading(c.next)
  }

  /** A real-time clock never runs backwards. */
  ghost predicate Monotone(reading: nat -> real)
  {
    forall i: nat, j: nat :: i <= j ==> reading(i) <= reading(j)
  }

  /** Some read, measured from `start`, is at or past `deadline`: the wait on
      that deadline can end. */
  ghost predicate Reaches(reading: nat -> real, start: real, deadline: real)
  {
    exists i: nat :: reading(i) - start >= deadline
  }

  /** The clock passes every value. */
  ghost predicate Exceeds(reading: nat -> real, bound: real)
  {
    exists i: nat :: reading(i) >= bound
  }

  ghost predicate Unbounded(reading: nat -> real)
  {
    forall bound: real :: Exceeds(reading, bound)
  }

  /** An unbounded clock reaches every deadline. */
  lemma UnboundedReaches(reading: nat -> real, start: real, deadline: real)
    requires Unbounded(reading)
    ensures Reaches(reading, start, deadline)
  {
    assert Exceeds(reading, start + deadline);
    var i: nat :| reading(i) >= start + deadline;
    assert reading(i) - start >= deadline;
  }

  /** Some read that meets the deadline; only used to bound the wait. */
  ghost function Witness(reading: nat -> real, start: real, deadline: real): (i: nat)
    requires Reaches(reading, start, deadline)
    ensures reading(i) - start >= deadline
  {
    var i: nat :| reading(i) - start >= deadline; i
  }

  /** The index of the read that ends the wait begun at read `from`: the first
      read at or after `from` whose elapsed time reaches `deadline`. */
  function SpinExit(reading: nat -> real, from: nat, start: real, deadline: real): (e: nat)
    requires Monotone(reading) && Reaches(reading, start, deadline)
    ensures from <= e
    ensures reading(e) - start >= deadline
    ensures forall j: nat :: from <= j < e ==> reading(j) - start < deadline
    decreases Witness(reading, start, deadline) - from
  {
    if reading(from) - start >= deadline then from
    else
      SpinExit(reading, from + 1, start, deadline)
  }

  /** Two reads that both end the same wait are the same read. */
  lemma SpinExitUnique(reading: nat -> real, from: nat, start: real, deadline: real, e: nat)
    requires Monotone(reading) && Reaches(reading, start, deadline)
    requires from <= e && reading(e) - start >= deadline
    requires forall j: nat :: from <= j < e ==> reading(j) - start < deadline
    ensures e == SpinExit(reading, from, start, deadline)
  {
  }

  /** The source's empty `while (captureTimeNow < deadline) {}` loop. Each test
      of the condition reads the clock once, the failing one included. */
  method BusyWait(c: Clock, start: real, deadline: real) returns (r: Clock)
    requires Monotone(c.reading) && Reaches(c.reading, start, deadline)
    ensures r.reading == c.reading
    ensures c.next < r.next
    ensures r.reading(r.next - 1) - start >= deadline
    ensures r.next - 1 == SpinExit(c.reading, c.next, start, deadline)
  {
    r := c;
    ghost var w := Witness(c.reading, start, deadline);
    while Now(r) - start < deadline
      invariant r.reading == c.reading && c.next <= r.next
      invariant forall j: nat :: c.next <= j < r.next ==> c.reading(j) - start < deadline
      decreases w - r.next
    {
      r := r.(next := r.next + 1);
    }
    SpinExitUnique(c.reading, c.next, start, deadline, r.next);
    r := r.(next := r.next + 1);
  }
}
