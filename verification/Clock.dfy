/** Wall and monotonic clock arithmetic with explicit overflow. */
module Clock {
  import opened Wrappers
  import opened Contracts

  /** The last nanosecond of the year 9999, counted from the Unix epoch. */
  const LAST_INSTANT := 253_402_300_799_999_999_999

  const I64_MAX := 0x7fff_ffff_ffff_ffff

  /** Monotonic moments are unsigned 128-bit nanosecond counts. */
  const MONOTONIC_LIMIT := 0x1_0000_0000_0000_0000_0000_0000_0000_0000

  type Moment = x: int | 0 <= x < MONOTONIC_LIMIT

  /** One observation of both clocks by one incarnation of the service. */
  datatype ClockSample = ClockSample(wall: int, monotonic: Moment, generation: u64)

  function AddSeconds(wall: int, seconds: nat): (r: Option<int>)
    ensures r.Some? ==> r.value == wall + seconds * NANOS_PER_SECOND
  {
    if seconds > I64_MAX || wall + seconds * NANOS_PER_SECOND > LAST_INSTANT then None
    else Some(wall + seconds * NANOS_PER_SECOND)
  }

  function Advance(moment: Moment, nanoseconds: nat): (r: Option<Moment>)
    ensures r.Some? ==> r.value == moment + nanoseconds
  {
    if moment + nanoseconds < MONOTONIC_LIMIT then Some(moment + nanoseconds) else None
  }

  function AdvanceSeconds(moment: Moment, seconds: nat): (r: Option<Moment>)
    ensures r.Some? ==> r.value == moment + seconds * NANOS_PER_SECOND
  {
    Advance(moment, seconds * NANOS_PER_SECOND)
  }

  function Between(earlier: int, later: int): Option<nat> {
    if later < earlier then None else Some(later - earlier)
  }

  function Earlier(a: int, b: int): (r: int)
    ensures r <= a && r <= b && (r == a || r == b)
  {
    if a < b then a else b
  }

  function EarlierMoment(a: Moment, b: Moment): (r: Moment)
    ensures r <= a && r <= b && (r == a || r == b)
  {
    if b < a then b else a
  }

  /** A deadline is reached as soon as either clock says so. */
  predicate DeadlineReached(now: ClockSample, wall: int, monotonic: Moment) {
    now.wall >= wall || now.monotonic >= monotonic
  }
}
