/**
 * Go's time.Time as far as Schedule uses it: an instant, held as whole
 * seconds and nanoseconds since the Unix epoch, together with the offset of
 * the zone it is presented in. UTC() changes only the zone; UnixNano() gives
 * the instant as one nanosecond count, the form the store keeps.
 */
module Timing {

  const NanosPerSecond: int := 1_000_000_000

  datatype Time = Time(sec: int, nsec: int, zoneOffset: int)
  {
    /** The nanosecond part is normalised, as Go keeps it. */
    predicate Valid()
    {
      0 <= nsec < NanosPerSecond
    }
  }

  /** The same instant presented in UTC. */
  function UTC(t: Time): Time
  {
    Time(t.sec, t.nsec, 0)
  }

  /** Nanoseconds since the Unix epoch. */
  function UnixNano(t: Time): int
  {
    t.sec * NanosPerSecond + t.nsec
  }

  /** The UTC time whose UnixNano is `n` (Go's time.Unix(0, n).UTC()). */
  function FromUnixNano(n: int): (t: Time)
    ensures t.Valid() && t.zoneOffset == 0
    ensures UnixNano(t) == n
  {
    Time(n / NanosPerSecond, n % NanosPerSecond, 0)
  }

  /** Converting to UTC does not move the instant. */
  lemma UnixNanoOfUTC(t: Time)
    ensures UnixNano(UTC(t)) == UnixNano(t)
  {
  }

  /** The stored nanosecond count gives back the scheduled time, in UTC. */
  lemma UnixNanoRoundTrip(t: Time)
    requires t.Valid()
    ensures FromUnixNano(UnixNano(t)) == UTC(t)
  {
  }

  /** Two normalised times with the same nanosecond count are the same instant. */
  lemma UnixNanoInjective(a: Time, b: Time)
    requires a.Valid() && b.Valid()
    requires UnixNano(a) == UnixNano(b)
    ensures a.sec == b.sec && a.nsec == b.nsec
  {
  }
}
