/** Times in nanoseconds since the epoch, whole seconds, and deadlines that are kept in whole seconds. */
module Clock {

  const SECOND := 1_000_000_000
  const TWO_TO_THE_63: int := 0x8000_0000_0000_0000

  /** As far from the epoch as a clock's seconds allow. */
  type Instant = t: int | -TWO_TO_THE_63 / 2 * SECOND <= t < TWO_TO_THE_63 / 2 * SECOND

  /** A positive duration. */
  type Lifetime = d: int | 0 < d < TWO_TO_THE_63 witness 1

  /** Whole seconds, rounded down. */
  function Unix(t: int): int {
    t / SECOND
  }

  /** The instant from which something is refused that was made at `at`: the whole second in which its lifetime ends. */
  function Deadline(at: int, ttl: Lifetime): int {
    Unix(at + ttl) * SECOND
  }

  /** The comparison of whole seconds is the comparison with the deadline. */
  lemma SecondsDecide(now: int, limit: int)
    ensures Unix(now) < Unix(limit) <==> now < Unix(limit) * SECOND
  {
  }

  /** What is made at `at` is good for at most its lifetime, and for more than its lifetime less one second. */
  lemma WindowLength(at: int, ttl: Lifetime)
    ensures ttl - SECOND < Deadline(at, ttl) - at <= ttl
  {
  }

  lemma ExpiryInRange(at: Instant, ttl: Lifetime)
    ensures -TWO_TO_THE_63 <= Unix(at + ttl) < TWO_TO_THE_63
  {
  }
}
