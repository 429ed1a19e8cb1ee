/** Instants, durations and calendar dates, as integers.
    An instant is a count of nanoseconds since the Unix epoch, which is the resolution of
    Go's time.Time; a date is a count of days since 1970-01-01. */
module Instants {

  type Instant = int
  type Duration = int
  type Date = int

  function Seconds(n: int): Duration { n * 1_000_000_000 }

  function Hours(n: int): Duration { n * 3_600_000_000_000 }

  function Days(n: int): Duration { n * 86_400_000_000_000 }

  /** The Unix second an instant falls in, as time.Time.Unix does. */
  function UnixSeconds(t: Instant): int { t / 1_000_000_000 }

  /** The number of whole days since the epoch, counting from midnight UTC. */
  function UtcDay(t: Instant): int { t / 86_400_000_000_000 }

  /** The start of the UTC hour holding t: time.Truncate(time.Hour) and date_trunc('hour', _, 'UTC'). */
  function TruncateHour(t: Instant): (h: Instant)
    ensures h <= t < h + Hours(1)
    ensures HourAligned(h)
  {
    t / 3_600_000_000_000 * 3_600_000_000_000
  }

  predicate HourAligned(t: Instant) { t % 3_600_000_000_000 == 0 }
}
