/** Small shared vocabulary: optional values, the clock unit, and the record
    type that flows through the pipeline. */
module Common {

  datatype Option<+T> = None | Some(value: T)

  /** Clock readings and durations are whole nanoseconds, as in Go's time.Duration. */
  const SECOND: int := 1_000_000_000
  const MINUTE: int := 60 * SECOND

  function Min(a: int, b: int): int { if a <= b then a else b }

  function Max(a: int, b: int): int { if a <= b then b else a }

  lemma SmallFactor(a: int, b: int, p: nat)
    requires a * p < b * p
    ensures a < b
  {
    assert (b - a) * p > 0;
  }

  /** The last n elements of a log, or all of it when it is shorter. */
  function Newest<T>(log: seq<T>, n: nat): seq<T> {
    if |log| <= n then log else log[|log| - n..]
  }

  /** One ingested record. `tags` is None for a nil Go map. */
  datatype Record = Record(
    timestamp: int, connectorId: string, sourceId: string,
    tags: Option<map<string, string>>, payload: string)
}
