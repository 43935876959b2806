/**
 * Python `datetime` values as far as the session uses them: a reading of the
 * UTC clock, aware (`datetime.now(timezone.utc)`) or naive
 * (`datetime.utcnow()`), its `isoformat()`, and subtraction, which raises
 * `TypeError` when one operand is naive and the other aware.
 */
module Clock {
  import opened Wrappers

  /** `micros` counts microseconds since the epoch; `naiveIso` is the
      `isoformat()` text of the naive value, without a UTC offset. */
  datatype DateTime = DateTime(micros: int, aware: bool, naiveIso: string)

  /** `datetime.now(timezone.utc)` for a given clock reading. */
  function NowUtc(micros: int, naiveIso: string): DateTime
  {
    DateTime(micros, true, naiveIso)
  }

  /** `datetime.utcnow()` for a given clock reading: the same instant, naive. */
  function UtcNow(micros: int, naiveIso: string): DateTime
  {
    DateTime(micros, false, naiveIso)
  }

  /** `t.isoformat()`: an aware UTC value carries the offset `+00:00`. */
  function IsoFormat(t: DateTime): string
  {
    if t.aware then t.naiveIso + "+00:00" else t.naiveIso
  }

  const MixedSubtraction := "TypeError: can't subtract offset-naive and offset-aware datetimes"

  /** `(a - b).total_seconds()`: defined only when both are naive or both aware. */
  function ElapsedSeconds(a: DateTime, b: DateTime): (r: Result<real>)
    ensures r.Ok? <==> a.aware == b.aware
    ensures r.Ok? ==> r.value * 1000000.0 == (a.micros - b.micros) as real
  {
    if a.aware != b.aware then Err(MixedSubtraction)
    else Ok((a.micros - b.micros) as real / 1000000.0)
  }
}
