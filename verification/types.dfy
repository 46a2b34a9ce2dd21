/** Value types shared by the prober and the history log. */
module Types {

  /** Tri-state outcome of a check: nothing was up, everything was up, or only part of it. */
  datatype TestResult = NONE | ALL | PART

  /** Go's `time.Duration`: a signed count of nanoseconds. */
  type Duration = int

  const NanosPerMilli: int := 1_000_000

  /** Go's `Duration.Milliseconds()`: integer division that truncates toward zero. */
  function Milliseconds(d: Duration): (ms: int)
    ensures d >= 0 ==> 0 <= ms * NanosPerMilli <= d < (ms + 1) * NanosPerMilli
    ensures d < 0 ==> (ms - 1) * NanosPerMilli < d <= ms * NanosPerMilli <= 0
  {
    if d >= 0 then d / NanosPerMilli else -((-d) / NanosPerMilli)
  }
}
