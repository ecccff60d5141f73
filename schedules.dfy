/** The trace's time schedules, kept abstract: a starting snapshot key and the steps
    replayed from it. Parsing, textual form and step syntax belong to the schedule library. */
module Schedules {

  /** One replay step; its thread, tick count and p-code form are not modelled. */
  datatype Step = Step(code: nat)

  datatype Schedule = Schedule(snap: int, steps: seq<Step>) {
    /** The schedule names an existing snapshot and replays nothing. */
    predicate IsSnapOnly() {
      |steps| == 0
    }
  }

  /** `TraceSchedule.snap(s)`: the snap-only schedule at `s`. */
  function SnapOnly(snap: int): (s: Schedule)
    ensures s.IsSnapOnly() && s.snap == snap
  {
    Schedule(snap, [])
  }

  /** `TraceSchedule.ZERO`. */
  const ZERO: Schedule := SnapOnly(0)
}
