/** The data the merge works on: subtitle cues with millisecond timings, and the
    two tunables of the merge, passed in rather than held as globals. */
module Cues {

  /** One subtitle entry. Times are milliseconds; `text` may hold line breaks. */
  datatype Cue = Cue(start: int, end: int, text: string)

  /** The matching tolerance in milliseconds and whether each track's text is
      flattened onto one line before the tracks are stacked. */
  datatype Config = Config(slack: int, joinLines: bool)

  /** The script's settings: a 500 ms tolerance and line joining switched on. */
  const Default: Config := Config(500, true)

  /** True when `x` and `c` carry the same start and end time. */
  predicate SameTiming(x: Cue, c: Cue) {
    x.start == c.start && x.end == c.end
  }

  /** True when some cue of `cs` has the timing of `c`. */
  predicate TimingFrom(c: Cue, cs: seq<Cue>) {
    exists x :: x in cs && SameTiming(x, c)
  }
}
