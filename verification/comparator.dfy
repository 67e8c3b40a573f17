/** The tolerance-aware comparison of two cues' timings: a per-boundary
    tri-state sign (the script's `indicator`), the aggregate-tolerance rule
    (`timediff_to_indicator`) and the cue comparator (`compare_srtitem`). */
module Comparator {
  import opened Cues

  /** The precedence of one boundary after tolerance: the script encodes it as
      -1, 0 or +1. */
  datatype Sign = Neg | Zero | Pos {

    /** The integer the script uses for this sign. */
    function ToInt(): (n: int)
      ensures n in {-1, 0, 1}
      ensures (n == 0) == (this == Zero) && (n > 0) == (this == Pos)
    {
      match this
      case Neg => -1
      case Zero => 0
      case Pos => 1
    }

    /** The sign seen from the other side of the comparison. */
    function Negate(): (s: Sign)
      ensures s.ToInt() == -ToInt()
    {
      match this
      case Neg => Pos
      case Zero => Zero
      case Pos => Neg
    }
  }

  /** The pair of signs for the start boundary and the end boundary. */
  datatype Precedence = Precedence(start: Sign, end: Sign) {
    function Negate(): Precedence {
      Precedence(start.Negate(), end.Negate())
    }
  }

  /** Both boundaries coincide within tolerance: the cues match. */
  const Tie: Precedence := Precedence(Zero, Zero)

  function Abs(x: int): nat {
    if x < 0 then -x else x
  }

  /** The tolerance sign of a time delta `d`. */
  function Indicator(d: int, slack: int): Sign {
    if Abs(d) < slack then Zero
    else if d > 0 then Pos
    else Neg
  }

  /** The aggregate-tolerance rule on a start delta `std` and an end delta `etd`. */
  function TimediffToIndicator(std: int, etd: int, slack: int): Precedence {
    if Abs(std) + Abs(etd) < 2 * slack then Tie
    else Precedence(Indicator(std, slack), Indicator(etd, slack))
  }

  /** Compares the timing of cue `a` with that of cue `b`: identical timings tie
      outright, otherwise the deltas `a - b` go through the aggregate rule. */
  function Compare(a: Cue, b: Cue, slack: int): Precedence {
    if a.start == b.start && a.end == b.end then Tie
    else TimediffToIndicator(a.start - b.start, a.end - b.end, slack)
  }

  /** The tolerance sign is -1, 0 or +1; it is 0 exactly when the delta is
      smaller in magnitude than the slack, and otherwise it is the sign of the
      delta. */
  lemma IndicatorSign(d: int, slack: int)
    ensures Indicator(d, slack).ToInt() in {-1, 0, 1}
    ensures Indicator(d, slack) == Zero <==> Abs(d) < slack
    ensures Indicator(d, slack) != Zero ==> (Indicator(d, slack) == Pos <==> d > 0)
  {
  }

  /** The deltas tie exactly when their magnitudes sum to less than twice the
      slack, whatever the slack; past that, each boundary gets its own
      tolerance sign. */
  lemma TimediffTie(std: int, etd: int, slack: int)
    ensures TimediffToIndicator(std, etd, slack) == Tie <==> Abs(std) + Abs(etd) < 2 * slack
    ensures Abs(std) + Abs(etd) >= 2 * slack ==>
      TimediffToIndicator(std, etd, slack) == Precedence(Indicator(std, slack), Indicator(etd, slack))
  {
  }

  /** Two cues tie exactly when their timings are identical or their summed
      boundary drift is below twice the slack; otherwise each component is the
      tolerance sign of its own boundary's delta. */
  lemma CompareTie(a: Cue, b: Cue, slack: int)
    ensures Compare(a, b, slack) == Tie <==>
      SameTiming(a, b) || Abs(a.start - b.start) + Abs(a.end - b.end) < 2 * slack
    ensures Compare(a, b, slack) != Tie ==>
      Compare(a, b, slack).start == Indicator(a.start - b.start, slack) &&
      Compare(a, b, slack).end == Indicator(a.end - b.end, slack)
  {
    TimediffTie(a.start - b.start, a.end - b.end, slack);
  }

  /** With a positive slack the tolerance sign is an odd function of the delta. */
  lemma IndicatorOdd(d: int, slack: int)
    requires slack > 0
    ensures Indicator(-d, slack) == Indicator(d, slack).Negate()
  {
  }

  /** With a positive slack, Pos and Neg mean "later (earlier) by at least the
      slack", and larger deltas never get a smaller sign. */
  lemma IndicatorThresholds(d: int, d': int, slack: int)
    requires slack > 0
    ensures Indicator(d, slack) == Pos <==> d >= slack
    ensures Indicator(d, slack) == Neg <==> d <= -slack
    ensures d <= d' ==> Indicator(d, slack).ToInt() <= Indicator(d', slack).ToInt()
  {
  }

  /** With a positive slack the exact-match short-circuit changes nothing: two
      cues tie exactly when their summed boundary drift is below twice the
      slack, and otherwise the comparison is the aggregate rule on the deltas. */
  lemma ShortCircuitSubsumed(a: Cue, b: Cue, slack: int)
    requires slack > 0
    ensures Compare(a, b, slack) == TimediffToIndicator(a.start - b.start, a.end - b.end, slack)
    ensures Compare(a, b, slack) == Tie <==>
      Abs(a.start - b.start) + Abs(a.end - b.end) < 2 * slack
  {
  }

  /** Swapping the cues negates both signs of the comparison. */
  lemma CompareAntisymmetric(a: Cue, b: Cue, slack: int)
    requires slack > 0
    ensures Compare(b, a, slack) == Compare(a, b, slack).Negate()
  {
    IndicatorOdd(a.start - b.start, slack);
    IndicatorOdd(a.end - b.end, slack);
    assert b.start - a.start == -(a.start - b.start);
    assert b.end - a.end == -(a.end - b.end);
  }

  /** A cue ties with itself, and a tie of `a` with `b` is a tie of `b` with `a`. */
  lemma TieReflexiveSymmetric(a: Cue, b: Cue, slack: int)
    ensures Compare(a, a, slack) == Tie
    ensures Compare(a, b, slack) == Tie <==> Compare(b, a, slack) == Tie
  {
  }
}
