/** What the choice of round means in terms of cue timings, for the script's
    comparison with a positive tolerance: when two cues are matched, when one
    is emitted alone, when two cues of one track are combined against one of
    the other, and that the choice treats both tracks alike. */
module Rounds {
  import opened Cues
  import opened Comparator
  import opened Merger

  /** `x` ends with `y` as far as the lookahead is concerned: the two cues tie
      outright, or their ends are within the tolerance of each other. */
  predicate EndsTogether(x: Cue, y: Cue, slack: int) {
    Abs(x.start - y.start) + Abs(x.end - y.end) < 2 * slack || Abs(x.end - y.end) < slack
  }

  /** The lookahead test of the script: the end component of the comparison
      is 0 exactly when the cues end together. */
  lemma EndComponent(x: Cue, y: Cue, slack: int)
    requires slack > 0
    ensures Compare(x, y, slack).end == Zero <==> EndsTogether(x, y, slack)
  {
    CompareTie(x, y, slack);
    IndicatorSign(x.end - y.end, slack);
  }

  /** The lookahead of track A at cursors `i`, `j` succeeds: `a[i+1]` exists
      and ends with `b[j]`. */
  predicate LookA(a: seq<Cue>, b: seq<Cue>, slack: int, i: nat, j: nat)
    requires i < |a| && j < |b|
  {
    i + 1 < |a| && EndsTogether(a[i + 1], b[j], slack)
  }

  /** The lookahead of track B at cursors `i`, `j` succeeds: `b[j+1]` exists
      and ends with `a[i]`. */
  predicate LookB(a: seq<Cue>, b: seq<Cue>, slack: int, i: nat, j: nat)
    requires i < |a| && j < |b|
  {
    j + 1 < |b| && EndsTogether(a[i], b[j + 1], slack)
  }

  /** The shape of the round at cursors `i`, `j`, read off the timings:
      - a match exactly when the summed drift of start and end is below twice
        the tolerance;
      - otherwise two A cues against one B cue exactly when the starts agree
        within the tolerance, `a[i]` ends at least a tolerance before `b[j]`
        and `a[i+1]` ends with `b[j]`, and symmetrically for two B cues;
      - otherwise `a[i]` alone exactly when it starts at least a tolerance
        before `b[j]`, or the starts agree, `a[i]` ends at least a tolerance
        before `b[j]`, and the lookahead of A fails;
      - and `b[j]` alone in every remaining case. */
  lemma ShapeByTiming(a: seq<Cue>, b: seq<Cue>, slack: int, i: nat, j: nat)
    requires slack > 0 && i < |a| && j < |b|
    ensures var t := Shape(a, b, ByTiming(slack), i, j);
      var ds, de := a[i].start - b[j].start, a[i].end - b[j].end;
      && (t == (1, 1) <==> Abs(ds) + Abs(de) < 2 * slack)
      && (t == (2, 1) <==> Abs(ds) + Abs(de) >= 2 * slack && Abs(ds) < slack && de <= -slack && LookA(a, b, slack, i, j))
      && (t == (1, 2) <==> Abs(ds) + Abs(de) >= 2 * slack && Abs(ds) < slack && de >= slack && LookB(a, b, slack, i, j))
      && (t == (1, 0) <==>
            (Abs(ds) + Abs(de) >= 2 * slack &&
             (ds <= -slack || (Abs(ds) < slack && de <= -slack && !LookA(a, b, slack, i, j)))))
      && (t == (0, 1) <==>
            (Abs(ds) + Abs(de) >= 2 * slack &&
             (ds >= slack || (Abs(ds) < slack && de >= slack && !LookB(a, b, slack, i, j)))))
  {
    var ds, de := a[i].start - b[j].start, a[i].end - b[j].end;
    ShortCircuitSubsumed(a[i], b[j], slack);
    TimediffTie(ds, de, slack);
    IndicatorThresholds(ds, ds, slack);
    IndicatorThresholds(de, de, slack);
    if i + 1 < |a| {
      EndComponent(a[i + 1], b[j], slack);
    }
    if j + 1 < |b| {
      EndComponent(a[i], b[j + 1], slack);
    }
  }

  /** The lookahead runs off the end of track A exactly when `a[i]` is its
      last cue; then the round is `a[i]` alone, where the script reads past
      the end of its list. */
  lemma LookaheadAtEndA(a: seq<Cue>, b: seq<Cue>, slack: int, j: nat)
    requires |a| > 0 && j < |b|
    requires Compare(a[|a| - 1], b[j], slack) == Precedence(Zero, Neg)
    ensures Shape(a, b, ByTiming(slack), |a| - 1, j) == (1, 0)
  {
  }

  /** The same at the end of track B. */
  lemma LookaheadAtEndB(a: seq<Cue>, b: seq<Cue>, slack: int, i: nat)
    requires i < |a| && |b| > 0
    requires Compare(a[i], b[|b| - 1], slack) == Precedence(Zero, Pos)
    ensures Shape(a, b, ByTiming(slack), i, |b| - 1) == (0, 1)
  {
  }

  /** Swapping the two tracks swaps the counts of every round: the choice of
      cues treats both tracks alike, only the rendering favours A. */
  lemma ShapeSwap(a: seq<Cue>, b: seq<Cue>, slack: int, i: nat, j: nat)
    requires slack > 0 && i < |a| && j < |b|
    ensures var t := Shape(a, b, ByTiming(slack), i, j);
      Shape(b, a, ByTiming(slack), j, i) == (t.1, t.0)
  {
    CompareAntisymmetric(a[i], b[j], slack);
    if i + 1 < |a| {
      CompareAntisymmetric(a[i + 1], b[j], slack);
    }
    if j + 1 < |b| {
      CompareAntisymmetric(a[i], b[j + 1], slack);
    }
  }

  /** A tie takes one cue from each track. */
  lemma StepTie(a: seq<Cue>, b: seq<Cue>, slack: int, i: nat, j: nat)
    requires i < |a| && j < |b| && Compare(a[i], b[j], slack) == Tie
    ensures Step(a, b, ByTiming(slack), i, j) == Group([a[i]], [b[j]])
  {
    assert ByTiming(slack)(a[i], b[j]) == Tie;
    assert a[i..i + 1] == [a[i]] && b[j..j + 1] == [b[j]];
  }

  /** Starts that agree with `a[i]` ending well before `b[j]`, and a
      successful lookahead of A: `a[i]` and `a[i+1]` against `b[j]`. */
  lemma StepPairA(a: seq<Cue>, b: seq<Cue>, slack: int, i: nat, j: nat)
    requires i + 1 < |a| && j < |b|
    requires Compare(a[i], b[j], slack) == Precedence(Zero, Neg)
    requires Compare(a[i + 1], b[j], slack).end == Zero
    ensures Step(a, b, ByTiming(slack), i, j) == Group([a[i], a[i + 1]], [b[j]])
  {
    assert ByTiming(slack)(a[i], b[j]) == Precedence(Zero, Neg);
    assert ByTiming(slack)(a[i + 1], b[j]).end == Zero;
    assert Shape(a, b, ByTiming(slack), i, j) == (2, 1);
    assert a[i..i + 2] == [a[i], a[i + 1]] && b[j..j + 1] == [b[j]];
  }

  /** Starts that agree with `a[i]` ending well before `b[j]`, and no
      successor of `a[i]` or one that does not end with `b[j]`: `a[i]` alone. */
  lemma StepLoneA(a: seq<Cue>, b: seq<Cue>, slack: int, i: nat, j: nat)
    requires i < |a| && j < |b|
    requires Compare(a[i], b[j], slack) == Precedence(Zero, Neg)
    requires i + 1 == |a| || Compare(a[i + 1], b[j], slack).end != Zero
    ensures Step(a, b, ByTiming(slack), i, j) == Group([a[i]], [])
  {
    assert ByTiming(slack)(a[i], b[j]) == Precedence(Zero, Neg);
    if i + 1 < |a| {
      assert ByTiming(slack)(a[i + 1], b[j]).end != Zero;
    }
    assert Shape(a, b, ByTiming(slack), i, j) == (1, 0);
    assert a[i..i + 1] == [a[i]] && b[j..j] == [];
  }

  /** Starts that agree with `a[i]` ending well after `b[j]`, and no
      successor of `b[j]` or one that does not end with `a[i]`: `b[j]` alone. */
  lemma StepLoneB(a: seq<Cue>, b: seq<Cue>, slack: int, i: nat, j: nat)
    requires i < |a| && j < |b|
    requires Compare(a[i], b[j], slack) == Precedence(Zero, Pos)
    requires j + 1 == |b| || Compare(a[i], b[j + 1], slack).end != Zero
    ensures Step(a, b, ByTiming(slack), i, j) == Group([], [b[j]])
  {
    assert ByTiming(slack)(a[i], b[j]) == Precedence(Zero, Pos);
    if j + 1 < |b| {
      assert ByTiming(slack)(a[i], b[j + 1]).end != Zero;
    }
    assert Shape(a, b, ByTiming(slack), i, j) == (0, 1);
    assert a[i..i] == [] && b[j..j + 1] == [b[j]];
  }
}
