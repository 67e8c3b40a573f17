/** Worked inputs: the tolerance boundary, a plain match, a genuine
    combination of two cues, and an input whose merged list is not in
    start-time order before the script sorts it. Each is first stated for any cues with the given
    comparison results, then checked on concrete cues under the default
    settings (500 ms tolerance, line joining). */
module Scenarios {
  import opened Cues
  import opened Comparator
  import opened TextJoiner
  import opened Merger
  import opened Rounds

  /** Drifts just inside and just outside the tolerance. */
  lemma ToleranceBoundary()
    ensures TimediffToIndicator(499, 0, 500) == Tie
    ensures TimediffToIndicator(500, 500, 500) == Precedence(Pos, Pos)
    ensures TimediffToIndicator(600, 300, 500) == Tie
    ensures TimediffToIndicator(600, 600, 500) == Precedence(Pos, Pos)
    ensures TimediffToIndicator(0, -1000, 500) == Precedence(Zero, Neg)
  {
  }

  lemma SpacedOne(x: Cue)
    ensures Spaced([x]) == x.text
  {
    assert Texts([x]) == [x.text];
  }

  lemma SpacedTwo(x: Cue, y: Cue)
    ensures Spaced([x, y]) == x.text + " " + y.text
  {
    assert Texts([x, y]) == [x.text, y.text] by {
      assert [x, y][1..] == [y];
      assert Texts([y]) == [y.text];
    }
    assert [x.text, y.text][1..] == [y.text];
    assert Join([y.text], ' ') == y.text;
  }

  /** One cue against one cue that ties with it: a single cue with the A
      timing and both texts. */
  lemma MatchPair(x: Cue, y: Cue, cfg: Config)
    requires Compare(x, y, cfg.slack) == Tie
    ensures Merged([x], [y], cfg) == [Cue(x.start, x.end, MergeLines([x.text, y.text], cfg.joinLines))]
  {
    var a, b := [x], [y];
    var cmp := ByTiming(cfg.slack);
    assert Step(a, b, cmp, 0, 0) == Group(a, b) by {
      assert a[0..1] == a && b[0..1] == b;
    }
    FirstRound(a, b, ByTiming(cfg.slack), cfg, 0, 0);
    PlanTailRendered(a, b, cmp, cfg, 1, 1);
    SpacedOne(x);
    SpacedOne(y);
  }

  /** Two A cues against one B cue, where the first A cue starts with the B
      cue but ends early and the second ends with it: a single cue with the B
      timing, the A texts joined by a space over the B text. */
  lemma CombinePair(x1: Cue, x2: Cue, y: Cue, cfg: Config)
    requires Compare(x1, y, cfg.slack) == Precedence(Zero, Neg)
    requires Compare(x2, y, cfg.slack).end == Zero
    ensures Merged([x1, x2], [y], cfg) == [Cue(y.start, y.end, MergeLines([x1.text + " " + x2.text, y.text], cfg.joinLines))]
  {
    var a, b := [x1, x2], [y];
    var cmp := ByTiming(cfg.slack);
    StepPairA(a, b, cfg.slack, 0, 0);
    FirstRound(a, b, ByTiming(cfg.slack), cfg, 0, 0);
    PlanTailRendered(a, b, cmp, cfg, 2, 1);
    SpacedTwo(x1, x2);
    SpacedOne(y);
  }

  lemma JoinTwo(s: string, t: string)
    requires LineBreak !in s && LineBreak !in t
    ensures MergeLines([s, t], true) == s + "\n" + t
  {
    FlattenIdempotent(s);
    FlattenIdempotent(t);
    assert FlattenAll([s, t]) == [s, t];
    assert [s, t][1..] == [t];
    assert Join([t], LineBreak) == t;
  }

  /** The plain match under the default settings. This and the next two
      lemmas are single examples: their cues are parameters pinned to
      literals by `requires`, rather than locals, so that the proof reasons
      about the cue fields and not about the literals unfolded through the
      whole merge. */
  lemma PlainMatch(x: Cue, y: Cue)
    requires x == Cue(0, 1000, "Hello") && y == Cue(0, 1000, "Bonjour")
    ensures Merged([x], [y], Default) == [Cue(0, 1000, "Hello" + "\n" + "Bonjour")]
  {
    JoinTwo(x.text, y.text);
    MatchPair(x, y, Default);
  }

  /** The combination under the default settings: `Hi` (0-1000) and `there`
      (1000-2000) against `Bonjour` (0-2000). A single example, written like
      `PlainMatch`. */
  lemma Combine(x1: Cue, x2: Cue, y: Cue)
    requires x1 == Cue(0, 1000, "Hi") && x2 == Cue(1000, 2000, "there") && y == Cue(0, 2000, "Bonjour")
    ensures Merged([x1, x2], [y], Default) == [Cue(0, 2000, "Hi" + " " + "there" + "\n" + "Bonjour")]
  {
    assert LineBreak !in x1.text + " " + x2.text && LineBreak !in y.text;
    JoinTwo(x1.text + " " + x2.text, y.text);
    CombineTimings(x1, x2, y);
    CombinePair(x1, x2, y, Default);
  }

  /** The two comparisons of the combination example, on the same pinned
      cues. */
  lemma CombineTimings(x1: Cue, x2: Cue, y: Cue)
    requires x1 == Cue(0, 1000, "Hi") && x2 == Cue(1000, 2000, "there") && y == Cue(0, 2000, "Bonjour")
    ensures Compare(x1, y, 500) == Precedence(Zero, Neg)
    ensures Compare(x2, y, 500) == Precedence(Pos, Zero)
  {
  }

  /** A match, then a B cue whose lookahead fails: the B cue comes out right
      after the matched cue, whatever their starts. */
  lemma MatchThenLoneB(a: seq<Cue>, b: seq<Cue>, cfg: Config)
    requires |a| == 2 && |b| == 3
    requires Compare(a[0], b[0], cfg.slack) == Tie
    requires Compare(a[1], b[1], cfg.slack) == Precedence(Zero, Pos)
    requires Compare(a[1], b[2], cfg.slack).end != Zero
    ensures |Merged(a, b, cfg)| >= 2
    ensures SameTiming(Merged(a, b, cfg)[0], a[0]) && Merged(a, b, cfg)[1] == b[1]
  {
    StepTie(a, b, cfg.slack, 0, 0);
    FirstRound(a, b, ByTiming(cfg.slack), cfg, 0, 0);
    StepLoneB(a, b, cfg.slack, 1, 1);
    FirstRound(a, b, ByTiming(cfg.slack), cfg, 1, 1);
  }

  /** The loop's list need not be ordered by start time (the script's
      `clean_indexes` sorts it afterwards, outside this model): `b2` (700-800)
      comes out right after the match of `a1` with `b1`, which starts at
      1000. */
  lemma OutOfOrder()
    ensures var a := [Cue(1000, 1050, "a1"), Cue(1050, 2000, "a2")];
      var b := [Cue(500, 700, "b1"), Cue(700, 800, "b2"), Cue(5000, 6000, "b3")];
      var m := Merged(a, b, Default);
      |m| >= 2 && m[0].start == 1000 && m[1] == Cue(700, 800, "b2")
  {
    var a := [Cue(1000, 1050, "a1"), Cue(1050, 2000, "a2")];
    var b := [Cue(500, 700, "b1"), Cue(700, 800, "b2"), Cue(5000, 6000, "b3")];
    // Starts 500 apart and ends 350 apart: summed drift below 1000, a match.
    assert Compare(a[0], b[0], 500) == Tie;
    // Starts 350 apart, `a2` ends 1200 later: the lookahead of B is tried.
    assert Compare(a[1], b[1], 500) == Precedence(Zero, Pos);
    // `b3` ends 4000 after `a2`: the lookahead fails.
    assert Compare(a[1], b[2], 500) == Precedence(Neg, Neg);
    MatchThenLoneB(a, b, Default);
  }
}
