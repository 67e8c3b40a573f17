/** Properties of the merged track as a whole: how long it is, where every
    emitted timing comes from, what happens when one track is empty, and what
    merging a track with itself gives. */
module Output {
  import opened Cues
  import opened Comparator
  import opened TextJoiner
  import opened Merger

  /** Each round consumes between one and three cues. */
  lemma {:induction false} RoundSizes(p: seq<Round>)
    ensures |p| <= |ConcatA(p)| + |ConcatB(p)| <= 3 * |p|
    decreases |p|
  {
    if |p| > 0 {
      RoundSizes(p[1..]);
    }
  }

  /** The merged track has at most one cue per input cue and at least one cue
      per three input cues. */
  lemma MergedLength(a: seq<Cue>, b: seq<Cue>, cfg: Config)
    ensures |Merged(a, b, cfg)| <= |a| + |b| <= 3 * |Merged(a, b, cfg)|
  {
    var p := Plan(a, b, ByTiming(cfg.slack), 0, 0);
    PlanCovers(a, b, ByTiming(cfg.slack), 0, 0);
    RoundSizes(p);
  }

  /** True when every cue of `cs` takes its timing from some cue of `src`. */
  predicate AllTimingFrom(cs: seq<Cue>, src: seq<Cue>) {
    forall k :: 0 <= k < |cs| ==> TimingFrom(cs[k], src)
  }

  /** Every emitted cue takes its start and end from one of the cues its
      rounds consumed. */
  lemma {:induction false} RenderedTiming(p: seq<Round>, cfg: Config)
    ensures AllTimingFrom(Rendered(p, cfg), ConcatA(p) + ConcatB(p))
    decreases |p|
  {
    if |p| > 0 {
      var g, rest := p[0], p[1..];
      var src := ConcatA(p) + ConcatB(p);
      var r := Rendered(p, cfg);
      RenderedTiming(rest, cfg);
      assert r == [Render(g, cfg)] + Rendered(rest, cfg);
      forall k | 0 <= k < |r|
        ensures TimingFrom(r[k], src)
      {
        if k == 0 {
          var x :| x in g.fromA + g.fromB && SameTiming(x, r[0]);
          assert x in src;
        } else {
          assert r[k] == Rendered(rest, cfg)[k - 1];
          var x :| x in ConcatA(rest) + ConcatB(rest) && SameTiming(x, r[k]);
          assert x in src;
        }
      }
    }
  }

  /** No timing is invented: every cue of the merged track has the start and
      end of some cue of A or of B. */
  lemma MergedTiming(a: seq<Cue>, b: seq<Cue>, cfg: Config)
    ensures AllTimingFrom(Merged(a, b, cfg), a + b)
  {
    PlanCovers(a, b, ByTiming(cfg.slack), 0, 0);
    RenderedTiming(Plan(a, b, ByTiming(cfg.slack), 0, 0), cfg);
  }

  /** With one track empty the loop does not run and the other track comes
      out unchanged. */
  lemma MergedOneEmpty(a: seq<Cue>, b: seq<Cue>, cfg: Config)
    requires a == [] || b == []
    ensures Merged(a, b, cfg) == a + b
  {
    PlanTailRendered(a, b, ByTiming(cfg.slack), cfg, 0, 0);
    assert a[0..] == a && b[0..] == b;
  }

  /** Each cue of `cs` matched with itself. */
  function Pairs(cs: seq<Cue>): (p: seq<Round>)
    ensures |p| == |cs|
  {
    if |cs| == 0 then [] else [Group([cs[0]], [cs[0]])] + Pairs(cs[1..])
  }

  /** A track merged with itself pairs every cue with itself, whatever the
      tolerance: identical timings always match. */
  lemma {:induction false} SelfPlan(a: seq<Cue>, slack: int, i: nat)
    requires i <= |a|
    ensures Plan(a, a, ByTiming(slack), i, i) == Pairs(a[i..])
    decreases |a| - i
  {
    if i < |a| {
      assert ByTiming(slack)(a[i], a[i]) == Tie;
      assert Step(a, a, ByTiming(slack), i, i) == Group([a[i]], [a[i]]) by {
        assert a[i..i + 1] == [a[i]];
      }
      PlanUnfold(a, a, ByTiming(slack), i, i);
      SelfPlan(a, slack, i + 1);
      assert a[i..][1..] == a[i + 1..];
    } else {
      PlanDone(a, a, ByTiming(slack), i, i);
    }
  }

  /** A cue matched with itself keeps its timing and stacks its text twice. */
  lemma RenderSelf(c: Cue, cfg: Config)
    ensures Render(Group([c], [c]), cfg) == Cue(c.start, c.end, MergeLines([c.text, c.text], cfg.joinLines))
  {
    assert Spaced([c]) == c.text by {
      assert Texts([c]) == [c.text];
    }
  }

  /** Merging a track with itself keeps every cue's timing and doubles its
      text, one copy above the other. */
  lemma MergedSelf(a: seq<Cue>, cfg: Config)
    ensures Merged(a, a, cfg) == Rendered(Pairs(a), cfg)
    ensures |Merged(a, a, cfg)| == |a|
  {
    SelfPlan(a, cfg.slack, 0);
    assert a[0..] == a;
  }
}
