/** The two-cursor merge of two cue tracks A and B (the loop and tail append of
    the script's `merge`). Each loop round consumes a small group of cues at the
    cursors and emits one cue rendered from that group; once either track is
    used up, the rest of the other is appended unchanged. */
module Merger {
  import opened Cues
  import opened Comparator
  import opened TextJoiner

  /** The cues one emitted cue is made from: consecutive cues of track A and
      of track B. */
  datatype Group = Group(fromA: seq<Cue>, fromB: seq<Cue>)

  /** The five shapes a round can consume, as counts of A cues and B cues: a
      match (1,1), two A cues against one B cue (2,1), one A cue against two
      B cues (1,2), or a lone cue of either track. */
  predicate Shaped(n: nat, m: nat) {
    (n == 1 && m == 1) || (n == 2 && m == 1) || (n == 1 && m == 2) || (n == 1 && m == 0) || (n == 0 && m == 1)
  }

  /** A group of one of the five shapes. */
  type Round = g: Group | Shaped(|g.fromA|, |g.fromB|) witness Group([Cue(0, 0, "")], [])

  function Texts(cs: seq<Cue>): (ts: seq<string>)
    ensures |ts| == |cs|
  {
    if |cs| == 0 then [] else [cs[0].text] + Texts(cs[1..])
  }

  /** The texts of consecutive cues of one track, separated by single spaces. */
  function Spaced(cs: seq<Cue>): string {
    Join(Texts(cs), ' ')
  }

  /** The cue emitted for a round. A lone cue passes through unchanged. A
      combined cue stacks the A text over the B text and takes its timing from
      the side that contributes a single cue (from A on a one-to-one match). */
  function Render(g: Round, cfg: Config): (c: Cue)
    ensures TimingFrom(c, g.fromA + g.fromB)
    ensures g.fromB == [] ==> c == g.fromA[0]
    ensures g.fromA == [] ==> c == g.fromB[0]
    ensures |g.fromA| == 2 ==> SameTiming(g.fromB[0], c)
    ensures |g.fromA| == 1 && |g.fromB| > 0 ==> SameTiming(g.fromA[0], c)
  {
    var anchor := if |g.fromA| == 1 then g.fromA[0] else g.fromB[0];
    assert anchor in g.fromA + g.fromB;
    if g.fromA == [] || g.fromB == [] then anchor
    else Cue(anchor.start, anchor.end, MergeLines([Spaced(g.fromA), Spaced(g.fromB)], cfg.joinLines))
  }

  /** The text of a combined cue holds both tracks' texts and nothing else:
      one character longer than the two together. With line joining it splits
      at line breaks into exactly the flattened A text and B text; without, it
      is the A text, a line break and the B text. */
  lemma RenderText(g: Round, cfg: Config)
    requires g.fromA != [] && g.fromB != []
    ensures |Render(g, cfg).text| == |Spaced(g.fromA)| + |Spaced(g.fromB)| + 1
    ensures cfg.joinLines ==>
      Split(Render(g, cfg).text, LineBreak) == [Flatten(Spaced(g.fromA)), Flatten(Spaced(g.fromB))]
    ensures !cfg.joinLines ==> Render(g, cfg).text == Spaced(g.fromA) + [LineBreak] + Spaced(g.fromB)
  {
    var ta, tb := Spaced(g.fromA), Spaced(g.fromB);
    TotalLengthPair(ta, tb);
    MergeLinesContents([ta, tb], cfg.joinLines);
    assert FlattenAll([ta, tb]) == [Flatten(ta), Flatten(tb)];
    assert [ta, tb][1..] == [tb];
    assert Join([tb], LineBreak) == tb;
  }

  /** A precedence test on two cues, as `compare_srtitem` is one. */
  type Comparer = (Cue, Cue) -> Precedence

  /** The script's precedence test with tolerance `slack`. */
  function ByTiming(slack: int): Comparer {
    (x: Cue, y: Cue) => Compare(x, y, slack)
  }

  /** How many cues of A and of B one round with cursors `i` into `a` and `j`
      into `b` consumes, chosen by comparing `a[i]` with `b[j]`. When the
      starts agree but one cue ends early, a lookahead checks whether the early
      cue's successor ends with the other cue; a lookahead past the end of its
      track counts as no match. */
  function Shape(a: seq<Cue>, b: seq<Cue>, cmp: Comparer, i: nat, j: nat): (t: (nat, nat))
    requires i < |a| && j < |b|
    ensures Shaped(t.0, t.1)
    ensures i + t.0 <= |a| && j + t.1 <= |b|
  {
    var p := cmp(a[i], b[j]);
    if p == Tie then (1, 1)
    else if p == Precedence(Zero, Neg) then
      // Deviation: the script reads a[i+1] unguarded and fails when i+1 == |a|.
      if i + 1 < |a| && cmp(a[i + 1], b[j]).end == Zero then (2, 1) else (1, 0)
    else if p == Precedence(Zero, Pos) then
      // Deviation: the script reads b[j+1] unguarded and fails when j+1 == |b|.
      if j + 1 < |b| && cmp(a[i], b[j + 1]).end == Zero then (1, 2) else (0, 1)
    else if p.start == Neg then (1, 0)
    else (0, 1)
  }

  /** The round at cursors `i`, `j`: the next cues of each track, as many as
      `Shape` says. */
  function Step(a: seq<Cue>, b: seq<Cue>, cmp: Comparer, i: nat, j: nat): (g: Round)
    requires i < |a| && j < |b|
    ensures i + |g.fromA| <= |a| && j + |g.fromB| <= |b|
  {
    var t := Shape(a, b, cmp, i, j);
    Group(a[i..i + t.0], b[j..j + t.1])
  }

  /** All cues of the rounds, track A's part. */
  function ConcatA(p: seq<Round>): seq<Cue> {
    if |p| == 0 then [] else p[0].fromA + ConcatA(p[1..])
  }

  /** All cues of the rounds, track B's part. */
  function ConcatB(p: seq<Round>): seq<Cue> {
    if |p| == 0 then [] else p[0].fromB + ConcatB(p[1..])
  }

  /** The cues emitted for a sequence of rounds, one per round. */
  function Rendered(p: seq<Round>, cfg: Config): (cs: seq<Cue>)
    ensures |cs| == |p|
  {
    if |p| == 0 then [] else [Render(p[0], cfg)] + Rendered(p[1..], cfg)
  }

  /** Each cue of `xs` as a lone round of track A. */
  function LonesA(xs: seq<Cue>): (p: seq<Round>)
    ensures |p| == |xs|
  {
    if |xs| == 0 then [] else [Group([xs[0]], [])] + LonesA(xs[1..])
  }

  /** Each cue of `ys` as a lone round of track B. */
  function LonesB(ys: seq<Cue>): (p: seq<Round>)
    ensures |p| == |ys|
  {
    if |ys| == 0 then [] else [Group([], [ys[0]])] + LonesB(ys[1..])
  }

  /** The rounds the merge consumes from cursors `i`, `j` on: rounds while both
      tracks have cues, then the leftovers of A and of B as lone rounds. */
  function Plan(a: seq<Cue>, b: seq<Cue>, cmp: Comparer, i: nat, j: nat): seq<Round>
    requires i <= |a| && j <= |b|
    decreases |a| + |b| - i - j
  {
    if i < |a| && j < |b| then
      var g := Step(a, b, cmp, i, j);
      [g] + Plan(a, b, cmp, i + |g.fromA|, j + |g.fromB|)
    else LonesA(a[i..]) + LonesB(b[j..])
  }

  /** The merged track for tracks `a` and `b`: the list the loop and the
      tail append build, before the script's `clean_indexes` sorts it. */
  function Merged(a: seq<Cue>, b: seq<Cue>, cfg: Config): seq<Cue> {
    Rendered(Plan(a, b, ByTiming(cfg.slack), 0, 0), cfg)
  }

  lemma PlanUnfold(a: seq<Cue>, b: seq<Cue>, cmp: Comparer, i: nat, j: nat)
    requires i < |a| && j < |b|
    ensures var g := Step(a, b, cmp, i, j);
      Plan(a, b, cmp, i, j) == [g] + Plan(a, b, cmp, i + |g.fromA|, j + |g.fromB|)
  {
  }

  lemma PlanDone(a: seq<Cue>, b: seq<Cue>, cmp: Comparer, i: nat, j: nat)
    requires i <= |a| && j <= |b| && (i == |a| || j == |b|)
    ensures Plan(a, b, cmp, i, j) == LonesA(a[i..]) + LonesB(b[j..])
  {
  }

  /** The merged track from cursors `i`, `j`: the cue of the round there,
      then the merged track from the advanced cursors. */
  lemma FirstRound(a: seq<Cue>, b: seq<Cue>, cmp: Comparer, cfg: Config, i: nat, j: nat)
    requires i < |a| && j < |b|
    ensures var g := Step(a, b, cmp, i, j);
      Rendered(Plan(a, b, cmp, i, j), cfg) ==
        [Render(g, cfg)] + Rendered(Plan(a, b, cmp, i + |g.fromA|, j + |g.fromB|), cfg)
  {
    var g := Step(a, b, cmp, i, j);
    var next := Plan(a, b, cmp, i + |g.fromA|, j + |g.fromB|);
    PlanUnfold(a, b, cmp, i, j);
    assert ([g] + next)[1..] == next;
  }

  /** Concatenation distributes over appending round sequences. */
  lemma {:induction false} ConcatAppend(p: seq<Round>, q: seq<Round>)
    ensures ConcatA(p + q) == ConcatA(p) + ConcatA(q)
    ensures ConcatB(p + q) == ConcatB(p) + ConcatB(q)
    decreases |p|
  {
    if |p| > 0 {
      assert (p + q)[1..] == p[1..] + q;
      ConcatAppend(p[1..], q);
    } else {
      assert p + q == q;
    }
  }

  /** Rendering distributes over appending round sequences. */
  lemma {:induction false} RenderedAppend(p: seq<Round>, q: seq<Round>, cfg: Config)
    ensures Rendered(p + q, cfg) == Rendered(p, cfg) + Rendered(q, cfg)
    decreases |p|
  {
    if |p| > 0 {
      assert (p + q)[1..] == p[1..] + q;
      RenderedAppend(p[1..], q, cfg);
    } else {
      assert p + q == q;
    }
  }

  /** Lone rounds of A hold exactly the cues of `xs`. */
  lemma {:induction false} LonesACover(xs: seq<Cue>)
    ensures ConcatA(LonesA(xs)) == xs && ConcatB(LonesA(xs)) == []
    decreases |xs|
  {
    if |xs| > 0 {
      LonesACover(xs[1..]);
      assert LonesA(xs)[1..] == LonesA(xs[1..]);
      assert xs == [xs[0]] + xs[1..];
    }
  }

  /** Lone rounds of B hold exactly the cues of `ys`. */
  lemma {:induction false} LonesBCover(ys: seq<Cue>)
    ensures ConcatA(LonesB(ys)) == [] && ConcatB(LonesB(ys)) == ys
    decreases |ys|
  {
    if |ys| > 0 {
      LonesBCover(ys[1..]);
      assert LonesB(ys)[1..] == LonesB(ys[1..]);
      assert ys == [ys[0]] + ys[1..];
    }
  }

  /** Lone rounds of A render to their cues, unchanged. */
  lemma {:induction false} LonesARendered(xs: seq<Cue>, cfg: Config)
    ensures Rendered(LonesA(xs), cfg) == xs
    decreases |xs|
  {
    if |xs| > 0 {
      LonesARendered(xs[1..], cfg);
      assert LonesA(xs)[1..] == LonesA(xs[1..]);
      assert xs == [xs[0]] + xs[1..];
    }
  }

  /** Lone rounds of B render to their cues, unchanged. */
  lemma {:induction false} LonesBRendered(ys: seq<Cue>, cfg: Config)
    ensures Rendered(LonesB(ys), cfg) == ys
    decreases |ys|
  {
    if |ys| > 0 {
      LonesBRendered(ys[1..], cfg);
      assert LonesB(ys)[1..] == LonesB(ys[1..]);
      assert ys == [ys[0]] + ys[1..];
    }
  }

  /** Once a track is used up, the remaining rounds are exactly the unread
      cues, A's before B's, each on its own. */
  lemma PlanTail(a: seq<Cue>, b: seq<Cue>, cmp: Comparer, i: nat, j: nat)
    requires i <= |a| && j <= |b| && (i == |a| || j == |b|)
    ensures ConcatA(Plan(a, b, cmp, i, j)) == a[i..]
    ensures ConcatB(Plan(a, b, cmp, i, j)) == b[j..]
  {
    PlanDone(a, b, cmp, i, j);
    LonesACover(a[i..]);
    LonesBCover(b[j..]);
    ConcatAppend(LonesA(a[i..]), LonesB(b[j..]));
  }

  /** Once a track is used up, the rest of both tracks is emitted unchanged,
      A's leftovers before B's. */
  lemma PlanTailRendered(a: seq<Cue>, b: seq<Cue>, cmp: Comparer, cfg: Config, i: nat, j: nat)
    requires i <= |a| && j <= |b| && (i == |a| || j == |b|)
    ensures Rendered(Plan(a, b, cmp, i, j), cfg) == a[i..] + b[j..]
  {
    PlanDone(a, b, cmp, i, j);
    LonesARendered(a[i..], cfg);
    LonesBRendered(b[j..], cfg);
    RenderedAppend(LonesA(a[i..]), LonesB(b[j..]), cfg);
  }

  /** The rounds partition the unread suffixes of both tracks, in order: every
      cue of A from `i` on and of B from `j` on lies in exactly one round, and
      no round holds anything else. */
  lemma {:induction false} PlanCovers(a: seq<Cue>, b: seq<Cue>, cmp: Comparer, i: nat, j: nat)
    requires i <= |a| && j <= |b|
    ensures ConcatA(Plan(a, b, cmp, i, j)) == a[i..]
    ensures ConcatB(Plan(a, b, cmp, i, j)) == b[j..]
    decreases |a| + |b| - i - j
  {
    if i < |a| && j < |b| {
      var g, i', j' := FirstGroup(a, b, cmp, i, j);
      var rest, p := Plan(a, b, cmp, i', j'), Plan(a, b, cmp, i, j);
      PlanCovers(a, b, cmp, i', j');
      CoverRound(a, b, i, j, i', j', g, rest, p);
    } else {
      PlanTail(a, b, cmp, i, j);
    }
  }

  /** The plan from cursors `i`, `j` is a round holding the next cues of
      each track, then the plan from the cursors after them. */
  lemma FirstGroup(a: seq<Cue>, b: seq<Cue>, cmp: Comparer, i: nat, j: nat) returns (g: Round, i': nat, j': nat)
    requires i < |a| && j < |b|
    ensures g == Step(a, b, cmp, i, j)
    ensures i' <= |a| && j' <= |b| && i + j < i' + j' <= i + j + 3
    ensures i' == i + |g.fromA| && j' == j + |g.fromB|
    ensures g.fromA == a[i..i'] && g.fromB == b[j..j']
    ensures Plan(a, b, cmp, i, j) == [g] + Plan(a, b, cmp, i', j')
  {
    g := Step(a, b, cmp, i, j);
    i', j' := i + |g.fromA|, j + |g.fromB|;
    PlanUnfold(a, b, cmp, i, j);
    StepSlices(a, b, cmp, i, j);
  }

  /** A round holds the next cues of each track, in order. */
  lemma StepSlices(a: seq<Cue>, b: seq<Cue>, cmp: Comparer, i: nat, j: nat)
    requires i < |a| && j < |b|
    ensures var g := Step(a, b, cmp, i, j);
      g.fromA == a[i..i + |g.fromA|] && g.fromB == b[j..j + |g.fromB|]
  {
  }

  /** A round read at the cursors followed by rounds covering the rest covers
      everything from the cursors on. */
  lemma CoverRound(a: seq<Cue>, b: seq<Cue>, i: nat, j: nat, i': nat, j': nat, g: Round, rest: seq<Round>, p: seq<Round>)
    requires i <= i' <= |a| && j <= j' <= |b|
    requires g.fromA == a[i..i'] && g.fromB == b[j..j']
    requires ConcatA(rest) == a[i'..] && ConcatB(rest) == b[j'..]
    requires p == [g] + rest
    ensures ConcatA(p) == a[i..] && ConcatB(p) == b[j..]
  {
    assert p[1..] == rest;
    assert a[i..] == a[i..i'] + a[i'..];
    assert b[j..] == b[j..j'] + b[j'..];
  }

  /** The merge loop. Returns the merged track together with the cursors and
      the number of rounds at loop exit. */
  method Merge(a: seq<Cue>, b: seq<Cue>, cfg: Config) returns (merged: seq<Cue>, i: nat, j: nat, rounds: nat)
    ensures merged == Merged(a, b, cfg)
    ensures i <= |a| && j <= |b| && (i == |a| || j == |b|)
    ensures rounds <= i + j <= 3 * rounds
    ensures |merged| == rounds + (|a| - i) + (|b| - j)
    ensures merged[rounds..] == a[i..] + b[j..]
  {
    var cmp := ByTiming(cfg.slack);
    merged, i, j, rounds := [], 0, 0, 0;
    ghost var done: seq<Round> := [];
    ghost var plan := Plan(a, b, cmp, 0, 0);
    while i < |a| && j < |b|
      invariant i <= |a| && j <= |b|
      invariant |merged| == rounds <= i + j <= 3 * rounds
      invariant merged == Rendered(done, cfg)
      invariant done + Plan(a, b, cmp, i, j) == plan
      decreases |a| + |b| - i - j
    {
      var g := Step(a, b, cmp, i, j);
      var c := Render(g, cfg);
      ghost var done0, merged0, i0, j0 := done, merged, i, j;
      done := done + [g];
      merged, i, j, rounds := merged + [c], i + |g.fromA|, j + |g.fromB|, rounds + 1;
      Advance(a, b, cmp, i0, j0, done0, plan, i, j, done);
      RenderedSnoc(done0, g, cfg, merged0, done, merged);
    }
    Finish(a, b, cmp, cfg, i, j, done, plan);
    merged := merged + (a[i..] + b[j..]);
  }

  /** One round of the loop keeps the emitted rounds followed by the rounds
      still to come equal to the whole plan. */
  lemma Advance(a: seq<Cue>, b: seq<Cue>, cmp: Comparer, i: nat, j: nat, done: seq<Round>, plan: seq<Round>,
                i': nat, j': nat, done': seq<Round>)
    requires i < |a| && j < |b|
    requires done + Plan(a, b, cmp, i, j) == plan
    requires done' == done + [Step(a, b, cmp, i, j)]
    requires i' == i + |Step(a, b, cmp, i, j).fromA| && j' == j + |Step(a, b, cmp, i, j).fromB|
    ensures i' <= |a| && j' <= |b| && i + j < i' + j' <= i + j + 3
    ensures done' + Plan(a, b, cmp, i', j') == plan
  {
    var g, i2, j2 := FirstGroup(a, b, cmp, i, j);
    assert i2 == i' && j2 == j';
    var rest := Plan(a, b, cmp, i', j');
    AppendAssoc(done, [g], rest);
    calc {
      done' + rest;
      (done + [g]) + rest;
      done + ([g] + rest);
      done + Plan(a, b, cmp, i, j);
    }
  }

  /** Regrouping a concatenation, stated once so that the solver need not
      search for it among the sequence axioms. */
  lemma AppendAssoc<T>(x: seq<T>, y: seq<T>, z: seq<T>)
    ensures (x + y) + z == x + (y + z)
  {
  }

  /** Rendering one more round appends its cue. */
  lemma RenderedSnoc(p: seq<Round>, g: Round, cfg: Config, cs: seq<Cue>, p': seq<Round>, cs': seq<Cue>)
    requires cs == Rendered(p, cfg)
    requires p' == p + [g] && cs' == cs + [Render(g, cfg)]
    ensures cs' == Rendered(p', cfg)
  {
    RenderedAppend(p, [g], cfg);
    assert Rendered([g], cfg) == [Render(g, cfg)] by {
      assert [g][1..] == [];
    }
  }

  /** Once the loop stops, appending the leftovers completes the plan. */
  lemma Finish(a: seq<Cue>, b: seq<Cue>, cmp: Comparer, cfg: Config, i: nat, j: nat, done: seq<Round>, plan: seq<Round>)
    requires cmp == ByTiming(cfg.slack)
    requires i <= |a| && j <= |b| && (i == |a| || j == |b|)
    requires done + Plan(a, b, cmp, i, j) == plan && plan == Plan(a, b, cmp, 0, 0)
    ensures Rendered(done, cfg) + (a[i..] + b[j..]) == Merged(a, b, cfg)
  {
    PlanTailRendered(a, b, cmp, cfg, i, j);
    RenderedAppend(done, Plan(a, b, cmp, i, j), cfg);
  }
}
