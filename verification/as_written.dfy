/** The merge loop exactly as the script writes it, where the lookahead reads
    `sub1[i+1]` or `sub2[j+1]` with no bound check. Past the end of a list
    that read raises an IndexError and the merge produces nothing. The rest
    of the model uses the guarded round of `Merger.Shape`; this module shows
    that the two agree whenever the script finishes, and exhibits an input
    on which it does not. */
module AsWritten {
  import opened Cues
  import opened Comparator
  import opened Merger
  import opened Rounds

  datatype Track = TrackA | TrackB

  /** The counts of a round, or the out-of-range read that aborts it. */
  datatype Attempt = Took(n: nat, m: nat) | Fault(track: Track, index: nat)

  /** The rounds the loop goes through, or the IndexError that ends it. */
  datatype Run = Ran(rounds: seq<Round>) | Raised(track: Track, index: nat)

  /** The result of the whole loop: the merged cues, or the IndexError. */
  datatype Outcome = Done(merged: seq<Cue>) | IndexError(track: Track, index: nat)

  /** One round as written: the same branches as the script, with the
      lookahead failing when its index is past the end of its list. */
  function RoundAsWritten(a: seq<Cue>, b: seq<Cue>, cmp: Comparer, i: nat, j: nat): (t: Attempt)
    requires i < |a| && j < |b|
    ensures t.Took? ==> Shaped(t.n, t.m) && i + t.n <= |a| && j + t.m <= |b|
    ensures t.Fault? ==> (t.track == TrackA ==> t.index == |a|) && (t.track == TrackB ==> t.index == |b|)
  {
    var p := cmp(a[i], b[j]);
    if p.start == Zero && p.end == Zero then Took(1, 1)
    else if p.start == Zero && p.end == Neg then
      if i + 1 >= |a| then Fault(TrackA, i + 1)
      else if cmp(a[i + 1], b[j]).end == Zero then Took(2, 1) else Took(1, 0)
    else if p.start == Zero && p.end == Pos then
      if j + 1 >= |b| then Fault(TrackB, j + 1)
      else if cmp(a[i], b[j + 1]).end == Zero then Took(1, 2) else Took(0, 1)
    else if p.start == Neg then Took(1, 0)
    else Took(0, 1)
  }

  /** Whenever the script's round does not fault, it takes the same cues as
      the guarded round. */
  lemma RoundAgrees(a: seq<Cue>, b: seq<Cue>, cmp: Comparer, i: nat, j: nat)
    requires i < |a| && j < |b|
    ensures var t := RoundAsWritten(a, b, cmp, i, j);
      t.Took? ==> (t.n, t.m) == Shape(a, b, cmp, i, j)
  {
  }

  /** The guarded round differs from the script's only where the script
      faults, and there it emits the early cue alone. */
  lemma FaultIsLone(a: seq<Cue>, b: seq<Cue>, cmp: Comparer, i: nat, j: nat)
    requires i < |a| && j < |b|
    ensures var t := RoundAsWritten(a, b, cmp, i, j);
      && (t == Fault(TrackA, |a|) ==> Shape(a, b, cmp, i, j) == (1, 0) && i + 1 == |a|)
      && (t == Fault(TrackB, |b|) ==> Shape(a, b, cmp, i, j) == (0, 1) && j + 1 == |b|)
  {
  }

  /** The rounds of the script's loop from cursors `i`, `j`, ending with the
      leftover cues of each track as lone rounds. */
  function RunAsWritten(a: seq<Cue>, b: seq<Cue>, cmp: Comparer, i: nat, j: nat): Run
    requires i <= |a| && j <= |b|
    decreases |a| + |b| - i - j
  {
    if i < |a| && j < |b| then
      var t := RoundAsWritten(a, b, cmp, i, j);
      if t.Fault? then Raised(t.track, t.index)
      else
        var rest := RunAsWritten(a, b, cmp, i + t.n, j + t.m);
        if rest.Raised? then rest else Ran([Group(a[i..i + t.n], b[j..j + t.m])] + rest.rounds)
    else Ran(LonesA(a[i..]) + LonesB(b[j..]))
  }

  /** A round of the script that does not fault takes the guarded round's
      cues. */
  lemma TookStep(a: seq<Cue>, b: seq<Cue>, cmp: Comparer, i: nat, j: nat, n: nat, m: nat)
    requires i < |a| && j < |b| && RoundAsWritten(a, b, cmp, i, j) == Took(n, m)
    ensures i + n <= |a| && j + m <= |b|
    ensures Step(a, b, cmp, i, j) == Group(a[i..i + n], b[j..j + m])
  {
    RoundAgrees(a, b, cmp, i, j);
    StepSlices(a, b, cmp, i, j);
  }

  /** After a round of the script that does not fault, the guarded plan goes
      on from the same cursors. */
  lemma TookPlan(a: seq<Cue>, b: seq<Cue>, cmp: Comparer, i: nat, j: nat, n: nat, m: nat)
    requires i < |a| && j < |b| && RoundAsWritten(a, b, cmp, i, j) == Took(n, m)
    ensures i + n <= |a| && j + m <= |b|
    ensures Plan(a, b, cmp, i, j) == [Step(a, b, cmp, i, j)] + Plan(a, b, cmp, i + n, j + m)
  {
    TookStep(a, b, cmp, i, j, n, m);
    PlanUnfold(a, b, cmp, i, j);
  }

  /** One round of the script's loop that does not fault. */
  lemma RunOnce(a: seq<Cue>, b: seq<Cue>, cmp: Comparer, i: nat, j: nat, n: nat, m: nat)
    requires i < |a| && j < |b| && RoundAsWritten(a, b, cmp, i, j) == Took(n, m)
    ensures i + n <= |a| && j + m <= |b|
    ensures var rest := RunAsWritten(a, b, cmp, i + n, j + m);
      RunAsWritten(a, b, cmp, i, j) == if rest.Raised? then rest else Ran([Group(a[i..i + n], b[j..j + m])] + rest.rounds)
  {
  }

  /** Whenever the script's loop runs to the end, it goes through the rounds
      of the guarded merge. */
  lemma {:induction false} RunAgrees(a: seq<Cue>, b: seq<Cue>, cmp: Comparer, i: nat, j: nat)
    requires i <= |a| && j <= |b|
    ensures RunAsWritten(a, b, cmp, i, j).Ran? ==> RunAsWritten(a, b, cmp, i, j).rounds == Plan(a, b, cmp, i, j)
    decreases |a| + |b| - i - j
  {
    if i < |a| && j < |b| {
      match RoundAsWritten(a, b, cmp, i, j)
      case Fault(_, _) =>
      case Took(n, m) =>
        TookStep(a, b, cmp, i, j, n, m);
        TookPlan(a, b, cmp, i, j, n, m);
        RunOnce(a, b, cmp, i, j, n, m);
        RunAgrees(a, b, cmp, i + n, j + m);
        var rest := RunAsWritten(a, b, cmp, i + n, j + m);
        if rest.Ran? {
          assert RunAsWritten(a, b, cmp, i, j) == Ran([Step(a, b, cmp, i, j)] + rest.rounds);
        }
    } else {
      PlanDone(a, b, cmp, i, j);
    }
  }

  /** The whole script's merge loop on tracks `a` and `b`: each round's cue,
      then the leftovers. */
  function ScriptMerge(a: seq<Cue>, b: seq<Cue>, cfg: Config): Outcome {
    match RunAsWritten(a, b, ByTiming(cfg.slack), 0, 0)
    case Raised(track, index) => IndexError(track, index)
    case Ran(p) => Done(Rendered(p, cfg))
  }

  /** Whenever the script finishes, its output is the merged track. */
  lemma AsWrittenAgrees(a: seq<Cue>, b: seq<Cue>, cfg: Config)
    ensures ScriptMerge(a, b, cfg).Done? ==> ScriptMerge(a, b, cfg).merged == Merged(a, b, cfg)
  {
    RunAgrees(a, b, ByTiming(cfg.slack), 0, 0);
  }

  /** A one-cue track A whose cue starts with the first B cue but ends a
      tolerance early: the script reads `sub1[1]` and raises IndexError, while
      the guarded merge emits the A cue and then all of B. */
  lemma LastAFaults(a: seq<Cue>, b: seq<Cue>, cfg: Config)
    requires |a| == 1 && |b| > 0
    requires Compare(a[0], b[0], cfg.slack) == Precedence(Zero, Neg)
    ensures ScriptMerge(a, b, cfg) == IndexError(TrackA, 1)
    ensures Merged(a, b, cfg) == a + b
  {
    var cmp := ByTiming(cfg.slack);
    assert cmp(a[0], b[0]) == Precedence(Zero, Neg);
    assert RoundAsWritten(a, b, cmp, 0, 0) == Fault(TrackA, 1);
    StepLoneA(a, b, cfg.slack, 0, 0);
    FirstRound(a, b, cmp, cfg, 0, 0);
    PlanTailRendered(a, b, cmp, cfg, 1, 0);
    assert Rendered(Plan(a, b, cmp, 1, 0), cfg) == b by {
      assert a[1..] + b[0..] == b;
    }
    assert Render(Group([a[0]], []), cfg) == a[0];
    assert Merged(a, b, cfg) == [a[0]] + b;
    assert a == [a[0]];
  }

  /** The mirror image: a one-cue track B whose cue starts with the first A
      cue but ends a tolerance early. */
  lemma LastBFaults(a: seq<Cue>, b: seq<Cue>, cfg: Config)
    requires |a| > 0 && |b| == 1
    requires Compare(a[0], b[0], cfg.slack) == Precedence(Zero, Pos)
    ensures ScriptMerge(a, b, cfg) == IndexError(TrackB, 1)
    ensures Merged(a, b, cfg) == b + a
  {
    var cmp := ByTiming(cfg.slack);
    assert cmp(a[0], b[0]) == Precedence(Zero, Pos);
    assert RoundAsWritten(a, b, cmp, 0, 0) == Fault(TrackB, 1);
    StepLoneB(a, b, cfg.slack, 0, 0);
    FirstRound(a, b, cmp, cfg, 0, 0);
    PlanTailRendered(a, b, cmp, cfg, 0, 1);
    assert Rendered(Plan(a, b, cmp, 0, 1), cfg) == a by {
      assert a[0..] + b[1..] == a;
    }
    assert Render(Group([], [b[0]]), cfg) == b[0];
    assert Merged(a, b, cfg) == [b[0]] + a;
    assert b == [b[0]];
  }

  /** A single A cue that starts with a longer B cue and ends more than a
      tolerance before it: the script reads `sub1[1]` of a one-cue list and
      raises IndexError, while the guarded merge emits the A cue, then the B
      cue. */
  lemma LookaheadPastEnd()
    ensures var a, b := [Cue(0, 500, "Only")], [Cue(0, 2000, "Wide")];
      && ScriptMerge(a, b, Default) == IndexError(TrackA, 1)
      && Merged(a, b, Default) == a + b
  {
    var a, b := [Cue(0, 500, "Only")], [Cue(0, 2000, "Wide")];
    assert Compare(a[0], b[0], 500) == Precedence(Zero, Neg);
    LastAFaults(a, b, Default);
  }

  /** The mirror image on track B: the script reads `sub2[1]` of a one-cue
      list. */
  lemma LookaheadPastEndB()
    ensures var a, b := [Cue(0, 2000, "Wide")], [Cue(0, 500, "Only")];
      && ScriptMerge(a, b, Default) == IndexError(TrackB, 1)
      && Merged(a, b, Default) == b + a
  {
    var a, b := [Cue(0, 2000, "Wide")], [Cue(0, 500, "Only")];
    assert Compare(a[0], b[0], 500) == Precedence(Zero, Pos);
    LastBFaults(a, b, Default);
  }
}
