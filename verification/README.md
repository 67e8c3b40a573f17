# submerge: merging two subtitle tracks

`submerge.py` merges two subtitle tracks: track A (`sub1`) and track B
(`sub2`). Each track is a list of cues, and a cue is a start time, an end time
and a text. The script walks both lists with one cursor each. In every round
it compares the cue under each cursor, with a tolerance of `SLACK`
milliseconds. Depending on the result it takes one of these actions:

- It matches the two cues and emits one cue with both texts stacked.
- It combines two consecutive cues of one track against a single cue of the
  other.
- It emits the earlier cue on its own.

When either list runs out, the rest of the other list is appended unchanged.

This project models that core in Dafny and proves properties of it.

- `Cues` holds the cue (times as integer milliseconds) and the two settings
  `SLACK` and `JOIN_LINES`. These are a `Config` value, with `Default` the
  script's 500 ms and line joining on.
- `SrtTime` models `srttime_to_ms`: the h/m/s/ms components and their
  conversion to milliseconds, with its inverse on normal timestamps.
- `Comparator` models three functions:
  - `indicator` as `Indicator`, returning a three-valued `Sign` (`Neg`,
    `Zero`, `Pos` for -1, 0, +1).
  - `timediff_to_indicator` as `TimediffToIndicator`.
  - `compare_srtitem` as `Compare`, returning a `Precedence`: a start sign
    and an end sign.
- `TextJoiner` models `merge_lines` as `MergeLines`. `Flatten` is
  `str.replace('\n', ' ')` and `Join` is `'\n'.join`. `Split` is the inverse
  the join is proved against.
- `Merger` models the merge loop and the tail append:
  - `Shape` chooses the counts a round consumes.
  - `Step` cuts the round (a `Round`: a `Group` of consecutive A cues and
    B cues in one of five shapes) out of the tracks.
  - `Render` builds the emitted cue.
  - `Plan` lists all rounds from given cursors, ending with the leftovers as
    lone rounds.
  - `Merged` is the resulting track.
  - The method `Merge` is the loop itself, proved to compute `Merged`.

  The round choice is written against any precedence test (`Comparer`).
  `ByTiming(slack)` plugs in `Compare`, so the structural lemmas hold for
  every comparator.
- `Rounds` reads each of the five shapes off the cue timings and shows that
  the choice treats both tracks alike.
- `Output` proves properties of the whole merged track: its length, where
  its timings come from, empty inputs, and merging a track with itself.
- `AsWritten` models the loop exactly as written, including the unguarded
  lookahead and the `IndexError` it raises. It proves that whenever the
  script finishes, it produces `Merged`.
- `Scenarios` holds worked inputs, first for any cues with given comparison
  results and then on concrete cues.

The lookahead `sub1[i+1]` (line 109) and `sub2[j+1]` (line 123) is read
without a bounds check. When the early cue is the last of its track, the
script raises `IndexError`. `Merger.Shape` treats a lookahead past the end
as "no match", the branch at lines 118-121 and 132-135. `AsWritten` keeps
the behaviour as written; see Findings.

Two consequences of the code's aggregate rule:

- **Plain matches.** A=[(0,500),(500,1000)] against B=[(0,1000)], and
  A=[(0,500)] against B=[(0,1000)], are both plain matches, because
  |0| + |-500| < 2·500. Their first round is a match, so neither the
  split-cue combination nor the lookahead is reached. `Scenarios.Combine`
  uses an input that does reach the combination branch, and
  `AsWritten.LookaheadPastEnd` one that does reach the lookahead.
- **Order of the loop's list.** The list that lines 99-148 build (`Merged`)
  need not be ordered by start time. `Scenarios.OutOfOrder` gives an input
  where a cue starting at 700 ms is appended right after one starting at
  1000 ms. `clean_indexes()` at line 150 then sorts the list by (start, end)
  before renumbering it, so the written file is in start order; that sort
  is not part of this model.

## Model

| member | source | states |
|---|---|---|
| SrtTime.ToMs | submerge.py:38-40 | a timestamp with components in range has a non-negative millisecond count; FromMsToMs and ToMsMonotone state its round trip and its order |
| SrtTime.FromMsToMs | submerge.py:38-40 | on a timestamp with components in range, the millisecond count is non-negative and converting it back gives the same hours, minutes, seconds and milliseconds, so the conversion loses nothing |
| SrtTime.ToMsMonotone | submerge.py:38-40 | on timestamps with components in range, one count is below another exactly when the timestamp is lexicographically earlier by hours, minutes, seconds, milliseconds |
| Comparator.Indicator | submerge.py:42-48 | no contract; see IndicatorSign, IndicatorThresholds, IndicatorOdd |
| Comparator.IndicatorSign | submerge.py:42-48 | the tolerance sign is -1, 0 or +1; it is 0 exactly when the delta's magnitude is below the slack, and otherwise it is positive exactly for a positive delta |
| Comparator.IndicatorThresholds | submerge.py:42-48 | with a positive slack, +1 means "later by at least the slack", -1 means "earlier by at least the slack", and a larger delta never gets a smaller sign |
| Comparator.IndicatorOdd | submerge.py:42-48 | with a positive slack, negating the delta negates the sign |
| Comparator.TimediffToIndicator | submerge.py:50-57 | no contract; see TimediffTie |
| Comparator.TimediffTie | submerge.py:50-57 | the aggregate rule gives (0,0) exactly when the delta magnitudes sum to less than twice the slack; otherwise each component is its own delta's tolerance sign |
| Comparator.Compare | submerge.py:59-72 | no contract; see CompareTie, ShortCircuitSubsumed, CompareAntisymmetric, TieReflexiveSymmetric |
| Comparator.CompareTie | submerge.py:59-72 | two cues tie exactly when their timings are identical or their summed drift is below twice the slack; otherwise start and end signs are the tolerance signs of the start and end deltas |
| Comparator.ShortCircuitSubsumed | submerge.py:59-72 | with a positive slack, the exact-match short cut changes nothing: the comparison equals the aggregate rule on the deltas, and it is a tie exactly when the summed drift is below twice the slack |
| Comparator.CompareAntisymmetric | submerge.py:59-72 | with a positive slack, comparing b with a gives the componentwise negation of comparing a with b |
| Comparator.TieReflexiveSymmetric | submerge.py:59-72 | every cue ties with itself, and a tie of a with b is a tie of b with a, whatever the slack |
| TextJoiner.Flatten | submerge.py:78 | flattening keeps the length, turns every line break into a space, and keeps every other character |
| TextJoiner.FlattenIdempotent | submerge.py:78 | flattening twice is flattening once, and flattening leaves a text unchanged exactly when it holds no line break |
| TextJoiner.Join | submerge.py:80 | a join of at least one part is as long as the parts together plus one separator between each pair |
| TextJoiner.JoinOccurrences | submerge.py:80 | a join holds the separators inside its parts plus exactly one per pair of neighbouring parts |
| TextJoiner.SplitJoin | submerge.py:80 | splitting a join at its separator gives back the parts when none of them holds the separator |
| TextJoiner.JoinSplit | submerge.py:80 | joining the pieces of a split gives back the original string |
| TextJoiner.MergeLines | submerge.py:74-80 | no contract; see MergeLinesContents, MergeLinesEmpty |
| TextJoiner.MergeLinesContents | submerge.py:74-80 | the stacked text is the texts' total length plus one per extra text; with line joining it holds exactly one line break per pair of texts, and splitting it at line breaks gives exactly the flattened texts |
| TextJoiner.MergeLinesEmpty | submerge.py:74-80 | stacking no texts gives the empty string |
| Merger.Render | submerge.py:103-143 | the emitted cue takes its timing from a cue of its round: a lone cue passes through unchanged, a match or a B-side combination keeps A's timing, an A-side combination takes B's timing |
| Merger.RenderText | submerge.py:104-128 | a combined cue's text is one character longer than the spaced A text and B text together; with line joining it splits at line breaks into exactly the flattened A text and B text, and without it is the A text, a line break and the B text |
| Merger.Shape | submerge.py:99-143 | every round consumes one of the five shapes (1,1), (2,1), (1,2), (1,0), (0,1) and never runs a cursor past the end of its track |
| Merger.Step | submerge.py:99-143 | the round stays inside both tracks; FirstGroup states that it holds the next cues of each track and ShapeByTiming which shape is chosen |
| Merger.Plan | submerge.py:92-148 | no contract; see FirstGroup, PlanCovers, PlanTailRendered |
| Merger.Merged | submerge.py:92-148 | no contract; see Merge, MergedLength, MergedTiming, MergedOneEmpty |
| Merger.PlanTailRendered | submerge.py:144-148 | once either track is used up, the rest of the output is A's unread cues followed by B's, unchanged |
| Merger.FirstGroup | submerge.py:99-143 | the rounds from given cursors are the round read there, holding exactly the next cues of each track, followed by the rounds from the cursors after it, which moved on by one to three cues together |
| Merger.PlanCovers | submerge.py:99-148 | the rounds partition the unread suffixes of both tracks in order: concatenating their A parts gives A from the cursor on, and likewise for B |
| Merger.Merge | submerge.py:92-148 | the loop computes the merged track; at exit one cursor is at the end of its track; the rounds consumed between one and three cues each; the output has one cue per round plus the leftovers, and ends with A's leftovers followed by B's |
| Rounds.EndComponent | submerge.py:110 | with a positive slack, the lookahead's end component is 0 exactly when the two cues tie outright or their ends are within the slack of each other |
| Rounds.ShapeByTiming | submerge.py:102-143 | with a positive slack, each of the five shapes is chosen exactly under its timing condition: a match iff the summed drift is below twice the slack; a two-A combination iff starts agree, A ends a slack early and the A lookahead succeeds; the mirror for B; A alone iff A starts a slack early or the A lookahead fails; B alone otherwise |
| Rounds.LookaheadAtEndA | submerge.py:108-121 | when the last A cue starts with the B cue but ends early, the round is that A cue alone |
| Rounds.LookaheadAtEndB | submerge.py:122-135 | when the last B cue starts with the A cue but ends early, the round is that B cue alone |
| Rounds.ShapeSwap | submerge.py:102-143 | with a positive slack, swapping the tracks swaps the counts of every round |
| Output.RoundSizes | submerge.py:103-143 | a sequence of rounds holds at least one and at most three input cues per round |
| Output.MergedLength | submerge.py:103-148 | the merged track has at most one cue per input cue and at least one per three input cues |
| Output.RenderedTiming | submerge.py:103-148 | every cue emitted for a sequence of rounds has the timing of a cue that those rounds consumed |
| Output.MergedTiming | submerge.py:99-148 | no timing is invented: every merged cue has the start and end of some cue of A or B |
| Output.MergedOneEmpty | submerge.py:99-148 | with one track empty, the output is the other track unchanged |
| Output.SelfPlan | submerge.py:103-107 | a track compared with itself is paired cue by cue, whatever the slack |
| Output.RenderSelf | submerge.py:103-107 | a cue matched with itself keeps its timing and stacks its text twice |
| Output.MergedSelf | submerge.py:99-148 | merging a track with itself gives one cue per input cue, each the cue matched with itself |
| AsWritten.RoundAsWritten | submerge.py:102-143 | a round of the script either consumes one of the five shapes within bounds, or faults with an index equal to the length of the track it read past |
| AsWritten.RoundAgrees | submerge.py:102-143 | whenever the script's round does not fault, it consumes the same counts as the guarded round |
| AsWritten.FaultIsLone | submerge.py:108-135 | where the script faults on track A or B, the guarded round emits the early cue alone, which is the last of its track |
| AsWritten.RunAsWritten | submerge.py:99-148 | no contract; see RunAgrees |
| AsWritten.RunAgrees | submerge.py:99-148 | whenever the script's loop runs to the end, its rounds are the guarded merge's rounds |
| AsWritten.ScriptMerge | submerge.py:92-148 | no contract; see AsWrittenAgrees, LastAFaults, LastBFaults |
| AsWritten.AsWrittenAgrees | submerge.py:92-148 | whenever the script finishes, its output is the merged track |
| AsWritten.LastAFaults | submerge.py:108-121 | for any one-cue track A whose cue starts with B's first cue and ends a tolerance early, the script raises IndexError at index 1 of A, while the guarded merge emits the A cue followed by all of B |
| AsWritten.LastBFaults | submerge.py:122-135 | the mirror: a one-cue track B whose cue starts with A's first cue and ends a tolerance early makes the script raise IndexError at index 1 of B, while the guarded merge emits the B cue followed by all of A |
| AsWritten.LookaheadPastEnd | submerge.py:108-110 | on A=[(0,500,"Only")], B=[(0,2000,"Wide")] with the default settings, the script raises IndexError reading index 1 of A, while the guarded merge emits the A cue, then the B cue |
| AsWritten.LookaheadPastEndB | submerge.py:122-124 | on the mirror input the script raises IndexError reading index 1 of B, while the guarded merge emits the B cue, then the A cue |
| Scenarios.ToleranceBoundary | submerge.py:42-57 | drifts just inside and just outside the 500 ms tolerance give the expected signs |
| Rounds.StepTie | submerge.py:103-107 | a tie takes exactly one cue from each track |
| Rounds.StepPairA | submerge.py:108-117 | starts that agree with A ending early, and a successful A lookahead, take two A cues against one B cue |
| Rounds.StepLoneA | submerge.py:108-121 | starts that agree with A ending early, and an A lookahead that fails or has no next A cue, take the A cue alone |
| Rounds.StepLoneB | submerge.py:122-135 | starts that agree with A ending late, and a failed B lookahead, take the B cue alone |
| Scenarios.MatchPair | submerge.py:103-107 | one cue against one tying cue gives a single cue with A's timing and A's text stacked over B's |
| Scenarios.CombinePair | submerge.py:108-117 | two A cues against one B cue, the first ending early and the second ending with it, give a single cue with B's timing and the A texts joined by a space above the B text |
| Scenarios.PlainMatch | submerge.py:103-107 | "Hello" (0-1000) against "Bonjour" (0-1000) gives one cue "Hello\nBonjour" at 0-1000 |
| Scenarios.Combine | submerge.py:108-117 | "Hi" (0-1000) and "there" (1000-2000) against "Bonjour" (0-2000) give one cue "Hi there\nBonjour" at 0-2000 |
| Scenarios.MatchThenLoneB | submerge.py:103-135 | after a match, a B cue whose lookahead fails comes out immediately, whatever its start time |
| Scenarios.OutOfOrder | submerge.py:99-143 | on a concrete input the second merged cue starts at 700 ms although the first starts at 1000 ms |

## Left out

- Loading the two files with `pysrt` and the GBK fallback (lines 83-91):
  file I/O and encoding detection in a foreign library. The model starts
  from two lists of cues.
- `clean_indexes()` and `save('merged.srt')` (lines 150-152): foreign calls
  and file output. pysrt's `clean_indexes()` sorts the cues by (start, end)
  and then renumbers them. The model stops at the list before that call, so
  the order of the written file and the sequence numbers are not modelled.
- The command line entry point and usage message (lines 154-161).
- The internals of pysrt's `SubRipTime`. Times are integer milliseconds and
  their differences are integer subtraction. `SrtTime` models
  `srttime_to_ms` on its own, and `Compare` takes the millisecond deltas
  directly.
- The unused counter `k` (line 98).
- Merger.Shape: a lookahead past the end of a track counts as "no match"
  instead of raising `IndexError`. The behaviour as written is modelled
  separately in `AsWritten`.
- Merger.Step: the contract states only the bounds. That the round is the
  next cues of each track is stated by `Merger.FirstGroup`, and which shape
  is chosen by `Rounds.ShapeByTiming`.
- Merger.Render: the contract states where the timing comes from. The text
  is described by `Merger.RenderText`.
- The loop's list (`Merged`) is not claimed to be ordered by start time,
  because lines 99-148 do not guarantee it (`Scenarios.OutOfOrder`). The
  written file is sorted by the foreign `clean_indexes()`, which is left out.

## Findings

| source | as written | input that shows it | evidently intended | confidence | as-written member | corrected member |
|---|---|---|---|---|---|---|
| submerge.py:108-110 | when the starts agree and `a` ends early, `sub1[i+1]` is read with no bounds check, so on the last A cue the script raises IndexError and writes nothing | A=[(0,500,"Only")], B=[(0,2000,"Wide")], slack 500: the start delta is 0 and the end delta is -1500, giving (0,-1), and `sub1[1]` does not exist | a missing successor counts as no match: emit `a` alone and advance `i` (lines 118-121) | not executed | AsWritten.LookaheadPastEnd | Rounds.LookaheadAtEndA |
| submerge.py:122-124 | the mirror case reads `sub2[j+1]` unchecked on the last B cue | A=[(0,2000,"Wide")], B=[(0,500,"Only")], slack 500: the comparison gives (0,+1), and `sub2[1]` does not exist | a missing successor counts as no match: emit `b` alone and advance `j` (lines 132-135) | not executed | AsWritten.LookaheadPastEndB | Rounds.LookaheadAtEndB |
