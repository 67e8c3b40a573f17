/** Stacking the texts of matched cues into one text block (the script's
    `merge_lines`), with the joining and splitting of text on a separator
    character that it rests on. */
module TextJoiner {

  /** The separator placed between the texts of different tracks. */
  const LineBreak: char := '\n'

  /** `s` with every line break replaced by a space, as `str.replace` does. */
  function Flatten(s: string): (r: string)
    ensures |r| == |s|
    ensures LineBreak !in r
    ensures forall k :: 0 <= k < |s| && s[k] != LineBreak ==> r[k] == s[k]
    ensures forall k :: 0 <= k < |s| && s[k] == LineBreak ==> r[k] == ' '
  {
    if |s| == 0 then ""
    else [if s[0] == LineBreak then ' ' else s[0]] + Flatten(s[1..])
  }

  /** Sum of the lengths of `parts`. */
  function TotalLength(parts: seq<string>): nat {
    if |parts| == 0 then 0 else |parts[0]| + TotalLength(parts[1..])
  }

  lemma TotalLengthPair(x: string, y: string)
    ensures TotalLength([x, y]) == |x| + |y|
  {
    assert TotalLength([y]) == |y| by {
      assert [y][1..] == [];
    }
    assert TotalLength([x, y]) == |x| + TotalLength([y]) by {
      assert [x, y][1..] == [y];
    }
  }

  /** Number of occurrences of `c` over all of `parts`. */
  function Occurrences(parts: seq<string>, c: char): nat {
    if |parts| == 0 then 0 else multiset(parts[0])[c] + Occurrences(parts[1..], c)
  }

  /** `parts` in order with one `sep` between neighbours, as `str.join` does;
      no parts give the empty string. */
  function Join(parts: seq<string>, sep: char): (r: string)
    ensures |parts| > 0 ==> |r| == TotalLength(parts) + |parts| - 1
  {
    if |parts| == 0 then ""
    else if |parts| == 1 then parts[0]
    else parts[0] + [sep] + Join(parts[1..], sep)
  }

  /** A join holds the separators of its parts plus one between each pair. */
  lemma {:induction false} JoinOccurrences(parts: seq<string>, sep: char)
    requires |parts| > 0
    ensures multiset(Join(parts, sep))[sep] == Occurrences(parts, sep) + |parts| - 1
    decreases |parts|
  {
    if |parts| > 1 {
      JoinOccurrences(parts[1..], sep);
    }
  }

  /** The pieces of `s` between occurrences of `sep`, as `str.split` does;
      none of them holds `sep`. */
  function Split(s: string, sep: char): (parts: seq<string>)
    ensures |parts| > 0
    ensures forall k :: 0 <= k < |parts| ==> sep !in parts[k]
  {
    if |s| == 0 then [""]
    else
      var rest := Split(s[1..], sep);
      if s[0] == sep then [""] + rest
      else [[s[0]] + rest[0]] + rest[1..]
  }

  /** There is one more piece than there are separators. */
  lemma {:induction false} SplitCount(s: string, sep: char)
    ensures |Split(s, sep)| == multiset(s)[sep] + 1
    decreases |s|
  {
    if |s| > 0 {
      SplitCount(s[1..], sep);
      assert s == [s[0]] + s[1..];
    }
  }

  /** The script's `merge_lines`: each text, flattened to one line when
      `joinLines` is set, stacked in argument order with line breaks between. */
  function MergeLines(texts: seq<string>, joinLines: bool): string {
    Join(if joinLines then FlattenAll(texts) else texts, LineBreak)
  }

  /** The stacked text is one character longer per extra text than the texts
      together, with or without line joining. With line joining it holds
      exactly one line break between neighbouring texts and no other, and
      splitting it at line breaks gives back the flattened texts. */
  lemma MergeLinesContents(texts: seq<string>, joinLines: bool)
    requires |texts| > 0
    ensures |MergeLines(texts, joinLines)| == TotalLength(texts) + |texts| - 1
    ensures joinLines ==> multiset(MergeLines(texts, joinLines))[LineBreak] == |texts| - 1
    ensures joinLines ==> Split(MergeLines(texts, joinLines), LineBreak) == FlattenAll(texts)
  {
    FlattenAllLength(texts);
    if joinLines {
      FlattenAllNoBreaks(texts);
      JoinOccurrences(FlattenAll(texts), LineBreak);
      SplitJoin(FlattenAll(texts), LineBreak);
    }
  }

  /** With no texts the result is empty. */
  lemma MergeLinesEmpty(joinLines: bool)
    ensures MergeLines([], joinLines) == ""
  {
  }

  /** Every text of `texts` flattened. */
  function FlattenAll(texts: seq<string>): (r: seq<string>)
    ensures |r| == |texts|
    ensures forall k :: 0 <= k < |texts| ==> r[k] == Flatten(texts[k])
  {
    if |texts| == 0 then [] else [Flatten(texts[0])] + FlattenAll(texts[1..])
  }

  lemma {:induction false} FlattenAllLength(texts: seq<string>)
    ensures TotalLength(FlattenAll(texts)) == TotalLength(texts)
    decreases |texts|
  {
    if |texts| > 0 {
      FlattenAllLength(texts[1..]);
    }
  }

  lemma {:induction false} FlattenAllNoBreaks(texts: seq<string>)
    ensures Occurrences(FlattenAll(texts), LineBreak) == 0
    decreases |texts|
  {
    if |texts| > 0 {
      FlattenAllNoBreaks(texts[1..]);
    }
  }

  /** Flattening twice is flattening once, and it leaves a text alone exactly
      when the text has no line break. */
  lemma FlattenIdempotent(s: string)
    ensures Flatten(Flatten(s)) == Flatten(s)
    ensures Flatten(s) == s <==> LineBreak !in s
  {
    if LineBreak in s {
      var k :| 0 <= k < |s| && s[k] == LineBreak;
      assert Flatten(s)[k] != s[k];
    } else {
      assert forall k :: 0 <= k < |s| ==> Flatten(s)[k] == s[k];
    }
  }

  /** A string without the separator is a single piece. */
  lemma {:induction false} SplitNoSeparator(s: string, sep: char)
    requires sep !in s
    ensures Split(s, sep) == [s]
    decreases |s|
  {
    if |s| > 0 {
      SplitNoSeparator(s[1..], sep);
      assert [s[0]] + s[1..] == s;
    }
  }

  /** Splitting at a first separator peels off the piece before it. */
  lemma {:induction false} SplitAfterPiece(p: string, q: string, sep: char)
    requires sep !in p
    ensures Split(p + [sep] + q, sep) == [p] + Split(q, sep)
    decreases |p|
  {
    var s := p + [sep] + q;
    if |p| == 0 {
      assert s[1..] == q;
    } else {
      assert s[1..] == p[1..] + [sep] + q;
      SplitAfterPiece(p[1..], q, sep);
      assert [p[0]] + p[1..] == p;
    }
  }

  /** Splitting undoes joining when no part holds the separator. */
  lemma {:induction false} SplitJoin(parts: seq<string>, sep: char)
    requires |parts| > 0
    requires forall k :: 0 <= k < |parts| ==> sep !in parts[k]
    ensures Split(Join(parts, sep), sep) == parts
    decreases |parts|
  {
    if |parts| == 1 {
      SplitNoSeparator(parts[0], sep);
    } else {
      SplitJoin(parts[1..], sep);
      SplitAfterPiece(parts[0], Join(parts[1..], sep), sep);
      assert [parts[0]] + parts[1..] == parts;
    }
  }

  /** Prefixing the first part with a character prefixes the join with it. */
  lemma JoinConsHead(x: char, y: string, ys: seq<string>, sep: char)
    ensures Join([[x] + y] + ys, sep) == [x] + Join([y] + ys, sep)
  {
    if |ys| > 0 {
      assert ([[x] + y] + ys)[1..] == ys;
      assert ([y] + ys)[1..] == ys;
    }
  }

  /** An empty first part contributes just the separator. */
  lemma JoinEmptyHead(ys: seq<string>, sep: char)
    requires |ys| > 0
    ensures Join([""] + ys, sep) == [sep] + Join(ys, sep)
  {
    assert ([""] + ys)[1..] == ys;
  }

  /** Joining undoes splitting, whatever the string. */
  lemma {:induction false} JoinSplit(s: string, sep: char)
    ensures Join(Split(s, sep), sep) == s
    decreases |s|
  {
    if |s| > 0 {
      var rest := Split(s[1..], sep);
      JoinSplit(s[1..], sep);
      assert s == [s[0]] + s[1..];
      if s[0] == sep {
        JoinEmptyHead(rest, sep);
      } else {
        assert rest == [rest[0]] + rest[1..];
        JoinConsHead(s[0], rest[0], rest[1..], sep);
      }
    }
  }
}
