/**
 * The word wrapper of the PDF export: carriage returns are dropped, the text is split into
 * whitespace-separated words, and the words are laid greedily into lines of at most
 * `maxChars` characters, a word joining the current line (after one space) when it still
 * fits and opening a new line otherwise.
 */
module PdfWrap {
  import opened Wrappers
  import opened PyStr

  /** The line width `_wrap_text` uses when its caller gives none. */
  const DefaultMaxChars: int := 105

  /** The words of the input the wrapper lays out: `text.replace("\r", "").split()`. */
  function InputWords(text: Option<string>): seq<string> {
    Split(Without(OrEmpty(text), '\r'))
  }

  /** The lists of words, one after the other. */
  function Flatten(groups: seq<seq<string>>): seq<string> {
    if |groups| == 0 then []
    else Flatten(groups[..|groups| - 1]) + groups[|groups| - 1]
  }

  /** The words of the lines, line after line. */
  function WordsOf(lines: seq<string>): seq<string> {
    if |lines| == 0 then []
    else WordsOf(lines[..|lines| - 1]) + Split(lines[|lines| - 1])
  }

  /** The space between the end of a line and a word that would join it: none on an empty line. */
  function Gap(line: string): nat {
    if |line| > 0 then 1 else 0
  }

  /** The lines the lists of words make, each joined one space apart. */
  function Joined(groups: seq<seq<string>>): seq<string> {
    if |groups| == 0 then []
    else Joined(groups[..|groups| - 1]) + [JoinSpace(groups[|groups| - 1])]
  }

  /** Line `i` is the join of group `i`. */
  lemma {:induction false} JoinedAt(groups: seq<seq<string>>)
    ensures |Joined(groups)| == |groups|
    ensures forall i :: 0 <= i < |groups| ==> Joined(groups)[i] == JoinSpace(groups[i])
    decreases |groups|
  {
    if |groups| > 0 {
      JoinedAt(groups[..|groups| - 1]);
    }
  }

  /** Finishing one more group adds its join as the last line. */
  lemma JoinedSnoc(groups: seq<seq<string>>, g: seq<string>)
    ensures Joined(groups + [g]) == Joined(groups) + [JoinSpace(g)]
  {
    assert (groups + [g])[..|groups|] == groups;
  }

  lemma FlattenSnoc(groups: seq<seq<string>>, g: seq<string>)
    ensures Flatten(groups + [g]) == Flatten(groups) + g
  {
    assert (groups + [g])[..|groups|] == groups;
  }

  /** Lines that are the joins of lists of words split back into those lists, and their words,
      in order, are all the words. */
  lemma {:induction false} LinesOfGroups(lines: seq<string>, groups: seq<seq<string>>)
    requires |lines| == |groups|
    requires forall i :: 0 <= i < |groups| ==> AllWords(groups[i])
    requires forall i :: 0 <= i < |lines| ==> lines[i] == JoinSpace(groups[i])
    ensures forall i :: 0 <= i < |lines| ==> Split(lines[i]) == groups[i]
    ensures WordsOf(lines) == Flatten(groups)
    decreases |lines|
  {
    forall i | 0 <= i < |lines|
      ensures Split(lines[i]) == groups[i]
    {
      SplitJoinSpace(groups[i]);
    }
    if |lines| > 0 {
      LinesOfGroups(lines[..|lines| - 1], groups[..|groups| - 1]);
    }
  }

  /** Removing carriage returns from whitespace leaves whitespace. */
  lemma {:induction false} WithoutKeepsSpace(s: string, c: char)
    requires AllSpace(s)
    ensures AllSpace(Without(s, c))
  {
    var r := Without(s, c);
    forall i | 0 <= i < |r|
      ensures IsSpace(r[i])
    {
      assert r[i] in multiset(r);
      assert r[i] in multiset(s);
    }
  }

  /** A line ends only because the first word of the next line would not fit on it. */
  predicate Full(line: string, next: string, maxChars: int) {
    |Split(next)| > 0 && |line| + Gap(line) + |Split(next)[0]| > maxChars
  }

  /** What a wrap of `words` into `lines` promises: the lines hold all the words, in order,
      one space apart; a line longer than `maxChars` holds at most one word; every line but
      the first is non-empty, and the first is empty exactly when the first word alone is
      longer than `maxChars`; each line ends only because the next line's first word would not
      fit on it; and no words give no lines. */
  ghost predicate Wrapped(words: seq<string>, maxChars: int, lines: seq<string>) {
    WordsOf(lines) == words
    && (forall i :: 0 <= i < |lines| ==> lines[i] == JoinSpace(Split(lines[i])))
    && (forall i :: 0 <= i < |lines| && |Split(lines[i])| >= 2 ==> |lines[i]| <= maxChars)
    && (forall i :: 0 < i < |lines| ==> |lines[i]| > 0 && Full(lines[i - 1], lines[i], maxChars))
    && (|lines| > 0 && |lines[0]| == 0 <==> |words| > 0 && |words[0]| > maxChars)
    && (|words| == 0 ==> |lines| == 0)
  }

  // The loop below is reasoned about on the lists of words each line is made of, and on
  // their widths as numbers, so that its invariant never speaks of the joined strings.

  /** Every element is a word of `split()`. */
  predicate AllWords(ws: seq<string>) {
    forall j :: 0 <= j < |ws| ==> IsWord(ws[j])
  }

  /** The length of the words joined one space apart, counted as a number. */
  function Width(g: seq<string>): nat {
    if |g| == 0 then 0
    else if |g| == 1 then |g[0]|
    else Width(g[..|g| - 1]) + 1 + |g[|g| - 1]|
  }

  /** One more word widens a line by the word, plus a space unless the line was empty. */
  lemma WidthSnoc(g: seq<string>, w: string)
    ensures Width(g + [w]) == if |g| == 0 then |w| else Width(g) + 1 + |w|
  {
    assert (g + [w])[..|g|] == g;
  }

  /** The width is the length of the joined line. */
  lemma {:induction false} WidthIsLength(g: seq<string>)
    ensures |JoinSpace(g)| == Width(g)
    decreases |g|
  {
    if |g| > 1 {
      WidthIsLength(g[..|g| - 1]);
    }
  }

  /** Only a line without words has width zero. */
  lemma WidthPositive(g: seq<string>)
    requires AllWords(g)
    ensures Width(g) > 0 <==> |g| > 0
  {
    if |g| == 1 {
      assert IsWord(g[0]);
    }
  }

  /** The words of `g` with `w` after them would be wider than `maxChars`. */
  predicate NoRoom(g: seq<string>, w: string, maxChars: int) {
    (if |g| == 0 then |w| else Width(g) + 1 + |w|) > maxChars
  }

  /** The finished groups of words: all of them but the first are non-empty, each holding
      two words or more fits in `maxChars`, and each ended because the next word did not fit. */
  ghost predicate Shaped(groups: seq<seq<string>>, maxChars: int) {
    (forall i :: 0 <= i < |groups| ==> AllWords(groups[i]))
    && (forall i :: 0 <= i < |groups| && |groups[i]| >= 2 ==> Width(groups[i]) <= maxChars)
    && (forall i :: 0 < i < |groups| ==> |groups[i]| > 0 && NoRoom(groups[i - 1], groups[i][0], maxChars))
  }

  /** The finished groups followed by the current line hold the first `k` words. */
  ghost predicate Covers(words: seq<string>, k: int, groups: seq<seq<string>>, line: seq<string>) {
    0 <= k <= |words| && Flatten(groups) + line == words[..k] && AllWords(line)
  }

  /** How the current line sits after the finished groups: it is empty only before the first
      word; it began because its first word did not fit on the last group; the first group is
      empty exactly when the first word alone is too wide; and a current line that is still
      the first one started with a word that fitted. */
  ghost predicate Joins(words: seq<string>, k: int, maxChars: int, groups: seq<seq<string>>, line: seq<string>) {
    0 <= k <= |words|
    && (k == 0 <==> |line| == 0)
    && (k == 0 ==> |groups| == 0)
    && (|groups| > 0 ==> |line| > 0 && NoRoom(groups[|groups| - 1], line[0], maxChars))
    && (|groups| > 0 ==> (|groups[0]| == 0 <==> |words[0]| > maxChars))
    && (k > 0 && |groups| == 0 ==> |words[0]| <= maxChars)
  }

  /** The state of the wrapping loop after the first `k` words: `count` is the width of the
      current line, which fits when it holds two words or more. */
  ghost predicate Laid(words: seq<string>, k: int, maxChars: int,
    groups: seq<seq<string>>, line: seq<string>, count: int)
  {
    Covers(words, k, groups, line)
    && Shaped(groups, maxChars)
    && Joins(words, k, maxChars, groups, line)
    && count == Width(line)
    && (|line| >= 2 ==> count <= maxChars)
  }

  /** Before the first word: no groups, an empty current line of width zero. */
  lemma LaidStart(words: seq<string>, maxChars: int)
    ensures Laid(words, 0, maxChars, [], [], 0)
  {
    assert words[..0] == [];
  }

  /** The next word fits: it joins the current line. */
  lemma FitStep(words: seq<string>, k: int, maxChars: int,
    groups: seq<seq<string>>, line: seq<string>, count: int, w: string, add: int)
    requires AllWords(words)
    requires Laid(words, k, maxChars, groups, line, count) && k < |words| && w == words[k]
    requires add == |w| + (if count > 0 then 1 else 0) && count + add <= maxChars
    ensures Laid(words, k + 1, maxChars, groups, line + [w], count + add)
  {
    WidthSnoc(line, w);
    WidthPositive(line);
    assert words[..k + 1] == words[..k] + [w];
    assert Covers(words, k + 1, groups, line + [w]);
    if |line| > 0 {
      assert (line + [w])[0] == line[0];
    }
    assert Joins(words, k + 1, maxChars, groups, line + [w]);
  }

  /** Finishing the current line keeps all the words laid so far, and the next word follows. */
  lemma FlushCovers(words: seq<string>, k: int, groups: seq<seq<string>>, line: seq<string>)
    requires AllWords(words)
    requires Covers(words, k, groups, line) && k < |words|
    ensures Covers(words, k + 1, groups + [line], [words[k]])
  {
    FlattenSnoc(groups, line);
    assert words[..k + 1] == words[..k] + [words[k]];
  }

  /** Finishing a current line that fits (or holds one word) and began because its first word
      did not fit on the last group keeps the groups shaped. */
  lemma FlushShaped(groups: seq<seq<string>>, line: seq<string>, maxChars: int)
    requires Shaped(groups, maxChars) && AllWords(line)
    requires |line| >= 2 ==> Width(line) <= maxChars
    requires |groups| > 0 ==> |line| > 0 && NoRoom(groups[|groups| - 1], line[0], maxChars)
    ensures Shaped(groups + [line], maxChars)
  {
    var gs := groups + [line];
    var n := |groups|;
    assert gs[n] == line;
    forall i | 0 <= i < |gs|
      ensures AllWords(gs[i])
      ensures |gs[i]| >= 2 ==> Width(gs[i]) <= maxChars
    {
      if i < n {
        assert gs[i] == groups[i];
      }
    }
    forall i | 0 < i < |gs|
      ensures |gs[i]| > 0 && NoRoom(gs[i - 1], gs[i][0], maxChars)
    {
      assert gs[i - 1] == groups[i - 1];
      if i < n {
        assert gs[i] == groups[i];
      }
    }
  }

  /** The next word does not fit: the current line is finished and the word opens the next. */
  lemma FlushStep(words: seq<string>, k: int, maxChars: int,
    groups: seq<seq<string>>, line: seq<string>, count: int, w: string, add: int)
    requires AllWords(words)
    requires Laid(words, k, maxChars, groups, line, count) && k < |words| && w == words[k]
    requires add == |w| + (if count > 0 then 1 else 0) && count + add > maxChars
    ensures Laid(words, k + 1, maxChars, groups + [line], [w], |w|)
  {
    WidthPositive(line);
    FlushCovers(words, k, groups, line);
    FlushShaped(groups, line, maxChars);
    assert NoRoom(line, w, maxChars);
    if |groups| > 0 {
      assert (groups + [line])[0] == groups[0];
    }
    assert Joins(words, k + 1, maxChars, groups + [line], [w]);
  }

  /** Finished groups of all the words, joined, are a wrap of the words. */
  lemma GroupsWrapped(words: seq<string>, maxChars: int, lines: seq<string>, groups: seq<seq<string>>)
    requires Shaped(groups, maxChars) && Flatten(groups) == words
    requires |groups| > 0 ==> |words| > 0 && (|groups[0]| == 0 <==> |words[0]| > maxChars)
    requires |words| == 0 ==> |groups| == 0
    requires |lines| == |groups|
    requires forall i :: 0 <= i < |lines| ==> lines[i] == JoinSpace(groups[i])
    ensures Wrapped(words, maxChars, lines)
  {
    LinesOfGroups(lines, groups);
    forall i | 0 <= i < |lines|
      ensures |lines[i]| == Width(groups[i]) && (|lines[i]| > 0 <==> |groups[i]| > 0)
    {
      WidthIsLength(groups[i]);
      WidthPositive(groups[i]);
    }
    forall i | 0 < i < |lines|
      ensures Full(lines[i - 1], lines[i], maxChars)
    {
      assert NoRoom(groups[i - 1], groups[i][0], maxChars);
    }
  }

  /** After the last word, a non-empty current line is finished too, and the lines are a
      wrap of all the words. */
  lemma Finish(words: seq<string>, k: int, maxChars: int,
    lines: seq<string>, groups: seq<seq<string>>, line: seq<string>, count: int)
    requires AllWords(words)
    requires k == |words| && Laid(words, k, maxChars, groups, line, count) && |line| > 0
    requires lines == Joined(groups)
    ensures |words| > 0
    ensures Wrapped(words, maxChars, lines + [JoinSpace(line)])
  {
    var gs := groups + [line];
    assert words[..|words|] == words;
    FlattenSnoc(groups, line);
    FlushShaped(groups, line, maxChars);
    JoinedSnoc(groups, line);
    if |groups| > 0 {
      assert gs[0] == groups[0];
    }
    JoinedAt(gs);
    GroupsWrapped(words, maxChars, Joined(gs), gs);
  }

  /** A current line still empty after the last word means there were no words. */
  lemma FinishEmpty(words: seq<string>, k: int, maxChars: int,
    lines: seq<string>, groups: seq<seq<string>>, line: seq<string>, count: int)
    requires k == |words| && Laid(words, k, maxChars, groups, line, count) && |line| == 0
    requires lines == Joined(groups)
    ensures |words| == 0 && |lines| == 0
    ensures Wrapped(words, maxChars, lines)
  {
  }

  /** The loop of `_wrap_text`: each word joins the current line when it still fits after a
      space (no space on an empty line), and otherwise the current line is finished and the
      word opens the next one; a non-empty current line is finished at the end. */
  method Lay(words: seq<string>, maxChars: int) returns (lines: seq<string>)
    requires AllWords(words)
    ensures Wrapped(words, maxChars, lines)
    ensures |words| == 0 ==> |lines| == 0
  {
    LaidStart(words, maxChars);
    lines := [];
    var line: seq<string> := [];
    var count := 0;
    ghost var groups: seq<seq<string>> := [];

    var k := 0;
    while k < |words|
      invariant k <= |words|
      invariant Laid(words, k, maxChars, groups, line, count)
      invariant lines == Joined(groups)
    {
      var w := words[k];
      var add := |w| + (if count > 0 then 1 else 0);
      if count + add <= maxChars {
        FitStep(words, k, maxChars, groups, line, count, w, add);
        line := line + [w];
        count := count + add;
      } else {
        FlushStep(words, k, maxChars, groups, line, count, w, add);
        JoinedSnoc(groups, line);
        lines := lines + [JoinSpace(line)];
        groups := groups + [line];
        line := [w];
        count := |w|;
      }
      k := k + 1;
    }

    if |line| > 0 {
      Finish(words, k, maxChars, lines, groups, line, count);
      lines := lines + [JoinSpace(line)];
    } else {
      FinishEmpty(words, k, maxChars, lines, groups, line, count);
    }
  }

  /** `_wrap_text(text, max_chars)`: an empty or absent text gives one empty line; any other
      text is wrapped word by word (carriage returns removed), and text made only of
      whitespace gives no lines at all. */
  method WrapText(text: Option<string>, maxChars: int) returns (lines: seq<string>)
    ensures |OrEmpty(text)| == 0 ==> lines == [""]
    ensures |OrEmpty(text)| > 0 ==> Wrapped(InputWords(text), maxChars, lines)
    ensures |OrEmpty(text)| > 0 && AllSpace(OrEmpty(text)) ==> lines == []
  {
    var s := OrEmpty(text);
    if |s| == 0 {
      return [""];
    }
    var words := Split(Without(s, '\r'));
    lines := Lay(words, maxChars);
    if AllSpace(s) {
      WithoutKeepsSpace(s, '\r');
      SplitEmptyIff(Without(s, '\r'));
    }
  }
}
