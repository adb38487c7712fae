/**
 * The Python string built-ins the report engine and the PDF word wrapper rely on:
 * `str.isspace` (the whitespace set of `strip()` and `split()`), `strip()`, `lower()`,
 * the substring test `term in text`, `split()` with no separator, `" ".join`,
 * `"\n".join` and `replace(c, "")`. `SplitLines`, Python's `split("\n")`, is not called
 * by the program: it reads a rendered section or the summary back as its lines.
 */
module PyStr {

  /** The characters Python 3's `str.isspace()` accepts, the set `strip()` and `split()` use. */
  predicate IsSpace(c: char) {
    c == ' ' || ('\t' <= c <= '\r') || ('\U{1C}' <= c <= '\U{1F}')
    || c == '\U{85}' || c == '\U{A0}' || c == '\U{1680}'
    || ('\U{2000}' <= c <= '\U{200A}') || c == '\U{2028}' || c == '\U{2029}'
    || c == '\U{202F}' || c == '\U{205F}' || c == '\U{3000}'
  }

  predicate AllSpace(s: string) {
    forall i :: 0 <= i < |s| ==> IsSpace(s[i])
  }

  // ---------------------------------------------------------------------------
  // strip()
  // ---------------------------------------------------------------------------

  /** `s.lstrip()`: `s` without its leading whitespace. */
  function TrimLeft(s: string): string
  {
    if |s| > 0 && IsSpace(s[0]) then TrimLeft(s[1..]) else s
  }

  /** `s.rstrip()`: `s` without its trailing whitespace. */
  function TrimRight(s: string): string
  {
    if |s| > 0 && IsSpace(s[|s| - 1]) then TrimRight(s[..|s| - 1]) else s
  }

  /** `s.strip()`. */
  function Strip(s: string): string
  {
    TrimRight(TrimLeft(s))
  }

  /** `lstrip()` removes a prefix made only of whitespace, and no more. */
  lemma {:induction false} TrimLeftIsSuffix(s: string)
    ensures var r := TrimLeft(s);
      |r| <= |s| && r == s[|s| - |r|..] && AllSpace(s[..|s| - |r|]) && (r == [] || !IsSpace(r[0]))
  {
    if |s| > 0 && IsSpace(s[0]) {
      TrimLeftIsSuffix(s[1..]);
      var r := TrimLeft(s);
      assert s[..|s| - |r|] == [s[0]] + s[1..][..|s| - 1 - |r|];
    }
  }

  /** `rstrip()` removes a suffix made only of whitespace, and no more. */
  lemma {:induction false} TrimRightIsPrefix(s: string)
    ensures var r := TrimRight(s);
      |r| <= |s| && r == s[..|r|] && AllSpace(s[|r|..]) && (r == [] || !IsSpace(r[|r| - 1]))
  {
    if |s| > 0 && IsSpace(s[|s| - 1]) {
      var t := s[..|s| - 1];
      TrimRightIsPrefix(t);
      var r := TrimRight(s);
      assert s[|r|..] == t[|r|..] + [s[|s| - 1]];
    }
  }

  /** The stripped string is the slice of `s` that starts after its leading whitespace and
      is followed only by whitespace; it neither starts nor ends with whitespace. */
  lemma StripIsTrimmedSlice(s: string)
    ensures var i, r := |s| - |TrimLeft(s)|, Strip(s);
      0 <= i && i + |r| <= |s| && r == s[i..i + |r|] && AllSpace(s[..i]) && AllSpace(s[i + |r|..])
    ensures var r := Strip(s); r == [] || (!IsSpace(r[0]) && !IsSpace(r[|r| - 1]))
  {
    var l := TrimLeft(s);
    var r := TrimRight(l);
    var i := |s| - |l|;
    TrimLeftIsSuffix(s);
    TrimRightIsPrefix(l);
    assert l == s[i..];
    assert r == l[..|r|];
    assert r == s[i..i + |r|];
    assert s[i + |r|..] == l[|r|..];
    if r != [] {
      assert r[0] == l[0];
    }
  }

  /** `strip()` yields the empty string exactly when the input is all whitespace. */
  lemma StripEmptyIff(s: string)
    ensures Strip(s) == [] <==> AllSpace(s)
  {
    var l := TrimLeft(s);
    TrimLeftIsSuffix(s);
    TrimRightIsPrefix(l);
    if Strip(s) == [] {
      assert l == [];
      assert s[..|s|] == s;
    } else {
      assert !IsSpace(l[0]) && l[0] == s[|s| - |l|];
    }
  }

  /** `strip()` only removes characters: whatever is in the result was in the input. */
  lemma StripKeeps(s: string, c: char)
    ensures c in Strip(s) ==> c in s
  {
    StripIsTrimmedSlice(s);
  }

  /** `strip()` is idempotent. */
  lemma StripIdempotent(s: string)
    ensures Strip(Strip(s)) == Strip(s)
  {
    var r := Strip(s);
    StripIsTrimmedSlice(s);
    if r != [] {
      assert TrimLeft(r) == r;
      assert TrimRight(r) == r;
    }
  }

  // ---------------------------------------------------------------------------
  // lower()
  // ---------------------------------------------------------------------------

  /** Upper-case letters of ASCII and Latin-1 (U+00C0 to U+00DE, without the sign U+00D7). */
  predicate IsUpper(c: char) {
    ('A' <= c <= 'Z') || ('\U{C0}' <= c <= '\U{DE}' && c != '\U{D7}')
  }

  /** `lower()` on one character, for ASCII and Latin-1: the lower-case letter sits 32 code points up. */
  function LowerChar(c: char): (d: char)
    ensures IsUpper(c) ==> d as int == c as int + 32 && !IsUpper(d)
    ensures !IsUpper(c) ==> d == c
  {
    if IsUpper(c) then (c as int + 32) as char else c
  }

  /** `s.lower()`, character by character. */
  function Lower(s: string): (r: string)
    ensures |r| == |s|
    ensures forall i :: 0 <= i < |s| ==> r[i] == LowerChar(s[i])
  {
    seq(|s|, i requires 0 <= i < |s| => LowerChar(s[i]))
  }

  /** Lower-casing twice changes nothing more, and a string without upper-case letters is its
      own lower-case form (so lower-case keywords are fixed points). */
  lemma LowerFixedPoints(s: string)
    ensures Lower(Lower(s)) == Lower(s)
    ensures (forall i :: 0 <= i < |s| ==> !IsUpper(s[i])) ==> Lower(s) == s
  {
  }

  // ---------------------------------------------------------------------------
  // term in text
  // ---------------------------------------------------------------------------

  /** `term` occurs in `text` starting at index `i`. */
  predicate OccursAt(text: string, term: string, i: int) {
    0 <= i <= |text| - |term| && text[i..i + |term|] == term
  }

  /** Python's `term in text`, scanning `text` from the left. */
  function Contains(text: string, term: string): bool
    decreases |text|
  {
    if |term| > |text| then false
    else if text[..|term|] == term then true
    else Contains(text[1..], term)
  }

  /** `term in text` holds exactly when `term` occurs in `text` at some position. */
  lemma {:induction false} ContainsIff(text: string, term: string)
    ensures Contains(text, term) <==> exists i :: OccursAt(text, term, i)
    decreases |text|
  {
    if |term| > |text| {
    } else if text[..|term|] == term {
      assert OccursAt(text, term, 0);
    } else {
      ContainsIff(text[1..], term);
      forall i | OccursAt(text, term, i)
        ensures i >= 1 && OccursAt(text[1..], term, i - 1)
      {
        assert i != 0;
        assert text[1..][i - 1..i - 1 + |term|] == text[i..i + |term|];
      }
      forall j | OccursAt(text[1..], term, j)
        ensures OccursAt(text, term, j + 1)
      {
        assert text[1..][j..j + |term|] == text[j + 1..j + 1 + |term|];
      }
    }
  }

  // ---------------------------------------------------------------------------
  // split() and " ".join
  // ---------------------------------------------------------------------------

  /** A word of `split()`: non-empty, without whitespace. */
  predicate IsWord(w: string) {
    w != [] && forall i :: 0 <= i < |w| ==> !IsSpace(w[i])
  }

  /** Length of the run of non-whitespace characters that starts `s`. */
  function WordEnd(s: string): (n: nat)
    ensures n <= |s|
    ensures forall i :: 0 <= i < n ==> !IsSpace(s[i])
    ensures n == |s| || IsSpace(s[n])
  {
    if s == [] || IsSpace(s[0]) then 0 else 1 + WordEnd(s[1..])
  }

  /** `s.split()`: the maximal runs of non-whitespace characters, in order. */
  function Split(s: string): (ws: seq<string>)
    ensures forall k :: 0 <= k < |ws| ==> IsWord(ws[k])
    decreases |s|
  {
    if s == [] then []
    else if IsSpace(s[0]) then Split(s[1..])
    else
      var n := WordEnd(s);
      [s[..n]] + Split(s[n..])
  }

  /** `" ".join(ws)`. */
  function JoinSpace(ws: seq<string>): string
  {
    if |ws| == 0 then ""
    else if |ws| == 1 then ws[0]
    else JoinSpace(ws[..|ws| - 1]) + " " + ws[|ws| - 1]
  }

  /** Splitting a string that is whitespace only yields no words, and conversely. */
  lemma {:induction false} SplitEmptyIff(s: string)
    ensures Split(s) == [] <==> AllSpace(s)
    decreases |s|
  {
    if s != [] {
      if IsSpace(s[0]) {
        SplitEmptyIff(s[1..]);
        assert AllSpace(s) <==> AllSpace(s[1..]);
      }
    }
  }

  /** A whitespace character separates: the words of `a + [c] + b` are those of `a`, then those of `b`. */
  lemma {:induction false} SplitAtSpace(a: string, c: char, b: string)
    requires IsSpace(c)
    ensures Split(a + [c] + b) == Split(a) + Split(b)
    decreases |a|
  {
    var s := a + [c] + b;
    if a == [] {
      assert s[1..] == b;
    } else if IsSpace(a[0]) {
      assert s[1..] == a[1..] + [c] + b;
      SplitAtSpace(a[1..], c, b);
    } else {
      var m := WordEnd(a);
      forall i | 0 <= i < m
        ensures !IsSpace(s[i])
      {
        assert s[i] == a[i];
      }
      assert IsSpace(s[m]) by {
        if m < |a| { assert s[m] == a[m]; } else { assert s[m] == c; }
      }
      SplitAfterWord(s, m);
      if m < |a| {
        assert s[..m] == a[..m];
        assert s[m..] == a[m..] + [c] + b;
        SplitAtSpace(a[m..], c, b);
      } else {
        assert s[..m] == a[..m];
        assert s[m..] == [c] + b;
        assert ([c] + b)[1..] == b;
        assert a[m..] == [];
      }
    }
  }

  /** A string that opens with a word of length `m` splits into that word, then the words
      of the rest. */
  lemma SplitAfterWord(s: string, m: nat)
    requires 0 < m <= |s|
    requires forall i :: 0 <= i < m ==> !IsSpace(s[i])
    requires m == |s| || IsSpace(s[m])
    ensures Split(s) == [s[..m]] + Split(s[m..])
  {
    assert WordEnd(s) == m;
  }

  /** A single word splits to itself. */
  lemma SplitWord(w: string)
    requires IsWord(w)
    ensures Split(w) == [w]
  {
    assert WordEnd(w) == |w|;
    assert w[..|w|] == w && w[|w|..] == [];
  }

  /** Round trip: `" ".join(ws).split() == ws` for any list of words. */
  lemma {:induction false} SplitJoinSpace(ws: seq<string>)
    requires forall k :: 0 <= k < |ws| ==> IsWord(ws[k])
    ensures Split(JoinSpace(ws)) == ws
    decreases |ws|
  {
    if |ws| == 1 {
      SplitWord(ws[0]);
    } else if |ws| > 1 {
      var init, last := ws[..|ws| - 1], ws[|ws| - 1];
      SplitJoinSpace(init);
      SplitWord(last);
      SplitAtSpace(JoinSpace(init), ' ', last);
      assert JoinSpace(init) + " " + last == JoinSpace(init) + [' '] + last;
      assert ws == init + [last];
    }
  }

  // ---------------------------------------------------------------------------
  // "\n".join and split("\n")
  // ---------------------------------------------------------------------------

  /** `"\n".join(ls)`. */
  function JoinLines(ls: seq<string>): string
  {
    if |ls| == 0 then ""
    else if |ls| == 1 then ls[0]
    else ls[0] + "\n" + JoinLines(ls[1..])
  }

  /** `in` is transitive: a part of a part of `text` is a part of `text`. */
  lemma ContainsTransitive(text: string, mid: string, term: string)
    requires Contains(text, mid) && Contains(mid, term)
    ensures Contains(text, term)
  {
    ContainsIff(text, mid);
    ContainsIff(mid, term);
    var i :| OccursAt(text, mid, i);
    var j :| OccursAt(mid, term, j);
    forall n | 0 <= n < |term|
      ensures text[i + j + n] == term[n]
    {
      assert term[n] == mid[j + n] == text[i..i + |mid|][j + n];
    }
    assert text[i + j..i + j + |term|] == term;
    assert OccursAt(text, term, i + j);
    ContainsIff(text, term);
  }

  /** Any part of any line of `"\n".join(ls)` occurs in the joined text. */
  lemma JoinLinesContainsPart(ls: seq<string>, k: nat, pre: string, x: string, post: string)
    requires k < |ls| && ls[k] == pre + x + post
    ensures Contains(JoinLines(ls), x)
  {
    var t := JoinLines(ls);
    var p := JoinLinesHasLine(ls, k);
    assert t[p + |pre|..p + |pre| + |x|] == ls[k][|pre|..|pre| + |x|];
    assert OccursAt(t, x, p + |pre|);
    ContainsIff(t, x);
  }

  /** A text occurs at the start of anything it begins. */
  lemma OccursAtStart(x: string, rest: string)
    ensures OccursAt(x + rest, x, 0)
  {
    assert (x + rest)[..|x|] == x;
  }

  /** An occurrence moves right by the length of whatever is put in front. */
  lemma OccursAfter(front: string, rest: string, x: string, q: nat)
    requires OccursAt(rest, x, q)
    ensures OccursAt(front + rest, x, |front| + q)
  {
    assert (front + rest)[|front| + q..|front| + q + |x|] == rest[q..q + |x|];
  }

  /** Each line of `"\n".join(ls)` occurs in the joined text; `p` is where it starts. */
  lemma {:induction false} JoinLinesHasLine(ls: seq<string>, k: nat) returns (p: nat)
    requires k < |ls|
    ensures OccursAt(JoinLines(ls), ls[k], p)
    decreases |ls|
  {
    if |ls| == 1 {
      p := 0;
      OccursAtStart(ls[0], "");
      assert ls[0] + "" == ls[0];
    } else {
      var rest := JoinLines(ls[1..]);
      assert JoinLines(ls) == ls[0] + ("\n" + rest);
      if k == 0 {
        p := 0;
        OccursAtStart(ls[0], "\n" + rest);
      } else {
        var q := JoinLinesHasLine(ls[1..], k - 1);
        assert ls[1..][k - 1] == ls[k];
        OccursAfter(ls[0] + "\n", rest, ls[k], q);
        assert ls[0] + ("\n" + rest) == (ls[0] + "\n") + rest;
        p := |ls[0]| + 1 + q;
      }
    }
  }

  /** Index of the first newline of `s`, or `|s|` when there is none. */
  function LineEnd(s: string): (n: nat)
    ensures n <= |s|
    ensures forall i :: 0 <= i < n ==> s[i] != '\n'
    ensures n == |s| || s[n] == '\n'
  {
    if s == [] || s[0] == '\n' then 0 else 1 + LineEnd(s[1..])
  }

  /** `s.split("\n")`: never empty; `""` gives `[""]`. */
  function SplitLines(s: string): (ls: seq<string>)
    ensures |ls| >= 1
    decreases |s|
  {
    var n := LineEnd(s);
    if n == |s| then [s] else [s[..n]] + SplitLines(s[n + 1..])
  }

  /** Round trip one way: joining the pieces of `split("\n")` gives the text back. */
  lemma {:induction false} JoinSplitLines(s: string)
    ensures JoinLines(SplitLines(s)) == s
    decreases |s|
  {
    var n := LineEnd(s);
    if n < |s| {
      JoinSplitLines(s[n + 1..]);
      var ls := SplitLines(s);
      assert ls[1..] == SplitLines(s[n + 1..]);
      assert s == s[..n] + "\n" + s[n + 1..];
    }
  }

  /** A newline-free first line, then a newline: `split("\n")` gives that line, then the
      pieces of the rest. */
  lemma SplitLinesAfter(h: string, rest: string)
    requires '\n' !in h
    ensures SplitLines(h + "\n" + rest) == [h] + SplitLines(rest)
  {
    var s := h + "\n" + rest;
    assert forall i :: 0 <= i < |h| ==> s[i] == h[i] && s[i] != '\n';
    assert s[|h|] == '\n';
    assert LineEnd(s) == |h|;
    assert s[..|h|] == h;
    assert s[|h| + 1..] == rest;
  }

  /** Round trip the other way: a non-empty list of lines without newlines is what
      `split("\n")` recovers from its join. */
  lemma {:induction false} SplitJoinLines(ls: seq<string>)
    requires |ls| >= 1
    requires forall k :: 0 <= k < |ls| ==> '\n' !in ls[k]
    ensures SplitLines(JoinLines(ls)) == ls
    decreases |ls|
  {
    var s := JoinLines(ls);
    if |ls| == 1 {
      assert LineEnd(s) == |s|;
    } else {
      var rest := JoinLines(ls[1..]);
      assert s == ls[0] + "\n" + rest;
      SplitLinesAfter(ls[0], rest);
      SplitJoinLines(ls[1..]);
      assert ls == [ls[0]] + ls[1..];
    }
  }

  // ---------------------------------------------------------------------------
  // replace(c, "")
  // ---------------------------------------------------------------------------

  /** `s.replace(c, "")` for a one-character `c`: every `c` removed, the rest kept in order. */
  function Without(s: string, c: char): (r: string)
    ensures c !in r
    ensures multiset(r) == multiset(s)[c := 0]
  {
    if s == [] then []
    else
      assert s == [s[0]] + s[1..];
      (if s[0] == c then [] else [s[0]]) + Without(s[1..], c)
  }

  /** Removing `c` from one character keeps it exactly when it is not `c`. */
  lemma WithoutSingle(x: char, c: char)
    ensures Without([x], c) == if x == c then [] else [x]
  {
  }

  /** Concatenation is associative. */
  lemma ConcatAssoc(x: string, y: string, z: string)
    ensures x + (y + z) == (x + y) + z
  {
  }

  /** Removal from a non-empty string: its first character is kept unless it is `c`. */
  lemma WithoutHead(s: string, c: char)
    requires s != []
    ensures Without(s, c) == (if s[0] == c then [] else [s[0]]) + Without(s[1..], c)
  {
  }

  /** Removal distributes over concatenation: the kept characters stay in their order. */
  lemma {:induction false} WithoutConcat(a: string, b: string, c: char)
    ensures Without(a + b, c) == Without(a, c) + Without(b, c)
  {
    if a == [] {
      assert a + b == b;
    } else {
      var h := if a[0] == c then [] else [a[0]];
      assert (a + b)[0] == a[0] && (a + b)[1..] == a[1..] + b;
      WithoutHead(a + b, c);
      WithoutHead(a, c);
      WithoutConcat(a[1..], b, c);
      ConcatAssoc(h, Without(a[1..], c), Without(b, c));
    }
  }

  /** Removing a character that does not occur changes nothing. */
  lemma {:induction false} WithoutAbsent(s: string, c: char)
    requires c !in s
    ensures Without(s, c) == s
  {
    if s != [] {
      assert s[0] != c;
      WithoutAbsent(s[1..], c);
    }
  }
}
