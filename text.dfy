/** The Python string operations the modelled code relies on: str.strip, str.split,
    str.join, str.splitlines, str.startswith/endswith, s.split(), len(s.split()) and str(n). */
module Text {
  import opened Seqs

  /** Characters for which Python's str.isspace() holds. str.strip(), str.split() and the
      regular-expression class \s all use this set. */
  predicate IsSpace(c: char) {
    || ('\t' <= c <= '\r')
    || ('\U{001C}' <= c <= ' ')
    || c == '\U{0085}' || c == '\U{00A0}' || c == '\U{1680}'
    || ('\U{2000}' <= c <= '\U{200A}')
    || c == '\U{2028}' || c == '\U{2029}' || c == '\U{202F}' || c == '\U{205F}' || c == '\U{3000}'
  }

  /** ASCII decimal digits (the model's reading of the regular-expression class \d). */
  predicate IsDigit(c: char) {
    '0' <= c <= '9'
  }

  predicate AllDigits(s: string) {
    forall i :: 0 <= i < |s| ==> IsDigit(s[i])
  }

  predicate StartsWith(s: string, prefix: string) {
    |prefix| <= |s| && s[..|prefix|] == prefix
  }

  predicate EndsWith(s: string, suffix: string) {
    |suffix| <= |s| && s[|s| - |suffix|..] == suffix
  }

  // ---------------------------------------------------------------- strip

  /** The number of leading characters of s that drop selects. */
  function LeadingCount(s: string, drop: char -> bool): (n: nat)
    ensures n <= |s|
    ensures forall i :: 0 <= i < n ==> drop(s[i])
    ensures n == |s| || !drop(s[n])
  {
    if s != [] && drop(s[0]) then
      var n' := LeadingCount(s[1..], drop);
      assert forall i :: 1 <= i < n' + 1 ==> s[i] == s[1..][i - 1];
      n' + 1
    else
      0
  }

  /** The number of trailing characters of s that drop selects. */
  function TrailingCount(s: string, drop: char -> bool): (n: nat)
    ensures n <= |s|
    ensures forall i :: |s| - n <= i < |s| ==> drop(s[i])
    ensures n == |s| || !drop(s[|s| - 1 - n])
  {
    if s != [] && drop(s[|s| - 1]) then
      var s' := s[..|s| - 1];
      var n' := TrailingCount(s', drop);
      assert forall i :: |s| - 1 - n' <= i < |s| - 1 ==> s[i] == s'[i];
      n' + 1
    else
      0
  }

  /** Python s.strip(chars): removes from both ends every character that drop selects.
      The result is the slice of s that starts at the first kept character and ends at the
      last one; everything cut away on either side is selected by drop. */
  function StripBy(s: string, drop: char -> bool): (r: string)
    ensures var i := LeadingCount(s, drop); i + |r| <= |s| && r == s[i..i + |r|]
    ensures forall k :: LeadingCount(s, drop) + |r| <= k < |s| ==> drop(s[k])
    ensures r == [] || (!drop(r[0]) && !drop(r[|r| - 1]))
  {
    var t := s[LeadingCount(s, drop)..];
    var r := t[..|t| - TrailingCount(t, drop)];
    assert forall k :: LeadingCount(s, drop) + |r| <= k < |s| ==> s[k] == t[k - LeadingCount(s, drop)];
    r
  }

  /** Python s.strip() with no argument. */
  function Strip(s: string): string {
    StripBy(s, IsSpace)
  }

  /** Stripping finds exactly the core that the dropped characters surround. */
  lemma StripByExact(left: string, core: string, right: string, drop: char -> bool)
    requires forall i :: 0 <= i < |left| ==> drop(left[i])
    requires forall i :: 0 <= i < |right| ==> drop(right[i])
    requires core == [] || (!drop(core[0]) && !drop(core[|core| - 1]))
    ensures StripBy(left + core + right, drop) == core
  {
    var s := left + core + right;
    var r := StripBy(s, drop);
    if core == [] {
      assert forall i :: 0 <= i < |s| ==> drop(s[i]) by {
        forall i | 0 <= i < |s| ensures drop(s[i]) {
          if i < |left| { assert s[i] == left[i]; } else { assert s[i] == right[i - |left|]; }
        }
      }
      assert LeadingCount(s, drop) == |s|;
    } else {
      assert s[|left|] == core[0];
      assert forall i :: 0 <= i < |left| ==> s[i] == left[i];
      assert LeadingCount(s, drop) == |left|;
      assert s[|left| + |core| - 1] == core[|core| - 1];
      assert forall i :: |left| + |core| <= i < |s| ==> s[i] == right[i - |left| - |core|];
      assert |r| == |core|;
      assert r == s[|left|..|left| + |core|];
    }
  }

  // ---------------------------------------------------------------- split and join

  /** The index of the first occurrence of c in s, or |s| when there is none. */
  function IndexOf(s: string, c: char): (i: nat)
    ensures i <= |s|
    ensures i < |s| ==> s[i] == c
    ensures forall k :: 0 <= k < i ==> s[k] != c
  {
    if s == [] then 0
    else if s[0] == c then 0
    else
      var i' := IndexOf(s[1..], c);
      assert forall k :: 1 <= k < i' + 1 ==> s[k] == s[1..][k - 1];
      i' + 1
  }

  /** Python sep.join(parts). */
  function Join(parts: seq<string>, sep: string): string {
    if |parts| == 0 then ""
    else if |parts| == 1 then parts[0]
    else parts[0] + sep + Join(parts[1..], sep)
  }

  /** Joining two non-empty runs of pieces is joining each and putting the separator between. */
  lemma {:induction false} JoinConcat(xs: seq<string>, ys: seq<string>, sep: string)
    requires |xs| >= 1 && |ys| >= 1
    ensures Join(xs + ys, sep) == Join(xs, sep) + sep + Join(ys, sep)
    decreases |xs|
  {
    assert (xs + ys)[0] == xs[0];
    assert (xs + ys)[1..] == xs[1..] + ys;
    if |xs| > 1 {
      JoinConcat(xs[1..], ys, sep);
    }
  }

  /** Python s.split(sep) for a one-character separator: the pieces between separators,
      empty pieces included; none of them contains the separator. */
  function Split(s: string, sep: char): (parts: seq<string>)
    ensures |parts| >= 1
    ensures forall k :: 0 <= k < |parts| ==> sep !in parts[k]
    decreases |s|
  {
    var i := IndexOf(s, sep);
    if i == |s| then
      [s]
    else
      var rest := Split(s[i + 1..], sep);
      assert sep !in s[..i];
      assert forall k :: 1 <= k < 1 + |rest| ==> ([s[..i]] + rest)[k] == rest[k - 1];
      [s[..i]] + rest
  }

  /** Joining the pieces of a split with the separator gives back the original string. */
  lemma {:induction false} JoinSplit(s: string, sep: char)
    ensures Join(Split(s, sep), [sep]) == s
    decreases |s|
  {
    var i := IndexOf(s, sep);
    if i < |s| {
      var rest := Split(s[i + 1..], sep);
      var parts := [s[..i]] + rest;
      assert Split(s, sep) == parts;
      assert parts[1..] == rest;
      JoinSplit(s[i + 1..], sep);
      assert Join(parts, [sep]) == s[..i] + [sep] + Join(rest, [sep]);
      assert s == s[..i] + [sep] + s[i + 1..];
    }
  }

  /** Splitting a join of separator-free pieces gives back the pieces. */
  lemma {:induction false} SplitJoin(parts: seq<string>, sep: char)
    requires |parts| >= 1
    requires forall k :: 0 <= k < |parts| ==> sep !in parts[k]
    ensures Split(Join(parts, [sep]), sep) == parts
  {
    if |parts| == 1 {
      assert IndexOf(parts[0], sep) == |parts[0]|;
    } else {
      var s := Join(parts, [sep]);
      assert s == parts[0] + [sep] + Join(parts[1..], [sep]);
      assert s[|parts[0]|] == sep;
      assert forall k :: 0 <= k < |parts[0]| ==> s[k] == parts[0][k];
      assert IndexOf(s, sep) == |parts[0]|;
      assert s[..|parts[0]|] == parts[0];
      assert s[|parts[0]| + 1..] == Join(parts[1..], [sep]);
      SplitJoin(parts[1..], sep);
    }
  }

  /** Splitting a concatenation around one separator splits each side. */
  lemma {:induction false} SplitAround(a: string, sep: char, b: string)
    ensures Split(a + [sep] + b, sep) == Split(a, sep) + Split(b, sep)
    decreases |a|
  {
    var s := a + [sep] + b;
    var i := IndexOf(a, sep);
    assert forall k :: 0 <= k < |a| ==> s[k] == a[k];
    assert s[|a|] == sep;
    if i == |a| {
      assert IndexOf(s, sep) == |a|;
      assert s[..|a|] == a && s[|a| + 1..] == b;
    } else {
      assert IndexOf(s, sep) == i;
      assert s[..i] == a[..i];
      assert s[i + 1..] == a[i + 1..] + [sep] + b;
      SplitAround(a[i + 1..], sep, b);
    }
  }

  /** Python "\n".join(s.split("\n")[1:]): everything after the first newline, or the empty
      string when s has no newline. */
  function DropFirstLine(s: string): (r: string)
    ensures var i := IndexOf(s, '\n'); r == if i < |s| then s[i + 1..] else ""
  {
    var i := IndexOf(s, '\n');
    var r := Join(Split(s, '\n')[1..], "\n");
    if i < |s| then JoinSplit(s[i + 1..], '\n'); r else r
  }

  /** The index of the last newline of s, or |s| when there is none. */
  function LastNewline(s: string): (j: nat)
    ensures j <= |s|
    ensures j < |s| ==> s[j] == '\n' && '\n' !in s[j + 1..]
    ensures j == |s| ==> '\n' !in s
  {
    if s == [] then 0
    else if s[|s| - 1] == '\n' then |s| - 1
    else
      var j := LastNewline(s[..|s| - 1]);
      if j == |s| - 1 then
        assert s == s[..|s| - 1] + [s[|s| - 1]];
        |s|
      else
        assert s[j + 1..] == s[..|s| - 1][j + 1..] + [s[|s| - 1]];
        j
  }

  /** Python "\n".join(s.split("\n")[:-1]): everything before the last newline, or the
      empty string when s has no newline. */
  function DropLastLine(s: string): (r: string)
    ensures var j := LastNewline(s); r == if j < |s| then s[..j] else ""
  {
    var j := LastNewline(s);
    var parts := Split(s, '\n');
    var r := Join(parts[..|parts| - 1], "\n");
    if j < |s| then
      assert s == s[..j] + ['\n'] + s[j + 1..];
      SplitAround(s[..j], '\n', s[j + 1..]);
      assert IndexOf(s[j + 1..], '\n') == |s[j + 1..]|;
      assert parts[..|parts| - 1] == Split(s[..j], '\n');
      JoinSplit(s[..j], '\n');
      r
    else
      r
  }

  // ---------------------------------------------------------------- splitlines

  /** The line boundaries of Python's str.splitlines(). */
  predicate IsLineBreak(c: char) {
    || c == '\n' || c == '\r' || c == '\U{000B}' || c == '\U{000C}'
    || ('\U{001C}' <= c <= '\U{001E}')
    || c == '\U{0085}' || c == '\U{2028}' || c == '\U{2029}'
  }

  /** The index of the first line break in s, or |s| when there is none. */
  function FirstLineBreak(s: string): (i: nat)
    ensures i <= |s|
    ensures i < |s| ==> IsLineBreak(s[i])
    ensures forall k :: 0 <= k < i ==> !IsLineBreak(s[k])
  {
    if s == [] then 0
    else if IsLineBreak(s[0]) then 0
    else
      var i' := FirstLineBreak(s[1..]);
      assert forall k :: 1 <= k < i' + 1 ==> s[k] == s[1..][k - 1];
      i' + 1
  }

  /** Where the line that ends at the first line break of s is followed by the next one:
      "\r\n" is one line ending, any other line-break character is one by itself. */
  function NextLine(s: string): (next: nat)
    requires FirstLineBreak(s) < |s|
    ensures FirstLineBreak(s) < next <= |s|
  {
    var i := FirstLineBreak(s);
    if s[i] == '\r' && i + 1 < |s| && s[i + 1] == '\n' then i + 2 else i + 1
  }

  /** Python s.splitlines(): "\r\n" counts as one break, and a break at the very end does not
      open an empty last line. No line holds a line break, and there are never more lines than
      characters. */
  function SplitLines(s: string): (lines: seq<string>)
    ensures |lines| <= |s|
    ensures forall k, j :: 0 <= k < |lines| && 0 <= j < |lines[k]| ==> !IsLineBreak(lines[k][j])
    decreases |s|
  {
    if s == [] then []
    else
      var i := FirstLineBreak(s);
      if i == |s| then [s]
      else
        var rest := SplitLines(s[NextLine(s)..]);
        assert forall k :: 1 <= k < 1 + |rest| ==> ([s[..i]] + rest)[k] == rest[k - 1];
        [s[..i]] + rest
  }

  /** The pieces xs with the separator ys[k] written after xs[k]: the text a splitter cut
      into xs when it dropped the separators ys. */
  function Weave(xs: seq<string>, ys: seq<string>): string
    requires |xs| == |ys|
  {
    if xs == [] then [] else xs[0] + ys[0] + Weave(xs[1..], ys[1..])
  }

  /** A line ending splitlines() removes: "\r\n" or a single line-break character. */
  predicate IsLineEnd(e: string) {
    e == "\r\n" || (|e| == 1 && IsLineBreak(e[0]))
  }

  /** The line ending that closed each line of SplitLines(s), "" for a last line that runs to
      the end of s. */
  function LineEnds(s: string): seq<string>
    decreases |s|
  {
    if s == [] then []
    else if FirstLineBreak(s) == |s| then [""]
    else [s[FirstLineBreak(s)..NextLine(s)]] + LineEnds(s[NextLine(s)..])
  }

  /** Weaving a first piece and its separator in front. */
  lemma WeaveCons(x: string, y: string, xs: seq<string>, ys: seq<string>)
    requires |xs| == |ys|
    ensures Weave([x] + xs, [y] + ys) == x + y + Weave(xs, ys)
  {
    assert ([x] + xs)[1..] == xs && ([y] + ys)[1..] == ys;
  }

  /** The text between the first line break and the next line is one line ending, and a lone
      "\r" is not followed by "\n". */
  lemma NextLineEnd(s: string)
    requires FirstLineBreak(s) < |s|
    ensures IsLineEnd(s[FirstLineBreak(s)..NextLine(s)])
    ensures s[FirstLineBreak(s)..NextLine(s)] == "\r" ==> NextLine(s) == |s| || s[NextLine(s)] != '\n'
  {
    var i, next := FirstLineBreak(s), NextLine(s);
    if next == i + 2 {
      assert s[i..next] == "\r\n";
    } else {
      assert s[i..next] == [s[i]];
    }
  }

  /** One line of splitlines(): s is a line, its ending and the rest, which is split on. */
  lemma SplitLinesStep(s: string) returns (line: string, end: string, rest: string)
    requires FirstLineBreak(s) < |s|
    ensures s == line + end + rest && IsLineEnd(end)
    ensures SplitLines(s) == [line] + SplitLines(rest) && LineEnds(s) == [end] + LineEnds(rest)
    ensures end == "\r" ==> rest == [] || rest[0] != '\n'
  {
    var i, next := FirstLineBreak(s), NextLine(s);
    line, end, rest := s[..i], s[i..next], s[next..];
    assert s == line + end + rest;
    NextLineEnd(s);
  }

  /** splitlines() loses nothing but the line endings: the lines, each followed by the ending
      that closed it, make up s. */
  lemma {:induction false} SplitLinesRebuild(s: string)
    ensures |LineEnds(s)| == |SplitLines(s)|
    ensures Weave(SplitLines(s), LineEnds(s)) == s
    decreases |s|
  {
    if s != [] {
      if FirstLineBreak(s) < |s| {
        var line, end, rest := SplitLinesStep(s);
        SplitLinesRebuild(rest);
        WeaveCons(line, end, SplitLines(rest), LineEnds(rest));
      } else {
        assert SplitLines(s) == [s] && LineEnds(s) == [""];
        assert Weave([s], [""]) == s + "" + Weave([], []);
      }
    }
  }

  /** Every line but the last was closed by a line ending, the last possibly by the end of s. */
  lemma {:induction false} LineEndsWellFormed(s: string)
    ensures forall k :: 0 <= k < |LineEnds(s)| ==>
      IsLineEnd(LineEnds(s)[k]) || (k == |LineEnds(s)| - 1 && LineEnds(s)[k] == [])
    decreases |s|
  {
    if s != [] && FirstLineBreak(s) < |s| {
      var end, rest := s[FirstLineBreak(s)..NextLine(s)], s[NextLine(s)..];
      NextLineEnd(s);
      LineEndsWellFormed(rest);
      var ends := LineEnds(rest);
      var all := [end] + ends;
      assert LineEnds(s) == all;
      forall k | 0 <= k < |all|
        ensures IsLineEnd(all[k]) || (k == |all| - 1 && all[k] == [])
      {
        if k > 0 {
          assert all[k] == ends[k - 1];
        }
      }
    }
  }

  /** A line closed by a lone "\r" is never followed by an empty line closed by "\n": that
      pair is one line ending. */
  lemma {:induction false} LoneReturnUnpaired(s: string)
    ensures var lines, ends := SplitLines(s), LineEnds(s);
      |lines| == |ends| &&
      forall k :: 0 <= k < |ends| - 1 && ends[k] == "\r" && lines[k + 1] == [] ==> ends[k + 1] != "\n"
    decreases |s|
  {
    SplitLinesRebuild(s);
    if s != [] && FirstLineBreak(s) < |s| {
      var line, end, rest := SplitLinesStep(s);
      LoneReturnUnpaired(rest);
      var lines, ends := SplitLines(rest), LineEnds(rest);
      assert forall k :: 1 <= k < 1 + |ends| ==> ([end] + ends)[k] == ends[k - 1];
      assert forall k :: 1 <= k < 1 + |lines| ==> ([line] + lines)[k] == lines[k - 1];
      if end == "\r" && |ends| >= 1 && lines[0] == [] {
        SplitLinesRebuild(rest);
        assert rest == ends[0] + Weave(lines[1..], ends[1..]);
      }
    }
  }

  // ---------------------------------------------------------------- words

  /** Position i starts a word: a non-space character at the start or after a space. */
  predicate StartsWord(s: string, i: nat)
    requires i < |s|
  {
    !IsSpace(s[i]) && (i == 0 || IsSpace(s[i - 1]))
  }

  /** Python len(s.split()): the number of maximal runs of non-space characters. */
  function WordCount(s: string): nat {
    if s == [] then 0
    else WordCount(s[..|s| - 1]) + (if StartsWord(s, |s| - 1) then 1 else 0)
  }

  /** A string has no words exactly when every character of it is a space. */
  lemma {:induction false} NoWordsIffAllSpace(s: string)
    ensures WordCount(s) == 0 <==> forall i :: 0 <= i < |s| ==> IsSpace(s[i])
  {
    if s != [] {
      var s' := s[..|s| - 1];
      NoWordsIffAllSpace(s');
      assert forall i :: 0 <= i < |s'| ==> s[i] == s'[i];
      if forall i :: 0 <= i < |s'| ==> IsSpace(s'[i]) {
        assert StartsWord(s, |s| - 1) <==> !IsSpace(s[|s| - 1]);
      }
    }
  }

  /** Appending characters that are all spaces adds no word. */
  lemma {:induction false} WordCountTrailingSpaces(a: string, r: string)
    requires forall i :: 0 <= i < |r| ==> IsSpace(r[i])
    ensures WordCount(a + r) == WordCount(a)
    decreases |r|
  {
    if r != [] {
      var s := a + r;
      assert s[..|s| - 1] == a + r[..|r| - 1];
      WordCountTrailingSpaces(a, r[..|r| - 1]);
      assert s[|s| - 1] == r[|r| - 1];
    } else {
      assert a + r == a;
    }
  }

  /** A non-empty run of spaces between two strings neither merges nor splits words. */
  lemma {:induction false} WordCountSpaced(a: string, r: string, b: string)
    requires |r| >= 1 && forall i :: 0 <= i < |r| ==> IsSpace(r[i])
    ensures WordCount(a + r + b) == WordCount(a) + WordCount(b)
    decreases |b|
  {
    var s := a + r + b;
    if b == [] {
      assert s == a + r;
      WordCountTrailingSpaces(a, r);
    } else {
      var b' := b[..|b| - 1];
      assert s[..|s| - 1] == a + r + b';
      WordCountSpaced(a, r, b');
      assert s[|s| - 1] == b[|b| - 1];
      if |b| == 1 {
        assert s[|s| - 2] == r[|r| - 1];
      } else {
        assert s[|s| - 2] == b[|b| - 2];
      }
      assert StartsWord(s, |s| - 1) == StartsWord(b, |b| - 1);
    }
  }

  /** The length of the word s starts with: its leading run of non-space characters. */
  function WordLength(s: string): (n: nat)
    ensures n <= |s|
  {
    if s != [] && !IsSpace(s[0]) then 1 + WordLength(s[1..]) else 0
  }

  /** Python s.split() with no separator: the maximal runs of non-space characters, in
      order. */
  function Words(s: string): (ws: seq<string>)
    decreases |s|
  {
    if s == [] then []
    else if IsSpace(s[0]) then Words(s[1..])
    else
      var n := WordLength(s);
      [s[..n]] + Words(s[n..])
  }

  /** WordLength is the first position that holds a space, or the length. */
  lemma {:induction false} WordLengthAt(s: string, m: nat)
    requires m <= |s| && forall i :: 0 <= i < m ==> !IsSpace(s[i])
    requires m == |s| || IsSpace(s[m])
    ensures WordLength(s) == m
    decreases m
  {
    if m > 0 {
      assert s[1..][m - 1..] == s[m..];
      WordLengthAt(s[1..], m - 1);
    }
  }

  /** The word s starts with is made of non-space characters and ends at a space or at the
      end of s. */
  lemma {:induction false} WordLengthSpec(s: string)
    ensures var n := WordLength(s);
      && (forall i :: 0 <= i < n ==> !IsSpace(s[i]))
      && (n == |s| || IsSpace(s[n]))
    decreases |s|
  {
    if s != [] && !IsSpace(s[0]) {
      WordLengthSpec(s[1..]);
    }
  }

  /** A character before a string adds a word exactly when it is a word character that is
      not followed by another one. */
  lemma {:induction false} WordCountCons(c: char, t: string)
    ensures WordCount([c] + t) == WordCount(t) + (if !IsSpace(c) && (t == [] || IsSpace(t[0])) then 1 else 0)
    decreases |t|
  {
    var s := [c] + t;
    if t == [] {
      assert s[..0] == [];
    } else {
      var t' := t[..|t| - 1];
      assert s[..|s| - 1] == [c] + t';
      WordCountCons(c, t');
      if |t| == 1 {
        assert s[|s| - 2] == c;
        assert t' == [];
      } else {
        assert s[|s| - 2] == t[|t| - 2];
        assert t'[0] == t[0];
      }
    }
  }

  /** s.split() has len(s.split()) elements. */
  lemma {:induction false} WordsCount(s: string)
    ensures |Words(s)| == WordCount(s)
    decreases |s|
  {
    if s != [] {
      var t := s[1..];
      WordCountCons(s[0], t);
      assert [s[0]] + t == s;
      WordsCount(t);
      if !IsSpace(s[0]) {
        var n := WordLength(s);
        WordLengthSpec(s);
        assert Words(s) == [s[..n]] + Words(s[n..]);
        if n >= 2 {
          WordLengthAt(t, n - 1);
          assert t[n - 1..] == s[n..];
          assert Words(t) == [t[..n - 1]] + Words(s[n..]);
        } else {
          assert t == s[n..];
        }
      }
    }
  }

  /** Leading spaces add no word. */
  lemma {:induction false} WordsLeadingSpaces(r: string, b: string)
    requires forall i :: 0 <= i < |r| ==> IsSpace(r[i])
    ensures Words(r + b) == Words(b)
    decreases |r|
  {
    if r == [] {
      assert r + b == b;
    } else {
      assert (r + b)[1..] == r[1..] + b;
      WordsLeadingSpaces(r[1..], b);
    }
  }

  /** A string followed by one that starts with a space keeps its words apart from the
      words after it. */
  lemma {:induction false} WordsBeforeSpace(a: string, t: string)
    requires t != [] && IsSpace(t[0])
    ensures Words(a + t) == Words(a) + Words(t)
    decreases |a|
  {
    var s := a + t;
    if a == [] {
      assert s == t;
    } else if IsSpace(a[0]) {
      assert s[0] == a[0] && s[1..] == a[1..] + t;
      WordsBeforeSpace(a[1..], t);
    } else {
      var n := WordLength(a);
      WordLengthSpec(a);
      var w, rest := a[..n], a[n..];
      assert a == w + rest && a + t == w + (rest + t);
      WordsBeforeSpace(rest, t);
      WordsFirst(w, rest);
      assert (rest + t)[0] == if rest == [] then t[0] else rest[0];
      WordsFirst(w, rest + t);
      AppendAssoc([w], Words(rest), Words(t));
    }
  }

  /** A non-empty run of spaces between two strings separates their words: the words of the
      whole are those of the first string followed by those of the second. */
  lemma WordsSpaced(a: string, r: string, b: string)
    requires |r| >= 1 && forall i :: 0 <= i < |r| ==> IsSpace(r[i])
    ensures Words(a + r + b) == Words(a) + Words(b)
  {
    assert a + r + b == a + (r + b);
    assert (r + b)[0] == r[0];
    WordsBeforeSpace(a, r + b);
    WordsLeadingSpaces(r, b);
  }

  /** A word followed by a space, or by nothing, is the first of the words. */
  lemma WordsFirst(w: string, rest: string)
    requires w != [] && forall i :: 0 <= i < |w| ==> !IsSpace(w[i])
    requires rest == [] || IsSpace(rest[0])
    ensures Words(w + rest) == [w] + Words(rest)
  {
    var s := w + rest;
    assert forall i :: 0 <= i < |w| ==> s[i] == w[i];
    WordLengthAt(s, |w|);
    assert s[..|w|] == w && s[|w|..] == rest;
  }

  // ---------------------------------------------------------------- decimal numerals

  function DigitChar(d: nat): (c: char)
    requires d < 10
    ensures IsDigit(c)
  {
    (d + '0' as int) as char
  }

  function DigitValue(c: char): (d: nat)
    requires IsDigit(c)
    ensures d < 10
  {
    c as int - '0' as int
  }

  /** Python str(n) for a non-negative int: a non-empty run of decimal digits. */
  function NatToString(n: nat): (s: string)
    ensures |s| >= 1 && AllDigits(s)
  {
    if n < 10 then [DigitChar(n)] else NatToString(n / 10) + [DigitChar(n % 10)]
  }

  /** The value of a run of decimal digits. */
  function ParseNat(s: string): nat
    requires AllDigits(s)
  {
    if s == [] then 0 else ParseNat(s[..|s| - 1]) * 10 + DigitValue(s[|s| - 1])
  }

  /** Reading back a rendered number gives the number. */
  lemma {:induction false} ParseNatToString(n: nat)
    ensures ParseNat(NatToString(n)) == n
  {
    var s := NatToString(n);
    if n >= 10 {
      ParseNatToString(n / 10);
      assert s[..|s| - 1] == NatToString(n / 10);
    }
  }

  /** Distinct numbers render as distinct strings. */
  lemma NatToStringInjective(m: nat, n: nat)
    requires NatToString(m) == NatToString(n)
    ensures m == n
  {
    ParseNatToString(m);
    ParseNatToString(n);
  }
}
