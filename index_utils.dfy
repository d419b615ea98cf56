/** The corpus side of the retrieval pipeline (utils/index_utils.py): recognising rule lines,
    building card documents, splitting text into sentence chunks under a word budget, and
    assembling the parallel id/text/metadata lists that are sent to the vector store. */
module IndexUtils {
  import opened Outcomes
  import opened Text
  import opened Seqs

  /** A document: one parsed rule line, or one card of the card database. */
  datatype Doc =
    | RuleDoc(id: string, text: string, ruleId: string, source: string)
    | CardDoc(id: string, text: string, source: string, cardName: string, manaCost: string,
              types: string, subtypes: string, keywords: string, rarity: string)

  const RulesSource := "Comprehensive Rules"
  const CardsSource := "Card Database"

  // ================================================================ rule lines

  /** A rule identifier as the pattern \d{1,3}(?:\.\d+)+ accepts it: digits and dots only,
      one to three digits before the first dot, at least one dot, never two dots in a row,
      and a digit at the end. */
  predicate IsRuleId(s: string) {
    && (forall i :: 0 <= i < |s| ==> IsDigit(s[i]) || s[i] == '.')
    && (forall i :: 0 <= i < |s| - 1 ==> !(s[i] == '.' && s[i + 1] == '.'))
    && 1 <= IndexOf(s, '.') <= 3
    && IndexOf(s, '.') < |s|
    && IsDigit(s[|s| - 1])
  }

  /** The groups of one regular-expression match of ^(\d{1,3}(?:\.\d+)+)\s+(.*)$. */
  datatype RuleMatch = RuleMatch(ruleId: string, body: string)

  /** The length of the run of digits that starts at position i of s. */
  function DigitRun(s: string, i: nat): (n: nat)
    requires i <= |s|
    ensures i + n <= |s|
    ensures forall k :: i <= k < i + n ==> IsDigit(s[k])
    ensures i + n == |s| || !IsDigit(s[i + n])
    decreases |s| - i
  {
    if i < |s| && IsDigit(s[i]) then 1 + DigitRun(s, i + 1) else 0
  }

  /** Where the repeated group (?:\.\d+) stops when it is matched greedily from position i. */
  function GroupsEnd(s: string, i: nat): (j: nat)
    requires i <= |s|
    ensures i <= j <= |s|
    ensures forall k :: i <= k < j ==> IsDigit(s[k]) || s[k] == '.'
    ensures forall k :: i <= k < j - 1 ==> !(s[k] == '.' && s[k + 1] == '.')
    ensures j > i ==> s[i] == '.' && IsDigit(s[j - 1])
    ensures !(j + 1 < |s| && s[j] == '.' && IsDigit(s[j + 1]))
    decreases |s| - i
  {
    if i + 1 < |s| && s[i] == '.' && IsDigit(s[i + 1]) then
      var m := DigitRun(s, i + 1);
      var j := GroupsEnd(s, i + 1 + m);
      assert IsDigit(s[i + m]);
      j
    else
      i
  }

  /** The whole body: (.*)$ accepts a rest without newline, or one whose only newline is its
      last character (Python's $ also matches just before a final newline). */
  function BodyOf(rest: string): Option<string> {
    var k := IndexOf(rest, '\n');
    if k == |rest| then Some(rest)
    else if k == |rest| - 1 then Some(rest[..k])
    else None
  }

  /** re.match(r"^(\d{1,3}(?:\.\d+)+)\s+(.*)$", line) (utils/index_utils.py:28), written as the
      scan the backtracking matcher ends up performing: the id first, then the rest. */
  function MatchRuleLine(line: string): Option<RuleMatch> {
    var n := DigitRun(line, 0);
    if n < 1 || n > 3 then None
    else
      var e := GroupsEnd(line, n);
      if e == n then None else MatchAfterId(line[..e], line[e..])
  }

  /** The part \s+(.*)$ of the pattern, on what follows the id. */
  function MatchAfterId(ruleId: string, rest: string): Option<RuleMatch> {
    var w := LeadingCount(rest, IsSpace);
    if w == 0 then None
    else
      match BodyOf(rest[w..])
      case None => None
      case Some(body) => Some(RuleMatch(ruleId, body))
  }

  /** One way of reading line as the pattern: an id, a non-empty whitespace run, a body
      without newline, and possibly one final newline. */
  predicate PatternReading(line: string, ruleId: string, ws: string, body: string) {
    && IsRuleId(ruleId)
    && |ws| >= 1 && (forall i :: 0 <= i < |ws| ==> IsSpace(ws[i]))
    && '\n' !in body
    && (line == ruleId + ws + body || line == ruleId + ws + body + "\n")
  }

  /** Over a run of digits and dots that starts with a dot, has no two dots in a row, ends
      with a digit and is followed by neither, the greedy group scan stops exactly at its end. */
  lemma {:induction false} GroupsEndOfRun(s: string, i: nat, j: nat)
    requires i < j <= |s| && s[i] == '.' && IsDigit(s[j - 1])
    requires forall k :: i <= k < j ==> IsDigit(s[k]) || s[k] == '.'
    requires forall k :: i <= k < j - 1 ==> !(s[k] == '.' && s[k + 1] == '.')
    requires j == |s| || (!IsDigit(s[j]) && s[j] != '.')
    ensures GroupsEnd(s, i) == j
    decreases j - i
  {
    assert i + 1 < j;
    var m := DigitRun(s, i + 1);
    var next := i + 1 + m;
    assert next <= j;
    if next < j {
      GroupsEndOfRun(s, next, j);
    }
  }

  /** The prefix the scan accepts as an id is a rule identifier. */
  lemma ScannedIdIsRuleId(line: string)
    requires 1 <= DigitRun(line, 0) <= 3
    requires GroupsEnd(line, DigitRun(line, 0)) > DigitRun(line, 0)
    ensures IsRuleId(line[..GroupsEnd(line, DigitRun(line, 0))])
  {
    ScannedIdChars(line);
    ScannedIdFirstDot(line);
    ScannedIdLastDigit(line);
  }

  lemma ScannedIdChars(line: string)
    requires 1 <= DigitRun(line, 0) <= 3
    requires GroupsEnd(line, DigitRun(line, 0)) > DigitRun(line, 0)
    ensures var id := line[..GroupsEnd(line, DigitRun(line, 0))];
      && (forall k :: 0 <= k < |id| ==> IsDigit(id[k]) || id[k] == '.')
      && (forall k :: 0 <= k < |id| - 1 ==> !(id[k] == '.' && id[k + 1] == '.'))
  {
  }

  lemma ScannedIdFirstDot(line: string)
    requires 1 <= DigitRun(line, 0) <= 3
    requires GroupsEnd(line, DigitRun(line, 0)) > DigitRun(line, 0)
    ensures var id := line[..GroupsEnd(line, DigitRun(line, 0))];
      IndexOf(id, '.') == DigitRun(line, 0) < |id|
  {
    var n := DigitRun(line, 0);
    var id := line[..GroupsEnd(line, n)];
    assert forall k :: 0 <= k < n ==> id[k] != '.';
    assert id[n] == '.';
  }

  lemma ScannedIdLastDigit(line: string)
    requires 1 <= DigitRun(line, 0) <= 3
    requires GroupsEnd(line, DigitRun(line, 0)) > DigitRun(line, 0)
    ensures var id := line[..GroupsEnd(line, DigitRun(line, 0))];
      IsDigit(id[|id| - 1])
  {
  }

  /** Every match the function reports is a reading of the pattern, with the greedy whitespace
      run (the body does not start with a space). */
  lemma MatchRuleLineSound(line: string)
    requires MatchRuleLine(line).Some?
    ensures var m := MatchRuleLine(line).value;
      && (m.body == [] || !IsSpace(m.body[0]))
      && exists ws :: PatternReading(line, m.ruleId, ws, m.body)
  {
    var e := GroupsEnd(line, DigitRun(line, 0));
    ScannedIdIsRuleId(line);
    MatchRuleLineAfterId(line);
    AfterIdSound(line, e);
  }

  /** Once the id is scanned, the match is decided on what follows it. */
  lemma MatchRuleLineAfterId(line: string)
    requires MatchRuleLine(line).Some?
    ensures 1 <= DigitRun(line, 0) <= 3
    ensures GroupsEnd(line, DigitRun(line, 0)) > DigitRun(line, 0)
    ensures var e := GroupsEnd(line, DigitRun(line, 0));
      MatchRuleLine(line) == MatchAfterId(line[..e], line[e..])
  {
  }

  /** What \s+(.*)$ accepts after a rule id is a reading of the pattern. */
  lemma AfterIdSound(line: string, e: nat)
    requires e <= |line| && IsRuleId(line[..e]) && MatchAfterId(line[..e], line[e..]).Some?
    ensures var m := MatchAfterId(line[..e], line[e..]).value;
      && m.ruleId == line[..e]
      && (m.body == [] || !IsSpace(m.body[0]))
      && PatternReading(line, m.ruleId, line[e..][..LeadingCount(line[e..], IsSpace)], m.body)
  {
    var rest := line[e..];
    var w := LeadingCount(rest, IsSpace);
    var after := rest[w..];
    BodyOfShape(after);
    assert line == line[..e] + rest[..w] + after;
    var body := BodyOf(after).value;
    if body != [] {
      assert body[0] == rest[w];
    }
  }

  /** What (.*)$ accepts is the whole rest, possibly without one final newline. */
  lemma BodyOfShape(rest: string)
    requires BodyOf(rest).Some?
    ensures var body := BodyOf(rest).value;
      '\n' !in body && (rest == body || rest == body + "\n")
  {
    var k := IndexOf(rest, '\n');
    if k < |rest| {
      assert rest == rest[..k] + "\n";
    }
  }

  /** Every reading of the pattern is found, with the same rule id; when the reading takes the
      whole whitespace run, the body is the same too. */
  lemma MatchRuleLineComplete(line: string, ruleId: string, ws: string, body: string)
    requires PatternReading(line, ruleId, ws, body)
    ensures MatchRuleLine(line).Some? && MatchRuleLine(line).value.ruleId == ruleId
    ensures body == [] || !IsSpace(body[0]) ==> MatchRuleLine(line).value.body == body
  {
    ScanOfReading(line, ruleId, ws, body);
    MatchRuleLineOfScan(line, |ruleId|);
    var tail := TailOfReading(line, ruleId, ws, body);
    AfterIdComplete(ruleId, ws, body, tail);
  }

  /** The match once the id scan is known to stop at e. */
  lemma MatchRuleLineOfScan(line: string, e: nat)
    requires 1 <= DigitRun(line, 0) <= 3
    requires DigitRun(line, 0) < e <= |line| && GroupsEnd(line, DigitRun(line, 0)) == e
    ensures MatchRuleLine(line) == MatchAfterId(line[..e], line[e..])
  {
  }

  /** In a reading of the pattern, what follows the id is the whitespace and the tail. */
  lemma TailOfReading(line: string, ruleId: string, ws: string, body: string) returns (tail: string)
    requires PatternReading(line, ruleId, ws, body)
    ensures tail == body || tail == body + "\n"
    ensures line[|ruleId|..] == ws + tail
  {
    if line == ruleId + ws + body {
      tail := body;
    } else {
      tail := body + "\n";
    }
    assert line == ruleId + (ws + tail);
  }

  /** \s+(.*)$ accepts a whitespace run followed by a body and at most one final newline. */
  lemma AfterIdComplete(ruleId: string, ws: string, body: string, tail: string)
    requires |ws| >= 1 && forall i :: 0 <= i < |ws| ==> IsSpace(ws[i])
    requires '\n' !in body && (tail == body || tail == body + "\n")
    ensures MatchAfterId(ruleId, ws + tail).Some? && MatchAfterId(ruleId, ws + tail).value.ruleId == ruleId
    ensures body == [] || !IsSpace(body[0]) ==> MatchAfterId(ruleId, ws + tail).value.body == body
  {
    var w := LeadingCount(ws + tail, IsSpace);
    WhitespaceRunOver(ws, tail, body);
    BodyOfTail(tail, body, w - |ws|);
  }

  /** In a reading of the pattern, the digit and group scans stop at the end of the id. */
  lemma ScanOfReading(line: string, ruleId: string, ws: string, body: string)
    requires PatternReading(line, ruleId, ws, body)
    ensures DigitRun(line, 0) == IndexOf(ruleId, '.')
    ensures GroupsEnd(line, IndexOf(ruleId, '.')) == |ruleId|
    ensures line[..|ruleId|] == ruleId
  {
    ReadingPrefix(line, ruleId, ws, body);
    PrefixScan(line, ruleId);
  }

  /** On a line that starts with a rule id followed by whitespace, the scans stop at the id's
      first dot and at its end. */
  lemma PrefixScan(line: string, id: string)
    requires IsRuleId(id) && |id| < |line| && line[..|id|] == id && IsSpace(line[|id|])
    ensures DigitRun(line, 0) == IndexOf(id, '.')
    ensures GroupsEnd(line, IndexOf(id, '.')) == |id|
  {
    var n := IndexOf(id, '.');
    assert forall k :: 0 <= k < |id| ==> line[k] == id[k];
    assert line[n] == '.';
    GroupsEndOfRun(line, n, |id|);
  }

  /** A reading of the pattern starts with the id, followed by a whitespace character. */
  lemma ReadingPrefix(line: string, ruleId: string, ws: string, body: string)
    requires PatternReading(line, ruleId, ws, body)
    ensures |ruleId| < |line| && line[..|ruleId|] == ruleId && IsSpace(line[|ruleId|])
  {
    var rest := if line == ruleId + ws + body then ws + body else ws + body + "\n";
    assert line == ruleId + rest;
    assert rest[0] == ws[0];
  }

  /** The greedy whitespace run over ws + tail covers ws, and exactly ws when the body does
      not start with a space. */
  lemma WhitespaceRunOver(ws: string, tail: string, body: string)
    requires forall i :: 0 <= i < |ws| ==> IsSpace(ws[i])
    requires tail == body || tail == body + "\n"
    ensures var w := LeadingCount(ws + tail, IsSpace);
      && w >= |ws| && w - |ws| <= |tail|
      && (ws + tail)[w..] == tail[w - |ws|..]
      && (body != [] && !IsSpace(body[0]) ==> w == |ws|)
  {
    var rest := ws + tail;
    var w := LeadingCount(rest, IsSpace);
    assert forall i :: 0 <= i < |ws| ==> rest[i] == ws[i];
    if body != [] && !IsSpace(body[0]) {
      assert rest[|ws|] == body[0];
    }
  }

  /** What is left after the whitespace run is accepted by (.*)$. */
  lemma BodyOfTail(tail: string, body: string, j: nat)
    requires '\n' !in body
    requires tail == body || tail == body + "\n"
    requires j <= |tail|
    ensures BodyOf(tail[j..]).Some?
    ensures j == 0 || body == [] ==> BodyOf(tail[j..]) == Some(body)
  {
    var after := tail[j..];
    if tail == body {
      assert '\n' !in after;
    } else if j <= |body| {
      assert after == body[j..] + "\n";
      assert forall k :: 0 <= k < |after| - 1 ==> after[k] == body[j..][k] && after[k] != '\n';
      assert after[|after| - 1] == '\n';
      assert IndexOf(after, '\n') == |after| - 1;
      assert after[..|after| - 1] == body[j..];
    } else {
      assert after == [];
    }
  }

  // ================================================================ sentences

  /** The characters the lookbehind (?<=[.!?]) accepts. */
  predicate IsTerminal(c: char) {
    c == '.' || c == '!' || c == '?'
  }

  /** The character the run " +" is made of. */
  predicate IsBlank(c: char) {
    c == ' '
  }

  /** A match of (?<=[.!?]) + can start at position p of s. */
  predicate SplitsAt(s: string, p: nat)
    requires p < |s|
  {
    1 <= p && s[p] == ' ' && IsTerminal(s[p - 1])
  }

  /** s has no position where the sentence separator can start. */
  predicate NoSplitPoint(s: string) {
    forall p :: 0 <= p < |s| ==> !SplitsAt(s, p)
  }

  /** The leftmost position at or after i where the separator can start, or |s|. */
  function FirstSplitFrom(s: string, i: nat): (p: nat)
    requires i <= |s|
    ensures i <= p <= |s|
    ensures p < |s| ==> SplitsAt(s, p)
    ensures forall k :: i <= k < p ==> !SplitsAt(s, k)
    decreases |s| - i
  {
    if i == |s| || SplitsAt(s, i) then i else FirstSplitFrom(s, i + 1)
  }

  /** re.split(r'(?<=[.!?]) +', text) (utils/index_utils.py:91): the text is cut at every
      run of spaces that follows a full stop, exclamation mark or question mark, and the run
      itself is dropped. The first piece is the text up to the first such run. */
  function SplitSentences(text: string): (sentences: seq<string>)
    ensures |sentences| >= 1
    ensures |sentences[0]| <= |text| && sentences[0] == text[..|sentences[0]|]
    decreases |text|
  {
    var p := FirstSplitFrom(text, 0);
    if p == |text| then [text]
    else
      var run := LeadingCount(text[p..], IsBlank);
      assert text[p..][0] == ' ';
      [text[..p]] + SplitSentences(text[p + run..])
  }

  /** The runs of spaces the splitter drops, one after each piece; "" after the last. */
  function SentenceGaps(text: string): seq<string>
    decreases |text|
  {
    var p := FirstSplitFrom(text, 0);
    if p == |text| then [""]
    else
      var run := LeadingCount(text[p..], IsBlank);
      assert text[p..][0] == ' ';
      [text[p..p + run]] + SentenceGaps(text[p + run..])
  }

  /** The split loses nothing but the separators: the pieces, each followed by the run of
      spaces dropped after it, make up the text. */
  lemma {:induction false} SplitSentencesRebuild(text: string)
    ensures |SentenceGaps(text)| == |SplitSentences(text)|
    ensures Weave(SplitSentences(text), SentenceGaps(text)) == text
    decreases |text|
  {
    if FirstSplitFrom(text, 0) == |text| {
      SplitSentencesWhole(text);
      assert Weave([text], [""]) == text + "" + Weave([], []);
    } else {
      var head, gap, rest := SplitSentencesStep(text);
      SplitSentencesRebuild(rest);
      WeaveCons(head, gap, SplitSentences(rest), SentenceGaps(rest));
    }
  }

  /** Every dropped run but the last is a non-empty run of spaces, and nothing follows the
      last piece. */
  lemma {:induction false} SentenceGapsSpaces(text: string)
    ensures var gaps := SentenceGaps(text);
      && |gaps| >= 1 && gaps[|gaps| - 1] == ""
      && forall k :: 0 <= k < |gaps| - 1 ==> gaps[k] != [] && forall j :: 0 <= j < |gaps[k]| ==> gaps[k][j] == ' '
    decreases |text|
  {
    if FirstSplitFrom(text, 0) < |text| {
      var head, gap, rest := SplitSentencesStep(text);
      SentenceGapsSpaces(rest);
      var gaps := SentenceGaps(rest);
      assert forall k :: 1 <= k < 1 + |gaps| ==> ([gap] + gaps)[k] == gaps[k - 1];
    }
  }

  /** What the splitter produces: pieces without a separator inside, every piece but the
      last ending in terminal punctuation, and no piece after the first starting with a
      space (the whole run of spaces is consumed). */
  predicate WellSplit(xs: seq<string>) {
    && |xs| >= 1
    && (forall k :: 0 <= k < |xs| ==> NoSplitPoint(xs[k]))
    && (forall k :: 0 <= k < |xs| - 1 ==> xs[k] != [] && IsTerminal(xs[k][|xs[k]| - 1]))
    && (forall k :: 1 <= k < |xs| ==> xs[k] == [] || xs[k][0] != ' ')
  }

  /** The splitter's pieces are well formed. */
  lemma {:induction false} SplitSentencesWellSplit(text: string)
    ensures WellSplit(SplitSentences(text))
    decreases |text|
  {
    if FirstSplitFrom(text, 0) == |text| {
      SplitSentencesWhole(text);
    } else {
      var head, gap, rest := SplitSentencesStep(text);
      SplitSentencesWellSplit(rest);
      var pieces := SplitSentences(rest);
      if pieces[0] != [] {
        assert pieces[0][0] == rest[0];
      }
      WellSplitCons(head, pieces);
    }
  }

  /** A well-formed piece in front of a well-formed split that does not start with a space
      gives a well-formed split. */
  lemma WellSplitCons(head: string, xs: seq<string>)
    requires head != [] && IsTerminal(head[|head| - 1]) && NoSplitPoint(head)
    requires WellSplit(xs) && (xs[0] == [] || xs[0][0] != ' ')
    ensures WellSplit([head] + xs)
  {
    var ys := [head] + xs;
    assert forall k :: 1 <= k < |ys| ==> ys[k] == xs[k - 1];
  }

  /** A text without a separator is one piece. */
  lemma SplitSentencesWhole(text: string)
    requires FirstSplitFrom(text, 0) == |text|
    ensures NoSplitPoint(text) && SplitSentences(text) == [text]
  {
  }

  /** One cut of the splitter: the text is a first piece, a run of spaces, and the rest that
      is split further; the piece ends in terminal punctuation and has no separator inside,
      and the rest does not start with a space. */
  lemma SplitSentencesStep(text: string) returns (head: string, gap: string, rest: string)
    requires FirstSplitFrom(text, 0) < |text|
    ensures text == head + gap + rest
    ensures |gap| >= 1 && forall i :: 0 <= i < |gap| ==> gap[i] == ' '
    ensures rest == [] || rest[0] != ' '
    ensures head != [] && IsTerminal(head[|head| - 1]) && NoSplitPoint(head)
    ensures SplitSentences(text) == [head] + SplitSentences(rest)
    ensures SentenceGaps(text) == [gap] + SentenceGaps(rest)
  {
    var p := FirstSplitFrom(text, 0);
    var run := LeadingCount(text[p..], IsBlank);
    head, gap, rest := text[..p], text[p..p + run], text[p + run..];
    assert text[p..][0] == ' ';
    assert forall i :: 0 <= i < |gap| ==> gap[i] == text[p..][i];
    assert text == head + gap + rest;
    assert forall k :: 0 <= k < p ==> (SplitsAt(head, k) <==> SplitsAt(text, k));
    if rest != [] {
      assert rest[0] == text[p..][run];
    }
  }

  /** A piece with no separator inside that ends in terminal punctuation, a space and a text
      that does not start with a space split into that piece and the text's own pieces. */
  lemma SplitSentencesCons(a: string, t: string)
    requires NoSplitPoint(a) && a != [] && IsTerminal(a[|a| - 1])
    requires t == [] || t[0] != ' '
    ensures SplitSentences(a + " " + t) == [a] + SplitSentences(t)
  {
    var s := a + " " + t;
    assert forall k :: 0 <= k < |a| ==> s[k] == a[k];
    assert forall k :: 0 <= k < |a| ==> (SplitsAt(s, k) <==> SplitsAt(a, k));
    assert SplitsAt(s, |a|);
    var p := FirstSplitFrom(s, 0);
    assert p == |a|;
    assert s[p..] == " " + t;
    var run := LeadingCount(s[p..], IsBlank);
    assert run == 1;
    assert s[p + run..] == t;
    assert s[..p] == a;
  }

  /** Joining with single spaces the pieces of a well-formed split, then splitting again, gives
      the same pieces. */
  lemma {:induction false} SplitSentencesJoin(xs: seq<string>)
    requires WellSplit(xs)
    ensures SplitSentences(Join(xs, " ")) == xs
    decreases |xs|
  {
    if |xs| == 1 {
      assert Join(xs, " ") == xs[0];
      assert NoSplitPoint(xs[0]);
    } else {
      var rest := xs[1..];
      assert WellSplit(rest) by {
        assert forall k :: 0 <= k < |rest| ==> rest[k] == xs[k + 1];
      }
      SplitSentencesJoin(rest);
      JoinStart(rest);
      assert NoSplitPoint(xs[0]);
      SplitSentencesCons(xs[0], Join(rest, " "));
      assert xs == [xs[0]] + rest;
    }
  }

  /** The single-space join of pieces starts like its first piece when that piece is not
      empty, and an empty first piece can only stand alone. */
  lemma JoinStart(xs: seq<string>)
    requires |xs| >= 1
    requires xs[0] == [] ==> |xs| == 1
    requires xs[0] == [] || xs[0][0] != ' '
    ensures var t := Join(xs, " "); t == [] || t[0] != ' '
  {
  }

  // ================================================================ chunks

  /** The word counts of some sentences, added up (the running `length` of chunk_text). */
  function SumWords(sentences: seq<string>): nat {
    if sentences == [] then 0
    else SumWords(sentences[..|sentences| - 1]) + WordCount(sentences[|sentences| - 1])
  }

  /** The words of some sentences, one sentence after another. */
  function WordsOf(sentences: seq<string>): seq<string> {
    if sentences == [] then []
    else WordsOf(sentences[..|sentences| - 1]) + Words(sentences[|sentences| - 1])
  }

  /** The chunks closed so far and the sentences of the chunk being filled. */
  datatype Grouping = Grouping(closed: seq<seq<string>>, current: seq<string>)

  /** One iteration of the loop of chunk_text (utils/index_utils.py:96-104): a sentence that
      would take the running word count past the budget closes the current chunk, even an
      empty one, and starts the next; otherwise it joins the current chunk. */
  function GroupStep(g: Grouping, sentence: string, chunkSize: int): Grouping {
    if SumWords(g.current) + WordCount(sentence) > chunkSize then
      Grouping(g.closed + [g.current], [sentence])
    else
      Grouping(g.closed, g.current + [sentence])
  }

  /** The state of the loop after it has seen the given sentences. */
  function GroupPrefix(sentences: seq<string>, chunkSize: int): Grouping {
    if sentences == [] then Grouping([], [])
    else GroupStep(GroupPrefix(sentences[..|sentences| - 1], chunkSize),
                   sentences[|sentences| - 1], chunkSize)
  }

  /** The sentence groups chunk_text emits: the closed ones and, when it is not empty, the
      one still being filled (utils/index_utils.py:105-106). */
  function SentenceGroups(sentences: seq<string>, chunkSize: int): seq<seq<string>> {
    var g := GroupPrefix(sentences, chunkSize);
    if g.current != [] then g.closed + [g.current] else g.closed
  }

  /** Each group joined with single spaces. */
  function JoinEach(groups: seq<seq<string>>): (chunks: seq<string>)
    ensures |chunks| == |groups|
    ensures forall k :: 0 <= k < |groups| ==> chunks[k] == Join(groups[k], " ")
  {
    if groups == [] then []
    else JoinEach(groups[..|groups| - 1]) + [Join(groups[|groups| - 1], " ")]
  }

  /** chunk_text(text, chunk_size) (utils/index_utils.py:89-108) as a value. */
  function Chunks(text: string, chunkSize: int): seq<string> {
    JoinEach(SentenceGroups(SplitSentences(text), chunkSize))
  }

  /** chunk_text(text, chunk_size) (utils/index_utils.py:89-108). */
  method ChunkText(text: string, chunkSize: int) returns (chunks: seq<string>)
    ensures chunks == Chunks(text, chunkSize)
  {
    var sentences := SplitSentences(text);
    chunks := [];
    var current: seq<string> := [];
    var length := 0;
    ghost var g := Grouping([], []);
    for i := 0 to |sentences|
      invariant g == GroupPrefix(sentences[..i], chunkSize)
      invariant current == g.current && chunks == JoinEach(g.closed)
      invariant length == SumWords(current)
    {
      var s := sentences[i];
      GroupPrefixSnoc(sentences, i, chunkSize);
      var tokens := WordCount(s);
      if length + tokens > chunkSize {
        JoinEachSnoc(g.closed, current);
        chunks := chunks + [Join(current, " ")];
        SumWordsSnoc([], s);
        current := [s];
        length := tokens;
      } else {
        SumWordsSnoc(current, s);
        current := current + [s];
        length := length + tokens;
      }
      g := GroupStep(g, s, chunkSize);
    }
    assert sentences[..|sentences|] == sentences;
    if current != [] {
      JoinEachSnoc(g.closed, current);
      chunks := chunks + [Join(current, " ")];
    }
  }

  /** The loop state after one more sentence is one step from the state before it. */
  lemma GroupPrefixSnoc(sentences: seq<string>, i: nat, chunkSize: int)
    requires i < |sentences|
    ensures GroupPrefix(sentences[..i + 1], chunkSize) ==
      GroupStep(GroupPrefix(sentences[..i], chunkSize), sentences[i], chunkSize)
  {
    assert sentences[..i + 1][..i] == sentences[..i];
  }

  /** Joining one more group appends its chunk. */
  lemma JoinEachSnoc(groups: seq<seq<string>>, group: seq<string>)
    ensures JoinEach(groups + [group]) == JoinEach(groups) + [Join(group, " ")]
  {
    assert (groups + [group])[..|groups|] == groups;
  }

  /** One more sentence adds its word count. */
  lemma SumWordsSnoc(sentences: seq<string>, s: string)
    ensures SumWords(sentences + [s]) == SumWords(sentences) + WordCount(s)
  {
    assert (sentences + [s])[..|sentences|] == sentences;
  }

  /** A group of two or more sentences is within the word budget. */
  predicate Fits(group: seq<string>, chunkSize: int) {
    |group| >= 2 ==> SumWords(group) <= chunkSize
  }

  /** The group next was started because its first sentence did not fit after group. */
  predicate Overflows(group: seq<string>, next: seq<string>, chunkSize: int) {
    next != [] && SumWords(group) + WordCount(next[0]) > chunkSize
  }

  /** Every closed group was closed because the following sentence did not fit. */
  predicate Greedy(closed: seq<seq<string>>, current: seq<string>, chunkSize: int) {
    && (forall k :: 0 <= k < |closed| - 1 ==> Overflows(closed[k], closed[k + 1], chunkSize))
    && (closed != [] && current != [] ==> Overflows(closed[|closed| - 1], current, chunkSize))
  }

  /** What the loop of chunk_text keeps true about the sentences it has seen: the groups,
      in order, are those sentences; only the first closed group may be empty, and it is
      exactly when the first sentence alone is over budget; a group of two or more sentences
      is within budget; and a group was closed only because the next sentence did not fit. */
  ghost predicate GroupingInv(g: Grouping, sentences: seq<string>, chunkSize: int) {
    && Flatten(g.closed) + g.current == sentences
    && (sentences != [] ==> g.current != [])
    && (forall k :: 1 <= k < |g.closed| ==> g.closed[k] != [])
    && (forall k :: 0 <= k < |g.closed| ==> Fits(g.closed[k], chunkSize))
    && Fits(g.current, chunkSize)
    && (sentences != [] ==> (WordCount(sentences[0]) > chunkSize <==> g.closed != [] && g.closed[0] == []))
    && Greedy(g.closed, g.current, chunkSize)
  }

  /** The loop invariant holds after every prefix of the sentences. */
  lemma {:induction false} GroupPrefixInv(sentences: seq<string>, chunkSize: int)
    ensures GroupingInv(GroupPrefix(sentences, chunkSize), sentences, chunkSize)
    decreases |sentences|
  {
    if sentences != [] {
      var pre := sentences[..|sentences| - 1];
      var s := sentences[|sentences| - 1];
      GroupPrefixInv(pre, chunkSize);
      var g := GroupPrefix(pre, chunkSize);
      assert sentences == pre + [s];
      if SumWords(g.current) + WordCount(s) > chunkSize {
        StepCloses(g, pre, s, chunkSize);
      } else {
        StepAppends(g, pre, s, chunkSize);
      }
    }
  }

  /** A sentence that does not fit closes the current group and keeps the invariant. */
  lemma StepCloses(g: Grouping, pre: seq<string>, s: string, chunkSize: int)
    requires GroupingInv(g, pre, chunkSize)
    requires pre == [] ==> g == Grouping([], [])
    requires SumWords(g.current) + WordCount(s) > chunkSize
    ensures GroupingInv(Grouping(g.closed + [g.current], [s]), pre + [s], chunkSize)
  {
    CloseCovers(g.closed, g.current, s);
    CloseKeepsShape(g.closed, g.current, chunkSize);
    CloseKeepsGreedy(g.closed, g.current, s, chunkSize);
    if pre != [] {
      assert (pre + [s])[0] == pre[0];
      assert g.closed == [] ==> (g.closed + [g.current])[0] == g.current;
    }
  }

  /** A sentence that fits joins the current group and keeps the invariant. */
  lemma StepAppends(g: Grouping, pre: seq<string>, s: string, chunkSize: int)
    requires GroupingInv(g, pre, chunkSize)
    requires pre == [] ==> g == Grouping([], [])
    requires SumWords(g.current) + WordCount(s) <= chunkSize
    ensures GroupingInv(Grouping(g.closed, g.current + [s]), pre + [s], chunkSize)
  {
    var current := g.current + [s];
    assert current[..|current| - 1] == g.current;
    if pre != [] {
      assert (pre + [s])[0] == pre[0];
      assert current[0] == g.current[0];
    }
  }

  lemma CloseCovers(closed: seq<seq<string>>, current: seq<string>, s: string)
    ensures Flatten(closed + [current]) + [s] == Flatten(closed) + current + [s]
  {
    assert (closed + [current])[..|closed|] == closed;
  }

  lemma CloseKeepsShape(closed: seq<seq<string>>, current: seq<string>, chunkSize: int)
    requires forall k :: 1 <= k < |closed| ==> closed[k] != []
    requires closed != [] ==> current != []
    requires forall k :: 0 <= k < |closed| ==> Fits(closed[k], chunkSize)
    requires Fits(current, chunkSize)
    ensures forall k :: 1 <= k < |closed| + 1 ==> (closed + [current])[k] != []
    ensures forall k :: 0 <= k < |closed| + 1 ==> Fits((closed + [current])[k], chunkSize)
  {
  }

  lemma CloseKeepsGreedy(closed: seq<seq<string>>, current: seq<string>, s: string, chunkSize: int)
    requires Greedy(closed, current, chunkSize)
    requires closed != [] ==> current != []
    requires SumWords(current) + WordCount(s) > chunkSize
    ensures Greedy(closed + [current], [s], chunkSize)
  {
    var closed' := closed + [current];
    assert forall k :: 0 <= k < |closed| ==> closed'[k] == closed[k];
  }

  /** For some sentences the emitted groups are the closed ones and the last current one,
      and the loop invariant holds of them. */
  lemma GroupsView(sentences: seq<string>, chunkSize: int)
    requires sentences != []
    ensures var g := GroupPrefix(sentences, chunkSize);
      && SentenceGroups(sentences, chunkSize) == g.closed + [g.current]
      && GroupingInv(g, sentences, chunkSize)
  {
    GroupPrefixInv(sentences, chunkSize);
  }

  /** Read in order, the groups chunk_text emits are exactly its sentences, and there is at
      least one group. */
  lemma GroupsPartition(sentences: seq<string>, chunkSize: int)
    requires sentences != []
    ensures var groups := SentenceGroups(sentences, chunkSize);
      |groups| >= 1 && Flatten(groups) == sentences
  {
    GroupsView(sentences, chunkSize);
    var g := GroupPrefix(sentences, chunkSize);
    var groups := g.closed + [g.current];
    assert groups[..|groups| - 1] == g.closed;
  }

  /** Only the first group can be empty, and it is exactly when the first sentence alone has
      more words than the budget. */
  lemma GroupsFirstEmpty(sentences: seq<string>, chunkSize: int)
    requires sentences != []
    ensures var groups := SentenceGroups(sentences, chunkSize);
      && |groups| >= 1
      && (groups[0] == [] <==> WordCount(sentences[0]) > chunkSize)
      && (forall k :: 1 <= k < |groups| ==> groups[k] != [])
  {
    GroupsView(sentences, chunkSize);
    FirstEmptyOfInv(GroupPrefix(sentences, chunkSize), sentences, chunkSize);
  }

  /** The emptiness facts of GroupsFirstEmpty, read off the loop invariant. */
  lemma FirstEmptyOfInv(g: Grouping, sentences: seq<string>, chunkSize: int)
    requires sentences != [] && GroupingInv(g, sentences, chunkSize)
    ensures var groups := g.closed + [g.current];
      && (groups[0] == [] <==> WordCount(sentences[0]) > chunkSize)
      && (forall k :: 1 <= k < |groups| ==> groups[k] != [])
  {
    var groups := g.closed + [g.current];
    assert g.current != [];
    if g.closed == [] {
      assert groups == [g.current];
    } else {
      assert groups[0] == g.closed[0];
      forall k | 1 <= k < |groups| ensures groups[k] != [] {
        if k < |g.closed| {
          assert groups[k] == g.closed[k];
        }
      }
    }
  }

  /** A group of two or more sentences stays within the budget. */
  lemma GroupsWithinBudget(sentences: seq<string>, chunkSize: int)
    requires sentences != []
    ensures var groups := SentenceGroups(sentences, chunkSize);
      forall k :: 0 <= k < |groups| ==> Fits(groups[k], chunkSize)
  {
    GroupsView(sentences, chunkSize);
    WithinBudgetOfInv(GroupPrefix(sentences, chunkSize), sentences, chunkSize);
  }

  /** The budget fact of GroupsWithinBudget, read off the loop invariant. */
  lemma WithinBudgetOfInv(g: Grouping, sentences: seq<string>, chunkSize: int)
    requires GroupingInv(g, sentences, chunkSize)
    ensures var groups := g.closed + [g.current];
      forall k :: 0 <= k < |groups| ==> Fits(groups[k], chunkSize)
  {
    var groups := g.closed + [g.current];
    assert forall k :: 0 <= k < |g.closed| ==> groups[k] == g.closed[k];
  }

  /** Each group was closed only because the first sentence of the next one did not fit. */
  lemma GroupsGreedy(sentences: seq<string>, chunkSize: int)
    requires sentences != []
    ensures var groups := SentenceGroups(sentences, chunkSize);
      forall k :: 0 <= k < |groups| - 1 ==> Overflows(groups[k], groups[k + 1], chunkSize)
  {
    GroupsView(sentences, chunkSize);
    GreedyOfInv(GroupPrefix(sentences, chunkSize), sentences, chunkSize);
  }

  /** The overflow fact of GroupsGreedy, read off the loop invariant. */
  lemma GreedyOfInv(g: Grouping, sentences: seq<string>, chunkSize: int)
    requires sentences != [] && GroupingInv(g, sentences, chunkSize)
    ensures var groups := g.closed + [g.current];
      forall k :: 0 <= k < |groups| - 1 ==> Overflows(groups[k], groups[k + 1], chunkSize)
  {
    var groups := g.closed + [g.current];
    forall k | 0 <= k < |groups| - 1 ensures Overflows(groups[k], groups[k + 1], chunkSize) {
      assert groups[k] == g.closed[k];
      if k + 1 < |g.closed| {
        assert groups[k + 1] == g.closed[k + 1];
      } else {
        assert groups[k + 1] == g.current;
      }
    }
  }

  /** Adding up word counts distributes over concatenation. */
  lemma {:induction false} SumWordsAppend(a: seq<string>, b: seq<string>)
    ensures SumWords(a + b) == SumWords(a) + SumWords(b)
    decreases |b|
  {
    if b == [] {
      assert a + b == a;
    } else {
      assert (a + b)[..|a + b| - 1] == a + b[..|b| - 1];
      SumWordsAppend(a, b[..|b| - 1]);
    }
  }

  /** The words of two runs of sentences are those of the first followed by those of the
      second. */
  lemma {:induction false} WordsOfAppend(a: seq<string>, b: seq<string>)
    ensures WordsOf(a + b) == WordsOf(a) + WordsOf(b)
    decreases |b|
  {
    if b == [] {
      assert a + b == a;
    } else {
      var init, last := b[..|b| - 1], b[|b| - 1];
      assert (a + b)[..|a + b| - 1] == a + init && (a + b)[|a + b| - 1] == last;
      WordsOfAppend(a, init);
      AppendAssoc(WordsOf(a), WordsOf(init), Words(last));
    }
  }

  /** The words of a sentence followed by more sentences are its own words followed by
      theirs. */
  lemma WordsOfCons(x: string, xs: seq<string>)
    ensures WordsOf([x] + xs) == Words(x) + WordsOf(xs)
  {
    assert WordsOf([x]) == Words(x) by {
      assert WordsOf([x]) == WordsOf([]) + Words(x);
    }
    WordsOfAppend([x], xs);
  }

  /** Joining sentences with single spaces keeps their words, in order. */
  lemma {:induction false} WordsOfJoin(group: seq<string>)
    ensures Words(Join(group, " ")) == WordsOf(group)
    decreases |group|
  {
    if |group| == 1 {
      assert WordsOf(group) == WordsOf([]) + Words(group[0]);
    } else if |group| >= 2 {
      WordsOfJoin(group[1..]);
      WordsSpaced(group[0], " ", Join(group[1..], " "));
      WordsOfCons(group[0], group[1..]);
      assert [group[0]] + group[1..] == group;
    }
  }

  /** Joining sentences with single spaces keeps the sum of their word counts. */
  lemma {:induction false} WordCountOfJoin(group: seq<string>)
    ensures WordCount(Join(group, " ")) == SumWords(group)
    decreases |group|
  {
    if |group| == 1 {
      assert SumWords(group) == SumWords([]) + WordCount(group[0]);
    } else if |group| >= 2 {
      WordCountOfJoin(group[1..]);
      WordCountSpaced(group[0], " ", Join(group[1..], " "));
      SumWordsAppend([group[0]], group[1..]);
      assert [group[0]] + group[1..] == group;
      assert SumWords([group[0]]) == SumWords([]) + WordCount(group[0]);
    }
  }

  /** The sentence split neither loses nor invents a word. */
  lemma {:induction false} SplitSentencesWords(text: string)
    ensures SumWords(SplitSentences(text)) == WordCount(text)
    decreases |text|
  {
    if FirstSplitFrom(text, 0) == |text| {
      SplitSentencesWhole(text);
      assert SumWords([text]) == SumWords([]) + WordCount(text);
    } else {
      var head, gap, rest := SplitSentencesStep(text);
      SplitSentencesWords(rest);
      WordCountSpaced(head, gap, rest);
      SumWordsAppend([head], SplitSentences(rest));
      assert SumWords([head]) == SumWords([]) + WordCount(head);
    }
  }

  /** The sentence split keeps the words of the text, in order: the sentences' words, one
      sentence after another, are the text's words. */
  lemma {:induction false} SplitSentencesWordList(text: string)
    ensures WordsOf(SplitSentences(text)) == Words(text)
    decreases |text|
  {
    if FirstSplitFrom(text, 0) == |text| {
      SplitSentencesWhole(text);
      assert WordsOf([text]) == WordsOf([]) + Words(text);
    } else {
      var head, gap, rest := SplitSentencesStep(text);
      SplitSentencesWordList(rest);
      WordsSpaced(head, gap, rest);
      WordsOfCons(head, SplitSentences(rest));
    }
  }

  /** Joining each group keeps the total word count of all the groups' sentences. */
  lemma {:induction false} JoinEachWords(groups: seq<seq<string>>)
    ensures SumWords(JoinEach(groups)) == SumWords(Flatten(groups))
    ensures WordsOf(JoinEach(groups)) == WordsOf(Flatten(groups))
    decreases |groups|
  {
    if groups != [] {
      var init := groups[..|groups| - 1];
      var last := groups[|groups| - 1];
      JoinEachWords(init);
      WordCountOfJoin(last);
      WordsOfJoin(last);
      SumWordsAppend(JoinEach(init), [Join(last, " ")]);
      SumWordsAppend(Flatten(init), last);
      WordsOfAppend(Flatten(init), last);
      assert SumWords([Join(last, " ")]) == SumWords([]) + WordCount(Join(last, " "));
      assert WordsOf([Join(last, " ")]) == WordsOf([]) + Words(Join(last, " "));
      assert JoinEach(groups) == JoinEach(init) + [Join(last, " ")];
    }
  }

  /** chunk_text returns at least one chunk, and its chunks hold exactly the words of the
      text: read chunk after chunk, their words (text.split() of each) are the words of the
      text, in order, so no word is dropped, repeated or moved; in particular their word
      counts add up to the text's. */
  lemma ChunksKeepWords(text: string, chunkSize: int)
    ensures |Chunks(text, chunkSize)| >= 1
    ensures WordsOf(Chunks(text, chunkSize)) == Words(text)
    ensures SumWords(Chunks(text, chunkSize)) == WordCount(text)
  {
    var sentences := SplitSentences(text);
    GroupsPartition(sentences, chunkSize);
    JoinEachWords(SentenceGroups(sentences, chunkSize));
    SplitSentencesWords(text);
    SplitSentencesWordList(text);
  }

  /** A chunk made of two or more sentences has at most chunkSize words; only a chunk that is
      one long sentence, or the empty first chunk, can exceed the budget. */
  lemma ChunksWithinBudget(text: string, chunkSize: int)
    ensures var groups := SentenceGroups(SplitSentences(text), chunkSize);
      var chunks := Chunks(text, chunkSize);
      |chunks| == |groups| &&
      forall k :: 0 <= k < |chunks| ==>
        WordCount(chunks[k]) == SumWords(groups[k]) && (|groups[k]| >= 2 ==> WordCount(chunks[k]) <= chunkSize)
  {
    var groups := SentenceGroups(SplitSentences(text), chunkSize);
    GroupsWithinBudget(SplitSentences(text), chunkSize);
    forall k | 0 <= k < |groups| ensures WordCount(Join(groups[k], " ")) == SumWords(groups[k]) {
      WordCountOfJoin(groups[k]);
    }
  }

  /** When the first sentence alone is over budget, chunk_text's first chunk is the empty
      string (the empty current group is flushed before that sentence). */
  lemma FirstChunkEmpty(text: string, chunkSize: int)
    ensures |Chunks(text, chunkSize)| >= 1
    ensures WordCount(SplitSentences(text)[0]) > chunkSize ==> Chunks(text, chunkSize)[0] == ""
    ensures Chunks(text, chunkSize)[0] == "" ==>
              WordCount(SplitSentences(text)[0]) > chunkSize || SplitSentences(text)[0] == ""
  {
    var sentences := SplitSentences(text);
    GroupsPartition(sentences, chunkSize);
    GroupsFirstEmpty(sentences, chunkSize);
    var groups := SentenceGroups(sentences, chunkSize);
    assert Chunks(text, chunkSize) == JoinEach(groups);
    if groups[0] != [] {
      FirstGroupJoin(groups, sentences);
    }
  }

  /** A non-empty first group joins to "" only when the first sentence is empty. */
  lemma FirstGroupJoin(groups: seq<seq<string>>, sentences: seq<string>)
    requires |groups| >= 1 && groups[0] != [] && Flatten(groups) == sentences
    ensures sentences != [] && (Join(groups[0], " ") == "" ==> sentences[0] == "")
  {
    NonEmptyGroupJoin(groups[0]);
    FlattenCons(groups[0], groups[1..]);
    assert groups == [groups[0]] + groups[1..];
    assert sentences[0] == groups[0][0];
  }

  /** A non-empty group of sentences joins to a non-empty chunk only when some sentence is
      not empty; an empty chunk from a non-empty group means every sentence is empty. */
  lemma NonEmptyGroupJoin(group: seq<string>)
    requires group != []
    ensures Join(group, " ") == "" <==> |group| == 1 && group[0] == ""
  {
  }

  /** An empty text is one empty chunk for any non-negative budget. */
  lemma EmptyTextChunk(chunkSize: int)
    requires chunkSize >= 0
    ensures Chunks("", chunkSize) == [""]
  {
    assert SplitSentences("") == [""];
    assert [""][..0] == [];
    assert GroupPrefix([""], chunkSize) == Grouping([], [""]);
    assert SentenceGroups([""], chunkSize) == [[""]];
    assert [[""]][..0] == [];
  }

  // ================================================================ rules file

  /** The document one line of the rules file yields: none for a line that is blank after
      stripping or that the rule pattern rejects, else one (utils/index_utils.py:24-36). */
  function LineDocs(line: string): seq<Doc> {
    var stripped := Strip(line);
    if stripped == [] then []
    else
      match MatchRuleLine(stripped)
      case None => []
      case Some(m) => [RuleDoc("CR:" + m.ruleId, m.ruleId + " " + m.body, m.ruleId, RulesSource)]
  }

  /** The documents of the lines of a rules file, in file order. */
  function RulesOf(lines: seq<string>): seq<Doc> {
    if lines == [] then [] else RulesOf(lines[..|lines| - 1]) + LineDocs(lines[|lines| - 1])
  }

  /** load_rules(path) (utils/index_utils.py:15-37) on the lines of the file. */
  method LoadRules(lines: seq<string>) returns (docs: seq<Doc>)
    ensures docs == RulesOf(lines)
  {
    docs := [];
    for i := 0 to |lines|
      invariant docs == RulesOf(lines[..i])
    {
      assert lines[..i + 1][..i] == lines[..i];
      assert RulesOf(lines[..i + 1]) == RulesOf(lines[..i]) + LineDocs(lines[i]);
      var line := Strip(lines[i]);
      if line == [] {
        continue;
      }
      var m := MatchRuleLine(line);
      if m.Some? {
        var ruleId, body := m.value.ruleId, m.value.body;
        docs := docs + [RuleDoc("CR:" + ruleId, ruleId + " " + body, ruleId, RulesSource)];
      }
    }
    assert lines[..|lines|] == lines;
  }

  /** The documents of two runs of lines are those of the first followed by those of the
      second: documents come out in file order. */
  lemma {:induction false} RulesOfAppend(a: seq<string>, b: seq<string>)
    ensures RulesOf(a + b) == RulesOf(a) + RulesOf(b)
    decreases |b|
  {
    if b == [] {
      assert a + b == a;
    } else {
      var b', x := b[..|b| - 1], b[|b| - 1];
      assert (a + b)[..|a + b| - 1] == a + b';
      assert RulesOf(a + b) == RulesOf(a + b') + LineDocs(x);
      RulesOfAppend(a, b');
      assert RulesOf(b) == RulesOf(b') + LineDocs(x);
    }
  }

  /** Each line yields at most one document, and a blank line yields none. */
  lemma {:induction false} RulesOfCount(lines: seq<string>)
    ensures |RulesOf(lines)| <= |lines|
    ensures (forall i :: 0 <= i < |lines| ==> Strip(lines[i]) == []) ==> RulesOf(lines) == []
    decreases |lines|
  {
    if lines != [] {
      var init := lines[..|lines| - 1];
      RulesOfCount(init);
      assert forall i :: 0 <= i < |init| ==> init[i] == lines[i];
    }
  }

  /** A rule document: its id is "CR:" and the rule id, which is a rule identifier (digits and
      at least one dot); its text is the rule id, a space and the body; its source is the
      comprehensive rules. */
  predicate WellFormedRuleDoc(d: Doc) {
    && d.RuleDoc?
    && IsRuleId(d.ruleId)
    && d.id == "CR:" + d.ruleId
    && StartsWith(d.text, d.ruleId + " ")
    && d.source == RulesSource
  }

  /** Every document load_rules returns is a well-formed rule document. */
  lemma {:induction false} RulesOfWellFormed(lines: seq<string>)
    ensures forall d :: d in RulesOf(lines) ==> WellFormedRuleDoc(d)
    decreases |lines|
  {
    if lines != [] {
      RulesOfWellFormed(lines[..|lines| - 1]);
      LineDocsWellFormed(lines[|lines| - 1]);
    }
  }

  /** The document a line yields, if any, is a well-formed rule document. */
  lemma LineDocsWellFormed(line: string)
    ensures forall d :: d in LineDocs(line) ==> WellFormedRuleDoc(d)
  {
    LineDocsOfMatch(line);
    var stripped := Strip(line);
    if MatchRuleLine(stripped).Some? {
      var m := MatchRuleLine(stripped).value;
      MatchedIdIsRuleId(stripped);
      RuleDocWellFormed(m.ruleId, m.body);
    }
  }

  /** The id a matched line yields is a rule identifier. */
  lemma MatchedIdIsRuleId(line: string)
    requires MatchRuleLine(line).Some?
    ensures IsRuleId(MatchRuleLine(line).value.ruleId)
  {
    MatchRuleLineAfterId(line);
    ScannedIdIsRuleId(line);
  }

  /** The document built from a rule identifier and a body is well formed. */
  lemma RuleDocWellFormed(ruleId: string, body: string)
    requires IsRuleId(ruleId)
    ensures WellFormedRuleDoc(RuleDoc("CR:" + ruleId, ruleId + " " + body, ruleId, RulesSource))
  {
    assert (ruleId + " " + body)[..|ruleId + " "|] == ruleId + " ";
  }

  /** The document of a line is decided by the match on the stripped line alone: a blank
      line never matches. */
  lemma LineDocsOfMatch(line: string)
    ensures LineDocs(line) ==
      match MatchRuleLine(Strip(line))
      case None => []
      case Some(m) => [RuleDoc("CR:" + m.ruleId, m.ruleId + " " + m.body, m.ruleId, RulesSource)]
  {
    assert DigitRun([], 0) == 0;
  }

  /** A line yields a document exactly when, once stripped, it reads as the rule pattern; the
      document then carries the id and the body of that reading (with the whitespace run taken
      greedily, so the body does not start with whitespace). */
  lemma LineDocsIff(line: string)
    ensures LineDocs(line) != [] <==> exists ruleId, ws, body :: PatternReading(Strip(line), ruleId, ws, body)
    ensures forall ruleId, ws, body ::
      PatternReading(Strip(line), ruleId, ws, body) && (body == [] || !IsSpace(body[0])) ==>
        LineDocs(line) == [RuleDoc("CR:" + ruleId, ruleId + " " + body, ruleId, RulesSource)]
  {
    var stripped := Strip(line);
    LineDocsOfMatch(line);
    if MatchRuleLine(stripped).Some? {
      MatchRuleLineSound(stripped);
    }
    forall ruleId, ws, body | PatternReading(stripped, ruleId, ws, body)
      ensures MatchRuleLine(stripped).Some?
      ensures body == [] || !IsSpace(body[0]) ==> MatchRuleLine(stripped) == Some(RuleMatch(ruleId, body))
    {
      MatchRuleLineComplete(stripped, ruleId, ws, body);
    }
  }

  /** The scans over "603.1a x": three digits, then one group ".1" that stops at the letter. */
  lemma ScanLettered()
    ensures DigitRun("603.1a x", 0) == 3 && GroupsEnd("603.1a x", 3) == 5
  {
    var s := "603.1a x";
    assert DigitRun(s, 3) == 0;
    assert DigitRun(s, 5) == 0;
    assert DigitRun(s, 4) == 1;
    assert GroupsEnd(s, 5) == 5;
  }

  /** A lettered sub-rule id is not recognised: the id scan stops before the letter, and no
      whitespace follows it. */
  lemma LetteredRuleIdRejected()
    ensures MatchRuleLine("603.1a x") == None
  {
    var s := "603.1a x";
    ScanLettered();
    assert s[5..][0] == 'a';
  }

  /** The scans over "100.1. x": three digits, then one group ".1" that stops at the final dot
      because no digit follows it. */
  lemma ScanTrailingDot()
    ensures DigitRun("100.1. x", 0) == 3 && GroupsEnd("100.1. x", 3) == 5
  {
    var s := "100.1. x";
    assert DigitRun(s, 3) == 0;
    assert DigitRun(s, 5) == 0;
    assert DigitRun(s, 4) == 1;
    assert GroupsEnd(s, 5) == 5;
  }

  /** A rule id written with a final dot ("100.1.") is not recognised: the group scan stops
      before that dot, and a dot is not whitespace. */
  lemma TrailingDotRuleIdRejected()
    ensures MatchRuleLine("100.1. x") == None
  {
    var s := "100.1. x";
    ScanTrailingDot();
    assert s[5..][0] == '.';
  }

  // ================================================================ card documents

  /** One ruling of a card; its "text" key may be absent. */
  datatype Ruling = Ruling(text: Option<string>)

  /** One card record of the card database, each key present or absent. */
  datatype CardRecord = CardRecord(
    name: Option<string>, originalText: Option<string>, uuid: Option<string>,
    manaCost: Option<string>, types: Option<seq<string>>, subtypes: Option<seq<string>>,
    keywords: Option<seq<string>>, rarity: Option<string>, rulings: Option<seq<Ruling>>)

  /** Python's dict.get(key, default) for the modelled record fields. */
  function Get<T>(o: Option<T>, default: T): T {
    match o
    case Some(v) => v
    case None => default
  }

  /** A card is kept when it has a name and a non-empty original text
      (utils/index_utils.py:52). */
  predicate Kept(c: CardRecord) {
    c.name.Some? && c.originalText.Some? && c.originalText.value != []
  }

  /** The texts of the rulings that have one, in order. */
  function RulingTexts(rulings: seq<Ruling>): (texts: seq<string>)
    ensures |texts| <= |rulings|
  {
    if rulings == [] then []
    else
      var init := RulingTexts(rulings[..|rulings| - 1]);
      match rulings[|rulings| - 1].text
      case Some(t) => init + [t]
      case None => init
  }

  /** The lines of a kept card's searchable text (utils/index_utils.py:56-69): six labelled
      lines, and a seventh with the rulings when the card has any. */
  function CardTextParts(c: CardRecord): seq<string>
    requires Kept(c)
  {
    var rulings := Get(c.rulings, []);
    [ "Name: " + c.name.value,
      "Mana Cost: " + Get(c.manaCost, ""),
      "Types: " + Join(Get(c.types, []), " "),
      "Subtypes: " + Join(Get(c.subtypes, []), " "),
      "Abilities/Keywords: " + Join(Get(c.keywords, []), ", "),
      "Text: " + c.originalText.value ]
    + (if rulings != [] then ["Rulings: " + Join(RulingTexts(rulings), " | ")] else [])
  }

  /** The document of a kept card (utils/index_utils.py:71-83); a card without "uuid" raises
      KeyError. */
  function CardDocOf(c: CardRecord): Result<Doc>
    requires Kept(c)
  {
    match c.uuid
    case None => Err(KeyError("uuid"))
    case Some(uuid) =>
      Ok(CardDoc("CARD:" + uuid, Join(CardTextParts(c), "\n"), CardsSource, c.name.value,
                 Get(c.manaCost, ""), Join(Get(c.types, []), ", "),
                 Join(Get(c.subtypes, []), ", "), Join(Get(c.keywords, []), ", "),
                 Get(c.rarity, "")))
  }

  /** The documents of the cards, in order, or the first error. */
  function CardsOf(cards: seq<CardRecord>): Result<seq<Doc>> {
    if cards == [] then Ok([])
    else
      var c := cards[|cards| - 1];
      match CardsOf(cards[..|cards| - 1])
      case Err(e) => Err(e)
      case Ok(docs) =>
        if !Kept(c) then Ok(docs)
        else
          match CardDocOf(c)
          case Err(e) => Err(e)
          case Ok(d) => Ok(docs + [d])
  }

  /** load_cards(path) (utils/index_utils.py:40-86) on the decoded card list. */
  method LoadCards(cards: seq<CardRecord>) returns (r: Result<seq<Doc>>)
    ensures r == CardsOf(cards)
  {
    var docs: seq<Doc> := [];
    for i := 0 to |cards|
      invariant CardsOf(cards[..i]) == Ok(docs)
    {
      assert cards[..i + 1][..i] == cards[..i];
      var c := cards[i];
      if !Kept(c) {
        continue;
      }
      var d := CardDocOf(c);
      if d.Err? {
        CardsOfErrSticks(cards, i + 1);
        return Err(d.error);
      }
      docs := docs + [d.value];
    }
    assert cards[..|cards|] == cards;
    return Ok(docs);
  }

  /** Once a prefix of the cards fails, every longer prefix fails with the same error. */
  lemma {:induction false} CardsOfErrSticks(cards: seq<CardRecord>, i: nat)
    requires 1 <= i <= |cards| && CardsOf(cards[..i]).Err?
    ensures CardsOf(cards) == CardsOf(cards[..i])
    decreases |cards| - i
  {
    if i < |cards| {
      assert cards[..i + 1][..i] == cards[..i];
      CardsOfErrSticks(cards, i + 1);
    } else {
      assert cards[..i] == cards;
    }
  }

  /** The cards load_cards keeps, in order. */
  function KeptCards(cards: seq<CardRecord>): (kept: seq<CardRecord>)
    ensures forall k :: 0 <= k < |kept| ==> Kept(kept[k])
  {
    if cards == [] then []
    else KeptCards(cards[..|cards| - 1]) + (if Kept(cards[|cards| - 1]) then [cards[|cards| - 1]] else [])
  }

  /** The positions of the cards load_cards keeps, in increasing order. */
  function KeptIndices(cards: seq<CardRecord>): seq<nat> {
    if cards == [] then []
    else KeptIndices(cards[..|cards| - 1]) + (if Kept(cards[|cards| - 1]) then [|cards| - 1] else [])
  }

  /** load_cards keeps exactly the cards that pass the test of utils/index_utils.py:52, in
      input order: the kept cards are the cards at the increasing positions where the test
      holds, and a position is among them iff its card passes. */
  lemma {:induction false} KeptCardsSpec(cards: seq<CardRecord>)
    ensures var idx, kept := KeptIndices(cards), KeptCards(cards);
      && |kept| == |idx|
      && (forall k :: 0 <= k < |idx| ==> idx[k] < |cards| && kept[k] == cards[idx[k]])
      && (forall k, l :: 0 <= k < l < |idx| ==> idx[k] < idx[l])
      && (forall i :: 0 <= i < |cards| ==> (i in idx <==> Kept(cards[i])))
    decreases |cards|
  {
    if cards != [] {
      var init := cards[..|cards| - 1];
      KeptCardsSpec(init);
      assert forall i :: 0 <= i < |init| ==> init[i] == cards[i];
    }
  }

  /** load_cards succeeds exactly when every kept card has a uuid; it then returns one
      document per kept card, in order, with id "CARD:" and the uuid, the card's name, and
      the card database as source. Otherwise it raises KeyError on "uuid". */
  lemma {:induction false} CardsOfSpec(cards: seq<CardRecord>)
    ensures var kept := KeptCards(cards);
      match CardsOf(cards)
      case Err(e) => e == KeyError("uuid") && exists k :: 0 <= k < |kept| && kept[k].uuid.None?
      case Ok(docs) =>
        && (forall k :: 0 <= k < |kept| ==> kept[k].uuid.Some?)
        && |docs| == |kept|
        && forall k :: 0 <= k < |docs| ==>
             && docs[k].CardDoc?
             && docs[k].id == "CARD:" + kept[k].uuid.value
             && docs[k].cardName == kept[k].name.value
             && docs[k].source == CardsSource
             && docs[k].text == Join(CardTextParts(kept[k]), "\n")
    decreases |cards|
  {
    if cards != [] {
      var init := cards[..|cards| - 1];
      var c := cards[|cards| - 1];
      CardsOfSpec(init);
      var kept := KeptCards(cards);
      var kept' := KeptCards(init);
      assert forall k :: 0 <= k < |kept'| ==> kept[k] == kept'[k];
      if Kept(c) {
        assert kept[|kept| - 1] == c;
      }
    }
  }

  /** A kept card's text has one line per part when no field carries a line break; the
      first line is its name, and there is a rulings line exactly when it has rulings. */
  lemma CardTextLines(c: CardRecord)
    requires Kept(c)
    requires forall k :: 0 <= k < |CardTextParts(c)| ==> '\n' !in CardTextParts(c)[k]
    ensures var lines := Split(Join(CardTextParts(c), "\n"), '\n');
      && lines == CardTextParts(c)
      && lines[0] == "Name: " + c.name.value
      && lines[5] == "Text: " + c.originalText.value
      && (|lines| == 7 <==> Get(c.rulings, []) != [])
      && (|lines| == 7 ==> lines[6] == "Rulings: " + Join(RulingTexts(Get(c.rulings, [])), " | "))
  {
    SplitJoin(CardTextParts(c), '\n');
  }

  /** The rulings line keeps the order of the rulings: the texts of two runs of rulings are
      those of the first run followed by those of the second. */
  lemma {:induction false} RulingTextsAppend(a: seq<Ruling>, b: seq<Ruling>)
    ensures RulingTexts(a + b) == RulingTexts(a) + RulingTexts(b)
    decreases |b|
  {
    if b == [] {
      assert a + b == a;
    } else {
      assert (a + b)[..|a + b| - 1] == a + b[..|b| - 1];
      RulingTextsAppend(a, b[..|b| - 1]);
    }
  }

  /** One ruling contributes its text, once, when it has one, and nothing otherwise; with
      RulingTextsAppend this fixes the rulings line text by text, in ruling order. */
  lemma RulingTextsOne(r: Ruling)
    ensures RulingTexts([r]) == if r.text.Some? then [r.text.value] else []
  {
    assert [r][..0] == [];
  }

  /** The rulings line holds one text per ruling that has one. */
  lemma {:induction false} RulingTextsCount(rulings: seq<Ruling>)
    ensures |RulingTexts(rulings)| == |set k | 0 <= k < |rulings| && rulings[k].text.Some?|
    decreases |rulings|
  {
    if rulings != [] {
      var init := rulings[..|rulings| - 1];
      RulingTextsCount(init);
      var n := |rulings| - 1;
      var all := set k | 0 <= k < |rulings| && rulings[k].text.Some?;
      var before := set k | 0 <= k < |init| && init[k].text.Some?;
      if rulings[n].text.Some? {
        assert all == before + {n};
      } else {
        assert all == before;
      }
    }
  }

  /** A text is in the Rulings line exactly when some ruling carries it. */
  lemma {:induction false} RulingTextsMembers(rulings: seq<Ruling>)
    ensures forall t :: t in RulingTexts(rulings) <==>
      exists k :: 0 <= k < |rulings| && rulings[k].text == Some(t)
    decreases |rulings|
  {
    if rulings != [] {
      var init := rulings[..|rulings| - 1];
      RulingTextsMembers(init);
      assert forall k :: 0 <= k < |init| ==> init[k] == rulings[k];
    }
  }


  // ================================================================ index assembly

  /** One chunk sent to the vector store: its id, its text and its metadata. */
  datatype Entry = Entry(id: string, text: string, meta: Doc)

  /** The id of the chunk with the given ordinal within a document (f"{d['id']}_{i}"). */
  function ChunkId(docId: string, ordinal: nat): string {
    docId + "_" + NatToString(ordinal)
  }

  /** The entries of one document with the given chunks: one per chunk, numbered from 0. */
  function DocEntries(d: Doc, chunks: seq<string>): (entries: seq<Entry>)
    ensures |entries| == |chunks|
    ensures forall i :: 0 <= i < |entries| ==> entries[i] == Entry(ChunkId(d.id, i), chunks[i], d)
  {
    seq(|chunks|, i requires 0 <= i < |chunks| => Entry(ChunkId(d.id, i), chunks[i], d))
  }

  /** chunk_text with its budget fixed, as the chunker build_index applies to each text. */
  function Chunker(chunkSize: int): string -> seq<string> {
    t => Chunks(t, chunkSize)
  }

  /** The entries of all documents, document by document, each chunked by chunk. */
  function Entries(docs: seq<Doc>, chunk: string -> seq<string>): seq<Entry> {
    if docs == [] then []
    else
      var d := docs[|docs| - 1];
      Entries(docs[..|docs| - 1], chunk) + DocEntries(d, chunk(d.text))
  }

  /** The three parallel lists passed to collection.add. */
  datatype IndexBatch = IndexBatch(ids: seq<string>, texts: seq<string>, metas: seq<Doc>)

  /** The lists hold, position by position, the id, text and metadata of the entries. */
  predicate Lists(ids: seq<string>, texts: seq<string>, metas: seq<Doc>, entries: seq<Entry>) {
    && |ids| == |entries| && |texts| == |entries| && |metas| == |entries|
    && forall k :: 0 <= k < |entries| ==>
         ids[k] == entries[k].id && texts[k] == entries[k].text && metas[k] == entries[k].meta
  }

  /** Appending one entry's id, text and metadata to the lists keeps them parallel. */
  lemma ListsAppend(ids: seq<string>, texts: seq<string>, metas: seq<Doc>, entries: seq<Entry>, e: Entry)
    requires Lists(ids, texts, metas, entries)
    ensures Lists(ids + [e.id], texts + [e.text], metas + [e.meta], entries + [e])
  {
  }

  /** The inner loop of build_index (utils/index_utils.py:129-132): one id, text and
      metadata per chunk of the document, the ids numbered from 0. */
  method AppendChunks(ids: seq<string>, texts: seq<string>, metas: seq<Doc>, d: Doc, chunks: seq<string>,
                      ghost entries: seq<Entry>)
    returns (ids': seq<string>, texts': seq<string>, metas': seq<Doc>)
    requires Lists(ids, texts, metas, entries)
    ensures Lists(ids', texts', metas', entries + DocEntries(d, chunks))
  {
    ids', texts', metas' := ids, texts, metas;
    ghost var mine := DocEntries(d, chunks);
    for i := 0 to |chunks|
      invariant Lists(ids', texts', metas', entries + mine[..i])
    {
      ListsAppend(ids', texts', metas', entries + mine[..i], mine[i]);
      texts' := texts' + [chunks[i]];
      metas' := metas' + [d];
      ids' := ids' + [d.id + "_" + NatToString(i)];
      assert mine[..i + 1] == mine[..i] + [mine[i]];
      assert entries + mine[..i] + [mine[i]] == entries + mine[..i + 1];
    }
    assert mine[..|chunks|] == mine;
  }

  /** The list assembly of build_index (utils/index_utils.py:125-135): every chunk of every
      document, in order; ValueError when there is none. */
  method AssembleIndex(docs: seq<Doc>, chunkSize: int) returns (r: Result<IndexBatch>)
    ensures r.Err? <==> Entries(docs, Chunker(chunkSize)) == []
    ensures r.Err? ==> r.error == ValueError("No valid chunks found to embed.")
    ensures r.Ok? ==> Lists(r.value.ids, r.value.texts, r.value.metas, Entries(docs, Chunker(chunkSize)))
  {
    var texts: seq<string>, metas: seq<Doc>, ids: seq<string> := [], [], [];
    for j := 0 to |docs|
      invariant Lists(ids, texts, metas, Entries(docs[..j], Chunker(chunkSize)))
    {
      var d := docs[j];
      var chunks := ChunkText(d.text, chunkSize);
      ghost var before := Entries(docs[..j], Chunker(chunkSize));
      ids, texts, metas := AppendChunks(ids, texts, metas, d, chunks, before);
      EntriesSnoc(docs, j, Chunker(chunkSize));
      assert Chunker(chunkSize)(d.text) == chunks;
    }
    assert docs[..|docs|] == docs;
    if texts == [] {
      return Err(ValueError("No valid chunks found to embed."));
    }
    return Ok(IndexBatch(ids, texts, metas));
  }

  /** build_index (utils/index_utils.py:111-135) up to the embedding call: the rule documents
      of the rules file, chunked and listed. The card documents are not part of the index
      (utils/index_utils.py:118-123). */
  method BuildIndex(lines: seq<string>, chunkSize: int) returns (r: Result<IndexBatch>)
    ensures r.Err? <==> RulesOf(lines) == []
    ensures r.Err? ==> r.error == ValueError("No valid chunks found to embed.")
    ensures r.Ok? ==> Lists(r.value.ids, r.value.texts, r.value.metas, Entries(RulesOf(lines), Chunker(chunkSize)))
  {
    var rules := LoadRules(lines);
    EntriesEmptyIff(rules, Chunker(chunkSize));
    r := AssembleIndex(rules, chunkSize);
  }

  /** The entries of one more document are those of the documents before it followed by
      its own. */
  lemma EntriesSnoc(docs: seq<Doc>, j: nat, chunk: string -> seq<string>)
    requires j < |docs|
    ensures Entries(docs[..j + 1], chunk) == Entries(docs[..j], chunk) + DocEntries(docs[j], chunk(docs[j].text))
  {
    assert docs[..j + 1][..j] == docs[..j];
  }

  /** The entries of two runs of documents are those of the first followed by those of the
      second. */
  lemma {:induction false} EntriesAppend(a: seq<Doc>, b: seq<Doc>, chunk: string -> seq<string>)
    ensures Entries(a + b, chunk) == Entries(a, chunk) + Entries(b, chunk)
    decreases |b|
  {
    if b == [] {
      assert a + b == a;
    } else {
      assert (a + b)[..|a + b| - 1] == a + b[..|b| - 1];
      EntriesAppend(a, b[..|b| - 1], chunk);
    }
  }

  /** With a chunker that always returns at least one chunk, as chunk_text does, every
      document has a chunk: there is no chunk at all exactly when there is no document. */
  lemma {:induction false} EntriesEmptyIff(docs: seq<Doc>, chunk: string -> seq<string>)
    requires forall t :: |chunk(t)| >= 1
    ensures |Entries(docs, chunk)| >= |docs|
    ensures Entries(docs, chunk) == [] <==> docs == []
    decreases |docs|
  {
    if docs != [] {
      EntriesEmptyIff(docs[..|docs| - 1], chunk);
    }
  }

  /** chunk_text always returns at least one chunk. */
  lemma ChunkerNonEmpty(chunkSize: int)
    ensures forall t :: |Chunker(chunkSize)(t)| >= 1
  {
    forall t ensures |Chunks(t, chunkSize)| >= 1 {
      ChunksKeepWords(t, chunkSize);
    }
  }

  /** The document id a chunk id names: the part before the first underscore. */
  function DocIdOf(chunkId: string): string {
    Split(chunkId, '_')[0]
  }

  /** A chunk id of an underscore-free document id splits at its one underscore into the
      document id and the ordinal's digits. */
  lemma ChunkIdParts(x: string, m: nat)
    requires '_' !in x
    ensures Split(ChunkId(x, m), '_') == [x, NatToString(m)]
  {
    var n := NatToString(m);
    assert '_' !in n by {
      assert forall i :: 0 <= i < |n| ==> IsDigit(n[i]);
    }
    assert ChunkId(x, m) == x + ['_'] + n;
    SplitAround(x, '_', n);
    assert IndexOf(x, '_') == |x|;
    assert IndexOf(n, '_') == |n|;
  }

  /** Two chunk ids of underscore-free document ids are equal only for the same document id
      and the same ordinal. */
  lemma ChunkIdInjective(x: string, m: nat, y: string, n: nat)
    requires '_' !in x && '_' !in y
    requires ChunkId(x, m) == ChunkId(y, n)
    ensures x == y && m == n
  {
    ChunkIdParts(x, m);
    ChunkIdParts(y, n);
    assert [x, NatToString(m)][1] == [y, NatToString(n)][1];
    NatToStringInjective(m, n);
  }

  /** Every entry's metadata is one of the documents, and its id names that document. */
  lemma {:induction false} EntriesOwner(docs: seq<Doc>, chunk: string -> seq<string>)
    requires forall k :: 0 <= k < |docs| ==> '_' !in docs[k].id
    ensures forall i :: 0 <= i < |Entries(docs, chunk)| ==>
      Entries(docs, chunk)[i].meta in docs && DocIdOf(Entries(docs, chunk)[i].id) == Entries(docs, chunk)[i].meta.id
    decreases |docs|
  {
    if docs != [] {
      var init, d := docs[..|docs| - 1], docs[|docs| - 1];
      EntriesOwner(init, chunk);
      var a := Entries(init, chunk);
      var mine := DocEntries(d, chunk(d.text));
      forall i | 0 <= i < |mine| ensures DocIdOf(mine[i].id) == d.id {
        ChunkIdParts(d.id, i);
      }
      var es := a + mine;
      assert Entries(docs, chunk) == es;
      forall i | 0 <= i < |es| ensures es[i].meta in docs && DocIdOf(es[i].id) == es[i].meta.id {
        assert docs == init + [d];
        if i < |a| {
          assert es[i] == a[i];
          assert a[i].meta in init;
        } else {
          assert es[i] == mine[i - |a|];
        }
      }
    }
  }

  /** Entry ids are unique when the document ids are pairwise distinct and contain no
      underscore: the part before the underscore names the document, the digits after it the
      chunk. */
  lemma {:induction false} EntryIdsUnique(docs: seq<Doc>, chunk: string -> seq<string>)
    requires forall i, j :: 0 <= i < j < |docs| ==> docs[i].id != docs[j].id
    requires forall k :: 0 <= k < |docs| ==> '_' !in docs[k].id
    ensures forall i, j :: 0 <= i < j < |Entries(docs, chunk)| ==>
      Entries(docs, chunk)[i].id != Entries(docs, chunk)[j].id
    decreases |docs|
  {
    if docs != [] {
      var init, d := docs[..|docs| - 1], docs[|docs| - 1];
      EntryIdsUnique(init, chunk);
      EntriesOwner(init, chunk);
      var a := Entries(init, chunk);
      var mine := DocEntries(d, chunk(d.text));
      var es := a + mine;
      assert Entries(docs, chunk) == es;
      forall i, j | 0 <= i < j < |es| ensures es[i].id != es[j].id {
        if j < |a| {
          assert es[i] == a[i] && es[j] == a[j];
        } else if i >= |a| {
          assert es[i] == mine[i - |a|] && es[j] == mine[j - |a|];
          if es[i].id == es[j].id {
            ChunkIdInjective(d.id, i - |a|, d.id, j - |a|);
          }
        } else {
          assert es[i] == a[i] && es[j] == mine[j - |a|];
          ChunkIdParts(d.id, j - |a|);
          var k :| 0 <= k < |init| && init[k] == a[i].meta;
          assert docs[k] == init[k];
        }
      }
    }
  }
  /** A rule document's id, "CR:" and a rule identifier, holds no underscore. */
  lemma RuleDocIdNoUnderscore(d: Doc)
    requires WellFormedRuleDoc(d)
    ensures '_' !in d.id
  {
    assert d.id == "CR:" + d.ruleId;
    forall k | 0 <= k < |d.id| ensures d.id[k] != '_' {
      if k >= 3 {
        assert d.id[k] == d.ruleId[k - 3];
      }
    }
  }

  /** The chunk ids build_index sends to the store are unique whenever no two documents of
      the rules file share an id, that is, a rule identifier. */
  lemma RuleEntryIdsUnique(lines: seq<string>, chunkSize: int)
    requires forall i, j :: 0 <= i < j < |RulesOf(lines)| ==> RulesOf(lines)[i].id != RulesOf(lines)[j].id
    ensures var entries := Entries(RulesOf(lines), Chunker(chunkSize));
      forall i, j :: 0 <= i < j < |entries| ==> entries[i].id != entries[j].id
  {
    var docs := RulesOf(lines);
    RulesOfWellFormed(lines);
    forall k | 0 <= k < |docs| ensures '_' !in docs[k].id {
      assert docs[k] in docs;
      RuleDocIdNoUnderscore(docs[k]);
    }
    EntryIdsUnique(docs, Chunker(chunkSize));
  }

  /** The first chunk of the k-th document sits right after the entries of the documents
      before it. */
  lemma EntriesFirstChunk(docs: seq<Doc>, chunk: string -> seq<string>, k: nat)
    requires k < |docs| && |chunk(docs[k].text)| >= 1
    ensures var before := |Entries(docs[..k], chunk)|;
      before < |Entries(docs, chunk)| && Entries(docs, chunk)[before].id == ChunkId(docs[k].id, 0)
  {
    assert docs == docs[..k + 1] + docs[k + 1..];
    EntriesAppend(docs[..k + 1], docs[k + 1..], chunk);
    EntriesSnoc(docs, k, chunk);
  }

  /** A later document has more entries before it than an earlier one has, when the earlier
      one has a chunk. */
  lemma EntriesBeforeGrow(docs: seq<Doc>, chunk: string -> seq<string>, i: nat, j: nat)
    requires i < j <= |docs| && |chunk(docs[i].text)| >= 1
    ensures |Entries(docs[..i], chunk)| < |Entries(docs[..j], chunk)|
  {
    assert docs[..j] == docs[..i + 1] + docs[i + 1..j];
    EntriesAppend(docs[..i + 1], docs[i + 1..j], chunk);
    EntriesSnoc(docs, i, chunk);
  }

  /** Two documents with the same id give two entries with the same id: their first
      chunks, when the chunker always returns one. */
  lemma EntryIdsCollide(docs: seq<Doc>, chunk: string -> seq<string>, i: nat, j: nat)
    requires forall t :: |chunk(t)| >= 1
    requires i < j < |docs| && docs[i].id == docs[j].id
    ensures exists p, q :: 0 <= p < q < |Entries(docs, chunk)| && Entries(docs, chunk)[p].id == Entries(docs, chunk)[q].id
  {
    EntriesFirstChunk(docs, chunk, i);
    EntriesFirstChunk(docs, chunk, j);
    EntriesBeforeGrow(docs, chunk, i, j);
    var p, q := |Entries(docs[..i], chunk)|, |Entries(docs[..j], chunk)|;
    assert Entries(docs, chunk)[p].id == Entries(docs, chunk)[q].id;
  }

  /** Conversely, two rule lines with the same rule identifier make build_index send the
      same chunk id twice. */
  lemma RuleEntryIdsCollide(lines: seq<string>, chunkSize: int, i: nat, j: nat)
    requires i < j < |RulesOf(lines)| && RulesOf(lines)[i].id == RulesOf(lines)[j].id
    ensures var entries := Entries(RulesOf(lines), Chunker(chunkSize));
      exists p, q :: 0 <= p < q < |entries| && entries[p].id == entries[q].id
  {
    ChunkerNonEmpty(chunkSize);
    EntryIdsCollide(RulesOf(lines), Chunker(chunkSize), i, j);
  }
}
