/** The query side of the retrieval pipeline (utils/model_utils.py): searching the vector store,
    splitting a question into subqueries, decoding the judge's JSON, building the context from
    retrieval hits, and the two-judge decision with at most one refinement round.

    The embedding service, the vector store, the chat model and json.loads are external: they
    are parameters here (a store that answers a query string and a hit count, a chat model
    that answers a request, a partial JSON decoder). The prompt wording is not modelled; a
    chat request records the data that goes into its messages. */
module ModelUtils {
  import opened Outcomes
  import opened Text
  import opened Json
  import opened Seqs

  // ================================================================ search_index

  /** Chroma metadata: string keys to string values. */
  type Metadata = map<string, string>

  /** What the store returns for one query embedding: documents[0] and metadatas[0]. */
  datatype QueryResult = QueryResult(documents: seq<string>, metadatas: seq<Metadata>)

  /** Embed the query and ask the store for its top_k nearest chunks. */
  type Store = (string, int) -> QueryResult

  /** One {"text": ..., "meta": ...} item of search_index's result. */
  datatype Hit = Hit(text: string, meta: Metadata)

  const EmptyQuery := "Empty query provided."

  /** documents[0][i] paired with metadatas[0][i], for each returned document in order. */
  function Paired(documents: seq<string>, metadatas: seq<Metadata>): seq<Hit>
    requires |documents| <= |metadatas|
  {
    if documents == [] then []
    else Paired(documents[..|documents| - 1], metadatas) + [Hit(documents[|documents| - 1], metadatas[|documents| - 1])]
  }

  /** search_index(query, top_k) (utils/model_utils.py:12-33) as a value: a blank query is a
      ValueError; a document without metadata at its position is an IndexError. */
  function Search(store: Store, query: string, topK: int): Result<seq<Hit>> {
    var q := Strip(query);
    if q == [] then Err(ValueError(EmptyQuery))
    else
      var res := store(q, topK);
      if |res.metadatas| < |res.documents| then Err(IndexError)
      else Ok(Paired(res.documents, res.metadatas))
  }

  /** search_index(query, top_k) (utils/model_utils.py:12-33). */
  method SearchIndex(store: Store, query: string, topK: int) returns (r: Result<seq<Hit>>)
    ensures r == Search(store, query, topK)
  {
    var q := Strip(query);
    if q == [] {
      return Err(ValueError(EmptyQuery));
    }
    var results := store(q, topK);
    var docs: seq<Hit> := [];
    for i := 0 to |results.documents|
      invariant i <= |results.metadatas| ==> docs == Paired(results.documents[..i], results.metadatas)
      invariant i > |results.metadatas| ==> false
    {
      if i >= |results.metadatas| {
        return Err(IndexError);
      }
      assert results.documents[..i + 1][..i] == results.documents[..i];
      docs := docs + [Hit(results.documents[i], results.metadatas[i])];
    }
    assert results.documents[..|results.documents|] == results.documents;
    r := Ok(docs);
  }

  /** search_index strips the query and rejects it when nothing is left; otherwise it returns
      one hit per returned document, the i-th document with the i-th metadata, queried with
      the stripped query. */
  lemma {:induction false} SearchSpec(store: Store, query: string, topK: int)
    ensures Search(store, query, topK) == Err(ValueError(EmptyQuery)) <==> Strip(query) == []
    ensures Search(store, query, topK).Ok? ==>
      var res := store(Strip(query), topK);
      var hits := Search(store, query, topK).value;
      && |hits| == |res.documents|
      && forall i :: 0 <= i < |hits| ==> hits[i] == Hit(res.documents[i], res.metadatas[i])
  {
    if Strip(query) != [] {
      var res := store(Strip(query), topK);
      if |res.documents| <= |res.metadatas| {
        PairedSpec(res.documents, res.metadatas);
      }
    }
  }

  /** Pairing keeps the documents' order and count. */
  lemma {:induction false} PairedSpec(documents: seq<string>, metadatas: seq<Metadata>)
    requires |documents| <= |metadatas|
    ensures |Paired(documents, metadatas)| == |documents|
    ensures forall i :: 0 <= i < |documents| ==>
      Paired(documents, metadatas)[i] == Hit(documents[i], metadatas[i])
    decreases |documents|
  {
    if documents != [] {
      var init := documents[..|documents| - 1];
      PairedSpec(init, metadatas);
      assert forall i :: 0 <= i < |init| ==> init[i] == documents[i];
    }
  }

  // ================================================================ generate_subqueries

  /** The characters line.strip("0123456789. ") removes from both ends. */
  predicate IsListChar(c: char) {
    IsDigit(c) || c == '.' || c == ' '
  }

  /** The subquery a reply line gives: none for a blank line, else the line stripped of list
      characters at both ends (utils/model_utils.py:55). */
  function SubqueryOf(line: string): Option<string> {
    if Strip(line) == [] then None else Some(StripBy(line, IsListChar))
  }

  /** The values f gives, in order, skipping the elements it gives none for. */
  function Collect<T, U>(xs: seq<T>, f: T -> Option<U>): seq<U> {
    if xs == [] then []
    else
      var y := f(xs[|xs| - 1]);
      Collect(xs[..|xs| - 1], f) + (if y.Some? then [y.value] else [])
  }

  /** The subqueries of some reply lines: one per line that is not blank. */
  function SubqueryLines(lines: seq<string>): seq<string> {
    Collect(lines, SubqueryOf)
  }

  /** The subqueries generate_subqueries extracts from the model's reply. There is no bound:
      the number n asked for only goes into the prompt. */
  function ParseSubqueries(reply: string): seq<string> {
    SubqueryLines(SplitLines(reply))
  }

  /** Collecting two runs gives the values of the first followed by those of the second. */
  lemma {:induction false} CollectAppend<T, U>(a: seq<T>, b: seq<T>, f: T -> Option<U>)
    ensures Collect(a + b, f) == Collect(a, f) + Collect(b, f)
    decreases |b|
  {
    if b == [] {
      assert a + b == a;
    } else {
      assert (a + b)[..|a + b| - 1] == a + b[..|b| - 1];
      CollectAppend(a, b[..|b| - 1], f);
    }
  }

  /** There is at most one value per element, and exactly one each when f gives a value for
      every element. */
  lemma {:induction false} CollectLength<T, U>(xs: seq<T>, f: T -> Option<U>)
    ensures |Collect(xs, f)| <= |xs|
    ensures (forall i :: 0 <= i < |xs| ==> f(xs[i]).Some?) ==> |Collect(xs, f)| == |xs|
    decreases |xs|
  {
    if xs != [] {
      var init := xs[..|xs| - 1];
      CollectLength(init, f);
      assert forall i :: 0 <= i < |init| ==> init[i] == xs[i];
    }
  }

  /** The values collected are exactly those f gives for some element. */
  lemma {:induction false} CollectMembers<T, U>(xs: seq<T>, f: T -> Option<U>)
    ensures forall y :: y in Collect(xs, f) <==> exists i :: 0 <= i < |xs| && f(xs[i]) == Some(y)
    decreases |xs|
  {
    if xs != [] {
      var init := xs[..|xs| - 1];
      CollectMembers(init, f);
      assert forall i :: 0 <= i < |init| ==> init[i] == xs[i];
    }
  }

  /** Lines are read in order: the subqueries of two runs of lines are those of the first
      followed by those of the second. */
  lemma SubqueryLinesAppend(a: seq<string>, b: seq<string>)
    ensures SubqueryLines(a + b) == SubqueryLines(a) + SubqueryLines(b)
  {
    CollectAppend(a, b, SubqueryOf);
  }

  /** There are never more subqueries than lines, and one per line when no line is blank. */
  lemma SubqueryLinesCount(lines: seq<string>)
    ensures |SubqueryLines(lines)| <= |lines|
    ensures (forall i :: 0 <= i < |lines| ==> Strip(lines[i]) != []) ==> |SubqueryLines(lines)| == |lines|
  {
    CollectLength(lines, SubqueryOf);
  }

  /** A subquery is exactly what stripping list characters leaves of some non-blank line. */
  lemma SubqueryLinesMembers(lines: seq<string>)
    ensures forall q :: q in SubqueryLines(lines) <==>
      exists i :: 0 <= i < |lines| && Strip(lines[i]) != [] && q == StripBy(lines[i], IsListChar)
  {
    CollectMembers(lines, SubqueryOf);
  }

  /** A line made only of digits, dots and spaces but not blank, such as "3.", yields the
      empty subquery, which search_index then rejects. */
  lemma BareNumberSubqueryRejected(store: Store, line: string, topK: int)
    requires Strip(line) != []
    requires forall i :: 0 <= i < |line| ==> IsListChar(line[i])
    ensures SubqueryLines([line]) == [""]
    ensures Search(store, SubqueryLines([line])[0], topK) == Err(ValueError(EmptyQuery))
  {
    assert LeadingCount(line, IsListChar) == |line|;
    assert SubqueryOf(line) == Some("");
    assert [line][..0] == [];
    assert SubqueryLines([line]) == Collect([], SubqueryOf) + [""];
    assert Strip("") == "";
  }

  // ================================================================ safe_json_parse

  /** The fence stripping of safe_json_parse (utils/model_utils.py:61-69): on the stripped
      text, when it starts with ```, drop the first line, and then, when what is left ends
      with ``` once stripped, drop the last line of that stripped rest. */
  function FenceStrip(text: string): string {
    var fixed := Strip(text);
    if !StartsWith(fixed, "```") then fixed
    else
      var rest := DropFirstLine(fixed);
      if EndsWith(Strip(rest), "```") then DropLastLine(Strip(rest)) else rest
  }

  /** {"error": "Failed to parse JSON", "raw": text}. */
  function ParseFailure(raw: string): Value {
    Obj(map["error" := Str("Failed to parse JSON"), "raw" := Str(raw)])
  }

  /** safe_json_parse(text) (utils/model_utils.py:59-75): the decoded value, or the failure
      object carrying the original text; it never raises. */
  function SafeJsonParse(decode: string -> Option<Value>, text: string): Value {
    match decode(FenceStrip(text))
    case Some(v) => v
    case None => ParseFailure(text)
  }

  /** A fenced reply: optional surrounding whitespace, an opening fence with a language tag,
      the body on its own lines, and a closing fence. */
  function Fenced(left: string, lang: string, body: string, right: string): string {
    left + "```" + lang + "\n" + body + "\n```" + right
  }

  /** Fence stripping recovers the body of a fenced reply whose body does not start with
      whitespace, whatever the body contains. */
  lemma FenceStripFenced(left: string, lang: string, body: string, right: string)
    requires forall i :: 0 <= i < |left| ==> IsSpace(left[i])
    requires forall i :: 0 <= i < |right| ==> IsSpace(right[i])
    requires '\n' !in lang
    requires body != [] && !IsSpace(body[0])
    ensures FenceStrip(Fenced(left, lang, body, right)) == body
  {
    var rest := body + "\n```";
    var core := "```" + lang + "\n" + rest;
    StripFenced(left, lang, body, right);
    FirstLineOfFence(lang, rest);
    StripClosed(body);
    LastLineOfFence(body);
    FenceStripSteps(Fenced(left, lang, body, right), core, rest, body);
  }

  /** An opening fence that is never closed: the first line is dropped and everything after
      it is kept, last line included, since the rest does not end with a fence once
      stripped. */
  lemma FenceStripUnclosed(left: string, lang: string, body: string)
    requires forall i :: 0 <= i < |left| ==> IsSpace(left[i])
    requires '\n' !in lang
    requires body != [] && !IsSpace(body[|body| - 1])
    requires !EndsWith(Strip(body), "```")
    ensures FenceStrip(left + "```" + lang + "\n" + body) == body
  {
    var core := "```" + lang + "\n" + body;
    assert left + "```" + lang + "\n" + body == left + core + [];
    assert core[0] == '`' && core[|core| - 1] == body[|body| - 1];
    StripByExact(left, core, [], IsSpace);
    FirstLineOfFence(lang, body);
  }

  /** The steps of fence stripping, on a text whose stripped form opens with a fence. */
  lemma FenceStripSteps(text: string, core: string, rest: string, body: string)
    requires Strip(text) == core && StartsWith(core, "```")
    requires DropFirstLine(core) == rest && Strip(rest) == rest && EndsWith(rest, "```")
    requires DropLastLine(rest) == body
    ensures FenceStrip(text) == body
  {
  }

  /** Stripping a fenced reply leaves the fences and what they enclose. */
  lemma StripFenced(left: string, lang: string, body: string, right: string)
    requires forall i :: 0 <= i < |left| ==> IsSpace(left[i])
    requires forall i :: 0 <= i < |right| ==> IsSpace(right[i])
    ensures Strip(Fenced(left, lang, body, right)) == "```" + lang + "\n" + (body + "\n```")
  {
    var core := "```" + lang + "\n" + (body + "\n```");
    assert Fenced(left, lang, body, right) == left + core + right;
    StripByExact(left, core, right, IsSpace);
  }

  /** A body that does not start with whitespace, closed by a fence, is left alone by strip. */
  lemma StripClosed(body: string)
    requires body != [] && !IsSpace(body[0])
    ensures Strip(body + "\n```") == body + "\n```"
    ensures EndsWith(body + "\n```", "```")
  {
    var rest := body + "\n```";
    StripByExact([], rest, [], IsSpace);
    assert [] + rest + [] == rest;
  }

  /** The first newline of an opening fence line ends that line. */
  lemma FirstLineOfFence(lang: string, rest: string)
    requires '\n' !in lang
    ensures StartsWith("```" + lang + "\n" + rest, "```")
    ensures DropFirstLine("```" + lang + "\n" + rest) == rest
  {
    var line := "```" + lang + "\n" + rest;
    assert forall k :: 3 <= k < 3 + |lang| ==> line[k] == lang[k - 3];
    assert line[3 + |lang|] == '\n';
    assert IndexOf(line, '\n') == 3 + |lang|;
    assert line[3 + |lang| + 1..] == rest;
  }

  /** The last line of a body followed by a closing fence is the fence. */
  lemma LastLineOfFence(body: string)
    ensures DropLastLine(body + "\n```") == body
  {
    var s := body + "\n```";
    assert s[|body|] == '\n';
    assert s[|body| + 1..] == "```";
    assert LastNewline(s) == |body|;
    assert s[..|body|] == body;
  }

  /** A text that does not start with a fence once stripped is decoded stripped, unchanged
      otherwise. */
  lemma FenceStripUnfenced(text: string)
    requires !StartsWith(Strip(text), "```")
    ensures FenceStrip(text) == Strip(text)
  {
  }

  /** On a decode failure the reply is reported whole, fences and surrounding whitespace
      included, not the stripped text that was decoded. */
  lemma FencedFailureKeepsRaw(decode: string -> Option<Value>, left: string, lang: string, body: string, right: string)
    requires forall i :: 0 <= i < |left| ==> IsSpace(left[i])
    requires forall i :: 0 <= i < |right| ==> IsSpace(right[i])
    requires '\n' !in lang
    requires body != [] && !IsSpace(body[0])
    requires decode(body) == None
    ensures SafeJsonParse(decode, Fenced(left, lang, body, right)) == ParseFailure(Fenced(left, lang, body, right))
  {
    FenceStripFenced(left, lang, body, right);
  }

  // ================================================================ retrieval

  /** One {"subquery", "source", "text"} entry of all_results / refined_results. */
  datatype Retrieval = Retrieval(subquery: string, source: string, text: string)

  /** r["meta"].get("source", ""). */
  function SourceOf(meta: Metadata): string {
    if "source" in meta then meta["source"] else ""
  }

  /** The entries one subquery contributes: one per hit, in hit order. */
  function HitEntries(subquery: string, hits: seq<Hit>): seq<Retrieval> {
    if hits == [] then []
    else
      var h := hits[|hits| - 1];
      HitEntries(subquery, hits[..|hits| - 1]) + [Retrieval(subquery, SourceOf(h.meta), h.text)]
  }

  /** The entries of one subquery, or the error its search raises. */
  function SubqueryHits(store: Store, sq: string, topK: int): Result<seq<Retrieval>> {
    match Search(store, sq, topK)
    case Err(e) => Err(e)
    case Ok(hits) => Ok(HitEntries(sq, hits))
  }

  /** The accumulated entries after the retrieval loop (utils/model_utils.py:85-93, 187-195),
      or the error of the first subquery whose search raises. */
  function Retrieved(store: Store, subqueries: seq<string>, topK: int): Result<seq<Retrieval>> {
    Gather(subqueries, sq => SubqueryHits(store, sq, topK))
  }

  /** The nested retrieval loops of utils/model_utils.py:85-93 and 187-195. */
  method Retrieve(store: Store, subqueries: seq<string>, topK: int) returns (r: Result<seq<Retrieval>>)
    ensures r == Retrieved(store, subqueries, topK)
  {
    var results: seq<Retrieval> := [];
    for i := 0 to |subqueries|
      invariant Retrieved(store, subqueries[..i], topK) == Ok(results)
    {
      var sq := subqueries[i];
      assert subqueries[..i + 1][..i] == subqueries[..i];
      var hits := SearchIndex(store, sq, topK);
      if hits.Err? {
        GatherErrSticks(subqueries, q => SubqueryHits(store, q, topK), i + 1);
        return Err(hits.error);
      }
      results := AppendHits(results, sq, hits.value);
    }
    assert subqueries[..|subqueries|] == subqueries;
    r := Ok(results);
  }

  /** The inner loop: one entry per hit, appended in order. */
  method AppendHits(results: seq<Retrieval>, sq: string, hits: seq<Hit>) returns (out: seq<Retrieval>)
    ensures out == results + HitEntries(sq, hits)
  {
    out := results;
    for j := 0 to |hits|
      invariant out == results + HitEntries(sq, hits[..j])
    {
      assert hits[..j + 1][..j] == hits[..j];
      out := out + [Retrieval(sq, SourceOf(hits[j].meta), hits[j].text)];
    }
    assert hits[..|hits|] == hits;
  }

  /** Each hit gives one entry that carries its subquery, its text, and its source or "". */
  lemma {:induction false} HitEntriesSpec(sq: string, hits: seq<Hit>)
    ensures |HitEntries(sq, hits)| == |hits|
    ensures forall k :: 0 <= k < |hits| ==>
      HitEntries(sq, hits)[k] == Retrieval(sq, SourceOf(hits[k].meta), hits[k].text)
    decreases |hits|
  {
    if hits != [] {
      var init := hits[..|hits| - 1];
      HitEntriesSpec(sq, init);
      assert forall k :: 0 <= k < |init| ==> init[k] == hits[k];
    }
  }

  /** The entries of a subquery are those of its hits, when its search does not raise. */
  lemma SubqueryHitsSpec(store: Store, sq: string, topK: int)
    ensures SubqueryHits(store, sq, topK).Ok? <==> Search(store, sq, topK).Ok?
    ensures SubqueryHits(store, sq, topK).Ok? ==>
      SubqueryHits(store, sq, topK).value == HitEntries(sq, Search(store, sq, topK).value)
  {
  }

  /** A blank subquery makes the whole retrieval fail. */
  lemma BlankSubqueryFails(store: Store, subqueries: seq<string>, topK: int, i: nat)
    requires i < |subqueries| && Strip(subqueries[i]) == []
    ensures Retrieved(store, subqueries, topK).Err?
  {
    GatherSpec(subqueries, q => SubqueryHits(store, q, topK));
    SubqueryHitsSpec(store, subqueries[i], topK);
  }

  // ================================================================ pruning and context

  /** Python xs[:n]: the first n elements, or all but the last -n when n is negative. */
  function PyPrefix<T>(xs: seq<T>, n: int): seq<T> {
    if n >= 0 then (if n <= |xs| then xs[..n] else xs)
    else (if |xs| + n >= 0 then xs[..|xs| + n] else [])
  }

  /** `if len(results) > max_context_chunks: results = results[:max_context_chunks]`
      (utils/model_utils.py:96-97, 198-199). */
  function Prune(results: seq<Retrieval>, maxChunks: int): seq<Retrieval> {
    if |results| > maxChunks then PyPrefix(results, maxChunks) else results
  }

  /** Pruning keeps the head and drops the tail: for a non-negative cap it keeps the first
      min(len, cap) entries; a negative cap, read as a Python slice bound, drops that many
      entries from the end. */
  lemma PruneSpec(results: seq<Retrieval>, maxChunks: int)
    ensures var p := Prune(results, maxChunks);
      && p == results[..|p|]
      && (maxChunks >= 0 ==> |p| == if |results| <= maxChunks then |results| else maxChunks)
      && (maxChunks < 0 ==> |p| == if |results| + maxChunks >= 0 then |results| + maxChunks else 0)
  {
  }

  /** f"Subquery: {r['subquery']}\n- Source: {r['source']}\n- Text: {r['text']}". */
  function Entry(r: Retrieval): string {
    "Subquery: " + r.subquery + "\n- Source: " + r.source + "\n- Text: " + r.text
  }

  /** The formatted entries, in order. */
  function Entries(results: seq<Retrieval>): (lines: seq<string>)
    ensures |lines| == |results|
    ensures forall k :: 0 <= k < |results| ==> lines[k] == Entry(results[k])
  {
    seq(|results|, k requires 0 <= k < |results| => Entry(results[k]))
  }

  /** The context block: the entries joined with blank lines (utils/model_utils.py:99-102,
      201-204). */
  function Context(results: seq<Retrieval>): string {
    Join(Entries(results), "\n\n")
  }

  /** The context of two runs of entries is the first context, a blank line, and the second:
      it is built entry by entry, in order. */
  lemma ContextAppend(a: seq<Retrieval>, b: seq<Retrieval>)
    requires a != [] && b != []
    ensures Context(a + b) == Context(a) + "\n\n" + Context(b)
  {
    assert Entries(a + b) == Entries(a) + Entries(b);
    JoinConcat(Entries(a), Entries(b), "\n\n");
  }

  /** No entries give an empty context; one entry gives exactly its block. */
  lemma ContextSmall(r: Retrieval)
    ensures Context([]) == ""
    ensures Context([r]) == Entry(r)
  {
    assert Entries([r]) == [Entry(r)];
  }

  // ================================================================ answer_with_subqueries

  /** A chat request, by the data its messages carry.
      Decompose: generate_subqueries on a question, asking for n subqueries.
      Rule: the first judge, with the context in the system prompt and the question as the
      user turn. Review: the second judge on the question, the context and the ruling.
      Refine: the first judge again, with the original system prompt, a user turn, its own
      earlier ruling, and the reviewer's feedback with the refined context. */
  datatype Chat =
    | Decompose(question: string, n: int)
    | Rule(context: string, question: string)
    | Review(question: string, context: string, ruling: string)
    | Refine(context: string, userTurn: string, ruling: string, feedback: string, refinedContext: string)

  /** The external services: the vector store, the chat model's reply to a request, and
      json.loads as a partial function. */
  datatype Services = Services(store: Store, llm: Chat -> string, decode: string -> Option<Value>)

  /** The value answer_with_subqueries returns or the exception it raises, and the chat
      requests it made, in order. */
  datatype Outcome = Outcome(result: Result<Value>, chats: seq<Chat>)

  /** The first pass retrieves top_k = 8 hits per subquery; the refinement 5. */
  const FirstTopK := 8
  const RefineTopK := 5

  /** What the first round produced: its context, the first judge's ruling and the second
      judge's stripped reply. */
  datatype Round = Round(context: string, ruling: string, verdict: string)

  /** generate_subqueries(question, n) (utils/model_utils.py:36-56). */
  function Subqueries(svc: Services, question: string, n: int): seq<string> {
    ParseSubqueries(svc.llm(Decompose(question, n)))
  }

  /** Steps 1-2 and both judges (utils/model_utils.py:82-176): the round, or the error of
      the first retrieval. */
  function FirstRound(svc: Services, query: string, maxChunks: int, maxSubqueries: int): Result<Round> {
    match Retrieved(svc.store, Subqueries(svc, query, maxSubqueries), FirstTopK)
    case Err(e) => Err(e)
    case Ok(results) =>
      var context := Context(Prune(results, maxChunks));
      var ruling := svc.llm(Rule(context, query));
      Ok(Round(context, ruling, Strip(svc.llm(Review(query, context, ruling)))))
  }

  /** The requests of a completed first round. */
  function FirstChats(query: string, maxSubqueries: int, rd: Round): seq<Chat> {
    [Decompose(query, maxSubqueries), Rule(rd.context, query), Review(query, rd.context, rd.ruling)]
  }

  /** The refined context of the denied case (utils/model_utils.py:184-204), or the error of
      its retrieval. */
  function RefinedContext(svc: Services, verdict: string, maxChunks: int, maxSubqueries: int): Result<string> {
    match Retrieved(svc.store, Subqueries(svc, verdict, maxSubqueries), RefineTopK)
    case Err(e) => Err(e)
    case Ok(refined) => Ok(Context(Prune(refined, maxChunks)))
  }

  /** The second judge accepted: its stripped reply starts with "Accepted", case-sensitively. */
  predicate IsAccepted(verdict: string) {
    StartsWith(verdict, "Accepted")
  }

  /** answer_with_subqueries(query, max_context_chunks, max_subqueries) as written
      (utils/model_utils.py:78-231): the refinement request names user_prompt, which is
      not defined anywhere, so the denied case raises NameError once its retrieval is done. */
  function AnswerAsWritten(svc: Services, query: string, maxChunks: int, maxSubqueries: int): Outcome {
    match FirstRound(svc, query, maxChunks, maxSubqueries)
    case Err(e) => Outcome(Err(e), [Decompose(query, maxSubqueries)])
    case Ok(rd) =>
      var chats := FirstChats(query, maxSubqueries, rd);
      if IsAccepted(rd.verdict) then Outcome(Ok(SafeJsonParse(svc.decode, rd.ruling)), chats)
      else
        var chats' := chats + [Decompose(rd.verdict, maxSubqueries)];
        match RefinedContext(svc, rd.verdict, maxChunks, maxSubqueries)
        case Err(e) => Outcome(Err(e), chats')
        case Ok(_) => Outcome(Err(NameError("user_prompt")), chats')
  }

  /** answer_with_subqueries as intended: the refinement request's first user turn is the
      original question, as in the first judge's request. */
  function Answer(svc: Services, query: string, maxChunks: int, maxSubqueries: int): Outcome {
    match FirstRound(svc, query, maxChunks, maxSubqueries)
    case Err(e) => Outcome(Err(e), [Decompose(query, maxSubqueries)])
    case Ok(rd) =>
      var chats := FirstChats(query, maxSubqueries, rd);
      if IsAccepted(rd.verdict) then Outcome(Ok(SafeJsonParse(svc.decode, rd.ruling)), chats)
      else
        var chats' := chats + [Decompose(rd.verdict, maxSubqueries)];
        match RefinedContext(svc, rd.verdict, maxChunks, maxSubqueries)
        case Err(e) => Outcome(Err(e), chats')
        case Ok(refinedContext) =>
          var refine := Refine(rd.context, query, rd.ruling, rd.verdict, refinedContext);
          Outcome(Ok(SafeJsonParse(svc.decode, svc.llm(refine))), chats' + [refine])
  }

  /** answer_with_subqueries (utils/model_utils.py:78-231), with the refinement's user turn
      being the original question. */
  method AnswerWithSubqueries(svc: Services, query: string, maxChunks: int, maxSubqueries: int)
    returns (result: Result<Value>, chats: seq<Chat>)
    ensures Outcome(result, chats) == Answer(svc, query, maxChunks, maxSubqueries)
  {
    var ask := Decompose(query, maxSubqueries);
    chats := [ask];
    var subqueries := ParseSubqueries(svc.llm(ask));
    var allResults := Retrieve(svc.store, subqueries, FirstTopK);
    if allResults.Err? {
      assert FirstRound(svc, query, maxChunks, maxSubqueries) == Err(allResults.error);
      return Err(allResults.error), chats;
    }
    var context := Context(Prune(allResults.value, maxChunks));
    var judge := Rule(context, query);
    var ruling := svc.llm(judge);
    var review := Review(query, context, ruling);
    var verdict := Strip(svc.llm(review));
    chats := chats + [judge, review];
    var rd := Round(context, ruling, verdict);
    assert FirstRound(svc, query, maxChunks, maxSubqueries) == Ok(rd);
    assert chats == FirstChats(query, maxSubqueries, rd);
    if IsAccepted(verdict) {
      return Ok(SafeJsonParse(svc.decode, ruling)), chats;
    }
    var again := Decompose(verdict, maxSubqueries);
    chats := chats + [again];
    var newSubqueries := ParseSubqueries(svc.llm(again));
    var refinedResults := Retrieve(svc.store, newSubqueries, RefineTopK);
    if refinedResults.Err? {
      assert RefinedContext(svc, verdict, maxChunks, maxSubqueries) == Err(refinedResults.error);
      return Err(refinedResults.error), chats;
    }
    var refinedContext := Context(Prune(refinedResults.value, maxChunks));
    assert RefinedContext(svc, verdict, maxChunks, maxSubqueries) == Ok(refinedContext);
    var refine := Refine(context, query, ruling, verdict, refinedContext);
    chats := chats + [refine];
    result := Ok(SafeJsonParse(svc.decode, svc.llm(refine)));
  }

  /** Accepted: the result is the first ruling decoded, after exactly the three requests of
      the first round. */
  lemma AcceptedPath(svc: Services, query: string, maxChunks: int, maxSubqueries: int)
    requires FirstRound(svc, query, maxChunks, maxSubqueries).Ok?
    requires IsAccepted(FirstRound(svc, query, maxChunks, maxSubqueries).value.verdict)
    ensures var rd := FirstRound(svc, query, maxChunks, maxSubqueries).value;
      var o := Answer(svc, query, maxChunks, maxSubqueries);
      && o.result == Ok(SafeJsonParse(svc.decode, rd.ruling))
      && o.chats == FirstChats(query, maxSubqueries, rd)
  {
  }

  /** Denied: exactly one refinement round follows. The verdict is decomposed into new
      subqueries and, when their retrieval succeeds, one refinement request closes the run:
      it carries the first context, the original question, the first ruling and the verdict
      as feedback with the refined context, and its reply is decoded without a further
      review. */
  lemma DeniedPath(svc: Services, query: string, maxChunks: int, maxSubqueries: int)
    requires FirstRound(svc, query, maxChunks, maxSubqueries).Ok?
    requires !IsAccepted(FirstRound(svc, query, maxChunks, maxSubqueries).value.verdict)
    ensures var rd := FirstRound(svc, query, maxChunks, maxSubqueries).value;
      var o := Answer(svc, query, maxChunks, maxSubqueries);
      var refined := RefinedContext(svc, rd.verdict, maxChunks, maxSubqueries);
      var chats := FirstChats(query, maxSubqueries, rd) + [Decompose(rd.verdict, maxSubqueries)];
      match refined
      case Err(e) => o == Outcome(Err(e), chats)
      case Ok(ctx) =>
        var refine := Refine(rd.context, query, rd.ruling, rd.verdict, ctx);
        o == Outcome(Ok(SafeJsonParse(svc.decode, svc.llm(refine))), chats + [refine])
  {
  }

  /** The decision is bounded: every run starts by decomposing the question, makes at most
      five chat requests, and at most one refinement request, which comes last. */
  lemma AnswerBounded(svc: Services, query: string, maxChunks: int, maxSubqueries: int)
    ensures var o := Answer(svc, query, maxChunks, maxSubqueries);
      && 1 <= |o.chats| <= 5
      && o.chats[0] == Decompose(query, maxSubqueries)
      && forall k :: 0 <= k < |o.chats| - 1 ==> !o.chats[k].Refine?
  {
    var fr := FirstRound(svc, query, maxChunks, maxSubqueries);
    if fr.Ok? {
      if IsAccepted(fr.value.verdict) {
        AcceptedPath(svc, query, maxChunks, maxSubqueries);
      } else {
        DeniedPath(svc, query, maxChunks, maxSubqueries);
      }
    }
  }

  /** The first round asks the store for top_k = 8 hits and the refinement for top_k = 5:
      a store that answers those requests alike, whatever it does for other hit counts,
      gives the same answer. */
  lemma AnswerUsesTopK(svc: Services, store: Store, query: string, maxChunks: int, maxSubqueries: int)
    requires forall q :: store(q, FirstTopK) == svc.store(q, FirstTopK)
    requires forall q :: store(q, RefineTopK) == svc.store(q, RefineTopK)
    ensures Answer(svc.(store := store), query, maxChunks, maxSubqueries) == Answer(svc, query, maxChunks, maxSubqueries)
  {
    var other := svc.(store := store);
    RetrievedSameStore(store, svc.store, Subqueries(svc, query, maxSubqueries), FirstTopK);
    var fr := FirstRound(svc, query, maxChunks, maxSubqueries);
    assert FirstRound(other, query, maxChunks, maxSubqueries) == fr;
    if fr.Ok? {
      RetrievedSameStore(store, svc.store, Subqueries(svc, fr.value.verdict, maxSubqueries), RefineTopK);
      assert RefinedContext(other, fr.value.verdict, maxChunks, maxSubqueries)
          == RefinedContext(svc, fr.value.verdict, maxChunks, maxSubqueries);
    }
  }

  /** Two stores that answer the requests for topK hits alike retrieve the same entries. */
  lemma RetrievedSameStore(store: Store, store': Store, subqueries: seq<string>, topK: int)
    requires forall q :: store(q, topK) == store'(q, topK)
    ensures Retrieved(store, subqueries, topK) == Retrieved(store', subqueries, topK)
  {
    GatherSameResults(subqueries, q => SubqueryHits(store, q, topK), q => SubqueryHits(store', q, topK));
  }

  /** The defect: whenever the second judge does not accept and the refined retrieval
      succeeds, the code as written raises NameError where the intended version answers;
      on every other path the two agree. */
  lemma AsWrittenRaisesNameError(svc: Services, query: string, maxChunks: int, maxSubqueries: int)
    ensures var rd := FirstRound(svc, query, maxChunks, maxSubqueries);
      var written := AnswerAsWritten(svc, query, maxChunks, maxSubqueries);
      var intended := Answer(svc, query, maxChunks, maxSubqueries);
      if rd.Ok? && !IsAccepted(rd.value.verdict)
         && RefinedContext(svc, rd.value.verdict, maxChunks, maxSubqueries).Ok?
      then written.result == Err(NameError("user_prompt")) && intended.result.Ok?
      else written == intended
  {
  }

  /** A blank first-round subquery (a reply line such as "3.") makes the whole answer fail
      with an error before any judge is asked. */
  lemma BlankSubqueryStopsAnswer(svc: Services, query: string, maxChunks: int, maxSubqueries: int, i: nat)
    requires i < |Subqueries(svc, query, maxSubqueries)|
    requires Strip(Subqueries(svc, query, maxSubqueries)[i]) == []
    ensures Answer(svc, query, maxChunks, maxSubqueries).result.Err?
    ensures Answer(svc, query, maxChunks, maxSubqueries).chats == [Decompose(query, maxSubqueries)]
  {
    BlankSubqueryFails(svc.store, Subqueries(svc, query, maxSubqueries), FirstTopK, i);
  }
}
