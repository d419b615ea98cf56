# A verified model of a rules-question retrieval pipeline

The repository answers rules questions about a trading-card game with retrieval-augmented
generation. Its text-processing layer is modelled here in Dafny, and the properties that
layer promises are proved:

- `utils/index_utils.py` (module `IndexUtils`) is the corpus side. `load_rules` recognises
  rule lines with one regular expression. `load_cards` builds a searchable text block per
  card. `chunk_text` cuts text into sentences and groups them greedily under a word budget.
  `build_index` assembles the parallel `ids`/`texts`/`metas` lists sent to the vector store.
- `utils/model_utils.py` (module `ModelUtils`) is the query side:
  - `search_index` validates the query and maps the store's hits;
  - `generate_subqueries` parses the model's numbered list;
  - `safe_json_parse` strips Markdown fences and never raises;
  - `answer_with_subqueries` accumulates hits, prunes them, formats the context and runs the
    two-judge decision, which either accepts or makes exactly one refinement round.
- `scripts/convert-cards-data.py` (module `ConvertCardsData`) and `model_code/convert.js`
  (module `ConvertJs`) clean the card database. Each flattens the card sections, keeps the
  first card of every name, and projects each kept card onto a fixed set of fields.

Shared modules:

- `Outcomes` holds `Option`, `Result` and the Python and JavaScript exceptions that can
  escape.
- `Text` models Python's string operations: `strip`, `split`/`join`, `splitlines`,
  `s.split()` and its length, and `str(n)`.
- `Seqs` holds `Flatten` and `Gather`, the accumulate-until-the-first-error function behind the retrieval loops and the card-collecting loops.
- `Json` holds the JSON value type.
- `FirstOccurrence` is the keep-the-first-per-key specification that both card converters
  are proved against.

The embedding service, the vector store, the chat model and `json.loads` are external.
They enter the model as function-valued parameters:

- a store that answers a query string and a hit count;
- a chat model that answers a request;
- a partial decoder.

Loops of the source are Dafny methods with loop invariants. Each method is proved equal to
a function that specifies it. The properties are lemmas about those functions.

## Model

| member | source | states |
|---|---|---|
| `IndexUtils.LoadRules` | utils/index_utils.py:15-37 | the loop's documents are `RulesOf(lines)`: each line's document, in file order |
| `IndexUtils.RulesOfAppend` | utils/index_utils.py:23-36 | documents come out in file order: the documents of `a + b` are those of `a` followed by those of `b` |
| `IndexUtils.RulesOfCount` | utils/index_utils.py:24-36 | each line yields at most one document, and lines that are blank after stripping yield none |
| `IndexUtils.LineDocsIff` | utils/index_utils.py:28-36 | a line yields a document iff its stripped form reads as 1-3 digits, one or more `.digits` groups, whitespace and a body; the document then carries that id and body |
| `IndexUtils.MatchRuleLineSound` | utils/index_utils.py:28 | every match the scan reports is a reading of the pattern, with the whitespace run taken greedily |
| `IndexUtils.MatchRuleLineComplete` | utils/index_utils.py:28 | every reading of the pattern is found by the scan, with the same rule id (and the same body when the body does not start with whitespace) |
| `IndexUtils.RulesOfWellFormed` | utils/index_utils.py:29-36 | every rule document has id `"CR:" + rule_id`, text `rule_id + " " + body`, a rule id of digits and dots with at least one dot, and source "Comprehensive Rules" |
| `IndexUtils.LetteredRuleIdRejected` | utils/index_utils.py:28 | a lettered sub-rule line such as `603.1a x` yields no match |
| `IndexUtils.TrailingDotRuleIdRejected` | utils/index_utils.py:28 | a rule id with a final dot, as in `100.1. x`, yields no match |
| `IndexUtils.SplitSentences` | utils/index_utils.py:91 | `re.split(r'(?<=[.!?]) +', text)`: at least one piece, and the first piece is a prefix of the text |
| `IndexUtils.SplitSentencesRebuild` | utils/index_utils.py:91 | the split loses nothing but the separators: the pieces, each followed by the run of spaces dropped after it, make up the text exactly |
| `IndexUtils.SentenceGapsSpaces` | utils/index_utils.py:91 | each dropped separator between two pieces is a non-empty run of spaces, and nothing is dropped after the last piece |
| `IndexUtils.SplitSentencesWellSplit` | utils/index_utils.py:91 | no piece contains a separator, every piece but the last ends in `.`, `!` or `?`, and no later piece starts with a space |
| `IndexUtils.SplitSentencesJoin` | utils/index_utils.py:91 | joining well-formed pieces with single spaces and splitting again gives back the same pieces |
| `IndexUtils.SplitSentencesWords` | utils/index_utils.py:91 | the sentence split neither loses nor invents a word: the sentences' word counts add up to the text's |
| `IndexUtils.SplitSentencesWordList` | utils/index_utils.py:91 | the sentences' words, sentence after sentence, are the text's words in order |
| `IndexUtils.ChunkText` | utils/index_utils.py:89-108 | the loop, with `length` equal to the word total of `current` as an invariant, returns `Chunks(text, chunk_size)` |
| `IndexUtils.GroupPrefixInv` | utils/index_utils.py:96-104 | after every prefix of the sentences, the loop state satisfies the invariant: the groups in order are exactly those sentences, only the first group may be empty, and the groups fit and overflow as the loop decides |
| `IndexUtils.GroupsPartition` | utils/index_utils.py:96-106 | the emitted groups, flattened in order, are exactly the split's sentences: no overlap, no loss, no reordering |
| `IndexUtils.GroupsWithinBudget` | utils/index_utils.py:97-104 | a group of two or more sentences has at most `chunk_size` words |
| `IndexUtils.GroupsGreedy` | utils/index_utils.py:98-101 | a group is closed only because the first sentence of the next group did not fit |
| `IndexUtils.GroupsFirstEmpty` | utils/index_utils.py:98-101 | only the first group can be empty, and it is empty exactly when the first sentence alone is over budget |
| `IndexUtils.ChunksKeepWords` | utils/index_utils.py:89-108 | there is always at least one chunk; the chunks' words (`split()` of each), chunk after chunk, are exactly the text's words in order, so none is dropped, repeated or moved; and the chunks' word counts add up to the text's |
| `IndexUtils.ChunksWithinBudget` | utils/index_utils.py:97-106 | a chunk over budget is a single sentence or the empty first chunk |
| `IndexUtils.FirstChunkEmpty` | utils/index_utils.py:98-101 | when the first sentence alone is over budget, the first chunk is `""` |
| `IndexUtils.EmptyTextChunk` | utils/index_utils.py:105-108 | empty text gives `[""]` |
| `IndexUtils.LoadCards` | utils/index_utils.py:40-86 | the loop's result is `CardsOf(cards)`: the kept cards' documents in order, or the first KeyError |
| `IndexUtils.KeptCards` | utils/index_utils.py:52 | only cards with a name and a non-empty `originalText` are kept |
| `IndexUtils.KeptCardsSpec` | utils/index_utils.py:50-53 | exactly the cards with a name and a non-empty `originalText` are kept, in input order: the kept cards are the cards at the increasing positions where that test holds |
| `IndexUtils.CardsOfSpec` | utils/index_utils.py:50-83 | load_cards succeeds iff every kept card has a uuid; it then gives one document per kept card, in order, with id `"CARD:" + uuid`, the card's name, source "Card Database" and the joined text parts |
| `IndexUtils.CardTextLines` | utils/index_utils.py:56-71 | the text's first line is `Name: ...`; there is a seventh line exactly when the card has rulings, and it is `Rulings: ` followed by the ruling texts joined with `" | "` |
| `IndexUtils.RulingTextsAppend` | utils/index_utils.py:68 | the ruling texts follow the order of the rulings: those of two runs of rulings are the first run's followed by the second's |
| `IndexUtils.RulingTextsOne` | utils/index_utils.py:68 | one ruling contributes its text once when it has a `text`, and nothing otherwise |
| `IndexUtils.RulingTextsCount` | utils/index_utils.py:68 | the rulings line holds one text per ruling that has a `text` |
| `IndexUtils.RulingTextsMembers` | utils/index_utils.py:68 | a text is in the rulings line iff some ruling carries it |
| `IndexUtils.AppendChunks` | utils/index_utils.py:129-132 | one id, text and metadata are appended per chunk, ids numbered from 0, and the three lists stay parallel |
| `IndexUtils.AssembleIndex` | utils/index_utils.py:125-135 | the lists hold every chunk of every document in order, with equal lengths; ValueError "No valid chunks found to embed." exactly when there is no chunk |
| `IndexUtils.BuildIndex` | utils/index_utils.py:111-135 | the index is the rule documents' chunks, and it fails exactly when the rules file yields no document |
| `IndexUtils.EntriesEmptyIff` | utils/index_utils.py:127-135 | with a chunker that always returns a chunk, there is no entry exactly when there is no document |
| `IndexUtils.EntriesOwner` | utils/index_utils.py:131-132 | each chunk's metadata is its parent document, and its id names that document |
| `IndexUtils.ChunkIdInjective` | utils/index_utils.py:132 | two chunk ids `<docid>_<i>` are equal only for the same document id and ordinal |
| `IndexUtils.EntryIdsUnique` | utils/index_utils.py:127-132 | entry ids are pairwise distinct when the document ids are distinct and contain no underscore |
| `IndexUtils.RuleDocIdNoUnderscore` | utils/index_utils.py:28-32 | a rule document's id, `CR:` and a rule identifier, contains no underscore |
| `IndexUtils.RuleEntryIdsUnique` | utils/index_utils.py:116-132 | the chunk ids built from the rules file are pairwise distinct whenever no two of its rule documents share an id |
| `IndexUtils.EntryIdsCollide` | utils/index_utils.py:127-132 | two documents with the same id give two entries with the same id, when every document has a chunk |
| `IndexUtils.RuleEntryIdsCollide` | utils/index_utils.py:116-132 | two rule lines with the same rule identifier make the index repeat a chunk id |
| `ModelUtils.SearchIndex` | utils/model_utils.py:12-33 | the loop's result is `Search(store, query, top_k)` |
| `ModelUtils.SearchSpec` | utils/model_utils.py:14-32 | a query that is blank after stripping raises ValueError "Empty query provided."; otherwise hit `i` pairs `documents[0][i]` with `metadatas[0][i]` for the stripped query, in returned order |
| `ModelUtils.SubqueryLinesAppend` | utils/model_utils.py:55 | subqueries come out in line order |
| `ModelUtils.SubqueryLinesMembers` | utils/model_utils.py:55 | a subquery is exactly a non-blank line with `"0123456789. "` stripped from both ends |
| `ModelUtils.SubqueryLinesCount` | utils/model_utils.py:55 | there are never more subqueries than lines, and there is one per line when no line is blank, whatever `n` was asked for |
| `ModelUtils.BareNumberSubqueryRejected` | utils/model_utils.py:14-16 | a non-blank line made only of digits, dots and spaces gives the empty subquery, which `search_index` rejects with ValueError |
| `ModelUtils.FenceStripFenced` | utils/model_utils.py:61-69 | a fenced reply with a language tag loses its opening line and its closing fence, leaving the body exactly |
| `ModelUtils.FenceStripUnclosed` | utils/model_utils.py:61-69 | a reply whose opening fence is never closed loses only its opening line: the last line is kept, since the rest does not end with a fence once stripped |
| `ModelUtils.FenceStripUnfenced` | utils/model_utils.py:61-64 | a reply that does not start with a fence once stripped is decoded stripped and otherwise unchanged |
| `ModelUtils.FencedFailureKeepsRaw` | utils/model_utils.py:72-75 | on a decode failure the result is `{"error": "Failed to parse JSON", "raw": text}` with the original, unstripped reply |
| `ModelUtils.Retrieve` | utils/model_utils.py:85-93 | the nested loops give `Retrieved(store, subqueries, top_k)` |
| `ModelUtils.AppendHits` | utils/model_utils.py:88-93 | the inner loop appends one entry per hit, in hit order |
| `Seqs.GatherSpec` | utils/model_utils.py:86-93 | an accumulating loop over `extend`/`append` succeeds iff every step does, and then holds each step's items in turn; this gives the retrieval loops their meaning, and the card-collecting loops of both converters as well |
| `ModelUtils.SubqueryHitsSpec` | utils/model_utils.py:87-93 | a subquery's entries are those of its hits whenever its search does not raise |
| `ModelUtils.HitEntriesSpec` | utils/model_utils.py:88-93 | each hit gives one entry carrying the subquery, the hit's text, and its source or `""` |
| `ModelUtils.BlankSubqueryFails` | utils/model_utils.py:86-87 | a blank subquery makes the whole retrieval raise |
| `ModelUtils.PruneSpec` | utils/model_utils.py:96-97 | pruning keeps a prefix of length `min(len, cap)` for a non-negative cap, and follows Python slicing for a negative one |
| `ModelUtils.ContextAppend` | utils/model_utils.py:99-102 | the context of two runs of entries is the two contexts joined by a blank line |
| `ModelUtils.ContextSmall` | utils/model_utils.py:99-102 | no entries give `""`, and one entry gives `Subquery: q\n- Source: s\n- Text: t` |
| `ModelUtils.AnswerWithSubqueries` | utils/model_utils.py:78-231 | the method's result and chat requests are those of `Answer`, the answer with the refinement's user turn corrected |
| `ModelUtils.AcceptedPath` | utils/model_utils.py:176-180 | when the stripped second-judge reply starts with "Accepted", the result is the first ruling decoded, after exactly the three requests of the first round |
| `ModelUtils.DeniedPath` | utils/model_utils.py:184-231 | otherwise exactly one refinement round follows: one decomposition of the reply, then either its retrieval error or one refinement request whose reply is decoded without a further review |
| `ModelUtils.AnswerBounded` | utils/model_utils.py:78-231 | a run makes between one and five chat requests, starts by decomposing the question, and makes at most one refinement request, which comes last |
| `ModelUtils.AnswerUsesTopK` | utils/model_utils.py:87-189 | the first pass retrieves with `top_k=8` and the refinement with `top_k=5`: stores that agree on those requests give the same answer |
| `ModelUtils.AsWrittenRaisesNameError` | utils/model_utils.py:224 | as written, a denied run whose refined retrieval succeeds raises NameError where the corrected answer succeeds; on every other path the two agree |
| `ModelUtils.BlankSubqueryStopsAnswer` | utils/model_utils.py:82-87 | a blank first-round subquery makes the answer raise after the single decomposition request |
| `FirstOccurrence.KeysOfSpec` | scripts/convert-cards-data.py:15-23 | a name is among the seen names iff some card has it |
| `FirstOccurrence.KeepFirstKeys` | scripts/convert-cards-data.py:18-26 | every name of the input appears among the kept cards |
| `FirstOccurrence.KeepFirstDistinct` | scripts/convert-cards-data.py:18-23 | the kept cards' names are pairwise distinct |
| `FirstOccurrence.KeepFirstCount` | scripts/convert-cards-data.py:46 | there are as many kept cards as distinct names, and no more than cards |
| `FirstOccurrence.FirstIndicesSpec` | model_code/convert.js:14-24 | the first-occurrence positions are increasing, and they are exactly the positions whose name no earlier card has |
| `FirstOccurrence.KeepFirstAtFirstIndices` | model_code/convert.js:16-24 | the kept cards are the cards at the first-occurrence positions, in input order |
| `ConvertCardsData.CollectCards` | scripts/convert-cards-data.py:7-11 | the collecting loop gives `AllCards(sections)`: by `Seqs.GatherSpec`, the sections' cards concatenated in section order, exactly when every section is a dict whose `cards` is a list (its items) or a string (its characters), and otherwise the first section's error |
| `ConvertCardsData.RecordSpec` | scripts/convert-cards-data.py:26-43 | a record has exactly the sixteen copied keys and `multiverseId`; absent keys become null; `multiverseId` is `identifiers["multiverseId"]` when both keys are present and `""` when either is missing; the record raises AttributeError exactly when `identifiers` is present but not a dict |
| `ConvertCardsData.Deduplicate` | scripts/convert-cards-data.py:15-44 | the loop's output and final `seenNames` are those of `Deduplicated(cards)`, or its first error |
| `ConvertCardsData.DeduplicatedState` | scripts/convert-cards-data.py:15-44 | after the loop, `seenNames` is the set of all names, and the output is the records of the first card of each name, in order |
| `ConvertCardsData.DeduplicatedOk` | scripts/convert-cards-data.py:18-44 | the loop does not raise iff every card has a name and every kept card has a record |
| `ConvertCardsData.ConvertCards` | scripts/convert-cards-data.py:7-46 | the script's output is the deduplicated records of the collected cards, or the first error |
| `ConvertCardsData.OutputSpec` | scripts/convert-cards-data.py:15-46 | `len(output)` is the number of distinct names, at most `len(allCards)`; output names are pairwise distinct; `seenNames` is the set of output names |
| `ConvertJs.CollectCards` | model_code/convert.js:6-10 | the `for...in` loop gives `AllCards(sections)`: by `Seqs.GatherSpec`, the sections' cards concatenated in section order, exactly when every spread succeeds, and otherwise the first error thrown |
| `ConvertJs.FilterFirst` | model_code/convert.js:14-24 | the filter keeps a card iff no earlier card has its name (`KeepFirst`), throws on a null card, and leaves `seenNames` holding all names |
| `ConvertJs.RecordSpec` | model_code/convert.js:25-46 | a record holds the copied properties the card has plus `multiverseId`, which is the card's when truthy and `""` otherwise; it throws when `identifiers` is missing or null |
| `ConvertJs.RecordsSpec` | model_code/convert.js:25-46 | the map keeps length and order: record `k` is that of kept card `k` |
| `ConvertJs.ConvertCards` | model_code/convert.js:6-48 | the output is the records of the filtered cards, or the first error thrown |
| `ConvertJs.OutputSpec` | model_code/convert.js:14-48 | `output.length` is the number of distinct names, at most `allCards.length`, and the output names are pairwise distinct |
| `Text.StripBy` | utils/model_utils.py:55 | `s.strip(chars)` is the slice from the first kept character to the last, with only stripped characters cut away on either side |
| `Text.StripByExact` | utils/model_utils.py:61 | stripping recovers exactly the core that the stripped characters surround |
| `Text.JoinSplit` | utils/model_utils.py:66 | joining the pieces of `split("\n")` with `"\n"` gives the string back |
| `Text.DropFirstLine` | utils/model_utils.py:66 | `"\n".join(s.split("\n")[1:])` is everything after the first newline, or `""` |
| `Text.DropLastLine` | utils/model_utils.py:69 | `"\n".join(s.split("\n")[:-1])` is everything before the last newline, or `""` |
| `Text.SplitLines` | utils/model_utils.py:55 | `splitlines()` gives lines without line breaks, never more lines than characters |
| `Text.SplitLinesRebuild` | utils/model_utils.py:55 | `splitlines()` loses nothing but the line endings: the lines, each followed by the ending that closed it, make up the text exactly |
| `Text.LineEndsWellFormed` | utils/model_utils.py:55 | every line but the last was closed by `\r\n` or one line-break character; only the last may run to the end of the text |
| `Text.LoneReturnUnpaired` | utils/model_utils.py:55 | a `\r` directly followed by `\n` is one line ending, never a line end followed by an empty line |
| `Text.WordCountSpaced` | utils/index_utils.py:97 | a run of spaces between two strings neither merges nor splits words |
| `Text.WordsCount` | utils/index_utils.py:97 | `len(s.split())` is the number of words `s.split()` returns |
| `Text.WordsSpaced` | utils/index_utils.py:97 | the words of two strings with a run of spaces between them are the first string's words followed by the second's |
| `Text.NoWordsIffAllSpace` | utils/index_utils.py:97 | a string has no words exactly when it is all whitespace |
| `Text.ParseNatToString` | utils/index_utils.py:132 | the decimal rendering of an ordinal reads back as the ordinal |

## Left out

- The embedding, chat and vector-store calls are not modelled beyond their parameters. This
  covers `client.embeddings.create`, `chat.completions.create`, Chroma's client, collections,
  `add`, `query` and `delete_collection`, and the single embeddings call of
  `build_index`.
- Batching is not modelled. `INDEX_BATCH_SIZE` and `CHUNK_OVERLAP` in
  `utils/config_utils.py` are not used by any code, so there is no batching and no overlap.
- No index round trip is stated. `build_index` writes collection `mtg_data` and
  `search_index` reads `mtg_rules`, so nothing built is ever searched.
- Prompt wording, temperatures and `response_format` are not modelled. A chat request
  records only the data that goes into its messages.
- File I/O is left out: `os.path.exists`, `open`, `json.load`/`json.dump`, `require` and
  `fs.writeFileSync`. The missing-file early returns and `print`/`console.log` are left out
  too. The rules file enters as its lines; the card lists and sections enter as values.
- `json.loads` is a partial decoder given as a parameter. JSON numbers are integers, and
  key order in objects is not modelled.
- Only `\d` is narrowed: it is ASCII `0`-`9`, so Unicode decimal digits are not modelled.
  Whitespace for `strip()`, `split()` and `\s` follows Python's `str.isspace` over Unicode,
  and `splitlines()` breaks on Python's full set of line boundaries, including U+0085,
  U+2028 and U+2029.
- Card names are compared by structural equality of JSON values. Python hashing of
  unhashable names (a list as a name raises TypeError) and JavaScript's reference identity
  of object-valued names are not modelled. Python's equality of `True` with `1` and of
  `False` with `0` in the `seenNames` set is not modelled either: for names `true` and `1`,
  `scripts/convert-cards-data.py` keeps one card and the model keeps both.
  `model_code/convert.js` keeps both as well, so the JavaScript model is exact here.
- `scripts/convert-cards-data.py` reads `cardData["data"]` and `model_code/convert.js`
  reads `cardData.data`. Both models start from the sequence of section values, in
  iteration order.
- IndexUtils.LoadCards: a record key is either absent or holds a value of the expected type.
  A key present with a null value is not modelled. The cleaned card file stores null for
  every copied key a card lacks. On such a card `', '.join` of a null `keywords`, `types`
  or `subtypes` raises TypeError, and a null `manaCost` renders as "Mana Cost: None".
  A field of any other wrong type is not modelled either.
- ConvertCardsData.CollectCards: a dict-valued `cards` raises TypeError in the model. Python's
  `list.extend` would add the dict's keys, in insertion order, and the JSON object model
  keeps no key order.
- SplitSentences: its own ensures clauses fix only the first piece. That the pieces and the
  dropped runs rebuild the text is `SplitSentencesRebuild` and `SentenceGapsSpaces`.
- KeptCards: its own ensures clause says only that every kept card passes the test. That the
  kept cards are exactly the passing cards, in order, is `KeptCardsSpec`.
- SplitLines: its own ensures clauses bound the lines. That the lines and their endings
  rebuild the text is `SplitLinesRebuild`, with `LineEndsWellFormed` and
  `LoneReturnUnpaired`.
- `app.py`, the root `convert.js`, `utils/config_utils.py` and `scripts/build_index.py` are
  not part of this model. They hold web glue, a plain field projection, constants and a
  single call.
- Retrieve: what `Retrieved` means is not stated as one lemma of its own. It follows from
  `Seqs.GatherSpec` applied to `SubqueryHits` together with `SubqueryHitsSpec`, as
  `BlankSubqueryFails` shows.
- BuildIndex: the rules file may hold two lines with the same rule identifier. The index
  then repeats a chunk id (`RuleEntryIdsCollide`); how the store reacts to a repeated id
  is outside the model.
- SubqueryLinesCount: states the count exactly only when no line is blank; in general it
  bounds the count by the number of lines, and membership is stated by
  `SubqueryLinesMembers`.

## Findings

| source | as written | input that shows it | evidently intended | confidence | as-written member | corrected member |
|---|---|---|---|---|---|---|
| utils/model_utils.py:224 | the refinement request's first user turn is the name `user_prompt`, which is defined nowhere, so the denied path raises NameError after its retrieval | any question where the stripped second-judge reply does not start with "Accepted" and the refined subqueries all retrieve | the original question `query`, the user turn of the first judge request (utils/model_utils.py:135) | high; not executed | `ModelUtils.AsWrittenRaisesNameError` | `ModelUtils.DeniedPath` |
