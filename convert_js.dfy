/** model_code/convert.js: the JavaScript variant of the card cleaner. It gathers the cards of
    every section, keeps the first card of each name with a filter over a Set, and maps each
    kept card to a record. The require and the file write are not part of this model; the
    input is the sequence of section values of cardData.data, in for...in order. A property
    that is undefined is None; JSON.stringify leaves such properties out of the output. */
module ConvertJs {
  import opened Outcomes
  import opened Json
  import opened Seqs
  import opened FirstOccurrence

  /** Property access v.key: reading a property of null throws; an object yields the field
      when present; any other value has no such property (undefined). */
  function Prop(v: Value, key: string): Result<Option<Value>> {
    match v
    case Null => Err(TypeError("Cannot read properties of null"))
    case Obj(fields) => Ok(if key in fields then Some(fields[key]) else None)
    case _ => Ok(None)
  }

  /** Property access on a value that may be undefined: undefined.key throws as well. */
  function PropOf(v: Option<Value>, key: string): Result<Option<Value>> {
    match v
    case None => Err(TypeError("Cannot read properties of undefined"))
    case Some(x) => Prop(x, key)
  }

  // ================================================================ sections

  /** The elements ...x spreads: an array's items, a string's characters; any other value, and
      undefined, is not iterable. */
  function Spread(x: Option<Value>): Result<seq<Value>> {
    match x
    case Some(Arr(items)) => Ok(items)
    case Some(Str(s)) => Ok(seq(|s|, i requires 0 <= i < |s| => Str([s[i]])))
    case _ => Err(TypeError("not iterable"))
  }

  /** The cards one section contributes: ...cardData.data[cardSection].cards. */
  function SectionCards(section: Value): Result<seq<Value>> {
    match Prop(section, "cards")
    case Err(e) => Err(e)
    case Ok(cards) => Spread(cards)
  }

  /** allCards after the for...in loop (model_code/convert.js:6-10): the sections' cards one
      after another, or the error of the first section that throws. */
  function AllCards(sections: seq<Value>): Result<seq<Value>> {
    Gather(sections, SectionCards)
  }

  /** The for...in loop of model_code/convert.js:6-10, pushing each section's cards. */
  method CollectCards(sections: seq<Value>) returns (r: Result<seq<Value>>)
    ensures r == AllCards(sections)
  {
    var allCards: seq<Value> := [];
    for i := 0 to |sections|
      invariant AllCards(sections[..i]) == Ok(allCards)
    {
      assert sections[..i + 1][..i] == sections[..i];
      var more := SectionCards(sections[i]);
      if more.Err? {
        r := Err(more.error);
        GatherErrSticks(sections, SectionCards, i + 1);
        return;
      }
      allCards := allCards + more.value;
    }
    assert sections[..|sections|] == sections;
    r := Ok(allCards);
  }

  // ================================================================ the filter

  /** card.name for a card that is not null; undefined is a key like any other. */
  function NameKey(card: Value): Option<Value> {
    if card.Obj? && "name" in card.fields then Some(card.fields["name"]) else None
  }

  /** What the filter returns (model_code/convert.js:14-24): it throws on the first null card;
      otherwise it keeps a card iff no earlier card has its name. */
  function Filtered(cards: seq<Value>): Result<seq<Value>> {
    if exists i :: 0 <= i < |cards| && cards[i] == Null then Err(TypeError("Cannot read properties of null"))
    else Ok(KeepFirst(cards, NameKey))
  }

  /** The filter with its Set of seen names (model_code/convert.js:14-24); it also hands back
      the final Set. */
  method FilterFirst(cards: seq<Value>) returns (r: Result<seq<Value>>, seenNames: set<Option<Value>>)
    ensures r == Filtered(cards)
    ensures r.Ok? ==> seenNames == KeysOf(cards, NameKey)
  {
    seenNames := {};
    var kept: seq<Value> := [];
    for i := 0 to |cards|
      invariant forall j :: 0 <= j < i ==> cards[j] != Null
      invariant kept == KeepFirst(cards[..i], NameKey)
      invariant seenNames == KeysOf(cards[..i], NameKey)
    {
      var card := cards[i];
      assert cards[..i + 1][..i] == cards[..i];
      var name := Prop(card, "name");
      if name.Err? {
        return Err(name.error), seenNames;
      }
      assert name.value == NameKey(card);
      if name.value in seenNames {
        continue;
      }
      seenNames := seenNames + {name.value};
      kept := kept + [card];
    }
    assert cards[..|cards|] == cards;
    r := Ok(kept);
  }

  // ================================================================ the map

  /** card.identifiers.multiverseId || "": reading through undefined or null identifiers
      throws; a falsy or missing multiverseId becomes "". */
  function MultiverseId(card: Value): Result<Value> {
    match Prop(card, "identifiers")
    case Err(e) => Err(e)
    case Ok(ids) =>
      match PropOf(ids, "multiverseId")
      case Err(e) => Err(e)
      case Ok(id) => Ok(if id.Some? && Truthy(id.value) then id.value else Str(""))
  }

  /** The record the map callback builds for a card (model_code/convert.js:25-46); the copied
      properties that are undefined do not appear in the output. */
  function Record(card: Value): Result<Value> {
    var fields := FieldsOf(card);
    match MultiverseId(card)
    case Err(e) => Err(e)
    case Ok(mid) => Ok(Obj((map k | k in CardFields && k in fields :: fields[k])["multiverseId" := mid]))
  }

  /** A record holds exactly the copied properties the card has, with the card's values, and
      multiverseId; the callback throws exactly when the card has no identifiers or they are
      null; multiverseId is the card's when that is truthy, else "". */
  lemma RecordSpec(card: Value)
    requires card != Null
    ensures var fields := FieldsOf(card);
      Record(card).Err? <==> "identifiers" !in fields || fields["identifiers"] == Null
    ensures var fields := FieldsOf(card);
      Record(card).Ok? ==>
      var out := Record(card).value;
      && out.Obj?
      && out.fields.Keys == (set k | k in CardFields && k in fields) + {"multiverseId"}
      && (forall k :: k in CardFields && k in fields ==> out.fields[k] == fields[k])
      && var ids := FieldsOf(fields["identifiers"]);
         out.fields["multiverseId"] ==
           if "multiverseId" in ids && Truthy(ids["multiverseId"]) then ids["multiverseId"] else Str("")
  {
    assert "multiverseId" !in CardFields;
  }

  /** The map: the records of the cards, or the first error a callback throws. */
  function Records(cards: seq<Value>): Result<seq<Value>> {
    if cards == [] then Ok([])
    else
      match Records(cards[..|cards| - 1])
      case Err(e) => Err(e)
      case Ok(out) =>
        match Record(cards[|cards| - 1])
        case Err(e) => Err(e)
        case Ok(rec) => Ok(out + [rec])
  }

  /** The map keeps length and order: it succeeds exactly when every callback does, and then
      the k-th record is that of the k-th card. */
  lemma {:induction false} RecordsSpec(cards: seq<Value>)
    ensures Records(cards).Ok? <==> forall k :: 0 <= k < |cards| ==> Record(cards[k]).Ok?
    ensures Records(cards).Ok? ==>
      && |Records(cards).value| == |cards|
      && forall k :: 0 <= k < |cards| ==> Records(cards).value[k] == Record(cards[k]).value
    decreases |cards|
  {
    if cards != [] {
      var init := cards[..|cards| - 1];
      RecordsSpec(init);
      assert forall k :: 0 <= k < |init| ==> init[k] == cards[k];
    }
  }

  // ================================================================ the script

  /** model_code/convert.js:6-48: the cleaned records. */
  method ConvertCards(sections: seq<Value>) returns (r: Result<seq<Value>>)
    ensures match AllCards(sections)
      case Err(e) => r == Err(e)
      case Ok(cards) =>
        match Filtered(cards)
        case Err(e) => r == Err(e)
        case Ok(kept) => r == Records(kept)
  {
    var allCards := CollectCards(sections);
    if allCards.Err? {
      return Err(allCards.error);
    }
    var kept, seenNames := FilterFirst(allCards.value);
    if kept.Err? {
      return Err(kept.error);
    }
    r := Records(kept.value);
  }

  /** A record has the name of its card, and no name when the card has none. */
  lemma RecordName(card: Value)
    requires card != Null && Record(card).Ok?
    ensures NameKey(Record(card).value) == NameKey(card)
  {
    RecordSpec(card);
  }

  /** output.length is the number of distinct names (undefined counting as one), at most
      allCards.length, and the output names are pairwise distinct. */
  lemma OutputSpec(cards: seq<Value>)
    requires Filtered(cards).Ok? && Records(Filtered(cards).value).Ok?
    ensures var out := Records(Filtered(cards).value).value;
      && |out| == |KeysOf(cards, NameKey)| <= |cards|
      && forall i, j :: 0 <= i < j < |out| ==> NameKey(out[i]) != NameKey(out[j])
  {
    var kept := KeepFirst(cards, NameKey);
    RecordsSpec(kept);
    KeepFirstCount(cards, NameKey);
    KeepFirstDistinct(cards, NameKey);
    KeptNotNull(cards);
    var out := Records(kept).value;
    forall k | 0 <= k < |out| ensures NameKey(out[k]) == NameKey(kept[k]) {
      RecordName(kept[k]);
    }
  }

  /** When the filter does not throw, no kept card is null. */
  lemma KeptNotNull(cards: seq<Value>)
    requires Filtered(cards).Ok?
    ensures forall k :: 0 <= k < |KeepFirst(cards, NameKey)| ==> KeepFirst(cards, NameKey)[k] != Null
  {
    KeepFirstAtFirstIndices(cards, NameKey);
  }
}
