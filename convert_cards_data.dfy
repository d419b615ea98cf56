/** scripts/convert-cards-data.py: gather the cards of every section of the card database,
    keep the first card of each name, and project each kept card onto the fields the
    application uses. Reading and writing the JSON files is not part of this model; the
    script's input is the sequence of section values of cardData["data"], in the order the
    dict iterates them. */
module ConvertCardsData {
  import opened Outcomes
  import opened Json
  import opened Seqs
  import opened FirstOccurrence

  // ================================================================ sections

  /** The cards of one section, cardData["data"][section]["cards"], as list.extend takes
      them: a section that is not an object has no ["cards"] (TypeError), one without the key
      raises KeyError; a list gives its items and a string its characters. Any other value is
      refused with TypeError (a dict is iterable in Python, but the model keeps no key order). */
  function SectionCards(section: Value): Result<seq<Value>> {
    match section
    case Obj(fields) =>
      if "cards" !in fields then Err(KeyError("cards"))
      else (match fields["cards"]
            case Arr(cards) => Ok(cards)
            case Str(s) => Ok(seq(|s|, i requires 0 <= i < |s| => Str([s[i]])))
            case _ => Err(TypeError("cards is not iterable")))
    case _ => Err(TypeError("section is not a dict"))
  }

  /** allCards after the collecting loop (scripts/convert-cards-data.py:7-11): the sections'
      cards one after another, or the error of the first section that has none. */
  function AllCards(sections: seq<Value>): Result<seq<Value>> {
    Gather(sections, SectionCards)
  }

  /** The collecting loop of scripts/convert-cards-data.py:7-11. */
  method CollectCards(sections: seq<Value>) returns (r: Result<seq<Value>>)
    ensures r == AllCards(sections)
  {
    var allCards: seq<Value> := [];
    for i := 0 to |sections|
      invariant AllCards(sections[..i]) == Ok(allCards)
    {
      assert sections[..i + 1][..i] == sections[..i];
      var more := SectionCards(sections[i]);
      if more.Err? {
        r := Err(more.error);
        GatherErrSticks(sections, SectionCards, i + 1);
        return;
      }
      allCards := allCards + more.value;
    }
    assert sections[..|sections|] == sections;
    r := Ok(allCards);
  }

  // ================================================================ records

  /** card["name"]: a KeyError when the card has no name, a TypeError when it is not an
      object (scripts/convert-cards-data.py:20). */
  function NameOf(card: Value): Result<Value> {
    match card
    case Obj(fields) => if "name" in fields then Ok(fields["name"]) else Err(KeyError("name"))
    case _ => Err(TypeError("card is not a dict"))
  }

  /** The name as the deduplication compares it, for cards that have one. */
  function CardName(card: Value): Value {
    if NameOf(card).Ok? then NameOf(card).value else Null
  }

  /** Python dict.get(key): the value, or None when the key is absent. */
  function Lookup(fields: map<string, Value>, key: string): Value {
    if key in fields then fields[key] else Null
  }

  /** card.get("identifiers", {}).get("multiverseId", ""): "" when either key is absent; an
      identifiers value that is not an object has no .get (AttributeError). */
  function MultiverseId(fields: map<string, Value>): Result<Value> {
    if "identifiers" !in fields then Ok(Str(""))
    else
      match fields["identifiers"]
      case Obj(ids) => Ok(if "multiverseId" in ids then ids["multiverseId"] else Str(""))
      case _ => Err(AttributeError("get"))
  }

  /** The output record of a kept card (scripts/convert-cards-data.py:26-44). */
  function Record(card: Value): Result<Value> {
    var fields := FieldsOf(card);
    match MultiverseId(fields)
    case Err(e) => Err(e)
    case Ok(mid) => Ok(Obj((map k | k in CardFields :: Lookup(fields, k))["multiverseId" := mid]))
  }

  /** A record has exactly the copied keys and multiverseId; a copied key holds the card's
      value, or null when the card lacks it; multiverseId is identifiers["multiverseId"] when
      both keys are present, and "" when the card has no identifiers or they have no
      multiverseId. */
  lemma RecordSpec(card: Value)
    ensures var fields := FieldsOf(card);
      Record(card).Err? <==> "identifiers" in fields && !fields["identifiers"].Obj?
    ensures var fields := FieldsOf(card);
      Record(card).Ok? ==>
      var out := Record(card).value;
      && out.Obj?
      && out.fields.Keys == (set k | k in CardFields) + {"multiverseId"}
      && (forall k :: k in CardFields ==> out.fields[k] == (if k in fields then fields[k] else Null))
      && out.fields["multiverseId"] ==
           if "identifiers" in fields && "multiverseId" in fields["identifiers"].fields
           then fields["identifiers"].fields["multiverseId"] else Str("")
  {
    assert "multiverseId" !in CardFields;
  }

  // ================================================================ deduplication

  /** The state of the deduplication loop: the names seen so far and the records output. */
  datatype Progress = Progress(seenNames: set<Value>, output: seq<Value>)

  /** One pass of the loop body (scripts/convert-cards-data.py:18-44): a card whose name was
      seen is skipped; otherwise its name is recorded and its record appended. */
  function Visit(p: Progress, card: Value): Result<Progress> {
    match NameOf(card)
    case Err(e) => Err(e)
    case Ok(name) =>
      if name in p.seenNames then Ok(p)
      else
        match Record(card)
        case Err(e) => Err(e)
        case Ok(rec) => Ok(Progress(p.seenNames + {name}, p.output + [rec]))
  }

  /** The loop state after the given cards, or the error of the first card that raised. */
  function Deduplicated(cards: seq<Value>): Result<Progress> {
    if cards == [] then Ok(Progress({}, []))
    else
      match Deduplicated(cards[..|cards| - 1])
      case Err(e) => Err(e)
      case Ok(p) => Visit(p, cards[|cards| - 1])
  }

  /** The deduplication loop of scripts/convert-cards-data.py:15-44; it also hands back the
      final set of seen names. */
  method Deduplicate(allCards: seq<Value>) returns (r: Result<seq<Value>>, seenNames: set<Value>)
    ensures Deduplicated(allCards).Ok? ==>
      r == Ok(Deduplicated(allCards).value.output) && seenNames == Deduplicated(allCards).value.seenNames
    ensures Deduplicated(allCards).Err? ==> r == Err(Deduplicated(allCards).error)
  {
    seenNames := {};
    var output: seq<Value> := [];
    for i := 0 to |allCards|
      invariant Deduplicated(allCards[..i]) == Ok(Progress(seenNames, output))
    {
      var card := allCards[i];
      assert allCards[..i + 1][..i] == allCards[..i];
      if !card.Obj? {
        r := Err(TypeError("card is not a dict"));
        DedupErrSticks(allCards, i + 1);
        return;
      }
      if "name" !in card.fields {
        r := Err(KeyError("name"));
        DedupErrSticks(allCards, i + 1);
        return;
      }
      var name := card.fields["name"];
      if name in seenNames {
        continue;
      }
      seenNames := seenNames + {name};
      var rec := Record(card);
      if rec.Err? {
        r := Err(rec.error);
        DedupErrSticks(allCards, i + 1);
        return;
      }
      output := output + [rec.value];
    }
    assert allCards[..|allCards|] == allCards;
    r := Ok(output);
  }

  /** Once a prefix of the cards raises, the whole loop raises the same error. */
  lemma {:induction false} DedupErrSticks(cards: seq<Value>, i: nat)
    requires i <= |cards| && Deduplicated(cards[..i]).Err?
    ensures Deduplicated(cards) == Deduplicated(cards[..i])
    decreases |cards| - i
  {
    if i == |cards| {
      assert cards[..i] == cards;
    } else {
      assert cards[..i + 1][..i] == cards[..i];
      DedupErrSticks(cards, i + 1);
    }
  }

  /** The cards that reach the output: those whose name no earlier card has. */
  function Kept(cards: seq<Value>): seq<Value> {
    KeepFirst(cards, CardName)
  }

  /** Every card is an object with a name, and every kept card has a record. */
  predicate Completes(cards: seq<Value>) {
    && (forall i :: 0 <= i < |cards| ==> NameOf(cards[i]).Ok?)
    && (forall k :: 0 <= k < |Kept(cards)| ==> Record(Kept(cards)[k]).Ok?)
  }

  /** The output holds the records of the kept cards, in order. */
  predicate RecordsOf(output: seq<Value>, kept: seq<Value>) {
    && |output| == |kept|
    && forall k :: 0 <= k < |kept| ==> Record(kept[k]) == Ok(output[k])
  }

  /** When the loop finishes, the seen names are the names of all cards, and the output is
      the records of the kept cards, in order. */
  lemma {:induction false} DeduplicatedState(cards: seq<Value>)
    requires Deduplicated(cards).Ok?
    ensures Deduplicated(cards).value.seenNames == KeysOf(cards, CardName)
    ensures RecordsOf(Deduplicated(cards).value.output, Kept(cards))
    decreases |cards|
  {
    if cards != [] {
      var init := cards[..|cards| - 1];
      var card := cards[|cards| - 1];
      DeduplicatedState(init);
      var p := Deduplicated(init).value;
      var kept0 := Kept(init);
      assert Kept(cards) == kept0 + (if CardName(card) in KeysOf(init, CardName) then [] else [card]);
      if CardName(card) !in p.seenNames {
        var q := Deduplicated(cards).value;
        assert q.output == p.output + [Record(card).value];
        assert Kept(cards) == kept0 + [card];
      }
    }
  }

  /** A fully named input completes when the one before its last card does, the last card
      has a name, and the last card, when it is kept, has a record. */
  lemma CompletesSnoc(cards: seq<Value>)
    requires cards != []
    ensures var init := cards[..|cards| - 1];
      var card := cards[|cards| - 1];
      Completes(cards) <==>
        && Completes(init)
        && NameOf(card).Ok?
        && (CardName(card) !in KeysOf(init, CardName) ==> Record(card).Ok?)
  {
    var init := cards[..|cards| - 1];
    var card := cards[|cards| - 1];
    assert forall i :: 0 <= i < |init| ==> init[i] == cards[i];
    var kept0 := Kept(init);
    if CardName(card) in KeysOf(init, CardName) {
      assert Kept(cards) == kept0;
    } else {
      var kept := kept0 + [card];
      assert Kept(cards) == kept;
      assert forall k :: 0 <= k < |kept0| ==> kept[k] == kept0[k];
      assert kept[|kept0|] == card;
    }
  }

  /** The loop finishes without raising exactly when every card has a name and every kept
      card has a record. */
  lemma {:induction false} DeduplicatedOk(cards: seq<Value>)
    ensures Deduplicated(cards).Ok? <==> Completes(cards)
    decreases |cards|
  {
    if cards != [] {
      var init := cards[..|cards| - 1];
      DeduplicatedOk(init);
      CompletesSnoc(cards);
      if Deduplicated(init).Ok? {
        DeduplicatedState(init);
      }
    }
  }

  // ================================================================ the script

  /** scripts/convert-cards-data.py:7-46: the cleaned records. */
  method ConvertCards(sections: seq<Value>) returns (r: Result<seq<Value>>)
    ensures match AllCards(sections)
      case Err(e) => r == Err(e)
      case Ok(cards) =>
        match Deduplicated(cards)
        case Err(e) => r == Err(e)
        case Ok(p) => r == Ok(p.output)
  {
    var allCards := CollectCards(sections);
    if allCards.Err? {
      return Err(allCards.error);
    }
    var seenNames;
    r, seenNames := Deduplicate(allCards.value);
  }

  /** The script's promises about its output: one record per distinct name, names pairwise
      distinct, no more records than cards, and after the loop the seen names are exactly the
      names in the output. */
  lemma OutputSpec(cards: seq<Value>)
    requires Deduplicated(cards).Ok?
    ensures var out := Deduplicated(cards).value.output;
      && |out| == |KeysOf(cards, CardName)| <= |cards|
      && (forall i, j :: 0 <= i < j < |out| ==> CardName(out[i]) != CardName(out[j]))
      && Deduplicated(cards).value.seenNames == KeysOf(out, CardName)
  {
    DeduplicatedState(cards);
    KeepFirstCount(cards, CardName);
    KeepFirstDistinct(cards, CardName);
    KeepFirstKeys(cards, CardName);
    var out := Deduplicated(cards).value.output;
    SameNames(out, Kept(cards));
  }

  /** Records carry the names of their cards. */
  lemma SameNames(out: seq<Value>, kept: seq<Value>)
    requires RecordsOf(out, kept)
    ensures forall k :: 0 <= k < |out| ==> CardName(out[k]) == CardName(kept[k])
    ensures KeysOf(out, CardName) == KeysOf(kept, CardName)
  {
    forall k | 0 <= k < |out| ensures CardName(out[k]) == CardName(kept[k]) {
      RecordName(kept[k]);
    }
    KeysOfSpec(out, CardName);
    KeysOfSpec(kept, CardName);
  }

  /** The record of a card has the card's name; it is null for a card without one. */
  lemma RecordName(card: Value)
    requires Record(card).Ok?
    ensures CardName(Record(card).value) == CardName(card)
  {
    RecordSpec(card);
  }
}
