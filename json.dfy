/** JSON values as the card scripts read them from the card database and write them back. */
module Json {

  /** A JSON value. Numbers are integers here; an object is a map from keys to values. */
  datatype Value =
    | Null
    | Bool(b: bool)
    | Num(n: int)
    | Str(s: string)
    | Arr(items: seq<Value>)
    | Obj(fields: map<string, Value>)

  /** The fields of an object; none for any other value. */
  function FieldsOf(v: Value): map<string, Value> {
    if v.Obj? then v.fields else map[]
  }

  /** The card fields both converters copy into their output records, besides multiverseId
      (scripts/convert-cards-data.py:27-42, model_code/convert.js:28-43). */
  const CardFields: seq<string> := [
    "uuid", "borderColor", "colors", "convertedManaCost", "legalities", "manaCost",
    "manaValue", "name", "keywords", "originalText", "rarity", "rulings", "types",
    "subtypes", "toughness", "power"
  ]

  /** JavaScript truthiness: null, false, 0 and "" are falsy; arrays and objects, even empty
      ones, are truthy. */
  predicate Truthy(v: Value) {
    match v
    case Null => false
    case Bool(b) => b
    case Num(n) => n != 0
    case Str(s) => s != ""
    case Arr(_) => true
    case Obj(_) => true
  }
}
