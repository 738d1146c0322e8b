/** The dynamically typed values the backend passes around: optional values,
    JSON keys that may be missing or null, and the card dictionary that the
    frontend posts and the store keeps. */
module Values {

  datatype Option<T> = None | Some(value: T) {
    function GetOr(default: T): T {
      if Some? then value else default
    }
  }

  /** A key of a JSON object: absent, present with `null`, or present with a
      value. `dict.get(key, default)` returns the default only when absent. */
  datatype Field<T> = Missing | Null | Present(value: T) {
    function Get(default: Option<T>): Option<T> {
      match this
      case Missing => default
      case Null => None
      case Present(v) => Some(v)
    }
  }

  /** Python truthiness of an optional string: neither `None` nor `""`. */
  predicate Truthy(s: Option<string>) {
    s.Some? && s.value != ""
  }

  /** The `definitions` value of a card: normally a list, but a plain string
      is accepted too. */
  datatype Definitions = DefList(items: seq<string>) | DefText(text: string)

  /** A card as a JSON object (a word record returned by the lookup and saved
      by the client). Keys that the backend reads with `dict.get` and no
      `None` handling are absent-or-present; `audio_url` and `secondary_lang`
      may also be `null`. */
  datatype Card = Card(
    originalWord: Option<string>,
    cleanWord: Option<string>,
    definitions: Option<Definitions>,
    englishDefinition: Option<string>,
    synonyms: Option<seq<string>>,
    audioUrl: Field<string>,
    sourceLang: Option<string>,
    targetLang: Option<string>,
    secondaryLang: Field<string>)

  /** The `definitions` of a card as a list: a missing key gives `[]`, a
      string is wrapped into a one-element list. */
  function DefinitionItems(d: Option<Definitions>): seq<string>
  {
    match d
    case None => []
    case Some(DefList(xs)) => xs
    case Some(DefText(s)) => [s]
  }
}
