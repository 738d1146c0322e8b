/** The word record the frontend keeps and renders: the lookup response,
    optionally with the languages it was looked up in and the time of its
    last review. */
module Words {
  import opened Values

  datatype WordData = WordData(
    originalWord: string,
    cleanWord: string,
    definitions: seq<string>,
    englishDefinition: string,
    synonyms: seq<string>,
    audioUrl: Option<string>,
    lastReview: Option<string>,
    sourceLang: Option<string>,
    targetLang: Option<string>,
    secondaryLang: Option<string>)

  /** JavaScript's `a || b` on an optional string: `b` when `a` is missing
      or empty. */
  function OrElse(a: Option<string>, b: string): string {
    if Truthy(a) then a.value else b
  }
}
