/** The word-lookup endpoint: validation, the choice of the word to look up,
    the five concurrent tasks, and how the response is assembled from their
    results. The translator, the text-to-speech service, the synonym source,
    the article detector and the article stripper are foreign and enter as
    the functions of `Services`. */
module Lookup {
  import opened Text
  import opened Values
  import Constants
  import Translation

  /** The request body; pydantic fills in `de`, `en` and no secondary
      language when the client leaves them out. */
  datatype WordRequest = WordRequest(word: string, sourceLang: string, targetLang: string, secondaryLang: Option<string>)

  function DefaultRequest(word: string): WordRequest {
    WordRequest(word, "de", "en", None)
  }

  /** The foreign collaborators, as functions of their arguments. */
  datatype Services = Services(
    translator: (string, string, string) -> Translation.Outcome<Option<string>>,  // text, source, target
    audioUrl: (string, string) -> Option<string>,  // the "audio_url" of get_audio_url_async(text, voice)
    synonyms: string -> seq<string>,
    articleForm: string -> Option<string>,  // get_word_with_article_async
    removeArticle: string -> string)

  /** One awaitable of the `tasks` list. `Immediate` is `asyncio.sleep(0, result=...)`. */
  datatype Task =
    | Translate(text: string, source: string, target: string)
    | FetchAudio(text: string, voice: string)
    | Immediate(result: Option<string>)
    | FetchSynonyms(text: string)
    | FetchArticle(text: string)

  /** The voice for the source language; an unknown language falls back to
      the German voice. */
  function Voice(source: string): string {
    if source in Constants.SupportedLanguages then Constants.SupportedLanguages[source].voice
    else Constants.FallbackVoice
  }

  lemma VoiceFallback(source: string)
    ensures source !in Constants.SupportedLanguages ==> Voice(source) == "de-DE-KatjaNeural"
    ensures Voice("de") == "de-DE-KatjaNeural"
  {
  }

  /** The word that is looked up: the article stripper applies only to a
      German source. */
  function CleanWord(svc: Services, rawWord: string, source: string): (r: string)
    ensures source != "de" ==> r == rawWord
  {
    if source == "de" then svc.removeArticle(rawWord) else rawWord
  }

  /** Whether a secondary translation is requested: only for a truthy
      secondary language that differs from the target. */
  predicate WantsSecondary(target: string, secondary: Option<string>) {
    Truthy(secondary) && secondary.value != target
  }

  /** The `tasks` list, grown one append at a time. */
  method PlanTasks(cleanWord: string, source: string, target: string, secondary: Option<string>)
    returns (tasks: seq<Task>)
    ensures |tasks| == 5
    ensures tasks[0] == Translate(cleanWord, source, target)
    ensures tasks[1] == FetchAudio(cleanWord, Voice(source))
    ensures WantsSecondary(target, secondary) ==> tasks[2] == Translate(cleanWord, source, secondary.value)
    ensures !WantsSecondary(target, secondary) && secondary == Some(target) ==> tasks[2] == Immediate(Some(""))
    ensures !WantsSecondary(target, secondary) && secondary != Some(target) ==> tasks[2] == Immediate(None)
    ensures tasks[3] == FetchSynonyms(cleanWord)
    ensures source == "de" ==> tasks[4] == FetchArticle(cleanWord)
    ensures source != "de" ==> tasks[4] == Immediate(None)
  {
    tasks := [];
    tasks := tasks + [Translate(cleanWord, source, target)];
    var voice := Voice(source);
    tasks := tasks + [FetchAudio(cleanWord, voice)];
    if Truthy(secondary) && secondary.value != target {
      tasks := tasks + [Translate(cleanWord, source, secondary.value)];
    } else if secondary == Some(target) {
      tasks := tasks + [Immediate(Some(""))];
    } else {
      tasks := tasks + [Immediate(None)];
    }
    tasks := tasks + [FetchSynonyms(cleanWord)];
    if source == "de" {
      tasks := tasks + [FetchArticle(cleanWord)];
    } else {
      tasks := tasks + [Immediate(None)];
    }
  }

  /** What an awaited task yields. */
  datatype TaskValue = TextResult(text: Option<string>) | AudioData(url: Option<string>) | WordList(items: seq<string>)

  function Run(svc: Services, task: Task): TaskValue {
    match task
    case Translate(text, source, target) => TextResult(Some(Translation.TranslateTextAsync(svc.translator(text, source, target))))
    case FetchAudio(text, voice) => AudioData(svc.audioUrl(text, voice))
    case Immediate(r) => TextResult(r)
    case FetchSynonyms(text) => WordList(svc.synonyms(text))
    case FetchArticle(text) => TextResult(svc.articleForm(text))
  }

  /** `asyncio.gather`: the results in task order. */
  function Gather(svc: Services, tasks: seq<Task>): (results: seq<TaskValue>)
    ensures |results| == |tasks|
    ensures forall i :: 0 <= i < |tasks| ==> results[i] == Run(svc, tasks[i])
  {
    seq(|tasks|, i requires 0 <= i < |tasks| => Run(svc, tasks[i]))
  }

  function TextOf(v: TaskValue): Option<string> {
    if v.TextResult? then v.text else None
  }

  function AudioOf(v: TaskValue): Option<string> {
    if v.AudioData? then v.url else None
  }

  function WordsOf(v: TaskValue): seq<string> {
    if v.WordList? then v.items else []
  }

  /** `[d for d in xs if d]`. */
  function NonEmpty(xs: seq<string>): (r: seq<string>)
    ensures |r| <= |xs|
    ensures forall k :: 0 <= k < |r| ==> r[k] != ""
    ensures forall k :: 0 <= k < |xs| && xs[k] != "" ==> xs[k] in r
    ensures forall k :: 0 <= k < |r| ==> r[k] in xs
  {
    if xs == [] then []
    else (if xs[0] == "" then [] else [xs[0]]) + NonEmpty(xs[1..])
  }

  /** The filter keeps the order of the list: it works element by element. */
  lemma {:induction false} NonEmptyAppend(a: seq<string>, b: seq<string>)
    ensures NonEmpty(a + b) == NonEmpty(a) + NonEmpty(b)
  {
    if a == [] {
      assert a + b == b;
    } else {
      assert (a + b)[1..] == a[1..] + b;
      NonEmptyAppend(a[1..], b);
    }
  }

  /** The `definitions` of the response, built from the secondary slot. */
  function DefinitionsList(extra: Option<string>): (r: seq<string>)
    ensures |r| <= 1
    ensures forall k :: 0 <= k < |r| ==> r[k] != ""
    ensures r == [] <==> !Truthy(extra)
    ensures Truthy(extra) ==> r == [extra.value]
  {
    NonEmpty(if Truthy(extra) then [extra.value] else [])
  }

  /** The file name the audio cleanup is asked to keep: the part of the URL
      after its last `'/'`, or nothing for a falsy URL. */
  function AudioFileName(audioUrl: Option<string>): (r: Option<string>)
    ensures r.Some? <==> Truthy(audioUrl)
    ensures r.Some? ==> '/' !in r.value && EndsWith(audioUrl.value, r.value)
    ensures r.Some? ==> r.value == LastSegment(audioUrl.value)
  {
    if Truthy(audioUrl) then Some(LastSegment(audioUrl.value)) else None
  }

  datatype LookupResponse = LookupResponse(
    originalWord: string,
    cleanWord: string,
    definitions: seq<string>,
    englishDefinition: string,
    synonyms: seq<string>,
    audioUrl: Option<string>,
    sourceLang: string,
    targetLang: string,
    secondaryLang: Option<string>)

  /** A response together with the file handed to the background audio
      cleanup (when one is scheduled), or the HTTP error raised. */
  datatype LookupResult =
    | Found(response: LookupResponse, cleanupFile: Option<string>)
    | HttpError(status: int, detail: string)

  /** The response built from the five task results (positions as planned). */
  function Assemble(rawWord: string, cleanWord: string, request: WordRequest, results: seq<TaskValue>): (r: LookupResponse)
    requires |results| == 5
    ensures r.originalWord == rawWord
    ensures !Truthy(TextOf(results[4])) ==> r.cleanWord == cleanWord
    ensures Truthy(TextOf(results[4])) ==> r.cleanWord == TextOf(results[4]).value
    ensures r.definitions == [] <==> !Truthy(TextOf(results[2]))
    ensures r.sourceLang == request.sourceLang && r.targetLang == request.targetLang && r.secondaryLang == request.secondaryLang
  {
    var articleWord := TextOf(results[4]);
    LookupResponse(
      rawWord,
      if Truthy(articleWord) then articleWord.value else cleanWord,
      DefinitionsList(TextOf(results[2])),
      TextOf(results[0]).GetOr(""),
      WordsOf(results[3]),
      AudioOf(results[1]),
      request.sourceLang,
      request.targetLang,
      request.secondaryLang)
  }

  /** The response `lookup_word` promises for a non-empty stripped word,
      stated field by field from the services rather than from the tasks. */
  function Expected(svc: Services, request: WordRequest, raw: string): (r: LookupResponse)
    ensures r.originalWord == raw
    ensures request.sourceLang != "de" ==> r.cleanWord == raw
    ensures r.sourceLang == request.sourceLang && r.targetLang == request.targetLang && r.secondaryLang == request.secondaryLang
  {
    var source := request.sourceLang;
    var target := request.targetLang;
    var secondary := request.secondaryLang;
    var clean := CleanWord(svc, raw, source);
    var article := if source == "de" then svc.articleForm(clean) else None;
    LookupResponse(
      raw,
      if Truthy(article) then article.value else clean,
      if WantsSecondary(target, secondary)
      then DefinitionsList(Some(Translation.TranslateTextAsync(svc.translator(clean, source, secondary.value))))
      else [],
      Translation.TranslateTextAsync(svc.translator(clean, source, target)),
      svc.synonyms(clean),
      svc.audioUrl(clean, Voice(source)),
      source,
      target,
      secondary)
  }

  /** The `definitions` of a response: at most the one secondary translation,
      never an empty string, and none when no secondary language is asked
      for or it equals the target. */
  lemma ExpectedDefinitions(svc: Services, request: WordRequest, raw: string)
    ensures var defs := Expected(svc, request, raw).definitions;
      && |defs| <= 1
      && (forall k :: 0 <= k < |defs| ==> defs[k] != "")
      && (!WantsSecondary(request.targetLang, request.secondaryLang) ==> defs == [])
      && (request.secondaryLang.None? || request.secondaryLang == Some(request.targetLang) ==> defs == [])
  {
  }

  /** The home page posts only the word, so its requests carry the defaults:
      German to English with no secondary language, and their responses
      never hold secondary definitions. */
  lemma PageRequestHasNoDefinitions(svc: Services, word: string, raw: string)
    ensures var r := Expected(svc, DefaultRequest(word), raw);
      && r.definitions == []
      && r.sourceLang == "de" && r.targetLang == "en" && r.secondaryLang.None?
  {
    ExpectedDefinitions(svc, DefaultRequest(word), raw);
  }

  /** Gathering the planned tasks and assembling their results gives the
      expected response. */
  lemma AssembleAsPlanned(svc: Services, request: WordRequest, raw: string, tasks: seq<Task>)
    requires var clean, source := CleanWord(svc, raw, request.sourceLang), request.sourceLang;
      && |tasks| == 5
      && tasks[0] == Translate(clean, source, request.targetLang)
      && tasks[1] == FetchAudio(clean, Voice(source))
      && (WantsSecondary(request.targetLang, request.secondaryLang) ==> tasks[2] == Translate(clean, source, request.secondaryLang.value))
      && (!WantsSecondary(request.targetLang, request.secondaryLang) && request.secondaryLang == Some(request.targetLang) ==> tasks[2] == Immediate(Some("")))
      && (!WantsSecondary(request.targetLang, request.secondaryLang) && request.secondaryLang != Some(request.targetLang) ==> tasks[2] == Immediate(None))
      && tasks[3] == FetchSynonyms(clean)
      && (source == "de" ==> tasks[4] == FetchArticle(clean))
      && (source != "de" ==> tasks[4] == Immediate(None))
    ensures Assemble(raw, CleanWord(svc, raw, request.sourceLang), request, Gather(svc, tasks)) == Expected(svc, request, raw)
  {
  }

  /** `lookup_word`: a 400 error for a blank word, otherwise the expected
      response and the audio file the background cleanup must keep. */
  method LookupWord(request: WordRequest, svc: Services) returns (result: LookupResult)
    ensures result.HttpError? <==> Strip(request.word) == ""
    ensures result.HttpError? ==> result == HttpError(400, "Word cannot be empty")
    ensures result.Found? ==>
      && result.response == Expected(svc, request, Strip(request.word))
      && result.cleanupFile == (var f := AudioFileName(result.response.audioUrl); if Truthy(f) then f else None)
  {
    var rawWord := Strip(request.word);
    if rawWord == "" {
      return HttpError(400, "Word cannot be empty");
    }
    var source := request.sourceLang;
    var target := request.targetLang;
    var secondary := request.secondaryLang;
    var cleanWord := if source == "de" then svc.removeArticle(rawWord) else rawWord;
    var tasks := PlanTasks(cleanWord, source, target, secondary);
    var results := Gather(svc, tasks);
    AssembleAsPlanned(svc, request, rawWord, tasks);
    var response := Assemble(rawWord, cleanWord, request, results);
    var audioFilename := AudioFileName(response.audioUrl);
    var cleanupFile := if Truthy(audioFilename) then audioFilename else None;
    result := Found(response, cleanupFile);
  }
}
