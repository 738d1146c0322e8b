/** The home page's state: the search box, the lookup in flight, the card
    shown, the error message and the saved cards, which mirror the user's
    selection by `clean_word`. The HTTP calls and the file downloads are
    foreign: a lookup's reply is a parameter, and an export yields the
    request it would post. */
module Page {
  import opened Values
  import opened Words

  /** `savedCards.some(c => c.clean_word === w)`. */
  function Contains(saved: seq<WordData>, w: string): (r: bool)
    ensures r <==> exists i :: 0 <= i < |saved| && saved[i].cleanWord == w
  {
    if saved == [] then false
    else saved[0].cleanWord == w || Contains(saved[1..], w)
  }

  /** `isSaved`: false when no card is shown. */
  function IsSaved(saved: seq<WordData>, data: Option<WordData>): (r: bool)
    ensures r <==> data.Some? && exists i :: 0 <= i < |saved| && saved[i].cleanWord == data.value.cleanWord
  {
    data.Some? && Contains(saved, data.value.cleanWord)
  }

  /** `savedCards.filter(c => c.clean_word !== w)`. */
  function Without(saved: seq<WordData>, w: string): (r: seq<WordData>)
    ensures |r| <= |saved|
    ensures forall c :: c in r <==> c in saved && c.cleanWord != w
    ensures !Contains(r, w)
  {
    if saved == [] then []
    else (if saved[0].cleanWord != w then [saved[0]] else []) + Without(saved[1..], w)
  }

  /** The saved cards after `toggleSave`. */
  function Toggled(saved: seq<WordData>, data: Option<WordData>): (r: seq<WordData>)
    ensures data.None? ==> r == saved
    ensures data.Some? ==> (IsSaved(r, data) <==> !IsSaved(saved, data))
    ensures data.Some? ==> forall c: WordData :: c.cleanWord != data.value.cleanWord ==> (c in r <==> c in saved)
  {
    if data.None? then saved
    else if IsSaved(saved, data) then Without(saved, data.value.cleanWord)
    else
      assert (saved + [data.value])[|saved|] == data.value;
      saved + [data.value]
  }

  /** Filtering works element by element: the cards that stay keep their
      order. */
  lemma {:induction false} WithoutAppend(a: seq<WordData>, b: seq<WordData>, w: string)
    ensures Without(a + b, w) == Without(a, w) + Without(b, w)
  {
    if a != [] {
      assert (a + b)[0] == a[0];
      assert (a + b)[1..] == a[1..] + b;
      WithoutAppend(a[1..], b, w);
    } else {
      assert a + b == b;
    }
  }

  /** Removing a word that no saved card has changes nothing. */
  lemma {:induction false} WithoutAbsent(saved: seq<WordData>, w: string)
    requires !Contains(saved, w)
    ensures Without(saved, w) == saved
  {
    if saved != [] {
      WithoutAbsent(saved[1..], w);
    }
  }

  /** Removing a word twice is removing it once. */
  lemma WithoutIdempotent(saved: seq<WordData>, w: string)
    ensures Without(Without(saved, w), w) == Without(saved, w)
  {
    WithoutAbsent(Without(saved, w), w);
  }

  /** Saving an unsaved card appends it at the end. */
  lemma ToggleUnsavedAppends(saved: seq<WordData>, card: WordData)
    requires !Contains(saved, card.cleanWord)
    ensures Toggled(saved, Some(card)) == saved + [card]
    ensures IsSaved(Toggled(saved, Some(card)), Some(card))
  {
    assert (saved + [card])[|saved|] == card;
  }

  /** Unsaving a saved card removes every card with its word, and then the
      card shows as not saved. */
  lemma ToggleSavedRemoves(saved: seq<WordData>, card: WordData)
    requires Contains(saved, card.cleanWord)
    ensures Toggled(saved, Some(card)) == Without(saved, card.cleanWord)
    ensures !IsSaved(Toggled(saved, Some(card)), Some(card))
  {
  }

  /** Toggling an unsaved card twice restores the saved cards. */
  lemma ToggleTwice(saved: seq<WordData>, card: WordData)
    requires !Contains(saved, card.cleanWord)
    ensures Toggled(Toggled(saved, Some(card)), Some(card)) == saved
  {
    ToggleUnsavedAppends(saved, card);
    WithoutAppend(saved, [card], card.cleanWord);
    WithoutAbsent(saved, card.cleanWord);
  }

  /** JavaScript's white space and line terminators, which `trim()` removes. */
  predicate JsIsSpace(c: char) {
    || c == '\t' || c == '\n' || c == '\U{B}' || c == '\U{C}' || c == '\r' || c == ' '
    || c == '\U{A0}' || c == '\U{1680}' || ('\U{2000}' <= c <= '\U{200A}')
    || c == '\U{2028}' || c == '\U{2029}' || c == '\U{202F}' || c == '\U{205F}'
    || c == '\U{3000}' || c == '\U{FEFF}'
  }

  /** `!s.trim()`: the trimmed text is empty exactly when every character is
      white space. */
  predicate Blank(s: string) {
    forall i :: 0 <= i < |s| ==> JsIsSpace(s[i])
  }

  const LookupError: string := "Could not find word. Please try again."

  /** What an export posts: the endpoint, the saved cards and the name the
      download is saved under. */
  datatype ExportRequest = ExportRequest(url: string, cards: seq<WordData>, fileName: string)

  /** The two exports of the page. */
  datatype ExportKind = AnkiDeck | ObsidianZip {
    function Url(): string {
      match this
      case AnkiDeck => "http://localhost:8000/api/anki/download"
      case ObsidianZip => "http://localhost:8000/api/obsidian/download"
    }

    function FileName(): string {
      match this
      case AnkiDeck => "UniversalLanguageDeck.apkg"
      case ObsidianZip => "UniversalLanguageObsidian.zip"
    }
  }

  class HomeState {
    var query: string
    var loading: bool
    var data: Option<WordData>
    var error: Option<string>
    var savedCards: seq<WordData>

    constructor ()
      ensures query == "" && !loading && data.None? && error.None? && savedCards == []
    {
      query := "";
      loading := false;
      data := None;
      error := None;
      savedCards := [];
    }

    /** The synchronous part of `searchForWord`, up to the request. */
    method StartSearch(wordToSearch: string) returns (started: bool)
      modifies this
      ensures query == wordToSearch && savedCards == old(savedCards)
      ensures started <==> !Blank(wordToSearch)
      ensures !started ==> loading == old(loading) && data == old(data) && error == old(error)
      ensures started ==> loading && data.None? && error.None?
    {
      query := wordToSearch;
      if Blank(wordToSearch) {
        return false;
      }
      loading := true;
      error := None;
      data := None;
      started := true;
    }

    /** The part of `searchForWord` after the request settles: the reply's
      card, or the error message when the request failed (`None`). */
    method FinishSearch(reply: Option<WordData>)
      modifies this
      ensures query == old(query) && savedCards == old(savedCards) && !loading
      ensures reply.Some? ==> data == reply && error == old(error)
      ensures reply.None? ==> error == Some(LookupError) && data == old(data)
    {
      if reply.Some? {
        data := reply;
      } else {
        error := Some(LookupError);
      }
      loading := false;
    }

    /** `searchForWord` from start to finish. */
    method SearchForWord(wordToSearch: string, reply: Option<WordData>)
      modifies this
      ensures query == wordToSearch && savedCards == old(savedCards)
      ensures Blank(wordToSearch) ==> loading == old(loading) && data == old(data) && error == old(error)
      ensures !Blank(wordToSearch) ==> !loading && data == reply
      ensures !Blank(wordToSearch) ==> error == (if reply.Some? then None else Some(LookupError))
    {
      var started := StartSearch(wordToSearch);
      if started {
        FinishSearch(reply);
      }
    }

    /** `toggleSave`. */
    method ToggleSave()
      modifies this
      ensures savedCards == Toggled(old(savedCards), data)
      ensures query == old(query) && loading == old(loading) && data == old(data) && error == old(error)
    {
      if data.None? {
        return;
      }
      if IsSaved(savedCards, data) {
        savedCards := Without(savedCards, data.value.cleanWord);
      } else {
        savedCards := savedCards + [data.value];
      }
    }

    /** `removeCard`. */
    method RemoveCard(wordToCheck: string)
      modifies this
      ensures savedCards == Without(old(savedCards), wordToCheck)
      ensures query == old(query) && loading == old(loading) && data == old(data) && error == old(error)
    {
      savedCards := Without(savedCards, wordToCheck);
    }

    /** `downloadAnkiDeck` and `downloadObsidian`: nothing is posted for an
        empty selection; otherwise every saved card goes to the export's
        endpoint and the reply is saved under the export's file name. */
    method Download(kind: ExportKind) returns (request: Option<ExportRequest>)
      ensures request.None? <==> savedCards == []
      ensures request.Some? ==> request.value == ExportRequest(kind.Url(), savedCards, kind.FileName())
    {
      if |savedCards| == 0 {
        return None;
      }
      request := Some(ExportRequest(kind.Url(), savedCards, kind.FileName()));
    }
  }
}
