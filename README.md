# A.E.L.L.A. vocabulary core in Dafny

This project models the core of a vocabulary-learning app. The backend is
Python:

- It looks up a word. It translates the word into a target language and,
  optionally, a secondary one. It also fetches pronunciation audio,
  synonyms and, for German, the form with its article.
- It keeps saved cards in lists in a SQLite store.
- It deletes audio files that no saved card needs any more.
- It exports cards as an Anki deck or as a zip for Obsidian.

The frontend is React. It keeps the saved cards of a session and guards
the export buttons. It shows a review overlay with a session timer, a card
that flips, and rating buttons.

## Modules

Each module follows one source file:

- `Text` holds the string helpers the code relies on: Python's `strip`,
  `join`, `split('/')[-1]`, and decimal number formatting.
- `Values` models the JSON card dictionary. Keys may be missing or `null`,
  and `definitions` may be a string or a list.
- `Words` models the frontend's `WordData`.
- `Constants` holds the supported languages and their voices.
- `Translation` covers cleaning the scraped definitions, plus the fallbacks
  of the scraper and of the translator.
- `Lookup` is the `/lookup` endpoint.
- `Anki` is deck creation. `Deck` is a class whose notes grow one at a time.
- `Obsidian` builds the zip. It is modelled as the list of entries written,
  in order.
- `Db` is the store, as a class `VocabularyStore`:
  - `lists` is a map from list id to list name.
  - `cards` is a map from (clean word, list id) to card.
  - Two flags record whether the schema exists and whether a legacy one-list table is present.
- `Audio` is the cleanup. A directory is the set of its file names.
- `Page` is the home page's search and saved-cards state, as a class `HomeState`.
- `Overlay` is the review overlay's view logic.

Foreign calls are parameters of the model. These are:

- translation;
- text to speech;
- synonyms;
- article detection and article removal;
- HTTP downloads;
- Python's `str.upper` and `str.title`.

## Model

| member | source | states |
|---|---|---|
| Text.Strip | backend/app/routers/lookup.py:23 | the stripped text neither starts nor ends with whitespace |
| Text.StripSpec | backend/app/routers/lookup.py:23-25 | stripping yields "" exactly when every character is whitespace; otherwise the result is the contiguous slice that starts after the leading whitespace, and everything after that slice is whitespace |
| Text.StripIdempotent | backend/app/services/translation.py:30 | stripping twice is the same as stripping once |
| Text.StripLeadingSpace | backend/app/services/translation.py:30 | a leading whitespace character does not change the stripped text |
| Text.StripUnchanged | backend/app/services/translation.py:30 | a text without leading or trailing whitespace is its own strip |
| Text.JoinSnoc | backend/app/services/anki.py:42-43 | joining one more item appends the separator and the item |
| Text.JoinEmpty | backend/app/services/anki.py:42-43 | with a non-empty separator, a join is empty exactly when there are no items or only one empty item |
| Text.LastSegment | backend/app/routers/lookup.py:78 | the last '/'-segment is a suffix of the URL, contains no '/' and is preceded by a '/' when shorter than the URL |
| Text.LastSegmentNoSlash | backend/app/routers/lookup.py:78 | a URL without '/' is its own last segment |
| Text.NatToString | backend/app/services/anki.py:42 | the decimal text of a number is non-empty ASCII digits without a leading zero, one digit exactly below 10 |
| Text.ParseNatToString | backend/app/services/anki.py:42 | reading the decimal text of a number gives the number back |
| Text.ParseLeadingZero | frontend/components/LearningOverlay.tsx:65 | a zero added in front by padding does not change the value read |
| Translation.StripNumbering | backend/app/services/translation.py:30 | removing the numbering prefix never lengthens the text, and any change shortens it |
| Translation.CleanDefinition | backend/app/services/translation.py:30 | a cleaned definition is no longer than the span text and neither starts nor ends with whitespace |
| Translation.NumberingMatch | backend/app/services/translation.py:30 | the numbering prefix (digits, spaces, a dot) is removed exactly when the text starts with one; the removal drops the prefix and the whitespace after it |
| Translation.UnnumberedIsStripped | backend/app/services/translation.py:30 | a text with no numbering prefix is only stripped |
| Translation.NumberedLosesOnePrefix | backend/app/services/translation.py:30 | for a numbered text, cleaning gives the stripped rest after the dot |
| Translation.OneDigitNumbering | backend/app/services/translation.py:30 | "d. rest" cleans to rest for any decimal digit d |
| Translation.CleaningRemovesOnlyOnePrefix | backend/app/services/translation.py:30 | the pattern is anchored and not repeated: "1. 2. x" cleans to "2. x" |
| Translation.PersianNumberingRemoved | backend/app/services/translation.py:30 | `\d` also matches Extended Arabic-Indic digits, so "۱. x" cleans to "x" |
| Translation.ParseDefinition | backend/app/services/translation.py:11-36 | no quick-access block gives []; otherwise the cleaning loop yields the cleaned texts, in order, skipping those that are empty before or after cleaning |
| Translation.CleanedDefinitions | backend/app/services/translation.py:25-34 | never more definitions than span texts |
| Translation.CleanedNonEmpty | backend/app/services/translation.py:27-32 | no parsed definition is the empty string |
| Translation.CleanedAppend | backend/app/services/translation.py:26-34 | cleaning distributes over concatenation of the span texts: each text is cleaned on its own |
| Translation.CleanedMembership | backend/app/services/translation.py:26-34 | a definition is in the result exactly when some non-empty span text cleans to it |
| Translation.ContributionMembership | backend/app/services/translation.py:27-32 | one span text contributes x exactly when it is non-empty and cleans to the non-empty x |
| Translation.TranslateTextAsync | backend/app/services/translation.py:60-76 | the translation is non-empty exactly when the translator returned a truthy result, and then it is that result; an exception or an empty result gives "" |
| Translation.ScrapePersianDefinitions | backend/app/services/translation.py:38-55 | an exception, a status other than 200 or a page without the block gives []; a 200 page with the block gives its cleaned definitions; no definition is ever empty |
| Lookup.CleanWord | backend/app/routers/lookup.py:36-39 | a source other than German keeps the raw word as the clean word |
| Lookup.VoiceFallback | backend/app/routers/lookup.py:48 | an unsupported source language falls back to the German voice, which is also German's own |
| Lookup.PlanTasks | backend/app/routers/lookup.py:42-66 | the five tasks in order: primary translation, audio with the source's voice, then the secondary translation (only for a truthy secondary that differs from the target; "" when it equals the target; None otherwise), then synonyms, then the article form (German only) |
| Lookup.Gather | backend/app/routers/lookup.py:69 | one result per task, each the result of its own task, in task order |
| Lookup.NonEmpty | backend/app/routers/lookup.py:87 | filtering keeps every non-empty definition, drops the empty ones and adds nothing |
| Lookup.NonEmptyAppend | backend/app/routers/lookup.py:87 | filtering distributes over concatenation |
| Lookup.DefinitionsList | backend/app/routers/lookup.py:86-87 | at most one definition, never empty; none exactly when the secondary result is not truthy, and otherwise exactly that result |
| Lookup.AudioFileName | backend/app/routers/lookup.py:77-78 | a file name exactly for a truthy audio URL; it is the URL's last '/'-segment, a '/'-free suffix of the URL |
| Lookup.ExpectedDefinitions | backend/app/routers/lookup.py:52-57 | the response's definitions: at most one, none empty, none when the secondary language is missing or equals the target |
| Lookup.Assemble | backend/app/routers/lookup.py:84-99 | the response echoes the raw word and the three languages; the article form is shown when one came back, and the clean word otherwise; definitions are empty exactly when the secondary result is not truthy |
| Lookup.Expected | backend/app/routers/lookup.py:36-99 | the expected response echoes the raw word and the languages, and outside German the clean word is the raw word |
| Lookup.PageRequestHasNoDefinitions | backend/app/routers/lookup.py:14-19 | a request that gives only the word, as the home page's does, is German to English with no secondary language, and its response has no definitions |
| Lookup.AssembleAsPlanned | backend/app/routers/lookup.py:69-99 | assembling the gathered results of the planned tasks gives the response defined field by field from the services |
| Lookup.LookupWord | backend/app/routers/lookup.py:22-99 | a 400 "Word cannot be empty" error exactly when the stripped word is empty; otherwise the expected response for the stripped word, with cleanup scheduled for its truthy audio file name |
| Anki.NumberedItems | backend/app/services/anki.py:42 | item i reads "i+1. d", numbering from 1 |
| Anki.PersianField | backend/app/services/anki.py:42 | the Persian field is empty exactly when there are no definitions |
| Anki.PersianFieldSingle | backend/app/services/anki.py:42 | a single definition is numbered 1 |
| Anki.PersianFieldSnoc | backend/app/services/anki.py:42 | one more definition appends "<br>", its 1-based number and the definition |
| Anki.StringDefinitionIsOneItem | backend/app/services/anki.py:39-42 | a string definition becomes the single item "1. s" |
| Anki.SynonymsField | backend/app/services/anki.py:43 | the synonyms field is empty exactly for no synonyms or one empty synonym |
| Anki.NoteOf | backend/app/services/anki.py:35-48 | a missing clean word, English definition or synonyms key gives an empty field; the Persian field is empty exactly when the card has no definition items |
| Anki.Notes | backend/app/services/anki.py:34-49 | one note per card, in card order |
| Anki.Deck.constructor | backend/app/services/anki.py:32 | a new deck with the given id and name and no notes |
| Anki.Deck.AddNote | backend/app/services/anki.py:49 | the deck's notes grow by the new note at the end |
| Anki.CreateDeck | backend/app/services/anki.py:6-57 | a new deck whose id lies in [2^30, 2^31), holding exactly the cards' notes in card order |
| Obsidian.LanguageLabel | backend/app/services/obsidian.py:22-27 | a known code gets its display name; an unknown code gets its upper-cased form, which is non-empty when the code is |
| Obsidian.SecondaryLabel | backend/app/services/obsidian.py:93-96 | with no truthy secondary language, the card's or else the request's, the label is "SECONDARY"; it is never empty when upper-casing keeps text non-empty |
| Obsidian.TargetLabelNamed | backend/app/services/obsidian.py:92-95 | the target label is the upper-cased display name of the card's or else the request's target; an unknown code is upper-cased twice; a non-empty code gives a non-empty label |
| Obsidian.SecondaryLabelNamed | backend/app/services/obsidian.py:93-96 | a truthy secondary language is labelled by its upper-cased display name, or by its code upper-cased twice when unknown |
| Obsidian.AudioEmbed | backend/app/services/obsidian.py:78-80 | an audio embed appears exactly for a card with a truthy audio URL |
| Obsidian.SynonymsLine | backend/app/services/obsidian.py:70-71 | the synonyms line appears exactly when the joined synonyms are non-empty |
| Obsidian.CardBlockShape | backend/app/services/obsidian.py:76-114 | a card's block opens with its callout header and ends with an empty line |
| Obsidian.NoteTextShape | backend/app/services/obsidian.py:37-117 | the main note starts with the title heading, and with no cards it is only that heading |
| Obsidian.CardBlocks | backend/app/services/obsidian.py:58-114 | one block per card, in card order |
| Obsidian.QuoteLinesAppend | backend/app/services/obsidian.py:105 | the newline replacement distributes over concatenation |
| Obsidian.QuoteLinesSingleLine | backend/app/services/obsidian.py:105 | a single line is not changed |
| Obsidian.QuoteLinesMarksEveryLine | backend/app/services/obsidian.py:105 | every newline in the result is followed by "> ", so each definition line stays inside the callout |
| Obsidian.DefinitionTextEmpty | backend/app/services/obsidian.py:64 | the definition list text is empty exactly when there are no definitions |
| Obsidian.SecondarySectionPresent | backend/app/services/obsidian.py:103-106 | the secondary section appears exactly when the card has definitions |
| Obsidian.BlocksAppend | backend/app/services/obsidian.py:58-114 | the note body for two batches of cards is the two bodies concatenated |
| Obsidian.MediaEntriesAppend | backend/app/services/obsidian.py:83-87 | the media entries of two batches are the two sequences concatenated |
| Obsidian.MediaEntriesMembership | backend/app/services/obsidian.py:78-89 | an audio file is archived exactly for a card with a truthy audio URL whose download succeeded |
| Obsidian.WriteCard | backend/app/services/obsidian.py:59-114 | one pass of the loop appends the card's block to the note and its downloaded audio to the archive |
| Obsidian.CreateObsidianZip | backend/app/services/obsidian.py:7-120 | the archive holds the README, then the media of the cards in card order, then the main note "Title.md", whose text is the title heading followed by the card blocks |
| Db.Migrated | backend/app/services/db.py:56-59 | the migrated table has exactly the legacy words, all under the new list's id, with the same data |
| Db.Cascade | backend/app/services/db.py:97-100 | a cascade removes exactly the cards of the deleted list and keeps the others unchanged |
| Db.CardsIn | backend/app/services/db.py:105-109 | the cards of a list are exactly the entries keyed by that list's id |
| Db.MigrationKeepsCards | backend/app/services/db.py:39-62 | after migration the General list holds exactly the legacy cards |
| Db.InsertLeavesOtherListsAlone | backend/app/services/db.py:111-120 | saving a card into one list leaves every other list's cards unchanged and puts the word in that list |
| Db.CascadeEmptiesOnlyThatList | backend/app/services/db.py:97-102 | deleting a list empties it and leaves every other list's cards as they were |
| Db.VocabularyStore.constructor | backend/app/services/db.py:12-20 | a store before initialisation: no schema, possibly a legacy cards table |
| Db.VocabularyStore.InitDb | backend/app/services/db.py:12-77 | an existing schema is left alone; otherwise the list "General" is created with id 1, and legacy cards are migrated into it or an empty card table is made |
| Db.VocabularyStore.GetLists | backend/app/services/db.py:80-84 | every list exactly once, with its name |
| Db.VocabularyStore.CreateList | backend/app/services/db.py:86-95 | success exactly when the name is new; the list then gets the next id; on a duplicate name nothing changes |
| Db.VocabularyStore.DeleteList | backend/app/services/db.py:97-102 | the list is gone and its cards cascade away; other lists and cards stay |
| Db.VocabularyStore.GetCardsForList | backend/app/services/db.py:105-109 | every card stored under the list, and only those, once each: the result pairs one-to-one with the distinct clean words of the list |
| Db.VocabularyStore.AddCard | backend/app/services/db.py:111-123 | a card with a truthy clean word is inserted or replaces the one under the same word and list; other cards are ignored |
| Db.VocabularyStore.DeleteCard | backend/app/services/db.py:125-129 | exactly the card under that word and list is removed |
| Audio.SavedFiles | backend/app/services/audio.py:15-24 | saved file names contain no '/'; a store with no lists saves no file |
| Audio.KeepSet | backend/app/services/audio.py:14-28 | a file is kept when a saved card refers to it or it is the current file |
| Audio.RowsGiveListFiles | backend/app/services/audio.py:19-24 | the file names collected from a list's rows are exactly that list's files, in any row order |
| Audio.AllRowsGiveSavedFiles | backend/app/services/audio.py:15-24 | collecting over all list rows gives the saved files of the whole store |
| Audio.AddCardFiles | backend/app/services/audio.py:20-24 | adds the file of every card with a truthy audio URL, and nothing else |
| Audio.CollectSavedFiles | backend/app/services/audio.py:15-24 | the saved files are the last URL segments of the cards of all existing lists |
| Audio.DeleteUnkept | backend/app/services/audio.py:30-36 | removes exactly the .mp3 files outside the keep-set; the count is how many were removed |
| Audio.CleanupUnusedAudio | backend/app/services/audio.py:4-42 | a missing directory is untouched; a store whose tables are missing raises, which is caught, so nothing is deleted; otherwise exactly the unkept .mp3 files are deleted and counted |
| Page.IsSaved | frontend/app/page.tsx:71 | the current word counts as saved exactly when there is one and some saved card has its clean word |
| Page.Toggled | frontend/app/page.tsx:73-80 | with no current word the list is unchanged; otherwise the word's saved status flips and cards with other words are untouched |
| Page.Contains | frontend/app/page.tsx:71 | true exactly when some saved card has the word |
| Page.Without | frontend/app/page.tsx:82-84 | keeps exactly the cards with another word; the word is then absent |
| Page.WithoutAppend | frontend/app/page.tsx:82-84 | filtering distributes over concatenation |
| Page.WithoutAbsent | frontend/app/page.tsx:82-84 | removing a word that is not saved changes nothing |
| Page.WithoutIdempotent | frontend/app/page.tsx:82-84 | removing twice is the same as removing once |
| Page.ToggleUnsavedAppends | frontend/app/page.tsx:73-80 | toggling an unsaved card appends it, and it is then saved |
| Page.ToggleSavedRemoves | frontend/app/page.tsx:73-80 | toggling a saved card removes every card with its word, and it is then not saved |
| Page.ToggleTwice | frontend/app/page.tsx:73-80 | toggling an unsaved card twice restores the saved list |
| Page.HomeState.constructor | frontend/app/page.tsx:26-34 | the page starts with an empty query, no lookup in flight, no card shown, no error and no saved cards |
| Page.HomeState.StartSearch | frontend/app/page.tsx:36-42 | the query is always set; a blank word starts nothing; otherwise loading begins and the old result and error are cleared |
| Page.HomeState.FinishSearch | frontend/app/page.tsx:44-55 | loading ends; a reply becomes the data; a failure sets the error message |
| Page.HomeState.SearchForWord | frontend/app/page.tsx:36-56 | a blank query changes only the query; otherwise the data is the reply, or the error is set when there is none, and loading is over |
| Page.HomeState.ToggleSave | frontend/app/page.tsx:73-80 | with no current word nothing changes; otherwise the current card is appended when unsaved or removed when saved |
| Page.HomeState.RemoveCard | frontend/app/page.tsx:82-84 | drops every saved card with that word and touches nothing else |
| Page.HomeState.Download | frontend/app/page.tsx:86-128 | no request exactly when nothing is saved; otherwise all saved cards are posted, to the Anki endpoint for UniversalLanguageDeck.apkg or to the Obsidian endpoint for UniversalLanguageObsidian.zip |
| Overlay.Pad2 | frontend/components/LearningOverlay.tsx:65 | padding gives at least two characters, keeps the text as a suffix and adds only zeros |
| Overlay.TimerText | frontend/components/LearningOverlay.tsx:65 | the timer text has at least five characters and a colon |
| Overlay.TimerShape | frontend/components/LearningOverlay.tsx:65 | the minutes are padded to two digits but never cut; the seconds are always exactly two digits |
| Overlay.TimerRoundTrip | frontend/components/LearningOverlay.tsx:65 | reading the MM:SS text back gives minutes and seconds, which add up to the session time |
| Overlay.ClockRoundTrip | frontend/components/LearningOverlay.tsx:65 | any minutes and seconds below 60, written as the timer writes them, read back as themselves |
| Overlay.FindName | frontend/components/LearningOverlay.tsx:91 | no name exactly when no language has the code; otherwise the name of the first language with it |
| Overlay.OnCardClick | frontend/components/LearningOverlay.tsx:81 | a click on the card turns it over |
| Overlay.Controls | frontend/components/LearningOverlay.tsx:142-155 | the show-answer button appears exactly when the card is not flipped; flipped, there are three buttons and all of them rate |
| Overlay.Effects | frontend/components/LearningOverlay.tsx:142-155 | each control does what its click handler does, in order |
| Overlay.ControlsGating | frontend/components/LearningOverlay.tsx:142-155 | unflipped, the only button shows the answer; flipped, the buttons rate the card hard, good or easy, and none flips it |
| Overlay.Render | frontend/components/LearningOverlay.tsx:37-155 | nothing when hidden or when the index is outside the queue; otherwise the card's word, its meaning, an audio button exactly for a truthy audio URL, a secondary part exactly when there are definitions, the session timer text, and the controls that match the flip state |
| Overlay.FrontLabelFallback | frontend/components/LearningOverlay.tsx:91 | a source language missing from the list shows "Translate this" |

## Left out

- Network access is not modelled: HTTP, the dictionary page fetch and HTML parsing, the translator, text to speech, synonyms and article detection. They are parameters: a `Services` value, a page reply, or a per-card download flag.
- The bytes of the `.apkg` and zip files are not modelled. The deck and the list of written entries stand in for them.
- The SQL engine is not modelled: row order, the sqlite_master queries, and the exception on `add_card` (which is only printed).
- `get_lists` and `get_cards_for_list` return rows in some order. The model promises the same rows in some order, not SQLite's order.
- Audio.CleanupUnusedAudio: the only exception modelled is the one from a store without tables. Other exceptions would stop the cleanup part-way; that case is not modelled.
- The background scheduling of the cleanup after a lookup is not modelled. Lookup.LookupWord only returns the file name the cleanup would keep.
- `remove_article`, `str.upper` and `str.title` are foreign and enter as functions. Obsidian.LanguageLabel and Obsidian.SecondaryLabel prove non-emptiness only when `upper` keeps non-empty text non-empty.
- Translation.StripNumbering: `\d` is modelled as ASCII, Arabic-Indic and Extended Arabic-Indic digits only. Python's regex accepts every Unicode decimal digit, so a numbering prefix in other digits (Devanagari "१. x", for example) is removed by translation.py line 30 but kept by the model.
- Text.Strip: whitespace is Python's `str.isspace` set, which is also taken for the regex's `\s`.
- Page.HomeState.SearchForWord: JavaScript's `trim` is modelled with its own whitespace set. The model takes a lookup reply or a failure as input; the HTTP post itself is left out.
- Anki.CreateDeck: the deck id is any value in the range. Which random value is drawn is not modelled.
- A `definitions` key that is present but `null` makes both exports raise (anki.py line 42, obsidian.py line 64). A `null` `synonyms` key makes the Anki export raise (anki.py line 43), while the Obsidian export reads it as no synonyms (obsidian.py line 71). The card type admits these keys only as missing or present with a value, so neither the crashes nor Obsidian's reading of a `null` `synonyms` are modelled.
- A JSON `clean_word`, `english_definition` or `target_lang` that is `null` is not modelled either. Only `audio_url` and `secondary_lang` may be `null` in the model.
- The Obsidian labels `source_label`, `target_label` and `secondary_label` (obsidian.py lines 29-31) are computed but never used, so they are not modelled.
- The review overlay's progress-bar width is floating point and is not modelled. Nor are the animation, the close button and audio playback.
- The overlay receives its queue and rating handler from a caller that is not part of this model, so the shuffle and requeue engine is not modelled.
- The list router `backend/app/routers/lists.py` imports store functions that do not exist, so it cannot load. It is not part of this model; the store functions it would call are.
- Overlay.TimerRoundTrip covers non-negative whole seconds. For a negative time the text has a minus sign; `TimerText` models it, but no round trip is claimed.
- The legacy one-list `cards` table is modelled as a map keyed by clean word. A legacy table with two rows for the same clean word would make the migration's INSERT (db.py lines 55-59) raise; that case is not modelled.
- Page: the drag-and-drop reordering of saved cards (page.tsx line 177), opening a saved card by clicking it (line 187) and updating the query while typing (line 250) are plain state setters and are not modelled.
