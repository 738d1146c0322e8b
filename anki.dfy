/** Anki export: every card becomes one note of the four-field note type
    (German, English, Persian, Synonyms), added to a deck with a random id.
    Packaging the deck into an `.apkg` file is left to the foreign library. */
module Anki {
  import opened Text
  import opened Values

  /** The deck id is drawn from `[2^30, 2^31)`. */
  const DeckIdLow: int := 0x4000_0000
  const DeckIdHigh: int := 0x8000_0000

  /** A note: its field values in the note type's field order. */
  datatype Note = Note(german: string, english: string, persian: string, synonyms: string)

  /** `"{i+1}. {d}"` for every definition `d` at index `i`. */
  function NumberedItems(items: seq<string>): (r: seq<string>)
    ensures |r| == |items|
    ensures forall i :: 0 <= i < |items| ==> r[i] == NatToString(i + 1) + ". " + items[i]
  {
    seq(|items|, i requires 0 <= i < |items| => NatToString(i + 1) + ". " + items[i])
  }

  /** The Persian field: the numbered definitions joined by `<br>`. */
  function PersianField(items: seq<string>): (r: string)
    ensures r == "" <==> items == []
  {
    var n := NumberedItems(items);
    JoinEmpty("<br>", n);
    assert |items| == 1 ==> |n[0]| >= 2;
    Join("<br>", n)
  }

  /** The Synonyms field: the synonyms joined by `", "`. */
  function SynonymsField(synonyms: seq<string>): (r: string)
    ensures r == "" <==> synonyms == [] || (|synonyms| == 1 && synonyms[0] == "")
  {
    JoinEmpty(", ", synonyms);
    Join(", ", synonyms)
  }

  /** The note of one card; missing keys read as empty. */
  function NoteOf(card: Card): (r: Note)
    ensures card.cleanWord.None? ==> r.german == ""
    ensures card.englishDefinition.None? ==> r.english == ""
    ensures r.persian == "" <==> DefinitionItems(card.definitions) == []
    ensures card.synonyms.None? ==> r.synonyms == ""
  {
    Note(
      card.cleanWord.GetOr(""),
      card.englishDefinition.GetOr(""),
      PersianField(DefinitionItems(card.definitions)),
      SynonymsField(card.synonyms.GetOr([])))
  }

  /** A single definition is numbered 1. */
  lemma PersianFieldSingle(d: string)
    ensures PersianField([d]) == "1. " + d
  {
    assert NatToString(1) == "1";
  }

  /** Adding a definition appends `<br>`, its 1-based number, `". "` and the
      definition: numbering follows the order of the list and starts at 1. */
  lemma {:induction false} PersianFieldSnoc(items: seq<string>, d: string)
    requires items != []
    ensures PersianField(items + [d]) == PersianField(items) + "<br>" + NatToString(|items| + 1) + ". " + d
  {
    var n := NumberedItems(items);
    assert NumberedItems(items + [d]) == n + [NatToString(|items| + 1) + ". " + d];
    JoinSnoc("<br>", n, NatToString(|items| + 1) + ". " + d);
  }

  /** A string-valued `definitions` counts as a list of that one string. */
  lemma StringDefinitionIsOneItem(card: Card, s: string)
    requires card.definitions == Some(DefText(s))
    ensures NoteOf(card).persian == "1. " + s
  {
    PersianFieldSingle(s);
  }

  /** The deck being filled: the foreign `genanki.Deck`. */
  class Deck {
    const id: int
    const name: string
    var notes: seq<Note>

    constructor (id: int, name: string)
      ensures this.id == id && this.name == name && notes == []
    {
      this.id := id;
      this.name := name;
      notes := [];
    }

    method AddNote(note: Note)
      modifies this
      ensures notes == old(notes) + [note]
    {
      notes := notes + [note];
    }
  }

  /** The notes of the deck for a list of cards: one per card, in order. */
  function Notes(cards: seq<Card>): (r: seq<Note>)
    ensures |r| == |cards|
    ensures forall i :: 0 <= i < |cards| ==> r[i] == NoteOf(cards[i])
  {
    seq(|cards|, i requires 0 <= i < |cards| => NoteOf(cards[i]))
  }

  /** `create_deck` up to packaging: a deck with an id from the allowed range,
      holding one note per card in card order. */
  method CreateDeck(cards: seq<Card>, deckName: string) returns (deck: Deck)
    ensures fresh(deck)
    ensures DeckIdLow <= deck.id < DeckIdHigh && deck.name == deckName
    ensures deck.notes == Notes(cards)
  {
    assert DeckIdLow <= DeckIdLow < DeckIdHigh;
    var deckId :| DeckIdLow <= deckId < DeckIdHigh;
    deck := new Deck(deckId, deckName);
    for i := 0 to |cards|
      invariant deck.notes == Notes(cards[..i])
    {
      var card := cards[i];
      var german := card.cleanWord.GetOr("");
      var english := card.englishDefinition.GetOr("");
      var definitions := DefinitionItems(card.definitions);
      var persian := PersianField(definitions);
      var synonyms := SynonymsField(card.synonyms.GetOr([]));
      deck.AddNote(Note(german, english, persian, synonyms));
      assert Notes(cards[..i + 1]) == Notes(cards[..i]) + [NoteOf(cards[i])];
    }
    assert cards[..|cards|] == cards;
  }
}
