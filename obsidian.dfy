/** Obsidian export: a zip holding `README.md`, one markdown note with a
    collapsible callout per card, and the cards' audio under `Media/`. The
    HTTP downloads and the zip writer are foreign: a download becomes a
    "succeeded" flag per card and the zip becomes the list of entries written,
    in order. Python's `str.upper()` and `str.title()` are parameters. */
module Obsidian {
  import opened Text
  import opened Values

  /** Python's Unicode-aware `str.upper()` and `str.title()`. */
  datatype CaseOps = CaseOps(upper: string -> string, title: string -> string)

  /** Upper-casing never turns a non-empty string into the empty one. */
  ghost predicate UpperKeepsText(ops: CaseOps) {
    forall s: string :: s != "" ==> ops.upper(s) != ""
  }

  const LangNames: map<string, string> := map[
    "en" := "English", "es" := "Spanish", "fr" := "French", "de" := "German",
    "it" := "Italian", "pt" := "Portuguese", "ru" := "Russian", "ja" := "Japanese",
    "ko" := "Korean", "zh" := "Chinese", "fa" := "Persian", "tr" := "Turkish",
    "nl" := "Dutch", "pl" := "Polish"
  ]

  /** `lang_names.get(code, code.upper())`. */
  function LanguageLabel(code: string, ops: CaseOps): (r: string)
    ensures code in LangNames ==> r == LangNames[code]
    ensures code !in LangNames ==> r == ops.upper(code)
    ensures UpperKeepsText(ops) && code != "" ==> r != ""
  {
    if code in LangNames then LangNames[code] else ops.upper(code)
  }

  /** The request's languages, used for cards that do not carry their own. */
  datatype Defaults = Defaults(sourceLang: string, targetLang: string, secondaryLang: Option<string>)

  function CardWord(card: Card): string {
    card.cleanWord.GetOr("Unknown")
  }

  predicate HasAudio(card: Card) {
    Truthy(card.audioUrl.Get(None))
  }

  function AudioName(card: Card): string {
    CardWord(card) + ".mp3"
  }

  /** The definitions as a markdown list, one `- ` item per line. */
  function DefinitionText(items: seq<string>): string {
    Join("\n", seq(|items|, i requires 0 <= i < |items| => "- " + items[i]))
  }

  /** `s.replace('\n', '\n> ')`: continues a callout on every new line. */
  function QuoteLines(s: string): string {
    if s == [] then [] else (if s[0] == '\n' then "\n> " else [s[0]]) + QuoteLines(s[1..])
  }

  /** The synonyms joined by `", "`, or `""` for an empty list. */
  function SynonymsText(synonyms: seq<string>): string {
    if synonyms != [] then Join(", ", synonyms) else ""
  }

  /** The card's target language label: its own `target_lang` or the
      request's, named and upper-cased. */
  function TargetLabel(card: Card, defaults: Defaults, ops: CaseOps): string
  {
    var code := card.targetLang.GetOr(defaults.targetLang);
    ops.upper(LanguageLabel(code, ops))
  }

  /** The card's secondary language label, `"SECONDARY"` when neither the
      card nor the request names one. */
  function SecondaryLabel(card: Card, defaults: Defaults, ops: CaseOps): (r: string)
    ensures var code := card.secondaryLang.Get(defaults.secondaryLang);
      !Truthy(code) ==> r == "SECONDARY"
    ensures UpperKeepsText(ops) ==> r != ""
  {
    var code := card.secondaryLang.Get(defaults.secondaryLang);
    if Truthy(code) then ops.upper(LanguageLabel(code.value, ops)) else "SECONDARY"
  }

  /** The target label is the upper-cased display name of the card's own
      target language, or of the request's when the card has none; an
      unknown code is upper-cased twice. */
  lemma TargetLabelNamed(card: Card, defaults: Defaults, ops: CaseOps)
    ensures var code := card.targetLang.GetOr(defaults.targetLang);
      && (code in LangNames ==> TargetLabel(card, defaults, ops) == ops.upper(LangNames[code]))
      && (code !in LangNames ==> TargetLabel(card, defaults, ops) == ops.upper(ops.upper(code)))
      && (UpperKeepsText(ops) && code != "" ==> TargetLabel(card, defaults, ops) != "")
  {
  }

  /** A truthy secondary language, the card's own or else the request's, is
      labelled like the target: its display name or its code, upper-cased. */
  lemma SecondaryLabelNamed(card: Card, defaults: Defaults, ops: CaseOps)
    ensures var code := card.secondaryLang.Get(defaults.secondaryLang);
      && (Truthy(code) && code.value in LangNames ==> SecondaryLabel(card, defaults, ops) == ops.upper(LangNames[code.value]))
      && (Truthy(code) && code.value !in LangNames ==> SecondaryLabel(card, defaults, ops) == ops.upper(ops.upper(code.value)))
  {
  }

  function CalloutHeader(card: Card): string {
    "> [!tldr]- " + CardWord(card) + "\n"
  }

  function AudioEmbed(card: Card): (r: string)
    ensures r != "" <==> HasAudio(card)
  {
    if HasAudio(card) then "> ![[" + AudioName(card) + "]]\n" else ""
  }

  function TargetSection(card: Card, defaults: Defaults, ops: CaseOps): string {
    "> ---\n" + "> **" + TargetLabel(card, defaults, ops) + "**: " + card.englishDefinition.GetOr("") + "\n" + ">\n"
  }

  function SecondarySection(card: Card, defaults: Defaults, ops: CaseOps): string {
    var text := DefinitionText(DefinitionItems(card.definitions));
    var heading := SecondaryLabel(card, defaults, ops);
    if text != "" && heading != "" then "> ---\n" + "> **" + heading + "**:\n> " + QuoteLines(text) + "\n" else ""
  }

  function SynonymsLine(card: Card): (r: string)
    ensures r != "" <==> SynonymsText(card.synonyms.GetOr([])) != ""
  {
    var synonyms := SynonymsText(card.synonyms.GetOr([]));
    if synonyms != "" then "> **Synonyms**: " + synonyms + "\n" else ""
  }

  /** The markdown of one card. */
  function CardBlock(card: Card, defaults: Defaults, ops: CaseOps): string {
    CalloutHeader(card) + AudioEmbed(card) + TargetSection(card, defaults, ops)
    + SecondarySection(card, defaults, ops) + "> ---\n" + SynonymsLine(card) + "\n"
  }

  /** A block opens the card's collapsible callout and ends with an empty
      line, which closes the callout before the next card. */
  lemma CardBlockShape(card: Card, defaults: Defaults, ops: CaseOps)
    ensures CalloutHeader(card) <= CardBlock(card, defaults, ops)
    ensures EndsWith(CardBlock(card, defaults, ops), "\n\n")
  {
    var h := CalloutHeader(card);
    var p1 := h + AudioEmbed(card);
    var p2 := p1 + TargetSection(card, defaults, ops);
    var p3 := p2 + SecondarySection(card, defaults, ops);
    var q := p3 + "> ---\n";
    var syn := SynonymsLine(card);
    assert CardBlock(card, defaults, ops) == q + syn + "\n";
    assert h <= p1 && p1 <= p2 && p2 <= p3 && p3 <= q && q <= q + syn;
    assert q[|q| - 1] == '\n';
    if syn != "" {
      assert syn[|syn| - 1] == '\n';
    }
    assert (q + syn)[|q + syn| - 1] == '\n';
  }


  /** The card blocks, in card order. */
  function CardBlocks(cards: seq<Card>, defaults: Defaults, ops: CaseOps): (r: seq<string>)
    ensures |r| == |cards|
    ensures forall k :: 0 <= k < |cards| ==> r[k] == CardBlock(cards[k], defaults, ops)
  {
    seq(|cards|, k requires 0 <= k < |cards| => CardBlock(cards[k], defaults, ops))
  }

  function Blocks(cards: seq<Card>, defaults: Defaults, ops: CaseOps): string {
    Concat(CardBlocks(cards, defaults, ops))
  }

  /** Quoting works line by line: it distributes over concatenation. */
  lemma {:induction false} QuoteLinesAppend(a: string, b: string)
    ensures QuoteLines(a + b) == QuoteLines(a) + QuoteLines(b)
  {
    if a != [] {
      assert (a + b)[0] == a[0];
      assert (a + b)[1..] == a[1..] + b;
      QuoteLinesAppend(a[1..], b);
      var head := if a[0] == '\n' then "\n> " else [a[0]];
      assert QuoteLines(a + b) == head + (QuoteLines(a[1..]) + QuoteLines(b));
    } else {
      assert a + b == b;
    }
  }

  /** A single line is left as it is. */
  lemma {:induction false} QuoteLinesSingleLine(s: string)
    requires forall k :: 0 <= k < |s| ==> s[k] != '\n'
    ensures QuoteLines(s) == s
  {
    if s != [] {
      QuoteLinesSingleLine(s[1..]);
    }
  }

  /** Every line break in the quoted text is followed by the callout marker
      `"> "`, so the definitions stay inside the callout. */
  lemma {:induction false} QuoteLinesMarksEveryLine(s: string)
    ensures var r := QuoteLines(s);
      forall k :: 0 <= k < |r| && r[k] == '\n' ==> k + 2 < |r| && r[k + 1] == '>' && r[k + 2] == ' '
  {
    if s != [] {
      QuoteLinesMarksEveryLine(s[1..]);
      var head := if s[0] == '\n' then "\n> " else [s[0]];
      var r := QuoteLines(s);
      assert r == head + QuoteLines(s[1..]);
      forall k | 0 <= k < |r| && r[k] == '\n'
        ensures k + 2 < |r| && r[k + 1] == '>' && r[k + 2] == ' '
      {
        if k >= |head| {
          assert r[k] == QuoteLines(s[1..])[k - |head|];
        }
      }
    }
  }

  /** The definition list is empty exactly when there are no definitions: a
      `- ` item is never empty, even for an empty definition. */
  lemma DefinitionTextEmpty(items: seq<string>)
    ensures DefinitionText(items) == "" <==> items == []
  {
    var lines := seq(|items|, i requires 0 <= i < |items| => "- " + items[i]);
    JoinEmpty("\n", lines);
    if |items| == 1 {
      assert |lines[0]| >= 2;
    }
  }

  /** With an upper-casing that keeps text, the secondary section is written
      exactly for a card with definitions. */
  lemma SecondarySectionPresent(card: Card, defaults: Defaults, ops: CaseOps)
    requires UpperKeepsText(ops)
    ensures SecondarySection(card, defaults, ops) != "" <==> DefinitionItems(card.definitions) != []
  {
    DefinitionTextEmpty(DefinitionItems(card.definitions));
  }

  /** The note lists the cards in order: the blocks of two card lists are the
      blocks of the first followed by those of the second. */
  lemma BlocksAppend(a: seq<Card>, b: seq<Card>, defaults: Defaults, ops: CaseOps)
    ensures Blocks(a + b, defaults, ops) == Blocks(a, defaults, ops) + Blocks(b, defaults, ops)
  {
    var ab, ba, bb := CardBlocks(a + b, defaults, ops), CardBlocks(a, defaults, ops), CardBlocks(b, defaults, ops);
    forall k | 0 <= k < |ab|
      ensures ab[k] == (ba + bb)[k]
    {
      if k < |a| {
        assert (a + b)[k] == a[k];
      } else {
        assert (a + b)[k] == b[k - |a|];
      }
    }
    assert ab == ba + bb;
    ConcatAppend(ba, bb);
  }

  /** Adding a card adds its media entry at the end. */
  lemma MediaEntriesSnoc(cards: seq<Card>, downloaded: seq<bool>, card: Card, ok: bool)
    requires |downloaded| == |cards|
    ensures MediaEntries(cards + [card], downloaded + [ok]) == MediaEntries(cards, downloaded) + MediaEntry(card, ok)
  {
    assert (cards + [card])[..|cards|] == cards;
    assert (downloaded + [ok])[..|cards|] == downloaded;
  }

  /** The media entries likewise follow the card order. */
  lemma {:induction false} MediaEntriesAppend(a: seq<Card>, da: seq<bool>, b: seq<Card>, db: seq<bool>)
    requires |da| == |a| && |db| == |b|
    ensures MediaEntries(a + b, da + db) == MediaEntries(a, da) + MediaEntries(b, db)
  {
    if b == [] {
      assert a + b == a;
      assert da + db == da;
    } else {
      var b', last := b[..|b| - 1], b[|b| - 1];
      var db', ok := db[..|db| - 1], db[|db| - 1];
      assert b == b' + [last] && db == db' + [ok];
      assert a + b == (a + b') + [last];
      assert da + db == (da + db') + [ok];
      MediaEntriesAppend(a, da, b', db');
      MediaEntriesSnoc(a + b', da + db', last, ok);
      MediaEntriesSnoc(b', db', last, ok);
      AppendAssoc(MediaEntries(a, da), MediaEntries(b', db'), MediaEntry(last, ok));
    }
  }

  /** The entry written for a card's audio. */
  function AudioEntry(card: Card): Entry
    requires HasAudio(card)
  {
    Entry("Media/" + AudioName(card), AudioBytes(card.audioUrl.value))
  }

  /** An audio file is archived exactly for a card with a truthy `audio_url`
      whose download succeeded. */
  lemma {:induction false} MediaEntriesMembership(cards: seq<Card>, downloaded: seq<bool>, e: Entry)
    requires |downloaded| == |cards|
    ensures e in MediaEntries(cards, downloaded)
        <==> exists k :: 0 <= k < |cards| && HasAudio(cards[k]) && downloaded[k] && e == AudioEntry(cards[k])
  {
    if cards != [] {
      var n := |cards| - 1;
      MediaEntriesMembership(cards[..n], downloaded[..n], e);
      if e in MediaEntries(cards, downloaded) && e !in MediaEntries(cards[..n], downloaded[..n]) {
        assert HasAudio(cards[n]) && downloaded[n] && e == AudioEntry(cards[n]);
      }
      if e !in MediaEntries(cards, downloaded) {
        forall k | 0 <= k < |cards| && HasAudio(cards[k]) && downloaded[k]
          ensures e != AudioEntry(cards[k])
        {
          if k < n {
            assert cards[..n][k] == cards[k] && downloaded[..n][k] == downloaded[k];
          }
        }
      } else if e in MediaEntries(cards[..n], downloaded[..n]) {
        var k :| 0 <= k < n && HasAudio(cards[..n][k]) && downloaded[..n][k] && e == AudioEntry(cards[..n][k]);
        assert cards[..n][k] == cards[k];
      }
    }
  }

  function NoteHeader(title: string): string {
    "# " + title + "\n\n"
  }

  /** What an archive entry holds. */
  datatype Content = ReadmeText | AudioBytes(url: string) | Markdown(text: string)

  datatype Entry = Entry(name: string, content: Content)

  /** The `Media/` entry of a card: written only for a truthy `audio_url`
      whose download succeeded. */
  function MediaEntry(card: Card, downloaded: bool): seq<Entry> {
    if HasAudio(card) && downloaded then [AudioEntry(card)] else []
  }

  function MediaEntries(cards: seq<Card>, downloaded: seq<bool>): seq<Entry>
    requires |downloaded| == |cards|
  {
    if cards == [] then []
    else MediaEntries(cards[..|cards| - 1], downloaded[..|cards| - 1]) + MediaEntry(cards[|cards| - 1], downloaded[|cards| - 1])
  }

  /** The three appends of a target section amount to appending the section. */
  lemma TargetSectionSteps(w: string, heading: string, definition: string)
    ensures w + "> ---\n" + "> **" + heading + "**: " + definition + "\n" + ">\n"
         == w + ("> ---\n" + "> **" + heading + "**: " + definition + "\n" + ">\n")
  {
  }

  lemma SecondarySectionSteps(w: string, heading: string, quoted: string)
    ensures w + "> ---\n" + "> **" + heading + "**:\n> " + quoted + "\n"
         == w + ("> ---\n" + "> **" + heading + "**:\n> " + quoted + "\n")
  {
  }

  lemma BlockSteps(w: string, header: string, audio: string, target: string, secondary: string, synonyms: string)
    ensures w + header + audio + target + secondary + "> ---\n" + synonyms + "\n"
         == w + (header + audio + target + secondary + "> ---\n" + synonyms + "\n")
  {
  }

  /** One iteration of the card loop of `create_obsidian_zip`: the card's
      callout appended to the note and its audio (when downloaded) to the
      archive. */
  method WriteCard(wordsMd: string, entries: seq<Entry>, card: Card, defaults: Defaults, downloaded: bool, ops: CaseOps)
    returns (wordsMd': string, entries': seq<Entry>)
    ensures wordsMd' == wordsMd + CardBlock(card, defaults, ops)
    ensures entries' == entries + MediaEntry(card, downloaded)
  {
    var cleanWord := card.cleanWord.GetOr("Unknown");
    var definitions := DefinitionItems(card.definitions);
    var definitionText := DefinitionText(definitions);
    var targetDef := card.englishDefinition.GetOr("");
    var synonyms := SynonymsText(card.synonyms.GetOr([]));
    var audioUrl := card.audioUrl.Get(None);
    entries' := entries;

    wordsMd' := wordsMd + "> [!tldr]- " + cleanWord + "\n";
    assert wordsMd' == wordsMd + CalloutHeader(card);
    ghost var afterHeader := wordsMd';
    if Truthy(audioUrl) {
      var filename := cleanWord + ".mp3";
      wordsMd' := wordsMd' + "> ![[" + filename + "]]\n";
      if downloaded {
        entries' := entries' + [Entry("Media/" + filename, AudioBytes(audioUrl.value))];
      }
    }
    assert wordsMd' == afterHeader + AudioEmbed(card);
    ghost var afterAudio := wordsMd';
    var targetLabel := TargetLabel(card, defaults, ops);
    var secondaryLabel := SecondaryLabel(card, defaults, ops);
    wordsMd' := wordsMd' + "> ---\n";
    wordsMd' := wordsMd' + "> **" + targetLabel + "**: " + targetDef + "\n";
    wordsMd' := wordsMd' + ">\n";
    TargetSectionSteps(afterAudio, targetLabel, targetDef);
    ghost var afterTarget := wordsMd';
    if definitionText != "" && secondaryLabel != "" {
      wordsMd' := wordsMd' + "> ---\n";
      wordsMd' := wordsMd' + "> **" + secondaryLabel + "**:\n> " + QuoteLines(definitionText) + "\n";
      SecondarySectionSteps(afterTarget, secondaryLabel, QuoteLines(definitionText));
    }
    assert wordsMd' == afterTarget + SecondarySection(card, defaults, ops);
    wordsMd' := wordsMd' + "> ---\n";
    ghost var afterRule := wordsMd';
    if synonyms != "" {
      wordsMd' := wordsMd' + "> **Synonyms**: " + synonyms + "\n";
    }
    assert wordsMd' == afterRule + SynonymsLine(card);
    wordsMd' := wordsMd' + "\n";
    BlockSteps(wordsMd, CalloutHeader(card), AudioEmbed(card), TargetSection(card, defaults, ops),
               SecondarySection(card, defaults, ops), SynonymsLine(card));
  }

  /** The main note: the title heading followed by the card blocks. */
  function NoteText(title: string, cards: seq<Card>, defaults: Defaults, ops: CaseOps): string {
    NoteHeader(title) + Blocks(cards, defaults, ops)
  }

  /** The note opens with its title heading; without cards it is only that. */
  lemma NoteTextShape(title: string, cards: seq<Card>, defaults: Defaults, ops: CaseOps)
    ensures NoteHeader(title) <= NoteText(title, cards, defaults, ops)
    ensures cards == [] ==> NoteText(title, cards, defaults, ops) == NoteHeader(title)
  {
  }

  const ReadmeEntry: Entry := Entry("README.md", ReadmeText)

  function NoteEntry(title: string, text: string): Entry {
    Entry(title + ".md", Markdown(text))
  }

  /** Appending one more card's block to the note. */
  lemma NoteStep(title: string, cards: seq<Card>, i: nat, defaults: Defaults, ops: CaseOps)
    requires i < |cards|
    ensures NoteText(title, cards[..i + 1], defaults, ops)
         == NoteText(title, cards[..i], defaults, ops) + CardBlock(cards[i], defaults, ops)
  {
    var parts := CardBlocks(cards[..i + 1], defaults, ops);
    assert parts[..i] == CardBlocks(cards[..i], defaults, ops);
    var blocks := Blocks(cards[..i], defaults, ops);
    var block := CardBlock(cards[i], defaults, ops);
    assert Blocks(cards[..i + 1], defaults, ops) == blocks + block;
    assert NoteHeader(title) + (blocks + block) == NoteHeader(title) + blocks + block;
  }

  lemma MediaStep(cards: seq<Card>, downloaded: seq<bool>, i: nat)
    requires |downloaded| == |cards| && i < |cards|
    ensures [ReadmeEntry] + MediaEntries(cards[..i + 1], downloaded[..i + 1])
         == [ReadmeEntry] + MediaEntries(cards[..i], downloaded[..i]) + MediaEntry(cards[i], downloaded[i])
  {
    assert cards[..i + 1][..i] == cards[..i];
    assert downloaded[..i + 1][..i] == downloaded[..i];
  }

  /** `create_obsidian_zip`: the entries in the order they are written: the
      README, the media files of the cards in card order, then the note. */
  method CreateObsidianZip(cards: seq<Card>, noteName: string, defaults: Defaults, downloaded: seq<bool>, ops: CaseOps)
    returns (entries: seq<Entry>)
    requires |downloaded| == |cards|
    ensures var title := ops.title(noteName);
      entries == [ReadmeEntry] + MediaEntries(cards, downloaded) + [NoteEntry(title, NoteText(title, cards, defaults, ops))]
  {
    var displayTitle := ops.title(noteName);
    var wordsMd := "# " + displayTitle + "\n\n";
    entries := [Entry("README.md", ReadmeText)];
    assert cards[..0] == [] && downloaded[..0] == [];
    for i := 0 to |cards|
      invariant wordsMd == NoteText(displayTitle, cards[..i], defaults, ops)
      invariant entries == [ReadmeEntry] + MediaEntries(cards[..i], downloaded[..i])
    {
      wordsMd, entries := WriteCard(wordsMd, entries, cards[i], defaults, downloaded[i], ops);
      NoteStep(displayTitle, cards, i, defaults, ops);
      MediaStep(cards, downloaded, i);
    }
    assert cards[..|cards|] == cards;
    assert downloaded[..|cards|] == downloaded;
    entries := entries + [Entry(displayTitle + ".md", Markdown(wordsMd))];
  }
}
