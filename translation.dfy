/** Definition scraping and translation: cleaning the texts of the
    `quick-access` spans of a dictionary page, and the empty fallbacks of the
    two network-backed helpers. The HTML parser, the HTTP client and the
    translator are foreign; their results are parameters here. */
module Translation {
  import opened Text
  import opened Values

  /** Reference reading of the pattern `^\d+\s*\.\s*`'s mandatory part: the
      digits of a match end at `i` and its dot sits at `j`. */
  ghost predicate NumberingAt(s: string, i: nat, j: nat) {
    && 0 < i <= j < |s|
    && (forall k :: 0 <= k < i ==> IsDigit(s[k]))
    && (forall k :: i <= k < j ==> IsSpace(s[k]))
    && s[j] == '.'
  }

  ghost predicate HasNumbering(s: string) {
    exists i: nat, j: nat :: NumberingAt(s, i, j)
  }

  /** `re.sub(r'^\d+\s*\.\s*', '', s)`: the anchored pattern can match once,
      at the start; greedy digits, optional spaces, a dot, optional spaces. */
  function StripNumbering(s: string): (r: string)
    ensures |r| <= |s|
    ensures r != s ==> |r| < |s|
  {
    var d := DigitsFrom(s, 0);
    var w := d + SpacesFrom(s, d);
    if d > 0 && w < |s| && s[w] == '.' then TrimLeft(s[w + 1..]) else s
  }

  /** A match of the pattern is unique: its digits are the longest run of
      digits and its dot follows the longest run of spaces after them. */
  lemma NumberingUnique(s: string, i: nat, j: nat)
    requires NumberingAt(s, i, j)
    ensures i == DigitsFrom(s, 0)
    ensures j == i + SpacesFrom(s, i)
  {
    var d := DigitsFrom(s, 0);
    if i < d {
      assert IsDigit(s[i]);
      DigitIsNotSpaceOrDot(s[i]);
      assert false;
    }
    if d < i {
      assert false;
    }
    var e := SpacesFrom(s, i);
    if j - i < e {
      assert false;
    }
    if e < j - i {
      assert false;
    }
  }

  /** When something is removed, it is a match of the pattern. */
  lemma RemovalIsMatch(s: string)
    requires StripNumbering(s) != s
    ensures NumberingAt(s, DigitsFrom(s, 0), DigitsFrom(s, 0) + SpacesFrom(s, DigitsFrom(s, 0)))
  {
  }

  /** The removal when the greedy runs end at a dot. */
  lemma RemovalAtDot(s: string, d: nat, w: nat)
    requires d == DigitsFrom(s, 0) && w == d + SpacesFrom(s, d)
    requires d > 0 && w < |s| && s[w] == '.'
    ensures StripNumbering(s) == TrimLeft(s[w + 1..])
  {
  }

  /** A match removes everything through its dot and the spaces after it. */
  lemma MatchIsRemoved(s: string, i: nat, j: nat)
    requires NumberingAt(s, i, j)
    ensures StripNumbering(s) == TrimLeft(s[j + 1..])
  {
    NumberingUnique(s, i, j);
    RemovalAtDot(s, i, j);
  }

  /** The computed removal agrees with the pattern: something is removed
      exactly when the pattern matches, and then exactly the match (through
      the dot and the spaces after it) goes. */
  lemma NumberingMatch(s: string)
    ensures HasNumbering(s) <==> StripNumbering(s) != s
    ensures forall i: nat, j: nat :: NumberingAt(s, i, j) ==> StripNumbering(s) == TrimLeft(s[j + 1..])
  {
    forall i: nat, j: nat | NumberingAt(s, i, j)
      ensures StripNumbering(s) == TrimLeft(s[j + 1..])
    {
      MatchIsRemoved(s, i, j);
    }
    if HasNumbering(s) {
      var i: nat, j: nat :| NumberingAt(s, i, j);
      MatchIsRemoved(s, i, j);
      assert |StripNumbering(s)| < |s|;
    }
    if StripNumbering(s) != s {
      RemovalIsMatch(s);
    }
  }

  /** One span text after `re.sub(...)` and `.strip()`. */
  function CleanDefinition(text: string): (r: string)
    ensures |r| <= |text|
    ensures r != [] ==> !IsSpace(r[0]) && !IsSpace(r[|r| - 1])
  {
    Strip(StripNumbering(text))
  }

  /** What one span text contributes to the definitions: nothing when it is
      empty or cleans to the empty string. */
  function Contribution(text: string): seq<string> {
    if text == "" then []
    else
      var clean := CleanDefinition(text);
      if clean == "" then [] else [clean]
  }

  /** The definitions built from the span texts, in span order. */
  function CleanedDefinitions(texts: seq<string>): (r: seq<string>)
    ensures |r| <= |texts|
  {
    if texts == [] then []
    else CleanedDefinitions(texts[..|texts| - 1]) + Contribution(texts[|texts| - 1])
  }

  /** `parse_definition`, from the point where the parser has found (or not)
      the `quick-access` div and extracted the stripped text of each span. */
  method ParseDefinition(quickAccess: Option<seq<string>>) returns (definitions: seq<string>)
    ensures quickAccess.None? ==> definitions == []
    ensures quickAccess.Some? ==> definitions == CleanedDefinitions(quickAccess.value)
  {
    definitions := [];
    if quickAccess.Some? {
      var rawTexts := quickAccess.value;
      var cleanedDefs := [];
      for n := 0 to |rawTexts|
        invariant cleanedDefs == CleanedDefinitions(rawTexts[..n])
      {
        assert rawTexts[..n + 1][..n] == rawTexts[..n];
        var text := rawTexts[n];
        if text == "" {
          continue;
        }
        var cleanText := CleanDefinition(text);
        if cleanText != "" {
          cleanedDefs := cleanedDefs + [cleanText];
        }
      }
      assert rawTexts[..|rawTexts|] == rawTexts;
      definitions := cleanedDefs;
    }
  }

  /** No definition is empty. */
  lemma {:induction false} CleanedNonEmpty(texts: seq<string>)
    ensures forall k :: 0 <= k < |CleanedDefinitions(texts)| ==> CleanedDefinitions(texts)[k] != ""
  {
    if texts != [] {
      var init, last := texts[..|texts| - 1], texts[|texts| - 1];
      assert texts == init + [last];
      CleanedNonEmpty(init);
      CleanedSnoc(init, last);
    }
  }

  /** Adding a span adds its contribution at the end. */
  lemma CleanedSnoc(texts: seq<string>, t: string)
    ensures CleanedDefinitions(texts + [t]) == CleanedDefinitions(texts) + Contribution(t)
  {
    assert (texts + [t])[..|texts|] == texts;
  }

  /** Cleaning distributes over concatenation of the span list: every span is
      cleaned on its own and the results keep the span order. */
  lemma {:induction false} CleanedAppend(a: seq<string>, b: seq<string>)
    ensures CleanedDefinitions(a + b) == CleanedDefinitions(a) + CleanedDefinitions(b)
  {
    if b == [] {
      assert a + b == a;
    } else {
      var b', last := b[..|b| - 1], b[|b| - 1];
      assert b == b' + [last];
      assert a + b == (a + b') + [last];
      CleanedAppend(a, b');
      CleanedSnoc(a + b', last);
      CleanedSnoc(b', last);
      AppendAssoc(CleanedDefinitions(a), CleanedDefinitions(b'), Contribution(last));
    }
  }

  /** The span text `t` yields the definition `x`. */
  predicate Yields(t: string, x: string) {
    t != "" && x != "" && CleanDefinition(t) == x
  }

  lemma ContributionMembership(t: string, x: string)
    ensures x in Contribution(t) <==> Yields(t, x)
  {
  }

  /** A definition is in the output exactly when it is the non-empty cleaning
      of some non-empty span text. */
  lemma {:induction false} CleanedMembership(texts: seq<string>, x: string)
    ensures x in CleanedDefinitions(texts) <==> exists t :: t in texts && Yields(t, x)
  {
    if texts != [] {
      var init := texts[..|texts| - 1];
      var last := texts[|texts| - 1];
      assert texts == init + [last];
      assert CleanedDefinitions(texts) == CleanedDefinitions(init) + Contribution(last);
      CleanedMembership(init, x);
      ContributionMembership(last, x);
    }
  }

  /** A text that does not start with a numbering prefix is only stripped. */
  lemma UnnumberedIsStripped(text: string)
    requires !HasNumbering(text)
    ensures CleanDefinition(text) == Strip(text)
  {
    NumberingMatch(text);
  }

  /** A numbered text loses exactly its first prefix; what follows the dot is
      stripped and nothing more is removed. */
  lemma NumberedLosesOnePrefix(text: string, i: nat, j: nat)
    requires NumberingAt(text, i, j)
    ensures CleanDefinition(text) == Strip(text[j + 1..])
  {
    NumberingMatch(text);
    var rest := text[j + 1..];
    var l := TrimLeft(rest);
    assert SpacesFrom(l, 0) == 0;
    assert TrimLeft(l) == l;
  }

  /** One digit, a dot and a space are a match of the pattern. */
  lemma OneDigitIsNumbering(d: char, rest: string)
    requires IsDigit(d)
    ensures NumberingAt([d, '.', ' '] + rest, 1, 1)
    ensures ([d, '.', ' '] + rest)[2..] == [' '] + rest
  {
  }

  /** A definition numbered with one digit, a dot and a space cleans to what
      follows, when that neither starts nor ends with whitespace. */
  lemma OneDigitNumbering(d: char, rest: string)
    requires IsDigit(d)
    requires rest != [] ==> !IsSpace(rest[0]) && !IsSpace(rest[|rest| - 1])
    ensures CleanDefinition([d, '.', ' '] + rest) == rest
  {
    OneDigitIsNumbering(d, rest);
    NumberedLosesOnePrefix([d, '.', ' '] + rest, 1, 1);
    StripLeadingSpace(' ', rest);
    StripUnchanged(rest);
  }

  /** The example texts below, spelled out character by character. */
  lemma ExampleSpelling()
    ensures "1. 2. x" == ['1', '.', ' '] + "2. x"
    ensures "2. x" == ['2', '.', ' '] + "x"
    ensures "\U{6F1}. x" == ['\U{6F1}', '.', ' '] + "x"
  {
  }

  /** Cleaning is not idempotent: only the first of two numbering prefixes is
      removed. */
  lemma CleaningRemovesOnlyOnePrefix()
    ensures CleanDefinition("1. 2. x") == "2. x"
    ensures CleanDefinition("2. x") == "x"
  {
    ExampleSpelling();
    OneDigitNumbering('1', "2. x");
    OneDigitNumbering('2', "x");
  }

  /** Persian digits are `\d` too: a Persian-numbered definition is cleaned
      like an ASCII-numbered one. */
  lemma PersianNumberingRemoved()
    ensures CleanDefinition("\U{6F1}. x") == "x"
  {
    ExampleSpelling();
    OneDigitNumbering('\U{6F1}', "x");
  }

  /** The result of a foreign call: a value, or an exception. */
  datatype Outcome<T> = Returned(value: T) | Raised

  /** `translate_text_async`: the translator's text when it returned a
      non-empty one, otherwise (a falsy value or an exception) `""`. */
  function TranslateTextAsync(translated: Outcome<Option<string>>): (r: string)
    ensures r != "" <==> translated.Returned? && Truthy(translated.value)
    ensures r != "" ==> r == translated.value.value
  {
    match translated
    case Returned(Some(text)) => text
    case Returned(None) => ""
    case Raised => ""
  }

  /** The dictionary page as the parser sees it: the HTTP status and, when
      the page has a `quick-access` div, the stripped texts of its spans. */
  datatype PageReply = PageReply(status: int, quickAccess: Option<seq<string>>)

  /** `scrape_persian_definitions`: the parsed definitions of a 200 reply,
      `[]` on any other status or on an exception. */
  function ScrapePersianDefinitions(reply: Outcome<PageReply>): (r: seq<string>)
    ensures reply.Raised? || reply.value.status != 200 || reply.value.quickAccess.None? ==> r == []
    ensures reply.Returned? && reply.value.status == 200 && reply.value.quickAccess.Some? ==>
              r == CleanedDefinitions(reply.value.quickAccess.value)
    ensures forall k :: 0 <= k < |r| ==> r[k] != ""
  {
    match reply
    case Raised => []
    case Returned(page) =>
      if page.status == 200 && page.quickAccess.Some? then
        CleanedNonEmpty(page.quickAccess.value);
        CleanedDefinitions(page.quickAccess.value)
      else []
  }
}
