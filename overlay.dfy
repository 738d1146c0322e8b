/** The review overlay's view logic: whether anything is shown, the session
    timer text, the labels on the two faces of the card and which buttons
    the controls offer and what clicking them does. Rendering, animation and
    the review queue itself (shuffle, re-queueing) are not part of it; the
    queue and the rating handler come in as props. */
module Overlay {
  import opened Text
  import opened Values
  import opened Words

  /** `Math.floor(t / 60)` for an integer `t`: Dafny's `/` rounds toward
      negative infinity when the divisor is positive. */
  function Minutes(t: int): int {
    t / 60
  }

  /** JavaScript's `t % 60`, whose sign follows `t`. */
  function JsRemainder60(t: int): int {
    if t >= 0 then t % 60 else -((-t) % 60)
  }

  /** `n.toString()` for an integer `n`. */
  function JsIntString(n: int): string {
    if n < 0 then "-" + NatToString(-n) else NatToString(n)
  }

  /** `s.padStart(2, '0')`. */
  function Pad2(s: string): (r: string)
    ensures |r| == if |s| >= 2 then |s| else 2
    ensures EndsWith(r, s)
    ensures forall i :: 0 <= i < |r| - |s| ==> r[i] == '0'
  {
    if |s| >= 2 then s else if |s| == 1 then "0" + s else "00"
  }

  /** The session timer, `MM:SS`. */
  function TimerText(t: int): (r: string)
    ensures |r| >= 5 && ':' in r
  {
    Pad2(JsIntString(Minutes(t))) + ":" + Pad2(JsIntString(JsRemainder60(t)))
  }

  /** Reads a timer text back: the digits before the first `':'` as minutes
      and exactly two digits after it as seconds. */
  function ReadTimer(text: string): Option<(nat, nat)> {
    var p := IndexOf(text, ':');
    if p < |text| && IsAsciiDigits(text[..p]) && IsAsciiDigits(text[p + 1..]) && |text[p + 1..]| == 2
    then Some((ParseDigits(text[..p]), ParseDigits(text[p + 1..])))
    else None
  }

  /** The padded decimal text of a natural number reads back as that number. */
  lemma Pad2Reads(n: nat)
    ensures IsAsciiDigits(Pad2(NatToString(n))) && ParseDigits(Pad2(NatToString(n))) == n
  {
    var s := NatToString(n);
    ParseNatToString(n);
    if |s| == 1 {
      ParseLeadingZero(s);
    }
  }

  /** Reading splits at the colon: digits, a colon and two digits read as
      those two numbers. */
  lemma ReadTimerSplit(m: string, sec: string)
    requires IsAsciiDigits(m) && IsAsciiDigits(sec) && |sec| == 2
    ensures ReadTimer(m + ":" + sec) == Some((ParseDigits(m), ParseDigits(sec)))
  {
    var text := m + ":" + sec;
    var p := IndexOf(text, ':');
    assert text[|m|] == ':';
    assert text[..p] == m;
    assert text[p + 1..] == sec;
  }

  /** For a non-negative time the timer text is built from the decimal texts
      of its minutes and seconds. */
  lemma TimerTextNat(t: nat)
    ensures TimerText(t) == Pad2(NatToString(t / 60)) + ":" + Pad2(NatToString(t % 60))
  {
  }

  /** A number below 100 has at most two digits. */
  lemma TwoDigitsAtMost(n: nat)
    requires n < 100
    ensures |NatToString(n)| <= 2
  {
    if n >= 10 {
      assert NatToString(n) == NatToString(n / 10) + [DigitChar(n % 10)];
    }
  }

  /** Minutes and seconds below 60, written as the timer writes them, read
      back as themselves. */
  lemma ClockRoundTrip(minutes: nat, seconds: nat)
    requires seconds < 60
    ensures ReadTimer(Pad2(NatToString(minutes)) + ":" + Pad2(NatToString(seconds))) == Some((minutes, seconds))
  {
    var m, sec := Pad2(NatToString(minutes)), Pad2(NatToString(seconds));
    Pad2Reads(minutes);
    Pad2Reads(seconds);
    TwoDigitsAtMost(seconds);
    ReadTimerSplit(m, sec);
  }

  /** For a non-negative time the timer text is the minutes, padded to at
      least two digits and never cut, a colon, and the seconds as exactly two
      digits. */
  lemma TimerShape(t: nat)
    ensures var m := NatToString(t / 60);
      TimerText(t) == (if t / 60 < 10 then "0" + m else m) + ":" + Pad2(NatToString(t % 60))
    ensures |Pad2(NatToString(t % 60))| == 2
  {
    TimerTextNat(t);
    TwoDigitsAtMost(t % 60);
  }

  /** Round trip: reading the timer text of a non-negative time gives its
      minutes and its seconds, which add back up to the time. */
  lemma TimerRoundTrip(t: nat)
    ensures ReadTimer(TimerText(t)) == Some((t / 60, t % 60))
    ensures t % 60 < 60 && 60 * (t / 60) + t % 60 == t
  {
    TimerTextNat(t);
    ClockRoundTrip(t / 60, t % 60);
  }

  /** A language of the selector: its code and its display name. */
  datatype LanguageOption = LanguageOption(code: string, name: string)

  /** `languages.find(l => l.code === code)?.name`: the first match. */
  function FindName(languages: seq<LanguageOption>, code: string): (r: Option<string>)
    ensures r.None? <==> forall i :: 0 <= i < |languages| ==> languages[i].code != code
    ensures r.Some? ==> exists i :: 0 <= i < |languages| && languages[i].code == code && languages[i].name == r.value
                          && forall j :: 0 <= j < i ==> languages[j].code != code
  {
    if languages == [] then None
    else if languages[0].code == code then Some(languages[0].name)
    else FindName(languages[1..], code)
  }

  /** The buttons under the card. */
  datatype Rating = Hard | Good | Easy
  datatype Button = ShowAnswer | Rate(rating: Rating)

  /** What a click asks of the parent. */
  datatype Effect = SetFlipped(flipped: bool) | HandleRating(rating: Rating)

  function Controls(isFlipped: bool): (r: seq<Button>)
    ensures ShowAnswer in r <==> !isFlipped
    ensures isFlipped ==> |r| == 3 && forall k :: 0 <= k < |r| ==> r[k].Rate?
  {
    if !isFlipped then [ShowAnswer] else [Rate(Hard), Rate(Good), Rate(Easy)]
  }

  function OnClick(button: Button): Effect {
    match button
    case ShowAnswer => SetFlipped(true)
    case Rate(r) => HandleRating(r)
  }

  /** A click on the card itself turns it over. */
  function OnCardClick(isFlipped: bool): (e: Effect)
    ensures e.SetFlipped? && e.flipped != isFlipped
  {
    SetFlipped(!isFlipped)
  }

  /** What each control does when clicked, in order. */
  function Effects(isFlipped: bool): (r: seq<Effect>)
    ensures |r| == |Controls(isFlipped)|
    ensures forall i :: 0 <= i < |r| ==> r[i] == OnClick(Controls(isFlipped)[i])
  {
    seq(|Controls(isFlipped)|, i requires 0 <= i < |Controls(isFlipped)| => OnClick(Controls(isFlipped)[i]))
  }

  /** Unflipped, the one button shows the answer; flipped, the buttons rate
      the card hard, good and easy, and none of them turns it back. */
  lemma ControlsGating()
    ensures Effects(false) == [SetFlipped(true)]
    ensures Effects(true) == [HandleRating(Hard), HandleRating(Good), HandleRating(Easy)]
    ensures forall e :: e in Effects(true) ==> !e.SetFlipped?
  {
  }

  /** The props the overlay reads. `currentIndex` is taken to be an integer. */
  datatype Props = Props(
    show: bool,
    queue: seq<WordData>,
    currentIndex: int,
    isFlipped: bool,
    sessionTime: int,
    supportedLanguages: seq<LanguageOption>,
    sourceLangState: string,
    targetLang: string,
    secondaryTargetLang: string)

  /** The back's lower part, shown only for a card with definitions: the
      secondary language's name and the definitions. */
  datatype SecondaryPart = SecondaryPart(languageName: Option<string>, definitions: seq<string>)

  /** What the overlay shows when it shows anything. */
  datatype Screen = Screen(
    timer: string,
    frontLabel: string,
    word: string,
    targetLabel: Option<string>,
    meaning: string,
    audioButton: bool,
    secondary: Option<SecondaryPart>,
    controls: seq<Button>)

  /** The overlay: nothing when hidden or when `queue[currentIndex]` is
      undefined, otherwise the current card's two faces and the controls. */
  function Render(props: Props): (r: Option<Screen>)
    ensures r.None? <==> !props.show || !(0 <= props.currentIndex < |props.queue|)
    ensures r.Some? ==>
      var card := props.queue[props.currentIndex];
      && r.value.word == card.cleanWord
      && r.value.meaning == card.englishDefinition
      && (r.value.audioButton <==> Truthy(card.audioUrl))
      && (r.value.secondary.Some? <==> card.definitions != [])
      && (r.value.secondary.Some? ==> r.value.secondary.value.definitions == card.definitions)
      && r.value.timer == TimerText(props.sessionTime)
      && r.value.controls == Controls(props.isFlipped)
  {
    if !props.show || !(0 <= props.currentIndex < |props.queue|) then None
    else
      var card := props.queue[props.currentIndex];
      var langs := props.supportedLanguages;
      var source := FindName(langs, OrElse(card.sourceLang, props.sourceLangState));
      var secondary :=
        if card.definitions != []
        then Some(SecondaryPart(FindName(langs, OrElse(card.secondaryLang, props.secondaryTargetLang)), card.definitions))
        else None;
      Some(Screen(
        TimerText(props.sessionTime),
        OrElse(source, "Translate this"),
        card.cleanWord,
        FindName(langs, OrElse(card.targetLang, props.targetLang)),
        card.englishDefinition,
        Truthy(card.audioUrl),
        secondary,
        Controls(props.isFlipped)))
  }

  /** The front names the card's own source language when it has one, the
      selected source language otherwise, and says "Translate this" when the
      language is not in the list (or has an empty name). */
  lemma FrontLabelFallback(props: Props)
    requires props.show && 0 <= props.currentIndex < |props.queue|
    ensures var card := props.queue[props.currentIndex];
      var code := if Truthy(card.sourceLang) then card.sourceLang.value else props.sourceLangState;
      (forall i :: 0 <= i < |props.supportedLanguages| ==> props.supportedLanguages[i].code != code)
        ==> Render(props).value.frontLabel == "Translate this"
  {
  }
}
