/** What a terminal sends for everything a user can press, and that the decoder reads it back, key by key. */
module InputTyping {
  import opened Wrappers
  import opened Utf16
  import opened InputKeys
  import opened InputDecoder
  import opened InputChunking
  import opened InputRoundTrip

  /** The control codes a terminal sends for these keys. */
  predicate NamedCode(word: string, u: CodeUnit) {
    || (word == "enter" && (u == 0x0D || u == 0x0A))
    || (word == "tab" && u == 0x09)
    || (word == "space" && u == 0x20)
    || (word == "backspace" && (u == 0x7F || u == 0x08))
  }

  /** One character, in one unit or in two. */
  predicate Character(ch: Text) { ch != [] && |ch| == CharLength(ch, 0) }

  /** `ch` is what is sent for a character key without Alt. */
  predicate TypedAs(key: KeyName, ctrl: bool, ch: Text) {
    || (key.Named? && !ctrl && |ch| == 1 && NamedCode(key.word, ch[0]))
    || (key.Printed? && ctrl && |ch| == 1 && |key.units| == 1 && 0x61 <= key.units[0] <= 0x7A
        && ch[0] == key.units[0] - 0x60 && ch[0] !in [0x08, 0x09, 0x0A, 0x0D])
    || (key.Printed? && !ctrl && ch == key.units && Character(ch) && ch[0] > 0x20 && ch[0] != 0x7F)
  }

  /** A character is read as just the key it is sent for. */
  lemma {:induction false} CharacterExactly(ch: Text, alt: bool, e: Event)
    requires Character(ch) && ch[0] != ESC
    ensures CharacterKey(ch, alt) == Some(e) <==> e.Key? && TypedAs(e.key, e.ctrl, ch) && e.alt == alt && !e.shift
  {
    if e.Key? && e.key.Printed? && |e.key.units| == 1 { assert e.key.units == [e.key.units[0]]; }
  }

  /** Every text a terminal sends for one press or mouse report. */
  predicate Pressed(e: Event, t: Text) {
    || (Sendable(e) && t == Sequence(Wire(e)))
    || (Spellable(e) && t == Sequence(SpelledOut(e)))
    || (Spellable(e) && Unmodified(e) && FinalFor(e.key.word).Some?
        && t == [ESC, CAPITAL_O, FinalFor(e.key.word).value])
    || HomeOrEnd(e, t)
    || (e == ESCAPE_KEY && t == [ESC, ESC])
    || (e.Key? && !e.shift && !e.alt && TypedAs(e.key, e.ctrl, t))
    || (e.Key? && !e.shift && e.alt && t != [] && t[0] == ESC && TypedAs(e.key, e.ctrl, t[1..])
        && t[1] != LEFT_BRACKET && t[1] != CAPITAL_O)
  }

  /** The numbers some terminals send for Home and End, bare or with modifiers. */
  predicate HomeOrEnd(e: Event, t: Text) {
    && e.Key? && e.key.Named?
    && exists k | k in [1, 4, 7, 8] ::
         && e.key.word == (if k == 1 || k == 7 then "home" else "end")
         && (t == Sequence((Modified(k, e), TILDE)) || (Unmodified(e) && t == Sequence((Decimal(k), TILDE))))
  }

  function Modified(k: nat, e: Event): Text
    requires e.Key?
  {
    Decimal(k) + [SEMICOLON] + Decimal(1 + Weighted(e.shift, 1) + Weighted(e.alt, 2) + Weighted(e.ctrl, 4))
  }

  lemma {:induction false} CharacterIsRead(e: Event, t: Text)
    requires e.Key? && !e.shift && !e.alt && TypedAs(e.key, e.ctrl, t)
    ensures Step(t, false, false) == Consume(|t|, Some(e), false)
  {
    assert Character(t) && t[0] != ESC;
    CharacterExactly(t, false, e);
    assert t[..|t|] == t;
  }

  lemma {:induction false} AltIsRead(e: Event, t: Text)
    requires e.Key? && !e.shift && e.alt && t != [] && t[0] == ESC && TypedAs(e.key, e.ctrl, t[1..])
    requires t[1] != LEFT_BRACKET && t[1] != CAPITAL_O
    ensures Step(t, false, false) == Consume(|t|, Some(e), false)
  {
    var ch := t[1..];
    assert Character(ch) && ch[0] != ESC;
    CharacterExactly(ch, true, e);
    assert CharLength(t, 1) == |ch| && t[1..1 + |ch|] == ch;
  }

  lemma {:induction false} HomeOrEndIsRead(e: Event, k: nat)
    requires e.Key? && e.key.Named? && k in [1, 4, 7, 8]
    requires e.key.word == if k == 1 || k == 7 then "home" else "end"
    ensures Step(Sequence((Modified(k, e), TILDE)), false, false)
      == Consume(|Sequence((Modified(k, e), TILDE))|, Some(e), false)
    ensures Unmodified(e) ==>
      Step(Sequence((Decimal(k), TILDE)), false, false) == Consume(|Sequence((Decimal(k), TILDE))|, Some(e), false)
  {
    hide Decimal, SplitParams, ParseInt, DigitsValue, Bit, Step;
    var m := 1 + Weighted(e.shift, 1) + Weighted(e.alt, 2) + Weighted(e.ctrl, 4);
    SplitTwo(k, m);
    ParseDecimal(m);
    SmallDecimal(k);
    SplitPlain(Decimal(k));
    ModifierDecodes(e.shift, e.alt, e.ctrl);
    ZeroHasNoBits();
    ReadOne((Modified(k, e), TILDE), e);
    if Unmodified(e) { ReadOne((Decimal(k), TILDE), e); }
  }

  lemma {:induction false} ZeroHasNoBits()
    ensures !Bit(0, 1) && !Bit(0, 2) && !Bit(0, 4)
  {
  }

  lemma {:induction false} NumberedIsRead(e: Event, t: Text)
    requires HomeOrEnd(e, t)
    ensures Step(t, false, false) == Consume(|t|, Some(e), false)
  {
    var k :| k in [1, 4, 7, 8] && e.key.word == (if k == 1 || k == 7 then "home" else "end")
             && (t == Sequence((Modified(k, e), TILDE)) || (Unmodified(e) && t == Sequence((Decimal(k), TILDE))));
    HomeOrEndIsRead(e, k);
  }

  /** Whatever is pressed, and whichever way the terminal sends it, the head of the buffer is read as just that. */
  lemma {:induction false} PressIsRead(e: Event, t: Text)
    requires Pressed(e, t)
    ensures t != [] && Step(t, false, false) == Consume(|t|, Some(e), false)
  {
    if e.Key? && !e.shift && !e.alt && TypedAs(e.key, e.ctrl, t) {
      CharacterIsRead(e, t);
    } else if e == ESCAPE_KEY && t == [ESC, ESC] {
    } else if HomeOrEnd(e, t) {
      NumberedIsRead(e, t);
    } else if Sendable(e) && t == Sequence(Wire(e)) {
      WireIsRead(e);
    } else if Spellable(e) && t == Sequence(SpelledOut(e)) {
      SpelledIsRead(e);
    } else if Spellable(e) && Unmodified(e) && FinalFor(e.key.word).Some?
              && t == [ESC, CAPITAL_O, FinalFor(e.key.word).value] {
      ApplicationIsRead(e, FinalFor(e.key.word).value);
    } else {
      AltIsRead(e, t);
    }
  }

  // Streams

  datatype Press = Press(event: Event, text: Text)

  function Texts(presses: seq<Press>): Text {
    if presses == [] then [] else presses[0].text + Texts(presses[1..])
  }

  function Events(presses: seq<Press>): (r: seq<Event>)
    ensures |r| == |presses| && forall i | 0 <= i < |r| :: r[i] == presses[i].event
  {
    seq(|presses|, i requires 0 <= i < |presses| => presses[i].event)
  }

  /** No two texts join into one character: a terminal sends whole characters. */
  predicate WellSpaced(presses: seq<Press>) {
    presses != [] ==> !SplitsPair(presses[0].text, Texts(presses[1..])) && WellSpaced(presses[1..])
  }

  /** A whole session of presses and mouse reports is read as exactly those, in order, with nothing left over. */
  lemma {:induction false} SessionIsRead(presses: seq<Press>)
    requires WellSpaced(presses) && forall p <- presses :: Pressed(p.event, p.text)
    ensures Parse(Texts(presses), false, false) == Outcome(Events(presses), [], false)
    decreases |presses|
  {
    hide *;
    if |presses| == 0 {
      NothingPressed(presses);
    } else {
      var first, rest := presses[0], presses[1..];
      assert first in presses && forall p <- rest :: p in presses;
      FirstPress(presses);
      SessionIsRead(rest);
      PressIsRead(first.event, first.text);
      FirstIsTaken(first, Texts(rest), Events(rest));
    }
  }

  lemma {:induction false} NothingPressed(presses: seq<Press>)
    requires |presses| == 0
    ensures Parse(Texts(presses), false, false) == Outcome(Events(presses), [], false)
  {
    assert Events(presses) == [];
  }

  lemma {:induction false} FirstPress(presses: seq<Press>)
    requires presses != [] && WellSpaced(presses)
    ensures var first, rest := presses[0], presses[1..];
            && Texts(presses) == first.text + Texts(rest) && Events(presses) == [first.event] + Events(rest)
            && !SplitsPair(first.text, Texts(rest)) && WellSpaced(rest)
  {
    hide SplitsPair;
  }

  lemma {:induction false} FirstIsTaken(first: Press, rest: Text, events: seq<Event>)
    requires first.text != [] && !SplitsPair(first.text, rest)
    requires Step(first.text, false, false) == Consume(|first.text|, Some(first.event), false)
    requires Parse(rest, false, false) == Outcome(events, [], false)
    ensures Parse(first.text + rest, false, false) == Outcome([first.event] + events, [], false)
  {
    hide Step, Parse, SplitsPair;
    StepIsTaken(first.text, rest, first.event);
  }

  lemma {:induction false} StepIsTaken(t: Text, rest: Text, e: Event)
    requires t != [] && !SplitsPair(t, rest) && Step(t, false, false) == Consume(|t|, Some(e), false)
    ensures Parse(t + rest, false, false) == After([e], Parse(rest, false, false))
  {
    StepAppend(t, rest, false);
    hide Step;
    assert (t + rest)[|t|..] == rest;
  }

  // What is not a press

  /** The dropped control codes leave no trace, and an Esc alone waits to see what follows. */
  lemma {:induction false} NothingIsRead(u: CodeUnit)
    requires Silent(u)
    ensures Parse([u], false, false) == Outcome([], [], false)
    ensures Parse([ESC, u], false, false) == Outcome([], [], false)
    ensures Parse([ESC], false, false) == Outcome([], [ESC], false)
  {
    assert [u][1..] == [] && [ESC, u][2..] == [];
  }

  /** The first parameter of a sequence. */
  function Number(params: Text): Text {
    if params == [] || params[0] == SEMICOLON then [] else [params[0]] + Number(params[1..])
  }

  lemma {:induction false} NumberIsFirst(params: Text)
    ensures SplitParams(params)[0] == Number(params)
  {
    if params != [] { NumberIsFirst(params[1..]); }
  }

  lemma {:induction false} OneDigit(k: nat, number: Text)
    requires k < 10 && |number| == 1 && number[0] == 0x30 + k
    ensures Decimal(k) == number
  {
  }

  /** A number that is no key's is taken in and forgotten, but for 200, which opens a paste. */
  lemma {:induction false} OtherNumbersAreForgotten(params: Text)
    requires forall k | 1 <= k <= 8 :: Number(params) != Decimal(k)
    ensures DecodeCsi(params, TILDE) == CsiDecode(None, Number(params) == [0x32, 0x30, 0x30])
  {
    NumberIsFirst(params);
    var number := Number(params);
    if |number| == 1 && 0x31 <= number[0] <= 0x38 { OneDigit(number[0] - 0x30, number); }
  }

  /** A sequence with any other final byte is taken in and forgotten. */
  lemma {:induction false} UnknownIsForgotten(params: Text, final: CodeUnit)
    requires final !in [0x41, 0x42, 0x43, 0x44, 0x46, 0x48, 0x4D, 0x5A, 0x6D, TILDE]
    ensures DecodeCsi(params, final) == CsiDecode(None, false)
  {
  }

  /** What silence makes of a sequence that still waits: its Esc was the Esc key, and the rest is text. */
  lemma {:induction false} SilenceMeansEscape(b: Text)
    requires b != [] && b[0] == ESC && Step(b, false, false) == Wait(b)
    ensures Parse(b, false, true) == After([ESCAPE_KEY], Parse(b[1..], false, true))
    ensures b == [ESC] ==> Parse(b, false, true) == Outcome([ESCAPE_KEY], [], false)
  {
    assert Step(b, false, true) == Consume(1, Some(ESCAPE_KEY), false);
    hide Step;
    if b == [ESC] { assert b[1..] == []; }
  }
}
