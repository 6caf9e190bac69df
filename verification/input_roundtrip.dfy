/** What an xterm-style terminal sends for a key or a mouse event, and that the decoder reads it back. */
module InputRoundTrip {
  import opened Wrappers
  import opened Utf16
  import opened InputKeys
  import opened InputDecoder

  function Decimal(n: nat): (t: Text)
    ensures t != [] && forall k | 0 <= k < |t| :: Digit(t[k])
  {
    if n < 10 then [0x30 + n] else Decimal(n / 10) + [0x30 + n % 10]
  }

  const BACK_TAB: Event := Key(Named("tab"), false, false, true)

  /** Every event the decoder can be sent as one CSI sequence. */
  predicate Sendable(e: Event) {
    match e
    case Key(_, _, _, _) => e == BACK_TAB || Spellable(e)
    case Mouse(action, button, x, y, _, _, _) =>
      x >= 0 && y >= 0 && (action == WheelUp || action == WheelDown ==> button == NoButton)
  }

  /** A cursor or editing key, with any modifiers. */
  predicate Spellable(e: Event) {
    e.Key? && e.key.Named? && (FinalFor(e.key.word).Some? || TildeFor(e.key.word).Some?)
  }

  predicate Unmodified(e: Event) { !e.ctrl && !e.alt && !e.shift }

  function FinalFor(word: string): Option<CodeUnit> {
    if word == "up" then Some(0x41) else if word == "down" then Some(0x42)
    else if word == "right" then Some(0x43) else if word == "left" then Some(0x44)
    else if word == "home" then Some(0x48) else if word == "end" then Some(0x46) else None
  }

  function TildeFor(word: string): Option<nat> {
    if word == "insert" then Some(2) else if word == "delete" then Some(3)
    else if word == "pageup" then Some(5) else if word == "pagedown" then Some(6) else None
  }

  function Weighted(flag: bool, weight: nat): nat { if flag then weight else 0 }

  function ButtonNumber(button: MouseButton): nat {
    match button case LeftButton => 0 case MiddleButton => 1 case RightButton => 2 case NoButton => 3
  }

  function Flags(e: Event): nat
    requires e.Mouse?
  {
    var button := ButtonNumber(e.button);
    var low := match e.action case WheelUp => 64 case WheelDown => 65 case Motion => 32 + button case _ => button;
    low + Weighted(e.shift, 4) + Weighted(e.alt, 8) + Weighted(e.ctrl, 16)
  }

  /** Parameters and final byte for a key with its modifiers spelled out, be there any or not. */
  function SpelledOut(e: Event): (Text, CodeUnit)
    requires Spellable(e)
  {
    var modifier := Decimal(1 + Weighted(e.shift, 1) + Weighted(e.alt, 2) + Weighted(e.ctrl, 4));
    var final := FinalFor(e.key.word);
    if final.Some? then (Decimal(1) + [SEMICOLON] + modifier, final.value)
    else (Decimal(TildeFor(e.key.word).value) + [SEMICOLON] + modifier, TILDE)
  }

  /** The same for a key without modifiers, which says nothing of them. */
  function Bare(e: Event): (Text, CodeUnit)
    requires Spellable(e)
  {
    var final := FinalFor(e.key.word);
    if final.Some? then ([], final.value) else (Decimal(TildeFor(e.key.word).value), TILDE)
  }

  /** Parameters and final byte of the sequence an xterm sends for an event. */
  function Wire(e: Event): (Text, CodeUnit)
    requires Sendable(e)
  {
    match e
    case Key(_, _, _, _) => if e == BACK_TAB then ([], 0x5A) else if Unmodified(e) then Bare(e) else SpelledOut(e)
    case Mouse(action, _, x, y, _, _, _) =>
      ([0x3C] + (Decimal(Flags(e)) + [SEMICOLON] + (Decimal(x) + [SEMICOLON] + Decimal(y))),
       if action == Release then 0x6D else 0x4D)
  }

  function Sequence(wire: (Text, CodeUnit)): Text { [ESC, LEFT_BRACKET] + wire.0 + [wire.1] }

  lemma {:induction false} DigitsAppend(ds: Text, d: CodeUnit, acc: nat)
    requires Digit(d) && forall k | 0 <= k < |ds| :: Digit(ds[k])
    ensures DigitsValue(ds + [d], acc) == 10 * DigitsValue(ds, acc) + (d - 0x30)
    decreases |ds|
  {
    var t := ds + [d];
    if ds == [] {
      assert t[1..] == [];
    } else {
      assert t[1..] == ds[1..] + [d];
      DigitsAppend(ds[1..], d, 10 * acc + (ds[0] - 0x30));
    }
  }

  lemma {:induction false} DecimalValue(n: nat)
    ensures DigitsValue(Decimal(n), 0) == n
  {
    if n < 10 {
      assert Decimal(n)[1..] == [];
    } else {
      DecimalValue(n / 10);
      DigitsAppend(Decimal(n / 10), 0x30 + n % 10, 0);
    }
  }

  lemma {:induction false} ParseDecimal(n: nat)
    ensures ParseInt(Decimal(n)) == Some(n)
  {
    DecimalValue(n);
    assert Digit(Decimal(n)[0]);
  }

  lemma {:induction false} SplitAtSemicolon(a: Text, b: Text)
    requires SEMICOLON !in a
    ensures SplitParams(a + [SEMICOLON] + b) == [a] + SplitParams(b)
  {
    var t := a + [SEMICOLON] + b;
    if a == [] {
      assert t[1..] == b;
    } else {
      SplitAtSemicolon(a[1..], b);
      assert t[1..] == a[1..] + [SEMICOLON] + b;
      assert a == [a[0]] + a[1..];
    }
  }

  lemma {:induction false} SplitTwo(m: nat, n: nat)
    ensures SplitParams(Decimal(m) + [SEMICOLON] + Decimal(n)) == [Decimal(m), Decimal(n)]
  {
    SplitAtSemicolon(Decimal(m), Decimal(n));
    SplitPlain(Decimal(n));
  }

  lemma {:induction false} SmallDecimal(n: nat)
    requires n < 10
    ensures Decimal(n) == [0x30 + n]
  {
  }

  lemma {:induction false} ModifierDecodes(shift: bool, alt: bool, ctrl: bool)
    ensures var m := Weighted(shift, 1) + Weighted(alt, 2) + Weighted(ctrl, 4);
            Bit(m, 1) == shift && Bit(m, 2) == alt && Bit(m, 4) == ctrl
  {
  }

  lemma {:induction false} SpelledDecodes(e: Event)
    requires Spellable(e)
    ensures DecodeCsi(SpelledOut(e).0, SpelledOut(e).1) == CsiDecode(Some(e), false)
  {
    hide Decimal, SplitParams, ParseInt, DigitsValue, Bit;
    var m := 1 + Weighted(e.shift, 1) + Weighted(e.alt, 2) + Weighted(e.ctrl, 4);
    var final := FinalFor(e.key.word);
    var lead := if final.Some? then 1 else TildeFor(e.key.word).value;
    SplitTwo(lead, m);
    ParseDecimal(m);
    SmallDecimal(lead);
    ModifierDecodes(e.shift, e.alt, e.ctrl);
  }

  lemma {:induction false} BareDecodes(e: Event)
    requires Spellable(e) && Unmodified(e)
    ensures DecodeCsi(Bare(e).0, Bare(e).1) == CsiDecode(Some(e), false)
  {
    hide Decimal;
    if FinalFor(e.key.word).None? {
      var lead := TildeFor(e.key.word).value;
      SmallDecimal(lead);
      SplitPlain(Decimal(lead));
    }
  }

  lemma {:induction false} KeyDecodes(e: Event)
    requires e.Key? && Sendable(e)
    ensures DecodeCsi(Wire(e).0, Wire(e).1) == CsiDecode(Some(e), false)
  {
    if e == BACK_TAB {
    } else {
      hide SpelledOut, Bare, DecodeCsi, Spellable;
      if Unmodified(e) { BareDecodes(e); } else { SpelledDecodes(e); }
    }
  }

  /** The quotients of a number written in binary above its two lowest bits. */
  lemma {:induction false} Quotients(low: nat, s: nat, a: nat, c: nat, m: nat, w: nat)
    requires low < 4 && s < 2 && a < 2 && c < 2 && m < 2 && w < 2
    ensures var f := low + 4 * s + 8 * a + 16 * c + 32 * m + 64 * w;
            && f % 4 == low && f % 2 == low % 2
            && f / 4 == s + 2 * (a + 2 * c + 4 * m + 8 * w) && f / 8 == a + 2 * (c + 2 * m + 4 * w)
            && f / 16 == c + 2 * (m + 2 * w) && f / 32 == m + 2 * w && f / 64 == w
  {
  }

  lemma {:induction false} LastBit(bit: nat, rest: nat)
    requires bit < 2
    ensures (bit + 2 * rest) % 2 == bit
  {
  }

  lemma {:induction false} BitsDecode(f: nat, low: nat, s: nat, a: nat, c: nat, m: nat, w: nat)
    requires low < 4 && s < 2 && a < 2 && c < 2 && m < 2 && w < 2
    requires f == low + 4 * s + 8 * a + 16 * c + 32 * m + 64 * w
    ensures Bit(f, 4) == (s == 1) && Bit(f, 8) == (a == 1) && Bit(f, 16) == (c == 1)
    ensures Bit(f, 32) == (m == 1) && Bit(f, 64) == (w == 1) && Bit(f, 1) == (low % 2 == 1) && f % 4 == low
  {
    Quotients(low, s, a, c, m, w);
    LastBit(s, a + 2 * c + 4 * m + 8 * w);
    LastBit(a, c + 2 * m + 4 * w);
    LastBit(c, m + 2 * w);
    LastBit(m, w);
    LastBit(w, 0);
  }

  function One(flag: bool): nat { if flag then 1 else 0 }

  lemma {:induction false} FlagsSum(e: Event)
    requires e.Mouse? && Sendable(e)
    ensures var wheel := e.action == WheelUp || e.action == WheelDown;
            var low := if wheel then One(e.action == WheelDown) else ButtonNumber(e.button);
            && low < 4
            && Flags(e) == low + 4 * One(e.shift) + 8 * One(e.alt) + 16 * One(e.ctrl) + 32 * One(e.action == Motion)
                           + 64 * One(wheel)
  {
  }

  lemma {:induction false} FlagsDecode(e: Event)
    requires e.Mouse? && Sendable(e)
    ensures var f := Flags(e);
            && Bit(f, 4) == e.shift && Bit(f, 8) == e.alt && Bit(f, 16) == e.ctrl
            && Bit(f, 64) == (e.action == WheelUp || e.action == WheelDown)
            && (e.action == WheelUp || e.action == WheelDown ==> Bit(f, 1) == (e.action == WheelDown))
            && (Bit(f, 32) == (e.action == Motion))
            && (!Bit(f, 64) ==> f % 4 == ButtonNumber(e.button))
  {
    hide Bit, Flags;
    FlagsSum(e);
    var wheel := e.action == WheelUp || e.action == WheelDown;
    var low := if wheel then One(e.action == WheelDown) else ButtonNumber(e.button);
    BitsDecode(Flags(e), low, One(e.shift), One(e.alt), One(e.ctrl), One(e.action == Motion), One(wheel));
  }

  lemma {:induction false} MouseDecodes(e: Event)
    requires e.Mouse? && Sendable(e)
    ensures DecodeCsi(Wire(e).0, Wire(e).1) == CsiDecode(Some(e), false)
  {
    hide Decimal, SplitParams, ParseInt, DigitsValue, Bit, Flags;
    var f := Flags(e);
    var params := Wire(e).0;
    var xy := Decimal(e.x) + [SEMICOLON] + Decimal(e.y);
    assert params[1..] == Decimal(f) + [SEMICOLON] + xy;
    SplitAtSemicolon(Decimal(f), xy);
    SplitTwo(e.x, e.y);
    ParseDecimal(f);
    ParseDecimal(e.x);
    ParseDecimal(e.y);
    FlagsDecode(e);
  }

  lemma {:induction false} ParamsAreNotFinal(e: Event)
    requires Sendable(e)
    ensures forall k | 0 <= k < |Wire(e).0| :: !Final(Wire(e).0[k])
    ensures Final(Wire(e).1)
  {
    hide Decimal;
  }

  lemma {:induction false} WireIsRead(e: Event)
    requires Sendable(e)
    ensures Step(Sequence(Wire(e)), false, false) == Consume(|Sequence(Wire(e))|, Some(e), false)
    ensures Parse(Sequence(Wire(e)), false, false) == Outcome([e], [], false)
  {
    hide Wire, DecodeCsi, Parse, Sequence, Step;
    if e.Key? { KeyDecodes(e); } else { MouseDecodes(e); }
    ParamsAreNotFinal(e);
    ReadOne(Wire(e), e);
  }

  lemma {:induction false} SpelledIsRead(e: Event)
    requires Spellable(e)
    ensures Step(Sequence(SpelledOut(e)), false, false) == Consume(|Sequence(SpelledOut(e))|, Some(e), false)
    ensures Parse(Sequence(SpelledOut(e)), false, false) == Outcome([e], [], false)
  {
    SpelledIsNotFinal(e);
    SpelledDecodes(e);
    hide SpelledOut, Sequence, DecodeCsi, Parse, Step;
    ReadOne(SpelledOut(e), e);
  }

  /** Every such event is read back as an xterm sends it, with its modifiers, button and cell. */
  lemma {:induction false} SentIsRead(e: Event)
    requires Sendable(e)
    ensures Parse(Sequence(Wire(e)), false, false) == Outcome([e], [], false)
  {
    hide *;
    WireIsRead(e);
  }

  /** So are the other ways to send a key: its modifiers spelled out, and the form of the application mode. */
  lemma {:induction false} OtherFormsAreRead(e: Event)
    requires Spellable(e)
    ensures Parse(Sequence(SpelledOut(e)), false, false) == Outcome([e], [], false)
    ensures var final := FinalFor(e.key.word);
            Unmodified(e) && final.Some? ==>
              Parse([ESC, CAPITAL_O, final.value], false, false) == Outcome([e], [], false)
  {
    SpelledIsRead(e);
    hide FinalFor, SpelledOut, Sequence, Parse;
    var final := FinalFor(e.key.word);
    if Unmodified(e) && final.Some? { ApplicationIsRead(e, final.value); }
  }

  lemma {:induction false} SpelledIsNotFinal(e: Event)
    requires Spellable(e)
    ensures Final(SpelledOut(e).1) && forall k | 0 <= k < |SpelledOut(e).0| :: !Final(SpelledOut(e).0[k])
  {
    hide Decimal;
  }

  lemma {:induction false} ApplicationIsRead(e: Event, final: CodeUnit)
    requires e.Key? && e.key.Named? && Unmodified(e) && FinalFor(e.key.word) == Some(final)
    ensures Step([ESC, CAPITAL_O, final], false, false) == Consume(3, Some(e), false)
    ensures Parse([ESC, CAPITAL_O, final], false, false) == Outcome([e], [], false)
  {
    var s := [ESC, CAPITAL_O, final];
    assert CsiNamed(final) == Some(e.key.word);
    assert s[3..] == [];
  }

  lemma {:induction false} ReadOne(wire: (Text, CodeUnit), e: Event)
    requires DecodeCsi(wire.0, wire.1) == CsiDecode(Some(e), false)
    requires Final(wire.1) && forall k | 0 <= k < |wire.0| :: !Final(wire.0[k])
    ensures Step(Sequence(wire), false, false) == Consume(|Sequence(wire)|, Some(e), false)
    ensures Parse(Sequence(wire), false, false) == Outcome([e], [], false)
  {
    hide DecodeCsi;
    var s := Sequence(wire);
    assert s[2..|s| - 1] == wire.0 && s[|s| - 1] == wire.1;
    forall k | 2 <= k < |s| - 1 ensures !Final(s[k]) { assert s[k] == wire.0[k - 2]; }
    assert FinalIndex(s, 2) == |s| - 1;
    assert s[|s|..] == [];
  }
}
