/** Text as the input decoder holds it: a sequence of UTF-16 code units. */
module Utf16 {
  type CodeUnit = u: int | 0 <= u < 0x10000
  type Text = seq<CodeUnit>

  predicate HighSurrogate(u: CodeUnit) { 0xD800 <= u <= 0xDBFF }

  predicate LowSurrogate(u: CodeUnit) { 0xDC00 <= u <= 0xDFFF }

  /** Code units taken by the character that starts at `i`; a lone surrogate takes one. */
  function CharLength(t: Text, i: nat): nat
    requires i < |t|
  {
    if HighSurrogate(t[i]) && i + 1 < |t| && LowSurrogate(t[i + 1]) then 2 else 1
  }

  /** Cutting between `a` and `b` would tear a surrogate pair apart. */
  predicate SplitsPair(a: Text, b: Text) {
    a != [] && b != [] && HighSurrogate(a[|a| - 1]) && LowSurrogate(b[0])
  }
}

/** The events of the terminal decoder and the decoding of one complete sequence. */
module InputKeys {
  import opened Wrappers
  import opened Utf16

  /** A word such as "escape", or the printed character itself. */
  datatype KeyName = Named(word: string) | Printed(units: Text)

  datatype MouseAction = Press | Release | Motion | WheelUp | WheelDown

  datatype MouseButton = LeftButton | MiddleButton | RightButton | NoButton

  datatype Event =
    | Key(key: KeyName, ctrl: bool, alt: bool, shift: bool)
    | Mouse(action: MouseAction, button: MouseButton, x: int, y: int, ctrl: bool, alt: bool, shift: bool)

  const ESC: CodeUnit := 0x1B
  const LEFT_BRACKET: CodeUnit := 0x5B
  const CAPITAL_O: CodeUnit := 0x4F
  const TILDE: CodeUnit := 0x7E
  const SEMICOLON: CodeUnit := 0x3B

  function Plain(name: string): Event { Key(Named(name), false, false, false) }

  const ESCAPE_KEY: Event := Plain("escape")

  /** A control unit the decoder drops without an event; Esc never reaches this test. */
  predicate Silent(u: CodeUnit) { u == 0 || 0x1C <= u <= 0x1F }

  function CharacterKey(ch: Text, alt: bool): (r: Option<Event>)
    requires ch != [] && ch[0] != ESC
    ensures r.None? <==> Silent(ch[0])
    ensures r.Some? ==> r.value.Key?
  {
    var u := ch[0];
    if u == 0x0D || u == 0x0A then Some(Key(Named("enter"), false, alt, false))
    else if u == 0x09 then Some(Key(Named("tab"), false, alt, false))
    else if u == 0x20 then Some(Key(Named("space"), false, alt, false))
    else if u == 0x7F || u == 0x08 then Some(Key(Named("backspace"), false, alt, false))
    else if 0x01 <= u <= 0x1A then Some(Key(Printed([u + 96]), true, alt, false))
    else if u < 0x20 then None
    else Some(Key(Printed(ch), false, alt, false))
  }

  /** The letter finals shared by CSI and SS3. */
  function CsiNamed(final: CodeUnit): Option<string> {
    match final
    case 0x41 => Some("up")
    case 0x42 => Some("down")
    case 0x43 => Some("right")
    case 0x44 => Some("left")
    case 0x48 => Some("home")
    case 0x46 => Some("end")
    case _ => None
  }

  function CsiTilde(param: Text): Option<string> {
    if |param| != 1 then None else
    match param[0]
    case 0x31 => Some("home")
    case 0x32 => Some("insert")
    case 0x33 => Some("delete")
    case 0x34 => Some("end")
    case 0x35 => Some("pageup")
    case 0x36 => Some("pagedown")
    case 0x37 => Some("home")
    case 0x38 => Some("end")
    case _ => None
  }

  /** `split(';')`: never empty. */
  function SplitParams(t: Text): (parts: seq<Text>)
    ensures parts != []
  {
    if t == [] then [[]]
    else
      var rest := SplitParams(t[1..]);
      if t[0] == SEMICOLON then [[]] + rest else [[t[0]] + rest[0]] + rest[1..]
  }

  lemma {:induction false} SplitPlain(t: Text)
    requires SEMICOLON !in t
    ensures SplitParams(t) == [t]
  {
    if t != [] {
      SplitPlain(t[1..]);
      assert t == [t[0]] + t[1..];
    }
  }

  predicate Digit(u: CodeUnit) { 0x30 <= u <= 0x39 }

  predicate Whitespace(u: CodeUnit) {
    0x09 <= u <= 0x0D || u == 0x20 || u == 0xA0 || u == 0x1680 || 0x2000 <= u <= 0x200A ||
    u == 0x2028 || u == 0x2029 || u == 0x202F || u == 0x205F || u == 0x3000 || u == 0xFEFF
  }

  function DigitsValue(t: Text, acc: nat): nat {
    if t == [] || !Digit(t[0]) then acc else DigitsValue(t[1..], 10 * acc + (t[0] - 0x30))
  }

  /** `Number.parseInt(t, 10)`; None is NaN. */
  function ParseInt(t: Text): Option<int> {
    if t == [] then None
    else if Whitespace(t[0]) then ParseInt(t[1..])
    else
      var signed := t[0] == 0x2B || t[0] == 0x2D;
      var digits := if signed then t[1..] else t;
      if digits == [] || !Digit(digits[0]) then None
      else
        var magnitude: int := DigitsValue(digits, 0);
        Some(if t[0] == 0x2D then -magnitude else magnitude)
  }

  /** `(n & weight) !== 0` for a power of two, in two's complement. */
  predicate Bit(n: int, weight: int)
    requires weight > 0
  {
    (n / weight) % 2 == 1
  }

  function ModifiedKey(name: string, parts: seq<Text>): Event {
    var modifier :=
      if |parts| < 2 || parts[1] == [] then 0
      else match ParseInt(parts[1]) case None => 0 case Some(n) => n - 1;
    Key(Named(name), Bit(modifier, 4), Bit(modifier, 2), Bit(modifier, 1))
  }

  function DecodeSgrMouse(params: Text, final: CodeUnit): (r: Option<Event>)
    ensures r.Some? ==> r.value.Mouse?
  {
    var parts := SplitParams(params);
    if |parts| != 3 then None else
    match (ParseInt(parts[0]), ParseInt(parts[1]), ParseInt(parts[2]))
    case (Some(flags), Some(x), Some(y)) =>
      var wheel := Bit(flags, 64);
      var action :=
        if wheel then (if Bit(flags, 1) then WheelDown else WheelUp)
        else if final == 0x6D then Release
        else if Bit(flags, 32) then Motion else Press;
      var button :=
        if wheel then NoButton
        else match flags % 4
          case 0 => LeftButton case 1 => MiddleButton case 2 => RightButton case _ => NoButton;
      Some(Mouse(action, button, x, y, Bit(flags, 16), Bit(flags, 8), Bit(flags, 4)))
    case _ => None
  }

  datatype CsiDecode = CsiDecode(event: Option<Event>, startPaste: bool)

  /** One complete CSI sequence. No event it yields is a printed character. */
  function DecodeCsi(params: Text, final: CodeUnit): (r: CsiDecode)
    ensures r.startPaste ==> r.event.None? && final == TILDE
    ensures r.event.Some? && r.event.value.Key? ==> r.event.value.key.Named?
  {
    if params != [] && params[0] == 0x3C && (final == 0x4D || final == 0x6D) then
      CsiDecode(DecodeSgrMouse(params[1..], final), false)
    else if final == TILDE then
      var parts := SplitParams(params);
      if parts[0] == [0x32, 0x30, 0x30] then CsiDecode(None, true)
      else
        match CsiTilde(parts[0])
        case None => CsiDecode(None, false)
        case Some(name) => CsiDecode(Some(ModifiedKey(name, parts)), false)
    else if final == 0x5A then CsiDecode(Some(Key(Named("tab"), false, false, true)), false)
    else
      match CsiNamed(final)
      case None => CsiDecode(None, false)
      case Some(name) => CsiDecode(Some(ModifiedKey(name, SplitParams(params))), false)
  }
}
