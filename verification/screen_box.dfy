/** Styling, padding and boxes: the pieces every screen row is put together from. */
module ScreenBox {
  import opened ScreenText

  /** A border glyph: one cell, never an escape. */
  type Ink = c: char | c != ESC witness ' '

  /** Plain copy, free of escapes. */
  type Plain = t: string | ESC !in t witness ""

  datatype Glyphs = Glyphs(
    topLeft: Ink, topRight: Ink, bottomLeft: Ink, bottomRight: Ink, horizontal: Ink, vertical: Ink,
    separator: Plain, ellipsis: Plain)

  datatype Tier = TrueColor | Ansi256 | Ansi16 | NoColor

  datatype Semantic = Positive | Warn | Error | Dim | Accent

  const BOLD: string := [ESC, '[', '1', 'm']
  const REVERSE: string := [ESC, '[', '7', 'm']

  /** Parameters of the color sequence; meaningless on the colorless tier. */
  function ColorParams(semantic: Semantic, tier: Tier): string {
    match tier
    case TrueColor =>
      "38;2;" + (match semantic
                 case Positive => "82;196;26"
                 case Warn => "250;173;20"
                 case Error => "255;77;79"
                 case Dim => "140;140;140"
                 case Accent => "22;119;255")
    case Ansi256 =>
      "38;5;" + (match semantic
                 case Positive => "76"
                 case Warn => "214"
                 case Error => "203"
                 case Dim => "245"
                 case Accent => "33")
    case _ =>
      match semantic
      case Positive => "32"
      case Warn => "33"
      case Error => "31"
      case Dim => "90"
      case Accent => "36"
  }

  function Sgr(params: string): string { [ESC, '['] + params + "m" }

  function Paint(t: string, semantic: Semantic, tier: Tier): string {
    if tier.NoColor? then t else Sgr(ColorParams(semantic, tier)) + t + RESET
  }

  function Bold(t: string, tier: Tier): string {
    if tier.NoColor? then t else BOLD + t + RESET
  }

  function Reverse(t: string): string { REVERSE + t + RESET }

  function Repeat(c: char, n: int): (r: string)
    ensures |r| == Max(0, n)
  {
    seq(Max(0, n), _ => c)
  }

  /** Clip to `width` cells and pad with blanks to exactly `width`. */
  function PadToWidth(t: string, width: int, ellipsis: string): string {
    var clipped := Truncated(t, width, ellipsis);
    clipped + Repeat(' ', width - Width(clipped))
  }

  function CenterLine(t: string, width: int, ellipsis: string): string {
    var clipped := Truncated(t, width, ellipsis);
    PadToWidth(Repeat(' ', Max(0, (width - Width(clipped)) / 2)) + clipped, width, ellipsis)
  }

  /** Left text and right-aligned tail. */
  function SpreadRow(left: string, right: string, width: int, ellipsis: string): string {
    if right == "" then PadToWidth(left, width, ellipsis)
    else
      var gap := width - Width(left) - Width(right);
      if gap >= 1 then left + Repeat(' ', gap) + right
      else PadToWidth(left + " " + right, width, ellipsis)
  }

  // What a text shows

  /** `t` is well-formed and its cells read `plain`. */
  predicate Shows(t: string, plain: string) {
    Clean(t) && Strip(t) == plain
  }

  /** The clipped cells: the leading ones and the ellipsis, which gives way when it does not fit. */
  function Clipped(plain: string, width: int, ellipsis: string): (r: string)
    ensures |r| == Max(0, Min(width, |plain|))
  {
    if width <= 0 then ""
    else if |plain| <= width then plain
    else if |ellipsis| < width then plain[..width - |ellipsis|] + ellipsis
    else plain[..width]
  }

  function Padded(plain: string, width: int, ellipsis: string): (r: string)
    ensures |r| == Max(0, width)
  {
    var clipped := Clipped(plain, width, ellipsis);
    clipped + Repeat(' ', width - |clipped|)
  }

  lemma {:induction false} PlainShows(t: string)
    requires ESC !in t
    ensures Shows(t, t) && Width(t) == |t|
  {
    PlainText(t);
  }

  lemma {:induction false} CleanShows(t: string)
    requires Clean(t)
    ensures Shows(t, Strip(t))
  {
  }

  lemma {:induction false} ShowsAppend(a: string, p: string, b: string, q: string)
    requires Shows(a, p) && Shows(b, q)
    ensures Shows(a + b, p + q)
  {
    hide Clean, Strip;
    WidthAppend(a, b);
  }

  lemma {:induction false} SgrShowsNothing(params: string)
    requires forall c <- params :: ParamChar(c)
    ensures Shows(Sgr(params), "")
  {
    var t := Sgr(params);
    assert forall k | 2 <= k < |t| - 1 :: t[k] == params[k - 2] && params[k - 2] in params && ParamChar(t[k]);
    assert t[|t| - 1] == 'm';
    assert ParamEnd(t, 2) == |t| - 1;
    assert SgrLength(t) == |t|;
    assert t[|t|..] == "";
  }

  lemma {:induction false} WrapShows(params: string, t: string, plain: string)
    requires Shows(t, plain) && forall c <- params :: ParamChar(c)
    ensures Shows(Sgr(params) + t + RESET, plain)
  {
    hide Shows, Sgr, Clean, Strip;
    SgrShowsNothing(params);
    WrapReset();
    ShowsAppend(Sgr(params), "", t, plain);
    ShowsAppend(Sgr(params) + t, "" + plain, RESET, "");
    assert "" + plain + "" == plain;
  }

  lemma {:induction false} WrapReset()
    ensures Shows(RESET, "")
  {
    hide Clean, Strip;
    ResetIsInvisible();
  }

  lemma {:induction false} NamedStyles()
    ensures BOLD == Sgr("1") && REVERSE == Sgr("7")
  {
  }

  /** Styling changes no cell, whatever the tier. */
  lemma {:induction false} StyleIsInvisible(t: string, plain: string, semantic: Semantic, tier: Tier)
    requires Shows(t, plain)
    ensures Shows(Paint(t, semantic, tier), plain) && Shows(Bold(t, tier), plain) && Shows(Reverse(t), plain)
  {
    hide Shows, Sgr;
    NamedStyles();
    assert forall c <- ColorParams(semantic, tier) :: ParamChar(c);
    WrapShows(ColorParams(semantic, tier), t, plain);
    WrapShows("1", t, plain);
    WrapShows("7", t, plain);
  }

  lemma {:induction false} TruncatedShows(t: string, plain: string, width: int, ellipsis: Plain)
    requires Shows(t, plain)
    ensures Shows(Truncated(t, width, ellipsis), Clipped(plain, width, ellipsis))
    ensures Width(Truncated(t, width, ellipsis)) == |Clipped(plain, width, ellipsis)|
  {
    hide Truncated, Clean, Width, Strip;
    PlainText(ellipsis);
    EmptyMeasures("");
    TruncationIsExact(t, width, ellipsis);
    if width <= 0 { TruncatedToNothing(t, width, ellipsis); }
  }

  lemma {:induction false} TruncatedToNothing(t: string, width: int, ellipsis: string)
    requires width <= 0
    ensures Truncated(t, width, ellipsis) == ""
  {
  }

  /** Padding gives exactly `width` cells. */
  lemma {:induction false} PadShows(t: string, plain: string, width: int, ellipsis: Plain)
    requires Shows(t, plain)
    ensures Shows(PadToWidth(t, width, ellipsis), Padded(plain, width, ellipsis))
  {
    hide Shows, Truncated, Clipped, Width;
    TruncatedShows(t, plain, width, ellipsis);
    var blanks := Repeat(' ', width - |Clipped(plain, width, ellipsis)|);
    PlainShows(blanks);
    ShowsAppend(Truncated(t, width, ellipsis), Clipped(plain, width, ellipsis), blanks, blanks);
  }

  /** A centered line is exact, and its margins differ by at most one cell. */
  lemma {:induction false} CenterShows(t: string, plain: string, width: nat, ellipsis: Plain)
    requires Shows(t, plain)
    ensures var kept := Clipped(plain, width, ellipsis);
            var left := (width - |kept|) / 2;
            && Shows(CenterLine(t, width, ellipsis), Repeat(' ', left) + kept + Repeat(' ', width - |kept| - left))
            && 0 <= width - |kept| - left - left <= 1
  {
    hide Shows, Truncated, Width, Repeat;
    TruncatedShows(t, plain, width, ellipsis);
    var clipped, kept := Truncated(t, width, ellipsis), Clipped(plain, width, ellipsis);
    var blanks := Repeat(' ', (width - |kept|) / 2);
    BlanksArePlain((width - |kept|) / 2);
    PlainShows(blanks);
    ShowsAppend(blanks, blanks, clipped, kept);
    PadShows(blanks + clipped, blanks + kept, width, ellipsis);
  }

  lemma {:induction false} BlanksArePlain(n: int)
    ensures ESC !in Repeat(' ', n)
  {
  }

  /** A spread row is exact, and when both ends fit it keeps both, a blank at least apart. */
  lemma {:induction false} SpreadShows(left: string, l: string, right: string, r: string, width: nat, ellipsis: Plain)
    requires Shows(left, l) && Shows(right, r)
    ensures exists plain :: Shows(SpreadRow(left, right, width, ellipsis), plain) && |plain| == width &&
              (r != "" && |l| + 1 + |r| <= width ==> plain == l + Repeat(' ', width - |l| - |r|) + r)
  {
    hide Clean, Strip, Truncated, Clipped, Width, Repeat;
    StripIsPlain(left);
    StripIsPlain(right);
    EmptyMeasures("");
    var gap := width - |l| - |r|;
    if right == "" {
      PadShows(left, l, width, ellipsis);
      assert |Padded(l, width, ellipsis)| == width;
    } else if gap >= 1 {
      var blanks := Repeat(' ', gap);
      BlanksArePlain(gap);
      PlainShows(blanks);
      ShowsAppend(left, l, blanks, blanks);
      ShowsAppend(left + blanks, l + blanks, right, r);
      assert |l + blanks + r| == width;
    } else {
      PlainShows(" ");
      ShowsAppend(left, l, " ", " ");
      ShowsAppend(left + " ", l + " ", right, r);
      PadShows(left + " " + right, l + " " + r, width, ellipsis);
      assert |Padded(l + " " + r, width, ellipsis)| == width;
    }
  }

  // Boxes

  datatype BoxOptions = BoxOptions(width: nat, height: nat, title: string, bottomLabel: string, focused: bool)

  function Border(t: string, focused: bool, tier: Tier): string {
    if focused then Paint(t, Accent, tier) else t
  }

  /** The title as it will be measured: bracketed where color cannot mark the focus. */
  function TitleLabel(o: BoxOptions, tier: Tier): string {
    if tier.NoColor? && o.focused then "[" + o.title + "]" else o.title
  }

  function TopRow(o: BoxOptions, g: Glyphs, tier: Tier): string {
    if o.title == "" || o.width < 6 then
      Border([g.topLeft] + Repeat(g.horizontal, o.width - 2) + [g.topRight], o.focused, tier)
    else
      TitledRow(Truncated(TitleLabel(o, tier), Max(1, o.width - 4), g.ellipsis), o, g, tier)
  }

  /** A border with an embedded label. */
  function Labelled(left: string, caption: string, right: string): string { left + " " + caption + " " + right }

  function TitledRow(clipped: string, o: BoxOptions, g: Glyphs, tier: Tier): string {
    var styled := if o.focused && !tier.NoColor? then Bold(Paint(clipped, Accent, tier), tier) else clipped;
    Labelled(Border([g.topLeft], o.focused, tier), styled,
             Border(Repeat(g.horizontal, o.width - 4 - Width(clipped)), o.focused, tier)
             + Border([g.topRight], o.focused, tier))
  }

  function BodyRow(line: string, o: BoxOptions, g: Glyphs, tier: Tier): string {
    Border([g.vertical], o.focused, tier) + PadToWidth(line, Max(0, o.width - 2), g.ellipsis)
    + Border([g.vertical], o.focused, tier)
  }

  function BottomRow(o: BoxOptions, g: Glyphs, tier: Tier): string {
    if o.bottomLabel == "" || o.width < 6 then
      Border([g.bottomLeft] + Repeat(g.horizontal, o.width - 2) + [g.bottomRight], o.focused, tier)
    else
      FootedRow(Truncated(o.bottomLabel, Max(1, o.width - 4), g.ellipsis), o, g, tier)
  }

  function FootedRow(clipped: string, o: BoxOptions, g: Glyphs, tier: Tier): string {
    var fill := Max(0, o.width - 4 - Width(clipped));
    Labelled(Border([g.bottomLeft] + Repeat(g.horizontal, fill / 2), o.focused, tier), clipped,
             Border(Repeat(g.horizontal, fill - fill / 2) + [g.bottomRight], o.focused, tier))
  }

  function LineAt(lines: seq<string>, i: nat): string { if i < |lines| then lines[i] else "" }

  function BoxRow(lines: seq<string>, o: BoxOptions, g: Glyphs, tier: Tier, i: nat): string {
    if i == 0 then TopRow(o, g, tier)
    else if i < o.height - 1 then BodyRow(LineAt(lines, i - 1), o, g, tier)
    else BottomRow(o, g, tier)
  }

  /** Top border, the body lines that fit, bottom border. */
  method MakeBox(lines: seq<string>, o: BoxOptions, g: Glyphs, tier: Tier) returns (rows: seq<string>)
    ensures |rows| == o.height
    ensures forall i | 0 <= i < o.height :: rows[i] == BoxRow(lines, o, g, tier, i)
  {
    hide TopRow, BodyRow, BottomRow;
    rows := [TopRow(o, g, tier)];
    var innerHeight := Max(0, o.height - 2);
    for i := 0 to innerHeight
      invariant |rows| == i + 1
      invariant forall k | 0 <= k <= i :: rows[k] == BoxRow(lines, o, g, tier, k)
    {
      rows := rows + [BodyRow(LineAt(lines, i), o, g, tier)];
    }
    rows := rows + [BottomRow(o, g, tier)];
    rows := rows[..o.height];
  }

  lemma {:induction false} BorderShows(t: string, focused: bool, tier: Tier)
    requires ESC !in t
    ensures Shows(Border(t, focused, tier), t)
  {
    hide Shows, Paint;
    PlainShows(t);
    StyleIsInvisible(t, t, Accent, tier);
  }

  lemma {:induction false} CornerShows(c: Ink, focused: bool, tier: Tier)
    ensures Shows(Border([c], focused, tier), [c])
  {
    BorderShows([c], focused, tier);
  }

  lemma {:induction false} RepeatIsPlain(c: Ink, n: int)
    ensures ESC !in Repeat(c, n)
  {
  }

  lemma {:induction false} LabelledShows(a: string, p: string, caption: string, q: string, b: string, r: string)
    requires Shows(a, p) && Shows(caption, q) && Shows(b, r)
    ensures Shows(Labelled(a, caption, b), Labelled(p, q, r))
  {
    hide Shows;
    PlainShows(" ");
    ShowsAppend(a, p, " ", " ");
    ShowsAppend(a + " ", p + " ", caption, q);
    ShowsAppend(a + " " + caption, p + " " + q, " ", " ");
    ShowsAppend(a + " " + caption + " ", p + " " + q + " ", b, r);
  }

  function TopPlain(o: BoxOptions, g: Glyphs, tier: Tier): (r: string)
    ensures |r| == Max(2, o.width)
  {
    if o.title == "" || o.width < 6 then [g.topLeft] + Repeat(g.horizontal, o.width - 2) + [g.topRight]
    else
      var kept := Clipped(Strip(TitleLabel(o, tier)), Max(1, o.width - 4), g.ellipsis);
      Labelled([g.topLeft], kept, Repeat(g.horizontal, o.width - 4 - |kept|) + [g.topRight])
  }

  lemma {:induction false} TitledRowShows(clipped: string, kept: string, o: BoxOptions, g: Glyphs, tier: Tier)
    requires Shows(clipped, kept) && |kept| <= o.width - 4
    ensures Shows(TitledRow(clipped, o, g, tier),
                  Labelled([g.topLeft], kept, Repeat(g.horizontal, o.width - 4 - |kept|) + [g.topRight]))
  {
    hide Shows, Paint, Bold, Border, Width, Repeat, Labelled, Clean, Strip;
    ShownWidth(clipped, kept);
    var fill := Repeat(g.horizontal, o.width - 4 - |kept|);
    RepeatIsPlain(g.horizontal, o.width - 4 - |kept|);
    StyleIsInvisible(clipped, kept, Accent, tier);
    StyleIsInvisible(Paint(clipped, Accent, tier), kept, Accent, tier);
    CornerShows(g.topLeft, o.focused, tier);
    CornerShows(g.topRight, o.focused, tier);
    BorderShows(fill, o.focused, tier);
    var styled := if o.focused && !tier.NoColor? then Bold(Paint(clipped, Accent, tier), tier) else clipped;
    var a, b, c := Border([g.topLeft], o.focused, tier), Border(fill, o.focused, tier),
                   Border([g.topRight], o.focused, tier);
    ShowsAppend(b, fill, c, [g.topRight]);
    LabelledShows(a, [g.topLeft], styled, kept, b + c, fill + [g.topRight]);
  }

  lemma {:induction false} CornersArePlain(corner: Ink, c: Ink, n: int)
    ensures ESC !in [corner] + Repeat(c, n) && ESC !in Repeat(c, n) + [corner]
  {
    RepeatIsPlain(c, n);
  }

  lemma {:induction false} BorderedShows(
    left: string, clipped: string, kept: string, right: string, focused: bool, tier: Tier)
    requires Shows(clipped, kept) && ESC !in left && ESC !in right
    ensures Shows(Labelled(Border(left, focused, tier), clipped, Border(right, focused, tier)),
                  Labelled(left, kept, right))
  {
    hide Shows, Border, Labelled;
    BorderShows(left, focused, tier);
    BorderShows(right, focused, tier);
    LabelledShows(Border(left, focused, tier), left, clipped, kept, Border(right, focused, tier), right);
  }

  lemma {:induction false} FootedRowShows(clipped: string, kept: string, o: BoxOptions, g: Glyphs, tier: Tier)
    requires Shows(clipped, kept) && |kept| <= o.width - 4
    ensures var fill := o.width - 4 - |kept|;
            Shows(FootedRow(clipped, o, g, tier),
                  Labelled([g.bottomLeft] + Repeat(g.horizontal, fill / 2), kept,
                           Repeat(g.horizontal, fill - fill / 2) + [g.bottomRight]))
  {
    hide Shows, Border, Width, Repeat, Labelled, Clean, Strip;
    ShownWidth(clipped, kept);
    var fill := o.width - 4 - |kept|;
    CornersArePlain(g.bottomLeft, g.horizontal, fill / 2);
    CornersArePlain(g.bottomRight, g.horizontal, fill - fill / 2);
    BorderedShows([g.bottomLeft] + Repeat(g.horizontal, fill / 2), clipped, kept,
                  Repeat(g.horizontal, fill - fill / 2) + [g.bottomRight], o.focused, tier);
  }

  lemma {:induction false} ShownWidth(t: string, plain: string)
    requires Shows(t, plain)
    ensures Width(t) == |plain|
  {
    StripIsPlain(t);
  }

  lemma {:induction false} PlainBorderShows(left: Ink, c: Ink, right: Ink, n: int, focused: bool, tier: Tier)
    ensures Shows(Border([left] + Repeat(c, n) + [right], focused, tier), [left] + Repeat(c, n) + [right])
  {
    RepeatIsPlain(c, n);
    BorderShows([left] + Repeat(c, n) + [right], focused, tier);
  }

  /** The top border is exact, and shows the clipped title. */
  lemma {:induction false} TopShows(o: BoxOptions, g: Glyphs, tier: Tier)
    requires Clean(o.title)
    ensures Shows(TopRow(o, g, tier), TopPlain(o, g, tier))
  {
    hide Shows, Truncated, Clipped, Border, TitleLabel, TitledRow, Labelled, Strip, Repeat, Clean;
    PlainBorderShows(g.topLeft, g.horizontal, g.topRight, o.width - 2, o.focused, tier);
    if o.title != "" && o.width >= 6 {
      var caption := TitleLabel(o, tier);
      LabelIsClean(o, tier);
      TruncatedShows(caption, Strip(caption), o.width - 4, g.ellipsis);
      TitledRowShows(Truncated(caption, o.width - 4, g.ellipsis),
                     Clipped(Strip(caption), o.width - 4, g.ellipsis), o, g, tier);
    }
  }

  lemma {:induction false} LabelIsClean(o: BoxOptions, tier: Tier)
    requires Clean(o.title)
    ensures Shows(TitleLabel(o, tier), Strip(TitleLabel(o, tier)))
  {
    hide Clean, Strip;
    PlainShows("[");
    PlainShows("]");
    ShowsAppend("[", "[", o.title, Strip(o.title));
    ShowsAppend("[" + o.title, "[" + Strip(o.title), "]", "]");
  }

  function BottomPlain(o: BoxOptions, g: Glyphs): (r: string)
    ensures |r| == Max(2, o.width)
  {
    if o.bottomLabel == "" || o.width < 6 then [g.bottomLeft] + Repeat(g.horizontal, o.width - 2) + [g.bottomRight]
    else
      var kept := Clipped(Strip(o.bottomLabel), Max(1, o.width - 4), g.ellipsis);
      var fill := o.width - 4 - |kept|;
      Labelled([g.bottomLeft] + Repeat(g.horizontal, fill / 2), kept,
               Repeat(g.horizontal, fill - fill / 2) + [g.bottomRight])
  }

  lemma {:induction false} BottomShows(o: BoxOptions, g: Glyphs, tier: Tier)
    requires Clean(o.bottomLabel)
    ensures Shows(BottomRow(o, g, tier), BottomPlain(o, g))
  {
    hide Shows, Truncated, Clipped, Border, FootedRow, Labelled, Strip, Repeat, Clean;
    PlainBorderShows(g.bottomLeft, g.horizontal, g.bottomRight, o.width - 2, o.focused, tier);
    if o.bottomLabel != "" && o.width >= 6 {
      assert Shows(o.bottomLabel, Strip(o.bottomLabel)) by { CleanShows(o.bottomLabel); }
      TruncatedShows(o.bottomLabel, Strip(o.bottomLabel), o.width - 4, g.ellipsis);
      FootedRowShows(Truncated(o.bottomLabel, o.width - 4, g.ellipsis),
                     Clipped(Strip(o.bottomLabel), o.width - 4, g.ellipsis), o, g, tier);
    }
  }

  function BodyPlain(plain: string, o: BoxOptions, g: Glyphs): (r: string)
    ensures |r| == Max(2, o.width)
  {
    [g.vertical] + Padded(plain, Max(0, o.width - 2), g.ellipsis) + [g.vertical]
  }

  lemma {:induction false} BodyShows(line: string, o: BoxOptions, g: Glyphs, tier: Tier)
    requires Clean(line)
    ensures Shows(BodyRow(line, o, g, tier), BodyPlain(Strip(line), o, g))
  {
    hide Shows, PadToWidth, Padded, Border, Strip, Clean;
    var inner := Max(0, o.width - 2);
    CleanShows(line);
    PadShows(line, Strip(line), inner, g.ellipsis);
    CornerShows(g.vertical, o.focused, tier);
    var v, plain := Border([g.vertical], o.focused, tier), Padded(Strip(line), inner, g.ellipsis);
    ShowsAppend(v, [g.vertical], PadToWidth(line, inner, g.ellipsis), plain);
    ShowsAppend(v + PadToWidth(line, inner, g.ellipsis), [g.vertical] + plain, v, [g.vertical]);
  }

  ghost predicate CleanBox(lines: seq<string>, o: BoxOptions) {
    (forall line <- lines :: Clean(line)) && Clean(o.title) && Clean(o.bottomLabel)
  }

  function BoxPlain(lines: seq<string>, o: BoxOptions, g: Glyphs, tier: Tier, i: nat): (r: string)
    ensures |r| == Max(2, o.width)
  {
    if i == 0 then TopPlain(o, g, tier)
    else if i < o.height - 1 then BodyPlain(Strip(LineAt(lines, i - 1)), o, g)
    else BottomPlain(o, g)
  }

  /** Every row of a box has exactly the width of the box, and reads border, clipped line, border. */
  lemma {:induction false} BoxIsExact(lines: seq<string>, o: BoxOptions, g: Glyphs, tier: Tier, i: nat)
    requires CleanBox(lines, o) && i < o.height
    ensures Shows(BoxRow(lines, o, g, tier, i), BoxPlain(lines, o, g, tier, i))
    ensures Width(BoxRow(lines, o, g, tier, i)) == Max(2, o.width)
  {
    hide TopRow, BodyRow, BottomRow, TopPlain, BodyPlain, BottomPlain;
    EmptyMeasures("");
    TopShows(o, g, tier);
    BottomShows(o, g, tier);
    if 0 < i < o.height - 1 {
      assert Clean(LineAt(lines, i - 1));
      BodyShows(LineAt(lines, i - 1), o, g, tier);
    }
  }
}
