/** The header strip on the outer frame, its bottom border, the footer legend and the tab row. */
module ScreenChrome {
  import opened ScreenText
  import opened ScreenBox

  function Join(parts: seq<string>, separator: string): string {
    if |parts| == 0 then ""
    else if |parts| == 1 then parts[0]
    else parts[0] + separator + Join(parts[1..], separator)
  }

  function NonEmpty(parts: seq<string>): seq<string> {
    if parts == [] then []
    else (if parts[0] != "" then [parts[0]] else []) + NonEmpty(parts[1..])
  }

  /** Top border with embedded segments. */
  function HeaderLine(segments: seq<string>, width: int, g: Glyphs): string {
    if width < 4 then Repeat(g.horizontal, width)
    else
      var joined := Join(NonEmpty(segments), " " + [g.horizontal] + " ");
      var clipped := Truncated(joined, width - 5, g.ellipsis);
      Labelled([g.topLeft], clipped, Repeat(g.horizontal, width - 4 - Width(clipped)) + [g.topRight])
  }

  function BottomBorder(width: int, g: Glyphs): string {
    [g.bottomLeft] + Repeat(g.horizontal, width - 2) + [g.bottomRight]
  }

  datatype LegendEntry = LegendEntry(cap: string, verb: string)

  function Piece(entry: LegendEntry): string { entry.cap + " " + entry.verb }

  /** All the entries on one line, however long. */
  function Legend(entries: seq<LegendEntry>, g: Glyphs): string {
    if |entries| == 0 then ""
    else
      var last := |entries| - 1;
      if last == 0 then " " + Piece(entries[0])
      else Legend(entries[..last], g) + (" " + g.separator + " ") + Piece(entries[last])
  }

  function LegendWidth(entries: seq<LegendEntry>, g: Glyphs): nat { Width(Legend(entries, g)) }

  /** How many leading entries are shown: up to the first that no longer fits. */
  function Fitting(entries: seq<LegendEntry>, width: int, g: Glyphs, from: nat): (n: nat)
    requires from <= |entries|
    ensures from <= n <= |entries|
    decreases |entries| - from
  {
    if from == |entries| || LegendWidth(entries[..from + 1], g) > width then from
    else Fitting(entries, width, g, from + 1)
  }

  function Footer(entries: seq<LegendEntry>, width: int, g: Glyphs): string {
    PadToWidth(Legend(entries[..Fitting(entries, width, g, 0)], g), width, g.ellipsis)
  }

  /** The footer, grown entry by entry. */
  method FooterLegend(entries: seq<LegendEntry>, width: int, g: Glyphs) returns (r: string)
    ensures r == Footer(entries, width, g)
  {
    hide Width, PadToWidth;
    var line, i := "", 0;
    assert entries[..0] == [];
    while i < |entries|
      invariant 0 <= i <= |entries|
      invariant line == Legend(entries[..i], g) && (line == "" <==> i == 0)
      invariant Fitting(entries, width, g, 0) == Fitting(entries, width, g, i)
    {
      var candidate := if line == "" then " " + Piece(entries[i])
                       else line + (" " + g.separator + " ") + Piece(entries[i]);
      assert entries[..i + 1][..i] == entries[..i];
      assert candidate == Legend(entries[..i + 1], g);
      var cells := VisibleWidth(candidate);
      assert cells == LegendWidth(entries[..i + 1], g);
      if cells > width { break; }
      line, i := candidate, i + 1;
    }
    r := PadToWidth(line, width, g.ellipsis);
  }

  datatype Tab = Tab(title: string, focused: bool)

  function TabPart(tab: Tab, tier: Tier): string {
    if !tab.focused then tab.title
    else if tier.NoColor? then "[" + tab.title + "]"
    else Bold(Paint(tab.title, Accent, tier), tier)
  }

  function TabRow(tabs: seq<Tab>, width: int, g: Glyphs, tier: Tier): string {
    PadToWidth(" " + Join(seq(|tabs|, i requires 0 <= i < |tabs| => TabPart(tabs[i], tier)), "   "), width, g.ellipsis)
  }

  // Exactness

  ghost predicate AllClean(parts: seq<string>) {
    forall part <- parts :: Clean(part)
  }

  lemma {:induction false} JoinIsClean(parts: seq<string>, separator: Plain)
    requires AllClean(parts)
    ensures Clean(Join(parts, separator))
  {
    hide Clean;
    if |parts| == 0 {
      EmptyMeasures("");
    } else if |parts| > 1 {
      JoinIsClean(parts[1..], separator);
      PlainText(separator);
      CleanConcat(parts[0], separator);
      CleanConcat(parts[0] + separator, Join(parts[1..], separator));
    }
  }

  lemma {:induction false} NonEmptyIsClean(parts: seq<string>)
    requires AllClean(parts)
    ensures AllClean(NonEmpty(parts))
  {
    hide Clean;
    if parts != [] { NonEmptyIsClean(parts[1..]); }
  }

  /** The header is exactly as wide as the frame, and shows the joined segments, clipped. */
  lemma {:induction false} HeaderShows(segments: seq<string>, width: nat, g: Glyphs)
    requires AllClean(segments)
    ensures Shows(HeaderLine(segments, width, g), HeaderPlain(segments, width, g))
  {
    hide Shows, Truncated, Clipped, Labelled, Strip, Repeat, Clean, Join, NonEmpty;
    if width < 4 {
      RepeatIsPlain(g.horizontal, width);
      PlainShows(Repeat(g.horizontal, width));
    } else {
      NonEmptyIsClean(segments);
      var joined := Join(NonEmpty(segments), " " + [g.horizontal] + " ");
      JoinIsClean(NonEmpty(segments), " " + [g.horizontal] + " ");
      CleanShows(joined);
      TruncatedShows(joined, Strip(joined), width - 5, g.ellipsis);
      var kept := Clipped(Strip(joined), width - 5, g.ellipsis);
      var right := Repeat(g.horizontal, width - 4 - |kept|) + [g.topRight];
      RepeatIsPlain(g.horizontal, width - 4 - |kept|);
      PlainShows([g.topLeft]);
      PlainShows(right);
      LabelledShows([g.topLeft], [g.topLeft], Truncated(joined, width - 5, g.ellipsis), kept, right, right);
    }
  }

  function HeaderPlain(segments: seq<string>, width: nat, g: Glyphs): (r: string)
    ensures |r| == width
  {
    if width < 4 then Repeat(g.horizontal, width)
    else
      var kept := Clipped(Strip(Join(NonEmpty(segments), " " + [g.horizontal] + " ")), width - 5, g.ellipsis);
      Labelled([g.topLeft], kept, Repeat(g.horizontal, width - 4 - |kept|) + [g.topRight])
  }

  lemma {:induction false} BottomBorderShows(width: nat, g: Glyphs)
    ensures Shows(BottomBorder(width, g), BottomBorder(width, g)) && |BottomBorder(width, g)| == Max(2, width)
  {
    hide Shows;
    RepeatIsPlain(g.horizontal, width - 2);
    PlainShows(BottomBorder(width, g));
  }

  ghost predicate CleanLegend(entries: seq<LegendEntry>) {
    forall entry <- entries :: Clean(entry.cap) && Clean(entry.verb)
  }

  lemma {:induction false} LegendIsClean(entries: seq<LegendEntry>, g: Glyphs)
    requires CleanLegend(entries)
    ensures Clean(Legend(entries, g))
  {
    hide Clean;
    if |entries| == 0 {
      EmptyMeasures("");
    } else {
      var last := |entries| - 1;
      PlainText(" ");
      PieceIsClean(entries[last]);
      hide Piece;
      if last == 0 {
        CleanConcat(" ", Piece(entries[0]));
      } else {
        LegendIsClean(entries[..last], g);
        PlainText(" " + g.separator + " ");
        CleanConcat(Legend(entries[..last], g), " " + g.separator + " ");
        CleanConcat(Legend(entries[..last], g) + (" " + g.separator + " "), Piece(entries[last]));
      }
    }
  }

  lemma {:induction false} CleanConcat(a: string, b: string)
    requires Clean(a) && Clean(b)
    ensures Clean(a + b)
  {
    WidthAppend(a, b);
  }

  lemma {:induction false} PieceIsClean(entry: LegendEntry)
    requires Clean(entry.cap) && Clean(entry.verb)
    ensures Clean(Piece(entry))
  {
    hide Clean;
    PlainText(" ");
    CleanConcat(entry.cap, " ");
    CleanConcat(entry.cap + " ", entry.verb);
  }

  lemma {:induction false} FittingIsExact(entries: seq<LegendEntry>, width: int, g: Glyphs, from: nat)
    requires from <= |entries|
    ensures var n := Fitting(entries, width, g, from);
            && (n > from ==> LegendWidth(entries[..n], g) <= width)
            && (n < |entries| ==> LegendWidth(entries[..n + 1], g) > width)
    decreases |entries| - from
  {
    hide LegendWidth;
    if from < |entries| && LegendWidth(entries[..from + 1], g) <= width {
      FittingIsExact(entries, width, g, from + 1);
    }
  }

  /** The footer is exact, and never clips an entry it shows: the entries after the kept ones are what is dropped. */
  lemma {:induction false} FooterShows(entries: seq<LegendEntry>, width: nat, g: Glyphs)
    requires CleanLegend(entries)
    ensures var n := Fitting(entries, width, g, 0);
            var plain := Strip(Legend(entries[..n], g));
            && |plain| <= width && (n < |entries| ==> LegendWidth(entries[..n + 1], g) > width)
            && Shows(Footer(entries, width, g), plain + Repeat(' ', width - |plain|))
  {
    hide Shows, Truncated, Strip, Clean, Legend, Repeat, Width;
    var n := Fitting(entries, width, g, 0);
    FittingIsExact(entries, width, g, 0);
    var kept := entries[..n];
    LegendIsClean(kept, g);
    CleanShows(Legend(kept, g));
    if n == 0 { assert Legend(kept, g) == "" by { LegendOfNone(kept, g); } EmptyMeasures(Legend(kept, g)); }
    PadShows(Legend(kept, g), Strip(Legend(kept, g)), width, g.ellipsis);
  }

  lemma {:induction false} LegendOfNone(entries: seq<LegendEntry>, g: Glyphs)
    requires |entries| == 0
    ensures Legend(entries, g) == ""
  {
  }

  /** The cells of a tab: its title, in brackets if it is focused and there are no colors to tell. */
  function TabPlain(tab: Tab, tier: Tier): string {
    if tab.focused && tier.NoColor? then "[" + Strip(tab.title) + "]" else Strip(tab.title)
  }

  function TabsPlain(tabs: seq<Tab>, tier: Tier): string {
    " " + Join(seq(|tabs|, i requires 0 <= i < |tabs| => TabPlain(tabs[i], tier)), "   ")
  }

  lemma {:induction false} JoinShows(parts: seq<string>, plains: seq<string>, separator: Plain)
    requires |parts| == |plains| && forall i | 0 <= i < |parts| :: Shows(parts[i], plains[i])
    ensures Shows(Join(parts, separator), Join(plains, separator))
  {
    hide Shows;
    if |parts| == 0 {
      PlainShows("");
    } else if |parts| > 1 {
      JoinShows(parts[1..], plains[1..], separator);
      PlainShows(separator);
      ShowsAppend(parts[0], plains[0], separator, separator);
      var later, shown := Join(parts[1..], separator), Join(plains[1..], separator);
      ShowsAppend(parts[0] + separator, plains[0] + separator, later, shown);
    }
  }

  /** The tab row has its width and shows the titles in order, three blanks apart, clipped. */
  lemma {:induction false} TabRowShows(tabs: seq<Tab>, width: nat, g: Glyphs, tier: Tier)
    requires forall tab <- tabs :: Clean(tab.title)
    ensures Shows(TabRow(tabs, width, g, tier), Padded(TabsPlain(tabs, tier), width, g.ellipsis))
  {
    hide Shows, Truncated, Strip, Clean, Join, TabPart, TabPlain, PadToWidth, Padded;
    var parts := seq(|tabs|, i requires 0 <= i < |tabs| => TabPart(tabs[i], tier));
    var plains := seq(|tabs|, i requires 0 <= i < |tabs| => TabPlain(tabs[i], tier));
    forall i | 0 <= i < |tabs| ensures Shows(parts[i], plains[i]) { TabPartShows(tabs[i], tier); }
    JoinShows(parts, plains, "   ");
    PlainShows(" ");
    ShowsAppend(" ", " ", Join(parts, "   "), Join(plains, "   "));
    PadShows(" " + Join(parts, "   "), TabsPlain(tabs, tier), width, g.ellipsis);
  }

  lemma {:induction false} TabPartShows(tab: Tab, tier: Tier)
    requires Clean(tab.title)
    ensures Shows(TabPart(tab, tier), TabPlain(tab, tier))
  {
    hide Shows, Clean, Strip, Paint, Bold;
    var plain := Strip(tab.title);
    CleanShows(tab.title);
    PlainShows("[");
    PlainShows("]");
    ShowsAppend("[", "[", tab.title, plain);
    ShowsAppend("[" + tab.title, "[" + plain, "]", "]");
    StyleIsInvisible(tab.title, plain, Accent, tier);
    StyleIsInvisible(Paint(tab.title, Accent, tier), plain, Accent, tier);
  }
}
