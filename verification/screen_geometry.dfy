/** Every frame fits its terminal exactly, and everything on it is where the layout puts it. */
module ScreenGeometry {
  import opened Wrappers
  import opened ScreenText
  import opened ScreenBox
  import opened ScreenChrome
  import opened ScreenLayout
  import opened ScreenView

  /** Data free of raw escapes: every text handed to the view is well-formed. */
  ghost predicate CleanPane(pane: PaneView) {
    Clean(pane.title) && Clean(pane.tab) && AllClean(pane.body)
  }

  ghost predicate CleanScreen(screen: Screen) {
    if screen.Parked? then AllClean(screen.block)
    else if screen.Detail? then Clean(screen.title) && AllClean(screen.body)
    else CleanPane(screen.board.workspaces) && CleanPane(screen.board.environments) && CleanPane(screen.board.rules)
         && Clean(screen.board.status)
  }

  ghost predicate CleanView(v: View) {
    && CleanScreen(v.screen) && Clean(v.product) && AllClean(v.segments) && CleanLegend(v.legend)
    && AllClean(OverlayBody(v.overlay))
    && (!v.overlay.NoOverlay? ==> Clean(v.overlay.title) && Clean(v.overlay.closing))
  }

  /** Well-formed and exactly `cells` wide. */
  predicate Exact(t: string, cells: int) {
    Clean(t) && Width(t) == cells
  }

  lemma {:induction false} ShowsIsExact(t: string, plain: string)
    requires Shows(t, plain)
    ensures Exact(t, |plain|) && Strip(t) == plain
  {
    StripIsPlain(t);
  }

  lemma {:induction false} ExactAppend(a: string, m: int, b: string, n: int)
    requires Exact(a, m) && Exact(b, n)
    ensures Exact(a + b, m + n) && Strip(a + b) == Strip(a) + Strip(b)
  {
    WidthAppend(a, b);
  }

  lemma {:induction false} PadIsExact(t: string, width: nat, ellipsis: Plain)
    requires Clean(t)
    ensures Exact(PadToWidth(t, width, ellipsis), width)
    ensures Strip(PadToWidth(t, width, ellipsis)) == Padded(Strip(t), width, ellipsis)
  {
    hide Clean, Strip, PadToWidth, Padded, Exact;
    CleanShows(t);
    PadShows(t, Strip(t), width, ellipsis);
    ShowsIsExact(PadToWidth(t, width, ellipsis), Padded(Strip(t), width, ellipsis));
  }

  lemma {:induction false} RepeatIsExact(c: Ink, n: nat)
    ensures Exact(Repeat(c, n), n) && Strip(Repeat(c, n)) == Repeat(c, n)
  {
    RepeatIsPlain(c, n);
    PlainText(Repeat(c, n));
  }

  lemma {:induction false} BoxRowIsExact(lines: seq<string>, o: BoxOptions, caps: Capabilities, i: nat)
    requires CleanBox(lines, o) && i < o.height && o.width >= 2
    ensures Exact(BoxRow(lines, o, caps.glyphs, caps.tier, i), o.width)
    ensures Strip(BoxRow(lines, o, caps.glyphs, caps.tier, i)) == BoxPlain(lines, o, caps.glyphs, caps.tier, i)
  {
    hide BoxRow, BoxPlain, Exact, CleanBox;
    BoxIsExact(lines, o, caps.glyphs, caps.tier, i);
    ShowsIsExact(BoxRow(lines, o, caps.glyphs, caps.tier, i), BoxPlain(lines, o, caps.glyphs, caps.tier, i));
  }

  // The panes of the dashboard

  ghost predicate CleanBoard(board: Board) {
    CleanPane(board.workspaces) && CleanPane(board.environments) && CleanPane(board.rules) && Clean(board.status)
  }

  lemma {:induction false} PaneBoxRowIsExact(board: Board, id: PaneId, rect: Rect, row: int, caps: Capabilities)
    requires CleanBoard(board) && InRows(rect, row) && rect.width >= 2
    ensures Exact(PaneBoxRow(board, id, rect, row, caps), rect.width)
    ensures Strip(PaneBoxRow(board, id, rect, row, caps)) == PanePlain(board, id, rect, row, caps)
  {
    hide Clean, Strip, Exact, BoxRow, BoxPlain;
    EmptyMeasures("");
    var o := PaneOptions(board, id, rect);
    assert Max(0, row - rect.y) == row - rect.y && Max(0, rect.width) == rect.width;
    assert CleanBox(board.Pane(id).body, o);
    BoxRowIsExact(board.Pane(id).body, o, caps, row - rect.y);
  }

  /** The cells of a pane's box on one row of the frame. */
  function PanePlain(board: Board, id: PaneId, rect: Rect, row: int, caps: Capabilities): string {
    BoxPlain(board.Pane(id).body, PaneOptions(board, id, rect), caps.glyphs, caps.tier, Max(0, row - rect.y))
  }

  /** The pane a screen shows under this name. */
  function OwnPane(board: Board, id: PaneId): PaneView {
    if id == Workspaces then board.workspaces else if id == Rules then board.rules else board.environments
  }

  lemma {:induction false} PanePlainIs(board: Board, id: PaneId, rect: Rect, row: int, caps: Capabilities)
    requires InRows(rect, row) && rect.width >= 0
    ensures var pane := OwnPane(board, id);
            PanePlain(board, id, rect, row, caps) ==
              BoxPlain(pane.body, BoxOptions(rect.width, rect.height, pane.title, "", board.focused == id),
                       caps.glyphs, caps.tier, row - rect.y)
  {
    hide BoxPlain;
  }

  lemma {:induction false} PaddedIsFull(plain: string, width: nat, ellipsis: string)
    ensures |Padded(plain, width, ellipsis)| == width
  {
    hide Clipped;
  }

  lemma {:induction false} PaneStripIsClean(
    board: Board, panes: map<PaneId, Rect>, order: seq<PaneId>, row: int, x: int, caps: Capabilities)
    requires CleanBoard(board) && forall id <- panes :: panes[id].width >= 2
    ensures Clean(PaneStrip(board, panes, order, row, x, caps))
    decreases |order|
  {
    hide Clean, CleanBoard, PaneBoxRow;
    EmptyMeasures("");
    if |order| > 0 {
      var id, later := order[0], order[1..];
      if id !in panes || !InRows(panes[id], row) {
        PaneStripIsClean(board, panes, later, row, x, caps);
      } else {
        var rect := panes[id];
        PaneStripIsClean(board, panes, later, row, rect.x + rect.width, caps);
        RepeatIsExact(' ', Max(0, rect.x - x));
        assert Repeat(' ', rect.x - x) == Repeat(' ', Max(0, rect.x - x));
        PaneBoxRowIsExact(board, id, rect, row, caps);
        CleanConcat(Repeat(' ', rect.x - x), PaneBoxRow(board, id, rect, row, caps));
        CleanConcat(Repeat(' ', rect.x - x) + PaneBoxRow(board, id, rect, row, caps),
                    PaneStrip(board, panes, later, row, rect.x + rect.width, caps));
      }
    }
  }

  lemma {:induction false} BoardContentIsExact(board: Board, size: Size, row: int, caps: Capabilities)
    requires CleanBoard(board) && size.rows >= 3
    ensures Exact(BoardContent(board, size, row, caps), ContentWidth(size))
  {
    hide Clean, Strip, Exact, PadToWidth, PaneStrip, CleanPane, TabRow, Dashboard;
    var layout, g := LayoutOf(board, size), caps.glyphs;
    LayoutFrame(size, board.statusLine, board.focused, board.workspaceCount);
    PlainText(" ");
    CleanConcat(" ", board.status);
    PadIsExact(" " + board.status, layout.contentWidth, g.ellipsis);
    assert forall tab <- Tabs(board) :: Clean(tab.title) by { TabsAreClean(board); }
    TabRowShows(Tabs(board), layout.contentWidth, g, caps.tier);
    var tabs := Padded(TabsPlain(Tabs(board), caps.tier), layout.contentWidth, g.ellipsis);
    PaddedIsFull(TabsPlain(Tabs(board), caps.tier), layout.contentWidth, g.ellipsis);
    ShowsIsExact(TabRow(Tabs(board), layout.contentWidth, g, caps.tier), tabs);
    PanesKeepApart(size, board.statusLine, board.focused, board.workspaceCount, 0, 0);
    PaneStripIsClean(board, layout.panes, PANE_ORDER, row, 1, caps);
    PadIsExact(PaneStrip(board, layout.panes, PANE_ORDER, row, 1, caps), layout.contentWidth, g.ellipsis);
  }

  lemma {:induction false} TabsAreClean(board: Board)
    requires CleanBoard(board)
    ensures forall tab <- Tabs(board) :: Clean(tab.title)
  {
    hide Clean;
  }

  lemma {:induction false} DetailContentIsExact(
    title: string, body: seq<string>, scroll: nat, size: Size, row: int, caps: Capabilities)
    requires Clean(title) && AllClean(body) && 1 <= row < size.rows - 2
    ensures Exact(DetailContent(title, body, scroll, size, row, caps), ContentWidth(size))
  {
    hide Clean, Strip, Exact, PadToWidth, BoxRow, BoxPlain, Repeat;
    RepeatIsExact(' ', ContentWidth(size));
    var box := DetailBox(size);
    if box.Some? {
      var lines := Scrolled(body, scroll, Max(0, box.value.height - 2));
      EmptyMeasures("");
      assert forall line <- lines :: line in body;
      var o := DetailOptions(title, box.value);
      assert CleanBox(lines, o);
      BoxRowIsExact(lines, o, caps, row - 1);
      assert Exact(BoxRow(lines, o, caps.glyphs, caps.tier, row - 1), o.width);
      ExactIsClean(BoxRow(lines, o, caps.glyphs, caps.tier, row - 1), o.width);
      PadIsExact(BoxRow(lines, o, caps.glyphs, caps.tier, row - 1), ContentWidth(size), caps.glyphs.ellipsis);
    }
  }

  lemma {:induction false} ExactIsClean(t: string, cells: int)
    requires Exact(t, cells)
    ensures Clean(t) && Width(t) == cells && |Strip(t)| == cells
  {
  }

  lemma {:induction false} ParkContentIsExact(block: seq<string>, size: Size, row: int, caps: Capabilities)
    requires AllClean(block)
    ensures Exact(ParkContent(block, size, row, caps), ContentWidth(size))
  {
    hide Clean, Strip, Exact, CenterLine, Clipped, Repeat;
    var k, width := row - 1 - TopPad(block, size), ContentWidth(size);
    RepeatIsExact(' ', width);
    if 0 <= k < |block| {
      CleanShows(block[k]);
      CenterShows(block[k], Strip(block[k]), width, caps.glyphs.ellipsis);
      var kept := Clipped(Strip(block[k]), width, caps.glyphs.ellipsis);
      var left := (width - |kept|) / 2;
      ShowsIsExact(CenterLine(block[k], width, caps.glyphs.ellipsis),
                   Repeat(' ', left) + kept + Repeat(' ', width - |kept| - left));
    }
  }

  lemma {:induction false} ContentIsExact(screen: Screen, size: Size, row: int, caps: Capabilities)
    requires CleanScreen(screen) && 1 <= row < size.rows - 2
    ensures Exact(Content(screen, size, row, caps), ContentWidth(size))
  {
    hide Clean, Exact, ParkContent, DetailContent, BoardContent, CleanPane;
    if screen.Parked? {
      ParkContentIsExact(screen.block, size, row, caps);
    } else if screen.Detail? {
      DetailContentIsExact(screen.title, screen.body, screen.scroll, size, row, caps);
    } else {
      BoardContentIsExact(screen.board, size, row, caps);
    }
  }

  lemma {:induction false} GutterIsExact(content: string, n: nat, g: Glyphs)
    requires Exact(content, n)
    ensures Exact(Gutter(content, g), n + 2)
    ensures Strip(Gutter(content, g)) == [g.vertical] + Strip(content) + [g.vertical]
  {
    hide Exact, Strip;
    var v := [g.vertical];
    PlainText(v);
    assert Exact(v, 1) by { PlainIsExact(v); }
    ExactAppend(v, 1, content, n);
    ExactAppend(v + content, 1 + n, v, 1);
  }

  lemma {:induction false} PlainIsExact(t: string)
    requires ESC !in t
    ensures Exact(t, |t|)
  {
    PlainText(t);
  }

  lemma {:induction false} BaseRowIsExact(v: View, size: Size, row: int, caps: Capabilities)
    requires CleanView(v) && size.rows >= 3 && size.columns >= 2 && 0 <= row < size.rows
    ensures Exact(BaseRow(v, size, row, caps), size.columns)
  {
    hide Exact, CleanScreen, AllClean, CleanLegend, HeaderLine, HeaderPlain, Content, BottomBorder, Footer, Legend,
         Gutter, Repeat, Fitting, Strip;
    var g, columns := caps.glyphs, size.columns;
    HeaderShows(v.segments, columns, g);
    ShowsIsExact(HeaderLine(v.segments, columns, g), HeaderPlain(v.segments, columns, g));
    BottomBorderShows(columns, g);
    ShowsIsExact(BottomBorder(columns, g), BottomBorder(columns, g));
    FooterShows(v.legend, columns, g);
    var plain := Strip(Legend(v.legend[..Fitting(v.legend, columns, g, 0)], g));
    ShowsIsExact(Footer(v.legend, columns, g), plain + Repeat(' ', columns - |plain|));
    if 1 <= row < size.rows - 2 {
      ContentIsExact(v.screen, size, row, caps);
      GutterIsExact(Content(v.screen, size, row, caps), ContentWidth(size), g);
    }
  }

  // Overlays

  lemma {:induction false} WashIsExact(plain: string, tier: Tier)
    requires ESC !in plain
    ensures Exact(Wash(plain, tier), |plain|) && Strip(Wash(plain, tier)) == plain
  {
    hide Exact, Strip, Paint;
    EmptyMeasures("");
    PlainIsExact(plain);
    PlainShows(plain);
    StyleIsInvisible(plain, plain, Dim, tier);
    ShowsIsExact(Paint(plain, Dim, tier), plain);
    if plain == "" { ShowsIsExact("", "") by { PlainShows(""); } }
  }

  lemma {:induction false} SlicesOf(plain: string, from: nat, to: nat)
    requires from <= |plain| && to <= |plain|
    ensures Sliced(plain, 0, from) == plain[..from] && Sliced(plain, to, |plain|) == plain[to..]
  {
  }

  /** Splicing a box over a row covers exactly its columns; every other cell keeps what it shows. */
  lemma {:induction false} SpliceIsExact(row: string, n: nat, boxRow: string, rect: Rect, tier: Tier)
    requires Exact(row, n) && Exact(boxRow, rect.width) && 0 <= rect.x && 0 <= rect.width && rect.x + rect.width <= n
    ensures Exact(SpliceRow(row, boxRow, rect, tier), n)
    ensures |Strip(row)| == n
    ensures Strip(SpliceRow(row, boxRow, rect, tier))
              == Strip(row)[..rect.x] + Strip(boxRow) + Strip(row)[rect.x + rect.width..]
  {
    hide Exact, Strip, Sliced, Wash;
    var plain := Strip(row);
    ExactIsClean(row, n);
    StripIsPlain(row);
    var left, right := plain[..rect.x], plain[rect.x + rect.width..];
    SlicesOf(plain, rect.x, rect.x + rect.width);
    WashIsExact(left, tier);
    WashIsExact(right, tier);
    ExactAppend(Wash(left, tier), |left|, boxRow, rect.width);
    ExactAppend(Wash(left, tier) + boxRow, |left| + rect.width, Wash(right, tier), |right|);
  }

  lemma {:induction false} OverlayRowIsExact(overlay: Overlay, size: Size, row: int, caps: Capabilities)
    requires OverlayRect(overlay, size).Some? && InRows(OverlayRect(overlay, size).value, row)
    requires AllClean(OverlayBody(overlay)) && (!overlay.NoOverlay? ==> Clean(overlay.title) && Clean(overlay.closing))
    ensures var rect := OverlayRect(overlay, size).value;
            && 0 <= rect.x && 2 <= rect.width && rect.x + rect.width <= size.columns
            && Exact(OverlayBoxRow(overlay, rect, row - rect.y, caps), rect.width)
            && Strip(OverlayBoxRow(overlay, rect, row - rect.y, caps)) == OverlayPlain(overlay, rect, row, caps)
  {
    hide Exact, Strip, Clean, BoxRow, BoxPlain;
    var rect := OverlayRect(overlay, size).value;
    if overlay.Help? {
      OverlayIsInside(size, HELP_BODY_LINES);
    } else {
      OverlayIsInside(size, 1 + Max(1, overlay.matchCount));
    }
    var o := OverlayOptions(overlay, rect);
    assert CleanBox(OverlayBody(overlay), o);
    BoxRowIsExact(OverlayBody(overlay), o, caps, row - rect.y);
  }

  function OverlayPlain(overlay: Overlay, rect: Rect, row: int, caps: Capabilities): string {
    BoxPlain(OverlayBody(overlay), OverlayOptions(overlay, rect), caps.glyphs, caps.tier, Max(0, row - rect.y))
  }

  // The theorems

  /** Every row of every frame has exactly the columns of the terminal, overlays included. */
  lemma {:induction false} FramesAreExact(v: View, size: Size, row: int, caps: Capabilities)
    requires CleanView(v) && size.rows >= 3 && size.columns >= 8 && 0 <= row < size.rows
    ensures Exact(FrameRow(v, size, row, caps), size.columns)
  {
    hide Exact, Strip, BaseRow, SpliceRow, OverlayBoxRow, AllClean, CleanScreen, CleanLegend, OverlayRect;
    BaseRowIsExact(v, size, row, caps);
    var base, rect := BaseRow(v, size, row, caps), OverlayRect(v.overlay, size);
    if rect.Some? {
      if InRows(rect.value, row) {
        OverlayRowIsExact(v.overlay, size, row, caps);
        SpliceIsExact(base, size.columns, OverlayBoxRow(v.overlay, rect.value, row - rect.value.y, caps), rect.value,
                      caps.tier);
      } else {
        ExactIsClean(base, size.columns);
        StripIsPlain(base);
        WashIsExact(Strip(base), caps.tier);
      }
    }
  }

  /** An overlay changes no cell outside its rectangle, and inside it shows its own box. */
  lemma {:induction false} OverlaysCoverOnlyTheirBox(v: View, size: Size, row: int, caps: Capabilities)
    requires CleanView(v) && size.rows >= 3 && size.columns >= 8 && 0 <= row < size.rows
    requires OverlayRect(v.overlay, size).Some?
    ensures var rect := OverlayRect(v.overlay, size).value;
            var below, shown := Strip(BaseRow(v, size, row, caps)), Strip(FrameRow(v, size, row, caps));
            && |below| == size.columns
            && (!InRows(rect, row) ==> shown == below)
            && (InRows(rect, row) ==> 0 <= rect.x <= rect.x + rect.width <= size.columns)
            && (InRows(rect, row) ==>
                  shown == below[..rect.x] + OverlayPlain(v.overlay, rect, row, caps) + below[rect.x + rect.width..])
  {
    hide Exact, Strip, BaseRow, SpliceRow, OverlayBoxRow, AllClean, CleanScreen, CleanLegend, OverlayRect, OverlayPlain;
    BaseRowIsExact(v, size, row, caps);
    var base, rect := BaseRow(v, size, row, caps), OverlayRect(v.overlay, size).value;
    ExactIsClean(base, size.columns);
    if InRows(rect, row) {
      OverlayRowIsExact(v.overlay, size, row, caps);
      SpliceIsExact(base, size.columns, OverlayBoxRow(v.overlay, rect, row - rect.y, caps), rect, caps.tier);
    } else {
      StripIsPlain(base);
      WashIsExact(Strip(base), caps.tier);
    }
  }

  /** What an overlay lists: the lines of the help, or the actions of the palette. */
  function Listed(overlay: Overlay): seq<string> {
    match overlay
    case NoOverlay => []
    case Help(help, _, _) => help
    case Palette(actions, _, _, _) => actions
  }

  /**
   * The box of an overlay shows its title, its lines from the first on and its closing label; the help has room
   * for twelve lines and the palette for its matches, one at least, and a line for the query.
   */
  lemma {:induction false} OverlaysShowTheirLines(v: View, size: Size, row: int, caps: Capabilities)
    requires OverlayRect(v.overlay, size).Some? && InRows(OverlayRect(v.overlay, size).value, row)
    ensures var rect, overlay := OverlayRect(v.overlay, size).value, v.overlay;
            && rect.width >= 0 && rect.height >= 0 && !overlay.NoOverlay?
            && OverlayPlain(overlay, rect, row, caps) ==
                 BoxPlain(Listed(overlay), BoxOptions(rect.width, rect.height, overlay.title, overlay.closing, true),
                          caps.glyphs, caps.tier, row - rect.y)
            && Some(rect) == CenterOverlay(
                 size, if overlay.Help? then 12 else if overlay.matchCount == 0 then 2 else 1 + overlay.matchCount)
  {
    hide TopPlain, BottomPlain, BodyPlain, Strip;
  }

  // Placement on the dashboard

  lemma {:induction false} StripSkips(
    board: Board, panes: map<PaneId, Rect>, id: PaneId, later: seq<PaneId>, row: int, x: int, caps: Capabilities)
    requires id !in panes || !InRows(panes[id], row)
    ensures PaneStrip(board, panes, [id] + later, row, x, caps) == PaneStrip(board, panes, later, row, x, caps)
  {
    assert ([id] + later)[1..] == later;
  }

  /** A pane that crosses the row at the column reached so far adds its box row. */
  lemma {:induction false} StripTakes(
    board: Board, panes: map<PaneId, Rect>, id: PaneId, later: seq<PaneId>, row: int, caps: Capabilities)
    requires id in panes && InRows(panes[id], row) && panes[id].width >= 2 && CleanBoard(board)
    requires forall p <- panes :: panes[p].width >= 2
    ensures var rect := panes[id];
            var strip := PaneStrip(board, panes, [id] + later, row, rect.x, caps);
            var rest := PaneStrip(board, panes, later, row, rect.x + rect.width, caps);
            Strip(strip) == PanePlain(board, id, rect, row, caps) + Strip(rest)
            && |PanePlain(board, id, rect, row, caps)| == rect.width
  {
    hide Clean, Strip, PaneBoxRow, CleanBoard, PanePlain, Exact;
    assert ([id] + later)[1..] == later;
    var rect := panes[id];
    PaneBoxRowIsExact(board, id, rect, row, caps);
    var boxRow := PaneBoxRow(board, id, rect, row, caps);
    ExactIsClean(boxRow, rect.width);
    var rest := PaneStrip(board, panes, later, row, rect.x + rect.width, caps);
    WidthAppend(boxRow, rest);
    assert Repeat(' ', 0) == "";
    assert "" + boxRow == boxRow;
  }

  lemma {:induction false} EmptyStrip(board: Board, panes: map<PaneId, Rect>, row: int, x: int, caps: Capabilities)
    ensures PaneStrip(board, panes, [], row, x, caps) == "" && Strip("") == ""
  {
  }

  lemma {:induction false} FullShape(size: Size, statusLine: bool, focused: PaneId, workspaceCount: nat, row: int)
    requires size.rows >= 3
    requires var layout := Dashboard(size, statusLine, focused, workspaceCount);
             layout.mode.Full? && PaneRow(layout, row)
    ensures var panes := Dashboard(size, statusLine, focused, workspaceCount).panes;
            && panes.Keys == {Workspaces, Environments, Rules} && InRows(panes[Rules], row)
            && (InRows(panes[Workspaces], row) <==> !InRows(panes[Environments], row))
            && panes[Workspaces].x == 1 == panes[Environments].x
            && panes[Workspaces].width == panes[Environments].width
            && panes[Rules].x == 1 + panes[Workspaces].width
            && panes[Workspaces].width + panes[Rules].width == ContentWidth(size)
  {
  }

  /** A full dashboard row: the pane of the left column, then the rules. */
  lemma {:induction false} FullStrip(board: Board, size: Size, row: int, caps: Capabilities)
    requires CleanBoard(board) && size.rows >= 3
    requires LayoutOf(board, size).mode.Full? && PaneRow(LayoutOf(board, size), row)
    ensures var panes := LayoutOf(board, size).panes;
            && panes.Keys == {Workspaces, Environments, Rules} && InRows(panes[Rules], row)
            && (InRows(panes[Workspaces], row) <==> !InRows(panes[Environments], row))
            && var left := if InRows(panes[Workspaces], row) then Workspaces else Environments;
            && panes[left].x == 1 && panes[Rules].x == 1 + panes[left].width
            && |PanePlain(board, left, panes[left], row, caps)| == panes[left].width
            && |PanePlain(board, Rules, panes[Rules], row, caps)| == panes[Rules].width
            && panes[left].width + panes[Rules].width == ContentWidth(size)
            && Strip(PaneStrip(board, panes, PANE_ORDER, row, 1, caps))
                 == PanePlain(board, left, panes[left], row, caps) + PanePlain(board, Rules, panes[Rules], row, caps)
  {
    hide CleanBoard, PaneStrip, PanePlain, Strip, Dashboard, InRows;
    var panes := LayoutOf(board, size).panes;
    FullShape(size, board.statusLine, board.focused, board.workspaceCount, row);
    PanesKeepApart(size, board.statusLine, board.focused, board.workspaceCount, 0, 0);
    var left := if InRows(panes[Workspaces], row) then Workspaces else Environments;
    assert PANE_ORDER == [Workspaces] + ([Environments] + ([Rules] + []));
    if left == Workspaces {
      StripTakes(board, panes, Workspaces, [Environments] + ([Rules] + []), row, caps);
      StripSkips(board, panes, Environments, [Rules] + [], row, 1 + panes[left].width, caps);
    } else {
      StripSkips(board, panes, Workspaces, [Environments] + ([Rules] + []), row, 1, caps);
      StripTakes(board, panes, Environments, [Rules] + [], row, caps);
    }
    StripTakes(board, panes, Rules, [], row, caps);
    EmptyStrip(board, panes, row, panes[Rules].x + panes[Rules].width, caps);
  }

  /** A row of the single pane. */
  lemma {:induction false} SingleStrip(board: Board, size: Size, row: int, caps: Capabilities)
    requires CleanBoard(board) && size.rows >= 3 && LayoutOf(board, size).mode.Single?
    requires var panes := LayoutOf(board, size).panes; board.focused in panes && InRows(panes[board.focused], row)
    ensures var panes, id := LayoutOf(board, size).panes, board.focused;
            && panes[id].x == 1 && panes[id].width == ContentWidth(size)
            && |PanePlain(board, id, panes[id], row, caps)| == panes[id].width
            && Strip(PaneStrip(board, panes, PANE_ORDER, row, 1, caps)) == PanePlain(board, id, panes[id], row, caps)
  {
    var panes, id := LayoutOf(board, size).panes, board.focused;
    hide CleanBoard, PaneStrip, PanePlain, Strip;
    var x := 1 + panes[id].width;
    PanesKeepApart(size, board.statusLine, board.focused, board.workspaceCount, 0, 0);
    assert panes.Keys == {id};
    assert PANE_ORDER == [Workspaces] + ([Environments] + ([Rules] + []));
    if id == Workspaces {
      StripTakes(board, panes, Workspaces, [Environments] + ([Rules] + []), row, caps);
      StripSkips(board, panes, Environments, [Rules] + [], row, x, caps);
      StripSkips(board, panes, Rules, [], row, x, caps);
    } else if id == Environments {
      StripSkips(board, panes, Workspaces, [Environments] + ([Rules] + []), row, 1, caps);
      StripTakes(board, panes, Environments, [Rules] + [], row, caps);
      StripSkips(board, panes, Rules, [], row, x, caps);
    } else {
      StripSkips(board, panes, Workspaces, [Environments] + ([Rules] + []), row, 1, caps);
      StripSkips(board, panes, Environments, [Rules] + [], row, 1, caps);
      StripTakes(board, panes, Rules, [], row, caps);
    }
    EmptyStrip(board, panes, row, x, caps);
  }

  /** A line that is already as wide as it should be is not touched by padding. */
  lemma {:induction false} FullLineStays(plain: string, width: nat, ellipsis: string)
    requires |plain| == width
    ensures Padded(plain, width, ellipsis) == plain
  {
    if width == 0 { assert plain == ""; }
    assert plain + Repeat(' ', 0) == plain;
  }

  lemma {:induction false} FullLineIsShown(strip: string, width: nat, g: Glyphs)
    requires Clean(strip) && |Strip(strip)| == width
    ensures Strip(Gutter(PadToWidth(strip, width, g.ellipsis), g)) == [g.vertical] + Strip(strip) + [g.vertical]
  {
    hide Strip, Clean, Exact, PadToWidth, Padded, Gutter;
    FullLineStays(Strip(strip), width, g.ellipsis);
    PadIsExact(strip, width, g.ellipsis);
    GutterIsExact(PadToWidth(strip, width, g.ellipsis), width, g);
  }

  /** Every pane is drawn, whole, at the rectangle the layout gave it: its own body, title and focus. */
  lemma {:induction false} PanesAreInPlace(v: View, size: Size, id: PaneId, row: int, caps: Capabilities)
    requires CleanView(v) && v.screen.Panes? && size.rows >= 3 && 1 <= row < size.rows - 2
    requires var panes := LayoutOf(v.screen.board, size).panes; id in panes && InRows(panes[id], row)
    ensures var rect, shown := LayoutOf(v.screen.board, size).panes[id], Strip(BaseRow(v, size, row, caps));
            var pane, focused := OwnPane(v.screen.board, id), v.screen.board.focused == id;
            && 0 <= rect.x <= rect.x + rect.width <= |shown| && rect.height >= 0
            && shown[rect.x..rect.x + rect.width] ==
                 BoxPlain(pane.body, BoxOptions(rect.width, rect.height, pane.title, "", focused),
                          caps.glyphs, caps.tier, row - rect.y)
  {
    var board := v.screen.board;
    var rect := LayoutOf(board, size).panes[id];
    assert rect.width >= 0 by {
      PanesKeepApart(size, board.statusLine, board.focused, board.workspaceCount, row, rect.x);
    }
    assert 0 < rect.height && 0 <= row - rect.y;
    PanePlainIs(board, id, rect, row, caps);
    hide *;
    PaneCells(v, size, id, row, caps);
  }

  lemma {:induction false} PaneCells(v: View, size: Size, id: PaneId, row: int, caps: Capabilities)
    requires CleanView(v) && v.screen.Panes? && size.rows >= 3 && 1 <= row < size.rows - 2
    requires var panes := LayoutOf(v.screen.board, size).panes; id in panes && InRows(panes[id], row)
    ensures var rect, shown := LayoutOf(v.screen.board, size).panes[id], Strip(BaseRow(v, size, row, caps));
            && 0 <= rect.x <= rect.x + rect.width <= |shown|
            && shown[rect.x..rect.x + rect.width] == PanePlain(v.screen.board, id, rect, row, caps)
  {
    hide Strip, Clean, Exact, PaneStrip, PanePlain, Dashboard, PadToWidth, Padded, Gutter;
    hide CleanPane, AllClean, CleanLegend;
    var board := v.screen.board;
    var layout := LayoutOf(board, size);
    var rect, width := layout.panes[id], ContentWidth(size);
    LayoutFrame(size, board.statusLine, board.focused, board.workspaceCount);
    PanesKeepApart(size, board.statusLine, board.focused, board.workspaceCount, row, rect.x);
    assert Covers(rect, row, rect.x);
    var strip := PaneStrip(board, layout.panes, PANE_ORDER, row, 1, caps);
    if layout.mode.Full? {
      FullStrip(board, size, row, caps);
    } else {
      SingleOnly(size, board.statusLine, board.focused, board.workspaceCount, id);
      SingleStrip(board, size, row, caps);
    }
    PaneStripIsClean(board, layout.panes, PANE_ORDER, row, 1, caps);
    FullLineIsShown(strip, width, caps.glyphs);
    var bar, own := [caps.glyphs.vertical], PanePlain(board, id, rect, row, caps);
    if !layout.mode.Full? {
      SlicesOfRow(bar, own, "");
      assert own + "" == own;
    } else if id == Rules {
      SlicesOfRow(bar, Strip(strip)[..rect.x - 1], own);
    } else {
      SlicesOfRow(bar, own, PanePlain(board, Rules, layout.panes[Rules], row, caps));
    }
  }

  lemma {:induction false} SlicesOfRow(bar: string, a: string, b: string)
    requires |bar| == 1
    ensures var line := bar + (a + b) + bar;
            line[1..1 + |a|] == a && line[1 + |a|..1 + |a| + |b|] == b
  {
  }

  lemma {:induction false} SingleOnly(size: Size, statusLine: bool, focused: PaneId, workspaceCount: nat, id: PaneId)
    requires var layout := Dashboard(size, statusLine, focused, workspaceCount);
             !layout.mode.Full? && id in layout.panes
    ensures Dashboard(size, statusLine, focused, workspaceCount).mode.Single? && id == focused
  {
  }

  // Placement of the rest

  /** The status line and the tab row, each on its own row, with the three tabs in pane order. */
  lemma {:induction false} BarsAreInPlace(v: View, size: Size, row: int, caps: Capabilities)
    requires CleanView(v) && v.screen.Panes? && size.rows >= 3 && 1 <= row < size.rows - 2
    ensures var board, layout := v.screen.board, LayoutOf(v.screen.board, size);
            var bar, shown := [caps.glyphs.vertical], Strip(BaseRow(v, size, row, caps));
            var width, ellipsis := ContentWidth(size), caps.glyphs.ellipsis;
            && (layout.statusRow == Some(row) ==>
                  shown == bar + Padded(" " + Strip(board.status), width, ellipsis) + bar)
            && (layout.tabsRow == Some(row) && layout.statusRow != Some(row) ==>
                  shown == bar + Padded(TabsPlain(TabsOf(board), caps.tier), width, ellipsis) + bar)
  {
    hide Strip, Clean, Exact, Dashboard, PadToWidth, Padded, Gutter, TabRow, TabsPlain, AllClean, CleanLegend;
    var board, layout, g := v.screen.board, LayoutOf(v.screen.board, size), caps.glyphs;
    LayoutFrame(size, board.statusLine, board.focused, board.workspaceCount);
    BoardContentIsExact(board, size, row, caps);
    GutterIsExact(BoardContent(board, size, row, caps), ContentWidth(size), g);
    PlainText(" ");
    WidthAppend(" ", board.status);
    CleanConcat(" ", board.status);
    PadIsExact(" " + board.status, ContentWidth(size), g.ellipsis);
    TabsAreClean(board);
    assert TabsOf(board) == Tabs(board);
    TabRowShows(Tabs(board), ContentWidth(size), g, caps.tier);
    ShowsIsExact(TabRow(Tabs(board), ContentWidth(size), g, caps.tier),
                 Padded(TabsPlain(Tabs(board), caps.tier), ContentWidth(size), g.ellipsis));
  }

  /** One tab a pane, in pane order, the focused one marked. */
  function TabsOf(board: Board): seq<Tab> {
    seq(3, i requires 0 <= i < 3 =>
      Tab(OwnPane(board, PANE_ORDER[i]).tab, board.focused == PANE_ORDER[i]))
  }

  /** The header is on the first row, the legend on the last, the bottom border between it and the interior. */
  lemma {:induction false} ChromeIsInPlace(v: View, size: Size, caps: Capabilities)
    requires CleanView(v) && size.rows >= 3 && size.columns >= 2
    ensures Strip(BaseRow(v, size, 0, caps)) == HeaderPlain(v.segments, size.columns, caps.glyphs)
    ensures Strip(BaseRow(v, size, size.rows - 2, caps)) == BottomBorder(size.columns, caps.glyphs)
    ensures var kept := Strip(Legend(v.legend[..Fitting(v.legend, size.columns, caps.glyphs, 0)], caps.glyphs));
            kept <= Strip(BaseRow(v, size, size.rows - 1, caps))
  {
    hide Exact, CleanScreen, AllClean, CleanLegend, HeaderLine, HeaderPlain, BottomBorder, Footer, Legend, Repeat,
         Fitting, Strip;
    var g, columns := caps.glyphs, size.columns;
    HeaderShows(v.segments, columns, g);
    ShowsIsExact(HeaderLine(v.segments, columns, g), HeaderPlain(v.segments, columns, g));
    BottomBorderShows(columns, g);
    ShowsIsExact(BottomBorder(columns, g), BottomBorder(columns, g));
    FooterShows(v.legend, columns, g);
    var plain := Strip(Legend(v.legend[..Fitting(v.legend, columns, g, 0)], g));
    ShowsIsExact(Footer(v.legend, columns, g), plain + Repeat(' ', columns - |plain|));
  }

  /** A drill-in shows its body line by line from the scroll position on. */
  lemma {:induction false} DetailIsInPlace(v: View, size: Size, row: int, caps: Capabilities)
    requires CleanView(v) && v.screen.Detail? && DetailBox(size).Some? && 2 <= row < size.rows - 3
    ensures var o := DetailOptions(v.screen.title, DetailBox(size).value);
            var line := LineAt(v.screen.body, v.screen.scroll + row - 2);
            Strip(BaseRow(v, size, row, caps))
              == [caps.glyphs.vertical] + BodyPlain(Strip(line), o, caps.glyphs) + [caps.glyphs.vertical]
  {
    hide Clean, Strip, Exact, PadToWidth, Padded, Gutter, AllClean, CleanLegend, BodyPlain, BoxRow, CleanBox, Scrolled;
    var box, body, scroll := DetailBox(size).value, v.screen.body, v.screen.scroll;
    var lines, o := Scrolled(body, scroll, Max(0, box.height - 2)), DetailOptions(v.screen.title, box);
    var width, g := ContentWidth(size), caps.glyphs;
    ScrolledAt(body, scroll, Max(0, box.height - 2), row - 2);
    ScrolledBoxIsClean(body, scroll, Max(0, box.height - 2), o);
    BoxLineIsExact(lines, o, caps, row - 1);
    var boxRow := BoxRow(lines, o, g, caps.tier, row - 1);
    FullLineIsShown(boxRow, width, g);
  }

  lemma {:induction false} BoxLineIsExact(lines: seq<string>, o: BoxOptions, caps: Capabilities, i: nat)
    requires CleanBox(lines, o) && 0 < i < o.height - 1 && o.width >= 2
    ensures var shown := BoxRow(lines, o, caps.glyphs, caps.tier, i);
            && Clean(shown) && |Strip(shown)| == o.width
            && Strip(shown) == BodyPlain(Strip(LineAt(lines, i - 1)), o, caps.glyphs)
  {
    hide Clean, Strip, Exact, BodyPlain, BoxRow, CleanBox;
    BoxRowIsExact(lines, o, caps, i);
    ExactIsClean(BoxRow(lines, o, caps.glyphs, caps.tier, i), o.width);
  }

  lemma {:induction false} ScrolledBoxIsClean(body: seq<string>, scroll: nat, height: nat, o: BoxOptions)
    requires AllClean(body) && Clean(o.title) && o.bottomLabel == ""
    ensures CleanBox(Scrolled(body, scroll, height), o)
  {
    hide Clean;
    EmptyMeasures("");
    var lines := Scrolled(body, scroll, height);
    assert forall l <- lines :: l in body;
    ScrolledIsClean(body, lines);
  }

  lemma {:induction false} ScrolledAt(body: seq<string>, scroll: nat, height: nat, i: nat)
    requires i < height
    ensures LineAt(Scrolled(body, scroll, height), i) == LineAt(body, scroll + i)
  {
  }

  lemma {:induction false} ScrolledIsClean(body: seq<string>, lines: seq<string>)
    requires AllClean(body) && forall l <- lines :: l in body
    ensures forall l <- lines :: Clean(l)
  {
  }

  /** The park block is centered both ways: its margins differ by at most one row and one cell. */
  lemma {:induction false} ParkIsCentered(v: View, size: Size, row: int, caps: Capabilities)
    requires CleanView(v) && v.screen.Parked? && 1 <= row < size.rows - 2
    ensures var block, top := v.screen.block, TopPad(v.screen.block, size);
            var width, bar := ContentWidth(size), [caps.glyphs.vertical];
            && (|block| <= InteriorHeight(size) ==> 0 <= InteriorHeight(size) - |block| - top - top <= 1)
            && (top <= row - 1 < top + |block| ==>
                  var kept := Clipped(Strip(block[row - 1 - top]), width, caps.glyphs.ellipsis);
                  var left := (width - |kept|) / 2;
                  Strip(BaseRow(v, size, row, caps))
                    == bar + (Repeat(' ', left) + kept + Repeat(' ', width - |kept| - left)) + bar)
            && (row - 1 < top || row - 1 >= top + |block| ==>
                  Strip(BaseRow(v, size, row, caps)) == bar + Repeat(' ', width) + bar)
  {
    hide Clean, Strip, Exact, CenterLine, Clipped, Repeat, Gutter, AllClean, CleanLegend;
    var block, width := v.screen.block, ContentWidth(size);
    var k := row - 1 - TopPad(block, size);
    RepeatIsExact(' ', width);
    GutterIsExact(Repeat(' ', width), width, caps.glyphs);
    if 0 <= k < |block| {
      assert Clean(block[k]) by { ScrolledIsClean(block, [block[k]]); }
      CleanShows(block[k]);
      CenterShows(block[k], Strip(block[k]), width, caps.glyphs.ellipsis);
      var kept := Clipped(Strip(block[k]), width, caps.glyphs.ellipsis);
      var left := (width - |kept|) / 2;
      ShowsIsExact(CenterLine(block[k], width, caps.glyphs.ellipsis),
                   Repeat(' ', left) + kept + Repeat(' ', width - |kept| - left));
      GutterIsExact(CenterLine(block[k], width, caps.glyphs.ellipsis), width, caps.glyphs);
    }
  }
}
