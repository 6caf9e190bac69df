/** Whole frames: the three screens and the overlays spliced over them. */
module ScreenView {
  import opened Wrappers
  import opened ScreenText
  import opened ScreenBox
  import opened ScreenChrome
  import opened ScreenLayout

  /** What a pane has to show; the copy and the rows are the application's. */
  datatype PaneView = PaneView(title: string, tab: string, body: seq<string>)

  datatype Board = Board(
    workspaces: PaneView, environments: PaneView, rules: PaneView,
    focused: PaneId, workspaceCount: nat, statusLine: bool, status: string)
  {
    function Pane(id: PaneId): PaneView {
      match id
      case Workspaces => workspaces
      case Environments => environments
      case Rules => rules
    }
  }

  datatype Screen =
    | Parked(block: seq<string>)
    | Detail(title: string, body: seq<string>, scroll: nat)
    | Panes(board: Board)

  datatype Overlay =
    | NoOverlay
    | Help(help: seq<string>, title: string, closing: string)
    | Palette(actions: seq<string>, matchCount: nat, title: string, closing: string)

  datatype View = View(
    screen: Screen, overlay: Overlay, product: string, segments: seq<string>, legend: seq<LegendEntry>)

  datatype Capabilities = Capabilities(glyphs: Glyphs, tier: Tier)

  const HELP_BODY_LINES := 12

  // The content of one interior row, between the verticals of the outer frame

  function LayoutOf(board: Board, size: Size): DashboardLayout {
    Dashboard(size, board.statusLine, board.focused, board.workspaceCount)
  }

  function PaneOptions(board: Board, id: PaneId, rect: Rect): BoxOptions {
    BoxOptions(Max(0, rect.width), Max(0, rect.height), board.Pane(id).title, "", board.focused == id)
  }

  function PaneBoxRow(board: Board, id: PaneId, rect: Rect, row: int, caps: Capabilities): string {
    BoxRow(board.Pane(id).body, PaneOptions(board, id, rect), caps.glyphs, caps.tier, Max(0, row - rect.y))
  }

  /** The box rows crossing `row`, in pane order, with the gaps between them blank. */
  function PaneStrip(board: Board, panes: map<PaneId, Rect>, order: seq<PaneId>, row: int, x: int,
                     caps: Capabilities): string {
    if |order| == 0 then ""
    else
      var id, later := order[0], order[1..];
      if id !in panes || !InRows(panes[id], row) then PaneStrip(board, panes, later, row, x, caps)
      else
        Repeat(' ', panes[id].x - x) + PaneBoxRow(board, id, panes[id], row, caps)
        + PaneStrip(board, panes, later, row, panes[id].x + panes[id].width, caps)
  }

  function Tabs(board: Board): seq<Tab> {
    [Tab(board.workspaces.tab, board.focused == Workspaces), Tab(board.environments.tab, board.focused == Environments),
     Tab(board.rules.tab, board.focused == Rules)]
  }

  function BoardContent(board: Board, size: Size, row: int, caps: Capabilities): string {
    var layout := LayoutOf(board, size);
    if Some(row) == layout.statusRow then PadToWidth(" " + board.status, layout.contentWidth, caps.glyphs.ellipsis)
    else if Some(row) == layout.tabsRow then TabRow(Tabs(board), layout.contentWidth, caps.glyphs, caps.tier)
    else PadToWidth(PaneStrip(board, layout.panes, PANE_ORDER, row, 1, caps), layout.contentWidth, caps.glyphs.ellipsis)
  }

  function Scrolled(body: seq<string>, scroll: nat, height: nat): seq<string> {
    var from := Min(scroll, |body|);
    body[from..Min(from + height, |body|)]
  }

  function DetailOptions(title: string, rect: Rect): BoxOptions {
    BoxOptions(Max(0, rect.width), Max(0, rect.height), title, "", true)
  }

  function DetailContent(
    title: string, body: seq<string>, scroll: nat, size: Size, row: int, caps: Capabilities): string
  {
    var box := DetailBox(size);
    if box.None? then Repeat(' ', ContentWidth(size))
    else
      var lines := Scrolled(body, scroll, Max(0, box.value.height - 2));
      PadToWidth(BoxRow(lines, DetailOptions(title, box.value), caps.glyphs, caps.tier, Max(0, row - 1)),
                 ContentWidth(size), caps.glyphs.ellipsis)
  }

  function TopPad(block: seq<string>, size: Size): nat { Max(0, (InteriorHeight(size) - |block|) / 2) }

  function ParkContent(block: seq<string>, size: Size, row: int, caps: Capabilities): string {
    var k := row - 1 - TopPad(block, size);
    if 0 <= k < |block| then CenterLine(block[k], ContentWidth(size), caps.glyphs.ellipsis)
    else Repeat(' ', ContentWidth(size))
  }

  function Content(screen: Screen, size: Size, row: int, caps: Capabilities): string {
    if screen.Parked? then ParkContent(screen.block, size, row, caps)
    else if screen.Detail? then DetailContent(screen.title, screen.body, screen.scroll, size, row, caps)
    else BoardContent(screen.board, size, row, caps)
  }

  // Frames

  function Gutter(content: string, g: Glyphs): string { [g.vertical] + content + [g.vertical] }

  function BaseRow(v: View, size: Size, row: int, caps: Capabilities): string {
    if row == 0 then HeaderLine(v.segments, size.columns, caps.glyphs)
    else if row < size.rows - 2 then Gutter(Content(v.screen, size, row, caps), caps.glyphs)
    else if row == size.rows - 2 then BottomBorder(size.columns, caps.glyphs)
    else Footer(v.legend, size.columns, caps.glyphs)
  }

  function OverlayRect(overlay: Overlay, size: Size): Option<Rect> {
    match overlay
    case NoOverlay => None
    case Help(_, _, _) => CenterOverlay(size, HELP_BODY_LINES)
    case Palette(_, n, _, _) => CenterOverlay(size, 1 + Max(1, n))
  }

  function OverlayBody(overlay: Overlay): seq<string> {
    match overlay
    case NoOverlay => []
    case Help(body, _, _) => body[..Min(HELP_BODY_LINES, |body|)]
    case Palette(body, _, _, _) => body
  }

  function OverlayOptions(overlay: Overlay, rect: Rect): BoxOptions {
    BoxOptions(Max(0, rect.width), Max(0, rect.height), if overlay.NoOverlay? then "" else overlay.title,
               if overlay.NoOverlay? then "" else overlay.closing, true)
  }

  function OverlayBoxRow(overlay: Overlay, rect: Rect, i: nat, caps: Capabilities): string {
    BoxRow(OverlayBody(overlay), OverlayOptions(overlay, rect), caps.glyphs, caps.tier, i)
  }

  function Wash(plain: string, tier: Tier): string { if plain == "" then "" else Paint(plain, Dim, tier) }

  function WashRow(row: string, tier: Tier): string { Wash(Strip(row), tier) }

  /** One base row with the box row over it; both sides lose their styling to the wash. */
  function SpliceRow(row: string, boxRow: string, rect: Rect, tier: Tier): string {
    var plain := Strip(row);
    Wash(Sliced(plain, 0, Max(0, rect.x)), tier) + boxRow
    + Wash(Sliced(plain, Max(0, rect.x + rect.width), |plain|), tier)
  }

  function FrameRow(v: View, size: Size, row: int, caps: Capabilities): string {
    var base, rect := BaseRow(v, size, row, caps), OverlayRect(v.overlay, size);
    if rect.None? then base
    else if !InRows(rect.value, row) then WashRow(base, caps.tier)
    else SpliceRow(base, OverlayBoxRow(v.overlay, rect.value, Max(0, row - rect.value.y), caps), rect.value, caps.tier)
  }

  // The composers

  method ComposeBoard(v: View, size: Size, caps: Capabilities) returns (frame: seq<string>)
    requires v.screen.Panes? && size.rows >= 3
    ensures |frame| == size.rows
    ensures forall y | 0 <= y < size.rows :: frame[y] == BaseRow(v, size, y, caps)
  {
    hide BoxRow, PadToWidth, HeaderLine, TabRow, BottomBorder, Footer, Dashboard;
    var board, g := v.screen.board, caps.glyphs;
    var layout := LayoutOf(board, size);
    assert layout.frameBottomRow == size.rows - 2 && layout.contentWidth == ContentWidth(size) by {
      LayoutFrame(size, board.statusLine, board.focused, board.workspaceCount);
    }
    var boxes: map<PaneId, seq<string>> := map[];
    for i := 0 to |PANE_ORDER|
      invariant forall id <- PANE_ORDER[..i] :: id in layout.panes ==>
        id in boxes && BoxOf(board, id, layout.panes[id], boxes[id], caps)
    {
      var id := PANE_ORDER[i];
      if id in layout.panes {
        var rect := layout.panes[id];
        var rows := MakeBox(board.Pane(id).body, PaneOptions(board, id, rect), g, caps.tier);
        boxes := boxes[id := rows];
      }
    }
    assert PANE_ORDER[..|PANE_ORDER|] == PANE_ORDER;
    frame := [HeaderLine(v.segments, size.columns, g)];
    for row := 1 to layout.frameBottomRow
      invariant |frame| == row
      invariant forall y | 0 <= y < row :: frame[y] == BaseRow(v, size, y, caps)
    {
      var content;
      if Some(row) == layout.statusRow {
        content := PadToWidth(" " + board.status, layout.contentWidth, g.ellipsis);
      } else if Some(row) == layout.tabsRow {
        content := TabRow(Tabs(board), layout.contentWidth, g, caps.tier);
      } else {
        var parts := JoinPanes(board, layout.panes, boxes, row, caps);
        content := PadToWidth(parts, layout.contentWidth, g.ellipsis);
      }
      frame := frame + [Gutter(content, g)];
    }
    var footer := FooterLegend(v.legend, size.columns, g);
    frame := frame + [BottomBorder(size.columns, g), footer];
  }

  ghost predicate BoxOf(board: Board, id: PaneId, rect: Rect, rows: seq<string>, caps: Capabilities) {
    |rows| == Max(0, rect.height) &&
    forall i | 0 <= i < |rows| ::
      rows[i] == BoxRow(board.Pane(id).body, PaneOptions(board, id, rect), caps.glyphs, caps.tier, i)
  }

  lemma {:induction false} LayoutFrame(size: Size, statusLine: bool, focused: PaneId, workspaceCount: nat)
    ensures var layout := Dashboard(size, statusLine, focused, workspaceCount);
            layout.frameBottomRow == size.rows - 2 && layout.contentWidth == ContentWidth(size)
  {
  }

  lemma {:induction false} StripFirst(
    board: Board, panes: map<PaneId, Rect>, order: seq<PaneId>, i: nat, row: int, x: int, caps: Capabilities)
    requires i < |order|
    ensures var id, later := order[i], order[i + 1..];
            PaneStrip(board, panes, order[i..], row, x, caps) ==
              if id !in panes || !InRows(panes[id], row) then PaneStrip(board, panes, later, row, x, caps)
              else
                Repeat(' ', panes[id].x - x) + PaneBoxRow(board, id, panes[id], row, caps)
                + PaneStrip(board, panes, later, row, panes[id].x + panes[id].width, caps)
  {
    hide PaneBoxRow, Repeat;
    assert order[i..][0] == order[i] && order[i..][1..] == order[i + 1..];
  }

  lemma {:induction false} StripStep(
    board: Board, panes: map<PaneId, Rect>, order: seq<PaneId>, i: nat, row: int, x: int, parts: string,
    caps: Capabilities)
    requires i < |order|
    ensures var id, later := order[i], order[i + 1..];
            parts + PaneStrip(board, panes, order[i..], row, x, caps) ==
              if id !in panes || !InRows(panes[id], row) then parts + PaneStrip(board, panes, later, row, x, caps)
              else
                (parts + (Repeat(' ', panes[id].x - x) + PaneBoxRow(board, id, panes[id], row, caps)))
                + PaneStrip(board, panes, later, row, panes[id].x + panes[id].width, caps)
  {
    hide PaneBoxRow, Repeat, PaneStrip, InRows;
    StripFirst(board, panes, order, i, row, x, caps);
  }

  lemma {:induction false} StripEnds(board: Board, panes: map<PaneId, Rect>, row: int, x: int, caps: Capabilities)
    ensures PaneStrip(board, panes, PANE_ORDER[|PANE_ORDER|..], row, x, caps) == ""
  {
  }

  lemma {:induction false} BoxRowAt(
    board: Board, id: PaneId, rect: Rect, rows: seq<string>, row: int, caps: Capabilities)
    requires BoxOf(board, id, rect, rows, caps) && InRows(rect, row)
    ensures 0 <= row - rect.y < |rows| && rows[row - rect.y] == PaneBoxRow(board, id, rect, row, caps)
  {
    hide BoxRow;
  }

  method JoinPanes(
    board: Board, panes: map<PaneId, Rect>, boxes: map<PaneId, seq<string>>, row: int, caps: Capabilities)
    returns (parts: string)
    requires forall id <- PANE_ORDER :: id in panes ==> id in boxes && BoxOf(board, id, panes[id], boxes[id], caps)
    ensures parts == PaneStrip(board, panes, PANE_ORDER, row, 1, caps)
  {
    hide *;
    parts := "";
    var x := 1;
    assert PANE_ORDER[0..] == PANE_ORDER;
    for i := 0 to |PANE_ORDER|
      invariant PaneStrip(board, panes, PANE_ORDER, row, 1, caps)
        == parts + PaneStrip(board, panes, PANE_ORDER[i..], row, x, caps)
    {
      var id := PANE_ORDER[i];
      StripStep(board, panes, PANE_ORDER, i, row, x, parts, caps);
      if id !in panes || !InRows(panes[id], row) { continue; }
      var rect := panes[id];
      BoxRowAt(board, id, rect, boxes[id], row, caps);
      var piece := Repeat(' ', rect.x - x) + boxes[id][row - rect.y];
      parts, x := parts + piece, rect.x + rect.width;
    }
    StripEnds(board, panes, row, x, caps);
  }

  method ComposeDetail(v: View, size: Size, caps: Capabilities) returns (frame: seq<string>)
    requires v.screen.Detail? && size.rows >= 3
    ensures |frame| == size.rows
    ensures forall y | 0 <= y < size.rows :: frame[y] == BaseRow(v, size, y, caps)
  {
    hide BoxRow, PadToWidth, HeaderLine, BottomBorder, Footer;
    var g, box := caps.glyphs, DetailBox(size);
    frame := [HeaderLine(v.segments, size.columns, g)];
    if box.None? {
      for row := 1 to size.rows - 2
        invariant |frame| == row
        invariant forall y | 0 <= y < row :: frame[y] == BaseRow(v, size, y, caps)
      {
        frame := frame + [Gutter(Repeat(' ', ContentWidth(size)), g)];
      }
    } else {
      var scrolled := Scrolled(v.screen.body, v.screen.scroll, Max(0, box.value.height - 2));
      var rows := MakeBox(scrolled, DetailOptions(v.screen.title, box.value), g, caps.tier);
      for row := 1 to size.rows - 2
        invariant |frame| == row
        invariant forall y | 0 <= y < row :: frame[y] == BaseRow(v, size, y, caps)
      {
        frame := frame + [Gutter(PadToWidth(rows[row - 1], ContentWidth(size), g.ellipsis), g)];
      }
    }
    var footer := FooterLegend(v.legend, size.columns, g);
    frame := frame + [BottomBorder(size.columns, g), footer];
  }

  method ComposePark(v: View, size: Size, caps: Capabilities) returns (frame: seq<string>)
    requires v.screen.Parked? && size.rows >= 3
    ensures |frame| == size.rows
    ensures forall y | 0 <= y < size.rows :: frame[y] == BaseRow(v, size, y, caps)
  {
    hide CenterLine, HeaderLine, BottomBorder, Footer;
    var g, block, topPad := caps.glyphs, v.screen.block, TopPad(v.screen.block, size);
    frame := [HeaderLine(v.segments, size.columns, g)];
    for row := 0 to InteriorHeight(size)
      invariant |frame| == row + 1
      invariant forall y | 0 <= y <= row :: frame[y] == BaseRow(v, size, y, caps)
    {
      var line := if row >= topPad && row - topPad < |block|
                  then CenterLine(block[row - topPad], ContentWidth(size), g.ellipsis)
                  else Repeat(' ', ContentWidth(size));
      frame := frame + [Gutter(line, g)];
    }
    var footer := FooterLegend(v.legend, size.columns, g);
    frame := frame + [BottomBorder(size.columns, g), footer];
  }

  /** The frame for a terminal of this size: too small for the chrome, one row with the product name. */
  method ViewTui(v: View, size: Size, caps: Capabilities) returns (frame: seq<string>)
    ensures size.rows < 3 || size.columns < 8 ==>
              frame == [PadToWidth(v.product, size.columns, caps.glyphs.ellipsis)]
    ensures size.rows >= 3 && size.columns >= 8 ==>
              |frame| == size.rows && forall y | 0 <= y < size.rows :: frame[y] == FrameRow(v, size, y, caps)
  {
    hide BoxRow, BaseRow, PadToWidth, SpliceRow, WashRow;
    if size.rows < 3 || size.columns < 8 {
      return [PadToWidth(v.product, size.columns, caps.glyphs.ellipsis)];
    }
    var base;
    if v.screen.Parked? {
      base := ComposePark(v, size, caps);
    } else if v.screen.Detail? {
      base := ComposeDetail(v, size, caps);
    } else {
      base := ComposeBoard(v, size, caps);
    }
    var rect := OverlayRect(v.overlay, size);
    if rect.None? { return base; }
    var box := MakeBox(OverlayBody(v.overlay), OverlayOptions(v.overlay, rect.value), caps.glyphs, caps.tier);
    frame := SpliceOverlay(base, box, rect.value, caps.tier);
  }

  function SpliceOverlay(base: seq<string>, box: seq<string>, rect: Rect, tier: Tier): seq<string> {
    seq(|base|, i requires 0 <= i < |base| =>
      if !InRows(rect, i) then WashRow(base[i], tier)
      else SpliceRow(base[i], LineAt(box, i - rect.y), rect, tier))
  }
}
