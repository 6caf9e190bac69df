/** Where the panes and overlays go. */
module ScreenLayout {
  import opened Wrappers
  import opened ScreenText

  datatype Size = Size(columns: nat, rows: nat)

  datatype PaneId = Workspaces | Environments | Rules

  datatype Rect = Rect(x: int, y: int, width: int, height: int)

  datatype Mode = Full | Single | ChromeOnly

  datatype DashboardLayout = DashboardLayout(
    mode: Mode, frameBottomRow: int, contentWidth: nat, statusRow: Option<int>, tabsRow: Option<int>,
    panes: map<PaneId, Rect>)

  const PANE_ORDER: seq<PaneId> := [Workspaces, Environments, Rules]
  const FULL_MIN_COLUMNS := 80
  const FULL_MIN_PANE_AREA := 12
  const MIN_BOX_HEIGHT := 3
  const MIN_CONTENT_WIDTH := 20
  const OVERLAY_PREFERRED_WIDTH := 58

  function ContentWidth(size: Size): nat { Max(0, size.columns - 2) }

  function InteriorHeight(size: Size): nat { Max(0, size.rows - 3) }

  function Dashboard(size: Size, statusLine: bool, focused: PaneId, workspaceCount: nat): DashboardLayout {
    var bottom, width, interior := size.rows - 2, ContentWidth(size), InteriorHeight(size);
    var statusRow := if statusLine && interior > 0 then Some(bottom - 1) else None;
    var area := interior - (if statusRow.Some? then 1 else 0);
    if area < MIN_BOX_HEIGHT || width < MIN_CONTENT_WIDTH then
      DashboardLayout(ChromeOnly, bottom, width, statusRow, None, map[])
    else if size.columns < FULL_MIN_COLUMNS || area < FULL_MIN_PANE_AREA then
      var panes := if area - 1 >= MIN_BOX_HEIGHT then map[focused := Rect(1, 2, width, area - 1)] else map[];
      DashboardLayout(Single, bottom, width, statusRow, Some(1), panes)
    else
      var leftWidth := Min(34, Max(26, 2 * width / 5));
      var workspacesHeight := Max(MIN_BOX_HEIGHT, Min(workspaceCount + 2, area / 2));
      DashboardLayout(Full, bottom, width, statusRow, None, map[
        Workspaces := Rect(1, 1, leftWidth, workspacesHeight),
        Environments := Rect(1, 1 + workspacesHeight, leftWidth, area - workspacesHeight),
        Rules := Rect(1 + leftWidth, 1, width - leftWidth, area)])
  }

  function CenterOverlay(size: Size, bodyLines: nat): Option<Rect> {
    var width := Min(OVERLAY_PREFERRED_WIDTH, ContentWidth(size));
    var height := Min(bodyLines + 2, InteriorHeight(size));
    if height < MIN_BOX_HEIGHT || width < MIN_CONTENT_WIDTH then None
    else Some(Rect(1 + (ContentWidth(size) - width) / 2, 1 + (InteriorHeight(size) - height) / 2, width, height))
  }

  function DetailBox(size: Size): Option<Rect> {
    if InteriorHeight(size) >= MIN_BOX_HEIGHT && ContentWidth(size) >= MIN_CONTENT_WIDTH
    then Some(Rect(1, 1, ContentWidth(size), InteriorHeight(size)))
    else None
  }

  predicate InRows(rect: Rect, row: int) { rect.y <= row < rect.y + rect.height }

  predicate Covers(rect: Rect, row: int, column: int) {
    InRows(rect, row) && rect.x <= column < rect.x + rect.width
  }

  /** The rows of the interior that belong to panes. */
  predicate PaneRow(layout: DashboardLayout, row: int) {
    1 <= row < layout.frameBottomRow && layout.statusRow != Some(row) && layout.tabsRow != Some(row)
  }

  predicate Inside(layout: DashboardLayout, row: int, column: int) {
    PaneRow(layout, row) && 1 <= column < 1 + layout.contentWidth
  }

  /** The panes never leave the pane rows of the interior, and never overlap. */
  lemma {:induction false} PanesKeepApart(
    size: Size, statusLine: bool, focused: PaneId, workspaceCount: nat, row: int, column: int)
    requires size.rows >= 3
    ensures var layout := Dashboard(size, statusLine, focused, workspaceCount);
            && (forall p <- layout.panes :: Covers(layout.panes[p], row, column) ==> Inside(layout, row, column))
            && (forall p, q | p in layout.panes && q in layout.panes ::
                  Covers(layout.panes[p], row, column) && Covers(layout.panes[q], row, column) ==> p == q)
            && (forall p <- layout.panes :: layout.panes[p].height >= MIN_BOX_HEIGHT && layout.panes[p].width >= 20)
  {
    var layout := Dashboard(size, statusLine, focused, workspaceCount);
    if layout.mode.Full? {
      hide Inside, PaneRow;
      assert layout.panes.Keys == {Workspaces, Environments, Rules};
      forall p | p in layout.panes && Covers(layout.panes[p], row, column) ensures Inside(layout, row, column) {
        InsideWhen(layout, row, column);
      }
    }
  }

  lemma {:induction false} InsideWhen(layout: DashboardLayout, row: int, column: int)
    requires 1 <= row < layout.frameBottomRow && 1 <= column < 1 + layout.contentWidth
    requires layout.statusRow.Some? ==> row < layout.statusRow.value
    requires layout.tabsRow.Some? ==> row > layout.tabsRow.value
    ensures Inside(layout, row, column)
  {
  }

  /**
   * In full mode the panes tile the interior: every cell outside the status line lies in a pane. In single
   * mode the focused pane takes it all, unless what the tab row leaves is too low for a box.
   */
  lemma {:induction false} PanesTileTheInterior(
    size: Size, statusLine: bool, focused: PaneId, workspaceCount: nat, row: int, column: int)
    requires size.rows >= 3
    requires Inside(Dashboard(size, statusLine, focused, workspaceCount), row, column)
    ensures var layout := Dashboard(size, statusLine, focused, workspaceCount);
            && (layout.mode.Full? ==> exists p <- layout.panes :: Covers(layout.panes[p], row, column))
            && (layout.mode.Single? ==> layout.panes.Keys <= {focused})
            && (layout.mode.Single? ==>
                  (focused in layout.panes <==> InteriorHeight(size) - (if layout.statusRow.Some? then 1 else 0) >= 4))
            && (layout.mode.Single? && focused in layout.panes && row > 1 ==>
                  Covers(layout.panes[focused], row, column))
            && (layout.mode.ChromeOnly? ==> layout.panes == map[])
  {
    var layout := Dashboard(size, statusLine, focused, workspaceCount);
    if layout.mode.Full? {
      var p := if Covers(layout.panes[Rules], row, column) then Rules
               else if Covers(layout.panes[Workspaces], row, column) then Workspaces else Environments;
      assert p in layout.panes && Covers(layout.panes[p], row, column);
    }
  }

  /** Which mode a terminal gets: its chrome alone, one pane or all three, by the room there is inside. */
  lemma {:induction false} ModesExactly(size: Size, statusLine: bool, focused: PaneId, workspaceCount: nat)
    requires size.rows >= 3
    ensures var layout := Dashboard(size, statusLine, focused, workspaceCount);
            var area := size.rows - 3 - (if layout.statusRow.Some? then 1 else 0);
            && (layout.mode.ChromeOnly? <==> area < 3 || size.columns < 22)
            && (layout.mode.Full? <==> area >= 12 && size.columns >= 80)
            && (layout.statusRow == if statusLine && size.rows > 3 then Some(size.rows - 3) else None)
            && (layout.tabsRow == if layout.mode.Single? then Some(1) else None)
  {
  }

  /**
   * In full mode the left column has two fifths of the interior, between 26 and 34 cells; the workspaces, with
   * the height of their rows and borders up to half of it, stand above the environments, the rules to the right.
   */
  lemma {:induction false} ColumnsAreSized(size: Size, statusLine: bool, focused: PaneId, workspaceCount: nat)
    requires Dashboard(size, statusLine, focused, workspaceCount).mode.Full?
    ensures var panes := Dashboard(size, statusLine, focused, workspaceCount).panes;
            && panes.Keys == {Workspaces, Environments, Rules}
            && var left, top, width := panes[Workspaces].width, panes[Workspaces].height, size.columns - 2;
               && panes[Environments].width == left && 26 <= left <= 34
               && (26 < left ==> 5 * left <= 2 * width) && (left < 34 ==> 2 * width < 5 * (left + 1))
               && 3 <= top && 2 * top <= panes[Rules].height && top <= Max(3, workspaceCount + 2)
               && (top < workspaceCount + 2 ==> panes[Rules].height < 2 * (top + 1))
               && panes[Workspaces].x == 1 && panes[Workspaces].y == 1
               && panes[Environments].x == 1 && panes[Environments].y == 1 + top
               && panes[Rules].x == 1 + left && panes[Rules].y == 1
  {
  }

  /** An overlay lies inside the interior and is centered in it, to within a cell, as large as it asks if it fits. */
  lemma {:induction false} OverlayIsInside(size: Size, bodyLines: nat)
    requires CenterOverlay(size, bodyLines).Some?
    ensures var rect := CenterOverlay(size, bodyLines).value;
            var left, right := rect.x - 1, size.columns - 1 - rect.x - rect.width;
            var above, below := rect.y - 1, size.rows - 2 - rect.y - rect.height;
            && 0 <= left <= right <= left + 1 && 0 <= above <= below <= above + 1
            && 20 <= rect.width <= OVERLAY_PREFERRED_WIDTH && MIN_BOX_HEIGHT <= rect.height <= Max(3, bodyLines + 2)
            && (rect.width == OVERLAY_PREFERRED_WIDTH || left + right == 0)
            && (rect.height == bodyLines + 2 || above + below == 0)
  {
  }
}
