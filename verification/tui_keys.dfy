/** Which key or click does what: every effect and every screen, told from the event and not from the handlers. */
module TuiKeys {
  import opened Wrappers
  import opened ScreenLayout
  import opened TuiFocus
  import opened TuiApp

  // Events

  predicate IsKey(e: Input, key: Key) { e.Key? && e.key == key }

  predicate IsCtrl(e: Input, c: char) { IsKey(e, Letter(c)) && e.ctrl }

  predicate IsPress(e: Input) { e.Mouse? && e.action == Press }

  // Who has the keys

  predicate InPalette(a: App) { a.overlay.PaletteOverlay? }

  predicate InDetail(a: App) { a.overlay.NoOverlay? && !a.detail.NoDetail? }

  predicate Typing(a: App) { a.overlay.NoOverlay? && a.detail.NoDetail? && a.filter == Some(true) }

  predicate OnDashboard(a: App) { a.overlay.NoOverlay? && a.detail.NoDetail? && a.filter != Some(true) }

  /** Enter runs the selected item of the palette, and so does a click on it. */
  predicate Chooses(a: App, e: Input, p: Picks, item: PaletteItem) {
    InPalette(a) && p.item == Some(item) && (IsKey(e, Enter) || (IsPress(e) && e.overlayHit == OnItem(true)))
  }

  /** Enter opens the selected row of the focused pane, and so does a click on it, even while the filter is typed. */
  predicate Opens(a: App, e: Input, pane: PaneId) {
    && a.overlay.NoOverlay? && a.detail.NoDetail? && a.focus.focused == pane
    && ((IsKey(e, Enter) && OnDashboard(a)) || (IsPress(e) && e.paneHit == OnRow(pane, true)))
  }

  // Effects

  /** A key of the rules pane, or the item of the palette, acts on the selected rule. */
  predicate OnSelectedRule(a: App, e: Input, p: Picks, key: Key, item: PaletteItem) {
    (OnDashboard(a) && a.focus.focused == Rules && IsKey(e, key)) || Chooses(a, e, p, item)
  }

  predicate TogglesRow(row: Option<RuleRow>, uid: string, enabled: bool) {
    row.Some? && row.value.uid == uid && enabled == !row.value.enabled
  }

  predicate PublishesRow(row: Option<RuleRow>, uid: string, published: bool) {
    row.Some? && row.value.uid == uid && published == !row.value.published
  }

  predicate IsOtherEnvironment(row: EnvironmentRow, environment: Option<string>) {
    !row.active && environment == if row.none then None else Some(row.uid)
  }

  predicate IsEnvironmentItem(item: PaletteItem, environment: Option<string>) {
    item.EnvironmentItem? && !item.active && item.environment == environment && item.identity.Some?
  }

  /** The event asks for this effect: the whole table of keys and clicks, one line an effect. */
  predicate Asks(a: App, e: Input, p: Picks, effect: Effect) {
    match effect
    case Quit => IsCtrl(e, 'c') || (OnDashboard(a) && IsKey(e, Letter('q')))
    case Refresh =>
      || ((OnDashboard(a) || InDetail(a)) && IsKey(e, Letter('r')))
      || Chooses(a, e, p, ActionRefresh)
    case FetchRule(uid) =>
      || (Opens(a, e, Rules) && p.rule.Some? && p.rule.value.uid == uid)
      || (InDetail(a) && a.detail == RuleDetail(uid) && IsKey(e, Letter('r')))
    case Yank(text) =>
      || (OnDashboard(a) && a.focus.focused == Rules && IsKey(e, Letter('y'))
          && p.rule.Some? && p.rule.value.uid == text)
      || (InDetail(a) && a.detail == RuleDetail(text) && IsKey(e, Letter('y')))
    case ToggleRule(uid, enabled) =>
      a.pending.None?
      && ((OnSelectedRule(a, e, p, Space, ActionToggle) && TogglesRow(p.rule, uid, enabled))
          || (InDetail(a) && a.detail == RuleDetail(uid) && IsKey(e, Space) && TogglesRow(p.detailRule, uid, enabled)))
    case PublishRule(uid, published) =>
      a.pending.None?
      && ((OnSelectedRule(a, e, p, Letter('p'), ActionPublish) && PublishesRow(p.rule, uid, published))
          || (InDetail(a) && a.detail == RuleDetail(uid) && IsKey(e, Letter('p'))
              && PublishesRow(p.detailRule, uid, published)))
    case SwitchWorkspace(workspace) =>
      a.pending.None?
      && ((Opens(a, e, Workspaces) && p.workspace.Some?
           && !p.workspace.value.active && p.workspace.value.id == workspace)
          || Chooses(a, e, p, WorkspaceItem(workspace, false)))
    case SwitchEnvironment(environment) =>
      a.pending.None?
      && ((Opens(a, e, Environments) && p.environment.Some? && IsOtherEnvironment(p.environment.value, environment))
          || (p.item.Some? && Chooses(a, e, p, p.item.value) && IsEnvironmentItem(p.item.value, environment)))
  }

  /** The selected row of a pane, opened, asks for this effect. */
  predicate RowAsks(a: App, pane: PaneId, p: Picks, effect: Effect) {
    match effect
    case FetchRule(uid) => pane.Rules? && p.rule.Some? && p.rule.value.uid == uid
    case SwitchWorkspace(workspace) =>
      && a.pending.None? && pane.Workspaces? && p.workspace.Some?
      && !p.workspace.value.active && p.workspace.value.id == workspace
    case SwitchEnvironment(environment) =>
      && a.pending.None? && pane.Environments? && p.environment.Some?
      && IsOtherEnvironment(p.environment.value, environment)
    case _ => false
  }

  lemma {:induction false} RowEffects(a: App, pane: PaneId, p: Picks, f: Effect)
    ensures f in OpenSelected(a, pane, p).effects <==> RowAsks(a, pane, p, f)
  {
  }

  lemma {:induction false} ClickEffects(a: App, e: Input, p: Picks, f: Effect)
    requires Valid(a.focus) && a.overlay.NoOverlay? && a.detail.NoDetail? && e.Mouse?
    ensures f in Handle(a, e, p).effects <==> Asks(a, e, p, f)
  {
    if !e.paneHit.Nowhere? { RowEffects(a.(focus := FocusedOn(a.focus, e.paneHit.pane)), e.paneHit.pane, p, f); }
    hide FocusedOn, OpenSelected, Valid, IsOtherEnvironment;
  }

  lemma {:induction false} TypingEffects(a: App, e: Input, p: Picks, f: Effect)
    requires Valid(a.focus) && Typing(a) && e.Key?
    ensures f in Handle(a, e, p).effects <==> Asks(a, e, p, f)
  {
    hide OpenPalette, Valid, IsOtherEnvironment;
  }

  lemma {:induction false} DashboardEffects(a: App, e: Input, p: Picks, f: Effect)
    requires Valid(a.focus) && OnDashboard(a) && e.Key?
    ensures f in Handle(a, e, p).effects <==> Asks(a, e, p, f)
  {
    RowEffects(a, a.focus.focused, p, f);
    hide Moved, FocusedDigit, OpenSelected, OpenPalette, OpenHelp, Valid, IsOtherEnvironment;
  }

  lemma {:induction false} DetailEffects(a: App, e: Input, p: Picks, f: Effect)
    requires Valid(a.focus) && InDetail(a)
    ensures f in Handle(a, e, p).effects <==> Asks(a, e, p, f)
  {
    hide OpenPalette, OpenHelp, Valid;
  }

  lemma {:induction false} HelpEffects(a: App, e: Input, p: Picks, f: Effect)
    requires Valid(a.focus) && a.overlay.HelpOverlay?
    ensures f in Handle(a, e, p).effects <==> Asks(a, e, p, f)
  {
    hide OpenPalette, OpenHelp, Valid, CloseOverlay, RunPaletteItem, PaletteKey;
  }

  /** An item of the palette asks for the effect of its row, of its action, or for none. */
  predicate ItemAsks(a: App, item: PaletteItem, p: Picks, effect: Effect) {
    match effect
    case Refresh => item.ActionRefresh?
    case ToggleRule(uid, enabled) => item.ActionToggle? && a.pending.None? && TogglesRow(p.rule, uid, enabled)
    case PublishRule(uid, published) => item.ActionPublish? && a.pending.None? && PublishesRow(p.rule, uid, published)
    case SwitchWorkspace(workspace) => item == WorkspaceItem(workspace, false) && a.pending.None?
    case SwitchEnvironment(environment) => IsEnvironmentItem(item, environment) && a.pending.None?
    case _ => false
  }

  lemma {:induction false} ItemEffects(a: App, item: PaletteItem, p: Picks, f: Effect)
    ensures f in RunPaletteItem(a, item, p).effects <==> ItemAsks(a, item, p, f)
  {
    hide OpenHelp, Popped;
  }

  lemma {:induction false} PaletteEffects(a: App, e: Input, p: Picks, f: Effect)
    requires Valid(a.focus) && InPalette(a)
    ensures f in Handle(a, e, p).effects <==> Asks(a, e, p, f)
  {
    if p.item.Some? { ItemEffects(a, p.item.value, p, f); }
    hide Valid, CloseOverlay, RunPaletteItem;
  }

  /** An event has exactly the effects it asks for. */
  lemma {:induction false} EffectsExactly(a: App, e: Input, p: Picks, f: Effect)
    requires Valid(a.focus)
    ensures f in Handle(a, e, p).effects <==> Asks(a, e, p, f)
  {
    hide Handle, Asks;
    if a.overlay.HelpOverlay? {
      HelpEffects(a, e, p, f);
    } else if a.overlay.PaletteOverlay? {
      PaletteEffects(a, e, p, f);
    } else if !a.detail.NoDetail? {
      DetailEffects(a, e, p, f);
    } else if e.Mouse? {
      ClickEffects(a, e, p, f);
    } else if a.filter == Some(true) {
      TypingEffects(a, e, p, f);
    } else {
      DashboardEffects(a, e, p, f);
    }
  }

  /** One event has one effect at most, but for `r` in the drill-in of a rule: a refresh, and then its rule. */
  lemma {:induction false} EffectsInOrder(a: App, e: Input, p: Picks)
    requires Valid(a.focus)
    ensures var effects := Handle(a, e, p).effects;
            if InDetail(a) && a.detail.RuleDetail? && IsKey(e, Letter('r'))
            then effects == [Refresh, FetchRule(a.detail.uid)]
            else |effects| <= 1
  {
    hide Moved, FocusedDigit, FocusedOn, OpenPalette, OpenHelp, CloseOverlay, Valid;
  }

  // Overlays

  /** `?` opens the help where no text is being typed, and so does its item in the palette. */
  predicate OpensHelp(a: App, e: Input, p: Picks) {
    ((OnDashboard(a) || InDetail(a)) && IsKey(e, Letter('?'))) || Chooses(a, e, p, ActionHelp)
  }

  predicate LeavesHelp(e: Input) {
    || IsKey(e, Escape) || IsKey(e, Letter('?')) || IsCtrl(e, 'k')
    || (IsPress(e) && e.overlayHit == Outside)
  }

  predicate ChoosesPicker(a: App, e: Input, p: Picks) {
    Chooses(a, e, p, ActionSwitchWorkspace) || Chooses(a, e, p, ActionSwitchEnvironment)
  }

  predicate LeavesPalette(a: App, e: Input, p: Picks)
    requires InPalette(a)
  {
    || IsCtrl(e, 'k') || (IsPress(e) && e.overlayHit == Outside)
    || (IsKey(e, Escape) && a.overlay.query == "" && a.overlay.picker.None?)
    || (p.item.Some? && Chooses(a, e, p, p.item.value) && !ChoosesPicker(a, e, p))
  }

  /** The help is open after an event exactly if the event opened it, or did not leave it. */
  lemma {:induction false} HelpExactly(a: App, e: Input, p: Picks)
    requires Valid(a.focus)
    ensures Handle(a, e, p).app.overlay.HelpOverlay? <==>
              OpensHelp(a, e, p) || (a.overlay.HelpOverlay? && !LeavesHelp(e))
  {
    if a.overlay.NoOverlay? {
      OthersOpenHelp(a, e, p);
      hide Handle;
    } else {
      hide Valid, Pushed, Popped;
    }
  }

  lemma {:induction false} OthersOpenHelp(a: App, e: Input, p: Picks)
    requires Valid(a.focus) && a.overlay.NoOverlay?
    ensures Handle(a, e, p).app.overlay.HelpOverlay? <==> OpensHelp(a, e, p)
  {
    OthersKeepOverlay(a, p);
    hide FocusedOn, Valid, Pushed, Popped, OpenSelected, Moved, FocusedDigit;
    hide ToggleSelected, PublishSelected, WriteDetailRule, OverlayKey, OverlayMouse;
    if e.Mouse? {
      hide DashboardKey, DetailKey, FilterKey;
    } else if !a.detail.NoDetail? {
      hide DashboardKey, FilterKey;
    } else {
      hide DetailKey;
    }
  }

  /** Ctrl-K opens the palette from anywhere else, with nothing typed; an open one stays until it is left. */
  lemma {:induction false} PaletteExactly(a: App, e: Input, p: Picks)
    requires Valid(a.focus)
    ensures var after := Handle(a, e, p).app.overlay;
            && (after.PaletteOverlay? <==> if InPalette(a) then !LeavesPalette(a, e, p) else IsCtrl(e, 'k'))
            && (after.PaletteOverlay? && !InPalette(a) ==> after == PaletteOverlay("", None))
  {
    if InPalette(a) {
      PaletteStays(a, e, p);
      hide Handle;
    } else {
      OthersOpenPalette(a, e, p);
      hide Handle, LeavesPalette;
    }
  }

  lemma {:induction false} OthersOpenPalette(a: App, e: Input, p: Picks)
    requires Valid(a.focus) && !InPalette(a)
    ensures var after := Handle(a, e, p).app.overlay;
            (if IsCtrl(e, 'k') then after == PaletteOverlay("", None) else !after.PaletteOverlay?)
  {
    OthersKeepOverlay(a, p);
    hide FocusedOn, Valid, Pushed, Popped, OpenSelected, Moved, FocusedDigit;
    hide ToggleSelected, PublishSelected, WriteDetailRule, PaletteKey, RunPaletteItem;
    if e.Mouse? || !a.overlay.NoOverlay? {
      hide DashboardKey, DetailKey, FilterKey;
    } else if !a.detail.NoDetail? {
      hide DashboardKey, FilterKey, OverlayKey;
    } else {
      hide DetailKey, OverlayKey;
    }
  }

  lemma {:induction false} PaletteStays(a: App, e: Input, p: Picks)
    requires Valid(a.focus) && InPalette(a)
    ensures Handle(a, e, p).app.overlay.PaletteOverlay? <==> !LeavesPalette(a, e, p)
  {
    hide Valid, Pushed, Popped;
  }

  /** Opening a row and writing a rule leave the overlay alone. */
  lemma {:induction false} OthersKeepOverlay(a: App, p: Picks)
    ensures forall pane, b: App | b.overlay == a.overlay :: OpenSelected(b, pane, p).app.overlay == a.overlay
    ensures ToggleSelected(a, p).app.overlay == a.overlay && PublishSelected(a, p).app.overlay == a.overlay
    ensures forall toggle :: WriteDetailRule(a, toggle, p).app.overlay == a.overlay
  {
  }

  /** What is typed into the palette, and the stage it is in. */
  lemma {:induction false} PaletteTyping(a: App, e: Input, p: Picks)
    requires Valid(a.focus) && InPalette(a) && !LeavesPalette(a, e, p)
    ensures var after := Handle(a, e, p).app.overlay; var query, picker := a.overlay.query, a.overlay.picker;
            && (IsKey(e, Space) ==> after == PaletteOverlay(query + " ", picker))
            && (e.Key? && e.key.Letter? && !e.ctrl && !e.alt ==> after == PaletteOverlay(query + [e.key.c], picker))
            && (IsKey(e, Backspace) && query != "" ==>
                  after == PaletteOverlay(query[..|query| - 1], picker))
            && (IsKey(e, Escape) ==> after == PaletteOverlay("", if query == "" then None else picker))
            && (Chooses(a, e, p, ActionSwitchWorkspace) ==> after == PaletteOverlay("", Some(PickWorkspace)))
            && (Chooses(a, e, p, ActionSwitchEnvironment) ==> after == PaletteOverlay("", Some(PickEnvironment)))
            && (after == a.overlay || IsKey(e, Space) || IsKey(e, Backspace) || IsKey(e, Escape)
                || (e.Key? && e.key.Letter?) || ChoosesPicker(a, e, p))
  {
    hide Valid, Pushed, Popped;
  }

  // Drill-ins and the filter

  lemma {:induction false} ItemTakesAll(a: App, item: PaletteItem, p: Picks)
    ensures var after := RunPaletteItem(a, item, p).app; after.detail == a.detail && after.filter == a.filter
  {
  }

  lemma {:induction false} OverlayTakesAll(a: App, e: Input, p: Picks)
    requires Valid(a.focus) && !a.overlay.NoOverlay?
    ensures Handle(a, e, p).app.detail == a.detail && Handle(a, e, p).app.filter == a.filter
  {
    if p.item.Some? { ItemTakesAll(a, p.item.value, p); }
    hide Valid, Pushed, Popped, RunPaletteItem;
  }

  /** Only the active environment drills in, and never the row for none. */
  predicate DrillsIn(row: EnvironmentRow) { row.active && !row.none }

  function RowDetail(a: App, pane: PaneId, p: Picks): DetailScreen {
    if pane.Rules? && p.rule.Some? then RuleDetail(p.rule.value.uid)
    else if pane.Environments? && p.environment.Some? && DrillsIn(p.environment.value)
    then EnvDetail(p.environment.value.uid)
    else a.detail
  }

  lemma {:induction false} RowOpens(a: App, p: Picks)
    ensures forall pane, b: App | b.detail == a.detail :: OpenSelected(b, pane, p).app.detail == RowDetail(a, pane, p)
  {
  }

  lemma {:induction false} DetailBecomes(a: App, e: Input, p: Picks)
    requires Valid(a.focus) && a.overlay.NoOverlay?
    ensures Handle(a, e, p).app.detail ==
              if Opens(a, e, a.focus.focused) then RowDetail(a, a.focus.focused, p)
              else if InDetail(a) && IsKey(e, Escape) then NoDetail
              else a.detail
  {
    RowOpens(a, p);
    hide OpenSelected, RowDetail, Moved, FocusedDigit, FocusedOn, Valid, Pushed, Popped, OverlayKey, OverlayMouse;
  }

  /** The drill-in of a rule is shown if that rule was opened, or was shown and Esc was not pressed in it. */
  lemma {:induction false} RuleDetailExactly(a: App, e: Input, p: Picks, uid: string)
    requires Valid(a.focus)
    ensures Handle(a, e, p).app.detail == RuleDetail(uid) <==>
              (a.detail == RuleDetail(uid) && !(InDetail(a) && IsKey(e, Escape)))
              || (Opens(a, e, Rules) && p.rule.Some? && p.rule.value.uid == uid)
  {
    if !a.overlay.NoOverlay? {
      OverlayTakesAll(a, e, p);
      hide Handle;
    } else {
      DetailBecomes(a, e, p);
      hide Handle;
    }
  }

  /** The same of an environment that drills in. */
  lemma {:induction false} EnvironmentDetailExactly(a: App, e: Input, p: Picks, uid: string)
    requires Valid(a.focus)
    ensures Handle(a, e, p).app.detail == EnvDetail(uid) <==>
              (a.detail == EnvDetail(uid) && !(InDetail(a) && IsKey(e, Escape)))
              || (Opens(a, e, Environments) && p.environment.Some? && DrillsIn(p.environment.value)
                  && p.environment.value.uid == uid)
  {
    if !a.overlay.NoOverlay? {
      OverlayTakesAll(a, e, p);
      hide Handle;
    } else {
      DetailBecomes(a, e, p);
      hide Handle;
    }
  }

  /** `/` begins a filter; Enter keeps it and stops its typing; Esc drops it; nothing else changes it. */
  lemma {:induction false} FilterExactly(a: App, e: Input, p: Picks)
    requires Valid(a.focus)
    ensures var after := Handle(a, e, p).app.filter;
            && (OnDashboard(a) && IsKey(e, Letter('/')) ==> after == Some(true))
            && (Typing(a) && IsKey(e, Enter) ==> after == Some(false))
            && ((OnDashboard(a) || Typing(a)) && IsKey(e, Escape) ==> after == None)
            && (after == a.filter
                || (OnDashboard(a) && (IsKey(e, Letter('/')) || IsKey(e, Escape)))
                || (Typing(a) && (IsKey(e, Enter) || IsKey(e, Escape))))
  {
    if !a.overlay.NoOverlay? {
      OverlayTakesAll(a, e, p);
      hide Handle;
    } else {
      hide Moved, FocusedDigit, FocusedOn, Valid, Pushed, Popped, OverlayKey, OverlayMouse;
    }
  }

  // The focus

  predicate ClicksPane(a: App, e: Input, pane: PaneId) {
    a.overlay.NoOverlay? && a.detail.NoDetail? && IsPress(e) && !e.paneHit.Nowhere? && e.paneHit.pane == pane
  }

  predicate PressesDigit(a: App, e: Input, digit: int) {
    1 <= digit <= 3 && OnDashboard(a) && IsKey(e, Letter("0123"[digit]))
  }

  /** Tab goes to the next pane and Shift-Tab to the one before; a digit or a click goes to that pane. */
  lemma {:induction false} FocusExactly(a: App, e: Input, p: Picks)
    requires Sound(a)
    ensures var after := Handle(a, e, p).app.focus;
            && after.panes == a.focus.panes
            && (OnDashboard(a) && IsKey(e, Tab) ==>
                  if e.shift then Follows(after.panes, after.focused, a.focus.focused)
                  else Follows(after.panes, a.focus.focused, after.focused))
            && (forall d | 1 <= d <= |a.focus.panes| && PressesDigit(a, e, d) :: after.focused == after.panes[d - 1])
            && (forall pane <- a.focus.panes | ClicksPane(a, e, pane) :: after.focused == pane)
            && (after.focused == a.focus.focused || (OnDashboard(a) && IsKey(e, Tab))
                || (exists d | 1 <= d <= 3 :: PressesDigit(a, e, d)) || exists pane :: ClicksPane(a, e, pane))
  {
    hide Handle;
    if OnDashboard(a) && IsKey(e, Tab) {
      KeysMoveFocus(a, e, p);
      NextIsNeighbour(a.focus);
    } else if OnDashboard(a) && e.Key? && e.key.Letter? && '1' <= e.key.c <= '3' {
      assert PressesDigit(a, e, e.key.c as int - '0' as int);
      KeysMoveFocus(a, e, p);
    } else if e.Mouse? {
      ClickFocuses(a, e, p);
    } else {
      KeepsFocus(a, e, p);
    }
  }

  lemma {:induction false} ClickFocuses(a: App, e: Input, p: Picks)
    requires Sound(a) && e.Mouse?
    ensures var after := Handle(a, e, p).app.focus;
            && after.panes == a.focus.panes
            && (forall pane <- a.focus.panes | ClicksPane(a, e, pane) :: after.focused == pane)
            && (after.focused == a.focus.focused || exists pane :: ClicksPane(a, e, pane))
  {
    if a.overlay.NoOverlay? && a.detail.NoDetail? && IsPress(e) && !e.paneHit.Nowhere? {
      assert ClicksPane(a, e, e.paneHit.pane);
    }
    hide Valid;
  }

  lemma {:induction false} OthersKeepFocus(a: App, p: Picks)
    ensures forall pane :: OpenSelected(a, pane, p).app.focus == a.focus
    ensures ToggleSelected(a, p).app.focus == a.focus && PublishSelected(a, p).app.focus == a.focus
    ensures forall toggle :: WriteDetailRule(a, toggle, p).app.focus == a.focus
  {
  }

  lemma {:induction false} ItemKeepsFocus(a: App, item: PaletteItem, p: Picks)
    ensures var after := RunPaletteItem(a, item, p).app.focus;
            after.panes == a.focus.panes && after.focused == a.focus.focused
  {
  }

  lemma {:induction false} OverlayKeepsFocus(a: App, e: Input, p: Picks)
    requires Valid(a.focus) && e.Key? && !a.overlay.NoOverlay?
    ensures var after := Handle(a, e, p).app.focus;
            after.panes == a.focus.panes && after.focused == a.focus.focused
  {
    if p.item.Some? { ItemKeepsFocus(a, p.item.value, p); }
    hide Valid, RunPaletteItem;
  }

  lemma {:induction false} KeysMoveFocus(a: App, e: Input, p: Picks)
    requires Valid(a.focus) && OnDashboard(a) && e.Key?
    ensures IsKey(e, Tab) ==> Handle(a, e, p).app.focus == Moved(a.focus, if e.shift then -1 else 1)
    ensures e.key.Letter? && '1' <= e.key.c <= '3' ==>
              Handle(a, e, p).app.focus == FocusedDigit(a.focus, e.key.c as int - '0' as int)
  {
    hide Moved, FocusedDigit, Valid, OpenSelected;
  }

  lemma {:induction false} KeepsFocus(a: App, e: Input, p: Picks)
    requires Valid(a.focus) && e.Key?
    requires !(OnDashboard(a) && (IsKey(e, Tab) || (e.key.Letter? && '1' <= e.key.c <= '3')))
    ensures var after := Handle(a, e, p).app.focus;
            after.panes == a.focus.panes && after.focused == a.focus.focused
  {
    if a.overlay.NoOverlay? {
      OthersKeepFocus(a, p);
      hide Valid, Moved, FocusedDigit, OpenSelected, ToggleSelected, PublishSelected, WriteDetailRule, OverlayKey;
    } else {
      OverlayKeepsFocus(a, e, p);
      hide Handle;
    }
  }
}
