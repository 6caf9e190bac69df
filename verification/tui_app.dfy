/** The terminal application: what every key, click and acknowledgement does to its state. */
module TuiApp {
  import opened Wrappers
  import opened ScreenLayout
  import opened TuiFocus

  datatype Phase = Connecting | Ready | Degraded | Parked | Denied

  datatype Picker = PickWorkspace | PickEnvironment

  datatype Overlay = NoOverlay | HelpOverlay | PaletteOverlay(query: string, picker: Option<Picker>)

  datatype DetailScreen = NoDetail | RuleDetail(uid: string) | EnvDetail(uid: string)

  /** The row a write in flight belongs to. */
  datatype Pending = Pending(pane: PaneId, identity: string)

  datatype App = App(
    phase: Phase,
    // Some snapshot of the daemon has been applied.
    snapshot: bool,
    overlay: Overlay,
    detail: DetailScreen,
    // The filter, and whether its query is being typed.
    filter: Option<bool>,
    pending: Option<Pending>,
    refreshing: bool,
    focus: Focus)

  datatype Effect =
    | Quit | Refresh | FetchRule(uid: string) | Yank(text: string)
    | ToggleRule(uid: string, enabled: bool) | PublishRule(uid: string, published: bool)
    | SwitchWorkspace(workspace: string) | SwitchEnvironment(environment: Option<string>)

  datatype WorkspaceRow = WorkspaceRow(identity: string, id: string, active: bool)

  datatype EnvironmentRow = EnvironmentRow(identity: string, uid: string, none: bool, active: bool)

  datatype RuleRow = RuleRow(identity: string, uid: string, enabled: bool, published: bool)

  datatype PaletteItem =
    | WorkspaceItem(id: string, active: bool)
    // `identity` is that of the row with this environment, if one is still listed.
    | EnvironmentItem(environment: Option<string>, active: bool, identity: Option<string>)
    | ActionSwitchWorkspace | ActionSwitchEnvironment | ActionToggle | ActionPublish | ActionRefresh | ActionHelp

  /** What the cursors, filters and row lists resolve to while one event is handled. */
  datatype Picks = Picks(
    workspace: Option<WorkspaceRow>, environment: Option<EnvironmentRow>, rule: Option<RuleRow>,
    detailRule: Option<RuleRow>, item: Option<PaletteItem>)

  datatype Key =
    | Escape | Enter | Backspace | Space | Tab | Up | Down | PageUp | PageDown | Home | End | Other | Letter(c: char)

  datatype MouseAction = Press | WheelUp | WheelDown | OtherAction

  /** Where a click lands on an open overlay. */
  datatype OverlayHit = Outside | Inside | OnItem(selected: bool)

  /** Where a click lands on the dashboard. */
  datatype PaneHit = Nowhere | OnPane(pane: PaneId) | OnRow(pane: PaneId, selected: bool)

  datatype Input =
    | Key(key: Key, ctrl: bool, alt: bool, shift: bool)
    | Mouse(action: MouseAction, overlayHit: OverlayHit, paneHit: PaneHit)

  datatype Handled = Handled(app: App, effects: seq<Effect>)

  function Start(): App {
    App(Connecting, false, NoOverlay, NoDetail, None, None, false, Initial())
  }

  function Just(a: App): Handled { Handled(a, []) }

  // Overlays

  function OpenHelp(a: App): App { a.(overlay := HelpOverlay, focus := Pushed(a.focus, HelpModal)) }

  function OpenPalette(a: App): App {
    a.(overlay := PaletteOverlay("", None), focus := Pushed(a.focus, PaletteModal))
  }

  function CloseOverlay(a: App): App { a.(overlay := NoOverlay, focus := Popped(a.focus)) }

  // Writes

  function BeginWrite(a: App, pane: PaneId, identity: string, effect: Effect): Handled {
    Handled(a.(pending := Some(Pending(pane, identity))), [effect])
  }

  function ToggleSelected(a: App, p: Picks): Handled {
    if a.pending.Some? || p.rule.None? then Just(a)
    else BeginWrite(a, Rules, p.rule.value.identity, ToggleRule(p.rule.value.uid, !p.rule.value.enabled))
  }

  function PublishSelected(a: App, p: Picks): Handled {
    if a.pending.Some? || p.rule.None? then Just(a)
    else BeginWrite(a, Rules, p.rule.value.identity, PublishRule(p.rule.value.uid, !p.rule.value.published))
  }

  /** From the drill-in of a rule: its flags are those of its row. */
  function WriteDetailRule(a: App, toggle: bool, p: Picks): Handled {
    if !a.detail.RuleDetail? || a.pending.Some? || p.detailRule.None? || p.detailRule.value.uid != a.detail.uid
    then Just(a)
    else
      var row := p.detailRule.value;
      BeginWrite(a, Rules, row.identity,
                 if toggle then ToggleRule(row.uid, !row.enabled) else PublishRule(row.uid, !row.published))
  }

  /** Enter: rules drill in; another environment or workspace is switched to; the active environment drills in. */
  function OpenSelected(a: App, pane: PaneId, p: Picks): Handled {
    match pane
    case Rules =>
      if p.rule.None? then Just(a)
      else Handled(a.(detail := RuleDetail(p.rule.value.uid)), [FetchRule(p.rule.value.uid)])
    case Environments =>
      if p.environment.None? then Just(a)
      else
        var env := p.environment.value;
        if env.active then (if env.none then Just(a) else Just(a.(detail := EnvDetail(env.uid))))
        else if a.pending.Some? then Just(a)
        else BeginWrite(a, pane, env.identity, SwitchEnvironment(if env.none then None else Some(env.uid)))
    case Workspaces =>
      if p.workspace.None? || p.workspace.value.active || a.pending.Some? then Just(a)
      else BeginWrite(a, pane, p.workspace.value.identity, SwitchWorkspace(p.workspace.value.id))
  }

  function EnterPicker(a: App, picker: Picker): App {
    if a.overlay.PaletteOverlay? then a.(overlay := PaletteOverlay("", Some(picker))) else a
  }

  function RunPaletteItem(a: App, item: PaletteItem, p: Picks): Handled {
    match item
    case WorkspaceItem(id, active) =>
      var closed := CloseOverlay(a);
      if active || a.pending.Some? then Just(closed) else BeginWrite(closed, Workspaces, id, SwitchWorkspace(id))
    case EnvironmentItem(environment, active, identity) =>
      var closed := CloseOverlay(a);
      if active || a.pending.Some? || identity.None? then Just(closed)
      else BeginWrite(closed, Environments, identity.value, SwitchEnvironment(environment))
    case ActionSwitchWorkspace => Just(EnterPicker(a, PickWorkspace))
    case ActionSwitchEnvironment => Just(EnterPicker(a, PickEnvironment))
    case ActionToggle => ToggleSelected(CloseOverlay(a), p)
    case ActionPublish => PublishSelected(CloseOverlay(a), p)
    case ActionRefresh => Handled(CloseOverlay(a), [Refresh])
    case ActionHelp => Just(OpenHelp(CloseOverlay(a)))
  }

  // Keys

  function HelpKey(a: App, key: Key, ctrl: bool): Handled {
    if key == Escape || key == Letter('?') then Just(CloseOverlay(a))
    else if ctrl && key == Letter('k') then Just(OpenPalette(CloseOverlay(a)))
    else Just(a)
  }

  function WithQuery(a: App, query: string): App
    requires a.overlay.PaletteOverlay?
  {
    a.(overlay := PaletteOverlay(query, a.overlay.picker))
  }

  function PaletteKey(a: App, key: Key, ctrl: bool, alt: bool, p: Picks): Handled
    requires a.overlay.PaletteOverlay?
  {
    var query := a.overlay.query;
    if ctrl && key == Letter('k') then Just(CloseOverlay(a))
    else
      match key
      case Escape =>
        // Innermost first: the query, then the picker stage, then the palette.
        if query != "" then Just(WithQuery(a, ""))
        else if a.overlay.picker.Some? then Just(a.(overlay := PaletteOverlay("", None)))
        else Just(CloseOverlay(a))
      case Enter => if p.item.None? then Just(a) else RunPaletteItem(a, p.item.value, p)
      case Backspace => Just(WithQuery(a, if query == "" then "" else query[..|query| - 1]))
      case Space => Just(WithQuery(a, query + " "))
      case Letter(c) => if ctrl || alt then Just(a) else Just(WithQuery(a, query + [c]))
      case _ => Just(a)
  }

  function OverlayKey(a: App, key: Key, ctrl: bool, alt: bool, p: Picks): Handled {
    if ctrl && key == Letter('c') then Handled(a, [Quit])
    else if a.overlay.NoOverlay? then Just(a)
    else if a.overlay.HelpOverlay? then HelpKey(a, key, ctrl)
    else PaletteKey(a, key, ctrl, alt, p)
  }

  function DetailKey(a: App, key: Key, ctrl: bool, p: Picks): Handled {
    if ctrl && key == Letter('c') then Handled(a, [Quit])
    else if ctrl && key == Letter('k') then Just(OpenPalette(a))
    else if key == Letter('?') then Just(OpenHelp(a))
    else if key == Escape then Just(a.(detail := NoDetail))
    else if key == Space then WriteDetailRule(a, true, p)
    else if key == Letter('p') then WriteDetailRule(a, false, p)
    else if key == Letter('y') && a.detail.RuleDetail? then Handled(a, [Yank(a.detail.uid)])
    else if key == Letter('r') then
      Handled(a, if a.detail.RuleDetail? then [Refresh, FetchRule(a.detail.uid)] else [Refresh])
    else Just(a)
  }

  function FilterKey(a: App, key: Key, ctrl: bool): Handled {
    if ctrl && key == Letter('c') then Handled(a, [Quit])
    else if ctrl && key == Letter('k') then Just(OpenPalette(a))
    else if key == Escape then Just(a.(filter := None))
    else if key == Enter then Just(a.(filter := Some(false)))
    else Just(a)
  }

  function DashboardKey(a: App, key: Key, ctrl: bool, shift: bool, p: Picks): Handled
    requires Valid(a.focus)
  {
    if ctrl && key == Letter('c') then Handled(a, [Quit])
    else if ctrl && key == Letter('k') then Just(OpenPalette(a))
    else if key == Letter('q') then Handled(a, [Quit])
    else if key == Letter('r') then Handled(a, [Refresh])
    else if key == Letter('/') then Just(a.(filter := Some(true)))
    else if key == Escape then Just(a.(filter := None))
    else if key == Tab then Just(a.(focus := Moved(a.focus, if shift then -1 else 1)))
    else if key.Letter? && '1' <= key.c <= '3' then
      Just(a.(focus := FocusedDigit(a.focus, key.c as int - '0' as int)))
    else if key == Enter then OpenSelected(a, a.focus.focused, p)
    else if key == Space && a.focus.focused == Rules then ToggleSelected(a, p)
    else if key == Letter('p') && a.focus.focused == Rules then PublishSelected(a, p)
    else if key == Letter('y') && a.focus.focused == Rules && p.rule.Some? then Handled(a, [Yank(p.rule.value.uid)])
    else if key == Letter('?') then Just(OpenHelp(a))
    else Just(a)
  }

  // Mouse

  function OverlayMouse(a: App, action: MouseAction, hit: OverlayHit, p: Picks): Handled {
    if a.overlay.NoOverlay? || action != Press then Just(a)
    else if hit.Outside? then Just(CloseOverlay(a))
    else if a.overlay.PaletteOverlay? && hit.OnItem? && hit.selected && p.item.Some?
    then RunPaletteItem(a, p.item.value, p)
    else Just(a)
  }

  function DashboardMouse(a: App, action: MouseAction, hit: PaneHit, p: Picks): Handled {
    if action != Press || hit.Nowhere? then Just(a)
    else
      var focused := a.(focus := FocusedOn(a.focus, hit.pane));
      if hit.OnRow? && a.focus.focused == hit.pane && hit.selected then OpenSelected(focused, hit.pane, p)
      else Just(focused)
  }

  function Handle(a: App, e: Input, p: Picks): Handled
    requires Valid(a.focus)
  {
    match e
    case Mouse(action, overlayHit, paneHit) =>
      if !a.overlay.NoOverlay? then OverlayMouse(a, action, overlayHit, p)
      else if !a.detail.NoDetail? then Just(a)
      else DashboardMouse(a, action, paneHit, p)
    case Key(key, ctrl, alt, shift) =>
      if !a.overlay.NoOverlay? then OverlayKey(a, key, ctrl, alt, p)
      else if !a.detail.NoDetail? then DetailKey(a, key, ctrl, p)
      else if a.filter == Some(true) then FilterKey(a, key, ctrl)
      else DashboardKey(a, key, ctrl, shift, p)
  }

  // What the runner applies

  /** `alive` tells whether the environment of an open drill-in is in the new snapshot. */
  function SnapshotApplied(a: App, alive: bool): App {
    a.(snapshot := true, phase := Ready, refreshing := false,
       detail := if a.detail.EnvDetail? && !alive then NoDetail else a.detail)
  }

  function UnreachableApplied(a: App): App {
    a.(refreshing := false, phase := if a.snapshot then Degraded else Parked)
  }

  function DeniedApplied(a: App): App { a.(refreshing := false, phase := Denied) }

  function ToolErrorApplied(a: App): App { a.(refreshing := false) }

  /** Every way a write ends, taken or not, clears it. */
  function WriteOver(a: App): App { a.(pending := None) }

  // Safety of one event

  predicate IsWrite(e: Effect) {
    e.ToggleRule? || e.PublishRule? || e.SwitchWorkspace? || e.SwitchEnvironment?
  }

  /** The modal stack says exactly which overlay is open, one at most. */
  predicate InStep(a: App) {
    a.focus.modals ==
      if a.overlay.NoOverlay? then [] else if a.overlay.HelpOverlay? then [HelpModal] else [PaletteModal]
  }

  predicate PhaseTellsTruth(a: App) {
    && (a.phase == Parked || a.phase == Connecting ==> !a.snapshot)
    && (a.phase == Ready || a.phase == Degraded ==> a.snapshot)
  }

  ghost predicate Sound(a: App) {
    Valid(a.focus) && InStep(a) && PhaseTellsTruth(a)
  }

  predicate NoWrites(effects: seq<Effect>) {
    forall e <- effects :: !IsWrite(e)
  }

  /** `write` is a write of a row that is picked, the other way round where it is a flag, and `mark` is that row. */
  predicate Marks(p: Picks, mark: Pending, write: Effect) {
    || (p.rule.Some? && MarksRule(p.rule.value, mark, write))
    || (p.detailRule.Some? && MarksRule(p.detailRule.value, mark, write))
    || (p.workspace.Some? && !p.workspace.value.active
        && mark == Pending(Workspaces, p.workspace.value.identity) && write == SwitchWorkspace(p.workspace.value.id))
    || (p.environment.Some? && MarksEnvironment(p.environment.value, mark, write))
    || (p.item.Some? && MarksItem(p.item.value, mark, write))
  }

  predicate MarksRule(row: RuleRow, mark: Pending, write: Effect) {
    && mark == Pending(Rules, row.identity)
    && (write == ToggleRule(row.uid, !row.enabled) || write == PublishRule(row.uid, !row.published))
  }

  predicate MarksEnvironment(row: EnvironmentRow, mark: Pending, write: Effect) {
    && !row.active && mark == Pending(Environments, row.identity)
    && write == SwitchEnvironment(if row.none then None else Some(row.uid))
  }

  predicate MarksItem(item: PaletteItem, mark: Pending, write: Effect) {
    match item
    case WorkspaceItem(id, active) => !active && mark == Pending(Workspaces, id) && write == SwitchWorkspace(id)
    case EnvironmentItem(environment, active, identity) =>
      !active && identity.Some? && mark == Pending(Environments, identity.value)
      && write == SwitchEnvironment(environment)
    case _ => false
  }

  /** Sound again, and what only the runner decides is untouched. */
  ghost predicate Framed(before: App, after: App) {
    && Sound(after)
    && after.phase == before.phase && after.snapshot == before.snapshot && after.refreshing == before.refreshing
  }

  /** No write starts, and the mark of one in flight stays. */
  ghost predicate QuietStep(before: App, h: Handled) {
    Framed(before, h.app) && h.app.pending == before.pending && NoWrites(h.effects)
  }

  /** One write starts where none was in flight, alone, and what is marked is the picked row it writes. */
  ghost predicate WriteStep(before: App, h: Handled, p: Picks) {
    && Framed(before, h.app) && before.pending.None?
    && |h.effects| == 1 && IsWrite(h.effects[0])
    && h.app.pending.Some? && Marks(p, h.app.pending.value, h.effects[0])
  }

  ghost predicate SafeStep(before: App, h: Handled, p: Picks) {
    QuietStep(before, h) || WriteStep(before, h, p)
  }

  lemma {:induction false} NothingIsSafe(a: App, effects: seq<Effect>)
    requires Sound(a) && NoWrites(effects)
    ensures QuietStep(a, Handled(a, effects))
  {
  }

  lemma {:induction false} OpeningIsSafe(a: App)
    requires Sound(a) && a.overlay.NoOverlay?
    ensures QuietStep(a, Just(OpenHelp(a))) && QuietStep(a, Just(OpenPalette(a)))
  {
  }

  lemma {:induction false} ClosingIsSafe(a: App)
    requires Sound(a)
    ensures QuietStep(a, Just(CloseOverlay(a))) && CloseOverlay(a).overlay.NoOverlay?
    ensures CloseOverlay(a).pending == a.pending && Sound(CloseOverlay(a))
  {
  }

  lemma {:induction false} BeginningIsSafe(a: App, pane: PaneId, identity: string, write: Effect, p: Picks)
    requires Sound(a) && a.pending.None? && Marks(p, Pending(pane, identity), write)
    ensures SafeStep(a, BeginWrite(a, pane, identity, write), p)
  {
  }

  const NOTHING := Picks(None, None, None, None, None)

  /** `q` picks nothing that `p` does not. */
  predicate Among(q: Picks, p: Picks) {
    && (q.rule.None? || q.rule == p.rule) && (q.detailRule.None? || q.detailRule == p.detailRule)
    && (q.workspace.None? || q.workspace == p.workspace)
    && (q.environment.None? || q.environment == p.environment) && (q.item.None? || q.item == p.item)
  }

  lemma {:induction false} MorePicksAreSafe(a: App, h: Handled, q: Picks, p: Picks)
    requires SafeStep(a, h, q) && Among(q, p)
    ensures SafeStep(a, h, p)
  {
    hide Framed, MarksRule, MarksEnvironment, MarksItem;
  }

  /** The selected rule is all that its two keys can write, each its own flag. */
  lemma {:induction false} RuleWritesAreSafe(a: App, p: Picks)
    requires Sound(a)
    ensures var only := NOTHING.(rule := p.rule);
            SafeStep(a, ToggleSelected(a, p), only) && SafeStep(a, PublishSelected(a, p), only)
    ensures ToggleSelected(a, p).effects != [] <==> a.pending.None? && p.rule.Some?
    ensures PublishSelected(a, p).effects != [] <==> a.pending.None? && p.rule.Some?
    ensures forall e <- ToggleSelected(a, p).effects :: e.ToggleRule?
    ensures forall e <- PublishSelected(a, p).effects :: e.PublishRule?
  {
    hide QuietStep, WriteStep, Sound;
    NothingIsSafe(a, []);
    if a.pending.None? && p.rule.Some? {
      var rule, only := p.rule.value, NOTHING.(rule := p.rule);
      BeginningIsSafe(a, Rules, rule.identity, ToggleRule(rule.uid, !rule.enabled), only);
      BeginningIsSafe(a, Rules, rule.identity, PublishRule(rule.uid, !rule.published), only);
    }
  }

  /** From a drill-in only the rule shown can be written, the flag asked for. */
  lemma {:induction false} DetailWritesAreSafe(a: App, toggle: bool, p: Picks)
    requires Sound(a)
    ensures SafeStep(a, WriteDetailRule(a, toggle, p), NOTHING.(detailRule := p.detailRule))
    ensures forall e <- WriteDetailRule(a, toggle, p).effects ::
      a.detail.RuleDetail? && (if toggle then e.ToggleRule? else e.PublishRule?) && e.uid == a.detail.uid
  {
    hide QuietStep, WriteStep, Sound;
    NothingIsSafe(a, []);
    if a.pending.None? && p.detailRule.Some? {
      var row, only := p.detailRule.value, NOTHING.(detailRule := p.detailRule);
      BeginningIsSafe(a, Rules, row.identity, ToggleRule(row.uid, !row.enabled), only);
      BeginningIsSafe(a, Rules, row.identity, PublishRule(row.uid, !row.published), only);
    }
  }

  lemma {:induction false} ThenSafe(a: App, b: App, h: Handled, p: Picks)
    requires QuietStep(a, Just(b)) && SafeStep(b, h, p)
    ensures SafeStep(a, h, p)
  {
  }

  lemma {:induction false} FieldIsSafe(a: App, b: App, effects: seq<Effect>)
    requires Sound(a) && NoWrites(effects)
    requires b == a.(filter := b.filter, detail := b.detail)
    ensures QuietStep(a, Handled(b, effects))
  {
  }

  lemma {:induction false} QueryIsSafe(a: App, query: string, picker: Option<Picker>)
    requires Sound(a) && a.overlay.PaletteOverlay?
    ensures QuietStep(a, Just(a.(overlay := PaletteOverlay(query, picker))))
  {
  }

  /** What an item of the palette may write. */
  function PicksOf(item: PaletteItem, p: Picks): Picks {
    if item.ActionToggle? || item.ActionPublish? then NOTHING.(rule := p.rule) else NOTHING.(item := Some(item))
  }

  /** An item starts at most its own write, and whatever has an effect has closed the palette. */
  lemma {:induction false} PaletteItemIsSafe(a: App, item: PaletteItem, p: Picks)
    requires Sound(a) && a.overlay.PaletteOverlay?
    ensures SafeStep(a, RunPaletteItem(a, item, p), PicksOf(item, p))
    ensures RunPaletteItem(a, item, p).effects != [] ==> RunPaletteItem(a, item, p).app.overlay.NoOverlay?
  {
    hide QuietStep, WriteStep, Sound, CloseOverlay, OpenHelp, OpenPalette;
    var closed, only := CloseOverlay(a), PicksOf(item, p);
    ClosingIsSafe(a);
    match item {
      case WorkspaceItem(id, active) =>
        if !active && a.pending.None? {
          BeginningIsSafe(closed, Workspaces, id, SwitchWorkspace(id), only);
          ThenSafe(a, closed, RunPaletteItem(a, item, p), only);
        }
      case EnvironmentItem(environment, active, identity) =>
        if !active && a.pending.None? && identity.Some? {
          BeginningIsSafe(closed, Environments, identity.value, SwitchEnvironment(environment), only);
          ThenSafe(a, closed, RunPaletteItem(a, item, p), only);
        }
      case ActionSwitchWorkspace => QueryIsSafe(a, "", Some(PickWorkspace));
      case ActionSwitchEnvironment => QueryIsSafe(a, "", Some(PickEnvironment));
      case ActionToggle =>
        RuleWritesAreSafe(closed, p);
        ThenSafe(a, closed, ToggleSelected(closed, p), only);
      case ActionPublish =>
        RuleWritesAreSafe(closed, p);
        ThenSafe(a, closed, PublishSelected(closed, p), only);
      case ActionRefresh =>
        NothingIsSafe(closed, [Refresh]);
        ThenSafe(a, closed, Handled(closed, [Refresh]), only);
      case ActionHelp =>
        OpeningIsSafe(closed);
        ThenSafe(a, closed, Just(OpenHelp(closed)), only);
    }
  }

  /** What Enter may write in a pane: nothing in the rules, else the row selected there. */
  function PicksIn(pane: PaneId, p: Picks): Picks {
    match pane
    case Rules => NOTHING
    case Environments => NOTHING.(environment := p.environment)
    case Workspaces => NOTHING.(workspace := p.workspace)
  }

  lemma {:induction false} OpenSelectedIsSafe(a: App, pane: PaneId, p: Picks)
    requires Sound(a)
    ensures SafeStep(a, OpenSelected(a, pane, p), PicksIn(pane, p))
    ensures pane.Environments? ==> (OpenSelected(a, pane, p).effects != [] <==>
                                      a.pending.None? && p.environment.Some? && !p.environment.value.active)
    ensures pane.Workspaces? ==> (OpenSelected(a, pane, p).effects != [] <==>
                                    a.pending.None? && p.workspace.Some? && !p.workspace.value.active)
  {
    hide QuietStep, WriteStep, Sound;
    var only := PicksIn(pane, p);
    NothingIsSafe(a, []);
    match pane {
      case Rules =>
        if p.rule.Some? {
          FieldIsSafe(a, a.(detail := RuleDetail(p.rule.value.uid)), [FetchRule(p.rule.value.uid)]);
        }
      case Environments =>
        if p.environment.Some? {
          var env := p.environment.value;
          FieldIsSafe(a, a.(detail := EnvDetail(env.uid)), []);
          if !env.active && a.pending.None? {
            BeginningIsSafe(a, pane, env.identity, SwitchEnvironment(if env.none then None else Some(env.uid)), only);
          }
        }
      case Workspaces =>
        if p.workspace.Some? && !p.workspace.value.active && a.pending.None? {
          BeginningIsSafe(a, pane, p.workspace.value.identity, SwitchWorkspace(p.workspace.value.id), only);
        }
    }
  }

  lemma {:induction false} PaletteKeyIsSafe(a: App, key: Key, ctrl: bool, alt: bool, p: Picks)
    requires Sound(a) && a.overlay.PaletteOverlay?
    ensures SafeStep(a, PaletteKey(a, key, ctrl, alt, p), p)
  {
    hide RunPaletteItem, CloseOverlay, QuietStep, WriteStep, Sound;
    var query, picker := a.overlay.query, a.overlay.picker;
    NothingIsSafe(a, []);
    ClosingIsSafe(a);
    QueryIsSafe(a, "", picker);
    QueryIsSafe(a, "", None);
    if query != "" { QueryIsSafe(a, query[..|query| - 1], picker); }
    QueryIsSafe(a, query + " ", picker);
    if key.Letter? { QueryIsSafe(a, query + [key.c], picker); }
    if p.item.Some? { ItemIsSafe(a, p); }
  }

  lemma {:induction false} ItemIsSafe(a: App, p: Picks)
    requires Sound(a) && a.overlay.PaletteOverlay? && p.item.Some?
    ensures SafeStep(a, RunPaletteItem(a, p.item.value, p), p)
  {
    hide RunPaletteItem, SafeStep, Sound;
    PaletteItemIsSafe(a, p.item.value, p);
    MorePicksAreSafe(a, RunPaletteItem(a, p.item.value, p), PicksOf(p.item.value, p), p);
  }

  lemma {:induction false} OverlayKeyIsSafe(a: App, key: Key, ctrl: bool, alt: bool, p: Picks)
    requires Sound(a) && !a.overlay.NoOverlay?
    ensures SafeStep(a, OverlayKey(a, key, ctrl, alt, p), p)
  {
    hide PaletteKey, CloseOverlay, QuietStep, WriteStep, OpenPalette, OpenHelp, Sound;
    NothingIsSafe(a, []);
    NothingIsSafe(a, [Quit]);
    ClosingIsSafe(a);
    OpeningIsSafe(CloseOverlay(a));
    ThenSafe(a, CloseOverlay(a), Just(OpenPalette(CloseOverlay(a))), p);
    if a.overlay.PaletteOverlay? { PaletteKeyIsSafe(a, key, ctrl, alt, p); }
  }

  lemma {:induction false} OverlayMouseIsSafe(a: App, action: MouseAction, hit: OverlayHit, p: Picks)
    requires Sound(a)
    ensures SafeStep(a, OverlayMouse(a, action, hit, p), p)
  {
    hide RunPaletteItem, CloseOverlay, QuietStep, WriteStep, Sound;
    NothingIsSafe(a, []);
    ClosingIsSafe(a);
    if a.overlay.PaletteOverlay? && p.item.Some? { ItemIsSafe(a, p); }
  }

  lemma {:induction false} DetailIsSafe(a: App, key: Key, ctrl: bool, p: Picks)
    requires Sound(a) && a.overlay.NoOverlay?
    ensures SafeStep(a, DetailKey(a, key, ctrl, p), p)
  {
    hide QuietStep, WriteStep, OpenHelp, OpenPalette, WriteDetailRule, Sound;
    NothingIsSafe(a, []);
    NothingIsSafe(a, [Quit]);
    NothingIsSafe(a, [Refresh]);
    OpeningIsSafe(a);
    FieldIsSafe(a, a.(detail := NoDetail), []);
    forall toggle: bool ensures SafeStep(a, WriteDetailRule(a, toggle, p), p) {
      DetailWritesAreSafe(a, toggle, p);
      MorePicksAreSafe(a, WriteDetailRule(a, toggle, p), NOTHING.(detailRule := p.detailRule), p);
    }
    if a.detail.RuleDetail? {
      NothingIsSafe(a, [Yank(a.detail.uid)]);
      NothingIsSafe(a, [Refresh, FetchRule(a.detail.uid)]);
    }
  }

  /** While the filter is typed no key starts a write, and only Ctrl-C has an effect at all. */
  lemma {:induction false} FilterIsInert(a: App, key: Key, ctrl: bool)
    requires Sound(a) && a.overlay.NoOverlay?
    ensures QuietStep(a, FilterKey(a, key, ctrl))
    ensures FilterKey(a, key, ctrl).effects != [] <==> ctrl && key == Letter('c')
  {
    hide QuietStep, WriteStep, OpenPalette, Sound;
    NothingIsSafe(a, []);
    NothingIsSafe(a, [Quit]);
    OpeningIsSafe(a);
    FieldIsSafe(a, a.(filter := None), []);
    FieldIsSafe(a, a.(filter := Some(false)), []);
  }

  lemma {:induction false} MovementIsSafe(a: App, f: Focus)
    requires Sound(a) && Valid(f) && f.modals == a.focus.modals
    ensures QuietStep(a, Just(a.(focus := f))) && a.(focus := f).pending == a.pending
  {
  }

  lemma {:induction false} DigitStays(f: Focus, digit: int)
    requires Valid(f)
    ensures Valid(FocusedDigit(f, digit)) && FocusedDigit(f, digit).modals == f.modals
  {
    if 1 <= digit <= |f.panes| { assert f.panes[digit - 1] in f.panes; }
  }

  /** The keys of the dashboard that can write. */
  predicate WritingKey(key: Key) { key.Enter? || key.Space? || key == Letter('p') }

  lemma {:induction false} WritingKeysAreSafe(a: App, key: Key, ctrl: bool, shift: bool, p: Picks)
    requires Sound(a) && a.overlay.NoOverlay? && WritingKey(key)
    ensures SafeStep(a, DashboardKey(a, key, ctrl, shift, p), p)
  {
    StayingIsSafe(a, p);
    hide SafeStep, Sound, OpenHelp, OpenPalette, ToggleSelected, PublishSelected, OpenSelected, Moved, FocusedDigit;
    var pane := a.focus.focused;
    RuleWritesAreSafe(a, p);
    OpenSelectedIsSafe(a, pane, p);
    MorePicksAreSafe(a, ToggleSelected(a, p), NOTHING.(rule := p.rule), p);
    MorePicksAreSafe(a, PublishSelected(a, p), NOTHING.(rule := p.rule), p);
    MorePicksAreSafe(a, OpenSelected(a, pane, p), PicksIn(pane, p), p);
  }

  lemma {:induction false} StayingIsSafe(a: App, p: Picks)
    requires Sound(a)
    ensures Valid(a.focus) && SafeStep(a, Just(a), p)
  {
    NothingIsSafe(a, []);
  }

  lemma {:induction false} OtherKeysAreQuiet(a: App, key: Key, ctrl: bool, shift: bool, p: Picks)
    requires Sound(a) && a.overlay.NoOverlay? && !WritingKey(key)
    ensures QuietStep(a, DashboardKey(a, key, ctrl, shift, p))
  {
    hide QuietStep, Sound, OpenHelp, OpenPalette, ToggleSelected, PublishSelected, OpenSelected, Moved, FocusedDigit;
    NothingIsSafe(a, []);
    NothingIsSafe(a, [Quit]);
    NothingIsSafe(a, [Refresh]);
    OpeningIsSafe(a);
    FieldIsSafe(a, a.(filter := Some(true)), []);
    FieldIsSafe(a, a.(filter := None), []);
    MovementsAreSafe(a, if shift then -1 else 1, if key.Letter? then key.c as int - '0' as int else 0);
    if p.rule.Some? { NothingIsSafe(a, [Yank(p.rule.value.uid)]); }
  }

  lemma {:induction false} DashboardIsSafe(a: App, key: Key, ctrl: bool, shift: bool, p: Picks)
    requires Sound(a) && a.overlay.NoOverlay?
    ensures SafeStep(a, DashboardKey(a, key, ctrl, shift, p), p)
  {
    hide QuietStep, WriteStep, Sound, DashboardKey;
    SoundIsValid(a);
    if WritingKey(key) {
      WritingKeysAreSafe(a, key, ctrl, shift, p);
    } else {
      OtherKeysAreQuiet(a, key, ctrl, shift, p);
    }
  }

  lemma {:induction false} SoundIsValid(a: App)
    requires Sound(a)
    ensures Valid(a.focus)
  {
  }

  lemma {:induction false} MovementsAreSafe(a: App, step: int, digit: int)
    requires Sound(a) && -1 <= step <= 1
    ensures Valid(a.focus)
    ensures QuietStep(a, Just(a.(focus := Moved(a.focus, step))))
    ensures QuietStep(a, Just(a.(focus := FocusedDigit(a.focus, digit))))
  {
    MovedStays(a.focus, step);
    DigitStays(a.focus, digit);
    hide QuietStep, WriteStep, Moved, FocusedDigit;
    MovementIsSafe(a, Moved(a.focus, step));
    MovementIsSafe(a, FocusedDigit(a.focus, digit));
  }

  lemma {:induction false} MovedStays(f: Focus, step: int)
    requires Valid(f) && -1 <= step <= 1
    ensures Valid(Moved(f, step)) && Moved(f, step).modals == f.modals
  {
    if f.modals == [] {
      MovedTo(f, step);
      hide Moved;
    }
  }

  lemma {:induction false} DashboardMouseIsSafe(a: App, action: MouseAction, hit: PaneHit, p: Picks)
    requires Sound(a)
    ensures SafeStep(a, DashboardMouse(a, action, hit, p), p)
  {
    NothingIsSafe(a, []);
    if !hit.Nowhere? {
      var focused := a.(focus := FocusedOn(a.focus, hit.pane));
      MovementIsSafe(a, focused.focus);
      assert Sound(focused);
      OpenSelectedIsSafe(focused, hit.pane, p);
      hide QuietStep, WriteStep, OpenSelected, Sound;
      MorePicksAreSafe(focused, OpenSelected(focused, hit.pane, p), PicksIn(hit.pane, p), p);
      ThenSafe(a, focused, OpenSelected(focused, hit.pane, p), p);
    }
  }

  /**
   * Whatever the event, the overlay and the modal stack stay in step, and a write starts only where none was in
   * flight, alone, and for the very row whose identity is marked.
   */
  lemma {:induction false} HandleIsSafe(a: App, e: Input, p: Picks)
    requires Sound(a)
    ensures SafeStep(a, Handle(a, e, p), p)
  {
    hide QuietStep, WriteStep, OverlayKey, OverlayMouse, DetailKey, DashboardKey, DashboardMouse, FilterKey;
    NothingIsSafe(a, []);
    if e.Mouse? {
      OverlayMouseIsSafe(a, e.action, e.overlayHit, p);
      DashboardMouseIsSafe(a, e.action, e.paneHit, p);
    } else if !a.overlay.NoOverlay? {
      OverlayKeyIsSafe(a, e.key, e.ctrl, e.alt, p);
    } else {
      DetailIsSafe(a, e.key, e.ctrl, p);
      FilterIsInert(a, e.key, e.ctrl);
      DashboardIsSafe(a, e.key, e.ctrl, e.shift, p);
    }
  }

  // What an outstanding write blocks

  function Busy(a: App, m: Pending): App { a.(pending := Some(m)) }

  /** `busy` is what `free` is, except that no write starts and the mark is `m`. */
  predicate BlocksOnlyWrites(free: Handled, busy: Handled, m: Pending) {
    busy == Handled(Busy(free.app, m), if NoWrites(free.effects) then free.effects else [])
  }

  lemma {:induction false} QuietIsTheSame(free: App, effects: seq<Effect>, m: Pending)
    requires NoWrites(effects)
    ensures BlocksOnlyWrites(Handled(free, effects), Handled(Busy(free, m), effects), m)
  {
  }

  lemma {:induction false} WriteIsBlocked(free: App, write: Effect, m: Pending)
    requires IsWrite(write)
    ensures BlocksOnlyWrites(Handled(free, [write]), Just(Busy(free, m)), m)
  {
    assert write in [write];
  }

  lemma {:induction false} RuleWritesAreBlocked(a: App, p: Picks, m: Pending)
    requires a.pending.None?
    ensures BlocksOnlyWrites(ToggleSelected(a, p), ToggleSelected(Busy(a, m), p), m)
    ensures BlocksOnlyWrites(PublishSelected(a, p), PublishSelected(Busy(a, m), p), m)
  {
    if p.rule.Some? {
      WriteIsBlocked(ToggleSelected(a, p).app, ToggleSelected(a, p).effects[0], m);
      WriteIsBlocked(PublishSelected(a, p).app, PublishSelected(a, p).effects[0], m);
    }
  }

  lemma {:induction false} DetailWritesAreBlocked(a: App, toggle: bool, p: Picks, m: Pending)
    requires a.pending.None?
    ensures BlocksOnlyWrites(WriteDetailRule(a, toggle, p), WriteDetailRule(Busy(a, m), toggle, p), m)
  {
    var h := WriteDetailRule(a, toggle, p);
    if h.effects != [] { WriteIsBlocked(h.app, h.effects[0], m); }
  }

  lemma {:induction false} SwitchesAreBlocked(a: App, pane: PaneId, p: Picks, m: Pending)
    requires a.pending.None?
    ensures BlocksOnlyWrites(OpenSelected(a, pane, p), OpenSelected(Busy(a, m), pane, p), m)
  {
    var h := OpenSelected(a, pane, p);
    if h.effects != [] && !pane.Rules? { WriteIsBlocked(h.app, h.effects[0], m); }
  }

  lemma {:induction false} ItemsAreBlocked(a: App, item: PaletteItem, p: Picks, m: Pending)
    requires a.pending.None?
    ensures BlocksOnlyWrites(RunPaletteItem(a, item, p), RunPaletteItem(Busy(a, m), item, p), m)
  {
    hide ToggleSelected, PublishSelected, BlocksOnlyWrites;
    RuleWritesAreBlocked(CloseOverlay(a), p, m);
    assert Busy(CloseOverlay(a), m) == CloseOverlay(Busy(a, m));
    var h := RunPaletteItem(a, item, p);
    if (item.WorkspaceItem? || item.EnvironmentItem?) && h.effects != [] {
      WriteIsBlocked(h.app, h.effects[0], m);
    } else if !item.ActionToggle? && !item.ActionPublish? {
      QuietIsTheSame(h.app, h.effects, m);
    }
  }

  lemma {:induction false} HelpIsTheSame(a: App, key: Key, ctrl: bool, m: Pending)
    ensures BlocksOnlyWrites(HelpKey(a, key, ctrl), HelpKey(Busy(a, m), key, ctrl), m)
  {
    hide BlocksOnlyWrites;
    QuietIsTheSame(HelpKey(a, key, ctrl).app, [], m);
  }

  lemma {:induction false} PaletteIsBlocked(a: App, key: Key, ctrl: bool, alt: bool, p: Picks, m: Pending)
    requires a.pending.None? && a.overlay.PaletteOverlay?
    ensures BlocksOnlyWrites(PaletteKey(a, key, ctrl, alt, p), PaletteKey(Busy(a, m), key, ctrl, alt, p), m)
  {
    if key.Enter? && p.item.Some? { ItemsAreBlocked(a, p.item.value, p, m); }
    hide RunPaletteItem, BlocksOnlyWrites;
    QuietIsTheSame(PaletteKey(a, key, ctrl, alt, p).app, [], m);
  }

  lemma {:induction false} OverlayIsBlocked(a: App, key: Key, ctrl: bool, alt: bool, p: Picks, m: Pending)
    requires a.pending.None?
    ensures BlocksOnlyWrites(OverlayKey(a, key, ctrl, alt, p), OverlayKey(Busy(a, m), key, ctrl, alt, p), m)
  {
    hide HelpKey, PaletteKey, BlocksOnlyWrites;
    QuietIsTheSame(a, [Quit], m);
    QuietIsTheSame(a, [], m);
    HelpIsTheSame(a, key, ctrl, m);
    if a.overlay.PaletteOverlay? { PaletteIsBlocked(a, key, ctrl, alt, p, m); }
  }

  lemma {:induction false} OverlayClicksAreBlocked(a: App, action: MouseAction, hit: OverlayHit, p: Picks, m: Pending)
    requires a.pending.None?
    ensures BlocksOnlyWrites(OverlayMouse(a, action, hit, p), OverlayMouse(Busy(a, m), action, hit, p), m)
  {
    hide RunPaletteItem, BlocksOnlyWrites;
    QuietIsTheSame(a, [], m);
    QuietIsTheSame(CloseOverlay(a), [], m);
    if p.item.Some? { ItemsAreBlocked(a, p.item.value, p, m); }
  }

  lemma {:induction false} DetailIsBlocked(a: App, key: Key, ctrl: bool, p: Picks, m: Pending)
    requires a.pending.None?
    ensures BlocksOnlyWrites(DetailKey(a, key, ctrl, p), DetailKey(Busy(a, m), key, ctrl, p), m)
  {
    hide WriteDetailRule, BlocksOnlyWrites;
    var h := DetailKey(a, key, ctrl, p);
    if NoWrites(h.effects) { QuietIsTheSame(h.app, h.effects, m); }
    DetailWritesAreBlocked(a, true, p, m);
    DetailWritesAreBlocked(a, false, p, m);
  }

  lemma {:induction false} WritingKeysAreBlocked(a: App, key: Key, ctrl: bool, shift: bool, p: Picks, m: Pending)
    requires a.pending.None? && Valid(a.focus) && WritingKey(key)
    ensures BlocksOnlyWrites(DashboardKey(a, key, ctrl, shift, p), DashboardKey(Busy(a, m), key, ctrl, shift, p), m)
  {
    hide ToggleSelected, PublishSelected, OpenSelected, Moved, FocusedDigit, BlocksOnlyWrites, OpenHelp, OpenPalette;
    QuietIsTheSame(a, [], m);
    RuleWritesAreBlocked(a, p, m);
    SwitchesAreBlocked(a, a.focus.focused, p, m);
  }

  lemma {:induction false} QuietKeysAreTheSame(a: App, key: Key, ctrl: bool, shift: bool, p: Picks, m: Pending)
    requires a.pending.None? && Valid(a.focus) && !WritingKey(key)
    ensures BlocksOnlyWrites(DashboardKey(a, key, ctrl, shift, p), DashboardKey(Busy(a, m), key, ctrl, shift, p), m)
  {
    hide ToggleSelected, PublishSelected, OpenSelected, Moved, FocusedDigit, BlocksOnlyWrites;
    var h := DashboardKey(a, key, ctrl, shift, p);
    QuietIsTheSame(h.app, h.effects, m);
  }

  lemma {:induction false} DashboardIsBlocked(a: App, key: Key, ctrl: bool, shift: bool, p: Picks, m: Pending)
    requires a.pending.None? && Valid(a.focus)
    ensures BlocksOnlyWrites(DashboardKey(a, key, ctrl, shift, p), DashboardKey(Busy(a, m), key, ctrl, shift, p), m)
  {
    hide DashboardKey, BlocksOnlyWrites;
    if WritingKey(key) {
      WritingKeysAreBlocked(a, key, ctrl, shift, p, m);
    } else {
      QuietKeysAreTheSame(a, key, ctrl, shift, p, m);
    }
  }

  lemma {:induction false} ClicksAreBlocked(a: App, action: MouseAction, hit: PaneHit, p: Picks, m: Pending)
    requires a.pending.None?
    ensures BlocksOnlyWrites(DashboardMouse(a, action, hit, p), DashboardMouse(Busy(a, m), action, hit, p), m)
  {
    hide OpenSelected, BlocksOnlyWrites;
    var h := DashboardMouse(a, action, hit, p);
    if NoWrites(h.effects) { QuietIsTheSame(h.app, h.effects, m); }
    if !hit.Nowhere? { SwitchesAreBlocked(a.(focus := FocusedOn(a.focus, hit.pane)), hit.pane, p, m); }
  }

  /** An outstanding write keeps other writes from starting, and has no other influence on any key or click. */
  lemma {:induction false} OutstandingBlocksOnlyWrites(a: App, e: Input, p: Picks, m: Pending)
    requires a.pending.None? && Valid(a.focus)
    ensures BlocksOnlyWrites(Handle(a, e, p), Handle(Busy(a, m), e, p), m)
  {
    hide OverlayKey, OverlayMouse, DetailKey, DashboardKey, DashboardMouse, BlocksOnlyWrites;
    QuietIsTheSame(a, [], m);
    match e {
      case Mouse(action, overlayHit, paneHit) =>
        OverlayClicksAreBlocked(a, action, overlayHit, p, m);
        ClicksAreBlocked(a, action, paneHit, p, m);
      case Key(key, ctrl, alt, shift) =>
        OverlayIsBlocked(a, key, ctrl, alt, p, m);
        DetailIsBlocked(a, key, ctrl, p, m);
        DashboardIsBlocked(a, key, ctrl, shift, p, m);
        QuietIsTheSame(FilterKey(a, key, ctrl).app, FilterKey(a, key, ctrl).effects, m);
    }
  }

  // Ways out

  /** Closing undoes opening, and leaves whatever was underneath. */
  lemma {:induction false} ClosingUndoesOpening(a: App)
    requires a.overlay.NoOverlay?
    ensures CloseOverlay(OpenHelp(a)) == a && CloseOverlay(OpenPalette(a)) == a
  {
    assert (a.focus.modals + [HelpModal])[..|a.focus.modals|] == a.focus.modals;
    assert (a.focus.modals + [PaletteModal])[..|a.focus.modals|] == a.focus.modals;
  }

  /** The layers Escape still has to take off an overlay. */
  function Layers(a: App): nat {
    match a.overlay
    case NoOverlay => 0
    case HelpOverlay => 1
    case PaletteOverlay(query, picker) => 1 + (if query != "" then 1 else 0) + (if picker.Some? then 1 else 0)
  }

  /** Escape takes off exactly the innermost layer, at most three in all, and touches nothing below the overlay. */
  lemma {:induction false} EscapeTakesOneLayer(a: App, p: Picks)
    requires Sound(a) && !a.overlay.NoOverlay?
    ensures var h := Handle(a, Key(Escape, false, false, false), p);
            && Layers(h.app) == Layers(a) - 1 <= 2 && h.effects == []
            && h.app == a.(overlay := h.app.overlay, focus := h.app.focus)
            && h.app.focus.focused == a.focus.focused
            && (Layers(h.app) == 0 ==> h.app.focus.modals == [])
  {
  }
}
