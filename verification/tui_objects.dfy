/** The application and runner objects, method by method against `TuiApp` and `TuiRun`. */
module TuiObjects {
  import opened Wrappers
  import opened ScreenLayout
  import opened TuiFocus
  import A = TuiApp
  import R = TuiRun

  class AppObject {
    var phase: A.Phase
    var snapshot: bool
    var overlay: A.Overlay
    var detail: A.DetailScreen
    var filter: Option<bool>
    var pending: Option<A.Pending>
    var refreshing: bool
    const ring: FocusRing

    ghost function Abstract(): A.App
      reads this, ring
    {
      A.App(phase, snapshot, overlay, detail, filter, pending, refreshing, ring.Abstract())
    }

    constructor ()
      ensures Abstract() == A.Start() && fresh(ring)
    {
      phase, snapshot, overlay, detail := A.Connecting, false, A.NoOverlay, A.NoDetail;
      filter, pending, refreshing := None, None, false;
      ring := new FocusRing();
    }

    method OpenHelp()
      modifies this, ring
      ensures Abstract() == A.OpenHelp(old(Abstract()))
    {
      overlay := A.HelpOverlay;
      ring.PushModal(HelpModal);
    }

    method OpenPalette()
      modifies this, ring
      ensures Abstract() == A.OpenPalette(old(Abstract()))
    {
      overlay := A.PaletteOverlay("", None);
      ring.PushModal(PaletteModal);
    }

    method CloseOverlay()
      modifies this, ring
      ensures Abstract() == A.CloseOverlay(old(Abstract()))
    {
      overlay := A.NoOverlay;
      var _ := ring.PopModal();
    }

    method BeginWrite(pane: PaneId, identity: string, effect: A.Effect) returns (effects: seq<A.Effect>)
      modifies this
      ensures A.Handled(Abstract(), effects) == A.BeginWrite(old(Abstract()), pane, identity, effect)
    {
      pending := Some(A.Pending(pane, identity));
      effects := [effect];
    }

    method ToggleSelectedRule(p: A.Picks) returns (effects: seq<A.Effect>)
      modifies this
      ensures A.Handled(Abstract(), effects) == A.ToggleSelected(old(Abstract()), p)
    {
      if pending.Some? || p.rule.None? { return []; }
      var rule := p.rule.value;
      effects := BeginWrite(Rules, rule.identity, A.ToggleRule(rule.uid, !rule.enabled));
    }

    method PublishSelectedRule(p: A.Picks) returns (effects: seq<A.Effect>)
      modifies this
      ensures A.Handled(Abstract(), effects) == A.PublishSelected(old(Abstract()), p)
    {
      if pending.Some? || p.rule.None? { return []; }
      var rule := p.rule.value;
      effects := BeginWrite(Rules, rule.identity, A.PublishRule(rule.uid, !rule.published));
    }

    method WriteDetailRule(toggle: bool, p: A.Picks) returns (effects: seq<A.Effect>)
      modifies this
      ensures A.Handled(Abstract(), effects) == A.WriteDetailRule(old(Abstract()), toggle, p)
    {
      if !detail.RuleDetail? || pending.Some? { return []; }
      if p.detailRule.None? || p.detailRule.value.uid != detail.uid { return []; }
      var row := p.detailRule.value;
      var effect := if toggle then A.ToggleRule(row.uid, !row.enabled) else A.PublishRule(row.uid, !row.published);
      effects := BeginWrite(Rules, row.identity, effect);
    }

    method OpenSelected(pane: PaneId, p: A.Picks) returns (effects: seq<A.Effect>)
      modifies this
      ensures A.Handled(Abstract(), effects) == A.OpenSelected(old(Abstract()), pane, p)
    {
      effects := [];
      if pane == Rules {
        if p.rule.None? { return; }
        detail := A.RuleDetail(p.rule.value.uid);
        return [A.FetchRule(p.rule.value.uid)];
      }
      if pane == Environments {
        if p.environment.None? { return; }
        var env := p.environment.value;
        if !env.active {
          if pending.Some? { return; }
          effects := BeginWrite(pane, env.identity, A.SwitchEnvironment(if env.none then None else Some(env.uid)));
          return;
        }
        if env.none { return; }
        detail := A.EnvDetail(env.uid);
        return;
      }
      if p.workspace.None? || p.workspace.value.active || pending.Some? { return; }
      effects := BeginWrite(pane, p.workspace.value.identity, A.SwitchWorkspace(p.workspace.value.id));
    }

    method EnterPicker(picker: A.Picker)
      modifies this
      ensures Abstract() == A.EnterPicker(old(Abstract()), picker)
    {
      if !overlay.PaletteOverlay? { return; }
      overlay := A.PaletteOverlay("", Some(picker));
    }

    method RunPaletteItem(item: A.PaletteItem, p: A.Picks) returns (effects: seq<A.Effect>)
      modifies this, ring
      ensures A.Handled(Abstract(), effects) == A.RunPaletteItem(old(Abstract()), item, p)
    {
      effects := [];
      match item
      case WorkspaceItem(id, active) =>
        CloseOverlay();
        if active || pending.Some? { return; }
        effects := BeginWrite(Workspaces, id, A.SwitchWorkspace(id));
      case EnvironmentItem(environment, active, identity) =>
        CloseOverlay();
        if active || pending.Some? || identity.None? { return; }
        effects := BeginWrite(Environments, identity.value, A.SwitchEnvironment(environment));
      case ActionSwitchWorkspace => EnterPicker(A.PickWorkspace);
      case ActionSwitchEnvironment => EnterPicker(A.PickEnvironment);
      case ActionToggle =>
        CloseOverlay();
        effects := ToggleSelectedRule(p);
      case ActionPublish =>
        CloseOverlay();
        effects := PublishSelectedRule(p);
      case ActionRefresh =>
        CloseOverlay();
        effects := [A.Refresh];
      case ActionHelp =>
        CloseOverlay();
        OpenHelp();
    }

    method HandleOverlayKey(key: A.Key, ctrl: bool, alt: bool, p: A.Picks) returns (effects: seq<A.Effect>)
      modifies this, ring
      ensures A.Handled(Abstract(), effects) == A.OverlayKey(old(Abstract()), key, ctrl, alt, p)
    {
      hide A.RunPaletteItem;
      effects := [];
      if ctrl && key == A.Letter('c') { return [A.Quit]; }
      if overlay.NoOverlay? { return; }
      if overlay.HelpOverlay? {
        if key == A.Escape || key == A.Letter('?') {
          CloseOverlay();
        } else if ctrl && key == A.Letter('k') {
          CloseOverlay();
          OpenPalette();
        }
        return;
      }
      if ctrl && key == A.Letter('k') {
        CloseOverlay();
        return;
      }
      var query, picker := overlay.query, overlay.picker;
      match key
      case Escape =>
        if query != "" {
          overlay := A.PaletteOverlay("", picker);
        } else if picker.Some? {
          overlay := A.PaletteOverlay(query, None);
        } else {
          CloseOverlay();
        }
      case Enter =>
        if p.item.Some? { effects := RunPaletteItem(p.item.value, p); }
      case Backspace =>
        overlay := A.PaletteOverlay(if query == "" then "" else query[..|query| - 1], picker);
      case Space =>
        overlay := A.PaletteOverlay(query + " ", picker);
      case Letter(c) =>
        if !ctrl && !alt { overlay := A.PaletteOverlay(query + [c], picker); }
      case _ =>
    }

    method HandleDetailKey(key: A.Key, ctrl: bool, p: A.Picks) returns (effects: seq<A.Effect>)
      modifies this, ring
      ensures A.Handled(Abstract(), effects) == A.DetailKey(old(Abstract()), key, ctrl, p)
    {
      effects := [];
      if ctrl && key == A.Letter('c') { return [A.Quit]; }
      if ctrl && key == A.Letter('k') {
        OpenPalette();
        return;
      }
      if key == A.Letter('?') {
        OpenHelp();
        return;
      }
      if key == A.Escape {
        detail := A.NoDetail;
      } else if key == A.Space {
        effects := WriteDetailRule(true, p);
      } else if key == A.Letter('p') {
        effects := WriteDetailRule(false, p);
      } else if key == A.Letter('y') {
        if detail.RuleDetail? { effects := [A.Yank(detail.uid)]; }
      } else if key == A.Letter('r') {
        effects := [A.Refresh];
        if detail.RuleDetail? { effects := effects + [A.FetchRule(detail.uid)]; }
      }
    }

    method HandleFilterEntryKey(key: A.Key, ctrl: bool) returns (effects: seq<A.Effect>)
      modifies this, ring
      ensures A.Handled(Abstract(), effects) == A.FilterKey(old(Abstract()), key, ctrl)
      ensures pending == old(pending) && A.NoWrites(effects)
    {
      effects := [];
      if ctrl && key == A.Letter('c') { return [A.Quit]; }
      if ctrl && key == A.Letter('k') {
        OpenPalette();
      } else if key == A.Escape {
        filter := None;
      } else if key == A.Enter {
        filter := Some(false);
      }
    }

    method HandleDashboardKey(key: A.Key, ctrl: bool, shift: bool, p: A.Picks) returns (effects: seq<A.Effect>)
      requires Valid(Abstract().focus)
      modifies this, ring
      ensures A.Handled(Abstract(), effects) == A.DashboardKey(old(Abstract()), key, ctrl, shift, p)
    {
      hide Moved, FocusedDigit, A.OpenSelected, A.ToggleSelected, A.PublishSelected;
      effects := [];
      if ctrl && key == A.Letter('c') { return [A.Quit]; }
      if ctrl && key == A.Letter('k') {
        OpenPalette();
        return;
      }
      var pane := ring.focused;
      if key == A.Letter('q') {
        effects := [A.Quit];
      } else if key == A.Letter('r') {
        effects := [A.Refresh];
      } else if key == A.Letter('/') {
        filter := Some(true);
      } else if key == A.Escape {
        filter := None;
      } else if key == A.Tab {
        ring.Move(if shift then -1 else 1);
      } else if key.Letter? && '1' <= key.c <= '3' {
        var _ := ring.FocusDigit(key.c as int - '0' as int);
      } else if key == A.Enter {
        effects := OpenSelected(pane, p);
      } else if key == A.Space {
        if pane == Rules { effects := ToggleSelectedRule(p); }
      } else if key == A.Letter('p') {
        if pane == Rules { effects := PublishSelectedRule(p); }
      } else if key == A.Letter('y') {
        if pane == Rules && p.rule.Some? { effects := [A.Yank(p.rule.value.uid)]; }
      } else if key == A.Letter('?') {
        OpenHelp();
      }
    }

    method HandleOverlayMouse(action: A.MouseAction, hit: A.OverlayHit, p: A.Picks) returns (effects: seq<A.Effect>)
      modifies this, ring
      ensures A.Handled(Abstract(), effects) == A.OverlayMouse(old(Abstract()), action, hit, p)
    {
      hide A.RunPaletteItem;
      effects := [];
      if overlay.NoOverlay? || action != A.Press { return; }
      if hit.Outside? {
        CloseOverlay();
      } else if overlay.PaletteOverlay? && hit.OnItem? && hit.selected && p.item.Some? {
        effects := RunPaletteItem(p.item.value, p);
      }
    }

    method HandleDashboardMouse(action: A.MouseAction, hit: A.PaneHit, p: A.Picks) returns (effects: seq<A.Effect>)
      modifies this, ring
      ensures A.Handled(Abstract(), effects) == A.DashboardMouse(old(Abstract()), action, hit, p)
    {
      hide A.OpenSelected, FocusedOn;
      effects := [];
      if action != A.Press || hit.Nowhere? { return; }
      var wasFocused := ring.focused == hit.pane;
      var _ := ring.FocusPane(hit.pane);
      if hit.OnRow? && wasFocused && hit.selected { effects := OpenSelected(hit.pane, p); }
    }

    method HandleEvent(e: A.Input, p: A.Picks) returns (effects: seq<A.Effect>)
      requires Valid(Abstract().focus)
      modifies this, ring
      ensures A.Handled(Abstract(), effects) == A.Handle(old(Abstract()), e, p)
      ensures A.Sound(old(Abstract())) ==> A.SafeStep(old(Abstract()), A.Handled(Abstract(), effects), p)
    {
      if A.Sound(Abstract()) { A.HandleIsSafe(Abstract(), e, p); }
      hide A.OverlayMouse, A.DashboardMouse, A.OverlayKey, A.DetailKey, A.FilterKey, A.DashboardKey;
      effects := [];
      match e
      case Mouse(action, overlayHit, paneHit) =>
        if !overlay.NoOverlay? {
          effects := HandleOverlayMouse(action, overlayHit, p);
        } else if detail.NoDetail? {
          effects := HandleDashboardMouse(action, paneHit, p);
        }
      case Key(key, ctrl, alt, shift) =>
        if !overlay.NoOverlay? {
          effects := HandleOverlayKey(key, ctrl, alt, p);
        } else if !detail.NoDetail? {
          effects := HandleDetailKey(key, ctrl, p);
        } else if filter == Some(true) {
          effects := HandleFilterEntryKey(key, ctrl);
        } else {
          effects := HandleDashboardKey(key, ctrl, shift, p);
        }
    }

    method ApplySnapshot(alive: bool)
      modifies this
      ensures Abstract() == A.SnapshotApplied(old(Abstract()), alive)
    {
      snapshot, phase, refreshing := true, A.Ready, false;
      if detail.EnvDetail? && !alive { detail := A.NoDetail; }
    }

    method ApplyUnreachable()
      modifies this
      ensures Abstract() == A.UnreachableApplied(old(Abstract()))
    {
      refreshing := false;
      phase := if snapshot then A.Degraded else A.Parked;
    }

    method ApplyDenied()
      modifies this
      ensures Abstract() == A.DeniedApplied(old(Abstract()))
    {
      refreshing, phase := false, A.Denied;
    }

    method ApplyToolError()
      modifies this
      ensures Abstract() == A.ToolErrorApplied(old(Abstract()))
    {
      refreshing := false;
    }

    /** Shared by the acks, the refusals and the failures of writes. */
    method ApplyWriteOver()
      modifies this
      ensures Abstract() == A.WriteOver(old(Abstract()))
    {
      pending := None;
    }
  }

  /** The closure variables of the session; what is in flight is known to the ghost world alone. */
  class Runner {
    const app: AppObject
    var pollTimer: bool
    var refreshing: bool
    var closed: bool

    ghost predicate Holds(w: R.World)
      reads this, app, app.ring
    {
      app.Abstract() == w.app && pollTimer == w.timer && refreshing == w.refreshing && closed == w.closed
    }

    constructor (a: AppObject)
      requires a.Abstract() == A.Start()
      modifies a
      ensures app == a && Holds(R.Opened())
    {
      app := a;
      pollTimer, refreshing, closed := false, true, false;
      new;
      app.refreshing := true;
    }

    method SchedulePoll(ghost w: R.World)
      requires Holds(w)
      modifies this
      ensures Holds(R.SchedulePoll(w))
    {
      if closed { return; }
      pollTimer := true;
    }

    /** The part of a refresh up to the request; says whether one goes out. */
    method Refresh(ghost w: R.World) returns (fetches: bool)
      requires Holds(w)
      modifies this, app
      ensures Holds(R.StartRefresh(w)) && (fetches <==> !w.closed && !w.refreshing)
    {
      if closed || refreshing { return false; }
      refreshing := true;
      app.refreshing := true;
      return true;
    }

    method RefreshNow(ghost w: R.World)
      requires Holds(w)
      modifies this, app
      ensures Holds(R.RefreshNow(w)) && !pollTimer && (closed || refreshing)
    {
      pollTimer := false;
      var _ := Refresh(w.(timer := false));
    }

    method Quit(ghost w: R.World)
      requires Holds(w)
      modifies this
      ensures Holds(R.Closed(w))
    {
      closed := true;
      pollTimer := false;
    }

    /** The part of a refresh after the answer. */
    method RefreshDone(f: R.Fetch, ghost w: R.World)
      requires Holds(w) && refreshing
      modifies this, app
      ensures Holds(R.RefreshEnded(w, f)) && !refreshing
      ensures !closed && !f.Refused? ==> pollTimer
    {
      refreshing := false;
      if closed { return; }
      match f
      case Fetched(alive) =>
        app.ApplySnapshot(alive);
        pollTimer := true;
      case Unreachable =>
        app.ApplyUnreachable();
        pollTimer := true;
      case Refused =>
        app.ApplyDenied();
      case ToolFailed =>
        app.ApplyToolError();
        pollTimer := true;
    }

    method RunEffects(effects: seq<A.Effect>, ghost w: R.World, ghost p: A.Picks)
      requires Holds(w)
      modifies this, app
      ensures Holds(R.RunEffects(w, effects, p))
    {
      ghost var t := w;
      assert effects[0..] == effects;
      for i := 0 to |effects|
        invariant Holds(t) && R.RunEffects(t, effects[i..], p) == R.RunEffects(w, effects, p)
      {
        assert effects[i..][0] == effects[i] && effects[i..][1..] == effects[i + 1..];
        if effects[i].Quit? {
          Quit(t);
          return;
        }
        if effects[i].Refresh? { RefreshNow(t); }
        t := R.RunEffect(t, effects[i], p);
      }
    }

    /** One decoded event, through the app and its effects. */
    method Typed(input: A.Input, p: A.Picks, ghost w: R.World)
      requires Holds(w) && R.Enabled(w, R.Typed(input, p))
      modifies this, app, app.ring
      ensures Holds(R.Step(w, R.Typed(input, p)))
      ensures R.Inv(w) ==> R.Inv(R.Step(w, R.Typed(input, p))) && !(pollTimer && refreshing)
    {
      hide A.Handle, R.RunEffects;
      var effects := app.HandleEvent(input, p);
      RunEffects(effects, w.(app := A.Handle(w.app, input, p).app), p);
      if R.Inv(w) { R.StepKeeps(w, R.Typed(input, p)); }
    }

    /** The answer to the `k`-th write in flight. */
    method WriteDone(ghost k: nat, effect: A.Effect, r: R.WriteResult, ghost w: R.World) returns (reloads: bool)
      requires Holds(w) && k < |w.writes| && w.writes[k].write == effect
      modifies this, app
      ensures Holds(R.WriteEnded(w, k, r))
      ensures reloads <==> !w.closed && r.Acked? && R.Reloads(w.app, effect)
    {
      ghost var over := w.(writes := w.writes[..k] + w.writes[k + 1..], app := A.WriteOver(w.app));
      if closed { return false; }
      app.ApplyWriteOver();
      reloads := r.Acked? && (effect.ToggleRule? || effect.PublishRule?) && app.detail == A.RuleDetail(effect.uid);
      if !r.WriteRefused? {
        RefreshNow(if reloads then over.(loads := w.loads + [effect.uid]) else over);
      }
    }
  }
}
