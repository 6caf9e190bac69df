/** The terminal session: input, refreshes, writes and loads interleaved in any order. */
module TuiRun {
  import opened Wrappers
  import opened TuiFocus
  import opened TuiApp

  /** A write that has not been answered, the mark the app set when it started, and what was picked then. */
  datatype InFlight = InFlight(write: Effect, mark: Option<Pending>, picks: Picks)

  datatype World = World(
    app: App,
    // A snapshot fetch is in flight.
    refreshing: bool,
    // The poll timer is armed.
    timer: bool,
    closed: bool,
    // The last refresh was refused by policy, and none has started since.
    denied: bool,
    writes: seq<InFlight>,
    loads: seq<string>)

  function StartRefresh(w: World): World {
    if w.closed || w.refreshing then w
    else w.(refreshing := true, denied := false, app := w.app.(refreshing := true))
  }

  function RefreshNow(w: World): World { StartRefresh(w.(timer := false)) }

  function SchedulePoll(w: World): World { if w.closed then w else w.(timer := true) }

  function Closed(w: World): World { w.(closed := true, timer := false) }

  function RunEffect(w: World, e: Effect, p: Picks): World {
    match e
    case Quit => Closed(w)
    case Refresh => RefreshNow(w)
    case FetchRule(uid) => w.(loads := w.loads + [uid])
    case Yank(_) => w
    case _ => w.(writes := w.writes + [InFlight(e, w.app.pending, p)])
  }

  /** In order, and nothing after a quit. */
  function RunEffects(w: World, effects: seq<Effect>, p: Picks): World
    decreases |effects|
  {
    if effects == [] then w
    else if effects[0].Quit? then Closed(w)
    else RunEffects(RunEffect(w, effects[0], p), effects[1..], p)
  }

  datatype Fetch = Fetched(alive: bool) | Unreachable | Refused | ToolFailed

  datatype WriteResult = Acked | WriteRefused | WriteFailed

  datatype Event =
    | Typed(input: Input, picks: Picks)
    | PollFires
    | RefreshDone(fetch: Fetch)
    | WriteDone(index: nat, result: WriteResult)
    | LoadDone(load: nat, ok: bool)

  predicate Enabled(w: World, e: Event) {
    match e
    case Typed(_, _) => !w.closed && Valid(w.app.focus)
    case PollFires => w.timer
    case RefreshDone(_) => w.refreshing
    case WriteDone(k, _) => k < |w.writes|
    case LoadDone(k, _) => k < |w.loads|
  }

  function RefreshEnded(w: World, f: Fetch): World {
    var over := w.(refreshing := false);
    if w.closed then over
    else
      match f
      case Fetched(alive) => SchedulePoll(over.(app := SnapshotApplied(w.app, alive)))
      case Unreachable => SchedulePoll(over.(app := UnreachableApplied(w.app)))
      case Refused => over.(app := DeniedApplied(w.app), denied := true)
      case ToolFailed => SchedulePoll(over.(app := ToolErrorApplied(w.app)))
  }

  /** The drill-in a rule write has to pull again. */
  predicate Reloads(app: App, write: Effect) {
    (write.ToggleRule? || write.PublishRule?) && app.detail == RuleDetail(write.uid)
  }

  function WriteEnded(w: World, k: nat, r: WriteResult): World
    requires k < |w.writes|
  {
    var over := w.(writes := w.writes[..k] + w.writes[k + 1..]);
    if w.closed then over
    else
      var cleared := over.(app := WriteOver(w.app));
      if r.WriteRefused? then cleared
      else
        RefreshNow(
          if r.Acked? && Reloads(w.app, w.writes[k].write) then cleared.(loads := w.loads + [w.writes[k].write.uid])
          else cleared)
  }

  function LoadEnded(w: World, k: nat, ok: bool): World
    requires k < |w.loads|
  {
    var over := w.(loads := w.loads[..k] + w.loads[k + 1..]);
    if w.closed || ok then over
    else
      var app := ToolErrorApplied(w.app);
      over.(app := if app.detail == RuleDetail(w.loads[k]) then app.(detail := NoDetail) else app)
  }

  function Step(w: World, e: Event): World
    requires Enabled(w, e)
  {
    match e
    case Typed(input, picks) =>
      var h := Handle(w.app, input, picks);
      RunEffects(w.(app := h.app), h.effects, picks)
    case PollFires => StartRefresh(w.(timer := false))
    case RefreshDone(f) => RefreshEnded(w, f)
    case WriteDone(k, r) => WriteEnded(w, k, r)
    case LoadDone(k, ok) => LoadEnded(w, k, ok)
  }

  ghost predicate Runs(w: World, events: seq<Event>)
    decreases |events|
  {
    events == [] || (Enabled(w, events[0]) && Runs(Step(w, events[0]), events[1..]))
  }

  function After(w: World, events: seq<Event>): World
    requires Runs(w, events)
    decreases |events|
  {
    if events == [] then w else After(Step(w, events[0]), events[1..])
  }

  /** A session begins with a refresh. */
  function Opened(): World { StartRefresh(World(Start(), false, false, false, false, [], [])) }

  // Safety and liveness

  /** The mark of a write in flight is that of the row it was started for. */
  predicate WellMarked(f: InFlight) {
    IsWrite(f.write) && f.mark.Some? && Marks(f.picks, f.mark.value, f.write)
  }

  /** At most one write is out, well marked; while the session is open the app shows that mark and no other. */
  ghost predicate OneWrite(w: World) {
    && |w.writes| <= 1
    && (forall f <- w.writes :: WellMarked(f))
    && (!w.closed && w.writes == [] ==> w.app.pending.None?)
    && (!w.closed && w.writes != [] ==> w.app.pending.Some? && w.app.pending == w.writes[0].mark)
  }

  /** Until closed, exactly one of a fetch and the timer is pending, unless the last refresh was refused. */
  ghost predicate KeepsPolling(w: World) {
    && (w.closed ==> !w.timer)
    && (!w.closed && !w.denied ==> w.refreshing != w.timer)
    && (!w.closed && w.denied ==> !w.refreshing && !w.timer)
    && (!w.closed && w.app.refreshing ==> w.refreshing)
  }

  ghost predicate Inv(w: World) {
    Sound(w.app) && OneWrite(w) && KeepsPolling(w)
  }

  lemma {:induction false} RefreshKeeps(w: World)
    requires Sound(w.app) && OneWrite(w)
    requires w.closed ==> !w.timer
    requires !w.closed && w.app.refreshing ==> w.refreshing
    requires !w.closed && w.refreshing ==> !w.denied
    ensures Inv(RefreshNow(w))
  {
    hide Valid;
    assert Sound(w.app.(refreshing := true)) by { SoundFrame(w.app); }
  }

  lemma {:induction false} SoundFrame(a: App)
    requires Sound(a)
    ensures Sound(a.(refreshing := true)) && Sound(a.(refreshing := false)) && Sound(WriteOver(a))
    ensures Sound(a.(detail := NoDetail)) && Sound(a.(detail := NoDetail, refreshing := false))
  {
  }

  /** Effects that start no write leave the accounts as they are. */
  lemma {:induction false} QuietEffectsKeep(w: World, effects: seq<Effect>, p: Picks)
    requires Inv(w) && NoWrites(effects)
    ensures Inv(RunEffects(w, effects, p))
    decreases |effects|
  {
    if effects != [] {
      var e := effects[0];
      assert e in effects && forall later <- effects[1..] :: later in effects;
      hide Sound;
      if e.Quit? {
      } else {
        if e.Refresh? { RefreshKeeps(w); }
        assert Inv(RunEffect(w, e, p));
        QuietEffectsKeep(RunEffect(w, e, p), effects[1..], p);
      }
    }
  }

  lemma {:induction false} TypedKeeps(w: World, input: Input, p: Picks)
    requires Inv(w) && !w.closed
    ensures Valid(w.app.focus) && Inv(Step(w, Typed(input, p)))
  {
    hide Handle;
    HandleIsSafe(w.app, input, p);
    var h := Handle(w.app, input, p);
    var next := w.(app := h.app);
    hide Sound, Marks;
    if QuietStep(w.app, h) {
      QuietEffectsKeep(next, h.effects, p);
    } else {
      assert h.effects == [h.effects[0]] && h.effects[1..] == [];
      var after := RunEffect(next, h.effects[0], p);
      assert after == next.(writes := [InFlight(h.effects[0], h.app.pending, p)]);
      assert RunEffects(next, h.effects, p) == after;
    }
  }

  lemma {:induction false} RefreshEndedKeeps(w: World, f: Fetch)
    requires Inv(w) && w.refreshing
    ensures Inv(RefreshEnded(w, f))
  {
  }

  lemma {:induction false} WriteEndedKeeps(w: World, k: nat, r: WriteResult)
    requires Inv(w) && k < |w.writes|
    ensures Inv(WriteEnded(w, k, r))
  {
    SoundFrame(w.app);
    hide Sound;
    var over := w.(writes := []);
    assert w.writes[..k] + w.writes[k + 1..] == [];
    if !w.closed {
      var cleared := over.(app := WriteOver(w.app));
      RefreshKeeps(cleared);
      if Reloads(w.app, w.writes[k].write) { RefreshKeeps(cleared.(loads := w.loads + [w.writes[k].write.uid])); }
    }
  }

  lemma {:induction false} LoadEndedKeeps(w: World, k: nat, ok: bool)
    requires Inv(w) && k < |w.loads|
    ensures Inv(LoadEnded(w, k, ok))
  {
    SoundFrame(w.app);
    hide Sound;
  }

  lemma {:induction false} StepKeeps(w: World, e: Event)
    requires Inv(w) && Enabled(w, e)
    ensures Inv(Step(w, e))
  {
    hide Sound, RefreshEnded, WriteEnded, LoadEnded, Handle;
    if e.Typed? { TypedKeeps(w, e.input, e.picks); }
    if e.PollFires? { RefreshKeeps(w); }
    if e.RefreshDone? { RefreshEndedKeeps(w, e.fetch); }
    if e.WriteDone? { WriteEndedKeeps(w, e.index, e.result); }
    if e.LoadDone? { LoadEndedKeeps(w, e.load, e.ok); }
  }

  lemma {:induction false} OpenedIsSound()
    ensures Inv(Opened())
  {
    assert Valid(Initial());
  }

  lemma {:induction false} SessionKeeps(w: World, events: seq<Event>)
    requires Inv(w) && Runs(w, events)
    ensures Inv(After(w, events))
    decreases |events|
  {
    hide Inv, Step, Enabled;
    if events != [] {
      StepKeeps(w, events[0]);
      SessionKeeps(Step(w, events[0]), events[1..]);
    }
  }

  /**
   * Over every interleaving of input, answers and timers: at most one write is out; it is for a row picked when
   * it was started, and until the session is closed the app marks that row, by pane and identity, exactly as
   * long as the write is out; the modal stack is non-empty exactly when an overlay is open, one deep; a parked
   * session never saw a snapshot; and until closed exactly one of a fetch and the poll timer is pending, unless
   * the last refresh was refused.
   */
  lemma {:induction false} SessionStaysSound(events: seq<Event>)
    requires Runs(Opened(), events)
    ensures var w := After(Opened(), events);
            && |w.writes| <= 1
            && (forall f <- w.writes :: IsWrite(f.write) && f.mark.Some? && Marks(f.picks, f.mark.value, f.write))
            && (!w.closed ==> w.app.pending == if w.writes == [] then None else w.writes[0].mark)
            && (w.app.focus.modals != [] <==> !w.app.overlay.NoOverlay?) && |w.app.focus.modals| <= 1
            && (w.app.phase == Parked ==> !w.app.snapshot)
            && (!w.closed && !w.denied ==> w.refreshing != w.timer)
            && (!w.closed && w.denied ==> !w.refreshing && !w.timer)
            && (w.closed ==> !w.timer)
  {
    OpenedIsSound();
    SessionKeeps(Opened(), events);
  }

  /**
   * The app shows a refresh under way exactly while one is, until the load of a rule fails during a refresh:
   * that clears the mark early. Nothing else makes the two differ.
   */
  lemma {:induction false} RefreshMarkExactly(w: World, e: Event)
    requires Inv(w) && Enabled(w, e) && !w.closed && !Step(w, e).closed && (w.app.refreshing <==> w.refreshing)
    ensures (Step(w, e).app.refreshing <==> Step(w, e).refreshing) <==> !(e.LoadDone? && !e.ok && w.refreshing)
  {
    if e.Typed? {
      hide Handle;
      HandleIsSafe(w.app, e.input, e.picks);
      var h := Handle(w.app, e.input, e.picks);
      EffectsKeepMark(w.(app := h.app), h.effects, e.picks);
    }
  }

  lemma {:induction false} EffectsKeepMark(w: World, effects: seq<Effect>, p: Picks)
    requires !w.closed && (w.app.refreshing <==> w.refreshing)
    ensures RunEffects(w, effects, p).app.refreshing <==> RunEffects(w, effects, p).refreshing
    decreases |effects|
  {
    if effects != [] && !effects[0].Quit? { EffectsKeepMark(RunEffect(w, effects[0], p), effects[1..], p); }
  }

  /** A load has failed since the fetch in flight started; `failed` tells so of what came before. */
  predicate LoadFailed(w: World, events: seq<Event>, failed: bool)
    requires Runs(w, events)
    decreases |events|
  {
    if events == [] then failed
    else LoadFailed(Step(w, events[0]), events[1..], FailedBy(w, events[0], failed))
  }

  predicate FailedBy(w: World, e: Event, failed: bool) {
    if e.RefreshDone? then false else failed || (e.LoadDone? && !e.ok && w.refreshing)
  }

  /** The mark is shown during a fetch until a load fails. */
  predicate MarkShows(w: World, failed: bool) {
    (w.app.refreshing <==> w.refreshing && !failed) && (failed ==> w.refreshing)
  }

  lemma {:induction false} EffectsShow(w: World, effects: seq<Effect>, p: Picks, failed: bool)
    requires !w.closed && MarkShows(w, failed)
    ensures MarkShows(RunEffects(w, effects, p), failed)
    decreases |effects|
  {
    if effects != [] && !effects[0].Quit? { EffectsShow(RunEffect(w, effects[0], p), effects[1..], p, failed); }
  }

  lemma {:induction false} StepShows(w: World, e: Event, failed: bool)
    requires Inv(w) && Enabled(w, e) && !w.closed && MarkShows(w, failed)
    ensures MarkShows(Step(w, e), FailedBy(w, e, failed))
  {
    if e.Typed? {
      hide Handle;
      HandleIsSafe(w.app, e.input, e.picks);
      var h := Handle(w.app, e.input, e.picks);
      EffectsShow(w.(app := h.app), h.effects, e.picks, failed);
    }
  }

  lemma {:induction false} RunShows(w: World, events: seq<Event>, failed: bool)
    requires Inv(w) && Runs(w, events) && !After(w, events).closed && MarkShows(w, failed)
    ensures MarkShows(After(w, events), LoadFailed(w, events, failed))
    decreases |events|
  {
    hide Inv, Step, Enabled, MarkShows, FailedBy;
    if w.closed {
      ClosedIsFinal(w, events);
    } else if events != [] {
      StepKeeps(w, events[0]);
      StepShows(w, events[0], failed);
      RunShows(Step(w, events[0]), events[1..], FailedBy(w, events[0], failed));
    }
  }

  /**
   * Over every run of an open session: the mark and the fetch agree exactly when no load has failed since the
   * fetch in flight started.
   */
  lemma {:induction false} MarkAgreesExactly(events: seq<Event>)
    requires Runs(Opened(), events) && !After(Opened(), events).closed
    ensures var w := After(Opened(), events);
            (w.app.refreshing <==> w.refreshing) <==> !LoadFailed(Opened(), events, false)
  {
    OpenedIsSound();
    RunShows(Opened(), events, false);
    hide After, LoadFailed;
  }

  lemma {:induction false} OneEffect(w: World, e: Effect, p: Picks)
    requires !e.Quit?
    ensures RunEffects(w, [e], p) == RunEffect(w, e, p) && RunEffects(w, [], p) == w
  {
    assert [e][1..] == [];
  }

  lemma {:induction false} ThreeFocusesTheRules(p: Picks)
    ensures var three := Typed(Key(Letter('3'), false, false, false), p);
            Enabled(Opened(), three)
            && var w := Step(Opened(), three);
               w == Opened().(app := w.app) && w.app == Opened().app.(focus := w.app.focus)
               && w.app.focus.focused.Rules? && Valid(w.app.focus)
  {
    var w, three := Opened(), Key(Letter('3'), false, false, false);
    assert Handle(w.app, three, p) == Just(w.app.(focus := FocusedDigit(w.app.focus, 3)));
  }

  lemma {:induction false} EnterOpensTheRule(w: World, rule: RuleRow, p: Picks)
    requires Valid(w.app.focus) && w.app.focus.focused.Rules? && !w.closed && p.rule == Some(rule)
    requires w.app.overlay.NoOverlay? && w.app.detail.NoDetail? && w.app.filter.None?
    ensures Step(w, Typed(Key(Enter, false, false, false), p))
      == w.(app := w.app.(detail := RuleDetail(rule.uid)), loads := w.loads + [rule.uid])
  {
    var enter := Key(Enter, false, false, false);
    assert Handle(w.app, enter, p) == OpenSelected(w.app, w.app.focus.focused, p);
    hide RunEffects;
    OneEffect(w.(app := w.app.(detail := RuleDetail(rule.uid))), FetchRule(rule.uid), p);
  }

  /** A rule opened during the first refresh whose load fails: the mark is gone while the fetch still runs. */
  lemma {:induction false} FailedLoadClearsTheMark(rule: RuleRow, p: Picks)
    requires p.rule == Some(rule)
    ensures var events := [
              Typed(Key(Letter('3'), false, false, false), p), Typed(Key(Enter, false, false, false), p),
              LoadDone(0, false)];
            Runs(Opened(), events)
            && After(Opened(), events).refreshing && !After(Opened(), events).app.refreshing
  {
    var three, enter := Typed(Key(Letter('3'), false, false, false), p), Typed(Key(Enter, false, false, false), p);
    var failed := LoadDone(0, false);
    ThreeFocusesTheRules(p);
    var w1 := Step(Opened(), three);
    EnterOpensTheRule(w1, rule, p);
    var w2 := Step(w1, enter);
    hide Handle, RunEffects;
    var w3 := Step(w2, failed);
    assert w3.refreshing && !w3.app.refreshing;
    hide Step;
    NoneLeft(w3);
    OneMore(w2, failed, []);
    OneMore(w1, enter, [failed]);
    OneMore(Opened(), three, [enter, failed]);
    assert [three] + [enter, failed] == [three, enter, failed];
  }

  lemma {:induction false} NoneLeft(w: World)
    ensures Runs(w, []) && After(w, []) == w
  {
  }

  lemma {:induction false} OneMore(w: World, e: Event, rest: seq<Event>)
    requires Enabled(w, e) && Runs(Step(w, e), rest)
    ensures Runs(w, [e] + rest) && After(w, [e] + rest) == After(Step(w, e), rest)
  {
    assert ([e] + rest)[1..] == rest;
  }

  // After the end

  /** Once closed, nothing is armed or started any more: what was in flight is answered, and that is all. */
  lemma {:induction false} ClosedIsFinal(w: World, events: seq<Event>)
    requires Inv(w) && w.closed && Runs(w, events)
    ensures var end := After(w, events);
            && end.closed && !end.timer && end.app == w.app
            && (end.refreshing ==> w.refreshing) && |end.writes| <= |w.writes| && |end.loads| <= |w.loads|
    ensures forall e <- events :: !e.Typed? && !e.PollFires?
    decreases |events|
  {
    if events != [] {
      var next := Step(w, events[0]);
      StepKeeps(w, events[0]);
      assert !events[0].Typed? && !events[0].PollFires?;
      assert next.closed && next.app == w.app && (next.refreshing ==> w.refreshing);
      assert |next.writes| <= |w.writes| && |next.loads| <= |w.loads|;
      ClosedIsFinal(next, events[1..]);
      assert forall e <- events :: e == events[0] || e in events[1..];
    }
  }
}
