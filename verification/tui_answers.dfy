/** What an event and each kind of answer make of the session, effect by effect. */
module TuiAnswers {
  import opened Wrappers
  import opened TuiApp
  import opened TuiRun
  import opened TuiKeys

  lemma {:induction false} TwoEffects(w: World, first: Effect, second: Effect, p: Picks)
    requires !first.Quit? && !second.Quit?
    ensures RunEffects(w, [first, second], p) == RunEffect(RunEffect(w, first, p), second, p)
  {
    OneEffect(RunEffect(w, first, p), second, p);
    assert [first, second][1..] == [second];
  }

  /** What one effect sets going. */
  ghost predicate Ran(w: World, t: World, f: Effect, p: Picks) {
    && (t.closed <==> w.closed || f.Quit?)
    && (!t.closed ==> (t.refreshing <==> w.refreshing || f.Refresh?))
    && t.loads == (if f.FetchRule? then w.loads + [f.uid] else w.loads)
    && t.writes == (if IsWrite(f) then w.writes + [InFlight(f, w.app.pending, p)] else w.writes)
  }

  lemma {:induction false} EffectRuns(w: World, f: Effect, p: Picks)
    requires !w.closed
    ensures Ran(w, RunEffects(w, [f], p), f, p)
  {
    if !f.Quit? { OneEffect(w, f, p); }
  }

  /** The state a key or click leaves before its effects run. */
  function AfterHandling(w: World, e: Input, p: Picks): World
    requires Enabled(w, Typed(e, p))
  {
    w.(app := Handle(w.app, e, p).app)
  }

  lemma {:induction false} NoEffect(w: World, p: Picks)
    ensures RunEffects(w, [], p) == w
  {
  }

  /**
   * A key or click closes the session exactly if it asks to quit, has a fetch in flight afterwards exactly if one
   * was or it asks for one, and sends exactly the write and the load it asks for.
   */
  lemma {:induction false} TypedExactly(w: World, e: Input, p: Picks)
    requires Enabled(w, Typed(e, p))
    ensures var t := Step(w, Typed(e, p));
            && (t.closed <==> Asks(w.app, e, p, Quit))
            && (!t.closed ==> (t.refreshing <==> w.refreshing || Asks(w.app, e, p, Refresh)))
            && (forall uid | Asks(w.app, e, p, FetchRule(uid)) :: t.loads == w.loads + [uid])
            && (t.loads != w.loads ==> exists uid :: Asks(w.app, e, p, FetchRule(uid)))
            && (forall f | IsWrite(f) && Asks(w.app, e, p, f) ::
                  t.writes == w.writes + [InFlight(f, Handle(w.app, e, p).app.pending, p)])
            && (t.writes != w.writes ==> exists f :: IsWrite(f) && Asks(w.app, e, p, f))
  {
    var h := Handle(w.app, e, p);
    var effects, next := h.effects, AfterHandling(w, e, p);
    forall f ensures f in effects <==> Asks(w.app, e, p, f) { EffectsExactly(w.app, e, p, f); }
    EffectsInOrder(w.app, e, p);
    hide Handle, Asks;
    if |effects| == 0 {
      assert effects == [];
      NoEffect(next, p);
    } else if |effects| == 1 {
      assert effects == [effects[0]];
      EffectRuns(next, effects[0], p);
      assert effects[0] in effects;
    } else {
      TwoEffects(next, Refresh, FetchRule(w.app.detail.uid), p);
      assert FetchRule(w.app.detail.uid) in effects;
    }
  }

  /**
   * Every way a fetch ends takes its mark off the app and tells the phase; only a refusal leaves the poll timer
   * unarmed; a drill-in is closed only if it is of an environment that is gone.
   */
  lemma {:induction false} FetchEndsExactly(w: World, f: Fetch)
    requires Inv(w) && w.refreshing && !w.closed
    ensures var t := Step(w, RefreshDone(f));
            && !t.refreshing && !t.app.refreshing && !t.closed
            && (t.timer <==> !f.Refused?)
            && (t.app.phase == Ready <==> f.Fetched? || (f.ToolFailed? && w.app.phase == Ready))
            && (t.app.phase == Denied <==> f.Refused? || (f.ToolFailed? && w.app.phase == Denied))
            && (f.Unreachable? ==> t.app.phase == if w.app.snapshot then Degraded else Parked)
            && (t.app.snapshot <==> w.app.snapshot || f.Fetched?)
            && t.app.detail == (if f == Fetched(false) && w.app.detail.EnvDetail? then NoDetail else w.app.detail)
            && t.app.pending == w.app.pending && t.app.overlay == w.app.overlay && t.app.filter == w.app.filter
            && t.app.focus == w.app.focus && t.writes == w.writes && t.loads == w.loads
  {
    hide Sound;
  }

  /**
   * Every way a write ends clears its mark; all but a refusal have a fetch in flight afterwards; and a rule whose
   * write was acknowledged is loaded again if its drill-in is shown.
   */
  lemma {:induction false} WriteEndsExactly(w: World, k: nat, r: WriteResult)
    requires Inv(w) && k < |w.writes| && !w.closed
    ensures var t, write := Step(w, WriteDone(k, r)), w.writes[k].write;
            && t.writes == [] && t.app == w.app.(pending := None, refreshing := t.app.refreshing) && !t.closed
            && (t.refreshing <==> w.refreshing || !r.WriteRefused?)
            && (t.timer <==> w.timer && r.WriteRefused?)
            && t.loads == w.loads + (if r.Acked? && (write.ToggleRule? || write.PublishRule?)
                                        && w.app.detail == RuleDetail(write.uid) then [write.uid] else [])
  {
    hide Sound, Marks;
    assert w.writes[..k] + w.writes[k + 1..] == [];
  }

  /** A load that fails closes the drill-in of its own rule and no other; one that arrives changes nothing else. */
  lemma {:induction false} LoadEndsExactly(w: World, k: nat, ok: bool)
    requires k < |w.loads| && !w.closed
    ensures var t := Step(w, LoadDone(k, ok));
            && t.loads == w.loads[..k] + w.loads[k + 1..]
            && t.app.detail == (if !ok && w.app.detail == RuleDetail(w.loads[k]) then NoDetail else w.app.detail)
            && t.app == w.app.(detail := t.app.detail, refreshing := w.app.refreshing && ok)
            && t == w.(app := t.app, loads := t.loads)
  {
  }
}
