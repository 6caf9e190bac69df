/** The daemon's unattended updater: staging, timers and what ends up on disk. */
module AutoUpdate {
  import opened Wrappers
  import opened CalVer

  /** What the network, the disk and the new binary answer during one tick. */
  datatype World = World(
    // The version the manifest offers, if it could be fetched and read.
    offered: Option<Version>,
    // A published asset was found, downloaded and matched its checksum.
    verified: bool,
    // The rename over the running binary succeeded.
    swaps: bool,
    // The binary now on disk answers --version with the offered version.
    probes: bool)

  datatype Outcome = UpToDate | Staged(to: Version) | Threw

  /** Resolve, download, verify, swap, probe. */
  function StageUpgrade(current: Version, disk: Version, w: World): (Outcome, Version) {
    if w.offered.None? then (Threw, disk)
    else if Compare(w.offered.value, current) <= 0 then (UpToDate, disk)
    else if !w.verified || !w.swaps then (Threw, disk)
    else if !w.probes then (Threw, w.offered.value)
    else (Staged(w.offered.value), w.offered.value)
  }

  /** A tick that replaces the binary. */
  predicate Swaps(current: Version, w: World) {
    w.offered.Some? && Newer(w.offered.value, current) && w.verified && w.swaps
  }

  datatype State = State(
    // The version the running process was built as.
    built: Version,
    stagedTo: Option<Version>,
    timer: bool,
    running: bool,
    disposed: bool,
    // The supervisor was told to replace this process.
    restarting: bool,
    disk: Version,
    // The binary on disk has answered with its version, or is the one running.
    proven: bool,
    staged: seq<Version>)

  function Current(s: State): Version {
    if s.stagedTo.Some? then s.stagedTo.value else s.built
  }

  function Installed(built: Version): State {
    State(built, None, true, false, false, false, built, true, [])
  }

  datatype Event =
    | Fire
    // The stage pipeline of the running tick is over; `unit` says whether a service unit can restart us.
    | Complete(world: World, unit: bool)
    | Dispose
    // The process starts again from the binary on disk, which turns out to be of version `reported`.
    | Relaunch(reported: Version)

  /** A binary that has answered its probe is what it said; one that has not may turn out to be anything. */
  predicate Enabled(s: State, e: Event) {
    match e
    case Fire => s.timer
    case Complete(_, _) => s.running
    case Dispose => true
    case Relaunch(reported) => s.proven ==> reported == s.disk
  }

  function Scheduled(s: State): State { if s.disposed then s else s.(timer := true) }

  function Completed(s: State, w: World, unit: bool): State {
    var (outcome, disk) := StageUpgrade(Current(s), s.disk, w);
    var done := s.(running := false, disk := disk,
                   proven := if Swaps(Current(s), w) then w.probes else s.proven);
    if !outcome.Staged? then Scheduled(done)
    else
      var staged := done.(stagedTo := Some(outcome.to), staged := s.staged + [outcome.to]);
      if unit then staged.(restarting := true) else Scheduled(staged)
  }

  function Step(s: State, e: Event): State
    requires Enabled(s, e)
  {
    match e
    case Fire =>
      var fired := s.(timer := false);
      if s.disposed || s.running then fired else fired.(running := true)
    case Complete(w, unit) => Completed(s, w, unit)
    case Dispose => s.(disposed := true, timer := false)
    case Relaunch(reported) =>
      Installed(reported).(disk := s.disk, proven := reported == s.disk, staged := s.staged)
  }

  ghost predicate Runs(s: State, events: seq<Event>)
    decreases |events|
  {
    events == [] || (Enabled(s, events[0]) && Runs(Step(s, events[0]), events[1..]))
  }

  function After(s: State, events: seq<Event>): State
    requires Runs(s, events)
    decreases |events|
  {
    if events == [] then s else After(Step(s, events[0]), events[1..])
  }

  class Updater {
    const built: Version
    var timer: bool
    var disposed: bool
    var running: bool
    var stagedTo: Option<Version>
    var restarting: bool

    ghost predicate Holds(s: State)
      reads this
    {
      && s.built == built && s.timer == timer && s.disposed == disposed && s.running == running
      && s.stagedTo == stagedTo && s.restarting == restarting
    }

    constructor (version: Version)
      ensures Holds(Installed(version)) && built == version
    {
      built, timer, disposed, running, stagedTo, restarting := version, true, false, false, None, false;
    }

    method Schedule(ghost s: State)
      requires Holds(s)
      modifies this`timer
      ensures Holds(Scheduled(s))
      ensures if disposed then timer == old(timer) else timer
    {
      if disposed { return; }
      timer := true;
    }

    /** The timer goes off: the synchronous part of the tick; says whether the stage pipeline starts. */
    method Fire(ghost s: State) returns (starts: bool)
      requires Holds(s) && timer
      modifies this
      ensures Holds(Step(s, Event.Fire)) && (starts <==> Step(s, Event.Fire).running && !s.running)
      ensures !timer && (starts ==> running && !disposed && !old(running))
    {
      timer := false;
      if disposed || running { return false; }
      running := true;
      return true;
    }

    /** The stage pipeline answered. */
    method Complete(outcome: Outcome, unit: bool, ghost s: State, ghost w: World)
      requires Holds(s) && running && outcome == StageUpgrade(Current(s), s.disk, w).0
      modifies this
      ensures Holds(Completed(s, w, unit))
      ensures !running && (disposed ==> timer == old(timer))
      ensures outcome.Staged? ==> stagedTo == Some(outcome.to) && (unit ==> timer == old(timer))
    {
      running := false;
      ghost var t := Completed(s, w, unit);
      if outcome.Staged? {
        stagedTo := Some(outcome.to);
        if unit {
          restarting := true;
          return;
        }
      }
      Schedule(t.(timer := timer));
    }

    method Dispose(ghost s: State)
      requires Holds(s)
      modifies this
      ensures Holds(Step(s, Event.Dispose)) && disposed && !timer && running == old(running)
    {
      disposed := true;
      timer := false;
    }
  }

  // Safety

  /** Each version is newer than the one before it. */
  ghost predicate Increasing(versions: seq<Version>) {
    forall i, j | 0 <= i < j < |versions| :: Newer(versions[j], versions[i])
  }

  /** Checks and timers exclude each other, and one of them is always due until a dispose or a restart. */
  predicate TimersSound(s: State) {
    && !(s.timer && s.running)
    && (s.disposed ==> !s.timer)
    && (s.restarting ==> !s.timer && !s.running)
    && (!s.disposed && !s.restarting ==> s.timer || s.running)
  }

  /** Over every run, relaunches into any binary included. */
  lemma {:induction false} TimersStaySound(s: State, events: seq<Event>)
    requires TimersSound(s) && Runs(s, events)
    ensures TimersSound(After(s, events))
    decreases |events|
  {
    hide Compare;
    if events != [] { TimersStaySound(Step(s, events[0]), events[1..]); }
  }

  /** After a dispose no check ever starts in this process and no timer is armed; a running one may finish. */
  lemma {:induction false} DisposedStaysQuiet(s: State, events: seq<Event>)
    requires s.disposed && !s.timer && Runs(s, events) && forall e <- events :: !e.Relaunch?
    ensures var t := After(s, events); t.disposed && !t.timer && (t.running ==> s.running)
    ensures forall e <- events :: !e.Fire?
    decreases |events|
  {
    hide Compare;
    if events != [] {
      assert events[0] in events && forall e <- events[1..] :: e in events;
      DisposedStaysQuiet(Step(s, events[0]), events[1..]);
      assert forall e <- events :: e == events[0] || e in events[1..];
    }
  }

  /** Once the supervisor is to replace the process, nothing more happens in it. */
  lemma {:induction false} RestartingStaysQuiet(s: State, events: seq<Event>)
    requires TimersSound(s) && s.restarting && Runs(s, events) && forall e <- events :: !e.Relaunch?
    ensures forall e <- events :: e.Dispose?
    ensures After(s, events).disk == s.disk && After(s, events).staged == s.staged
    decreases |events|
  {
    hide Compare;
    if events != [] {
      assert events[0] in events && forall e <- events[1..] :: e in events;
      RestartingStaysQuiet(Step(s, events[0]), events[1..]);
      assert forall e <- events :: e == events[0] || e in events[1..];
    }
  }

  // What is staged

  function Last(origin: Version, staged: seq<Version>): Version {
    if staged == [] then origin else staged[|staged| - 1]
  }

  predicate Stages(s: State, e: Event) { e.Complete? && Swaps(Current(s), e.world) && e.world.probes }

  /**
   * After every relaunch as a version older than the last one staged, the next version staged is newer than
   * that one. `mark` is the version such a relaunch has left behind, until something is staged.
   */
  ghost predicate HeedsRelaunches(s: State, events: seq<Event>, origin: Version, mark: Option<Version>)
    requires Runs(s, events)
    decreases |events|
  {
    events == [] ||
    var e := events[0];
    var last := Last(origin, s.staged);
    var next :=
      if Stages(s, e) then None
      else if e.Relaunch? then (if Newer(last, e.reported) then Some(last) else None)
      else mark;
    (Stages(s, e) && mark.Some? ==> Newer(e.world.offered.value, mark.value))
    && HeedsRelaunches(Step(s, e), events[1..], origin, next)
  }

  /** What a mark stands for. */
  predicate Marked(s: State, origin: Version, mark: Option<Version>) {
    && (mark.None? ==> Compare(Current(s), Last(origin, s.staged)) >= 0)
    && (mark.Some? ==> mark.value == Last(origin, s.staged))
  }

  lemma {:induction false} IncreasingSnoc(versions: seq<Version>, v: Version)
    requires versions != [] && Increasing(versions)
    ensures Increasing(versions + [v]) <==> Newer(v, versions[|versions| - 1])
  {
    hide Compare;
    var all, last := versions + [v], versions[|versions| - 1];
    assert all[|versions|] == v && all[|versions| - 1] == last;
    if Newer(v, last) {
      forall i | 0 <= i < |versions| - 1 ensures Newer(v, versions[i]) {
        assert Newer(last, versions[i]);
        NewerTransitive(v, last, versions[i]);
      }
    }
  }

  lemma {:induction false} IncreasingPrefix(versions: seq<Version>, more: seq<Version>)
    requires Increasing(versions + more)
    ensures Increasing(versions)
  {
    hide Newer;
    assert forall i | 0 <= i < |versions| :: (versions + more)[i] == versions[i];
  }

  lemma {:induction false} StagedGrows(s: State, events: seq<Event>)
    requires Runs(s, events)
    ensures s.staged <= After(s, events).staged
    decreases |events|
  {
    hide Compare, Step, Stages;
    if events != [] {
      StageStep(s, events[0]);
      StagedGrows(Step(s, events[0]), events[1..]);
    }
  }

  lemma {:induction false} StageStep(s: State, e: Event)
    requires Enabled(s, e)
    ensures Step(s, e).staged == if Stages(s, e) then s.staged + [e.world.offered.value] else s.staged
    ensures Stages(s, e) ==> Current(Step(s, e)) == e.world.offered.value && Newer(e.world.offered.value, Current(s))
    ensures !Stages(s, e) && !e.Relaunch? ==> Current(Step(s, e)) == Current(s)
    ensures e.Relaunch? ==> Current(Step(s, e)) == e.reported
  {
    hide Compare;
    if e.Complete? { CompleteStages(s, e.world, e.unit); }
  }

  lemma {:induction false} CompleteStages(s: State, w: World, unit: bool)
    ensures var t := Completed(s, w, unit);
            if Swaps(Current(s), w) && w.probes then
              t.stagedTo == w.offered && t.staged == s.staged + [w.offered.value]
            else t.stagedTo == s.stagedTo && t.staged == s.staged && t.built == s.built
  {
    hide Compare;
  }

  lemma {:induction false} Reflexive(v: Version)
    ensures Compare(v, v) == 0
  {
    ZeroIsEquality(v, v);
  }

  /** The version staged next is newer than the last one exactly when it heeds the mark. */
  lemma {:induction false} StageIsNewer(s: State, origin: Version, mark: Option<Version>, e: Event)
    requires Enabled(s, e) && Marked(s, origin, mark) && Stages(s, e)
    ensures Newer(e.world.offered.value, Last(origin, s.staged))
      <==> (mark.Some? ==> Newer(e.world.offered.value, mark.value))
  {
    hide Compare;
    if mark.None? { NewerTransitive(e.world.offered.value, Current(s), Last(origin, s.staged)); }
  }

  lemma {:induction false} StagedIncreaseFrom(s: State, events: seq<Event>, origin: Version, mark: Option<Version>)
    requires Runs(s, events) && Marked(s, origin, mark) && Increasing([origin] + s.staged)
    ensures Increasing([origin] + After(s, events).staged) <==> HeedsRelaunches(s, events, origin, mark)
    decreases |events|
  {
    hide Compare, Increasing, Newer, Enabled, Step, Current;
    if events != [] {
      var e, rest := events[0], events[1..];
      var next, soFar, last := Step(s, e), [origin] + s.staged, Last(origin, s.staged);
      assert soFar[|soFar| - 1] == last;
      StageStep(s, e);
      Reflexive(last);
      if Stages(s, e) {
        var v := e.world.offered.value;
        IncreasingSnoc(soFar, v);
        StageIsNewer(s, origin, mark, e);
        assert [origin] + next.staged == soFar + [v];
        Reflexive(v);
        if Increasing(soFar + [v]) {
          StagedIncreaseFrom(next, rest, origin, None);
        } else {
          StagedGrows(next, rest);
          var after := After(next, rest).staged;
          assert [origin] + after == (soFar + [v]) + after[|next.staged|..];
          if Increasing([origin] + after) { IncreasingPrefix(soFar + [v], after[|next.staged|..]); }
        }
      } else if e.Relaunch? {
        NotNewer(last, e.reported);
        StagedIncreaseFrom(next, rest, origin, if Newer(last, e.reported) then Some(last) else None);
      } else {
        StagedIncreaseFrom(next, rest, origin, mark);
      }
    }
  }

  lemma {:induction false} NotNewer(a: Version, b: Version)
    ensures !Newer(a, b) ==> Compare(b, a) >= 0
  {
    SignAntisymmetric(a, b);
  }

  /**
   * Over every run, relaunches into any binary included, the versions staged strictly increase from the one
   * first running exactly when after every relaunch as an older version than the last one staged the next
   * one staged is newer than that.
   */
  lemma {:induction false} StagedIncreaseExactly(built: Version, events: seq<Event>)
    requires Runs(Installed(built), events)
    ensures Increasing([built] + After(Installed(built), events).staged)
      <==> HeedsRelaunches(Installed(built), events, built, None)
  {
    hide Compare;
    Reflexive(built);
    StagedIncreaseFrom(Installed(built), events, built, None);
  }

  /** Within one process nothing is staged twice, nor anything older than before. */
  lemma {:induction false} ProcessesNeverGoBack(s: State, events: seq<Event>, origin: Version)
    requires Runs(s, events) && forall e <- events :: !e.Relaunch?
    requires Marked(s, origin, None) && Increasing([origin] + s.staged)
    ensures Increasing([origin] + After(s, events).staged)
  {
    HeedsWithoutRelaunch(s, events, origin);
    StagedIncreaseFrom(s, events, origin, None);
  }

  lemma {:induction false} HeedsWithoutRelaunch(s: State, events: seq<Event>, origin: Version)
    requires Runs(s, events) && forall e <- events :: !e.Relaunch?
    ensures HeedsRelaunches(s, events, origin, None)
    decreases |events|
  {
    hide Compare;
    if events != [] {
      assert events[0] in events && forall e <- events[1..] :: e in events;
      HeedsWithoutRelaunch(Step(s, events[0]), events[1..], origin);
    }
  }

  // What lands on disk

  predicate PutsOnDisk(s: State, e: Event) { e.Complete? && Swaps(Current(s), e.world) }

  /** The versions a run puts on disk, in order. */
  function Swapped(s: State, events: seq<Event>): seq<Version>
    requires Runs(s, events)
    decreases |events|
  {
    if events == [] then []
    else
      var later := Swapped(Step(s, events[0]), events[1..]);
      if PutsOnDisk(s, events[0]) then [events[0].world.offered.value] + later else later
  }

  /**
   * After every swap whose probe failed, the next swap offers something newer than what that one put on disk.
   * `failed` is the version of the last swap if its probe failed.
   */
  ghost predicate HeedsFailedProbes(s: State, events: seq<Event>, failed: Option<Version>)
    requires Runs(s, events)
    decreases |events|
  {
    events == [] ||
    var e := events[0];
    if PutsOnDisk(s, e) then
      && (failed.Some? ==> Newer(e.world.offered.value, failed.value))
      && HeedsFailedProbes(Step(s, e), events[1..], if e.world.probes then None else e.world.offered)
    else HeedsFailedProbes(Step(s, e), events[1..], failed)
  }

  /** A binary that has not failed its probe is the effective version; one that has is what the swap offered. */
  predicate DiskIs(s: State, failed: Option<Version>) {
    if failed.None? then s.proven && s.disk == Current(s) else s.disk == failed.value
  }

  lemma {:induction false} DiskStep(s: State, e: Event, failed: Option<Version>)
    requires Enabled(s, e) && DiskIs(s, failed)
    ensures DiskIs(Step(s, e),
      if !PutsOnDisk(s, e) then failed else if e.world.probes then None else e.world.offered)
    ensures Step(s, e).disk == if PutsOnDisk(s, e) then e.world.offered.value else s.disk
    ensures PutsOnDisk(s, e) ==>
      (Newer(e.world.offered.value, s.disk) <==> (failed.Some? ==> Newer(e.world.offered.value, failed.value)))
  {
    hide Compare;
  }

  lemma {:induction false} IncreasingCons(d: Version, v: Version, later: seq<Version>)
    ensures Increasing([d] + ([v] + later)) <==> Newer(v, d) && Increasing([v] + later)
  {
    hide Compare;
    var tail, all := [v] + later, [d] + ([v] + later);
    assert all[0] == d && all[1] == v && forall i | 0 <= i < |tail| :: all[i + 1] == tail[i];
    if Increasing(all) {
      forall i, j | 0 <= i < j < |tail| ensures Newer(tail[j], tail[i]) { assert Newer(all[j + 1], all[i + 1]); }
    }
    if Newer(v, d) && Increasing(tail) {
      forall j | 0 < j < |all| ensures Newer(all[j], d) {
        if j > 1 {
          assert Newer(tail[j - 1], tail[0]);
          NewerTransitive(all[j], v, d);
        }
      }
      forall i, j | 0 < i < j < |all| ensures Newer(all[j], all[i]) { assert Newer(tail[j - 1], tail[i - 1]); }
    }
  }

  lemma {:induction false} DiskGoesForwardFrom(s: State, events: seq<Event>, failed: Option<Version>)
    requires Runs(s, events) && DiskIs(s, failed)
    ensures Increasing([s.disk] + Swapped(s, events)) <==> HeedsFailedProbes(s, events, failed)
    decreases |events|
  {
    hide Compare, Newer, Increasing, DiskIs, Step, Enabled;
    if events == [] {
      assert [s.disk] + [] == [s.disk];
      OneVersion(s.disk);
    } else {
      var e, rest := events[0], events[1..];
      var next := Step(s, e);
      DiskStep(s, e, failed);
      var mark := if !PutsOnDisk(s, e) then failed else if e.world.probes then None else e.world.offered;
      DiskGoesForwardFrom(next, rest, mark);
      if PutsOnDisk(s, e) { IncreasingCons(s.disk, e.world.offered.value, Swapped(next, rest)); }
    }
  }

  lemma {:induction false} OneVersion(v: Version)
    ensures Increasing([v])
  {
  }

  /**
   * Over every run, relaunches included, the versions put on disk strictly increase from the one first running
   * exactly when after every swap whose probe failed the next swap offers something newer than it did.
   */
  lemma {:induction false} DiskGoesForwardExactly(built: Version, events: seq<Event>)
    requires Runs(Installed(built), events)
    ensures Increasing([built] + Swapped(Installed(built), events))
      <==> HeedsFailedProbes(Installed(built), events, None)
  {
    DiskGoesForwardFrom(Installed(built), events, None);
  }

  /** So it does as long as every probe succeeds. */
  lemma {:induction false} ProvenRunsGoForward(built: Version, events: seq<Event>)
    requires Runs(Installed(built), events) && forall e <- events :: e.Complete? ==> e.world.probes
    ensures Increasing([built] + Swapped(Installed(built), events))
  {
    HeedsWithoutFailure(Installed(built), events);
    DiskGoesForwardExactly(built, events);
  }

  lemma {:induction false} HeedsWithoutFailure(s: State, events: seq<Event>)
    requires Runs(s, events) && forall e <- events :: e.Complete? ==> e.world.probes
    ensures HeedsFailedProbes(s, events, None)
    decreases |events|
  {
    hide Compare;
    if events != [] {
      assert events[0] in events && forall e <- events[1..] :: e in events;
      HeedsWithoutFailure(Step(s, events[0]), events[1..]);
    }
  }

  // What one check does

  /**
   * A check puts the offered version on the disk exactly if it is newer than the effective one, its download
   * matched and the rename went through; it stages it, and makes it the effective one, exactly if the new binary
   * also answered; and only then, and with a service unit, does it end in a restart. Otherwise the next check is
   * armed, unless the updater was disposed.
   */
  lemma {:induction false} CheckExactly(s: State, w: World, unit: bool)
    requires s.running && TimersSound(s)
    ensures var t := Step(s, Complete(w, unit));
            var effective := if s.stagedTo.Some? then s.stagedTo.value else s.built;
            var newer := w.offered.Some? && Newer(w.offered.value, effective);
            var swapped := newer && w.verified && w.swaps;
            var taken := swapped && w.probes;
            && t.disk == (if swapped then w.offered.value else s.disk)
            && t.proven == (if swapped then w.probes else s.proven)
            && t.staged == (if taken then s.staged + [w.offered.value] else s.staged)
            && t.stagedTo == (if taken then w.offered else s.stagedTo)
            && (t.restarting <==> taken && unit) && (t.timer <==> !s.disposed && !(taken && unit))
            && !t.running && t.built == s.built && t.disposed == s.disposed
  {
    hide Compare;
  }

  /** When the timer goes off a check starts; a dispose takes the timer away and lets a running check finish. */
  lemma {:induction false} FiresExactly(s: State)
    requires TimersSound(s)
    ensures s.timer ==> Step(s, Fire) == s.(timer := false, running := true)
    ensures Step(s, Dispose) == s.(timer := false, disposed := true)
  {
  }

  // Both conditions can fail

  /** One check that swaps in `v`, not ending in a restart. */
  function Tick(v: Version, probes: bool): seq<Event> {
    [Fire, Complete(World(Some(v), true, true, probes), false)]
  }

  predicate Waiting(s: State) { s.timer && !s.running && !s.disposed }

  function Ticked(s: State, v: Version, probes: bool): State {
    var done := s.(disk := v, proven := probes);
    if probes then done.(stagedTo := Some(v), staged := s.staged + [v]) else done
  }

  lemma {:induction false} TickRuns(s: State, v: Version, probes: bool, rest: seq<Event>)
    requires Waiting(s) && Newer(v, Current(s)) && Runs(Ticked(s, v, probes), rest)
    ensures var all := Tick(v, probes) + rest;
            Runs(s, all) && After(s, all) == After(Ticked(s, v, probes), rest)
            && Swapped(s, all) == [v] + Swapped(Ticked(s, v, probes), rest)
  {
    hide Compare;
    var all := Tick(v, probes) + rest;
    assert all[1..][1..] == rest && all[1] == Tick(v, probes)[1] && all[1..][0] == all[1];
    var fired := Step(s, Fire);
    assert Step(fired, all[1]) == Ticked(s, v, probes);
    assert Runs(fired, all[1..]);
  }

  lemma {:induction false} RelaunchRuns(s: State, v: Version, rest: seq<Event>)
    requires !s.proven && Runs(Step(s, Relaunch(v)), rest)
    ensures var all := [Relaunch(v)] + rest;
            Runs(s, all) && After(s, all) == After(Step(s, Relaunch(v)), rest)
  {
    assert ([Relaunch(v)] + rest)[1..] == rest;
  }

  /** A failed probe throws after the swap and is forgotten: the next check can put an older binary on the disk. */
  lemma {:induction false} FailedProbeLetsTheDiskGoBack()
    ensures var v1, v2, v3 := Version([1], None), Version([2], None), Version([3], None);
            var events := Tick(v3, false) + (Tick(v2, true) + []);
            Runs(Installed(v1), events) && Swapped(Installed(v1), events) == [v3, v2]
            && After(Installed(v1), events).disk == v2 && Newer(v3, v2)
  {
    var v1, v2, v3 := Version([1], None), Version([2], None), Version([3], None);
    assert Newer(v2, v1) && Newer(v3, v1) && Newer(v3, v2);
    hide Compare, Runs, Swapped, After, Tick;
    var failed := Ticked(Installed(v1), v3, false);
    NothingLeft(Ticked(failed, v2, true));
    TickRuns(failed, v2, true, []);
    TickRuns(Installed(v1), v3, false, Tick(v2, true) + []);
  }

  /** A binary whose probe failed, relaunched and found to be an older version, stages the same one again. */
  lemma {:induction false} RelaunchCanStageTwice()
    ensures var v1, v2, v3 := Version([1], None), Version([2], None), Version([3], None);
            var events := Tick(v2, true) + (Tick(v3, false) + ([Relaunch(v1)] + (Tick(v2, true) + [])));
            Runs(Installed(v1), events) && After(Installed(v1), events).staged == [v2, v2]
  {
    var v1, v2, v3 := Version([1], None), Version([2], None), Version([3], None);
    assert Newer(v2, v1) && Newer(v3, v2);
    hide Compare, Runs, Swapped, After, Tick;
    var failed := Ticked(Ticked(Installed(v1), v2, true), v3, false);
    var back := Step(failed, Relaunch(v1));
    NothingLeft(Ticked(back, v2, true));
    TickRuns(back, v2, true, []);
    RelaunchRuns(failed, v1, Tick(v2, true) + []);
    TickRuns(Ticked(Installed(v1), v2, true), v3, false, [Relaunch(v1)] + (Tick(v2, true) + []));
    TickRuns(Installed(v1), v2, true, Tick(v3, false) + ([Relaunch(v1)] + (Tick(v2, true) + [])));
  }

  lemma {:induction false} NothingLeft(s: State)
    ensures Runs(s, []) && After(s, []) == s && Swapped(s, []) == []
  {
  }
}
