/** The outbox file: a write chain with a dirty flag, interleaved with whatever happens to the memory. */
module OutboxDisk {
  import opened Wrappers
  import opened Outbox

  /** The running link of the chain, by the operation it waits for. */
  datatype Phase =
    | Idle
    | Removing
    | Making
    | Writing(snapshot: seq<Entry>)
    | Renaming(snapshot: seq<Entry>)

  datatype Disk = Disk(
    memory: seq<Entry>,
    dirty: bool,
    // Links of the chain that have not started.
    links: nat,
    phase: Phase,
    // What the file would be read back as; a rename replaces it whole.
    file: Option<seq<Entry>>,
    // A drain changed the memory and has not persisted since.
    unsaved: bool,
    // The last write failed, and no link has started one since.
    lost: bool,
    // Some write has reached the disk.
    touched: bool,
    // Every content the memory has had.
    history: set<seq<Entry>>)

  function Load(file: Option<seq<Entry>>): seq<Entry> {
    if file.None? then [] else file.value
  }

  function Opened(file: Option<seq<Entry>>): Disk {
    Disk(Load(file), false, 0, Idle, file, false, false, false, {Load(file)})
  }

  function Remember(d: Disk, memory: seq<Entry>): Disk {
    d.(memory := memory, history := d.history + {memory})
  }

  function Persist(d: Disk): Disk {
    d.(dirty := true, links := d.links + 1, unsaved := false)
  }

  function FailedWrite(d: Disk): Disk { d.(phase := Idle, lost := true) }

  datatype Event =
    // A put, or a discard that removed something: the memory changes and is persisted at once.
    | Change(memory: seq<Entry>)
    // One answer within a drain: the memory changes, nothing is persisted yet.
    | Drained(memory: seq<Entry>)
    // A drain that tried something is over.
    | DrainOver
    // The next link of the chain begins.
    | Start
    // The operation the running link waits for is over.
    | Finish(ok: bool)

  predicate Enabled(d: Disk, e: Event) {
    match e
    case Start => d.phase.Idle? && d.links > 0
    case Finish(_) => !d.phase.Idle?
    case _ => true
  }

  function Begin(d: Disk): Disk
    requires d.links > 0
  {
    var next := d.(links := d.links - 1);
    if !d.dirty then next
    else next.(dirty := false, lost := false, phase := if d.memory == [] then Removing else Making)
  }

  function Advance(d: Disk, ok: bool): Disk {
    if !ok then FailedWrite(d)
    else if d.phase.Removing? then d.(phase := Idle, file := None, touched := true)
    else if d.phase.Making? then d.(phase := Writing(d.memory))
    else if d.phase.Writing? then d.(phase := Renaming(d.phase.snapshot))
    else if d.phase.Renaming? then d.(phase := Idle, file := Some(d.phase.snapshot), touched := true)
    else d
  }

  function Step(d: Disk, e: Event): Disk
    requires Enabled(d, e)
  {
    match e
    case Change(memory) => Persist(Remember(d, memory))
    case Drained(memory) => Remember(d, memory).(unsaved := true)
    case DrainOver => Persist(d)
    case Start => Begin(d)
    case Finish(ok) => Advance(d, ok)
  }

  ghost predicate Runs(d: Disk, events: seq<Event>)
    decreases |events|
  {
    events == [] || (Enabled(d, events[0]) && Runs(Step(d, events[0]), events[1..]))
  }

  function After(d: Disk, events: seq<Event>): Disk
    requires Runs(d, events)
    decreases |events|
  {
    if events == [] then d else After(Step(d, events[0]), events[1..])
  }

  // Convergence

  predicate Quiescent(d: Disk) { d.phase.Idle? && d.links == 0 }

  /** The file a settled outbox leaves: none when it is empty. */
  function FileOf(memory: seq<Entry>): Option<seq<Entry>> {
    if memory == [] then None else Some(memory)
  }

  /** With nothing pending, the running link is on its way to exactly the memory. */
  ghost predicate OnCourse(d: Disk) {
    match d.phase
    case Idle => Load(d.file) == d.memory && (d.touched ==> d.file == FileOf(d.memory))
    case Removing => d.memory == []
    case Making => d.memory != []
    case Writing(snapshot) => snapshot == d.memory && snapshot != []
    case Renaming(snapshot) => snapshot == d.memory && snapshot != []
  }

  ghost predicate Whole(d: Disk) {
    && d.memory in d.history
    && (d.file.Some? ==> d.file.value in d.history)
    && (d.phase.Writing? || d.phase.Renaming? ==> d.phase.snapshot in d.history)
  }

  ghost predicate Inv(d: Disk) {
    && (d.dirty ==> d.links > 0)
    && (!d.dirty && !d.unsaved && !d.lost ==> OnCourse(d))
    && Whole(d)
  }

  lemma {:induction false} BeginKeeps(d: Disk)
    requires Inv(d) && d.phase.Idle? && d.links > 0
    ensures Inv(Begin(d))
  {
  }

  lemma {:induction false} AdvanceKeeps(d: Disk, ok: bool)
    requires Inv(d) && !d.phase.Idle?
    ensures Inv(Advance(d, ok))
  {
    assert Whole(Advance(d, ok));
  }

  /** The file is at every moment absent or one whole version the memory has had, whatever fails. */
  lemma {:induction false} StepKeeps(d: Disk, e: Event)
    requires Inv(d) && Enabled(d, e)
    ensures Inv(Step(d, e)) && Whole(Step(d, e))
  {
    if e.Start? {
      BeginKeeps(d);
    } else if e.Finish? {
      hide Advance;
      AdvanceKeeps(d, e.ok);
    } else {
      hide OnCourse;
    }
  }

  lemma {:induction false} RunKeeps(d: Disk, events: seq<Event>)
    requires Inv(d) && Runs(d, events)
    ensures Inv(After(d, events))
    decreases |events|
  {
    hide Inv, Step, Enabled;
    if events != [] {
      StepKeeps(d, events[0]);
      RunKeeps(Step(d, events[0]), events[1..]);
    }
  }

  /**
   * However mutations interleave with the steps of the chain, once the chain is quiet the file reads back as
   * the memory, unless a drain is still to persist its changes or the last write failed; and a file the chain
   * has written is gone exactly when the memory is empty.
   */
  lemma {:induction false} FileConverges(file: Option<seq<Entry>>, events: seq<Event>)
    requires Runs(Opened(file), events)
    ensures var d := After(Opened(file), events);
            && Whole(d)
            && (Quiescent(d) && !d.unsaved && !d.lost ==>
                  Load(d.file) == d.memory && (d.touched ==> d.file == FileOf(d.memory)))
  {
    RunKeeps(Opened(file), events);
  }

  /** Steps the chain still has to make. */
  function Rank(d: Disk): nat {
    5 * d.links + match d.phase
                  case Idle => 0
                  case Removing => 1
                  case Making => 3
                  case Writing(_) => 2
                  case Renaming(_) => 1
  }

  /** Left alone, the chain always comes to rest: every step of it brings it closer, and one is enabled until then. */
  lemma {:induction false} ChainSettles(d: Disk, e: Event)
    requires Enabled(d, e) && (e.Start? || e.Finish?)
    ensures Rank(Step(d, e)) < Rank(d)
    ensures Step(d, e).memory == d.memory
    ensures !Quiescent(d) <==> Enabled(d, Start) || Enabled(d, Finish(true))
  {
  }

  /** A failed write is not tried again by itself: the chain can rest on a file that misses a sealed envelope. */
  lemma {:induction false} FailedWriteIsNotRetried(e: Entry)
    ensures var events := [Change([e]), Start, Finish(false)];
            && Runs(Opened(None), events)
            && Quiescent(After(Opened(None), events)) && !After(Opened(None), events).unsaved
            && After(Opened(None), events).file == None && After(Opened(None), events).memory == [e]
  {
    var d0 := Opened(None);
    var d1 := Step(d0, Change([e]));
    var d2 := Step(d1, Start);
    var d3 := Step(d2, Finish(false));
    assert Runs(d3, []);
    assert [Finish(false)][1..] == [];
    assert Runs(d2, [Finish(false)]) && After(d2, [Finish(false)]) == d3;
    assert [Start, Finish(false)][1..] == [Finish(false)];
    assert Runs(d1, [Start, Finish(false)]) && After(d1, [Start, Finish(false)]) == d3;
    assert [Change([e]), Start, Finish(false)][1..] == [Start, Finish(false)];
  }

  /** The next persist makes up for it. */
  lemma {:induction false} NextWriteRecovers(d: Disk, memory: seq<Entry>, later: seq<Event>)
    requires Inv(d) && Runs(Step(d, Change(memory)), later)
    requires forall e <- later :: e != Finish(false)
    ensures var t := After(Step(d, Change(memory)), later);
            Quiescent(t) && !t.unsaved ==> Load(t.file) == t.memory
  {
    StepKeeps(d, Change(memory));
    var s := Step(d, Change(memory));
    if s.lost { LostUntilStarted(s, later); } else { NeverLost(s, later); }
    RunKeeps(s, later);
  }

  lemma {:induction false} NeverLost(d: Disk, events: seq<Event>)
    requires Runs(d, events) && !d.lost && forall e <- events :: e != Finish(false)
    ensures !After(d, events).lost
    decreases |events|
  {
    if events != [] {
      assert events[0] in events && forall e <- events[1..] :: e in events;
      NeverLost(Step(d, events[0]), events[1..]);
    }
  }

  lemma {:induction false} LostUntilStarted(d: Disk, events: seq<Event>)
    requires Runs(d, events) && d.dirty && d.links > 0 && forall e <- events :: e != Finish(false)
    ensures var t := After(d, events); !t.lost || (t.dirty && t.links > 0)
    decreases |events|
  {
    if events != [] {
      assert events[0] in events && forall e <- events[1..] :: e in events;
      var next := Step(d, events[0]);
      if events[0].Start? { NeverLost(next, events[1..]); } else { LostUntilStarted(next, events[1..]); }
    }
  }
}
