/** The helper's frame loop: request bodies collected per id, tasks spawned, cancelled and drained. */
module H3Loop {
  import opened Wrappers
  import opened Bytes
  import opened H3Framing

  const REQUEST: Byte := 0x10
  const REQUEST_BODY: Byte := 0x11
  const REQUEST_END: Byte := 0x12
  const CANCEL: Byte := 0x1F

  /** A parsed request head: what it announces of its body, and the rest of it. */
  datatype Head = Head(bodyBytes: nat, rest: Octets)

  datatype PendingBody = PendingBody(head: Head, body: Octets)

  /** What the loop sets off: a hop task, or one ERROR frame. */
  datatype Report = Spawned(id: Id, head: Head, body: Octets) | BadRequest(id: Id) | BodyMismatch(id: Id)

  /** One turn of the select: a frame or the idle timer, and the tasks, by number, that have finished by then. */
  datatype Turn = FrameTurn(frame: Frame, finished: set<nat>) | IdleTurn(finished: set<nat>)

  /**
   * Tasks are numbered as they are spawned. `running` holds the handles, one per id; `over` are the tasks that
   * have finished or were aborted, with or without a handle.
   */
  datatype LoopState = LoopState(
    pending: map<Id, PendingBody>,
    running: map<Id, nat>,
    reports: seq<Report>,
    spawned: nat,
    over: set<nat>)

  const START := LoopState(map[], map[], [], 0, {})

  function Unfinished(running: map<Id, nat>, finished: set<nat>): map<Id, nat> {
    map id | id in running && running[id] !in finished :: running[id]
  }

  function Retained(s: LoopState, finished: set<nat>): LoopState {
    s.(running := Unfinished(s.running, finished), over := s.over + set t | t in finished && t < s.spawned)
  }

  /** The new handle takes the place of one that is still there under this id: that task is detached. */
  function Spawn(s: LoopState, id: Id, head: Head, body: Octets): LoopState {
    s.(running := s.running[id := s.spawned], spawned := s.spawned + 1,
       reports := s.reports + [Spawned(id, head, body)])
  }

  function OnRequest(s: LoopState, id: Id, parsed: Option<Head>): LoopState {
    match parsed
    case None => s.(reports := s.reports + [BadRequest(id)])
    case Some(head) =>
      if head.bodyBytes == 0 then Spawn(s, id, head, []) else s.(pending := s.pending[id := PendingBody(head, [])])
  }

  function OnBody(s: LoopState, id: Id, payload: Octets): LoopState {
    if id !in s.pending then s
    else
      var entry := PendingBody(s.pending[id].head, s.pending[id].body + payload);
      if |entry.body| > entry.head.bodyBytes then
        s.(pending := s.pending - {id}, reports := s.reports + [BodyMismatch(id)])
      else s.(pending := s.pending[id := entry])
  }

  function OnEnd(s: LoopState, id: Id): LoopState {
    if id !in s.pending then s
    else
      var entry, s' := s.pending[id], s.(pending := s.pending - {id});
      if |entry.body| != entry.head.bodyBytes then s'.(reports := s'.reports + [BodyMismatch(id)])
      else Spawn(s', id, entry.head, entry.body)
  }

  function OnCancel(s: LoopState, id: Id): LoopState {
    s.(pending := s.pending - {id}, running := s.running - {id},
       over := if id in s.running then s.over + {s.running[id]} else s.over)
  }

  function OnFrame(s: LoopState, f: Frame, parse: Octets -> Option<Head>): LoopState {
    if f.frameType == REQUEST then OnRequest(s, f.id, parse(f.payload))
    else if f.frameType == REQUEST_BODY then OnBody(s, f.id, f.payload)
    else if f.frameType == REQUEST_END then OnEnd(s, f.id)
    else if f.frameType == CANCEL then OnCancel(s, f.id)
    else s
  }

  function Turned(s: LoopState, turn: Turn, parse: Octets -> Option<Head>): LoopState {
    match turn
    case FrameTurn(frame, finished) => OnFrame(Retained(s, finished), frame, parse)
    case IdleTurn(finished) => Retained(s, finished)
  }

  /** The end of input: every task held is awaited. */
  function Awaited(s: LoopState): LoopState { s.(running := map[], over := s.over + s.running.Values) }

  class Helper {
    const parse: Octets -> Option<Head>
    var pending: map<Id, PendingBody>
    var running: map<Id, nat>
    var reports: seq<Report>
    var spawned: nat
    ghost var over: set<nat>

    constructor (parse: Octets -> Option<Head>)
      ensures this.parse == parse && State() == START
    {
      this.parse := parse;
      pending, running, reports, spawned, over := map[], map[], [], 0, {};
    }

    ghost function State(): LoopState
      reads this
    {
      LoopState(pending, running, reports, spawned, over)
    }

    method Retain(finished: set<nat>)
      modifies this
      ensures State() == Retained(old(State()), finished)
    {
      running := Unfinished(running, finished);
      over := over + set t | t in finished && t < spawned;
    }

    method SpawnTask(id: Id, head: Head, body: Octets)
      modifies this
      ensures State() == Spawn(old(State()), id, head, body)
    {
      running, spawned := running[id := spawned], spawned + 1;
      reports := reports + [Spawned(id, head, body)];
    }

    method Handle(frame: Frame, finished: set<nat>)
      modifies this
      ensures State() == Turned(old(State()), FrameTurn(frame, finished), parse)
    {
      Retain(finished);
      var id := frame.id;
      if frame.frameType == REQUEST {
        match parse(frame.payload) {
          case Some(head) =>
            if head.bodyBytes == 0 {
              SpawnTask(id, head, []);
            } else {
              pending := pending[id := PendingBody(head, [])];
            }
          case None => reports := reports + [BadRequest(id)];
        }
      } else if frame.frameType == REQUEST_BODY {
        if id in pending {
          var entry := PendingBody(pending[id].head, pending[id].body + frame.payload);
          pending := pending[id := entry];
          if |entry.body| > entry.head.bodyBytes {
            pending := pending - {id};
            reports := reports + [BodyMismatch(id)];
          }
        }
      } else if frame.frameType == REQUEST_END {
        if id in pending {
          var entry := pending[id];
          pending := pending - {id};
          if |entry.body| != entry.head.bodyBytes {
            reports := reports + [BodyMismatch(id)];
            return;
          }
          SpawnTask(id, entry.head, entry.body);
        }
      } else if frame.frameType == CANCEL {
        pending := pending - {id};
        if id in running {
          over := over + {running[id]};
          running := running - {id};
        }
      }
    }

    /** The idle timer: exits only with nothing pending and nothing held. */
    method Idle(finished: set<nat>) returns (exit: bool)
      modifies this
      ensures State() == Turned(old(State()), IdleTurn(finished), parse)
      ensures exit <==> pending == map[] && running == map[]
    {
      Retain(finished);
      exit := |running| == 0 && |pending| == 0;
    }

    /** The end of input: the handles are awaited one by one, in any order. */
    method AwaitRunning()
      modifies this
      ensures State() == Awaited(old(State()))
    {
      var left := running.Keys;
      while left != {}
        invariant left <= running.Keys && running == old(running)
        invariant pending == old(pending) && reports == old(reports) && spawned == old(spawned)
        invariant over == old(over) + set id | id in running && id !in left :: running[id]
        decreases left
      {
        var id :| id in left;
        left := left - {id};
        over := over + {running[id]};
      }
      assert (set id | id in running :: running[id]) == running.Values;
      running := map[];
    }
  }

  // One id at a time

  function Run(s: LoopState, turns: seq<Turn>, parse: Octets -> Option<Head>): LoopState
    decreases |turns|
  {
    if turns == [] then s else Run(Turned(s, turns[0], parse), turns[1..], parse)
  }

  /** The frames of one id, in order. */
  function FramesOf(turns: seq<Turn>, id: Id): seq<Frame> {
    if turns == [] then []
    else
      (if turns[0].FrameTurn? && turns[0].frame.id == id then [turns[0].frame] else []) + FramesOf(turns[1..], id)
  }

  function ReportsOf(reports: seq<Report>, id: Id): seq<Report> {
    if reports == [] then []
    else (if reports[0].id == id then [reports[0]] else []) + ReportsOf(reports[1..], id)
  }

  function PendingOf(s: LoopState, id: Id): Option<PendingBody> {
    if id in s.pending then Some(s.pending[id]) else None
  }

  /** What the frames of one id come to by themselves. */
  function Fate(id: Id, pending: Option<PendingBody>, frames: seq<Frame>, parse: Octets -> Option<Head>): seq<Report>
    decreases |frames|
  {
    if frames == [] then []
    else
      var f, rest := frames[0], frames[1..];
      if f.frameType == REQUEST then
        match parse(f.payload)
        case None => [BadRequest(id)] + Fate(id, pending, rest, parse)
        case Some(head) =>
          if head.bodyBytes == 0 then [Spawned(id, head, [])] + Fate(id, pending, rest, parse)
          else Fate(id, Some(PendingBody(head, [])), rest, parse)
      else if f.frameType == REQUEST_BODY && pending.Some? then
        var entry := PendingBody(pending.value.head, pending.value.body + f.payload);
        if |entry.body| > entry.head.bodyBytes then [BodyMismatch(id)] + Fate(id, None, rest, parse)
        else Fate(id, Some(entry), rest, parse)
      else if f.frameType == REQUEST_END && pending.Some? then
        var entry := pending.value;
        [if |entry.body| != entry.head.bodyBytes then BodyMismatch(id) else Spawned(id, entry.head, entry.body)]
        + Fate(id, None, rest, parse)
      else if f.frameType == CANCEL then Fate(id, None, rest, parse)
      else Fate(id, pending, rest, parse)
  }

  lemma {:induction false} ReportsAppend(xs: seq<Report>, ys: seq<Report>, id: Id)
    ensures ReportsOf(xs + ys, id) == ReportsOf(xs, id) + ReportsOf(ys, id)
  {
    ReportsNone(id);
    hide ReportsOf;
    if xs == [] {
      assert xs + ys == ys;
    } else {
      ReportsAppend(xs[1..], ys, id);
      ReportsFirst(xs, id);
      ReportsFirst(xs + ys, id);
      assert (xs + ys)[1..] == xs[1..] + ys;
    }
  }

  lemma {:induction false} ReportsNone(id: Id)
    ensures ReportsOf([], id) == []
  {
  }

  lemma {:induction false} ReportsFirst(xs: seq<Report>, id: Id)
    requires xs != []
    ensures ReportsOf(xs, id) == if xs[0].id == id then [xs[0]] + ReportsOf(xs[1..], id) else ReportsOf(xs[1..], id)
  {
  }

  /** A frame of another id leaves this id's pending body alone and reports nothing for it. */
  lemma {:induction false} OthersDoNotInterfere(s: LoopState, f: Frame, id: Id, parse: Octets -> Option<Head>)
    requires f.id != id
    ensures PendingOf(OnFrame(s, f, parse), id) == PendingOf(s, id)
    ensures ReportsOf(OnFrame(s, f, parse).reports, id) == ReportsOf(s.reports, id)
  {
    var s' := OnFrame(s, f, parse);
    if s'.reports != s.reports {
      var last := s'.reports[|s.reports|];
      assert s'.reports == s.reports + [last];
      ReportsAppend(s.reports, [last], id);
      assert [last][1..] == [];
    }
  }

  /** A frame tells at most one thing, about its own id. */
  lemma {:induction false} FrameTells(s: LoopState, f: Frame, parse: Octets -> Option<Head>)
    ensures var told := OnFrame(s, f, parse).reports;
            && s.reports <= told && |told| <= |s.reports| + 1
            && (|told| > |s.reports| ==> told[|s.reports|].id == f.id)
  {
  }

  lemma {:induction false} OwnFate(s: LoopState, f: Frame, rest: seq<Frame>, parse: Octets -> Option<Head>)
    ensures var s' := OnFrame(s, f, parse);
            s.reports <= s'.reports
            && Fate(f.id, PendingOf(s, f.id), [f] + rest, parse) ==
               s'.reports[|s.reports|..] + Fate(f.id, PendingOf(s', f.id), rest, parse)
  {
    var s' := OnFrame(s, f, parse);
    assert ([f] + rest)[1..] == rest;
    var told, later := s'.reports[|s.reports|..], Fate(f.id, PendingOf(s', f.id), rest, parse);
    if s'.reports == s.reports {
      assert told + later == later;
    } else {
      assert told == [s'.reports[|s.reports|]];
    }
  }

  /** A frame of this id does to the loop what it does to the id's own fate. */
  lemma {:induction false} OwnFrame(s: LoopState, f: Frame, rest: seq<Frame>, parse: Octets -> Option<Head>)
    ensures var s' := OnFrame(s, f, parse);
            ReportsOf(s'.reports, f.id) + Fate(f.id, PendingOf(s', f.id), rest, parse) ==
            ReportsOf(s.reports, f.id) + Fate(f.id, PendingOf(s, f.id), [f] + rest, parse)
  {
    hide OnFrame, Fate, ReportsOf, PendingOf;
    var s' := OnFrame(s, f, parse);
    FrameTells(s, f, parse);
    OwnFate(s, f, rest, parse);
    var told, later := s'.reports[|s.reports|..], Fate(f.id, PendingOf(s', f.id), rest, parse);
    assert s'.reports == s.reports + told;
    ReportsAppend(s.reports, told, f.id);
    OwnReports(told, f.id);
    assert ReportsOf(s.reports, f.id) + told + later == ReportsOf(s.reports, f.id) + (told + later);
  }

  lemma {:induction false} OwnReports(told: seq<Report>, id: Id)
    requires |told| <= 1 && (told != [] ==> told[0].id == id)
    ensures ReportsOf(told, id) == told
  {
    if told != [] { assert told[1..] == []; }
  }

  /** However requests are interleaved, and whenever tasks finish, an id's outcome is that of its own frames. */
  lemma {:induction false} IdsAreIndependent(s: LoopState, turns: seq<Turn>, id: Id, parse: Octets -> Option<Head>)
    ensures ReportsOf(Run(s, turns, parse).reports, id) ==
            ReportsOf(s.reports, id) + Fate(id, PendingOf(s, id), FramesOf(turns, id), parse)
    decreases |turns|
  {
    hide OnFrame;
    if turns != [] {
      var turn, s' := turns[0], Turned(s, turns[0], parse);
      IdsAreIndependent(s', turns[1..], id, parse);
      if turn.FrameTurn? {
        var kept := Retained(s, turn.finished);
        if turn.frame.id == id {
          OwnFrame(kept, turn.frame, FramesOf(turns[1..], id), parse);
        } else {
          OthersDoNotInterfere(kept, turn.frame, id, parse);
          assert [] + FramesOf(turns[1..], id) == FramesOf(turns[1..], id);
        }
      } else {
        assert [] + FramesOf(turns[1..], id) == FramesOf(turns[1..], id);
      }
    }
  }

  // The outcome of an id that is requested once

  predicate NoRequest(fs: seq<Frame>) { forall i | 0 <= i < |fs| :: fs[i].frameType != REQUEST }

  function FirstRequest(fs: seq<Frame>): (i: nat)
    ensures i <= |fs| && NoRequest(fs[..i]) && (i < |fs| ==> fs[i].frameType == REQUEST)
  {
    if fs == [] || fs[0].frameType == REQUEST then 0
    else
      assert forall i | 0 < i <= |fs| :: fs[..i] == [fs[0]] + fs[1..][..i - 1];
      1 + FirstRequest(fs[1..])
  }

  /** Where the body is over: the first REQUEST_END or CANCEL, or the end of what was received. */
  function BodyEnd(fs: seq<Frame>): (i: nat)
    ensures i <= |fs| && (i < |fs| ==> fs[i].frameType == REQUEST_END || fs[i].frameType == CANCEL)
  {
    if fs == [] || fs[0].frameType == REQUEST_END || fs[0].frameType == CANCEL then 0 else 1 + BodyEnd(fs[1..])
  }

  /** The REQUEST_BODY payloads, in order. */
  function Payloads(fs: seq<Frame>): Octets {
    if fs == [] then [] else (if fs[0].frameType == REQUEST_BODY then fs[0].payload else []) + Payloads(fs[1..])
  }

  /**
   * What is promised for an id requested once: its body is the concatenation of its payloads up to
   * REQUEST_END; it is run once if that is exactly as long as announced, never if it is cancelled or
   * unfinished, and otherwise gives exactly one ERROR.
   */
  function Promised(id: Id, fs: seq<Frame>, parse: Octets -> Option<Head>): seq<Report> {
    var i := FirstRequest(fs);
    if i == |fs| then []
    else
      match parse(fs[i].payload)
      case None => [BadRequest(id)]
      case Some(head) =>
        if head.bodyBytes == 0 then [Spawned(id, head, [])] else PromisedBody(id, head, [], fs[i + 1..])
  }

  function PromisedBody(id: Id, head: Head, body: Octets, rest: seq<Frame>): seq<Report> {
    var end := BodyEnd(rest);
    var total := body + Payloads(rest[..end]);
    if |total| > head.bodyBytes then [BodyMismatch(id)]
    else if end == |rest| || rest[end].frameType == CANCEL then []
    else if |total| < head.bodyBytes then [BodyMismatch(id)]
    else [Spawned(id, head, total)]
  }

  lemma {:induction false} FateWithoutRequest(id: Id, fs: seq<Frame>, parse: Octets -> Option<Head>)
    requires NoRequest(fs)
    ensures Fate(id, None, fs, parse) == []
  {
    if fs != [] { FateWithoutRequest(id, fs[1..], parse); }
  }

  lemma {:induction false} FateOfBody(id: Id, head: Head, body: Octets, rest: seq<Frame>, parse: Octets -> Option<Head>)
    requires NoRequest(rest) && |body| <= head.bodyBytes
    ensures Fate(id, Some(PendingBody(head, body)), rest, parse) == PromisedBody(id, head, body, rest)
    decreases |rest|
  {
    if rest != [] {
      var f, later := rest[0], rest[1..];
      if f.frameType == REQUEST_END || f.frameType == CANCEL {
        FateWithoutRequest(id, later, parse);
        assert body + [] == body;
      } else {
        var end := BodyEnd(later);
        assert rest[..end + 1][1..] == later[..end];
        if f.frameType == REQUEST_BODY {
          assert body + (f.payload + Payloads(later[..end])) == (body + f.payload) + Payloads(later[..end]);
          if |body + f.payload| <= head.bodyBytes {
            FateOfBody(id, head, body + f.payload, later, parse);
          } else {
            FateWithoutRequest(id, later, parse);
          }
        } else {
          assert body + ([] + Payloads(later[..end])) == body + Payloads(later[..end]);
          FateOfBody(id, head, body, later, parse);
        }
      }
    }
  }

  lemma {:induction false} FateIsAsPromised(id: Id, fs: seq<Frame>, parse: Octets -> Option<Head>)
    requires RequestsOnce(fs)
    ensures Fate(id, None, fs, parse) == Promised(id, fs, parse)
  {
    if fs != [] {
      if fs[0].frameType != REQUEST {
        var i := FirstRequest(fs);
        if i < |fs| { assert fs[i + 1..] == fs[1..][i..]; }
        FateIsAsPromised(id, fs[1..], parse);
      } else {
        FateWithoutRequest(id, fs[1..], parse);
        var parsed := parse(fs[0].payload);
        if parsed.Some? && parsed.value.bodyBytes > 0 { FateOfBody(id, parsed.value, [], fs[1..], parse); }
      }
    }
  }

  // Clients that never reuse an id

  predicate Requests(turn: Turn) { turn.FrameTurn? && turn.frame.frameType == REQUEST }

  predicate NeverReuses(turns: seq<Turn>, seen: set<Id>)
    decreases |turns|
  {
    if turns == [] then true
    else if Requests(turns[0]) then
      turns[0].frame.id !in seen && NeverReuses(turns[1..], seen + {turns[0].frame.id})
    else NeverReuses(turns[1..], seen)
  }

  lemma {:induction false} SeenIdsAreNotRequested(turns: seq<Turn>, seen: set<Id>, id: Id)
    requires NeverReuses(turns, seen) && id in seen
    ensures NoRequest(FramesOf(turns, id))
    decreases |turns|
  {
    if turns != [] {
      var seen' := if Requests(turns[0]) then seen + {turns[0].frame.id} else seen;
      SeenIdsAreNotRequested(turns[1..], seen', id);
    }
  }

  lemma {:induction false} NoFrames(id: Id)
    ensures FramesOf([], id) == []
  {
  }

  lemma {:induction false} FramesFirst(turns: seq<Turn>, id: Id)
    requires turns != []
    ensures FramesOf(turns, id) ==
      if turns[0].FrameTurn? && turns[0].frame.id == id then [turns[0].frame] + FramesOf(turns[1..], id)
      else FramesOf(turns[1..], id)
  {
  }

  lemma {:induction false} FirstOfMore(f: Frame, fs: seq<Frame>)
    ensures FirstRequest([f] + fs) == if f.frameType == REQUEST then 0 else 1 + FirstRequest(fs)
  {
    assert ([f] + fs)[1..] == fs;
  }

  /**
   * A CANCEL frame: nothing of its id is pending or held any more, the task that was held is over, and no other
   * id and no other task is touched but by what had finished.
   */
  lemma {:induction false} CancelExactly(
    s: LoopState, frame: Frame, finished: set<nat>, parse: Octets -> Option<Head>)
    requires frame.frameType == CANCEL && forall id <- s.running :: s.running[id] < s.spawned
    ensures var t, id := Turned(s, FrameTurn(frame, finished), parse), frame.id;
            && id !in t.pending && id !in t.running && t.reports == s.reports && t.spawned == s.spawned
            && (forall n :: n in t.over <==>
                  n in s.over || (n in finished && n < s.spawned) || (id in s.running && n == s.running[id]))
            && (forall other | other != id :: PendingOf(t, other) == PendingOf(s, other))
            && (forall other | other != id ::
                  (other in t.running <==> other in s.running && s.running[other] !in finished)
                  && (other in t.running ==> t.running[other] == s.running[other]))
  {
  }

  /** Once cancelled, an id runs nothing and reports nothing until it is requested again. */
  lemma {:induction false} CancelledStaysQuiet(
    s: LoopState, turns: seq<Turn>, id: Id, parse: Octets -> Option<Head>)
    requires id !in s.pending && id !in s.running && NoRequest(FramesOf(turns, id))
    ensures var t := Run(s, turns, parse);
            id !in t.pending && id !in t.running && ReportsOf(t.reports, id) == ReportsOf(s.reports, id)
    decreases |turns|
  {
    hide OnFrame, ReportsOf, Fate;
    assert ReportsOf(s.reports, id) + [] == ReportsOf(s.reports, id);
    IdsAreIndependent(s, turns, id, parse);
    FateWithoutRequest(id, FramesOf(turns, id), parse);
    if turns != [] {
      LaterFrames(turns, id);
      QuietTurn(s, turns[0], id, parse);
      hide Turned, FramesOf, NoRequest;
      CancelledStaysQuiet(Turned(s, turns[0], parse), turns[1..], id, parse);
    }
  }

  lemma {:induction false} QuietTurn(s: LoopState, turn: Turn, id: Id, parse: Octets -> Option<Head>)
    requires id !in s.pending && id !in s.running
    requires turn.FrameTurn? && turn.frame.id == id ==> turn.frame.frameType != REQUEST
    ensures id !in Turned(s, turn, parse).pending && id !in Turned(s, turn, parse).running
  {
  }

  lemma {:induction false} LaterFrames(turns: seq<Turn>, id: Id)
    requires turns != [] && NoRequest(FramesOf(turns, id))
    ensures NoRequest(FramesOf(turns[1..], id))
    ensures turns[0].FrameTurn? && turns[0].frame.id == id ==> turns[0].frame.frameType != REQUEST
  {
    var later := FramesOf(turns[1..], id);
    if turns[0].FrameTurn? && turns[0].frame.id == id {
      assert FramesOf(turns, id) == [turns[0].frame] + later;
      assert FramesOf(turns, id)[0].frameType != REQUEST;
      assert forall i | 0 <= i < |later| :: later[i] == FramesOf(turns, id)[i + 1];
    } else {
      assert FramesOf(turns, id) == [] + later == later;
    }
  }

  predicate RequestsOnce(fs: seq<Frame>) { FirstRequest(fs) < |fs| ==> NoRequest(fs[FirstRequest(fs) + 1..]) }

  /** A client that never reuses an id requests each id once. */
  lemma {:induction false} RequestedOnce(turns: seq<Turn>, seen: set<Id>, id: Id)
    requires NeverReuses(turns, seen)
    ensures RequestsOnce(FramesOf(turns, id))
    decreases |turns|
  {
    NoFrames(id);
    hide FramesOf, NoRequest, FirstRequest;
    if turns != [] {
      var turn, rest := turns[0], turns[1..];
      var tail := FramesOf(rest, id);
      FramesFirst(turns, id);
      if Requests(turn) {
        RequestedOnce(rest, seen + {turn.frame.id}, id);
        if turn.frame.id == id { SeenIdsAreNotRequested(rest, seen + {id}, id); }
      } else {
        RequestedOnce(rest, seen, id);
      }
      if turn.FrameTurn? && turn.frame.id == id {
        FirstOfMore(turn.frame, tail);
        var fs, i := [turn.frame] + tail, FirstRequest([turn.frame] + tail);
        if i < |fs| {
          assert fs[i + 1..] == tail[i..];
        }
      }
    }
  }

  lemma {:induction false} AtMostOnePromised(id: Id, fs: seq<Frame>, parse: Octets -> Option<Head>)
    ensures |Promised(id, fs, parse)| <= 1
  {
  }

  /** An id requested once ends as promised, over every interleaving and whatever other ids do. */
  lemma {:induction false} EachRequestEndsAsPromised(turns: seq<Turn>, id: Id, parse: Octets -> Option<Head>)
    requires RequestsOnce(FramesOf(turns, id))
    ensures ReportsOf(Run(START, turns, parse).reports, id) == Promised(id, FramesOf(turns, id), parse)
    ensures |ReportsOf(Run(START, turns, parse).reports, id)| <= 1
  {
    ReportsNone(id);
    AtMostOnePromised(id, FramesOf(turns, id), parse);
    hide Run, FramesOf, ReportsOf, Fate, Promised, FirstRequest;
    IdsAreIndependent(START, turns, id, parse);
    FateIsAsPromised(id, FramesOf(turns, id), parse);
    var fate := Fate(id, None, FramesOf(turns, id), parse);
    assert [] + fate == fate;
  }

  // Tasks

  /** The tasks spawned, in the order of their numbers. */
  function Tasks(reports: seq<Report>): seq<Report> {
    if reports == [] then []
    else
      var last := reports[|reports| - 1];
      Tasks(reports[..|reports| - 1]) + if last.Spawned? then [last] else []
  }

  lemma {:induction false} TasksSnoc(reports: seq<Report>, r: Report)
    ensures Tasks(reports + [r]) == Tasks(reports) + if r.Spawned? then [r] else []
  {
    assert (reports + [r])[..|reports|] == reports;
  }

  /** Between frames nothing is buffered past what was announced. */
  ghost predicate Bounded(s: LoopState) {
    forall id | id in s.pending :: |s.pending[id].body| <= s.pending[id].head.bodyBytes
  }

  /** Every handle is of a task of its own id that is not over, and no two are of the same task. */
  ghost predicate Numbered(s: LoopState) {
    && |Tasks(s.reports)| == s.spawned
    && (forall t | t in s.over :: t < s.spawned)
    && (forall id | id in s.running :: s.running[id] < s.spawned && s.running[id] !in s.over)
    && (forall id | id in s.running :: Tasks(s.reports)[s.running[id]].id == id)
  }

  lemma {:induction false} RetainIsSound(s: LoopState, finished: set<nat>)
    requires Numbered(s)
    ensures Numbered(Retained(s, finished))
  {
    hide Tasks;
  }

  lemma {:induction false} FrameIsNumbered(s: LoopState, f: Frame, parse: Octets -> Option<Head>)
    requires Numbered(s)
    ensures Numbered(OnFrame(s, f, parse))
  {
    hide Tasks;
    var t := OnFrame(s, f, parse);
    if t.reports != s.reports {
      var last := t.reports[|s.reports|];
      assert t.reports == s.reports + [last];
      TasksSnoc(s.reports, last);
    }
  }

  lemma {:induction false} TurnIsBounded(s: LoopState, turn: Turn, parse: Octets -> Option<Head>)
    requires Bounded(s)
    ensures Bounded(Turned(s, turn, parse))
  {
  }

  lemma {:induction false} TurnIsSound(s: LoopState, turn: Turn, parse: Octets -> Option<Head>)
    requires Bounded(s) && Numbered(s)
    ensures Bounded(Turned(s, turn, parse)) && Numbered(Turned(s, turn, parse))
  {
    TurnIsBounded(s, turn, parse);
    hide Bounded, Numbered, OnFrame;
    RetainIsSound(s, turn.finished);
    if turn.FrameTurn? { FrameIsNumbered(Retained(s, turn.finished), turn.frame, parse); }
  }

  /** Over whole runs of any client. */
  lemma {:induction false} RunStaysSound(s: LoopState, turns: seq<Turn>, parse: Octets -> Option<Head>)
    requires Bounded(s) && Numbered(s)
    ensures Bounded(Run(s, turns, parse)) && Numbered(Run(s, turns, parse))
    decreases |turns|
  {
    hide Turned, Bounded, Numbered;
    if turns != [] {
      TurnIsSound(s, turns[0], parse);
      RunStaysSound(Turned(s, turns[0], parse), turns[1..], parse);
    }
  }

  /** The loop can still abort or await task `t`. */
  predicate Held(s: LoopState, t: nat) { t in s.running.Values }

  /** Every task is over or held. */
  predicate AllHeld(s: LoopState) { forall t: nat | t < s.spawned :: t in s.over || Held(s, t) }

  /** A frame that spawns: a head without a body, or the end of a body as long as announced. */
  predicate Spawns(s: LoopState, f: Frame, parse: Octets -> Option<Head>) {
    || (f.frameType == REQUEST && parse(f.payload).Some? && parse(f.payload).value.bodyBytes == 0)
    || (f.frameType == REQUEST_END && f.id in s.pending && |s.pending[f.id].body| == s.pending[f.id].head.bodyBytes)
  }

  /** The task that loses its handle in a turn: its id spawns another one while it has not finished. */
  function Detached(s: LoopState, turn: Turn, parse: Octets -> Option<Head>): set<nat> {
    if turn.FrameTurn? && Spawns(s, turn.frame, parse) && turn.frame.id in Unfinished(s.running, turn.finished)
    then {s.running[turn.frame.id]} else {}
  }

  function DetachedIn(s: LoopState, turns: seq<Turn>, parse: Octets -> Option<Head>): set<nat>
    decreases |turns|
  {
    if turns == [] then {}
    else Detached(s, turns[0], parse) + DetachedIn(Turned(s, turns[0], parse), turns[1..], parse)
  }

  /** What is neither over nor held are the tasks of `lost` that are not over. */
  predicate Tracks(s: LoopState, lost: set<nat>) {
    && (forall t | t in lost :: t < s.spawned && !Held(s, t))
    && (forall t: nat | t < s.spawned :: t in s.over || Held(s, t) || t in lost)
  }

  lemma {:induction false} RetainTracks(s: LoopState, finished: set<nat>, lost: set<nat>)
    requires Numbered(s) && Tracks(s, lost)
    ensures Tracks(Retained(s, finished), lost) && Numbered(Retained(s, finished))
  {
    hide Tasks;
    var kept := Retained(s, finished);
    forall t: nat | t < s.spawned ensures t in kept.over || Held(kept, t) || t in lost {
      if Held(s, t) && t !in finished {
        var id :| id in s.running && s.running[id] == t;
        assert kept.running[id] == t;
      }
    }
  }

  lemma {:induction false} SpawnHolds(s: LoopState, id: Id, head: Head, body: Octets, t: nat)
    requires Numbered(s) && t <= s.spawned
    ensures Held(Spawn(s, id, head, body), t)
      <==> t == s.spawned || (Held(s, t) && !(id in s.running && s.running[id] == t))
  {
    hide Tasks;
    var next := Spawn(s, id, head, body);
    assert next.running[id] == s.spawned;
    OneHandleEach(s);
    if Held(s, t) && !(id in s.running && s.running[id] == t) {
      var other :| other in s.running && s.running[other] == t;
      assert next.running[other] == t;
    }
  }

  lemma {:induction false} SpawnTracks(s: LoopState, id: Id, head: Head, body: Octets, lost: set<nat>)
    requires Numbered(s) && Tracks(s, lost)
    ensures Tracks(Spawn(s, id, head, body), if id in s.running then lost + {s.running[id]} else lost)
  {
    forall t: nat | t <= s.spawned
      ensures Held(Spawn(s, id, head, body), t)
        <==> t == s.spawned || (Held(s, t) && !(id in s.running && s.running[id] == t))
    {
      SpawnHolds(s, id, head, body, t);
    }
    hide Tasks, Held;
  }

  lemma {:induction false} OneHandleEach(s: LoopState)
    requires Numbered(s)
    ensures forall i, j | i in s.running && j in s.running && s.running[i] == s.running[j] :: i == j
  {
    hide Tasks;
  }

  lemma {:induction false} CancelTracks(s: LoopState, id: Id, lost: set<nat>)
    requires Numbered(s) && Tracks(s, lost)
    ensures Tracks(OnCancel(s, id), lost)
  {
    hide Tasks;
    var next := OnCancel(s, id);
    forall t: nat | t < s.spawned && Held(s, t) ensures t in next.over || Held(next, t) {
      var other :| other in s.running && s.running[other] == t;
      if other != id { assert next.running[other] == t; }
    }
  }

  predicate SameTasks(a: LoopState, b: LoopState) {
    a.running == b.running && a.over == b.over && a.spawned == b.spawned
  }

  lemma {:induction false} SameTasksTrack(a: LoopState, b: LoopState, lost: set<nat>)
    requires SameTasks(a, b) && Tracks(b, lost)
    ensures Tracks(a, lost)
  {
  }

  /** What one frame does to the tasks. */
  lemma {:induction false} FrameTasks(s: LoopState, f: Frame, parse: Octets -> Option<Head>)
    ensures SameTasks(OnFrame(s, f, parse),
                      if Spawns(s, f, parse) then Spawn(s, f.id, Head(0, []), [])
                      else if f.frameType == CANCEL then OnCancel(s, f.id) else s)
  {
  }

  lemma {:induction false} TurnTracks(s: LoopState, turn: Turn, parse: Octets -> Option<Head>, lost: set<nat>)
    requires Numbered(s) && Tracks(s, lost)
    ensures Tracks(Turned(s, turn, parse), lost + Detached(s, turn, parse))
  {
    hide Numbered, Tracks, OnCancel, OnFrame, Spawn, SameTasks, Tasks;
    RetainTracks(s, turn.finished, lost);
    var kept := Retained(s, turn.finished);
    assert lost + {} == lost;
    if turn.FrameTurn? {
      var f, next := turn.frame, OnFrame(kept, turn.frame, parse);
      FrameTasks(kept, f, parse);
      if Spawns(kept, f, parse) {
        SpawnTracks(kept, f.id, Head(0, []), [], lost);
        SameTasksTrack(next, Spawn(kept, f.id, Head(0, []), []), lost + Detached(s, turn, parse));
      } else if f.frameType == CANCEL {
        CancelTracks(kept, f.id, lost);
        SameTasksTrack(next, OnCancel(kept, f.id), lost);
      } else {
        SameTasksTrack(next, kept, lost);
      }
    }
  }

  lemma {:induction false} RunTracks(s: LoopState, turns: seq<Turn>, parse: Octets -> Option<Head>, lost: set<nat>)
    requires Bounded(s) && Numbered(s) && Tracks(s, lost)
    ensures Tracks(Run(s, turns, parse), lost + DetachedIn(s, turns, parse))
    decreases |turns|
  {
    hide Turned, Bounded, Numbered, Tracks, Detached;
    if turns == [] {
      assert lost + {} == lost;
    } else {
      var next, now := Turned(s, turns[0], parse), Detached(s, turns[0], parse);
      TurnIsSound(s, turns[0], parse);
      TurnTracks(s, turns[0], parse, lost);
      RunTracks(next, turns[1..], parse, lost + now);
      assert lost + now + DetachedIn(next, turns[1..], parse) == lost + (now + DetachedIn(next, turns[1..], parse));
    }
  }

  lemma {:induction false} StartTracks(turns: seq<Turn>, parse: Octets -> Option<Head>)
    ensures var s := Run(START, turns, parse);
            Bounded(s) && Numbered(s) && Tracks(s, DetachedIn(START, turns, parse))
  {
    assert Numbered(START);
    RunStaysSound(START, turns, parse);
    RunTracks(START, turns, parse, {});
    assert {} + DetachedIn(START, turns, parse) == DetachedIn(START, turns, parse);
  }

  /** After any run of any client, the tasks out of reach are exactly those detached that have not finished since. */
  lemma {:induction false} UnreachableExactly(turns: seq<Turn>, t: nat, parse: Octets -> Option<Head>)
    requires t < Run(START, turns, parse).spawned
    ensures var s := Run(START, turns, parse);
            t !in s.over && !Held(s, t) <==> t in DetachedIn(START, turns, parse) && t !in s.over
  {
    StartTracks(turns, parse);
    hide Run, DetachedIn, Numbered, Bounded;
  }

  /**
   * The idle exit, with nothing pending and nothing held, leaves no task unfinished exactly when every task
   * detached has finished.
   */
  lemma {:induction false} ExitLosesExactly(turns: seq<Turn>, finished: set<nat>, parse: Octets -> Option<Head>)
    ensures var s := Turned(Run(START, turns, parse), IdleTurn(finished), parse);
            s.pending == map[] && s.running == map[] ==>
              ((forall t: nat | t < s.spawned :: t in s.over) <==> DetachedIn(START, turns, parse) <= s.over)
  {
    StartTracks(turns, parse);
    var s, lost := Run(START, turns, parse), DetachedIn(START, turns, parse);
    RetainTracks(s, finished, lost);
    hide Run, DetachedIn, Numbered, Bounded;
  }

  /** So does the end of input, whatever is still held: all of that is awaited. */
  lemma {:induction false} EndLosesExactly(turns: seq<Turn>, parse: Octets -> Option<Head>)
    ensures var s := Run(START, turns, parse);
            (forall t: nat | t < s.spawned :: t in Awaited(s).over) <==> DetachedIn(START, turns, parse) <= s.over
  {
    StartTracks(turns, parse);
    var s, lost := Run(START, turns, parse), DetachedIn(START, turns, parse);
    hide Run, DetachedIn, Numbered, Bounded;
    assert forall t | t in lost :: t in Awaited(s).over <==> t in s.over;
  }

  predicate StaysHeld(s: LoopState, turns: seq<Turn>, parse: Octets -> Option<Head>)
    decreases |turns|
  {
    AllHeld(s) && (turns == [] || StaysHeld(Turned(s, turns[0], parse), turns[1..], parse))
  }

  /** No frame spawns a task for an id whose task has not finished. */
  predicate NeverDetaches(s: LoopState, turns: seq<Turn>, parse: Octets -> Option<Head>)
    decreases |turns|
  {
    turns == [] || (Detached(s, turns[0], parse) == {} && NeverDetaches(Turned(s, turns[0], parse), turns[1..], parse))
  }

  lemma {:induction false} HeldStep(s: LoopState, turn: Turn, parse: Octets -> Option<Head>)
    requires Numbered(s) && AllHeld(s)
    ensures AllHeld(Turned(s, turn, parse)) <==> Detached(s, turn, parse) == {}
  {
    assert Tracks(s, {});
    TurnTracks(s, turn, parse, {});
    var lost := Detached(s, turn, parse);
    assert {} + lost == lost;
    if lost != {} {
      var t :| t in lost;
      DetachedIsUnfinished(s, turn, parse, t);
      hide Turned, Detached;
      assert !Held(Turned(s, turn, parse), t);
    }
  }

  lemma {:induction false} DetachedIsUnfinished(s: LoopState, turn: Turn, parse: Octets -> Option<Head>, t: nat)
    requires Numbered(s) && t in Detached(s, turn, parse)
    ensures t !in Turned(s, turn, parse).over && t < s.spawned <= Turned(s, turn, parse).spawned
  {
    hide Tasks;
  }

  /**
   * Over whole runs of any client, every task is at all times over or held, to be aborted or awaited, exactly
   * when no frame spawns a task for an id whose task has not finished.
   */
  lemma {:induction false} HeldExactly(s: LoopState, turns: seq<Turn>, parse: Octets -> Option<Head>)
    requires Bounded(s) && Numbered(s) && AllHeld(s)
    ensures StaysHeld(s, turns, parse) <==> NeverDetaches(s, turns, parse)
    decreases |turns|
  {
    hide Turned, Bounded, Numbered, AllHeld, Detached;
    if turns != [] {
      var next := Turned(s, turns[0], parse);
      TurnIsSound(s, turns[0], parse);
      HeldStep(s, turns[0], parse);
      if AllHeld(next) { HeldExactly(next, turns[1..], parse); }
    }
  }

  lemma {:induction false} NothingDetached(s: LoopState, turns: seq<Turn>, parse: Octets -> Option<Head>)
    ensures NeverDetaches(s, turns, parse) <==> DetachedIn(s, turns, parse) == {}
    decreases |turns|
  {
    hide Turned, Detached;
    if turns != [] { NothingDetached(Turned(s, turns[0], parse), turns[1..], parse); }
  }

  // No id both collecting its body and running

  predicate Disjoint(s: LoopState) { s.pending.Keys !! s.running.Keys }

  /** A request head arrives for an id that, once what has finished is cleared away, is on the other side. */
  predicate Clashes(s: LoopState, turn: Turn, parse: Octets -> Option<Head>) {
    && Requests(turn)
    && var parsed := parse(turn.frame.payload);
       && parsed.Some?
       && if parsed.value.bodyBytes > 0 then turn.frame.id in Unfinished(s.running, turn.finished)
          else turn.frame.id in s.pending
  }

  lemma {:induction false} DisjointStep(s: LoopState, turn: Turn, parse: Octets -> Option<Head>)
    requires Disjoint(s)
    ensures Disjoint(Turned(s, turn, parse)) <==> !Clashes(s, turn, parse)
  {
    if Clashes(s, turn, parse) {
      var id, t := turn.frame.id, Turned(s, turn, parse);
      assert id in t.pending.Keys && id in t.running.Keys;
    }
  }

  predicate StaysDisjoint(s: LoopState, turns: seq<Turn>, parse: Octets -> Option<Head>)
    decreases |turns|
  {
    Disjoint(s) && (turns == [] || StaysDisjoint(Turned(s, turns[0], parse), turns[1..], parse))
  }

  predicate NeverClashes(s: LoopState, turns: seq<Turn>, parse: Octets -> Option<Head>)
    decreases |turns|
  {
    turns == [] || (!Clashes(s, turns[0], parse) && NeverClashes(Turned(s, turns[0], parse), turns[1..], parse))
  }

  /** Over whole runs of any client, no id is ever pending and running at once exactly when no head clashes. */
  lemma {:induction false} DisjointExactly(s: LoopState, turns: seq<Turn>, parse: Octets -> Option<Head>)
    requires Disjoint(s)
    ensures StaysDisjoint(s, turns, parse) <==> NeverClashes(s, turns, parse)
    decreases |turns|
  {
    hide Turned, Disjoint, Clashes;
    if turns != [] {
      DisjointStep(s, turns[0], parse);
      var next := Turned(s, turns[0], parse);
      if Disjoint(next) { DisjointExactly(next, turns[1..], parse); }
    }
  }

  /** Ids pending or running have been seen. */
  predicate OnlySeen(s: LoopState, seen: set<Id>) { s.pending.Keys + s.running.Keys <= seen }

  lemma {:induction false} SeenStep(s: LoopState, turn: Turn, seen: set<Id>, parse: Octets -> Option<Head>)
    requires OnlySeen(s, seen)
    ensures OnlySeen(Turned(s, turn, parse), if Requests(turn) then seen + {turn.frame.id} else seen)
    ensures Requests(turn) && turn.frame.id !in seen ==> !Clashes(s, turn, parse)
  {
  }

  /** So it is for clients that never reuse an id. */
  lemma {:induction false} NoReuseNoClash(
    s: LoopState, turns: seq<Turn>, seen: set<Id>, parse: Octets -> Option<Head>)
    requires OnlySeen(s, seen) && NeverReuses(turns, seen)
    ensures NeverClashes(s, turns, parse)
    decreases |turns|
  {
    hide Turned, OnlySeen;
    if turns != [] {
      SeenStep(s, turns[0], seen, parse);
      var seen' := if Requests(turns[0]) then seen + {turns[0].frame.id} else seen;
      NoReuseNoClash(Turned(s, turns[0], parse), turns[1..], seen', parse);
    }
  }

  lemma {:induction false} FreshDetachesNothing(
    s: LoopState, turn: Turn, seen: set<Id>, parse: Octets -> Option<Head>)
    requires Disjoint(s) && OnlySeen(s, seen) && (Requests(turn) ==> turn.frame.id !in seen)
    ensures Detached(s, turn, parse) == {}
  {
  }

  /** Nor do they ever detach a task. */
  lemma {:induction false} NoReuseNoDetach(
    s: LoopState, turns: seq<Turn>, seen: set<Id>, parse: Octets -> Option<Head>)
    requires Disjoint(s) && OnlySeen(s, seen) && NeverReuses(turns, seen)
    ensures NeverDetaches(s, turns, parse)
    decreases |turns|
  {
    hide Turned, OnlySeen, Disjoint, Clashes, Detached;
    if turns != [] {
      SeenStep(s, turns[0], seen, parse);
      NoRequestNoClash(s, turns[0], parse);
      FreshDetachesNothing(s, turns[0], seen, parse);
      DisjointStep(s, turns[0], parse);
      var seen' := if Requests(turns[0]) then seen + {turns[0].frame.id} else seen;
      NoReuseNoDetach(Turned(s, turns[0], parse), turns[1..], seen', parse);
    }
  }

  lemma {:induction false} NoRequestNoClash(s: LoopState, turn: Turn, parse: Octets -> Option<Head>)
    ensures !Requests(turn) ==> !Clashes(s, turn, parse)
  {
  }

  /** So such a client loses nothing, neither at the idle exit nor at the end of input. */
  lemma {:induction false} NoReuseLosesNothing(turns: seq<Turn>, finished: set<nat>, parse: Octets -> Option<Head>)
    requires NeverReuses(turns, {})
    ensures var s := Turned(Run(START, turns, parse), IdleTurn(finished), parse);
            s.pending == map[] && s.running == map[] ==> forall t: nat | t < s.spawned :: t in s.over
    ensures var s := Run(START, turns, parse);
            forall t: nat | t < s.spawned :: t in Awaited(s).over
  {
    NoReuseNoDetach(START, turns, {}, parse);
    NothingDetached(START, turns, parse);
    ExitLosesExactly(turns, finished, parse);
    EndLosesExactly(turns, parse);
    hide Run, DetachedIn, NeverReuses;
  }

  /** A clash: a request reused while its id runs leaves the id pending and running at once. */
  lemma {:induction false} ReuseCanClash(id: Id, empty: Octets, full: Octets, parse: Octets -> Option<Head>)
    requires parse(empty) == Some(Head(0, [])) && parse(full) == Some(Head(1, []))
    ensures var turns := [FrameTurn(Frame(REQUEST, id, empty), {}), FrameTurn(Frame(REQUEST, id, full), {})];
            var s := Run(START, turns, parse);
            id in s.pending && id in s.running
  {
    var turns := [FrameTurn(Frame(REQUEST, id, empty), {}), FrameTurn(Frame(REQUEST, id, full), {})];
    var s1 := Turned(START, turns[0], parse);
    assert id in s1.running;
    var s2 := Turned(s1, turns[1], parse);
    assert turns[1..][0] == turns[1] && turns[1..][1..] == [];
    assert Run(START, turns, parse) == Run(s1, turns[1..], parse) == Run(s2, [], parse);
  }

  /** Two requests with one id while the first runs: the first is out of reach, and the idle exit cuts it off. */
  lemma {:induction false} ReuseCanDetach(id: Id, empty: Octets, parse: Octets -> Option<Head>)
    requires parse(empty) == Some(Head(0, []))
    ensures var turns := [FrameTurn(Frame(REQUEST, id, empty), {}), FrameTurn(Frame(REQUEST, id, empty), {})];
            var s := Turned(Run(START, turns, parse), IdleTurn({1}), parse);
            && s.pending == map[] && s.running == map[] && s.spawned == 2 && s.over == {1}
            && NeverClashes(START, turns, parse)
  {
    var request := FrameTurn(Frame(REQUEST, id, empty), {});
    var turns := [request, request];
    var s1 := Turned(START, request, parse);
    assert s1.running == map[id := 0] && s1.pending == map[] && s1.over == {} && s1.spawned == 1;
    var s2 := Turned(s1, request, parse);
    assert Unfinished(s1.running, {}) == map[id := 0];
    assert s2.running == map[id := 1] && s2.pending == map[] && s2.over == {} && s2.spawned == 2;
    assert turns[1..] == [request] && [request][1..] == [];
    assert Run(START, turns, parse) == Run(s1, [request], parse) == Run(s2, [], parse);
    var s3 := Turned(s2, IdleTurn({1}), parse);
    assert s3.running == map[] && s3.over == {1};
    assert NeverClashes(s2, [], parse) && NeverClashes(s1, [request], parse);
  }
}
