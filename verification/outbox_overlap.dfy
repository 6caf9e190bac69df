/** The outbox while sends, discards and a drain overlap: each await is a point where anything else may happen. */
module OutboxOverlap {
  import opened Wrappers
  import opened Outbox

  datatype System = System(
    entries: seq<Entry>,
    down: bool,
    next: nat,
    // The envelopes of the sends on the wire.
    sends: seq<Entry>,
    // The entries the drain selected in its channel and has not been answered for; the first is on the wire.
    queue: seq<Entry>,
    // The channels the drain has still to look at.
    ahead: seq<Channel>,
    // What has left the outbox, or never entered it, and what the wire has answered for.
    settled: seq<Entry>,
    answered: seq<nat>,
    unknown: nat)

  datatype Happening =
    | SendStarts(channel: Channel, body: string)
    | SendEnds(index: nat, outcome: Delivery)
    | DrainStarts(wires: seq<Channel>)
    | DrainAnswered(outcome: Delivery)
    | Discards(channel: Channel)

  /** One drain at a time; `wires` are its channels that have a wire, in their order. */
  predicate Enabled(s: System, h: Happening) {
    match h
    case SendStarts(_, _) => true
    case SendEnds(i, _) => i < |s.sends|
    case DrainStarts(_) => s.queue == []
    case DrainAnswered(_) => s.queue != []
    case Discards(_) => true
  }

  function Kept(s: System): System
    decreases |s.entries|
  {
    if |s.entries| <= MAX_ENTRIES then s
    else Kept(s.(entries := s.entries[1..], settled := s.settled + [s.entries[0]]))
  }

  function PutIn(s: System, e: Entry): System { Kept(s.(entries := s.entries + [e])) }

  /** The drain goes on to its next channel; on an open circuit there is none. */
  function Onwards(s: System, channels: seq<Channel>): System
    decreases |channels|
  {
    if channels == [] || s.down then s.(queue := [], ahead := [])
    else if OfChannel(s.entries, channels[0]) == [] then Onwards(s, channels[1..])
    else s.(queue := OfChannel(s.entries, channels[0]), ahead := channels[1..])
  }

  /** An entry leaves the list, if it is still there. */
  function Dropped(s: System, e: Entry): System {
    if e.id in Ids(s.entries) then s.(entries := Without(s.entries, e.id), settled := s.settled + [e]) else s
  }

  function SendEnded(s: System, i: nat, d: Delivery): System
    requires i < |s.sends|
  {
    var e, over := s.sends[i], s.(sends := s.sends[..i] + s.sends[i + 1..]);
    if d == Undelivered then PutIn(over.(down := true, unknown := s.unknown + 1), e)
    else over.(settled := s.settled + [e], answered := s.answered + [e.id])
  }

  function DrainWent(s: System, d: Delivery): System
    requires s.queue != []
  {
    var e := s.queue[0];
    if d != Undelivered then
      var over := Dropped(s, e).(answered := s.answered + [e.id], queue := s.queue[1..]);
      if over.queue == [] then Onwards(over, s.ahead) else over
    else
      var failed := s.(entries := Bumped(s.entries, e.id), down := true, unknown := s.unknown + 1);
      Onwards(if e.attempts + 1 >= MAX_ATTEMPTS then Dropped(failed, e) else failed, s.ahead)
  }

  function Step(s: System, h: Happening): System
    requires Enabled(s, h)
  {
    match h
    case SendStarts(c, body) =>
      var e, numbered := Entry(s.next, c, body, 0), s.(next := s.next + 1);
      if s.down then PutIn(numbered, e) else numbered.(sends := s.sends + [e])
    case SendEnds(i, d) => SendEnded(s, i, d)
    case DrainStarts(wires) => Onwards(s, wires)
    case DrainAnswered(d) => DrainWent(s, d)
    case Discards(c) => s.(entries := NotOfChannel(s.entries, c), settled := s.settled + OfChannel(s.entries, c))
  }

  ghost predicate Runs(s: System, hs: seq<Happening>)
    decreases |hs|
  {
    hs == [] || (Enabled(s, hs[0]) && Runs(Step(s, hs[0]), hs[1..]))
  }

  function After(s: System, hs: seq<Happening>): System
    requires Runs(s, hs)
    decreases |hs|
  {
    if hs == [] then s else After(Step(s, hs[0]), hs[1..])
  }

  function OnFile(file: seq<(Channel, string, nat)>): System {
    var entries := seq(|file|, i requires 0 <= i < |file| => Entry(i, file[i].0, file[i].1, file[i].2));
    System(entries, false, |file|, [], [], [], [], [], 0)
  }

  // Counting envelopes

  function Ids(entries: seq<Entry>): (ids: seq<nat>)
    ensures |ids| == |entries| && forall i | 0 <= i < |ids| :: ids[i] == entries[i].id
  {
    seq(|entries|, i requires 0 <= i < |entries| => entries[i].id)
  }

  /** How many of `entries` are the envelope `id`. */
  function Count(entries: seq<Entry>, id: nat): nat { multiset(Ids(entries))[id] }

  lemma {:induction false} CountAppend(a: seq<Entry>, b: seq<Entry>, id: nat)
    ensures Count(a + b, id) == Count(a, id) + Count(b, id)
  {
    assert Ids(a + b) == Ids(a) + Ids(b);
  }

  lemma {:induction false} CountOne(e: Entry, id: nat)
    ensures Count([e], id) == if e.id == id then 1 else 0
  {
    assert Ids([e]) == [e.id];
  }

  lemma {:induction false} CountFirst(entries: seq<Entry>, id: nat)
    requires entries != []
    ensures Count(entries, id) == (if entries[0].id == id then 1 else 0) + Count(entries[1..], id)
  {
    CountAppend([entries[0]], entries[1..], id);
    CountOne(entries[0], id);
    assert entries == [entries[0]] + entries[1..];
  }

  lemma {:induction false} CountSnoc(entries: seq<Entry>, e: Entry, id: nat)
    ensures Count(entries + [e], id) == Count(entries, id) + if e.id == id then 1 else 0
  {
    CountAppend(entries, [e], id);
    CountOne(e, id);
  }

  lemma {:induction false} CountRemoved(entries: seq<Entry>, i: nat, id: nat)
    requires i < |entries|
    ensures Count(entries, id) == Count(entries[..i] + entries[i + 1..], id) + if entries[i].id == id then 1 else 0
  {
    assert entries == (entries[..i] + [entries[i]]) + entries[i + 1..];
    CountAppend(entries[..i] + [entries[i]], entries[i + 1..], id);
    CountSnoc(entries[..i], entries[i], id);
    CountAppend(entries[..i], entries[i + 1..], id);
  }

  lemma {:induction false} CountChannels(entries: seq<Entry>, c: Channel, id: nat)
    ensures Count(entries, id) == Count(OfChannel(entries, c), id) + Count(NotOfChannel(entries, c), id)
  {
    hide Count;
    if entries != [] {
      CountChannels(entries[1..], c, id);
      CountFirst(entries, id);
      var selected := if entries[0].channel == c then OfChannel(entries, c) else NotOfChannel(entries, c);
      CountFirst(selected, id);
      assert selected[1..] ==
        if entries[0].channel == c then OfChannel(entries[1..], c) else NotOfChannel(entries[1..], c);
    } else {
      assert OfChannel(entries, c) == [] && NotOfChannel(entries, c) == [];
      CountNone(id);
    }
  }

  lemma {:induction false} CountNone(id: nat)
    ensures Count([], id) == 0
  {
  }

  lemma {:induction false} CountWithout(entries: seq<Entry>, gone: nat, id: nat)
    ensures Count(Without(entries, gone), id) == if id == gone then 0 else Count(entries, id)
  {
    hide Count;
    CountNone(id);
    if entries != [] {
      CountWithout(entries[1..], gone, id);
      CountFirst(entries, id);
      if entries[0].id != gone {
        CountFirst(Without(entries, gone), id);
        assert Without(entries, gone)[1..] == Without(entries[1..], gone);
      }
    }
  }

  lemma {:induction false} CountBumped(entries: seq<Entry>, bumped: nat, id: nat)
    ensures Count(Bumped(entries, bumped), id) == Count(entries, id)
  {
    hide Count;
    if entries != [] {
      CountBumped(entries[1..], bumped, id);
      CountFirst(entries, id);
      CountFirst(Bumped(entries, bumped), id);
      assert Bumped(entries, bumped)[1..] == Bumped(entries[1..], bumped);
    }
  }

  lemma {:induction false} CountPresent(entries: seq<Entry>, id: nat)
    ensures Count(entries, id) > 0 <==> id in Ids(entries)
  {
  }

  // Every envelope is in one place, and nothing answered is tried again

  function Times(ids: seq<nat>, id: nat): nat { multiset(ids)[id] }

  /**
   * One envelope: sealed, being sent or settled, in just one of them and once; answered at most once, and then
   * neither sealed nor on its way nor waiting in the drain.
   */
  predicate Sound(s: System, id: nat) {
    && Count(s.entries, id) + Count(s.sends, id) + Count(s.settled, id) == (if id < s.next then 1 else 0)
    && Times(s.answered, id) + Count(s.entries, id) + Count(s.sends, id) <= 1
    && Times(s.answered, id) + Count(s.queue, id) + Count(s.sends, id) <= 1
    && (id >= s.next ==> Times(s.answered, id) == 0 && Count(s.queue, id) == 0)
  }

  lemma {:induction false} KeptIsSound(s: System, id: nat)
    requires Sound(s, id)
    ensures Sound(Kept(s), id)
    decreases |s.entries|
  {
    hide Count, Times;
    if |s.entries| > MAX_ENTRIES {
      CountFirst(s.entries, id);
      CountSnoc(s.settled, s.entries[0], id);
      KeptIsSound(s.(entries := s.entries[1..], settled := s.settled + [s.entries[0]]), id);
    }
  }

  lemma {:induction false} OnwardsIsSound(s: System, channels: seq<Channel>, id: nat)
    requires Sound(s, id) && s.queue == []
    ensures Sound(Onwards(s, channels), id)
    decreases |channels|
  {
    hide Count, Times;
    if channels != [] && !s.down {
      CountChannels(s.entries, channels[0], id);
      if OfChannel(s.entries, channels[0]) == [] { OnwardsIsSound(s, channels[1..], id); }
    }
  }

  lemma {:induction false} SendStartsSoundly(s: System, c: Channel, body: string, id: nat)
    requires Sound(s, id)
    ensures Sound(Step(s, SendStarts(c, body)), id)
  {
    hide Count, Times, Kept;
    var e := Entry(s.next, c, body, 0);
    CountSnoc(s.entries, e, id);
    CountSnoc(s.sends, e, id);
    if s.down { KeptIsSound(s.(next := s.next + 1, entries := s.entries + [e]), id); }
  }

  lemma {:induction false} SendEndsSoundly(s: System, i: nat, d: Delivery, id: nat)
    requires i < |s.sends| && Sound(s, id)
    ensures Sound(SendEnded(s, i, d), id)
  {
    hide Count, Kept;
    var e, sends := s.sends[i], s.sends[..i] + s.sends[i + 1..];
    CountRemoved(s.sends, i, id);
    if d == Undelivered {
      CountSnoc(s.entries, e, id);
      KeptIsSound(s.(sends := sends, down := true, unknown := s.unknown + 1, entries := s.entries + [e]), id);
    } else {
      CountSnoc(s.settled, e, id);
    }
  }

  lemma {:induction false} DroppedIsSound(s: System, e: Entry, id: nat)
    requires Sound(s, id)
    ensures Sound(Dropped(s, e), id) && (id == e.id ==> Count(Dropped(s, e).entries, id) == 0)
  {
    CountPresent(s.entries, e.id);
    hide Count, Times, Ids, Without;
    CountWithout(s.entries, e.id, id);
    CountSnoc(s.settled, e, id);
  }

  lemma {:induction false} DrainGoesSoundly(s: System, d: Delivery, id: nat)
    requires s.queue != [] && Sound(s, id)
    ensures Sound(DrainWent(s, d), id)
  {
    hide Count, Onwards, Dropped, Bumped;
    var e := s.queue[0];
    CountFirst(s.queue, id);
    CountNone(id);
    DroppedIsSound(s, e, id);
    DroppedKeeps(s, e);
    if d != Undelivered {
      var over := Dropped(s, e).(answered := s.answered + [e.id], queue := s.queue[1..]);
      assert Sound(over, id);
      if over.queue == [] { OnwardsIsSound(over, s.ahead, id); }
    } else {
      var failed := s.(entries := Bumped(s.entries, e.id), down := true, unknown := s.unknown + 1);
      CountBumped(s.entries, e.id, id);
      DroppedIsSound(failed, e, id);
      DroppedKeeps(failed, e);
      OnwardsWhenDown(failed, s.ahead);
      OnwardsWhenDown(Dropped(failed, e), s.ahead);
    }
  }

  lemma {:induction false} DroppedKeeps(s: System, e: Entry)
    ensures var t := Dropped(s, e); t == s.(entries := t.entries, settled := t.settled)
  {
  }

  lemma {:induction false} OnwardsWhenDown(s: System, channels: seq<Channel>)
    requires s.down
    ensures Onwards(s, channels) == s.(queue := [], ahead := [])
  {
  }

  lemma {:induction false} StepIsSound(s: System, h: Happening, id: nat)
    requires Sound(s, id) && Enabled(s, h)
    ensures Sound(Step(s, h), id)
  {
    hide Count, Times, SendEnded, DrainWent, Onwards, OfChannel, NotOfChannel, Kept;
    match h {
      case SendStarts(c, body) => SendStartsSoundly(s, c, body, id);
      case SendEnds(i, d) => SendEndsSoundly(s, i, d, id);
      case DrainStarts(wires) => OnwardsIsSound(s, wires, id);
      case DrainAnswered(d) => DrainGoesSoundly(s, d, id);
      case Discards(c) =>
        CountChannels(s.entries, c, id);
        CountAppend(s.settled, OfChannel(s.entries, c), id);
    }
  }

  lemma {:induction false} RunIsSound(s: System, hs: seq<Happening>, id: nat)
    requires Sound(s, id) && Runs(s, hs)
    ensures Sound(After(s, hs), id)
    decreases |hs|
  {
    hide Step, Sound, Enabled;
    if hs != [] {
      StepIsSound(s, hs[0], id);
      RunIsSound(Step(s, hs[0]), hs[1..], id);
    }
  }

  lemma {:induction false} OnFileIsSound(file: seq<(Channel, string, nat)>, id: nat)
    ensures Sound(OnFile(file), id)
  {
    FirstIds(OnFile(file).entries, id);
    CountNone(id);
  }

  lemma {:induction false} FirstIds(entries: seq<Entry>, id: nat)
    requires forall i | 0 <= i < |entries| :: entries[i].id == i
    ensures Count(entries, id) == if id < |entries| then 1 else 0
    decreases |entries|
  {
    hide Count;
    CountNone(id);
    if entries != [] {
      var last := |entries| - 1;
      assert entries == entries[..last] + [entries[last]];
      CountSnoc(entries[..last], entries[last], id);
      FirstIds(entries[..last], id);
    }
  }

  /**
   * Whatever the file held and however sends, discards and the drain overlap: every envelope is sealed, on the
   * wire with its send, or settled, in one of them alone and once; and one the wire has answered for is never
   * tried again.
   */
  lemma {:induction false} OverlapLosesNothing(file: seq<(Channel, string, nat)>, hs: seq<Happening>, id: nat)
    requires Runs(OnFile(file), hs)
    ensures var s := After(OnFile(file), hs);
            && Count(s.entries, id) + Count(s.sends, id) + Count(s.settled, id) == (if id < s.next then 1 else 0)
            && Times(s.answered, id) <= 1
            && (id in s.answered ==> id !in Ids(s.entries) && id !in Ids(s.sends) && id !in Ids(s.queue))
  {
    OnFileIsSound(file, id);
    RunIsSound(OnFile(file), hs, id);
    hide After, Runs, OnFile;
  }

  // The circuit

  /** The deliveries that may still come back unknown. */
  function OnTheWire(s: System): nat { |s.sends| + if s.queue == [] then 0 else 1 }

  lemma {:induction false} KeptFrame(s: System)
    ensures var t := Kept(s); t == s.(entries := t.entries, settled := t.settled)
    decreases |s.entries|
  {
    if |s.entries| > MAX_ENTRIES {
      KeptFrame(s.(entries := s.entries[1..], settled := s.settled + [s.entries[0]]));
    }
  }

  lemma {:induction false} PutFrame(s: System, e: Entry)
    ensures var t := PutIn(s, e); t == s.(entries := t.entries, settled := t.settled)
  {
    KeptFrame(s.(entries := s.entries + [e]));
  }

  lemma {:induction false} OpenStep(s: System, h: Happening)
    requires s.down && Enabled(s, h)
    ensures Step(s, h).down && Step(s, h).unknown + OnTheWire(Step(s, h)) <= s.unknown + OnTheWire(s)
  {
    hide PutIn, Onwards, Dropped, Bumped, Without;
    match h {
      case SendStarts(c, body) => PutFrame(s.(next := s.next + 1), Entry(s.next, c, body, 0));
      case SendEnds(i, d) =>
        var over := s.(sends := s.sends[..i] + s.sends[i + 1..]);
        PutFrame(over.(down := true, unknown := s.unknown + 1), s.sends[i]);
      case DrainStarts(wires) => OnwardsWhenDown(s, wires);
      case DrainAnswered(d) => OpenDrain(s, d);
      case Discards(c) =>
    }
  }

  lemma {:induction false} OpenDrain(s: System, d: Delivery)
    requires s.down && s.queue != []
    ensures var t := DrainWent(s, d);
            t.down && t.sends == s.sends && t.unknown + (if t.queue == [] then 0 else 1) <= s.unknown + 1
  {
    hide Onwards, Dropped, Bumped;
    var e := s.queue[0];
    var failed := s.(entries := Bumped(s.entries, e.id), down := true, unknown := s.unknown + 1);
    DroppedKeeps(s, e);
    DroppedKeeps(failed, e);
    OnwardsWhenDown(Dropped(s, e).(answered := s.answered + [e.id], queue := s.queue[1..]), s.ahead);
    OnwardsWhenDown(failed, s.ahead);
    OnwardsWhenDown(Dropped(failed, e), s.ahead);
  }

  /** Once the circuit is open, no more deliveries come back unknown than were on the wire just then. */
  lemma {:induction false} OpenCircuitBounds(s: System, hs: seq<Happening>)
    requires s.down && Runs(s, hs)
    ensures After(s, hs).down && After(s, hs).unknown <= s.unknown + OnTheWire(s)
    decreases |hs|
  {
    hide Step, Enabled;
    if hs != [] {
      OpenStep(s, hs[0]);
      OpenCircuitBounds(Step(s, hs[0]), hs[1..]);
    }
  }

  /** The envelope whose delivery an event begins. */
  function Begun(s: System, h: Happening): Option<Entry>
    requires Enabled(s, h)
  {
    match h
    case SendStarts(c, body) => if s.down then None else Some(Entry(s.next, c, body, 0))
    case SendEnds(_, _) => None
    case DrainStarts(_) => if Step(s, h).queue == [] then None else Some(Step(s, h).queue[0])
    case DrainAnswered(_) => if Step(s, h).queue == [] then None else Some(Step(s, h).queue[0])
    case Discards(_) => None
  }

  /** A delivery begins on an open circuit exactly when the drain is answered and has more of its channel selected. */
  lemma {:induction false} OpenBeginsExactly(s: System, h: Happening)
    requires s.down && Enabled(s, h)
    ensures Begun(s, h).Some? <==> h.DrainAnswered? && h.outcome != Undelivered && |s.queue| > 1
  {
    hide Dropped, Bumped, Onwards;
    if h.DrainStarts? { OnwardsWhenDown(s, h.wires); }
    if h.DrainAnswered? {
      var e := s.queue[0];
      var failed := s.(entries := Bumped(s.entries, e.id), down := true, unknown := s.unknown + 1);
      DroppedKeeps(s, e);
      DroppedKeeps(failed, e);
      OnwardsWhenDown(Dropped(s, e).(answered := s.answered + [e.id], queue := s.queue[1..]), s.ahead);
      OnwardsWhenDown(failed, s.ahead);
      OnwardsWhenDown(Dropped(failed, e), s.ahead);
    }
  }

  /** It does happen: a send fails while a channel with two entries is drained, and the second still goes out. */
  lemma {:induction false} OpenCircuitDelivers()
    ensures var s := OnFile([(Usage, "a", 0), (Usage, "b", 0)]);
            var hs := [DrainStarts([Usage]), SendStarts(Errors, "c"), SendEnds(0, Undelivered)];
            && Runs(s, hs) && After(s, hs).down && After(s, hs).unknown == 1
            && Enabled(After(s, hs), DrainAnswered(Delivered))
            && Begun(After(s, hs), DrainAnswered(Delivered)) == Some(Entry(1, Usage, "b", 0))
  {
    var a, b, c := Entry(0, Usage, "a", 0), Entry(1, Usage, "b", 0), Entry(2, Errors, "c", 0);
    var s := OnFile([(Usage, "a", 0), (Usage, "b", 0)]);
    TwoSelected(s, a, b);
    var hs := [DrainStarts([Usage]), SendStarts(Errors, "c"), SendEnds(0, Undelivered)];
    var s1 := Step(s, hs[0]);
    var s2 := Step(s1, hs[1]);
    assert s2 == s1.(next := 3, sends := [c]);
    var s3 := Step(s2, hs[2]);
    PutFrame(s2.(sends := [c][..0] + [c][1..], down := true, unknown := 1), c);
    assert s3.down && s3.unknown == 1 && s3.queue == [a, b];
    DroppedKeeps(s3, a);
    assert DrainWent(s3, Delivered).queue == [b];
    hide Step;
    ThreeSteps(s, hs, s1, s2, s3);
  }

  lemma {:induction false} TwoSelected(s: System, a: Entry, b: Entry)
    requires s.entries == [a, b] && a.channel == b.channel == Usage && !s.down
    ensures Onwards(s, [Usage]) == s.(queue := [a, b], ahead := [])
  {
    assert [a, b][1..] == [b] && [b][1..] == [];
    assert OfChannel([b], Usage) == [b] + [] == [b];
    assert OfChannel([a, b], Usage) == [a] + OfChannel([b], Usage) == [a] + [b] == [a, b];
  }

  lemma {:induction false} ThreeSteps(s: System, hs: seq<Happening>, s1: System, s2: System, s3: System)
    requires |hs| == 3 && Enabled(s, hs[0]) && s1 == Step(s, hs[0])
    requires Enabled(s1, hs[1]) && s2 == Step(s1, hs[1]) && Enabled(s2, hs[2]) && s3 == Step(s2, hs[2])
    ensures Runs(s, hs) && After(s, hs) == s3
  {
    hide Step, Enabled;
    assert hs[1..][0] == hs[1] && hs[1..][1..][0] == hs[2] && hs[1..][1..][1..] == [];
    assert Runs(s3, []) && After(s3, []) == s3;
    assert Runs(s2, hs[1..][1..]) && After(s2, hs[1..][1..]) == s3;
    assert Runs(s1, hs[1..]) && After(s1, hs[1..]) == s3;
  }

  lemma {:induction false} OnwardsIsSealed(s: System, channels: seq<Channel>)
    ensures forall e <- Onwards(s, channels).queue :: e in s.entries
    decreases |channels|
  {
    if channels != [] && !s.down {
      SelectionOf(s.entries, channels[0]);
      if OfChannel(s.entries, channels[0]) == [] { OnwardsIsSealed(s, channels[1..]); }
    }
  }

  lemma {:induction false} SelectionOf(entries: seq<Entry>, c: Channel)
    ensures forall e <- OfChannel(entries, c) :: e in entries
  {
    if entries != [] { SelectionOf(entries[1..], c); }
  }

  lemma {:induction false} SealedIds(entries: seq<Entry>)
    ensures forall e <- entries :: e.id in Ids(entries)
  {
    forall e | e in entries ensures e.id in Ids(entries) {
      var i :| 0 <= i < |entries| && entries[i] == e;
      assert Ids(entries)[i] == e.id;
    }
  }

  lemma {:induction false} OnwardsHeadIsSealed(s: System, channels: seq<Channel>)
    ensures var t := Onwards(s, channels); t.queue != [] ==> t.queue[0].id in Ids(s.entries)
  {
    hide Onwards, Ids;
    OnwardsIsSealed(s, channels);
    SealedIds(s.entries);
    var t := Onwards(s, channels);
    if t.queue != [] { assert t.queue[0] in t.queue; }
  }

  lemma {:induction false} OnwardsKeepsEntries(s: System, channels: seq<Channel>)
    ensures Onwards(s, channels).entries == s.entries
    decreases |channels|
  {
    hide OfChannel;
    if channels != [] && !s.down { OnwardsKeepsEntries(s, channels[1..]); }
  }

  lemma {:induction false} StillSealed(s: System, e: Entry, id: nat)
    requires id != e.id
    ensures id in Ids(Dropped(s, e).entries) <==> id in Ids(s.entries)
  {
    CountPresent(s.entries, id);
    CountPresent(Without(s.entries, e.id), id);
    hide Count, Ids, Without;
    CountWithout(s.entries, e.id, id);
  }

  lemma {:induction false} QueueIsDistinct(s: System)
    requires |s.queue| > 1 && Sound(s, s.queue[0].id)
    ensures s.queue[1].id != s.queue[0].id
  {
    hide Count, Times;
    var id := s.queue[0].id;
    CountFirst(s.queue, id);
    CountFirst(s.queue[1..], id);
  }

  /**
   * The drain begins the delivery of an entry no longer sealed, discarded or overflowed since it was selected,
   * exactly when it is answered and the next one it selected has left the list.
   */
  lemma {:induction false} UnsealedBeginsExactly(s: System, h: Happening)
    requires Enabled(s, h) && !h.SendStarts? && forall id: nat :: Sound(s, id)
    ensures Begun(s, h).Some? && Begun(s, h).value.id !in Ids(Step(s, h).entries)
      <==> h.DrainAnswered? && h.outcome != Undelivered && |s.queue| > 1 && s.queue[1].id !in Ids(s.entries)
  {
    if h.DrainStarts? {
      OnwardsHeadIsSealed(s, h.wires);
      OnwardsKeepsEntries(s, h.wires);
    }
    if h.DrainAnswered? {
      if |s.queue| > 1 {
        QueueIsDistinct(s);
        StillSealed(s, s.queue[0], s.queue[1].id);
      }
      hide Sound;
      AnsweredBegins(s, h.outcome);
    }
  }

  lemma {:induction false} AnsweredBegins(s: System, d: Delivery)
    requires s.queue != []
    ensures var t := DrainWent(s, d);
            && (d == Undelivered ==> t.queue == [])
            && (d != Undelivered && |s.queue| > 1 ==> t.queue == s.queue[1..])
            && (d != Undelivered && |s.queue| > 1 ==> t.entries == Dropped(s, s.queue[0]).entries)
            && (d != Undelivered && |s.queue| == 1 && t.queue != [] ==> t.queue[0].id in Ids(t.entries))
  {
    hide Onwards, Dropped, Bumped, Ids;
    var e := s.queue[0];
    var failed := s.(entries := Bumped(s.entries, e.id), down := true, unknown := s.unknown + 1);
    var over := Dropped(s, e).(answered := s.answered + [e.id], queue := s.queue[1..]);
    DroppedKeeps(failed, e);
    OnwardsWhenDown(failed, s.ahead);
    OnwardsWhenDown(Dropped(failed, e), s.ahead);
    OnwardsHeadIsSealed(over, s.ahead);
    OnwardsKeepsEntries(over, s.ahead);
  }

  /** It does happen: a channel discarded while it is drained is still delivered to its end. */
  lemma {:induction false} DiscardedGoesOut()
    ensures var s := OnFile([(Usage, "a", 0), (Usage, "b", 0)]);
            var hs := [DrainStarts([Usage]), Discards(Usage), DrainAnswered(Delivered)];
            Runs(s, hs) && After(s, hs).entries == [] && After(s, hs).queue == [Entry(1, Usage, "b", 0)]
  {
    var a, b := Entry(0, Usage, "a", 0), Entry(1, Usage, "b", 0);
    var s := OnFile([(Usage, "a", 0), (Usage, "b", 0)]);
    TwoSelected(s, a, b);
    assert [a, b][1..] == [b] && [b][1..] == [];
    assert NotOfChannel([b], Usage) == [] && NotOfChannel([a, b], Usage) == [];
    var hs := [DrainStarts([Usage]), Discards(Usage), DrainAnswered(Delivered)];
    var s1 := Step(s, hs[0]);
    var s2 := Step(s1, hs[1]);
    assert s2.entries == [] && s2.queue == [a, b] && s2.ahead == [];
    assert Ids([]) == [];
    var s3 := Step(s2, hs[2]);
    assert s3.entries == [] && s3.queue == [b];
    hide Step;
    ThreeSteps(s, hs, s1, s2, s3);
  }
}
