/** With nothing overlapping, the interleaved outbox does what its operations do one after another. */
module OutboxSequential {
  import opened Outbox
  import opened OutboxConservation
  import O = OutboxOverlap

  /** The interleaved outbox holds what the other one holds, in the same order, behind the same circuit. */
  predicate Agrees(s: O.System, t: State) {
    s.entries == t.entries && s.down == t.down && s.next == t.next
  }

  // The interleaved drain, alone

  lemma {:induction false} OnwardsShrinks(s: O.System, channels: seq<Channel>)
    ensures var t := O.Onwards(s, channels); t.queue == [] || |t.ahead| < |channels|
    decreases |channels|
  {
    if channels != [] && !s.down && OfChannel(s.entries, channels[0]) == [] { OnwardsShrinks(s, channels[1..]); }
  }

  lemma {:induction false} DrainShrinks(s: O.System, d: Delivery)
    requires s.queue != []
    ensures var t := O.DrainWent(s, d);
            t.queue == [] || |t.ahead| < |s.ahead| || (t.ahead == s.ahead && |t.queue| < |s.queue|)
  {
    hide O.Onwards, O.Dropped;
    var e := s.queue[0];
    var failed := s.(entries := Bumped(s.entries, e.id), down := true, unknown := s.unknown + 1);
    O.DroppedKeeps(s, e);
    OnwardsShrinks(O.Dropped(s, e).(answered := s.answered + [e.id], queue := s.queue[1..]), s.ahead);
    OnwardsShrinks(failed, s.ahead);
    OnwardsShrinks(O.Dropped(failed, e), s.ahead);
  }

  /** The wire answers the drain, entry after entry, until there is nothing left to try. */
  function Finished(s: O.System, wire: nat -> Delivery): O.System
    decreases |s.ahead|, |s.queue|
  {
    if s.queue == [] then s
    else
      var t := O.DrainWent(s, wire(s.queue[0].id));
      DrainShrinks(s, wire(s.queue[0].id));
      if t.queue == [] then t else Finished(t, wire)
  }

  /** The channels drained one after another. */
  function Through(t: State, channels: seq<Channel>, wire: nat -> Delivery): State
    decreases |channels|
  {
    if channels == [] then t else Through(DrainChannel(t, channels[0], {channels[0]}, wire), channels[1..], wire)
  }

  lemma {:induction false} ThroughWhenDown(t: State, channels: seq<Channel>, wire: nat -> Delivery)
    requires t.down
    ensures Through(t, channels, wire) == t
    decreases |channels|
  {
    if channels != [] { ThroughWhenDown(t, channels[1..], wire); }
  }

  lemma {:induction false} IdIsIn(entries: seq<Entry>, e: Entry)
    requires e in entries
    ensures e.id in O.Ids(entries) && e.id in O.Ids(Bumped(entries, e.id))
  {
    O.SealedIds(entries);
    O.CountPresent(entries, e.id);
    O.CountPresent(Bumped(entries, e.id), e.id);
    hide O.Ids, O.Count, Bumped;
    O.CountBumped(entries, e.id, e.id);
  }

  /** A failed delivery does the same to both, and ends both drains. */
  lemma {:induction false} FailureAgrees(s: O.System, t: State)
    requires Agrees(s, t) && s.queue != [] && s.queue[0] in s.entries
    ensures var after := O.DrainWent(s, Undelivered);
            after.queue == [] && Agrees(after, Failed(t, s.queue[0])) && Failed(t, s.queue[0]).down
  {
    hide O.Onwards, O.Ids, Bumped, Without;
    var e := s.queue[0];
    var failed := s.(entries := Bumped(s.entries, e.id), down := true, unknown := s.unknown + 1);
    BumpThenDrop(s.entries, e.id);
    IdIsIn(s.entries, e);
    O.OnwardsWhenDown(failed, s.ahead);
    O.OnwardsWhenDown(O.Dropped(failed, e), s.ahead);
  }

  /** An answer does the same to both. */
  lemma {:induction false} AnswerAgrees(s: O.System, t: State, d: Delivery)
    requires Agrees(s, t) && s.queue != [] && s.queue[0] in s.entries && d != Undelivered && Ascending(s.entries)
    ensures var over := O.Dropped(s, s.queue[0]).(answered := s.answered + [s.queue[0].id], queue := s.queue[1..]);
            && Agrees(over, Answered(t, s.queue[0], d)) && over.ahead == s.ahead && over.down == s.down
            && over.entries == Without(s.entries, s.queue[0].id) && Ascending(over.entries)
            && O.DrainWent(s, d) == (if over.queue == [] then O.Onwards(over, s.ahead) else over)
  {
    WithoutSelects(s.entries, s.queue[0].id);
    IdIsIn(s.entries, s.queue[0]);
    hide O.Onwards, O.Ids, Without, Ascending;
  }

  lemma {:induction false} RestIsThere(entries: seq<Entry>, queue: seq<Entry>)
    requires queue != [] && Ascending(queue) && forall e <- queue :: e in entries
    ensures Ascending(queue[1..]) && forall e <- queue[1..] :: e in Without(entries, queue[0].id)
  {
    WithoutSelects(entries, queue[0].id);
    AscendingTail(queue);
    assert forall e <- queue[1..] :: e in queue;
  }

  lemma {:induction false} Unrolled(s: O.System, wire: nat -> Delivery)
    requires s.queue != []
    ensures Finished(s, wire) == Finished(O.DrainWent(s, wire(s.queue[0].id)), wire)
  {
    hide O.DrainWent;
  }

  lemma {:induction false} NextTry(t: State, queue: seq<Entry>, wire: nat -> Delivery)
    requires queue != []
    ensures DrainQueue(t, queue, wire) ==
              if wire(queue[0].id) == Undelivered then Failed(t, queue[0])
              else DrainQueue(Answered(t, queue[0], wire(queue[0].id)), queue[1..], wire)
  {
    hide Failed, Answered;
  }

  /** The queue on the wire, and then the channels ahead. */
  lemma {:induction false} QueueAgrees(s: O.System, t: State, wire: nat -> Delivery)
    requires Agrees(s, t) && s.queue != [] && Ascending(s.entries)
    requires !s.down && Ascending(s.queue) && forall e <- s.queue :: e in s.entries
    ensures Agrees(Finished(s, wire), Through(DrainQueue(t, s.queue, wire), s.ahead, wire))
    decreases |s.ahead|, |s.queue|
  {
    hide *;
    var e, d := s.queue[0], wire(s.queue[0].id);
    assert e in s.queue;
    Unrolled(s, wire);
    NextTry(t, s.queue, wire);
    if d == Undelivered {
      FailureAgrees(s, t);
      ThroughWhenDown(Failed(t, e), s.ahead, wire);
      NothingToTry(O.DrainWent(s, d), wire);
    } else {
      var over := O.Dropped(s, e).(answered := s.answered + [e.id], queue := s.queue[1..]);
      var next := Answered(t, e, d);
      AnswerAgrees(s, t, d);
      RestIsThere(s.entries, s.queue);
      if over.queue == [] {
        NothingQueued(next, wire);
        ChannelsAgree(over, next, s.ahead, wire);
      } else {
        QueueAgrees(over, next, wire);
      }
    }
  }

  lemma {:induction false} NothingQueued(t: State, wire: nat -> Delivery)
    ensures DrainQueue(t, [], wire) == t
  {
  }

  lemma {:induction false} NothingToTry(s: O.System, wire: nat -> Delivery)
    requires s.queue == []
    ensures Finished(s, wire) == s
  {
  }

  /** The channels one after another, an empty one passed over. */
  lemma {:induction false} ChannelsAgree(s: O.System, t: State, channels: seq<Channel>, wire: nat -> Delivery)
    requires Agrees(s, t) && s.queue == [] && Ascending(s.entries)
    ensures Agrees(Finished(O.Onwards(s, channels), wire), Through(t, channels, wire))
    decreases |channels|, 0
  {
    if channels == [] || s.down {
      ThroughWhenOver(t, channels, wire);
    } else {
      var queue := OfChannel(s.entries, channels[0]);
      ChannelsSplit(s.entries, channels[0]);
      if queue == [] {
        ChannelsAgree(s, t, channels[1..], wire);
      } else {
        hide Finished, Ascending;
        QueueAgrees(s.(queue := queue, ahead := channels[1..]), t, wire);
      }
    }
  }

  lemma {:induction false} ThroughWhenOver(t: State, channels: seq<Channel>, wire: nat -> Delivery)
    requires channels == [] || t.down
    ensures Through(t, channels, wire) == t
  {
    if t.down { ThroughWhenDown(t, channels, wire); }
  }

  /** The channels a drain looks at: those with a wire, usage first. */
  function Wired(wires: set<Channel>): seq<Channel> {
    (if Usage in wires then [Usage] else []) + (if Errors in wires then [Errors] else [])
  }

  lemma {:induction false} DrainIsThrough(t: State, wires: set<Channel>, wire: nat -> Delivery)
    ensures Drain(t, wires, wire) == Through(t, Wired(wires), wire)
  {
    hide DrainQueue;
    var m := DrainChannel(t, Usage, wires, wire);
    assert Through(m, [], wire) == m;
    assert [Usage][1..] == [] && [Errors][1..] == [] && [Usage, Errors][1..] == [Errors];
    assert Through(Drain(t, wires, wire), [], wire) == Drain(t, wires, wire);
    assert Through(m, [Errors], wire) == Through(DrainChannel(m, Errors, {Errors}, wire), [], wire);
  }

  /** A drain that nothing overlaps is the drain. */
  lemma {:induction false} DrainAlone(s: O.System, t: State, wires: set<Channel>, wire: nat -> Delivery)
    requires Agrees(s, t) && s.queue == [] && Ascending(s.entries)
    ensures Agrees(Finished(O.Step(s, O.DrainStarts(Wired(wires))), wire), Drain(t, wires, wire))
  {
    ChannelsAgree(s, t, Wired(wires), wire);
    DrainIsThrough(t, wires, wire);
    hide Finished, O.Onwards, Through, Drain, Wired;
  }

  lemma {:induction false} CapAgrees(s: O.System, t: State)
    requires Agrees(s, t)
    ensures Agrees(O.Kept(s), Capped(t))
    decreases |s.entries|
  {
    if |s.entries| > MAX_ENTRIES {
      CapAgrees(s.(entries := s.entries[1..], settled := s.settled + [s.entries[0]]),
                t.(entries := t.entries[1..], settled := t.settled + [Record(t.entries[0], Overflowed)]));
    }
  }

  /** A send whose wire answers before anything else happens is the send. */
  lemma {:induction false} SendAlone(s: O.System, t: State, c: Channel, body: string, d: Delivery)
    requires Agrees(s, t) && s.sends == []
    ensures var started := O.Step(s, O.SendStarts(c, body));
            var ended := if started.sends == [] then started else O.Step(started, O.SendEnds(0, d));
            (started.sends == [] <==> s.down) && ended.sends == [] && Agrees(ended, Send(t, c, body, d))
  {
    var e := Entry(s.next, c, body, 0);
    var tried := if s.down then t else t.(attempts := t.attempts + [Attempt(t.next, d)], down := true);
    var pushed := tried.(entries := t.entries + [e], next := t.next + 1);
    var before := s.(next := s.next + 1, entries := s.entries + [e]);
    assert [e][..0] + [e][1..] == [];
    O.KeptFrame(before);
    O.KeptFrame(before.(down := true, unknown := s.unknown + 1));
    hide O.Kept, Capped;
    if s.down {
      CapAgrees(before, pushed);
    } else {
      CapAgrees(before.(down := true, unknown := s.unknown + 1), pushed);
    }
  }

  /** A discard takes one step in both. */
  lemma {:induction false} DiscardAgrees(s: O.System, t: State, c: Channel)
    requires Agrees(s, t)
    ensures Agrees(O.Step(s, O.Discards(c)), Discard(t, c))
  {
    hide NotOfChannel, OfChannel;
  }
}
