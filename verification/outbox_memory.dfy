/** The outbox and circuit objects, against the states of `Outbox`. */
module OutboxMemory {
  import opened Outbox
  import OutboxConservation

  /** One invocation's knowledge of the wire. */
  class Circuit {
    var down: bool

    constructor ()
      ensures !down
    {
      down := false;
    }
  }

  class TelemetryOutbox {
    var entries: seq<Entry>
    var next: nat

    /** The objects hold what the state says; the rest of the state is history. */
    ghost predicate Holds(circuit: Circuit, s: State)
      reads this, circuit
    {
      entries == s.entries && next == s.next && circuit.down == s.down
    }

    method Filter(c: Channel) returns (queue: seq<Entry>)
      ensures queue == OfChannel(entries, c)
    {
      queue := [];
      var i := 0;
      assert entries[0..] == entries;
      while i < |entries|
        invariant i <= |entries| && OfChannel(entries, c) == queue + OfChannel(entries[i..], c)
      {
        assert entries[i..][0] == entries[i] && entries[i..][1..] == entries[i + 1..];
        if entries[i].channel == c { queue := queue + [entries[i]]; }
        i := i + 1;
      }
    }

    /** Seals a body; always leaves the file to be written. */
    method Put(c: Channel, body: string, circuit: Circuit, ghost s: State)
      requires Holds(circuit, s)
      modifies this
      ensures Holds(circuit, Outbox.Put(s, c, body))
    {
      entries := entries + [Entry(next, c, body, 0)];
      next := next + 1;
      ghost var t := s.(entries := entries, next := next);
      while |entries| > MAX_ENTRIES
        invariant Holds(circuit, t) && Capped(t) == Outbox.Put(s, c, body)
        decreases |entries|
      {
        t := t.(entries := entries[1..], settled := t.settled + [Record(entries[0], Overflowed)]);
        entries := entries[1..];
      }
    }

    /** Forgets a channel; `dirty` says whether the file has to be written. */
    method Discard(c: Channel, circuit: Circuit, ghost s: State) returns (dirty: bool)
      requires Holds(circuit, s)
      modifies this
      ensures Holds(circuit, Outbox.Discard(s, c))
      ensures dirty <==> entries != s.entries
    {
      var before := |entries|;
      NotOfChannelShrinks(entries, c);
      entries := NotOfChannel(entries, c);
      dirty := |entries| != before;
    }

    /** Delivers what is sealed; the wire answers each entry it is asked for. */
    method Drain(wires: set<Channel>, wire: nat -> Delivery, circuit: Circuit, ghost s: State) returns (dirty: bool)
      requires Holds(circuit, s)
      modifies this, circuit
      ensures Holds(circuit, Outbox.Drain(s, wires, wire))
      ensures dirty <==> Outbox.Drain(s, wires, wire).attempts != s.attempts
    {
      hide DrainQueue;
      dirty := DrainOne(Usage, wires, wire, circuit, s);
      ghost var t := DrainChannel(s, Usage, wires, wire);
      var more := DrainOne(Errors, wires, wire, circuit, t);
      dirty := dirty || more;
    }

    method DrainOne(c: Channel, wires: set<Channel>, wire: nat -> Delivery, circuit: Circuit, ghost s: State)
      returns (changed: bool)
      requires Holds(circuit, s)
      modifies this, circuit
      ensures Holds(circuit, DrainChannel(s, c, wires, wire))
      ensures s.attempts <= DrainChannel(s, c, wires, wire).attempts
      ensures changed <==> DrainChannel(s, c, wires, wire).attempts != s.attempts
    {
      changed := false;
      if c !in wires || circuit.down { return; }
      var queue := Filter(c);
      ghost var t := s;
      assert queue[0..] == queue;
      for k := 0 to |queue|
        invariant Holds(circuit, t) && !t.down && s.attempts <= t.attempts
        invariant changed <==> t.attempts != s.attempts
        invariant DrainQueue(s, queue, wire) == DrainQueue(t, queue[k..], wire)
      {
        assert queue[k..][0] == queue[k] && queue[k..][1..] == queue[k + 1..];
        var entry := queue[k];
        var delivery := wire(entry.id);
        changed := true;
        if delivery != Undelivered {
          entries := Without(entries, entry.id);
          t := Answered(t, entry, delivery);
          continue;
        }
        OutboxConservation.BumpThenDrop(entries, entry.id);
        entries := Bumped(entries, entry.id);
        if entry.attempts + 1 >= MAX_ATTEMPTS { entries := Without(entries, entry.id); }
        circuit.down := true;
        return;
      }
    }

    /** A channel's transport: one try unless the circuit is open, and what the wire did not take is sealed. */
    method Send(c: Channel, body: string, outcome: Delivery, circuit: Circuit, ghost s: State) returns (dirty: bool)
      requires Holds(circuit, s)
      modifies this, circuit
      ensures Holds(circuit, Outbox.Send(s, c, body, outcome))
      ensures dirty <==> s.down || outcome == Undelivered
    {
      var delivery := Undelivered;
      ghost var tried := s;
      if !circuit.down {
        delivery := outcome;
        tried := s.(attempts := s.attempts + [Attempt(s.next, outcome)], down := outcome == Undelivered);
      }
      dirty := delivery == Undelivered;
      if dirty {
        circuit.down := true;
        Put(c, body, circuit, tried);
      } else {
        next := next + 1;
      }
    }
  }

  lemma {:induction false} NotOfChannelShrinks(entries: seq<Entry>, c: Channel)
    ensures |NotOfChannel(entries, c)| <= |entries|
    ensures |NotOfChannel(entries, c)| == |entries| ==> NotOfChannel(entries, c) == entries
  {
    if entries != [] { NotOfChannelShrinks(entries[1..], c); }
  }
}
